/** Process rules of the text replacement, their text form and its round trip (src/backend_rules.rs). */
module BackendRules {
  import opened Wrappers
  import opened Strings

  datatype Strategy = CapabilityProbe | ProtectedPaste | PhysicalReplay | ObserveOnly

  function Id(s: Strategy): (id: string)
    ensures |id| > 0 && forall c :: c in id ==> c == '-' || 'a' <= c <= 'z'
  {
    match s
    case CapabilityProbe => "capability-probe"
    case ProtectedPaste => "protected-paste"
    case PhysicalReplay => "physical-replay"
    case ObserveOnly => "observe-only"
  }

  function FromId(value: string): (s: Option<Strategy>)
  {
    var id := ToLowerAscii(Trim(value));
    if id in {"auto", "capability", "capability-probe"} then Some(CapabilityProbe)
    else if id in {"paste", "protected-paste", "uia-paste"} then Some(ProtectedPaste)
    else if id in {"replay", "physical-replay"} then Some(PhysicalReplay)
    else if id in {"disabled", "observe", "observe-only"} then Some(ObserveOnly)
    else None
  }

  /** A character no Windows file name or path holds. */
  predicate Forbidden(c: char)
  {
    var n := c as int;
    n < 32 || 127 <= n < 160 || c in {'"', '<', '>', '|', '?', '*'}
  }

  /** Characters that lowercasing neither changes nor introduces. */
  predicate Caseless(c: char)
  {
    IsSpace(c) || Forbidden(c) || c in {'/', '\\', '=', '#', '[', ']', ':'}
  }

  /** What is used of Unicode lowercasing. */
  ghost predicate LowerOk(lower: string -> string)
  {
    && (forall s {:trigger lower(lower(s))} :: lower(lower(s)) == lower(s))
    && (forall s, c :: c in lower(s) && Caseless(c) ==> c in s)
    && (forall s :: |s| > 0 && Trimmed(s) ==> |lower(s)| > 0 && Trimmed(lower(s)))
    && (forall s :: |s| > 0 ==> |lower(s)| > 0)
  }

  function WithBackslashes(s: string): (t: string)
    ensures |t| == |s|
    ensures forall i :: 0 <= i < |s| ==> t[i] == if s[i] == '/' then '\\' else s[i]
  {
    seq(|s|, i requires 0 <= i < |s| => if s[i] == '/' then '\\' else s[i])
  }

  predicate IsQuote(c: char) { c == '"' }

  function NormalizePath(lower: string -> string, path: string): (r: Option<string>)
  {
    var value := TrimWhere(Trim(path), IsQuote);
    if value == "" || exists c :: c in value && Forbidden(c) then None
    else Some(lower(WithBackslashes(value)))
  }

  function NormalizePattern(lower: string -> string, pattern: string): (r: Option<string>)
  {
    var inner := TrimWhere(Trim(pattern), IsQuote);
    if inner == "*" then Some("*") else NormalizePath(lower, inner)
  }

  datatype Rules = Rules(exact: map<string, Strategy>, fallback: Strategy)

  datatype RuleReason = ExpectedRule | InvalidPattern | HashPattern | UnknownBackend | DuplicateCatchAll | DuplicateRule

  datatype RuleError = RuleError(line: nat, reason: RuleReason)

  /** One line: nothing, or a pattern and its strategy. */
  function ReadRow(lower: string -> string, raw: string): (r: Result<Option<(string, Strategy)>, RuleReason>)
  {
    var line := Trim(raw);
    if line == "" || line[0] == '#' then Ok(None)
    else
      match SplitOnce(line, '=')
      case None => Err(ExpectedRule)
      case Some((left, right)) =>
        var pattern := NormalizePattern(lower, left);
        if pattern.None? then Err(InvalidPattern)
        else if |pattern.value| > 0 && pattern.value[0] == '#' then Err(HashPattern)
        else
          match FromId(right)
          case None => Err(UnknownBackend)
          case Some(strategy) => Ok(Some((pattern.value, strategy)))
  }

  /** The rules read so far; the catch-all may still be missing. */
  datatype Partial = Partial(exact: map<string, Strategy>, fallback: Option<Strategy>)

  function Insert(rules: Partial, pattern: string, strategy: Strategy): (r: Result<Partial, RuleReason>)
  {
    if pattern == "*" then
      if rules.fallback.Some? then Err(DuplicateCatchAll) else Ok(rules.(fallback := Some(strategy)))
    else if pattern in rules.exact then Err(DuplicateRule)
    else Ok(rules.(exact := rules.exact[pattern := strategy]))
  }

  function ReadLine(lower: string -> string, rules: Partial, line: string): (r: Result<Partial, RuleReason>)
  {
    match ReadRow(lower, line)
    case Err(e) => Err(e)
    case Ok(None) => Ok(rules)
    case Ok(Some((pattern, strategy))) => Insert(rules, pattern, strategy)
  }

  /** All lines in order, the first of them having number `number`. */
  function ReadLines(lower: string -> string, rules: Partial, lines: seq<string>, number: nat)
    : (r: Result<Partial, RuleError>)
    ensures r.Err? ==> number <= r.error.line < number + |lines|
    decreases |lines|
  {
    if lines == [] then Ok(rules)
    else
      match ReadLine(lower, rules, lines[0])
      case Err(e) => Err(RuleError(number, e))
      case Ok(more) => ReadLines(lower, more, lines[1..], number + 1)
  }

  function Finished(p: Partial): Rules
  {
    Rules(p.exact, if p.fallback.Some? then p.fallback.value else CapabilityProbe)
  }

  function Parsed(lower: string -> string, lines: seq<string>): (r: Result<Rules, RuleError>)
    ensures r.Err? ==> 1 <= r.error.line <= |lines|
  {
    match ReadLines(lower, Partial(map[], None), lines, 1)
    case Err(e) => Err(e)
    case Ok(p) => Ok(Finished(p))
  }

  /** `from_lines`: the loop over the lines, with one map and one catch-all filled in. */
  method FromLines(lower: string -> string, lines: seq<string>) returns (r: Result<Rules, RuleError>)
    ensures r == Parsed(lower, lines)
  {
    hide ReadRow;
    var exact: map<string, Strategy>, fallback: Option<Strategy> := map[], None;
    var i := 0;
    while i < |lines|
      invariant 0 <= i <= |lines|
      invariant ReadLines(lower, Partial(map[], None), lines, 1)
             == ReadLines(lower, Partial(exact, fallback), lines[i..], i + 1)
    {
      assert lines[i..][1..] == lines[i + 1..];
      var row := ReadRow(lower, lines[i]);
      if row.Err? { return Err(RuleError(i + 1, row.error)); }
      if row.value.Some? {
        var (pattern, strategy) := row.value.value;
        if pattern == "*" {
          if fallback.Some? { return Err(RuleError(i + 1, DuplicateCatchAll)); }
          fallback := Some(strategy);
        } else {
          if pattern in exact { return Err(RuleError(i + 1, DuplicateRule)); }
          exact := exact[pattern := strategy];
        }
      }
      i := i + 1;
    }
    return Ok(Rules(exact, if fallback.Some? then fallback.value else CapabilityProbe));
  }

  /** What every stored pattern satisfies, whatever the lines it was read from. */
  ghost predicate StoredPattern(lower: string -> string, p: string)
  {
    && |p| > 0 && p[0] != '#' && lower(p) == p
    && (forall c :: c in p ==> !Forbidden(c) && c != '=' && c != '/')
  }

  ghost predicate RulesOk(lower: string -> string, exact: map<string, Strategy>)
  {
    forall p :: p in exact ==> StoredPattern(lower, p)
  }

  lemma NormalizedIsStored(lower: string -> string, left: string)
    requires LowerOk(lower) && '=' !in left
    requires NormalizePattern(lower, left).Some? && NormalizePattern(lower, left).value != "*"
    requires |NormalizePattern(lower, left).value| > 0 && NormalizePattern(lower, left).value[0] != '#'
    ensures StoredPattern(lower, NormalizePattern(lower, left).value)
  {
    var inner := TrimWhere(Trim(left), IsQuote);
    var value := TrimWhere(Trim(inner), IsQuote);
    var plain := WithBackslashes(value);
    var p := lower(plain);
    forall c | c in p
      ensures !Forbidden(c) && c != '=' && c != '/'
    {
      if Caseless(c) {
        assert c in plain;
        var i :| 0 <= i < |plain| && plain[i] == c;
        assert value[i] in value && value[i] in left;
      }
    }
  }

  lemma {:induction false} ReadLinesOk(lower: string -> string, rules: Partial, lines: seq<string>, number: nat)
    requires LowerOk(lower) && RulesOk(lower, rules.exact)
    ensures var r := ReadLines(lower, rules, lines, number); r.Ok? ==> RulesOk(lower, r.value.exact)
    decreases |lines|
  {
    hide LowerOk, RulesOk, ReadLine;
    if lines != [] {
      ReadLineOk(lower, rules, lines[0]);
      var next := ReadLine(lower, rules, lines[0]);
      if next.Ok? { ReadLinesOk(lower, next.value, lines[1..], number + 1); }
    }
  }

  lemma ReadLineOk(lower: string -> string, rules: Partial, line: string)
    requires LowerOk(lower) && RulesOk(lower, rules.exact)
    ensures var r := ReadLine(lower, rules, line); r.Ok? ==> RulesOk(lower, r.value.exact)
  {
    hide LowerOk, NormalizePattern, FromId, StoredPattern;
    var row := ReadRow(lower, line);
    if row.Ok? && row.value.Some? && row.value.value.0 != "*" {
      var (left, right) := SplitOnce(Trim(line), '=').value;
      NormalizedNonEmpty(lower, left);
      NormalizedIsStored(lower, left);
    }
  }

  lemma NormalizedNonEmpty(lower: string -> string, left: string)
    requires LowerOk(lower) && NormalizePattern(lower, left).Some?
    ensures |NormalizePattern(lower, left).value| > 0
  {
  }

  /** Whatever is parsed is stored in a form free of quotes, `=`, `/` and a leading `#`. */
  lemma ParsedIsOk(lower: string -> string, lines: seq<string>)
    requires LowerOk(lower) && Parsed(lower, lines).Ok?
    ensures RulesOk(lower, Parsed(lower, lines).value.exact)
  {
    ReadLinesOk(lower, Partial(map[], None), lines, 1);
  }

  // ---------- the text form ----------

  function Row(pattern: string, strategy: Strategy): string
  {
    pattern + " = " + Id(strategy)
  }

  function Rows(exact: map<string, Strategy>, keys: seq<string>): (rows: seq<string>)
    requires forall k :: k in keys ==> k in exact
    ensures |rows| == |keys|
    ensures forall i :: 0 <= i < |keys| ==> rows[i] == Row(keys[i], exact[keys[i]])
  {
    seq(|keys|, i requires 0 <= i < |keys| => Row(keys[i], exact[keys[i]]))
  }

  /** `to_text`, line by line: the exact rules in the map's order, then the catch-all. */
  function ToLines(r: Rules): seq<string>
  {
    Rows(r.exact, SortedKeys(r.exact.Keys)) + [Row("*", r.fallback)]
  }

  lemma LowerFixed(s: string)
    requires forall c :: c in s ==> c in {'-', '_'} || 'a' <= c <= 'z'
    ensures ToLowerAscii(s) == s && Trimmed(s)
  {
    forall i | 0 <= i < |s|
      ensures LowerAscii(s[i]) == s[i] && !IsSpace(s[i])
    {
      assert s[i] in s;
    }
  }

  lemma FromIdOfId(s: Strategy)
    ensures FromId(" " + Id(s)) == Some(s)
    ensures Trimmed(Id(s))
  {
    hide Trim, ToLowerAscii;
    LowerFixed(Id(s));
    TrimPadded(Id(s));
    match s
    case CapabilityProbe =>
    case ProtectedPaste =>
    case PhysicalReplay =>
    case ObserveOnly =>
  }

  lemma RowSplits(pattern: string, s: Strategy)
    requires '=' !in pattern && |pattern| > 0 && Trimmed(pattern)
    ensures Trim(Row(pattern, s)) == Row(pattern, s)
    ensures SplitOnce(Row(pattern, s), '=') == Some((pattern + " ", " " + Id(s)))
  {
    hide FromId, Id, SplitOnce;
    FromIdOfId(s);
    var row := Row(pattern, s);
    assert row[|row| - 1] == Id(s)[|Id(s)| - 1];
    assert row == (pattern + " ") + ['='] + (" " + Id(s));
    SplitOnceUnique(pattern + " ", " " + Id(s), '=');
  }

  lemma StableNormalizes(lower: string -> string, p: string)
    requires LowerOk(lower) && StoredPattern(lower, p) && Trimmed(p)
    ensures NormalizePattern(lower, p + " ") == Some(p)
  {
    TrimPadded(p);
    assert p[0] in p && p[|p| - 1] in p;
    assert TrimWhere(p, IsQuote) == p;
    assert WithBackslashes(p) == p by {
      assert forall i :: 0 <= i < |p| ==> p[i] in p;
    }
    assert p[0] != '*';
  }

  lemma RowReadsBack(lower: string -> string, p: string, s: Strategy)
    requires LowerOk(lower) && Trimmed(p) && (p == "*" || StoredPattern(lower, p))
    ensures ReadRow(lower, Row(p, s)) == Ok(Some((p, s)))
  {
    hide FromId, Id, SplitOnce, NormalizePattern, LowerOk;
    RowSplits(p, s);
    FromIdOfId(s);
    if p == "*" { StarNormalizes(lower); } else { StableNormalizes(lower, p); }
    assert Row(p, s)[0] == p[0];
  }

  lemma StarNormalizes(lower: string -> string)
    ensures NormalizePattern(lower, "*" + " ") == Some("*")
  {
    TrimPadded("*");
  }

  function Picked(exact: map<string, Strategy>, keys: seq<string>): (m: map<string, Strategy>)
    requires forall k :: k in keys ==> k in exact
  {
    map k | k in keys :: exact[k]
  }

  lemma RowInserts(lower: string -> string, rules: Partial, p: string, s: Strategy)
    requires LowerOk(lower) && StoredPattern(lower, p) && Trimmed(p) && p !in rules.exact
    ensures ReadLine(lower, rules, Row(p, s)) == Ok(rules.(exact := rules.exact[p := s]))
  {
    hide LowerOk, ReadRow;
    RowReadsBack(lower, p, s);
    NotStar(lower, p);
  }

  /** Reading the rows of distinct stable patterns collects exactly those rules. */
  lemma {:induction false} RowsReadBack(lower: string -> string, rules: Partial, exact: map<string, Strategy>,
                                        keys: seq<string>, rest: seq<string>, number: nat)
    requires LowerOk(lower) && RulesOk(lower, exact) && Ascending(keys)
    requires forall k :: k in keys ==> k in exact && Trimmed(k) && k !in rules.exact
    ensures ReadLines(lower, rules, Rows(exact, keys) + rest, number)
         == ReadLines(lower, rules.(exact := rules.exact + Picked(exact, keys)), rest, number + |keys|)
    decreases |keys|
  {
    hide LowerOk, ReadLine, Ascending, Trimmed, StoredPattern, Picked, Rows, Row;
    PickedSplits(rules.exact, exact, keys);
    RowsSplit(exact, keys, rest);
    if keys != [] {
      var k, tail := keys[0], keys[1..];
      RowInserts(lower, rules, k, exact[k]);
      TailAscends(keys);
      var more := rules.(exact := rules.exact[k := exact[k]]);
      RowsReadBack(lower, more, exact, tail, rest, number + 1);
    }
  }

  lemma PickedSplits(had: map<string, Strategy>, exact: map<string, Strategy>, keys: seq<string>)
    requires forall k :: k in keys ==> k in exact
    ensures keys == [] ==> had + Picked(exact, keys) == had
    ensures keys != [] ==> had + Picked(exact, keys) == had[keys[0] := exact[keys[0]]] + Picked(exact, keys[1..])
  {
  }

  lemma RowsSplit(exact: map<string, Strategy>, keys: seq<string>, rest: seq<string>)
    requires forall k :: k in keys ==> k in exact
    ensures keys == [] ==> Rows(exact, keys) + rest == rest
    ensures keys != [] ==>
      && Rows(exact, keys) + rest != []
      && (Rows(exact, keys) + rest)[0] == Row(keys[0], exact[keys[0]])
      && (Rows(exact, keys) + rest)[1..] == Rows(exact, keys[1..]) + rest
  {
  }

  lemma NotStar(lower: string -> string, p: string)
    requires StoredPattern(lower, p)
    ensures p != "*"
  {
    assert p[0] in p;
  }

  lemma TailAscends(keys: seq<string>)
    requires Ascending(keys) && |keys| > 0
    ensures Ascending(keys[1..]) && keys[0] !in keys[1..]
  {
    AscendingDistinct(keys);
  }

  lemma TrimmedReadBack(lower: string -> string, r: Rules)
    requires LowerOk(lower) && RulesOk(lower, r.exact)
    requires forall p :: p in r.exact ==> Trimmed(p)
    ensures Parsed(lower, ToLines(r)) == Ok(r)
  {
    hide LowerOk, RulesOk, ReadLines, Trimmed, Rows, Row, SortedKeys, Picked, Ascending;
    var keys := SortedKeys(r.exact.Keys);
    AllRowsRead(lower, r.exact, keys, [Row("*", r.fallback)]);
    AllPicked(r.exact);
    StarCloses(lower, r.exact, r.fallback, 1 + |keys|);
  }

  lemma AllRowsRead(lower: string -> string, exact: map<string, Strategy>, keys: seq<string>, rest: seq<string>)
    requires LowerOk(lower) && RulesOk(lower, exact) && Ascending(keys)
    requires forall k :: k in keys ==> k in exact && Trimmed(k)
    ensures ReadLines(lower, Partial(map[], None), Rows(exact, keys) + rest, 1)
         == ReadLines(lower, Partial(map[] + Picked(exact, keys), None), rest, 1 + |keys|)
  {
    hide *;
    RowsReadBack(lower, Partial(map[], None), exact, keys, rest, 1);
  }

  lemma AllPicked(m: map<string, Strategy>)
    ensures Picked(m, SortedKeys(m.Keys)) == m && map[] + m == m
  {
  }

  lemma StarCloses(lower: string -> string, exact: map<string, Strategy>, fallback: Strategy, number: nat)
    requires LowerOk(lower)
    ensures ReadLines(lower, Partial(exact, None), [Row("*", fallback)], number) == Ok(Partial(exact, Some(fallback)))
  {
    hide LowerOk, ReadRow, Row;
    RowReadsBack(lower, "*", fallback);
    var star := [Row("*", fallback)];
    assert ReadLine(lower, Partial(exact, None), star[0]) == Ok(Partial(exact, Some(fallback)));
    assert ReadLines(lower, Partial(exact, Some(fallback)), star[1..], number + 1)
      == Ok(Partial(exact, Some(fallback)));
  }

  // ---------- what does not read back ----------

  lemma UnquotedNormalizesTrimmed(lower: string -> string, left: string)
    requires LowerOk(lower) && '"' !in left && NormalizePattern(lower, left).Some?
    ensures Trimmed(NormalizePattern(lower, left).value)
  {
    var inner := Trim(left);
    if inner != "" { assert inner[0] in inner && inner[|inner| - 1] in inner; }
    assert TrimWhere(inner, IsQuote) == inner;
    if inner != "*" {
      var value := WithBackslashes(inner);
      assert Trimmed(value);
      assert Trimmed(lower(value));
    }
  }

  ghost predicate AllTrimmed(exact: map<string, Strategy>)
  {
    forall p :: p in exact ==> Trimmed(p)
  }

  lemma UnquotedLine(lower: string -> string, rules: Partial, line: string)
    requires LowerOk(lower) && AllTrimmed(rules.exact) && '"' !in line
    ensures var r := ReadLine(lower, rules, line); r.Ok? ==> AllTrimmed(r.value.exact)
  {
    hide LowerOk, NormalizePattern, FromId, Trimmed;
    var row := ReadRow(lower, line);
    if row.Ok? && row.value.Some? {
      var (left, right) := SplitOnce(Trim(line), '=').value;
      assert '"' !in left;
      UnquotedNormalizesTrimmed(lower, left);
    }
  }

  lemma {:induction false} UnquotedReadTrimmed(lower: string -> string, rules: Partial, lines: seq<string>, number: nat)
    requires LowerOk(lower) && AllTrimmed(rules.exact)
    requires forall line :: line in lines ==> '"' !in line
    ensures var r := ReadLines(lower, rules, lines, number); r.Ok? ==> AllTrimmed(r.value.exact)
    decreases |lines|
  {
    hide LowerOk, ReadLine, AllTrimmed;
    if lines != [] {
      assert lines[0] in lines;
      UnquotedLine(lower, rules, lines[0]);
      var next := ReadLine(lower, rules, lines[0]);
      if next.Ok? {
        UnquotedReadTrimmed(lower, next.value, lines[1..], number + 1);
      }
    }
  }

  /** The rules' text reads back as the same rules exactly when no pattern starts or ends with a blank. */
  lemma RoundTrip(lower: string -> string, r: Rules)
    requires LowerOk(lower) && RulesOk(lower, r.exact)
    ensures Parsed(lower, ToLines(r)) == Ok(r) <==> AllTrimmed(r.exact)
  {
    hide LowerOk;
    if AllTrimmed(r.exact) {
      TrimmedReadBack(lower, r);
    } else if Parsed(lower, ToLines(r)) == Ok(r) {
      forall line | line in ToLines(r)
        ensures '"' !in line
      {
        RowUnquoted(lower, r, line);
      }
      UnquotedReadTrimmed(lower, Partial(map[], None), ToLines(r), 1);
    }
  }

  lemma RowPlain(p: string, s: Strategy)
    requires '"' !in p
    ensures '"' !in Row(p, s)
  {
    hide Id;
    var separator := " = ";
    assert '"' !in separator;
    assert '"' !in Id(s);
  }

  lemma RowUnquoted(lower: string -> string, r: Rules, line: string)
    requires RulesOk(lower, r.exact) && line in ToLines(r)
    ensures '"' !in line
  {
    hide Row, SortedKeys;
    var keys := SortedKeys(r.exact.Keys);
    var i :| 0 <= i < |ToLines(r)| && ToLines(r)[i] == line;
    if i < |keys| {
      assert keys[i] in keys && StoredPattern(lower, keys[i]);
      RowPlain(keys[i], r.exact[keys[i]]);
    } else {
      RowPlain("*", r.fallback);
    }
  }

  // ---------- an example ----------

  /** Lowercasing of ASCII letters alone is one of the functions the results above are about. */
  lemma AsciiLowerOk()
    ensures LowerOk(ToLowerAscii)
  {
    forall s, c | c in ToLowerAscii(s) && Caseless(c)
      ensures c in s
    {
      var i :| 0 <= i < |s| && ToLowerAscii(s)[i] == c;
      assert s[i] == c;
    }
    forall s
      ensures ToLowerAscii(ToLowerAscii(s)) == ToLowerAscii(s)
    {
      LowerAsciiIdempotent(s);
    }
  }

  function Quoted(s: string): string { ['"'] + s + ['"'] }

  function Spaced(s: string): string { [' '] + s + [' '] }

  lemma TrimBetween(c: char, s: string, drop: char -> bool)
    requires drop(c) && |s| > 0 && !drop(s[0]) && !drop(s[|s| - 1])
    ensures TrimWhere([c] + s + [c], drop) == s
  {
    var t := [c] + s + [c];
    assert t[1..] == s + [c];
    assert (s + [c])[..|s|] == s;
  }

  /** A stored pattern within quotes, blanks and quotes once more. */
  function Nested(p: string): string { Quoted(Spaced(Quoted(p))) }

  lemma UnspacedUnquoted(lower: string -> string, p: string)
    requires StoredPattern(lower, p)
    ensures Trim(Nested(p)) == Nested(p)
    ensures TrimWhere(Nested(p), IsQuote) == Spaced(Quoted(p))
    ensures Trim(Spaced(Quoted(p))) == Quoted(p)
    ensures TrimWhere(Quoted(p), IsQuote) == p
  {
    assert p[0] in p && p[|p| - 1] in p;
    TrimBetween('"', Spaced(Quoted(p)), IsQuote);
    TrimBetween(' ', Quoted(p), IsSpace);
    TrimBetween('"', p, IsQuote);
  }

  /** Quotes around blanks inside quotes are not all removed: the stored pattern keeps its blanks. */
  lemma NestedQuotesKeepBlanks(lower: string -> string, p: string)
    requires StoredPattern(lower, p)
    ensures NormalizePattern(lower, Nested(p)) == Some(p)
  {
    hide Trim, TrimWhere, Quoted, Spaced, Nested;
    UnspacedUnquoted(lower, p);
    assert WithBackslashes(p) == p by {
      assert forall i :: 0 <= i < |p| ==> p[i] in p;
    }
    assert Spaced(Quoted(p)) != "*" by { SpacedLong(Quoted(p)); }
  }

  lemma SpacedLong(s: string)
    ensures Spaced(s) != "*"
  {
    assert |Spaced(s)| >= 2;
  }

  /** A row whose pattern is so quoted, and the rules it is stored as. */
  function NestedLine(p: string): string { Nested(p) + "=" + " replay" }

  function NestedRules(p: string): Rules { Rules(map[p := PhysicalReplay], CapabilityProbe) }

  lemma NestedRow(lower: string -> string, p: string)
    requires StoredPattern(lower, p)
    ensures ReadRow(lower, NestedLine(p)) == Ok(Some((p, PhysicalReplay)))
  {
    hide NormalizePattern, Spaced, FromId;
    NestedQuotesKeepBlanks(lower, p);
    var left := Nested(p);
    var line := NestedLine(p);
    QuotedPlain(p);
    SplitOnceUnique(left, " replay", '=');
    ReplayId();
    assert line[0] == '"' && line[|line| - 1] == 'y';
    assert Trim(line) == line;
  }

  lemma QuotedPlain(p: string)
    requires '=' !in p
    ensures '=' !in Nested(p)
  {
  }

  /** Such a row stores any pattern as it is; one with outer blanks is lost when it is written. */
  lemma NestedQuotesAreLost(lower: string -> string, p: string)
    requires LowerOk(lower) && StoredPattern(lower, p)
    ensures Parsed(lower, [NestedLine(p)]) == Ok(NestedRules(p))
    ensures Parsed(lower, ToLines(NestedRules(p))) == Ok(NestedRules(p)) <==> Trimmed(p)
    ensures AllTrimmed(NestedRules(p).exact) <==> Trimmed(p)
  {
    hide ReadRow, NestedLine, ToLines, LowerOk, Trimmed;
    var line, stored := NestedLine(p), NestedRules(p);
    NestedRow(lower, p);
    NotStar(lower, p);
    assert map[][p := PhysicalReplay] == stored.exact;
    assert ReadLine(lower, Partial(map[], None), line) == Ok(Partial(stored.exact, None));
    var none: seq<string> := [];
    assert [line][1..] == none;
    assert ReadLines(lower, Partial(stored.exact, None), none, 2) == Ok(Partial(stored.exact, None));
    assert ReadLines(lower, Partial(map[], None), [line], 1) == Ok(Partial(stored.exact, None));
    ParsedIsOk(lower, [line]);
    RoundTrip(lower, stored);
    assert p in stored.exact;
  }

  lemma ReplayId()
    ensures FromId(" replay") == Some(PhysicalReplay)
  {
    LowerFixed("replay");
    TrimPadded("replay");
    assert " " + "replay" == " replay";
  }
}
