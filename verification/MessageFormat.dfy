/**
 * Message templates: finding the placeholders of one, and filling them in (src/localization.rs).
 * A text is its UTF-8 bytes here, one `char` for each.
 */
module MessageFormat {
  import opened Wrappers

  const MAX_FORMATTED_BYTES: nat := 0x1_0000

  datatype FormatError = InvalidMessage | InvalidArguments | TooLarge

  /** The reference: a template is text and named placeholders in braces. */
  datatype Part = Text(text: string) | Hole(name: string)

  predicate ValidName(name: string)
  {
    1 <= |name| <= 64
    && forall c :: c in name ==> 'a' <= c <= 'z' || 'A' <= c <= 'Z' || '0' <= c <= '9' || c == '_'
  }

  ghost predicate PartOk(p: Part)
  {
    match p
    case Text(t) => '{' !in t && '}' !in t
    case Hole(n) => 1 <= |n| && |n| <= 64 && forall c :: c in n ==> NameChar(c)
  }

  ghost predicate NameChar(c: char)
  {
    c == '_' || '0' <= c <= '9' || 'A' <= c <= 'Z' || 'a' <= c <= 'z'
  }

  lemma HoleOkIff(n: string)
    ensures PartOk(Hole(n)) <==> ValidName(n)
  {
  }

  ghost predicate PartsOk(parts: seq<Part>)
  {
    forall p :: p in parts ==> PartOk(p)
  }

  function Source(parts: seq<Part>): string
  {
    if parts == [] then ""
    else (match parts[0] case Text(t) => t case Hole(n) => ['{'] + n + ['}']) + Source(parts[1..])
  }

  function HoleNames(parts: seq<Part>): (names: set<string>)
  {
    set p | p in parts && p.Hole? :: p.name
  }

  function Filled(parts: seq<Part>, arguments: map<string, string>): string
    requires HoleNames(parts) <= arguments.Keys
  {
    if parts == [] then ""
    else
      assert HoleNames(parts[1..]) <= HoleNames(parts);
      assert parts[0].Hole? ==> parts[0].name in HoleNames(parts);
      (match parts[0] case Text(t) => t case Hole(n) => arguments[n]) + Filled(parts[1..], arguments)
  }

  // ---------- taking a template apart ----------

  /** `str::find`. */
  function Find(s: string, c: char): (r: Option<nat>)
    ensures r.Some? ==> r.value < |s| && s[r.value] == c
    ensures r.None? <==> c !in s
  {
    if s == "" then None
    else if s[0] == c then Some(0)
    else
      match Find(s[1..], c)
      case None => None
      case Some(k) => Some(k + 1)
  }

  lemma {:induction false} FindIsFirst(s: string, c: char)
    requires Find(s, c).Some?
    ensures c !in s[..Find(s, c).value]
  {
    if s[0] != c {
      FindIsFirst(s[1..], c);
      assert s[..Find(s, c).value] == [s[0]] + s[1..][..Find(s, c).value - 1];
    }
  }

  /** What a scan to the next placeholder finds: none left, a stray brace or a bad name, or one. */
  datatype Scan = Last | Bad | Next(text: string, name: string, tail: string)

  function ScanNext(value: string): (s: Scan)
    ensures s.Next? ==> |s.tail| < |value|
  {
    match Find(value, '{')
    case None => if '}' in value then Bad else Last
    case Some(start) => if '}' in value[..start] then Bad else ScanHoleAt(value, start)
  }

  /** The placeholder whose brace opens at `start`. */
  function ScanHoleAt(value: string, start: nat): (s: Scan)
    requires start < |value|
    ensures s.Next? ==> |s.tail| < |value|
    ensures !s.Last?
  {
    var after := value[start + 1..];
    match Find(after, '}')
    case None => Bad
    case Some(end) =>
      if !ValidName(after[..end]) then Bad else Next(value[..start], after[..end], after[end + 1..])
  }

  lemma ScanOk(value: string)
    ensures ScanNext(value).Last? ==> '{' !in value && '}' !in value
    ensures ScanNext(value).Next? ==> IsNext(value, ScanNext(value))
  {
    hide Find, ScanHoleAt, IsNext;
    var start := Find(value, '{');
    if start.Some? && ScanNext(value).Next? {
      FindIsFirst(value, '{');
      HoleAtOk(value, start.value);
    }
  }

  ghost predicate IsNext(value: string, s: Scan)
    requires s.Next?
  {
    && '{' !in s.text && '}' !in s.text && ValidName(s.name)
    && value == s.text + (['{'] + s.name + ['}'] + s.tail)
  }

  lemma HoleAtOk(value: string, start: nat)
    requires start < |value| && value[start] == '{' && '{' !in value[..start] && '}' !in value[..start]
    requires ScanHoleAt(value, start).Next?
    ensures IsNext(value, ScanHoleAt(value, start))
  {
    hide Find, ValidName;
    CutTwice(value, start, Find(value[start + 1..], '}').value);
  }

  lemma CutTwice(s: string, i: nat, j: nat)
    requires i < |s| && i + 1 + j < |s|
    ensures var after := s[i + 1..]; s == s[..i] + ([s[i]] + after[..j] + [after[j]] + after[j + 1..])
  {
    var after := s[i + 1..];
    assert after == after[..j] + [after[j]] + after[j + 1..];
    assert s == s[..i] + ([s[i]] + after);
  }

  /** The placeholders of a template in order, with the text before each and after the last. */
  function Parts(value: string): (r: Option<seq<Part>>)
    decreases |value|
  {
    match ScanNext(value)
    case Last => Some([Text(value)])
    case Bad => None
    case Next(text, name, tail) =>
      match Parts(tail)
      case None => None
      case Some(rest) => Some([Text(text), Hole(name)] + rest)
  }

  /** Only templates are taken apart, and the parts make up the whole of it. */
  lemma {:induction false} PartsMakeSource(value: string)
    requires Parts(value).Some?
    ensures PartsOk(Parts(value).value) && Source(Parts(value).value) == value
    decreases |value|
  {
    hide ScanNext, ValidName;
    ScanOk(value);
    match ScanNext(value)
    case Last =>
      var one := [Text(value)];
      assert one[1..] == [];
      assert Source(one) == value;
    case Next(text, name, tail) =>
      PartsMakeSource(tail);
      HoleOkIff(name);
      SourceTwo(text, name, Parts(tail).value);
  }

  lemma SourceTwo(text: string, name: string, rest: seq<Part>)
    ensures Source([Text(text), Hole(name)] + rest) == text + (['{'] + name + ['}'] + Source(rest))
  {
    var parts := [Text(text), Hole(name)] + rest;
    assert parts[1..] == [Hole(name)] + rest && parts[1..][1..] == rest;
  }

  lemma FindAfter(t: string, v: string, c: char)
    requires c !in t
    ensures Find(v, c).None? ==> Find(t + v, c).None?
    ensures Find(v, c).Some? ==> Find(t + v, c) == Some(|t| + Find(v, c).value)
  {
    if t == "" {
      assert t + v == v;
    } else {
      hide Find;
      var s, tail := t + v, t[1..] + v;
      assert t[0] in t && s[0] == t[0];
      assert s[1..] == tail;
      FindAfter(t[1..], v, c);
      FindNext(s, c);
    }
  }

  lemma FindNext(s: string, c: char)
    requires s != "" && s[0] != c
    ensures Find(s, c) == match Find(s[1..], c) case None => None case Some(k) => Some(k + 1)
  {
  }

  lemma ScanText(t: string, v: string)
    requires '{' !in t && '}' !in t && !ScanNext(v).Bad?
    ensures ScanNext(v).Last? ==> ScanNext(t + v) == Last
    ensures ScanNext(v).Next? ==>
      ScanNext(t + v) == Next(t + ScanNext(v).text, ScanNext(v).name, ScanNext(v).tail)
  {
    hide Find, ScanHoleAt;
    FindAfter(t, v, '{');
    var start := Find(v, '{');
    if start.Some? {
      ShiftedCut(t, v, start.value);
      ScanHoleShifts(t, v, start.value);
    }
  }

  lemma ScanHoleShifts(t: string, v: string, k: nat)
    requires k < |v| && ScanHoleAt(v, k).Next?
    ensures ScanHoleAt(t + v, |t| + k) == Next(t + ScanHoleAt(v, k).text, ScanHoleAt(v, k).name, ScanHoleAt(v, k).tail)
  {
    hide Find, ValidName;
    ShiftedCut(t, v, k);
  }

  lemma ShiftedCut(t: string, v: string, k: nat)
    requires k < |v|
    ensures (t + v)[..|t| + k] == t + v[..k] && (t + v)[|t| + k + 1..] == v[k + 1..]
  {
  }

  lemma ScanHole(n: string, v: string)
    requires ValidName(n)
    ensures ScanNext(['{'] + n + ['}'] + v) == Next("", n, v)
  {
    hide Find, ValidName;
    var s := ['{'] + n + ['}'] + v;
    BracesFound(n, v);
    assert s[..0] == "";
    assert s[1..] == n + (['}'] + v);
    assert s[1..][..|n|] == n && s[1..][|n| + 1..] == v;
  }

  lemma BracesFound(n: string, v: string)
    requires ValidName(n)
    ensures Find(['{'] + n + ['}'] + v, '{') == Some(0) && Find(n + (['}'] + v), '}') == Some(|n|)
  {
    hide Find, ValidName;
    NoBrace(n);
    FindAfter(n, ['}'] + v, '}');
    FindHead(['}'] + v, '}');
    FindHead(['{'] + n + ['}'] + v, '{');
  }

  lemma FindHead(s: string, c: char)
    requires s != "" && s[0] == c
    ensures Find(s, c) == Some(0)
  {
  }

  /** Text in front of a template only lengthens its first text. */
  lemma TextInFront(t: string, v: string)
    requires '{' !in t && '}' !in t && Parts(v).Some?
    ensures Parts(v).value != [] && Parts(v).value[0].Text?
    ensures Parts(t + v) == Some([Text(t + Parts(v).value[0].text)] + Parts(v).value[1..])
  {
    hide ScanNext;
    ScanText(t, v);
    match ScanNext(v)
    case Last =>
      assert [Text(v)][1..] == [];
      assert [Text(t + v)] + [] == [Text(t + v)];
    case Next(text, name, tail) =>
      var rest := Parts(tail).value;
      var parts := [Text(text), Hole(name)] + rest;
      assert parts[1..] == [Hole(name)] + rest;
      assert [Text(t + text)] + ([Hole(name)] + rest) == [Text(t + text), Hole(name)] + rest;
  }

  lemma HoleInFront(n: string, v: string)
    requires ValidName(n) && Parts(v).Some?
    ensures Parts(['{'] + n + ['}'] + v) == Some([Text(""), Hole(n)] + Parts(v).value)
  {
    hide ScanNext, ValidName;
    ScanHole(n, v);
  }

  lemma NoBrace(n: string)
    requires ValidName(n)
    ensures '{' !in n && '}' !in n
  {
  }

  /** Every template is taken apart, into parts that name the same placeholders and fill in alike. */
  lemma {:induction false} SourceHasParts(parts: seq<Part>, arguments: map<string, string>)
    requires PartsOk(parts) && HoleNames(parts) <= arguments.Keys
    ensures var r := Parts(Source(parts));
      && r.Some? && HoleNames(r.value) == HoleNames(parts) && Filled(r.value, arguments) == Filled(parts, arguments)
  {
    if parts == [] {
      var one := [Text("")];
      assert one[1..] == [];
    } else {
      var rest := parts[1..];
      assert parts[0] in parts && PartOk(parts[0]);
      assert HoleNames(parts) == HoleNames(rest) + (if parts[0].Hole? then {parts[0].name} else {}) by {
        assert parts == [parts[0]] + rest;
      }
      SourceHasParts(rest, arguments);
      var got := Parts(Source(rest)).value;
      match parts[0]
      case Text(t) =>
        TextInFront(t, Source(rest));
        SameFirst(t, got, arguments);
      case Hole(n) =>
        HoleInFront(n, Source(rest));
        HoleFirst(n, got, arguments);
    }
  }

  lemma SameFirst(t: string, got: seq<Part>, arguments: map<string, string>)
    requires got != [] && got[0].Text? && HoleNames(got) <= arguments.Keys
    ensures var more := [Text(t + got[0].text)] + got[1..];
      HoleNames(more) == HoleNames(got) && Filled(more, arguments) == t + Filled(got, arguments)
  {
    hide HoleNames;
    var more := [Text(t + got[0].text)] + got[1..];
    assert more[1..] == got[1..];
    assert [got[0]] + got[1..] == got;
    NamesOf([Text(t + got[0].text)], got[1..]);
    NamesOf([got[0]], got[1..]);
    OneHole(t + got[0].text, "");
    OneHole(got[0].text, "");
    assert got[0] == Text(got[0].text);
  }

  lemma HoleFirst(n: string, got: seq<Part>, arguments: map<string, string>)
    requires HoleNames(got) <= arguments.Keys && n in arguments
    ensures var more := [Text(""), Hole(n)] + got;
      HoleNames(more) == HoleNames(got) + {n} && Filled(more, arguments) == arguments[n] + Filled(got, arguments)
  {
    var more := [Text(""), Hole(n)] + got;
    assert more[1..] == [Hole(n)] + got && more[1..][1..] == got;
    assert HoleNames(more) == HoleNames(got) + {n};
    assert HoleNames(more[1..]) <= HoleNames(more);
  }

  // ---------- the two loops of the source ----------

  /** `placeholders`: the names, or a refusal exactly when the text is no template. */
  method Placeholders(value: string) returns (r: Result<set<string>, FormatError>)
    ensures r == match Parts(value) case None => Err(InvalidMessage) case Some(parts) => Ok(HoleNames(parts))
  {
    hide ScanNext, ValidName;
    var remaining, names := value, {};
    ghost var before: seq<Part> := [];
    assert forall rest: seq<Part> :: before + rest == rest;
    while true
      invariant names == HoleNames(before)
      invariant Parts(value) == match Parts(remaining) case None => None case Some(rest) => Some(before + rest)
      decreases |remaining|
    {
      match ScanNext(remaining) {
        case Last =>
          NamesOf(before, [Text(remaining)]);
          OneHole(remaining, "");
          assert HoleNames(before + [Text(remaining)]) == names;
          return Ok(names);
        case Bad => return Err(InvalidMessage);
        case Next(text, name, tail) =>
          NamesOf(before, [Text(text), Hole(name)]);
          OneHole(text, name);
          assert forall rest :: before + ([Text(text), Hole(name)] + rest) == before + [Text(text), Hole(name)] + rest;
          before := before + [Text(text), Hole(name)];
          names := names + {name};
          remaining := tail;
      }
    }
  }

  lemma NamesOf(a: seq<Part>, b: seq<Part>)
    ensures HoleNames(a + b) == HoleNames(a) + HoleNames(b)
  {
  }

  lemma OneHole(text: string, name: string)
    ensures HoleNames([Text(text), Hole(name)]) == {name} && HoleNames([Text(text)]) == {}
  {
    assert Hole(name) in [Text(text), Hole(name)];
  }

  // ---------- filling in ----------

  /** The arguments by name; `None` when a name is given twice. */
  function Supplied(arguments: seq<(string, string)>): (m: Option<map<string, string>>)
  {
    if arguments == [] then Some(map[])
    else
      var (name, value) := arguments[|arguments| - 1];
      match Supplied(arguments[..|arguments| - 1])
      case None => None
      case Some(m) => if name in m then None else Some(m[name := value])
  }

  /** The arguments name nothing twice, and `m` holds each under its name and nothing else. */
  ghost predicate ByName(arguments: seq<(string, string)>, m: map<string, string>)
  {
    && (forall i, j :: 0 <= i < j < |arguments| ==> arguments[i].0 != arguments[j].0)
    && (forall i :: 0 <= i < |arguments| ==> arguments[i].0 in m && m[arguments[i].0] == arguments[i].1)
    && (forall n :: n in m ==> exists i :: 0 <= i < |arguments| && arguments[i].0 == n)
  }

  lemma {:induction false} SuppliedIff(arguments: seq<(string, string)>, m: map<string, string>)
    ensures Supplied(arguments) == Some(m) <==> ByName(arguments, m)
  {
    hide ByName;
    if arguments == [] {
      NoNames(m);
    } else {
      var last, rest := arguments[|arguments| - 1], arguments[..|arguments| - 1];
      if Supplied(arguments) == Some(m) {
        SuppliedIff(rest, Supplied(rest).value);
        OneMoreName(rest, Supplied(rest).value, last);
        assert arguments == rest + [last];
      }
      if ByName(arguments, m) {
        OneNameLess(arguments, m);
        SuppliedIff(rest, m - {last.0});
      }
    }
  }

  lemma NoNames(m: map<string, string>)
    ensures ByName([], m) <==> m == map[]
  {
  }

  lemma OneMoreName(rest: seq<(string, string)>, m: map<string, string>, last: (string, string))
    requires ByName(rest, m) && last.0 !in m
    ensures ByName(rest + [last], m[last.0 := last.1])
  {
    var more := rest + [last];
    assert more[|rest|] == last;
    forall n | n in m
      ensures exists i :: 0 <= i < |more| && more[i].0 == n
    {
      if n != last.0 {
        var i :| 0 <= i < |rest| && rest[i].0 == n;
        assert more[i].0 == n;
      }
    }
  }

  lemma OneNameLess(arguments: seq<(string, string)>, m: map<string, string>)
    requires |arguments| > 0 && ByName(arguments, m)
    ensures var last := arguments[|arguments| - 1];
      ByName(arguments[..|arguments| - 1], m - {last.0}) && (m - {last.0})[last.0 := last.1] == m
  {
    var last, rest := arguments[|arguments| - 1], arguments[..|arguments| - 1];
    assert (m - {last.0})[last.0 := last.1] == m;
    forall n | n in m - {last.0}
      ensures exists i :: 0 <= i < |rest| && rest[i].0 == n
    {
      var i :| 0 <= i < |arguments| && arguments[i].0 == n;
      assert rest[i].0 == n;
    }
  }

  /** What `format` is for: the template with every placeholder replaced, if that is short enough. */
  function Formatted(template: string, arguments: seq<(string, string)>): (r: Result<string, FormatError>)
  {
    match Parts(template)
    case None => Err(InvalidMessage)
    case Some(parts) =>
      match Supplied(arguments)
      case None => Err(InvalidArguments)
      case Some(m) =>
        if HoleNames(parts) != m.Keys then Err(InvalidArguments)
        else if |Filled(parts, m)| > MAX_FORMATTED_BYTES then Err(TooLarge)
        else Ok(Filled(parts, m))
  }

  /** `append_formatted`. */
  function Append(output: string, part: string): (r: Option<string>)
    ensures |output| <= MAX_FORMATTED_BYTES ==> (r.Some? <==> |output| + |part| <= MAX_FORMATTED_BYTES)
    ensures r.Some? ==> r.value == output + part
  {
    if |part| > (if |output| <= MAX_FORMATTED_BYTES then MAX_FORMATTED_BYTES - |output| else 0) then None
    else Some(output + part)
  }

  /**
   * `format`: scans the template a second time. Each placeholder it meets has its argument, since the
   * first scan found the same ones, and it gives up exactly when the whole would be too long.
   */
  method Format(template: string, arguments: seq<(string, string)>) returns (r: Result<string, FormatError>)
    ensures r == Formatted(template, arguments)
  {
    hide ScanNext, ValidName, Append, Parts, Filled, HoleNames;
    var required := Placeholders(template);
    if required.Err? { return Err(required.error); }
    var supplied := Supplied(arguments);
    if supplied.None? || required.value != supplied.value.Keys { return Err(InvalidArguments); }
    var m := supplied.value;
    ghost var parts := Parts(template).value;
    var output, remaining := "", template;
    while ScanNext(remaining).Next?
      invariant Parts(remaining).Some? && HoleNames(Parts(remaining).value) <= m.Keys
      invariant Filled(parts, m) == output + Filled(Parts(remaining).value, m)
      invariant |output| <= MAX_FORMATTED_BYTES
      decreases |remaining|
    {
      FilledNext(remaining, m);
      var Next(text, name, tail) := ScanNext(remaining);
      var first := Append(output, text);
      if first.None? { return Err(TooLarge); }
      var second := Append(first.value, m[name]);
      if second.None? { return Err(TooLarge); }
      assert Filled(parts, m) == output + (text + (m[name] + Filled(Parts(tail).value, m)));
      output, remaining := second.value, tail;
    }
    FilledLast(remaining, m);
    assert ScanNext(remaining).Last?;
    var last := Append(output, remaining);
    if last.None? { return Err(TooLarge); }
    return Ok(last.value);
  }

  lemma FilledTwo(text: string, name: string, rest: seq<Part>, m: map<string, string>)
    requires HoleNames([Text(text), Hole(name)] + rest) <= m.Keys
    ensures name in m && HoleNames(rest) <= m.Keys
    ensures Filled([Text(text), Hole(name)] + rest, m) == text + (m[name] + Filled(rest, m))
  {
    var parts := [Text(text), Hole(name)] + rest;
    assert parts[1..] == [Hole(name)] + rest && parts[1..][1..] == rest;
    assert Hole(name) in parts && name in HoleNames(parts);
    NamesOf([Text(text), Hole(name)], rest);
    NamesOf([Text(text)], [Hole(name)] + rest);
    assert [Text(text)] + ([Hole(name)] + rest) == parts;
  }

  lemma FilledNext(remaining: string, m: map<string, string>)
    requires ScanNext(remaining).Next? && Parts(remaining).Some? && HoleNames(Parts(remaining).value) <= m.Keys
    ensures var Next(text, name, tail) := ScanNext(remaining);
      && Parts(tail).Some? && HoleNames(Parts(tail).value) <= m.Keys && name in m
      && Filled(Parts(remaining).value, m) == text + (m[name] + Filled(Parts(tail).value, m))
  {
    hide ScanNext, HoleNames, Filled;
    var Next(text, name, tail) := ScanNext(remaining);
    FilledTwo(text, name, Parts(tail).value, m);
  }

  lemma FilledLast(remaining: string, m: map<string, string>)
    requires !ScanNext(remaining).Next? && Parts(remaining).Some?
    ensures ScanNext(remaining).Last?
    ensures HoleNames(Parts(remaining).value) <= m.Keys && Filled(Parts(remaining).value, m) == remaining
  {
    hide ScanNext;
    assert [Text(remaining)][1..] == [];
  }

  /** Filling in a template written from parts is replacing its placeholders, whatever the parts. */
  lemma FormatFills(parts: seq<Part>, arguments: seq<(string, string)>)
    requires PartsOk(parts) && Supplied(arguments).Some? && Supplied(arguments).value.Keys == HoleNames(parts)
    ensures var filled := Filled(parts, Supplied(arguments).value);
      Formatted(Source(parts), arguments) == if |filled| <= MAX_FORMATTED_BYTES then Ok(filled) else Err(TooLarge)
  {
    hide Parts, Source, Filled;
    SourceHasParts(parts, Supplied(arguments).value);
  }

  /**
   * Formatting a template made of parts: each placeholder needs its argument and each argument its placeholder, named
   * once; then the filled template is the result unless it is longer than 64 KiB.
   */
  lemma FormatOutcome(parts: seq<Part>, arguments: seq<(string, string)>)
    requires PartsOk(parts)
    ensures forall m :: ByName(arguments, m) && m.Keys == HoleNames(parts) ==>
      Formatted(Source(parts), arguments) == if |Filled(parts, m)| <= 65536 then Ok(Filled(parts, m)) else Err(TooLarge)
    ensures (forall m :: ByName(arguments, m) ==> m.Keys != HoleNames(parts)) ==>
      Formatted(Source(parts), arguments) == Err(InvalidArguments)
  {
    hide Parts, Source, Filled, HoleNames, ByName, Supplied, PartsOk;
    if Supplied(arguments).Some? { SuppliedIff(arguments, Supplied(arguments).value); }
    forall m | ByName(arguments, m)
      ensures Supplied(arguments) == Some(m)
    {
      SuppliedIff(arguments, m);
    }
    if Supplied(arguments).Some? && Supplied(arguments).value.Keys == HoleNames(parts) {
      FormatFills(parts, arguments);
    } else {
      SourceHasParts(parts, map n | n in HoleNames(parts) :: "");
    }
  }

  /** A text is refused as a message exactly when it is not written from text and placeholders. */
  lemma RefusedIffNoTemplate(value: string)
    ensures Parts(value).Some? <==> exists parts :: PartsOk(parts) && Source(parts) == value
  {
    hide Parts, Source;
    if Parts(value).Some? {
      PartsMakeSource(value);
    }
    if parts :| PartsOk(parts) && Source(parts) == value {
      SourceHasParts(parts, map n | n in HoleNames(parts) :: "");
    }
  }
}
