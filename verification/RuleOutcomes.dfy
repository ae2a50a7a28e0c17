/**
 * What the lines of the process rules say: which patterns and strategies they give, which rules they make up, and
 * which line is refused as what (src/backend_rules.rs).
 */
module RuleOutcomes {
  import opened Wrappers
  import opened Strings
  import opened BackendRules

  // ---------- patterns and strategies ----------

  /** The names a strategy goes by, in whatever case. */
  ghost predicate Names(value: string, s: Strategy)
  {
    var name := ToLowerAscii(Trim(value));
    match s
    case CapabilityProbe => name == "capability-probe" || name == "capability" || name == "auto"
    case ProtectedPaste => name == "protected-paste" || name == "uia-paste" || name == "paste"
    case PhysicalReplay => name == "physical-replay" || name == "replay"
    case ObserveOnly => name == "observe-only" || name == "observe" || name == "disabled"
  }

  lemma FromIdIff(value: string)
    ensures forall s :: FromId(value) == Some(s) <==> Names(value, s)
  {
    hide Trim, ToLowerAscii;
  }

  /** Control characters, and those that no file name holds. */
  lemma ForbiddenIff(c: char)
    ensures Forbidden(c) <==> c as int <= 31 || (127 <= c as int && c as int <= 159) || c in "<>|?*\""
  {
  }

  /** What is left of a text without its outer blanks, and without the quotes around that. */
  ghost predicate Unwrapped(text: string, inner: string)
  {
    exists a, b, c, d :: Wrapped(text, a, c, inner, d, b)
  }

  ghost predicate Wrapped(text: string, a: string, c: string, inner: string, d: string, b: string)
  {
    && text == a + (c + inner + d) + b && AllOf(a, IsSpace) && AllOf(b, IsSpace) && Trimmed(c + inner + d)
    && AllOf(c, IsQuote) && AllOf(d, IsQuote) && (inner != "" ==> inner[0] != '"' && inner[|inner| - 1] != '"')
  }

  lemma UnwrappedIff(text: string, inner: string)
    ensures Unwrapped(text, inner) <==> inner == TrimWhere(Trim(text), IsQuote)
  {
    if a, b, c, d :| Wrapped(text, a, c, inner, d, b) {
      TrimGone(a, c + inner + d, b, IsSpace);
      TrimGone(c, inner, d, IsQuote);
    }
    if inner == TrimWhere(Trim(text), IsQuote) {
      var a, b := TrimTakes(text, IsSpace);
      var c, d := TrimTakes(Trim(text), IsQuote);
      assert Wrapped(text, a, c, inner, d, b);
    }
  }

  /** The path is not empty and holds no forbidden character; it is kept in lower case with backslashes. */
  ghost predicate PathOf(lower: string -> string, path: string, p: string)
  {
    path != "" && (forall c :: c in path ==> !Forbidden(c)) && p == lower(WithBackslashes(path))
  }

  /** The pattern a text gives: the catch-all, or a path. */
  ghost predicate PatternGiven(lower: string -> string, text: string, p: string)
  {
    exists inner :: Unwrapped(text, inner) && PatternOf(lower, inner, p)
  }

  ghost predicate PatternOf(lower: string -> string, inner: string, p: string)
  {
    if inner == "*" then p == "*" else exists path :: Unwrapped(inner, path) && PathOf(lower, path, p)
  }

  lemma PatternOfIff(lower: string -> string, inner: string, p: string)
    ensures PatternOf(lower, inner, p) <==> (if inner == "*" then Some("*") else NormalizePath(lower, inner)) == Some(p)
  {
    hide Unwrapped, Forbidden, Trim, TrimWhere;
    forall path
      ensures Unwrapped(inner, path) <==> path == TrimWhere(Trim(inner), IsQuote)
    {
      UnwrappedIff(inner, path);
    }
    var path := TrimWhere(Trim(inner), IsQuote);
    assert Unwrapped(inner, path);
    assert NormalizePath(lower, inner) == Some(p) <==> PathOf(lower, path, p);
  }

  lemma PatternIff(lower: string -> string, text: string, p: string)
    ensures PatternGiven(lower, text, p) <==> NormalizePattern(lower, text) == Some(p)
  {
    hide Unwrapped, PatternOf, Trim, TrimWhere, NormalizePath;
    forall inner
      ensures Unwrapped(text, inner) <==> inner == TrimWhere(Trim(text), IsQuote)
    {
      UnwrappedIff(text, inner);
    }
    PatternOfIff(lower, TrimWhere(Trim(text), IsQuote), p);
  }

  // ---------- one line ----------

  ghost predicate Idle(line: string)
  {
    Trim(line) == "" || Trim(line)[0] == '#'
  }

  ghost predicate Sides(line: string, left: string, right: string)
  {
    Trim(line) == left + "=" + right && '=' !in left
  }

  /** The line is a rule: a pattern, which does not look like a comment, and a strategy. */
  ghost predicate RuleGiven(lower: string -> string, line: string, p: string, s: Strategy)
  {
    && !Idle(line)
    && exists left, right ::
      Sides(line, left, right) && PatternGiven(lower, left, p) && Names(right, s) && (p == "" || p[0] != '#')
  }

  /** What is wrong with a line taken by itself. */
  ghost predicate LineRefused(lower: string -> string, line: string, e: RuleReason)
  {
    && !Idle(line)
    && ('=' !in Trim(line) ==> e == ExpectedRule)
    && ('=' in Trim(line) ==> exists left, right :: Sides(line, left, right) && SidesRefused(lower, left, right, e))
  }

  ghost predicate SidesRefused(lower: string -> string, left: string, right: string, e: RuleReason)
  {
    if forall p :: !PatternGiven(lower, left, p) then e == InvalidPattern
    else if exists p :: PatternGiven(lower, left, p) && p != "" && p[0] == '#' then e == HashPattern
    else (forall s :: !Names(right, s)) && e == UnknownBackend
  }

  lemma SidesAre(line: string, left: string, right: string)
    ensures Sides(line, left, right) <==> SplitOnce(Trim(line), '=') == Some((left, right))
  {
    hide Trim;
    if Sides(line, left, right) { SplitOnceUnique(left, right, '='); }
  }

  lemma PatternNone(lower: string -> string, text: string)
    ensures NormalizePattern(lower, text).None? <==> forall p :: !PatternGiven(lower, text, p)
    ensures NormalizePattern(lower, text).Some? ==>
      forall p :: PatternGiven(lower, text, p) <==> p == NormalizePattern(lower, text).value
  {
    hide NormalizePattern, PatternGiven;
    forall p
      ensures PatternGiven(lower, text, p) <==> NormalizePattern(lower, text) == Some(p)
    {
      PatternIff(lower, text, p);
    }
    if NormalizePattern(lower, text).Some? { assert PatternGiven(lower, text, NormalizePattern(lower, text).value); }
  }

  lemma NamesNone(value: string)
    ensures FromId(value).None? <==> forall s :: !Names(value, s)
    ensures FromId(value).Some? ==> forall s :: Names(value, s) <==> s == FromId(value).value
  {
    hide FromId, Names;
    FromIdIff(value);
    if FromId(value).Some? { assert Names(value, FromId(value).value); }
  }

  /** A line is read as the rule it gives, skipped when idle, and else refused as it should be. */
  lemma RowIff(lower: string -> string, line: string)
    ensures var r := ReadRow(lower, line);
      && (r == Ok(None) <==> Idle(line))
      && (forall p, s :: r == Ok(Some((p, s))) <==> RuleGiven(lower, line, p, s))
      && (forall e :: r == Err(e) <==> LineRefused(lower, line, e))
  {
    hide Trim, NormalizePattern, FromId, PatternGiven, Names;
    forall left, right
      ensures Sides(line, left, right) <==> SplitOnce(Trim(line), '=') == Some((left, right))
    {
      SidesAre(line, left, right);
    }
    if SplitOnce(Trim(line), '=').Some? {
      var (left, right) := SplitOnce(Trim(line), '=').value;
      PatternNone(lower, left);
      NamesNone(right);
      assert Sides(line, left, right);
    }
  }

  // ---------- all lines ----------

  /** Line `k` gives a rule that an earlier line has given already. */
  ghost predicate Repeats(lower: string -> string, lines: seq<string>, k: nat, p: string)
    requires k < |lines|
  {
    && (exists s :: RuleGiven(lower, lines[k], p, s))
    && exists j, s :: 0 <= j < k && RuleGiven(lower, lines[j], p, s)
  }

  ghost predicate Refused(lower: string -> string, lines: seq<string>, k: nat, e: RuleReason)
    requires k < |lines|
  {
    || LineRefused(lower, lines[k], e)
    || (Repeats(lower, lines, k, "*") && e == DuplicateCatchAll)
    || (e == DuplicateRule && exists p :: p != "*" && Repeats(lower, lines, k, p))
  }

  ghost predicate FirstRefused(lower: string -> string, lines: seq<string>, k: nat, e: RuleReason)
  {
    k < |lines| && Refused(lower, lines, k, e) && forall j: nat :: j < k ==> Accepted(lower, lines, j)
  }

  ghost predicate Accepted(lower: string -> string, lines: seq<string>, k: nat)
    requires k < |lines|
  {
    forall e :: !Refused(lower, lines, k, e)
  }

  /** Some of the first `k` lines gives this rule. */
  ghost predicate GivenBefore(lower: string -> string, lines: seq<string>, k: nat, p: string, s: Strategy)
    requires k <= |lines|
  {
    exists j :: 0 <= j < k && RuleGiven(lower, lines[j], p, s)
  }

  /** The rules are those of the first `k` lines. */
  ghost predicate Collected(lower: string -> string, lines: seq<string>, k: nat, rules: Partial)
    requires k <= |lines|
  {
    && (forall p, s :: p != "*" ==>
          (p in rules.exact && rules.exact[p] == s <==> GivenBefore(lower, lines, k, p, s)))
    && "*" !in rules.exact
    && forall s :: rules.fallback == Some(s) <==> GivenBefore(lower, lines, k, "*", s)
  }

  lemma OneMoreLine(lower: string -> string, lines: seq<string>, k: nat, n: nat)
    requires k < |lines| && n == k + 1
    ensures forall p, s :: GivenBefore(lower, lines, n, p, s) <==>
      GivenBefore(lower, lines, k, p, s) || RuleGiven(lower, lines[k], p, s)
  {
    hide RuleGiven;
  }

  lemma RepeatsIff(lower: string -> string, lines: seq<string>, k: nat, rules: Partial, p: string, s: Strategy)
    requires k < |lines| && Collected(lower, lines, k, rules) && RuleGiven(lower, lines[k], p, s)
    ensures Repeats(lower, lines, k, p) <==> if p == "*" then rules.fallback.Some? else p in rules.exact
  {
    hide RuleGiven;
    if p == "*" {
      if rules.fallback.Some? { assert GivenBefore(lower, lines, k, p, rules.fallback.value); }
      if Repeats(lower, lines, k, p) {
        var j, t :| 0 <= j < k && RuleGiven(lower, lines[j], p, t);
        assert GivenBefore(lower, lines, k, p, t);
      }
    } else {
      if p in rules.exact { assert GivenBefore(lower, lines, k, p, rules.exact[p]); }
      if Repeats(lower, lines, k, p) {
        var j, t :| 0 <= j < k && RuleGiven(lower, lines[j], p, t);
        assert GivenBefore(lower, lines, k, p, t);
      }
    }
  }

  /** What a line comes to, as its rule, as idle, or as refused by itself. */
  lemma LineKinds(lower: string -> string, lines: seq<string>, k: nat)
    requires k < |lines|
    ensures var r := ReadRow(lower, lines[k]);
      && (r == Ok(None) ==> (forall p, s :: !RuleGiven(lower, lines[k], p, s)) && Accepted(lower, lines, k))
      && (r.Err? ==> forall e :: Refused(lower, lines, k, e) <==> e == r.error)
      && (r.Ok? && r.value.Some? ==>
            forall e :: Refused(lower, lines, k, e) <==>
              Repeats(lower, lines, k, r.value.value.0)
              && e == if r.value.value.0 == "*" then DuplicateCatchAll else DuplicateRule)
  {
    hide ReadRow, RuleGiven, LineRefused, Idle;
    RowIff(lower, lines[k]);
    var r := ReadRow(lower, lines[k]);
    assert forall p, s :: RuleGiven(lower, lines[k], p, s) <==> r == Ok(Some((p, s)));
    assert forall e :: LineRefused(lower, lines[k], e) <==> r == Err(e);
    if r.Ok? && r.value.Some? {
      var (p, s) := r.value.value;
      assert forall q :: Repeats(lower, lines, k, q) ==> q == p;
    }
  }

  lemma LineIff(lower: string -> string, lines: seq<string>, k: nat, rules: Partial)
    requires k < |lines| && Collected(lower, lines, k, rules)
    ensures var r := ReadLine(lower, rules, lines[k]);
      && (forall e :: r == Err(e) <==> Refused(lower, lines, k, e))
      && (r.Ok? ==> Collected(lower, lines, k + 1, r.value))
  {
    hide ReadRow, RuleGiven, Refused, Repeats, Accepted, GivenBefore, Collected;
    LineKinds(lower, lines, k);
    RowIff(lower, lines[k]);
    var row := ReadRow(lower, lines[k]);
    if row == Ok(None) {
      AcceptedMeans(lower, lines, k);
      NothingMore(lower, lines, k, rules);
    } else if row.Ok? {
      var (p, s) := row.value.value;
      RepeatsIff(lower, lines, k, rules, p, s);
      if !Repeats(lower, lines, k, p) { OneMoreRule(lower, lines, k, rules, p, s); }
    }
  }

  lemma AcceptedMeans(lower: string -> string, lines: seq<string>, k: nat)
    requires k < |lines| && Accepted(lower, lines, k)
    ensures forall e :: !Refused(lower, lines, k, e)
  {
  }

  lemma NothingMore(lower: string -> string, lines: seq<string>, k: nat, rules: Partial)
    requires k < |lines| && Collected(lower, lines, k, rules) && forall p, s :: !RuleGiven(lower, lines[k], p, s)
    ensures Collected(lower, lines, k + 1, rules)
  {
    hide RuleGiven, GivenBefore;
    var n := k + 1;
    OneMoreLine(lower, lines, k, n);
    assert Collected(lower, lines, n, rules);
  }

  lemma OneMoreRule(lower: string -> string, lines: seq<string>, k: nat, rules: Partial, p: string, s: Strategy)
    requires k < |lines| && Collected(lower, lines, k, rules)
    requires forall q, t :: RuleGiven(lower, lines[k], q, t) <==> q == p && t == s
    requires if p == "*" then rules.fallback.None? else p !in rules.exact
    ensures Collected(lower, lines, k + 1,
              if p == "*" then rules.(fallback := Some(s)) else rules.(exact := rules.exact[p := s]))
  {
    hide RuleGiven, GivenBefore;
    var n := k + 1;
    OneMoreLine(lower, lines, k, n);
    var more := if p == "*" then rules.(fallback := Some(s)) else rules.(exact := rules.exact[p := s]);
    assert Collected(lower, lines, n, more);
  }

  lemma {:induction false} ReadFrom(lower: string -> string, lines: seq<string>, k: nat, rules: Partial)
    requires k <= |lines| && Collected(lower, lines, k, rules) && forall j: nat :: j < k ==> Accepted(lower, lines, j)
    ensures var r := ReadLines(lower, rules, lines[k..], k + 1);
      && (r.Ok? <==> forall j: nat :: j < |lines| ==> Accepted(lower, lines, j))
      && (r.Ok? ==> Collected(lower, lines, |lines|, r.value))
      && forall j: nat, e :: FirstRefused(lower, lines, j, e) ==> r == Err(RuleError(j + 1, e))
    decreases |lines| - k
  {
    hide ReadLine, Refused, Collected, Accepted;
    if k < |lines| {
      assert lines[k..][0] == lines[k] && lines[k..][1..] == lines[k + 1..];
      LineIff(lower, lines, k, rules);
      AcceptedIff(lower, lines, k);
      var r := ReadLine(lower, rules, lines[k]);
      if r.Ok? {
        ReadFrom(lower, lines, k + 1, r.value);
      } else {
        OnlyHere(lower, lines, k);
      }
    } else {
      NoneRefused(lower, lines);
    }
  }

  lemma AcceptedIff(lower: string -> string, lines: seq<string>, k: nat)
    requires k < |lines|
    ensures Accepted(lower, lines, k) <==> forall e :: !Refused(lower, lines, k, e)
  {
    hide Refused;
  }

  lemma OnlyHere(lower: string -> string, lines: seq<string>, k: nat)
    requires k < |lines| && !Accepted(lower, lines, k) && forall j: nat :: j < k ==> Accepted(lower, lines, j)
    ensures forall j: nat, e :: FirstRefused(lower, lines, j, e) ==> j == k
  {
    hide Refused, Accepted;
    forall j: nat, e | FirstRefused(lower, lines, j, e)
      ensures j == k
    {
      AcceptedIff(lower, lines, j);
    }
  }

  lemma NoneRefused(lower: string -> string, lines: seq<string>)
    requires forall j: nat :: j < |lines| ==> Accepted(lower, lines, j)
    ensures forall j: nat, e :: !FirstRefused(lower, lines, j, e)
  {
    hide Refused, Accepted;
    forall j: nat, e
      ensures !FirstRefused(lower, lines, j, e)
    {
      if j < |lines| { AcceptedIff(lower, lines, j); }
    }
  }

  /**
   * Rules are read exactly when each line is idle or gives a rule that no earlier line gave: the result has the
   * strategy of each pattern, and that of the catch-all for everything else, by default the probe. The first other
   * line is the one that is refused.
   */
  lemma RulesOutcome(lower: string -> string, lines: seq<string>)
    ensures var r := Parsed(lower, lines);
      && (r.Ok? <==> forall j: nat :: j < |lines| ==> Accepted(lower, lines, j))
      && (forall j: nat, e :: FirstRefused(lower, lines, j, e) ==> r == Err(RuleError(j + 1, e)))
      && (r.Ok? ==>
            && "*" !in r.value.exact
            && (forall p, s :: p != "*" ==>
                  (p in r.value.exact && r.value.exact[p] == s <==> GivenBefore(lower, lines, |lines|, p, s)))
            && (forall s :: GivenBefore(lower, lines, |lines|, "*", s) ==> r.value.fallback == s)
            && ((forall s :: !GivenBefore(lower, lines, |lines|, "*", s)) ==> r.value.fallback == CapabilityProbe))
  {
    hide ReadLines, Refused, Accepted, GivenBefore, FirstRefused;
    NothingRead(lower, lines);
    assert lines[0..] == lines;
    ReadFrom(lower, lines, 0, Partial(map[], None));
    FirstIsFirst(lower, lines);
  }

  lemma NothingRead(lower: string -> string, lines: seq<string>)
    ensures Collected(lower, lines, 0, Partial(map[], None))
  {
  }

  lemma FirstIsFirst(lower: string -> string, lines: seq<string>)
    ensures forall j: nat, e :: FirstRefused(lower, lines, j, e) ==> j < |lines|
  {
  }
}
