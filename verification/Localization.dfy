/** Locale identifiers, catalogs, the registry of installed catalogs and locale lookup. */
module Localization {
  import opened Wrappers
  import opened Strings

  datatype CatalogError =
    | TooLarge | UnsupportedFormat | InvalidLocale | DuplicateLocale | ReservedLocale
    | InvalidDirection | InvalidMessage | UnknownMessage | PlaceholderMismatch

  datatype TextDirection = Ltr | Rtl

  /**
   * A catalog after JSON decoding. `messageError` is the verdict of the message checks, which
   * read nothing but the messages and the embedded English texts.
   */
  datatype Catalog = Catalog(
    format: nat,
    locale: string,
    direction: TextDirection,
    aliases: seq<string>,
    messageError: Option<CatalogError>)

  const MAX_ALIASES: nat := 8

  // ---------- identifiers ----------

  predicate IsAlpha(c: char) { 'a' <= c <= 'z' || 'A' <= c <= 'Z' }

  predicate IsAlnum(c: char) { IsAlpha(c) || '0' <= c <= '9' }

  /** The grammar shared by pack IDs and locales: a language and further subtags. */
  predicate IdGrammar(s: string)
  {
    var parts := Split(s, '-');
    && 1 <= |s| <= 63
    && 2 <= |parts[0]| <= 8 && (forall c :: c in parts[0] ==> IsAlpha(c))
    && forall i :: 1 <= i < |parts| ==>
         1 <= |parts[i]| <= 8 && forall c :: c in parts[i] ==> IsAlnum(c)
  }

  function NormalizeLocale(value: string): (r: Result<string, CatalogError>)
    ensures r.Ok? <==> IdGrammar(value)
  {
    if IdGrammar(value) then Ok(ToLowerAscii(value)) else Err(InvalidLocale)
  }

  lemma {:induction false} SplitLower(s: string)
    ensures |Split(ToLowerAscii(s), '-')| == |Split(s, '-')|
    ensures forall i :: 0 <= i < |Split(s, '-')| ==> Split(ToLowerAscii(s), '-')[i] == ToLowerAscii(Split(s, '-')[i])
  {
    hide LowerAscii, ToLowerAscii;
    if |s| == 0 {
      LowerHead("");
    } else {
      var t := ToLowerAscii(s);
      SplitLower(s[1..]);
      LowerHead(s);
      LowerPart(s, Split(s[1..], '-')[0]);
    }
  }

  lemma LowerHead(s: string)
    ensures ToLowerAscii("") == ""
    ensures |s| > 0 ==> ToLowerAscii(s)[1..] == ToLowerAscii(s[1..]) && (ToLowerAscii(s)[0] == '-' <==> s[0] == '-')
  {
  }

  lemma LowerPart(s: string, part: string)
    requires |s| > 0
    ensures ToLowerAscii([s[0]] + part) == [ToLowerAscii(s)[0]] + ToLowerAscii(part)
  {
  }

  /** A normalized identifier is one, and normalizing it again changes nothing. */
  lemma NormalizedIsStable(value: string)
    requires IdGrammar(value)
    ensures NormalizeLocale(ToLowerAscii(value)) == Ok(ToLowerAscii(value))
  {
    SplitLower(value);
    LowerAsciiIdempotent(value);
    var parts, lower := Split(value, '-'), Split(ToLowerAscii(value), '-');
    forall i, c | 0 <= i < |parts| && c in lower[i]
      ensures IsAlnum(c) && (i == 0 ==> IsAlpha(c))
    {
      var k :| 0 <= k < |lower[i]| && lower[i][k] == c;
      assert parts[i][k] in parts[i] && c == LowerAscii(parts[i][k]);
    }
  }

  function Primary(locale: string): string
  {
    Split(locale, '-')[0]
  }

  function ScriptSubtag(locale: string): Option<string>
  {
    var parts := Split(locale, '-');
    if |parts| >= 2 && |parts[1]| == 4 && (forall c :: c in parts[1] ==> IsAlpha(c))
    then Some(parts[1]) else None
  }

  // ---------- one catalog ----------

  /** An alias may neither redirect another language nor override an explicit script. */
  predicate AliasBelongs(alias: string, locale: string)
  {
    && Primary(alias) == Primary(locale)
    && (ScriptSubtag(alias).Some? ==> ScriptSubtag(alias) == ScriptSubtag(locale))
  }

  function NormalizeAliases(locale: string, aliases: seq<string>, seen: seq<string>)
    : (r: Result<seq<string>, CatalogError>)
    requires forall i :: 0 <= i < |seen| ==> seen[i] != locale && AliasBelongs(seen[i], locale)
    requires forall i, j :: 0 <= i < j < |seen| ==> seen[i] != seen[j]
    ensures r.Ok? ==> forall i :: 0 <= i < |r.value| ==>
      r.value[i] != locale && AliasBelongs(r.value[i], locale)
    ensures r.Ok? ==> forall i, j :: 0 <= i < j < |r.value| ==> r.value[i] != r.value[j]
    decreases |aliases|
  {
    if |aliases| == 0 then Ok(seen)
    else
      match NormalizeLocale(aliases[0])
      case Err(e) => Err(e)
      case Ok(alias) =>
        if !AliasBelongs(alias, locale) then Err(InvalidLocale)
        else if alias == locale || alias in seen then Err(DuplicateLocale)
        else NormalizeAliases(locale, aliases[1..], seen + [alias])
  }

  function ParseCatalog(raw: Catalog): (r: Result<Catalog, CatalogError>)
    ensures r.Ok? ==> WellFormed(r.value)
  {
    if raw.format != 1 then Err(UnsupportedFormat)
    else
      match NormalizeLocale(raw.locale)
      case Err(e) => Err(e)
      case Ok(locale) =>
        if |raw.aliases| > MAX_ALIASES then Err(TooLarge)
        else
          match NormalizeAliases(locale, raw.aliases, [])
          case Err(e) => Err(e)
          case Ok(aliases) =>
            if locale == "en" && raw.direction != Ltr then Err(InvalidDirection)
            else if raw.messageError.Some? then Err(raw.messageError.value)
            else Ok(raw.(locale := locale, aliases := aliases))
  }

  ghost predicate WellFormed(c: Catalog)
  {
    && (forall i :: 0 <= i < |c.aliases| ==> c.aliases[i] != c.locale && AliasBelongs(c.aliases[i], c.locale))
    && (forall i, j :: 0 <= i < j < |c.aliases| ==> c.aliases[i] != c.aliases[j])
  }

  /** The outcome of `ParseCatalog`: a catalog or the reason there is none. */
  type Parsed = Result<Catalog, CatalogError>

  function Names(c: Catalog): set<string>
  {
    {c.locale} + set a | a in c.aliases
  }

  predicate Reserved(name: string)
  {
    Primary(name) == "en" || name == "system"
  }

  /** What `add` asks of a catalog before it looks at the registry. */
  predicate Admissible(p: Parsed)
  {
    p.Ok? && forall n :: n in Names(p.value) ==> !Reserved(n)
  }

  // ---------- the registry ----------

  /** The two maps of a registry; the embedded English catalog is never in them. */
  datatype View = View(catalogs: map<string, Catalog>, aliases: map<string, Catalog>)

  const EMPTY := View(map[], map[])

  /** Which names a registry owns, and that each name leads to the catalog declaring it. */
  ghost predicate Valid(v: View)
  {
    && v.catalogs.Keys !! v.aliases.Keys
    && (forall l :: l in v.catalogs ==> v.catalogs[l].locale == l)
    && (forall a :: a in v.aliases ==> IsAliasOf(v, a, v.aliases[a]))
    && (forall l, a :: l in v.catalogs && a in v.catalogs[l].aliases ==>
          a in v.aliases && v.aliases[a] == v.catalogs[l])
    && (forall l :: l in v.catalogs ==> WellFormed(v.catalogs[l]))
    && (forall n :: n in Owned(v) ==> !Reserved(n))
  }

  ghost predicate IsAliasOf(v: View, a: string, c: Catalog)
  {
    c.locale in v.catalogs && v.catalogs[c.locale] == c && a in c.aliases
  }

  function Owned(v: View): set<string>
  {
    v.catalogs.Keys + v.aliases.Keys
  }

  function Pointing(aliases: seq<string>, c: Catalog): (m: map<string, Catalog>)
    ensures forall a :: a in m <==> a in aliases
    ensures forall a :: a in m ==> m[a] == c
  {
    map a | a in aliases :: c
  }

  function Registered(v: View, c: Catalog): (w: View)
    ensures Owned(w) == Owned(v) + Names(c)
  {
    View(v.catalogs[c.locale := c], v.aliases + Pointing(c.aliases, c))
  }

  /** Why a parsed catalog cannot join the registry, checked before anything is inserted. */
  function Refusal(v: View, c: Catalog): (e: Option<CatalogError>)
    ensures e.None? <==> (forall n :: n in Names(c) ==> !Reserved(n)) && Names(c) !! Owned(v)
  {
    if exists n :: n in Names(c) && Reserved(n) then Some(ReservedLocale)
    else if c.locale in Owned(v) || exists a :: a in c.aliases && a in Owned(v) then
      assert c.locale in Names(c) && forall a :: a in c.aliases ==> a in Names(c);
      Some(DuplicateLocale)
    else
      assert forall n :: n in Names(c) ==> n == c.locale || n in c.aliases;
      None
  }

  function Add(v: View, p: Parsed): (r: Result<View, CatalogError>)
    ensures r.Ok? <==> Admissible(p) && Names(p.value) !! Owned(v)
    ensures r.Ok? ==> r.value == Registered(v, p.value)
  {
    match p
    case Err(e) => Err(e)
    case Ok(c) =>
      match Refusal(v, c)
      case Some(e) => Err(e)
      case None => Ok(Registered(v, c))
  }

  lemma LocaleIsNoAlias(c: Catalog)
    requires WellFormed(c)
    ensures c.locale !in c.aliases
  {
  }

  /** Adding keeps every name with exactly one owner. */
  lemma AddKeepsOwnership(v: View, p: Parsed)
    requires Valid(v) && Add(v, p).Ok? && WellFormed(p.value)
    ensures Valid(Add(v, p).value)
  {
    hide WellFormed, IsAliasOf, Reserved;
    LocaleIsNoAlias(p.value);
    RegisteredAliases(v, p.value);
    assert forall n :: n in Owned(Registered(v, p.value)) ==> n in Owned(v) || n in Names(p.value);
  }

  lemma RegisteredAliases(v: View, c: Catalog)
    requires Valid(v) && Names(c) !! Owned(v) && c.locale !in c.aliases
    ensures var w := Registered(v, c);
      forall a :: a in w.aliases ==> IsAliasOf(w, a, w.aliases[a]) && a !in w.catalogs
  {
    hide WellFormed, Reserved;
    var w := Registered(v, c);
    assert c.locale in Names(c);
    forall a | a in w.aliases
      ensures IsAliasOf(w, a, w.aliases[a]) && a !in w.catalogs
    {
      if a in c.aliases {
        assert a in Names(c);
      } else {
        assert IsAliasOf(v, a, v.aliases[a]);
        assert a in Owned(v);
      }
    }
  }

  /** Adding several catalogs, each to the registry the previous ones left. */
  function Build(v: View, ps: seq<Parsed>): Result<View, CatalogError>
    decreases |ps|
  {
    if |ps| == 0 then Ok(v)
    else
      match Add(v, ps[0])
      case Err(e) => Err(e)
      case Ok(w) => Build(w, ps[1..])
  }

  ghost predicate Compatible(a: Parsed, b: Parsed)
  {
    a.Ok? && b.Ok? ==> Names(a.value) !! Names(b.value)
  }

  ghost predicate Unclaimed(v: View, p: Parsed)
  {
    p.Ok? ==> Names(p.value) !! Owned(v)
  }

  /** Every catalog is admissible by itself and no two of them claim the same name. */
  ghost predicate Coexist(ps: seq<Parsed>)
  {
    && (forall i :: 0 <= i < |ps| ==> Admissible(ps[i]))
    && (forall i, j :: 0 <= i < j < |ps| ==> Compatible(ps[i], ps[j]))
  }

  lemma CoexistCons(p: Parsed, rest: seq<Parsed>)
    ensures Coexist([p] + rest) <==>
      Admissible(p) && Coexist(rest) && forall i :: 0 <= i < |rest| ==> Compatible(p, rest[i])
  {
    hide Admissible, Compatible;
    var ps := [p] + rest;
    assert ps[0] == p && ps[1..] == rest;
    assert forall i :: 0 <= i < |rest| ==> ps[i + 1] == rest[i];
    if Admissible(p) && Coexist(rest) && forall i :: 0 <= i < |rest| ==> Compatible(p, rest[i]) {
      forall i, j | 0 <= i < j < |ps|
        ensures Compatible(ps[i], ps[j])
      {
        assert ps[j] == rest[j - 1];
      }
    }
    if Coexist(ps) {
      forall i, j | 0 <= i < j < |rest|
        ensures Compatible(rest[i], rest[j])
      {
        assert Compatible(ps[i + 1], ps[j + 1]);
      }
      forall i | 0 <= i < |rest|
        ensures Admissible(rest[i]) && Compatible(p, rest[i])
      {
        assert Admissible(ps[i + 1]) && Compatible(ps[0], ps[i + 1]);
      }
    }
  }

  /** Building succeeds exactly for coexisting catalogs that claim nothing the registry owns. */
  lemma {:induction false} BuildSucceedsIff(v: View, ps: seq<Parsed>)
    ensures Build(v, ps).Ok? <==> Coexist(ps) && forall i :: 0 <= i < |ps| ==> Unclaimed(v, ps[i])
    decreases |ps|
  {
    hide Registered, Reserved;
    if |ps| > 0 {
      var p, rest := ps[0], ps[1..];
      assert ps == [p] + rest;
      CoexistCons(p, rest);
      if Add(v, p).Ok? {
        var w := Registered(v, p.value);
        BuildSucceedsIff(w, rest);
        assert forall i :: 0 <= i < |rest| ==>
          (Unclaimed(w, rest[i]) <==> Unclaimed(v, rest[i]) && Compatible(p, rest[i]));
        assert forall i :: 0 <= i < |rest| ==> ps[i + 1] == rest[i];
        forall i | 0 <= i < |rest| && forall k :: 0 <= k < |ps| ==> Unclaimed(v, ps[k])
          ensures Unclaimed(v, rest[i])
        {
          assert Unclaimed(v, ps[i + 1]);
        }
      }
    }
  }

  lemma BuildPair(v: View, a: Parsed, b: Parsed)
    ensures Build(v, [a, b]).Ok? <==> Add(v, a).Ok? && Add(Add(v, a).value, b).Ok?
    ensures Build(v, [a, b]).Ok? ==> Build(v, [a, b]) == Add(Add(v, a).value, b)
  {
    BuildOne(v, a);
    assert [a, b][1..] == [b];
    if Add(v, a).Ok? {
      BuildOne(Add(v, a).value, b);
    }
  }

  lemma BuildOne(v: View, p: Parsed)
    ensures Build(v, [p]) == Add(v, p)
  {
    assert [p][1..] == [];
  }

  /** Two catalogs can be added in either order, with the same result. */
  lemma AddCommutes(v: View, a: Parsed, b: Parsed)
    ensures SameOutcome(Build(v, [a, b]), Build(v, [b, a]))
  {
    BuildPair(v, a, b);
    BuildPair(v, b, a);
    if Build(v, [a, b]).Ok? {
      RegisteredCommutes(v, a.value, b.value);
    }
    if Build(v, [b, a]).Ok? {
      RegisteredCommutes(v, b.value, a.value);
    }
  }

  lemma RegisteredCommutes(v: View, a: Catalog, b: Catalog)
    requires Names(a) !! Names(b)
    ensures Registered(Registered(v, a), b) == Registered(Registered(v, b), a)
  {
    assert a.locale in Names(a) && b.locale in Names(b);
    assert forall n :: n in a.aliases ==> n in Names(a);
    assert forall n :: n in b.aliases ==> n in Names(b);
    var ma, mb := Pointing(a.aliases, a), Pointing(b.aliases, b);
    assert forall n :: n in ma ==> n !in mb;
    assert v.aliases + ma + mb == v.aliases + mb + ma;
    assert v.catalogs[a.locale := a][b.locale := b] == v.catalogs[b.locale := b][a.locale := a];
  }

  lemma {:induction false} BuildConcat(v: View, xs: seq<Parsed>, ys: seq<Parsed>)
    ensures Build(v, xs).Ok? ==> Build(v, xs + ys) == Build(Build(v, xs).value, ys)
    ensures Build(v, xs).Err? ==> Build(v, xs + ys).Err?
    decreases |xs|
  {
    if |xs| == 0 {
      assert xs + ys == ys;
    } else {
      assert (xs + ys)[1..] == xs[1..] + ys;
      if Add(v, xs[0]).Ok? {
        BuildConcat(Add(v, xs[0]).value, xs[1..], ys);
      }
    }
  }

  ghost predicate SameOutcome(a: Result<View, CatalogError>, b: Result<View, CatalogError>)
  {
    (a.Ok? <==> b.Ok?) && (a.Ok? ==> a == b)
  }

  /** A catalog in the middle may as well come first. */
  lemma {:induction false} BuildBubble(v: View, xs: seq<Parsed>, c: Parsed, ys: seq<Parsed>)
    ensures SameOutcome(Build(v, xs + [c] + ys), Build(v, [c] + xs + ys))
    decreases |xs|
  {
    if |xs| == 0 {
      assert xs + [c] + ys == [c] + xs + ys;
    } else {
      var x, rest := xs[0], xs[1..];
      assert xs + [c] + ys == [x] + (rest + [c] + ys);
      assert [c] + xs + ys == [c, x] + (rest + ys);
      assert [x] + ([c] + rest + ys) == [x, c] + (rest + ys);
      BuildConcat(v, [x], rest + [c] + ys);
      BuildConcat(v, [x], [c] + rest + ys);
      BuildConcat(v, [c, x], rest + ys);
      BuildConcat(v, [x, c], rest + ys);
      AddCommutes(v, c, x);
      if Build(v, [x]).Ok? {
        BuildBubble(Build(v, [x]).value, rest, c, ys);
      }
    }
  }

  /** Building a registry succeeds in one order iff in every order, with one and the same result. */
  lemma {:induction false} BuildIgnoresOrder(v: View, xs: seq<Parsed>, ys: seq<Parsed>)
    requires multiset(xs) == multiset(ys)
    ensures SameOutcome(Build(v, xs), Build(v, ys))
    decreases |xs|
  {
    hide Add, Build, SameOutcome;
    assert |multiset(xs)| == |xs| && |multiset(ys)| == |ys|;
    if |xs| == 0 {
      SameOutcomeRefl(Build(v, xs));
    } else {
      var c, rest := xs[0], xs[1..];
      assert xs == [c] + rest;
      var a, b := WithoutFirst(xs, ys);
      BuildBubble(v, a, c, b);
      assert [c] + a + b == [c] + (a + b);
      BuildConcat(v, [c], rest);
      BuildConcat(v, [c], a + b);
      if Build(v, [c]).Ok? {
        BuildIgnoresOrder(Build(v, [c]).value, rest, a + b);
      }
      SameOutcomeJoins(v, c, rest, a, b, ys);
    }
  }

  lemma SameOutcomeRefl(r: Result<View, CatalogError>)
    ensures SameOutcome(r, r)
  {
  }

  lemma SameOutcomeJoins(v: View, c: Parsed, rest: seq<Parsed>, a: seq<Parsed>, b: seq<Parsed>, ys: seq<Parsed>)
    requires ys == a + [c] + b && SameOutcome(Build(v, a + [c] + b), Build(v, [c] + (a + b)))
    requires Build(v, [c]).Ok? ==>
      && Build(v, [c] + rest) == Build(Build(v, [c]).value, rest)
      && Build(v, [c] + (a + b)) == Build(Build(v, [c]).value, a + b)
      && SameOutcome(Build(Build(v, [c]).value, rest), Build(Build(v, [c]).value, a + b))
    requires Build(v, [c]).Err? ==> Build(v, [c] + rest).Err? && Build(v, [c] + (a + b)).Err?
    ensures SameOutcome(Build(v, [c] + rest), Build(v, ys))
  {
    hide Build;
  }

  lemma WithoutFirst(xs: seq<Parsed>, ys: seq<Parsed>) returns (a: seq<Parsed>, b: seq<Parsed>)
    requires multiset(xs) == multiset(ys) && |xs| > 0
    ensures ys == a + [xs[0]] + b && multiset(xs[1..]) == multiset(a + b)
  {
    var c, rest := xs[0], xs[1..];
    assert xs == [c] + rest;
    a, b := SplitAt(ys, c);
    assert multiset(rest) == multiset(xs) - multiset{c};
    assert multiset(ys) == multiset(a) + multiset{c} + multiset(b);
  }

  lemma SplitAt(ys: seq<Parsed>, c: Parsed) returns (a: seq<Parsed>, b: seq<Parsed>)
    requires c in multiset(ys)
    ensures ys == a + [c] + b
  {
    var k :| 0 <= k < |ys| && ys[k] == c;
    a, b := ys[..k], ys[k + 1..];
  }

  // ---------- lookup ----------

  function Prefix(parts: seq<string>, length: nat): string
    requires 1 <= length <= |parts|
  {
    Join(parts[..length], '-')
  }

  function Lookup(v: View, name: string): Option<Catalog>
  {
    if name in v.catalogs then Some(v.catalogs[name])
    else if name in v.aliases then Some(v.aliases[name])
    else None
  }

  function Requested(request: string): string
  {
    match NormalizeLocale(request)
    case Ok(l) => l
    case Err(_) => "en"
  }

  /** Shortest prefix that may stand in for the request: an explicit script is never dropped. */
  function MinimumParts(normalized: string): nat
  {
    if ScriptSubtag(normalized).Some? then 2 else 1
  }

  lemma PrefixSubtags(normalized: string, length: nat)
    requires 1 <= length <= |Split(normalized, '-')|
    ensures Split(Prefix(Split(normalized, '-'), length), '-') == Split(normalized, '-')[..length]
  {
    JoinSplit(normalized, '-');
    var parts := Split(normalized, '-');
    assert forall p :: p in parts[..length] ==> p in parts;
    SplitJoin(parts[..length], '-');
  }

  /** A catalog registered under a name shares its language and, if the name has one, its script. */
  lemma LookupStaysInLanguage(v: View, name: string)
    requires Valid(v) && Lookup(v, name).Some?
    ensures AliasBelongs(name, Lookup(v, name).value.locale)
    ensures !Reserved(name)
  {
    if name !in v.catalogs {
      var c := v.aliases[name];
      assert WellFormed(c) by { assert c.locale in v.catalogs; }
    }
  }

  /** `found` is the catalog of the longest allowed prefix that is registered, if any is. */
  ghost predicate LongestMatch(v: View, normalized: string, found: Option<Catalog>)
  {
    var parts := Split(normalized, '-');
    match found
    case Some(c) =>
      exists k :: MinimumParts(normalized) <= k <= |parts| && Lookup(v, Prefix(parts, k)) == found
        && NothingLonger(v, parts, k)
    case None => NothingLonger(v, parts, MinimumParts(normalized) - 1)
  }

  ghost predicate NothingLonger(v: View, parts: seq<string>, k: nat)
  {
    forall m :: k < m <= |parts| ==> Lookup(v, Prefix(parts, m)).None?
  }

  /** What a registered prefix of the request has in common with the request. */
  lemma PrefixBelongs(v: View, normalized: string, k: nat)
    requires Valid(v)
    requires MinimumParts(normalized) <= k <= |Split(normalized, '-')|
    requires Lookup(v, Prefix(Split(normalized, '-'), k)).Some?
    ensures var c := Lookup(v, Prefix(Split(normalized, '-'), k)).value;
      && Primary(c.locale) == Primary(normalized)
      && (ScriptSubtag(normalized).Some? ==> ScriptSubtag(c.locale) == ScriptSubtag(normalized))
  {
    PrefixSubtags(normalized, k);
    LookupStaysInLanguage(v, Prefix(Split(normalized, '-'), k));
  }

  /** A registry as an object: `add` either registers the whole catalog or changes nothing. */
  class CatalogRegistry {
    var catalogs: map<string, Catalog>
    var aliases: map<string, Catalog>

    ghost function Contents(): View
      reads this
    {
      View(catalogs, aliases)
    }

    constructor ()
      ensures Contents() == EMPTY && Valid(Contents())
    {
      catalogs, aliases := map[], map[];
    }

    method InsertAliases(c: Catalog)
      modifies this`aliases
      ensures aliases == old(aliases) + Pointing(c.aliases, c)
    {
      ghost var before := aliases;
      for i := 0 to |c.aliases|
        invariant aliases == before + Pointing(c.aliases[..i], c)
      {
        assert c.aliases[..i + 1] == c.aliases[..i] + [c.aliases[i]];
        aliases := aliases[c.aliases[i] := c];
        assert aliases == before + Pointing(c.aliases[..i + 1], c);
      }
      assert c.aliases[..|c.aliases|] == c.aliases;
    }

    /** Preflights all names, then inserts the aliases and the catalog itself. */
    method AddParsed(p: Parsed) returns (r: Result<(), CatalogError>)
      requires Valid(Contents()) && (p.Ok? ==> WellFormed(p.value))
      modifies this
      ensures Valid(Contents())
      ensures r.Ok? <==> Add(old(Contents()), p).Ok?
      ensures r.Ok? ==> Contents() == Add(old(Contents()), p).value
      ensures r.Err? ==> Contents() == old(Contents()) && r.error == Add(Contents(), p).error
    {
      ghost var before := Contents();
      if p.Err? {
        return Err(p.error);
      }
      var c := p.value;
      var refusal := Refusal(View(catalogs, aliases), c);
      if refusal.Some? {
        return Err(refusal.value);
      }
      AddKeepsOwnership(before, p);
      InsertAliases(c);
      catalogs := catalogs[c.locale := c];
      assert Contents() == Registered(before, c);
      return Ok(());
    }

    method AddCatalog(raw: Catalog) returns (r: Result<(), CatalogError>)
      requires Valid(Contents())
      modifies this
      ensures Valid(Contents())
      ensures r.Ok? <==> Add(old(Contents()), ParseCatalog(raw)).Ok?
      ensures r.Ok? ==> Contents() == Add(old(Contents()), ParseCatalog(raw)).value
      ensures r.Err? ==> Contents() == old(Contents()) && r.error == Add(Contents(), ParseCatalog(raw)).error
    {
      var parsed := ParseCatalog(raw);
      r := AddParsed(parsed);
    }

    /**
     * Lookup (None stands for the embedded English catalog): the longest registered prefix of the
     * request, never one of another language and never one that drops or changes its script.
     */
    method Select(request: string) returns (r: Option<Catalog>)
      requires Valid(Contents())
      ensures LongestMatch(Contents(), Requested(request), r)
      ensures r.Some? ==> Primary(r.value.locale) == Primary(Requested(request))
      ensures r.Some? && ScriptSubtag(Requested(request)).Some? ==>
        ScriptSubtag(r.value.locale) == ScriptSubtag(Requested(request))
    {
      var n := Requested(request);
      var parts := Split(n, '-');
      var minimum := MinimumParts(n);
      var length := |parts|;
      while length >= minimum
        invariant minimum - 1 <= length <= |parts|
        invariant NothingLonger(Contents(), parts, length)
      {
        var candidate := Prefix(parts, length);
        if candidate == "en" {
          EnglishPrefixes(Contents(), n, length);
          break;
        }
        var found := Lookup(View(catalogs, aliases), candidate);
        if found.Some? {
          PrefixBelongs(Contents(), n, length);
          return found;
        }
        length := length - 1;
      }
      return None;
    }
  }

  /** Nothing reserved is registered, so no prefix of an English request is ever found. */
  lemma EnglishPrefixes(v: View, normalized: string, length: nat)
    requires Valid(v)
    requires 1 <= length <= |Split(normalized, '-')|
    requires Prefix(Split(normalized, '-'), length) == "en"
    ensures forall m :: 1 <= m <= |Split(normalized, '-')| ==>
      Lookup(v, Prefix(Split(normalized, '-'), m)).None?
  {
    var parts := Split(normalized, '-');
    PrefixSubtags(normalized, length);
    SplitPlain("en", '-');
    assert parts[0] == "en";
    forall m | 1 <= m <= |parts|
      ensures Lookup(v, Prefix(parts, m)).None?
    {
      PrefixSubtags(normalized, m);
      assert Reserved(Prefix(parts, m));
    }
  }
}
