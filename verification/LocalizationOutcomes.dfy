/**
 * What identifiers, catalogs and lookups come to, in terms of the texts themselves: which identifiers and catalogs are
 * accepted, which refusal the others meet, and which catalog a request finds (src/localization.rs).
 */
module LocalizationOutcomes {
  import opened Wrappers
  import opened Strings
  import opened Localization

  // ---------- identifiers ----------

  ghost predicate Letters(s: string)
  {
    forall c :: c in s ==> 'A' <= c <= 'Z' || 'a' <= c <= 'z'
  }

  ghost predicate LettersOrDigits(s: string)
  {
    forall c :: c in s ==> 'A' <= c <= 'Z' || 'a' <= c <= 'z' || '0' <= c <= '9'
  }

  /** A language of two to eight letters, then any number of subtags of one to eight letters and digits. */
  ghost predicate Subtags(parts: seq<string>)
  {
    && 1 <= |parts| && 2 <= |parts[0]| && |parts[0]| <= 8 && Letters(parts[0])
    && forall i :: 0 < i < |parts| ==> 1 <= |parts[i]| && |parts[i]| <= 8 && LettersOrDigits(parts[i])
  }

  /** An identifier is such subtags joined by dashes, 63 characters at most. */
  lemma IdentifierIff(s: string)
    ensures IdGrammar(s) <==> |s| <= 63 && exists parts :: Subtags(parts) && s == Join(parts, '-')
  {
    JoinSplit(s, '-');
    if IdGrammar(s) { assert Subtags(Split(s, '-')); }
    forall parts | Subtags(parts) && s == Join(parts, '-')
      ensures Split(s, '-') == parts && 1 <= |s|
    {
      NoDashes(parts);
      SplitJoin(parts, '-');
    }
  }

  lemma NoDashes(parts: seq<string>)
    requires Subtags(parts)
    ensures forall p :: p in parts ==> '-' !in p
    ensures 1 <= |Join(parts, '-')|
  {
    forall i | 0 <= i < |parts|
      ensures '-' !in parts[i]
    {
    }
  }

  /** `p` is the first `k` parts: the whole text, or what comes before one of its dashes. */
  ghost predicate Shortens(s: string, p: string)
  {
    p == s || p + "-" <= s
  }

  lemma {:induction false} JoinFirst(parts: seq<string>, k: nat, sep: char)
    requires 1 <= k < |parts|
    ensures Join(parts, sep) == Join(parts[..k], sep) + [sep] + Join(parts[k..], sep)
  {
    if k > 1 {
      JoinFirst(parts[1..], k - 1, sep);
      assert parts[..k][1..] == parts[1..][..k - 1] && parts[1..][k - 1..] == parts[k..];
    } else {
      assert parts[..1] == [parts[0]];
    }
  }

  lemma PrefixShortens(s: string, k: nat)
    requires 1 <= k <= |Split(s, '-')|
    ensures Shortens(s, Prefix(Split(s, '-'), k))
  {
    var parts := Split(s, '-');
    JoinSplit(s, '-');
    if k < |parts| {
      JoinFirst(parts, k, '-');
      assert s == Prefix(parts, k) + "-" + Join(parts[k..], '-');
      assert s[..|Prefix(parts, k)| + 1] == Prefix(parts, k) + "-";
    } else {
      assert parts[..k] == parts;
    }
  }

  /** Every shortening is the join of the first parts. */
  lemma ShortensIsPrefix(s: string, p: string) returns (k: nat)
    requires Shortens(s, p)
    ensures 1 <= k <= |Split(s, '-')| && Prefix(Split(s, '-'), k) == p && Split(p, '-') == Split(s, '-')[..k]
  {
    JoinSplit(s, '-');
    JoinSplit(p, '-');
    k := |Split(p, '-')|;
    if p == s {
      assert Split(s, '-')[..k] == Split(s, '-');
    } else {
      var rest := s[|p| + 1..];
      assert s == p + ['-'] + rest;
      SplitJoined(p, rest);
      assert Split(s, '-')[..k] == Split(p, '-');
    }
  }

  lemma {:induction false} SplitJoined(p: string, rest: string)
    ensures Split(p + ['-'] + rest, '-') == Split(p, '-') + Split(rest, '-')
  {
    JoinSplit(p, '-');
    JoinedAgain(Split(p, '-'), rest);
  }

  lemma {:induction false} JoinedAgain(parts: seq<string>, rest: string)
    requires |parts| >= 1 && forall p :: p in parts ==> '-' !in p
    ensures Split(Join(parts, '-') + ['-'] + rest, '-') == parts + Split(rest, '-')
  {
    SplitConcat(parts[0], if |parts| == 1 then rest else Join(parts[1..], '-') + ['-'] + rest, '-');
    if |parts| == 1 {
      assert parts == [parts[0]];
    } else {
      JoinedAgain(parts[1..], rest);
      assert Join(parts, '-') + ['-'] + rest == parts[0] + ['-'] + (Join(parts[1..], '-') + ['-'] + rest);
      assert parts == [parts[0]] + parts[1..];
    }
  }

  /** The language of an identifier is its shortening without a dash. */
  lemma PrimaryIff(s: string, language: string)
    ensures Primary(s) == language <==> Shortens(s, language) && '-' !in language
  {
    JoinSplit(s, '-');
    PrefixShortens(s, 1);
    assert Prefix(Split(s, '-'), 1) == Primary(s);
    if Shortens(s, language) && '-' !in language {
      var k := ShortensIsPrefix(s, language);
      SplitPlain(language, '-');
    }
  }

  lemma JoinTwo(a: string, b: string)
    ensures Join([a, b], '-') == a + "-" + b
  {
    assert [a, b][1..] == [b];
  }

  /** The script of an identifier is its second part, when that has four letters. */
  ghost predicate HasScript(s: string, script: string)
  {
    && |script| == 4 && Letters(script)
    && exists language :: '-' !in language && Shortens(s, language + "-" + script)
  }

  lemma ScriptIff(s: string)
    ensures forall script :: ScriptSubtag(s) == Some(script) <==> HasScript(s, script)
  {
    JoinSplit(s, '-');
    var parts := Split(s, '-');
    if ScriptSubtag(s).Some? {
      PrefixShortens(s, 2);
      JoinTwo(parts[0], parts[1]);
      assert parts[..2] == [parts[0], parts[1]];
      assert HasScript(s, parts[1]);
    }
    forall script, language | |script| == 4 && Letters(script) && '-' !in language
                              && Shortens(s, language + "-" + script)
      ensures ScriptSubtag(s) == Some(script)
    {
      var k := ShortensIsPrefix(s, language + "-" + script);
      SplitConcat(language, script, '-');
      SplitPlain(script, '-');
      assert parts[..k] == [language, script];
    }
  }

  /** English, its variants and the system preference belong to no package. */
  lemma ReservedIff(name: string)
    ensures Reserved(name) <==> name == "system" || name == "en" || "en-" <= name
  {
    PrimaryIff(name, "en");
  }

  // ---------- one catalog ----------

  /** An alias names the catalog's language, with the catalog's script if it names a script. */
  ghost predicate SameLanguage(alias: string, locale: string)
  {
    && (exists language :: '-' !in language && Shortens(alias, language) && Shortens(locale, language))
    && forall script :: HasScript(alias, script) ==> HasScript(locale, script)
  }

  lemma BelongsIff(alias: string, locale: string)
    ensures AliasBelongs(alias, locale) <==> SameLanguage(alias, locale)
  {
    hide Primary, ScriptSubtag, HasScript, Shortens;
    ScriptIff(alias);
    ScriptIff(locale);
    forall language | '-' !in language && Shortens(alias, language) && Shortens(locale, language)
      ensures Primary(alias) == language && Primary(locale) == language
    {
      PrimaryIff(alias, language);
      PrimaryIff(locale, language);
    }
    PrimaryIff(alias, Primary(alias));
    PrimaryIff(locale, Primary(locale));
    if ScriptSubtag(alias).Some? { assert HasScript(alias, ScriptSubtag(alias).value); }
  }

  /** What is wrong with the alias at `i`: no identifier of this language, or a name already given. */
  ghost predicate BadAlias(locale: string, aliases: seq<string>, i: nat, e: CatalogError)
    requires i < |aliases|
  {
    if !IdGrammar(aliases[i]) || !SameLanguage(ToLowerAscii(aliases[i]), locale) then e == InvalidLocale
    else
      && (ToLowerAscii(aliases[i]) == locale
          || exists j :: 0 <= j < i && ToLowerAscii(aliases[j]) == ToLowerAscii(aliases[i]))
      && e == DuplicateLocale
  }

  ghost predicate GoodAlias(locale: string, aliases: seq<string>, i: nat)
    requires i < |aliases|
  {
    forall e :: !BadAlias(locale, aliases, i, e)
  }

  ghost predicate FirstBadAlias(locale: string, aliases: seq<string>, i: int, e: CatalogError)
  {
    0 <= i < |aliases| && BadAlias(locale, aliases, i, e) && forall j :: 0 <= j < i ==> GoodAlias(locale, aliases, j)
  }

  function Lowered(texts: seq<string>): (r: seq<string>)
    ensures |r| == |texts| && forall i :: 0 <= i < |r| ==> r[i] == ToLowerAscii(texts[i])
  {
    seq(|texts|, i requires 0 <= i < |texts| => ToLowerAscii(texts[i]))
  }

  /** What the loop over the aliases does at the `k`-th. */
  lemma AtAlias(locale: string, aliases: seq<string>, k: nat)
    requires k < |aliases|
    requires forall i :: 0 <= i < k ==> Lowered(aliases)[i] != locale && AliasBelongs(Lowered(aliases)[i], locale)
    requires forall i, j :: 0 <= i < j < k ==> Lowered(aliases)[i] != Lowered(aliases)[j]
    ensures forall e :: BadAlias(locale, aliases, k, e) ==>
      NormalizeAliases(locale, aliases[k..], Lowered(aliases)[..k]) == Err(e)
    ensures GoodAlias(locale, aliases, k) ==>
      && Lowered(aliases)[k] != locale && AliasBelongs(Lowered(aliases)[k], locale)
      && (forall i :: 0 <= i < k ==> Lowered(aliases)[i] != Lowered(aliases)[k])
      && NormalizeAliases(locale, aliases[k..], Lowered(aliases)[..k])
         == NormalizeAliases(locale, aliases[k + 1..], Lowered(aliases)[..k + 1])
  {
    hide IdGrammar, AliasBelongs, SameLanguage, ToLowerAscii;
    BelongsIff(ToLowerAscii(aliases[k]), locale);
    assert aliases[k..][0] == aliases[k] && aliases[k..][1..] == aliases[k + 1..];
    assert Lowered(aliases)[..k + 1] == Lowered(aliases)[..k] + [ToLowerAscii(aliases[k])];
    if GoodAlias(locale, aliases, k) {
      assert !BadAlias(locale, aliases, k, InvalidLocale) && !BadAlias(locale, aliases, k, DuplicateLocale);
    }
  }

  lemma {:induction false} AliasesFrom(locale: string, aliases: seq<string>, k: nat)
    requires k <= |aliases|
    requires forall i :: 0 <= i < k ==> Lowered(aliases)[i] != locale && AliasBelongs(Lowered(aliases)[i], locale)
    requires forall i, j :: 0 <= i < j < k ==> Lowered(aliases)[i] != Lowered(aliases)[j]
    ensures var r := NormalizeAliases(locale, aliases[k..], Lowered(aliases)[..k]);
      && ((forall i :: k <= i < |aliases| ==> GoodAlias(locale, aliases, i)) ==> r == Ok(Lowered(aliases)))
      && forall i, e ::
        && k <= i < |aliases| && BadAlias(locale, aliases, i, e)
        && (forall j :: k <= j < i ==> GoodAlias(locale, aliases, j))
        ==> r == Err(e)
    decreases |aliases| - k
  {
    hide BadAlias, AliasBelongs, ToLowerAscii, NormalizeAliases;
    if k < |aliases| {
      AtAlias(locale, aliases, k);
      if GoodAlias(locale, aliases, k) { AliasesFrom(locale, aliases, k + 1); }
    } else {
      NoMoreAliases(locale, aliases);
    }
  }

  lemma NoMoreAliases(locale: string, aliases: seq<string>)
    requires forall i :: 0 <= i < |aliases| ==>
      Lowered(aliases)[i] != locale && AliasBelongs(Lowered(aliases)[i], locale)
    requires forall i, j :: 0 <= i < j < |aliases| ==> Lowered(aliases)[i] != Lowered(aliases)[j]
    ensures NormalizeAliases(locale, aliases[|aliases|..], Lowered(aliases)[..|aliases|]) == Ok(Lowered(aliases))
  {
    assert Lowered(aliases)[..|aliases|] == Lowered(aliases);
  }

  /** A catalog with every rule met: its names are then in lower case and nothing else is changed. */
  ghost predicate ProperCatalog(raw: Catalog)
  {
    && raw.format == 1 && IdGrammar(raw.locale) && |raw.aliases| <= 8
    && (forall i :: 0 <= i < |raw.aliases| ==> GoodAlias(ToLowerAscii(raw.locale), raw.aliases, i))
    && (ToLowerAscii(raw.locale) == "en" ==> raw.direction == Ltr) && raw.messageError.None?
  }

  lemma AliasesOutcome(locale: string, aliases: seq<string>)
    ensures var r := NormalizeAliases(locale, aliases, []);
      && ((forall i :: 0 <= i < |aliases| ==> GoodAlias(locale, aliases, i)) ==> r == Ok(Lowered(aliases)))
      && forall i, e :: FirstBadAlias(locale, aliases, i, e) ==> r == Err(e)
  {
    hide BadAlias, NormalizeAliases, AliasBelongs;
    AliasesFrom(locale, aliases, 0);
    assert aliases[0..] == aliases && Lowered(aliases)[..0] == [];
  }

  lemma SomeBadAlias(locale: string, aliases: seq<string>, k: nat) returns (i: nat, e: CatalogError)
    requires k <= |aliases| && !(forall j :: 0 <= j < k ==> GoodAlias(locale, aliases, j))
    ensures FirstBadAlias(locale, aliases, i, e)
  {
    hide BadAlias;
    if forall j :: 0 <= j < k - 1 ==> GoodAlias(locale, aliases, j) {
      i := k - 1;
      e :| BadAlias(locale, aliases, i, e);
    } else {
      i, e := SomeBadAlias(locale, aliases, k - 1);
    }
  }

  /** Parsing accepts exactly the proper catalogs. */
  lemma ParseOutcome(raw: Catalog)
    ensures ParseCatalog(raw).Ok? <==> ProperCatalog(raw)
    ensures ProperCatalog(raw) ==>
      ParseCatalog(raw) == Ok(raw.(locale := ToLowerAscii(raw.locale), aliases := Lowered(raw.aliases)))
  {
    hide GoodAlias, NormalizeAliases, IdGrammar, ToLowerAscii, FirstBadAlias, WellFormed;
    var locale := ToLowerAscii(raw.locale);
    AliasesOutcome(locale, raw.aliases);
    if !(forall j :: 0 <= j < |raw.aliases| ==> GoodAlias(locale, raw.aliases, j)) {
      var i, e := SomeBadAlias(locale, raw.aliases, |raw.aliases|);
    }
  }

  /** Which refusal a catalog meets: its rules in their order, each on catalogs that pass those before it. */
  lemma ParseRefusals(raw: Catalog)
    ensures raw.format != 1 ==> ParseCatalog(raw) == Err(UnsupportedFormat)
    ensures raw.format == 1 && !IdGrammar(raw.locale) ==> ParseCatalog(raw) == Err(InvalidLocale)
    ensures raw.format == 1 && IdGrammar(raw.locale) ==>
      var locale := ToLowerAscii(raw.locale);
      && (|raw.aliases| > 8 ==> ParseCatalog(raw) == Err(TooLarge))
      && (|raw.aliases| <= 8 ==>
            && (forall i, e :: FirstBadAlias(locale, raw.aliases, i, e) ==> ParseCatalog(raw) == Err(e))
            && ((forall i :: 0 <= i < |raw.aliases| ==> GoodAlias(locale, raw.aliases, i)) ==>
                  && (locale == "en" && raw.direction == Rtl ==> ParseCatalog(raw) == Err(InvalidDirection))
                  && (locale != "en" || raw.direction == Ltr ==>
                        forall e :: raw.messageError == Some(e) ==> ParseCatalog(raw) == Err(e))))
  {
    hide GoodAlias, NormalizeAliases, IdGrammar, ToLowerAscii, FirstBadAlias, WellFormed;
    AliasesOutcome(ToLowerAscii(raw.locale), raw.aliases);
  }

  // ---------- the registry ----------

  /** Adding is refused for a reserved name, then for one that is taken; else every name leads to the catalog. */
  lemma AddOutcome(v: View, c: Catalog)
    ensures (exists n :: n in Names(c) && (n == "system" || n == "en" || "en-" <= n)) ==>
      Add(v, Ok(c)) == Err(ReservedLocale)
    ensures (forall n :: n in Names(c) ==> !(n == "system" || n == "en" || "en-" <= n)) ==>
      && (Add(v, Ok(c)).Err? <==> exists n :: n in Names(c) && Lookup(v, n).Some?)
      && (Add(v, Ok(c)).Err? ==> Add(v, Ok(c)) == Err(DuplicateLocale))
      && (Add(v, Ok(c)).Ok? ==>
            forall n :: Lookup(Add(v, Ok(c)).value, n) == if n in Names(c) then Some(c) else Lookup(v, n))
  {
    hide Reserved;
    forall n
      ensures Reserved(n) <==> n == "system" || n == "en" || "en-" <= n
    {
      ReservedIff(n);
    }
    assert forall n :: n in Owned(v) <==> Lookup(v, n).Some?;
    assert forall n :: n in Names(c) <==> n == c.locale || n in c.aliases;
  }

  /** A shortening of the request that keeps its script, if it has one. */
  ghost predicate MayStandIn(request: string, p: string)
  {
    Shortens(request, p) && forall script :: HasScript(request, script) ==> HasScript(p, script)
  }

  lemma ScriptOfPrefix(s: string, k: nat)
    requires 1 <= k <= |Split(s, '-')|
    ensures MayStandIn(s, Prefix(Split(s, '-'), k)) <==> MinimumParts(s) <= k
  {
    hide Shortens, HasScript;
    var p := Prefix(Split(s, '-'), k);
    PrefixShortens(s, k);
    PrefixSubtags(s, k);
    ScriptIff(s);
    ScriptIff(p);
    assert k >= 2 ==> ScriptSubtag(p) == ScriptSubtag(s);
    if ScriptSubtag(s).Some? {
      assert HasScript(s, ScriptSubtag(s).value);
      if k < 2 { assert ScriptSubtag(p).None?; }
    }
  }

  lemma {:induction false} LongerPrefix(parts: seq<string>, k: nat, m: nat)
    requires 1 <= k < m <= |parts|
    ensures |Join(parts[..k], '-')| < |Join(parts[..m], '-')|
  {
    JoinFirst(parts[..m], k, '-');
    assert parts[..m][..k] == parts[..k];
  }

  /**
   * A request finds the catalog of its longest shortening that is registered and keeps its script, and nothing
   * exactly when it is no identifier or none of them is registered.
   */
  lemma SelectOutcome(v: View, request: string, found: Option<Catalog>)
    requires Valid(v) && LongestMatch(v, Requested(request), found)
    ensures found.None? <==>
      !IdGrammar(request) || forall p :: MayStandIn(ToLowerAscii(request), p) ==> Lookup(v, p).None?
    ensures found.Some? ==> exists p ::
      && MayStandIn(ToLowerAscii(request), p) && Lookup(v, p) == found
      && forall q :: Shortens(ToLowerAscii(request), q) && |p| < |q| ==> Lookup(v, q).None?
  {
    hide Valid, MayStandIn, Lookup, IdGrammar, ToLowerAscii, Prefix, MinimumParts, Reserved;
    if !IdGrammar(request) {
      NothingIsEnglish(v, found);
    } else {
      var n := ToLowerAscii(request);
      var parts := Split(n, '-');
      AtLeastOnePart(n);
      assert Requested(request) == n;
      if found.None? {
        forall p | MayStandIn(n, p)
          ensures Lookup(v, p).None?
        {
          StandInIsPrefix(n, p);
        }
      } else {
        var k :| MinimumParts(n) <= k <= |parts| && Lookup(v, Prefix(parts, k)) == found && NothingLonger(v, parts, k);
        ScriptOfPrefix(n, k);
        NothingLongerThan(v, n, k);
        assert MayStandIn(n, Prefix(parts, k));
      }
    }
  }

  lemma AtLeastOnePart(n: string)
    ensures 1 <= MinimumParts(n) <= 2
  {
  }

  lemma StandInIsPrefix(n: string, p: string)
    requires MayStandIn(n, p)
    ensures exists k: nat :: 1 <= k && MinimumParts(n) <= k <= |Split(n, '-')| && Prefix(Split(n, '-'), k) == p
  {
    var k := ShortensIsPrefix(n, p);
    ScriptOfPrefix(n, k);
  }

  lemma NothingLongerThan(v: View, n: string, k: nat)
    requires 1 <= k <= |Split(n, '-')| && NothingLonger(v, Split(n, '-'), k)
    ensures forall q :: Shortens(n, q) && |Prefix(Split(n, '-'), k)| < |q| ==> Lookup(v, q).None?
  {
    hide Shortens, Lookup;
    forall q | Shortens(n, q) && |Prefix(Split(n, '-'), k)| < |q|
      ensures Lookup(v, q).None?
    {
      var m := ShortensIsPrefix(n, q);
      if m < k { LongerPrefix(Split(n, '-'), m, k); }
    }
  }

  lemma NothingIsEnglish(v: View, found: Option<Catalog>)
    requires Valid(v) && LongestMatch(v, "en", found)
    ensures found.None?
  {
    SplitPlain("en", '-');
    EnglishPrefixes(v, "en", 1);
  }
}
