/**
 * What verifying a release catalog and selecting from it come to: which documents and selections are accepted, with
 * what, and which refusal the others meet (src/package_catalog.rs, src/package_install.rs).
 */
module SelectionOutcomes {
  import opened Wrappers
  import opened Strings
  import opened PackageInventory
  import opened InventoryGuard
  import opened PackageCatalog
  import opened PackageInstall
  import opened InventoryOutcomes
  import Localization
  import LocalizationOutcomes

  // ---------- names ----------

  ghost predicate Letter(c: char) { 'A' <= c <= 'Z' || 'a' <= c <= 'z' }

  ghost predicate LetterOrDigit(c: char) { Letter(c) || '0' <= c <= '9' }

  /** 1 to `maximum` letters, digits, `-`, `_` and `.`, the first of them a letter or digit. */
  ghost predicate Segment(s: string, maximum: nat)
  {
    && 1 <= |s| && |s| <= maximum && LetterOrDigit(s[0])
    && forall c :: c in s ==> LetterOrDigit(c) || c == '-' || c == '_' || c == '.'
  }

  lemma SegmentIs(s: string, maximum: nat)
    ensures SafeSegment(s, maximum) <==> Segment(s, maximum)
  {
    if Segment(s, maximum) {
      forall i | 0 <= i < |s|
        ensures SegmentChar(s[i])
      {
        assert s[i] in s;
      }
    }
  }

  /** An owner and a repository with one slash between. */
  ghost predicate OwnerAndName(value: string, owner: string, name: string)
  {
    value == owner + "/" + name && Segment(owner, 100) && Segment(name, 100)
  }

  ghost predicate RepositoryName(value: string)
  {
    exists owner, name :: OwnerAndName(value, owner, name)
  }

  lemma RepositoryIdIs(value: string)
    ensures RepositoryId(value) == if RepositoryName(value) then Ok(ToLowerAscii(value)) else Err(InvalidData)
  {
    hide SafeSegment, Segment, ToLowerAscii;
    match SplitOnce(value, '/') {
      case Some((owner, name)) =>
        SegmentIs(owner, 100);
        SegmentIs(name, 100);
        assert value == owner + "/" + name;
        if Segment(owner, 100) && Segment(name, 100) { assert OwnerAndName(value, owner, name); }
      case None =>
    }
    forall owner, name | OwnerAndName(value, owner, name)
      ensures SplitOnce(value, '/') == Some((owner, name))
    {
      NoSlash(owner);
      SplitOnceUnique(owner, name, '/');
    }
  }

  lemma NoSlash(s: string)
    requires Segment(s, 100)
    ensures '/' !in s
  {
  }

  // ---------- one entry ----------

  /** The locale an entry gives: one in normal form other than English and the system preference, or none for input. */
  ghost predicate LocaleGiven(e: Entry, locale: Option<string>)
  {
    match e.uiLocale
    case None => e.input && locale.None?
    case Some(l) =>
      && Localization.IdGrammar(l) && locale == Some(ToLowerAscii(l))
      && locale.value != "system" && locale.value != "en" && !("en-" <= locale.value)
  }

  lemma LocaleIs(e: Entry)
    ensures forall l :: EntryLocale(e) == Ok(l) <==> LocaleGiven(e, l)
    ensures EntryLocale(e).Err? ==> EntryLocale(e) == Err(InvalidData)
  {
    hide Localization.IdGrammar, ToLowerAscii, Localization.Reserved;
    if e.uiLocale.Some? { LocalizationOutcomes.ReservedIff(ToLowerAscii(e.uiLocale.value)); }
  }

  /** A proper entry: its identifier, sizes, tag, asset and digest are well-formed. */
  ghost predicate ProperEntry(e: Entry)
  {
    && Localization.IdGrammar(e.packageId) && 1 <= e.revision && 1 <= e.bytes && e.bytes <= 67108864
    && Segment(e.tag, 64) && ToLowerAscii(e.tag) != "latest"
    && Segment(e.asset, 128) && exists stem :: e.asset == stem + ".aklp"
  }

  lemma ShapeIs(e: Entry)
    ensures ProperEntry(e) <==> Localization.IdGrammar(e.packageId) && EntryShape(e)
  {
    hide SafeSegment, Segment, Localization.IdGrammar, ToLowerAscii;
    SegmentIs(e.tag, 64);
    SegmentIs(e.asset, 128);
    if EndsWith(e.asset, ".aklp") { assert e.asset == e.asset[..|e.asset| - 5] + ".aklp"; }
    forall stem | e.asset == stem + ".aklp"
      ensures EndsWith(e.asset, ".aklp")
    {
      assert e.asset[|e.asset| - 5..] == ".aklp";
    }
  }

  /** The pin that an entry of a document stands for. */
  ghost predicate Gives(e: Entry, d: SignedDocument, pin: PinnedPackage)
  {
    && ProperEntry(e) && LocaleGiven(e, pin.uiLocale)
    && pin.receipt.id == ToLowerAscii(e.packageId)
    && pin.receipt.revision == e.revision && pin.receipt.bytes == e.bytes
    && |pin.receipt.sha256| == 32 && Hex(pin.receipt.sha256) == ToLowerAscii(e.sha256)
    && pin.runtimeApi == e.runtimeApi && pin.input == e.input
    && pin.issuedAt == d.issuedAt && pin.expiresAt == d.expiresAt
  }

  lemma PinIs(e: Entry, d: SignedDocument)
    ensures forall pin :: PinOf(e, d) == Ok(pin) <==> Gives(e, d, pin)
    ensures PinOf(e, d).Err? ==> PinOf(e, d) == Err(InvalidData)
  {
    hide Localization.IdGrammar, EntryShape, EntryLocale, LocaleGiven, ProperEntry, ToLowerAscii, DecodeHex, Hex;
    ShapeIs(e);
    LocaleIs(e);
    forall pin
      ensures PinOf(e, d) == Ok(pin) <==> Gives(e, d, pin)
    {
      DecodeHexIff(e.sha256, pin.receipt.sha256);
      if PinOf(e, d).Ok? { DecodeHexIff(e.sha256, PinOf(e, d).value.receipt.sha256); }
    }
  }

  // ---------- all entries of a document ----------

  function IdOf(e: Entry): PackId { ToLowerAscii(e.packageId) }

  function AssetOf(e: Entry): (string, string) { (ToLowerAscii(e.tag), ToLowerAscii(e.asset)) }

  ghost predicate SameAsset(a: Entry, b: Entry)
  {
    ToLowerAscii(a.tag) == ToLowerAscii(b.tag) && ToLowerAscii(a.asset) == ToLowerAscii(b.asset)
  }

  ghost predicate Accepted(e: Entry, d: SignedDocument)
  {
    exists pin :: Gives(e, d, pin)
  }

  /** No entry before `j` has the same identifier or the same asset. */
  ghost predicate NewAt(es: seq<Entry>, j: nat)
    requires j < |es|
  {
    forall i :: 0 <= i < j ==> IdOf(es[i]) != IdOf(es[j]) && !SameAsset(es[i], es[j])
  }

  /** The pins are those of the first `k` entries, each under its identifier. */
  ghost predicate HoldsPins(pins: map<PackId, PinnedPackage>, es: seq<Entry>, d: SignedDocument, k: nat)
    requires k <= |es|
  {
    && (forall i :: 0 <= i < k ==> IdOf(es[i]) in pins && Gives(es[i], d, pins[IdOf(es[i])]))
    && (forall id :: id in pins ==> exists i :: 0 <= i < k && IdOf(es[i]) == id)
  }

  function AssetsBefore(es: seq<Entry>, k: nat): set<(string, string)>
    requires k <= |es|
  {
    set i | 0 <= i < k :: AssetOf(es[i])
  }

  lemma HeldArePinned(pins: map<PackId, PinnedPackage>, es: seq<Entry>, d: SignedDocument, k: nat)
    requires k <= |es| && HoldsPins(pins, es, d, k)
    ensures forall id :: id in pins ==> Pinned(id, pins[id], d)
  {
    forall id | id in pins
      ensures Pinned(id, pins[id], d)
    {
      var i :| 0 <= i < k && IdOf(es[i]) == id;
      assert Gives(es[i], d, pins[IdOf(es[i])]);
    }
  }

  lemma NewIff(es: seq<Entry>, d: SignedDocument, k: nat, pins: map<PackId, PinnedPackage>)
    requires k < |es| && HoldsPins(pins, es, d, k)
    ensures NewAt(es, k) <==> AssetOf(es[k]) !in AssetsBefore(es, k) && IdOf(es[k]) !in pins
  {
    hide Gives, ToLowerAscii;
    if NewAt(es, k) {
      assert IdOf(es[k]) !in pins;
    } else {
      var i :| 0 <= i < k && (IdOf(es[i]) == IdOf(es[k]) || SameAsset(es[i], es[k]));
      assert IdOf(es[i]) in pins && AssetOf(es[i]) in AssetsBefore(es, k);
    }
  }

  /** What the loop does at entry `k`. */
  lemma AtEntry(es: seq<Entry>, d: SignedDocument, k: nat, pins: map<PackId, PinnedPackage>)
    requires k < |es| && HoldsPins(pins, es, d, k) && forall id :: id in pins ==> Pinned(id, pins[id], d)
    ensures Accepted(es[k], d) && NewAt(es, k) ==>
      && PinOf(es[k], d).Ok? && Gives(es[k], d, PinOf(es[k], d).value)
      && PinOf(es[k], d).value.receipt.id == IdOf(es[k])
      && Pins(es[k..], d, AssetsBefore(es, k), pins)
         == Pins(es[k + 1..], d, AssetsBefore(es, k + 1), pins[IdOf(es[k]) := PinOf(es[k], d).value])
    ensures !(Accepted(es[k], d) && NewAt(es, k)) ==> Pins(es[k..], d, AssetsBefore(es, k), pins) == Err(InvalidData)
  {
    hide PinOf, Gives, ToLowerAscii, NewAt, HoldsPins;
    PinIs(es[k], d);
    NewIff(es, d, k, pins);
    if PinOf(es[k], d).Ok? { GivenId(es[k], d, PinOf(es[k], d).value); }
    assert es[k..][0] == es[k] && es[k..][1..] == es[k + 1..];
    assert AssetsBefore(es, k + 1) == AssetsBefore(es, k) + {AssetOf(es[k])};
  }

  lemma GivenId(e: Entry, d: SignedDocument, pin: PinnedPackage)
    requires Gives(e, d, pin)
    ensures pin.receipt.id == IdOf(e)
  {
  }

  lemma AtLastEntry(es: seq<Entry>, d: SignedDocument, pins: map<PackId, PinnedPackage>)
    requires forall id :: id in pins ==> Pinned(id, pins[id], d)
    ensures Pins(es[|es|..], d, AssetsBefore(es, |es|), pins) == Ok(pins)
  {
  }

  lemma {:induction false} PinsFrom(es: seq<Entry>, d: SignedDocument, k: nat, pins: map<PackId, PinnedPackage>)
    requires k <= |es| && HoldsPins(pins, es, d, k) && forall id :: id in pins ==> Pinned(id, pins[id], d)
    ensures var r := Pins(es[k..], d, AssetsBefore(es, k), pins);
      && (r.Ok? <==> forall j :: k <= j < |es| ==> Accepted(es[j], d) && NewAt(es, j))
      && (r.Ok? ==> HoldsPins(r.value, es, d, |es|))
      && (r.Err? ==> r == Err(InvalidData))
    decreases |es| - k
  {
    hide *;
    if k == |es| {
      AtLastEntry(es, d, pins);
    } else {
      AtEntry(es, d, k, pins);
      if Accepted(es[k], d) && NewAt(es, k) {
        var next := pins[IdOf(es[k]) := PinOf(es[k], d).value];
        HoldsNext(es, d, k, pins, PinOf(es[k], d).value);
        HeldArePinned(next, es, d, k + 1);
        PinsFrom(es, d, k + 1, next);
      }
    }
  }

  lemma HoldsNext(es: seq<Entry>, d: SignedDocument, k: nat, pins: map<PackId, PinnedPackage>, pin: PinnedPackage)
    requires k < |es| && HoldsPins(pins, es, d, k) && NewAt(es, k) && Gives(es[k], d, pin)
    ensures HoldsPins(pins[IdOf(es[k]) := pin], es, d, k + 1)
  {
    hide Gives, ToLowerAscii;
  }

  // ---------- the document ----------

  /** Its entries are proper, and no two share an identifier or an asset. */
  ghost predicate ProperEntries(d: SignedDocument)
  {
    forall j :: 0 <= j < |d.entries| ==> Accepted(d.entries[j], d) && NewAt(d.entries, j)
  }

  /** At least one second and at most 31 days long, and `now` lies in it. */
  ghost predicate Current(d: SignedDocument, now: nat)
  {
    d.issuedAt < d.expiresAt && d.expiresAt <= d.issuedAt + 2678400 && InWindow(d.issuedAt, d.expiresAt, now)
  }

  ghost predicate SameRepository(a: string, b: string)
  {
    RepositoryName(a) && RepositoryName(b) && ToLowerAscii(a) == ToLowerAscii(b)
  }

  ghost predicate NotOlder(d: SignedDocument, previous: Option<Checkpoint>)
  {
    previous.Some? ==> MayFollow(previous.value, Checkpoint(d.revision, d.digest, d.signer))
  }

  /** The catalog holds exactly the document's pins under its checkpoint, name and window. */
  ghost predicate CatalogOf(d: SignedDocument, c: Catalog)
  {
    && c.checkpoint == Checkpoint(d.revision, d.digest, d.signer) && c.repository == ToLowerAscii(d.repository)
    && c.issuedAt == d.issuedAt && c.expiresAt == d.expiresAt && HoldsPins(c.packages, d.entries, d, |d.entries|)
  }

  ghost predicate Verified(d: SignedDocument, expected: string, previous: Option<Checkpoint>, now: nat)
  {
    && d.format == 1 && 1 <= d.revision && SameRepository(d.repository, expected) && Current(d, now)
    && NotOlder(d, previous) && |d.entries| <= 64 && ProperEntries(d)
  }

  lemma EntriesOutcome(d: SignedDocument)
    ensures var r := Pins(d.entries, d, {}, map[]);
      && (r.Ok? <==> ProperEntries(d)) && (r.Ok? ==> HoldsPins(r.value, d.entries, d, |d.entries|))
      && (r.Err? ==> r == Err(InvalidData))
  {
    hide Pins, Gives, Accepted, NewAt;
    assert d.entries[0..] == d.entries && AssetsBefore(d.entries, 0) == {};
    PinsFrom(d.entries, d, 0, map[]);
  }

  /** A document is accepted exactly when every one of its rules holds, and then gives the catalog of its entries. */
  lemma VerifyOutcome(d: SignedDocument, expected: string, previous: Option<Checkpoint>, now: nat)
    ensures var r := Verify(d, expected, previous, now);
      && (r.Ok? <==> Verified(d, expected, previous, now)) && (r.Ok? ==> CatalogOf(d, r.value))
  {
    hide Pins, RepositoryId, RepositoryName, ToLowerAscii, HoldsPins, ProperEntries, CheckWindow;
    RepositoryIdIs(d.repository);
    RepositoryIdIs(expected);
    EntriesOutcome(d);
    WindowIs(d.issuedAt, d.expiresAt, now);
  }

  lemma WindowIs(issuedAt: nat, expiresAt: nat, now: nat)
    ensures CheckWindow(issuedAt, expiresAt, now)
         == if InWindow(issuedAt, expiresAt, now) then None else Some(NotCurrent)
  {
  }

  /** Which rule a refused document meets: the rules in their order, each on documents that pass those before it. */
  lemma VerifyRefusals(d: SignedDocument, expected: string, previous: Option<Checkpoint>, now: nat)
    ensures var r := Verify(d, expected, previous, now);
      && (d.format != 1 || d.revision == 0 ==> r == Err(Incompatible))
      && (d.format == 1 && 1 <= d.revision ==>
            && (!RepositoryName(d.repository) || !RepositoryName(expected) ==> r == Err(InvalidData))
            && (RepositoryName(d.repository) && RepositoryName(expected) && !SameRepository(d.repository, expected) ==>
                  r == Err(WrongRepository))
            && (SameRepository(d.repository, expected) && !Current(d, now) ==> r == Err(NotCurrent))
            && (SameRepository(d.repository, expected) && Current(d, now) ==>
                  && (!NotOlder(d, previous) ==>
                        r == Err(if d.revision < previous.value.revision then PlanRollback else PlanRevisionConflict))
                  && (NotOlder(d, previous) && |d.entries| > 64 ==> r == Err(PlanTooLarge))
                  && (NotOlder(d, previous) && |d.entries| <= 64 && !ProperEntries(d) ==> r == Err(InvalidData))))
  {
    hide Pins, RepositoryId, RepositoryName, ToLowerAscii, HoldsPins, ProperEntries, CheckWindow;
    RepositoryIdIs(d.repository);
    RepositoryIdIs(expected);
    EntriesOutcome(d);
    WindowIs(d.issuedAt, d.expiresAt, now);
  }

  // ---------- selecting ----------

  function BytesOf(c: Catalog, id: PackId): nat
  {
    if id in c.packages then c.packages[id].receipt.bytes else 0
  }

  function BytesUpTo(c: Catalog, ids: seq<PackId>, k: nat): nat
    requires k <= |ids|
  {
    if k == 0 then 0 else BytesUpTo(c, ids, k - 1) + BytesOf(c, ids[k - 1])
  }

  /** What stops a selection at its `i`-th id. */
  ghost predicate Stops(c: Catalog, ids: seq<PackId>, i: nat, e: ReleaseError)
    requires i < |ids|
  {
    if ids[i] !in c.packages then e == MissingSelection
    else if c.packages[ids[i]].runtimeApi !in {1, 2} then e == Incompatible
    else BytesUpTo(c, ids, i + 1) > 536870912 && e == PlanTooLarge
  }

  ghost predicate Passes(c: Catalog, ids: seq<PackId>, i: nat)
    requires i < |ids|
  {
    forall e :: !Stops(c, ids, i, e)
  }

  /** The loop of the selection at its `k`-th id: it stops there, or goes on with what remains. */
  lemma SelectStep(c: Catalog, ids: seq<PackId>, k: nat)
    requires k < |ids|
    ensures var r := SelectPins(c, ids[k..], BytesUpTo(c, ids, k));
      var rest := SelectPins(c, ids[k + 1..], BytesUpTo(c, ids, k + 1));
      && (forall e :: Stops(c, ids, k, e) ==> r == Err(e))
      && (r.Ok? ==> Passes(c, ids, k))
      && (Passes(c, ids, k) ==> (r.Ok? <==> rest.Ok?) && (rest.Err? ==> r == Err(rest.error)))
  {
    hide Passes;
    assert ids[k..][0] == ids[k] && ids[k..][1..] == ids[k + 1..];
    StopsIff(c, ids, k);
  }

  lemma AtLastId(c: Catalog, ids: seq<PackId>)
    ensures SelectPins(c, ids[|ids|..], BytesUpTo(c, ids, |ids|)) == Ok([])
  {
  }

  lemma StopOrPass(c: Catalog, ids: seq<PackId>, i: nat, e: ReleaseError)
    requires i < |ids| && Stops(c, ids, i, e)
    ensures !Passes(c, ids, i)
  {
  }

  lemma {:induction false} SelectFrom(c: Catalog, ids: seq<PackId>, k: nat)
    requires k <= |ids|
    ensures var r := SelectPins(c, ids[k..], BytesUpTo(c, ids, k));
      && (r.Ok? <==> forall j :: k <= j < |ids| ==> Passes(c, ids, j))
      && forall i, e :: k <= i < |ids| && Stops(c, ids, i, e) && (forall j :: k <= j < i ==> Passes(c, ids, j)) ==>
           r == Err(e)
    decreases |ids| - k
  {
    hide *;
    if k < |ids| {
      SelectFrom(c, ids, k + 1);
      SelectStep(c, ids, k);
    } else {
      AtLastId(c, ids);
    }
  }

  lemma StopsIff(c: Catalog, ids: seq<PackId>, i: nat)
    requires i < |ids|
    ensures Passes(c, ids, i) <==>
      ids[i] in c.packages && c.packages[ids[i]].runtimeApi in {1, 2} && BytesUpTo(c, ids, i + 1) <= 536870912
  {
    if ids[i] !in c.packages {
      assert Stops(c, ids, i, MissingSelection);
    } else if c.packages[ids[i]].runtimeApi !in {1, 2} {
      assert Stops(c, ids, i, Incompatible);
    } else if BytesUpTo(c, ids, i + 1) > 536870912 {
      assert Stops(c, ids, i, PlanTooLarge);
    }
  }

  /** The requested packages are in the catalog, run here, and are small enough together. */
  ghost predicate Selectable(c: Catalog, ids: set<PackId>)
  {
    && |ids| <= 64
    && (forall id :: id in ids ==> id in c.packages && c.packages[id].runtimeApi in {1, 2})
    && BytesUpTo(c, SortedKeys(ids), |SortedKeys(ids)|) <= 536870912
  }

  lemma {:induction false} BytesGrow(c: Catalog, ids: seq<PackId>, i: nat, k: nat)
    requires i <= k <= |ids|
    ensures BytesUpTo(c, ids, i) <= BytesUpTo(c, ids, k)
  {
    if i < k { BytesGrow(c, ids, i, k - 1); }
  }

  lemma SelectablePasses(c: Catalog, ids: set<PackId>, keys: seq<PackId>, i: nat)
    requires Selectable(c, ids) && keys == SortedKeys(ids) && i < |keys|
    ensures Passes(c, keys, i)
  {
    hide Passes, BytesUpTo;
    assert keys[i] in keys;
    BytesGrow(c, keys, i + 1, |keys|);
    StopsIff(c, keys, i);
  }

  lemma PassesSelectable(c: Catalog, ids: set<PackId>, keys: seq<PackId>)
    requires keys == SortedKeys(ids) && |ids| <= 64 && forall i :: 0 <= i < |keys| ==> Passes(c, keys, i)
    ensures Selectable(c, ids)
  {
    hide Passes, BytesUpTo, SortedKeys, Ascending;
    forall id | id in ids
      ensures id in c.packages && c.packages[id].runtimeApi in {1, 2}
    {
      PassesMeans(c, keys, id);
    }
    LastPasses(c, keys);
  }

  lemma PassesMeans(c: Catalog, keys: seq<PackId>, id: PackId)
    requires id in keys && forall i :: 0 <= i < |keys| ==> Passes(c, keys, i)
    ensures id in c.packages && c.packages[id].runtimeApi in {1, 2}
  {
    hide Passes, BytesUpTo;
    var i :| 0 <= i < |keys| && keys[i] == id;
    StopsIff(c, keys, i);
  }

  lemma AllPass(c: Catalog, ids: set<PackId>, keys: seq<PackId>)
    requires keys == SortedKeys(ids) && |ids| <= 64
    ensures Selectable(c, ids) <==> forall i :: 0 <= i < |keys| ==> Passes(c, keys, i)
  {
    hide *;
    if Selectable(c, ids) {
      forall i | 0 <= i < |keys|
        ensures Passes(c, keys, i)
      {
        SelectablePasses(c, ids, keys, i);
      }
    } else if forall i :: 0 <= i < |keys| ==> Passes(c, keys, i) {
      PassesSelectable(c, ids, keys);
    }
  }

  lemma LastPasses(c: Catalog, keys: seq<PackId>)
    requires forall i :: 0 <= i < |keys| ==> Passes(c, keys, i)
    ensures BytesUpTo(c, keys, |keys|) <= 536870912
  {
    hide Passes;
    if |keys| > 0 { StopsIff(c, keys, |keys| - 1); }
  }

  /** The plan lists the pins of the requested packages in the order of their ids, from this catalog. */
  ghost predicate PlanOf(c: Catalog, ids: set<PackId>, plan: DownloadPlan)
  {
    && |plan.packages| == |SortedKeys(ids)|
    && (forall i :: 0 <= i < |plan.packages| ==>
          SortedKeys(ids)[i] in c.packages && plan.packages[i] == c.packages[SortedKeys(ids)[i]])
    && plan.checkpoint == c.checkpoint && plan.repository == c.repository
    && plan.issuedAt == c.issuedAt && plan.expiresAt == c.expiresAt
  }

  /** Selecting from a current catalog: what is selectable is planned; else the first id that stops it says why. */
  lemma SelectPlanOutcome(c: Catalog, ids: set<PackId>, now: nat)
    ensures !InWindow(c.issuedAt, c.expiresAt, now) ==> SelectPlan(c, ids, now) == Err(NotCurrent)
    ensures InWindow(c.issuedAt, c.expiresAt, now) ==>
      && (|ids| > 64 ==> SelectPlan(c, ids, now) == Err(PlanTooLarge))
      && (SelectPlan(c, ids, now).Ok? <==> Selectable(c, ids))
      && (SelectPlan(c, ids, now).Ok? ==> PlanOf(c, ids, SelectPlan(c, ids, now).value))
      && (|ids| <= 64 ==> forall i, e :: FirstStop(c, SortedKeys(ids), i, e) ==> SelectPlan(c, ids, now) == Err(e))
  {
    hide *;
    SelectPlanStep(c, ids, now);
    WindowIs(c.issuedAt, c.expiresAt, now);
    SelectableCount(c, ids);
    if |ids| <= 64 {
      var keys := SortedKeys(ids);
      assert keys[0..] == keys;
      AllPass(c, ids, keys);
      SelectFrom(c, keys, 0);
      NothingYet(c, keys);
      forall i, e | FirstStop(c, keys, i, e)
        ensures SelectPins(c, keys, 0) == Err(e)
      {
        FirstStopMeans(c, keys, i, e);
      }
    }
  }

  lemma NothingYet(c: Catalog, ids: seq<PackId>)
    ensures BytesUpTo(c, ids, 0) == 0
  {
  }

  lemma FirstStopMeans(c: Catalog, ids: seq<PackId>, i: int, e: ReleaseError)
    requires FirstStop(c, ids, i, e)
    ensures 0 <= i < |ids| && Stops(c, ids, i, e) && forall j :: 0 <= j < i ==> Passes(c, ids, j)
  {
  }

  /** What is left of the selection once its pins are known. */
  lemma SelectPlanStep(c: Catalog, ids: set<PackId>, now: nat)
    ensures CheckWindow(c.issuedAt, c.expiresAt, now).Some? ==> SelectPlan(c, ids, now) == Err(NotCurrent)
    ensures CheckWindow(c.issuedAt, c.expiresAt, now).None? ==>
      && (|ids| > 64 ==> SelectPlan(c, ids, now) == Err(PlanTooLarge))
      && (|ids| <= 64 ==>
            var r := SelectPins(c, SortedKeys(ids), 0);
            && (r.Ok? <==> SelectPlan(c, ids, now).Ok?) && (r.Err? ==> SelectPlan(c, ids, now) == Err(r.error))
            && (r.Ok? ==> PlanOf(c, ids, SelectPlan(c, ids, now).value)))
  {
    hide SelectPins, CheckWindow, SortedKeys;
  }

  lemma SelectableCount(c: Catalog, ids: set<PackId>)
    ensures Selectable(c, ids) ==> |ids| <= 64
  {
  }

  ghost predicate FirstStop(c: Catalog, ids: seq<PackId>, i: int, e: ReleaseError)
  {
    0 <= i < |ids| && Stops(c, ids, i, e) && forall j :: 0 <= j < i ==> Passes(c, ids, j)
  }

  // ---------- against what was installed before ----------

  /** What is wrong with a pin, given the marks: the base, an older revision, or other content at the same one. */
  ghost predicate BadPin(marks: map<PackId, Receipt>, pin: PinnedPackage, e: InventoryError)
  {
    var r := pin.receipt;
    if r.id == "en-us" then e == ProtectedBase
    else
      && r.id in marks
      && ((r.revision < marks[r.id].revision && e == InventoryError.Rollback)
          || (r.revision == marks[r.id].revision && e == RevisionConflict
              && (r.sha256 != marks[r.id].sha256 || r.bytes != marks[r.id].bytes)))
  }

  ghost predicate GoodPin(marks: map<PackId, Receipt>, pin: PinnedPackage)
  {
    forall e :: !BadPin(marks, pin, e)
  }

  lemma PinRefusalIs(marks: map<PackId, Receipt>, pin: PinnedPackage)
    ensures forall e :: PinRefusal(pin, marks) == Some(e) <==> BadPin(marks, pin, e)
    ensures PinRefusal(pin, marks).None? <==> GoodPin(marks, pin)
  {
    var refusal := PinRefusal(pin, marks);
    if refusal.Some? { assert BadPin(marks, pin, refusal.value); }
  }

  ghost predicate FirstBadPin(marks: map<PackId, Receipt>, pins: seq<PinnedPackage>, i: int, e: InventoryError)
  {
    0 <= i < |pins| && BadPin(marks, pins[i], e) && forall j :: 0 <= j < i ==> GoodPin(marks, pins[j])
  }

  lemma {:induction false} PlanPinsOutcome(marks: map<PackId, Receipt>, pins: seq<PinnedPackage>)
    ensures forall i, e :: FirstBadPin(marks, pins, i, e) ==> CheckPlanPins(pins, marks) == Some(e)
    ensures CheckPlanPins(pins, marks).None? <==> forall i :: 0 <= i < |pins| ==> GoodPin(marks, pins[i])
  {
    hide BadPin, PinRefusal, GoodPin;
    if pins != [] {
      PinRefusalIs(marks, pins[0]);
      PlanPinsOutcome(marks, pins[1..]);
      forall i, e | FirstBadPin(marks, pins, i, e)
        ensures CheckPlanPins(pins, marks) == Some(e)
      {
        if i > 0 { assert FirstBadPin(marks, pins[1..], i - 1, e); }
      }
      assert forall i :: 0 <= i < |pins| - 1 ==> pins[1..][i] == pins[i + 1];
    }
  }

  /** Every rule of a selection, from the document to the count of packages after it. */
  ghost predicate MaySelect(c: PreparedCatalog, catalog: Catalog, ids: set<PackId>, now: nat)
  {
    && ids != {} && Verified(c.document, c.repository, c.expected.catalog, now) && Selectable(catalog, ids)
    && (forall id :: id in ids ==> id in catalog.packages && GoodPin(c.expected.highestSeen, catalog.packages[id]))
    && |c.expected.packages.Keys + ids| <= 63
  }

  lemma PlannedPin(d: SignedDocument, c: Catalog, ids: set<PackId>, plan: DownloadPlan, i: nat)
    requires CatalogOf(d, c) && PlanOf(c, ids, plan) && i < |plan.packages|
    ensures plan.packages[i].receipt.id == SortedKeys(ids)[i] && SortedKeys(ids)[i] in ids
    ensures SortedKeys(ids)[i] in c.packages && plan.packages[i] == c.packages[SortedKeys(ids)[i]]
  {
    hide Gives, HoldsPins;
    HeldArePinned(c.packages, d.entries, d, |d.entries|);
    assert SortedKeys(ids)[i] in SortedKeys(ids);
  }

  lemma PinPlanned(c: Catalog, ids: set<PackId>, plan: DownloadPlan, id: PackId) returns (i: nat)
    requires PlanOf(c, ids, plan) && id in ids
    ensures i < |plan.packages| && SortedKeys(ids)[i] == id
  {
    assert id in SortedKeys(ids);
    i :| 0 <= i < |SortedKeys(ids)| && SortedKeys(ids)[i] == id;
  }

  lemma PlannedIds(d: SignedDocument, c: Catalog, ids: set<PackId>, plan: DownloadPlan, marks: map<PackId, Receipt>)
    requires CatalogOf(d, c) && PlanOf(c, ids, plan)
    ensures PinIds(plan.packages) == ids
    ensures forall id :: id in ids ==> id in c.packages
    ensures (forall i :: 0 <= i < |plan.packages| ==> GoodPin(marks, plan.packages[i]))
      <==> (forall id :: id in ids ==> GoodPin(marks, c.packages[id]))
  {
    hide PlanOf, CatalogOf, GoodPin, SortedKeys, Ascending;
    forall i | 0 <= i < |plan.packages|
      ensures plan.packages[i].receipt.id in ids && plan.packages[i].receipt.id in c.packages
      ensures plan.packages[i] == c.packages[plan.packages[i].receipt.id]
    {
      PlannedPin(d, c, ids, plan, i);
    }
    forall id | id in ids
      ensures id in PinIds(plan.packages) && id in c.packages && c.packages[id] in plan.packages
    {
      var i := PinPlanned(c, ids, plan, id);
      PlannedPin(d, c, ids, plan, i);
      assert plan.packages[i].receipt.id == id;
    }
  }

  /** The selection step by step: an empty one, then whatever the document, the plan, the pins or the count refuse. */
  lemma SelectSteps(c: PreparedCatalog, ids: set<PackId>, now: nat)
    ensures ids == {} ==> Select(c, ids, now) == Err(EmptySelection)
    ensures ids != {} ==>
      var v := Verify(c.document, c.repository, c.expected.catalog, now);
      && (v.Err? ==> Select(c, ids, now) == Err(FromCatalog(v.error)))
      && (v.Ok? ==>
            var p := SelectPlan(v.value, ids, now);
            && (p.Err? ==> Select(c, ids, now) == Err(FromCatalog(p.error)))
            && (p.Ok? ==>
                  var e := CheckPlanPins(p.value.packages, c.expected.highestSeen);
                  && (e.Some? ==> Select(c, ids, now) == Err(FromInventory(e.value)))
                  && (e.None? ==>
                        Select(c, ids, now)
                        == if |c.expected.packages.Keys + PinIds(p.value.packages)| > 63
                           then Err(FromInventory(TooLarge)) else Ok(p.value))))
  {
    hide Verify, SelectPlan, CheckPlanPins, PinIds;
  }

  /**
   * A selection is accepted exactly when the document is in order and current, everything asked for is in it, runs
   * here and is small enough together, goes back behind no mark, and leaves at most 63 packages; the plan then
   * lists exactly the pins that were asked for.
   */
  lemma SelectOutcome(c: PreparedCatalog, ids: set<PackId>, now: nat)
    ensures Select(c, ids, now).Ok? <==>
      exists catalog :: CatalogOf(c.document, catalog) && MaySelect(c, catalog, ids, now)
    ensures Select(c, ids, now).Ok? ==>
      exists catalog :: CatalogOf(c.document, catalog) && PlanOf(catalog, ids, Select(c, ids, now).value)
  {
    hide *;
    SelectSteps(c, ids, now);
    VerifyOutcome(c.document, c.repository, c.expected.catalog, now);
    MaySelectMeans(c, ids, now);
    var v := Verify(c.document, c.repository, c.expected.catalog, now);
    if ids != {} && v.Ok? {
      CatalogIsUnique(c.document, v.value);
      SelectFromCatalog(c, v.value, ids, now);
    }
  }

  lemma MaySelectMeans(c: PreparedCatalog, ids: set<PackId>, now: nat)
    ensures forall catalog :: MaySelect(c, catalog, ids, now) ==>
      ids != {} && Verified(c.document, c.repository, c.expected.catalog, now)
  {
    hide Verified, Selectable;
  }

  lemma SelectFromCatalog(c: PreparedCatalog, catalog: Catalog, ids: set<PackId>, now: nat)
    requires ids != {} && Verify(c.document, c.repository, c.expected.catalog, now) == Ok(catalog)
    requires CatalogOf(c.document, catalog) && Verified(c.document, c.repository, c.expected.catalog, now)
    ensures Select(c, ids, now).Ok? <==> MaySelect(c, catalog, ids, now)
    ensures Select(c, ids, now).Ok? ==> PlanOf(catalog, ids, Select(c, ids, now).value)
  {
    hide Verify, SelectPlan, CheckPlanPins, PinIds, Selectable, GoodPin, PlanOf, Select, HoldsPins, ProperEntries,
      SameRepository, NotOlder;
    SelectSteps(c, ids, now);
    SelectPlanOutcome(catalog, ids, now);
    var p := SelectPlan(catalog, ids, now);
    if p.Ok? {
      PlannedIds(c.document, catalog, ids, p.value, c.expected.highestSeen);
      PlanPinsOutcome(c.expected.highestSeen, p.value.packages);
    }
  }

  /** A document has one catalog: its entries leave nothing open. */
  lemma CatalogIsUnique(d: SignedDocument, c: Catalog)
    requires CatalogOf(d, c)
    ensures forall other :: CatalogOf(d, other) ==> other == c
  {
    hide Gives;
    forall other | CatalogOf(d, other)
      ensures other == c
    {
      assert other.packages == c.packages by { SamePins(d, other.packages, c.packages); }
    }
  }

  lemma SamePins(d: SignedDocument, a: map<PackId, PinnedPackage>, b: map<PackId, PinnedPackage>)
    requires HoldsPins(a, d.entries, d, |d.entries|) && HoldsPins(b, d.entries, d, |d.entries|)
    ensures a == b
  {
    hide HoldsPins;
    forall id | id in a
      ensures id in b && a[id] == b[id]
    {
      SamePin(d, a, b, id);
    }
    forall id | id in b
      ensures id in a
    {
      SamePin(d, b, a, id);
    }
  }

  lemma SamePin(d: SignedDocument, a: map<PackId, PinnedPackage>, b: map<PackId, PinnedPackage>, id: PackId)
    requires HoldsPins(a, d.entries, d, |d.entries|) && HoldsPins(b, d.entries, d, |d.entries|) && id in a
    ensures id in b && a[id] == b[id]
  {
    hide Gives;
    var i :| 0 <= i < |d.entries| && IdOf(d.entries[i]) == id;
    GivesOnce(d.entries[i], d, a[id], b[id]);
  }

  lemma GivesOnce(e: Entry, d: SignedDocument, a: PinnedPackage, b: PinnedPackage)
    requires Gives(e, d, a) && Gives(e, d, b)
    ensures a == b
  {
    hide PinOf, Gives;
    PinIs(e, d);
    assert PinOf(e, d) == Ok(a) && PinOf(e, d) == Ok(b);
  }

  /** Which refusal a selection meets once its document is verified. */
  lemma SelectRefusals(c: PreparedCatalog, catalog: Catalog, ids: set<PackId>, now: nat)
    requires Verify(c.document, c.repository, c.expected.catalog, now) == Ok(catalog) && ids != {}
    ensures |ids| > 64 ==> Select(c, ids, now) == Err(FromCatalog(PlanTooLarge))
    ensures |ids| <= 64 ==>
      forall i, e :: FirstStop(catalog, SortedKeys(ids), i, e) ==> Select(c, ids, now) == Err(FromCatalog(e))
    ensures Selectable(catalog, ids) ==> forall plan :: PlanOf(catalog, ids, plan) ==>
      && (forall i, e :: FirstBadPin(c.expected.highestSeen, plan.packages, i, e) ==>
            Select(c, ids, now) == Err(FromInventory(e)))
      && ((forall i :: 0 <= i < |plan.packages| ==> GoodPin(c.expected.highestSeen, plan.packages[i])) ==>
            |c.expected.packages.Keys + ids| > 63 ==> Select(c, ids, now) == Err(FromInventory(TooLarge)))
  {
    hide *;
    SelectSteps(c, ids, now);
    VerifyOutcome(c.document, c.repository, c.expected.catalog, now);
    VerifiedWindow(c, catalog, now);
    SelectPlanOutcome(catalog, ids, now);
    if Selectable(catalog, ids) {
      var p := SelectPlan(catalog, ids, now).value;
      PlanIsUnique(catalog, ids, p);
      PlannedIds(c.document, catalog, ids, p, c.expected.highestSeen);
      PlanPinsOutcome(c.expected.highestSeen, p.packages);
    }
  }

  lemma VerifiedWindow(c: PreparedCatalog, catalog: Catalog, now: nat)
    requires Verified(c.document, c.repository, c.expected.catalog, now) && CatalogOf(c.document, catalog)
    ensures InWindow(catalog.issuedAt, catalog.expiresAt, now)
  {
    hide SameRepository, NotOlder, ProperEntries, HoldsPins;
  }

  lemma PlanIsUnique(c: Catalog, ids: set<PackId>, plan: DownloadPlan)
    requires PlanOf(c, ids, plan)
    ensures forall other :: PlanOf(c, ids, other) ==> other == plan
  {
    hide SortedKeys;
    forall other | PlanOf(c, ids, other)
      ensures other == plan
    {
      assert other.packages == plan.packages;
    }
  }
}
