/**
 * Selecting packages from a prepared catalog, and the agreement of that early check with the
 * staging that follows the download (src/package_install.rs).
 */
module PackageInstall {
  import opened Wrappers
  import opened Strings
  import opened PackageInventory
  import opened InventoryGuard
  import opened InventoryStaging
  import PackageCatalog

  datatype InstallError = EmptySelection | FromCatalog(release: ReleaseError) | FromInventory(inventory: InventoryError)

  /** A catalog bound to the store snapshot it was checked against. */
  datatype PreparedCatalog = PreparedCatalog(
    document: PackageCatalog.SignedDocument,
    repository: string,
    expected: Inventory)

  /** What `from_bytes_inner` checks before a catalog is prepared. */
  ghost predicate Prepared(c: PreparedCatalog)
  {
    && RepositoryOk(c.repository)
    && (c.expected.repository.Some? ==> c.expected.repository.value == c.repository)
    && Wf(c.expected)
  }

  function PinRefusal(pin: PinnedPackage, highest: map<PackId, Receipt>): Option<InventoryError>
  {
    var id := pin.receipt.id;
    if IsBase(id) then Some(ProtectedBase)
    else if id in highest && pin.receipt.revision < highest[id].revision then Some(InventoryError.Rollback)
    else if id in highest && pin.receipt.revision == highest[id].revision
            && (pin.receipt.sha256 != highest[id].sha256 || pin.receipt.bytes != highest[id].bytes)
      then Some(RevisionConflict)
    else None
  }

  /** The pin is no base and does not go back behind the mark: not to an older revision, nor to other content. */
  ghost predicate NoStepBack(pin: PinnedPackage, highest: map<PackId, Receipt>)
  {
    var r := pin.receipt;
    && r.id != "en-us"
    && (r.id in highest ==>
          && highest[r.id].revision <= r.revision
          && (highest[r.id].revision == r.revision ==>
                r.sha256 == highest[r.id].sha256 && r.bytes == highest[r.id].bytes))
  }

  lemma NoStepBackIff(pin: PinnedPackage, highest: map<PackId, Receipt>)
    ensures PinRefusal(pin, highest).None? <==> NoStepBack(pin, highest)
  {
  }

  ghost predicate MayCome(before: Option<Checkpoint>, after: Checkpoint)
  {
    before.Some? ==> MayFollow(before.value, after)
  }

  lemma MayComeIff(before: Option<Checkpoint>, after: Checkpoint)
    ensures CheckCheckpoint(before, after).None? <==> MayCome(before, after)
  {
  }

  function CheckPlanPins(pins: seq<PinnedPackage>, highest: map<PackId, Receipt>): (e: Option<InventoryError>)
    ensures e.None? <==> forall i :: 0 <= i < |pins| ==> PinRefusal(pins[i], highest).None?
  {
    if |pins| == 0 then None
    else
      match PinRefusal(pins[0], highest)
      case Some(e) => Some(e)
      case None => CheckPlanPins(pins[1..], highest)
  }

  function PinIds(pins: seq<PinnedPackage>): set<PackId>
  {
    set i | 0 <= i < |pins| :: pins[i].receipt.id
  }

  /** `PreparedCatalog::select` */
  function Select(c: PreparedCatalog, ids: set<PackId>, now: nat): Result<DownloadPlan, InstallError>
  {
    if ids == {} then Err(EmptySelection)
    else
      match PackageCatalog.Verify(c.document, c.repository, c.expected.catalog, now)
      case Err(e) => Err(FromCatalog(e))
      case Ok(catalog) =>
        match PackageCatalog.SelectPlan(catalog, ids, now)
        case Err(e) => Err(FromCatalog(e))
        case Ok(plan) =>
          match CheckPlanPins(plan.packages, c.expected.highestSeen)
          case Some(e) => Err(FromInventory(e))
          case None =>
            if |c.expected.packages.Keys + PinIds(plan.packages)| > MAX_OPTIONAL_PACKAGES
            then Err(FromInventory(TooLarge)) else Ok(plan)
  }

  // ---------- the packages are exactly the pins ----------

  ghost predicate HasPackage(pin: PinnedPackage, ps: seq<Package>, now: nat)
  {
    exists k :: 0 <= k < |ps| && CheckPackage(pin, ps[k], now).None?
  }

  ghost predicate HasPin(p: Package, pins: seq<PinnedPackage>, now: nat)
  {
    exists i :: 0 <= i < |pins| && CheckPackage(pins[i], p, now).None?
  }

  lemma MatchedReceipt(pin: PinnedPackage, p: Package, now: nat)
    requires CheckPackage(pin, p, now).None?
    ensures p.receipt == pin.receipt
  {
  }

  /** Every pin has its package among `ps`, and there are no more packages than pins. */
  ghost predicate Matching(ps: seq<Package>, plan: DownloadPlan, now: nat)
  {
    && |ps| == |plan.packages|
    && forall i :: 0 <= i < |plan.packages| ==> HasPackage(plan.packages[i], ps, now)
  }

  ghost predicate DistinctPins(pins: seq<PinnedPackage>)
  {
    forall i, j :: 0 <= i < j < |pins| ==> pins[i].receipt.id != pins[j].receipt.id
  }

  function PackageIds(ps: seq<Package>): set<PackId>
  {
    set k | 0 <= k < |ps| :: ps[k].Id()
  }

  lemma {:induction false} PinIdsCount(pins: seq<PinnedPackage>)
    requires DistinctPins(pins)
    ensures |PinIds(pins)| == |pins|
  {
    if |pins| > 0 {
      var rest := pins[..|pins| - 1];
      var last := pins[|pins| - 1].receipt.id;
      PinIdsCount(rest);
      assert PinIds(pins) == PinIds(rest) + {last};
      assert last !in PinIds(rest);
    }
  }

  lemma {:induction false} PackageIdsCount(ps: seq<Package>)
    ensures |PackageIds(ps)| <= |ps|
    ensures |PackageIds(ps)| == |ps| ==> forall i, j :: 0 <= i < j < |ps| ==> ps[i].Id() != ps[j].Id()
  {
    if |ps| > 0 {
      var rest := ps[..|ps| - 1];
      var last := ps[|ps| - 1].Id();
      PackageIdsCount(rest);
      assert PackageIds(ps) == PackageIds(rest) + {last};
      if |PackageIds(ps)| == |ps| {
        assert last !in PackageIds(rest);
        forall i, j | 0 <= i < j < |ps|
          ensures ps[i].Id() != ps[j].Id()
        {
          if j == |ps| - 1 {
            assert rest[i].Id() in PackageIds(rest);
          } else {
            assert rest[i].Id() != rest[j].Id();
          }
        }
      }
    }
  }

  /** Pigeonhole: as many packages as distinct pins, each pin matched, hence a one-to-one match. */
  lemma PackagesAreThePins(ps: seq<Package>, plan: DownloadPlan, now: nat)
    requires DistinctPins(plan.packages) && Matching(ps, plan, now)
    ensures PackageIds(ps) == PinIds(plan.packages)
    ensures forall i, j :: 0 <= i < j < |ps| ==> ps[i].Id() != ps[j].Id()
    ensures forall k :: 0 <= k < |ps| ==> HasPin(ps[k], plan.packages, now)
  {
    hide CheckPackage;
    var pins := plan.packages;
    PinIdsCount(pins);
    PackageIdsCount(ps);
    forall id | id in PinIds(pins)
      ensures id in PackageIds(ps)
    {
      var i :| 0 <= i < |pins| && pins[i].receipt.id == id;
      assert HasPackage(pins[i], ps, now);
      var k :| 0 <= k < |ps| && CheckPackage(pins[i], ps[k], now).None?;
      MatchedReceipt(pins[i], ps[k], now);
      assert ps[k].Id() == id;
    }
    SubsetSize(PinIds(pins), PackageIds(ps));
    EqualSize(PinIds(pins), PackageIds(ps));
    forall k | 0 <= k < |ps|
      ensures HasPin(ps[k], pins, now)
    {
      assert ps[k].Id() in PackageIds(ps);
      var i :| 0 <= i < |pins| && pins[i].receipt.id == ps[k].Id();
      assert HasPackage(pins[i], ps, now);
      var m :| 0 <= m < |ps| && CheckPackage(pins[i], ps[m], now).None?;
      MatchedReceipt(pins[i], ps[m], now);
      assert m == k;
    }
  }

  lemma {:induction false} EqualSize<T>(a: set<T>, b: set<T>)
    requires a <= b && |b| <= |a|
    ensures a == b
    decreases a
  {
    if a == {} {
      assert b == {};
    } else {
      var x :| x in a;
      EqualSize(a - {x}, b - {x});
      assert a == (a - {x}) + {x} && b == (b - {x}) + {x};
    }
  }

  lemma PinsPass(ps: seq<Package>, plan: DownloadPlan, now: nat)
    requires DistinctPins(plan.packages) && Matching(ps, plan, now)
    ensures CheckPins(plan.packages, ps, now).None?
  {
    hide CheckPackage, Find, HasPackage, HasPin, DistinctPins, PinIds, PackageIds;
    PackagesAreThePins(ps, plan, now);
    forall i | 0 <= i < |plan.packages|
      ensures var found := Find(ps, plan.packages[i].receipt.id);
        found.Some? && CheckPackage(plan.packages[i], found.value, now).None?
    {
      assert HasPackage(plan.packages[i], ps, now);
      FoundByPin(ps, plan.packages[i], now);
    }
  }

  /** Among packages of different identifiers a pin finds the one that matches it. */
  lemma FoundByPin(ps: seq<Package>, pin: PinnedPackage, now: nat)
    requires HasPackage(pin, ps, now) && forall i, j :: 0 <= i < j < |ps| ==> ps[i].Id() != ps[j].Id()
    ensures var found := Find(ps, pin.receipt.id); found.Some? && CheckPackage(pin, found.value, now).None?
  {
    hide CheckPackage, Find;
    var k :| 0 <= k < |ps| && CheckPackage(pin, ps[k], now).None?;
    MatchedReceipt(pin, ps[k], now);
  }

  // ---------- nothing that was selected is refused while it is added ----------

  ghost predicate Addable(p: Package, highest: map<PackId, Receipt>)
  {
    var id := p.Id();
    && !IsBase(id)
    && (id in highest ==>
          && p.Revision() >= highest[id].revision
          && (p.Revision() == highest[id].revision ==> p.receipt == highest[id]))
  }

  lemma {:induction false} AddAllSucceeds(inv: Inventory, ps: seq<Package>, seen: set<PackId>)
    requires forall i :: 0 <= i < |ps| ==> Addable(ps[i], inv.highestSeen) && ps[i].Id() !in seen
    requires forall i, j :: 0 <= i < j < |ps| ==> ps[i].Id() != ps[j].Id()
    ensures AddAll(inv, ps, seen).Ok?
    decreases |ps|
  {
    if |ps| > 0 {
      var mid := AddOne(inv, ps[0], seen).value;
      AddAllSucceeds(mid, ps[1..], seen + {ps[0].Id()});
    }
  }

  /** Adding packages to a valid inventory never breaks its history. */
  lemma AddedKeepsHistory(inv: Inventory, next: Inventory, ps: seq<Package>)
    requires Wf(inv) && Added(inv, next, ps)
    ensures HistoryOk(Installed(next), next.highestSeen, next.rollbackTargets)
  {
    hide ReceiptOk, Validate;
    WfValid(inv);
    HistoryOf(inv);
    forall id | id in next.packages
      ensures AtHighWaterOrTarget(Installed(next)[id], id, next.highestSeen, next.rollbackTargets)
    {
      AddedAtId(inv, next, ps, id);
    }
    forall id | id in next.rollbackTargets
      ensures next.rollbackTargets[id].id == id && id in next.packages && id in next.highestSeen
        && next.rollbackTargets[id].revision < next.highestSeen[id].revision
    {
      AddedAtId(inv, next, ps, id);
    }
  }

  lemma AddedAtId(inv: Inventory, next: Inventory, ps: seq<Package>, id: PackId)
    requires HistoryOk(Installed(inv), inv.highestSeen, inv.rollbackTargets) && ReceiptsOk(Installed(inv))
    requires Added(inv, next, ps)
    ensures id in next.packages ==>
      AtHighWaterOrTarget(next.packages[id].receipt, id, next.highestSeen, next.rollbackTargets)
    ensures id in next.rollbackTargets ==>
      next.rollbackTargets[id].id == id && id in next.packages && id in next.highestSeen
      && next.rollbackTargets[id].revision < next.highestSeen[id].revision
  {
    hide ReceiptOk;
    if id in inv.packages {
      assert id in Installed(inv);
      assert AtHighWaterOrTarget(Installed(inv)[id], id, inv.highestSeen, inv.rollbackTargets);
    }
    if id in next.rollbackTargets { assert TargetAt(next, id) == Some(next.rollbackTargets[id]); }
    if Listed(ps, id) {
      var i :| 0 <= i < |ps| && ps[i].Id() == id;
      assert AddedAt(inv, next, ps[i]);
    } else {
      assert UnchangedAt(inv, next, id);
    }
  }

  lemma AddedKeys(inv: Inventory, next: Inventory, ps: seq<Package>)
    requires Added(inv, next, ps)
    ensures next.packages.Keys == inv.packages.Keys + PackageIds(ps)
  {
    forall id
      ensures id in next.packages <==> id in inv.packages || id in PackageIds(ps)
    {
      if Listed(ps, id) {
        var i :| 0 <= i < |ps| && ps[i].Id() == id;
        assert AddedAt(inv, next, ps[i]);
      } else {
        assert UnchangedAt(inv, next, id);
      }
    }
  }

  // ---------- agreement ----------

  /** The inventory the plan is staged on: the selected-on snapshot, or that with the catalog accepted. */
  ghost predicate SameHoldings(inv: Inventory, base: Inventory)
  {
    inv.packages == base.packages && inv.highestSeen == base.highestSeen && inv.rollbackTargets == base.rollbackTargets
  }

  ghost predicate SelectedOn(c: PreparedCatalog, plan: DownloadPlan)
  {
    && DistinctPins(plan.packages)
    && (forall i :: 0 <= i < |plan.packages| ==> NoStepBack(plan.packages[i], c.expected.highestSeen))
    && |c.expected.packages.Keys + PinIds(plan.packages)| <= MAX_OPTIONAL_PACKAGES
    && plan.repository == c.repository
    && MayCome(c.expected.catalog, plan.checkpoint)
  }

  /** What a successful selection guarantees about its plan. */
  lemma SelectionSound(c: PreparedCatalog, ids: set<PackId>, now: nat)
    requires Prepared(c) && Select(c, ids, now).Ok?
    ensures SelectedOn(c, Select(c, ids, now).value)
  {
    hide PackageCatalog.Verify, PackageCatalog.SelectPlan, Wf, RepositoryOk;
    var catalog := PackageCatalog.Verify(c.document, c.repository, c.expected.catalog, now).value;
    VerifiedCatalog(c.document, c.repository, c.expected.catalog, now);
    SelectedPins(c.document, catalog, ids, now);
    forall i | 0 <= i < |Select(c, ids, now).value.packages|
      ensures NoStepBack(Select(c, ids, now).value.packages[i], c.expected.highestSeen)
    {
      NoStepBackIff(Select(c, ids, now).value.packages[i], c.expected.highestSeen);
    }
  }

  lemma VerifiedCatalog(d: PackageCatalog.SignedDocument, repository: string, previous: Option<Checkpoint>, now: nat)
    requires RepositoryOk(repository) && PackageCatalog.Verify(d, repository, previous, now).Ok?
    ensures var catalog := PackageCatalog.Verify(d, repository, previous, now).value;
      && catalog.repository == repository
      && MayCome(previous, catalog.checkpoint)
      && forall id :: id in catalog.packages ==> PackageCatalog.Pinned(id, catalog.packages[id], d)
  {
    hide PackageCatalog.RepositoryId, PackageCatalog.Pins, PackageCatalog.Pinned, CheckCheckpoint, MayCome;
    MayComeIff(previous, Checkpoint(d.revision, d.digest, d.signer));
  }

  lemma SelectedPins(d: PackageCatalog.SignedDocument, catalog: PackageCatalog.Catalog, ids: set<PackId>, now: nat)
    requires forall id :: id in catalog.packages ==> PackageCatalog.Pinned(id, catalog.packages[id], d)
    requires PackageCatalog.SelectPlan(catalog, ids, now).Ok?
    ensures var plan := PackageCatalog.SelectPlan(catalog, ids, now).value;
      && DistinctPins(plan.packages) && plan.repository == catalog.repository && plan.checkpoint == catalog.checkpoint
  {
    hide PackageCatalog.SelectPins, SortedKeys;
    var keys := SortedKeys(ids);
    AscendingDistinct(keys);
    var pins := PackageCatalog.SelectPins(catalog, keys, 0).value;
    forall i, j | 0 <= i < j < |pins|
      ensures pins[i].receipt.id != pins[j].receipt.id
    {
      assert PackageCatalog.Pinned(keys[i], catalog.packages[keys[i]], d);
      assert PackageCatalog.Pinned(keys[j], catalog.packages[keys[j]], d);
    }
  }

  lemma MatchedAddable(ps: seq<Package>, plan: DownloadPlan, now: nat, highest: map<PackId, Receipt>, k: nat)
    requires DistinctPins(plan.packages) && Matching(ps, plan, now) && k < |ps|
    requires forall i :: 0 <= i < |plan.packages| ==> NoStepBack(plan.packages[i], highest)
    requires forall id :: id in highest ==> highest[id].id == id
    ensures Addable(ps[k], highest)
  {
    hide CheckPackage, Matching, DistinctPins;
    PackagesAreThePins(ps, plan, now);
    assert HasPin(ps[k], plan.packages, now);
    var i :| 0 <= i < |plan.packages| && CheckPackage(plan.packages[i], ps[k], now).None?;
    MatchedReceipt(plan.packages[i], ps[k], now);
  }

  /** The outcomes left once a selection was made: size, names and the generation counter. */
  ghost predicate OnlyLateRefusals(base: Inventory, mid: Inventory, r: Result<Inventory, InventoryError>)
  {
    match r
    case Ok(next) => Validate(mid).None? && next.packages == mid.packages && next.highestSeen == mid.highestSeen
    case Err(TooLarge) => |mid.highestSeen| > MAX_HISTORY || TotalBytes(Installed(mid)) > MAX_SELECTED_DOWNLOAD_BYTES
    case Err(OwnershipConflict) => !Unambiguous(mid.packages)
    case Err(GenerationExhausted) => base.generation == MAX_U64
    case Err(_) => false
  }

  /**
   * Whatever `select` accepted, staging the same plan with the matching packages while it is current
   * adds all of them; it can only be refused for total size or history length, for a clash of
   * interface names, or at the last generation.
   */
  lemma StagingAgreesWithSelection(c: PreparedCatalog, plan: DownloadPlan, base: Inventory, ps: seq<Package>, now: nat)
    requires Prepared(c) && SelectedOn(c, plan)
    requires Wf(base) && SameHoldings(c.expected, base)
    requires base.repository.Some? ==> base.repository.value == plan.repository
    requires MayCome(base.catalog, plan.checkpoint)
    requires plan.issuedAt <= now < plan.expiresAt && Matching(ps, plan, now)
    ensures AddAll(base, ps, {}).Ok?
    ensures OnlyLateRefusals(base, AddAll(base, ps, {}).value, StagePlan(base, plan, ps, now))
  {
    hide *;
    SelectedPlan(c, plan, base);
    PlanPasses(plan, base, ps, now);
    AddingSucceeds(c, plan, base, ps, now);
    PinCountFits(ps, plan, base, now);
    LateOnly(plan, base, ps, now);
  }

  lemma SelectedPlan(c: PreparedCatalog, plan: DownloadPlan, base: Inventory)
    requires SelectedOn(c, plan) && SameHoldings(c.expected, base)
    ensures DistinctPins(plan.packages)
    ensures |base.packages.Keys + PinIds(plan.packages)| <= MAX_OPTIONAL_PACKAGES
  {
    hide DistinctPins;
  }

  lemma LateOnly(plan: DownloadPlan, base: Inventory, ps: seq<Package>, now: nat)
    requires PlanRefusal(base, plan, ps, now).None? && |ps| <= MAX_OPTIONAL_PACKAGES && AddAll(base, ps, {}).Ok?
    requires var mid := AddAll(base, ps, {}).value;
      HistoryOk(Installed(mid), mid.highestSeen, mid.rollbackTargets) && |mid.packages.Keys| <= MAX_OPTIONAL_PACKAGES
    ensures OnlyLateRefusals(base, AddAll(base, ps, {}).value, StagePlan(base, plan, ps, now))
  {
    hide PlanRefusal, AddAll, HistoryOk, Validate, TotalBytes, Unambiguous;
    ValidateLate(AddAll(base, ps, {}).value);
  }

  lemma PlanPasses(plan: DownloadPlan, base: Inventory, ps: seq<Package>, now: nat)
    requires base.repository.Some? ==> base.repository.value == plan.repository
    requires MayCome(base.catalog, plan.checkpoint)
    requires plan.issuedAt <= now < plan.expiresAt
    requires DistinctPins(plan.packages) && Matching(ps, plan, now)
    ensures PlanRefusal(base, plan, ps, now).None?
  {
    hide CheckPins, CheckCheckpoint, DistinctPins, MayCome;
    MayComeIff(base.catalog, plan.checkpoint);
    PinsPass(ps, plan, now);
  }

  /** Every selected package is added, and the result keeps its history and fits its count. */
  lemma AddingSucceeds(c: PreparedCatalog, plan: DownloadPlan, base: Inventory, ps: seq<Package>, now: nat)
    requires Prepared(c) && SelectedOn(c, plan)
    requires Wf(base) && SameHoldings(c.expected, base) && Matching(ps, plan, now)
    ensures AddAll(base, ps, {}).Ok?
    ensures var mid := AddAll(base, ps, {}).value;
      HistoryOk(Installed(mid), mid.highestSeen, mid.rollbackTargets) && |mid.packages.Keys| <= MAX_OPTIONAL_PACKAGES
  {
    hide Validate, Matching, DistinctPins, Added, Addable, ReceiptOk, AddAll, HistoryOk, NoStepBack;
    PackagesAreThePins(ps, plan, now);
    forall k | 0 <= k < |ps|
      ensures Addable(ps[k], base.highestSeen)
    {
      MatchedAddable(ps, plan, now, base.highestSeen, k);
    }
    AddAllSucceeds(base, ps, {});
    AddAllChanges(base, ps, {});
    AddedKeepsHistory(base, AddAll(base, ps, {}).value, ps);
    AddedKeys(base, AddAll(base, ps, {}).value, ps);
  }

  lemma PinCountFits(ps: seq<Package>, plan: DownloadPlan, base: Inventory, now: nat)
    requires DistinctPins(plan.packages) && Matching(ps, plan, now)
    requires |base.packages.Keys + PinIds(plan.packages)| <= MAX_OPTIONAL_PACKAGES
    ensures |ps| <= MAX_OPTIONAL_PACKAGES
  {
    PinIdsCount(plan.packages);
    SubsetSize(PinIds(plan.packages), base.packages.Keys + PinIds(plan.packages));
  }

  /** With sound history and few enough packages, validation can only fail late. */
  lemma ValidateLate(inv: Inventory)
    requires HistoryOk(Installed(inv), inv.highestSeen, inv.rollbackTargets)
    requires |inv.packages.Keys| <= MAX_OPTIONAL_PACKAGES
    ensures Validate(inv) ==
      if |inv.highestSeen| > MAX_HISTORY || TotalBytes(Installed(inv)) > MAX_SELECTED_DOWNLOAD_BYTES then Some(TooLarge)
      else if !Unambiguous(inv.packages) then Some(OwnershipConflict)
      else None
  {
    hide TotalBytes, SnapshotBuilds, Unambiguous;
    SnapshotBuildsIff(inv.packages);
    assert inv.rollbackTargets.Keys <= inv.packages.Keys by {
      assert forall id :: id in inv.rollbackTargets ==> id in Installed(inv);
    }
    SubsetSize(inv.rollbackTargets.Keys, inv.packages.Keys);
    assert |inv.rollbackTargets| == |inv.rollbackTargets.Keys| && |inv.packages| == |inv.packages.Keys|;
  }

  /** The agreement on the very snapshot the selection was made on. */
  lemma PreflightAgrees(c: PreparedCatalog, ids: set<PackId>, selectedAt: nat, ps: seq<Package>, now: nat)
    requires Prepared(c) && Select(c, ids, selectedAt).Ok?
    requires var plan := Select(c, ids, selectedAt).value;
      plan.issuedAt <= now < plan.expiresAt && Matching(ps, plan, now)
    ensures AddAll(c.expected, ps, {}).Ok?
    ensures OnlyLateRefusals(c.expected, AddAll(c.expected, ps, {}).value,
              StagePlan(c.expected, Select(c, ids, selectedAt).value, ps, now))
  {
    hide Select, Wf, Matching, RepositoryOk, OnlyLateRefusals, StagePlan;
    SelectionSound(c, ids, selectedAt);
    StagingAgreesWithSelection(c, Select(c, ids, selectedAt).value, c.expected, ps, now);
  }

  /**
   * The agreement after the catalog itself was accepted: the download first commits the catalog's
   * checkpoint without packages, and stages the packages on the inventory that produced.
   */
  lemma PreflightAgreesAfterAccept(c: PreparedCatalog, ids: set<PackId>, selectedAt: nat, acceptedAt: nat,
      ps: seq<Package>, now: nat)
    requires Prepared(c) && Select(c, ids, selectedAt).Ok?
    requires var plan := Select(c, ids, selectedAt).value;
      && CheckpointOk(plan.checkpoint)
      && StagePlan(c.expected, plan.(packages := []), [], acceptedAt).Ok?
      && plan.issuedAt <= now < plan.expiresAt && Matching(ps, plan, now)
    ensures var plan := Select(c, ids, selectedAt).value;
      var accepted := StagePlan(c.expected, plan.(packages := []), [], acceptedAt).value;
      && AddAll(accepted, ps, {}).Ok?
      && OnlyLateRefusals(accepted, AddAll(accepted, ps, {}).value, StagePlan(accepted, plan, ps, now))
  {
    hide Select, Wf, Matching, OnlyLateRefusals, Validate, CheckpointOk;
    var plan := Select(c, ids, selectedAt).value;
    var receipt := Install(plan.(packages := []), [], acceptedAt);
    var accepted := StagePlan(c.expected, plan.(packages := []), [], acceptedAt).value;
    SelectionSound(c, ids, selectedAt);
    StageKeepsWf(c.expected, receipt);
    StagingAgreesWithSelection(c, plan, accepted, ps, now);
  }
}
