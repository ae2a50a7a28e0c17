/**
 * The inventory of installed language packages: immutable snapshots, the four ways to stage the
 * next one, and the conditions every snapshot satisfies (src/package_inventory.rs).
 */
module PackageInventory {
  import opened Wrappers
  import opened Strings
  import Localization

  const MAX_OPTIONAL_PACKAGES: nat := 63
  const MAX_HISTORY: nat := 1024
  const MAX_PACKAGE_BYTES: nat := 64 * 1024 * 1024
  const MAX_SELECTED_DOWNLOAD_BYTES: nat := 512 * 1024 * 1024
  const BASE: PackId := "en-us"

  datatype ReleaseError =
    | InvalidData | PlanTooLarge | Incompatible | WrongRepository | NotCurrent
    | PlanRollback | PlanRevisionConflict | MissingSelection | ArtifactMismatch

  datatype InventoryError =
    | InvalidState | TooLarge | ProtectedBase | DuplicatePackage | Rollback
    | RevisionConflict | OwnershipConflict | GenerationExhausted | Plan(error: ReleaseError)

  // ---------- data ----------

  /** A lower-case ASCII identifier; `ValidId` is what `PackId::parse` guarantees. */
  type PackId = string

  ghost predicate ValidId(id: PackId)
  {
    Localization.IdGrammar(id) && ToLowerAscii(id) == id
  }

  type Digest = seq<Byte>

  datatype Receipt = Receipt(id: PackId, revision: U64, bytes: U64, sha256: Digest)

  /** What an authenticated package envelope tells about itself. */
  datatype Package = Package(
    receipt: Receipt,
    runtimeApi: nat,
    input: bool,
    uiLocale: Option<string>,
    ui: Option<Localization.Catalog>)
  {
    function Id(): PackId { receipt.id }
    function Revision(): U64 { receipt.revision }
  }

  ghost predicate ReceiptOk(r: Receipt)
  {
    && ValidId(r.id) && 1 <= r.revision
    && 1 <= r.bytes <= MAX_PACKAGE_BYTES && |r.sha256| == 32
  }

  /** The outcome of parsing a package's UI catalog, as `CatalogRegistry::add` sees it. */
  function UiOf(p: Package): (r: Result<Localization.Catalog, Localization.CatalogError>)
    requires p.ui.Some?
  {
    Ok(p.ui.value)
  }

  ghost predicate UiAdmissible(p: Package)
  {
    p.ui.Some? ==> Localization.Admissible(UiOf(p))
  }

  datatype Checkpoint = Checkpoint(revision: U64, documentSha256: Digest, signerSha256: Digest)

  datatype Inventory = Inventory(
    generation: U64,
    packages: map<PackId, Package>,
    highestSeen: map<PackId, Receipt>,
    rollbackTargets: map<PackId, Receipt>,
    repository: Option<string>,
    catalog: Option<Checkpoint>)

  const EMPTY := Inventory(0, map[], map[], map[], None, None)

  predicate IsBase(id: PackId) { id == BASE }

  function ReceiptsOf(packages: map<PackId, Package>): (r: map<PackId, Receipt>)
    ensures r.Keys == packages.Keys
    ensures forall id :: id in r ==> r[id] == packages[id].receipt
  {
    map id | id in packages :: packages[id].receipt
  }

  function Installed(inv: Inventory): (r: map<PackId, Receipt>)
    ensures r.Keys == inv.packages.Keys
    ensures forall id :: id in r ==> r[id] == inv.packages[id].receipt
  {
    ReceiptsOf(inv.packages)
  }

  /** Only a package newer than its recorded predecessor can be rolled back. */
  function RollbackTarget(inv: Inventory, id: PackId): Option<Receipt>
  {
    if id in inv.rollbackTargets && id in inv.packages
       && inv.packages[id].Revision() > inv.rollbackTargets[id].revision
    then Some(inv.rollbackTargets[id]) else None
  }

  // ---------- validation ----------

  function TotalBytes(receipts: map<PackId, Receipt>): (n: nat)
    decreases |receipts|
  {
    if receipts == map[] then 0
    else
      var id := Least(receipts.Keys);
      assert |receipts - {id}| < |receipts| by { assert (receipts - {id}).Keys == receipts.Keys - {id}; }
      receipts[id].bytes + TotalBytes(receipts - {id})
  }

  predicate HistoryOk(installed: map<PackId, Receipt>, highest: map<PackId, Receipt>, targets: map<PackId, Receipt>)
  {
    && (forall id :: id in installed ==> AtHighWaterOrTarget(installed[id], id, highest, targets))
    && (forall id :: id in targets ==>
          targets[id].id == id && id in installed && id in highest && targets[id].revision < highest[id].revision)
  }

  predicate AtHighWaterOrTarget(r: Receipt, id: PackId, highest: map<PackId, Receipt>, targets: map<PackId, Receipt>)
  {
    && id in highest
    && (r == highest[id] || (r.revision < highest[id].revision && id in targets && targets[id] == r))
  }

  /** Adds the UI catalogs of the packages with the given ids, in that order. */
  function Snapshot(v: Localization.View, packages: map<PackId, Package>, ids: seq<PackId>)
    : Result<Localization.View, Localization.CatalogError>
    requires forall id :: id in ids ==> id in packages
    decreases |ids|
  {
    if |ids| == 0 then Ok(v)
    else if packages[ids[0]].ui.None? then Snapshot(v, packages, ids[1..])
    else
      match Localization.Add(v, UiOf(packages[ids[0]]))
      case Err(e) => Err(e)
      case Ok(w) => Snapshot(w, packages, ids[1..])
  }

  /** `catalog_snapshot` succeeds: all UI catalogs fit into one registry, added in id order. */
  predicate SnapshotBuilds(packages: map<PackId, Package>)
  {
    var ids := SortedKeys(packages.Keys);
    Snapshot(Localization.EMPTY, packages, ids).Ok?
  }

  ghost predicate NoClash(p: Package, q: Package)
  {
    p.ui.Some? && q.ui.Some? ==> Localization.Names(p.ui.value) !! Localization.Names(q.ui.value)
  }

  /** No two installed packages claim the same locale or alias name, and none a reserved one. */
  ghost predicate Unambiguous(packages: map<PackId, Package>)
  {
    && (forall a :: a in packages ==> UiAdmissible(packages[a]))
    && forall a, b :: a in packages && b in packages && a != b ==> NoClash(packages[a], packages[b])
  }

  function Validate(inv: Inventory): (e: Option<InventoryError>)
  {
    if |inv.packages| > MAX_OPTIONAL_PACKAGES || |inv.highestSeen| > MAX_HISTORY then Some(TooLarge)
    else if TotalBytes(Installed(inv)) > MAX_SELECTED_DOWNLOAD_BYTES then Some(TooLarge)
    else if |inv.rollbackTargets| > MAX_OPTIONAL_PACKAGES then Some(TooLarge)
    else if !HistoryOk(Installed(inv), inv.highestSeen, inv.rollbackTargets) then Some(InvalidState)
    else if !SnapshotBuilds(inv.packages) then Some(OwnershipConflict)
    else None
  }

  lemma ValidIff(inv: Inventory)
    ensures Validate(inv).None? <==>
      && |inv.packages| <= MAX_OPTIONAL_PACKAGES && |inv.highestSeen| <= MAX_HISTORY
      && TotalBytes(Installed(inv)) <= MAX_SELECTED_DOWNLOAD_BYTES
      && |inv.rollbackTargets| <= MAX_OPTIONAL_PACKAGES
      && HistoryOk(Installed(inv), inv.highestSeen, inv.rollbackTargets)
      && SnapshotBuilds(inv.packages)
  {
    hide TotalBytes, HistoryOk, SnapshotBuilds;
  }

  // ---------- staging ----------

  /** What `add_packages` does for one package; `seen` are the ids handled before it. */
  function AddOne(inv: Inventory, p: Package, seen: set<PackId>): (r: Result<Inventory, InventoryError>)
  {
    var id := p.Id();
    if IsBase(id) then Err(ProtectedBase)
    else if id in seen then Err(DuplicatePackage)
    else if id in inv.highestSeen && p.Revision() < inv.highestSeen[id].revision then Err(Rollback)
    else if id in inv.highestSeen && p.Revision() == inv.highestSeen[id].revision && p.receipt != inv.highestSeen[id]
      then Err(RevisionConflict)
    else
      Ok(inv.(
        highestSeen := inv.highestSeen[id := p.receipt],
        rollbackTargets :=
          if id in inv.packages && inv.packages[id].Revision() < p.Revision()
          then inv.rollbackTargets[id := inv.packages[id].receipt] else inv.rollbackTargets,
        packages := inv.packages[id := p]))
  }

  function AddAll(inv: Inventory, ps: seq<Package>, seen: set<PackId>): Result<Inventory, InventoryError>
    decreases |ps|
  {
    if |ps| == 0 then Ok(inv)
    else
      match AddOne(inv, ps[0], seen)
      case Err(e) => Err(e)
      case Ok(next) => AddAll(next, ps[1..], seen + {ps[0].Id()})
  }

  function AddPackages(inv: Inventory, ps: seq<Package>): Result<Inventory, InventoryError>
  {
    if |ps| > MAX_OPTIONAL_PACKAGES then Err(TooLarge)
    else
      match AddAll(inv, ps, {})
      case Err(e) => Err(e)
      case Ok(next) =>
        match Validate(next)
        case Some(e) => Err(e)
        case None => Ok(next)
  }

  /** Whether anything but the generation differs. */
  predicate Changed(a: Inventory, b: Inventory)
  {
    || Installed(a) != Installed(b) || a.highestSeen != b.highestSeen
    || a.rollbackTargets != b.rollbackTargets || a.repository != b.repository || a.catalog != b.catalog
  }

  function Finish(next: Inventory, previous: Inventory): Result<Inventory, InventoryError>
  {
    if !Changed(next, previous) then Ok(next)
    else
      match CheckedAdd(previous.generation, 1)
      case None => Err(GenerationExhausted)
      case Some(g) => Ok(next.(generation := g))
  }

  function StageImport(inv: Inventory, ps: seq<Package>): Result<Inventory, InventoryError>
  {
    match AddPackages(inv, ps)
    case Err(e) => Err(e)
    case Ok(next) => Finish(next, inv)
  }

  function StageRollback(inv: Inventory, p: Package): Result<Inventory, InventoryError>
  {
    if IsBase(p.Id()) then Err(ProtectedBase)
    else if RollbackTarget(inv, p.Id()) != Some(p.receipt) then Err(Rollback)
    else
      var next := inv.(packages := inv.packages[p.Id() := p]);
      match Validate(next)
      case Some(e) => Err(e)
      case None => Finish(next, inv)
  }

  function StageRemove(inv: Inventory, ids: set<PackId>): Result<Inventory, InventoryError>
  {
    if |ids| > 64 then Err(TooLarge)
    else if BASE in ids then Err(ProtectedBase)
    else Finish(inv.(packages := inv.packages - ids, rollbackTargets := inv.rollbackTargets - ids), inv)
  }

  // ---------- the loops of staging ----------

  /** `add_packages` on a copy of `inv`: one pass over the packages, then validation. */
  method AddPackagesInPlace(inv: Inventory, ps: seq<Package>) returns (r: Result<Inventory, InventoryError>)
    ensures r == AddPackages(inv, ps)
  {
    hide AddOne, Validate;
    if |ps| > MAX_OPTIONAL_PACKAGES { return Err(TooLarge); }
    var next := inv;
    var seen: set<PackId> := {};
    for i := 0 to |ps|
      invariant AddAll(inv, ps, {}) == AddAll(next, ps[i..], seen)
    {
      assert ps[i..][0] == ps[i] && ps[i..][1..] == ps[i + 1..];
      var added := AddOne(next, ps[i], seen);
      if added.Err? { return Err(added.error); }
      next := added.value;
      seen := seen + {ps[i].Id()};
    }
    var refusal := Validate(next);
    if refusal.Some? { return Err(refusal.value); }
    return Ok(next);
  }

  /** `stage_remove` takes the ids one by one, in any order, and stops at the protected base. */
  method RemoveInPlace(inv: Inventory, ids: set<PackId>) returns (r: Result<Inventory, InventoryError>)
    ensures r == StageRemove(inv, ids)
  {
    hide Finish;
    if |ids| > 64 { return Err(TooLarge); }
    var packages, targets, left := inv.packages, inv.rollbackTargets, ids;
    while left != {}
      invariant left <= ids && BASE !in ids - left
      invariant packages == inv.packages - (ids - left) && targets == inv.rollbackTargets - (ids - left)
      decreases left
    {
      var id :| id in left;
      if IsBase(id) { return Err(ProtectedBase); }
      packages, targets := packages - {id}, targets - {id};
      left := left - {id};
    }
    assert ids - left == ids;
    return Finish(inv.(packages := packages, rollbackTargets := targets), inv);
  }

  // ---------- download plans ----------

  datatype PinnedPackage = PinnedPackage(
    receipt: Receipt,
    runtimeApi: nat,
    input: bool,
    uiLocale: Option<string>,
    issuedAt: nat,
    expiresAt: nat)

  datatype DownloadPlan = DownloadPlan(
    packages: seq<PinnedPackage>,
    checkpoint: Checkpoint,
    repository: string,
    issuedAt: nat,
    expiresAt: nat)

  const RUNTIME_API: nat := 2

  function CheckWindow(issuedAt: nat, expiresAt: nat, now: nat): Option<ReleaseError>
  {
    if now < issuedAt || now >= expiresAt then Some(NotCurrent) else None
  }

  function CheckPackage(pin: PinnedPackage, p: Package, now: nat): Option<ReleaseError>
  {
    if CheckWindow(pin.issuedAt, pin.expiresAt, now).Some? then Some(NotCurrent)
    else if !(1 <= pin.runtimeApi <= RUNTIME_API) then Some(Incompatible)
    else if p.receipt != pin.receipt || p.runtimeApi != pin.runtimeApi || p.input != pin.input
            || p.uiLocale != pin.uiLocale then Some(ArtifactMismatch)
    else None
  }

  /** `packages.iter().find(|p| p.id() == id)` */
  function Find(ps: seq<Package>, id: PackId): (r: Option<Package>)
    ensures r.Some? ==> r.value in ps && r.value.Id() == id
    ensures r.None? ==> forall i :: 0 <= i < |ps| ==> ps[i].Id() != id
  {
    if |ps| == 0 then None else if ps[0].Id() == id then Some(ps[0]) else Find(ps[1..], id)
  }

  function CheckPins(pins: seq<PinnedPackage>, ps: seq<Package>, now: nat): (e: Option<InventoryError>)
    ensures e.None? <==> forall i :: 0 <= i < |pins| ==>
      var found := Find(ps, pins[i].receipt.id); found.Some? && CheckPackage(pins[i], found.value, now).None?
  {
    if |pins| == 0 then None
    else
      match Find(ps, pins[0].receipt.id)
      case None => Some(InvalidState)
      case Some(p) =>
        match CheckPackage(pins[0], p, now)
        case Some(e) => Some(Plan(e))
        case None => CheckPins(pins[1..], ps, now)
  }

  /** A catalog may not be older than the accepted one, nor differ from it at the same revision. */
  function CheckCheckpoint(previous: Option<Checkpoint>, current: Checkpoint): Option<ReleaseError>
  {
    match previous
    case None => None
    case Some(p) =>
      if current.revision < p.revision then Some(PlanRollback)
      else if current.revision == p.revision && current.documentSha256 != p.documentSha256
        then Some(PlanRevisionConflict)
      else None
  }

  /** The checks of `stage_plan` that come before any package is added. */
  function PlanRefusal(inv: Inventory, plan: DownloadPlan, ps: seq<Package>, now: nat): Option<InventoryError>
  {
    if CheckWindow(plan.issuedAt, plan.expiresAt, now).Some? then Some(Plan(NotCurrent))
    else if |ps| != |plan.packages| then Some(InvalidState)
    else if inv.repository.Some? && inv.repository.value != plan.repository then Some(Plan(WrongRepository))
    else
      match CheckCheckpoint(inv.catalog, plan.checkpoint)
      case Some(e) => Some(Plan(e))
      case None => CheckPins(plan.packages, ps, now)
  }

  function StagePlan(inv: Inventory, plan: DownloadPlan, ps: seq<Package>, now: nat)
    : Result<Inventory, InventoryError>
  {
    match PlanRefusal(inv, plan, ps, now)
    case Some(e) => Err(e)
    case None =>
      match AddPackages(inv, ps)
      case Err(e) => Err(e)
      case Ok(next) =>
        Finish(next.(repository := Some(plan.repository), catalog := Some(plan.checkpoint)), inv)
  }

  // ---------- totals and ownership over changing maps ----------

  lemma {:induction false} TotalBytesPick(receipts: map<PackId, Receipt>, id: PackId)
    requires id in receipts
    ensures TotalBytes(receipts) == receipts[id].bytes + TotalBytes(receipts - {id})
    decreases |receipts|
  {
    var l := Least(receipts.Keys);
    if l != id {
      var a, b := receipts - {l}, receipts - {id};
      assert a.Keys == receipts.Keys - {l} && b.Keys == receipts.Keys - {id};
      assert |a| < |receipts|;
      TotalBytesPick(a, id);
      assert IsLeast(l, b.Keys);
      LeastUnique(b.Keys);
      assert a - {id} == b - {l};
    }
  }

  lemma {:induction false} TotalBytesRemove(receipts: map<PackId, Receipt>, ids: set<PackId>)
    ensures TotalBytes(receipts - ids) <= TotalBytes(receipts)
    decreases ids
  {
    if ids == {} {
      assert receipts - ids == receipts;
    } else {
      var id :| id in ids;
      TotalBytesRemove(receipts, ids - {id});
      var rest := receipts - (ids - {id});
      assert receipts - ids == rest - {id};
      if id in rest {
        TotalBytesPick(rest, id);
      } else {
        assert rest - {id} == rest;
      }
    }
  }

  ghost predicate Free(v: Localization.View, p: Package)
  {
    p.ui.Some? ==> Localization.Names(p.ui.value) !! Localization.Owned(v)
  }

  ghost predicate Distinct(ids: seq<PackId>)
  {
    forall i, j :: 0 <= i < j < |ids| ==> ids[i] != ids[j]
  }

  ghost predicate AllFree(v: Localization.View, packages: map<PackId, Package>, ids: seq<PackId>)
    requires forall id :: id in ids ==> id in packages
  {
    forall id :: id in ids ==> Free(v, packages[id])
  }

  ghost predicate UnambiguousOver(packages: map<PackId, Package>, ids: seq<PackId>)
    requires forall id :: id in ids ==> id in packages
  {
    && (forall a :: a in ids ==> UiAdmissible(packages[a]))
    && forall a, b :: a in ids && b in ids && a != b ==> NoClash(packages[a], packages[b])
  }

  lemma {:induction false} SnapshotIff(v: Localization.View, packages: map<PackId, Package>, ids: seq<PackId>)
    requires Distinct(ids) && forall id :: id in ids ==> id in packages
    ensures Snapshot(v, packages, ids).Ok? <==> UnambiguousOver(packages, ids) && AllFree(v, packages, ids)
    decreases |ids|
  {
    if |ids| > 0 {
      var p, rest := packages[ids[0]], ids[1..];
      assert forall id :: id in ids <==> id == ids[0] || id in rest;
      if p.ui.None? {
        SnapshotIff(v, packages, rest);
      } else {
        if UiAdmissible(p) && Free(v, p) {
          SnapshotIff(Localization.Add(v, UiOf(p)).value, packages, rest);
        }
      }
    }
  }

  /** The snapshot builds exactly when no two packages claim the same name, whatever the order. */
  lemma SnapshotBuildsIff(packages: map<PackId, Package>)
    ensures SnapshotBuilds(packages) <==> Unambiguous(packages)
  {
    hide NoClash, UiAdmissible, Snapshot, Ascending;
    var ids := SortedKeys(packages.Keys);
    AscendingDistinct(ids);
    SnapshotIff(Localization.EMPTY, packages, ids);
    assert forall id :: id in ids <==> id in packages;
  }

  /**
   * What validation amounts to: few enough packages and marks, a small enough total, a sound
   * history and unambiguous interface names. The targets' own count never decides.
   */
  lemma ValidMeans(inv: Inventory)
    ensures Validate(inv).None? <==>
      && |inv.packages| <= MAX_OPTIONAL_PACKAGES && |inv.highestSeen| <= MAX_HISTORY
      && TotalBytes(Installed(inv)) <= MAX_SELECTED_DOWNLOAD_BYTES
      && HistoryOk(Installed(inv), inv.highestSeen, inv.rollbackTargets) && Unambiguous(inv.packages)
  {
    hide TotalBytes, SnapshotBuilds, Unambiguous, Validate;
    ValidIff(inv);
    SnapshotBuildsIff(inv.packages);
    if HistoryOk(Installed(inv), inv.highestSeen, inv.rollbackTargets) {
      assert inv.rollbackTargets.Keys <= inv.packages.Keys by {
        assert forall id :: id in inv.rollbackTargets ==> id in Installed(inv);
      }
      SubsetSize(inv.rollbackTargets.Keys, inv.packages.Keys);
    }
  }

  lemma {:induction false} SubsetSize<T>(a: set<T>, b: set<T>)
    requires a <= b
    ensures |a| <= |b|
    decreases a
  {
    if a != {} {
      var x :| x in a;
      SubsetSize(a - {x}, b - {x});
    }
  }
}
