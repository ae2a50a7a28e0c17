/** Staging against the guard: what every staged inventory satisfies and why the guard accepts it. */
module InventoryStaging {
  import opened Wrappers
  import opened Strings
  import opened PackageInventory
  import opened StateFormat
  import opened InventoryGuard

  /** The four ways to obtain the next inventory. */
  datatype Operation =
    | Import(packages: seq<Package>)
    | Install(plan: DownloadPlan, packages: seq<Package>, now: nat)
    | Remove(ids: set<PackId>)
    | Rollback(package: Package)

  function Stage(inv: Inventory, op: Operation): Result<Inventory, InventoryError>
  {
    match op
    case Import(ps) => StageImport(inv, ps)
    case Install(plan, ps, now) => StagePlan(inv, plan, ps, now)
    case Remove(ids) => StageRemove(inv, ids)
    case Rollback(p) => StageRollback(inv, p)
  }

  /** Package envelopes are authenticated and plans come from a verified catalog. */
  ghost predicate OperationOk(op: Operation)
  {
    match op
    case Import(ps) => forall i :: 0 <= i < |ps| ==> ReceiptOk(ps[i].receipt)
    case Install(plan, ps, _) =>
      && (forall i :: 0 <= i < |ps| ==> ReceiptOk(ps[i].receipt))
      && RepositoryOk(plan.repository) && CheckpointOk(plan.checkpoint)
    case Remove(_) => true
    case Rollback(p) => ReceiptOk(p.receipt)
  }

  /** What an operation produces before the generation is settled. */
  function Candidate(inv: Inventory, op: Operation): Inventory
    requires Stage(inv, op).Ok?
  {
    match op
    case Import(ps) => AddPackages(inv, ps).value
    case Install(plan, ps, _) =>
      AddPackages(inv, ps).value.(repository := Some(plan.repository), catalog := Some(plan.checkpoint))
    case Remove(ids) => inv.(packages := inv.packages - ids, rollbackTargets := inv.rollbackTargets - ids)
    case Rollback(p) => inv.(packages := inv.packages[p.Id() := p])
  }

  lemma StageFinishes(inv: Inventory, op: Operation)
    requires Stage(inv, op).Ok?
    ensures Stage(inv, op) == Finish(Candidate(inv, op), inv)
    ensures Candidate(inv, op).generation == inv.generation
  {
    match op
    case Import(ps) => AddAllChanges(inv, ps, {});
    case Install(_, ps, _) => AddAllChanges(inv, ps, {});
    case Remove(_) =>
    case Rollback(_) =>
  }

  // ---------- the history part of each operation ----------

  lemma HistoryOf(inv: Inventory)
    requires Validate(inv).None?
    ensures HistoryOk(Installed(inv), inv.highestSeen, inv.rollbackTargets)
  {
    ValidIff(inv);
  }

  /** At a listed id the new receipt is at or above the mark, hence legal whatever was installed. */
  lemma AddedStep(inv: Inventory, next: Inventory, p: Package)
    requires HistoryOk(Installed(inv), inv.highestSeen, inv.rollbackTargets)
    requires AddedAt(inv, next, p)
    ensures PackageStep(inv, next, p.Id()) && HighWaterStep(inv, next, p.Id())
    ensures TargetAt(next, p.Id()) == ImpliedTarget(inv, next, p.Id())
  {
    var id := p.Id();
    if id in inv.packages {
      assert id in Installed(inv);
      assert AtHighWaterOrTarget(Installed(inv)[id], id, inv.highestSeen, inv.rollbackTargets);
    }
  }

  lemma AddedHistory(inv: Inventory, next: Inventory, ps: seq<Package>)
    requires Validate(inv).None? && Added(inv, next, ps)
    ensures HistoryStep(inv, next)
  {
    HistoryOf(inv);
    forall id
      ensures PackageStep(inv, next, id) && HighWaterStep(inv, next, id)
      ensures TargetAt(next, id) == ImpliedTarget(inv, next, id)
    {
      if Listed(ps, id) {
        var i :| 0 <= i < |ps| && ps[i].Id() == id;
        AddedStep(inv, next, ps[i]);
      } else {
        assert UnchangedAt(inv, next, id);
      }
    }
  }

  lemma RemovedHistory(inv: Inventory, ids: set<PackId>)
    requires Validate(inv).None?
    ensures HistoryStep(inv, inv.(packages := inv.packages - ids, rollbackTargets := inv.rollbackTargets - ids))
  {
    hide Validate;
    HistoryOf(inv);
    var next := inv.(packages := inv.packages - ids, rollbackTargets := inv.rollbackTargets - ids);
    forall id
      ensures TargetAt(next, id) == ImpliedTarget(inv, next, id)
    {
      if id in inv.rollbackTargets { assert id in Installed(inv); }
    }
  }

  /** Removing packages leaves every condition of a valid inventory intact. */
  lemma RemovedValid(inv: Inventory, ids: set<PackId>)
    requires Validate(inv).None?
    ensures Validate(inv.(packages := inv.packages - ids, rollbackTargets := inv.rollbackTargets - ids)).None?
  {
    hide SnapshotBuilds, TotalBytes, HistoryOk, Validate;
    ValidIff(inv);
    var next := inv.(packages := inv.packages - ids, rollbackTargets := inv.rollbackTargets - ids);
    assert Installed(next) == Installed(inv) - ids;
    TotalBytesRemove(Installed(inv), ids);
    RemovedUnambiguous(inv.packages, ids);
    RemovedHistoryOk(inv, ids);
    ValidIff(next);
  }

  lemma RemovedUnambiguous(packages: map<PackId, Package>, ids: set<PackId>)
    requires SnapshotBuilds(packages)
    ensures SnapshotBuilds(packages - ids)
  {
    hide SnapshotBuilds, UiAdmissible, NoClash;
    SnapshotBuildsIff(packages);
    SnapshotBuildsIff(packages - ids);
  }

  lemma RemovedHistoryOk(inv: Inventory, ids: set<PackId>)
    requires HistoryOk(Installed(inv), inv.highestSeen, inv.rollbackTargets)
    ensures HistoryOk(Installed(inv) - ids, inv.highestSeen, inv.rollbackTargets - ids)
  {
    var installed := Installed(inv) - ids;
    forall id | id in installed
      ensures AtHighWaterOrTarget(installed[id], id, inv.highestSeen, inv.rollbackTargets - ids)
    {
      assert AtHighWaterOrTarget(Installed(inv)[id], id, inv.highestSeen, inv.rollbackTargets);
    }
  }

  // ---------- the guard accepts every staged inventory ----------

  lemma InstalledLegal(inv: Inventory, op: Operation)
    requires Validate(inv).None? && op.Install? && Stage(inv, op).Ok?
    ensures HistoryStep(inv, Candidate(inv, op)) && CatalogStep(inv, Candidate(inv, op))
    ensures Validate(Candidate(inv, op)).None?
  {
    hide Validate, HistoryStep, CheckPins;
    var added := AddPackages(inv, op.packages).value;
    AddAllChanges(inv, op.packages, {});
    AddedHistory(inv, added, op.packages);
    SameHistory(inv, added, Candidate(inv, op));
    SameValidity(added, Candidate(inv, op));
  }

  lemma RolledBackStep(inv: Inventory, op: Operation)
    requires Validate(inv).None? && op.Rollback? && Stage(inv, op).Ok?
    ensures HistoryStep(inv, Candidate(inv, op))
  {
    hide Validate;
  }

  lemma CandidateLegal(inv: Inventory, op: Operation)
    requires Validate(inv).None? && Stage(inv, op).Ok?
    ensures HistoryStep(inv, Candidate(inv, op)) && CatalogStep(inv, Candidate(inv, op))
    ensures Validate(Candidate(inv, op)).None?
  {
    hide Validate, HistoryStep;
    match op
    case Import(ps) =>
      AddAllChanges(inv, ps, {});
      AddedHistory(inv, Candidate(inv, op), ps);
    case Install(_, _, _) => InstalledLegal(inv, op);
    case Remove(ids) =>
      RemovedHistory(inv, ids);
      RemovedValid(inv, ids);
    case Rollback(_) => RolledBackStep(inv, op);
  }

  /** History is about packages, marks and targets only. */
  lemma SameHistory(inv: Inventory, a: Inventory, b: Inventory)
    requires HistoryStep(inv, a)
    requires a.packages == b.packages && a.highestSeen == b.highestSeen && a.rollbackTargets == b.rollbackTargets
    ensures HistoryStep(inv, b)
  {
    forall id
      ensures PackageStep(inv, b, id) && HighWaterStep(inv, b, id)
      ensures TargetAt(b, id) == ImpliedTarget(inv, b, id)
    {
      assert PackageStep(inv, a, id) && HighWaterStep(inv, a, id);
      assert TargetAt(a, id) == ImpliedTarget(inv, a, id);
    }
  }

  lemma SameValidity(a: Inventory, b: Inventory)
    requires a.packages == b.packages && a.highestSeen == b.highestSeen && a.rollbackTargets == b.rollbackTargets
    ensures Validate(a) == Validate(b)
  {
    hide TotalBytes, HistoryOk, SnapshotBuilds;
    assert Installed(a) == Installed(b);
  }

  lemma CandidateReceipts(inv: Inventory, op: Operation)
    requires Wf(inv) && OperationOk(op) && Stage(inv, op).Ok?
    ensures var next := Candidate(inv, op);
      ReceiptsOk(Installed(next)) && ReceiptsOk(next.highestSeen) && ReceiptsOk(next.rollbackTargets)
  {
    hide Validate, Added, ReceiptOk;
    var next := Candidate(inv, op);
    match op
    case Import(ps) =>
      AddAllChanges(inv, ps, {});
      AddedReceipts(inv, next, ps);
    case Install(_, ps, _) =>
      AddAllChanges(inv, ps, {});
      AddedReceipts(inv, AddPackages(inv, ps).value, ps);
    case Remove(ids) =>
    case Rollback(p) =>
  }

  lemma AddedReceipts(inv: Inventory, next: Inventory, ps: seq<Package>)
    requires ReceiptsOk(Installed(inv)) && ReceiptsOk(inv.highestSeen) && ReceiptsOk(inv.rollbackTargets)
    requires Added(inv, next, ps) && forall i :: 0 <= i < |ps| ==> ReceiptOk(ps[i].receipt)
    ensures ReceiptsOk(Installed(next)) && ReceiptsOk(next.highestSeen) && ReceiptsOk(next.rollbackTargets)
  {
    hide ReceiptOk;
    forall id
      ensures id in next.packages ==>
        next.packages[id].Id() == id && ReceiptOk(next.packages[id].receipt) && !IsBase(id)
      ensures id in next.highestSeen ==> next.highestSeen[id].id == id && ReceiptOk(next.highestSeen[id]) && !IsBase(id)
      ensures id in next.rollbackTargets ==>
        next.rollbackTargets[id].id == id && ReceiptOk(next.rollbackTargets[id]) && !IsBase(id)
    {
      if id in inv.packages {
        assert Installed(inv)[id] == inv.packages[id].receipt;
      }
      if Listed(ps, id) {
        var i :| 0 <= i < |ps| && ps[i].Id() == id;
        assert AddedAt(inv, next, ps[i]);
        assert id in next.rollbackTargets ==> TargetAt(next, id) == Some(next.rollbackTargets[id]);
      } else {
        assert UnchangedAt(inv, next, id);
        assert id in next.rollbackTargets ==> TargetAt(next, id) == Some(next.rollbackTargets[id]);
      }
    }
  }

  /** Every operation keeps the working invariant. */
  lemma StageKeepsWf(inv: Inventory, op: Operation)
    requires Wf(inv) && OperationOk(op) && Stage(inv, op).Ok?
    ensures Wf(Stage(inv, op).value)
  {
    hide Validate, ReceiptsOk, RepositoryOk, CheckpointOk;
    var mid, next := Candidate(inv, op), Stage(inv, op).value;
    StageFinishes(inv, op);
    CandidateLegal(inv, op);
    CandidateReceipts(inv, op);
    CandidateSource(inv, op);
    assert Installed(next) == Installed(mid);
    SameValidity(mid, next);
  }

  lemma CandidateSource(inv: Inventory, op: Operation)
    requires Wf(inv) && OperationOk(op) && Stage(inv, op).Ok?
    ensures var next := Candidate(inv, op);
      && (next.repository.Some? <==> next.catalog.Some?)
      && (next.repository.Some? ==> RepositoryOk(next.repository.value))
      && (next.catalog.Some? ==> CheckpointOk(next.catalog.value))
  {
    match op
    case Import(ps) => AddAllChanges(inv, ps, {});
    case Install(_, _, _) =>
    case Remove(_) =>
    case Rollback(_) =>
  }

  lemma FinishedStep(inv: Inventory, mid: Inventory, next: Inventory)
    requires Finish(mid, inv) == Ok(next) && mid.generation == inv.generation
    requires HistoryStep(inv, mid) && CatalogStep(inv, mid) && Validate(mid).None?
    ensures SameState(inv, next) || LegalChange(inv, next)
  {
    hide Validate, HistoryStep;
    SameHistory(inv, mid, next);
    SameValidity(mid, next);
  }

  lemma WfValid(inv: Inventory)
    requires Wf(inv)
    ensures Validate(inv).None?
  {
  }

  /** The guard accepts every staged inventory: the derived targets always equal the staged ones. */
  lemma GuardAcceptsStaged(inv: Inventory, op: Operation)
    requires Wf(inv) && OperationOk(op) && Stage(inv, op).Ok?
    ensures Guard(inv, Stage(inv, op).value).None?
  {
    hide *;
    var next := Stage(inv, op).value;
    WfValid(inv);
    StageKeepsWf(inv, op);
    WfFits(inv);
    WfFits(next);
    StageFinishes(inv, op);
    CandidateLegal(inv, op);
    FinishedStep(inv, Candidate(inv, op), next);
    GuardAcceptsIff(inv, next);
  }
}
