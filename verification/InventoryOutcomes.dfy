/**
 * What each way of staging an inventory comes to: when it succeeds and with what, and which refusal it meets
 * otherwise, in terms of the packages, marks and checkpoints themselves (src/package_inventory.rs).
 */
module InventoryOutcomes {
  import opened Wrappers
  import opened Strings
  import opened PackageInventory
  import opened InventoryGuard
  import opened InventoryStaging
  import opened PackageInstall

  // ---------- what every candidate settles to ----------

  ghost predicate TooMuch(mid: Inventory)
  {
    || |mid.packages| > 63 || |mid.highestSeen| > 1024
    || TotalBytes(Installed(mid)) > 536870912
  }

  /** A candidate that came from `inv`: refused for size, names or the last generation, else one generation on. */
  ghost predicate Settles(inv: Inventory, mid: Inventory, r: Result<Inventory, InventoryError>)
  {
    var same := Installed(mid) == Installed(inv) && mid.highestSeen == inv.highestSeen
      && mid.rollbackTargets == inv.rollbackTargets && mid.repository == inv.repository && mid.catalog == inv.catalog;
    && (TooMuch(mid) ==> r == Err(TooLarge))
    && (!TooMuch(mid) && !Unambiguous(mid.packages) ==> r == Err(OwnershipConflict))
    && (!TooMuch(mid) && Unambiguous(mid.packages) ==>
          r == if same then Ok(mid)
               else if inv.generation == MAX_U64 then Err(GenerationExhausted)
               else Ok(mid.(generation := inv.generation + 1)))
  }

  lemma ValidSettles(inv: Inventory, mid: Inventory)
    requires HistoryOk(Installed(mid), mid.highestSeen, mid.rollbackTargets)
    ensures Settles(inv, mid, match Validate(mid) case Some(e) => Err(e) case None => Finish(mid, inv))
  {
    hide TotalBytes, SnapshotBuilds, Unambiguous, HistoryOk;
    assert |mid.packages| == |mid.packages.Keys|;
    if |mid.packages| <= 63 { ValidateLate(mid); }
  }

  // ---------- imports ----------

  ghost predicate Earlier(ps: seq<Package>, i: nat, id: PackId)
  {
    exists j :: 0 <= j < i < |ps| && ps[j].Id() == id
  }

  /** What is wrong with the package at `i`, judged by the marks as they were before the import. */
  ghost predicate BadFor(marks: map<PackId, Receipt>, ps: seq<Package>, i: nat, e: InventoryError)
  {
    i < |ps| &&
    var r := ps[i].receipt;
    if r.id == "en-us" then e == ProtectedBase
    else if Earlier(ps, i, r.id) then e == DuplicatePackage
    else
      && r.id in marks
      && ((r.revision < marks[r.id].revision && e == InventoryError.Rollback)
          || (r.revision == marks[r.id].revision && r != marks[r.id] && e == RevisionConflict))
  }

  ghost predicate Good(marks: map<PackId, Receipt>, ps: seq<Package>, i: nat)
  {
    forall e :: !BadFor(marks, ps, i, e)
  }

  /** The first package with something wrong, and what it is. */
  ghost predicate FirstBad(marks: map<PackId, Receipt>, ps: seq<Package>, i: nat, e: InventoryError)
  {
    BadFor(marks, ps, i, e) && forall j: nat :: j < i ==> Good(marks, ps, j)
  }

  function IdsBefore(ps: seq<Package>, i: nat): set<PackId>
    requires i <= |ps|
  {
    set j | 0 <= j < i :: ps[j].Id()
  }

  lemma AddOneIs(marks: map<PackId, Receipt>, cur: Inventory, ps: seq<Package>, i: nat)
    requires i < |ps| && forall id :: id !in IdsBefore(ps, i) ==>
      (id in cur.highestSeen <==> id in marks) && (id in marks ==> cur.highestSeen[id] == marks[id])
    ensures var r := AddOne(cur, ps[i], IdsBefore(ps, i));
      && (forall e :: BadFor(marks, ps, i, e) ==> r == Err(e))
      && (Good(marks, ps, i) ==> r.Ok?)
  {
    var id := ps[i].Id();
    assert Earlier(ps, i, id) <==> id in IdsBefore(ps, i);
    var r := AddOne(cur, ps[i], IdsBefore(ps, i));
    if r.Err? { assert BadFor(marks, ps, i, r.error); }
  }

  lemma {:induction false} AddFrom(marks: map<PackId, Receipt>, cur: Inventory, ps: seq<Package>, i: nat)
    requires i <= |ps| && forall id :: id !in IdsBefore(ps, i) ==>
      (id in cur.highestSeen <==> id in marks) && (id in marks ==> cur.highestSeen[id] == marks[id])
    requires forall j: nat :: j < i ==> Good(marks, ps, j)
    ensures var r := AddAll(cur, ps[i..], IdsBefore(ps, i));
      && (forall k: nat, e :: FirstBad(marks, ps, k, e) ==> r == Err(e))
      && ((forall j: nat :: j < |ps| ==> Good(marks, ps, j)) ==> r.Ok?)
    decreases |ps| - i
  {
    hide BadFor, AddOne, Good;
    if i < |ps| {
      AddOneIs(marks, cur, ps, i);
      assert ps[i..][0] == ps[i] && ps[i..][1..] == ps[i + 1..];
      assert IdsBefore(ps, i + 1) == IdsBefore(ps, i) + {ps[i].Id()};
      BadOrGood(marks, ps, i);
      if Good(marks, ps, i) {
        var next := AddOne(cur, ps[i], IdsBefore(ps, i)).value;
        AddOneMarks(cur, ps[i], IdsBefore(ps, i));
        AddFrom(marks, next, ps, i + 1);
      } else {
        FirstBadIsHere(marks, ps, i);
      }
    } else {
      NoneBeyond(marks, ps);
    }
  }

  lemma AddOneMarks(cur: Inventory, p: Package, seen: set<PackId>)
    requires AddOne(cur, p, seen).Ok?
    ensures AddOne(cur, p, seen).value.highestSeen == cur.highestSeen[p.Id() := p.receipt]
  {
  }

  lemma BadOrGood(marks: map<PackId, Receipt>, ps: seq<Package>, i: nat)
    ensures Good(marks, ps, i) <==> forall e :: !BadFor(marks, ps, i, e)
  {
  }

  lemma GoodOrBad(marks: map<PackId, Receipt>, ps: seq<Package>, i: nat, e: InventoryError)
    ensures !(Good(marks, ps, i) && BadFor(marks, ps, i, e))
  {
  }

  lemma WithinRange(marks: map<PackId, Receipt>, ps: seq<Package>, i: nat, e: InventoryError)
    ensures BadFor(marks, ps, i, e) ==> i < |ps|
  {
  }

  lemma FirstBadIsHere(marks: map<PackId, Receipt>, ps: seq<Package>, i: nat)
    requires !Good(marks, ps, i) && forall j: nat :: j < i ==> Good(marks, ps, j)
    ensures forall k: nat, e :: FirstBad(marks, ps, k, e) ==> k == i
  {
    hide BadFor;
    forall k: nat, e | FirstBad(marks, ps, k, e)
      ensures k == i
    {
      GoodOrBad(marks, ps, k, e);
    }
  }

  lemma NoneBeyond(marks: map<PackId, Receipt>, ps: seq<Package>)
    requires forall j: nat :: j < |ps| ==> Good(marks, ps, j)
    ensures forall k: nat, e :: !FirstBad(marks, ps, k, e)
  {
    hide BadFor;
    forall k: nat, e
      ensures !FirstBad(marks, ps, k, e)
    {
      GoodOrBad(marks, ps, k, e);
      WithinRange(marks, ps, k, e);
    }
  }

  /** Adding packages: refused exactly for the first bad one, and otherwise exactly they are added. */
  lemma AddingOutcome(inv: Inventory, ps: seq<Package>)
    ensures forall k: nat, e :: FirstBad(inv.highestSeen, ps, k, e) ==> AddAll(inv, ps, {}) == Err(e)
    ensures (forall j: nat :: j < |ps| ==> Good(inv.highestSeen, ps, j)) ==>
      AddAll(inv, ps, {}).Ok? && Added(inv, AddAll(inv, ps, {}).value, ps)
  {
    hide Good, FirstBad, Added;
    assert IdsBefore(ps, 0) == {} && ps[0..] == ps;
    AddFrom(inv.highestSeen, inv, ps, 0);
    if AddAll(inv, ps, {}).Ok? { AddAllChanges(inv, ps, {}); }
  }

  /** An import of authenticated packages. */
  lemma ImportOutcome(inv: Inventory, ps: seq<Package>)
    requires Wf(inv) && forall i :: 0 <= i < |ps| ==> ReceiptOk(ps[i].receipt)
    ensures |ps| > 63 ==> StageImport(inv, ps) == Err(TooLarge)
    ensures |ps| <= 63 ==> forall k: nat, e :: FirstBad(inv.highestSeen, ps, k, e) ==> StageImport(inv, ps) == Err(e)
    ensures |ps| <= 63 && (forall j: nat :: j < |ps| ==> Good(inv.highestSeen, ps, j)) ==>
      && AddAll(inv, ps, {}).Ok? && Added(inv, AddAll(inv, ps, {}).value, ps)
      && Settles(inv, AddAll(inv, ps, {}).value, StageImport(inv, ps))
  {
    hide Good, FirstBad, Added, Validate, Finish, Settles, Wf, AddAll, ReceiptOk;
    AddingOutcome(inv, ps);
    if |ps| <= 63 && forall j: nat :: j < |ps| ==> Good(inv.highestSeen, ps, j) {
      AddedKeepsHistory(inv, AddAll(inv, ps, {}).value, ps);
      ValidSettles(inv, AddAll(inv, ps, {}).value);
    }
  }

  // ---------- rollback and removal ----------

  /** The package is what was installed before the upgrade that is in place. */
  ghost predicate IsPredecessor(inv: Inventory, p: Package)
  {
    var id := p.receipt.id;
    && id in inv.packages && id in inv.rollbackTargets
    && inv.rollbackTargets[id].revision < inv.packages[id].receipt.revision && inv.rollbackTargets[id] == p.receipt
  }

  lemma RolledBackHistory(inv: Inventory, p: Package)
    requires Wf(inv) && IsPredecessor(inv, p)
    ensures var mid := inv.(packages := inv.packages[p.Id() := p]);
      HistoryOk(Installed(mid), mid.highestSeen, mid.rollbackTargets)
  {
    hide ReceiptOk, Validate;
    HistoryOf(inv);
    var mid := inv.(packages := inv.packages[p.Id() := p]);
    forall id | id in mid.packages
      ensures AtHighWaterOrTarget(Installed(mid)[id], id, mid.highestSeen, mid.rollbackTargets)
    {
      if id in inv.packages { assert id in Installed(inv); }
    }
  }

  /** A rollback succeeds exactly with the package from before the upgrade in place, and only that package changes. */
  lemma RollbackOutcome(inv: Inventory, p: Package)
    requires Wf(inv)
    ensures p.receipt.id == "en-us" ==> StageRollback(inv, p) == Err(ProtectedBase)
    ensures p.receipt.id != "en-us" && !IsPredecessor(inv, p) ==> StageRollback(inv, p) == Err(InventoryError.Rollback)
    ensures p.receipt.id != "en-us" && IsPredecessor(inv, p) ==>
      Settles(inv, inv.(packages := inv.packages[p.receipt.id := p]), StageRollback(inv, p))
  {
    hide Validate, Finish, Settles, Wf;
    if p.receipt.id != "en-us" && IsPredecessor(inv, p) {
      RolledBackHistory(inv, p);
      ValidSettles(inv, inv.(packages := inv.packages[p.receipt.id := p]));
    }
  }

  /** A removal takes exactly the packages and their rollback targets; marks, catalog and the others stay. */
  lemma RemovalOutcome(inv: Inventory, ids: set<PackId>)
    requires Wf(inv)
    ensures |ids| > 64 ==> StageRemove(inv, ids) == Err(TooLarge)
    ensures |ids| <= 64 && "en-us" in ids ==> StageRemove(inv, ids) == Err(ProtectedBase)
    ensures |ids| <= 64 && "en-us" !in ids ==>
      var mid := inv.(packages := inv.packages - ids, rollbackTargets := inv.rollbackTargets - ids);
      !TooMuch(mid) && Unambiguous(mid.packages) && Settles(inv, mid, StageRemove(inv, ids))
  {
    hide Validate, Finish, Wf, Unambiguous, TotalBytes;
    WfValid(inv);
    RemovedValid(inv, ids);
    var mid := inv.(packages := inv.packages - ids, rollbackTargets := inv.rollbackTargets - ids);
    ValidMeans(mid);
    ValidSettles(inv, mid);
  }

  // ---------- plans ----------

  /** `now` lies in the window: from its beginning on, and before its end. */
  ghost predicate InWindow(issuedAt: nat, expiresAt: nat, now: nat)
  {
    issuedAt <= now && now < expiresAt
  }

  /** The package is the pinned one, byte for byte, for this runtime, and its pin is current. */
  ghost predicate IsPinned(pin: PinnedPackage, p: Package, now: nat)
  {
    && InWindow(pin.issuedAt, pin.expiresAt, now) && (pin.runtimeApi == 1 || pin.runtimeApi == 2)
    && p.receipt == pin.receipt && p.runtimeApi == pin.runtimeApi && p.input == pin.input && p.uiLocale == pin.uiLocale
  }

  lemma CheckPackageIs(pin: PinnedPackage, p: Package, now: nat)
    ensures CheckPackage(pin, p, now).None? <==> IsPinned(pin, p, now)
    ensures !InWindow(pin.issuedAt, pin.expiresAt, now) ==> CheckPackage(pin, p, now) == Some(NotCurrent)
    ensures InWindow(pin.issuedAt, pin.expiresAt, now) && pin.runtimeApi !in {1, 2} ==>
      CheckPackage(pin, p, now) == Some(Incompatible)
    ensures InWindow(pin.issuedAt, pin.expiresAt, now) && pin.runtimeApi in {1, 2} && !IsPinned(pin, p, now) ==>
      CheckPackage(pin, p, now) == Some(ArtifactMismatch)
  {
  }

  /** The first package with this identifier. */
  ghost predicate FirstWith(ps: seq<Package>, id: PackId, k: nat)
  {
    k < |ps| && ps[k].receipt.id == id && forall j :: 0 <= j < k ==> ps[j].receipt.id != id
  }

  lemma {:induction false} FindIs(ps: seq<Package>, id: PackId, k: nat)
    requires FirstWith(ps, id, k)
    ensures Find(ps, id) == Some(ps[k])
    decreases |ps|
  {
    if k > 0 {
      assert FirstWith(ps[1..], id, k - 1);
      FindIs(ps[1..], id, k - 1);
    }
  }

  lemma {:induction false} FindsFirst(ps: seq<Package>, id: PackId)
    ensures Find(ps, id).Some? ==> exists k: nat :: FirstWith(ps, id, k) && Find(ps, id) == Some(ps[k])
  {
    if |ps| > 0 {
      if ps[0].Id() == id {
        assert FirstWith(ps, id, 0);
      } else {
        FindsFirst(ps[1..], id);
        if Find(ps, id).Some? {
          var k: nat :| FirstWith(ps[1..], id, k) && Find(ps, id) == Some(ps[1..][k]);
          assert FirstWith(ps, id, k + 1);
        }
      }
    }
  }

  /** A pin meets its package: the first one with its identifier. */
  ghost predicate Meets(pin: PinnedPackage, ps: seq<Package>, now: nat)
  {
    exists k: nat :: FirstWith(ps, pin.receipt.id, k) && IsPinned(pin, ps[k], now)
  }

  /** What is wrong with a pin that does not meet its package. */
  ghost predicate PinRefused(pin: PinnedPackage, ps: seq<Package>, now: nat, e: InventoryError)
  {
    || ((forall k :: 0 <= k < |ps| ==> ps[k].receipt.id != pin.receipt.id) && e == InvalidState)
    || (exists k: nat :: FirstWith(ps, pin.receipt.id, k) && PackageRefused(pin, ps[k], now, e))
  }

  ghost predicate PackageRefused(pin: PinnedPackage, p: Package, now: nat, e: InventoryError)
  {
    && !IsPinned(pin, p, now)
    && e == Plan(if !InWindow(pin.issuedAt, pin.expiresAt, now) then NotCurrent
                 else if pin.runtimeApi !in {1, 2} then Incompatible else ArtifactMismatch)
  }

  lemma PinCheckIs(pin: PinnedPackage, ps: seq<Package>, now: nat)
    ensures CheckPins([pin], ps, now).None? <==> Meets(pin, ps, now)
    ensures forall e :: PinRefused(pin, ps, now, e) ==> CheckPins([pin], ps, now) == Some(e)
    ensures !Meets(pin, ps, now) ==> exists e :: PinRefused(pin, ps, now, e)
  {
    hide CheckPackage, IsPinned;
    FindsFirst(ps, pin.receipt.id);
    var none: seq<PinnedPackage> := [];
    assert [pin][1..] == none && CheckPins(none, ps, now).None?;
    match Find(ps, pin.receipt.id)
    case None =>
      assert PinRefused(pin, ps, now, InvalidState);
    case Some(p) =>
      var k: nat :| FirstWith(ps, pin.receipt.id, k) && p == ps[k];
      CheckPackageIs(pin, p, now);
      forall j: nat | FirstWith(ps, pin.receipt.id, j)
        ensures ps[j] == p
      {
        FindIs(ps, pin.receipt.id, j);
      }
      if !IsPinned(pin, p, now) {
        assert PinRefused(pin, ps, now, Plan(CheckPackage(pin, p, now).value));
      }
  }

  /** The first pin that does not meet its package, and why. */
  ghost predicate FirstUnmet(pins: seq<PinnedPackage>, ps: seq<Package>, now: nat, i: nat, e: InventoryError)
  {
    && i < |pins| && PinRefused(pins[i], ps, now, e) && !Meets(pins[i], ps, now)
    && forall j :: 0 <= j < i ==> Meets(pins[j], ps, now)
  }

  lemma {:induction false} PinsOutcome(pins: seq<PinnedPackage>, ps: seq<Package>, now: nat)
    ensures forall i: nat, e :: FirstUnmet(pins, ps, now, i, e) ==> CheckPins(pins, ps, now) == Some(e)
    ensures CheckPins(pins, ps, now).None? <==> forall i :: 0 <= i < |pins| ==> Meets(pins[i], ps, now)
  {
    hide Meets, PinRefused, Find, CheckPackage;
    if pins != [] {
      var rest := pins[1..];
      PinCheckIs(pins[0], ps, now);
      PinsOutcome(rest, ps, now);
      FirstPin(pins, ps, now);
      forall i: nat, e | FirstUnmet(pins, ps, now, i, e)
        ensures CheckPins(pins, ps, now) == Some(e)
      {
        if i > 0 { assert FirstUnmet(rest, ps, now, i - 1, e); }
      }
      assert forall i :: 0 <= i < |rest| ==> rest[i] == pins[i + 1];
    }
  }

  lemma FirstPin(pins: seq<PinnedPackage>, ps: seq<Package>, now: nat)
    requires pins != []
    ensures CheckPins([pins[0]], ps, now).Some? ==> CheckPins(pins, ps, now) == CheckPins([pins[0]], ps, now)
    ensures CheckPins([pins[0]], ps, now).None? ==> CheckPins(pins, ps, now) == CheckPins(pins[1..], ps, now)
  {
    hide Find, CheckPackage;
    var none: seq<PinnedPackage> := [];
    assert [pins[0]][1..] == none && CheckPins(none, ps, now).None?;
  }

  /** What comes before the packages: the plan is current, of the right count and source, and not an older catalog. */
  lemma PlanHeadOutcome(inv: Inventory, plan: DownloadPlan, ps: seq<Package>, now: nat)
    ensures var r := StagePlan(inv, plan, ps, now);
      && (!InWindow(plan.issuedAt, plan.expiresAt, now) ==> r == Err(Plan(NotCurrent)))
      && (InWindow(plan.issuedAt, plan.expiresAt, now) ==>
            && (|ps| != |plan.packages| ==> r == Err(InvalidState))
            && (|ps| == |plan.packages| ==>
                  if inv.repository.Some? && plan.repository != inv.repository.value
                  then r == Err(Plan(WrongRepository))
                  else if inv.catalog.Some? && plan.checkpoint.revision < inv.catalog.value.revision
                  then r == Err(Plan(PlanRollback))
                  else if inv.catalog.Some? && plan.checkpoint.revision == inv.catalog.value.revision
                          && plan.checkpoint.documentSha256 != inv.catalog.value.documentSha256
                  then r == Err(Plan(PlanRevisionConflict))
                  else PlanRefusal(inv, plan, ps, now) == CheckPins(plan.packages, ps, now)))
  {
    hide CheckPins, AddPackages, Finish;
  }

  /** A plan whose head is in order. */
  ghost predicate HeadInOrder(inv: Inventory, plan: DownloadPlan, ps: seq<Package>, now: nat)
  {
    && InWindow(plan.issuedAt, plan.expiresAt, now) && |ps| == |plan.packages|
    && (inv.repository.Some? ==> plan.repository == inv.repository.value)
    && (inv.catalog.Some? ==> MayFollow(inv.catalog.value, plan.checkpoint))
  }

  /** Of a plan in order otherwise, the checkpoint decides by its revision, and by its digest at the same one. */
  lemma PlanCheckpointOutcome(inv: Inventory, plan: DownloadPlan, ps: seq<Package>, now: nat)
    requires InWindow(plan.issuedAt, plan.expiresAt, now) && |ps| == |plan.packages|
    requires inv.repository.Some? ==> plan.repository == inv.repository.value
    ensures var r := StagePlan(inv, plan, ps, now);
      && (r == Err(Plan(PlanRollback)) <==>
            inv.catalog.Some? && plan.checkpoint.revision < inv.catalog.value.revision)
      && (r == Err(Plan(PlanRevisionConflict)) <==>
            inv.catalog.Some? && plan.checkpoint.revision == inv.catalog.value.revision
            && plan.checkpoint.documentSha256 != inv.catalog.value.documentSha256)
  {
    hide Finish, Validate, AddAll, PlanRefusal, CheckPins, StagePlan, AddPackages, MayFollow;
    PlanHeadOutcome(inv, plan, ps, now);
    PlanAfterHead(inv, plan, ps, now);
    PinsNeverRefuseRevisions(plan.packages, ps, now);
    AddingNeverRefusesPlans(inv, ps);
    FinishNeverRefusesPlans(inv);
  }

  lemma PlanAfterHead(inv: Inventory, plan: DownloadPlan, ps: seq<Package>, now: nat)
    ensures PlanRefusal(inv, plan, ps, now).Some? ==>
      StagePlan(inv, plan, ps, now) == Err(PlanRefusal(inv, plan, ps, now).value)
    ensures PlanRefusal(inv, plan, ps, now).None? && AddPackages(inv, ps).Err? ==>
      StagePlan(inv, plan, ps, now) == Err(AddPackages(inv, ps).error)
    ensures PlanRefusal(inv, plan, ps, now).None? && AddPackages(inv, ps).Ok? ==>
      StagePlan(inv, plan, ps, now)
      == Finish(AddPackages(inv, ps).value.(repository := Some(plan.repository), catalog := Some(plan.checkpoint)), inv)
  {
    hide PlanRefusal, AddPackages, Finish;
  }

  lemma {:induction false} PinsNeverRefuseRevisions(pins: seq<PinnedPackage>, ps: seq<Package>, now: nat)
    ensures CheckPins(pins, ps, now) !in {Some(Plan(PlanRollback)), Some(Plan(PlanRevisionConflict))}
  {
    hide Find;
    if pins != [] { PinsNeverRefuseRevisions(pins[1..], ps, now); }
  }

  lemma {:induction false} AddAllNeverRefusesPlans(inv: Inventory, ps: seq<Package>, seen: set<PackId>)
    ensures AddAll(inv, ps, seen).Err? ==> !AddAll(inv, ps, seen).error.Plan?
    decreases |ps|
  {
    if |ps| > 0 && AddOne(inv, ps[0], seen).Ok? {
      AddAllNeverRefusesPlans(AddOne(inv, ps[0], seen).value, ps[1..], seen + {ps[0].Id()});
    }
  }

  lemma AddingNeverRefusesPlans(inv: Inventory, ps: seq<Package>)
    ensures AddPackages(inv, ps).Err? ==> !AddPackages(inv, ps).error.Plan?
  {
    hide AddAll, TotalBytes, SnapshotBuilds, HistoryOk;
    AddAllNeverRefusesPlans(inv, ps, {});
  }

  lemma FinishNeverRefusesPlans(inv: Inventory)
    ensures forall next :: Finish(next, inv).Err? ==> !Finish(next, inv).error.Plan?
  {
  }

  /** What a plan comes to once its head is in order. */
  lemma PlanOutcome(inv: Inventory, plan: DownloadPlan, ps: seq<Package>, now: nat)
    requires Wf(inv) && (forall i :: 0 <= i < |ps| ==> ReceiptOk(ps[i].receipt)) && HeadInOrder(inv, plan, ps, now)
    ensures forall i: nat, e :: FirstUnmet(plan.packages, ps, now, i, e) ==> StagePlan(inv, plan, ps, now) == Err(e)
    ensures (forall i :: 0 <= i < |plan.packages| ==> Meets(plan.packages[i], ps, now)) ==>
      var r := StagePlan(inv, plan, ps, now);
      && (|ps| > 63 ==> r == Err(TooLarge))
      && (|ps| <= 63 ==> forall k: nat, e :: FirstBad(inv.highestSeen, ps, k, e) ==> r == Err(e))
      && (|ps| <= 63 && (forall j: nat :: j < |ps| ==> Good(inv.highestSeen, ps, j)) ==>
            && AddAll(inv, ps, {}).Ok? && Added(inv, AddAll(inv, ps, {}).value, ps)
            && Settles(inv, AddAll(inv, ps, {}).value.(repository := Some(plan.repository),
                                                       catalog := Some(plan.checkpoint)), r))
  {
    hide Good, FirstBad, Added, Validate, Finish, Settles, Wf, AddAll, ReceiptOk, FirstUnmet, Meets, CheckPins,
      PlanRefusal, StagePlan;
    PlanHeadOutcome(inv, plan, ps, now);
    PlanAfterHead(inv, plan, ps, now);
    PinsOutcome(plan.packages, ps, now);
    AddingOutcome(inv, ps);
    if |ps| <= 63 && forall j: nat :: j < |ps| ==> Good(inv.highestSeen, ps, j) {
      var mid := AddAll(inv, ps, {}).value;
      AddedKeepsHistory(inv, mid, ps);
      SourceSettles(inv, mid, plan);
    }
  }

  lemma SourceSettles(inv: Inventory, mid: Inventory, plan: DownloadPlan)
    requires HistoryOk(Installed(mid), mid.highestSeen, mid.rollbackTargets)
    ensures var next := mid.(repository := Some(plan.repository), catalog := Some(plan.checkpoint));
      Settles(inv, next, match Validate(mid) case Some(e) => Err(e) case None => Finish(next, inv))
  {
    hide TotalBytes, HistoryOk, SnapshotBuilds, Unambiguous, Finish, Settles;
    var next := mid.(repository := Some(plan.repository), catalog := Some(plan.checkpoint));
    ValidSettles(inv, next);
    assert Validate(next) == Validate(mid);
  }
}
