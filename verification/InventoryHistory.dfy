/** Safety over whole runs of accepted inventories and restarts, however each candidate was built. */
module InventoryHistory {
  import opened Wrappers
  import opened PackageInventory
  import opened StateFormat
  import opened InventoryGuard

  /** Installed packages, marks and targets are as before; a restart may forget the source of the catalog. */
  ghost predicate SameHistory(a: Inventory, b: Inventory)
  {
    && Installed(a) == Installed(b) && a.highestSeen == b.highestSeen && a.rollbackTargets == b.rollbackTargets
    && ((b.repository == a.repository && b.catalog == a.catalog) || (b.repository.None? && b.catalog.None?))
  }

  /** A sequence of inventories from the empty one, each accepted as successor of the one before or restored from it. */
  ghost predicate Run(run: seq<Inventory>)
  {
    && |run| > 0 && run[0] == EMPTY
    && (forall i :: 0 <= i < |run| ==> Coherent(run[i]))
    && (forall i :: 0 <= i < |run| - 1 ==> Guard(run[i], run[i + 1]).None? || SameHistory(run[i], run[i + 1]))
  }

  function InstalledAt(inv: Inventory, id: PackId): Option<Receipt>
  {
    if id in inv.packages then Some(inv.packages[id].receipt) else None
  }

  ghost predicate HistorySound(inv: Inventory)
  {
    HistoryOk(Installed(inv), inv.highestSeen, inv.rollbackTargets)
  }

  ghost predicate Step(a: Inventory, b: Inventory)
  {
    SameHistory(a, b) || (HistoryStep(a, b) && CatalogStep(a, b) && HistorySound(b))
  }

  lemma SameInstalled(a: Inventory, b: Inventory, id: PackId)
    requires Installed(a) == Installed(b)
    ensures InstalledAt(a, id) == InstalledAt(b, id) && (id in a.packages <==> id in b.packages)
  {
    assert id in a.packages <==> id in Installed(a);
    assert id in b.packages <==> id in Installed(b);
    if id in a.packages { assert Installed(a)[id] == Installed(b)[id]; }
  }

  lemma StepAccepted(a: Inventory, b: Inventory)
    requires Coherent(a) && Coherent(b) && (Guard(a, b).None? || SameHistory(a, b))
    ensures Step(a, b)
  {
    hide Guard, HistoryStep, CatalogStep, Validate;
    if SameHistory(a, b) { return; }
    GuardAcceptsIff(a, b);
    if LegalChange(a, b) {
      ValidIff(b);
    }
  }

  lemma {:induction false} RunSound(run: seq<Inventory>, k: nat)
    requires Run(run) && k < |run|
    ensures HistorySound(run[k])
    ensures k > 0 ==> Step(run[k - 1], run[k])
  {
    hide Guard, HistoryStep;
    if k > 0 {
      RunSound(run, k - 1);
      StepAccepted(run[k - 1], run[k]);
    }
  }

  // ---------- one step ----------

  /** The high-water mark of `id` moves up or stays the same receipt. */
  ghost predicate MarkFollows(a: Inventory, b: Inventory, id: PackId)
  {
    id in a.highestSeen ==>
      && id in b.highestSeen && a.highestSeen[id].revision <= b.highestSeen[id].revision
      && (a.highestSeen[id].revision == b.highestSeen[id].revision ==> a.highestSeen[id] == b.highestSeen[id])
  }

  lemma StepMark(a: Inventory, b: Inventory, id: PackId)
    requires Step(a, b)
    ensures MarkFollows(a, b, id)
  {
    if SameHistory(a, b) {
      SameInstalled(a, b, id);
    } else {
      assert HighWaterStep(a, b, id);
    }
  }

  ghost predicate Rises(a: Inventory, b: Inventory, id: PackId)
  {
    id in a.packages && id in b.packages && a.packages[id].Revision() < b.packages[id].Revision()
  }

  ghost predicate Drops(a: Inventory, b: Inventory, id: PackId)
  {
    Rises(b, a, id)
  }

  /** A package that appears or rises in a step ends at its high-water mark. */
  lemma StepLandsOnMark(a: Inventory, b: Inventory, id: PackId)
    requires HistorySound(a) && Step(a, b)
    requires id in b.packages && (id !in a.packages || Rises(a, b, id))
    ensures id in b.highestSeen && b.highestSeen[id] == b.packages[id].receipt
  {
    if SameHistory(a, b) {
      SameInstalled(a, b, id);
    } else {
      assert TargetAt(b, id) == ImpliedTarget(a, b, id);
      assert AtHighWaterOrTarget(Installed(b)[id], id, b.highestSeen, b.rollbackTargets);
      if id in a.rollbackTargets { assert id in Installed(a); }
    }
  }

  /** The rollback target of a package that is above it is where this or an earlier step came from. */
  lemma StepTarget(a: Inventory, b: Inventory, id: PackId)
    requires HistorySound(a) && Step(a, b)
    requires RollbackTarget(b, id).Some?
    ensures id in a.packages
    ensures
      || (Rises(a, b, id) && InstalledAt(a, id) == RollbackTarget(b, id))
      || (InstalledAt(a, id) == InstalledAt(b, id) && RollbackTarget(a, id) == RollbackTarget(b, id))
  {
    if SameHistory(a, b) {
      SameInstalled(a, b, id);
    } else {
      assert TargetAt(b, id) == ImpliedTarget(a, b, id);
      assert PackageStep(a, b, id);
      if id in a.rollbackTargets { assert id in Installed(a); }
    }
  }

  lemma StepDrop(a: Inventory, b: Inventory, id: PackId)
    requires Step(a, b) && Drops(a, b, id)
    ensures RollbackTarget(a, id) == InstalledAt(b, id)
  {
    if SameHistory(a, b) {
      SameInstalled(a, b, id);
    } else {
      assert PackageStep(a, b, id);
    }
  }

  // ---------- whole runs ----------

  /** A high-water revision never drops and its receipt never changes at one revision. */
  lemma {:induction false} MarksNeverDrop(run: seq<Inventory>, i: nat, j: nat, id: PackId)
    requires Run(run) && i <= j < |run|
    ensures MarkFollows(run[i], run[j], id)
    decreases j
  {
    hide Run, Step;
    if i < j {
      MarksNeverDrop(run, i, j - 1, id);
      RunSound(run, j);
      StepMark(run[j - 1], run[j], id);
    }
  }

  /**
   * As long as the source of the catalog is not forgotten, the repository stays the same and its catalog is never
   * older: its revision never drops, and at one revision it is the same document.
   */
  lemma {:induction false} CatalogNeverOlder(run: seq<Inventory>, i: nat, j: nat)
    requires Run(run) && i <= j < |run|
    requires forall m :: i <= m <= j ==> run[m].catalog.Some? && run[m].repository.Some?
    ensures run[j].repository == run[i].repository
    ensures run[i].catalog.value.revision <= run[j].catalog.value.revision
    ensures run[i].catalog.value.revision == run[j].catalog.value.revision ==>
      run[i].catalog.value.documentSha256 == run[j].catalog.value.documentSha256
    decreases j
  {
    hide Run, HistoryStep;
    if i < j {
      CatalogNeverOlder(run, i, j - 1);
      RunSound(run, j);
    }
  }

  /** A newly installed, reinstalled or upgraded package sits exactly at its high-water mark. */
  lemma InstallsLandOnMark(run: seq<Inventory>, k: nat, id: PackId)
    requires Run(run) && k + 1 < |run|
    requires id in run[k + 1].packages && (id !in run[k].packages || Rises(run[k], run[k + 1], id))
    ensures id in run[k + 1].highestSeen && run[k + 1].highestSeen[id] == run[k + 1].packages[id].receipt
  {
    hide Run, Step, HistorySound;
    RunSound(run, k);
    RunSound(run, k + 1);
    StepLandsOnMark(run[k], run[k + 1], id);
  }

  /** From step `j` on, up to `k`, the receipt of `id` is the one its upgrade at `j` installed. */
  ghost predicate UpgradedAt(run: seq<Inventory>, j: nat, k: nat, id: PackId)
    requires j < k < |run|
  {
    && Rises(run[j], run[j + 1], id)
    && forall m :: j < m <= k ==> InstalledAt(run[m], id) == InstalledAt(run[k], id)
  }

  lemma {:induction false} TargetOrigin(run: seq<Inventory>, k: nat, id: PackId) returns (j: nat)
    requires Run(run) && k < |run| && RollbackTarget(run[k], id).Some?
    ensures j < k && UpgradedAt(run, j, k, id)
    ensures InstalledAt(run[j], id) == RollbackTarget(run[k], id)
    decreases k
  {
    hide Step, HistorySound, Guard;
    RunSound(run, k);
    assert k > 0;
    RunSound(run, k - 1);
    StepTarget(run[k - 1], run[k], id);
    if Rises(run[k - 1], run[k], id) && InstalledAt(run[k - 1], id) == RollbackTarget(run[k], id) {
      j := k - 1;
    } else {
      j := TargetOrigin(run, k - 1, id);
    }
  }

  /**
   * An installed revision drops only onto the receipt that was installed right before the upgrade
   * still in place: nothing about the package changed between that upgrade and the drop.
   */
  lemma DropUndoesTheLastUpgrade(run: seq<Inventory>, k: nat, id: PackId) returns (j: nat)
    requires Run(run) && k + 1 < |run| && Drops(run[k], run[k + 1], id)
    ensures j < k && UpgradedAt(run, j, k, id)
    ensures InstalledAt(run[k + 1], id) == InstalledAt(run[j], id)
  {
    hide Run, Step, HistorySound;
    RunSound(run, k + 1);
    StepDrop(run[k], run[k + 1], id);
    j := TargetOrigin(run, k, id);
  }

  /** A package never drops twice without a rise between. */
  lemma NoSecondDropWithoutRise(run: seq<Inventory>, i: nat, k: nat, id: PackId) returns (j: nat)
    requires Run(run) && i < k && k + 1 < |run|
    requires Drops(run[i], run[i + 1], id) && Drops(run[k], run[k + 1], id)
    ensures i < j < k && Rises(run[j], run[j + 1], id)
  {
    hide Run;
    j := DropUndoesTheLastUpgrade(run, k, id);
    var before, after := if j < i then i else k, if j <= i then i + 1 else k;
    assert InstalledAt(run[before], id) == InstalledAt(run[k], id) == InstalledAt(run[after], id);
  }
}
