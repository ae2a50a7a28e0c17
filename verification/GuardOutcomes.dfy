/**
 * What the guard on committed inventories refuses, and as what: the rules it applies one after the other, in
 * terms of the packages, targets, marks and checkpoints themselves (src/package_inventory.rs).
 */
module GuardOutcomes {
  import opened Wrappers
  import opened Strings
  import opened PackageInventory
  import opened StateFormat
  import opened InventoryGuard

  // ---------- the conditions of one inventory ----------

  ghost predicate Oversized(inv: Inventory)
  {
    || |inv.packages| > 63 || |inv.highestSeen| > 1024 || |inv.rollbackTargets| > 63
    || TotalBytes(Installed(inv)) > 536870912
  }

  /** Each package is at its mark or at the target recorded below it, and each target belongs to a package. */
  ghost predicate SoundHistory(inv: Inventory)
  {
    && (forall id :: id in inv.packages ==>
          && id in inv.highestSeen
          && (inv.packages[id].receipt == inv.highestSeen[id] || TargetAt(inv, id) == Some(inv.packages[id].receipt)))
    && (forall id :: id in inv.rollbackTargets ==>
          && inv.rollbackTargets[id].id == id && id in inv.packages && id in inv.highestSeen
          && inv.rollbackTargets[id].revision < inv.highestSeen[id].revision)
  }

  lemma HistoryOkIff(inv: Inventory)
    ensures HistoryOk(Installed(inv), inv.highestSeen, inv.rollbackTargets) <==> SoundHistory(inv)
  {
    if SoundHistory(inv) {
      forall id | id in Installed(inv)
        ensures AtHighWaterOrTarget(Installed(inv)[id], id, inv.highestSeen, inv.rollbackTargets)
      {
        assert id in inv.packages;
      }
    } else if HistoryOk(Installed(inv), inv.highestSeen, inv.rollbackTargets) {
      forall id | id in inv.packages
        ensures id in inv.highestSeen
        ensures inv.packages[id].receipt == inv.highestSeen[id] || TargetAt(inv, id) == Some(inv.packages[id].receipt)
      {
        assert id in Installed(inv);
      }
    }
  }

  /** Size comes first, then the history, then the interface names. */
  ghost predicate Validity(inv: Inventory, e: Option<InventoryError>)
  {
    && (Oversized(inv) ==> e == Some(TooLarge))
    && (!Oversized(inv) && !SoundHistory(inv) ==> e == Some(InvalidState))
    && (!Oversized(inv) && SoundHistory(inv) && !Unambiguous(inv.packages) ==> e == Some(OwnershipConflict))
    && (!Oversized(inv) && SoundHistory(inv) && Unambiguous(inv.packages) ==> e.None?)
  }

  lemma ValidityIs(inv: Inventory)
    ensures Validity(inv, Validate(inv))
  {
    hide SoundHistory, HistoryOk, Unambiguous, SnapshotBuilds, TotalBytes;
    HistoryOkIff(inv);
    SnapshotBuildsIff(inv.packages);
  }

  // ---------- moves of packages and marks against the rules ----------

  /** The package drops onto something else than its target, or changes at one revision. */
  ghost predicate BadMove(a: Inventory, b: Inventory, id: PackId, e: InventoryError)
  {
    id in a.packages && id in b.packages &&
    var prior, later := a.packages[id].receipt, b.packages[id].receipt;
    || (later.revision < prior.revision && TargetAt(a, id) != Some(later) && e == InventoryError.Rollback)
    || (later.revision == prior.revision && later != prior && e == RevisionConflict)
  }

  ghost predicate FirstBadMove(a: Inventory, b: Inventory, id: PackId, e: InventoryError)
  {
    BadMove(a, b, id, e) && forall k :: Below(k, id) ==> PackageStep(a, b, k)
  }

  /** The mark is lost or lowered, or changes at one revision. */
  ghost predicate BadMark(a: Inventory, b: Inventory, id: PackId, e: InventoryError)
  {
    && id in a.highestSeen
    && (id in b.highestSeen ==> b.highestSeen[id].revision <= a.highestSeen[id].revision)
    && (id in b.highestSeen && b.highestSeen[id].revision == a.highestSeen[id].revision ==>
          b.highestSeen[id] != a.highestSeen[id])
    && e == if id !in b.highestSeen || b.highestSeen[id].revision < a.highestSeen[id].revision
            then InventoryError.Rollback else RevisionConflict
  }

  ghost predicate FirstBadMark(a: Inventory, b: Inventory, id: PackId, e: InventoryError)
  {
    BadMark(a, b, id, e) && forall k :: Below(k, id) ==> HighWaterStep(a, b, k)
  }

  lemma {:induction false} DeriveRefuses(a: Inventory, b: Inventory, ids: seq<PackId>,
      targets: map<PackId, Receipt>, id: PackId, e: InventoryError)
    requires Ascending(ids) && id in ids && forall k :: k in ids ==> k in a.packages
    requires FirstBadMove(a, b, id, e)
    ensures Derive(a, b, ids, targets) == Err(e)
    decreases |ids|
  {
    if ids[0] != id {
      var i :| 0 <= i < |ids| && ids[i] == id;
      assert Below(ids[0], ids[i]) && PackageStep(a, b, ids[0]);
      assert id in ids[1..] by { assert ids[1..][i - 1] == id; }
      DeriveRefuses(a, b, ids[1..], DeriveOne(a, b, ids[0], targets).value, id, e);
    }
  }

  lemma {:induction false} MarksRefuse(a: Inventory, b: Inventory, ids: seq<PackId>, id: PackId, e: InventoryError)
    requires Ascending(ids) && id in ids && forall k :: k in ids ==> k in a.highestSeen
    requires FirstBadMark(a, b, id, e)
    ensures CheckHighWater(a.highestSeen, b.highestSeen, ids) == Some(e)
    decreases |ids|
  {
    if ids[0] != id {
      var i :| 0 <= i < |ids| && ids[i] == id;
      assert Below(ids[0], ids[i]) && HighWaterStep(a, b, ids[0]);
      assert id in ids[1..] by { assert ids[1..][i - 1] == id; }
      MarksRefuse(a, b, ids[1..], id, e);
    }
  }

  // ---------- the rules in their order ----------

  ghost predicate LegalMoves(a: Inventory, b: Inventory)
  {
    forall id :: PackageStep(a, b, id)
  }

  ghost predicate LegalTargets(a: Inventory, b: Inventory)
  {
    forall id :: TargetAt(b, id) == ImpliedTarget(a, b, id)
  }

  ghost predicate LegalMarks(a: Inventory, b: Inventory)
  {
    forall id :: HighWaterStep(a, b, id)
  }

  lemma HistoryRefusals(a: Inventory, b: Inventory)
    ensures forall id, e :: FirstBadMove(a, b, id, e) ==> GuardHistory(a, b) == Some(e)
    ensures LegalMoves(a, b) && !LegalTargets(a, b) ==> GuardHistory(a, b) == Some(InvalidState)
    ensures LegalMoves(a, b) && LegalTargets(a, b) ==>
      forall id, e :: FirstBadMark(a, b, id, e) ==> GuardHistory(a, b) == Some(e)
    ensures LegalMoves(a, b) && LegalTargets(a, b) && LegalMarks(a, b) ==> GuardHistory(a, b).None?
  {
    hide PackageStep, HighWaterStep, ImpliedTarget, Derive, CheckHighWater;
    var ids, marks := SortedKeys(a.packages.Keys), SortedKeys(a.highestSeen.Keys);
    DeriveMatches(a, b);
    DeriveOkIff(a, b, ids, a.rollbackTargets);
    MarksAcceptIff(a, b);
    forall id, e | FirstBadMove(a, b, id, e)
      ensures GuardHistory(a, b) == Some(e)
    {
      DeriveRefuses(a, b, ids, a.rollbackTargets, id, e);
    }
    forall id, e | FirstBadMark(a, b, id, e)
      ensures CheckHighWater(a.highestSeen, b.highestSeen, marks) == Some(e)
    {
      MarksRefuse(a, b, marks, id, e);
    }
  }

  /** What the source of the catalog comes to: another repository, no catalog, an older or a different one. */
  ghost predicate SourceRefused(a: Inventory, b: Inventory, e: InventoryError)
  {
    var lost := a.repository.Some? && b.repository != a.repository;
    var older := b.catalog.None? || (a.catalog.Some? && b.catalog.value.revision < a.catalog.value.revision);
    var different := b.catalog.Some? && a.catalog.Some? && b.catalog.value.revision == a.catalog.value.revision
      && b.catalog.value.documentSha256 != a.catalog.value.documentSha256;
    && (lost || (a.catalog.Some? && (older || different)))
    && e == if lost then Plan(WrongRepository) else if older then InventoryError.Rollback else RevisionConflict
  }

  /** A state that cannot be saved is never accepted. */
  lemma UnsavableIsTooLarge(a: Inventory, b: Inventory)
    ensures StateBytes(a).Err? || StateBytes(b).Err? ==> Guard(a, b) == Some(TooLarge)
    ensures StateBytes(a).Err? <==> |Render(Document(a))| > 262144
  {
    hide Render, Document, GuardChange;
  }

  /** The guard on two different states that can be saved, rule by rule. */
  lemma GuardOutcome(a: Inventory, b: Inventory)
    requires Coherent(a) && Coherent(b) && StateBytes(a).Ok? && StateBytes(b).Ok? && !SameState(a, b)
    ensures b.generation != a.generation + 1 ==> Guard(a, b) == Some(InvalidState)
    ensures b.generation == a.generation + 1 ==>
      && (forall id, e :: FirstBadMove(a, b, id, e) ==> Guard(a, b) == Some(e))
      && (LegalMoves(a, b) && !LegalTargets(a, b) ==> Guard(a, b) == Some(InvalidState))
      && (LegalMoves(a, b) && LegalTargets(a, b) ==>
            forall id, e :: FirstBadMark(a, b, id, e) ==> Guard(a, b) == Some(e))
      && (LegalMoves(a, b) && LegalTargets(a, b) && LegalMarks(a, b) ==>
            && (forall e :: SourceRefused(a, b, e) ==> Guard(a, b) == Some(e))
            && (CatalogStep(a, b) ==> Validity(b, Guard(a, b))))
  {
    hide Changed, Render, Document, GuardHistory, LegalMoves, LegalTargets, LegalMarks, FirstBadMove, FirstBadMark,
      Validate, Validity;
    SameBytesSameState(a, b);
    HistoryRefusals(a, b);
    ValidityIs(b);
  }
}
