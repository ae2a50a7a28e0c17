/**
 * The store-side guard on committed inventories (`check_successor`) against the staging operations:
 * every staged result is accepted, although the guard derives what a legal step is by itself.
 */
module InventoryGuard {
  import opened Wrappers
  import opened Strings
  import opened PackageInventory
  import opened StateFormat
  import PackageCatalog
  import Localization

  // ---------- the guard ----------

  /** The rollback targets that the transition implies, package by package in id order. */
  function Derive(current: Inventory, next: Inventory, ids: seq<PackId>, targets: map<PackId, Receipt>)
    : Result<map<PackId, Receipt>, InventoryError>
    requires forall id :: id in ids ==> id in current.packages
    decreases |ids|
  {
    if |ids| == 0 then Ok(targets)
    else
      match DeriveOne(current, next, ids[0], targets)
      case Err(e) => Err(e)
      case Ok(t) => Derive(current, next, ids[1..], t)
  }

  function DeriveOne(current: Inventory, next: Inventory, id: PackId, targets: map<PackId, Receipt>)
    : Result<map<PackId, Receipt>, InventoryError>
    requires id in current.packages
  {
    var prior := current.packages[id].receipt;
    if id !in next.packages then Ok(targets - {id})
    else
      var later := next.packages[id].receipt;
      if later.revision > prior.revision then Ok(targets[id := prior])
      else if later.revision < prior.revision then
        if RollbackTarget(current, id) != Some(later) then Err(Rollback) else Ok(targets)
      else if later != prior then Err(RevisionConflict)
      else Ok(targets)
  }

  function HighWaterRefusal(before: map<PackId, Receipt>, after: map<PackId, Receipt>, id: PackId)
    : (e: Option<InventoryError>)
    requires id in before
  {
    if id !in after || after[id].revision < before[id].revision then Some(Rollback)
    else if after[id].revision == before[id].revision && after[id] != before[id] then Some(RevisionConflict)
    else None
  }

  function CheckHighWater(before: map<PackId, Receipt>, after: map<PackId, Receipt>, ids: seq<PackId>)
    : (e: Option<InventoryError>)
    requires forall id :: id in ids ==> id in before
    ensures e.None? <==> forall id :: id in ids ==> HighWaterRefusal(before, after, id).None?
  {
    if |ids| == 0 then None
    else
      match HighWaterRefusal(before, after, ids[0])
      case Some(e) => Some(e)
      case None => CheckHighWater(before, after, ids[1..])
  }

  function CheckCatalog(before: Option<Checkpoint>, after: Option<Checkpoint>): Option<InventoryError>
  {
    if before.None? then None
    else if after.None? then Some(Rollback)
    else
      match CheckCheckpoint(before, after.value)
      case None => None
      case Some(PlanRollback) => Some(Rollback)
      case Some(_) => Some(RevisionConflict)
  }

  /** The part of the guard that judges a change of history. */
  function GuardHistory(current: Inventory, next: Inventory): Option<InventoryError>
  {
    match Derive(current, next, SortedKeys(current.packages.Keys), current.rollbackTargets)
    case Err(e) => Some(e)
    case Ok(targets) =>
      if next.rollbackTargets != targets then Some(InvalidState)
      else CheckHighWater(current.highestSeen, next.highestSeen, SortedKeys(current.highestSeen.Keys))
  }

  function GuardChange(current: Inventory, next: Inventory): Option<InventoryError>
  {
    if CheckedAdd(current.generation, 1) != Some(next.generation) then Some(InvalidState)
    else
      match GuardHistory(current, next)
      case Some(e) => Some(e)
      case None =>
        if current.repository.Some? && next.repository != current.repository then Some(Plan(WrongRepository))
        else
          match CheckCatalog(current.catalog, next.catalog)
          case Some(e) => Some(e)
          case None => Validate(next)
  }

  /** `check_successor`: None when the candidate may follow the current inventory. */
  function Guard(current: Inventory, next: Inventory): Option<InventoryError>
  {
    match (StateBytes(current), StateBytes(next))
    case (Err(e), _) => Some(e)
    case (_, Err(e)) => Some(e)
    case (Ok(a), Ok(b)) => if a == b then None else GuardChange(current, next)
  }

  method DeriveTargets(current: Inventory, next: Inventory)
    returns (r: Result<map<PackId, Receipt>, InventoryError>)
    ensures r == Derive(current, next, SortedKeys(current.packages.Keys), current.rollbackTargets)
  {
    hide SortedKeys, Ascending, RollbackTarget;
    var targets := current.rollbackTargets;
    var ids := SortedKeys(current.packages.Keys);
    ghost var derived := Derive(current, next, ids, targets);
    for i := 0 to |ids|
      invariant derived == Derive(current, next, ids[i..], targets)
    {
      assert ids[i] in ids && ids[i..][0] == ids[i] && ids[i..][1..] == ids[i + 1..];
      var prior := current.packages[ids[i]].receipt;
      if ids[i] !in next.packages {
        targets := targets - {ids[i]};
      } else {
        var later := next.packages[ids[i]].receipt;
        if later.revision > prior.revision {
          targets := targets[ids[i] := prior];
        } else if later.revision < prior.revision {
          if RollbackTarget(current, ids[i]) != Some(later) { return Err(Rollback); }
        } else if later != prior {
          return Err(RevisionConflict);
        }
      }
    }
    return Ok(targets);
  }

  method CheckMarks(before: map<PackId, Receipt>, after: map<PackId, Receipt>) returns (e: Option<InventoryError>)
    ensures e == CheckHighWater(before, after, SortedKeys(before.Keys))
  {
    hide HighWaterRefusal, SortedKeys;
    var marks := SortedKeys(before.Keys);
    for i := 0 to |marks|
      invariant CheckHighWater(before, after, marks) == CheckHighWater(before, after, marks[i..])
    {
      assert marks[i] in marks && marks[i..][0] == marks[i] && marks[i..][1..] == marks[i + 1..];
      var refusal := HighWaterRefusal(before, after, marks[i]);
      if refusal.Some? { return refusal; }
    }
    return None;
  }

  method CheckChange(current: Inventory, next: Inventory) returns (e: Option<InventoryError>)
    ensures e == GuardChange(current, next)
  {
    if CheckedAdd(current.generation, 1) != Some(next.generation) { return Some(InvalidState); }
    var targets := DeriveTargets(current, next);
    if targets.Err? { return Some(targets.error); }
    if next.rollbackTargets != targets.value { return Some(InvalidState); }
    e := CheckMarks(current.highestSeen, next.highestSeen);
    if e.Some? { return e; }
    if current.repository.Some? && next.repository != current.repository { return Some(Plan(WrongRepository)); }
    e := CheckCatalog(current.catalog, next.catalog);
    if e.Some? { return e; }
    e := Validate(next);
  }

  /** The guard as the source runs it: loops over the receipts and over the high-water marks. */
  method CheckSuccessor(current: Inventory, next: Inventory) returns (e: Option<InventoryError>)
    ensures e == Guard(current, next)
  {
    var a, b := StateBytes(current), StateBytes(next);
    if a.Err? { return Some(a.error); }
    if b.Err? { return Some(b.error); }
    if a.value == b.value { return None; }
    e := CheckChange(current, next);
  }

  // ---------- what an accepted step is ----------

  function TargetAt(inv: Inventory, id: PackId): Option<Receipt>
  {
    if id in inv.rollbackTargets then Some(inv.rollbackTargets[id]) else None
  }

  ghost predicate PackageStep(current: Inventory, next: Inventory, id: PackId)
  {
    id in current.packages && id in next.packages ==>
      var prior, later := current.packages[id].receipt, next.packages[id].receipt;
      && (later.revision < prior.revision ==> TargetAt(current, id) == Some(later))
      && (later.revision == prior.revision ==> later == prior)
  }

  /** The one target a transition implies for `id`. */
  function ImpliedTarget(current: Inventory, next: Inventory, id: PackId): Option<Receipt>
  {
    if id !in current.packages then TargetAt(current, id)
    else if id !in next.packages then None
    else if next.packages[id].Revision() > current.packages[id].Revision() then Some(current.packages[id].receipt)
    else TargetAt(current, id)
  }

  ghost predicate HighWaterStep(current: Inventory, next: Inventory, id: PackId)
  {
    id in current.highestSeen ==>
      && id in next.highestSeen && current.highestSeen[id].revision <= next.highestSeen[id].revision
      && (current.highestSeen[id].revision == next.highestSeen[id].revision ==>
            current.highestSeen[id] == next.highestSeen[id])
  }

  /** Each package, target and high-water mark moves as the guard allows. */
  ghost predicate HistoryStep(current: Inventory, next: Inventory)
  {
    && (forall id :: PackageStep(current, next, id))
    && (forall id :: TargetAt(next, id) == ImpliedTarget(current, next, id))
    && (forall id :: HighWaterStep(current, next, id))
  }

  /** No older catalog, and at one revision the same document. */
  ghost predicate MayFollow(before: Checkpoint, after: Checkpoint)
  {
    && before.revision <= after.revision
    && (before.revision == after.revision ==> before.documentSha256 == after.documentSha256)
  }

  /** The repository stays once it is known, and its catalog only moves on. */
  ghost predicate CatalogStep(current: Inventory, next: Inventory)
  {
    && (current.repository.Some? ==> next.repository == current.repository)
    && (current.catalog.Some? ==> next.catalog.Some? && MayFollow(current.catalog.value, next.catalog.value))
  }

  /** A legal change: one generation on, with a legal history and catalog, and valid. */
  ghost predicate LegalChange(current: Inventory, next: Inventory)
  {
    && next.generation == current.generation + 1
    && HistoryStep(current, next)
    && CatalogStep(current, next)
    && Validate(next).None?
  }

  ghost predicate SameState(a: Inventory, b: Inventory)
  {
    a.generation == b.generation && !Changed(a, b)
  }

  lemma {:induction false} DeriveOkIff(current: Inventory, next: Inventory, ids: seq<PackId>,
      targets: map<PackId, Receipt>)
    requires forall id :: id in ids ==> id in current.packages
    ensures Derive(current, next, ids, targets).Ok? <==> forall id :: id in ids ==> PackageStep(current, next, id)
    decreases |ids|
  {
    if |ids| > 0 {
      var r := DeriveOne(current, next, ids[0], targets);
      assert r.Ok? <==> PackageStep(current, next, ids[0]);
      if r.Ok? {
        DeriveOkIff(current, next, ids[1..], r.value);
        assert forall id :: id in ids <==> id == ids[0] || id in ids[1..];
      } else {
        assert ids[0] in ids;
      }
    }
  }

  lemma {:induction false} DeriveAt(current: Inventory, next: Inventory, ids: seq<PackId>,
      targets: map<PackId, Receipt>, id: PackId)
    requires forall k :: k in ids ==> k in current.packages
    requires Distinct(ids) && Derive(current, next, ids, targets).Ok?
    ensures var t := Derive(current, next, ids, targets).value;
      (if id in t then Some(t[id]) else None) ==
      (if id in ids && id !in next.packages then None
       else if id in ids && next.packages[id].Revision() > current.packages[id].Revision()
         then Some(current.packages[id].receipt)
       else if id in targets then Some(targets[id]) else None)
    decreases |ids|
  {
    if |ids| > 0 {
      var t := DeriveOne(current, next, ids[0], targets).value;
      DeriveAt(current, next, ids[1..], t, id);
      assert ids[0] !in ids[1..];
      assert id in ids <==> id == ids[0] || id in ids[1..];
    }
  }

  /** The loop over the receipts computes exactly the implied targets. */
  lemma DeriveMatches(current: Inventory, next: Inventory)
    ensures var r := Derive(current, next, SortedKeys(current.packages.Keys), current.rollbackTargets);
      (r.Ok? && next.rollbackTargets == r.value) <==>
      ((forall id :: PackageStep(current, next, id))
        && forall id :: TargetAt(next, id) == ImpliedTarget(current, next, id))
  {
    hide Derive, ImpliedTarget, Ascending;
    var ids := SortedKeys(current.packages.Keys);
    AscendingDistinct(ids);
    var r := Derive(current, next, ids, current.rollbackTargets);
    DeriveOkIff(current, next, ids, current.rollbackTargets);
    if r.Ok? {
      forall id
        ensures PackageStep(current, next, id)
      {
        if id in current.packages { assert id in ids; }
      }
      forall id
        ensures (if id in r.value then Some(r.value[id]) else None) == ImpliedTarget(current, next, id)
      {
        DeriveAt(current, next, ids, current.rollbackTargets, id);
        assert id in ids <==> id in current.packages;
        ImpliedIs(current, next, id);
      }
      if forall id :: TargetAt(next, id) == ImpliedTarget(current, next, id) {
        SameTargets(next, r.value);
      }
    }
  }

  lemma ImpliedIs(current: Inventory, next: Inventory, id: PackId)
    ensures ImpliedTarget(current, next, id) ==
      if id in current.packages && id !in next.packages then None
      else if id in current.packages && next.packages[id].Revision() > current.packages[id].Revision()
        then Some(current.packages[id].receipt)
      else if id in current.rollbackTargets then Some(current.rollbackTargets[id]) else None
  {
  }

  lemma SameTargets(next: Inventory, t: map<PackId, Receipt>)
    requires forall id :: TargetAt(next, id) == if id in t then Some(t[id]) else None
    ensures next.rollbackTargets == t
  {
    forall id
      ensures id in next.rollbackTargets <==> id in t
      ensures id in t ==> next.rollbackTargets[id] == t[id]
    {
      assert TargetAt(next, id) == if id in t then Some(t[id]) else None;
    }
  }

  lemma HistoryAcceptsIff(current: Inventory, next: Inventory)
    ensures GuardHistory(current, next).None? <==> HistoryStep(current, next)
  {
    DeriveMatches(current, next);
    MarksAcceptIff(current, next);
  }

  lemma MarksAcceptIff(current: Inventory, next: Inventory)
    ensures CheckHighWater(current.highestSeen, next.highestSeen, SortedKeys(current.highestSeen.Keys)).None?
      <==> (forall id :: HighWaterStep(current, next, id))
  {
    var marks := SortedKeys(current.highestSeen.Keys);
    assert forall id :: id in marks <==> id in current.highestSeen;
    if forall id :: HighWaterStep(current, next, id) {
      forall id | id in marks
        ensures HighWaterRefusal(current.highestSeen, next.highestSeen, id).None?
      {
        assert HighWaterStep(current, next, id);
      }
    }
  }

  lemma CatalogAcceptsIff(current: Inventory, next: Inventory)
    ensures CatalogStep(current, next) <==>
      (current.repository.Some? ==> next.repository == current.repository)
      && CheckCatalog(current.catalog, next.catalog).None?
  {
    hide Validate, HistoryStep;
  }

  lemma GuardChangeAcceptsIff(current: Inventory, next: Inventory)
    ensures GuardChange(current, next).None? <==> LegalChange(current, next)
  {
    hide HistoryStep, CatalogStep, GuardHistory, CheckCatalog, Validate;
    HistoryAcceptsIff(current, next);
    CatalogAcceptsIff(current, next);
  }

  /** The guard accepts exactly no-ops and legal changes, as far as both states fit into a file. */
  lemma GuardAcceptsIff(current: Inventory, next: Inventory)
    requires Coherent(current) && Coherent(next)
    ensures Guard(current, next).None? <==>
      StateBytes(current).Ok? && StateBytes(next).Ok? && (SameState(current, next) || LegalChange(current, next))
  {
    hide GuardChange, LegalChange, Changed, Render, Document;
    SameBytesSameState(current, next);
    GuardChangeAcceptsIff(current, next);
  }

  // ---------- the working invariant ----------

  /** A repository name in the form `repository_id` gives it. */
  ghost predicate RepositoryOk(repository: string)
  {
    PackageCatalog.RepositoryId(repository) == Ok(repository)
  }

  ghost predicate CheckpointOk(c: Checkpoint)
  {
    CheckpointBounded(c) && c.revision >= 1
  }

  ghost predicate ReceiptsOk(m: map<PackId, Receipt>)
  {
    forall id :: id in m ==> m[id].id == id && ReceiptOk(m[id]) && !IsBase(id)
  }

  /** What holds of every inventory that staging or restoring produces. */
  ghost predicate Wf(inv: Inventory)
  {
    && ReceiptsOk(Installed(inv)) && ReceiptsOk(inv.highestSeen) && ReceiptsOk(inv.rollbackTargets)
    && (inv.repository.Some? <==> inv.catalog.Some?)
    && (inv.repository.Some? ==> RepositoryOk(inv.repository.value))
    && (inv.catalog.Some? ==> CheckpointOk(inv.catalog.value))
    && (inv.generation == 0 ==> !Changed(inv, EMPTY))
    && Validate(inv).None?
  }

  lemma {:induction false} PartsPlain(parts: seq<string>)
    requires |parts| >= 1
    requires forall i :: 0 <= i < |parts| ==> Plain(parts[i])
    ensures Plain(Join(parts, '-'))
  {
    if |parts| > 1 {
      PartsPlain(parts[1..]);
    }
  }

  lemma ValidIdPlain(id: PackId)
    requires ValidId(id)
    ensures Plain(id) && |id| <= 63
  {
    var parts := Split(id, '-');
    JoinSplit(id, '-');
    forall i | 0 <= i < |parts|
      ensures Plain(parts[i])
    {
      assert forall c :: c in parts[i] ==> Localization.IsAlnum(c);
    }
    PartsPlain(parts);
  }

  lemma ReceiptsOkBounded(m: map<PackId, Receipt>)
    requires ReceiptsOk(m)
    ensures Keyed(m) && ReceiptsBounded(m)
  {
    forall id | id in m
      ensures Plain(id) && RowOk(RowOf(m[id]))
    {
      ValidIdPlain(id);
    }
  }

  lemma WfFits(inv: Inventory)
    requires Wf(inv)
    ensures Coherent(inv) && Bounded(inv)
    ensures StateBytes(inv) == Ok(Render(Document(inv)))
  {
    ReceiptsOkBounded(Installed(inv));
    ReceiptsOkBounded(inv.highestSeen);
    ReceiptsOkBounded(inv.rollbackTargets);
    if inv.repository.Some? {
      PackageCatalog.RepositoryIdPlain(inv.repository.value);
    }
    StateAlwaysFits(inv);
  }

  // ---------- what adding packages changes ----------

  /** Package `p` was added to an inventory in which `before` and `mark` stood at its id. */
  ghost predicate AddedAt(inv: Inventory, next: Inventory, p: Package)
  {
    var id := p.Id();
    && !IsBase(id)
    && id in next.packages && next.packages[id] == p
    && id in next.highestSeen && next.highestSeen[id] == p.receipt
    && (id in inv.highestSeen ==> HighWaterRefusal(inv.highestSeen, map[id := p.receipt], id).None?)
    && TargetAt(next, id) == (if id in inv.packages && inv.packages[id].Revision() < p.Revision()
                              then Some(inv.packages[id].receipt) else TargetAt(inv, id))
  }

  ghost predicate UnchangedAt(inv: Inventory, next: Inventory, id: PackId)
  {
    && (id in next.packages <==> id in inv.packages)
    && (id in inv.packages ==> next.packages[id] == inv.packages[id])
    && (id in next.highestSeen <==> id in inv.highestSeen)
    && (id in inv.highestSeen ==> next.highestSeen[id] == inv.highestSeen[id])
    && TargetAt(next, id) == TargetAt(inv, id)
  }

  ghost predicate Listed(ps: seq<Package>, id: PackId)
  {
    exists i :: 0 <= i < |ps| && ps[i].Id() == id
  }

  /** `next` is `inv` with exactly the packages of `ps` added. */
  ghost predicate Added(inv: Inventory, next: Inventory, ps: seq<Package>)
  {
    && (forall i :: 0 <= i < |ps| ==> AddedAt(inv, next, ps[i]))
    && (forall id :: !Listed(ps, id) ==> UnchangedAt(inv, next, id))
    && next.generation == inv.generation && next.repository == inv.repository && next.catalog == inv.catalog
  }

  lemma AddOneChanges(inv: Inventory, p: Package, seen: set<PackId>)
    requires AddOne(inv, p, seen).Ok?
    ensures var next := AddOne(inv, p, seen).value;
      && AddedAt(inv, next, p) && p.Id() !in seen
      && (forall id :: id != p.Id() ==> UnchangedAt(inv, next, id))
      && next.generation == inv.generation && next.repository == inv.repository && next.catalog == inv.catalog
  {
  }

  lemma {:induction false} AddAllChanges(inv: Inventory, ps: seq<Package>, seen: set<PackId>)
    requires AddAll(inv, ps, seen).Ok?
    ensures Added(inv, AddAll(inv, ps, seen).value, ps)
    ensures forall i :: 0 <= i < |ps| ==> ps[i].Id() !in seen
    ensures forall i, j :: 0 <= i < j < |ps| ==> ps[i].Id() != ps[j].Id()
    decreases |ps|
  {
    hide AddOne;
    if |ps| > 0 {
      var p, rest := ps[0], ps[1..];
      var mid := AddOne(inv, p, seen).value;
      var next := AddAll(inv, ps, seen).value;
      AddOneChanges(inv, p, seen);
      AddAllChanges(mid, rest, seen + {p.Id()});
      assert forall i :: 1 <= i < |ps| ==> ps[i] == rest[i - 1];
      assert !Listed(rest, p.Id());
      assert UnchangedAt(mid, next, p.Id());
      forall i | 0 <= i < |ps|
        ensures AddedAt(inv, next, ps[i])
      {
        if i > 0 {
          assert AddedAt(mid, next, rest[i - 1]);
          assert UnchangedAt(inv, mid, ps[i].Id());
        }
      }
      forall id | !Listed(ps, id)
        ensures UnchangedAt(inv, next, id)
      {
        assert ps[0].Id() != id;
        assert forall i :: 0 <= i < |rest| ==> rest[i] == ps[i + 1];
        assert UnchangedAt(mid, next, id) && UnchangedAt(inv, mid, id);
      }
    }
  }
}
