/** Inventories over the whole life of a store: changed, saved, and restored after a restart. */
module InventoryLifetime {
  import opened Wrappers
  import opened PackageInventory
  import opened StateFormat
  import opened InventoryGuard
  import InventoryHistory
  import opened InventoryStaging
  import opened InventoryPersistence
  import JsonReader

  /** A change of the inventory, or a restart that reads back what was saved. */
  datatype Event = Changes(op: Operation) | Restarts(packages: seq<Package>, trusted: set<Digest>)

  ghost predicate Leads(decode: string -> Option<StateDocument>, inv: Inventory, e: Event, next: Inventory)
  {
    match e
    case Changes(op) => OperationOk(op) && Stage(inv, op) == Ok(next)
    case Restarts(packages, trusted) =>
      && Supplies(packages, inv) && StateBytes(inv).Ok?
      && Restore(decode, StateBytes(inv).value, packages, trusted) == Ok(next)
  }

  /** States from the empty inventory on, each led to by its event. */
  ghost predicate Lifetime(decode: string -> Option<StateDocument>, states: seq<Inventory>, events: seq<Event>)
  {
    && |states| == |events| + 1 && states[0] == EMPTY
    && forall k :: 0 <= k < |events| ==> Leads(decode, states[k], events[k], states[k + 1])
  }

  lemma EmptyIsWf()
    ensures Wf(EMPTY)
  {
    assert Installed(EMPTY) == map[];
    ValidIff(EMPTY);
  }

  lemma {:induction false} AlwaysWf(decode: string -> Option<StateDocument>, states: seq<Inventory>,
      events: seq<Event>, k: nat)
    requires Lifetime(decode, states, events) && k < |states|
    ensures Wf(states[k])
  {
    hide Wf, Stage, StateBytes, Restore, OperationOk, Supplies;
    if k == 0 {
      EmptyIsWf();
    } else {
      AlwaysWf(decode, states, events, k - 1);
      assert Leads(decode, states[k - 1], events[k - 1], states[k]);
      match events[k - 1]
      case Changes(op) => StageKeepsWf(states[k - 1], op);
      case Restarts(packages, trusted) => RestoreKeepsWf(decode, StateBytes(states[k - 1]).value, packages, trusted);
    }
  }

  /**
   * In every life of a store: each change is accepted by the independent check, each state can be
   * saved, and each restart finds the state that was saved, without its repository and checkpoint
   * exactly when their signer is no longer trusted.
   */
  lemma EveryStepHolds(decode: string -> Option<StateDocument>, states: seq<Inventory>, events: seq<Event>, k: nat)
    requires DecoderOk(decode) && Lifetime(decode, states, events) && k < |events|
    ensures events[k].Changes? ==> Guard(states[k], states[k + 1]).None?
    ensures events[k].Restarts? ==> states[k + 1] == Trusted(states[k], events[k].trusted)
    ensures StateBytes(states[k + 1]).Ok?
  {
    hide Wf, Stage, StateBytes, Restore, OperationOk, Supplies, Guard, Trusted, DecoderOk;
    AlwaysWf(decode, states, events, k);
    AlwaysWf(decode, states, events, k + 1);
    assert Leads(decode, states[k], events[k], states[k + 1]);
    WfFits(states[k + 1]);
    match events[k]
    case Changes(op) => GuardAcceptsStaged(states[k], op);
    case Restarts(packages, trusted) => RestoreInvertsStateBytes(decode, states[k], packages, trusted);
  }

  /** Every life is a run, so marks, targets and drops behave over restarts as they do without. */
  lemma LifetimeIsRun(decode: string -> Option<StateDocument>, states: seq<Inventory>, events: seq<Event>)
    requires DecoderOk(decode) && Lifetime(decode, states, events)
    ensures InventoryHistory.Run(states)
  {
    hide Wf, Leads, Guard, Coherent, InventoryHistory.SameHistory, DecoderOk, StateBytes;
    forall i | 0 <= i < |states|
      ensures Coherent(states[i])
    {
      AlwaysWf(decode, states, events, i);
      WfFits(states[i]);
    }
    forall i | 0 <= i < |states| - 1
      ensures Guard(states[i], states[i + 1]).None? || InventoryHistory.SameHistory(states[i], states[i + 1])
    {
      EveryStepHolds(decode, states, events, i);
      if events[i].Restarts? { TrustedKeepsHistory(states[i], events[i].trusted); }
    }
  }

  lemma TrustedKeepsHistory(inv: Inventory, trusted: set<Digest>)
    ensures InventoryHistory.SameHistory(inv, Trusted(inv, trusted))
  {
  }

  /** Over restarts too, a package drops only onto the receipt from right before the upgrade still in place. */
  lemma DropsOverRestarts(decode: string -> Option<StateDocument>, states: seq<Inventory>, events: seq<Event>,
      k: nat, id: PackId)
    returns (j: nat)
    requires DecoderOk(decode) && Lifetime(decode, states, events)
    requires k < |events| && InventoryHistory.Drops(states[k], states[k + 1], id)
    ensures j < k && events[k].Changes? && events[j].Changes?
    ensures InventoryHistory.UpgradedAt(states, j, k, id)
    ensures InventoryHistory.InstalledAt(states[k + 1], id) == InventoryHistory.InstalledAt(states[j], id)
  {
    hide Lifetime, DecoderOk, InventoryHistory.Run;
    LifetimeIsRun(decode, states, events);
    LifetimeLength(decode, states, events);
    j := InventoryHistory.DropUndoesTheLastUpgrade(states, k, id);
    OnlyChangesMove(decode, states, events, k, id);
    OnlyChangesMove(decode, states, events, j, id);
  }

  /** Over restarts too, unless one of them no longer trusts the catalog's signer. */
  lemma CatalogOverRestarts(decode: string -> Option<StateDocument>, states: seq<Inventory>, events: seq<Event>,
      i: nat, j: nat)
    requires DecoderOk(decode) && Lifetime(decode, states, events) && i <= j <= |events|
    requires states[i].catalog.Some?
    requires forall m :: i <= m < j && events[m].Restarts? ==> SignerTrusted(states[m], events[m].trusted)
    ensures states[j].catalog.Some? && states[j].repository == states[i].repository
    ensures states[i].catalog.value.revision <= states[j].catalog.value.revision
    ensures states[i].catalog.value.revision == states[j].catalog.value.revision ==>
      states[i].catalog.value.documentSha256 == states[j].catalog.value.documentSha256
  {
    hide Lifetime, DecoderOk, InventoryHistory.Run;
    LifetimeLength(decode, states, events);
    LifetimeIsRun(decode, states, events);
    forall m | i <= m <= j
      ensures states[m].catalog.Some? && states[m].repository.Some?
    {
      SourceStays(decode, states, events, i, m);
    }
    InventoryHistory.CatalogNeverOlder(states, i, j);
  }

  ghost predicate SignerTrusted(inv: Inventory, trusted: set<Digest>)
  {
    inv.catalog.Some? ==> inv.catalog.value.signerSha256 in trusted
  }

  lemma {:induction false} SourceStays(decode: string -> Option<StateDocument>, states: seq<Inventory>,
      events: seq<Event>, i: nat, m: nat)
    requires DecoderOk(decode) && Lifetime(decode, states, events) && |states| == |events| + 1 && i <= m <= |events|
    requires states[i].catalog.Some?
    requires forall k :: i <= k < m && events[k].Restarts? ==> SignerTrusted(states[k], events[k].trusted)
    ensures states[m].catalog.Some? && states[m].repository.Some?
    decreases m
  {
    hide Lifetime, DecoderOk, Guard, StateBytes, Wf;
    AlwaysWf(decode, states, events, m);
    WfSource(states[m]);
    if i < m {
      SourceStays(decode, states, events, i, m - 1);
      EveryStepHolds(decode, states, events, m - 1);
      AlwaysWf(decode, states, events, m - 1);
      if events[m - 1].Changes? { ChangeKeepsSource(states[m - 1], states[m]); }
    }
  }

  lemma ChangeKeepsSource(a: Inventory, b: Inventory)
    requires Wf(a) && Wf(b) && Guard(a, b).None? && a.catalog.Some?
    ensures b.catalog.Some?
  {
    hide Guard, StateBytes, Wf, Coherent, HistoryStep, Validate, MayFollow;
    WfFits(a);
    WfFits(b);
    GuardAcceptsIff(a, b);
  }

  lemma WfSource(inv: Inventory)
    requires Wf(inv)
    ensures inv.repository.Some? <==> inv.catalog.Some?
  {
  }

  lemma LifetimeLength(decode: string -> Option<StateDocument>, states: seq<Inventory>, events: seq<Event>)
    requires Lifetime(decode, states, events)
    ensures |states| == |events| + 1
  {
  }

  lemma OnlyChangesMove(decode: string -> Option<StateDocument>, states: seq<Inventory>, events: seq<Event>,
      k: nat, id: PackId)
    requires DecoderOk(decode) && Lifetime(decode, states, events) && k < |events| && |states| == |events| + 1
    requires InventoryHistory.Drops(states[k], states[k + 1], id)
      || InventoryHistory.Rises(states[k], states[k + 1], id)
    ensures events[k].Changes?
  {
    hide Lifetime, DecoderOk, Guard, StateBytes;
    EveryStepHolds(decode, states, events, k);
  }

  /** An ordinary reader of JSON is such a decoder. */
  lemma JsonReaderDecodes()
    ensures DecoderOk(JsonReader.Decode)
  {
    hide JsonReader.Decode, Render, PlainDocument;
    forall d | PlainDocument(d)
      ensures JsonReader.Decode(Render(d)) == Some(d)
    {
      JsonReader.DecodeReadsBack(d);
    }
  }

  /** With that reader, saving and restoring needs no premise about decoding. */
  lemma SavedIsRestored(inv: Inventory, packages: seq<Package>, trusted: set<Digest>)
    requires Wf(inv) && Supplies(packages, inv)
    ensures StateBytes(inv).Ok?
    ensures Restore(JsonReader.Decode, StateBytes(inv).value, packages, trusted) == Ok(Trusted(inv, trusted))
  {
    hide *;
    JsonReaderDecodes();
    RestoreInvertsStateBytes(JsonReader.Decode, inv, packages, trusted);
  }
}
