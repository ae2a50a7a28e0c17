/** Reading a saved state back: what `restore` accepts, and that it inverts `state_bytes`. */
module InventoryPersistence {
  import opened Wrappers
  import opened Strings
  import opened PackageInventory
  import opened StateFormat
  import opened InventoryGuard
  import PackageCatalog
  import Localization

  // ---------- parsing ----------

  /** `PackId::parse` */
  function ParsePackId(value: string): Option<PackId>
  {
    if Localization.IdGrammar(value) then Some(ToLowerAscii(value)) else None
  }

  function ParseRow(row: ReceiptDocument): (r: Result<Receipt, InventoryError>)
    ensures r.Ok? ==> r.value.revision == row.revision >= 1 && 1 <= r.value.bytes == row.bytes <= MAX_PACKAGE_BYTES
    ensures r.Ok? ==> |r.value.sha256| == 32 && !IsBase(r.value.id) && ParsePackId(row.id) == Some(r.value.id)
  {
    match ParsePackId(row.id)
    case None => Err(InvalidState)
    case Some(id) =>
      if IsBase(id) || row.revision == 0 || row.bytes == 0 || row.bytes > MAX_PACKAGE_BYTES then Err(InvalidState)
      else
        match DecodeHex(row.sha256, 32)
        case None => Err(InvalidState)
        case Some(sha256) => Ok(Receipt(id, row.revision, row.bytes, sha256))
  }

  /** Rows into a map; a repeated id is refused. */
  function ParseRows(rows: seq<ReceiptDocument>, parsed: map<PackId, Receipt>)
    : Result<map<PackId, Receipt>, InventoryError>
    decreases |rows|
  {
    if |rows| == 0 then Ok(parsed)
    else
      match ParseRow(rows[0])
      case Err(e) => Err(e)
      case Ok(receipt) =>
        if receipt.id in parsed then Err(InvalidState) else ParseRows(rows[1..], parsed[receipt.id := receipt])
  }

  /** The installed rows, whose total size is checked while they are read. */
  function ParseInstalled(rows: seq<ReceiptDocument>, parsed: map<PackId, Receipt>, total: nat)
    : Result<map<PackId, Receipt>, InventoryError>
    decreases |rows|
  {
    if |rows| == 0 then Ok(parsed)
    else
      match ParseRow(rows[0])
      case Err(e) => Err(e)
      case Ok(receipt) =>
        if receipt.id in parsed then Err(InvalidState)
        else if total + receipt.bytes > MAX_SELECTED_DOWNLOAD_BYTES then Err(TooLarge)
        else ParseInstalled(rows[1..], parsed[receipt.id := receipt], total + receipt.bytes)
  }

  /** None for a checkpoint saved before signing keys were recorded. */
  function ParseCheckpoint(c: CheckpointDocument): (r: Result<Option<Checkpoint>, InventoryError>)
    ensures r.Ok? && r.value.Some? ==> CheckpointOk(r.value.value)
  {
    if c.signerSha256.None? then Ok(None)
    else
      match (DecodeHex(c.sha256, 32), DecodeHex(c.signerSha256.value, 32))
      case (Some(document), Some(signer)) =>
        if c.revision == 0 then Err(Plan(InvalidData)) else Ok(Some(Checkpoint(c.revision, document, signer)))
      case _ => Err(InvalidState)
  }

  datatype ParsedState = ParsedState(
    generation: U64,
    installed: map<PackId, Receipt>,
    highestSeen: map<PackId, Receipt>,
    rollbackTargets: map<PackId, Receipt>,
    repository: Option<string>,
    catalog: Option<Checkpoint>)

  function ParseSource(d: StateDocument): Result<(Option<string>, Option<Checkpoint>), InventoryError>
  {
    match (d.repository, d.catalog)
    case (None, None) => Ok((None, None))
    case (Some(repository), Some(checkpoint)) =>
      (match PackageCatalog.RepositoryId(repository)
       case Err(e) => Err(Plan(e))
       case Ok(id) =>
         match ParseCheckpoint(checkpoint)
         case Err(e) => Err(e)
         case Ok(c) => Ok((Some(id), c)))
    case _ => Err(InvalidState)
  }

  function ParseHistory(d: StateDocument)
    : Result<(map<PackId, Receipt>, map<PackId, Receipt>, map<PackId, Receipt>), InventoryError>
  {
    match ParseRows(d.highestSeen, map[])
    case Err(e) => Err(e)
    case Ok(highest) =>
      match ParseRows(d.rollbackTargets, map[])
      case Err(e) => Err(e)
      case Ok(targets) =>
        match ParseInstalled(d.installed, map[], 0)
        case Err(e) => Err(e)
        case Ok(installed) =>
          if |targets| > MAX_OPTIONAL_PACKAGES then Err(TooLarge)
          else if !HistoryOk(installed, highest, targets) then Err(InvalidState)
          else Ok((installed, highest, targets))
  }

  /** `ParsedState::parse` on the decoded document. */
  function ParseState(d: StateDocument): Result<ParsedState, InventoryError>
  {
    if (d.format != 1 && d.format != 2) || (d.format == 1 && |d.rollbackTargets| > 0)
       || (d.format == 2 && |d.rollbackTargets| == 0) then Err(InvalidState)
    else if |d.installed| > MAX_OPTIONAL_PACKAGES || |d.highestSeen| > MAX_HISTORY
            || |d.rollbackTargets| > MAX_OPTIONAL_PACKAGES then Err(TooLarge)
    else
      match ParseHistory(d)
      case Err(e) => Err(e)
      case Ok((installed, highest, targets)) =>
        if d.generation == 0 && (|d.installed| > 0 || |d.highestSeen| > 0 || d.catalog.Some?) then Err(InvalidState)
        else
          match ParseSource(d)
          case Err(e) => Err(e)
          case Ok((repository, catalog)) =>
            Ok(ParsedState(d.generation, installed, highest, targets, repository, catalog))
  }

  /** The loop over rows as the source runs it. */
  method ReadRows(rows: seq<ReceiptDocument>) returns (r: Result<map<PackId, Receipt>, InventoryError>)
    ensures r == ParseRows(rows, map[])
  {
    hide ParseRow;
    var parsed: map<PackId, Receipt> := map[];
    for i := 0 to |rows|
      invariant ParseRows(rows, map[]) == ParseRows(rows[i..], parsed)
    {
      assert rows[i..][0] == rows[i] && rows[i..][1..] == rows[i + 1..];
      var row := ParseRow(rows[i]);
      if row.Err? { return Err(row.error); }
      if row.value.id in parsed { return Err(InvalidState); }
      parsed := parsed[row.value.id := row.value];
    }
    return Ok(parsed);
  }

  // ---------- restoring ----------

  function Supplied(ps: seq<Package>, supplied: map<PackId, Package>): Result<map<PackId, Package>, InventoryError>
    decreases |ps|
  {
    if |ps| == 0 then Ok(supplied)
    else if ps[0].Id() in supplied then Err(DuplicatePackage)
    else Supplied(ps[1..], supplied[ps[0].Id() := ps[0]])
  }

  /**
   * A JSON decoder reads back what the store writes: formats 1 and 2, numbers of 64 bits, and texts
   * that need no escaping. Nothing else is asked of it.
   */
  ghost predicate DecoderOk(decode: string -> Option<StateDocument>)
  {
    forall d :: PlainDocument(d) ==> decode(Render(d)) == Some(d)
  }

  function RestoreState(state: ParsedState, ps: seq<Package>, trusted: set<Digest>): Result<Inventory, InventoryError>
  {
    if |state.installed| != |ps| then Err(InvalidState)
    else
      match Supplied(ps, map[])
      case Err(e) => Err(e)
      case Ok(supplied) =>
        if exists id :: id in state.installed && (id !in supplied || supplied[id].receipt != state.installed[id])
        then Err(InvalidState)
        else
          var keep := state.catalog.Some? && state.catalog.value.signerSha256 in trusted;
          var inv := Inventory(
            state.generation,
            map id | id in state.installed :: supplied[id],
            state.highestSeen,
            state.rollbackTargets,
            if keep then state.repository else None,
            if keep then state.catalog else None);
          match Validate(inv)
          case Some(e) => Err(e)
          case None => Ok(inv)
  }

  function Restore(decode: string -> Option<StateDocument>, bytes: string, ps: seq<Package>, trusted: set<Digest>)
    : Result<Inventory, InventoryError>
  {
    if |bytes| > MAX_INVENTORY_STATE_BYTES then Err(TooLarge)
    else
      match decode(bytes)
      case None => Err(InvalidState)
      case Some(d) =>
        match ParseState(d)
        case Err(e) => Err(e)
        case Ok(state) => RestoreState(state, ps, trusted)
  }

  // ---------- whatever is restored is well formed ----------

  lemma ParsedIdValid(value: string)
    requires ParsePackId(value).Some?
    ensures ValidId(ParsePackId(value).value)
  {
    Localization.NormalizedIsStable(value);
  }

  lemma {:induction false} ParsedRowsOk(rows: seq<ReceiptDocument>, parsed: map<PackId, Receipt>)
    requires ReceiptsOk(parsed) && ParseRows(rows, parsed).Ok?
    ensures ReceiptsOk(ParseRows(rows, parsed).value)
    ensures |ParseRows(rows, parsed).value| == |parsed| + |rows|
    decreases |rows|
  {
    hide ParseRow, ValidId;
    if |rows| > 0 {
      var receipt := ParseRow(rows[0]).value;
      ParsedIdValid(rows[0].id);
      var more := parsed[receipt.id := receipt];
      assert more.Keys == parsed.Keys + {receipt.id};
      ParsedRowsOk(rows[1..], more);
    }
  }

  lemma {:induction false} ParsedInstalledRows(rows: seq<ReceiptDocument>, parsed: map<PackId, Receipt>, total: nat)
    requires ParseInstalled(rows, parsed, total).Ok?
    ensures ParseRows(rows, parsed) == ParseInstalled(rows, parsed, total)
    decreases |rows|
  {
    hide ParseRow;
    if |rows| > 0 {
      var receipt := ParseRow(rows[0]).value;
      ParsedInstalledRows(rows[1..], parsed[receipt.id := receipt], total + receipt.bytes);
    }
  }

  lemma {:induction false} SuppliedFrom(ps: seq<Package>, supplied: map<PackId, Package>)
    requires Supplied(ps, supplied).Ok?
    ensures forall id :: id in Supplied(ps, supplied).value ==>
      (id in supplied && Supplied(ps, supplied).value[id] == supplied[id]) ||
      (Supplied(ps, supplied).value[id] in ps && Supplied(ps, supplied).value[id].Id() == id)
    decreases |ps|
  {
    if |ps| > 0 {
      SuppliedFrom(ps[1..], supplied[ps[0].Id() := ps[0]]);
    }
  }

  lemma ParsedStateOk(d: StateDocument)
    requires ParseState(d).Ok?
    ensures var s := ParseState(d).value;
      && ReceiptsOk(s.installed) && ReceiptsOk(s.highestSeen) && ReceiptsOk(s.rollbackTargets)
      && HistoryOk(s.installed, s.highestSeen, s.rollbackTargets)
      && (s.catalog.Some? ==> s.repository.Some? && RepositoryOk(s.repository.value) && CheckpointOk(s.catalog.value))
      && (s.generation == 0 ==> s.installed == map[] && s.highestSeen == map[] && s.catalog.None?)
  {
    hide ReceiptsOk, HistoryOk, ParseRow, CheckpointOk, ParseRows, ParseInstalled, ParseCheckpoint;
    ParsedHistoryOk(d);
    ParsedSourceOk(d);
  }

  lemma NoReceiptsOk()
    ensures ReceiptsOk(map[])
  {
  }

  lemma ParsedHistoryOk(d: StateDocument)
    requires ParseHistory(d).Ok?
    ensures var (installed, highest, targets) := ParseHistory(d).value;
      && ReceiptsOk(installed) && ReceiptsOk(highest) && ReceiptsOk(targets)
      && HistoryOk(installed, highest, targets)
      && |installed| == |d.installed| && |highest| == |d.highestSeen|
  {
    hide ReceiptsOk, HistoryOk, ParseRow, ParseRows, ParseInstalled;
    NoReceiptsOk();
    ParsedRowsOk(d.highestSeen, map[]);
    ParsedRowsOk(d.rollbackTargets, map[]);
    ParsedInstalledRows(d.installed, map[], 0);
    ParsedRowsOk(d.installed, map[]);
  }

  lemma ParsedSourceOk(d: StateDocument)
    requires ParseSource(d).Ok?
    ensures var (repository, catalog) := ParseSource(d).value;
      && (catalog.Some? ==>
            d.catalog.Some? && repository.Some? && RepositoryOk(repository.value) && CheckpointOk(catalog.value))
  {
    hide CheckpointOk, PackageCatalog.RepositoryId;
    if d.repository.Some? && d.catalog.Some? {
      PackageCatalog.RepositoryIdStable(d.repository.value);
    }
  }

  /** Whatever bytes were read, a restored inventory satisfies the working invariant. */
  lemma RestoreKeepsWf(decode: string -> Option<StateDocument>, bytes: string, ps: seq<Package>, trusted: set<Digest>)
    requires Restore(decode, bytes, ps, trusted).Ok?
    ensures Wf(Restore(decode, bytes, ps, trusted).value)
  {
    hide ParseState, Validate, ReceiptsOk, RepositoryOk, CheckpointOk, HistoryOk;
    var state := ParseState(decode(bytes).value).value;
    var inv := Restore(decode, bytes, ps, trusted).value;
    ParsedStateOk(decode(bytes).value);
    RestoredReceipts(state, ps, trusted);
    ValidIff(inv);
    if state.generation == 0 {
      RestoredEmpty(state, ps, trusted);
    }
  }

  lemma RestoredReceipts(state: ParsedState, ps: seq<Package>, trusted: set<Digest>)
    requires RestoreState(state, ps, trusted).Ok?
    ensures Installed(RestoreState(state, ps, trusted).value) == state.installed
  {
    hide Validate;
    var inv := RestoreState(state, ps, trusted).value;
    assert Installed(inv).Keys == state.installed.Keys;
  }

  lemma RestoredEmpty(state: ParsedState, ps: seq<Package>, trusted: set<Digest>)
    requires RestoreState(state, ps, trusted).Ok?
    requires state.installed == map[] && state.highestSeen == map[] && state.catalog.None?
    requires HistoryOk(state.installed, state.highestSeen, state.rollbackTargets)
    ensures !Changed(RestoreState(state, ps, trusted).value, EMPTY)
  {
    hide Validate;
    RestoredReceipts(state, ps, trusted);
    assert state.rollbackTargets == map[];
    assert Installed(EMPTY) == map[];
  }

  // ---------- the round trip ----------

  lemma ParseRowOf(r: Receipt)
    requires ReceiptOk(r) && !IsBase(r.id)
    ensures ParseRow(RowOf(r)) == Ok(r)
  {
    DecodeHexOfHex(r.sha256);
  }

  /** The part of `m` whose ids are in `ids`. */
  function Restrict(m: map<PackId, Receipt>, ids: seq<PackId>): (r: map<PackId, Receipt>)
    requires forall id :: id in ids ==> id in m
    ensures forall id :: id in r <==> id in ids
    ensures forall id :: id in r ==> r[id] == m[id]
  {
    map id | id in ids :: m[id]
  }

  lemma RestrictStep(m: map<PackId, Receipt>, ids: seq<PackId>, parsed: map<PackId, Receipt>)
    requires |ids| > 0 && forall id :: id in ids ==> id in m
    ensures parsed[ids[0] := m[ids[0]]] + Restrict(m, ids[1..]) == parsed + Restrict(m, ids)
  {
    assert forall id :: id in ids <==> id == ids[0] || id in ids[1..];
  }

  lemma RestrictAll(m: map<PackId, Receipt>, ids: seq<PackId>)
    requires forall id :: id in ids <==> id in m
    ensures map[] + Restrict(m, ids) == m
  {
  }

  lemma {:induction false} ParseRowsOf(m: map<PackId, Receipt>, ids: seq<PackId>, parsed: map<PackId, Receipt>)
    requires ReceiptsOk(m) && Distinct(ids) && forall id :: id in ids ==> id in m && id !in parsed
    ensures ParseRows(RowsOf(m, ids), parsed) == Ok(parsed + Restrict(m, ids))
    decreases |ids|
  {
    hide ReceiptOk, ParseRow, RowOf, Restrict;
    if |ids| == 0 {
      assert Restrict(m, ids) == map[];
      assert parsed + Restrict(m, ids) == parsed;
    } else {
      var r, rest := m[ids[0]], ids[1..];
      ParseRowOf(r);
      assert RowsOf(m, ids)[1..] == RowsOf(m, rest);
      assert ids[0] in ids && ids[0] !in rest;
      assert forall id :: id in rest ==> id in ids;
      ParseRowsOf(m, rest, parsed[r.id := r]);
      RestrictStep(m, ids, parsed);
    }
  }

  lemma ParseRowsInverts(m: map<PackId, Receipt>)
    requires ReceiptsOk(m)
    ensures ParseRows(Rows(m), map[]) == Ok(m)
  {
    hide ReceiptsOk, ParseRows, Restrict, RowsOf;
    var ids := SortedKeys(m.Keys);
    AscendingDistinct(ids);
    RestrictAll(m, ids);
    ParseRowsOf(m, ids, map[]);
  }

  /** The bytes of the receipts of `ids`, in that order. */
  function SumOf(m: map<PackId, Receipt>, ids: seq<PackId>): nat
    requires forall id :: id in ids ==> id in m
  {
    if |ids| == 0 then 0 else m[ids[0]].bytes + SumOf(m, ids[1..])
  }

  lemma {:induction false} SumIsTotal(m: map<PackId, Receipt>, ids: seq<PackId>)
    requires Distinct(ids) && forall id :: id in ids <==> id in m
    ensures SumOf(m, ids) == TotalBytes(m)
    decreases |ids|
  {
    if |ids| == 0 {
      assert m == map[];
    } else {
      var rest := ids[1..];
      assert ids[0] in ids && ids[0] !in rest;
      assert forall id :: id in rest <==> id in m - {ids[0]};
      TotalBytesPick(m, ids[0]);
      SumIsTotal(m - {ids[0]}, rest);
      SumSame(m, m - {ids[0]}, rest);
    }
  }

  lemma {:induction false} SumSame(a: map<PackId, Receipt>, b: map<PackId, Receipt>, ids: seq<PackId>)
    requires forall id :: id in ids ==> id in a && id in b && a[id] == b[id]
    ensures SumOf(a, ids) == SumOf(b, ids)
  {
    if |ids| > 0 {
      SumSame(a, b, ids[1..]);
    }
  }

  lemma {:induction false} ParseInstalledOf(m: map<PackId, Receipt>, ids: seq<PackId>, parsed: map<PackId, Receipt>,
      total: nat)
    requires ReceiptsOk(m) && forall id :: id in ids ==> id in m
    requires ParseRows(RowsOf(m, ids), parsed).Ok?
    requires total + SumOf(m, ids) <= MAX_SELECTED_DOWNLOAD_BYTES
    ensures ParseInstalled(RowsOf(m, ids), parsed, total) == ParseRows(RowsOf(m, ids), parsed)
    decreases |ids|
  {
    hide ReceiptOk, ParseRow;
    if |ids| > 0 {
      var r, rest := m[ids[0]], ids[1..];
      assert ids[0] in ids;
      ParseRowOf(r);
      assert RowsOf(m, ids)[1..] == RowsOf(m, rest);
      assert forall id :: id in rest ==> id in ids;
      ParseInstalledOf(m, rest, parsed[r.id := r], total + r.bytes);
    }
  }

  lemma ParseInstalledInverts(m: map<PackId, Receipt>)
    requires ReceiptsOk(m) && TotalBytes(m) <= MAX_SELECTED_DOWNLOAD_BYTES
    ensures ParseInstalled(Rows(m), map[], 0) == Ok(m)
  {
    hide ReceiptsOk, ParseInstalled, ParseRows;
    var ids := SortedKeys(m.Keys);
    AscendingDistinct(ids);
    ParseRowsInverts(m);
    assert forall id :: id in ids <==> id in m;
    SumIsTotal(m, ids);
    ParseInstalledOf(m, ids, map[], 0);
  }

  lemma ParseCheckpointInverts(c: Checkpoint)
    requires CheckpointOk(c)
    ensures ParseCheckpoint(CheckpointOf(c)) == Ok(Some(c))
  {
    DecodeHexOfHex(c.documentSha256);
    DecodeHexOfHex(c.signerSha256);
  }

  function ParsedOf(inv: Inventory): ParsedState
  {
    ParsedState(inv.generation, Installed(inv), inv.highestSeen, inv.rollbackTargets, inv.repository, inv.catalog)
  }

  lemma ParseHistoryInverts(inv: Inventory)
    requires Wf(inv)
    ensures ParseHistory(Document(inv)) == Ok((Installed(inv), inv.highestSeen, inv.rollbackTargets))
  {
    hide ReceiptsOk, HistoryOk, Validate, ParseRows, ParseInstalled, Rows;
    WfParts(inv);
    ParseRowsInverts(inv.highestSeen);
    ParseRowsInverts(inv.rollbackTargets);
    ParseInstalledInverts(Installed(inv));
  }

  lemma WfParts(inv: Inventory)
    requires Wf(inv)
    ensures HistoryOk(Installed(inv), inv.highestSeen, inv.rollbackTargets)
    ensures TotalBytes(Installed(inv)) <= MAX_SELECTED_DOWNLOAD_BYTES
    ensures |Installed(inv)| <= MAX_OPTIONAL_PACKAGES && |inv.highestSeen| <= MAX_HISTORY
    ensures |inv.rollbackTargets| <= MAX_OPTIONAL_PACKAGES
    ensures Validate(inv).None?
  {
    hide ReceiptsOk, HistoryOk, Validate, TotalBytes;
    ValidIff(inv);
    assert |Installed(inv).Keys| == |inv.packages.Keys|;
  }

  lemma ParseSourceInverts(inv: Inventory)
    requires Wf(inv)
    ensures ParseSource(Document(inv)) == Ok((inv.repository, inv.catalog))
  {
    hide ReceiptsOk, Validate, Rows, CheckpointOk, ParseCheckpoint;
    if inv.catalog.Some? {
      ParseCheckpointInverts(inv.catalog.value);
    }
  }

  /** Parsing inverts the document; the formats are told apart by the presence of rollback targets. */
  lemma ParseInvertsDocument(inv: Inventory)
    requires Wf(inv)
    ensures ParseState(Document(inv)) == Ok(ParsedOf(inv))
    ensures Document(inv).format == (if inv.rollbackTargets == map[] then 1 else 2)
  {
    hide ReceiptsOk, ParseHistory, ParseSource, Validate, HistoryOk, Rows;
    WfParts(inv);
    ParseHistoryInverts(inv);
    ParseSourceInverts(inv);
    assert inv.rollbackTargets == map[] <==> |inv.rollbackTargets| == 0;
    if inv.generation == 0 {
      NothingChanged(inv);
    }
  }

  lemma NothingChanged(inv: Inventory)
    requires !Changed(inv, EMPTY)
    ensures |Installed(inv)| == 0 && |inv.highestSeen| == 0 && inv.catalog.None?
  {
    assert Installed(EMPTY) == map[];
  }

  /** `ps` holds exactly the installed packages, in any order. */
  ghost predicate Supplies(ps: seq<Package>, inv: Inventory)
  {
    && |ps| == |inv.packages|
    && (forall i :: 0 <= i < |ps| ==> ps[i].Id() in inv.packages && inv.packages[ps[i].Id()] == ps[i])
    && (forall i, j :: 0 <= i < j < |ps| ==> ps[i].Id() != ps[j].Id())
  }

  lemma {:induction false} SuppliedKeys(ps: seq<Package>, inv: Inventory, supplied: map<PackId, Package>)
    requires forall i :: 0 <= i < |ps| ==> ps[i].Id() in inv.packages && inv.packages[ps[i].Id()] == ps[i]
    requires forall i, j :: 0 <= i < j < |ps| ==> ps[i].Id() != ps[j].Id()
    requires forall i :: 0 <= i < |ps| ==> ps[i].Id() !in supplied
    requires forall id :: id in supplied ==> id in inv.packages && supplied[id] == inv.packages[id]
    ensures Supplied(ps, supplied).Ok?
    ensures forall id :: id in Supplied(ps, supplied).value ==>
      id in inv.packages && Supplied(ps, supplied).value[id] == inv.packages[id]
    ensures |Supplied(ps, supplied).value| == |supplied| + |ps|
    decreases |ps|
  {
    if |ps| > 0 {
      var more := supplied[ps[0].Id() := ps[0]];
      assert more.Keys == supplied.Keys + {ps[0].Id()};
      SuppliedKeys(ps[1..], inv, more);
    }
  }

  lemma SuppliedAll(ps: seq<Package>, inv: Inventory)
    requires Supplies(ps, inv)
    ensures Supplied(ps, map[]) == Ok(inv.packages)
  {
    SuppliedKeys(ps, inv, map[]);
    var m := Supplied(ps, map[]).value;
    assert m.Keys <= inv.packages.Keys;
    SameSize(m.Keys, inv.packages.Keys);
    assert m == inv.packages;
  }

  lemma {:induction false} SameSize<T>(a: set<T>, b: set<T>)
    requires a <= b && |a| == |b|
    ensures a == b
    decreases a
  {
    if a == {} {
      assert b == {};
    } else {
      var x :| x in a;
      SameSize(a - {x}, b - {x});
      assert a == (a - {x}) + {x} && b == (b - {x}) + {x};
    }
  }

  /** What the trust policy lets a restore keep of an inventory. */
  function Trusted(inv: Inventory, trusted: set<Digest>): Inventory
  {
    if inv.catalog.Some? && inv.catalog.value.signerSha256 in trusted then inv
    else inv.(repository := None, catalog := None)
  }

  lemma RestoreParsed(inv: Inventory, ps: seq<Package>, trusted: set<Digest>)
    requires Wf(inv) && Supplies(ps, inv)
    ensures RestoreState(ParsedOf(inv), ps, trusted) == Ok(Trusted(inv, trusted))
  {
    hide ReceiptsOk, Validate, RepositoryOk, CheckpointOk;
    WfParts(inv);
    SuppliedAll(ps, inv);
    assert |Installed(inv).Keys| == |inv.packages.Keys|;
    var packages := map id | id in Installed(inv) :: inv.packages[id];
    assert packages == inv.packages;
    assert Validate(Trusted(inv, trusted)) == Validate(inv) by {
      SameValid(inv, trusted);
    }
  }

  lemma SameValid(inv: Inventory, trusted: set<Digest>)
    ensures Validate(Trusted(inv, trusted)) == Validate(inv)
  {
    hide TotalBytes, HistoryOk, SnapshotBuilds;
  }

  /**
   * Saving and restoring an inventory gives it back when the key that signed its catalog is still
   * trusted, and otherwise gives it back with exactly the repository and the checkpoint forgotten.
   */
  lemma RestoreInvertsStateBytes(
    decode: string -> Option<StateDocument>, inv: Inventory, ps: seq<Package>, trusted: set<Digest>)
    requires DecoderOk(decode) && Wf(inv) && Supplies(ps, inv)
    ensures StateBytes(inv).Ok?
    ensures Restore(decode, StateBytes(inv).value, ps, trusted) == Ok(Trusted(inv, trusted))
  {
    hide *;
    WfFits(inv);
    DocumentPlain(inv);
    StateFits(inv);
    ParseInvertsDocument(inv);
    RestoreParsed(inv, ps, trusted);
    RestoreDecoded(decode, inv, ps, trusted);
  }

  lemma StateFits(inv: Inventory)
    requires Bounded(inv)
    ensures |Render(Document(inv))| <= MAX_INVENTORY_STATE_BYTES
  {
    hide Render, Document;
    StateAlwaysFits(inv);
  }

  lemma RestoreDecoded(
    decode: string -> Option<StateDocument>, inv: Inventory, ps: seq<Package>, trusted: set<Digest>)
    requires DecoderOk(decode) && PlainDocument(Document(inv))
    requires |Render(Document(inv))| <= MAX_INVENTORY_STATE_BYTES
    requires ParseState(Document(inv)) == Ok(ParsedOf(inv))
    ensures Restore(decode, Render(Document(inv)), ps, trusted) == RestoreState(ParsedOf(inv), ps, trusted)
  {
    hide Render, Document, ParseState, RestoreState, PlainDocument;
  }
}
