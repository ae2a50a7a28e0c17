/**
 * What a saved state must be to be restored: every field of its document, and the packages that come with it, with
 * the refusal that meets the others (src/package_inventory.rs).
 */
module RestoreOutcomes {
  import opened Wrappers
  import opened Strings
  import opened PackageInventory
  import opened StateFormat
  import opened InventoryGuard
  import opened InventoryPersistence
  import opened GuardOutcomes
  import PackageCatalog
  import SelectionOutcomes
  import Localization

  // ---------- rows ----------

  /** The receipt a row stands for. */
  ghost predicate RowGives(row: ReceiptDocument, r: Receipt)
  {
    && Localization.IdGrammar(row.id) && r.id == ToLowerAscii(row.id) && r.id != "en-us"
    && 1 <= row.revision && r.revision == row.revision
    && 1 <= row.bytes && row.bytes <= 67108864 && r.bytes == row.bytes
    && |r.sha256| == 32 && Hex(r.sha256) == ToLowerAscii(row.sha256)
  }

  lemma RowIff(row: ReceiptDocument)
    ensures forall r :: ParseRow(row) == Ok(r) <==> RowGives(row, r)
    ensures ParseRow(row).Err? ==> ParseRow(row) == Err(InvalidState)
  {
    hide Localization.IdGrammar, ToLowerAscii, DecodeHex, Hex;
    forall r
      ensures ParseRow(row) == Ok(r) <==> RowGives(row, r)
    {
      DecodeHexIff(row.sha256, r.sha256);
      if ParseRow(row).Ok? { DecodeHexIff(row.sha256, ParseRow(row).value.sha256); }
    }
  }

  function IdOfRow(row: ReceiptDocument): PackId { ToLowerAscii(row.id) }

  /** The receipts of the first `k` rows, each under its identifier, which no two share. */
  ghost predicate Held(m: map<PackId, Receipt>, rows: seq<ReceiptDocument>, k: nat)
    requires k <= |rows|
  {
    && (forall i :: 0 <= i < k ==> IdOfRow(rows[i]) in m && RowGives(rows[i], m[IdOfRow(rows[i])]))
    && (forall id :: id in m ==> exists i :: 0 <= i < k && IdOfRow(rows[i]) == id)
    && (forall i, j :: 0 <= i < j < k ==> IdOfRow(rows[i]) != IdOfRow(rows[j]))
  }

  /** Row `k` stands for a receipt, of an identifier that no row before it has. */
  ghost predicate GoodRow(rows: seq<ReceiptDocument>, k: nat)
    requires k < |rows|
  {
    && (exists r :: RowGives(rows[k], r))
    && forall i :: 0 <= i < k ==> IdOfRow(rows[i]) != IdOfRow(rows[k])
  }

  ghost predicate GoodRows(rows: seq<ReceiptDocument>)
  {
    forall k :: 0 <= k < |rows| ==> GoodRow(rows, k)
  }

  /** What both loops over rows do with the `k`-th. */
  lemma AtRow(rows: seq<ReceiptDocument>, k: nat, m: map<PackId, Receipt>)
    requires k < |rows| && Held(m, rows, k)
    ensures GoodRow(rows, k) ==>
      && ParseRow(rows[k]).Ok? && ParseRow(rows[k]).value.id == IdOfRow(rows[k]) && IdOfRow(rows[k]) !in m
      && Held(m[IdOfRow(rows[k]) := ParseRow(rows[k]).value], rows, k + 1)
    ensures !GoodRow(rows, k) && ParseRow(rows[k]).Ok? ==> ParseRow(rows[k]).value.id in m
    ensures ParseRow(rows[k]).Err? ==> !GoodRow(rows, k) && ParseRow(rows[k]) == Err(InvalidState)
    ensures ParseRow(rows[k]).Ok? ==> ParseRow(rows[k]).value.bytes == rows[k].bytes
  {
    hide ParseRow, ToLowerAscii;
    RowIff(rows[k]);
    if ParseRow(rows[k]).Ok? {
      var r := ParseRow(rows[k]).value;
      GivesId(rows[k], r);
      if GoodRow(rows, k) { HeldNext(rows, k, m, r); }
    }
  }

  lemma GivesId(row: ReceiptDocument, r: Receipt)
    requires RowGives(row, r)
    ensures r.id == IdOfRow(row) && r.bytes == row.bytes
  {
  }

  lemma HeldNext(rows: seq<ReceiptDocument>, k: nat, m: map<PackId, Receipt>, r: Receipt)
    requires k < |rows| && Held(m, rows, k) && GoodRow(rows, k) && RowGives(rows[k], r)
    ensures IdOfRow(rows[k]) !in m && Held(m[IdOfRow(rows[k]) := r], rows, k + 1)
  {
    hide RowGives, ToLowerAscii;
  }

  lemma {:induction false} RowsFrom(rows: seq<ReceiptDocument>, k: nat, m: map<PackId, Receipt>)
    requires k <= |rows| && Held(m, rows, k)
    ensures var r := ParseRows(rows[k..], m);
      && (r.Ok? <==> forall i :: k <= i < |rows| ==> GoodRow(rows, i))
      && (r.Ok? ==> Held(r.value, rows, |rows|)) && (r.Err? ==> r == Err(InvalidState))
    decreases |rows| - k
  {
    hide ParseRow, Held, GoodRow;
    if k < |rows| {
      AtRow(rows, k, m);
      assert rows[k..][0] == rows[k] && rows[k..][1..] == rows[k + 1..];
      if GoodRow(rows, k) { RowsFrom(rows, k + 1, m[IdOfRow(rows[k]) := ParseRow(rows[k]).value]); }
    }
  }

  lemma RowsOutcome(rows: seq<ReceiptDocument>)
    ensures var r := ParseRows(rows, map[]);
      && (r.Ok? <==> GoodRows(rows)) && (r.Ok? ==> Held(r.value, rows, |rows|)) && (r.Err? ==> r == Err(InvalidState))
  {
    hide ParseRows, GoodRow, RowGives;
    assert rows[0..] == rows;
    RowsFrom(rows, 0, map[]);
  }

  function BytesOfRows(rows: seq<ReceiptDocument>, k: nat): nat
    requires k <= |rows|
  {
    if k == 0 then 0 else BytesOfRows(rows, k - 1) + rows[k - 1].bytes
  }

  lemma {:induction false} RowBytesGrow(rows: seq<ReceiptDocument>, i: nat, k: nat)
    requires i <= k <= |rows|
    ensures BytesOfRows(rows, i) <= BytesOfRows(rows, k)
  {
    if i < k { RowBytesGrow(rows, i, k - 1); }
  }

  /** The first row that is no good, or that takes the total above its limit, and what that is refused as. */
  ghost predicate StopsAt(rows: seq<ReceiptDocument>, k: nat, e: InventoryError)
    requires k < |rows|
  {
    if !GoodRow(rows, k) then e == InvalidState else BytesOfRows(rows, k + 1) > 536870912 && e == TooLarge
  }

  ghost predicate PassesRow(rows: seq<ReceiptDocument>, k: nat)
    requires k < |rows|
  {
    GoodRow(rows, k) && BytesOfRows(rows, k + 1) <= 536870912
  }

  /** The loop over the installed rows at the `k`-th: it stops there, or goes on with what remains. */
  lemma InstalledStep(rows: seq<ReceiptDocument>, k: nat, m: map<PackId, Receipt>)
    requires k < |rows| && Held(m, rows, k)
    ensures var r := ParseInstalled(rows[k..], m, BytesOfRows(rows, k));
      && (!PassesRow(rows, k) ==> r.Err? && forall e :: StopsAt(rows, k, e) ==> r == Err(e))
      && (PassesRow(rows, k) ==>
            && ParseRow(rows[k]).Ok? && (forall e :: !StopsAt(rows, k, e))
            && var next := m[IdOfRow(rows[k]) := ParseRow(rows[k]).value];
            && Held(next, rows, k + 1)
            && r == ParseInstalled(rows[k + 1..], next, BytesOfRows(rows, k + 1)))
  {
    hide ParseRow, Held, GoodRow;
    AtRow(rows, k, m);
    assert rows[k..][0] == rows[k] && rows[k..][1..] == rows[k + 1..];
  }

  lemma NoMoreRows(rows: seq<ReceiptDocument>, m: map<PackId, Receipt>)
    ensures ParseInstalled(rows[|rows|..], m, BytesOfRows(rows, |rows|)) == Ok(m)
  {
  }

  ghost predicate FirstStopAt(rows: seq<ReceiptDocument>, from: nat, k: int, e: InventoryError)
  {
    from <= k < |rows| && StopsAt(rows, k, e) && forall j :: from <= j < k ==> PassesRow(rows, j)
  }

  lemma StopsLater(rows: seq<ReceiptDocument>, from: nat, k: int, e: InventoryError)
    requires from < |rows| && FirstStopAt(rows, from, k, e)
    ensures (k == from && StopsAt(rows, from, e)) || (PassesRow(rows, from) && FirstStopAt(rows, from + 1, k, e))
  {
    hide StopsAt, PassesRow;
  }

  lemma {:induction false} InstalledFrom(rows: seq<ReceiptDocument>, k: nat, m: map<PackId, Receipt>)
    requires k <= |rows| && Held(m, rows, k)
    ensures var r := ParseInstalled(rows[k..], m, BytesOfRows(rows, k));
      && (r.Ok? <==> forall i :: k <= i < |rows| ==> PassesRow(rows, i))
      && (r.Ok? ==> Held(r.value, rows, |rows|))
      && forall i, e :: FirstStopAt(rows, k, i, e) ==> r == Err(e)
    decreases |rows| - k
  {
    hide *;
    if k == |rows| {
      NoMoreRows(rows, m);
      NoStopBeyond(rows);
    } else {
      InstalledStep(rows, k, m);
      forall i, e | FirstStopAt(rows, k, i, e)
        ensures (i == k && StopsAt(rows, k, e)) || (PassesRow(rows, k) && FirstStopAt(rows, k + 1, i, e))
      {
        StopsLater(rows, k, i, e);
      }
      PassesNoStop(rows, k);
      if PassesRow(rows, k) { InstalledFrom(rows, k + 1, m[IdOfRow(rows[k]) := ParseRow(rows[k]).value]); }
    }
  }

  lemma NoStopBeyond(rows: seq<ReceiptDocument>)
    ensures forall i, e :: !FirstStopAt(rows, |rows|, i, e)
  {
  }

  lemma PassesNoStop(rows: seq<ReceiptDocument>, k: nat)
    requires k < |rows|
    ensures forall e :: !(PassesRow(rows, k) && StopsAt(rows, k, e))
  {
    hide GoodRow;
  }

  /** The installed rows: all good and together small enough, or the first that stops them. */
  lemma InstalledOutcome(rows: seq<ReceiptDocument>)
    ensures var r := ParseInstalled(rows, map[], 0);
      && (r.Ok? <==> GoodRows(rows) && BytesOfRows(rows, |rows|) <= 536870912)
      && (r.Ok? ==> Held(r.value, rows, |rows|)) && forall i, e :: FirstStopAt(rows, 0, i, e) ==> r == Err(e)
  {
    hide ParseInstalled, GoodRows, RowGives, FirstStopAt, PassesRow;
    assert rows[0..] == rows && BytesOfRows(rows, 0) == 0;
    InstalledFrom(rows, 0, map[]);
    AllPassIff(rows);
  }

  lemma AllPassIff(rows: seq<ReceiptDocument>)
    ensures (forall i :: 0 <= i < |rows| ==> PassesRow(rows, i)) <==>
      GoodRows(rows) && BytesOfRows(rows, |rows|) <= 536870912
  {
    hide GoodRow;
    if GoodRows(rows) && BytesOfRows(rows, |rows|) <= 536870912 {
      forall i | 0 <= i < |rows|
        ensures PassesRow(rows, i)
      {
        RowBytesGrow(rows, i + 1, |rows|);
        assert GoodRow(rows, i);
      }
    }
    if forall i :: 0 <= i < |rows| ==> PassesRow(rows, i) {
      forall i | 0 <= i < |rows|
        ensures GoodRow(rows, i)
      {
        assert PassesRow(rows, i);
      }
      if |rows| > 0 { assert PassesRow(rows, |rows| - 1); }
    }
  }

  // ---------- the source of the catalog ----------

  /** The checkpoint a document stands for: none when no signer was recorded. */
  ghost predicate CheckpointGives(c: CheckpointDocument, checkpoint: Option<Checkpoint>)
  {
    if c.signerSha256.None? then checkpoint.None?
    else
      && checkpoint.Some? && 1 <= c.revision && checkpoint.value.revision == c.revision
      && |checkpoint.value.documentSha256| == 32 && Hex(checkpoint.value.documentSha256) == ToLowerAscii(c.sha256)
      && |checkpoint.value.signerSha256| == 32
      && Hex(checkpoint.value.signerSha256) == ToLowerAscii(c.signerSha256.value)
  }

  lemma CheckpointIff(c: CheckpointDocument)
    ensures forall checkpoint :: ParseCheckpoint(c) == Ok(checkpoint) <==> CheckpointGives(c, checkpoint)
  {
    hide ToLowerAscii, DecodeHex, Hex;
    forall checkpoint
      ensures ParseCheckpoint(c) == Ok(checkpoint) <==> CheckpointGives(c, checkpoint)
    {
      if c.signerSha256.Some? {
        if checkpoint.Some? {
          DecodeHexIff(c.sha256, checkpoint.value.documentSha256);
          DecodeHexIff(c.signerSha256.value, checkpoint.value.signerSha256);
        }
        if ParseCheckpoint(c).Ok? {
          DecodeHexIff(c.sha256, ParseCheckpoint(c).value.value.documentSha256);
          DecodeHexIff(c.signerSha256.value, ParseCheckpoint(c).value.value.signerSha256);
        }
      }
    }
  }

  /** A digest that is no digest is refused before a revision of zero is. */
  lemma CheckpointRefusals(c: CheckpointDocument)
    requires c.signerSha256.Some?
    ensures DecodeHex(c.sha256, 32).None? || DecodeHex(c.signerSha256.value, 32).None? ==>
      ParseCheckpoint(c) == Err(InvalidState)
    ensures DecodeHex(c.sha256, 32).Some? && DecodeHex(c.signerSha256.value, 32).Some? && c.revision == 0 ==>
      ParseCheckpoint(c) == Err(Plan(InvalidData))
  {
    hide DecodeHex;
  }

  /** Repository and checkpoint come together or not at all, the name in lower case. */
  ghost predicate SourceGives(d: StateDocument, repository: Option<string>, catalog: Option<Checkpoint>)
  {
    || (d.repository.None? && d.catalog.None? && repository.None? && catalog.None?)
    || (d.repository.Some? && d.catalog.Some? && CheckpointGives(d.catalog.value, catalog)
        && SelectionOutcomes.RepositoryName(d.repository.value)
        && repository == Some(ToLowerAscii(d.repository.value)))
  }

  lemma SourceIff(d: StateDocument)
    ensures forall repository, catalog ::
      ParseSource(d) == Ok((repository, catalog)) <==> SourceGives(d, repository, catalog)
    ensures d.repository.Some? != d.catalog.Some? ==> ParseSource(d) == Err(InvalidState)
    ensures d.repository.Some? && d.catalog.Some? && !SelectionOutcomes.RepositoryName(d.repository.value) ==>
      ParseSource(d) == Err(Plan(InvalidData))
    ensures d.repository.Some? && d.catalog.Some? && SelectionOutcomes.RepositoryName(d.repository.value) ==>
      forall e :: ParseCheckpoint(d.catalog.value) == Err(e) ==> ParseSource(d) == Err(e)
  {
    hide ToLowerAscii, ParseCheckpoint, CheckpointGives, PackageCatalog.RepositoryId, SelectionOutcomes.RepositoryName;
    if d.repository.Some? { SelectionOutcomes.RepositoryIdIs(d.repository.value); }
    if d.catalog.Some? { CheckpointIff(d.catalog.value); }
  }

  // ---------- the whole document ----------

  /** Each receipt is at its mark or at the target recorded below it, and each target belongs to an installed one. */
  ghost predicate SoundMaps(installed: map<PackId, Receipt>, marks: map<PackId, Receipt>, targets: map<PackId, Receipt>)
  {
    && (forall id :: id in installed ==>
          && id in marks
          && (installed[id] == marks[id] || (id in targets && targets[id] == installed[id])))
    && (forall id :: id in targets ==>
          targets[id].id == id && id in installed && id in marks && targets[id].revision < marks[id].revision)
  }

  lemma SoundMapsIff(installed: map<PackId, Receipt>, marks: map<PackId, Receipt>, targets: map<PackId, Receipt>)
    ensures HistoryOk(installed, marks, targets) <==> SoundMaps(installed, marks, targets)
  {
  }

  /** The format follows from the presence of rollback targets, and no list is too long. */
  ghost predicate FormatFits(d: StateDocument)
  {
    d.format == if d.rollbackTargets == [] then 1 else 2
  }

  ghost predicate CountsFit(d: StateDocument)
  {
    |d.installed| <= 63 && |d.highestSeen| <= 1024 && |d.rollbackTargets| <= 63
  }

  /** Before the first generation nothing is installed, seen or accepted. */
  ghost predicate FreshIfNew(d: StateDocument)
  {
    d.generation == 0 ==> d.installed == [] && d.highestSeen == [] && d.catalog.None?
  }

  /** The state a document stands for. */
  ghost predicate StateGives(d: StateDocument, s: ParsedState)
  {
    && FormatFits(d) && CountsFit(d) && s.generation == d.generation
    && Held(s.highestSeen, d.highestSeen, |d.highestSeen|)
    && Held(s.rollbackTargets, d.rollbackTargets, |d.rollbackTargets|)
    && Held(s.installed, d.installed, |d.installed|) && BytesOfRows(d.installed, |d.installed|) <= 536870912
    && SoundMaps(s.installed, s.highestSeen, s.rollbackTargets)
    && FreshIfNew(d) && SourceGives(d, s.repository, s.catalog)
  }

  lemma HeldOnce(rows: seq<ReceiptDocument>, a: map<PackId, Receipt>)
    requires Held(a, rows, |rows|)
    ensures GoodRows(rows) && |a| == |rows|
    ensures forall b :: Held(b, rows, |rows|) ==> b == a
  {
    hide ParseRows, RowGives, GoodRow;
    RowsOutcome(rows);
    assert GoodRows(rows) by { HeldGood(rows, a); }
    HeldSame(rows, a, ParseRows(rows, map[]).value);
    forall b | Held(b, rows, |rows|)
      ensures b == a
    {
      HeldSame(rows, a, b);
    }
    HeldCount(rows, a, |rows|);
  }

  lemma HeldGood(rows: seq<ReceiptDocument>, a: map<PackId, Receipt>)
    requires Held(a, rows, |rows|)
    ensures GoodRows(rows)
  {
    hide RowGives;
    forall k | 0 <= k < |rows|
      ensures GoodRow(rows, k)
    {
      assert RowGives(rows[k], a[IdOfRow(rows[k])]);
    }
  }

  lemma HeldSame(rows: seq<ReceiptDocument>, a: map<PackId, Receipt>, b: map<PackId, Receipt>)
    requires Held(a, rows, |rows|) && Held(b, rows, |rows|)
    ensures a == b
  {
    hide Held;
    forall id | id in a
      ensures id in b && a[id] == b[id]
    {
      HeldAt(rows, a, b, id);
    }
    forall id | id in b
      ensures id in a
    {
      HeldAt(rows, b, a, id);
    }
  }

  lemma HeldAt(rows: seq<ReceiptDocument>, a: map<PackId, Receipt>, b: map<PackId, Receipt>, id: PackId)
    requires Held(a, rows, |rows|) && Held(b, rows, |rows|) && id in a
    ensures id in b && a[id] == b[id]
  {
    hide RowGives;
    var i :| 0 <= i < |rows| && IdOfRow(rows[i]) == id;
    RowOnce(rows[i], a[id], b[id]);
  }

  lemma RowOnce(row: ReceiptDocument, a: Receipt, b: Receipt)
    requires RowGives(row, a) && RowGives(row, b)
    ensures a == b
  {
    hide ParseRow, RowGives;
    RowIff(row);
    assert ParseRow(row) == Ok(a) && ParseRow(row) == Ok(b);
  }

  lemma {:induction false} HeldCount(rows: seq<ReceiptDocument>, a: map<PackId, Receipt>, k: nat)
    requires k <= |rows| && Held(a, rows, k)
    ensures |a| == k
  {
    hide Held;
    HeldLess(rows, a, k);
    if k > 0 {
      var last := IdOfRow(rows[k - 1]);
      HeldCount(rows, a - {last}, k - 1);
      assert a.Keys == (a - {last}).Keys + {last};
    }
  }

  lemma HeldLess(rows: seq<ReceiptDocument>, a: map<PackId, Receipt>, k: nat)
    requires k <= |rows| && Held(a, rows, k)
    ensures k == 0 ==> a == map[]
    ensures k > 0 ==> IdOfRow(rows[k - 1]) in a && Held(a - {IdOfRow(rows[k - 1])}, rows, k - 1)
  {
    hide RowGives;
  }

  /** The three lists of a document, read one after the other. */
  ghost predicate HistoryGives(d: StateDocument, installed: map<PackId, Receipt>, marks: map<PackId, Receipt>,
      targets: map<PackId, Receipt>)
  {
    && Held(marks, d.highestSeen, |d.highestSeen|) && Held(targets, d.rollbackTargets, |d.rollbackTargets|)
    && Held(installed, d.installed, |d.installed|) && BytesOfRows(d.installed, |d.installed|) <= 536870912
    && SoundMaps(installed, marks, targets)
  }

  lemma HistoryIff(d: StateDocument, installed: map<PackId, Receipt>, marks: map<PackId, Receipt>,
      targets: map<PackId, Receipt>)
    requires CountsFit(d)
    ensures ParseHistory(d) == Ok((installed, marks, targets)) <==> HistoryGives(d, installed, marks, targets)
  {
    hide ParseRows, ParseInstalled, Held, GoodRows, FirstStopAt, HistoryOk, SoundMaps, BytesOfRows;
    RowsOutcome(d.highestSeen);
    RowsOutcome(d.rollbackTargets);
    InstalledOutcome(d.installed);
    SoundMapsIff(installed, marks, targets);
    if Held(targets, d.rollbackTargets, |d.rollbackTargets|) { HeldOnce(d.rollbackTargets, targets); }
    if HistoryGives(d, installed, marks, targets) {
      HeldOnce(d.highestSeen, marks);
      HeldOnce(d.installed, installed);
    }
  }

  lemma HistoryRefusals(d: StateDocument)
    requires CountsFit(d)
    ensures !GoodRows(d.highestSeen) || !GoodRows(d.rollbackTargets) ==> ParseHistory(d) == Err(InvalidState)
    ensures GoodRows(d.highestSeen) && GoodRows(d.rollbackTargets) ==>
      forall i, e :: FirstStopAt(d.installed, 0, i, e) ==> ParseHistory(d) == Err(e)
    ensures forall installed, marks, targets ::
      && Held(marks, d.highestSeen, |d.highestSeen|) && Held(targets, d.rollbackTargets, |d.rollbackTargets|)
      && Held(installed, d.installed, |d.installed|) && BytesOfRows(d.installed, |d.installed|) <= 536870912
      && !SoundMaps(installed, marks, targets)
      ==> ParseHistory(d) == Err(InvalidState)
  {
    hide ParseRows, ParseInstalled, Held, GoodRows, FirstStopAt, HistoryOk, SoundMaps, BytesOfRows;
    RowsOutcome(d.highestSeen);
    RowsOutcome(d.rollbackTargets);
    InstalledOutcome(d.installed);
    forall installed, marks, targets |
      && Held(marks, d.highestSeen, |d.highestSeen|) && Held(targets, d.rollbackTargets, |d.rollbackTargets|)
      && Held(installed, d.installed, |d.installed|) && BytesOfRows(d.installed, |d.installed|) <= 536870912
      && !SoundMaps(installed, marks, targets)
      ensures ParseHistory(d) == Err(InvalidState)
    {
      HeldOnce(d.highestSeen, marks);
      HeldOnce(d.rollbackTargets, targets);
      HeldOnce(d.installed, installed);
      SoundMapsIff(installed, marks, targets);
    }
  }

  /** A document is read exactly as the state it stands for, and refused if it stands for none. */
  lemma StateIff(d: StateDocument, s: ParsedState)
    ensures ParseState(d) == Ok(s) <==> StateGives(d, s)
  {
    hide ParseHistory, ParseSource, Held, SoundMaps, SourceGives, BytesOfRows;
    SourceIff(d);
    if CountsFit(d) {
      HistoryIff(d, s.installed, s.highestSeen, s.rollbackTargets);
    }
  }

  /** Which refusal a document meets: its rules in their order, each on documents that pass those before it. */
  lemma StateRefusals(d: StateDocument)
    ensures !FormatFits(d) ==> ParseState(d) == Err(InvalidState)
    ensures FormatFits(d) && !CountsFit(d) ==> ParseState(d) == Err(TooLarge)
    ensures FormatFits(d) && CountsFit(d) ==>
      && (ParseHistory(d).Err? ==> ParseState(d) == Err(ParseHistory(d).error))
      && (ParseHistory(d).Ok? && !FreshIfNew(d) ==> ParseState(d) == Err(InvalidState))
      && (ParseHistory(d).Ok? && FreshIfNew(d) && ParseSource(d).Err? ==> ParseState(d) == Err(ParseSource(d).error))
  {
    hide ParseHistory, ParseSource;
  }

  // ---------- with its packages ----------

  ghost predicate DistinctPackages(ps: seq<Package>)
  {
    forall i, j :: 0 <= i < j < |ps| ==> ps[i].receipt.id != ps[j].receipt.id
  }

  /** Each package under its identifier. */
  ghost predicate Indexed(m: map<PackId, Package>, ps: seq<Package>, k: nat)
    requires k <= |ps|
  {
    && (forall i :: 0 <= i < k ==> ps[i].receipt.id in m && m[ps[i].receipt.id] == ps[i])
    && (forall id :: id in m ==> exists i :: 0 <= i < k && ps[i].receipt.id == id)
  }

  lemma {:induction false} SuppliedFromTo(ps: seq<Package>, k: nat, m: map<PackId, Package>)
    requires k <= |ps| && Indexed(m, ps, k) && forall i, j :: 0 <= i < j < k ==> ps[i].receipt.id != ps[j].receipt.id
    ensures DistinctPackages(ps) ==> Supplied(ps[k..], m).Ok? && Indexed(Supplied(ps[k..], m).value, ps, |ps|)
    ensures !DistinctPackages(ps) ==> Supplied(ps[k..], m) == Err(DuplicatePackage)
    decreases |ps| - k
  {
    if k < |ps| {
      assert ps[k..][0] == ps[k] && ps[k..][1..] == ps[k + 1..];
      if ps[k].Id() in m {
        assert !DistinctPackages(ps);
      } else {
        SuppliedFromTo(ps, k + 1, m[ps[k].Id() := ps[k]]);
      }
    }
  }

  lemma SuppliedOutcome(ps: seq<Package>)
    ensures DistinctPackages(ps) ==> Supplied(ps, map[]).Ok? && Indexed(Supplied(ps, map[]).value, ps, |ps|)
    ensures !DistinctPackages(ps) ==> Supplied(ps, map[]) == Err(DuplicatePackage)
  {
    hide DistinctPackages;
    assert ps[0..] == ps;
    SuppliedFromTo(ps, 0, map[]);
  }

  /** Exactly the installed receipts come with their packages. */
  ghost predicate Matching(s: ParsedState, ps: seq<Package>)
  {
    && |ps| == |s.installed| && DistinctPackages(ps)
    && forall id :: id in s.installed ==>
         exists i :: 0 <= i < |ps| && ps[i].receipt == s.installed[id] && s.installed[id].id == id
  }

  /** What is restored: the state with its packages; the source only as far as its signer is trusted. */
  ghost predicate RestoredAs(s: ParsedState, ps: seq<Package>, trusted: set<Digest>, inv: Inventory)
  {
    && inv.generation == s.generation && inv.highestSeen == s.highestSeen && inv.rollbackTargets == s.rollbackTargets
    && inv.packages.Keys == s.installed.Keys
    && (forall id :: id in inv.packages ==> inv.packages[id] in ps && inv.packages[id].receipt.id == id)
    && (if s.catalog.Some? && s.catalog.value.signerSha256 in trusted
        then inv.repository == s.repository && inv.catalog == s.catalog
        else inv.repository.None? && inv.catalog.None?)
  }

  /** Installed receipts are kept under their own identifiers, as every document gives them. */
  ghost predicate OwnIds(s: ParsedState)
  {
    forall id :: id in s.installed ==> s.installed[id].id == id
  }

  lemma GivenIds(d: StateDocument, s: ParsedState)
    requires StateGives(d, s)
    ensures OwnIds(s)
  {
    hide SourceGives, SoundMaps, ToLowerAscii;
    forall id | id in s.installed
      ensures s.installed[id].id == id
    {
      var i :| 0 <= i < |d.installed| && IdOfRow(d.installed[i]) == id;
      GivesId(d.installed[i], s.installed[id]);
    }
  }

  lemma MatchingIff(s: ParsedState, ps: seq<Package>, supplied: map<PackId, Package>)
    requires OwnIds(s) && DistinctPackages(ps) && Indexed(supplied, ps, |ps|) && |ps| == |s.installed|
    ensures Matching(s, ps) <==>
      !exists id :: id in s.installed && (id !in supplied || supplied[id].receipt != s.installed[id])
  {
    if Matching(s, ps) {
      forall id | id in s.installed
        ensures id in supplied && supplied[id].receipt == s.installed[id]
      {
        var i :| 0 <= i < |ps| && ps[i].receipt == s.installed[id] && s.installed[id].id == id;
        assert supplied[ps[i].receipt.id] == ps[i];
      }
    }
    if !exists id :: id in s.installed && (id !in supplied || supplied[id].receipt != s.installed[id]) {
      forall id | id in s.installed
        ensures exists i :: 0 <= i < |ps| && ps[i].receipt == s.installed[id] && s.installed[id].id == id
      {
        assert id in supplied;
        var i :| 0 <= i < |ps| && ps[i].receipt.id == id;
        assert supplied[ps[i].receipt.id] == ps[i];
      }
    }
  }

  /** With the right packages the state is restored as it is, or refused for what its packages are together. */
  lemma RestoreStateOutcome(s: ParsedState, ps: seq<Package>, trusted: set<Digest>)
    requires OwnIds(s)
    ensures var r := RestoreState(s, ps, trusted);
      && (|ps| != |s.installed| ==> r == Err(InvalidState))
      && (|ps| == |s.installed| && !DistinctPackages(ps) ==> r == Err(DuplicatePackage))
      && (|ps| == |s.installed| && DistinctPackages(ps) && !Matching(s, ps) ==> r == Err(InvalidState))
      && (Matching(s, ps) ==> exists inv :: RestoredAs(s, ps, trusted, inv) && Settled(inv, r))
  {
    hide *;
    SuppliedOutcome(ps);
    MatchingCount(s, ps);
    EarlyRefusals(s, ps, trusted);
    if |ps| == |s.installed| && DistinctPackages(ps) {
      var supplied := Supplied(ps, map[]).value;
      MatchingIff(s, ps, supplied);
      if Matching(s, ps) {
        var inv := PutTogether(s, ps, supplied, trusted);
        ValidityIs(inv);
        SettledByValidity(inv, RestoreState(s, ps, trusted));
      }
    }
  }

  lemma EarlyRefusals(s: ParsedState, ps: seq<Package>, trusted: set<Digest>)
    ensures |ps| != |s.installed| ==> RestoreState(s, ps, trusted) == Err(InvalidState)
    ensures |ps| == |s.installed| && Supplied(ps, map[]).Err? ==>
      RestoreState(s, ps, trusted) == Err(Supplied(ps, map[]).error)
    ensures |ps| == |s.installed| && Supplied(ps, map[]).Ok? ==>
      var supplied := Supplied(ps, map[]).value;
      (exists id :: id in s.installed && (id !in supplied || supplied[id].receipt != s.installed[id])) ==>
      RestoreState(s, ps, trusted) == Err(InvalidState)
  {
    hide Supplied, Validate;
  }

  lemma PutTogether(s: ParsedState, ps: seq<Package>, supplied: map<PackId, Package>, trusted: set<Digest>)
    returns (inv: Inventory)
    requires |ps| == |s.installed| && Supplied(ps, map[]) == Ok(supplied) && Indexed(supplied, ps, |ps|)
    requires !exists id :: id in s.installed && (id !in supplied || supplied[id].receipt != s.installed[id])
    ensures RestoredAs(s, ps, trusted, inv)
    ensures RestoreState(s, ps, trusted) == match Validate(inv) case Some(e) => Err(e) case None => Ok(inv)
  {
    hide Supplied, Validate, Indexed, RestoredAs;
    assert forall id :: id in s.installed ==> id in supplied;
    var keep := s.catalog.Some? && s.catalog.value.signerSha256 in trusted;
    inv := Inventory(s.generation, map id | id in s.installed :: supplied[id], s.highestSeen, s.rollbackTargets,
                     if keep then s.repository else None, if keep then s.catalog else None);
    RestoredFrom(s, ps, supplied, trusted, inv);
  }

  lemma SettledByValidity(inv: Inventory, r: Result<Inventory, InventoryError>)
    requires Validity(inv, Validate(inv)) && r == match Validate(inv) case Some(e) => Err(e) case None => Ok(inv)
    ensures Settled(inv, r)
  {
    hide Validity, Validate;
  }

  lemma MatchingCount(s: ParsedState, ps: seq<Package>)
    ensures Matching(s, ps) ==> |ps| == |s.installed| && DistinctPackages(ps)
  {
  }

  /** An inventory that is refused as its validity says, or given as it is. */
  ghost predicate Settled(inv: Inventory, r: Result<Inventory, InventoryError>)
  {
    match r
    case Ok(given) => given == inv && Validity(inv, None)
    case Err(e) => Validity(inv, Some(e))
  }

  lemma RestoredFrom(s: ParsedState, ps: seq<Package>, supplied: map<PackId, Package>, trusted: set<Digest>,
      inv: Inventory)
    requires Indexed(supplied, ps, |ps|) && forall id :: id in s.installed ==> id in supplied
    requires inv == Inventory(
      s.generation, map id | id in s.installed :: supplied[id], s.highestSeen, s.rollbackTargets,
      if s.catalog.Some? && s.catalog.value.signerSha256 in trusted then s.repository else None,
      if s.catalog.Some? && s.catalog.value.signerSha256 in trusted then s.catalog else None)
    ensures RestoredAs(s, ps, trusted, inv)
  {
    forall id | id in inv.packages
      ensures inv.packages[id] in ps && inv.packages[id].receipt.id == id
    {
      var i :| 0 <= i < |ps| && ps[i].receipt.id == id;
      assert supplied[ps[i].receipt.id] == ps[i];
    }
  }

  /**
   * A saved state is restored exactly when it is short enough, can be decoded, stands for a state, and comes with
   * exactly its packages; and what is restored is that state.
   */
  lemma RestoreOutcome(decode: string -> Option<StateDocument>, bytes: string, ps: seq<Package>, trusted: set<Digest>,
      inv: Inventory)
    requires Restore(decode, bytes, ps, trusted) == Ok(inv)
    ensures |bytes| <= 262144 && decode(bytes).Some?
    ensures exists s :: StateGives(decode(bytes).value, s) && Matching(s, ps) && RestoredAs(s, ps, trusted, inv)
    ensures Validity(inv, None)
  {
    hide StateGives, ParseState, RestoreState, Matching, RestoredAs, OwnIds, Validity, DistinctPackages;
    var d := decode(bytes).value;
    var s := ParseState(d).value;
    StateIff(d, s);
    GivenIds(d, s);
    RestoreStateOutcome(s, ps, trusted);
  }

  /** Which refusal a saved state meets: too long, not decodable, no state, or not restored with its packages. */
  lemma RestoreRefusals(decode: string -> Option<StateDocument>, bytes: string, ps: seq<Package>, trusted: set<Digest>)
    ensures |bytes| > 262144 ==> Restore(decode, bytes, ps, trusted) == Err(TooLarge)
    ensures |bytes| <= 262144 && decode(bytes).None? ==> Restore(decode, bytes, ps, trusted) == Err(InvalidState)
    ensures |bytes| <= 262144 && decode(bytes).Some? ==>
      && (ParseState(decode(bytes).value).Err? ==>
            Restore(decode, bytes, ps, trusted) == Err(ParseState(decode(bytes).value).error))
      && forall s :: StateGives(decode(bytes).value, s) ==>
           Restore(decode, bytes, ps, trusted) == RestoreState(s, ps, trusted)
  {
    hide ParseState, RestoreState, StateGives;
    if decode(bytes).Some? {
      forall s
        ensures ParseState(decode(bytes).value) == Ok(s) <==> StateGives(decode(bytes).value, s)
      {
        StateIff(decode(bytes).value, s);
      }
    }
  }
}
