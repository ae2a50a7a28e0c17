/**
 * The durable form of an inventory: the JSON document the store writes, its exact text, and the
 * proof that the text determines the document and stays below the size limit.
 */
module StateFormat {
  import opened Wrappers
  import opened Strings
  import opened PackageInventory

  const MAX_INVENTORY_STATE_BYTES: nat := 256 * 1024

  datatype ReceiptDocument = ReceiptDocument(id: string, revision: U64, bytes: U64, sha256: string)

  datatype CheckpointDocument = CheckpointDocument(revision: U64, sha256: string, signerSha256: Option<string>)

  datatype StateDocument = StateDocument(
    format: nat,
    generation: U64,
    repository: Option<string>,
    catalog: Option<CheckpointDocument>,
    installed: seq<ReceiptDocument>,
    highestSeen: seq<ReceiptDocument>,
    rollbackTargets: seq<ReceiptDocument>)

  // ---------- the text ----------

  function RowText(r: ReceiptDocument): string
  {
    "{\"id\":\""
      + (r.id + "\"" + (",\"revision\":" + (Decimal(r.revision) + "," + ("\"bytes\":" + (Decimal(r.bytes) + ","
      + ("\"sha256\":\"" + (r.sha256 + "\"" + "}")))))))
  }

  /** The rows after the first one and the closing bracket. */
  function TailText(rows: seq<ReceiptDocument>): string
  {
    if |rows| == 0 then [']'] else [','] + (RowText(rows[0]) + TailText(rows[1..]))
  }

  function RowsText(rows: seq<ReceiptDocument>): string
  {
    ['['] + (if |rows| == 0 then [']'] else RowText(rows[0]) + TailText(rows[1..]))
  }

  function StringText(s: Option<string>): string
  {
    match s
    case None => "null"
    case Some(t) => "\"" + (t + "\"" + "")
  }

  function SignerText(signer: Option<string>): string
  {
    match signer
    case None => "}"
    case Some(s) => ",\"signer_sha256\":\"" + (s + "\"" + "}")
  }

  function CheckpointText(c: Option<CheckpointDocument>): string
  {
    match c
    case None => "null"
    case Some(d) =>
      ['{'] + ("\"revision\":" + (Decimal(d.revision) + ","
        + ("\"sha256\":\"" + (d.sha256 + "\"" + SignerText(d.signerSha256)))))
  }

  function TargetsText(rows: seq<ReceiptDocument>): string
  {
    if |rows| == 0 then "}" else ",\"rollback_targets\":" + (RowsText(rows) + "}")
  }

  /** The text after the repository field. */
  function RestText(d: StateDocument): string
  {
    ",\"catalog\":" + (CheckpointText(d.catalog) + (",\"installed\":"
      + (RowsText(d.installed) + (",\"highest_seen\":" + (RowsText(d.highestSeen) + TargetsText(d.rollbackTargets))))))
  }

  /** The compact JSON text of a document; absent optional fields are skipped as serde does. */
  function Render(d: StateDocument): string
  {
    "{\"format\":" + (Decimal(d.format) + "," + ("\"generation\":" + (Decimal(d.generation) + ","
      + ("\"repository\":" + (StringText(d.repository) + RestText(d))))))
  }

  /** A text that stands for itself between the quotes of a JSON string (section 7 of RFC 8259). */
  predicate Plain(s: string)
  {
    forall c :: c in s ==> c != '"' && c != '\\' && ' ' <= c
  }

  ghost predicate PlainRow(r: ReceiptDocument)
  {
    Plain(r.id) && Plain(r.sha256)
  }

  ghost predicate PlainRows(rows: seq<ReceiptDocument>)
  {
    forall i :: 0 <= i < |rows| ==> PlainRow(rows[i])
  }

  ghost predicate PlainCheckpoint(c: Option<CheckpointDocument>)
  {
    c.Some? ==>
      Plain(c.value.sha256) && (c.value.signerSha256.Some? ==> Plain(c.value.signerSha256.value))
  }

  ghost predicate PlainDocument(d: StateDocument)
  {
    && d.format <= 2
    && (d.repository.Some? ==> Plain(d.repository.value))
    && PlainCheckpoint(d.catalog)
    && PlainRows(d.installed) && PlainRows(d.highestSeen) && PlainRows(d.rollbackTargets)
  }

  // ---------- the text determines the document ----------

  /** A field that ends at the first `sep` can be cut off a text in one way only. */
  lemma Cut(a: string, u: string, b: string, v: string, sep: char)
    requires sep !in a && sep !in b
    requires a + [sep] + u == b + [sep] + v
    ensures a == b && u == v
  {
    SplitOnceUnique(a, u, sep);
    SplitOnceUnique(b, v, sep);
  }

  lemma DropPrefix(p: string, u: string, v: string)
    requires p + u == p + v
    ensures u == v
  {
    assert (p + u)[|p|..] == u;
    assert (p + v)[|p|..] == v;
  }

  lemma CutNumber(m: nat, u: string, n: nat, v: string)
    requires Decimal(m) + "," + u == Decimal(n) + "," + v
    ensures m == n && u == v
  {
    Cut(Decimal(m), u, Decimal(n), v, ',');
    DecimalInjective(m, n);
  }

  /** A row followed by any text is read back in one way only. */
  lemma CutRow(a: ReceiptDocument, u: string, b: ReceiptDocument, v: string)
    requires PlainRow(a) && PlainRow(b)
    requires RowText(a) + u == RowText(b) + v
    ensures a == b && u == v
  {
    var ta := "}" + u;
    var tb := "}" + v;
    var sa := "\"sha256\":\"" + (a.sha256 + "\"" + ta);
    var sb := "\"sha256\":\"" + (b.sha256 + "\"" + tb);
    var ba := "\"bytes\":" + (Decimal(a.bytes) + "," + sa);
    var bb := "\"bytes\":" + (Decimal(b.bytes) + "," + sb);
    var ra := ",\"revision\":" + (Decimal(a.revision) + "," + ba);
    var rb := ",\"revision\":" + (Decimal(b.revision) + "," + bb);
    assert RowText(a) + u == "{\"id\":\"" + (a.id + "\"" + ra);
    assert RowText(b) + v == "{\"id\":\"" + (b.id + "\"" + rb);
    DropPrefix("{\"id\":\"", a.id + "\"" + ra, b.id + "\"" + rb);
    Cut(a.id, ra, b.id, rb, '"');
    DropPrefix(",\"revision\":", Decimal(a.revision) + "," + ba, Decimal(b.revision) + "," + bb);
    CutNumber(a.revision, ba, b.revision, bb);
    DropPrefix("\"bytes\":", Decimal(a.bytes) + "," + sa, Decimal(b.bytes) + "," + sb);
    CutNumber(a.bytes, sa, b.bytes, sb);
    DropPrefix("\"sha256\":\"", a.sha256 + "\"" + ta, b.sha256 + "\"" + tb);
    Cut(a.sha256, ta, b.sha256, tb, '"');
    DropPrefix("}", u, v);
  }

  lemma CutFirst(c: char, u: string, d: char, v: string)
    requires [c] + u == [d] + v
    ensures c == d && u == v
  {
    assert ([c] + u)[0] == c && ([d] + v)[0] == d;
    assert ([c] + u)[1..] == u && ([d] + v)[1..] == v;
  }

  /** Text that begins with different characters is different. */
  lemma FirstsDiffer(c: char, u: string, d: char, v: string)
    requires c != d
    ensures [c] + u != [d] + v
  {
    if [c] + u == [d] + v {
      CutFirst(c, u, d, v);
    }
  }

  lemma Regroup(a: string, b: string, c: string)
    ensures (a + b) + c == a + (b + c)
  {
  }

  lemma TailStart(rows: seq<ReceiptDocument>, u: string)
    ensures |rows| == 0 ==> TailText(rows) + u == [']'] + u
    ensures |rows| > 0 ==> TailText(rows) + u == [','] + (RowText(rows[0]) + (TailText(rows[1..]) + u))
  {
    hide RowText;
    if |rows| > 0 {
      Regroup([','], RowText(rows[0]) + TailText(rows[1..]), u);
      Regroup(RowText(rows[0]), TailText(rows[1..]), u);
    }
  }

  lemma {:induction false} CutTail(a: seq<ReceiptDocument>, u: string, b: seq<ReceiptDocument>, v: string)
    requires PlainRows(a) && PlainRows(b)
    requires TailText(a) + u == TailText(b) + v
    ensures a == b && u == v
    decreases |a|
  {
    TailStart(a, u);
    TailStart(b, v);
    if |a| == 0 && |b| == 0 {
      CutFirst(']', u, ']', v);
    } else if |a| == 0 {
      FirstsDiffer(']', u, ',', RowText(b[0]) + (TailText(b[1..]) + v));
    } else if |b| == 0 {
      FirstsDiffer(',', RowText(a[0]) + (TailText(a[1..]) + u), ']', v);
    } else {
      CutFirst(',', RowText(a[0]) + (TailText(a[1..]) + u), ',', RowText(b[0]) + (TailText(b[1..]) + v));
      CutRowThenTail(a, u, b, v);
    }
  }

  lemma {:induction false} CutRowThenTail(a: seq<ReceiptDocument>, u: string, b: seq<ReceiptDocument>, v: string)
    requires |a| > 0 && |b| > 0 && PlainRows(a) && PlainRows(b)
    requires RowText(a[0]) + (TailText(a[1..]) + u) == RowText(b[0]) + (TailText(b[1..]) + v)
    ensures a == b && u == v
    decreases |a|, 0
  {
    CutRow(a[0], TailText(a[1..]) + u, b[0], TailText(b[1..]) + v);
    CutTail(a[1..], u, b[1..], v);
    assert a == [a[0]] + a[1..] && b == [b[0]] + b[1..];
  }

  lemma RowsStart(rows: seq<ReceiptDocument>, u: string)
    ensures |rows| == 0 ==> RowsText(rows) + u == ['['] + ([']'] + u)
    ensures |rows| > 0 ==> RowsText(rows) + u == ['['] + (RowText(rows[0]) + (TailText(rows[1..]) + u))
  {
    hide RowText, TailText;
    if |rows| == 0 {
      Regroup(['['], [']'], u);
    } else {
      Regroup(['['], RowText(rows[0]) + TailText(rows[1..]), u);
      Regroup(RowText(rows[0]), TailText(rows[1..]), u);
    }
  }

  lemma RowStartsWithBrace(r: ReceiptDocument, u: string)
    ensures |RowText(r) + u| > 0 && (RowText(r) + u)[0] == '{'
  {
    assert RowText(r)[0] == '{';
  }

  lemma CutRows(a: seq<ReceiptDocument>, u: string, b: seq<ReceiptDocument>, v: string)
    requires PlainRows(a) && PlainRows(b)
    requires RowsText(a) + u == RowsText(b) + v
    ensures a == b && u == v
  {
    RowsStart(a, u);
    RowsStart(b, v);
    var x := if |a| == 0 then [']'] + u else RowText(a[0]) + (TailText(a[1..]) + u);
    var y := if |b| == 0 then [']'] + v else RowText(b[0]) + (TailText(b[1..]) + v);
    assert |a| == 0 ==> x[0] == ']';
    assert |b| == 0 ==> y[0] == ']';
    CutFirst('[', x, '[', y);
    if |a| == 0 && |b| == 0 {
      CutFirst(']', u, ']', v);
    } else if |a| == 0 {
      RowStartsWithBrace(b[0], TailText(b[1..]) + v);
    } else if |b| == 0 {
      RowStartsWithBrace(a[0], TailText(a[1..]) + u);
    } else {
      CutRowThenTail(a, u, b, v);
    }
  }

  lemma NullStart(u: string)
    ensures "null" + u == ['n'] + ("ull" + u)
  {
  }

  lemma StringStart(s: string, u: string)
    ensures StringText(Some(s)) + u == ['"'] + (s + "\"" + u)
  {
  }

  lemma CutString(a: Option<string>, u: string, b: Option<string>, v: string)
    requires a.Some? ==> Plain(a.value)
    requires b.Some? ==> Plain(b.value)
    requires StringText(a) + u == StringText(b) + v
    ensures a == b && u == v
  {
    NullStart(u);
    NullStart(v);
    match (a, b)
    case (None, None) =>
      DropPrefix("null", u, v);
    case (None, Some(t)) =>
      StringStart(t, v);
      FirstsDiffer('n', "ull" + u, '"', t + "\"" + v);
    case (Some(s), None) =>
      StringStart(s, u);
      FirstsDiffer('"', s + "\"" + u, 'n', "ull" + v);
    case (Some(s), Some(t)) =>
      StringStart(s, u);
      StringStart(t, v);
      CutFirst('"', s + "\"" + u, '"', t + "\"" + v);
      Cut(s, u, t, v, '"');
  }

  lemma SignerStart(s: Option<string>, u: string)
    ensures s.None? ==> SignerText(s) + u == ['}'] + u
    ensures s.Some? ==> SignerText(s) + u == [','] + ("\"signer_sha256\":\"" + (s.value + "\"" + (['}'] + u)))
  {
    if s.Some? {
      var p := "\"signer_sha256\":\"";
      assert SignerText(s) == [','] + p + (s.value + "\"" + "}");
      assert s.value + "\"" + "}" + u == s.value + "\"" + (['}'] + u);
    }
  }

  lemma CutSigner(a: Option<string>, u: string, b: Option<string>, v: string)
    requires a.Some? ==> Plain(a.value)
    requires b.Some? ==> Plain(b.value)
    requires SignerText(a) + u == SignerText(b) + v
    ensures a == b && u == v
  {
    SignerStart(a, u);
    SignerStart(b, v);
    var p := "\"signer_sha256\":\"";
    match (a, b)
    case (None, None) =>
      CutFirst('}', u, '}', v);
    case (None, Some(t)) =>
      FirstsDiffer('}', u, ',', p + (t + "\"" + (['}'] + v)));
    case (Some(s), None) =>
      FirstsDiffer(',', p + (s + "\"" + (['}'] + u)), '}', v);
    case (Some(s), Some(t)) =>
      var su, tv := s + "\"" + (['}'] + u), t + "\"" + (['}'] + v);
      CutFirst(',', p + su, ',', p + tv);
      DropPrefix(p, su, tv);
      Cut(s, ['}'] + u, t, ['}'] + v, '"');
      CutFirst('}', u, '}', v);
  }

  lemma CheckpointStart(d: CheckpointDocument, u: string)
    ensures CheckpointText(Some(d)) + u ==
      ['{'] + ("\"revision\":" + (Decimal(d.revision) + ","
        + ("\"sha256\":\"" + (d.sha256 + "\"" + (SignerText(d.signerSha256) + u)))))
  {
    hide SignerText, Decimal;
    var t := SignerText(d.signerSha256);
    var shown := "\"sha256\":\"" + (d.sha256 + "\"" + t);
    var number := Decimal(d.revision) + ",";
    Regroup(['{'], "\"revision\":" + (number + shown), u);
    Regroup("\"revision\":", number + shown, u);
    Regroup(number, shown, u);
    Regroup("\"sha256\":\"", d.sha256 + "\"" + t, u);
    Regroup(d.sha256 + "\"", t, u);
  }

  lemma CutCheckpoint(a: Option<CheckpointDocument>, u: string, b: Option<CheckpointDocument>, v: string)
    requires PlainCheckpoint(a) && PlainCheckpoint(b)
    requires CheckpointText(a) + u == CheckpointText(b) + v
    ensures a == b && u == v
  {
    NullStart(u);
    NullStart(v);
    match (a, b)
    case (None, None) =>
      DropPrefix("null", u, v);
    case (None, Some(d)) =>
      CheckpointStart(d, v);
      assert "null" + u == ['{'] + (CheckpointText(b) + v)[1..];
      FirstsDiffer('n', "ull" + u, '{', (CheckpointText(b) + v)[1..]);
    case (Some(c), None) =>
      CheckpointStart(c, u);
      assert "null" + v == ['{'] + (CheckpointText(a) + u)[1..];
      FirstsDiffer('n', "ull" + v, '{', (CheckpointText(a) + u)[1..]);
    case (Some(c), Some(d)) =>
      CheckpointStart(c, u);
      CheckpointStart(d, v);
      CutCheckpointFields(c, u, d, v);
  }

  lemma CutCheckpointFields(c: CheckpointDocument, u: string, d: CheckpointDocument, v: string)
    requires PlainCheckpoint(Some(c)) && PlainCheckpoint(Some(d))
    requires CheckpointText(Some(c)) + u == CheckpointText(Some(d)) + v
    ensures c == d && u == v
  {
    CheckpointStart(c, u);
    CheckpointStart(d, v);
    var tc, td := SignerText(c.signerSha256) + u, SignerText(d.signerSha256) + v;
    var sc, sd := "\"sha256\":\"" + (c.sha256 + "\"" + tc), "\"sha256\":\"" + (d.sha256 + "\"" + td);
    var rc, rd := Decimal(c.revision) + "," + sc, Decimal(d.revision) + "," + sd;
    CutFirst('{', "\"revision\":" + rc, '{', "\"revision\":" + rd);
    DropPrefix("\"revision\":", rc, rd);
    CutNumber(c.revision, sc, d.revision, sd);
    DropPrefix("\"sha256\":\"", c.sha256 + "\"" + tc, d.sha256 + "\"" + td);
    Cut(c.sha256, tc, d.sha256, td, '"');
    CutSigner(c.signerSha256, u, d.signerSha256, v);
  }

  lemma CutRest(a: StateDocument, b: StateDocument)
    requires PlainDocument(a) && PlainDocument(b) && RestText(a) == RestText(b)
    ensures a.catalog == b.catalog && a.installed == b.installed && a.highestSeen == b.highestSeen
      && a.rollbackTargets == b.rollbackTargets
  {
    var ha, hb := RowsText(a.highestSeen) + TargetsText(a.rollbackTargets),
      RowsText(b.highestSeen) + TargetsText(b.rollbackTargets);
    var ia, ib := RowsText(a.installed) + (",\"highest_seen\":" + ha),
      RowsText(b.installed) + (",\"highest_seen\":" + hb);
    DropPrefix(",\"catalog\":", CheckpointText(a.catalog) + (",\"installed\":" + ia),
      CheckpointText(b.catalog) + (",\"installed\":" + ib));
    CutCheckpoint(a.catalog, ",\"installed\":" + ia, b.catalog, ",\"installed\":" + ib);
    DropPrefix(",\"installed\":", ia, ib);
    CutRows(a.installed, ",\"highest_seen\":" + ha, b.installed, ",\"highest_seen\":" + hb);
    DropPrefix(",\"highest_seen\":", ha, hb);
    CutRows(a.highestSeen, TargetsText(a.rollbackTargets), b.highestSeen, TargetsText(b.rollbackTargets));
    assert TargetsText(a.rollbackTargets)[0] == TargetsText(b.rollbackTargets)[0];
    if |a.rollbackTargets| > 0 {
      DropPrefix(",\"rollback_targets\":", RowsText(a.rollbackTargets) + "}", RowsText(b.rollbackTargets) + "}");
      CutRows(a.rollbackTargets, "}", b.rollbackTargets, "}");
    }
  }

  /** Two documents with the same bytes are the same document. */
  lemma RenderInjective(a: StateDocument, b: StateDocument)
    requires PlainDocument(a) && PlainDocument(b)
    requires Render(a) == Render(b)
    ensures a == b
  {
    var ra, rb := StringText(a.repository) + RestText(a), StringText(b.repository) + RestText(b);
    var ga, gb := "\"generation\":" + (Decimal(a.generation) + "," + ("\"repository\":" + ra)),
      "\"generation\":" + (Decimal(b.generation) + "," + ("\"repository\":" + rb));
    assert Render(a) == "{\"format\":" + (Decimal(a.format) + "," + ga);
    assert Render(b) == "{\"format\":" + (Decimal(b.format) + "," + gb);
    DropPrefix("{\"format\":", Decimal(a.format) + "," + ga, Decimal(b.format) + "," + gb);
    CutNumber(a.format, ga, b.format, gb);
    DropPrefix("\"generation\":", Decimal(a.generation) + "," + ("\"repository\":" + ra),
      Decimal(b.generation) + "," + ("\"repository\":" + rb));
    CutNumber(a.generation, "\"repository\":" + ra, b.generation, "\"repository\":" + rb);
    DropPrefix("\"repository\":", ra, rb);
    CutString(a.repository, RestText(a), b.repository, RestText(b));
    CutRest(a, b);
  }

  // ---------- from an inventory to its bytes ----------

  function RowOf(r: Receipt): ReceiptDocument
  {
    ReceiptDocument(r.id, r.revision, r.bytes, Hex(r.sha256))
  }

  function RowsOf(m: map<PackId, Receipt>, ids: seq<PackId>): (rows: seq<ReceiptDocument>)
    requires forall id :: id in ids ==> id in m
    ensures |rows| == |ids|
    ensures forall i :: 0 <= i < |ids| ==> rows[i] == RowOf(m[ids[i]])
  {
    seq(|ids|, i requires 0 <= i < |ids| => assert ids[i] in ids; RowOf(m[ids[i]]))
  }

  /** The receipts of a map in the order of its keys. */
  function Rows(m: map<PackId, Receipt>): (rows: seq<ReceiptDocument>)
    ensures |rows| == |m|
  {
    assert |m.Keys| == |m|;
    RowsOf(m, SortedKeys(m.Keys))
  }

  function CheckpointOf(c: Checkpoint): CheckpointDocument
  {
    CheckpointDocument(c.revision, Hex(c.documentSha256), Some(Hex(c.signerSha256)))
  }

  /** Format 2 is written exactly when there is a rollback target to write. */
  function Document(inv: Inventory): StateDocument
  {
    StateDocument(
      if inv.rollbackTargets == map[] then 1 else 2,
      inv.generation,
      inv.repository,
      if inv.catalog.None? then None else Some(CheckpointOf(inv.catalog.value)),
      Rows(Installed(inv)),
      Rows(inv.highestSeen),
      Rows(inv.rollbackTargets))
  }

  function StateBytes(inv: Inventory): Result<string, InventoryError>
  {
    var text := Render(Document(inv));
    if |text| > MAX_INVENTORY_STATE_BYTES then Err(TooLarge) else Ok(text)
  }

  // ---------- equal bytes mean equal states ----------

  ghost predicate Keyed(m: map<PackId, Receipt>)
  {
    forall id :: id in m ==> m[id].id == id && Plain(id)
  }

  /** True of every inventory value: each map is keyed by the ids of its receipts. */
  ghost predicate Coherent(inv: Inventory)
  {
    && Keyed(Installed(inv)) && Keyed(inv.highestSeen) && Keyed(inv.rollbackTargets)
    && (inv.repository.Some? ==> Plain(inv.repository.value))
  }

  lemma {:induction false} HexPlain(bytes: seq<Byte>)
    ensures Plain(Hex(bytes))
  {
    if |bytes| > 0 {
      HexPlain(bytes[1..]);
    }
  }

  lemma HexInjective(a: seq<Byte>, b: seq<Byte>)
    requires Hex(a) == Hex(b)
    ensures a == b
  {
    DecodeHexOfHex(a);
    DecodeHexOfHex(b);
  }

  lemma RowsPlain(m: map<PackId, Receipt>)
    requires Keyed(m)
    ensures PlainRows(Rows(m))
  {
    var ids := SortedKeys(m.Keys);
    forall i | 0 <= i < |ids|
      ensures PlainRow(Rows(m)[i])
    {
      assert ids[i] in ids;
      HexPlain(m[ids[i]].sha256);
    }
  }

  lemma DocumentPlain(inv: Inventory)
    requires Coherent(inv)
    ensures PlainDocument(Document(inv))
  {
    RowsPlain(Installed(inv));
    RowsPlain(inv.highestSeen);
    RowsPlain(inv.rollbackTargets);
    if inv.catalog.Some? {
      HexPlain(inv.catalog.value.documentSha256);
      HexPlain(inv.catalog.value.signerSha256);
    }
  }

  lemma RowsInjective(a: map<PackId, Receipt>, b: map<PackId, Receipt>)
    requires Keyed(a) && Keyed(b) && Rows(a) == Rows(b)
    ensures a == b
  {
    hide Rows, Keyed;
    RowsInclude(a, b);
    RowsInclude(b, a);
    assert a.Keys == b.Keys;
  }

  lemma RowsInclude(a: map<PackId, Receipt>, b: map<PackId, Receipt>)
    requires Keyed(a) && Keyed(b) && Rows(a) == Rows(b)
    ensures forall id :: id in a ==> id in b && b[id] == a[id]
  {
    var ia, ib := SortedKeys(a.Keys), SortedKeys(b.Keys);
    forall id | id in a
      ensures id in b && b[id] == a[id]
    {
      assert id in ia;
      var i :| 0 <= i < |ia| && ia[i] == id;
      assert ib[i] in ib;
      SameRow(a[id], b[ib[i]]);
    }
  }

  lemma SameRow(a: Receipt, b: Receipt)
    requires RowOf(a) == RowOf(b)
    ensures a == b
  {
    HexInjective(a.sha256, b.sha256);
  }

  lemma SameCheckpoint(a: Checkpoint, b: Checkpoint)
    requires CheckpointOf(a) == CheckpointOf(b)
    ensures a == b
  {
    HexInjective(a.documentSha256, b.documentSha256);
    HexInjective(a.signerSha256, b.signerSha256);
  }

  lemma SameDocumentSameState(a: Inventory, b: Inventory)
    requires Coherent(a) && Coherent(b) && Document(a) == Document(b)
    ensures a.generation == b.generation && !Changed(a, b)
  {
    RowsInjective(Installed(a), Installed(b));
    RowsInjective(a.highestSeen, b.highestSeen);
    RowsInjective(a.rollbackTargets, b.rollbackTargets);
    if a.catalog.Some? {
      SameCheckpoint(a.catalog.value, b.catalog.value);
    }
  }

  /** The bytes determine everything an inventory persists. */
  lemma SameBytesSameState(a: Inventory, b: Inventory)
    requires Coherent(a) && Coherent(b)
    ensures Render(Document(a)) == Render(Document(b)) <==> a.generation == b.generation && !Changed(a, b)
  {
    DocumentPlain(a);
    DocumentPlain(b);
    if Render(Document(a)) == Render(Document(b)) {
      RenderInjective(Document(a), Document(b));
      SameDocumentSameState(a, b);
    }
  }

  // ---------- the size bound ----------

  const ROW_BOUND: nat := 198

  ghost predicate RowOk(r: ReceiptDocument)
  {
    |r.id| <= 63 && r.bytes <= MAX_PACKAGE_BYTES && |r.sha256| <= 64
  }

  lemma NumberLengths()
    ensures MAX_U64 < Pow10(20) && MAX_PACKAGE_BYTES < Pow10(8)
  {
    assert Pow10(4) == 10_000;
    assert Pow10(8) == 100_000_000;
    assert Pow10(12) == 1_000_000_000_000;
    assert Pow10(16) == 10_000_000_000_000_000;
    assert Pow10(20) == 100_000_000_000_000_000_000;
  }

  lemma RowLength(r: ReceiptDocument)
    requires RowOk(r)
    ensures |RowText(r)| < ROW_BOUND
  {
    NumberLengths();
    DecimalLength(r.revision, 20);
    DecimalLength(r.bytes, 8);
  }

  lemma {:induction false} TailLength(rows: seq<ReceiptDocument>)
    requires forall i :: 0 <= i < |rows| ==> RowOk(rows[i])
    ensures |TailText(rows)| <= ROW_BOUND * |rows| + 1
  {
    if |rows| > 0 {
      RowLength(rows[0]);
      TailLength(rows[1..]);
    }
  }

  lemma RowsLength(rows: seq<ReceiptDocument>)
    requires forall i :: 0 <= i < |rows| ==> RowOk(rows[i])
    ensures |RowsText(rows)| <= ROW_BOUND * |rows| + 2
  {
    if |rows| > 0 {
      RowLength(rows[0]);
      TailLength(rows[1..]);
    }
  }

  /** The bounds of the fields an inventory holds. */
  ghost predicate ReceiptsBounded(m: map<PackId, Receipt>)
  {
    forall id :: id in m ==> RowOk(RowOf(m[id]))
  }

  lemma RowsBounded(m: map<PackId, Receipt>)
    requires ReceiptsBounded(m)
    ensures |RowsText(Rows(m))| <= ROW_BOUND * |m| + 2
  {
    var ids := SortedKeys(m.Keys);
    forall i | 0 <= i < |ids|
      ensures RowOk(Rows(m)[i])
    {
      assert ids[i] in ids;
    }
    RowsLength(Rows(m));
  }

  lemma CheckpointLength(c: Checkpoint)
    requires |c.documentSha256| == 32 && |c.signerSha256| == 32
    ensures |CheckpointText(Some(CheckpointOf(c)))| <= 250
  {
    NumberLengths();
    DecimalLength(c.revision, 20);
    var d := CheckpointOf(c);
    assert |SignerText(d.signerSha256)| <= 100;
  }

  lemma DocumentLength(d: StateDocument, rows: nat)
    requires d.format <= 2
    requires |StringText(d.repository)| <= 203 && |CheckpointText(d.catalog)| <= 250
    requires |RowsText(d.installed)| + |RowsText(d.highestSeen)| + |RowsText(d.rollbackTargets)| <= rows
    ensures |Render(d)| <= 800 + rows
  {
    NumberLengths();
    DecimalLength(d.format, 1);
    DecimalLength(d.generation, 20);
    assert |TargetsText(d.rollbackTargets)| <= 30 + |RowsText(d.rollbackTargets)|;
    assert |RestText(d)| <= 350 + rows;
  }

  /** Field and count bounds that hold of every valid inventory. */
  ghost predicate Bounded(inv: Inventory)
  {
    && ReceiptsBounded(Installed(inv)) && ReceiptsBounded(inv.highestSeen) && ReceiptsBounded(inv.rollbackTargets)
    && |inv.packages| <= MAX_OPTIONAL_PACKAGES && |inv.highestSeen| <= MAX_HISTORY
    && |inv.rollbackTargets| <= MAX_OPTIONAL_PACKAGES
    && (inv.repository.Some? ==> |inv.repository.value| <= 201)
    && (inv.catalog.Some? ==> CheckpointBounded(inv.catalog.value))
  }

  ghost predicate CheckpointBounded(c: Checkpoint)
  {
    |c.documentSha256| == 32 && |c.signerSha256| == 32
  }

  /** Every bounded inventory fits into the state file, so `state_bytes` never refuses it. */
  lemma StateAlwaysFits(inv: Inventory)
    requires Bounded(inv)
    ensures |Render(Document(inv))| < MAX_INVENTORY_STATE_BYTES
  {
    hide Render, Rows;
    assert |Installed(inv)| == |inv.packages| by {
      assert |Installed(inv).Keys| == |inv.packages.Keys|;
    }
    RowsBounded(Installed(inv));
    RowsBounded(inv.highestSeen);
    RowsBounded(inv.rollbackTargets);
    if inv.catalog.Some? {
      CheckpointLength(inv.catalog.value);
    }
    DocumentLength(Document(inv), ROW_BOUND * (MAX_OPTIONAL_PACKAGES + MAX_HISTORY + MAX_OPTIONAL_PACKAGES) + 6);
  }
}
