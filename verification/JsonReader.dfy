/**
 * A reader of compact JSON (RFC 8259, without escapes, fractions and white space), which is all the
 * store writes, and the proof that it reads back every text the store writes.
 */
module JsonReader {
  import opened Wrappers
  import opened Strings
  import opened StateFormat

  datatype Json =
    | Null
    | Number(value: nat)
    | Text(text: string)
    | List(items: seq<Json>)
    | Object(fields: seq<Field>)

  datatype Field = Field(key: string, value: Json)

  // ---------- reading ----------

  /** The length of the digits a text starts with. */
  function DigitRun(s: string): (n: nat)
    ensures n <= |s| && IsDigits(s[..n])
  {
    if s == "" || !('0' <= s[0] <= '9') then 0
    else
      assert s[..1 + DigitRun(s[1..])] == [s[0]] + s[1..][..DigitRun(s[1..])];
      1 + DigitRun(s[1..])
  }

  /** A number has no leading zero. */
  function ReadNumber(s: string): (r: Option<(Json, string)>)
    ensures r.Some? ==> |r.value.1| < |s|
  {
    var n := DigitRun(s);
    if n == 0 || (n > 1 && s[0] == '0') then None else Some((Number(DigitsValue(s[..n])), s[n..]))
  }

  /** The text up to the closing quote. */
  function ReadText(s: string): (r: Option<(string, string)>)
    ensures r.Some? ==> |r.value.1| < |s|
  {
    if s == "" || s[0] == '\\' || s[0] < ' ' then None
    else if s[0] == '"' then Some(("", s[1..]))
    else
      match ReadText(s[1..])
      case None => None
      case Some((text, rest)) => Some(([s[0]] + text, rest))
  }

  function ReadValue(s: string): (r: Option<(Json, string)>)
    ensures r.Some? ==> |r.value.1| < |s|
    decreases |s|, 0
  {
    if s == "" then None
    else if s[0] == '"' then
      match ReadText(s[1..])
      case None => None
      case Some((text, rest)) => Some((Text(text), rest))
    else if s[0] == '[' then
      if |s| > 1 && s[1] == ']' then Some((List([]), s[2..]))
      else
        match ReadItems(s[1..])
        case None => None
        case Some((items, rest)) => Some((List(items), rest))
    else if s[0] == '{' then
      if |s| > 1 && s[1] == '}' then Some((Object([]), s[2..]))
      else
        match ReadFields(s[1..])
        case None => None
        case Some((fields, rest)) => Some((Object(fields), rest))
    else if "null" <= s then Some((Null, s[4..]))
    else ReadNumber(s)
  }

  /** Items up to the closing bracket. */
  function ReadItems(s: string): (r: Option<(seq<Json>, string)>)
    ensures r.Some? ==> |r.value.1| < |s|
    decreases |s|, 1
  {
    match ReadValue(s)
    case None => None
    case Some((item, rest)) =>
      if rest == "" then None
      else if rest[0] == ']' then Some(([item], rest[1..]))
      else if rest[0] != ',' then None
      else
        match ReadItems(rest[1..])
        case None => None
        case Some((items, end)) => Some(([item] + items, end))
  }

  /** Fields up to the closing brace. */
  function ReadFields(s: string): (r: Option<(seq<Field>, string)>)
    ensures r.Some? ==> |r.value.1| < |s|
    decreases |s|, 1
  {
    if s == "" || s[0] != '"' then None
    else
      match ReadText(s[1..])
      case None => None
      case Some((key, colon)) =>
        if colon == "" || colon[0] != ':' then None
        else
          match ReadValue(colon[1..])
          case None => None
          case Some((value, rest)) =>
            if rest == "" then None
            else if rest[0] == '}' then Some(([Field(key, value)], rest[1..]))
            else if rest[0] != ',' then None
            else
              match ReadFields(rest[1..])
              case None => None
              case Some((fields, end)) => Some(([Field(key, value)] + fields, end))
  }

  // ---------- writing ----------

  function Quote(s: string): string { ['"'] + s + ['"'] }

  function Write(v: Json): string
    decreases v
  {
    match v
    case Null => "null"
    case Number(n) => Decimal(n)
    case Text(s) => Quote(s)
    case List(items) => ['['] + if items == [] then [']'] else WriteItems(items)
    case Object(fields) => ['{'] + if fields == [] then ['}'] else WriteFields(fields)
  }

  function WriteItems(items: seq<Json>): string
    requires items != []
    decreases items
  {
    Write(items[0]) + if |items| == 1 then [']'] else [','] + WriteItems(items[1..])
  }

  function WriteFields(fields: seq<Field>): string
    requires fields != []
    decreases fields
  {
    Quote(fields[0].key) + [':'] + Write(fields[0].value)
    + if |fields| == 1 then ['}'] else [','] + WriteFields(fields[1..])
  }

  /** Every text in the value stands for itself. */
  ghost predicate PlainValue(v: Json)
    decreases v
  {
    match v
    case Text(s) => Plain(s)
    case List(items) => forall i :: 0 <= i < |items| ==> PlainValue(items[i])
    case Object(fields) => forall i :: 0 <= i < |fields| ==> Plain(fields[i].key) && PlainValue(fields[i].value)
    case _ => true
  }

  // ---------- reading inverts writing ----------

  predicate EndsNumber(rest: string)
  {
    rest == "" || !('0' <= rest[0] <= '9')
  }

  lemma {:induction false} RunOfDigits(digits: string, rest: string)
    requires IsDigits(digits) && EndsNumber(rest)
    ensures DigitRun(digits + rest) == |digits|
  {
    var s := digits + rest;
    if digits != "" {
      assert digits[0] in digits;
      assert s[1..] == digits[1..] + rest;
      assert forall c :: c in digits[1..] ==> c in digits;
      RunOfDigits(digits[1..], rest);
    } else {
      assert s == rest;
    }
  }

  lemma NumberReadsBack(n: nat, rest: string)
    requires EndsNumber(rest)
    ensures ReadNumber(Decimal(n) + rest) == Some((Number(n), rest))
  {
    var d := Decimal(n);
    RunOfDigits(d, rest);
    DigitsOfDecimal(n);
    assert (d + rest)[..|d|] == d && (d + rest)[|d|..] == rest;
    if n < 10 { assert |d| == 1; }
  }

  lemma PlainTail(text: string)
    requires Plain(text) && text != ""
    ensures Plain(text[1..])
  {
    var tail := text[1..];
    forall c | c in tail
      ensures c in text
    {
    }
  }

  lemma {:induction false} TextReadsBack(text: string, rest: string)
    requires Plain(text)
    ensures ReadText(text + (['"'] + rest)) == Some((text, rest))
  {
    var s := text + (['"'] + rest);
    if text == "" {
      assert s == ['"'] + rest;
    } else {
      assert text[0] in text;
      assert s[1..] == text[1..] + (['"'] + rest);
      PlainTail(text);
      TextReadsBack(text[1..], rest);
      assert text == [text[0]] + text[1..];
    }
  }

  lemma QuotedReadsBack(text: string, rest: string)
    requires Plain(text)
    ensures var s := Quote(text) + rest; s[0] == '"' && ReadText(s[1..]) == Some((text, rest))
  {
    TextReadsBack(text, rest);
    assert (Quote(text) + rest)[1..] == text + (['"'] + rest);
  }

  /** Whatever plain value is written, reading it gives it back and stops right behind it. */
  lemma {:induction false} ValueReadsBack(v: Json, rest: string)
    requires PlainValue(v) && EndsNumber(rest)
    ensures ReadValue(Write(v) + rest) == Some((v, rest))
    decreases v
  {
    hide ReadText, ReadNumber, ReadItems, ReadFields, WriteItems, WriteFields, Decimal;
    var s := Write(v) + rest;
    match v
    case Null =>
      assert s == "null" + rest;
      assert s[..4] == "null" && s[4..] == rest;
    case Number(n) =>
      NumberReadsBack(n, rest);
      DecimalStarts(n);
    case Text(text) => QuotedReadsBack(text, rest);
    case List(items) =>
      if items == [] {
        assert s == ['[', ']'] + rest;
      } else {
        ItemsReadBack(items, rest);
        ItemsStart(items, rest);
        assert s[1..] == WriteItems(items) + rest;
      }
    case Object(fields) =>
      if fields == [] {
        assert s == ['{', '}'] + rest;
      } else {
        FieldsReadBack(fields, rest);
        FieldsStart(fields, rest);
        assert s[1..] == WriteFields(fields) + rest;
      }
  }

  lemma DecimalStarts(n: nat)
    ensures '0' <= Decimal(n)[0] <= '9' && !("null" <= Decimal(n))
  {
    assert Decimal(n)[0] in Decimal(n);
  }

  lemma ValueStarts(v: Json)
    ensures Write(v) != "" && Write(v)[0] != ']'
  {
    hide WriteItems, WriteFields;
    if v.Number? { DecimalStarts(v.value); }
  }

  lemma ItemsStart(items: seq<Json>, rest: string)
    requires items != []
    ensures (WriteItems(items) + rest)[0] != ']'
  {
    hide Write;
    ValueStarts(items[0]);
  }

  lemma FieldsStart(fields: seq<Field>, rest: string)
    requires fields != []
    ensures (WriteFields(fields) + rest)[0] == '"'
  {
  }

  lemma {:induction false} ItemsReadBack(items: seq<Json>, rest: string)
    requires items != [] && forall i :: 0 <= i < |items| ==> PlainValue(items[i])
    ensures ReadItems(WriteItems(items) + rest) == Some((items, rest))
    decreases items
  {
    hide ReadValue, Write;
    var s := WriteItems(items) + rest;
    if |items| == 1 {
      assert s == Write(items[0]) + ([']'] + rest);
      ValueReadsBack(items[0], [']'] + rest);
      assert items == [items[0]];
    } else {
      var tail := items[1..];
      var after := [','] + (WriteItems(tail) + rest);
      assert s == Write(items[0]) + after;
      ValueReadsBack(items[0], after);
      assert after[1..] == WriteItems(tail) + rest;
      ItemsReadBack(tail, rest);
      assert items == [items[0]] + tail;
    }
  }

  lemma {:induction false} FieldsReadBack(fields: seq<Field>, rest: string)
    requires fields != [] && forall i :: 0 <= i < |fields| ==> Plain(fields[i].key) && PlainValue(fields[i].value)
    ensures ReadFields(WriteFields(fields) + rest) == Some((fields, rest))
    decreases fields
  {
    hide ReadValue, ReadText, Write, Quote;
    var s := WriteFields(fields) + rest;
    var key, value := fields[0].key, fields[0].value;
    var tail := fields[1..];
    var after := if |fields| == 1 then ['}'] + rest else [','] + (WriteFields(tail) + rest);
    var colon := [':'] + (Write(value) + after);
    assert s == Quote(key) + colon;
    QuotedReadsBack(key, colon);
    assert colon[1..] == Write(value) + after;
    ValueReadsBack(value, after);
    assert fields == [Field(key, value)] + tail;
    if |fields| > 1 {
      assert after[1..] == WriteFields(tail) + rest;
      FieldsReadBack(tail, rest);
    } else {
      assert after[1..] == rest && fields == [Field(key, value)];
    }
  }

  // ---------- the stored document ----------

  function Names(fields: seq<Field>): seq<string>
  {
    seq(|fields|, i requires 0 <= i < |fields| => fields[i].key)
  }

  /** Only known fields, and none twice. */
  predicate Known(fields: seq<Field>, names: set<string>)
  {
    && (forall f :: f in fields ==> f.key in names)
    && forall i, j :: 0 <= i < j < |fields| ==> fields[i].key != fields[j].key
  }

  function Get(fields: seq<Field>, name: string): (v: Option<Json>)
  {
    if fields == [] then None else if fields[0].key == name then Some(fields[0].value) else Get(fields[1..], name)
  }

  function U64Of(v: Option<Json>): (n: Option<U64>)
  {
    if v.Some? && v.value.Number? && v.value.value <= MAX_U64 then Some(v.value.value) else None
  }

  function TextOf(v: Option<Json>): (s: Option<string>)
  {
    if v.Some? && v.value.Text? then Some(v.value.text) else None
  }

  /** A field that may be absent or null. */
  function MaybeText(v: Option<Json>): (s: Option<Option<string>>)
  {
    if v.None? || v.value.Null? then Some(None)
    else if v.value.Text? then Some(Some(v.value.text)) else None
  }

  function RowOfJson(v: Json): (r: Option<ReceiptDocument>)
  {
    if !v.Object? || !Known(v.fields, {"id", "revision", "bytes", "sha256"}) then None
    else
      match (TextOf(Get(v.fields, "id")), U64Of(Get(v.fields, "revision")), U64Of(Get(v.fields, "bytes")),
             TextOf(Get(v.fields, "sha256")))
      case (Some(id), Some(revision), Some(bytes), Some(sha256)) => Some(ReceiptDocument(id, revision, bytes, sha256))
      case _ => None
  }

  function RowsOfItems(items: seq<Json>): (r: Option<seq<ReceiptDocument>>)
  {
    if items == [] then Some([])
    else
      match (RowOfJson(items[0]), RowsOfItems(items[1..]))
      case (Some(row), Some(rows)) => Some([row] + rows)
      case _ => None
  }

  function RowsOfJson(v: Option<Json>): (r: Option<seq<ReceiptDocument>>)
  {
    if v.Some? && v.value.List? then RowsOfItems(v.value.items) else None
  }

  function CheckpointOfJson(v: Option<Json>): (r: Option<Option<CheckpointDocument>>)
  {
    if v.None? || v.value.Null? then Some(None)
    else if !v.value.Object? || !Known(v.value.fields, {"revision", "sha256", "signer_sha256"}) then None
    else
      var fields := v.value.fields;
      match (U64Of(Get(fields, "revision")), TextOf(Get(fields, "sha256")), MaybeText(Get(fields, "signer_sha256")))
      case (Some(revision), Some(sha256), Some(signer)) => Some(Some(CheckpointDocument(revision, sha256, signer)))
      case _ => None
  }

  const STATE_FIELDS: set<string> :=
    {"format", "generation", "repository", "catalog", "installed", "highest_seen", "rollback_targets"}

  /** The document a JSON value holds: required fields present and typed, unknown or repeated ones refused. */
  function DocumentOfJson(v: Json): (r: Option<StateDocument>)
  {
    if !v.Object? || !Known(v.fields, STATE_FIELDS) then None
    else
      var f := v.fields;
      var targets := if Get(f, "rollback_targets").None? then Some([]) else RowsOfJson(Get(f, "rollback_targets"));
      match (U64Of(Get(f, "format")), U64Of(Get(f, "generation")), MaybeText(Get(f, "repository")),
             CheckpointOfJson(Get(f, "catalog")), RowsOfJson(Get(f, "installed")), RowsOfJson(Get(f, "highest_seen")),
             targets)
      case (Some(format), Some(generation), Some(repository), Some(catalog), Some(installed), Some(highest),
        Some(rows)) =>
        if format < 0x1_0000_0000
        then Some(StateDocument(format, generation, repository, catalog, installed, highest, rows)) else None
      case _ => None
  }

  /** The whole text is one value, and that value is a document. */
  function Decode(text: string): (r: Option<StateDocument>)
  {
    match ReadValue(text)
    case None => None
    case Some((v, rest)) => if rest == "" then DocumentOfJson(v) else None
  }

  // ---------- the value of a document ----------

  function JsonOfRow(r: ReceiptDocument): Json
  {
    Object([Field("id", Text(r.id)), Field("revision", Number(r.revision)), Field("bytes", Number(r.bytes)),
            Field("sha256", Text(r.sha256))])
  }

  function JsonOfRows(rows: seq<ReceiptDocument>): (v: seq<Json>)
    ensures |v| == |rows| && forall i :: 0 <= i < |rows| ==> v[i] == JsonOfRow(rows[i])
  {
    seq(|rows|, i requires 0 <= i < |rows| => JsonOfRow(rows[i]))
  }

  function JsonOfCheckpoint(c: Option<CheckpointDocument>): Json
  {
    match c
    case None => Null
    case Some(d) =>
      Object([Field("revision", Number(d.revision)), Field("sha256", Text(d.sha256))]
             + if d.signerSha256.None? then [] else [Field("signer_sha256", Text(d.signerSha256.value))])
  }

  function JsonOfText(s: Option<string>): Json
  {
    if s.None? then Null else Text(s.value)
  }

  function JsonOf(d: StateDocument): Json
  {
    Object(
      [Field("format", Number(d.format)), Field("generation", Number(d.generation)),
       Field("repository", JsonOfText(d.repository)), Field("catalog", JsonOfCheckpoint(d.catalog)),
       Field("installed", List(JsonOfRows(d.installed))), Field("highest_seen", List(JsonOfRows(d.highestSeen)))]
      + if d.rollbackTargets == [] then [] else [Field("rollback_targets", List(JsonOfRows(d.rollbackTargets)))])
  }

  // ---------- what is written is that value's text ----------

  lemma FieldsOne(f: Field)
    ensures WriteFields([f]) == Quote(f.key) + [':'] + (Write(f.value) + ['}'])
  {
  }

  lemma FieldsMore(f: Field, tail: seq<Field>)
    requires tail != []
    ensures WriteFields([f] + tail) == Quote(f.key) + [':'] + (Write(f.value) + ([','] + WriteFields(tail)))
  {
    assert ([f] + tail)[1..] == tail;
  }

  /** A text field, with what follows it, as the document's text spells it. */
  lemma TextField(prefix: string, key: string, text: string, more: string)
    requires prefix == Quote(key) + [':'] + ['"']
    ensures Quote(key) + [':'] + (Quote(text) + more) == prefix + (text + "\"" + more)
  {
    assert Quote(text) + more == ['"'] + (text + "\"" + more);
  }

  lemma NumberField(prefix: string, key: string, digits: string, more: string)
    requires prefix == Quote(key) + [':']
    ensures Quote(key) + [':'] + (digits + ([','] + more)) == prefix + (digits + "," + more)
  {
    assert digits + ([','] + more) == digits + "," + more;
  }

  lemma Ahead(c: char, prefix: string, more: string)
    ensures [c] + (prefix + more) == ([c] + prefix) + more
  {
  }

  function ShaField(r: ReceiptDocument): Field { Field("sha256", Text(r.sha256)) }

  function BytesField(r: ReceiptDocument): Field { Field("bytes", Number(r.bytes)) }

  function RevisionField(r: ReceiptDocument): Field { Field("revision", Number(r.revision)) }

  lemma ShaIsWritten(r: ReceiptDocument)
    ensures WriteFields([ShaField(r)]) == "\"sha256\":\"" + (r.sha256 + "\"" + "}")
  {
    hide WriteFields, Quote;
    FieldsOne(ShaField(r));
    RowKeys();
    TextField("\"sha256\":\"", "sha256", r.sha256, "}");
  }

  lemma BytesAreWritten(r: ReceiptDocument)
    ensures WriteFields([BytesField(r), ShaField(r)])
         == "\"bytes\":" + (Decimal(r.bytes) + "," + WriteFields([ShaField(r)]))
  {
    hide WriteFields, Quote, Decimal;
    FieldsMore(BytesField(r), [ShaField(r)]);
    assert [BytesField(r)] + [ShaField(r)] == [BytesField(r), ShaField(r)];
    RowKeys();
    NumberField("\"bytes\":", "bytes", Decimal(r.bytes), WriteFields([ShaField(r)]));
  }

  lemma RevisionIsWritten(r: ReceiptDocument)
    ensures [','] + WriteFields([RevisionField(r), BytesField(r), ShaField(r)])
         == ",\"revision\":" + (Decimal(r.revision) + "," + WriteFields([BytesField(r), ShaField(r)]))
  {
    hide WriteFields, Quote, Decimal;
    var tail := [BytesField(r), ShaField(r)];
    FieldsMore(RevisionField(r), tail);
    assert [RevisionField(r)] + tail == [RevisionField(r), BytesField(r), ShaField(r)];
    RowKeys();
    NumberField("\"revision\":", "revision", Decimal(r.revision), WriteFields(tail));
    Ahead(',', "\"revision\":", Decimal(r.revision) + "," + WriteFields(tail));
  }

  lemma RowIsWritten(r: ReceiptDocument)
    ensures RowText(r) == Write(JsonOfRow(r))
  {
    hide WriteFields, Decimal, Quote;
    var tail := [RevisionField(r), BytesField(r), ShaField(r)];
    FieldsMore(Field("id", Text(r.id)), tail);
    RowKeys();
    ShaIsWritten(r);
    BytesAreWritten(r);
    RevisionIsWritten(r);
    TextField("\"id\":\"", "id", r.id, [','] + WriteFields(tail));
    Ahead('{', "\"id\":\"", r.id + "\"" + ([','] + WriteFields(tail)));
    RowFields(r);
  }

  lemma RowFields(r: ReceiptDocument)
    ensures JsonOfRow(r) == Object([Field("id", Text(r.id))] + [RevisionField(r), BytesField(r), ShaField(r)])
  {
  }

  lemma RowKeys()
    ensures Quote("id") + [':'] + ['"'] == "\"id\":\"" && Quote("sha256") + [':'] + ['"'] == "\"sha256\":\""
    ensures Quote("bytes") + [':'] == "\"bytes\":" && Quote("revision") + [':'] == "\"revision\":"
    ensures [','] + "\"revision\":" == ",\"revision\":" && ['{'] + "\"id\":\"" == "{\"id\":\""
  {
  }

  lemma {:induction false} TailIsWritten(rows: seq<ReceiptDocument>)
    ensures TailText(rows) == if rows == [] then [']'] else [','] + WriteItems(JsonOfRows(rows))
  {
    hide RowText, JsonOfRow, Write;
    if rows != [] {
      TailIsWritten(rows[1..]);
      RowIsWritten(rows[0]);
      assert JsonOfRows(rows)[1..] == JsonOfRows(rows[1..]);
    }
  }

  lemma RowsAreWritten(rows: seq<ReceiptDocument>)
    ensures RowsText(rows) == Write(List(JsonOfRows(rows)))
  {
    hide RowText, JsonOfRow, TailText, WriteItems;
    if rows != [] {
      RowIsWritten(rows[0]);
      TailIsWritten(rows[1..]);
      assert JsonOfRows(rows)[1..] == JsonOfRows(rows[1..]);
      ItemsSplit(JsonOfRows(rows));
    }
  }

  lemma ItemsSplit(items: seq<Json>)
    requires items != []
    ensures WriteItems(items) == Write(items[0]) + if items[1..] == [] then [']'] else [','] + WriteItems(items[1..])
  {
    hide Write;
  }

  /** What follows the value of a field. */
  function Ends(tail: seq<Field>): string
  {
    if tail == [] then ['}'] else [','] + WriteFields(tail)
  }

  /** A field that is not the first, and what follows it. */
  lemma NextField(prefix: string, f: Field, tail: seq<Field>)
    requires prefix == [','] + (Quote(f.key) + [':'])
    ensures Ends([f] + tail) == prefix + (Write(f.value) + Ends(tail))
  {
    hide WriteFields, Quote, Write;
    FirstField(f, tail);
    Ahead(',', Quote(f.key) + [':'], Write(f.value) + Ends(tail));
  }

  lemma FirstField(f: Field, tail: seq<Field>)
    ensures WriteFields([f] + tail) == Quote(f.key) + [':'] + (Write(f.value) + Ends(tail))
  {
    hide WriteFields, Quote, Write;
    if tail == [] {
      FieldsOne(f);
      assert [f] + tail == [f];
    } else {
      FieldsMore(f, tail);
    }
  }

  lemma Keys()
    ensures [','] + (Quote("catalog") + [':']) == ",\"catalog\":"
    ensures [','] + (Quote("installed") + [':']) == ",\"installed\":"
    ensures [','] + (Quote("highest_seen") + [':']) == ",\"highest_seen\":"
  {
  }

  lemma OptionalKeys()
    ensures [','] + (Quote("rollback_targets") + [':']) == ",\"rollback_targets\":"
    ensures [','] + (Quote("signer_sha256") + [':']) + ['"'] == ",\"signer_sha256\":\""
  {
  }

  lemma FirstKeys()
    ensures Quote("format") + [':'] == "\"format\":" && ['{'] + "\"format\":" == "{\"format\":"
    ensures Quote("generation") + [':'] == "\"generation\":" && Quote("repository") + [':'] == "\"repository\":"
    ensures Quote("revision") + [':'] == "\"revision\":"
    ensures Quote("sha256") + [':'] + ['"'] == "\"sha256\":\""
  {
  }

  function SignerFields(signer: Option<string>): seq<Field>
  {
    if signer.None? then [] else [Field("signer_sha256", Text(signer.value))]
  }

  lemma SignerIsWritten(signer: Option<string>)
    ensures SignerText(signer) == Ends(SignerFields(signer))
  {
    if signer.Some? {
      hide WriteFields, Quote;
      var s := signer.value;
      var f := Field("signer_sha256", Text(s));
      OptionalKeys();
      FieldsOne(f);
      Ahead(',', Quote(f.key) + [':'], Quote(s) + ['}']);
      OpenQuote([','] + (Quote(f.key) + [':']), s, "}");
    }
  }

  lemma OpenQuote(prefix: string, text: string, more: string)
    ensures prefix + (Quote(text) + more) == prefix + ['"'] + (text + "\"" + more)
  {
  }

  lemma CheckpointIsWritten(c: Option<CheckpointDocument>)
    ensures CheckpointText(c) == Write(JsonOfCheckpoint(c))
  {
    hide WriteFields, Quote, Decimal, SignerText, Ends, SignerFields;
    if c.Some? {
      var d := c.value;
      var signer := SignerFields(d.signerSha256);
      var sha, revision := Field("sha256", Text(d.sha256)), Field("revision", Number(d.revision));
      SignerIsWritten(d.signerSha256);
      FirstKeys();
      FirstField(sha, signer);
      TextField("\"sha256\":\"", "sha256", d.sha256, Ends(signer));
      FirstField(revision, [sha] + signer);
      EndsMore([sha] + signer);
      NumberField("\"revision\":", "revision", Decimal(d.revision), WriteFields([sha] + signer));
      CheckpointFields(c);
    }
  }

  lemma EndsMore(tail: seq<Field>)
    requires tail != []
    ensures Ends(tail) == [','] + WriteFields(tail)
  {
  }

  lemma CheckpointFields(c: Option<CheckpointDocument>)
    requires c.Some?
    ensures JsonOfCheckpoint(c) == Object([Field("revision", Number(c.value.revision))]
      + ([Field("sha256", Text(c.value.sha256))] + SignerFields(c.value.signerSha256)))
  {
    var revision, sha := Field("revision", Number(c.value.revision)), Field("sha256", Text(c.value.sha256));
    assert [revision, sha] + SignerFields(c.value.signerSha256)
      == [revision] + ([sha] + SignerFields(c.value.signerSha256));
  }

  function RowsField(key: string, rows: seq<ReceiptDocument>): Field
  {
    Field(key, List(JsonOfRows(rows)))
  }

  function TargetFields(rows: seq<ReceiptDocument>): seq<Field>
  {
    if rows == [] then [] else [RowsField("rollback_targets", rows)]
  }

  function RowFieldsOf(d: StateDocument): seq<Field>
  {
    [RowsField("installed", d.installed)]
      + ([RowsField("highest_seen", d.highestSeen)] + TargetFields(d.rollbackTargets))
  }

  function RestFields(d: StateDocument): seq<Field>
  {
    [Field("catalog", JsonOfCheckpoint(d.catalog))] + RowFieldsOf(d)
  }

  lemma TargetsAreWritten(rows: seq<ReceiptDocument>)
    ensures TargetsText(rows) == Ends(TargetFields(rows))
  {
    hide WriteFields, Quote, RowsText, Write;
    if rows != [] {
      OptionalKeys();
      RowsAreWritten(rows);
      NextField(",\"rollback_targets\":", RowsField("rollback_targets", rows), []);
      assert [RowsField("rollback_targets", rows)] + [] == TargetFields(rows);
    }
  }

  lemma RestIsWritten(d: StateDocument)
    ensures RestText(d) == Ends(RestFields(d))
  {
    hide WriteFields, Quote, RowsText, Write, CheckpointText, TargetsText, Ends, TargetFields, JsonOfCheckpoint;
    Keys();
    TargetsAreWritten(d.rollbackTargets);
    RowsAreWritten(d.highestSeen);
    RowsAreWritten(d.installed);
    CheckpointIsWritten(d.catalog);
    var targets := TargetFields(d.rollbackTargets);
    var highest := [RowsField("highest_seen", d.highestSeen)] + targets;
    NextField(",\"highest_seen\":", RowsField("highest_seen", d.highestSeen), targets);
    NextField(",\"installed\":", RowsField("installed", d.installed), highest);
    NextField(",\"catalog\":", Field("catalog", JsonOfCheckpoint(d.catalog)), RowFieldsOf(d));
  }

  lemma RepositoryIsWritten(s: Option<string>)
    ensures StringText(s) == Write(JsonOfText(s))
  {
    if s.Some? { assert s.value + "\"" + "" == s.value + "\""; }
  }

  /** The document's text is the text of its value, field by field. */
  lemma DocumentIsWritten(d: StateDocument)
    ensures Render(d) == Write(JsonOf(d))
  {
    hide WriteFields, Quote, Decimal, RestText, StringText, Ends, RestFields, JsonOfText, JsonOf;
    FirstKeys();
    RestIsWritten(d);
    RepositoryIsWritten(d.repository);
    var repository := Field("repository", JsonOfText(d.repository));
    var generation, format := Field("generation", Number(d.generation)), Field("format", Number(d.format));
    var f3 := [repository] + RestFields(d);
    var f2 := [generation] + f3;
    FirstField(repository, RestFields(d));
    EndsMore(f3);
    FirstField(generation, f3);
    NumberField("\"generation\":", "generation", Decimal(d.generation), WriteFields(f3));
    EndsMore(f2);
    FirstField(format, f2);
    NumberField("\"format\":", "format", Decimal(d.format), WriteFields(f2));
    Ahead('{', "\"format\":", Decimal(d.format) + "," + WriteFields(f2));
    DocumentFields(d);
  }

  lemma DocumentFields(d: StateDocument)
    ensures JsonOf(d) == Object([Field("format", Number(d.format))] + ([Field("generation", Number(d.generation))]
      + ([Field("repository", JsonOfText(d.repository))] + RestFields(d))))
  {
    hide JsonOfText, JsonOfCheckpoint, JsonOfRows;
  }

  // ---------- and that value holds the document ----------

  lemma PlainNames()
    ensures Plain("id") && Plain("revision") && Plain("bytes") && Plain("sha256") && Plain("signer_sha256")
  {
  }

  lemma PlainStateNames()
    ensures Plain("format") && Plain("generation") && Plain("repository") && Plain("catalog")
    ensures Plain("installed") && Plain("highest_seen") && Plain("rollback_targets")
  {
  }

  lemma RowsArePlain(rows: seq<ReceiptDocument>)
    requires PlainRows(rows)
    ensures PlainValue(List(JsonOfRows(rows)))
  {
    hide Plain;
    PlainNames();
    forall i | 0 <= i < |rows|
      ensures PlainValue(JsonOfRow(rows[i]))
    {
      assert PlainRow(rows[i]);
    }
  }

  lemma CheckpointIsPlain(c: Option<CheckpointDocument>)
    requires PlainCheckpoint(c)
    ensures PlainValue(JsonOfCheckpoint(c))
  {
    hide Plain;
    PlainNames();
  }

  lemma DocumentIsPlain(d: StateDocument)
    requires PlainDocument(d)
    ensures PlainValue(JsonOf(d))
  {
    hide Plain, JsonOfCheckpoint, JsonOfRows, PlainRows;
    PlainStateNames();
    RowsArePlain(d.installed);
    RowsArePlain(d.highestSeen);
    RowsArePlain(d.rollbackTargets);
    CheckpointIsPlain(d.catalog);
  }

  lemma {:induction false} GetAt(fields: seq<Field>, i: nat)
    requires i < |fields| && forall j, k :: 0 <= j < k < |fields| ==> fields[j].key != fields[k].key
    ensures Get(fields, fields[i].key) == Some(fields[i].value)
  {
    if i > 0 {
      assert fields[1..][i - 1] == fields[i];
      GetAt(fields[1..], i - 1);
    }
  }

  lemma {:induction false} GetNone(fields: seq<Field>, name: string)
    requires forall f :: f in fields ==> f.key != name
    ensures Get(fields, name).None?
  {
    if fields != [] { GetNone(fields[1..], name); }
  }

  lemma RowIsRead(r: ReceiptDocument)
    ensures RowOfJson(JsonOfRow(r)) == Some(r)
  {
    hide Get;
    var f := JsonOfRow(r).fields;
    GetAt(f, 0);
    GetAt(f, 1);
    GetAt(f, 2);
    GetAt(f, 3);
  }

  lemma {:induction false} RowsAreRead(rows: seq<ReceiptDocument>)
    ensures RowsOfItems(JsonOfRows(rows)) == Some(rows)
  {
    hide RowOfJson, JsonOfRow;
    if rows != [] {
      RowIsRead(rows[0]);
      RowsAreRead(rows[1..]);
      assert JsonOfRows(rows)[1..] == JsonOfRows(rows[1..]);
      assert rows == [rows[0]] + rows[1..];
    }
  }

  lemma CheckpointIsRead(c: Option<CheckpointDocument>)
    ensures CheckpointOfJson(Some(JsonOfCheckpoint(c))) == Some(c)
  {
    if c.Some? {
      hide Get;
      var f := JsonOfCheckpoint(c).fields;
      GetAt(f, 0);
      GetAt(f, 1);
      if |f| == 3 { GetAt(f, 2); } else { GetNone(f, "signer_sha256"); }
    }
  }

  lemma DocumentIsRead(d: StateDocument)
    requires d.format <= 2
    ensures DocumentOfJson(JsonOf(d)) == Some(d)
  {
    hide JsonOfCheckpoint, JsonOfRows, CheckpointOfJson, RowsOfItems, Get;
    CheckpointIsRead(d.catalog);
    RowsAreRead(d.installed);
    RowsAreRead(d.highestSeen);
    RowsAreRead(d.rollbackTargets);
    DocumentKnown(d);
    DocumentGets(d);
  }

  lemma DocumentKnown(d: StateDocument)
    ensures Known(JsonOf(d).fields, STATE_FIELDS)
  {
    hide JsonOfCheckpoint, JsonOfRows, JsonOfText;
  }

  lemma DocumentGets(d: StateDocument)
    ensures var f := JsonOf(d).fields;
      && Get(f, "format") == Some(Number(d.format)) && Get(f, "generation") == Some(Number(d.generation))
      && Get(f, "repository") == Some(JsonOfText(d.repository))
      && Get(f, "catalog") == Some(JsonOfCheckpoint(d.catalog))
      && Get(f, "installed") == Some(List(JsonOfRows(d.installed)))
      && Get(f, "highest_seen") == Some(List(JsonOfRows(d.highestSeen)))
      && Get(f, "rollback_targets")
        == (if d.rollbackTargets == [] then None else Some(List(JsonOfRows(d.rollbackTargets))))
  {
    hide JsonOfCheckpoint, JsonOfRows, JsonOfText, Get;
    var f := JsonOf(d).fields;
    DocumentKnown(d);
    GetAt(f, 0);
    GetAt(f, 1);
    GetAt(f, 2);
    GetAt(f, 3);
    GetAt(f, 4);
    GetAt(f, 5);
    if d.rollbackTargets != [] { GetAt(f, 6); } else { GetNone(f, "rollback_targets"); }
  }

  /** Every document the store can write is read back from its text, by an ordinary reader of JSON. */
  lemma DecodeReadsBack(d: StateDocument)
    requires PlainDocument(d)
    ensures Decode(Render(d)) == Some(d)
  {
    hide ReadValue, Write, JsonOf, DocumentOfJson, PlainValue, Render;
    DocumentIsPlain(d);
    DocumentIsWritten(d);
    ValueReadsBack(JsonOf(d), "");
    assert Render(d) + "" == Render(d);
    DocumentIsRead(d);
  }

  // ---------- fields in any order ----------

  /** The same fields in any order. */
  ghost predicate Reordered(a: seq<Field>, b: seq<Field>)
  {
    multiset(a) == multiset(b)
  }

  ghost predicate DistinctKeys(fields: seq<Field>)
  {
    forall i, j :: 0 <= i < j < |fields| ==> fields[i].key != fields[j].key
  }

  lemma {:induction false} GetIs(fields: seq<Field>, name: string)
    ensures Get(fields, name).Some? ==> Field(name, Get(fields, name).value) in fields
    ensures DistinctKeys(fields) ==> forall f :: f in fields && f.key == name ==> Get(fields, name) == Some(f.value)
    ensures Get(fields, name).None? ==> forall f :: f in fields ==> f.key != name
  {
    if fields != [] {
      GetIs(fields[1..], name);
      assert forall f :: f in fields <==> f == fields[0] || f in fields[1..];
      assert fields[0] == Field(fields[0].key, fields[0].value);
      if DistinctKeys(fields) && fields[0].key == name {
        forall f | f in fields && f.key == name
          ensures f == fields[0]
        {
          var i :| 0 <= i < |fields| && fields[i] == f;
        }
      }
    }
  }

  lemma {:induction false} OnceEach(fields: seq<Field>, f: Field)
    requires DistinctKeys(fields)
    ensures multiset(fields)[f] <= 1
  {
    if fields != [] {
      var n := |fields| - 1;
      OnceEach(fields[..n], f);
      assert fields == fields[..n] + [fields[n]];
      assert forall i :: 0 <= i < n ==> fields[i].key != fields[n].key;
      assert f == fields[n] ==> f !in fields[..n];
    }
  }

  lemma DistinctInAnyOrder(a: seq<Field>, b: seq<Field>)
    requires Reordered(a, b) && DistinctKeys(a)
    ensures DistinctKeys(b)
  {
    forall i, j | 0 <= i < j < |b|
      ensures b[i].key != b[j].key
    {
      SameMembers(a, b);
      GetIs(a, b[i].key);
      if b[i].key == b[j].key {
        assert b[i] in b && b[j] in b;
        assert b[i].value == b[j].value;
        TwiceAt(b, i, j);
        OnceEach(a, b[i]);
        assert false;
      }
    }
  }

  lemma SameMembers(a: seq<Field>, b: seq<Field>)
    requires Reordered(a, b)
    ensures forall f :: f in a <==> f in b
  {
    forall f
      ensures f in a <==> f in b
    {
      assert f in a <==> f in multiset(a);
      assert f in b <==> f in multiset(b);
    }
  }

  lemma TwiceAt(b: seq<Field>, i: nat, j: nat)
    requires i < j < |b| && b[i] == b[j]
    ensures multiset(b)[b[i]] >= 2
  {
    assert b == b[..j] + [b[j]] + b[j + 1..];
    assert b[..j][i] == b[i] && b[i] in multiset(b[..j]);
  }

  lemma GetInAnyOrder(a: seq<Field>, b: seq<Field>, name: string)
    requires Reordered(a, b) && DistinctKeys(a)
    ensures Get(a, name) == Get(b, name)
  {
    DistinctInAnyOrder(a, b);
    SameMembers(a, b);
    GetIs(a, name);
    GetIs(b, name);
  }

  lemma KnownInAnyOrder(a: seq<Field>, b: seq<Field>, names: set<string>)
    requires Reordered(a, b)
    ensures Known(a, names) <==> Known(b, names)
  {
    SameMembers(a, b);
    if Known(a, names) { DistinctInAnyOrder(a, b); }
    if Known(b, names) { DistinctInAnyOrder(b, a); }
  }

  /** The order of the fields of a row or of the document does not matter to what is read. */
  lemma FieldsInAnyOrder(a: seq<Field>, b: seq<Field>)
    requires Reordered(a, b)
    ensures RowOfJson(Object(a)) == RowOfJson(Object(b))
    ensures CheckpointOfJson(Some(Object(a))) == CheckpointOfJson(Some(Object(b)))
    ensures DocumentOfJson(Object(a)) == DocumentOfJson(Object(b))
  {
    hide Known, Get, RowsOfJson, Reordered;
    KnownInAnyOrder(a, b, {"id", "revision", "bytes", "sha256"});
    KnownInAnyOrder(a, b, {"revision", "sha256", "signer_sha256"});
    KnownInAnyOrder(a, b, STATE_FIELDS);
    forall names, name | Known(a, names)
      ensures Get(a, name) == Get(b, name)
    {
      KnownIsDistinct(a, names);
      GetInAnyOrder(a, b, name);
    }
  }

  lemma KnownIsDistinct(fields: seq<Field>, names: set<string>)
    requires Known(fields, names)
    ensures DistinctKeys(fields)
  {
  }
}
