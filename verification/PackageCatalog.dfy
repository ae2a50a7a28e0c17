/** Release catalogs after authentication: repository names, the catalog checks and selections. */
module PackageCatalog {
  import opened Wrappers
  import opened Strings
  import opened PackageInventory
  import Localization

  // ---------- repository names ----------

  predicate SegmentChar(c: char)
  {
    Localization.IsAlnum(c) || c == '-' || c == '_' || c == '.'
  }

  predicate SafeSegment(value: string, maximum: nat)
  {
    && 0 < |value| <= maximum && Localization.IsAlnum(value[0])
    && forall i :: 0 <= i < |value| ==> SegmentChar(value[i])
  }

  function RepositoryId(value: string): Result<string, ReleaseError>
  {
    match SplitOnce(value, '/')
    case None => Err(InvalidData)
    case Some((owner, repo)) =>
      if SafeSegment(owner, 100) && SafeSegment(repo, 100) then Ok(ToLowerAscii(value)) else Err(InvalidData)
  }

  /** Normalizing a repository name is idempotent. */
  lemma RepositoryIdStable(value: string)
    requires RepositoryId(value).Ok?
    ensures RepositoryId(RepositoryId(value).value) == RepositoryId(value)
  {
    hide SafeSegment, ToLowerAscii, LowerAscii;
    var (owner, repo) := SplitOnce(value, '/').value;
    SegmentLower(owner);
    SegmentLower(repo);
    LowerConcat(owner, repo);
    SplitOnceUnique(ToLowerAscii(owner), ToLowerAscii(repo), '/');
    LowerAsciiIdempotent(value);
  }

  lemma LowerConcat(owner: string, repo: string)
    ensures ToLowerAscii(owner + ['/'] + repo) == ToLowerAscii(owner) + ['/'] + ToLowerAscii(repo)
  {
  }

  lemma SegmentLower(value: string)
    requires SafeSegment(value, 100)
    ensures SafeSegment(ToLowerAscii(value), 100) && '/' !in ToLowerAscii(value)
  {
    var lower := ToLowerAscii(value);
    forall i | 0 <= i < |lower|
      ensures SegmentChar(lower[i])
    {
      assert SegmentChar(value[i]);
    }
  }

  lemma RepositoryIdPlain(value: string)
    requires RepositoryId(value).Ok?
    ensures (forall c :: c in value ==> c != '"' && c != '\\' && ' ' <= c) && |value| <= 201
  {
    var (owner, repo) := SplitOnce(value, '/').value;
    forall i | 0 <= i < |value|
      ensures value[i] != '"' && value[i] != '\\' && ' ' <= value[i]
    {
      if i < |owner| {
        assert SegmentChar(owner[i]);
      } else if i > |owner| {
        assert SegmentChar(repo[i - |owner| - 1]);
      }
    }
  }

  // ---------- catalogs ----------

  const MAX_LIFETIME_SECONDS: nat := 31 * 24 * 60 * 60

  datatype Entry = Entry(
    packageId: string,
    revision: U64,
    bytes: U64,
    sha256: string,
    tag: string,
    asset: string,
    runtimeApi: nat,
    input: bool,
    uiLocale: Option<string>)

  /** An authenticated catalog document with its digest and the fingerprint of its signing key. */
  datatype SignedDocument = SignedDocument(
    format: nat,
    repository: string,
    revision: U64,
    issuedAt: U64,
    expiresAt: U64,
    entries: seq<Entry>,
    digest: Digest,
    signer: Digest)

  datatype Catalog = Catalog(
    checkpoint: Checkpoint,
    repository: string,
    packages: map<PackId, PinnedPackage>,
    issuedAt: U64,
    expiresAt: U64)

  predicate EndsWith(s: string, suffix: string)
  {
    |s| >= |suffix| && s[|s| - |suffix|..] == suffix
  }

  /** The locale of an entry in normal form; English and the system preference are not packages. */
  function EntryLocale(e: Entry): Result<Option<string>, ReleaseError>
  {
    match e.uiLocale
    case None => if e.input then Ok(None) else Err(InvalidData)
    case Some(locale) =>
      match Localization.NormalizeLocale(locale)
      case Err(_) => Err(InvalidData)
      case Ok(l) => if Localization.Reserved(l) then Err(InvalidData) else Ok(Some(l))
  }

  predicate EntryShape(e: Entry)
  {
    && e.revision != 0 && e.bytes != 0 && e.bytes <= MAX_PACKAGE_BYTES
    && SafeSegment(e.tag, 64) && ToLowerAscii(e.tag) != "latest"
    && SafeSegment(e.asset, 128) && EndsWith(e.asset, ".aklp")
  }

  function PinOf(e: Entry, d: SignedDocument): (r: Result<PinnedPackage, ReleaseError>)
    ensures r.Ok? ==> r.value.issuedAt == d.issuedAt && r.value.expiresAt == d.expiresAt
    ensures r.Ok? ==> 1 <= r.value.receipt.revision && 1 <= r.value.receipt.bytes <= MAX_PACKAGE_BYTES
  {
    if !Localization.IdGrammar(e.packageId) || !EntryShape(e) then Err(InvalidData)
    else
      match (EntryLocale(e), DecodeHex(e.sha256, 32))
      case (Ok(locale), Some(sha256)) =>
        Ok(PinnedPackage(
             Receipt(ToLowerAscii(e.packageId), e.revision, e.bytes, sha256),
             e.runtimeApi, e.input, locale, d.issuedAt, d.expiresAt))
      case _ => Err(InvalidData)
  }

  function Pins(es: seq<Entry>, d: SignedDocument, assets: set<(string, string)>, pins: map<PackId, PinnedPackage>)
    : (r: Result<map<PackId, PinnedPackage>, ReleaseError>)
    requires forall id :: id in pins ==> Pinned(id, pins[id], d)
    ensures r.Ok? ==> forall id :: id in r.value ==> Pinned(id, r.value[id], d)
    decreases |es|
  {
    if |es| == 0 then Ok(pins)
    else
      match PinOf(es[0], d)
      case Err(e) => Err(e)
      case Ok(pin) =>
        var asset := (ToLowerAscii(es[0].tag), ToLowerAscii(es[0].asset));
        if asset in assets || pin.receipt.id in pins then Err(InvalidData)
        else Pins(es[1..], d, assets + {asset}, pins[pin.receipt.id := pin])
  }

  predicate Pinned(id: PackId, pin: PinnedPackage, d: SignedDocument)
  {
    pin.receipt.id == id && pin.issuedAt == d.issuedAt && pin.expiresAt == d.expiresAt
  }

  /** `VerifiedReleaseCatalog::verify` after authentication. */
  function Verify(d: SignedDocument, expected: string, previous: Option<Checkpoint>, now: nat)
    : Result<Catalog, ReleaseError>
  {
    if d.format != 1 || d.revision == 0 then Err(Incompatible)
    else
      match (RepositoryId(d.repository), RepositoryId(expected))
      case (Ok(repository), Ok(wanted)) =>
        if repository != wanted then Err(WrongRepository)
        else if d.expiresAt <= d.issuedAt || d.expiresAt - d.issuedAt > MAX_LIFETIME_SECONDS
                || CheckWindow(d.issuedAt, d.expiresAt, now).Some? then Err(NotCurrent)
        else
          var checkpoint := Checkpoint(d.revision, d.digest, d.signer);
          (match CheckCheckpoint(previous, checkpoint)
           case Some(e) => Err(e)
           case None =>
             if |d.entries| > 64 then Err(PlanTooLarge)
             else
               match Pins(d.entries, d, {}, map[])
               case Err(e) => Err(e)
               case Ok(pins) => Ok(Catalog(checkpoint, repository, pins, d.issuedAt, d.expiresAt)))
      case _ => Err(InvalidData)
  }

  predicate Compatible(pin: PinnedPackage)
  {
    1 <= pin.runtimeApi <= RUNTIME_API
  }

  /** The pins of the requested ids in id order, with the running total that bounds them. */
  function SelectPins(c: Catalog, ids: seq<PackId>, total: nat): (r: Result<seq<PinnedPackage>, ReleaseError>)
    ensures r.Ok? ==> |r.value| == |ids|
    ensures r.Ok? ==> forall i :: 0 <= i < |ids| ==>
      ids[i] in c.packages && r.value[i] == c.packages[ids[i]] && Compatible(r.value[i])
    decreases |ids|
  {
    if |ids| == 0 then Ok([])
    else if ids[0] !in c.packages then Err(MissingSelection)
    else
      var pin := c.packages[ids[0]];
      if !Compatible(pin) then Err(Incompatible)
      else if total + pin.receipt.bytes > MAX_SELECTED_DOWNLOAD_BYTES then Err(PlanTooLarge)
      else
        match SelectPins(c, ids[1..], total + pin.receipt.bytes)
        case Err(e) => Err(e)
        case Ok(rest) => Ok([pin] + rest)
  }

  function Extended(pins: seq<PinnedPackage>, r: Result<seq<PinnedPackage>, ReleaseError>)
    : Result<seq<PinnedPackage>, ReleaseError>
  {
    match r
    case Err(e) => Err(e)
    case Ok(rest) => Ok(pins + rest)
  }

  lemma ExtendedNone(r: Result<seq<PinnedPackage>, ReleaseError>)
    ensures Extended([], r) == r
  {
    if r.Ok? {
      assert [] + r.value == r.value;
    }
  }

  lemma ExtendedStep(pins: seq<PinnedPackage>, pin: PinnedPackage, r: Result<seq<PinnedPackage>, ReleaseError>)
    ensures Extended(pins, Extended([pin], r)) == Extended(pins + [pin], r)
  {
    if r.Ok? {
      assert pins + ([pin] + r.value) == pins + [pin] + r.value;
    }
  }

  lemma SelectNext(c: Catalog, ids: seq<PackId>, i: nat, total: nat)
    requires i < |ids|
    ensures SelectPins(c, ids[i..], total) ==
      if ids[i] !in c.packages then Err(MissingSelection)
      else if !Compatible(c.packages[ids[i]]) then Err(Incompatible)
      else
        var pin := c.packages[ids[i]];
        if total + pin.receipt.bytes > MAX_SELECTED_DOWNLOAD_BYTES then Err(PlanTooLarge)
        else Extended([pin], SelectPins(c, ids[i + 1..], total + pin.receipt.bytes))
  {
    hide Compatible;
    assert ids[i..][0] == ids[i] && ids[i..][1..] == ids[i + 1..];
  }

  lemma SelectEnds(c: Catalog, ids: seq<PackId>, pins: seq<PinnedPackage>, total: nat)
    ensures Extended(pins, SelectPins(c, ids[|ids|..], total)) == Ok(pins)
  {
    assert ids[|ids|..] == [] && pins + [] == pins;
  }

  /** The loop of `select` over the requested ids. */
  method SelectLoop(c: Catalog, ids: seq<PackId>) returns (r: Result<seq<PinnedPackage>, ReleaseError>)
    ensures r == SelectPins(c, ids, 0)
  {
    hide Compatible, SelectPins;
    var pins: seq<PinnedPackage> := [];
    var total: nat := 0;
    assert ids[0..] == ids;
    ExtendedNone(SelectPins(c, ids, 0));
    for i := 0 to |ids|
      invariant Extended(pins, SelectPins(c, ids[i..], total)) == SelectPins(c, ids, 0)
    {
      SelectNext(c, ids, i, total);
      if ids[i] !in c.packages { return Err(MissingSelection); }
      var pin := c.packages[ids[i]];
      if !Compatible(pin) { return Err(Incompatible); }
      total := total + pin.receipt.bytes;
      if total > MAX_SELECTED_DOWNLOAD_BYTES { return Err(PlanTooLarge); }
      ExtendedStep(pins, pin, SelectPins(c, ids[i + 1..], total));
      pins := pins + [pin];
    }
    SelectEnds(c, ids, pins, total);
    return Ok(pins);
  }

  function SelectPlan(c: Catalog, ids: set<PackId>, now: nat): Result<DownloadPlan, ReleaseError>
  {
    if CheckWindow(c.issuedAt, c.expiresAt, now).Some? then Err(NotCurrent)
    else if |ids| > 64 then Err(PlanTooLarge)
    else
      match SelectPins(c, SortedKeys(ids), 0)
      case Err(e) => Err(e)
      case Ok(pins) => Ok(DownloadPlan(pins, c.checkpoint, c.repository, c.issuedAt, c.expiresAt))
  }
}
