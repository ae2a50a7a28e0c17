/** The configuration file: reading its sections, writing them, and reading back (src/configuration.rs). */
module ConfigurationText {
  import opened Wrappers
  import opened Strings
  import opened BackendRules
  import Localization

  datatype Mode = LegacyBootstrap | Managed

  function ModeText(m: Mode): string
  {
    if m == Managed then "managed" else "legacy"
  }

  /** Settings, by the named values they are written as. */
  type Values = map<string, string>

  /**
   * What the file format takes from other parts of the program: lowercasing, the stored form of a
   * dictionary row, of a pack id and of a profile, and the reader of settings, which are written in
   * the order of `keys`.
   */
  datatype Formats = Formats(
    lower: string -> string,
    lexiconEntry: string -> Option<string>,
    packId: string -> Option<string>,
    profile: string -> Option<string>,
    keys: seq<string>,
    read: seq<string> -> Result<Values, nat>,
    valid: Values -> bool)

  /** A line that neither is blank, nor a comment, nor a section header, and is not changed by trimming. */
  predicate PlainRow(line: string)
  {
    |line| > 0 && Trimmed(line) && line[0] != '#' && !IsHeader(line)
  }

  predicate IsHeader(line: string)
  {
    |line| >= 2 && line[0] == '[' && line[|line| - 1] == ']'
  }

  predicate PlainName(name: string)
  {
    |name| > 0 && Trimmed(name) && '=' !in name && name[0] != '#' && name[0] != '['
  }

  /** The key and value of a `key=value` row. */
  function KeyValue(row: string): (r: Option<(string, string)>)
  {
    match SplitOnce(row, '=')
    case None => None
    case Some((k, v)) => Some((Trim(k), Trim(v)))
  }

  /** The values that rows with distinct keys give. */
  function RowMap(rows: seq<string>): (m: Option<map<string, string>>)
  {
    if rows == [] then Some(map[])
    else
      match (RowMap(rows[..|rows| - 1]), KeyValue(rows[|rows| - 1]))
      case (Some(m), Some((k, v))) => if k in m then None else Some(m[k := v])
      case _ => None
  }

  const UI_LANGUAGE := "ui_language"

  /** What is used of those other parts. */
  ghost predicate FormatsOk(f: Formats)
  {
    && LowerOk(f.lower)
    && (forall line :: EntryOk(f.lexiconEntry, line))
    && (forall id :: IdOk(f.packId, id))
    && (forall p :: ProfileOk(f.profile, p))
    && SettingsOk(f)
  }

  predicate EntryOk(entry: string -> Option<string>, line: string)
  {
    entry(line).Some? ==> Stored(entry, entry(line).value) && PlainRow(entry(line).value)
  }

  predicate IdOk(packId: string -> Option<string>, id: string)
  {
    packId(id).Some? ==> Stored(packId, packId(id).value) && PlainName(packId(id).value)
  }

  predicate ProfileOk(profile: string -> Option<string>, p: string)
  {
    profile(p).Some? ==>
      Stored(profile, profile(p).value) && Trimmed(profile(p).value) && |profile(p).value| > 0
  }

  predicate Stored(normalize: string -> Option<string>, entry: string)
  {
    normalize(entry) == Some(entry)
  }

  /**
   * Settings are written as one row for each key, and rows giving their values are read as those
   * settings in any order; the interface language among them is not theirs.
   */
  ghost predicate SettingsOk(f: Formats)
  {
    && (forall i, j :: 0 <= i < j < |f.keys| ==> f.keys[i] != f.keys[j])
    && (forall k :: k in f.keys ==> PlainName(k) && ToLowerAscii(k) != UI_LANGUAGE)
    && (forall s :: f.valid(s) ==> ValuesOk(f.keys, s))
    && (forall rows :: f.read(rows).Ok? ==> f.valid(f.read(rows).value))
    && (forall s, rows :: f.valid(s) && RowMap(rows).Some? && RowMap(rows).value - {UI_LANGUAGE} == s ==>
          f.read(rows) == Ok(s))
  }

  ghost predicate ValuesOk(keys: seq<string>, values: map<string, string>)
  {
    && (forall k :: k in values <==> k in keys)
    && (forall k :: k in values ==> Trimmed(values[k]) && '\n' !in values[k])
  }

  datatype Document = Document(
    mode: Mode,
    settings: Values,
    profiles: map<string, string>,
    uiLanguage: string,
    dictionary: seq<string>,
    exclusions: seq<string>,
    processes: seq<string>,
    rules: Rules)

  datatype Section =
    | Packages | Settings | InputProfiles | UserDictionary | WordExclusions | ProcessExclusions | RuleSection

  function Name(s: Section): (name: string)
    ensures |name| > 0 && forall c :: c in name ==> c == '_' || 'a' <= c <= 'z'
  {
    match s
    case Packages => "packages"
    case Settings => "settings"
    case InputProfiles => "input_profiles"
    case UserDictionary => "user_dictionary"
    case WordExclusions => "word_exclusions"
    case ProcessExclusions => "process_exclusions"
    case RuleSection => "backend_rules"
  }

  function FromName(name: string): (s: Option<Section>)
  {
    if name == "packages" then Some(Packages)
    else if name == "settings" then Some(Settings)
    else if name == "input_profiles" then Some(InputProfiles)
    else if name == "user_dictionary" then Some(UserDictionary)
    else if name == "word_exclusions" then Some(WordExclusions)
    else if name == "process_exclusions" then Some(ProcessExclusions)
    else if name == "backend_rules" then Some(RuleSection)
    else None
  }

  datatype Reason =
    | DuplicatePackages | DuplicateInputProfiles | UnknownSection
    | ExpectedSchema | OnlyOneSchema | InvalidSchema
    | ExpectedMode | OnlyOneMode | InvalidMode
    | TooManyProfiles | ExpectedProfile | DuplicateSetting
    | MissingSchema | UnsupportedSchema | ProfilesNeedVersion3 | PackagesNeedVersion4 | MissingMode
    | InvalidProfiles | InvalidSettings | InvalidLexiconEntry | InvalidProcessEntry | InvalidRule(rule: RuleReason)
    | EntryInBothLists | NotReadBack

  datatype TextError = TextError(line: Option<nat>, reason: Reason)

  /** What was collected from the lines so far. */
  datatype Reading = Reading(
    schema: Option<nat>,
    section: Option<Section>,
    settings: seq<(nat, string)>,
    ui: Option<string>,
    dictionary: seq<(nat, string)>,
    exclusions: seq<(nat, string)>,
    processes: seq<(nat, string)>,
    rules: seq<(nat, string)>,
    rulesSeen: bool,
    profilesSeen: bool,
    profiles: seq<(string, string)>,
    packagesSeen: bool,
    mode: Option<Mode>)

  const START := Reading(None, None, [], None, [], [], [], [], false, false, [], false, None)

  /** `str::parse::<u32>`. */
  function ParseU32(s: string): (r: Option<nat>)
    ensures r.Some? ==> r.value < 0x1_0000_0000
  {
    var digits := if |s| > 0 && s[0] == '+' then s[1..] else s;
    if digits == "" || !IsDigits(digits) || DigitsValue(digits) >= 0x1_0000_0000 then None
    else Some(DigitsValue(digits))
  }

  /** `UiLanguagePreference::from_config`. */
  function UiFromConfig(raw: string): string
  {
    var value := Trim(raw);
    if value == "" || ToLowerAscii(value) == "system" then "system"
    else
      match Localization.NormalizeLocale(value)
      case Ok(locale) => locale
      case Err(_) => "en"
  }

  function EnterSection(st: Reading, name: string): (r: Result<Reading, Reason>)
  {
    match FromName(ToLowerAscii(Trim(name)))
    case None => Err(UnknownSection)
    case Some(Packages) =>
      if st.packagesSeen then Err(DuplicatePackages)
      else Ok(st.(packagesSeen := true, section := Some(Packages)))
    case Some(InputProfiles) =>
      if st.profilesSeen then Err(DuplicateInputProfiles)
      else Ok(st.(profilesSeen := true, section := Some(InputProfiles)))
    case Some(RuleSection) => Ok(st.(rulesSeen := true, section := Some(RuleSection)))
    case Some(s) => Ok(st.(section := Some(s)))
  }

  function ReadSchema(st: Reading, line: string): (r: Result<Reading, Reason>)
  {
    match KeyValue(line)
    case None => Err(ExpectedSchema)
    case Some((key, value)) =>
      if key != "schema_version" || st.schema.Some? then Err(OnlyOneSchema)
      else if ParseU32(value).None? then Err(InvalidSchema)
      else Ok(st.(schema := ParseU32(value)))
  }

  function ReadMode(st: Reading, line: string): (r: Result<Reading, Reason>)
  {
    match KeyValue(line)
    case None => Err(ExpectedMode)
    case Some((key, value)) =>
      if key != "mode" || st.mode.Some? then Err(OnlyOneMode)
      else if value == "legacy" then Ok(st.(mode := Some(LegacyBootstrap)))
      else if value == "managed" then Ok(st.(mode := Some(Managed)))
      else Err(InvalidMode)
  }

  function ReadProfile(st: Reading, line: string): (r: Result<Reading, Reason>)
  {
    if |st.profiles| >= 64 then Err(TooManyProfiles)
    else
      match KeyValue(line)
      case None => Err(ExpectedProfile)
      case Some(row) => Ok(st.(profiles := st.profiles + [row]))
  }

  function ReadSetting(st: Reading, number: nat, line: string): (r: Result<Reading, Reason>)
  {
    var row := SplitOnce(line, '=');
    if row.Some? && ToLowerAscii(Trim(row.value.0)) == UI_LANGUAGE then
      if st.ui.Some? then Err(DuplicateSetting)
      else Ok(st.(ui := Some(UiFromConfig(row.value.1)), settings := st.settings + [(number, line)]))
    else Ok(st.(settings := st.settings + [(number, line)]))
  }

  function ReadRowOf(st: Reading, number: nat, line: string): (r: Result<Reading, Reason>)
  {
    match st.section
    case None => ReadSchema(st, line)
    case Some(Packages) => ReadMode(st, line)
    case Some(InputProfiles) => ReadProfile(st, line)
    case Some(Settings) => ReadSetting(st, number, line)
    case Some(UserDictionary) => Ok(st.(dictionary := st.dictionary + [(number, line)]))
    case Some(WordExclusions) => Ok(st.(exclusions := st.exclusions + [(number, line)]))
    case Some(ProcessExclusions) => Ok(st.(processes := st.processes + [(number, line)]))
    case Some(RuleSection) => Ok(st.(rules := st.rules + [(number, line)]))
  }

  /** One line of the file. */
  function Step(st: Reading, number: nat, raw: string): (r: Result<Reading, Reason>)
  {
    var line := Trim(raw);
    if line == "" || line[0] == '#' then Ok(st)
    else if IsHeader(line) then EnterSection(st, line[1..|line| - 1])
    else ReadRowOf(st, number, line)
  }

  function Run(st: Reading, lines: seq<string>, number: nat): (r: Result<Reading, TextError>)
    decreases |lines|
  {
    if lines == [] then Ok(st)
    else
      match Step(st, number, lines[0])
      case Err(e) => Err(TextError(Some(number), e))
      case Ok(next) => Run(next, lines[1..], number + 1)
  }

  // ---------- from what was collected to a document ----------

  /** The entries of the rows in order, or the first row without one. */
  function EntrySet(entry: string -> Option<string>, rows: seq<(nat, string)>): (r: Result<set<string>, nat>)
  {
    if rows == [] then Ok({})
    else
      var last := rows[|rows| - 1];
      match EntrySet(entry, rows[..|rows| - 1])
      case Err(line) => Err(line)
      case Ok(entries) => if entry(last.1).None? then Err(last.0) else Ok(entries + {entry(last.1).value})
  }

  /** `canonical_lexicon_entries` and `canonical_process_entries`: sorted, each stored form once. */
  function CanonicalEntries(entry: string -> Option<string>, rows: seq<(nat, string)>, reason: Reason)
    : (r: Result<seq<string>, TextError>)
  {
    match EntrySet(entry, rows)
    case Err(line) => Err(TextError(Some(line), reason))
    case Ok(entries) => Ok(SortedKeys(entries))
  }

  function LastSegment(path: string): string
  {
    var parts := Split(WithBackslashes(path), '\\');
    parts[|parts| - 1]
  }

  /** `process_entry`: the lowercased last segment, if it reads back as a row of its own. */
  function ProcessEntry(lower: string -> string): string -> Option<string>
  {
    (row: string) =>
      var value := TrimWhere(Trim(row), IsQuote);
      if exists c :: c in value && Forbidden(c) then None
      else
        var name := Trim(LastSegment(value));
        if name == "" then None
        else
          var stored := lower(name);
          if stored == "" || stored[0] == '#' || (stored[0] == '[' && stored[|stored| - 1] == ']') then None
          else Some(stored)
  }

  function ProfileMap(f: Formats, rows: seq<(string, string)>): (r: Option<map<string, string>>)
  {
    if rows == [] then Some(map[])
    else
      var (id, profile) := rows[|rows| - 1];
      match (ProfileMap(f, rows[..|rows| - 1]), f.packId(id), f.profile(profile))
      case (Some(m), Some(i), Some(p)) => if i in m then None else Some(m[i := p])
      case _ => None
  }

  /** `InputProfileSelections::parse`: at most 64 rows, each valid, no pack twice. */
  function ParseProfiles(f: Formats, rows: seq<(string, string)>): (r: Option<map<string, string>>)
  {
    if |rows| > 64 then None else ProfileMap(f, rows)
  }

  function Texts(rows: seq<(nat, string)>): (t: seq<string>)
    ensures |t| == |rows| && forall i :: 0 <= i < |rows| ==> t[i] == rows[i].1
  {
    seq(|rows|, i requires 0 <= i < |rows| => rows[i].1)
  }

  function LineOf(rows: seq<(nat, string)>, k: nat): nat
  {
    if 1 <= k <= |rows| then rows[k - 1].0 else 0
  }

  function Numbered(rows: seq<string>, number: nat): (n: seq<(nat, string)>)
    ensures |n| == |rows| && forall i :: 0 <= i < |rows| ==> n[i] == (number + i, rows[i])
  {
    seq(|rows|, i requires 0 <= i < |rows| => (number + i, rows[i]))
  }

  const DEFAULT_RULES: seq<string> := [
    "notepad.exe = protected-paste", "viber.exe = protected-paste", "windowsterminal.exe = physical-replay",
    "openconsole.exe = physical-replay", "conhost.exe = physical-replay", "firefox.exe = physical-replay",
    "* = capability-probe"]

  /** `BackendRules::default`: the built-in rows, which the source expects to parse. */
  function DefaultRules(lower: string -> string): (r: Rules)
  {
    match Parsed(lower, DEFAULT_RULES)
    case Ok(rules) => rules
    case Err(_) => Rules(map[], CapabilityProbe)
  }

  /** The checks of the schema version once all lines are read. */
  function VersionProblem(st: Reading): Option<Reason>
  {
    if st.schema.None? then Some(MissingSchema)
    else if !(1 <= st.schema.value <= 4) then Some(UnsupportedSchema)
    else if st.profilesSeen && st.schema.value < 3 then Some(ProfilesNeedVersion3)
    else if st.packagesSeen && st.schema.value < 4 then Some(PackagesNeedVersion4)
    else if st.schema.value >= 4 && st.mode.None? then Some(MissingMode)
    else None
  }

  function ReadRules(f: Formats, st: Reading): (r: Result<Rules, TextError>)
  {
    if !st.rulesSeen then Ok(DefaultRules(f.lower))
    else
      match Parsed(f.lower, Texts(st.rules))
      case Err(e) => Err(TextError(Some(LineOf(st.rules, e.line)), InvalidRule(e.reason)))
      case Ok(rules) => Ok(rules)
  }

  function ReadSettings(f: Formats, st: Reading): (r: Result<Values, TextError>)
  {
    match f.read(Texts(st.settings))
    case Err(line) => Err(TextError(Some(LineOf(st.settings, line)), InvalidSettings))
    case Ok(s) => Ok(s)
  }

  /** The document of what was collected, or the first part of it that is refused. */
  function Assembled(f: Formats, st: Reading): (r: Result<Document, TextError>)
  {
    if VersionProblem(st).Some? then Err(TextError(None, VersionProblem(st).value))
    else
      match ParseProfiles(f, st.profiles)
      case None => Err(TextError(None, InvalidProfiles))
      case Some(profiles) =>
      match ReadSettings(f, st)
      case Err(e) => Err(e)
      case Ok(settings) =>
      match CanonicalEntries(f.lexiconEntry, st.dictionary, InvalidLexiconEntry)
      case Err(e) => Err(e)
      case Ok(dictionary) =>
      match CanonicalEntries(f.lexiconEntry, st.exclusions, InvalidLexiconEntry)
      case Err(e) => Err(e)
      case Ok(exclusions) =>
      match CanonicalEntries(ProcessEntry(f.lower), st.processes, InvalidProcessEntry)
      case Err(e) => Err(e)
      case Ok(processes) =>
      match ReadRules(f, st)
      case Err(e) => Err(e)
      case Ok(rules) =>
        var mode := if st.mode.Some? then st.mode.value else LegacyBootstrap;
        var ui := if st.ui.Some? then st.ui.value else "system";
        Canonicalized(f, Document(mode, settings, profiles, ui, dictionary, exclusions, processes, rules))
  }

  /** `canonicalize_and_validate`. */
  function Canonicalized(f: Formats, d: Document): (r: Result<Document, TextError>)
  {
    match CanonicalEntries(f.lexiconEntry, Numbered(d.dictionary, 1), InvalidLexiconEntry)
    case Err(e) => Err(e)
    case Ok(dictionary) =>
    match CanonicalEntries(f.lexiconEntry, Numbered(d.exclusions, 1), InvalidLexiconEntry)
    case Err(e) => Err(e)
    case Ok(exclusions) =>
    match CanonicalEntries(ProcessEntry(f.lower), Numbered(d.processes, 1), InvalidProcessEntry)
    case Err(e) => Err(e)
    case Ok(processes) =>
      if !f.valid(d.settings) then Err(TextError(None, InvalidSettings))
      else if exists e :: e in exclusions && e in dictionary then Err(TextError(None, EntryInBothLists))
      else Ok(d.(dictionary := dictionary, exclusions := exclusions, processes := processes))
  }

  function Parse(f: Formats, lines: seq<string>): (r: Result<Document, TextError>)
  {
    match Run(START, lines, 1)
    case Err(e) => Err(e)
    case Ok(st) => Assembled(f, st)
  }

  /** `from_text`: one pass over the lines, then the parts. */
  method FromText(f: Formats, lines: seq<string>) returns (r: Result<Document, TextError>)
    ensures r == Parse(f, lines)
  {
    hide EnterSection, ReadRowOf, Assembled, Trim;
    var st := START;
    var i := 0;
    while i < |lines|
      invariant 0 <= i <= |lines|
      invariant Run(START, lines, 1) == Run(st, lines[i..], i + 1)
    {
      assert lines[i..][1..] == lines[i + 1..];
      var line := Trim(lines[i]);
      if line != "" && line[0] != '#' {
        var next := if IsHeader(line) then EnterSection(st, line[1..|line| - 1]) else ReadRowOf(st, i + 1, line);
        if next.Err? { return Err(TextError(Some(i + 1), next.error)); }
        st := next.value;
      }
      i := i + 1;
    }
    return Assembled(f, st);
  }

  // ---------- writing ----------

  function SettingRows(keys: seq<string>, values: map<string, string>): (rows: seq<string>)
    ensures |rows| == |keys| && forall i :: 0 <= i < |keys| ==> rows[i] == SettingRow(keys[i], values)
  {
    seq(|keys|, i requires 0 <= i < |keys| => SettingRow(keys[i], values))
  }

  function SettingRow(key: string, values: map<string, string>): string
  {
    key + "=" + if key in values then values[key] else ""
  }

  function Header(s: Section): string { "[" + Name(s) + "]" }

  function ProfileRows(profiles: map<string, string>): (rows: seq<string>)
  {
    SettingRows(SortedKeys(profiles.Keys), profiles)
  }

  function SectionLines(s: Section, rows: seq<string>): seq<string>
  {
    ["", Header(s)] + rows
  }

  function Preamble(d: Document): seq<string>
  {
    ["# AutoKeyboardLayot configuration", "schema_version=4"]
    + SectionLines(Packages, ["mode=" + ModeText(d.mode)])
    + SectionLines(Settings, ["ui_language=" + d.uiLanguage, "# AutoKeyboardLayot settings v2"])
  }

  function LinesBeforeRules(f: Formats, d: Document): seq<string>
  {
    Preamble(d) + SettingRows(f.keys, d.settings)
    + SectionLines(UserDictionary, d.dictionary)
    + SectionLines(InputProfiles, ProfileRows(d.profiles))
    + SectionLines(WordExclusions, d.exclusions)
    + SectionLines(ProcessExclusions, d.processes)
  }

  /** The lines of `to_text` before its read-back check. */
  function Lines(f: Formats, d: Document): seq<string>
  {
    LinesBeforeRules(f, d) + SectionLines(RuleSection, ToLines(d.rules))
  }

  /** `to_text`: refused when what is written would not read back unchanged. */
  function ToText(f: Formats, d: Document): (r: Result<seq<string>, TextError>)
  {
    match Canonicalized(f, d)
    case Err(e) => Err(e)
    case Ok(c) =>
      if Parse(f, Lines(f, c)) == Ok(c) then Ok(Lines(f, c)) else Err(TextError(None, NotReadBack))
  }
}
