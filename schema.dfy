/**
 * The shared schema: the four persisted records, the file-type tags, the column
 * defaults and the two validation schemas (voice settings and OCR settings).
 * Timestamps are integers (milliseconds); user ids are integers, and a row's
 * owner is `None` when the column is null.
 */
module Schema {
  import opened Wrappers

  // ---------------------------------------------------------------------------
  // File-type tags
  // ---------------------------------------------------------------------------

  /** `FILE_TYPES`: every tag names itself. */
  const FileTypes: map<string, string> :=
    map["PDF" := "PDF", "DOCX" := "DOCX", "IMG" := "IMG", "TXT" := "TXT"]

  lemma FileTypesAreTheFourTags()
    ensures FileTypes.Keys == {"PDF", "DOCX", "IMG", "TXT"}
    ensures forall tag :: tag in FileTypes ==> FileTypes[tag] == tag
  {
  }

  // ---------------------------------------------------------------------------
  // Records
  // ---------------------------------------------------------------------------

  /** Column defaults of the `users` table, which `createUser` also writes. */
  const DefaultDarkMode: bool := false
  const DefaultTtsCredits: int := 100

  datatype User = User(
    id: int, username: string, password: string,
    darkMode: bool, ttsCredits: int, createdAt: int)

  /** What registration supplies (`insertUserSchema` picks these two). */
  datatype NewUser = NewUser(username: string, password: string)

  datatype UploadedFile = UploadedFile(
    id: int, userId: Option<int>, filePath: string, fileName: string,
    fileType: string, extractedText: Option<string>, processed: bool, uploadDate: int)

  datatype NewUploadedFile = NewUploadedFile(
    userId: Option<int>, filePath: string, fileName: string,
    fileType: string, extractedText: Option<string>)

  datatype Conversion = Conversion(
    id: int, userId: Option<int>, sourceFileId: Option<int>, textContent: string,
    audioFilePath: Option<string>, voiceSettings: VoiceSettings, language: string,
    createdAt: int)

  datatype NewConversion = NewConversion(
    userId: Option<int>, sourceFileId: Option<int>, textContent: string,
    audioFilePath: Option<string>, voiceSettings: VoiceSettings, language: string)

  datatype Preset = Preset(id: int, userId: int, name: string, content: string, createdAt: int)

  datatype NewPreset = NewPreset(userId: int, name: string, content: string)

  // ---------------------------------------------------------------------------
  // Validation schemas
  // ---------------------------------------------------------------------------

  /**
   * One property of a JSON object as a schema sees it: absent (`undefined`, so
   * the default applies), a value of the expected type, or anything else.
   */
  datatype Field<T> = Missing | Given(value: T) | WrongType

  /** A number property with a closed range and a default. */
  function NumberField(f: Field<real>, lo: real, hi: real, default: real): (r: Option<real>)
    requires lo <= default <= hi
    ensures r.Some? ==> lo <= r.value <= hi
    ensures r.Some? <==> f.Missing? || (f.Given? && lo <= f.value <= hi)
    ensures f.Given? && r.Some? ==> r.value == f.value
    ensures f.Missing? ==> r == Some(default)
  {
    match f
    case Missing => Some(default)
    case Given(x) => if lo <= x <= hi then Some(x) else None
    case WrongType => None
  }

  const VoiceTypes: set<string> := {"male1", "female1", "male2", "female2"}

  datatype VoiceSettings = VoiceSettings(speed: real, pitch: real, voiceType: string)

  datatype VoiceInput = VoiceInput(speed: Field<real>, pitch: Field<real>, voiceType: Field<string>)

  /** The ranges `voiceSettingsSchema` enforces. */
  predicate ValidVoice(v: VoiceSettings) {
    0.5 <= v.speed <= 1.5 && 0.1 <= v.pitch <= 0.9 && v.voiceType in VoiceTypes
  }

  const DefaultVoice: VoiceSettings := VoiceSettings(1.0, 0.5, "male1")

  /** `voiceSettingsSchema.parse` on an object; `None` is the thrown validation error. */
  function ParseVoice(input: VoiceInput): (r: Option<VoiceSettings>)
    ensures r.Some? ==> ValidVoice(r.value)
    ensures r.Some? <==>
      && (input.speed.Missing? || (input.speed.Given? && 0.5 <= input.speed.value <= 1.5))
      && (input.pitch.Missing? || (input.pitch.Given? && 0.1 <= input.pitch.value <= 0.9))
      && (input.voiceType.Missing? || (input.voiceType.Given? && input.voiceType.value in VoiceTypes))
    ensures r.Some? ==>
      && r.value.speed == (if input.speed.Given? then input.speed.value else 1.0)
      && r.value.pitch == (if input.pitch.Given? then input.pitch.value else 0.5)
      && r.value.voiceType == (if input.voiceType.Given? then input.voiceType.value else "male1")
  {
    var speed := NumberField(input.speed, 0.5, 1.5, 1.0);
    var pitch := NumberField(input.pitch, 0.1, 0.9, 0.5);
    var voiceType :=
      match input.voiceType
      case Missing => Some("male1")
      case Given(t) => if t in VoiceTypes then Some(t) else None
      case WrongType => None;
    if speed.Some? && pitch.Some? && voiceType.Some? then
      Some(VoiceSettings(speed.value, pitch.value, voiceType.value))
    else None
  }

  /** The defaults satisfy the ranges, and an empty object parses to them. */
  lemma DefaultVoiceIsValid()
    ensures ValidVoice(DefaultVoice)
    ensures ParseVoice(VoiceInput(Missing, Missing, Missing)) == Some(DefaultVoice)
  {
  }

  /** Valid settings written out in full parse back to themselves, and only valid ones do. */
  lemma ParseVoiceRoundTrip(v: VoiceSettings)
    ensures ParseVoice(VoiceInput(Given(v.speed), Given(v.pitch), Given(v.voiceType))) ==
            (if ValidVoice(v) then Some(v) else None)
  {
  }

  datatype OcrSettings = OcrSettings(mode: real, engine: real, language: string)

  datatype OcrInput = OcrInput(mode: Field<real>, engine: Field<real>, language: Field<string>)

  /** `ocrSettingsSchema.parse` on an object; `None` is the thrown validation error. */
  function ParseOcr(input: OcrInput): (r: Option<OcrSettings>)
    ensures r.Some? <==>
      && (input.mode.Missing? || (input.mode.Given? && 0.0 <= input.mode.value <= 13.0))
      && (input.engine.Missing? || (input.engine.Given? && 0.0 <= input.engine.value <= 3.0))
      && !input.language.WrongType?
    ensures r.Some? ==>
      && 0.0 <= r.value.mode <= 13.0 && 0.0 <= r.value.engine <= 3.0
      && r.value.mode == (if input.mode.Given? then input.mode.value else 3.0)
      && r.value.engine == (if input.engine.Given? then input.engine.value else 3.0)
      && r.value.language == (if input.language.Given? then input.language.value else "eng")
  {
    var mode := NumberField(input.mode, 0.0, 13.0, 3.0);
    var engine := NumberField(input.engine, 0.0, 3.0, 3.0);
    var language :=
      match input.language
      case Missing => Some("eng")
      case Given(l) => Some(l)
      case WrongType => None;
    if mode.Some? && engine.Some? && language.Some? then
      Some(OcrSettings(mode.value, engine.value, language.value))
    else None
  }
}
