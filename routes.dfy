/**
 * The request rules of the HTTP routes that do not depend on the store: MIME
 * classification and the upload allow-list, extraction dispatch, the audio URL
 * shape, the guest quota gate, the count reply, convert-request validation,
 * history abbreviation and `parseInt` on a path parameter.
 *
 * The PDF reader, the OCR worker, the speech synthesiser and the file system
 * are parameters: their outcomes are given, not computed.
 */
module Routes {
  import opened Wrappers
  import opened Schema
  import opened JsLib

  /** What a handler does with a request. */
  datatype Response<T> =
    | Respond(status: nat, payload: T)   // res.status(status).json(payload)
    | Fail(status: nat, error: string)   // res.status(status).json({ error })
    | Forwarded(error: string)           // the upload middleware's error, passed to `next`

  // ---------------------------------------------------------------------------
  // MIME types
  // ---------------------------------------------------------------------------

  const PdfMime: string := "application/pdf"
  /**
   * The DOCX type, "application/vnd.openxmlformats-officedocument.wordprocessingml.document",
   * written as its four dot- or dash-ended parts so that proofs can look inside it.
   */
  const DocxMime: string := VendorTree + OpenXmlFormats + OfficeDocument + DocxMarker
  const VendorTree: string := "application/vnd."
  const OpenXmlFormats: string := "openxmlformats-"
  const OfficeDocument: string := "officedocument."
  const JpegMime: string := "image/jpeg"
  const PngMime: string := "image/png"
  const TextMime: string := "text/plain"

  /** The part of the DOCX MIME type that `getFileType` looks for. */
  const DocxMarker: string := "wordprocessingml.document"

  /** `getFileType`: the first matching rule wins and anything unmatched is text. */
  function GetFileType(mime: string): (tag: string)
    ensures tag in FileTypes
    ensures tag == "PDF" <==> mime == PdfMime
    ensures tag == "DOCX" <==> mime != PdfMime && Includes(mime, DocxMarker)
    ensures tag == "IMG" <==> mime != PdfMime && !Includes(mime, DocxMarker) && StartsWith(mime, "image/")
  {
    if mime == PdfMime then "PDF"
    else if Includes(mime, DocxMarker) then "DOCX"
    else if StartsWith(mime, "image/") then "IMG"
    else "TXT"
  }

  /** The types the upload filter lets through. */
  const AllowedMimes: seq<string> := [PdfMime, DocxMime, JpegMime, PngMime, TextMime]

  /** Each accepted type is classified under the tag it names. */
  lemma PdfMimeTag()
    ensures GetFileType(PdfMime) == "PDF"
  {
  }

  lemma DocxMimeTag()
    ensures GetFileType(DocxMime) == "DOCX"
  {
    assert DocxMime[46..] == DocxMarker;
    assert OccursAt(DocxMime, DocxMarker, 46);
  }

  lemma ImageMimeTags()
    ensures GetFileType(JpegMime) == "IMG" && GetFileType(PngMime) == "IMG"
  {
    assert !Includes(JpegMime, DocxMarker) && !Includes(PngMime, DocxMarker);
  }

  lemma TextMimeTag()
    ensures GetFileType(TextMime) == "TXT"
  {
    assert !Includes(TextMime, DocxMarker);
    assert TextMime[..6][0] != "image/"[0];
  }

  /** `limits.fileSize`: ten mebibytes. */
  const MaxUploadBytes: nat := 10 * 1024 * 1024

  const UnsupportedUpload: string := "Unsupported file type. Allowed: PDF, DOCX, JPG, PNG, TXT"
  /** The message of the upload middleware's size-limit error. */
  const UploadTooLarge: string := "File too large"

  /** A file part as the upload middleware receives it and stores it. */
  datatype Incoming = Incoming(mimetype: string, size: nat, path: string, originalName: string)

  /**
   * The upload middleware: the type filter runs before the body is read, the
   * size limit while it is read. `None` means the file is stored and the
   * handler runs; `Some(message)` is the error handed on instead.
   */
  function AdmitUpload(f: Incoming): (r: Option<string>)
    ensures r.None? <==> f.mimetype in AllowedMimes && f.size <= MaxUploadBytes
    ensures f.mimetype !in AllowedMimes ==> r == Some(UnsupportedUpload)
    ensures f.mimetype in AllowedMimes && f.size > MaxUploadBytes ==> r == Some(UploadTooLarge)
  {
    if f.mimetype !in AllowedMimes then Some(UnsupportedUpload)
    else if f.size > MaxUploadBytes then Some(UploadTooLarge)
    else None
  }

  // ---------------------------------------------------------------------------
  // Text extraction
  // ---------------------------------------------------------------------------

  /** The `ocrSettings` form field of an upload. */
  datatype OcrBody =
    | Absent               // no field, or an empty one
    | Unparsable           // not JSON, or JSON that is not an object
    | Parsed(input: OcrInput)

  /**
   * The settings the upload handler hands to extraction: only for images, and
   * only when they pass `ocrSettingsSchema`; otherwise none. The raw parsed
   * object is passed on, not the schema's output.
   */
  function UploadOcrSettings(tag: string, body: OcrBody): (r: Option<OcrInput>)
    ensures r.Some? ==> tag == "IMG" && body == Parsed(r.value) && ParseOcr(r.value).Some?
    ensures tag == "IMG" && body.Parsed? && ParseOcr(body.input).Some? ==> r == Some(body.input)
  {
    if tag == "IMG" && body.Parsed? && ParseOcr(body.input).Some? then Some(body.input) else None
  }

  /** What the OCR worker is asked to do: optional (page segmentation, engine) parameters, and a language. */
  datatype OcrCall = OcrCall(parameters: Option<(real, real)>, language: string)

  /** `value || 3` on a number property: absent and zero both give 3. */
  function NumberOrThree(f: Field<real>): real {
    if f.Given? && f.value != 0.0 then f.value else 3.0
  }

  /** `value || 'eng'` on a string property: absent and empty both give "eng". */
  function LanguageOrEnglish(f: Field<string>): string {
    if f.Given? && f.value != "" then f.value else "eng"
  }

  /** The worker call for the given settings: parameters are set only when settings exist. */
  function OcrCallFor(settings: Option<OcrInput>): (r: OcrCall)
    ensures settings.None? ==> r == OcrCall(None, "eng")
    ensures settings.Some? ==> r.parameters.Some?
    ensures r.language != ""
  {
    match settings
    case None => OcrCall(None, "eng")
    case Some(s) => OcrCall(Some((NumberOrThree(s.mode), NumberOrThree(s.engine))), LanguageOrEnglish(s.language))
  }

  /**
   * The worker receives the schema's values, except that a mode or engine of 0,
   * which the schema accepts, is replaced by 3, and an empty language by "eng".
   */
  lemma OcrCallAgreesWithSchema(input: OcrInput)
    requires ParseOcr(input).Some?
    ensures var p := ParseOcr(input).value;
            var call := OcrCallFor(Some(input));
            && call.parameters == Some((if p.mode == 0.0 then 3.0 else p.mode,
                                        if p.engine == 0.0 then 3.0 else p.engine))
            && call.language == (if p.language == "" then "eng" else p.language)
  {
  }

  /**
   * The outcome each outside component would have on the file: the PDF
   * reader, a file read (raw for DOCX, UTF-8 for text), and the OCR worker
   * (creation, parameters, recognition and shutdown) for a given call.
   */
  datatype Backends = Backends(pdf: Result<string>, read: Result<string>, ocr: OcrCall -> Result<string>)

  const DocxPlaceholder: string := "Text extracted from DOCX file. (Note: DOCX processing is under maintenance)"

  function ExtractionFailure(message: string): string {
    "Failed to extract text: " + message
  }

  /** A back end's failure, rewrapped by the `catch` of `extractTextFromFile`. */
  function Wrapped(r: Result<string>): (w: Result<string>)
    ensures r.Ok? ==> w == r
    ensures r.Err? ==> w == Err(ExtractionFailure(r.message))
  {
    match r
    case Ok(_) => r
    case Err(m) => Err(ExtractionFailure(m))
  }

  /**
   * `extractTextFromFile`. A text file's read is returned, not awaited, inside
   * the `try`, so its failure escapes the `catch` unwrapped. The only caller
   * passes settings that passed `ocrSettingsSchema`.
   */
  function ExtractText(tag: string, settings: Option<OcrInput>, io: Backends): (r: Result<string>)
    requires settings.Some? ==> ParseOcr(settings.value).Some?
    ensures tag == "PDF" ==> r == Wrapped(io.pdf)
    ensures tag == "DOCX" ==> r == Wrapped(if io.read.Ok? then Ok(DocxPlaceholder) else io.read)
    ensures tag == "IMG" ==> r == Wrapped(io.ocr(OcrCallFor(settings)))
    ensures tag == "TXT" ==> r == io.read
    ensures tag !in FileTypes ==> r == Err(ExtractionFailure("Unsupported file type"))
  {
    match tag
    case "PDF" => Wrapped(io.pdf)
    case "DOCX" => Wrapped(if io.read.Ok? then Ok(DocxPlaceholder) else io.read)
    case "IMG" => Wrapped(io.ocr(OcrCallFor(settings)))
    case "TXT" => io.read
    case _ => Err(ExtractionFailure("Unsupported file type"))
  }

  /**
   * Whatever the MIME type of an upload, extraction never takes the
   * unsupported branch: when the back ends succeed, so does extraction,
   * while an unknown tag fails whatever the back ends do.
   */
  lemma ClassifiedUploadsAreExtracted(mime: string, settings: Option<OcrInput>, io: Backends)
    requires settings.Some? ==> ParseOcr(settings.value).Some?
    requires io.pdf.Ok? && io.read.Ok? && io.ocr(OcrCallFor(settings)).Ok?
    ensures ExtractText(GetFileType(mime), settings, io).Ok?
    ensures forall tag :: tag !in FileTypes ==> ExtractText(tag, settings, io).Err?
  {
  }

  /** A DOCX upload whose bytes can be read always yields the placeholder, whatever it contains. */
  lemma DocxYieldsPlaceholder(io: Backends)
    requires io.read.Ok?
    ensures ExtractText("DOCX", None, io) == Ok(DocxPlaceholder)
  {
  }

  // ---------------------------------------------------------------------------
  // Speech synthesis
  // ---------------------------------------------------------------------------

  /** `${Date.now()}-${uuidv4()}.mp3` */
  function AudioFileName(stamp: nat, uuid: string): string {
    NatToString(stamp) + "-" + uuid + ".mp3"
  }

  /** Where the synthesiser writes: `path.join(process.cwd(), "uploads", "audio", name)`. */
  function AudioPath(cwd: string, name: string): string {
    cwd + "/uploads/audio/" + name
  }

  const AudioUrlPrefix: string := "/api/audio/"

  /** The URL `convertTextToSpeech` returns for a file name. */
  function AudioUrl(name: string): (url: string)
    ensures StartsWith(url, AudioUrlPrefix) && url[|AudioUrlPrefix|..] == name
  {
    AudioUrlPrefix + name
  }

  /** The time stamp at the head of an audio file name reads back with `parseInt`. */
  lemma AudioFileNameStamp(stamp: nat, uuid: string)
    ensures ParseInt(AudioFileName(stamp, uuid)) == Some(stamp)
  {
    var rest := "-" + uuid + ".mp3";
    assert AudioFileName(stamp, uuid) == IntToString(stamp) + rest;
    ParseIntOfIntToString(stamp, rest);
  }

  function SynthesisFailure(message: string): string {
    "Failed to convert text to speech: " + message
  }

  /**
   * `convertTextToSpeech`. `save(path, text, language)` is the synthesiser: it
   * yields `None` when the file was written and `Some(message)` on failure.
   * Voice settings are accepted and not applied.
   */
  function ConvertTextToSpeech(text: string, language: string, cwd: string, stamp: nat, uuid: string,
                               save: (string, string, string) -> Option<string>): (r: Result<string>)
    ensures r.Ok? ==> StartsWith(r.value, AudioUrlPrefix) && EndsWith(r.value, ".mp3")
    ensures r.Ok? <==> save(AudioPath(cwd, AudioFileName(stamp, uuid)), text, if language == "" then "en" else language).None?
    ensures r.Err? ==> r.message == SynthesisFailure(save(AudioPath(cwd, AudioFileName(stamp, uuid)), text,
                                                          if language == "" then "en" else language).value)
  {
    var name := AudioFileName(stamp, uuid);
    var failure := save(AudioPath(cwd, name), text, if language == "" then "en" else language);
    if failure.Some? then Err(SynthesisFailure(failure.value))
    else
      var url := AudioUrl(name);
      assert url == AudioUrlPrefix + NatToString(stamp) + "-" + uuid + ".mp3";
      Ok(url)
  }

  // ---------------------------------------------------------------------------
  // Guest quota
  // ---------------------------------------------------------------------------

  /** Guests are stored, and counted, under this single owner id. */
  const GuestUserId: int := 0
  const GuestDailyLimit: nat := 3
  const LimitMessage: string := "Daily limit reached. Please register for unlimited conversions."

  /**
   * `checkGuestUsage`: `None` lets the request through; `Some(message)` is the
   * 429 reply. `guestToday` is the number of today's conversions stored under
   * the guest id, shared by every guest.
   */
  function GuestGate(authenticated: bool, guestToday: nat): (r: Option<string>)
    ensures authenticated ==> r.None?
    ensures !authenticated ==> (r.Some? <==> guestToday >= GuestDailyLimit)
    ensures r.Some? ==> r.value == LimitMessage
  {
    if !authenticated && guestToday >= GuestDailyLimit then Some(LimitMessage) else None
  }

  datatype Limit = Unlimited | PerDay(n: nat)

  /** The reply of `GET /api/conversions/count`. */
  datatype CountReply = CountReply(count: nat, limit: Limit)

  function CountReplyFor(authenticated: bool, guestToday: nat): (r: CountReply)
    ensures authenticated ==> r == CountReply(0, Unlimited)
    ensures !authenticated ==> r == CountReply(guestToday, PerDay(GuestDailyLimit))
  {
    if authenticated then CountReply(0, Unlimited) else CountReply(guestToday, PerDay(GuestDailyLimit))
  }

  /** The count reply predicts the gate: a request is refused exactly when the count has reached the limit. */
  lemma CountPredictsGate(authenticated: bool, guestToday: nat)
    ensures var c := CountReplyFor(authenticated, guestToday);
            GuestGate(authenticated, guestToday).Some? <==> c.limit.PerDay? && c.count >= c.limit.n
  {
  }

  // ---------------------------------------------------------------------------
  // Convert request validation
  // ---------------------------------------------------------------------------

  /**
   * The `voiceSettings` property of a convert request: absent or falsy, an
   * object, or a truthy value that is not an object (`true`, `5`, `"fast"`,
   * an array), which the schema rejects.
   */
  datatype VoiceBody =
    | NoVoice
    | VoiceObject(input: VoiceInput)
    | NotAnObject

  /**
   * The body of `POST /api/convert`. A string property is `None` when absent
   * or not a string.
   */
  datatype ConvertRequest = ConvertRequest(
    text: Option<string>, voiceSettings: VoiceBody, language: Option<string>, fileId: Option<int>)

  /** What a valid request asks for, defaults filled in. */
  datatype ConvertPlan = ConvertPlan(text: string, voice: VoiceSettings, language: string, sourceFileId: Option<int>)

  const TextRequired: string := "Text content is required"
  const InvalidVoice: string := "Invalid voice settings"

  predicate Truthy(s: Option<string>) {
    s.Some? && s.value != ""
  }

  /** The object used when no voice settings are sent: `{ speed: 1.0, pitch: 0.5 }`. */
  const ImplicitVoice: VoiceInput := VoiceInput(Given(1.0), Given(0.5), Missing)

  /** The checks of the convert handler, in order; an `Err` is a 400 reply with that message. */
  function PlanConvert(req: ConvertRequest): (r: Result<ConvertPlan>)
    ensures !Truthy(req.text) ==> r == Err(TextRequired)
    ensures Truthy(req.text) ==>
              (r.Err? <==> req.voiceSettings.NotAnObject?
                           || (req.voiceSettings.VoiceObject? && ParseVoice(req.voiceSettings.input).None?))
    ensures r.Err? ==> r.message == TextRequired || r.message == InvalidVoice
    ensures r.Ok? ==> r.value.text == req.text.value && r.value.text != "" && ValidVoice(r.value.voice)
    ensures r.Ok? ==> r.value.language == (if Truthy(req.language) then req.language.value else "en")
    ensures r.Ok? ==> r.value.sourceFileId == (if req.fileId == Some(0) then None else req.fileId)
    ensures r.Ok? && req.voiceSettings.NoVoice? ==> r.value.voice == DefaultVoice
    ensures r.Ok? && req.voiceSettings.VoiceObject? ==> Some(r.value.voice) == ParseVoice(req.voiceSettings.input)
  {
    if !Truthy(req.text) then Err(TextRequired)
    else
      var voice := match req.voiceSettings
        case NoVoice => ParseVoice(ImplicitVoice)
        case VoiceObject(input) => ParseVoice(input)
        case NotAnObject => None;
      if voice.None? then Err(InvalidVoice)
      else
        Ok(ConvertPlan(req.text.value, voice.value,
                       if Truthy(req.language) then req.language.value else "en",
                       if req.fileId == Some(0) then None else req.fileId))
  }

  // ---------------------------------------------------------------------------
  // History
  // ---------------------------------------------------------------------------

  const HistoryLength: nat := 100

  /** The text shown in the conversion history: at most 100 characters, then "..." if cut. */
  function HistoryText(s: string): (r: string)
    ensures |s| <= HistoryLength ==> r == s
    ensures |s| > HistoryLength ==> |r| == HistoryLength + 3 && r[..HistoryLength] == s[..HistoryLength]
    ensures |s| > HistoryLength ==> EndsWith(r, "...")
  {
    Ellipsize(s, HistoryLength)
  }

  /** Texts that agree on their first 100 characters and are longer look the same in the history. */
  lemma HistoryHidesTail(s: string, t: string)
    requires |s| > HistoryLength && |t| > HistoryLength && s[..HistoryLength] == t[..HistoryLength]
    ensures HistoryText(s) == HistoryText(t)
  {
    EllipsizeForgetsTail(s, t, HistoryLength);
  }
}
