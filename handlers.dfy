/**
 * The route handlers that read or change the store: upload, convert, the
 * listing routes, the guest count, and the preset routes. A caller is
 * `Some(id)` when the session is authenticated and `None` for a guest.
 */
module Handlers {
  import opened Wrappers
  import opened Schema
  import opened JsLib
  import opened Storage
  import opened Routes

  const AuthRequired: string := "Authentication required"
  const NoFile: string := "No file uploaded"
  const PresetNotFound: string := "Preset not found"
  const NotAuthorized: string := "Not authorized"
  /** The validation error of `insertPresetSchema` (its exact text is the schema library's). */
  const InvalidPreset: string := "Invalid preset"

  /** The owner id rows are stored under: the user's id, or 0 for every guest. */
  function OwnerOf(caller: Option<int>): int {
    if caller.Some? then caller.value else GuestUserId
  }

  /** The number of today's conversions stored under the shared guest id. */
  function GuestToday(store: MemStorage, midnight: int): nat
    reads store
    requires store.Valid()
  {
    |store.GetConversionsByUserToday(GuestUserId, midnight)|
  }

  // ---------------------------------------------------------------------------
  // POST /api/upload
  // ---------------------------------------------------------------------------

  datatype UploadReply = UploadReply(
    id: int, fileName: string, fileType: string, extractedText: Option<string>, uploadDate: int)

  /**
   * The upload middleware, then the handler: classify, choose OCR settings,
   * extract, store the row. Extraction failures are 500 replies and store
   * nothing.
   */
  method Upload(store: MemStorage, caller: Option<int>, part: Option<Incoming>, ocrBody: OcrBody,
                io: Backends, now: int) returns (resp: Response<UploadReply>)
    requires store.Valid()
    modifies store
    ensures store.Valid()
    ensures part.None? ==> resp == Fail(400, NoFile) && unchanged(store)
    ensures part.Some? && AdmitUpload(part.value).Some? ==>
              resp == Forwarded(AdmitUpload(part.value).value) && unchanged(store)
    ensures part.Some? && AdmitUpload(part.value).None? ==>
              var tag := GetFileType(part.value.mimetype);
              var text := ExtractText(tag, UploadOcrSettings(tag, ocrBody), io);
              && (text.Err? ==> resp == Fail(500, text.message) && unchanged(store))
              && (text.Ok? ==>
                    var row := UploadedFile(old(store.fileIdCounter), Some(OwnerOf(caller)), part.value.path,
                                            part.value.originalName, tag, Some(text.value), false, now);
                    && resp == Respond(201, UploadReply(row.id, row.fileName, tag, row.extractedText, now))
                    && store.uploadedFiles == old(store.uploadedFiles)[row.id := row]
                    && store.fileIdCounter == old(store.fileIdCounter) + 1
                    && store.users == old(store.users) && store.conversions == old(store.conversions)
                    && store.presets == old(store.presets)
                    && store.userIdCounter == old(store.userIdCounter)
                    && store.conversionIdCounter == old(store.conversionIdCounter)
                    && store.presetIdCounter == old(store.presetIdCounter))
  {
    if part.None? {
      return Fail(400, NoFile);
    }
    var f := part.value;
    var rejected := AdmitUpload(f);
    if rejected.Some? {
      return Forwarded(rejected.value);
    }
    var tag := GetFileType(f.mimetype);
    var settings := UploadOcrSettings(tag, ocrBody);
    var text := ExtractText(tag, settings, io);
    if text.Err? {
      return Fail(500, text.message);
    }
    var row := store.CreateUploadedFile(
      NewUploadedFile(Some(OwnerOf(caller)), f.path, f.originalName, tag, Some(text.value)), now);
    resp := Respond(201, UploadReply(row.id, row.fileName, row.fileType, row.extractedText, row.uploadDate));
  }

  // ---------------------------------------------------------------------------
  // POST /api/convert
  // ---------------------------------------------------------------------------

  datatype ConvertReply = ConvertReply(id: int, textContent: string, audioUrl: Option<string>, createdAt: int)

  /**
   * The guest gate, then validation, synthesis and the stored row. `midnight`
   * is the start of the current local day, `now` the creation time, and
   * `stamp`/`uuid` name the audio file.
   */
  method Convert(store: MemStorage, caller: Option<int>, midnight: int, req: ConvertRequest,
                 cwd: string, stamp: nat, uuid: string, save: (string, string, string) -> Option<string>,
                 now: int) returns (resp: Response<ConvertReply>)
    requires store.Valid()
    modifies store
    ensures store.Valid()
    ensures GuestGate(caller.Some?, old(GuestToday(store, midnight))).Some? ==>
              resp == Fail(429, LimitMessage) && unchanged(store)
    ensures GuestGate(caller.Some?, old(GuestToday(store, midnight))).None? && PlanConvert(req).Err? ==>
              resp == Fail(400, PlanConvert(req).message) && unchanged(store)
    ensures GuestGate(caller.Some?, old(GuestToday(store, midnight))).None? && PlanConvert(req).Ok? ==>
              var plan := PlanConvert(req).value;
              var audio := ConvertTextToSpeech(plan.text, plan.language, cwd, stamp, uuid, save);
              && (audio.Err? ==> resp == Fail(500, audio.message) && unchanged(store))
              && (audio.Ok? ==>
                    var row := Conversion(old(store.conversionIdCounter), Some(OwnerOf(caller)), plan.sourceFileId,
                                          plan.text, Some(audio.value), plan.voice, plan.language, now);
                    && resp == Respond(201, ConvertReply(row.id, plan.text, Some(audio.value), now))
                    && store.conversions == old(store.conversions)[row.id := row]
                    && store.conversionIdCounter == old(store.conversionIdCounter) + 1
                    && store.users == old(store.users) && store.uploadedFiles == old(store.uploadedFiles)
                    && store.presets == old(store.presets)
                    && store.userIdCounter == old(store.userIdCounter)
                    && store.fileIdCounter == old(store.fileIdCounter)
                    && store.presetIdCounter == old(store.presetIdCounter))
    /** A guest conversion made today raises the shared count by exactly one, and only below the limit. */
    ensures caller.None? && resp.Respond? && now >= midnight ==>
              old(GuestToday(store, midnight)) < GuestDailyLimit
              && GuestToday(store, midnight) == old(GuestToday(store, midnight)) + 1
  {
    var refusal := GuestGate(caller.Some?, GuestToday(store, midnight));
    if refusal.Some? {
      return Fail(429, refusal.value);
    }
    var plan := PlanConvert(req);
    if plan.Err? {
      return Fail(400, plan.message);
    }
    var audio := ConvertTextToSpeech(plan.value.text, plan.value.language, cwd, stamp, uuid, save);
    if audio.Err? {
      return Fail(500, audio.message);
    }
    ghost var before := store.conversions;
    ghost var n := store.conversionIdCounter;
    var row := store.CreateConversion(
      NewConversion(Some(OwnerOf(caller)), plan.value.sourceFileId, plan.value.text, Some(audio.value),
                    plan.value.voice, plan.value.language), now);
    assert row.id == n && store.conversions == before[n := row] && store.conversionIdCounter == n + 1;
    OwnedSinceAfterInsert(before, n, GuestUserId, midnight, row);
    resp := Respond(201, ConvertReply(row.id, row.textContent, row.audioFilePath, row.createdAt));
  }

  // ---------------------------------------------------------------------------
  // Listing routes
  // ---------------------------------------------------------------------------

  datatype FileSummary = FileSummary(id: int, fileName: string, fileType: string, uploadDate: int)

  function Summary(f: UploadedFile): FileSummary {
    FileSummary(f.id, f.fileName, f.fileType, f.uploadDate)
  }

  /** `GET /api/files`: the caller's files, without their paths or text. */
  function FilesRoute(store: MemStorage, caller: Option<int>): (r: Response<seq<FileSummary>>)
    reads store
    requires store.Valid()
    ensures caller.None? ==> r == Fail(401, AuthRequired)
    ensures caller.Some? ==> r.Respond? && r.status == 200
    ensures caller.Some? ==> forall s :: s in r.payload <==>
              exists f :: f in store.uploadedFiles.Values && f.userId == caller && Summary(f) == s
    ensures caller.Some? ==> forall a, b :: 0 <= a < b < |r.payload| ==> r.payload[a].id < r.payload[b].id
  {
    if caller.None? then Fail(401, AuthRequired)
    else
      var files := store.GetUploadedFilesByUser(caller.value);
      MapSeqMembers(files, Summary);
      Respond(200, MapSeq(files, Summary))
  }

  datatype HistoryItem = HistoryItem(id: int, textContent: string, audioUrl: Option<string>, language: string, createdAt: int)

  function HistoryItemOf(c: Conversion): HistoryItem {
    HistoryItem(c.id, HistoryText(c.textContent), c.audioFilePath, c.language, c.createdAt)
  }

  /** `GET /api/conversions`: the caller's conversions, each text abbreviated to 100 characters. */
  function ConversionsRoute(store: MemStorage, caller: Option<int>): (r: Response<seq<HistoryItem>>)
    reads store
    requires store.Valid()
    ensures caller.None? ==> r == Fail(401, AuthRequired)
    ensures caller.Some? ==> r.Respond? && r.status == 200
    ensures caller.Some? ==> forall h :: h in r.payload <==>
              exists c :: c in store.conversions.Values && c.userId == caller && HistoryItemOf(c) == h
    ensures caller.Some? ==> forall h :: h in r.payload ==> |h.textContent| <= HistoryLength + 3
    ensures caller.Some? ==> forall a, b :: 0 <= a < b < |r.payload| ==> r.payload[a].id < r.payload[b].id
  {
    if caller.None? then Fail(401, AuthRequired)
    else
      var conversions := store.GetConversionsByUser(caller.value);
      MapSeqMembers(conversions, HistoryItemOf);
      Respond(200, MapSeq(conversions, HistoryItemOf))
  }

  /** `GET /api/conversions/count` */
  function CountRoute(store: MemStorage, caller: Option<int>, midnight: int): (r: CountReply)
    reads store
    requires store.Valid()
    ensures caller.Some? ==> r == CountReply(0, Unlimited)
    ensures caller.None? ==> r == CountReply(GuestToday(store, midnight), PerDay(GuestDailyLimit))
    ensures caller.None? ==> (r.count >= GuestDailyLimit <==> GuestGate(false, GuestToday(store, midnight)).Some?)
  {
    CountReplyFor(caller.Some?, GuestToday(store, midnight))
  }

  /** `GET /api/presets` */
  function PresetsRoute(store: MemStorage, caller: Option<int>): (r: Response<seq<Preset>>)
    reads store
    requires store.Valid()
    ensures caller.None? ==> r == Fail(401, AuthRequired)
    ensures caller.Some? ==> r.Respond? && r.status == 200
    ensures caller.Some? ==> forall p :: p in r.payload <==> p in store.presets.Values && p.userId == caller.value
    ensures caller.Some? ==> forall a, b :: 0 <= a < b < |r.payload| ==> r.payload[a].id < r.payload[b].id
  {
    if caller.None? then Fail(401, AuthRequired) else Respond(200, store.GetPresetsByUser(caller.value))
  }

  // ---------------------------------------------------------------------------
  // Preset routes
  // ---------------------------------------------------------------------------

  /** `POST /api/presets`: `name` and `content` must be strings. */
  method CreatePresetRoute(store: MemStorage, caller: Option<int>, name: Option<string>, content: Option<string>,
                           now: int) returns (resp: Response<Preset>)
    requires store.Valid()
    modifies store
    ensures store.Valid()
    ensures caller.None? ==> resp == Fail(401, AuthRequired) && unchanged(store)
    ensures caller.Some? && (name.None? || content.None?) ==> resp == Fail(400, InvalidPreset) && unchanged(store)
    ensures caller.Some? && name.Some? && content.Some? ==>
              var p := Preset(old(store.presetIdCounter), caller.value, name.value, content.value, now);
              && resp == Respond(201, p)
              && store.presets == old(store.presets)[p.id := p]
              && store.presetIdCounter == old(store.presetIdCounter) + 1
              && store.users == old(store.users) && store.uploadedFiles == old(store.uploadedFiles)
              && store.conversions == old(store.conversions)
              && store.userIdCounter == old(store.userIdCounter) && store.fileIdCounter == old(store.fileIdCounter)
              && store.conversionIdCounter == old(store.conversionIdCounter)
  {
    if caller.None? {
      return Fail(401, AuthRequired);
    }
    if name.None? || content.None? {
      return Fail(400, InvalidPreset);
    }
    var p := store.CreatePreset(NewPreset(caller.value, name.value, content.value), now);
    resp := Respond(201, p);
  }

  /** Who may act on the preset a path parameter names. */
  datatype Access = Unauthenticated | NotFound | Forbidden | Permitted(id: int)

  /**
   * The checks shared by `PUT` and `DELETE /api/presets/:id`, in order: a
   * session, then a preset under `parseInt(id)` (`NaN` finds none), then
   * ownership.
   */
  function PresetAccess(store: MemStorage, caller: Option<int>, idParam: string): (r: Access)
    reads store
    ensures r == Unauthenticated <==> caller.None?
    ensures r == NotFound <==> caller.Some? && (ParseInt(idParam).None? || ParseInt(idParam).value !in store.presets)
    ensures r.Permitted? ==>
              caller.Some? && ParseInt(idParam) == Some(r.id) && r.id in store.presets
              && store.presets[r.id].userId == caller.value
    ensures caller.Some? && ParseInt(idParam).Some? && ParseInt(idParam).value in store.presets
            && store.presets[ParseInt(idParam).value].userId == caller.value ==>
              r == Permitted(ParseInt(idParam).value)
  {
    if caller.None? then Unauthenticated
    else
      var id := ParseInt(idParam);
      if id.None? || id.value !in store.presets then NotFound
      else if store.presets[id.value].userId != caller.value then Forbidden
      else Permitted(id.value)
  }

  /** A preset is reached through the decimal text of its id, and then only its owner is let through. */
  lemma OwnerReachesOwnPreset(store: MemStorage, caller: int, id: int)
    requires id in store.presets
    ensures PresetAccess(store, Some(caller), IntToString(id)) ==
            (if store.presets[id].userId == caller then Permitted(id) else Forbidden)
  {
    ParseIntOfIntToString(id, "");
    assert IntToString(id) + "" == IntToString(id);
  }

  function Refusal<T>(a: Access): Response<T>
    requires !a.Permitted?
  {
    match a
    case Unauthenticated => Fail(401, AuthRequired)
    case NotFound => Fail(404, PresetNotFound)
    case Forbidden => Fail(403, NotAuthorized)
  }

  /**
   * `PUT /api/presets/:id`. The caught 400 of the source cannot happen here:
   * the preset was just found, so the update succeeds.
   */
  method UpdatePresetRoute(store: MemStorage, caller: Option<int>, idParam: string, name: string, content: string)
    returns (resp: Response<Preset>)
    requires store.Valid()
    modifies store
    ensures store.Valid()
    ensures !old(PresetAccess(store, caller, idParam)).Permitted? ==>
              resp == Refusal(old(PresetAccess(store, caller, idParam))) && unchanged(store)
    ensures old(PresetAccess(store, caller, idParam)).Permitted? ==>
              var id := old(PresetAccess(store, caller, idParam)).id;
              var p := old(store.presets)[id];
              && resp == Respond(200, Preset(id, p.userId, name, content, p.createdAt))
              && store.presets == old(store.presets)[id := resp.payload]
    /** Only the owner's request changes the preset table. */
    ensures store.presets != old(store.presets) ==>
              caller.Some? && ParseInt(idParam).Some? && old(store.presets)[ParseInt(idParam).value].userId == caller.value
    ensures store.users == old(store.users) && store.uploadedFiles == old(store.uploadedFiles)
    ensures store.conversions == old(store.conversions)
    ensures store.userIdCounter == old(store.userIdCounter) && store.fileIdCounter == old(store.fileIdCounter)
    ensures store.conversionIdCounter == old(store.conversionIdCounter)
    ensures store.presetIdCounter == old(store.presetIdCounter)
  {
    var access := PresetAccess(store, caller, idParam);
    if !access.Permitted? {
      return Refusal(access);
    }
    var updated := store.UpdatePreset(access.id, PresetPatch(None, Some(name), Some(content), None));
    resp := Respond(200, updated.value);
  }

  /** `DELETE /api/presets/:id` */
  method DeletePresetRoute(store: MemStorage, caller: Option<int>, idParam: string) returns (resp: Response<()>)
    requires store.Valid()
    modifies store
    ensures store.Valid()
    ensures !old(PresetAccess(store, caller, idParam)).Permitted? ==>
              resp == Refusal(old(PresetAccess(store, caller, idParam))) && unchanged(store)
    ensures old(PresetAccess(store, caller, idParam)).Permitted? ==>
              resp == Respond(204, ())
              && store.presets == old(store.presets) - {old(PresetAccess(store, caller, idParam)).id}
    /** Only the owner's request removes a preset. */
    ensures store.presets != old(store.presets) ==>
              caller.Some? && ParseInt(idParam).Some? && old(store.presets)[ParseInt(idParam).value].userId == caller.value
    ensures store.users == old(store.users) && store.uploadedFiles == old(store.uploadedFiles)
    ensures store.conversions == old(store.conversions)
    ensures store.userIdCounter == old(store.userIdCounter) && store.fileIdCounter == old(store.fileIdCounter)
    ensures store.conversionIdCounter == old(store.conversionIdCounter)
    ensures store.presetIdCounter == old(store.presetIdCounter)
  {
    var access := PresetAccess(store, caller, idParam);
    if !access.Permitted? {
      return Refusal(access);
    }
    store.DeletePreset(access.id);
    resp := Respond(204, ());
  }
}
