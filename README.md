# TextSpeechConverter core, modelled in Dafny

TextSpeechConverter is a web application. It turns text, or text extracted from
uploaded documents, into speech. Uploads can be PDF, DOCX, JPEG/PNG images (read
by OCR) or plain text.

- **Registered users** keep their uploads, their conversion history and named
  text presets.
- **Guests** share one daily quota of three conversions. A daily sweep removes
  guest uploads that are older than a day.

This project models the logic around the outside libraries:

- **The in-memory store `MemStorage`** (`storage.dfy`). It is a class with four
  keyed tables and four id counters.
- **The request rules of the HTTP routes** (`routes.dfy`). These cover:
  - MIME classification and the upload allow-list
  - extraction dispatch and the audio URL shape
  - the guest quota gate and the count reply
  - convert-request validation and history abbreviation
- **The route handlers that change the store** (`handlers.dfy`). These are
  upload, convert, the listing routes and the preset routes.
- **The guest sweep `cleanupGuestFiles`** (`cleanup.dfy`). It is a loop over
  the selected files, modelled with a mutable disk. A selected file whose path
  exists, is not locked, and is named by no other selected file and no audio URL
  is removed together with its bytes and its null-owned conversions.
- **The shared validation schemas** (`schema.dfy`).
- **The browser helpers**:
  - `client_utils.dfy`: durations, relative times, icons, the MIME check and
    word counts.
  - `result_panel.dfy`: the download name and the paragraphs.
  - `file_dropzone.dfy`: the drop decision and the icon.
  - `file_input.dfy`: the recent-files list and the preview.

Two shared modules support these:

- `jslib.dfy` holds the JavaScript string operations the code relies on, stated
  over `seq<char>`: `includes`, `startsWith`, `split`, `join`, `trim`,
  `padStart`, `parseInt`, `toLowerCase` and `toUpperCase`.
- `wrappers.dfy` holds `Option` and `Result`.

The model makes these choices:

- **Time.** Timestamps are integer milliseconds. "Now", the local midnight and
  the one-day cut-off are parameters.
- **Outside components are parameters, not computed.** This covers the PDF
  reader, the OCR worker, the speech synthesiser and the file system.
- **Callers.** A caller is `Some(id)` for an authenticated session and `None`
  for a guest.
- **Owners.** Guest rows are written with owner `Some(0)`. A null owner column
  is `None`.
- **Table order.** A JavaScript `Map` lists entries in insertion order, and ids
  only grow. So every filter over a table lists rows by ascending id, and the
  contracts say so.

The code's behaviour is kept where it is surprising:

- **Guest rows survive the sweep.** Guest rows are stored under owner 0, but the
  sweep selects rows whose owner is null. So the sweep never selects a guest's
  upload (`Cleanup.SweepSparesOwnedAndRecent`).
- **The quota is shared.** It counts every guest's conversions together.
- **Text-file read errors are not rewrapped.** A text file's read error escapes
  the `catch` unchanged.
- **A zero OCR mode or engine becomes 3.** This comes from `value || 3`.
- **The sweep removes the wrong audio path.** It tries to remove
  `cwd + audioUrl` (`/api/audio/...`). The file was written under
  `/uploads/audio/...` (`Cleanup.AudioUnlinkMissesAudioFile`).

The OCR schema uses plain number ranges (`z.number().min(0).max(13)`), with no
integer check. The model follows the code, so OCR mode and engine are reals in a
closed range.

## Model

| member | source | states |
|---|---|---|
| Schema.FileTypesAreTheFourTags | shared/schema.ts:21-26 | `FILE_TYPES` has exactly the keys PDF, DOCX, IMG, TXT, each mapped to itself |
| Schema.NumberField | shared/schema.ts:70-81 | a ranged number with a default: absent gives the default, an in-range number is kept, anything else fails; a result is always in range |
| Schema.ParseVoice | shared/schema.ts:70-74 | accepted iff speed in [0.5,1.5], pitch in [0.1,0.9] and voiceType one of the four voices (absent fields allowed); the result is valid and takes the given values or the defaults 1.0 / 0.5 / "male1" |
| Schema.DefaultVoiceIsValid | shared/schema.ts:71-73 | the defaults satisfy the ranges and an empty object parses to them |
| Schema.ParseVoiceRoundTrip | shared/schema.ts:70-74 | settings given in full parse back to themselves exactly when they are valid, and fail otherwise |
| Schema.ParseOcr | shared/schema.ts:77-81 | accepted iff mode in [0,13] and engine in [0,3] (absent allowed) and language absent or a string; defaults 3 / 3 / "eng" |
| Storage.MemStorage.constructor | server/storage.ts:61-73 | four empty tables, every counter at 1, store valid |
| Storage.MemStorage.GetUser | server/storage.ts:76-78 | `None` exactly for an absent id; otherwise the stored user, which carries that id |
| Storage.MemStorage.GetUserByUsername | server/storage.ts:80-84 | `None` iff no user has that name; otherwise a stored user with that name and the smallest id among them (insertion order) |
| Storage.MemStorage.CreateUser | server/storage.ts:86-98 | the new id is the old counter, absent before; the user gets darkMode false and 100 credits; only the users table and its counter (+1) change; a get of the new id returns it |
| Storage.MemStorage.UpdateUser | server/storage.ts:100-108 | missing id: "User not found" and the table unchanged; otherwise the merged row replaces only that entry; nothing else changes |
| Storage.MergeUser | server/storage.ts:105 | `{ ...user, ...data }`: each present field wins, each absent one keeps the row's value, the id is kept |
| Storage.MemStorage.GetUploadedFile | server/storage.ts:111-113 | `None` exactly for an absent id; otherwise the stored file, which carries that id |
| Storage.MemStorage.GetUploadedFilesByUser | server/storage.ts:115-119 | exactly the files whose owner is that user (a null owner never matches), by ascending id |
| Storage.MemStorage.CreateUploadedFile | server/storage.ts:121-132 | fresh id from the counter, `processed` false, upload date now; only that table and counter change; a get of the new id returns it |
| Storage.MemStorage.UpdateUploadedFile | server/storage.ts:134-142 | missing id: "File not found" and no change; otherwise only that entry becomes the merge |
| Storage.MergeFile | server/storage.ts:139 | field-wise merge of a file patch, id kept |
| Storage.MemStorage.DeleteUploadedFile | server/storage.ts:144-146 | removes only that key (absent key: no change); nothing else changes |
| Storage.MemStorage.GetConversion | server/storage.ts:149-151 | `None` exactly for an absent id; otherwise the stored conversion, which carries that id |
| Storage.MemStorage.GetConversionsByUser | server/storage.ts:153-157 | exactly the conversions owned by that user, by ascending id |
| Storage.MemStorage.GetConversionsByUserToday | server/storage.ts:159-168 | exactly the conversions owned by that user and created at or after midnight, by ascending id |
| Storage.MemStorage.TodayFiltersByUser | server/storage.ts:153-168 | today's list is the owner's list filtered by creation time, so it is an ordered sub-list of it |
| Storage.OwnedSinceAfterInsert | server/storage.ts:159-180 | storing a new conversion under the counter raises an owner's count since midnight by one exactly when the row is theirs and made since midnight, and by nothing otherwise |
| Storage.MemStorage.CreateConversion | server/storage.ts:170-180 | fresh id from the counter, created now; only that table and counter change |
| Storage.MemStorage.DeleteConversion | server/storage.ts:182-184 | removes only that key; nothing else changes |
| Storage.MemStorage.GetPreset | server/storage.ts:187-189 | `None` exactly for an absent id; otherwise the stored preset, which carries that id |
| Storage.MemStorage.GetPresetsByUser | server/storage.ts:191-195 | exactly that user's presets, by ascending id |
| Storage.MemStorage.CreatePreset | server/storage.ts:197-207 | fresh id from the counter, created now; only that table and counter change |
| Storage.MemStorage.UpdatePreset | server/storage.ts:209-217 | missing id: "Preset not found" and no change; otherwise fields absent from the patch are kept and no other preset changes |
| Storage.MergePreset | server/storage.ts:214 | field-wise merge of a preset patch, id kept |
| Storage.MergeIdempotent | server/storage.ts:100-108 | applying the same update twice equals applying it once, for users, files and presets |
| Storage.MemStorage.DeletePreset | server/storage.ts:219-221 | removes only that key; nothing else changes |
| Storage.SelectConjunction | server/storage.ts:159-168 | selecting by owner-and-time equals selecting by owner and then filtering by time |
| Routes.GetFileType | server/routes.ts:113-119 | always one of the four tags; PDF iff exactly "application/pdf"; DOCX iff not PDF and containing "wordprocessingml.document"; IMG iff neither and starting "image/"; TXT otherwise |
| Routes.DocxMimeTag | server/routes.ts:113-119 | the DOCX MIME type is classified DOCX |
| Routes.ImageMimeTags | server/routes.ts:113-119 | JPEG and PNG are classified IMG |
| Routes.TextMimeTag | server/routes.ts:113-119 | text/plain is classified TXT |
| Routes.AdmitUpload | server/routes.ts:48-65 | a part is admitted iff its type is one of the five listed and it is at most 10 MiB; the type error comes first |
| Routes.UploadOcrSettings | server/routes.ts:251-262 | settings are passed only for images and only when they pass the OCR schema; then the raw parsed object is passed |
| Routes.OcrCallFor | server/routes.ts:82-98 | no settings: default worker, language "eng"; settings: parameters are set, language non-empty |
| Routes.OcrCallAgreesWithSchema | server/routes.ts:86-94 | the worker gets the schema's values, except that mode or engine 0 becomes 3 and an empty language becomes "eng" |
| Routes.Wrapped | server/routes.ts:106-109 | success passes through; a failure is rewrapped as "Failed to extract text: ..." |
| Routes.ExtractText | server/routes.ts:69-110 | dispatch by tag: PDF reader, fixed DOCX placeholder after a read, OCR with the chosen call, the raw read for TXT (its error unwrapped), and an "Unsupported file type" failure for any other tag |
| Routes.ClassifiedUploadsAreExtracted | server/routes.ts:103-104 | the unsupported branch is unreachable from any MIME type's tag; when the back ends succeed, extraction of an upload succeeds |
| Routes.DocxYieldsPlaceholder | server/routes.ts:75-80 | a readable DOCX always yields the fixed placeholder |
| Routes.AudioUrl | server/routes.ts:145 | the URL is "/api/audio/" followed by the file name |
| Routes.AudioFileNameStamp | server/routes.ts:130 | the time stamp at the head of the audio file name is read back by `parseInt` |
| Routes.ConvertTextToSpeech | server/routes.ts:122-150 | succeeds iff the synthesiser writes `<cwd>/uploads/audio/<stamp>-<uuid>.mp3` with language defaulted to "en"; the URL then starts "/api/audio/" and ends ".mp3"; a failure is "Failed to convert text to speech: ..." |
| Routes.GuestGate | server/routes.ts:218-236 | an authenticated caller always passes; a guest is refused with the limit message iff today's shared guest count is at least 3 |
| Routes.CountReplyFor | server/routes.ts:398-408 | authenticated: count 0 and unlimited; guest: today's guest count and limit 3 |
| Routes.CountPredictsGate | server/routes.ts:218-236 | the gate refuses exactly when the count reply shows the count at its limit |
| Routes.PlanConvert | server/routes.ts:302-312 | missing or empty text: "Text content is required" before anything else; otherwise voice settings that are not an object, or that the schema rejects, fail; a plan carries the text, valid voice settings (defaults 1.0 / 0.5 / "male1" when absent), language defaulting to "en", and a source file id where 0 counts as none |
| Routes.HistoryText | server/routes.ts:388 | at most 100 characters unchanged; longer: the first 100 followed by "..." |
| Routes.HistoryHidesTail | server/routes.ts:388 | two long texts with the same first 100 characters look the same in the history |
| Handlers.Upload | server/routes.ts:239-294 | no file: 400; a rejected part is handed on; a failed extraction: 500 and no change; otherwise exactly one file row under the caller (0 for a guest) with the extracted text, returned with 201 |
| Handlers.Convert | server/routes.ts:297-356 | 429 when the guest gate refuses; 400 for an invalid request; 500 when synthesis fails, all without change; otherwise exactly one conversion row, returned with 201, and a guest conversion today raises the shared count by exactly one |
| Handlers.FilesRoute | server/routes.ts:359-375 | 401 for a guest; otherwise exactly the summaries of the caller's files, by ascending id |
| Handlers.ConversionsRoute | server/routes.ts:378-395 | 401 for a guest; otherwise exactly the caller's conversions, by ascending id, each with its text abbreviated to at most 103 characters |
| Handlers.CountRoute | server/routes.ts:398-408 | authenticated: count 0 and unlimited; guest: the number of today's guest rows in the store with limit 3, and the count reaches 3 exactly when the gate refuses |
| Handlers.PresetsRoute | server/routes.ts:445-452 | 401 for a guest; otherwise exactly the caller's presets, by ascending id |
| Handlers.CreatePresetRoute | server/routes.ts:424-443 | 401 for a guest; 400 when name or content is not a string; otherwise one new preset owned by the caller, 201 |
| Handlers.PresetAccess | server/routes.ts:454-469 | in order: no session; no preset under `parseInt(id)` (NaN included); not the owner; else permitted, and the owner of an existing preset is always permitted |
| Handlers.OwnerReachesOwnPreset | server/routes.ts:460-469 | through the decimal text of an id, the owner is permitted and anyone else is forbidden |
| Handlers.UpdatePresetRoute | server/routes.ts:454-480 | 401 / 404 / 403 leave the store unchanged; a permitted update replaces name and content, keeps owner and creation time, returns 200; only the owner's request changes the presets |
| Handlers.DeletePresetRoute | server/routes.ts:482-504 | 401 / 404 / 403 leave the store unchanged; a permitted request removes only that preset, 204; only the owner's request removes one |
| Cleanup.Disk.Unlink | server/routes.ts:174 | removal succeeds iff the path exists and is not locked; a successful removal drops exactly that path |
| Cleanup.ExpiredFiles | server/routes.ts:160-168 | exactly the rows with a null owner uploaded before the cut-off, each as stored |
| Cleanup.KeptConversions | server/routes.ts:189-196 | exactly the conversions not made from the file by a null owner survive, unchanged |
| Cleanup.SweepStep | server/routes.ts:172-200 | a file whose removal fails changes nothing; otherwise its row, its null-owned conversions, the file and the removable audio of guest conversions made from it are gone |
| Cleanup.SweepStepShrinks | server/routes.ts:172-200 | a step keeps the tables well keyed and only removes rows and paths |
| Cleanup.SweepFold | server/routes.ts:171-204 | the sweep over the selection, file by file, keeps the tables well keyed |
| Cleanup.SweepOnlyRemoves | server/routes.ts:171-204 | every row left by the sweep is unchanged, and no path appears |
| Cleanup.SweepSparesOthers | server/routes.ts:171-204 | a file row the sweep is not given survives it unchanged |
| Cleanup.SweepKeepsOwnedConversions | server/routes.ts:189-196 | a conversion with an owner is never deleted |
| Cleanup.SweepSparesOwnedAndRecent | server/routes.ts:160-168 | rows with an owner (guests' owner 0 included) and rows uploaded at or after the cut-off are never swept |
| Cleanup.AudioTargetsAvoid | server/routes.ts:178-186 | a path that no conversion's audio URL, joined to `cwd`, names is never an audio target |
| Cleanup.SweepKeepsPath | server/routes.ts:171-204 | a path on disk that no swept file and no audio URL names is still on disk after the sweep |
| Cleanup.SweepRemoves | server/routes.ts:171-204 | a swept file whose path exists, is removable and is named by no other swept file and no audio URL loses its row, its path and every null-owned conversion made from it |
| Cleanup.SweepRemovesExpired | server/routes.ts:160-204 | a null-owned row uploaded before the cut-off, under the same conditions, is gone after the sweep with its bytes and its null-owned conversions |
| Cleanup.AudioUnlinkMissesAudioFile | server/routes.ts:178-186 | the path the audio loop removes (`cwd` + URL) always differs from the path synthesis wrote |
| Cleanup.RemoveAudio | server/routes.ts:178-186 | the loop removes exactly the unlocked audio targets of the conversions made from the file |
| Cleanup.SweepFile | server/routes.ts:172-203 | one iteration changes files, conversions and disk exactly as `SweepStep` and leaves users, presets and counters alone |
| Cleanup.CleanupGuestFiles | server/routes.ts:153-208 | the whole sweep leaves the store valid, changes only files, conversions and disk, exactly as the fold of the steps over the selection taken at the start |
| ClientUtils.FormatFileSize | client/src/lib/utils.ts:11-12 | a zero size reads "0 Bytes" |
| ClientUtils.FormatDurationReadsBack | client/src/lib/utils.ts:39-45 | for ms >= 0 the text is two colon-separated digit groups; seconds have exactly two digits and are below 60; minutes have at least two; read back as minutes and seconds they give the whole seconds of ms |
| ClientUtils.ElapsedSeconds | client/src/lib/utils.ts:26 | the whole seconds elapsed, rounded down, also for negative differences |
| ClientUtils.RelativeBucket | client/src/lib/utils.ts:24-34 | the unit is chosen by the thresholds 60 / 3600 / 86400 / 604800 seconds, and the count is the whole units elapsed |
| ClientUtils.RelativeTimeReadsBack | client/src/lib/utils.ts:28-31 | within a week the phrase starts with the count, which `parseInt` reads back |
| ClientUtils.RelativeBucketCoarsens | client/src/lib/utils.ts:24-34 | a later "now" never moves a date to a finer unit |
| ClientUtils.FileTypeIconRecognisesTags | client/src/lib/utils.ts:50-63 | a specific icon is given exactly to the spellings of the four tags; everything else gets "fa-file" |
| ClientUtils.FileTypeIconIgnoresCase | client/src/lib/utils.ts:51 | lower- or upper-casing the tag does not change the icon |
| ClientUtils.FileTypeIconSeparatesTags | client/src/lib/utils.ts:50-63 | the four tags get four different, specific icons |
| ClientUtils.ClientAndServerAgreeOnTypes | client/src/lib/utils.ts:68-78 | the browser accepts exactly the server's five MIME types, and a file it accepts within 10 MiB is admitted by the server |
| ClientUtils.CountWordsCountsRuns | client/src/lib/utils.ts:83-85 | the word count is the number of maximal runs of non-space characters |
| ClientUtils.NoWordsIffBlank | client/src/lib/utils.ts:83-85 | the count is zero exactly for empty or all-space text |
| ClientUtils.CountWordsAdds | client/src/lib/utils.ts:83-85 | the count of two texts joined by a space is the sum of their counts |
| ResultPanel.DownloadName | client/src/components/conversion/result-panel.tsx:26-28 | the name ends in ".mp3" and every character before it is in [a-z0-9-] |
| ResultPanel.DownloadNameIgnoresLaterWords | client/src/components/conversion/result-panel.tsx:26 | once the text has three words, words appended after a space do not change the name |
| ResultPanel.NameAfterResult | client/src/components/conversion/result-panel.tsx:23-30 | a result with text renames the download; no result or an empty text keeps the name |
| ResultPanel.NameFollowsLatestText | client/src/components/conversion/result-panel.tsx:20-30 | "audio-output.mp3" until a result with text arrives, then the name derived from the latest such text |
| ResultPanel.NameAlwaysAudio | client/src/components/conversion/result-panel.tsx:20-30 | whatever the results, the offered name ends in ".mp3" |
| ResultPanel.ShownText | client/src/components/conversion/result-panel.tsx:44-53 | the placeholder iff there is neither extracted text nor a result; extracted text wins over the result's text |
| ResultPanel.Paragraphs | client/src/components/conversion/result-panel.tsx:53 | at least one paragraph, none containing a newline |
| ResultPanel.ParagraphsRejoin | client/src/components/conversion/result-panel.tsx:53 | the paragraphs joined with newlines give back the shown text |
| FileDropzone.ErrorMessage | client/src/components/ui/file-dropzone.tsx:33-41 | the size refusal names the formatted limit between its fixed prefix and "."; the type message is shown exactly for a type refusal |
| FileDropzone.Judge | client/src/components/ui/file-dropzone.tsx:20-49 | nothing iff the drop is empty; only the first file counts; refused for size iff over the limit (at the limit passes); refused for type iff within the limit and of an invalid type; accepted iff both checks pass |
| FileDropzone.OnlyFirstFileCounts | client/src/components/ui/file-dropzone.tsx:30 | files after the first never change the decision |
| FileDropzone.DefaultLimitMatchesServer | client/src/components/ui/file-dropzone.tsx:15 | with the default 10 MiB limit a file is accepted iff the server's upload middleware admits it |
| FileDropzone.Dropzone.constructor | client/src/components/ui/file-dropzone.tsx:13-18 | no error, no selection, nothing handed over |
| FileDropzone.Dropzone.OnDrop | client/src/components/ui/file-dropzone.tsx:20-49 | the error is cleared and set only by a refusal; an accepted file becomes the selection and is handed over exactly once; otherwise the selection and the hand-overs are unchanged; every selected or handed-over file passed both checks |
| FileDropzone.Dropzone.RemoveFile | client/src/components/ui/file-dropzone.tsx:63-65 | the selection is cleared and nothing else changes |
| FileDropzone.DropIcon | client/src/components/ui/file-dropzone.tsx:129-136 | precedence pdf, then word, then image, then text; "fa-file" iff none of the four words occurs |
| FileDropzone.StoredTagIcon | client/src/lib/utils.ts:50-63 | PDF, DOCX, IMG and TXT get the pdf, word, image and text icons |
| FileDropzone.PdfDropIcon | client/src/components/ui/file-dropzone.tsx:129-136 | a PDF gets the same icon in the drop zone as its stored tag gets |
| FileDropzone.DocxDropIcon | client/src/components/ui/file-dropzone.tsx:129-136 | a DOCX gets the same icon in the drop zone as its stored tag gets |
| FileDropzone.JpegDropIcon | client/src/components/ui/file-dropzone.tsx:129-136 | a JPEG gets the same icon in the drop zone as its stored tag gets |
| FileDropzone.PngDropIcon | client/src/components/ui/file-dropzone.tsx:129-136 | a PNG gets the same icon in the drop zone as its stored tag gets |
| FileDropzone.TextDropIcon | client/src/components/ui/file-dropzone.tsx:129-136 | a text file gets the same icon in the drop zone as its stored tag gets |
| FileInput.OnTab | client/src/components/conversion/file-input.tsx:112-113 | exactly the listed files that pass the tab filter ("all", or the lower-cased tag equal to the tab) |
| FileInput.OnTabKeepsOrder | client/src/components/conversion/file-input.tsx:112-113 | the filtered list keeps the server's order: a file between two stretches shows between what they show, or not at all |
| FileInput.RecentFiles | client/src/components/conversion/file-input.tsx:112-114 | at most six files, the first ones passing the filter, as a prefix of the filtered list in server order |
| FileInput.AllTabShowsFirstFiles | client/src/components/conversion/file-input.tsx:112-114 | under "all" the list is the first six files |
| FileInput.EveryStoredTagHasATab | client/src/components/conversion/file-input.tsx:50-96 | each stored tag lower-cases to one type tab, and different tags reach different tabs |
| FileInput.StoredFileOnOneTypeTab | client/src/components/conversion/file-input.tsx:113 | a stored file appears under a type tab iff it is its own tab |
| FileInput.CardIconMatchesFileTypeIcon | client/src/components/conversion/file-input.tsx:120-124 | on the four stored tags the card icon is the one `getFileTypeIcon` gives |
| FileInput.Preview | client/src/components/conversion/file-input.tsx:163-171 | nothing for an empty text; up to 500 characters unchanged; longer: 503 characters, the first 500 followed by "..." |

## Left out

- `DatabaseStorage` and its Drizzle queries are not modelled. The routes and the sweep run over `MemStorage`. The sweep's two queries on a null `userId` are read as SQL `IS NULL` on the same tables.
- Sessions, passport and the session stores are left out. The caller is a parameter.
- The PDF reader, the OCR worker and the speech synthesiser are outcomes given as parameters. This is foreign code.
- The file system is modelled as a set of paths with a set of paths whose removal fails. File contents are not modelled.
- Worker shutdown after an OCR error is folded into the worker's outcome.
- An upload whose extraction fails leaves its stored bytes on disk. The model has no disk for uploads, so it does not capture this.
- The welcome and conversion emails are left out. They are fire-and-forget network I/O. server/email.ts is not part of this model.
- The `setInterval` that runs the sweep every 24 hours is left out, as timers are.
- `Cleanup.JoinPath` and `Routes.AudioPath`: `path.join` normalisation is not modelled. Both concatenate, which matches `path.join` only for an absolute second part and a `cwd` without a trailing slash; no inserted separator, no `.`/`..` collapsing, no doubled-slash removal. The only stored audio URL, `Routes.AudioUrl`, always starts with "/".
- The audio download route and its path-existence check are left out. They are file-system I/O.
- Multer's `destination`/`filename` callbacks are left out. They name the stored file and touch the disk; the path is a parameter.
- The upload middleware's error is modelled as `Forwarded(message)` with no status. The error handler that picks the status is in server/index.ts, which is not part of this model.
- `Date.now()`, `uuidv4()`, `new Date()`, `setHours(0, 0, 0, 0)` and `process.cwd()` are not modelled. Their values are parameters.
- Handlers.CreatePresetRoute: the validation error's text is the schema library's, so a fixed message stands for it.
- Request bodies are not modelled as raw values. A body field of the wrong JSON type becomes an absent option, except where the schemas distinguish it: `voiceSettings` and the OCR settings body each have a case for a value that is not an object, and the fields the schemas check have a wrong-type case.
- Handlers.Convert, Cleanup.CleanupGuestFiles: every handler and the sweep run as one uninterrupted step. In the program they await between reading and writing the store, so they can interleave. Two guest requests that both read a count of 2 both pass the gate, and guests can then exceed three conversions a day. Convert's clause that the guest count rises by exactly one, and only below the limit, holds only for requests that run one after another. Likewise, requests can change the store while the sweep works through its selection.
- Handlers.UpdatePresetRoute: a request without `name` or `content` writes `undefined` into the preset. The model takes both as strings.
- Storage.MergeUser, Storage.MergeFile, Storage.MergePreset: a patch cannot carry an `id`. The routes never send one, so the merge always keeps the row's id.
- Handlers.UpdatePresetRoute, Handlers.DeletePresetRoute: the `catch` that turns a thrown error into 400 is unreachable once the preset has been found, so it is not modelled.
- Voice settings are validated and stored but not applied to the audio. The code does not apply them either.
- `parseInt` is modelled for optional leading white space, an optional sign and decimal digits. Hexadecimal prefixes and values beyond the safe-integer range are not modelled.
- Numbers are exact reals and integers, not IEEE doubles. NaN, infinities and rounding at the range bounds of the schemas are not modelled.
- ClientUtils.FormatFileSize: only the zero case is exact. The text for other sizes uses `Math.log` and `toFixed` (floating point) and is a parameter.
- `toLocaleDateString` is locale-dependent and is a parameter of `formatRelativeTime`.
- ClientUtils.FormatDurationReadsBack: NaN and negative durations are not covered; the lemma requires a non-negative duration.
- Strings are sequences of characters, not UTF-16 code units. Case mapping is ASCII only.
- react-dropzone's own `accept` and `multiple: false` pre-filtering is not modelled. `onDrop` is modelled on whatever list it receives.
- The `onFileAccepted` callback is modelled as the list of files handed over.
- All rendering, styling, routing, the query client and the pages and components not named above are left out. They are presentation only.
