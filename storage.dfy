/**
 * `MemStorage`: four keyed tables, each with its own id counter, and the
 * create / get / update / delete / filter-by-owner operations on them.
 *
 * A JavaScript `Map` iterates in insertion order. Ids are handed out in
 * increasing order, `set` on a present key keeps its position and `delete`
 * drops it, so insertion order is ascending id order: the filters below list
 * their entries by ascending key.
 */
module Storage {
  import opened Wrappers
  import opened Schema
  import JsLib

  // ---------------------------------------------------------------------------
  // Ordered selection over a table
  // ---------------------------------------------------------------------------

  /** The keys below `n` whose entries pass `keep`, ascending. */
  function SelectKeys<T>(m: map<int, T>, n: nat, keep: T -> bool): (r: seq<int>)
    ensures forall k :: k in r <==> 0 <= k < n && k in m && keep(m[k])
    ensures forall a, b :: 0 <= a < b < |r| ==> r[a] < r[b]
    decreases n
  {
    if n == 0 then []
    else
      var r := SelectKeys(m, n - 1, keep);
      assert forall i :: 0 <= i < |r| ==> r[i] in r && r[i] < n - 1;
      if n - 1 in m && keep(m[n - 1]) then r + [n - 1] else r
  }

  /** The entries stored under `keys`, in that order. */
  function ValuesAt<T>(m: map<int, T>, keys: seq<int>): (r: seq<T>)
    requires forall i :: 0 <= i < |keys| ==> keys[i] in m
    ensures |r| == |keys| && forall i :: 0 <= i < |keys| ==> r[i] == m[keys[i]]
  {
    seq(|keys|, i requires 0 <= i < |keys| => m[keys[i]])
  }

  /** Raising the bound by one appends the entry at the old bound when it passes. */
  lemma SelectedValuesStep<T>(m: map<int, T>, n: nat, keep: T -> bool)
    ensures ValuesAt(m, SelectKeys(m, n + 1, keep)) ==
            ValuesAt(m, SelectKeys(m, n, keep)) + (if n in m && keep(m[n]) then [m[n]] else [])
  {
    var k := SelectKeys(m, n, keep);
    if n in m && keep(m[n]) {
      assert SelectKeys(m, n + 1, keep) == k + [n];
      assert ValuesAt(m, k + [n]) == ValuesAt(m, k) + [m[n]];
    }
  }

  /** Filtering a one-element list. */
  lemma FilterSingle<T>(x: T, keep: T -> bool)
    ensures JsLib.Filter([x], keep) == if keep(x) then [x] else []
  {
    assert [x][1..] == [];
  }

  /**
   * Selecting by a conjunction is filtering the selection by the first conjunct
   * with the second: the two filters may be applied one after the other.
   */
  lemma {:induction false} SelectConjunction<T>(m: map<int, T>, n: nat, p: T -> bool, q: T -> bool, pq: T -> bool)
    requires forall x :: pq(x) == (p(x) && q(x))
    ensures ValuesAt(m, SelectKeys(m, n, pq)) == JsLib.Filter(ValuesAt(m, SelectKeys(m, n, p)), q)
    decreases n
  {
    if n > 0 {
      var i := n - 1;
      SelectConjunction(m, i, p, q, pq);
      SelectedValuesStep(m, i, p);
      SelectedValuesStep(m, i, pq);
      var vp := ValuesAt(m, SelectKeys(m, i, p));
      var last := if i in m && p(m[i]) then [m[i]] else [];
      JsLib.FilterAppend(vp, last, q);
      if i in m && p(m[i]) {
        FilterSingle(m[i], q);
      }
    }
  }

  /** Entries at or above the bound are not looked at. */
  lemma {:induction false} SelectKeysIgnoresHigherKeys<T>(m: map<int, T>, n: nat, keep: T -> bool, k: int, v: T)
    requires k >= n
    ensures SelectKeys(m[k := v], n, keep) == SelectKeys(m, n, keep)
    decreases n
  {
    if n > 0 {
      SelectKeysIgnoresHigherKeys(m, n - 1, keep, k, v);
    }
  }

  /** Storing under the bound and raising it appends that key exactly when its entry passes. */
  lemma SelectKeysAfterInsert<T>(m: map<int, T>, n: nat, keep: T -> bool, v: T)
    ensures SelectKeys(m[n := v], n + 1, keep) == SelectKeys(m, n, keep) + (if keep(v) then [n] else [])
  {
    SelectKeysIgnoresHigherKeys(m, n, keep, n, v);
  }

  /** The conversions of `userId` in a table whose keys lie below `n` and name their rows, by ascending id. */
  function ConversionsOwnedBy(m: map<int, Conversion>, n: nat, userId: int): (r: seq<Conversion>)
    requires WellKeyed(m, n, ConversionId)
    ensures forall c :: c in r <==> c in m.Values && c.userId == Some(userId)
    ensures forall a, b :: 0 <= a < b < |r| ==> r[a].id < r[b].id
  {
    var keys := SelectKeys(m, n, (c: Conversion) => c.userId == Some(userId));
    var r := ValuesAt(m, keys);
    assert forall c :: c in m.Values && c.userId == Some(userId) ==> m[c.id] == c && c.id in keys;
    r
  }

  /**
   * The conversions of `userId` created at or after `midnight` in a table whose
   * keys lie below `n` and name their rows, by ascending id.
   */
  function ConversionsOwnedSince(m: map<int, Conversion>, n: nat, userId: int, midnight: int): (r: seq<Conversion>)
    requires WellKeyed(m, n, ConversionId)
    ensures forall c :: c in r <==> c in m.Values && c.userId == Some(userId) && c.createdAt >= midnight
    ensures forall a, b :: 0 <= a < b < |r| ==> r[a].id < r[b].id
  {
    var keys := SelectKeys(m, n, (c: Conversion) => c.userId == Some(userId) && c.createdAt >= midnight);
    var r := ValuesAt(m, keys);
    assert forall c :: c in m.Values && c.userId == Some(userId) && c.createdAt >= midnight ==>
              m[c.id] == c && c.id in keys;
    r
  }

  /**
   * Storing a new row under the counter and raising it adds one to the count of
   * the owner's conversions since `midnight` exactly when the row is one of them.
   */
  lemma OwnedSinceAfterInsert(m: map<int, Conversion>, n: nat, userId: int, midnight: int, row: Conversion)
    requires WellKeyed(m, n, ConversionId) && row.id == n
    ensures WellKeyed(m[n := row], n + 1, ConversionId)
    ensures |ConversionsOwnedSince(m[n := row], n + 1, userId, midnight)| ==
            |ConversionsOwnedSince(m, n, userId, midnight)| +
            (if row.userId == Some(userId) && row.createdAt >= midnight then 1 else 0)
  {
    SelectKeysAfterInsert(m, n, (c: Conversion) => c.userId == Some(userId) && c.createdAt >= midnight, row);
  }

  // ---------------------------------------------------------------------------
  // Partial updates: `{ ...row, ...data }`
  // ---------------------------------------------------------------------------

  /** The properties present in a `Partial<User>`; the id is never among them. */
  datatype UserPatch = UserPatch(
    username: Option<string>, password: Option<string>, darkMode: Option<bool>,
    ttsCredits: Option<int>, createdAt: Option<int>)

  datatype FilePatch = FilePatch(
    userId: Option<Option<int>>, filePath: Option<string>, fileName: Option<string>,
    fileType: Option<string>, extractedText: Option<Option<string>>,
    processed: Option<bool>, uploadDate: Option<int>)

  datatype PresetPatch = PresetPatch(
    userId: Option<int>, name: Option<string>, content: Option<string>, createdAt: Option<int>)

  function Pick<T>(patch: Option<T>, current: T): T {
    if patch.Some? then patch.value else current
  }

  /** `{ ...user, ...data }`: a present property wins, an absent one keeps the row's value. */
  function MergeUser(u: User, data: UserPatch): (r: User)
    ensures r.id == u.id
    ensures r.username == (if data.username.Some? then data.username.value else u.username)
    ensures r.password == (if data.password.Some? then data.password.value else u.password)
    ensures r.darkMode == (if data.darkMode.Some? then data.darkMode.value else u.darkMode)
    ensures r.ttsCredits == (if data.ttsCredits.Some? then data.ttsCredits.value else u.ttsCredits)
    ensures r.createdAt == (if data.createdAt.Some? then data.createdAt.value else u.createdAt)
  {
    User(u.id, Pick(data.username, u.username), Pick(data.password, u.password),
         Pick(data.darkMode, u.darkMode), Pick(data.ttsCredits, u.ttsCredits),
         Pick(data.createdAt, u.createdAt))
  }

  function MergeFile(f: UploadedFile, data: FilePatch): (r: UploadedFile)
    ensures r.id == f.id
    ensures r.userId == (if data.userId.Some? then data.userId.value else f.userId)
    ensures r.filePath == (if data.filePath.Some? then data.filePath.value else f.filePath)
    ensures r.fileName == (if data.fileName.Some? then data.fileName.value else f.fileName)
    ensures r.fileType == (if data.fileType.Some? then data.fileType.value else f.fileType)
    ensures r.extractedText == (if data.extractedText.Some? then data.extractedText.value else f.extractedText)
    ensures r.processed == (if data.processed.Some? then data.processed.value else f.processed)
    ensures r.uploadDate == (if data.uploadDate.Some? then data.uploadDate.value else f.uploadDate)
  {
    UploadedFile(f.id, Pick(data.userId, f.userId), Pick(data.filePath, f.filePath),
                 Pick(data.fileName, f.fileName), Pick(data.fileType, f.fileType),
                 Pick(data.extractedText, f.extractedText), Pick(data.processed, f.processed),
                 Pick(data.uploadDate, f.uploadDate))
  }

  function MergePreset(p: Preset, data: PresetPatch): (r: Preset)
    ensures r.id == p.id
    ensures r.userId == (if data.userId.Some? then data.userId.value else p.userId)
    ensures r.name == (if data.name.Some? then data.name.value else p.name)
    ensures r.content == (if data.content.Some? then data.content.value else p.content)
    ensures r.createdAt == (if data.createdAt.Some? then data.createdAt.value else p.createdAt)
  {
    Preset(p.id, Pick(data.userId, p.userId), Pick(data.name, p.name),
           Pick(data.content, p.content), Pick(data.createdAt, p.createdAt))
  }

  /** Merging the same data twice is merging it once. */
  lemma MergeIdempotent(u: User, f: UploadedFile, p: Preset, du: UserPatch, df: FilePatch, dp: PresetPatch)
    ensures MergeUser(MergeUser(u, du), du) == MergeUser(u, du)
    ensures MergeFile(MergeFile(f, df), df) == MergeFile(f, df)
    ensures MergePreset(MergePreset(p, dp), dp) == MergePreset(p, dp)
  {
  }

  // ---------------------------------------------------------------------------
  // The store
  // ---------------------------------------------------------------------------

  /** The key each row is stored under. */
  function UserId(u: User): int { u.id }
  function FileId(f: UploadedFile): int { f.id }
  function ConversionId(c: Conversion): int { c.id }
  function PresetId(p: Preset): int { p.id }

  /** A table is well formed below counter `next`: keys are in `[1, next)` and each row carries its key. */
  ghost predicate WellKeyed<T>(m: map<int, T>, next: nat, idOf: T -> int) {
    1 <= next && forall k :: k in m ==> 1 <= k < next && idOf(m[k]) == k
  }

  class MemStorage {
    var users: map<int, User>
    var uploadedFiles: map<int, UploadedFile>
    var conversions: map<int, Conversion>
    var presets: map<int, Preset>
    var userIdCounter: nat
    var fileIdCounter: nat
    var conversionIdCounter: nat
    var presetIdCounter: nat

    /** Every key is below its table's counter and names its row: the next id is fresh. */
    ghost predicate Valid()
      reads this
    {
      && WellKeyed(users, userIdCounter, UserId)
      && WellKeyed(uploadedFiles, fileIdCounter, FileId)
      && WellKeyed(conversions, conversionIdCounter, ConversionId)
      && WellKeyed(presets, presetIdCounter, PresetId)
    }

    constructor ()
      ensures Valid()
      ensures users == map[] && uploadedFiles == map[] && conversions == map[] && presets == map[]
      ensures userIdCounter == 1 && fileIdCounter == 1 && conversionIdCounter == 1 && presetIdCounter == 1
    {
      users, uploadedFiles, conversions, presets := map[], map[], map[], map[];
      userIdCounter, fileIdCounter, conversionIdCounter, presetIdCounter := 1, 1, 1, 1;
    }

    // ----- users ------------------------------------------------------------

    /** `Map.get(id)`: the user stored under `id`, which carries that id, if any. */
    function GetUser(id: int): (r: Option<User>)
      reads this
      requires Valid()
      ensures r.None? <==> id !in users
      ensures r.Some? ==> r.value == users[id] && r.value.id == id
    {
      if id in users then Some(users[id]) else None
    }

    /** `Array.from(users.values()).find(u => u.username === name)`: the earliest such user. */
    function GetUserByUsername(name: string): (r: Option<User>)
      reads this
      requires Valid()
      ensures r.None? <==> forall k :: k in users ==> users[k].username != name
      ensures r.Some? ==> r.value.id in users && users[r.value.id] == r.value && r.value.username == name
      ensures r.Some? ==> forall k :: k in users && users[k].username == name ==> r.value.id <= k
    {
      var keys := SelectKeys(users, userIdCounter, (u: User) => u.username == name);
      if keys == [] then None
      else
        assert forall i :: 0 <= i < |keys| ==> keys[0] <= keys[i];
        Some(users[keys[0]])
    }

    method CreateUser(insertUser: NewUser, now: int) returns (user: User)
      requires Valid()
      modifies this
      ensures Valid()
      ensures user == User(old(userIdCounter), insertUser.username, insertUser.password,
                           DefaultDarkMode, DefaultTtsCredits, now)
      ensures user.id !in old(users)
      ensures users == old(users)[user.id := user] && GetUser(user.id) == Some(user)
      ensures userIdCounter == old(userIdCounter) + 1
      ensures uploadedFiles == old(uploadedFiles) && conversions == old(conversions) && presets == old(presets)
      ensures fileIdCounter == old(fileIdCounter) && conversionIdCounter == old(conversionIdCounter)
      ensures presetIdCounter == old(presetIdCounter)
    {
      var id := userIdCounter;
      userIdCounter := userIdCounter + 1;
      user := User(id, insertUser.username, insertUser.password, false, 100, now);
      users := users[id := user];
    }

    method UpdateUser(id: int, data: UserPatch) returns (r: Result<User>)
      requires Valid()
      modifies this
      ensures Valid()
      ensures id !in old(users) ==> r == Err("User not found") && users == old(users)
      ensures id in old(users) ==> r == Ok(MergeUser(old(users)[id], data)) && users == old(users)[id := r.value]
      ensures uploadedFiles == old(uploadedFiles) && conversions == old(conversions) && presets == old(presets)
      ensures userIdCounter == old(userIdCounter) && fileIdCounter == old(fileIdCounter)
      ensures conversionIdCounter == old(conversionIdCounter) && presetIdCounter == old(presetIdCounter)
    {
      var user := GetUser(id);
      if user.None? {
        return Err("User not found");
      }
      var updated := MergeUser(user.value, data);
      users := users[id := updated];
      r := Ok(updated);
    }

    // ----- uploaded files ---------------------------------------------------

    /** `Map.get(id)`: the file stored under `id`, which carries that id, if any. */
    function GetUploadedFile(id: int): (r: Option<UploadedFile>)
      reads this
      requires Valid()
      ensures r.None? <==> id !in uploadedFiles
      ensures r.Some? ==> r.value == uploadedFiles[id] && r.value.id == id
    {
      if id in uploadedFiles then Some(uploadedFiles[id]) else None
    }

    /** The files whose owner is `userId` (a null owner never matches), by ascending id. */
    function GetUploadedFilesByUser(userId: int): (r: seq<UploadedFile>)
      reads this
      requires Valid()
      ensures forall f :: f in r <==> f in uploadedFiles.Values && f.userId == Some(userId)
      ensures forall a, b :: 0 <= a < b < |r| ==> r[a].id < r[b].id
    {
      var m := uploadedFiles;
      var keys := SelectKeys(m, fileIdCounter, (f: UploadedFile) => f.userId == Some(userId));
      var r := ValuesAt(m, keys);
      assert forall f :: f in m.Values && f.userId == Some(userId) ==> m[f.id] == f && f.id in keys;
      r
    }

    method CreateUploadedFile(file: NewUploadedFile, now: int) returns (newFile: UploadedFile)
      requires Valid()
      modifies this
      ensures Valid()
      ensures newFile == UploadedFile(old(fileIdCounter), file.userId, file.filePath, file.fileName,
                                      file.fileType, file.extractedText, false, now)
      ensures newFile.id !in old(uploadedFiles)
      ensures uploadedFiles == old(uploadedFiles)[newFile.id := newFile]
      ensures GetUploadedFile(newFile.id) == Some(newFile)
      ensures fileIdCounter == old(fileIdCounter) + 1
      ensures users == old(users) && conversions == old(conversions) && presets == old(presets)
      ensures userIdCounter == old(userIdCounter) && conversionIdCounter == old(conversionIdCounter)
      ensures presetIdCounter == old(presetIdCounter)
    {
      var id := fileIdCounter;
      fileIdCounter := fileIdCounter + 1;
      newFile := UploadedFile(id, file.userId, file.filePath, file.fileName,
                              file.fileType, file.extractedText, false, now);
      uploadedFiles := uploadedFiles[id := newFile];
    }

    method UpdateUploadedFile(id: int, data: FilePatch) returns (r: Result<UploadedFile>)
      requires Valid()
      modifies this
      ensures Valid()
      ensures id !in old(uploadedFiles) ==> r == Err("File not found") && uploadedFiles == old(uploadedFiles)
      ensures id in old(uploadedFiles) ==>
                r == Ok(MergeFile(old(uploadedFiles)[id], data))
                && uploadedFiles == old(uploadedFiles)[id := r.value]
      ensures users == old(users) && conversions == old(conversions) && presets == old(presets)
      ensures userIdCounter == old(userIdCounter) && fileIdCounter == old(fileIdCounter)
      ensures conversionIdCounter == old(conversionIdCounter) && presetIdCounter == old(presetIdCounter)
    {
      var file := GetUploadedFile(id);
      if file.None? {
        return Err("File not found");
      }
      var updated := MergeFile(file.value, data);
      uploadedFiles := uploadedFiles[id := updated];
      r := Ok(updated);
    }

    method DeleteUploadedFile(id: int)
      requires Valid()
      modifies this
      ensures Valid()
      ensures uploadedFiles == old(uploadedFiles) - {id}
      ensures users == old(users) && conversions == old(conversions) && presets == old(presets)
      ensures userIdCounter == old(userIdCounter) && fileIdCounter == old(fileIdCounter)
      ensures conversionIdCounter == old(conversionIdCounter) && presetIdCounter == old(presetIdCounter)
    {
      uploadedFiles := uploadedFiles - {id};
    }

    // ----- conversions ------------------------------------------------------

    /** `Map.get(id)`: the conversion stored under `id`, which carries that id, if any. */
    function GetConversion(id: int): (r: Option<Conversion>)
      reads this
      requires Valid()
      ensures r.None? <==> id !in conversions
      ensures r.Some? ==> r.value == conversions[id] && r.value.id == id
    {
      if id in conversions then Some(conversions[id]) else None
    }

    /** The conversions whose owner is `userId` (a null owner never matches), by ascending id. */
    function GetConversionsByUser(userId: int): (r: seq<Conversion>)
      reads this
      requires Valid()
      ensures forall c :: c in r <==> c in conversions.Values && c.userId == Some(userId)
      ensures forall a, b :: 0 <= a < b < |r| ==> r[a].id < r[b].id
    {
      ConversionsOwnedBy(conversions, conversionIdCounter, userId)
    }

    /**
     * The conversions of `userId` created at or after `midnight`, the start of
     * the local day (`today.setHours(0, 0, 0, 0)`), by ascending id.
     */
    function GetConversionsByUserToday(userId: int, midnight: int): (r: seq<Conversion>)
      reads this
      requires Valid()
      ensures forall c :: c in r <==>
                c in conversions.Values && c.userId == Some(userId) && c.createdAt >= midnight
      ensures forall a, b :: 0 <= a < b < |r| ==> r[a].id < r[b].id
    {
      ConversionsOwnedSince(conversions, conversionIdCounter, userId, midnight)
    }

    /** Today's conversions are exactly the owner's conversions filtered by creation time. */
    lemma TodayFiltersByUser(userId: int, midnight: int)
      requires Valid()
      ensures GetConversionsByUserToday(userId, midnight) ==
              JsLib.Filter(GetConversionsByUser(userId), (c: Conversion) => c.createdAt >= midnight)
    {
      SelectConjunction(conversions, conversionIdCounter,
                        (c: Conversion) => c.userId == Some(userId),
                        (c: Conversion) => c.createdAt >= midnight,
                        (c: Conversion) => c.userId == Some(userId) && c.createdAt >= midnight);
    }

    method CreateConversion(conversion: NewConversion, now: int) returns (newConversion: Conversion)
      requires Valid()
      modifies this
      ensures Valid()
      ensures newConversion == Conversion(old(conversionIdCounter), conversion.userId, conversion.sourceFileId,
                                          conversion.textContent, conversion.audioFilePath,
                                          conversion.voiceSettings, conversion.language, now)
      ensures newConversion.id !in old(conversions)
      ensures conversions == old(conversions)[newConversion.id := newConversion]
      ensures GetConversion(newConversion.id) == Some(newConversion)
      ensures conversionIdCounter == old(conversionIdCounter) + 1
      ensures users == old(users) && uploadedFiles == old(uploadedFiles) && presets == old(presets)
      ensures userIdCounter == old(userIdCounter) && fileIdCounter == old(fileIdCounter)
      ensures presetIdCounter == old(presetIdCounter)
    {
      var id := conversionIdCounter;
      conversionIdCounter := conversionIdCounter + 1;
      newConversion := Conversion(id, conversion.userId, conversion.sourceFileId, conversion.textContent,
                                  conversion.audioFilePath, conversion.voiceSettings, conversion.language, now);
      conversions := conversions[id := newConversion];
    }

    method DeleteConversion(id: int)
      requires Valid()
      modifies this
      ensures Valid()
      ensures conversions == old(conversions) - {id}
      ensures users == old(users) && uploadedFiles == old(uploadedFiles) && presets == old(presets)
      ensures userIdCounter == old(userIdCounter) && fileIdCounter == old(fileIdCounter)
      ensures conversionIdCounter == old(conversionIdCounter) && presetIdCounter == old(presetIdCounter)
    {
      conversions := conversions - {id};
    }

    // ----- presets ----------------------------------------------------------

    /** `Map.get(id)`: the preset stored under `id`, which carries that id, if any. */
    function GetPreset(id: int): (r: Option<Preset>)
      reads this
      requires Valid()
      ensures r.None? <==> id !in presets
      ensures r.Some? ==> r.value == presets[id] && r.value.id == id
    {
      if id in presets then Some(presets[id]) else None
    }

    /** The presets of `userId`, by ascending id. */
    function GetPresetsByUser(userId: int): (r: seq<Preset>)
      reads this
      requires Valid()
      ensures forall p :: p in r <==> p in presets.Values && p.userId == userId
      ensures forall a, b :: 0 <= a < b < |r| ==> r[a].id < r[b].id
    {
      var m := presets;
      var keys := SelectKeys(m, presetIdCounter, (p: Preset) => p.userId == userId);
      var r := ValuesAt(m, keys);
      assert forall p :: p in m.Values && p.userId == userId ==> m[p.id] == p && p.id in keys;
      r
    }

    method CreatePreset(preset: NewPreset, now: int) returns (newPreset: Preset)
      requires Valid()
      modifies this
      ensures Valid()
      ensures newPreset == Preset(old(presetIdCounter), preset.userId, preset.name, preset.content, now)
      ensures newPreset.id !in old(presets)
      ensures presets == old(presets)[newPreset.id := newPreset]
      ensures GetPreset(newPreset.id) == Some(newPreset)
      ensures presetIdCounter == old(presetIdCounter) + 1
      ensures users == old(users) && uploadedFiles == old(uploadedFiles) && conversions == old(conversions)
      ensures userIdCounter == old(userIdCounter) && fileIdCounter == old(fileIdCounter)
      ensures conversionIdCounter == old(conversionIdCounter)
    {
      var id := presetIdCounter;
      presetIdCounter := presetIdCounter + 1;
      newPreset := Preset(id, preset.userId, preset.name, preset.content, now);
      presets := presets[id := newPreset];
    }

    method UpdatePreset(id: int, data: PresetPatch) returns (r: Result<Preset>)
      requires Valid()
      modifies this
      ensures Valid()
      ensures id !in old(presets) ==> r == Err("Preset not found") && presets == old(presets)
      ensures id in old(presets) ==>
                r == Ok(MergePreset(old(presets)[id], data)) && presets == old(presets)[id := r.value]
      ensures users == old(users) && uploadedFiles == old(uploadedFiles) && conversions == old(conversions)
      ensures userIdCounter == old(userIdCounter) && fileIdCounter == old(fileIdCounter)
      ensures conversionIdCounter == old(conversionIdCounter) && presetIdCounter == old(presetIdCounter)
    {
      var preset := GetPreset(id);
      if preset.None? {
        return Err("Preset not found");
      }
      var updated := MergePreset(preset.value, data);
      presets := presets[id := updated];
      r := Ok(updated);
    }

    method DeletePreset(id: int)
      requires Valid()
      modifies this
      ensures Valid()
      ensures presets == old(presets) - {id}
      ensures users == old(users) && uploadedFiles == old(uploadedFiles) && conversions == old(conversions)
      ensures userIdCounter == old(userIdCounter) && fileIdCounter == old(fileIdCounter)
      ensures conversionIdCounter == old(conversionIdCounter) && presetIdCounter == old(presetIdCounter)
    {
      presets := presets - {id};
    }
  }
}
