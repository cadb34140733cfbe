/**
 * `cleanupGuestFiles`: the sweep over guest uploads older than a day. For each
 * selected file it removes the file from disk; if that fails it moves on to the
 * next file. Otherwise it removes the audio of the guest conversions made from
 * that file (ignoring failures), deletes the null-owned conversions made from
 * it, and deletes the file's row.
 *
 * The selection and the conversion delete are run against the same tables as
 * the store, with "owner is null" read as SQL `IS NULL`.
 */
module Cleanup {
  import opened Wrappers
  import opened Schema
  import opened Storage
  import Routes

  /** The file system as the sweep sees it. */
  class Disk {
    /** The paths that exist. */
    var files: set<string>
    /** Paths whose removal fails even when they exist. */
    const locked: set<string>

    constructor (files: set<string>, locked: set<string>)
      ensures this.files == files && this.locked == locked
    {
      this.files := files;
      this.locked := locked;
    }

    /** `fs.promises.unlink(path)`: `false` is a rejected promise. */
    method Unlink(path: string) returns (ok: bool)
      modifies this
      ensures ok <==> path in old(files) && path !in locked
      ensures files == old(files) - (if path in locked then {} else {path})
    {
      ok := path in files && path !in locked;
      if ok {
        files := files - {path};
      }
    }
  }

  /** `path.join(cwd, p)` for an absolute `p` and a `cwd` without a trailing slash. */
  function JoinPath(cwd: string, p: string): string {
    cwd + p
  }

  /** The rows `cleanupGuestFiles` selects: null owner, uploaded before the cut-off. */
  predicate Expired(f: UploadedFile, oneDayAgo: int) {
    f.userId.None? && f.uploadDate < oneDayAgo
  }

  /** The selected rows, by ascending id. */
  function ExpiredFiles(m: map<int, UploadedFile>, n: nat, oneDayAgo: int): (r: seq<UploadedFile>)
    requires WellKeyed(m, n, FileId)
    ensures forall f :: f in r <==> f in m.Values && Expired(f, oneDayAgo)
    ensures forall i :: 0 <= i < |r| ==> r[i].id in m && m[r[i].id] == r[i]
    ensures forall a, b :: 0 <= a < b < |r| ==> r[a].id < r[b].id
  {
    var keys := SelectKeys(m, n, (f: UploadedFile) => Expired(f, oneDayAgo));
    var r := ValuesAt(m, keys);
    assert forall f :: f in m.Values && Expired(f, oneDayAgo) ==> m[f.id] == f && f.id in keys;
    r
  }

  /** A conversion whose audio the sweep removes along with file `fileId`. */
  predicate AudioTarget(c: Conversion, fileId: int) {
    c.sourceFileId == Some(fileId) && c.audioFilePath.Some? && c.audioFilePath.value != ""
  }

  /** The paths the audio loop tries to remove, over a list of conversions. */
  function AudioTargets(cs: seq<Conversion>, fileId: int, cwd: string): set<string>
    decreases |cs|
  {
    if cs == [] then {}
    else
      var c := cs[|cs| - 1];
      AudioTargets(cs[..|cs| - 1], fileId, cwd)
        + (if AudioTarget(c, fileId) then {JoinPath(cwd, c.audioFilePath.value)} else {})
  }

  /** The state the sweep reads and changes. */
  datatype Tables = Tables(files: map<int, UploadedFile>, conversions: map<int, Conversion>, disk: set<string>)

  ghost predicate TablesValid(t: Tables, fileCounter: nat, conversionCounter: nat) {
    WellKeyed(t.files, fileCounter, FileId)
    && WellKeyed(t.conversions, conversionCounter, ConversionId)
  }

  /** The conversions that outlive the delete of those made from `fileId` by a null owner. */
  function KeptConversions(m: map<int, Conversion>, fileId: int): (r: map<int, Conversion>)
    ensures forall k :: k in r <==> k in m && !(m[k].userId.None? && m[k].sourceFileId == Some(fileId))
    ensures forall k :: k in r ==> r[k] == m[k]
  {
    map k | k in m && !(m[k].userId.None? && m[k].sourceFileId == Some(fileId)) :: m[k]
  }

  /** One iteration of the sweep, on file `f`. */
  function SweepStep(t: Tables, f: UploadedFile, cwd: string, locked: set<string>, conversionCounter: nat): (r: Tables)
    requires WellKeyed(t.conversions, conversionCounter, ConversionId)
    ensures f.filePath !in t.disk || f.filePath in locked ==> r == t
    ensures f.filePath in t.disk && f.filePath !in locked ==>
              && r.files == t.files - {f.id}
              && r.conversions == KeptConversions(t.conversions, f.id)
              && r.disk == t.disk - {f.filePath}
                          - (AudioTargets(ConversionsOwnedBy(t.conversions, conversionCounter, Routes.GuestUserId),
                                          f.id, cwd) - locked)
  {
    if f.filePath !in t.disk || f.filePath in locked then t
    else
      var audio := AudioTargets(ConversionsOwnedBy(t.conversions, conversionCounter, Routes.GuestUserId), f.id, cwd);
      Tables(t.files - {f.id}, KeptConversions(t.conversions, f.id), t.disk - {f.filePath} - (audio - locked))
  }

  /** A step keeps the tables well keyed, and only removes. */
  lemma SweepStepShrinks(t: Tables, f: UploadedFile, cwd: string, locked: set<string>, fc: nat, cc: nat)
    requires TablesValid(t, fc, cc)
    ensures TablesValid(SweepStep(t, f, cwd, locked, cc), fc, cc)
    ensures var r := SweepStep(t, f, cwd, locked, cc);
            && (forall k :: k in r.files ==> k in t.files && r.files[k] == t.files[k])
            && (forall k :: k in r.conversions ==> k in t.conversions && r.conversions[k] == t.conversions[k])
            && r.disk <= t.disk
  {
  }

  /** The sweep over `fs`, in order. */
  function SweepFold(t: Tables, fs: seq<UploadedFile>, cwd: string, locked: set<string>, fc: nat, cc: nat): (r: Tables)
    requires TablesValid(t, fc, cc)
    ensures TablesValid(r, fc, cc)
    decreases |fs|
  {
    if fs == [] then t
    else
      var before := SweepFold(t, fs[..|fs| - 1], cwd, locked, fc, cc);
      SweepStepShrinks(before, fs[|fs| - 1], cwd, locked, fc, cc);
      SweepStep(before, fs[|fs| - 1], cwd, locked, cc)
  }

  /** Sweeping one more file is one more step. */
  lemma SweepFoldSnoc(t: Tables, fs: seq<UploadedFile>, f: UploadedFile, cwd: string, locked: set<string>,
                      fc: nat, cc: nat)
    requires TablesValid(t, fc, cc)
    ensures SweepFold(t, fs + [f], cwd, locked, fc, cc) == SweepStep(SweepFold(t, fs, cwd, locked, fc, cc), f, cwd, locked, cc)
  {
    assert (fs + [f])[..|fs|] == fs;
  }

  /** A step after the sweep of the first `i` files is the sweep of the first `i + 1`. */
  lemma SweepFoldExtend(t: Tables, fs: seq<UploadedFile>, i: nat, cwd: string, locked: set<string>,
                        fc: nat, cc: nat, before: Tables, after: Tables)
    requires TablesValid(t, fc, cc) && i < |fs|
    requires before == SweepFold(t, fs[..i], cwd, locked, fc, cc)
    requires after == SweepStep(before, fs[i], cwd, locked, cc)
    ensures after == SweepFold(t, fs[..i + 1], cwd, locked, fc, cc)
  {
    SweepFoldSnoc(t, fs[..i], fs[i], cwd, locked, fc, cc);
    assert fs[..i + 1] == fs[..i] + [fs[i]];
  }

  /** The sweep only removes: every row it leaves is unchanged, and no path appears. */
  lemma {:induction false} SweepOnlyRemoves(t: Tables, fs: seq<UploadedFile>, cwd: string, locked: set<string>, fc: nat, cc: nat)
    requires TablesValid(t, fc, cc)
    ensures var r := SweepFold(t, fs, cwd, locked, fc, cc);
            && (forall k :: k in r.files ==> k in t.files && r.files[k] == t.files[k])
            && (forall k :: k in r.conversions ==> k in t.conversions && r.conversions[k] == t.conversions[k])
            && r.disk <= t.disk
    decreases |fs|
  {
    if fs != [] {
      var before := SweepFold(t, fs[..|fs| - 1], cwd, locked, fc, cc);
      SweepOnlyRemoves(t, fs[..|fs| - 1], cwd, locked, fc, cc);
      SweepStepShrinks(before, fs[|fs| - 1], cwd, locked, fc, cc);
    }
  }

  /** A row the sweep is not given survives it. */
  lemma {:induction false} SweepSparesOthers(t: Tables, fs: seq<UploadedFile>, cwd: string, locked: set<string>,
                                             fc: nat, cc: nat, k: int)
    requires TablesValid(t, fc, cc)
    requires k in t.files && forall i :: 0 <= i < |fs| ==> fs[i].id != k
    ensures var r := SweepFold(t, fs, cwd, locked, fc, cc);
            k in r.files && r.files[k] == t.files[k]
    decreases |fs|
  {
    if fs != [] {
      SweepSparesOthers(t, fs[..|fs| - 1], cwd, locked, fc, cc, k);
    }
  }

  /** A conversion with an owner is never deleted by the sweep. */
  lemma {:induction false} SweepKeepsOwnedConversions(t: Tables, fs: seq<UploadedFile>, cwd: string, locked: set<string>,
                                                      fc: nat, cc: nat, k: int)
    requires TablesValid(t, fc, cc)
    requires k in t.conversions && t.conversions[k].userId.Some?
    ensures var r := SweepFold(t, fs, cwd, locked, fc, cc);
            k in r.conversions && r.conversions[k] == t.conversions[k]
    decreases |fs|
  {
    if fs != [] {
      SweepKeepsOwnedConversions(t, fs[..|fs| - 1], cwd, locked, fc, cc, k);
    }
  }

  /**
   * Rows with an owner, and rows uploaded at or after the cut-off, are never
   * swept. Guests' uploads are stored under owner 0, not a null owner, so the
   * sweep leaves them in place.
   */
  lemma SweepSparesOwnedAndRecent(t: Tables, fc: nat, cc: nat, oneDayAgo: int, cwd: string, locked: set<string>, k: int)
    requires TablesValid(t, fc, cc)
    requires k in t.files && (t.files[k].userId.Some? || t.files[k].uploadDate >= oneDayAgo)
    ensures var r := SweepFold(t, ExpiredFiles(t.files, fc, oneDayAgo), cwd, locked, fc, cc);
            k in r.files && r.files[k] == t.files[k]
  {
    var fs := ExpiredFiles(t.files, fc, oneDayAgo);
    forall i | 0 <= i < |fs|
      ensures fs[i].id != k
    {
      assert fs[i] in fs;
    }
    SweepSparesOthers(t, fs, cwd, locked, fc, cc, k);
  }

  /** No conversion's audio, joined to `cwd`, names path `p`. */
  ghost predicate NotAudioPath(conversions: map<int, Conversion>, cwd: string, p: string) {
    forall c :: c in conversions.Values && c.audioFilePath.Some? ==> JoinPath(cwd, c.audioFilePath.value) != p
  }

  /** A path no conversion's audio names is never among the audio targets. */
  lemma {:induction false} AudioTargetsAvoid(cs: seq<Conversion>, fileId: int, cwd: string, p: string)
    requires forall i :: 0 <= i < |cs| && cs[i].audioFilePath.Some? ==> JoinPath(cwd, cs[i].audioFilePath.value) != p
    ensures p !in AudioTargets(cs, fileId, cwd)
    decreases |cs|
  {
    if cs != [] {
      AudioTargetsAvoid(cs[..|cs| - 1], fileId, cwd, p);
    }
  }

  /**
   * A path on disk that no swept file and no conversion's audio names is still
   * on disk after the sweep.
   */
  lemma {:induction false} SweepKeepsPath(t: Tables, fs: seq<UploadedFile>, cwd: string, locked: set<string>,
                                          fc: nat, cc: nat, p: string)
    requires TablesValid(t, fc, cc)
    requires p in t.disk && NotAudioPath(t.conversions, cwd, p)
    requires forall j :: 0 <= j < |fs| ==> fs[j].filePath != p
    ensures p in SweepFold(t, fs, cwd, locked, fc, cc).disk
    decreases |fs|
  {
    if fs != [] {
      var init := fs[..|fs| - 1];
      var before := SweepFold(t, init, cwd, locked, fc, cc);
      SweepKeepsPath(t, init, cwd, locked, fc, cc, p);
      SweepOnlyRemoves(t, init, cwd, locked, fc, cc);
      var owned := ConversionsOwnedBy(before.conversions, cc, Routes.GuestUserId);
      forall i | 0 <= i < |owned| && owned[i].audioFilePath.Some?
        ensures JoinPath(cwd, owned[i].audioFilePath.value) != p
      {
        var c := owned[i];
        assert c in owned;
        var k :| k in before.conversions && before.conversions[k] == c;
        assert t.conversions[k] == c;
      }
      AudioTargetsAvoid(owned, fs[|fs| - 1].id, cwd, p);
    }
  }

  /**
   * File `fs[i]`, whose path is on disk, removable, named by no other swept
   * file and by no conversion's audio, is gone after the sweep: its row, its
   * path, and every null-owned conversion made from it.
   */
  lemma {:induction false} SweepRemoves(t: Tables, fs: seq<UploadedFile>, cwd: string, locked: set<string>,
                                        fc: nat, cc: nat, i: nat)
    requires TablesValid(t, fc, cc) && i < |fs|
    requires fs[i].filePath in t.disk && fs[i].filePath !in locked
    requires NotAudioPath(t.conversions, cwd, fs[i].filePath)
    requires forall j :: 0 <= j < |fs| && j != i ==> fs[j].filePath != fs[i].filePath
    ensures var r := SweepFold(t, fs, cwd, locked, fc, cc);
            && fs[i].id !in r.files
            && fs[i].filePath !in r.disk
            && forall k :: k in r.conversions ==>
                 !(r.conversions[k].userId.None? && r.conversions[k].sourceFileId == Some(fs[i].id))
    decreases |fs|
  {
    var init := fs[..|fs| - 1];
    var before := SweepFold(t, init, cwd, locked, fc, cc);
    if i == |fs| - 1 {
      SweepKeepsPath(t, init, cwd, locked, fc, cc, fs[i].filePath);
    } else {
      SweepRemoves(t, init, cwd, locked, fc, cc, i);
      SweepStepShrinks(before, fs[|fs| - 1], cwd, locked, fc, cc);
    }
  }

  /**
   * A selected file (null owner, uploaded before the cut-off) is removed by the
   * sweep, with its bytes and the null-owned conversions made from it, when its
   * path is on disk and removable and names neither another selected file nor
   * any conversion's audio.
   */
  lemma SweepRemovesExpired(t: Tables, fc: nat, cc: nat, oneDayAgo: int, cwd: string, locked: set<string>, k: int)
    requires TablesValid(t, fc, cc)
    requires k in t.files && Expired(t.files[k], oneDayAgo)
    requires t.files[k].filePath in t.disk && t.files[k].filePath !in locked
    requires NotAudioPath(t.conversions, cwd, t.files[k].filePath)
    requires forall g :: g in t.files.Values && Expired(g, oneDayAgo) && g.id != k ==> g.filePath != t.files[k].filePath
    ensures var r := SweepFold(t, ExpiredFiles(t.files, fc, oneDayAgo), cwd, locked, fc, cc);
            && k !in r.files
            && t.files[k].filePath !in r.disk
            && forall j :: j in r.conversions ==>
                 !(r.conversions[j].userId.None? && r.conversions[j].sourceFileId == Some(k))
  {
    var fs := ExpiredFiles(t.files, fc, oneDayAgo);
    var f := t.files[k];
    assert f in t.files.Values;
    var i :| 0 <= i < |fs| && fs[i] == f;
    forall j | 0 <= j < |fs| && j != i
      ensures fs[j].filePath != f.filePath
    {
      assert fs[j] in fs;
      assert fs[j].id != k;
    }
    SweepRemoves(t, fs, cwd, locked, fc, cc, i);
  }

  /**
   * The audio loop removes `cwd` joined with the stored URL, `/api/audio/...`,
   * while synthesis wrote the file under `/uploads/audio/...`: the two paths
   * always differ.
   */
  lemma AudioUnlinkMissesAudioFile(cwd: string, name: string)
    ensures JoinPath(cwd, Routes.AudioUrl(name)) != Routes.AudioPath(cwd, name)
  {
    var swept := JoinPath(cwd, Routes.AudioUrl(name));
    var written := Routes.AudioPath(cwd, name);
    assert swept[|cwd| + 1] == 'a';
    assert written[|cwd| + 1] == 'u';
  }

  /** What the sweep reads and changes, now. */
  function Snapshot(store: MemStorage, disk: Disk): Tables
    reads store, disk
  {
    Tables(store.uploadedFiles, store.conversions, disk.files)
  }

  /** The inner loop: try to remove the audio of each conversion made from `fileId`, ignoring failures. */
  method RemoveAudio(disk: Disk, conversions: seq<Conversion>, fileId: int, cwd: string)
    modifies disk
    ensures disk.files == old(disk.files) - (AudioTargets(conversions, fileId, cwd) - disk.locked)
  {
    var j := 0;
    while j < |conversions|
      invariant 0 <= j <= |conversions|
      invariant disk.files == old(disk.files) - (AudioTargets(conversions[..j], fileId, cwd) - disk.locked)
    {
      var c := conversions[j];
      ghost var done := AudioTargets(conversions[..j], fileId, cwd);
      assert conversions[..j + 1][..j] == conversions[..j];
      if AudioTarget(c, fileId) {
        var path := JoinPath(cwd, c.audioFilePath.value);
        assert AudioTargets(conversions[..j + 1], fileId, cwd) == done + {path};
        var _ := disk.Unlink(path);
        assert disk.files == old(disk.files) - ((done + {path}) - disk.locked);
      } else {
        assert AudioTargets(conversions[..j + 1], fileId, cwd) == done;
      }
      j := j + 1;
    }
    assert conversions[..j] == conversions;
  }

  /** Dropping conversions keeps the store well keyed. */
  lemma KeptConversionsKeyed(m: map<int, Conversion>, n: nat, fileId: int)
    requires WellKeyed(m, n, ConversionId)
    ensures WellKeyed(KeptConversions(m, fileId), n, ConversionId)
  {
  }

  /** The body of the loop of `cleanupGuestFiles`, for one selected file. */
  method SweepFile(store: MemStorage, disk: Disk, f: UploadedFile, cwd: string)
    requires store.Valid()
    modifies store, disk
    ensures store.Valid()
    ensures store.users == old(store.users) && store.presets == old(store.presets)
    ensures store.userIdCounter == old(store.userIdCounter) && store.fileIdCounter == old(store.fileIdCounter)
    ensures store.conversionIdCounter == old(store.conversionIdCounter)
    ensures store.presetIdCounter == old(store.presetIdCounter)
    ensures Snapshot(store, disk) ==
            SweepStep(old(Snapshot(store, disk)), f, cwd, disk.locked, store.conversionIdCounter)
  {
    var removed := disk.Unlink(f.filePath);
    if !removed {
      return;
    }
    var conversions := store.GetConversionsByUser(Routes.GuestUserId);
    RemoveAudio(disk, conversions, f.id, cwd);
    KeptConversionsKeyed(store.conversions, store.conversionIdCounter, f.id);
    store.conversions := KeptConversions(store.conversions, f.id);
    store.DeleteUploadedFile(f.id);
  }

  /**
   * `cleanupGuestFiles`, with `oneDayAgo` the cut-off time: the selection is
   * taken once, then each selected file is swept in turn.
   */
  method CleanupGuestFiles(store: MemStorage, disk: Disk, cwd: string, oneDayAgo: int)
    requires store.Valid()
    modifies store, disk
    ensures store.Valid()
    ensures store.users == old(store.users) && store.presets == old(store.presets)
    ensures store.userIdCounter == old(store.userIdCounter) && store.fileIdCounter == old(store.fileIdCounter)
    ensures store.conversionIdCounter == old(store.conversionIdCounter)
    ensures store.presetIdCounter == old(store.presetIdCounter)
    ensures Snapshot(store, disk) ==
            SweepFold(old(Snapshot(store, disk)),
                      old(ExpiredFiles(store.uploadedFiles, store.fileIdCounter, oneDayAgo)),
                      cwd, disk.locked, store.fileIdCounter, store.conversionIdCounter)
  {
    var guestFiles := ExpiredFiles(store.uploadedFiles, store.fileIdCounter, oneDayAgo);
    ghost var start := Snapshot(store, disk);
    ghost var fc, cc := store.fileIdCounter, store.conversionIdCounter;
    var i := 0;
    while i < |guestFiles|
      invariant 0 <= i <= |guestFiles|
      invariant store.Valid()
      invariant store.users == old(store.users) && store.presets == old(store.presets)
      invariant store.userIdCounter == old(store.userIdCounter) && store.fileIdCounter == fc
      invariant store.conversionIdCounter == cc && store.presetIdCounter == old(store.presetIdCounter)
      invariant TablesValid(start, fc, cc)
      invariant Snapshot(store, disk) == SweepFold(start, guestFiles[..i], cwd, disk.locked, fc, cc)
    {
      ghost var before := Snapshot(store, disk);
      SweepFile(store, disk, guestFiles[i], cwd);
      SweepFoldExtend(start, guestFiles, i, cwd, disk.locked, fc, cc, before, Snapshot(store, disk));
      i := i + 1;
    }
    assert guestFiles[..i] == guestFiles;
  }
}
