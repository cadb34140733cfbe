/**
 * The browser's formatting and validation helpers: the `MM:SS` duration, the
 * "N units ago" bucket, the icon of a stored file-type tag, the MIME check
 * before an upload, and the word count of a text.
 */
module ClientUtils {
  import opened Wrappers
  import opened Schema
  import opened JsLib
  import Routes

  // ---------------------------------------------------------------------------
  // formatFileSize
  // ---------------------------------------------------------------------------

  /**
   * `formatFileSize(bytes)`. Only the zero case is exact; `scaled` stands for
   * the floating-point text (`value unit`) built for any other size.
   */
  function FormatFileSize(bytes: nat, scaled: string): (r: string)
    ensures bytes == 0 ==> r == "0 Bytes"
    ensures bytes != 0 ==> r == scaled
  {
    if bytes == 0 then "0 Bytes" else scaled
  }

  // ---------------------------------------------------------------------------
  // formatDuration
  // ---------------------------------------------------------------------------

  /** JavaScript's `a % b` for a positive divisor: the sign follows the dividend. */
  function TruncRem(a: int, b: int): (r: int)
    requires b > 0
    ensures a >= 0 ==> 0 <= r < b && r == a % b
    ensures a < 0 ==> -b < r <= 0
  {
    if a >= 0 then a % b else -((-a) % b)
  }

  /** `Math.floor(ms / 1000)`: whole seconds, rounded down. */
  function WholeSeconds(ms: real): (r: int)
    ensures (r * 1000) as real <= ms < ((r + 1) * 1000) as real
  {
    (ms / 1000.0).Floor
  }

  /** `formatDuration(ms)`: minutes and seconds, each padded with '0' to two characters. */
  function FormatDuration(ms: real): string {
    var total := WholeSeconds(ms);
    var minutes := total / 60;
    var seconds := TruncRem(total, 60);
    PadStart(IntToString(minutes), 2, '0') + ":" + PadStart(IntToString(seconds), 2, '0')
  }

  /** `k` zero digits. */
  function Zeros(k: nat): (r: string)
    ensures |r| == k && forall i :: 0 <= i < k ==> r[i] == '0'
  {
    if k == 0 then "" else "0" + Zeros(k - 1)
  }

  /** Padding with zeros does not change the value of a digit string. */
  lemma {:induction false} ZeroPaddingKeepsValue(k: nat, s: string)
    ensures DigitsValue(Zeros(k) + s) == DigitsValue(s)
    decreases k
  {
    if k > 0 {
      assert Zeros(k) + s == "0" + (Zeros(k - 1) + s);
      ZeroPaddingKeepsValue(k - 1, s);
      DigitsValueLeadingZero(Zeros(k - 1) + s);
    } else {
      assert Zeros(k) + s == s;
    }
  }

  /** A padded natural number is all digits, has the number's value, and no colon. */
  lemma PaddedNumber(n: nat)
    ensures var p := PadStart(NatToString(n), 2, '0');
      && |p| >= 2
      && (forall k :: 0 <= k < |p| ==> IsDigit(p[k]))
      && ':' !in p
      && DigitsValue(p) == n
  {
    var s := NatToString(n);
    var p := PadStart(s, 2, '0');
    DigitsValueOfNatToString(n);
    if |s| < 2 {
      assert p == Zeros(2 - |s|) + s;
      ZeroPaddingKeepsValue(2 - |s|, s);
    }
    assert forall k :: 0 <= k < |p| ==> IsDigit(p[k]);
  }

  /**
   * For a non-negative duration the text is two colon-separated digit groups:
   * the seconds group has exactly two digits and is below 60, and reading the
   * groups back as minutes and seconds gives the whole seconds of `ms`.
   */
  lemma FormatDurationReadsBack(ms: real)
    requires ms >= 0.0
    ensures var parts := SplitOn(FormatDuration(ms), ':');
      && |parts| == 2
      && |parts[0]| >= 2 && |parts[1]| == 2
      && (forall k :: 0 <= k < |parts[1]| ==> IsDigit(parts[1][k]))
      && DigitsValue(parts[1]) < 60
      && (DigitsValue(parts[0]) * 60 + DigitsValue(parts[1])) * 1000 <= ms.Floor
      && ms < ((DigitsValue(parts[0]) * 60 + DigitsValue(parts[1]) + 1) * 1000) as real
  {
    var total := WholeSeconds(ms);
    assert total >= 0;
    var minutes := total / 60;
    var seconds := TruncRem(total, 60);
    assert seconds == total % 60;
    var a := PadStart(IntToString(minutes), 2, '0');
    var b := PadStart(IntToString(seconds), 2, '0');
    PaddedNumber(minutes);
    PaddedNumber(seconds);
    assert FormatDuration(ms) == a + [':'] + b;
    SplitAround(a, b, ':');
    SplitOfSeparatorFree(a, ':');
    SplitOfSeparatorFree(b, ':');
    assert |NatToString(seconds)| <= 2 by {
      if seconds >= 10 {
        assert NatToString(seconds) == NatToString(seconds / 10) + [DigitChar(seconds % 10)];
      }
    }
    assert minutes * 60 + seconds == total;
  }

  // ---------------------------------------------------------------------------
  // formatRelativeTime
  // ---------------------------------------------------------------------------

  /** `Math.floor((now - date) / 1000)` on millisecond timestamps. */
  function ElapsedSeconds(nowMs: int, dateMs: int): (r: int)
    ensures r * 1000 <= nowMs - dateMs < (r + 1) * 1000
  {
    (nowMs - dateMs) / 1000
  }

  /** Which phrase `formatRelativeTime` uses, with its count. */
  datatype Elapsed =
    | SecondsAgo(count: int)
    | MinutesAgo(count: int)
    | HoursAgo(count: int)
    | DaysAgo(count: int)
    | CalendarDate

  /**
   * The bucket for a timestamp: a week or more falls back to the calendar date;
   * otherwise the largest unit of which at least one whole one has passed, the
   * count being the whole units passed. A date in the future counts as seconds.
   */
  function RelativeBucket(nowMs: int, dateMs: int): (r: Elapsed)
    ensures var d := ElapsedSeconds(nowMs, dateMs);
      && (r.SecondsAgo? <==> d < 60)
      && (r.MinutesAgo? <==> 60 <= d < 3600)
      && (r.HoursAgo? <==> 3600 <= d < 86400)
      && (r.DaysAgo? <==> 86400 <= d < 604800)
      && (r.CalendarDate? <==> 604800 <= d)
    ensures var d := ElapsedSeconds(nowMs, dateMs);
      && (r.SecondsAgo? ==> r.count == d)
      && (r.MinutesAgo? ==> 1 <= r.count < 60 && r.count * 60 <= d < (r.count + 1) * 60)
      && (r.HoursAgo? ==> 1 <= r.count < 24 && r.count * 3600 <= d < (r.count + 1) * 3600)
      && (r.DaysAgo? ==> 1 <= r.count < 7 && r.count * 86400 <= d < (r.count + 1) * 86400)
  {
    var d := ElapsedSeconds(nowMs, dateMs);
    if d < 60 then SecondsAgo(d)
    else if d < 3600 then MinutesAgo(d / 60)
    else if d < 86400 then HoursAgo(d / 3600)
    else if d < 604800 then DaysAgo(d / 86400)
    else CalendarDate
  }

  /** The phrase of a bucket; `localeDate` stands for `date.toLocaleDateString()`. */
  function ElapsedText(e: Elapsed, localeDate: string): string {
    match e
    case SecondsAgo(n) => IntToString(n) + " seconds ago"
    case MinutesAgo(n) => IntToString(n) + " minutes ago"
    case HoursAgo(n) => IntToString(n) + " hours ago"
    case DaysAgo(n) => IntToString(n) + " days ago"
    case CalendarDate => localeDate
  }

  /** `formatRelativeTime(date)` at time `nowMs`. */
  function FormatRelativeTime(nowMs: int, dateMs: int, localeDate: string): string {
    ElapsedText(RelativeBucket(nowMs, dateMs), localeDate)
  }

  /** Within a week, the phrase starts with the count, which `parseInt` reads back. */
  lemma RelativeTimeReadsBack(nowMs: int, dateMs: int, localeDate: string)
    requires !RelativeBucket(nowMs, dateMs).CalendarDate?
    ensures ParseInt(FormatRelativeTime(nowMs, dateMs, localeDate)) ==
            Some(RelativeBucket(nowMs, dateMs).count)
  {
    var e := RelativeBucket(nowMs, dateMs);
    var unit :=
      match e
      case SecondsAgo(_) => " seconds ago"
      case MinutesAgo(_) => " minutes ago"
      case HoursAgo(_) => " hours ago"
      case DaysAgo(_) => " days ago";
    assert FormatRelativeTime(nowMs, dateMs, localeDate) == IntToString(e.count) + unit;
    ParseIntOfIntToString(e.count, unit);
  }

  /** Later "now" never moves a timestamp to a finer bucket. */
  lemma RelativeBucketCoarsens(nowMs: int, laterMs: int, dateMs: int)
    requires nowMs <= laterMs
    ensures var a := RelativeBucket(nowMs, dateMs);
            var b := RelativeBucket(laterMs, dateMs);
      && (a.MinutesAgo? ==> !b.SecondsAgo?)
      && (a.HoursAgo? ==> b.HoursAgo? || b.DaysAgo? || b.CalendarDate?)
      && (a.DaysAgo? ==> b.DaysAgo? || b.CalendarDate?)
      && (a.CalendarDate? ==> b.CalendarDate?)
  {
    assert ElapsedSeconds(nowMs, dateMs) <= ElapsedSeconds(laterMs, dateMs);
  }

  // ---------------------------------------------------------------------------
  // getFileTypeIcon
  // ---------------------------------------------------------------------------

  const GenericFileIcon: string := "fa-file"

  /** The icon class of a stored file-type tag, compared after upper-casing. */
  function FileTypeIcon(fileType: string): string {
    var t := ToUpper(fileType);
    if t == "PDF" then "fa-file-pdf"
    else if t == "DOCX" then "fa-file-word"
    else if t == "IMG" then "fa-file-image"
    else if t == "TXT" then "fa-file-alt"
    else GenericFileIcon
  }

  /** A specific icon is given exactly to the spellings of the four tags. */
  lemma FileTypeIconRecognisesTags(fileType: string)
    ensures FileTypeIcon(fileType) != GenericFileIcon <==> ToUpper(fileType) in FileTypes
  {
  }

  /** Letter case does not matter. */
  lemma FileTypeIconIgnoresCase(fileType: string)
    ensures FileTypeIcon(ToLower(fileType)) == FileTypeIcon(fileType)
    ensures FileTypeIcon(ToUpper(fileType)) == FileTypeIcon(fileType)
  {
    UpperOfLower(fileType);
    assert ToUpper(ToUpper(fileType)) == ToUpper(fileType);
  }

  /** The four tags get four different icons, none of them the generic one. */
  lemma FileTypeIconSeparatesTags(a: string, b: string)
    requires a in FileTypes && b in FileTypes
    ensures FileTypeIcon(a) != GenericFileIcon
    ensures FileTypeIcon(a) == FileTypeIcon(b) ==> a == b
  {
    FileTypesAreTheFourTags();
    assert ToUpper("PDF") == "PDF";
    assert ToUpper("DOCX") == "DOCX";
    assert ToUpper("IMG") == "IMG";
    assert ToUpper("TXT") == "TXT";
  }

  // ---------------------------------------------------------------------------
  // isValidFileType
  // ---------------------------------------------------------------------------

  const ValidTypes: seq<string> := [
    "application/pdf",
    "application/vnd." + "openxmlformats-" + "officedocument." + "wordprocessingml.document",
    "image/jpeg",
    "image/png",
    "text/plain"
  ]

  /** `isValidFileType(file)` on the file's MIME type. */
  function IsValidFileType(mime: string): bool {
    mime in ValidTypes
  }

  /**
   * The browser accepts exactly the MIME types the server's upload filter
   * accepts, so a file of the right size that passes here is admitted there.
   */
  lemma ClientAndServerAgreeOnTypes(mime: string, size: nat, path: string, name: string)
    ensures IsValidFileType(mime) <==> mime in Routes.AllowedMimes
    ensures IsValidFileType(mime) && size <= Routes.MaxUploadBytes <==>
            Routes.AdmitUpload(Routes.Incoming(mime, size, path, name)).None?
  {
    assert ValidTypes == Routes.AllowedMimes;
  }

  // ---------------------------------------------------------------------------
  // countWords
  // ---------------------------------------------------------------------------

  /** `text.trim().split(/\s+/).filter(Boolean).length` */
  function CountWords(text: string): nat {
    |NonEmpty(SplitOnSpaceRuns(Trim(text)))|
  }

  /**
   * The number of places where a word starts: a non-space character that is
   * first, with `afterSpace` set, or follows a space.
   */
  function WordStarts(s: string, afterSpace: bool): nat
    decreases |s|
  {
    if s == [] then 0
    else if IsJsSpace(s[0]) then WordStarts(s[1..], true)
    else (if afterSpace then 1 else 0) + WordStarts(s[1..], false)
  }

  /** The number of maximal runs of non-space characters. */
  function Words(s: string): nat {
    WordStarts(s, true)
  }

  /** Filtering the empty strings out of a list that starts with `x`. */
  lemma NonEmptyCons(x: string, rest: seq<string>)
    ensures |NonEmpty([x] + rest)| == (if x != [] then 1 else 0) + |NonEmpty(rest)|
  {
    assert ([x] + rest)[0] == x;
    assert ([x] + rest)[1..] == rest;
  }

  /**
   * `split(/\s+/)` leaves as many non-empty pieces as there are word starts;
   * the pieces after the first one account for the word starts after a space.
   */
  lemma {:induction false} SplitCountsWordStarts(u: string)
    ensures var p := SplitOnSpaceRuns(u);
      && (p[0] != [] <==> u != [] && !IsJsSpace(u[0]))
      && |NonEmpty(p[1..])| == WordStarts(u, false)
      && |NonEmpty(p)| == WordStarts(u, true)
    decreases |u|
  {
    var p := SplitOnSpaceRuns(u);
    if u == [] {
      assert p == [[]];
      assert p[1..] == [];
    } else if IsJsSpace(u[0]) {
      var t := TrimStart(u[1..]);
      SplitCountsWordStarts(t);
      LeadingSpacesStartNoWord(u[1..]);
      assert p == [[]] + SplitOnSpaceRuns(t);
      assert p[1..] == SplitOnSpaceRuns(t);
      NonEmptyCons([], p[1..]);
      assert p == [[]] + p[1..];
    } else {
      var q := SplitOnSpaceRuns(u[1..]);
      SplitCountsWordStarts(u[1..]);
      assert p == [[u[0]] + q[0]] + q[1..];
      assert p[1..] == q[1..];
      NonEmptyCons(p[0], p[1..]);
      assert p == [p[0]] + p[1..];
      NonEmptyCons(q[0], q[1..]);
      assert q == [q[0]] + q[1..];
    }
  }

  /** Leading white space does not start a word. */
  lemma {:induction false} LeadingSpacesStartNoWord(s: string)
    ensures WordStarts(TrimStart(s), true) == WordStarts(s, true)
    decreases |s|
  {
    if s != [] && IsJsSpace(s[0]) {
      LeadingSpacesStartNoWord(s[1..]);
    }
  }

  /** White space alone holds no word. */
  lemma {:induction false} SpacesHoldNoWord(s: string, afterSpace: bool)
    requires forall k :: 0 <= k < |s| ==> IsJsSpace(s[k])
    ensures WordStarts(s, afterSpace) == 0
    decreases |s|
  {
    if s != [] {
      SpacesHoldNoWord(s[1..], true);
    }
  }

  /** Trailing white space does not start a word. */
  lemma {:induction false} TrailingSpacesStartNoWord(s: string, t: string, afterSpace: bool)
    requires forall k :: 0 <= k < |t| ==> IsJsSpace(t[k])
    ensures WordStarts(s + t, afterSpace) == WordStarts(s, afterSpace)
    decreases |s|
  {
    if s == [] {
      assert s + t == t;
      SpacesHoldNoWord(t, afterSpace);
    } else {
      TrailingSpacesStartNoWord(s[1..], t, IsJsSpace(s[0]));
      assert (s + t)[0] == s[0];
      assert (s + t)[1..] == s[1..] + t;
    }
  }

  /** Trailing white space removed by `trimEnd` starts no word. */
  lemma TrimEndKeepsWords(a: string)
    ensures WordStarts(TrimEnd(a), true) == WordStarts(a, true)
  {
    var b := TrimEnd(a);
    assert a == b + a[|b|..];
    TrailingSpacesStartNoWord(b, a[|b|..], true);
  }

  /** `countWords` counts the maximal runs of non-space characters. */
  lemma CountWordsCountsRuns(text: string)
    ensures CountWords(text) == Words(text)
  {
    SplitCountsWordStarts(Trim(text));
    TrimEndKeepsWords(TrimStart(text));
    LeadingSpacesStartNoWord(text);
  }

  /** The count is zero exactly for a text of white space only, the empty one included. */
  lemma {:induction false} NoWordsIffBlank(s: string)
    ensures Words(s) == 0 <==> forall k :: 0 <= k < |s| ==> IsJsSpace(s[k])
    decreases |s|
  {
    if s != [] {
      if IsJsSpace(s[0]) {
        NoWordsIffBlank(s[1..]);
        assert WordStarts(s, true) == WordStarts(s[1..], true);
        assert (forall k :: 0 <= k < |s| ==> IsJsSpace(s[k])) <==>
               (forall k :: 0 <= k < |s[1..]| ==> IsJsSpace(s[1..][k]));
      }
    }
  }

  /** Two texts joined by a space have the words of both. */
  lemma {:induction false} WordsOfSpacedJoin(a: string, b: string, afterSpace: bool)
    ensures WordStarts(a + " " + b, afterSpace) == WordStarts(a, afterSpace) + WordStarts(b, true)
    decreases |a|
  {
    if a == [] {
      assert a + " " + b == " " + b;
      assert (" " + b)[1..] == b;
    } else {
      WordsOfSpacedJoin(a[1..], b, IsJsSpace(a[0]));
      assert (a + " " + b)[0] == a[0];
      assert (a + " " + b)[1..] == a[1..] + " " + b;
    }
  }

  /** `countWords` adds up over texts joined by a space. */
  lemma CountWordsAdds(a: string, b: string)
    ensures CountWords(a + " " + b) == CountWords(a) + CountWords(b)
  {
    CountWordsCountsRuns(a + " " + b);
    CountWordsCountsRuns(a);
    CountWordsCountsRuns(b);
    WordsOfSpacedJoin(a, b, true);
  }
}
