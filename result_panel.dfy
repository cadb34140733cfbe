/**
 * The result panel: the name offered for downloading the audio, derived from
 * the first words of the converted text, and the text shown as paragraphs.
 */
module ResultPanel {
  import opened Wrappers
  import opened JsLib

  // ---------------------------------------------------------------------------
  // The download name
  // ---------------------------------------------------------------------------

  const InitialFileName: string := "audio-output.mp3"
  const AudioExtension: string := ".mp3"

  /** The characters the pattern `/[^a-zA-Z0-9-]/g` leaves in place. */
  predicate IsNameChar(c: char) {
    ('a' <= c <= 'z') || ('A' <= c <= 'Z') || ('0' <= c <= '9') || c == '-'
  }

  /** The characters a lower-cased name can hold. */
  predicate IsLowerNameChar(c: char) {
    ('a' <= c <= 'z') || ('0' <= c <= '9') || c == '-'
  }

  /**
   * The first three space-separated words joined by '-', with every character
   * outside `[a-zA-Z0-9-]` removed, lower-cased, plus ".mp3".
   */
  function DownloadName(text: string): (r: string)
    ensures EndsWith(r, AudioExtension)
    ensures forall k :: 0 <= k < |r| - |AudioExtension| ==> IsLowerNameChar(r[k])
  {
    var words := JoinWith(Take(SplitOn(text, ' '), 3), '-');
    var kept := Filter(words, IsNameChar);
    var stem := ToLower(kept);
    assert forall k :: 0 <= k < |stem| ==> IsLowerNameChar(stem[k]) by {
      forall k | 0 <= k < |stem| ensures IsLowerNameChar(stem[k]) {
        assert IsNameChar(kept[k]);
      }
    }
    var r := stem + AudioExtension;
    assert r[|r| - |AudioExtension|..] == AudioExtension;
    assert forall k :: 0 <= k < |r| - |AudioExtension| ==> r[k] == stem[k];
    r
  }

  /** Words after the third one do not change the name. */
  lemma DownloadNameIgnoresLaterWords(text: string, more: string)
    requires |SplitOn(text, ' ')| >= 3
    ensures DownloadName(text + " " + more) == DownloadName(text)
  {
    SplitAround(text, more, ' ');
    assert text + " " + more == text + [' '] + more;
    var a := SplitOn(text, ' ');
    var b := SplitOn(more, ' ');
    assert Take(a + b, 3) == (a + b)[..3] == a[..3] == Take(a, 3);
  }

  /**
   * The effect run when a new conversion result arrives: a result whose text
   * is non-empty renames the download; no result, or an empty text, keeps the
   * current name.
   */
  function NameAfterResult(current: string, resultText: Option<string>): (r: string)
    ensures resultText.Some? && resultText.value != [] ==> r == DownloadName(resultText.value)
    ensures resultText.None? || resultText.value == [] ==> r == current
  {
    if resultText.Some? && resultText.value != [] then DownloadName(resultText.value) else current
  }

  /** The name after a run of results, starting from the initial one. */
  function NameAfterResults(results: seq<Option<string>>): string
    decreases |results|
  {
    if results == [] then InitialFileName
    else NameAfterResult(NameAfterResults(results[..|results| - 1]), results[|results| - 1])
  }

  predicate HasText(result: Option<string>) {
    result.Some? && result.value != []
  }

  /** Result `i` has text and no later result has. */
  predicate IsLatestText(results: seq<Option<string>>, i: int) {
    && 0 <= i < |results|
    && HasText(results[i])
    && forall j :: i < j < |results| ==> !HasText(results[j])
  }

  /**
   * The name is the initial one until a result with text arrives; from then
   * on it is the name derived from the latest result with text.
   */
  lemma {:induction false} NameFollowsLatestText(results: seq<Option<string>>)
    ensures (forall i :: 0 <= i < |results| ==> !HasText(results[i])) ==>
            NameAfterResults(results) == InitialFileName
    ensures forall i :: IsLatestText(results, i) ==>
            NameAfterResults(results) == DownloadName(results[i].value)
    decreases |results|
  {
    if results != [] {
      var init := results[..|results| - 1];
      NameFollowsLatestText(init);
      forall i | IsLatestText(results, i)
        ensures NameAfterResults(results) == DownloadName(results[i].value)
      {
        if i < |results| - 1 {
          assert init[i] == results[i];
          assert forall j :: i < j < |init| ==> init[j] == results[j];
          assert IsLatestText(init, i);
        }
      }
      if forall i :: 0 <= i < |results| ==> !HasText(results[i]) {
        assert forall i :: 0 <= i < |init| ==> init[i] == results[i];
      }
    }
  }

  /** Whatever the results, the offered name is a ".mp3" name. */
  lemma {:induction false} NameAlwaysAudio(results: seq<Option<string>>)
    ensures EndsWith(NameAfterResults(results), AudioExtension)
    decreases |results|
  {
    if results == [] {
      assert InitialFileName[|InitialFileName| - 4..] == AudioExtension;
    } else {
      NameAlwaysAudio(results[..|results| - 1]);
    }
  }

  // ---------------------------------------------------------------------------
  // The text pane
  // ---------------------------------------------------------------------------

  /**
   * What the text pane shows: the extracted text when it is non-empty, else the
   * converted text when there is a result; `None` is the placeholder.
   */
  function ShownText(extractedText: string, resultText: Option<string>): (r: Option<string>)
    ensures r.None? <==> extractedText == [] && resultText.None?
    ensures extractedText != [] ==> r == Some(extractedText)
    ensures extractedText == [] && resultText.Some? ==> r == resultText
  {
    if extractedText != [] then Some(extractedText)
    else if resultText.Some? then resultText
    else None
  }

  /** The paragraphs the pane renders: the text split at every newline. */
  function Paragraphs(text: string): (r: seq<string>)
    ensures |r| >= 1
    ensures forall k :: 0 <= k < |r| ==> '\n' !in r[k]
  {
    SplitPiecesLackSeparator(text, '\n');
    SplitOn(text, '\n')
  }

  /** The paragraphs joined with newlines give back the shown text. */
  lemma ParagraphsRejoin(text: string)
    ensures JoinWith(Paragraphs(text), '\n') == text
  {
    JoinSplit(text, '\n');
  }
}
