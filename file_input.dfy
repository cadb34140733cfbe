/**
 * The upload card of the conversion page: the recent-files list under the file
 * type tabs, the icon on each file's card, and the preview of the extracted text.
 */
module FileInput {
  import opened Wrappers
  import opened Schema
  import opened JsLib
  import ClientUtils
  import Handlers

  type FileSummary = Handlers.FileSummary

  /** The tab values, "all" first and then one per file type. */
  const Tabs: seq<string> := ["all", "pdf", "docx", "img", "txt"]
  const InitialTab: string := "all"
  const RecentLimit: nat := 6
  const PreviewLength: nat := 500

  /** Whether a file's card appears under `tab`. */
  predicate ShownOnTab(f: FileSummary, tab: string) {
    tab == "all" || ToLower(f.fileType) == tab
  }

  /** The files that pass the tab's filter, in the order the server listed them. */
  function OnTab(files: seq<FileSummary>, tab: string): (r: seq<FileSummary>)
    ensures forall i :: 0 <= i < |r| ==> r[i] in files && ShownOnTab(r[i], tab)
    ensures forall i :: 0 <= i < |files| && ShownOnTab(files[i], tab) ==> files[i] in r
  {
    var r := Filter(files, (f: FileSummary) => ShownOnTab(f, tab));
    FilterMembers(files, (f: FileSummary) => ShownOnTab(f, tab));
    r
  }

  /**
   * The filter keeps the server's order: a file between two stretches of the
   * list shows between what those stretches show, or not at all.
   */
  lemma OnTabKeepsOrder(before: seq<FileSummary>, f: FileSummary, after: seq<FileSummary>, tab: string)
    ensures OnTab(before + [f] + after, tab) ==
            OnTab(before, tab) + (if ShownOnTab(f, tab) then [f] else []) + OnTab(after, tab)
  {
    FilterAround(before, f, after, (g: FileSummary) => ShownOnTab(g, tab));
  }

  /** The recent files shown under `tab`: at most six, the first ones that pass the filter. */
  function RecentFiles(files: seq<FileSummary>, tab: string): (r: seq<FileSummary>)
    ensures |r| == if |OnTab(files, tab)| <= RecentLimit then |OnTab(files, tab)| else RecentLimit
    ensures r == OnTab(files, tab)[..|r|]
    ensures forall i :: 0 <= i < |r| ==> r[i] in files && ShownOnTab(r[i], tab)
  {
    Take(OnTab(files, tab), RecentLimit)
  }

  /** Under "all" the list is simply the first six files. */
  lemma AllTabShowsFirstFiles(files: seq<FileSummary>)
    ensures RecentFiles(files, "all") == Take(files, RecentLimit)
  {
    FilterKeepingAll(files, (f: FileSummary) => ShownOnTab(f, "all"));
  }

  /**
   * Every stored file-type tag lower-cases to the value of one tab, and the
   * four tags reach four different tabs.
   */
  lemma EveryStoredTagHasATab(tag: string)
    requires tag in FileTypes
    ensures ToLower(tag) in Tabs[1..]
    ensures forall other :: other in FileTypes && ToLower(other) == ToLower(tag) ==> other == tag
  {
    FileTypesAreTheFourTags();
    assert ToLower("PDF") == "pdf";
    assert ToLower("DOCX") == "docx";
    assert ToLower("IMG") == "img";
    assert ToLower("TXT") == "txt";
  }

  /** A stored file is shown under its own tab and under no other type tab. */
  lemma StoredFileOnOneTypeTab(f: FileSummary, tab: string)
    requires f.fileType in FileTypes && tab in Tabs[1..]
    ensures ShownOnTab(f, tab) <==> tab == ToLower(f.fileType)
  {
  }

  /** The icon on a file's card, chosen by the exact tag. */
  function CardIcon(fileType: string): string {
    "fa-file-" + (if fileType == "PDF" then "pdf"
                  else if fileType == "DOCX" then "word"
                  else if fileType == "IMG" then "image"
                  else "alt")
  }

  /** On the four stored tags the card icon is the one `getFileTypeIcon` gives. */
  lemma CardIconMatchesFileTypeIcon(tag: string)
    requires tag in FileTypes
    ensures CardIcon(tag) == ClientUtils.FileTypeIcon(tag)
  {
    FileTypesAreTheFourTags();
    assert ToUpper("PDF") == "PDF";
    assert ToUpper("DOCX") == "DOCX";
    assert ToUpper("IMG") == "IMG";
    assert ToUpper("TXT") == "TXT";
  }

  /**
   * The preview of the extracted text: nothing for an empty text; the first 500
   * characters followed by "..." for a longer one; otherwise the text itself.
   */
  function Preview(extractedText: string): (r: Option<string>)
    ensures r.None? <==> extractedText == []
    ensures r.Some? && |extractedText| <= PreviewLength ==> r.value == extractedText
    ensures r.Some? && |extractedText| > PreviewLength ==>
              |r.value| == PreviewLength + 3
              && r.value[..PreviewLength] == extractedText[..PreviewLength]
              && EndsWith(r.value, "...")
  {
    if extractedText == [] then None else Some(Ellipsize(extractedText, PreviewLength))
  }
}
