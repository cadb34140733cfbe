/**
 * The drop zone of the upload form: it keeps an error message and the selected
 * file, judges each drop (size first, then type) and hands an accepted file to
 * its owner. The owner's callback is modelled as the list of files handed over.
 */
module FileDropzone {
  import opened Wrappers
  import opened Schema
  import opened JsLib
  import ClientUtils
  import Routes

  /** A file as the browser describes it. */
  datatype DroppedFile = DroppedFile(name: string, mimeType: string, size: nat)

  /** The two refusals; the size one carries the limit its message names. */
  datatype DropError = TooLarge(maxSize: nat) | UnsupportedType

  /** The default `maxSize`: ten mebibytes. */
  const DefaultMaxSize: nat := 10 * 1024 * 1024

  /** "Unsupported file type. Please upload PDF, DOCX, JPG, PNG, or TXT." */
  const UnsupportedTypeMessage: string := "Unsupported file type. " + "Please upload PDF, DOCX, JPG, PNG, or TXT."

  const TooLargePrefix: string := "File is too large. Maximum size is "

  /**
   * The text shown for a refusal; `scaled` stands for the text `formatFileSize`
   * builds for a non-zero limit. The two refusals never read the same.
   */
  function ErrorMessage(e: DropError, scaled: string): (r: string)
    ensures e.TooLarge? ==>
              && |r| == |TooLargePrefix| + |ClientUtils.FormatFileSize(e.maxSize, scaled)| + 1
              && StartsWith(r, TooLargePrefix) && EndsWith(r, ".")
              && r[|TooLargePrefix|..|r| - 1] == ClientUtils.FormatFileSize(e.maxSize, scaled)
    ensures r == UnsupportedTypeMessage <==> e.UnsupportedType?
  {
    match e
    case TooLarge(limit) =>
      var r := TooLargePrefix + ClientUtils.FormatFileSize(limit, scaled) + ".";
      assert r[0] == 'F' && UnsupportedTypeMessage[0] == 'U';
      r
    case UnsupportedType => UnsupportedTypeMessage
  }

  /** What a drop comes to. */
  datatype DropOutcome = NothingDropped | Refused(reason: DropError) | Accepted(file: DroppedFile)

  /** Whether a file passes both checks. */
  predicate Acceptable(f: DroppedFile, maxSize: nat) {
    f.size <= maxSize && ClientUtils.IsValidFileType(f.mimeType)
  }

  /**
   * The decision `onDrop` takes: nothing for an empty drop; otherwise only the
   * first file counts, an oversized file is refused for its size whatever its
   * type, and a file within the limit is refused for an unsupported type.
   */
  function Judge(files: seq<DroppedFile>, maxSize: nat): (r: DropOutcome)
    ensures r.NothingDropped? <==> files == []
    ensures r.Accepted? <==> files != [] && Acceptable(files[0], maxSize)
    ensures r.Accepted? ==> r.file == files[0]
    ensures r == Refused(TooLarge(maxSize)) <==> files != [] && files[0].size > maxSize
    ensures r == Refused(UnsupportedType) <==>
              files != [] && files[0].size <= maxSize && !ClientUtils.IsValidFileType(files[0].mimeType)
  {
    if files == [] then NothingDropped
    else if files[0].size > maxSize then Refused(TooLarge(maxSize))
    else if !ClientUtils.IsValidFileType(files[0].mimeType) then Refused(UnsupportedType)
    else Accepted(files[0])
  }

  /** Files after the first one never change the decision. */
  lemma OnlyFirstFileCounts(f: DroppedFile, rest: seq<DroppedFile>, maxSize: nat)
    ensures Judge([f] + rest, maxSize) == Judge([f], maxSize)
  {
    assert ([f] + rest)[0] == f;
  }

  /**
   * With the default limit, the drop zone accepts a file exactly when the
   * server's upload filter and size limit would admit it.
   */
  lemma DefaultLimitMatchesServer(f: DroppedFile, path: string)
    ensures Judge([f], DefaultMaxSize).Accepted? <==>
            Routes.AdmitUpload(Routes.Incoming(f.mimeType, f.size, path, f.name)).None?
  {
    ClientUtils.ClientAndServerAgreeOnTypes(f.mimeType, f.size, path, f.name);
  }

  class Dropzone {
    const maxSize: nat
    var error: Option<DropError>
    var selectedFile: Option<DroppedFile>
    /** The files passed to `onFileAccepted`, oldest first. */
    var handedOver: seq<DroppedFile>

    /** Every file the zone has selected or handed over passed both checks. */
    predicate Valid()
      reads this
    {
      && (selectedFile.Some? ==> Acceptable(selectedFile.value, maxSize))
      && forall i :: 0 <= i < |handedOver| ==> Acceptable(handedOver[i], maxSize)
    }

    constructor(maxSize: nat)
      ensures this.maxSize == maxSize
      ensures error == None && selectedFile == None && handedOver == []
      ensures Valid()
    {
      this.maxSize := maxSize;
      error := None;
      selectedFile := None;
      handedOver := [];
    }

    /**
     * `onDrop(acceptedFiles)`: the error is cleared first; a refusal sets it and
     * changes nothing else; an accepted file becomes the selection and is handed
     * over exactly once.
     */
    method OnDrop(files: seq<DroppedFile>)
      requires Valid()
      modifies this
      ensures Valid()
      ensures var outcome := Judge(files, maxSize);
        && error == (if outcome.Refused? then Some(outcome.reason) else None)
        && selectedFile == (if outcome.Accepted? then Some(outcome.file) else old(selectedFile))
        && handedOver == old(handedOver) + (if outcome.Accepted? then [outcome.file] else [])
    {
      error := None;
      if |files| == 0 {
        return;
      }
      var file := files[0];
      if file.size > maxSize {
        error := Some(TooLarge(maxSize));
        return;
      }
      if !ClientUtils.IsValidFileType(file.mimeType) {
        error := Some(UnsupportedType);
        return;
      }
      selectedFile := Some(file);
      handedOver := handedOver + [file];
    }

    /** The remove button: the selection is cleared and nothing else changes. */
    method RemoveFile()
      requires Valid()
      modifies this
      ensures Valid()
      ensures selectedFile == None
      ensures error == old(error) && handedOver == old(handedOver)
    {
      selectedFile := None;
    }
  }

  // ---------------------------------------------------------------------------
  // getFileIcon
  // ---------------------------------------------------------------------------

  /**
   * The icon of the selected file, by the first word its MIME type contains:
   * "pdf", then "word", then "image", then "text".
   */
  function DropIcon(mime: string): (r: string)
    ensures Includes(mime, "pdf") ==> r == "fa-file-pdf"
    ensures !Includes(mime, "pdf") && Includes(mime, "word") ==> r == "fa-file-word"
    ensures !Includes(mime, "pdf") && !Includes(mime, "word") && Includes(mime, "image") ==>
              r == "fa-file-image"
    ensures !Includes(mime, "pdf") && !Includes(mime, "word") && !Includes(mime, "image") && Includes(mime, "text") ==>
              r == "fa-file-alt"
    ensures r == ClientUtils.GenericFileIcon <==>
              !Includes(mime, "pdf") && !Includes(mime, "word") && !Includes(mime, "image")
              && !Includes(mime, "text")
  {
    if Includes(mime, "pdf") then "fa-file-pdf"
    else if Includes(mime, "word") then "fa-file-word"
    else if Includes(mime, "image") then "fa-file-image"
    else if Includes(mime, "text") then "fa-file-alt"
    else ClientUtils.GenericFileIcon
  }

  /** The icon `getFileTypeIcon` gives each of the four stored tags. */
  lemma StoredTagIcon(tag: string)
    requires tag in FileTypes
    ensures tag == "PDF" ==> ClientUtils.FileTypeIcon(tag) == "fa-file-pdf"
    ensures tag == "DOCX" ==> ClientUtils.FileTypeIcon(tag) == "fa-file-word"
    ensures tag == "IMG" ==> ClientUtils.FileTypeIcon(tag) == "fa-file-image"
    ensures tag == "TXT" ==> ClientUtils.FileTypeIcon(tag) == "fa-file-alt"
  {
    FileTypesAreTheFourTags();
    if tag == "PDF" {
      assert ToUpper("PDF") == "PDF";
    } else if tag == "DOCX" {
      assert ToUpper("DOCX") == "DOCX";
    } else if tag == "IMG" {
      assert ToUpper("IMG") == "IMG";
    } else {
      assert ToUpper("TXT") == "TXT";
    }
  }

  /**
   * For each of the five accepted types, the drop zone shows the same icon as
   * the stored file's tag gets once the server has classified it.
   */
  lemma PdfDropIcon()
    ensures DropIcon(Routes.PdfMime) == ClientUtils.FileTypeIcon(Routes.GetFileType(Routes.PdfMime))
  {
    Routes.PdfMimeTag();
    StoredTagIcon("PDF");
    assert OccursAt(Routes.PdfMime, "pdf", 12);
  }

  /** A type lacking 'd', 'w' or 'm' cannot contain "pdf", "word" or "image" respectively. */
  lemma LacksPdf(mime: string)
    requires 'd' !in mime
    ensures !Includes(mime, "pdf")
  {
    AbsentCharRulesOut(mime, "pdf", 'd');
  }

  lemma LacksWord(mime: string)
    requires 'w' !in mime
    ensures !Includes(mime, "word")
  {
    AbsentCharRulesOut(mime, "word", 'w');
  }

  lemma LacksImage(mime: string)
    requires 'm' !in mime
    ensures !Includes(mime, "image")
  {
    AbsentCharRulesOut(mime, "image", 'm');
  }

  /** A type starting "image" that lacks 'd' and 'w' gets the image icon. */
  lemma ImageLikeIcon(mime: string)
    requires 'd' !in mime && 'w' !in mime && StartsWith(mime, "image")
    ensures DropIcon(mime) == "fa-file-image"
  {
    LacksPdf(mime);
    LacksWord(mime);
    assert OccursAt(mime, "image", 0);
  }

  /** A type starting "text" that lacks 'd', 'w' and 'm' gets the text icon. */
  lemma TextLikeIcon(mime: string)
    requires 'd' !in mime && 'w' !in mime && 'm' !in mime && StartsWith(mime, "text")
    ensures DropIcon(mime) == "fa-file-alt"
  {
    LacksPdf(mime);
    LacksWord(mime);
    LacksImage(mime);
    assert OccursAt(mime, "text", 0);
  }

  lemma JpegDropIcon()
    ensures DropIcon(Routes.JpegMime) == ClientUtils.FileTypeIcon(Routes.GetFileType(Routes.JpegMime))
  {
    Routes.ImageMimeTags();
    StoredTagIcon("IMG");
    ImageLikeIcon(Routes.JpegMime);
  }

  lemma PngDropIcon()
    ensures DropIcon(Routes.PngMime) == ClientUtils.FileTypeIcon(Routes.GetFileType(Routes.PngMime))
  {
    Routes.ImageMimeTags();
    StoredTagIcon("IMG");
    ImageLikeIcon(Routes.PngMime);
  }

  lemma TextDropIcon()
    ensures DropIcon(Routes.TextMime) == ClientUtils.FileTypeIcon(Routes.GetFileType(Routes.TextMime))
  {
    Routes.TextMimeTag();
    StoredTagIcon("TXT");
    TextLikeIcon(Routes.TextMime);
  }

  /** "pdf" occurs nowhere in the DOCX type, so its "word" decides the icon. */
  lemma NoPdfInDocxAt(j: int)
    ensures !OccursAt(Routes.DocxMime, "pdf", j)
  {
    if 0 <= j && j + 3 <= |Routes.DocxMime| {
      if j < 16 {
        NoPdfFromVendorTree(j);
      } else if j < 31 {
        NoPdfFromOpenXmlFormats(j);
      } else if j < 46 {
        NoPdfFromOfficeDocument(j);
      } else {
        NoPdfInDocxMarker(j);
      }
    }
  }

  /** An occurrence starting in the first part would need an 'f' there, or a 'p' at its end. */
  lemma NoPdfFromVendorTree(j: int)
    requires 0 <= j < 16
    ensures !OccursAt(Routes.DocxMime, "pdf", j)
  {
    var a, b, c, d := Routes.VendorTree, Routes.OpenXmlFormats, Routes.OfficeDocument, Routes.DocxMarker;
    var s := Routes.DocxMime;
    if j + 3 <= 16 {
      assert s == [] + a + (b + c + d);
      AbsentInChunk([], a, b + c + d, "pdf", 2, j);
    } else {
      assert s[j] == a[j];
    }
  }

  /** An occurrence starting in the second part would need a 'd' there, or a 'p' at its end. */
  lemma NoPdfFromOpenXmlFormats(j: int)
    requires 16 <= j < 31
    ensures !OccursAt(Routes.DocxMime, "pdf", j)
  {
    var a, b, c, d := Routes.VendorTree, Routes.OpenXmlFormats, Routes.OfficeDocument, Routes.DocxMarker;
    var s := Routes.DocxMime;
    if j + 3 <= 31 {
      assert s == a + b + (c + d);
      AbsentInChunk(a, b, c + d, "pdf", 1, j);
    } else {
      assert s[j] == b[j - 16];
    }
  }

  /** An occurrence starting in the third part would need a 'p' there. */
  lemma NoPdfFromOfficeDocument(j: int)
    requires 31 <= j < 46
    ensures !OccursAt(Routes.DocxMime, "pdf", j)
  {
    var a, b, c, d := Routes.VendorTree, Routes.OpenXmlFormats, Routes.OfficeDocument, Routes.DocxMarker;
    var s := Routes.DocxMime;
    if j + 3 <= 46 {
      assert s == (a + b) + c + d;
      AbsentInChunk(a + b, c, d, "pdf", 0, j);
    } else {
      assert s[j] == c[j - 31];
    }
  }

  /** The last part has no 'f'. */
  lemma NoPdfInDocxMarker(j: int)
    requires 46 <= j
    ensures !OccursAt(Routes.DocxMime, "pdf", j)
  {
    var a, b, c, d := Routes.VendorTree, Routes.OpenXmlFormats, Routes.OfficeDocument, Routes.DocxMarker;
    var s := Routes.DocxMime;
    if j + 3 <= |s| {
      assert s == (a + b + c) + d + [];
      AbsentInChunk(a + b + c, d, [], "pdf", 2, j);
    }
  }

  lemma DocxHasNoPdf()
    ensures !Includes(Routes.DocxMime, "pdf")
  {
    forall j ensures !OccursAt(Routes.DocxMime, "pdf", j) {
      NoPdfInDocxAt(j);
    }
  }

  lemma DocxHasWord()
    ensures Includes(Routes.DocxMime, "word")
  {
    assert Routes.DocxMime[46..] == Routes.DocxMarker;
    assert Routes.DocxMime[46..50] == Routes.DocxMarker[..4] == "word";
    assert OccursAt(Routes.DocxMime, "word", 46);
  }

  lemma DocxDropIcon()
    ensures DropIcon(Routes.DocxMime) == ClientUtils.FileTypeIcon(Routes.GetFileType(Routes.DocxMime))
  {
    Routes.DocxMimeTag();
    StoredTagIcon("DOCX");
    DocxHasNoPdf();
    DocxHasWord();
  }
}
