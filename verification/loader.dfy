/** Reading the uploaded reference document. The PDF library and the UTF-8
    decoder are foreign: an upload carries what each of them would produce
    for its bytes, and any failure of theirs surfaces as `None`. */
module Loader {
  import opened Basics

  /** What the PDF library makes of the bytes: unreadable, or one entry per
      page holding that page's extracted text (`None` when extraction of that
      page raises). */
  datatype PdfDocument = Unreadable | Pages(pages: seq<Option<string>>)

  /** An uploaded file: its declared media type and what the two foreign
      readers would return for its bytes. */
  datatype Upload = Upload(name: string, mimeType: string, asPdf: PdfDocument, asUtf8: Option<string>)

  const PdfMimeType: string := "application/pdf"

  /** Text of all pages concatenated in page order, or `None` if any page
      fails. */
  function PagesText(pages: seq<Option<string>>): Option<string>
  {
    if |pages| == 0 then Some("")
    else match PagesText(pages[..|pages| - 1])
      case None => None
      case Some(t) =>
        match pages[|pages| - 1]
        case None => None
        case Some(p) => Some(t + p)
  }

  /** The whole document yields text exactly when every page does. */
  lemma {:induction false} PagesTextSome(pages: seq<Option<string>>)
    ensures PagesText(pages).Some? <==> forall i :: 0 <= i < |pages| ==> pages[i].Some?
    decreases |pages|
  {
    if |pages| > 0 {
      var front := pages[..|pages| - 1];
      PagesTextSome(front);
      assert forall i :: 0 <= i < |front| ==> front[i] == pages[i];
    }
  }

  /** Each page contributes its text, in order: the first `k` pages' text is a
      prefix of the whole. */
  lemma {:induction false} PagesTextPrefix(pages: seq<Option<string>>, k: nat)
    requires k <= |pages|
    requires PagesText(pages).Some?
    ensures PagesText(pages[..k]).Some?
    ensures PagesText(pages[..k]).value <= PagesText(pages).value
    decreases |pages|
  {
    if k < |pages| {
      var front := pages[..|pages| - 1];
      assert pages[..k] == front[..k];
      PagesTextPrefix(front, k);
    } else {
      assert pages[..k] == pages;
    }
  }

  /** `extract_pdf_text`: `None` for an unreadable document. */
  function PdfText(doc: PdfDocument): Option<string>
  {
    match doc
    case Unreadable => None
    case Pages(ps) => PagesText(ps)
  }

  /** `extract_pdf_text`: accumulates `text += page.extract_text()` over the
      pages; any exception yields `None`. */
  method ExtractPdfText(doc: PdfDocument) returns (text: Option<string>)
    ensures text == PdfText(doc)
    ensures text.Some? <==> doc.Pages? && forall i :: 0 <= i < |doc.pages| ==> doc.pages[i].Some?
  {
    if doc.Unreadable? {
      return None;
    }
    var pages := doc.pages;
    PagesTextSome(pages);
    var acc := "";
    var i := 0;
    while i < |pages|
      invariant 0 <= i <= |pages|
      invariant PagesText(pages[..i]) == Some(acc)
    {
      assert pages[..i + 1][..i] == pages[..i];
      match pages[i]
      case None =>
        PagesTextSome(pages);
        return None;
      case Some(p) =>
        acc := acc + p;
      i := i + 1;
    }
    assert pages[..i] == pages;
    return Some(acc);
  }

  /** Which reader the driver uses, and what `original_content` becomes: the
      PDF extractor for a declared "application/pdf", the UTF-8 reader for
      any other type, `None` when there is no upload or the reader fails. */
  function UploadContent(upload: Option<Upload>): Option<string>
  {
    match upload
    case None => None
    case Some(u) => if u.mimeType == PdfMimeType then PdfText(u.asPdf) else u.asUtf8
  }

  /** The file-reading block of the start-button driver. */
  method ReadUpload(upload: Option<Upload>) returns (content: Option<string>)
    ensures content == UploadContent(upload)
    ensures upload.None? ==> content.None?
    ensures upload.Some? && upload.value.mimeType == PdfMimeType ==> content == PdfText(upload.value.asPdf)
    ensures upload.Some? && upload.value.mimeType != PdfMimeType ==> content == upload.value.asUtf8
  {
    content := None;
    if upload.Some? {
      var u := upload.value;
      if u.mimeType == PdfMimeType {
        content := ExtractPdfText(u.asPdf);
      } else {
        content := u.asUtf8;
      }
    }
  }
}
