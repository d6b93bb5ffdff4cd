/** The upload form: validation of the chosen file, and assembly of the
    document text from the pages the PDF library extracts.  A PDF is seen
    only as its pages, each the sequence of its text items' strings. */
module Upload {
  import opened Types

  /** What the browser reports about the chosen file. */
  datatype PdfFile = PdfFile(name: string, mimeType: string, size: nat)

  const PdfMimeType := "application/pdf"
  /** 20 MiB. */
  const MaxFileSize: nat := 20 * 1024 * 1024

  const InvalidFileMessage := "Please select a valid PDF file."
  const FileTooLargeMessage := "File size must not exceed 20 MB."
  const ProcessFailedMessage := "Failed to process PDF. Make sure it is a text-based PDF."
  const ReadFailedMessage := "Failed to read the file."

  // ---------------------------------------------------------------------------
  // Validation
  // ---------------------------------------------------------------------------

  /** The message a chosen file is rejected with, or None when it is accepted.
      The type is checked before the size. */
  function ValidationError(file: Option<PdfFile>): (e: Option<string>)
    ensures e == None <==> file.Some? && file.value.mimeType == PdfMimeType && file.value.size <= MaxFileSize
    ensures e == Some(InvalidFileMessage) <==> file == None || file.value.mimeType != PdfMimeType
    ensures e == Some(FileTooLargeMessage) <==>
              file.Some? && file.value.mimeType == PdfMimeType && file.value.size > MaxFileSize
  {
    if file == None || file.value.mimeType != PdfMimeType then Some(InvalidFileMessage)
    else if file.value.size > MaxFileSize then Some(FileTooLargeMessage)
    else None
  }

  /** An oversized file of the wrong type gets the type message. */
  lemma TypeCheckedBeforeSize(name: string, mimeType: string, size: nat)
    requires mimeType != PdfMimeType && size > MaxFileSize
    ensures ValidationError(Some(PdfFile(name, mimeType, size))) == Some(InvalidFileMessage)
  {
  }

  /** The limit is inclusive: 20971520 bytes pass, one byte more does not. */
  lemma SizeLimitIsInclusive(name: string)
    ensures MaxFileSize == 20971520
    ensures ValidationError(Some(PdfFile(name, PdfMimeType, 20971520))) == None
    ensures ValidationError(Some(PdfFile(name, PdfMimeType, 20971521))) == Some(FileTooLargeMessage)
  {
  }

  // ---------------------------------------------------------------------------
  // Page text assembly
  // ---------------------------------------------------------------------------

  /** `items.join(sep)` */
  function Join(items: seq<string>, sep: string): (r: string)
    ensures items == [] ==> r == ""
    ensures |items| == 1 ==> r == items[0]
    ensures |items| > 1 ==> items[0] + sep <= r
    decreases |items|
  {
    if |items| == 0 then ""
    else if |items| == 1 then items[0]
    else items[0] + sep + Join(items[1..], sep)
  }

  function TotalLength(items: seq<string>): nat
    decreases |items|
  {
    if items == [] then 0 else |items[0]| + TotalLength(items[1..])
  }

  /** Joining n items adds n - 1 separators and nothing else. */
  lemma {:induction false} JoinLength(items: seq<string>, sep: string)
    requires items != []
    ensures |Join(items, sep)| == TotalLength(items) + (|items| - 1) * |sep|
    decreases |items|
  {
    if |items| > 1 {
      JoinLength(items[1..], sep);
    } else {
      assert items[1..] == [];
    }
  }

  /** One page's line: its items joined by spaces, then a newline. */
  function PageLine(items: seq<string>): (line: string)
    ensures |line| > 0 && line[|line| - 1] == '\n'
    ensures line[..|line| - 1] == Join(items, " ")
  {
    Join(items, " ") + "\n"
  }

  /** The document text: the lines of pages 1 .. n in order. */
  function PagesText(pages: seq<seq<string>>): (text: string)
    ensures pages == [] <==> text == ""
    ensures pages != [] ==> PageLine(pages[0]) <= text
    decreases |pages|
  {
    if pages == [] then "" else PageLine(pages[0]) + PagesText(pages[1..])
  }

  /** Appending a page appends its line. */
  lemma {:induction false} PagesTextAppend(pages: seq<seq<string>>, page: seq<string>)
    ensures PagesText(pages + [page]) == PagesText(pages) + PageLine(page)
    decreases |pages|
  {
    if pages == [] {
      assert [page][1..] == [];
    } else {
      assert (pages + [page])[1..] == pages[1..] + [page];
      PagesTextAppend(pages[1..], page);
    }
  }

  /** No pages give the empty text; any page gives a text ending in a newline. */
  lemma {:induction false} PagesTextShape(pages: seq<seq<string>>)
    ensures PagesText(pages) == "" <==> pages == []
    ensures pages != [] ==> |PagesText(pages)| > 0 && PagesText(pages)[|PagesText(pages)| - 1] == '\n'
  {
    if pages != [] {
      var k := |pages| - 1;
      assert pages == pages[..k] + [pages[k]];
      PagesTextAppend(pages[..k], pages[k]);
    }
  }

  /** The number of occurrences of c in s. */
  function Occurrences(c: char, s: string): nat
    decreases |s|
  {
    if s == "" then 0 else (if s[0] == c then 1 else 0) + Occurrences(c, s[1..])
  }

  lemma {:induction false} OccurrencesConcat(c: char, s: string, t: string)
    ensures Occurrences(c, s + t) == Occurrences(c, s) + Occurrences(c, t)
    decreases |s|
  {
    if s != "" {
      assert (s + t)[1..] == s[1..] + t;
      OccurrencesConcat(c, s[1..], t);
    } else {
      assert s + t == t;
    }
  }

  lemma {:induction false} JoinAddsNoNewline(items: seq<string>)
    requires forall i | 0 <= i < |items| :: Occurrences('\n', items[i]) == 0
    ensures Occurrences('\n', Join(items, " ")) == 0
    decreases |items|
  {
    if |items| > 1 {
      JoinAddsNoNewline(items[1..]);
      OccurrencesConcat('\n', items[0], " ");
      OccurrencesConcat('\n', items[0] + " ", Join(items[1..], " "));
    }
  }

  /** When no text item holds a newline, the text holds exactly one newline
      per page. */
  lemma {:induction false} OneNewlinePerPage(pages: seq<seq<string>>)
    requires forall p, i | 0 <= p < |pages| && 0 <= i < |pages[p]| :: Occurrences('\n', pages[p][i]) == 0
    ensures Occurrences('\n', PagesText(pages)) == |pages|
    decreases |pages|
  {
    if pages != [] {
      JoinAddsNoNewline(pages[0]);
      OccurrencesConcat('\n', Join(pages[0], " "), "\n");
      OccurrencesConcat('\n', PageLine(pages[0]), PagesText(pages[1..]));
      OneNewlinePerPage(pages[1..]);
    }
  }

  /** The reader's load callback: walks pages 1 .. n, appending each page's
      items joined by spaces and a newline, and hands the text on with the
      file's own name. */
  method ReaderOnLoad(file: PdfFile, pages: seq<seq<string>>) returns (fullText: string, fileName: string)
    ensures fullText == PagesText(pages)
    ensures fileName == file.name
  {
    fullText := "";
    for i := 1 to |pages| + 1
      invariant fullText == PagesText(pages[..i - 1])
    {
      var items := pages[i - 1];
      PagesTextAppend(pages[..i - 1], items);
      assert pages[..i] == pages[..i - 1] + [items];
      var line := Join(items, " ") + "\n";
      assert line == PageLine(items);
      fullText := fullText + line;
    }
    assert pages[..|pages|] == pages;
    fileName := file.name;
  }

  // ---------------------------------------------------------------------------
  // The form's state
  // ---------------------------------------------------------------------------

  /** The upload form's own state: its message and its "processing" flag. */
  class FileUpload {
    var isProcessing: bool
    var error: Option<string>

    constructor ()
      ensures !isProcessing && error == None
    {
      isProcessing := false;
      error := None;
    }

    /** A file was chosen.  A rejected file only sets the message.  An
        accepted one clears it; the read is started only when the PDF library
        is loaded (`readStarted`), and otherwise the failure message is shown.
        Either way the `finally` block clears the processing flag before the
        read has completed. */
    method HandleFileChange(file: Option<PdfFile>, pdfLibLoaded: bool) returns (readStarted: bool)
      modifies this
      ensures ValidationError(file).Some? ==>
                error == ValidationError(file) && isProcessing == old(isProcessing) && !readStarted
      ensures ValidationError(file) == None && !pdfLibLoaded ==>
                error == Some(ProcessFailedMessage) && !isProcessing && !readStarted
      ensures ValidationError(file) == None && pdfLibLoaded ==>
                error == None && !isProcessing && readStarted
    {
      readStarted := false;
      if file == None || file.value.mimeType != PdfMimeType {
        error := Some(InvalidFileMessage);
        return;
      }
      if file.value.size > MaxFileSize {
        error := Some(FileTooLargeMessage);
        return;
      }
      error := None;
      isProcessing := true;
      if !pdfLibLoaded {
        error := Some(ProcessFailedMessage);
        isProcessing := false;
      } else {
        readStarted := true;
      }
      isProcessing := false;
    }

    /** The reader's error callback. */
    method OnReadError()
      modifies this
      ensures error == Some(ReadFailedMessage) && !isProcessing
    {
      error := Some(ReadFailedMessage);
      isProcessing := false;
    }
  }
}
