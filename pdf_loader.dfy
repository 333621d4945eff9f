/**
 * `PDFLoader` (backend/utils/pdf_loader.py): clean the text of each page,
 * assemble the pages with headers, split the text into chunks with an
 * external splitter and keep the chunks with more than 50 characters of
 * content.
 */
module PdfLoading {
  import opened Wrappers
  import opened PyStr
  import opened Exceptions
  import opened Storage

  // ---------------------------------------------------------------------
  // _clean_text
  // ---------------------------------------------------------------------

  /** The class `[\x00-\x08\x0b\x0c\x0e-\x1f\x7f-\xff]` that `_clean_text`
      deletes. */
  predicate IsDeletedControl(c: char) {
    var n := c as int;
    (0 <= n <= 8) || n == 0x0B || n == 0x0C || (0x0E <= n <= 0x1F) || (0x7F <= n <= 0xFF)
  }

  /** `re.sub(r'\s+', ' ', s)`: each maximal run of whitespace becomes one
      space. */
  function CollapseWhitespace(s: string): string
    decreases |s|
  {
    if s == [] then []
    else if IsSpace(s[0]) then " " + CollapseWhitespace(StripLeft(s[1..]))
    else [s[0]] + CollapseWhitespace(s[1..])
  }

  /** `re.sub(r'[\x00-\x08\x0b\x0c\x0e-\x1f\x7f-\xff]', '', s)`. */
  function DeleteControls(s: string): string {
    if s == [] then []
    else (if IsDeletedControl(s[0]) then [] else [s[0]]) + DeleteControls(s[1..])
  }

  const BULLET_PATTERN := "\n-"
  const BULLET_REPLACEMENT := "\n\U{2022} "

  /** `_clean_text`: collapse whitespace, delete control and high-Latin
      characters, the bullet fix, one pass of double-space replacement,
      strip. */
  function CleanText(raw: string): string {
    var collapsed := DeleteControls(CollapseWhitespace(raw));
    var bulleted := Replace(collapsed, BULLET_PATTERN, BULLET_REPLACEMENT);
    Strip(Replace(bulleted, "  ", " "))
  }

  /** The only whitespace a collapse leaves is the plain space. */
  lemma {:induction false} CollapseLeavesOnlySpaces(s: string, c: char)
    requires c in CollapseWhitespace(s) && IsSpace(c)
    ensures c == ' '
    decreases |s|
  {
    if s != [] && c != ' ' {
      if IsSpace(s[0]) {
        assert c in CollapseWhitespace(StripLeft(s[1..]));
        CollapseLeavesOnlySpaces(StripLeft(s[1..]), c);
      } else {
        assert c in CollapseWhitespace(s[1..]);
        CollapseLeavesOnlySpaces(s[1..], c);
      }
    }
  }

  /** Deleting control characters keeps only characters of the input that
      are not in the deleted class. */
  lemma {:induction false} DeleteControlsChars(s: string, c: char)
    requires c in DeleteControls(s)
    ensures c in s && !IsDeletedControl(c)
  {
    if s != [] {
      var head := if IsDeletedControl(s[0]) then [] else [s[0]];
      assert DeleteControls(s) == head + DeleteControls(s[1..]);
      if c in head {
        assert c == s[0];
      } else {
        assert c in DeleteControls(s[1..]);
        DeleteControlsChars(s[1..], c);
      }
    }
  }

  /** The bullet fix of line 62 never changes the text: no newline survives
      the whitespace collapse. */
  lemma BulletFixIsNoOp(raw: string)
    ensures var collapsed := DeleteControls(CollapseWhitespace(raw));
      Replace(collapsed, BULLET_PATTERN, BULLET_REPLACEMENT) == collapsed
  {
    var collapsed := DeleteControls(CollapseWhitespace(raw));
    if '\n' in collapsed {
      DeleteControlsChars(CollapseWhitespace(raw), '\n');
      CollapseLeavesOnlySpaces(raw, '\n');
    }
    ReplaceAbsent(collapsed, BULLET_PATTERN, BULLET_REPLACEMENT);
  }

  /** What `_clean_text` returns: no leading or trailing whitespace, no
      whitespace but the plain space (so no newline, tab or carriage
      return), and nothing from the deleted control class. */
  lemma CleanTextShape(raw: string)
    ensures var r := CleanText(raw);
      forall c :: c in r ==> !IsDeletedControl(c) && (IsSpace(c) ==> c == ' ')
    ensures var r := CleanText(raw);
      r == [] || (!IsSpace(r[0]) && !IsSpace(r[|r| - 1]))
    ensures var r := CleanText(raw); '\n' !in r && '\t' !in r && '\r' !in r
  {
    var collapsed := DeleteControls(CollapseWhitespace(raw));
    BulletFixIsNoOp(raw);
    var replaced := Replace(collapsed, "  ", " ");
    var r := CleanText(raw);
    assert r == Strip(replaced);
    forall c | c in r
      ensures !IsDeletedControl(c) && (IsSpace(c) ==> c == ' ')
    {
      StripChars(replaced, c);
      ReplaceChars(collapsed, "  ", " ", c);
      if c in collapsed {
        DeleteControlsChars(CollapseWhitespace(raw), c);
        if IsSpace(c) {
          CollapseLeavesOnlySpaces(raw, c);
        }
      }
    }
    StripShape(replaced);
  }

  /** The replacement of line 63 is a single pass: three spaces left by the
      control deletion survive as two, so cleaned text may hold a double
      space. */
  lemma DoubleSpaceSurvives()
    ensures CleanText("a \U{1} \U{2} b") == "a  b"
  {
    CollapseExample();
    DeleteControlsExample();
    ReplaceAbsent("a   b", BULLET_PATTERN, BULLET_REPLACEMENT);
    ReplaceExample();
    StripExample();
  }

  lemma StripExample()
    ensures Strip("a  b") == "a  b"
  {
    assert StripLeft("a  b") == "a  b";
    assert StripRight("a  b") == "a  b";
  }

  lemma CollapseExample()
    ensures CollapseWhitespace("a \U{1} \U{2} b") == "a \U{1} \U{2} b"
  {
    var raw := "a \U{1} \U{2} b";
    assert CollapseWhitespace(raw[6..]) == "b";
    assert StripLeft(raw[6..]) == raw[6..];
    assert CollapseWhitespace(raw[4..]) == raw[4..];
    assert StripLeft(raw[4..]) == raw[4..];
    assert CollapseWhitespace(raw[2..]) == raw[2..];
    assert StripLeft(raw[2..]) == raw[2..];
    assert CollapseWhitespace(raw[1..]) == raw[1..];
  }

  lemma DeleteControlsExample()
    ensures DeleteControls("a \U{1} \U{2} b") == "a   b"
  {
    var raw := "a \U{1} \U{2} b";
    assert DeleteControls(raw[6..]) == "b";
    assert DeleteControls(raw[5..]) == " b";
    assert DeleteControls(raw[4..]) == " b";
    assert DeleteControls(raw[3..]) == "  b";
    assert DeleteControls(raw[2..]) == "  b";
    assert DeleteControls(raw[1..]) == "   b";
  }

  lemma ReplaceExample()
    ensures Replace("a   b", "  ", " ") == "a  b"
  {
    assert Replace("b", "  ", " ") == "b";
    assert !("  " <= " b") && " b"[1..] == "b";
    assert Replace(" b", "  ", " ") == " b";
    assert "   b"[2..] == " b";
    assert Replace("   b", "  ", " ") == "  b";
    assert "a   b"[1..] == "   b";
  }

  /** Cleaned text is already stripped, so the `page_text.strip()` test of
      the page loops is a test for non-empty cleaned text. */
  lemma CleanTextStripped(raw: string)
    ensures Strip(CleanText(raw)) == CleanText(raw)
  {
    var collapsed := DeleteControls(CollapseWhitespace(raw));
    StripIdempotent(Replace(Replace(collapsed, BULLET_PATTERN, BULLET_REPLACEMENT), "  ", " "));
  }

  // ---------------------------------------------------------------------
  // Opening a document, page by page
  // ---------------------------------------------------------------------

  /** `fitz.open(path)` and the page texts it yields, or what it raises.
      PyMuPDF's own error messages are placeholders here. */
  function OpenPdf(files: map<string, Blob>, path: string): Result<seq<string>, Exception> {
    if path !in files then Err(OtherError("no such file: '" + path + "'"))
    else match files[path]
      case PdfFile(Readable(pages)) => Ok(pages)
      case PdfFile(Broken(e)) => Err(e)
      case _ => Err(OtherError("Failed to open file '" + path + "'."))
  }

  function PageHeader(pageNumber: nat): string {
    "\n--- Page " + NatToString(pageNumber) + " ---\n"
  }

  /** What page `pageNumber` (1-based) adds to the extracted text. */
  function PageBlock(pageNumber: nat, raw: string): string {
    var cleaned := CleanText(raw);
    if Strip(cleaned) != [] then PageHeader(pageNumber) + cleaned + "\n" else ""
  }

  /** The text `extract_text_from_pdf` accumulates over the pages, in order. */
  function ExtractedText(pages: seq<string>): string {
    if pages == [] then ""
    else ExtractedText(pages[..|pages| - 1]) + PageBlock(|pages|, pages[|pages| - 1])
  }

  lemma ExtractedTextStep(pages: seq<string>, i: nat)
    requires i < |pages|
    ensures var cleaned := CleanText(pages[i]);
      ExtractedText(pages[..i + 1])
        == ExtractedText(pages[..i]) + (if Strip(cleaned) != [] then PageHeader(i + 1) + cleaned + "\n" else "")
  {
    assert pages[..i + 1][..i] == pages[..i];
  }

  /** The page loop of `extract_text_from_pdf` (lines 31-40): a header and
      the cleaned text for each page with content, in page order. */
  method AssemblePages(pages: seq<string>) returns (text: string)
    ensures text == ExtractedText(pages)
  {
    text := "";
    for i := 0 to |pages|
      invariant text == ExtractedText(pages[..i])
    {
      ExtractedTextStep(pages, i);
      ghost var before := text;
      var pageText := CleanText(pages[i]);
      if Strip(pageText) != [] {
        text := text + PageHeader(i + 1);
        text := text + pageText + "\n";
        assert text == before + (PageHeader(i + 1) + pageText + "\n");
      }
    }
    assert pages[..|pages|] == pages;
  }

  /** `extract_text_from_pdf`: open the document and assemble its pages;
      opening and reading errors propagate. */
  method ExtractTextFromPdf(fs: FileSystem, path: string) returns (r: Result<string, Exception>)
    ensures OpenPdf(fs.files, path).Err? ==> r == Err(OpenPdf(fs.files, path).error)
    ensures OpenPdf(fs.files, path).Ok? ==> r == Ok(ExtractedText(OpenPdf(fs.files, path).value))
  {
    var document := OpenPdf(fs.files, path);
    if document.Err? {
      return Err(document.error);
    }
    var text := AssemblePages(document.value);
    return Ok(text);
  }

  lemma AllSpaceAppend(a: string, b: string)
    ensures AllSpace(a + b) <==> AllSpace(a) && AllSpace(b)
  {
    if AllSpace(a + b) {
      forall i | 0 <= i < |a| ensures IsSpace(a[i]) {
        assert (a + b)[i] == a[i];
      }
      forall i | 0 <= i < |b| ensures IsSpace(b[i]) {
        assert (a + b)[|a| + i] == b[i];
      }
    }
    if AllSpace(a) && AllSpace(b) {
      forall i | 0 <= i < |a + b| ensures IsSpace((a + b)[i]) {
        if i < |a| { assert (a + b)[i] == a[i]; } else { assert (a + b)[i] == b[i - |a|]; }
      }
    }
  }

  /** A page block is blank exactly when the page cleans to nothing. */
  lemma PageBlockBlank(pageNumber: nat, raw: string)
    ensures AllSpace(PageBlock(pageNumber, raw)) <==> CleanText(raw) == []
  {
    CleanTextStripped(raw);
    var block := PageBlock(pageNumber, raw);
    if CleanText(raw) != [] {
      assert block[1] == '-';
    }
  }

  lemma {:induction false} ExtractedTextAllSpace(pages: seq<string>)
    ensures AllSpace(ExtractedText(pages)) <==> forall k :: 0 <= k < |pages| ==> CleanText(pages[k]) == []
  {
    if pages != [] {
      var init := pages[..|pages| - 1];
      var last := pages[|pages| - 1];
      ExtractedTextAllSpace(init);
      AllSpaceAppend(ExtractedText(init), PageBlock(|pages|, last));
      PageBlockBlank(|pages|, last);
      assert forall k :: 0 <= k < |init| ==> init[k] == pages[k];
    }
  }

  /** The extracted text is blank exactly when every page cleans to nothing:
      a page with content always contributes its header. */
  lemma ExtractedTextBlank(pages: seq<string>)
    ensures Strip(ExtractedText(pages)) == [] <==> forall k :: 0 <= k < |pages| ==> CleanText(pages[k]) == []
  {
    StripEmptyIffAllSpace(ExtractedText(pages));
    ExtractedTextAllSpace(pages);
  }

  /** One entry of `extract_text_by_page`. */
  datatype PageText = PageText(pageNumber: nat, text: string)

  /** The cleaned text of each page, in page order. */
  function CleanedPages(pages: seq<string>): (c: seq<string>)
    ensures |c| == |pages| && forall k :: 0 <= k < |c| ==> c[k] == CleanText(pages[k])
  {
    seq(|pages|, k requires 0 <= k < |pages| => CleanText(pages[k]))
  }

  /** The entries listed for pages whose cleaned texts are `cleaned`: one for
      each page whose text has content once stripped, numbered from 1. */
  function Listing(cleaned: seq<string>): seq<PageText> {
    if cleaned == [] then []
    else
      var n := |cleaned|;
      Listing(cleaned[..n - 1])
        + (if Strip(cleaned[n - 1]) != [] then [PageText(n, cleaned[n - 1])] else [])
  }

  /** The pages `extract_text_by_page` lists. */
  function NonEmptyPages(pages: seq<string>): seq<PageText> {
    Listing(CleanedPages(pages))
  }

  /** `e` is the entry of a page with content among `cleaned`. */
  predicate ListedEntry(cleaned: seq<string>, e: PageText) {
    1 <= e.pageNumber <= |cleaned| && e.text == cleaned[e.pageNumber - 1] && Strip(e.text) != []
  }

  lemma {:induction false} ListingEntries(cleaned: seq<string>)
    ensures forall j :: 0 <= j < |Listing(cleaned)| ==> ListedEntry(cleaned, Listing(cleaned)[j])
  {
    if cleaned != [] {
      var n := |cleaned|;
      var init := cleaned[..n - 1];
      ListingEntries(init);
      var head := Listing(init);
      var r := Listing(cleaned);
      assert r == head + (if Strip(cleaned[n - 1]) != [] then [PageText(n, cleaned[n - 1])] else []);
      forall j | 0 <= j < |r| ensures ListedEntry(cleaned, r[j]) {
        if j < |head| {
          assert r[j] == head[j] && ListedEntry(init, head[j]);
        }
      }
    }
  }

  lemma {:induction false} ListingIncreasing(cleaned: seq<string>)
    ensures forall j, l :: 0 <= j < l < |Listing(cleaned)| ==>
      Listing(cleaned)[j].pageNumber < Listing(cleaned)[l].pageNumber
  {
    if cleaned != [] {
      var n := |cleaned|;
      var init := cleaned[..n - 1];
      ListingIncreasing(init);
      ListingEntries(init);
      var head := Listing(init);
      var r := Listing(cleaned);
      assert r == head + (if Strip(cleaned[n - 1]) != [] then [PageText(n, cleaned[n - 1])] else []);
      forall j, l | 0 <= j < l < |r| ensures r[j].pageNumber < r[l].pageNumber {
        assert r[j] == head[j] && ListedEntry(init, head[j]);
        if l < |head| {
          assert r[l] == head[l];
        }
      }
    }
  }

  lemma {:induction false} ListingComplete(cleaned: seq<string>, k: nat)
    requires k < |cleaned| && Strip(cleaned[k]) != []
    ensures exists j :: 0 <= j < |Listing(cleaned)| && Listing(cleaned)[j].pageNumber == k + 1
  {
    var n := |cleaned|;
    var init := cleaned[..n - 1];
    var head := Listing(init);
    var r := Listing(cleaned);
    assert r == head + (if Strip(cleaned[n - 1]) != [] then [PageText(n, cleaned[n - 1])] else []);
    if k < n - 1 {
      assert init[k] == cleaned[k];
      ListingComplete(init, k);
      var j :| 0 <= j < |head| && head[j].pageNumber == k + 1;
      assert r[j] == head[j];
    } else {
      assert r[|head|].pageNumber == n;
    }
  }

  /** What `extract_text_by_page` lists: each page with cleaned content,
      once, in increasing page order, with its 1-based number and its
      cleaned text, and no other page. */
  lemma NonEmptyPagesSpec(pages: seq<string>)
    ensures var r := NonEmptyPages(pages);
      forall j :: 0 <= j < |r| ==>
        1 <= r[j].pageNumber <= |pages| && r[j].text == CleanText(pages[r[j].pageNumber - 1])
        && r[j].text != []
    ensures var r := NonEmptyPages(pages);
      forall j, l :: 0 <= j < l < |r| ==> r[j].pageNumber < r[l].pageNumber
    ensures var r := NonEmptyPages(pages);
      forall k :: 0 <= k < |pages| && CleanText(pages[k]) != [] ==>
        exists j :: 0 <= j < |r| && r[j].pageNumber == k + 1
  {
    var cleaned := CleanedPages(pages);
    var r := Listing(cleaned);
    ListingEntries(cleaned);
    ListingIncreasing(cleaned);
    forall j | 0 <= j < |r| ensures r[j].text != [] {
      assert Strip(r[j].text) != [];
    }
    forall k | 0 <= k < |pages| && CleanText(pages[k]) != []
      ensures exists j :: 0 <= j < |r| && r[j].pageNumber == k + 1
    {
      CleanTextStripped(pages[k]);
      ListingComplete(cleaned, k);
    }
  }

  /** The page loop of `extract_text_by_page` (lines 141-150). */
  method ListPages(pages: seq<string>) returns (r: seq<PageText>)
    ensures r == NonEmptyPages(pages)
  {
    r := [];
    for i := 0 to |pages|
      invariant r == Listing(CleanedPages(pages)[..i])
    {
      assert CleanedPages(pages)[..i + 1][..i] == CleanedPages(pages)[..i];
      var pageText := CleanText(pages[i]);
      if Strip(pageText) != [] {
        r := r + [PageText(i + 1, pageText)];
      }
    }
    assert CleanedPages(pages)[..|pages|] == CleanedPages(pages);
  }

  /** `extract_text_by_page`: the pages with content, or the empty list on
      any failure. */
  method ExtractTextByPage(fs: FileSystem, path: string) returns (r: seq<PageText>)
    ensures OpenPdf(fs.files, path).Err? ==> r == []
    ensures OpenPdf(fs.files, path).Ok? ==> r == NonEmptyPages(OpenPdf(fs.files, path).value)
  {
    var document := OpenPdf(fs.files, path);
    if document.Err? {
      return [];
    }
    r := ListPages(document.value);
  }

  // ---------------------------------------------------------------------
  // Chunking
  // ---------------------------------------------------------------------

  const MIN_CHUNK_CONTENT := 50

  /** The filter of line 73: more than 50 characters once stripped. */
  predicate KeepChunk(chunk: string) {
    |Strip(chunk)| > MIN_CHUNK_CONTENT
  }

  function FilterChunks(chunks: seq<string>): seq<string> {
    if chunks == [] then []
    else (if KeepChunk(chunks[0]) then [chunks[0]] else []) + FilterChunks(chunks[1..])
  }

  /** A chunk survives the filter exactly when it was produced and has more
      than 50 characters of content. */
  lemma {:induction false} FilterChunksMembers(chunks: seq<string>, c: string)
    ensures c in FilterChunks(chunks) <==> c in chunks && KeepChunk(c)
  {
    if chunks != [] {
      FilterChunksMembers(chunks[1..], c);
      assert chunks == [chunks[0]] + chunks[1..];
    }
  }

  /** The filter keeps the splitter's order: filtering a concatenation is
      concatenating the filtered parts. */
  lemma {:induction false} FilterChunksAppend(a: seq<string>, b: seq<string>)
    ensures FilterChunks(a + b) == FilterChunks(a) + FilterChunks(b)
  {
    if a != [] {
      FilterChunksAppend(a[1..], b);
      assert (a + b)[1..] == a[1..] + b;
    } else {
      assert a + b == b;
    }
  }

  /** The text splitter, `RecursiveCharacterTextSplitter(chunk_size=1000,
      chunk_overlap=200, separators=["\n\n", "\n", ". ", " ", ""])`, is a
      library whose algorithm is not modelled: it is the function `split`,
      which returns the chunks of a text or raises. */
  datatype PdfLoader = PdfLoader(split: string -> Result<seq<string>, Exception>)

  /** `split_text_into_chunks`: the splitter's chunks, filtered; its errors
      propagate. */
  function SplitTextIntoChunks(loader: PdfLoader, text: string): Result<seq<string>, Exception> {
    match loader.split(text)
    case Err(e) => Err(e)
    case Ok(raw) => Ok(FilterChunks(raw))
  }

  /** What `load_and_split(path)` returns or raises. */
  function Chunks(loader: PdfLoader, files: map<string, Blob>, path: string): Result<seq<string>, Exception> {
    match OpenPdf(files, path)
    case Err(e) => Err(e)
    case Ok(pages) =>
      var text := ExtractedText(pages);
      if Strip(text) == [] then Ok([]) else SplitTextIntoChunks(loader, text)
  }

  /** `load_and_split` (lines 91-115). */
  method LoadAndSplit(loader: PdfLoader, fs: FileSystem, path: string) returns (r: Result<seq<string>, Exception>)
    ensures r == Chunks(loader, fs.files, path)
  {
    var text := ExtractTextFromPdf(fs, path);
    if text.Err? {
      return Err(text.error);
    }
    if Strip(text.value) == [] {
      return Ok([]);
    }
    var chunks := SplitTextIntoChunks(loader, text.value);
    if chunks.Err? {
      return Err(chunks.error);
    }
    if chunks.value == [] {
      return Ok([]);
    }
    return Ok(chunks.value);
  }

  /** What `load_and_split` promises: every chunk it returns has more than 50
      characters of content, and it is exactly the splitter's surviving
      chunks in order; a document whose pages all clean to nothing gives no
      chunks, without calling the splitter; extraction and splitting errors
      propagate rather than becoming the empty list. */
  lemma ChunksSpec(loader: PdfLoader, files: map<string, Blob>, path: string)
    ensures var r := Chunks(loader, files, path);
      r.Ok? ==> forall c :: c in r.value ==> |Strip(c)| > MIN_CHUNK_CONTENT
    ensures OpenPdf(files, path).Err? ==> Chunks(loader, files, path) == Err(OpenPdf(files, path).error)
    ensures var document := OpenPdf(files, path);
      document.Ok? && (forall k :: 0 <= k < |document.value| ==> CleanText(document.value[k]) == []) ==>
        Chunks(loader, files, path) == Ok([])
    ensures var document := OpenPdf(files, path);
      document.Ok? && (exists k :: 0 <= k < |document.value| && CleanText(document.value[k]) != []) ==>
        var split := loader.split(ExtractedText(document.value));
        Chunks(loader, files, path) == (if split.Err? then Err(split.error) else Ok(FilterChunks(split.value)))
  {
    var r := Chunks(loader, files, path);
    if r.Ok? {
      forall c | c in r.value ensures |Strip(c)| > MIN_CHUNK_CONTENT {
        var document := OpenPdf(files, path);
        var text := ExtractedText(document.value);
        FilterChunksMembers(loader.split(text).value, c);
      }
    }
    var document := OpenPdf(files, path);
    if document.Ok? {
      ExtractedTextBlank(document.value);
    }
  }
}
