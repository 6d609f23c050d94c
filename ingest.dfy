/** Document ingestion: the token-window chunker and the per-format page loops
    of the ingestor. The tokenizer and the format-specific text extraction are
    parameters. */
module Ingest {
  import opened Text
  import opened Meta

  /** A citeable unit of source text with its provenance. */
  datatype DocumentChunk = DocumentChunk(
    chunkId: string,
    filename: string,
    page: int,
    chunkText: string,
    tokenCount: nat,
    chunkIndex: nat,
    fileType: string,
    priority: string,
    trusted: bool,
    metadata: Metadata)

  /** The canonical tokenizer: `encode` and `decode` are not modelled. */
  datatype Tokenizer = Tokenizer(encode: string -> seq<int>, decode: seq<int> -> string)

  /** The ingestor's configuration; the constructor accepts any pair of sizes. */
  datatype Ingestor = Ingestor(chunkSize: int, chunkOverlap: int, tokenizer: Tokenizer)

  /** How far the window start moves from one chunk to the next. */
  function Stride(ing: Ingestor): int {
    ing.chunkSize - ing.chunkOverlap
  }

  /** The sliding window moves forward at every chunk. */
  predicate Advances(ing: Ingestor) {
    ing.chunkOverlap < ing.chunkSize
  }

  /** The configuration the chunker is designed for: windows overlap but never skip tokens. */
  predicate WellConfigured(ing: Ingestor) {
    0 <= ing.chunkOverlap < ing.chunkSize
  }

  /** Chunking `text` terminates: the loop only runs when there are tokens, and
      it only ends when the window advances. */
  predicate Terminates(ing: Ingestor, text: string) {
    |ing.tokenizer.encode(text)| > 0 ==> Advances(ing)
  }

  /** The number of chunks a page of `n` tokens gives: ceil(n / stride). */
  function NumChunks(n: nat, stride: int): nat
    requires n > 0 ==> stride > 0
  {
    if n == 0 then 0 else (n + stride - 1) / stride
  }

  /** The token positions [start, end) covered by chunk `i` of a page of `n` tokens. */
  function WindowStart(ing: Ingestor, i: nat): int {
    i * Stride(ing)
  }

  function WindowEnd(ing: Ingestor, n: nat, i: nat): int {
    Max(WindowStart(ing, i), Min(WindowStart(ing, i) + ing.chunkSize, n))
  }

  /** `tokens[start:min(start + chunk_size, len(tokens))]` for chunk `i`, with Python's
      slice semantics: a negative end (a negative `chunk_size`) counts from the end. */
  function Window(ing: Ingestor, tokens: seq<int>, i: nat): seq<int> {
    var start := WindowStart(ing, i);
    PySlice(tokens, start, Min(start + ing.chunkSize, |tokens|))
  }

  /** The chunk id `{filename}_p{page}_c{index}`. */
  function ChunkId(filename: string, page: int, index: nat): string {
    filename + "_p" + IntToString(page) + "_c" + NatToString(index)
  }

  /** Chunk `i` of a page, as the chunker builds it. */
  function ChunkAt(ing: Ingestor, tokens: seq<int>, filename: string, page: int, fileType: string,
                   priority: string, trusted: bool, metadata: Metadata, i: nat): DocumentChunk
  {
    var w := Window(ing, tokens, i);
    DocumentChunk(ChunkId(filename, page, i), filename, page, Strip(ing.tokenizer.decode(w)),
                  |w|, i, fileType, priority, trusted, metadata)
  }

  /** `cs` are the first |cs| chunks of the page. */
  predicate ChunksUpTo(ing: Ingestor, tokens: seq<int>, filename: string, page: int, fileType: string,
                       priority: string, trusted: bool, metadata: Metadata, cs: seq<DocumentChunk>) {
    forall i :: 0 <= i < |cs| ==> cs[i] == ChunkAt(ing, tokens, filename, page, fileType, priority, trusted, metadata, i)
  }

  lemma ChunksUpToSnoc(ing: Ingestor, tokens: seq<int>, filename: string, page: int, fileType: string,
                       priority: string, trusted: bool, metadata: Metadata, cs: seq<DocumentChunk>, c: DocumentChunk)
    requires ChunksUpTo(ing, tokens, filename, page, fileType, priority, trusted, metadata, cs)
    requires c == ChunkAt(ing, tokens, filename, page, fileType, priority, trusted, metadata, |cs|)
    ensures ChunksUpTo(ing, tokens, filename, page, fileType, priority, trusted, metadata, cs + [c])
  {
    var cs' := cs + [c];
    forall i | 0 <= i < |cs'|
      ensures cs'[i] == ChunkAt(ing, tokens, filename, page, fileType, priority, trusted, metadata, i)
    {
      if i < |cs| {
        assert cs'[i] == cs[i];
        assert cs[i] == ChunkAt(ing, tokens, filename, page, fileType, priority, trusted, metadata, i);
      } else {
        assert i == |cs|;
        assert cs'[i] == c;
      }
    }
  }

  /** All chunks of one page of tokens. */
  function PageChunks(ing: Ingestor, tokens: seq<int>, filename: string, page: int, fileType: string,
                      priority: string, trusted: bool, metadata: Metadata): (cs: seq<DocumentChunk>)
    requires |tokens| > 0 ==> Advances(ing)
    ensures |cs| == NumChunks(|tokens|, Stride(ing))
  {
    seq(NumChunks(|tokens|, Stride(ing)),
        i requires 0 <= i => ChunkAt(ing, tokens, filename, page, fileType, priority, trusted, metadata, i))
  }

  // ---------------------------------------------------------------------------
  // Arithmetic of the window count

  lemma MulLeftMonotone(a: int, b: int, s: int)
    requires a <= b && s >= 0
    ensures a * s <= b * s
  {
  }

  lemma MulSucc(i: int, s: int)
    ensures (i + 1) * s == i * s + s
  {
  }

  /** Chunk `i` exists exactly when its window starts inside the page. */
  lemma ChunkExistsIff(n: nat, s: int, i: nat)
    requires s > 0
    ensures i < NumChunks(n, s) <==> i * s < n
  {
    MulLeftMonotone(0, i, s);
    if n > 0 {
      var q := (n + s - 1) / s;
      assert q * s <= n + s - 1 < q * s + s;
      if i < q {
        MulLeftMonotone(i, q - 1, s);
        MulSucc(q - 1, s);
      } else {
        MulLeftMonotone(q, i, s);
      }
    }
  }

  // ---------------------------------------------------------------------------
  // The chunker

  /** `DocumentIngestor._chunk_text`: slide a window of `chunkSize` tokens forward by
      `chunkSize - chunkOverlap` until its start passes the last token. The precondition
      is exactly what the loop needs to end. */
  method ChunkText(ing: Ingestor, text: string, filename: string, page: int, fileType: string,
                   priority: string, trusted: bool, metadata: Metadata)
    returns (chunks: seq<DocumentChunk>)
    requires Terminates(ing, text)
    ensures |chunks| == NumChunks(|ing.tokenizer.encode(text)|, Stride(ing))
    ensures forall i :: 0 <= i < |chunks| ==>
      chunks[i] == ChunkAt(ing, ing.tokenizer.encode(text), filename, page, fileType, priority, trusted, metadata, i)
    ensures chunks == PageChunks(ing, ing.tokenizer.encode(text), filename, page, fileType, priority, trusted, metadata)
  {
    var tokens := ing.tokenizer.encode(text);
    chunks := [];
    var start := 0;
    var chunkIdx := 0;
    while start < |tokens|
      invariant start == WindowStart(ing, chunkIdx)
      invariant |chunks| == chunkIdx
      invariant |tokens| == 0 ==> chunkIdx == 0
      invariant chunkIdx == 0 || WindowStart(ing, chunkIdx - 1) < |tokens|
      invariant ChunksUpTo(ing, tokens, filename, page, fileType, priority, trusted, metadata, chunks)
      decreases |tokens| - start
    {
      var end := Min(start + ing.chunkSize, |tokens|);
      var chunkTokens := PySlice(tokens, start, end);
      assert chunkTokens == Window(ing, tokens, chunkIdx);
      var chunkText := ing.tokenizer.decode(chunkTokens);
      var chunkId := filename + "_p" + IntToString(page) + "_c" + NatToString(chunkIdx);
      var chunk := DocumentChunk(chunkId, filename, page, Strip(chunkText), |chunkTokens|,
                                 chunkIdx, fileType, priority, trusted, metadata);
      assert chunk == ChunkAt(ing, tokens, filename, page, fileType, priority, trusted, metadata, chunkIdx);
      ghost var before := chunks;
      chunks := chunks + [chunk];
      ChunksUpToSnoc(ing, tokens, filename, page, fileType, priority, trusted, metadata, before, chunk);
      MulSucc(chunkIdx, Stride(ing));
      chunkIdx := chunkIdx + 1;
      start := start + (ing.chunkSize - ing.chunkOverlap);
    }
    if |tokens| > 0 {
      ChunkExistsIff(|tokens|, Stride(ing), chunkIdx);
      ChunkExistsIff(|tokens|, Stride(ing), chunkIdx - 1);
    }
    assert |chunks| == NumChunks(|tokens|, Stride(ing));
  }

  // ---------------------------------------------------------------------------
  // Properties of the chunks of one page

  /** No tokens, no chunks; some tokens, at least one chunk. */
  lemma ChunkCountZeroIff(n: nat, s: int)
    requires n > 0 ==> s > 0
    ensures NumChunks(n, s) == 0 <==> n == 0
  {
    if n > 0 {
      ChunkExistsIff(n, s, 0);
    }
  }

  /** Chunk `i` holds the tokens from `i * stride` to `min(i * stride + chunkSize, n)`:
      between 1 and `chunkSize` of them. */
  lemma ChunkWindow(ing: Ingestor, tokens: seq<int>, i: nat)
    requires WellConfigured(ing)
    requires i < NumChunks(|tokens|, Stride(ing))
    ensures 0 <= WindowStart(ing, i) < |tokens|
    ensures WindowEnd(ing, |tokens|, i) == Min(WindowStart(ing, i) + ing.chunkSize, |tokens|)
    ensures Window(ing, tokens, i) == tokens[WindowStart(ing, i)..WindowEnd(ing, |tokens|, i)]
    ensures 1 <= |Window(ing, tokens, i)| <= ing.chunkSize
  {
    ChunkExistsIff(|tokens|, Stride(ing), i);
    MulLeftMonotone(0, i, Stride(ing));
  }

  /** A negative `chunk_size` gives a negative slice end, which Python counts from the
      end of the tokens: with sizes -1 and -3 (stride 2) the first of the three chunks of
      five tokens holds four of them, and the second, whose end falls before its start, none. */
  lemma NegativeChunkSizeCountsFromEnd(tok: Tokenizer)
    ensures var ing := Ingestor(-1, -3, tok);
            NumChunks(5, Stride(ing)) == 3 &&
            Window(ing, [1, 2, 3, 4, 5], 0) == [1, 2, 3, 4] &&
            Window(ing, [1, 2, 3, 4, 5], 1) == []
  {
  }

  /** Consecutive chunks share `min(chunkOverlap, n - start of the next)` tokens: the tail of
      chunk `i` after the stride is the head of chunk `i + 1`. */
  lemma ConsecutiveChunksOverlap(ing: Ingestor, tokens: seq<int>, i: nat)
    requires WellConfigured(ing)
    requires i + 1 < NumChunks(|tokens|, Stride(ing))
    ensures var a := Window(ing, tokens, i);
            var b := Window(ing, tokens, i + 1);
            var shared := Min(ing.chunkOverlap, |tokens| - WindowStart(ing, i + 1));
            0 <= shared <= |b| && |a| == Stride(ing) + shared &&
            a[Stride(ing)..] == b[..shared]
  {
    ChunkWindow(ing, tokens, i);
    ChunkWindow(ing, tokens, i + 1);
    MulSucc(i, Stride(ing));
    var n := |tokens|;
    var st := WindowStart(ing, i);
    var st2 := WindowStart(ing, i + 1);
    var a := Window(ing, tokens, i);
    var b := Window(ing, tokens, i + 1);
    var shared := Min(ing.chunkOverlap, n - st2);
    assert st2 == st + Stride(ing);
    assert a == tokens[st..Min(st2 + ing.chunkOverlap, n)];
    assert b == tokens[st2..Min(st2 + ing.chunkSize, n)];
    assert a[Stride(ing)..] == tokens[st2..st2 + shared];
    assert b[..shared] == tokens[st2..st2 + shared];
  }

  /** Every token of the page lies in some chunk's window. */
  lemma ChunksCoverTokens(ing: Ingestor, tokens: seq<int>, p: nat)
    requires WellConfigured(ing)
    requires p < |tokens|
    ensures var i := p / Stride(ing);
            i < NumChunks(|tokens|, Stride(ing)) &&
            WindowStart(ing, i) <= p < WindowEnd(ing, |tokens|, i)
  {
    var s := Stride(ing);
    var i := p / s;
    assert i * s <= p < i * s + s;
    ChunkExistsIff(|tokens|, s, i);
  }

  /** The last chunk of a non-empty page ends exactly at the last token. */
  lemma LastChunkEndsAtEnd(ing: Ingestor, tokens: seq<int>)
    requires WellConfigured(ing)
    requires |tokens| > 0
    ensures var k := NumChunks(|tokens|, Stride(ing));
            k >= 1 && WindowEnd(ing, |tokens|, k - 1) == |tokens|
  {
    var s := Stride(ing);
    var k := NumChunks(|tokens|, s);
    ChunkCountZeroIff(|tokens|, s);
    ChunkExistsIff(|tokens|, s, k);
    ChunkExistsIff(|tokens|, s, k - 1);
    assert (k - 1) * s + s == k * s;
  }

  lemma PrefixCancel(a: string, x: string, y: string)
    requires a + x == a + y
    ensures x == y
  {
    assert x == (a + x)[|a|..];
    assert y == (a + y)[|a|..];
  }

  /** Chunk ids name their index: two chunks of one page have the same id only if they
      are the same chunk. */
  lemma ChunkIdInjective(filename: string, page: int, i: nat, j: nat)
    requires ChunkId(filename, page, i) == ChunkId(filename, page, j)
    ensures i == j
  {
    PrefixCancel(filename + "_p" + IntToString(page) + "_c", NatToString(i), NatToString(j));
    NatToStringInjective(i, j);
  }

  /** The chunks of a page are numbered 0, 1, ... in order, carry the page's provenance,
      and have pairwise distinct ids. */
  lemma PageChunksIndexedAndDistinct(ing: Ingestor, tokens: seq<int>, filename: string, page: int,
                                     fileType: string, priority: string, trusted: bool, metadata: Metadata)
    requires |tokens| > 0 ==> Advances(ing)
    ensures var cs := PageChunks(ing, tokens, filename, page, fileType, priority, trusted, metadata);
            (forall i :: 0 <= i < |cs| ==>
               cs[i].chunkIndex == i && cs[i].chunkId == ChunkId(filename, page, i) &&
               cs[i].filename == filename && cs[i].page == page && cs[i].fileType == fileType &&
               cs[i].priority == priority && cs[i].trusted == trusted && cs[i].metadata == metadata) &&
            (forall i, j :: 0 <= i < j < |cs| ==> cs[i].chunkId != cs[j].chunkId)
  {
    var cs := PageChunks(ing, tokens, filename, page, fileType, priority, trusted, metadata);
    forall i, j | 0 <= i < j < |cs| ensures cs[i].chunkId != cs[j].chunkId {
      if cs[i].chunkId == cs[j].chunkId {
        ChunkIdInjective(filename, page, i, j);
      }
    }
  }

  // ---------------------------------------------------------------------------
  // File-extension dispatch

  /** `os.path.basename` (POSIX): what follows the last '/'. */
  function Basename(path: string): (name: string)
    ensures |name| <= |path|
  {
    match FindLast(path, "/")
    case None => path
    case Some(i) => path[i + 1..]
  }

  /** The extension `os.path.splitext` gives for a base name: from the last '.', provided
      some character before that dot is not a dot; otherwise none. */
  function SplitExt(name: string): string {
    match FindLast(name, ".")
    case None => ""
    case Some(d) => if exists j :: 0 <= j < d && name[j] != '.' then name[d..] else ""
  }

  datatype Format = Pdf | Docx | Pptx | PlainText | Image

  function FormatOfExtension(ext: string): Option<Format> {
    if ext == ".pdf" then Some(Pdf)
    else if ext == ".docx" then Some(Docx)
    else if ext == ".pptx" then Some(Pptx)
    else if ext == ".txt" || ext == ".text" then Some(PlainText)
    else if ext == ".png" || ext == ".jpg" || ext == ".jpeg" then Some(Image)
    else None
  }

  /** The lower-cased extension of the file a path names. */
  function Extension(filepath: string): string {
    Lower(SplitExt(Basename(filepath)))
  }

  /** `ingest_file`'s choice of reader, or the `ValueError` it raises. */
  function Dispatch(filepath: string): (r: Result<Format>)
    ensures r.Err? <==> FormatOfExtension(Extension(filepath)).None?
    ensures r.Err? ==> r.error == "Unsupported file type: " + Extension(filepath)
    ensures r.Ok? ==> Some(r.value) == FormatOfExtension(Extension(filepath))
  {
    match FormatOfExtension(Extension(filepath))
    case None => Err("Unsupported file type: " + Extension(filepath))
    case Some(f) => Ok(f)
  }

  /** The extension of `stem + ext` is `ext` when `ext` is a dot followed by no further dot
      and the stem does not start with a dot; so "notes.PDF" is read as a PDF. */
  lemma ExtensionOfName(stem: string, rest: string)
    requires |stem| > 0 && stem[0] != '.'
    requires '.' !in rest
    ensures SplitExt(stem + "." + rest) == "." + rest
  {
    var name := stem + "." + rest;
    var d := |stem|;
    assert OccursAt(name, ".", d);
    forall j: nat | d < j < |name| ensures !OccursAt(name, ".", j) {
      assert name[j] == rest[j - d - 1];
      assert name[j + 0] != "."[0];
    }
    match FindLast(name, ".")
    case None =>
    case Some(e) =>
      assert e == d;
      assert name[0] != '.';
  }

  // ---------------------------------------------------------------------------
  // Per-format page loops; the extraction libraries are parameters

  /** A PDF page as the extraction library returns it: its text and its text blocks. */
  datatype PdfPage = PdfPage(text: string, blocks: Value)

  /** A slide shape; `text` is None for shapes without a text attribute. */
  datatype Shape = Shape(text: Option<string>)

  datatype Extractor = Extractor(
    pdfPages: string -> seq<PdfPage>,
    docxParagraphs: string -> seq<string>,
    pptxSlides: string -> seq<seq<Shape>>,
    readText: string -> string)

  /** The chunks of PDF page `num` (1-based): none for a blank page. */
  function PdfPageChunks(ing: Ingestor, page: PdfPage, num: int, filename: string,
                         priority: string, trusted: bool): seq<DocumentChunk>
    requires !IsBlank(page.text) ==> Terminates(ing, page.text)
  {
    if IsBlank(page.text) then []
    else PageChunks(ing, ing.tokenizer.encode(page.text), filename, num, "pdf", priority, trusted,
                    map["blocks" := page.blocks])
  }

  predicate PdfTerminates(ing: Ingestor, pages: seq<PdfPage>) {
    forall k :: 0 <= k < |pages| && !IsBlank(pages[k].text) ==> Terminates(ing, pages[k].text)
  }

  /** The chunks of the first |pages| pages of a PDF, in page order. */
  function PdfChunks(ing: Ingestor, pages: seq<PdfPage>, filename: string, priority: string,
                     trusted: bool): seq<DocumentChunk>
    requires PdfTerminates(ing, pages)
    decreases |pages|
  {
    if pages == [] then []
    else PdfChunks(ing, pages[..|pages| - 1], filename, priority, trusted)
         + PdfPageChunks(ing, pages[|pages| - 1], |pages|, filename, priority, trusted)
  }

  /** `_ingest_pdf`'s page loop: chunk each non-blank page, numbering pages from 1, with
      the page's text blocks as metadata. */
  method IngestPdf(ing: Ingestor, pages: seq<PdfPage>, filename: string, priority: string, trusted: bool)
    returns (chunks: seq<DocumentChunk>)
    requires PdfTerminates(ing, pages)
    ensures chunks == PdfChunks(ing, pages, filename, priority, trusted)
  {
    chunks := [];
    var pageNum := 0;
    while pageNum < |pages|
      invariant 0 <= pageNum <= |pages|
      invariant chunks == PdfChunks(ing, pages[..pageNum], filename, priority, trusted)
    {
      var page := pages[pageNum];
      assert pages[..pageNum + 1][..pageNum] == pages[..pageNum];
      if !IsBlank(page.text) {
        var pageChunks := ChunkText(ing, page.text, filename, pageNum + 1, "pdf", priority, trusted,
                                    map["blocks" := page.blocks]);
        chunks := chunks + pageChunks;
      }
      pageNum := pageNum + 1;
    }
    assert pages[..|pages|] == pages;
  }

  /** The chunks of one PDF page are on that page, which is not blank, and carry its blocks. */
  lemma PdfPageChunksProvenance(ing: Ingestor, page: PdfPage, num: int, filename: string,
                                priority: string, trusted: bool)
    requires !IsBlank(page.text) ==> Terminates(ing, page.text)
    ensures forall c :: c in PdfPageChunks(ing, page, num, filename, priority, trusted) ==>
      c.page == num && !IsBlank(page.text) && c.fileType == "pdf" &&
      c.metadata == map["blocks" := page.blocks] && c.filename == filename
  {
    if !IsBlank(page.text) {
      PageChunksIndexedAndDistinct(ing, ing.tokenizer.encode(page.text), filename, num, "pdf",
                                   priority, trusted, map["blocks" := page.blocks]);
    }
  }

  /** Chunk `c` was cut from page `c.page` (1-based) of `pages`, which is not blank. */
  predicate FromPdfPage(c: DocumentChunk, pages: seq<PdfPage>, filename: string) {
    1 <= c.page <= |pages| && !IsBlank(pages[c.page - 1].text) && c.fileType == "pdf" &&
    c.metadata == map["blocks" := pages[c.page - 1].blocks] && c.filename == filename
  }

  lemma FromPdfPageExtend(c: DocumentChunk, pages: seq<PdfPage>, filename: string)
    requires pages != []
    requires FromPdfPage(c, pages[..|pages| - 1], filename)
    ensures FromPdfPage(c, pages, filename)
  {
    assert pages[..|pages| - 1][c.page - 1] == pages[c.page - 1];
  }

  /** Every PDF chunk comes from a non-blank page, numbered from 1, and carries that page's blocks. */
  lemma {:induction false} PdfChunksFromNonBlankPages(ing: Ingestor, pages: seq<PdfPage>, filename: string,
                                                      priority: string, trusted: bool)
    requires PdfTerminates(ing, pages)
    ensures forall c :: c in PdfChunks(ing, pages, filename, priority, trusted) ==> FromPdfPage(c, pages, filename)
    decreases |pages|
  {
    if pages != [] {
      var init := pages[..|pages| - 1];
      var last := pages[|pages| - 1];
      assert PdfTerminates(ing, init);
      PdfChunksFromNonBlankPages(ing, init, filename, priority, trusted);
      PdfPageChunksProvenance(ing, last, |pages|, filename, priority, trusted);
      var front := PdfChunks(ing, init, filename, priority, trusted);
      var back := PdfPageChunks(ing, last, |pages|, filename, priority, trusted);
      assert PdfChunks(ing, pages, filename, priority, trusted) == front + back;
      forall c: DocumentChunk | c in front + back ensures FromPdfPage(c, pages, filename) {
        if c in front {
          FromPdfPageExtend(c, pages, filename);
        } else {
          assert c in back;
        }
      }
    }
  }

  /** The texts kept by `if x.strip(): keep.append(x)`. */
  function NonBlank(texts: seq<string>): (kept: seq<string>)
    ensures forall k :: 0 <= k < |kept| ==> !IsBlank(kept[k])
    ensures |kept| <= |texts|
  {
    if texts == [] then []
    else NonBlank(texts[..|texts| - 1]) + (if IsBlank(texts[|texts| - 1]) then [] else [texts[|texts| - 1]])
  }

  /** The text a shape list contributes: shapes with a non-blank text attribute. */
  function ShapeTexts(shapes: seq<Shape>): (texts: seq<string>)
    ensures forall k :: 0 <= k < |texts| ==> !IsBlank(texts[k])
  {
    if shapes == [] then []
    else ShapeTexts(shapes[..|shapes| - 1]) +
         (match shapes[|shapes| - 1].text
          case Some(t) => if IsBlank(t) then [] else [t]
          case None => [])
  }

  /** The whole document text `_ingest_docx` chunks as page 1. */
  function DocxText(paragraphs: seq<string>): string {
    Join("\n", NonBlank(paragraphs))
  }

  /** `_ingest_docx`: join the non-blank paragraphs with newlines and chunk them as page 1. */
  method IngestDocx(ing: Ingestor, paragraphs: seq<string>, filename: string, priority: string, trusted: bool)
    returns (chunks: seq<DocumentChunk>)
    requires Terminates(ing, DocxText(paragraphs))
    ensures chunks == PageChunks(ing, ing.tokenizer.encode(DocxText(paragraphs)), filename, 1, "docx",
                                 priority, trusted, map[])
  {
    var fullText := [];
    var k := 0;
    while k < |paragraphs|
      invariant 0 <= k <= |paragraphs|
      invariant fullText == NonBlank(paragraphs[..k])
    {
      assert paragraphs[..k + 1][..k] == paragraphs[..k];
      if !IsBlank(paragraphs[k]) {
        fullText := fullText + [paragraphs[k]];
      }
      k := k + 1;
    }
    assert paragraphs[..|paragraphs|] == paragraphs;
    var text := Join("\n", fullText);
    chunks := ChunkText(ing, text, filename, 1, "docx", priority, trusted, map[]);
  }

  /** The text of a slide: its shapes' non-blank texts, one per line. */
  function SlideText(shapes: seq<Shape>): string {
    Join("\n", ShapeTexts(shapes))
  }

  predicate PptxTerminates(ing: Ingestor, slides: seq<seq<Shape>>) {
    forall k :: 0 <= k < |slides| && ShapeTexts(slides[k]) != [] ==> Terminates(ing, SlideText(slides[k]))
  }

  /** The chunks of the first |slides| slides, a slide with no shape text giving none. */
  function PptxChunks(ing: Ingestor, slides: seq<seq<Shape>>, filename: string, priority: string,
                      trusted: bool): seq<DocumentChunk>
    requires PptxTerminates(ing, slides)
    decreases |slides|
  {
    if slides == [] then []
    else
      var last := slides[|slides| - 1];
      PptxChunks(ing, slides[..|slides| - 1], filename, priority, trusted)
      + (if ShapeTexts(last) == [] then []
         else PageChunks(ing, ing.tokenizer.encode(SlideText(last)), filename, |slides|, "pptx",
                         priority, trusted, map[]))
  }

  /** The inner loop of `_ingest_pptx`: the non-blank texts of a slide's shapes, in order. */
  method CollectShapeTexts(slide: seq<Shape>) returns (slideText: seq<string>)
    ensures slideText == ShapeTexts(slide)
  {
    slideText := [];
    var k := 0;
    while k < |slide|
      invariant 0 <= k <= |slide|
      invariant slideText == ShapeTexts(slide[..k])
    {
      assert slide[..k + 1][..k] == slide[..k];
      match slide[k].text {
        case Some(t) =>
          if !IsBlank(t) {
            slideText := slideText + [t];
          }
        case None =>
      }
      k := k + 1;
    }
    assert slide[..|slide|] == slide;
  }

  /** `_ingest_pptx`: chunk each slide with some shape text, numbering slides from 1. */
  method IngestPptx(ing: Ingestor, slides: seq<seq<Shape>>, filename: string, priority: string, trusted: bool)
    returns (chunks: seq<DocumentChunk>)
    requires PptxTerminates(ing, slides)
    ensures chunks == PptxChunks(ing, slides, filename, priority, trusted)
  {
    chunks := [];
    var slideNum := 1;
    while slideNum <= |slides|
      invariant 1 <= slideNum <= |slides| + 1
      invariant chunks == PptxChunks(ing, slides[..slideNum - 1], filename, priority, trusted)
    {
      var slide := slides[slideNum - 1];
      var slideText := CollectShapeTexts(slide);
      assert slides[..slideNum][..slideNum - 1] == slides[..slideNum - 1];
      if slideText != [] {
        var text := Join("\n", slideText);
        var slideChunks := ChunkText(ing, text, filename, slideNum, "pptx", priority, trusted, map[]);
        chunks := chunks + slideChunks;
      }
      slideNum := slideNum + 1;
    }
    assert slides[..|slides|] == slides;
  }

  /** Every PPTX chunk comes from a slide with shape text, numbered from 1. */
  lemma {:induction false} PptxChunksFromTextSlides(ing: Ingestor, slides: seq<seq<Shape>>, filename: string,
                                                    priority: string, trusted: bool)
    requires PptxTerminates(ing, slides)
    ensures forall c :: c in PptxChunks(ing, slides, filename, priority, trusted) ==>
      1 <= c.page <= |slides| && ShapeTexts(slides[c.page - 1]) != [] && c.fileType == "pptx" &&
      c.metadata == map[] && c.filename == filename
    decreases |slides|
  {
    if slides != [] {
      var init := slides[..|slides| - 1];
      assert PptxTerminates(ing, init);
      PptxChunksFromTextSlides(ing, init, filename, priority, trusted);
      forall k | 0 <= k < |init| ensures init[k] == slides[k] { }
    }
  }

  /** `_ingest_image`: the single placeholder chunk that marks an image for OCR. */
  function ImageChunk(filepath: string, filename: string, priority: string, trusted: bool): (c: DocumentChunk)
    ensures c.chunkId == filename + "_img_1" && c.tokenCount == 0 && c.chunkIndex == 0 && c.page == 1
    ensures c.fileType == "image" && c.metadata == map["filepath" := Str(filepath)]
  {
    DocumentChunk(filename + "_img_1", filename, 1, "[IMAGE: " + filename + " - requires OCR processing]",
                  0, 0, "image", priority, trusted, map["filepath" := Str(filepath)])
  }

  /** What `ingest_file` needs for the chunking loops it runs to end. */
  predicate IngestTerminates(ing: Ingestor, filepath: string, ex: Extractor) {
    match Dispatch(filepath)
    case Ok(Pdf) => PdfTerminates(ing, ex.pdfPages(filepath))
    case Ok(Docx) => Terminates(ing, DocxText(ex.docxParagraphs(filepath)))
    case Ok(Pptx) => PptxTerminates(ing, ex.pptxSlides(filepath))
    case Ok(PlainText) => Terminates(ing, ex.readText(filepath))
    case Ok(Image) => true
    case Err(_) => true
  }

  /** The outcome of `ingest_file`: the chunks of the reader the extension selects, or
      the unsupported-type error. */
  function IngestResult(ing: Ingestor, filepath: string, priority: string, trusted: bool,
                        ex: Extractor): Result<seq<DocumentChunk>>
    requires IngestTerminates(ing, filepath, ex)
  {
    var filename := Basename(filepath);
    match Dispatch(filepath)
    case Err(e) => Err(e)
    case Ok(Pdf) => Ok(PdfChunks(ing, ex.pdfPages(filepath), filename, priority, trusted))
    case Ok(Docx) => Ok(PageChunks(ing, ing.tokenizer.encode(DocxText(ex.docxParagraphs(filepath))),
                                   filename, 1, "docx", priority, trusted, map[]))
    case Ok(Pptx) => Ok(PptxChunks(ing, ex.pptxSlides(filepath), filename, priority, trusted))
    case Ok(PlainText) => Ok(PageChunks(ing, ing.tokenizer.encode(ex.readText(filepath)),
                                        filename, 1, "txt", priority, trusted, map[]))
    case Ok(Image) => Ok([ImageChunk(filepath, filename, priority, trusted)])
  }

  /** `ingest_file`: dispatch on the lower-cased extension of the base name. */
  method IngestFile(ing: Ingestor, filepath: string, priority: string, trusted: bool, ex: Extractor)
    returns (r: Result<seq<DocumentChunk>>)
    requires IngestTerminates(ing, filepath, ex)
    ensures r == IngestResult(ing, filepath, priority, trusted, ex)
    ensures r.Err? <==> FormatOfExtension(Extension(filepath)).None?
  {
    var filename := Basename(filepath);
    match Dispatch(filepath) {
      case Err(e) =>
        r := Err(e);
      case Ok(Pdf) =>
        var cs := IngestPdf(ing, ex.pdfPages(filepath), filename, priority, trusted);
        r := Ok(cs);
      case Ok(Docx) =>
        var cs := IngestDocx(ing, ex.docxParagraphs(filepath), filename, priority, trusted);
        r := Ok(cs);
      case Ok(Pptx) =>
        var cs := IngestPptx(ing, ex.pptxSlides(filepath), filename, priority, trusted);
        r := Ok(cs);
      case Ok(PlainText) =>
        var cs := ChunkText(ing, ex.readText(filepath), filename, 1, "txt", priority, trusted, map[]);
        r := Ok(cs);
      case Ok(Image) =>
        r := Ok([ImageChunk(filepath, filename, priority, trusted)]);
    }
  }

  /** Ingested DOCX and plain-text files are chunked as a single page, page 1, and every
      chunk carries the file's name, the given priority and trust flag. */
  lemma SinglePageFormats(ing: Ingestor, filepath: string, priority: string, trusted: bool, ex: Extractor)
    requires IngestTerminates(ing, filepath, ex)
    requires Dispatch(filepath) == Ok(Docx) || Dispatch(filepath) == Ok(PlainText)
    ensures IngestResult(ing, filepath, priority, trusted, ex).Ok?
    ensures forall c :: c in IngestResult(ing, filepath, priority, trusted, ex).value ==>
      c.page == 1 && c.filename == Basename(filepath) && c.priority == priority && c.trusted == trusted
  {
    var r := IngestResult(ing, filepath, priority, trusted, ex);
    var filename := Basename(filepath);
    if Dispatch(filepath) == Ok(Docx) {
      PageChunksIndexedAndDistinct(ing, ing.tokenizer.encode(DocxText(ex.docxParagraphs(filepath))),
                                   filename, 1, "docx", priority, trusted, map[]);
    } else {
      PageChunksIndexedAndDistinct(ing, ing.tokenizer.encode(ex.readText(filepath)),
                                   filename, 1, "txt", priority, trusted, map[]);
    }
  }

  /** A plain-text file is chunked whatever its content: a whitespace-only file that the
      tokenizer turns into tokens gives chunks (with empty text), not zero chunks. */
  lemma BlankTextFileStillChunked(ing: Ingestor, filepath: string, priority: string, trusted: bool, ex: Extractor)
    requires IngestTerminates(ing, filepath, ex)
    requires Dispatch(filepath) == Ok(PlainText)
    requires |ing.tokenizer.encode(ex.readText(filepath))| > 0
    ensures IngestResult(ing, filepath, priority, trusted, ex).Ok?
    ensures |IngestResult(ing, filepath, priority, trusted, ex).value| > 0
  {
    ChunkCountZeroIff(|ing.tokenizer.encode(ex.readText(filepath))|, Stride(ing));
  }
}
