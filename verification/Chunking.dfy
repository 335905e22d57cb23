/** Splitting documents into chunks (src/finsage/ingestion/chunker.py), the chunk ids under
    which they are stored (src/finsage/ingestion/indexer.py), and putting a document together
    again from its rows (src/finsage/mcp/knowledge_server/__init__.py). */
module Chunking {
  import opened Options
  import opened Seqs
  import opened StableSort
  import opened Decimals
  import opened Texts

  // Segments

  const CHUNK_SIZE := 800
  const CHUNK_OVERLAP := 120

  /** Python's s[i:j] for i not negative. */
  function Slice(s: string, i: nat, j: int): string {
    var end := if j < 0 then Max(0, |s| + j) else Min(j, |s|);
    if i < end then s[i..end] else ""
  }

  function StepOf(size: int, overlap: int): nat { Max(1, size - overlap) }

  /** The segments from position i on. */
  function Segments(text: string, size: int, overlap: int, i: nat): seq<string>
    decreases |text| - i
  {
    if i >= |text| then [] else [Slice(text, i, i + size)] + Segments(text, size, overlap, i + StepOf(size, overlap))
  }

  function Nth(k: nat, step: nat): nat { k * step }

  /** Python's text[from:from + size], in native slices: an end before the start of the text
      counts from its end. */
  function CutAt(text: string, from: nat, size: int): string {
    if from >= |text| then ""
    else if from + size >= |text| then text[from..]
    else if size >= 0 then text[from..from + size]
    else if from + size < 0 <= size + |text| then text[from..|text| + from + size]
    else ""
  }

  /** The segments of a text start at the multiples of the step, as many as there are inside it,
      and each is as long as asked for or runs to the end. */
  ghost predicate AreSegments(segments: seq<string>, text: string, size: int, overlap: int) {
    var step := Max(1, size - overlap);
    && (forall k: nat :: k < |segments| <==> Nth(k, step) < |text|)
    && (forall k: nat | k < |segments| :: segments[k] == CutAt(text, Nth(k, step), size))
  }

  method SplitText(text: string, size: int, overlap: int) returns (segments: seq<string>)
    ensures segments == Segments(text, size, overlap, 0) && AreSegments(segments, text, size, overlap)
  {
    segments := [];
    var i := 0;
    var step := StepOf(size, overlap);
    while i < |text|
      invariant i >= 0
      invariant segments + Segments(text, size, overlap, i) == Segments(text, size, overlap, 0)
      decreases |text| - i
    {
      AddAssociates(segments, [Slice(text, i, i + size)], Segments(text, size, overlap, i + step));
      segments := segments + [Slice(text, i, i + size)];
      i := i + step;
    }
    assert segments + [] == segments;
    SegmentsAre(text, size, overlap);
  }

  function Take(s: string, n: nat): string { s[..Min(n, |s|)] }

  function JoinFirst(segments: seq<string>, n: nat): string {
    if segments == [] then "" else Take(segments[0], n) + JoinFirst(segments[1..], n)
  }

  lemma FirstOfSegment(text: string, size: int, step: nat, i: nat)
    requires i < |text| && 0 < step <= size
    ensures Take(Slice(text, i, i + size), step) == text[i..Min(i + step, |text|)]
  {}

  lemma {:induction false} RebuiltFrom(text: string, size: int, overlap: int, i: nat)
    requires 0 <= overlap < size && i <= |text|
    ensures JoinFirst(Segments(text, size, overlap, i), StepOf(size, overlap)) == text[i..]
    decreases |text| - i
  {
    if i < |text| {
      var step := StepOf(size, overlap);
      FirstOfSegment(text, size, step, i);
      var rest := Segments(text, size, overlap, i + step);
      assert ([Slice(text, i, i + size)] + rest)[1..] == rest;
      if i + step <= |text| {
        RebuiltFrom(text, size, overlap, i + step);
        assert text[i..i + step] + text[i + step..] == text[i..];
      } else {
        assert text[i..|text|] + "" == text[i..];
      }
    }
  }

  /** The first size - overlap characters of every segment, joined, are the text. */
  lemma Rebuilt(text: string, size: int, overlap: int)
    requires 0 <= overlap < size
    ensures JoinFirst(Segments(text, size, overlap, 0), size - overlap) == text
  {
    RebuiltFrom(text, size, overlap, 0);
    assert text[0..] == text;
  }

  /** Where the k-th segment after i starts. */
  function Start(i: nat, k: nat, step: nat): nat
    decreases k
  {
    if k == 0 then i else Start(i + step, k - 1, step)
  }

  lemma {:induction false} StartIs(i: nat, k: nat, step: nat)
    ensures Start(i, k, step) == i + k * step
    decreases k
  {
    if k > 0 {
      StartIs(i + step, k - 1, step);
      assert (k - 1) * step == k * step - step;
    }
  }

  lemma {:induction false} SegmentIs(text: string, size: int, overlap: int, i: nat, k: nat)
    requires k < |Segments(text, size, overlap, i)|
    ensures var start := Start(i, k, StepOf(size, overlap));
            start < |text| && Segments(text, size, overlap, i)[k] == Slice(text, start, start + size)
    decreases k
  {
    var step := StepOf(size, overlap);
    var rest := Segments(text, size, overlap, i + step);
    assert Segments(text, size, overlap, i) == [Slice(text, i, i + size)] + rest;
    if k > 0 {
      SegmentIs(text, size, overlap, i + step, k - 1);
      assert ([Slice(text, i, i + size)] + rest)[k] == rest[k - 1];
      assert Start(i, k, step) == Start(i + step, k - 1, step);
    }
  }

  lemma {:induction false} SegmentsCount(text: string, size: int, overlap: int, i: nat, k: nat)
    ensures k < |Segments(text, size, overlap, i)| <==> Start(i, k, StepOf(size, overlap)) < |text|
    decreases k
  {
    var step := StepOf(size, overlap);
    if k == 0 {
    } else if i < |text| {
      SegmentsCount(text, size, overlap, i + step, k - 1);
    } else {
      StartIs(i, k, step);
      assert k * step >= 0;
    }
  }

  lemma SlicesAreCuts(text: string, from: nat, size: int)
    requires from < |text|
    ensures Slice(text, from, from + size) == CutAt(text, from, size)
  {}

  lemma {:induction false} SegmentsAre(text: string, size: int, overlap: int)
    ensures AreSegments(Segments(text, size, overlap, 0), text, size, overlap)
  {
    var segments, step := Segments(text, size, overlap, 0), StepOf(size, overlap);
    forall k: nat ensures k < |segments| <==> Nth(k, step) < |text| {
      SegmentsCount(text, size, overlap, 0, k);
      StartIs(0, k, step);
    }
    forall k: nat | k < |segments| ensures segments[k] == CutAt(text, Nth(k, step), size) {
      SegmentIs(text, size, overlap, 0, k);
      StartIs(0, k, step);
      SlicesAreCuts(text, Nth(k, step), size);
    }
  }

  /** No segment is longer than asked for, and all but those that reach the end are as long. */
  lemma {:induction false} SegmentLengths(text: string, size: int, overlap: int, k: nat)
    requires size > 0 && k < |Segments(text, size, overlap, 0)|
    ensures var from := k * Max(1, size - overlap);
            |Segments(text, size, overlap, 0)[k]| == Min(size, |text| - from) > 0
  {
    SegmentsAre(text, size, overlap);
    assert Nth(k, StepOf(size, overlap)) < |text|;
  }

  /** Position p lies in the k-th segment. */
  predicate LiesIn(text: string, size: int, overlap: int, i: nat, p: nat, k: nat) {
    && k < |Segments(text, size, overlap, i)|
    && var start := Start(i, k, StepOf(size, overlap));
       start <= p < start + |Segments(text, size, overlap, i)[k]|
  }

  lemma {:induction false} Covered(text: string, size: int, overlap: int, i: nat, p: nat) returns (k: nat)
    requires 0 < size && i <= p < |text| && (overlap >= 0 || |text| <= i + size)
    ensures LiesIn(text, size, overlap, i, p, k)
    decreases |text| - i
  {
    if p < i + size {
      k := 0;
    } else {
      var step := StepOf(size, overlap);
      var j := Covered(text, size, overlap, i + step, p);
      k := j + 1;
      assert Segments(text, size, overlap, i)[k] == Segments(text, size, overlap, i + step)[j];
    }
  }

  ghost predicate InSomeSegment(text: string, size: int, overlap: int, p: nat) {
    exists k :: LiesIn(text, size, overlap, 0, p, k)
  }

  /** Segments of a size that is not positive miss the last character. */
  lemma LastIsMissed(text: string, size: int, overlap: int, k: nat)
    requires size <= 0 && text != ""
    ensures !LiesIn(text, size, overlap, 0, |text| - 1, k)
  {
    if k < |Segments(text, size, overlap, 0)| {
      SegmentIs(text, size, overlap, 0, k);
    }
  }

  /** Segments with gaps miss the first character after the first segment. */
  lemma GapIsMissed(text: string, size: int, overlap: int, k: nat)
    requires 0 < size < |text| && overlap < 0
    ensures !LiesIn(text, size, overlap, 0, size, k)
  {
    if k > 0 && k < |Segments(text, size, overlap, 0)| {
      StartIs(0, k, StepOf(size, overlap));
      assert k * StepOf(size, overlap) >= StepOf(size, overlap);
    }
  }

  /** Whatever size and overlap are asked for: every character lies in some segment exactly
      when there is none, or the size is positive and segments leave no gaps or one is enough. */
  lemma {:induction false} NothingLostExactlyWhen(text: string, size: int, overlap: int)
    ensures (forall p | 0 <= p < |text| :: InSomeSegment(text, size, overlap, p))
            <==> text == "" || (size > 0 && (overlap >= 0 || |text| <= size))
  {
    if text == "" {
    } else if size <= 0 {
      var last := |text| - 1;
      forall k: nat ensures !LiesIn(text, size, overlap, 0, last, k) {
        LastIsMissed(text, size, overlap, k);
      }
      assert !InSomeSegment(text, size, overlap, last);
    } else if overlap >= 0 || |text| <= size {
      forall p | 0 <= p < |text| ensures InSomeSegment(text, size, overlap, p) {
        var k := Covered(text, size, overlap, 0, p);
      }
    } else {
      forall k: nat ensures !LiesIn(text, size, overlap, 0, size, k) {
        GapIsMissed(text, size, overlap, k);
      }
      assert !InSomeSegment(text, size, overlap, size);
    }
  }

  // Chunks of a document

  datatype Page = Page(text: string, number: int, section: string)

  datatype Chunk = Chunk(documentId: string, index: nat, text: string, page: int, section: string)

  /** The chunk texts of one text: its segments, stripped, without the empty ones. */
  function Pieces(space: char -> bool, segments: seq<string>): seq<string> {
    if segments == [] then []
    else
      var piece := Strip(space, segments[|segments| - 1]);
      Pieces(space, segments[..|segments| - 1]) + if piece == "" then [] else [piece]
  }

  function PagePieces(space: char -> bool, page: Page, size: int, overlap: int): seq<string> {
    Pieces(space, Segments(Strip(space, page.text), size, overlap, 0))
  }

  /** Pieces become chunks, numbered from n on. */
  function Numbered(documentId: string, page: Page, pieces: seq<string>, n: nat): (r: seq<Chunk>)
    ensures |r| == |pieces|
    ensures forall i | 0 <= i < |pieces| :: r[i] == Chunk(documentId, n + i, pieces[i], page.number, page.section)
  {
    seq(|pieces|, i requires 0 <= i < |pieces| => Chunk(documentId, n + i, pieces[i], page.number, page.section))
  }

  lemma NumberedOneMore(documentId: string, page: Page, pieces: seq<string>, piece: string, n: nat)
    ensures Numbered(documentId, page, pieces + [piece], n) ==
            Numbered(documentId, page, pieces, n) + [Chunk(documentId, n + |pieces|, piece, page.number, page.section)]
  {}

  /** How a page is cut into pieces. */
  type Cutter = Page -> seq<string>

  function Cut(space: char -> bool, size: int, overlap: int): Cutter {
    (page: Page) => PagePieces(space, page, size, overlap)
  }

  function ChunksBy(cut: Cutter, documentId: string, pages: seq<Page>): seq<Chunk> {
    if pages == [] then []
    else
      var before, page := ChunksBy(cut, documentId, pages[..|pages| - 1]), pages[|pages| - 1];
      before + Numbered(documentId, page, cut(page), |before|)
  }

  function Chunks(space: char -> bool, documentId: string, pages: seq<Page>, size: int, overlap: int): seq<Chunk> {
    ChunksBy(Cut(space, size, overlap), documentId, pages)
  }

  /** None is the ValueError of a size that is not greater than the overlap. */
  method ChunkDocument(space: char -> bool, pages: seq<Page>, documentId: string,
                       size: int := CHUNK_SIZE, overlap: int := CHUNK_OVERLAP)
    returns (r: Option<seq<Chunk>>)
    ensures r == if size <= overlap then None else Some(Chunks(space, documentId, pages, size, overlap))
  {
    if size <= overlap {
      return None;
    }
    var chunks: seq<Chunk> := [];
    for i := 0 to |pages|
      invariant chunks == Chunks(space, documentId, pages[..i], size, overlap)
    {
      PrefixStep(pages, i);
      chunks := ChunkPage(space, pages[i], documentId, size, overlap, chunks);
    }
    WholePrefix(pages);
    return Some(chunks);
  }

  method ChunkPage(space: char -> bool, page: Page, documentId: string, size: int, overlap: int, chunks: seq<Chunk>)
    returns (r: seq<Chunk>)
    ensures r == chunks + Numbered(documentId, page, PagePieces(space, page, size, overlap), |chunks|)
  {
    var text := Strip(space, page.text);
    if text == "" {
      return chunks;
    }
    var segments := SplitText(text, size, overlap);
    r := AppendPieces(space, page, documentId, segments, chunks);
  }

  lemma PiecesOneMore(space: char -> bool, segments: seq<string>, i: nat)
    requires i < |segments|
    ensures var piece := Strip(space, segments[i]);
            Pieces(space, segments[..i + 1]) == Pieces(space, segments[..i]) + if piece == "" then [] else [piece]
  {
    PrefixStep(segments, i);
  }

  lemma AddTwice<T>(a: seq<T>, b: seq<T>, c: seq<T>, x: T)
    requires c == b + [x]
    ensures a + c == a + b + [x]
  {}

  lemma ChunksOneMore(documentId: string, page: Page, pieces: seq<string>, piece: string, chunks: seq<Chunk>)
    ensures var numbered := Numbered(documentId, page, pieces, |chunks|);
            chunks + numbered + [Chunk(documentId, |chunks| + |pieces|, piece, page.number, page.section)] ==
            chunks + Numbered(documentId, page, pieces + [piece], |chunks|)
  {
    NumberedOneMore(documentId, page, pieces, piece, |chunks|);
    AddTwice(chunks, Numbered(documentId, page, pieces, |chunks|),
             Numbered(documentId, page, pieces + [piece], |chunks|),
             Chunk(documentId, |chunks| + |pieces|, piece, page.number, page.section));
  }

  method AppendPieces(space: char -> bool, page: Page, documentId: string, segments: seq<string>, chunks: seq<Chunk>)
    returns (r: seq<Chunk>)
    ensures r == chunks + Numbered(documentId, page, Pieces(space, segments), |chunks|)
  {
    r := chunks;
    ghost var pieces: seq<string> := [];
    for i := 0 to |segments|
      invariant pieces == Pieces(space, segments[..i])
      invariant r == chunks + Numbered(documentId, page, pieces, |chunks|)
    {
      PiecesOneMore(space, segments, i);
      var piece := Strip(space, segments[i]);
      if piece != "" {
        ChunksOneMore(documentId, page, pieces, piece, chunks);
        r := r + [Chunk(documentId, |r|, piece, page.number, page.section)];
        pieces := pieces + [piece];
      }
    }
    WholePrefix(segments);
  }

  ghost predicate CountsUp(chunks: seq<Chunk>, documentId: string, n: nat) {
    forall i | 0 <= i < |chunks| :: chunks[i].index == n + i && chunks[i].documentId == documentId
  }

  ghost predicate CleanTexts(space: char -> bool, chunks: seq<Chunk>) {
    forall i | 0 <= i < |chunks| :: chunks[i].text != "" && Trimmed(space, chunks[i].text)
  }

  lemma CountsOn(a: seq<Chunk>, b: seq<Chunk>, documentId: string)
    requires CountsUp(a, documentId, 0) && CountsUp(b, documentId, |a|)
    ensures CountsUp(a + b, documentId, 0)
  {}

  lemma {:induction false} CountUpBy(cut: Cutter, documentId: string, pages: seq<Page>)
    ensures CountsUp(ChunksBy(cut, documentId, pages), documentId, 0)
  {
    if pages != [] {
      var before, page := ChunksBy(cut, documentId, pages[..|pages| - 1]), pages[|pages| - 1];
      CountUpBy(cut, documentId, pages[..|pages| - 1]);
      CountsOn(before, Numbered(documentId, page, cut(page), |before|), documentId);
    }
  }

  lemma {:induction false} CleanBy(space: char -> bool, cut: Cutter, documentId: string, pages: seq<Page>)
    requires forall page, i | 0 <= i < |cut(page)| :: cut(page)[i] != "" && Trimmed(space, cut(page)[i])
    ensures CleanTexts(space, ChunksBy(cut, documentId, pages))
  {
    if pages != [] {
      CleanBy(space, cut, documentId, pages[..|pages| - 1]);
    }
  }

  /** Chunk indices count up from 0, and every chunk carries the document's id and a trimmed,
      non-empty text. */
  lemma IndicesCountUp(space: char -> bool, documentId: string, pages: seq<Page>, size: int, overlap: int)
    ensures CountsUp(Chunks(space, documentId, pages, size, overlap), documentId, 0)
    ensures CleanTexts(space, Chunks(space, documentId, pages, size, overlap))
  {
    var cut := Cut(space, size, overlap);
    forall page, i | 0 <= i < |cut(page)| ensures cut(page)[i] != "" && Trimmed(space, cut(page)[i]) {
      PiecesClean(space, Segments(Strip(space, page.text), size, overlap, 0));
    }
    CountUpBy(cut, documentId, pages);
    CleanBy(space, cut, documentId, pages);
  }

  lemma {:induction false} PiecesClean(space: char -> bool, segments: seq<string>)
    ensures forall i | 0 <= i < |Pieces(space, segments)| ::
              Pieces(space, segments)[i] != "" && Trimmed(space, Pieces(space, segments)[i])
  {
    if segments != [] {
      PiecesClean(space, segments[..|segments| - 1]);
      StripTrims(space, segments[|segments| - 1]);
    }
  }

  // What the chunks are

  /** The k-th segment of a page, as cut from its stripped text. */
  function SegmentOf(space: char -> bool, page: Page, size: int, overlap: int, k: nat): string {
    CutAt(Strip(space, page.text), Nth(k, Max(1, size - overlap)), size)
  }

  /** The pieces of a list are its members that are not blank, stripped and in order; `ks` says
      where they come from. */
  ghost predicate ArePieces(space: char -> bool, segments: seq<string>, pieces: seq<string>, ks: seq<nat>) {
    && |ks| == |pieces|
    && (forall m | 0 <= m < |ks| :: ks[m] < |segments| && pieces[m] == Strip(space, segments[ks[m]]) != "")
    && (forall m, n | 0 <= m < n < |ks| :: ks[m] < ks[n])
    && forall k: nat | k < |segments| && Strip(space, segments[k]) != "" :: k in ks
  }

  lemma {:induction false} PieceOrigins(space: char -> bool, segments: seq<string>) returns (ks: seq<nat>)
    ensures ArePieces(space, segments, Pieces(space, segments), ks)
  {
    if segments == [] {
      ks := [];
    } else {
      var n := |segments| - 1;
      var before := PieceOrigins(space, segments[..n]);
      ks := if Strip(space, segments[n]) == "" then before else before + [n];
      OriginsOneMore(space, segments, Pieces(space, segments[..n]), before);
    }
  }

  lemma OriginsOneMore(space: char -> bool, segments: seq<string>, pieces: seq<string>, ks: seq<nat>)
    requires segments != [] && ArePieces(space, segments[..|segments| - 1], pieces, ks)
    ensures var n := |segments| - 1;
            var piece := Strip(space, segments[n]);
            if piece == "" then ArePieces(space, segments, pieces, ks)
            else ArePieces(space, segments, pieces + [piece], ks + [n])
  {
    var n := |segments| - 1;
    assert forall k | 0 <= k < n :: segments[..n][k] == segments[k];
  }

  /** Where a chunk comes from: which page, and which of its segments. */
  datatype Origin = Origin(page: nat, segment: nat)

  predicate Earlier(a: Origin, b: Origin) {
    a.page < b.page || (a.page == b.page && a.segment < b.segment)
  }

  /** Chunk j is the j-th segment that is not blank, page by page: stripped, with the page's
      number and section; none is missing. `cut` gives the segments of a page. */
  ghost predicate AreChunks(cut: (Page, nat) -> string, space: char -> bool, documentId: string, pages: seq<Page>,
                            chunks: seq<Chunk>, origins: seq<Origin>) {
    && |origins| == |chunks|
    && (forall j | 0 <= j < |chunks| ::
          origins[j].page < |pages| && IsChunk(cut, space, documentId, pages, chunks, origins, j))
    && (forall j, l | 0 <= j < l < |origins| :: Earlier(origins[j], origins[l]))
    && forall i: nat, k: nat | i < |pages| && Strip(space, cut(pages[i], k)) != "" :: Origin(i, k) in origins
  }

  ghost predicate IsChunk(cut: (Page, nat) -> string, space: char -> bool, documentId: string, pages: seq<Page>,
                          chunks: seq<Chunk>, origins: seq<Origin>, j: nat)
    requires j < |chunks| && j < |origins| && origins[j].page < |pages|
  {
    var page, text := pages[origins[j].page], Strip(space, cut(pages[origins[j].page], origins[j].segment));
    text != "" && chunks[j] == Chunk(documentId, j, text, page.number, page.section)
  }
  /** The same of one page. */
  ghost predicate ArePagePieces(cut: (Page, nat) -> string, space: char -> bool, page: Page,
                                pieces: seq<string>, ks: seq<nat>) {
    && |ks| == |pieces|
    && (forall m | 0 <= m < |ks| :: pieces[m] == Strip(space, cut(page, ks[m])) != "")
    && (forall m, n | 0 <= m < n < |ks| :: ks[m] < ks[n])
    && forall k: nat | Strip(space, cut(page, k)) != "" :: k in ks
  }

  ghost predicate HavePieces(cut: (Page, nat) -> string, space: char -> bool, page: Page, pieces: seq<string>) {
    exists ks: seq<nat> :: ArePagePieces(cut, space, page, pieces, ks)
  }

  function OriginsOf(n: nat, ks: seq<nat>): seq<Origin> {
    seq(|ks|, m requires 0 <= m < |ks| => Origin(n, ks[m]))
  }

  lemma {:induction false} OnePageMore(cut: (Page, nat) -> string, space: char -> bool, documentId: string,
                                       pages: seq<Page>, chunks: seq<Chunk>, origins: seq<Origin>,
                                       pieces: seq<string>, ks: seq<nat>)
    requires pages != [] && AreChunks(cut, space, documentId, pages[..|pages| - 1], chunks, origins)
    requires ArePagePieces(cut, space, pages[|pages| - 1], pieces, ks)
    ensures var n := |pages| - 1;
            AreChunks(cut, space, documentId, pages,
                      chunks + Numbered(documentId, pages[n], pieces, |chunks|), origins + OriginsOf(n, ks))
  {
    var n := |pages| - 1;
    var before, added := pages[..n], Numbered(documentId, pages[n], pieces, |chunks|);
    var all, from := chunks + added, origins + OriginsOf(n, ks);
    forall j | 0 <= j < |all|
      ensures from[j].page < |pages| && IsChunk(cut, space, documentId, pages, all, from, j)
    {
      if j < |chunks| {
        assert IsChunk(cut, space, documentId, before, chunks, origins, j);
        assert from[j] == origins[j] && before[origins[j].page] == pages[origins[j].page];
      } else {
        assert from[j] == Origin(n, ks[j - |chunks|]);
      }
    }
    forall i: nat, k: nat | i < |pages| && Strip(space, cut(pages[i], k)) != "" ensures Origin(i, k) in from {
      if i < n {
        assert before[i] == pages[i];
        assert Origin(i, k) in origins;
      } else {
        var m :| 0 <= m < |ks| && ks[m] == k;
        assert from[|origins| + m] == Origin(n, k);
      }
    }
    OriginsInOrder(origins, n, ks);
  }

  lemma OriginsInOrder(origins: seq<Origin>, n: nat, ks: seq<nat>)
    requires forall j, l | 0 <= j < l < |origins| :: Earlier(origins[j], origins[l])
    requires forall j | 0 <= j < |origins| :: origins[j].page < n
    requires forall m, l | 0 <= m < l < |ks| :: ks[m] < ks[l]
    ensures var all := origins + OriginsOf(n, ks);
            forall j, l | 0 <= j < l < |all| :: Earlier(all[j], all[l])
  {}

  lemma {:induction false} OriginsBy(cutter: Cutter, cut: (Page, nat) -> string, space: char -> bool,
                                     documentId: string, pages: seq<Page>)
    returns (origins: seq<Origin>)
    requires forall page :: HavePieces(cut, space, page, cutter(page))
    ensures AreChunks(cut, space, documentId, pages, ChunksBy(cutter, documentId, pages), origins)
  {
    if pages == [] {
      origins := [];
    } else {
      var n := |pages| - 1;
      var before := OriginsBy(cutter, cut, space, documentId, pages[..n]);
      assert HavePieces(cut, space, pages[n], cutter(pages[n]));
      var ks: seq<nat> :| ArePagePieces(cut, space, pages[n], cutter(pages[n]), ks);
      origins := before + OriginsOf(n, ks);
      OnePageMore(cut, space, documentId, pages, ChunksBy(cutter, documentId, pages[..n]), before,
                  cutter(pages[n]), ks);
    }
  }

  function SegmentCutter(space: char -> bool, size: int, overlap: int): (Page, nat) -> string {
    (page: Page, k: nat) => SegmentOf(space, page, size, overlap, k)
  }

  lemma {:induction false} PagePiecesAre(space: char -> bool, page: Page, size: int, overlap: int)
    returns (ks: seq<nat>)
    ensures ArePagePieces(SegmentCutter(space, size, overlap), space, page, PagePieces(space, page, size, overlap), ks)
  {
    var cut, text := SegmentCutter(space, size, overlap), Strip(space, page.text);
    var segments, step := Segments(text, size, overlap, 0), Max(1, size - overlap);
    SegmentsAre(text, size, overlap);
    ks := PieceOrigins(space, segments);
    forall k: nat ensures cut(page, k) == if k < |segments| then segments[k] else "" {
      assert k < |segments| <==> Nth(k, step) < |text|;
    }
    assert Strip(space, "") == "";
  }

  /** The chunks of a document are its pages' segments, stripped, numbered and without the blank
      ones: each once, none missing, page by page and in their order. */
  lemma {:induction false} ChunksAre(space: char -> bool, documentId: string, pages: seq<Page>, size: int, overlap: int)
    returns (origins: seq<Origin>)
    ensures AreChunks(SegmentCutter(space, size, overlap), space, documentId, pages,
                      Chunks(space, documentId, pages, size, overlap), origins)
  {
    var cut, cutter := SegmentCutter(space, size, overlap), Cut(space, size, overlap);
    forall page ensures HavePieces(cut, space, page, cutter(page)) {
      var ks := PagePiecesAre(space, page, size, overlap);
      assert ArePagePieces(cut, space, page, cutter(page), ks);
    }
    origins := OriginsBy(cutter, cut, space, documentId, pages);
  }

  lemma {:induction false} StripShortens(space: char -> bool, s: string)
    ensures |Strip(space, s)| <= |s|
  {
    LStripShortens(space, s);
    RStripEnds(space, LStrip(space, s));
  }

  /** No chunk is longer than asked for. */
  lemma {:induction false} ChunksAreShort(space: char -> bool, documentId: string, pages: seq<Page>, size: int,
                                          overlap: int, j: nat)
    requires size > 0 && j < |Chunks(space, documentId, pages, size, overlap)|
    ensures |Chunks(space, documentId, pages, size, overlap)[j].text| <= size
  {
    var origins := ChunksAre(space, documentId, pages, size, overlap);
    var cut := SegmentCutter(space, size, overlap);
    assert IsChunk(cut, space, documentId, pages, Chunks(space, documentId, pages, size, overlap), origins, j);
    StripShortens(space, cut(pages[origins[j].page], origins[j].segment));
  }

  // Nothing but white space is lost

  lemma StretchOfStretch(text: string, a: nat, b: nat, c: nat, d: nat)
    requires a <= b <= |text| && c <= d <= b - a
    ensures text[a..b][c..d] == text[a + c..a + d]
  {
    var x, y := text[a..b][c..d], text[a + c..a + d];
    assert |x| == |y| && forall k | 0 <= k < |x| :: x[k] == y[k];
  }

  lemma {:induction false} PieceOf(space: char -> bool, segments: seq<string>, k: nat) returns (m: nat)
    requires k < |segments| && Strip(space, segments[k]) != ""
    ensures m < |Pieces(space, segments)| && Pieces(space, segments)[m] == Strip(space, segments[k])
    decreases |segments|
  {
    var n := |segments| - 1;
    if k < n {
      m := PieceOf(space, segments[..n], k);
    } else {
      m := |Pieces(space, segments[..n])|;
    }
  }

  lemma SliceIs(text: string, i: nat, size: int)
    requires i < |text| && size >= 0
    ensures var s := Slice(text, i, i + size); i + |s| <= |text| && s == text[i..i + |s|]
  {}

  /** A visible character of a segment lies in the stretch of the text that a piece is. */
  lemma {:induction false} InPieceOfSegment(space: char -> bool, text: string, segments: seq<string>, k: nat,
                                            start: nat, p: nat)
      returns (m: nat, a: nat, b: nat)
    requires k < |segments| && IsStretch(segments[k], text, start, start + |segments[k]|)
    requires start <= p < start + |segments[k]| && !space(text[p])
    ensures m < |Pieces(space, segments)| && a <= p < b && IsStretch(Pieces(space, segments)[m], text, a, b)
  {
    var c, d := StripKeeps(space, segments[k], p - start);
    m := PieceOf(space, segments, k);
    a, b := start + c, start + d;
    StretchInside(Strip(space, segments[k]), segments[k], text, start, c, d);
  }

  /** The same within the stripped text of a page. */
  lemma {:induction false} InSomeSegmentPiece(space: char -> bool, text: string, size: int, overlap: int, p: nat)
      returns (m: nat, a: nat, b: nat)
    requires 0 <= overlap < size && p < |text| && !space(text[p])
    ensures var pieces := Pieces(space, Segments(text, size, overlap, 0));
            m < |pieces| && a <= p < b && IsStretch(pieces[m], text, a, b)
  {
    var k := Covered(text, size, overlap, 0, p);
    SegmentIs(text, size, overlap, 0, k);
    var start := Start(0, k, StepOf(size, overlap));
    SliceIs(text, start, size);
    m, a, b := InPieceOfSegment(space, text, Segments(text, size, overlap, 0), k, start, p);
  }

  lemma StretchInside(piece: string, segment: string, text: string, start: nat, c: nat, d: nat)
    requires IsStretch(segment, text, start, start + |segment|) && IsStretch(piece, segment, c, d)
    ensures IsStretch(piece, text, start + c, start + d)
  {
    StretchOfStretch(text, start, start + |segment|, c, d);
  }

  /** A character of a page that is not white space lies in the stretch of the page that one of
      its pieces is. */
  lemma {:induction false} InSomePiece(space: char -> bool, page: Page, size: int, overlap: int, p: nat)
      returns (m: nat, a: nat, b: nat)
    requires 0 <= overlap < size && p < |page.text| && !space(page.text[p])
    ensures m < |PagePieces(space, page, size, overlap)| && a <= p < b
    ensures IsStretch(PagePieces(space, page, size, overlap)[m], page.text, a, b)
  {
    var from, to := StripKeeps(space, page.text, p);
    var c, d;
    m, c, d := InSomeSegmentPiece(space, Strip(space, page.text), size, overlap, p - from);
    a, b := from + c, from + d;
    StretchOfStretch(page.text, from, to, c, d);
  }

  lemma {:induction false} PieceIsChunk(cut: Cutter, documentId: string, pages: seq<Page>, i: nat, m: nat)
    returns (j: nat)
    requires i < |pages| && m < |cut(pages[i])|
    ensures j < |ChunksBy(cut, documentId, pages)|
    ensures var c := ChunksBy(cut, documentId, pages)[j];
            c.text == cut(pages[i])[m] && c.page == pages[i].number && c.section == pages[i].section
    decreases |pages|
  {
    var n := |pages| - 1;
    var before := ChunksBy(cut, documentId, pages[..n]);
    var added := Numbered(documentId, pages[n], cut(pages[n]), |before|);
    assert ChunksBy(cut, documentId, pages) == before + added;
    if i < n {
      j := PieceIsChunk(cut, documentId, pages[..n], i, m);
    } else {
      j := |before| + m;
    }
  }

  ghost predicate InSomeChunk(chunks: seq<Chunk>, page: Page, p: nat) {
    exists j, a, b :: 0 <= j < |chunks| && chunks[j].page == page.number && a <= p < b &&
      IsStretch(chunks[j].text, page.text, a, b)
  }

  /** Every character that is not white space lands in some chunk of its page. */
  lemma {:induction false} NothingLost(space: char -> bool, documentId: string, pages: seq<Page>, size: int,
                                       overlap: int, i: nat, p: nat)
    requires 0 <= overlap < size && i < |pages| && p < |pages[i].text| && !space(pages[i].text[p])
    ensures InSomeChunk(Chunks(space, documentId, pages, size, overlap), pages[i], p)
  {
    var m, a, b := InSomePiece(space, pages[i], size, overlap, p);
    var j := PieceIsChunk(Cut(space, size, overlap), documentId, pages, i, m);
    assert IsStretch(Chunks(space, documentId, pages, size, overlap)[j].text, pages[i].text, a, b);
  }

  // Chunk ids

  function ChunkId(documentId: string, index: nat): string { documentId + "_" + Digits(index) }

  /** What follows the last underscore; everything if there is none. */
  function Tail(s: string): string {
    if s == "" || s[|s| - 1] == '_' then "" else Tail(s[..|s| - 1]) + [s[|s| - 1]]
  }

  /** int(chunk_id.rsplit("_", 1)[-1]), and 0 where that raises. */
  function ChunkIndex(id: string): nat {
    match Parse(Tail(id)) case Some(n) => n case None => 0
  }

  lemma {:induction false} TailOf(s: string, t: string)
    requires '_' !in t
    ensures Tail(s + "_" + t) == t
    decreases |t|
  {
    if t == "" {
      assert s + "_" + t == s + "_";
    } else {
      var init, last := t[..|t| - 1], t[|t| - 1];
      assert last in t;
      assert (s + "_" + t)[..|s + "_" + t| - 1] == s + "_" + init;
      TailOf(s, init);
    }
  }

  lemma {:induction false} IndexComesBack(documentId: string, index: nat)
    ensures Tail(ChunkId(documentId, index)) == Digits(index)
    ensures ChunkIndex(ChunkId(documentId, index)) == index
  {
    ParseDigits(index);
    TailOf(documentId, Digits(index));
  }

  /** Two chunks share an id only if they are the same chunk, whatever underscores the document
      ids contain. */
  lemma {:induction false} ChunkIdInjective(d: string, i: nat, e: string, j: nat)
    requires ChunkId(d, i) == ChunkId(e, j)
    ensures d == e && i == j
  {
    IndexComesBack(d, i);
    IndexComesBack(e, j);
    assert ChunkId(d, i)[..|d|] == d && ChunkId(e, j)[..|e|] == e;
  }

  // Reading a document back

  datatype Row = Row(chunkId: string, page: int, text: string)

  datatype Document = Document(pages: seq<int>, content: string)

  function RowOf(c: Chunk): Row { Row(ChunkId(c.documentId, c.index), c.page, c.text) }

  function RowIndex(r: Row): real { ChunkIndex(r.chunkId) as real }

  function PageOf(r: Row): int { r.page }

  function TextOf(r: Row): string { r.text }

  function Joined(texts: seq<string>): string {
    if texts == [] then ""
    else if |texts| == 1 then texts[0]
    else texts[0] + "\n\n" + Joined(texts[1..])
  }

  function DocumentOf(rows: seq<Row>): Document {
    Document(Map(PageOf, rows), Joined(Map(TextOf, rows)))
  }

  /** The texts in order, with a blank line between any two neighbours. */
  lemma {:induction false} JoinedSplits(a: seq<string>, b: seq<string>)
    requires a != [] && b != []
    ensures Joined(a + b) == Joined(a) + "\n\n" + Joined(b)
    ensures |a| == 1 ==> Joined(a) == a[0]
  {
    assert (a + b)[1..] == a[1..] + b;
    if |a| > 1 {
      JoinedSplits(a[1..], b);
    } else {
      assert a[1..] + b == b;
    }
  }

  /** None is the error for a document that has no rows. */
  function GetDocument(rows: seq<Row>): (r: Option<Document>)
    ensures r.None? <==> rows == []
  {
    if rows == [] then None else Some(DocumentOf(SortBy(rows, RowIndex)))
  }

  ghost predicate StrictlySorted<T>(s: seq<T>, key: T -> real) {
    forall i, j | 0 <= i < j < |s| :: key(s[i]) < key(s[j])
  }

  lemma SameFirst<T>(a: seq<T>, b: seq<T>, key: T -> real)
    requires StrictlySorted(a, key) && Sorted(b, key) && multiset(a) == multiset(b) && a != []
    ensures b != [] && a[0] == b[0]
  {
    assert a[0] in multiset(b);
    var j :| 0 <= j < |b| && b[j] == a[0];
    assert b[0] in multiset(a);
    var i :| 0 <= i < |a| && a[i] == b[0];
    assert key(b[0]) <= key(a[0]);
  }

  lemma {:induction false} OneSortedOrder<T>(a: seq<T>, b: seq<T>, key: T -> real)
    requires StrictlySorted(a, key) && Sorted(b, key) && multiset(a) == multiset(b)
    ensures a == b
  {
    if a == [] {
      assert |multiset(b)| == 0;
    } else {
      SameFirst(a, b, key);
      assert a == [a[0]] + a[1..];
      assert b == [b[0]] + b[1..];
      assert multiset(a[1..]) == multiset(a) - multiset{a[0]};
      assert multiset(b[1..]) == multiset(b) - multiset{b[0]};
      OneSortedOrder(a[1..], b[1..], key);
    }
  }

  /** From the stored rows in any order, the document comes back with its chunks in order. */
  lemma {:induction false} DocumentComesBack(space: char -> bool, documentId: string, pages: seq<Page>,
                                             size: int, overlap: int, rows: seq<Row>)
    requires var chunks := Chunks(space, documentId, pages, size, overlap);
             chunks != [] && multiset(rows) == multiset(Map(RowOf, chunks))
    ensures var chunks := Chunks(space, documentId, pages, size, overlap);
            GetDocument(rows) == Some(Document(seq(|chunks|, i requires 0 <= i < |chunks| => chunks[i].page),
                                               Joined(seq(|chunks|, i requires 0 <= i < |chunks| => chunks[i].text))))
  {
    IndicesCountUp(space, documentId, pages, size, overlap);
    ChunksComeBack(documentId, Chunks(space, documentId, pages, size, overlap), rows);
  }

  lemma {:induction false} ChunksComeBack(documentId: string, chunks: seq<Chunk>, rows: seq<Row>)
    requires CountsUp(chunks, documentId, 0) && chunks != [] && multiset(rows) == multiset(Map(RowOf, chunks))
    ensures GetDocument(rows) == Some(Document(seq(|chunks|, i requires 0 <= i < |chunks| => chunks[i].page),
                                               Joined(seq(|chunks|, i requires 0 <= i < |chunks| => chunks[i].text))))
  {
    var stored := Map(RowOf, chunks);
    forall i | 0 <= i < |stored| ensures RowIndex(stored[i]) == i as real {
      assert chunks[i].documentId == documentId && chunks[i].index == i;
      IndexComesBack(documentId, i);
    }
    SortByMultiset(rows, RowIndex);
    SortByIsStable(rows, RowIndex);
    OneSortedOrder(stored, SortBy(rows, RowIndex), RowIndex);
    assert |multiset(rows)| == |stored| > 0;
    StoredShow(chunks);
  }

  lemma StoredShow(chunks: seq<Chunk>)
    ensures Map(PageOf, Map(RowOf, chunks)) == seq(|chunks|, i requires 0 <= i < |chunks| => chunks[i].page)
    ensures Map(TextOf, Map(RowOf, chunks)) == seq(|chunks|, i requires 0 <= i < |chunks| => chunks[i].text)
  {}
}
