/** The ingestion pipeline's overlapping character-window chunker
    (`chunk_text`). Sizes are given in tokens and turned into characters at
    four characters per token; a text that fits in one window is returned
    whole, otherwise windows of that width are cut, each starting `overlap`
    characters before the previous one ended, and the last window takes the
    remainder. */
module Chunker {

  /** Characters per token in the size approximation. */
  const CharsPerToken: nat := 4
  /** Default sizes, in tokens. */
  const ChunkSizeTokens: int := 512
  const OverlapSizeTokens: int := 51

  function Min(a: int, b: int): int
  {
    if a <= b then a else b
  }

  /** The windows cut from `start` on: `width` characters each, the next one
      starting `overlap` characters before the previous one ended, the last one
      taking what remains. */
  function ChunkFrom(text: string, start: nat, width: nat, overlap: int): seq<string>
    requires width > 0 && overlap < width
    decreases |text| - start
  {
    if start >= |text| then []
    else if start + width >= |text| then [text[start..]]
    else [text[start..start + width]] + ChunkFrom(text, start + width - overlap, width, overlap)
  }

  /** The inputs on which the model defines `chunk_text`: a text that fits in
      one window (returned whole whatever the sizes), or positive window and
      overlap sizes with the overlap smaller than the window, which makes
      every step move forward. */
  predicate Chunkable(text: string, chunkSize: int, overlapSize: int)
  {
    |text| <= chunkSize * CharsPerToken || (chunkSize > 0 && overlapSize < chunkSize)
  }

  /** What `chunk_text(text, chunk_size, overlap_size)` returns. */
  function Chunks(text: string, chunkSize: int, overlapSize: int): seq<string>
    requires Chunkable(text, chunkSize, overlapSize)
  {
    var width := chunkSize * CharsPerToken;
    if |text| <= width then [text]
    else ChunkFrom(text, 0, width, overlapSize * CharsPerToken)
  }

  /** `chunk_text` */
  method ChunkText(text: string, chunkSize: int, overlapSize: int) returns (chunks: seq<string>)
    requires Chunkable(text, chunkSize, overlapSize)
    ensures chunks == Chunks(text, chunkSize, overlapSize)
  {
    var width := chunkSize * 4;
    var overlap := overlapSize * 4;
    if |text| <= width {
      return [text];
    }
    chunks := [];
    var start := 0;
    assert [] + ChunkFrom(text, 0, width, overlap) == ChunkFrom(text, 0, width, overlap);
    while start < |text|
      invariant chunks + ChunkFrom(text, start, width, overlap) == ChunkFrom(text, 0, width, overlap)
      decreases |text| - start
    {
      var end := start + width;
      if end >= |text| {
        // the last chunk takes the remainder
        assert ChunkFrom(text, start, width, overlap) == [text[start..]];
        chunks := chunks + [text[start..]];
        break;
      }
      var rest := ChunkFrom(text, end - overlap, width, overlap);
      assert ChunkFrom(text, start, width, overlap) == [text[start..end]] + rest;
      assert chunks + ([text[start..end]] + rest) == (chunks + [text[start..end]]) + rest;
      chunks := chunks + [text[start..end]];
      start := end - overlap;
    }
  }

  // ---------------------------------------------------------------------------
  // Where each chunk lies in the text
  // ---------------------------------------------------------------------------

  /** Where chunk i of the windows cut from `start` begins: each window
      begins `step` characters after the one before it. */
  function ChunkStart(start: nat, step: nat, i: nat): nat
  {
    if i == 0 then start else ChunkStart(start, step, i - 1) + step
  }

  lemma {:induction false} ChunkStartShift(start: nat, step: nat, i: nat)
    ensures ChunkStart(start + step, step, i) == ChunkStart(start, step, i + 1)
  {
    if i > 0 {
      ChunkStartShift(start, step, i - 1);
    }
  }

  /** Chunk i of the windows cut from `start` is the slice that begins at
      ChunkStart and is `width` long, or cut short by the end of the text;
      only the last one may reach the end, and with a non-negative overlap
      the last one does. */
  lemma {:induction false} ChunkFromAt(text: string, start: nat, width: nat, overlap: int, i: nat)
    requires width > 0 && overlap < width
    requires i < |ChunkFrom(text, start, width, overlap)|
    ensures var pos := ChunkStart(start, width - overlap, i);
      && pos < |text|
      && ChunkFrom(text, start, width, overlap)[i] == text[pos..Min(pos + width, |text|)]
      && (i + 1 < |ChunkFrom(text, start, width, overlap)| ==> pos + width < |text|)
      && (i + 1 == |ChunkFrom(text, start, width, overlap)| && overlap >= 0 ==> pos + width >= |text|)
    decreases i
  {
    var cs := ChunkFrom(text, start, width, overlap);
    var next := start + width - overlap;
    if start + width >= |text| {
      assert cs == [text[start..]];
      assert i == 0 && ChunkStart(start, width - overlap, i) == start;
      assert Min(start + width, |text|) == |text|;
      assert cs[i] == text[start..|text|];
    } else {
      var rest := ChunkFrom(text, next, width, overlap);
      assert cs == [text[start..start + width]] + rest;
      if i == 0 {
        assert ChunkStart(start, width - overlap, i) == start;
        assert cs[i] == text[start..Min(start + width, |text|)];
        if overlap >= 0 {
          assert next < |text|;
          assert |rest| >= 1;
        }
      } else {
        ChunkFromAt(text, next, width, overlap, i - 1);
        ChunkStartShift(start, width - overlap, i - 1);
        assert cs[i] == rest[i - 1];
      }
    }
  }

  /** A text that fits in one window comes back whole. */
  lemma ShortTextIsOneChunk(text: string, chunkSize: int, overlapSize: int)
    requires |text| <= chunkSize * CharsPerToken
    ensures Chunks(text, chunkSize, overlapSize) == [text]
  {
  }

  /** A longer text is cut into at least two chunks; every chunk but the last
      is exactly one window wide, and the last is non-empty, at most one window
      wide and ends where the text ends. */
  lemma ChunkSizes(text: string, chunkSize: int, overlapSize: int)
    requires 0 <= overlapSize < chunkSize
    requires |text| > chunkSize * CharsPerToken
    ensures var cs := Chunks(text, chunkSize, overlapSize);
      && |cs| >= 2
      && (forall i :: 0 <= i < |cs| - 1 ==> |cs[i]| == chunkSize * CharsPerToken)
      && 0 < |cs[|cs| - 1]| <= chunkSize * CharsPerToken
      && cs[|cs| - 1] == text[|text| - |cs[|cs| - 1]|..]
  {
    var width := chunkSize * CharsPerToken;
    var overlap := overlapSize * CharsPerToken;
    var cs := ChunkFrom(text, 0, width, overlap);
    ChunkFromCons(text, 0, width, overlap);
    ChunkFromHead(text, width - overlap, width, overlap);
    forall i | 0 <= i < |cs| - 1 ensures |cs[i]| == width {
      ChunkFromAt(text, 0, width, overlap, i);
    }
    LastChunk(text, width, overlap);
  }

  /** The last window is non-empty, at most one window wide, and is the end of
      the text. */
  lemma LastChunk(text: string, width: nat, overlap: nat)
    requires overlap < width
    requires ChunkFrom(text, 0, width, overlap) != []
    ensures var cs := ChunkFrom(text, 0, width, overlap);
      && 0 < |cs[|cs| - 1]| <= width
      && cs[|cs| - 1] == text[|text| - |cs[|cs| - 1]|..]
  {
    var cs := ChunkFrom(text, 0, width, overlap);
    ChunkFromAt(text, 0, width, overlap, |cs| - 1);
    var pos := ChunkStart(0, width - overlap, |cs| - 1);
    assert Min(pos + width, |text|) == |text|;
    assert cs[|cs| - 1] == text[pos..];
  }

  /** Chunk i is longer than the overlap and begins with the last `overlap`
      characters of chunk i - 1. */
  predicate OverlapsPrevious(cs: seq<string>, i: nat, overlap: nat)
    requires 0 < i < |cs|
  {
    |cs[i]| > overlap && overlap <= |cs[i - 1]| && cs[i][..overlap] == cs[i - 1][|cs[i - 1]| - overlap..]
  }

  /** Two windows of `text`, the second starting `overlap` characters before
      the first ends, share those characters. */
  lemma WindowsOverlap(text: string, before: nat, pos: nat, end: nat, width: nat, overlap: nat)
    requires pos + overlap == before + width <= |text| && overlap < width
    requires pos + overlap < end <= |text|
    ensures text[pos..end][..overlap] == text[before..before + width][width - overlap..]
  {
    assert text[pos..end][..overlap] == text[pos..pos + overlap];
    assert text[before..before + width][width - overlap..] == text[pos..before + width];
  }

  /** Chunk i begins `overlap` characters before chunk i - 1, a full window,
      ends. */
  lemma OverlapOfWindows(text: string, cs: seq<string>, width: nat, overlap: nat, i: nat, before: nat, pos: nat)
    requires overlap < width && 0 < i < |cs|
    requires before + width < |text| && pos == before + width - overlap
    requires cs[i - 1] == text[before..Min(before + width, |text|)]
    requires cs[i] == text[pos..Min(pos + width, |text|)]
    ensures OverlapsPrevious(cs, i, overlap)
  {
    WindowsOverlap(text, before, pos, Min(pos + width, |text|), width, overlap);
  }

  lemma OverlapAt(text: string, width: nat, overlap: nat, i: nat)
    requires overlap < width
    requires 0 < i < |ChunkFrom(text, 0, width, overlap)|
    ensures OverlapsPrevious(ChunkFrom(text, 0, width, overlap), i, overlap)
  {
    ChunkFromAt(text, 0, width, overlap, i - 1);
    ChunkFromAt(text, 0, width, overlap, i);
    OverlapOfWindows(text, ChunkFrom(text, 0, width, overlap), width, overlap, i,
      ChunkStart(0, width - overlap, i - 1), ChunkStart(0, width - overlap, i));
  }

  /** Adjacent chunks share exactly the overlap: the next chunk begins with
      the last 4 * overlap_size characters of the one before it. */
  lemma ChunksOverlap(text: string, chunkSize: int, overlapSize: int)
    requires 0 <= overlapSize < chunkSize
    ensures var cs := Chunks(text, chunkSize, overlapSize);
      forall i :: 0 < i < |cs| ==> OverlapsPrevious(cs, i, overlapSize * CharsPerToken)
  {
    var width := chunkSize * CharsPerToken;
    var overlap := overlapSize * CharsPerToken;
    if |text| > width {
      var cs := ChunkFrom(text, 0, width, overlap);
      forall i | 0 < i < |cs| ensures OverlapsPrevious(cs, i, overlap) {
        OverlapAt(text, width, overlap, i);
      }
    }
  }

  // ---------------------------------------------------------------------------
  // Reassembly
  // ---------------------------------------------------------------------------

  /** `s[n:]` */
  function Drop(s: string, n: nat): string
  {
    if n <= |s| then s[n..] else []
  }

  /** Each chunk with its first `overlap` characters removed, concatenated. */
  function JoinTails(chunks: seq<string>, overlap: nat): string
  {
    if chunks == [] then [] else Drop(chunks[0], overlap) + JoinTails(chunks[1..], overlap)
  }

  /** The first chunk followed by every later chunk without its overlap. */
  function Reassemble(chunks: seq<string>, overlap: nat): string
  {
    if chunks == [] then [] else chunks[0] + JoinTails(chunks[1..], overlap)
  }

  lemma DropPrefix(a: string, b: string, t: string, n: nat)
    requires a + b == t && n <= |a|
    ensures Drop(a, n) + b == t[n..]
  {
    assert t[n..] == a[n..] + b;
  }

  lemma ReassembleCons(first: string, rest: seq<string>, overlap: nat)
    ensures Reassemble([first] + rest, overlap) == first + JoinTails(rest, overlap)
  {
    assert ([first] + rest)[1..] == rest;
  }

  lemma ReassembleSingle(chunk: string, overlap: nat)
    ensures Reassemble([chunk], overlap) == chunk
  {
    assert [chunk][1..] == [];
    assert chunk + [] == chunk;
  }

  /** One window followed by chunks that reassemble to the text from
      `overlap` characters before that window's end reassembles to the text
      from the window's start. */
  lemma ReassembleStep(text: string, start: nat, width: nat, overlap: nat, rest: seq<string>)
    requires overlap < width && start + width < |text|
    requires rest != [] && |rest[0]| >= overlap
    requires Reassemble(rest, overlap) == text[start + width - overlap..]
    ensures Reassemble([text[start..start + width]] + rest, overlap) == text[start..]
  {
    var next := start + width - overlap;
    var tail := JoinTails(rest[1..], overlap);
    DropPrefix(rest[0], tail, text[next..], overlap);
    assert text[next..][overlap..] == text[start + width..];
    assert JoinTails(rest, overlap) == text[start + width..];
    ReassembleCons(text[start..start + width], rest, overlap);
    assert text[start..] == text[start..start + width] + text[start + width..];
  }

  lemma ChunkFromCons(text: string, start: nat, width: nat, overlap: nat)
    requires overlap < width && start + width < |text|
    ensures ChunkFrom(text, start, width, overlap)
      == [text[start..start + width]] + ChunkFrom(text, start + width - overlap, width, overlap)
  {
  }

  /** The first window cut from a position inside the text. */
  lemma ChunkFromHead(text: string, start: nat, width: nat, overlap: nat)
    requires overlap < width && start < |text|
    ensures ChunkFrom(text, start, width, overlap) != []
    ensures ChunkFrom(text, start, width, overlap)[0] == text[start..Min(start + width, |text|)]
  {
  }

  lemma {:induction false} ReassembleFrom(text: string, start: nat, width: nat, overlap: nat)
    requires overlap < width && start < |text|
    ensures Reassemble(ChunkFrom(text, start, width, overlap), overlap) == text[start..]
    decreases |text| - start
  {
    if start + width < |text| {
      var next := start + width - overlap;
      ChunkFromCons(text, start, width, overlap);
      ChunkFromHead(text, next, width, overlap);
      ReassembleFrom(text, next, width, overlap);
      ReassembleStep(text, start, width, overlap, ChunkFrom(text, next, width, overlap));
    } else {
      assert ChunkFrom(text, start, width, overlap) == [text[start..]];
      ReassembleSingle(text[start..], overlap);
    }
  }

  /** Round trip: the first chunk followed by each later chunk minus its first
      4 * overlap_size characters gives back the text. */
  lemma ChunksReassemble(text: string, chunkSize: int, overlapSize: int)
    requires 0 <= overlapSize < chunkSize
    ensures Reassemble(Chunks(text, chunkSize, overlapSize), overlapSize * CharsPerToken) == text
  {
    if |text| > chunkSize * CharsPerToken {
      ReassembleFrom(text, 0, chunkSize * CharsPerToken, overlapSize * CharsPerToken);
    }
  }

  /** With the default sizes the window is 2048 characters and the overlap 204. */
  lemma DefaultSizes(text: string)
    ensures |text| > 2048 ==> |Chunks(text, ChunkSizeTokens, OverlapSizeTokens)[0]| == 2048
    ensures |text| <= 2048 ==> Chunks(text, ChunkSizeTokens, OverlapSizeTokens) == [text]
  {
    if |text| > 2048 {
      ChunkSizes(text, ChunkSizeTokens, OverlapSizeTokens);
    }
  }
}
