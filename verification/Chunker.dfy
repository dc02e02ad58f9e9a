/** Splitting a text into overlapping windows of characters. */
module Chunker {
  import opened Wrappers

  // Chunk ids are numbered along the document.
  datatype Chunk = Chunk(id: nat, prev: Option<nat>, next: Option<nat>, text: string)

  function Min(a: int, b: int): int {
    if a < b then a else b
  }

  function Max(a: int, b: int): int {
    if a < b then b else a
  }

  // ---------------------------------------------------------------- when the loop ends

  // Where the window of one turn of the loop ends, and where the next turn starts, if there is one.
  function EndOf(n: nat, maxChars: nat, start: nat): nat {
    Min(n, start + maxChars)
  }

  function NextStart(n: nat, maxChars: nat, overlap: nat, start: nat): Option<nat> {
    var end := EndOf(n, maxChars, start);
    if n <= end then None
    else
      var next := Max(0, end - overlap);
      if next < n then Some(next) else None
  }

  // The start of the window of turn `k`, while the loop runs.
  function StartOfTurn(n: nat, maxChars: nat, overlap: nat, k: nat): Option<nat> {
    if k == 0 then (if n == 0 then None else Some(0))
    else match StartOfTurn(n, maxChars, overlap, k - 1)
      case None => None
      case Some(start) => NextStart(n, maxChars, overlap, start)
  }

  predicate Ends(n: nat, maxChars: nat, overlap: nat) {
    n <= maxChars || overlap < maxChars
  }

  lemma {:induction false} RunsForever(n: nat, maxChars: nat, overlap: nat, k: nat)
    requires !Ends(n, maxChars, overlap)
    ensures StartOfTurn(n, maxChars, overlap, k) == Some(0)
  {
    if k > 0 { RunsForever(n, maxChars, overlap, k - 1); }
  }

  lemma {:induction false} Advances(n: nat, maxChars: nat, overlap: nat, k: nat)
    requires overlap < maxChars
    ensures var s := StartOfTurn(n, maxChars, overlap, k); s.Some? ==> k <= s.value < n
  {
    if k > 0 { Advances(n, maxChars, overlap, k - 1); }
  }

  /** The loop ends if and only if the text fits one window or windows overlap by less than
      their length; otherwise it stays at the start of the text for ever. */
  lemma LoopEndsIff(n: nat, maxChars: nat, overlap: nat)
    ensures (exists k: nat :: StartOfTurn(n, maxChars, overlap, k).None?) <==> Ends(n, maxChars, overlap)
  {
    if Ends(n, maxChars, overlap) {
      if n <= maxChars {
        assert StartOfTurn(n, maxChars, overlap, 1).None?;
      } else {
        Advances(n, maxChars, overlap, n);
        assert StartOfTurn(n, maxChars, overlap, n).None?;
      }
    } else {
      forall k: nat ensures StartOfTurn(n, maxChars, overlap, k).Some? { RunsForever(n, maxChars, overlap, k); }
    }
  }

  // ---------------------------------------------------------------- the windows

  function ChunkAt(text: string, maxChars: nat, overlap: nat, start: nat, idx: nat): Chunk
    requires start < |text|
  {
    var end := EndOf(|text|, maxChars, start);
    Chunk(idx, if idx > 0 then Some(idx - 1) else None,
          if end < Min(|text|, end + maxChars - overlap) then Some(idx + 1) else None, text[start..end])
  }

  function ChunksFrom(text: string, maxChars: nat, overlap: nat, start: nat, idx: nat): seq<Chunk>
    requires start < |text| && Ends(|text|, maxChars, overlap)
    requires |text| <= maxChars ==> start == 0
    decreases |text| - start
  {
    var end := EndOf(|text|, maxChars, start);
    [ChunkAt(text, maxChars, overlap, start, idx)] +
    if |text| <= end then [] else ChunksFrom(text, maxChars, overlap, end - overlap, idx + 1)
  }

  function Chunks(text: string, maxChars: nat, overlap: nat): seq<Chunk>
    requires Ends(|text|, maxChars, overlap)
  {
    if text == "" then [] else ChunksFrom(text, maxChars, overlap, 0, 0)
  }

  // All the chunks are those so far followed by those from `start` on.
  ghost predicate Continues(text: string, maxChars: nat, overlap: nat, chunks: seq<Chunk>, start: nat, idx: nat) {
    && start < |text| && Ends(|text|, maxChars, overlap) && (|text| <= maxChars ==> start == 0)
    && Chunks(text, maxChars, overlap) == chunks + ChunksFrom(text, maxChars, overlap, start, idx)
  }

  lemma Step(text: string, maxChars: nat, overlap: nat, chunks: seq<Chunk>, start: nat, idx: nat)
    requires Continues(text, maxChars, overlap, chunks, start, idx)
    ensures var end := EndOf(|text|, maxChars, start);
      var more := chunks + [ChunkAt(text, maxChars, overlap, start, idx)];
      if |text| <= end then Chunks(text, maxChars, overlap) == more
      else overlap < end && start < end - overlap && Continues(text, maxChars, overlap, more, end - overlap, idx + 1)
  {
    hide ChunkAt, Chunks;
    var end := EndOf(|text|, maxChars, start);
    var head := [ChunkAt(text, maxChars, overlap, start, idx)];
    if |text| <= end {
      assert chunks + (head + []) == chunks + head;
    } else {
      var rest := ChunksFrom(text, maxChars, overlap, end - overlap, idx + 1);
      assert chunks + (head + rest) == (chunks + head) + rest;
    }
  }

  // One window with its metadata.
  method BuildChunk(text: string, maxChars: nat, overlap: nat, start: nat, idx: nat) returns (c: Chunk, end: nat)
    requires start < |text|
    ensures c == ChunkAt(text, maxChars, overlap, start, idx) && end == EndOf(|text|, maxChars, start)
  {
    var n := |text|;
    end := Min(n, start + maxChars);
    var piece := text[start..end];
    var prevId := if idx > 0 then Some(idx - 1) else None;
    var nextEnd := Min(n, end + maxChars - overlap);
    var nextId := if nextEnd > end then Some(idx + 1) else None;
    c := Chunk(idx, prevId, nextId, piece);
  }

  method ChunkText(text: string, maxChars: nat, overlap: nat) returns (chunks: seq<Chunk>)
    requires Ends(|text|, maxChars, overlap)
    ensures chunks == Chunks(text, maxChars, overlap)
  {
    if text == "" { return []; }
    chunks := [];
    var start, idx, n := 0, 0, |text|;
    assert Continues(text, maxChars, overlap, [], 0, 0) by {
      assert [] + ChunksFrom(text, maxChars, overlap, 0, 0) == ChunksFrom(text, maxChars, overlap, 0, 0);
    }
    while start < n
      invariant 0 <= start < n && Continues(text, maxChars, overlap, chunks, start, idx)
      decreases n - start
    {
      hide Chunks, Continues, ChunkAt;
      Step(text, maxChars, overlap, chunks, start, idx);
      var chunk, end := BuildChunk(text, maxChars, overlap, start, idx);
      chunks := chunks + [chunk];
      if end >= n { break; }
      start := Max(0, end - overlap);
      idx := idx + 1;
    }
  }

  // ---------------------------------------------------------------- what they are

  // The chunks put together again, dropping from every chunk but the first what it repeats.
  function Reassemble(chunks: seq<Chunk>, overlap: nat): string
    requires forall i :: 1 <= i < |chunks| ==> overlap <= |chunks[i].text|
  {
    if chunks == [] then ""
    else Reassemble(chunks[..|chunks| - 1], overlap) +
         (if |chunks| == 1 then chunks[0].text else chunks[|chunks| - 1].text[overlap..])
  }

  // `k` times `step`.
  function Times(k: nat, step: nat): nat {
    if k == 0 then 0 else Times(k - 1, step) + step
  }

  lemma {:induction false} TimesIsProduct(k: nat, step: nat)
    ensures Times(k, step) == k * step
  {
    if k > 0 { TimesIsProduct(k - 1, step); }
  }

  // `a / step`, rounded up.
  function CeilDiv(a: int, step: nat): nat
    requires step > 0
    decreases Max(a, 0)
  {
    if a <= 0 then 0 else 1 + CeilDiv(a - step, step)
  }

  lemma {:induction false} TimesFromFront(k: nat, step: nat)
    requires k > 0
    ensures Times(k, step) == step + Times(k - 1, step)
  {
    if k > 1 { TimesFromFront(k - 1, step); }
  }

  lemma {:induction false} CeilDivIs(a: int, step: nat, q: nat)
    requires step > 0 && a <= Times(q, step) && (q > 0 ==> Times(q - 1, step) < a)
    ensures CeilDiv(a, step) == q
  {
    if q > 0 {
      TimesFromFront(q, step);
      if q > 1 { TimesFromFront(q - 1, step); }
      CeilDivIs(a - step, step, q - 1);
    }
  }

  // The least number of steps that reach `a`.
  lemma {:induction false} CeilDivBounds(a: int, step: nat)
    requires step > 0 && a > 0
    ensures var q := CeilDiv(a, step); q > 0 && Times(q - 1, step) < a <= Times(q, step)
    decreases a
  {
    if a > step {
      CeilDivBounds(a - step, step);
      TimesFromFront(CeilDiv(a, step), step);
      TimesFromFront(CeilDiv(a, step) - 1, step);
    } else {
      assert CeilDiv(a - step, step) == 0;
      assert Times(1, step) == Times(0, step) + step;
    }
  }

  function Windows(n: nat, maxChars: nat, overlap: nat): nat
    requires overlap < maxChars
  {
    if n == 0 then 0 else 1 + CeilDiv(n - maxChars, maxChars - overlap)
  }

  lemma FirstAndRest(text: string, maxChars: nat, overlap: nat, start: nat, idx: nat)
    requires start < |text| && overlap < maxChars && (|text| <= maxChars ==> start == 0)
    ensures var cs := ChunksFrom(text, maxChars, overlap, start, idx);
      var next := start + (maxChars - overlap);
      && |cs| > 0 && cs[0] == ChunkAt(text, maxChars, overlap, start, idx)
      && (|cs| > 1 <==> start + maxChars < |text|)
      && (start + maxChars < |text| ==>
            next < |text| && cs[1..] == ChunksFrom(text, maxChars, overlap, next, idx + 1))
  {
    hide ChunkAt;
  }

  // Chunk `i` is the window `i` steps further on, and the last one reaches the end of the text.
  lemma {:induction false} ChunksFromAt(text: string, maxChars: nat, overlap: nat, start: nat, idx: nat, i: nat)
    requires start < |text| && overlap < maxChars && (|text| <= maxChars ==> start == 0)
    requires i < |ChunksFrom(text, maxChars, overlap, start, idx)|
    ensures var cs := ChunksFrom(text, maxChars, overlap, start, idx);
      var at := start + Times(i, maxChars - overlap);
      && at < |text| && cs[i] == ChunkAt(text, maxChars, overlap, at, idx + i)
      && (i + 1 < |cs| <==> at + maxChars < |text|)
    decreases i
  {
    hide ChunkAt, Times, ChunksFrom;
    var step := maxChars - overlap;
    FirstAndRest(text, maxChars, overlap, start, idx);
    if i > 0 {
      assert Times(i, step) == step + Times(i - 1, step) by { TimesFromFront(i, step); }
      ChunksFromAt(text, maxChars, overlap, start + step, idx + 1, i - 1);
    } else {
      assert Times(0, step) == 0 by { TimesIsProduct(0, step); }
    }
  }

  lemma Window(text: string, maxChars: nat, overlap: nat, i: nat)
    requires overlap < maxChars && i < |Chunks(text, maxChars, overlap)|
    ensures var cs := Chunks(text, maxChars, overlap);
      var start := Times(i, maxChars - overlap);
      && start < |text| && cs[i].text == text[start..Min(|text|, start + maxChars)]
      && cs[i].id == i
      && cs[i].prev == (if i > 0 then Some(i - 1) else None)
      && cs[i].next == (if i + 1 < |cs| then Some(i + 1) else None)
      && (i + 1 < |cs| <==> start + maxChars < |text|)
  {
    hide ChunksFrom, Times;
    assert text != "";
    ChunksFromAt(text, maxChars, overlap, 0, 0, i);
  }

  lemma Slices(text: string, a: nat, b: nat, c: nat, d: nat)
    requires a <= c <= b <= d <= |text|
    ensures text[c..d][..b - c] == text[a..b][c - a..] == text[c..b]
    ensures text[..b] + text[c..d][b - c..] == text[..d]
  {
  }

  /** Chunk `i` is the window that starts `i` steps into the text; it has an id of its own, names its
      neighbours exactly when it has them, and begins with the last `overlap` characters of the one before. */
  lemma ChunksAreLinkedWindows(text: string, maxChars: nat, overlap: nat, i: nat)
    requires overlap < maxChars && i < |Chunks(text, maxChars, overlap)|
    ensures var cs := Chunks(text, maxChars, overlap);
      var start := i * (maxChars - overlap);
      && start < |text| && cs[i].text == text[start..Min(|text|, start + maxChars)]
      && cs[i].id == i
      && cs[i].prev == (if i > 0 then Some(i - 1) else None)
      && cs[i].next == (if i + 1 < |cs| then Some(i + 1) else None)
    ensures var cs := Chunks(text, maxChars, overlap);
      i > 0 ==>
        && overlap < |cs[i].text| && |cs[i - 1].text| == maxChars
        && cs[i].text[..overlap] == cs[i - 1].text[maxChars - overlap..]
  {
    hide Chunks, Times;
    var step := maxChars - overlap;
    TimesIsProduct(i, step);
    Window(text, maxChars, overlap, i);
    if i > 0 {
      Window(text, maxChars, overlap, i - 1);
      var a, c := Times(i - 1, step), Times(i, step);
      assert c == a + step by { TimesFromFront(i, step); }
      Slices(text, a, a + maxChars, c, Min(|text|, c + maxChars));
    }
  }

  /** A text longer than a window makes 1 + ceil((n - max) / (max - overlap)) chunks. */
  lemma CountsWindows(text: string, maxChars: nat, overlap: nat)
    requires overlap < maxChars
    ensures |Chunks(text, maxChars, overlap)| == Windows(|text|, maxChars, overlap)
  {
    if text != "" {
      var last := |Chunks(text, maxChars, overlap)| - 1;
      hide Chunks, Times;
      Window(text, maxChars, overlap, last);
      if last > 0 { Window(text, maxChars, overlap, last - 1); }
      CeilDivIs(|text| - maxChars, maxChars - overlap, last);
    }
  }

  lemma ReassembleOneMore(cs: seq<Chunk>, overlap: nat, k: nat)
    requires 1 < k <= |cs| && forall i :: 1 <= i < k ==> overlap <= |cs[i].text|
    ensures Reassemble(cs[..k], overlap) == Reassemble(cs[..k - 1], overlap) + cs[k - 1].text[overlap..]
  {
    assert cs[..k][..k - 1] == cs[..k - 1];
  }

  // The text up to the end of the first `k` windows.
  function UptoWindow(text: string, maxChars: nat, overlap: nat, k: nat): string
    requires overlap < maxChars && k > 0
  {
    text[..Min(|text|, Times(k - 1, maxChars - overlap) + maxChars)]
  }

  // Where two successive windows are, `a` being the start of the first.
  lemma TwoWindows(text: string, maxChars: nat, overlap: nat, k: nat, a: nat)
    requires overlap < maxChars && 1 < k <= |Chunks(text, maxChars, overlap)| && a == Times(k - 2, maxChars - overlap)
    ensures var c := a + (maxChars - overlap);
      var d := Min(|text|, c + maxChars);
      && a + maxChars <= d <= |text|
      && Chunks(text, maxChars, overlap)[k - 1].text == text[c..d]
      && UptoWindow(text, maxChars, overlap, k) == text[..d]
      && UptoWindow(text, maxChars, overlap, k - 1) == text[..a + maxChars]
  {
    assert Times(k - 1, maxChars - overlap) == a + (maxChars - overlap);
    hide Chunks, Times;
    Window(text, maxChars, overlap, k - 1);
    Window(text, maxChars, overlap, k - 2);
  }

  lemma OneMoreWindow(text: string, maxChars: nat, overlap: nat, k: nat)
    requires overlap < maxChars && 1 < k <= |Chunks(text, maxChars, overlap)|
    ensures var cs := Chunks(text, maxChars, overlap);
      && overlap <= |cs[k - 1].text|
      && UptoWindow(text, maxChars, overlap, k) == UptoWindow(text, maxChars, overlap, k - 1) + cs[k - 1].text[overlap..]
  {
    hide Chunks, Times, UptoWindow, Min;
    var a := Times(k - 2, maxChars - overlap);
    var c := a + (maxChars - overlap);
    TwoWindows(text, maxChars, overlap, k, a);
    Slices(text, a, a + maxChars, c, Min(|text|, c + maxChars));
  }

  lemma {:induction false} PrefixReassembles(text: string, maxChars: nat, overlap: nat, k: nat)
    requires overlap < maxChars && 0 < k <= |Chunks(text, maxChars, overlap)|
    ensures var cs := Chunks(text, maxChars, overlap);
      && (forall i :: 1 <= i < k ==> overlap <= |cs[i].text|)
      && Reassemble(cs[..k], overlap) == UptoWindow(text, maxChars, overlap, k)
    decreases k
  {
    hide Chunks, UptoWindow;
    var cs := Chunks(text, maxChars, overlap);
    if k > 1 {
      hide Reassemble;
      PrefixReassembles(text, maxChars, overlap, k - 1);
      OneMoreWindow(text, maxChars, overlap, k);
      ReassembleOneMore(cs, overlap, k);
    } else {
      assert cs[..1] == [cs[0]];
      assert Reassemble([cs[0]], overlap) == Reassemble([], overlap) + cs[0].text;
      FirstWindow(text, maxChars, overlap);
    }
  }

  lemma FirstWindow(text: string, maxChars: nat, overlap: nat)
    requires overlap < maxChars && |Chunks(text, maxChars, overlap)| > 0
    ensures UptoWindow(text, maxChars, overlap, 1) == Chunks(text, maxChars, overlap)[0].text
  {
    Window(text, maxChars, overlap, 0);
  }

  /** Nothing is lost and nothing but the overlaps is repeated: dropping the first `overlap`
      characters of every chunk but the first and joining the rest gives the text back. */
  lemma ChunksReassemble(text: string, maxChars: nat, overlap: nat)
    requires overlap < maxChars
    ensures var cs := Chunks(text, maxChars, overlap);
      (forall i :: 1 <= i < |cs| ==> overlap <= |cs[i].text|) && Reassemble(cs, overlap) == text
  {
    var cs := Chunks(text, maxChars, overlap);
    if text != "" {
      assert |cs| > 0;
      hide Chunks, Times;
      PrefixReassembles(text, maxChars, overlap, |cs|);
      Window(text, maxChars, overlap, |cs| - 1);
      assert cs[..|cs|] == cs && text[..|text|] == text;
    }
  }
}
