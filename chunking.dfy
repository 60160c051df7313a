/**
  The line-window chunker. A file is given as its lines (each keeping its
  line break); the chunker packs consecutive lines into chunks of at most
  `chunkSize` characters and starts each new chunk with the longest run of
  trailing lines of the previous one that fits in `overlap` characters.

  `Feed` is the loop state after a number of lines and `ChunkLines` the
  resulting chunk list; `TextChunker.ChunkText` is the loop itself, proved to
  compute `ChunkLines`, and `ChunkLinesFacts` states what the list satisfies.
*/
module Chunking {
  import opened Text
  import opened Schemas
  import Config

  /** A text chunk with its 1-based inclusive line range. */
  datatype Chunk = Chunk(content: string, startLine: int, endLine: int, metadata: Metadata)

  /** The metadata every chunk of one file carries. */
  function ChunkMetadata(path: string, language: string): Metadata {
    map["path" := path, "language" := language]
  }

  /** The text of lines `s..e` (1-based, inclusive); empty when `e == s - 1`. */
  function Span(lines: seq<string>, s: int, e: int): string
    requires 1 <= s && s - 1 <= e <= |lines|
  {
    Concat(lines[s - 1..e])
  }

  // ------------------------------------------------------------ the overlap walk

  /**
    The lines the backward walk keeps: trailing lines of `buf`, taken from the
    end while their running length stays within `budget`.
  */
  function OverlapTail(buf: seq<string>, budget: nat): seq<string> {
    if buf == [] then []
    else
      var last := buf[|buf| - 1];
      if |last| <= budget then OverlapTail(buf[..|buf| - 1], budget - |last|) + [last]
      else []
  }

  /** The kept lines are a suffix of the buffer. */
  lemma {:induction false} OverlapTailSuffix(buf: seq<string>, budget: nat)
    ensures var t := OverlapTail(buf, budget); |t| <= |buf| && t == buf[|buf| - |t|..]
    decreases |buf|
  {
    if buf != [] {
      var init, last := buf[..|buf| - 1], buf[|buf| - 1];
      if |last| <= budget {
        var t' := OverlapTail(init, budget - |last|);
        OverlapTailSuffix(init, budget - |last|);
        assert buf[|buf| - |t'| - 1..] == init[|init| - |t'|..] + [last];
      }
    }
  }

  /** The kept lines fit in the budget. */
  lemma {:induction false} OverlapTailFits(buf: seq<string>, budget: nat)
    ensures |Concat(OverlapTail(buf, budget))| <= budget
    decreases |buf|
  {
    if buf != [] {
      var init, last := buf[..|buf| - 1], buf[|buf| - 1];
      if |last| <= budget {
        var t' := OverlapTail(init, budget - |last|);
        OverlapTailFits(init, budget - |last|);
        ConcatAppend(t', [last]);
        ConcatOne(last);
      }
    }
  }

  /** A suffix of a sequence with one more element at the end. */
  lemma SuffixSnoc(init: seq<string>, last: string, j: int)
    requires 0 <= j <= |init|
    ensures (init + [last])[j..] == init[j..] + [last]
  {
  }

  /** The walk stops only at the start of the buffer or at a line that would not fit. */
  lemma {:induction false} OverlapTailMaximal(buf: seq<string>, budget: nat)
    ensures var t := OverlapTail(buf, budget);
      |t| == |buf| || (|t| < |buf| && |Concat(buf[|buf| - |t| - 1..])| > budget)
    decreases |buf|
  {
    if buf != [] {
      var init, last := buf[..|buf| - 1], buf[|buf| - 1];
      assert buf == init + [last];
      ConcatOne(last);
      if |last| <= budget {
        var t' := OverlapTail(init, budget - |last|);
        OverlapTailMaximal(init, budget - |last|);
        if |t'| < |init| {
          var j := |init| - |t'| - 1;
          SuffixSnoc(init, last, j);
          ConcatAppend(init[j..], [last]);
        }
      } else {
        assert buf[|buf| - 1..] == [last];
      }
    }
  }

  /** The three facts together. */
  lemma OverlapTailFacts(buf: seq<string>, budget: nat, t: seq<string>)
    requires t == OverlapTail(buf, budget)
    ensures |t| <= |buf| && t == buf[|buf| - |t|..]
    ensures |Concat(t)| <= budget
    ensures |t| == |buf| || |Concat(buf[|buf| - |t| - 1..])| > budget
  {
    OverlapTailSuffix(buf, budget);
    OverlapTailFits(buf, budget);
    OverlapTailMaximal(buf, budget);
  }

  // ------------------------------------------------------------ the loop, as functions

  /** The loop variables: closed chunks, the current lines and the current start line. */
  datatype Window = Window(done: seq<Chunk>, buf: seq<string>, start: int)

  /** One iteration for line number `i` holding `line`. */
  function Step(w: Window, i: int, line: string, size: nat, overlap: nat, meta: Metadata): Window {
    if |Concat(w.buf)| + |line| > size && w.buf != [] then
      var tail := OverlapTail(w.buf, overlap);
      Window(w.done + [Chunk(Concat(w.buf), w.start, i - 1, meta)], tail + [line], i - |tail|)
    else
      Window(w.done, w.buf + [line], w.start)
  }

  /** The loop state after the first `n` lines. */
  function Feed(lines: seq<string>, n: nat, size: nat, overlap: nat, meta: Metadata): Window
    requires n <= |lines|
  {
    if n == 0 then Window([], [], 1)
    else Step(Feed(lines, n - 1, size, overlap, meta), n, lines[n - 1], size, overlap, meta)
  }

  /** The chunk the current lines would form if the input ended after line `n`. */
  function Pending(w: Window, n: int, meta: Metadata): Chunk {
    Chunk(Concat(w.buf), w.start, n, meta)
  }

  /** `TextChunker.chunk` on the lines of a file: the closed chunks and the final flush. */
  function ChunkLines(lines: seq<string>, path: string, language: string, size: nat, overlap: nat): seq<Chunk> {
    var meta := ChunkMetadata(path, language);
    var w := Feed(lines, |lines|, size, overlap, meta);
    if w.buf != [] then w.done + [Pending(w, |lines|, meta)] else w.done
  }

  // ------------------------------------------------------------ what a chunk list satisfies

  /** `c` holds exactly lines `startLine..endLine`, at least one of them, and the file's metadata. */
  predicate ChunkOf(c: Chunk, lines: seq<string>, meta: Metadata) {
    && 1 <= c.startLine <= c.endLine <= |lines|
    && c.content == Span(lines, c.startLine, c.endLine)
    && c.metadata == meta
  }

  /** A chunk over the size budget is a carried prefix of at most `overlap` characters plus one line. */
  predicate Within(c: Chunk, lines: seq<string>, size: nat, overlap: nat) {
    || |c.content| <= size
    || (1 <= c.startLine <= c.endLine <= |lines| && |Span(lines, c.startLine, c.endLine - 1)| <= overlap)
  }

  /**
    How chunk `b` follows chunk `a`: it starts no earlier and at most one line
    after `a` ends, it ends later, the lines it repeats from `a` fit in the
    overlap and are as many as the backward walk could take, `a` was closed
    because its next line did not fit, and `b` exceeds the size only when it
    holds a single line beyond `a`.
  */
  predicate Linked(a: Chunk, b: Chunk, lines: seq<string>, size: nat, overlap: nat) {
    && 1 <= a.startLine <= b.startLine <= a.endLine + 1
    && a.endLine < b.endLine <= |lines|
    && |Span(lines, b.startLine, a.endLine)| <= overlap
    && (b.startLine == a.startLine || |Span(lines, b.startLine - 1, a.endLine)| > overlap)
    && |a.content| + |lines[a.endLine]| > size
    && (|b.content| > size ==> b.endLine == a.endLine + 1)
  }

  /** A chunk of the file within the size rule. */
  predicate Good(c: Chunk, lines: seq<string>, size: nat, overlap: nat, meta: Metadata) {
    ChunkOf(c, lines, meta) && Within(c, lines, size, overlap)
  }

  /** The chunks of the first `n` lines: each well-built, consecutive ones linked, lines 1 to `n` spanned. */
  predicate WellFormed(cs: seq<Chunk>, lines: seq<string>, n: int, size: nat, overlap: nat, meta: Metadata) {
    && (forall k {:trigger Good(cs[k], lines, size, overlap, meta)} ::
          0 <= k < |cs| ==> Good(cs[k], lines, size, overlap, meta))
    && (forall i, j {:trigger Linked(cs[i], cs[j], lines, size, overlap)} ::
          0 <= i && j == i + 1 < |cs| ==> Linked(cs[i], cs[j], lines, size, overlap))
    && (cs != [] ==>
          && cs[0].startLine == 1
          && cs[|cs| - 1].endLine == n
          && (|cs[0].content| > size ==> cs[0].endLine == 1))
  }

  /** The loop state after `n` lines: the current lines are lines `start..n`, and with them the chunks are well formed. */
  predicate Reached(w: Window, lines: seq<string>, n: nat, size: nat, overlap: nat, meta: Metadata)
    requires n <= |lines|
  {
    if n == 0 then w == Window([], [], 1)
    else
      && 1 <= w.start <= n
      && w.buf == lines[w.start - 1..n]
      && WellFormed(w.done + [Pending(w, n, meta)], lines, n, size, overlap, meta)
  }

  /** A span ending at line `e` is the span ending one line earlier plus line `e`. */
  lemma SpanSnoc(lines: seq<string>, s: int, e: int)
    requires 1 <= s <= e <= |lines|
    ensures Span(lines, s, e) == Span(lines, s, e - 1) + lines[e - 1]
  {
    SliceSnoc(lines, s - 1, e);
    ConcatAppend(lines[s - 1..e - 1], [lines[e - 1]]);
    ConcatOne(lines[e - 1]);
  }

  /** Replacing the last chunk by one with the same start that satisfies the same conditions. */
  lemma ReplaceLast(cs: seq<Chunk>, p: Chunk, p': Chunk, lines: seq<string>, n: int, n': int,
                    size: nat, overlap: nat, meta: Metadata)
    requires WellFormed(cs + [p], lines, n, size, overlap, meta)
    requires Good(p', lines, size, overlap, meta) && p'.endLine == n'
    requires p'.startLine == p.startLine
    requires cs != [] ==> Linked(cs[|cs| - 1], p', lines, size, overlap)
    requires cs == [] && |p'.content| > size ==> p'.endLine == 1
    ensures WellFormed(cs + [p'], lines, n', size, overlap, meta)
  {
    var xs, ys := cs + [p], cs + [p'];
    forall k | 0 <= k < |ys|
      ensures Good(ys[k], lines, size, overlap, meta)
    {
      if k < |cs| {
        assert ys[k] == xs[k];
      }
    }
    forall k | 0 <= k < |ys| - 1
      ensures Linked(ys[k], ys[k + 1], lines, size, overlap)
    {
      assert ys[k] == xs[k];
      if k + 1 < |cs| {
        assert ys[k + 1] == xs[k + 1];
      }
    }
    if cs != [] {
      assert ys[0] == xs[0];
    }
  }

  /** Appending a chunk linked to the last one. */
  lemma Snoc(cs: seq<Chunk>, p': Chunk, lines: seq<string>, n: int, n': int,
             size: nat, overlap: nat, meta: Metadata)
    requires WellFormed(cs, lines, n, size, overlap, meta) && cs != []
    requires Good(p', lines, size, overlap, meta) && p'.endLine == n'
    requires Linked(cs[|cs| - 1], p', lines, size, overlap)
    ensures WellFormed(cs + [p'], lines, n', size, overlap, meta)
  {
    var ys := cs + [p'];
    forall k | 0 <= k < |ys|
      ensures Good(ys[k], lines, size, overlap, meta)
    {
      if k < |cs| {
        assert ys[k] == cs[k];
      }
    }
    forall k | 0 <= k < |ys| - 1
      ensures Linked(ys[k], ys[k + 1], lines, size, overlap)
    {
      assert ys[k] == cs[k];
      if k + 1 < |cs| {
        assert ys[k + 1] == cs[k + 1];
      }
    }
    assert ys[0] == cs[0];
  }

  /** The first line starts the first chunk. */
  lemma ReachedFirst(lines: seq<string>, size: nat, overlap: nat, meta: Metadata)
    requires |lines| >= 1
    ensures Reached(Feed(lines, 1, size, overlap, meta), lines, 1, size, overlap, meta)
  {
    var w := Window([], [lines[0]], 1);
    assert Feed(lines, 0, size, overlap, meta) == Window([], [], 1);
    assert [] + [lines[0]] == [lines[0]];
    assert Feed(lines, 1, size, overlap, meta) == w;
    assert lines[0..1] == [lines[0]];
    ConcatOne(lines[0]);
    assert Span(lines, 1, 0) == "" by { assert lines[0..0] == []; }
    var p := Chunk(lines[0], 1, 1, meta);
    assert Good(p, lines, size, overlap, meta);
    assert w.done + [Pending(w, 1, meta)] == [p];
  }

  /** Line `i` joins the current chunk when it fits. */
  lemma ReachedGrow(w: Window, lines: seq<string>, i: nat, size: nat, overlap: nat, meta: Metadata)
    requires 2 <= i <= |lines|
    requires Reached(w, lines, i - 1, size, overlap, meta)
    requires |Concat(w.buf)| + |lines[i - 1]| <= size
    ensures Reached(Step(w, i, lines[i - 1], size, overlap, meta), lines, i, size, overlap, meta)
  {
    var w' := Step(w, i, lines[i - 1], size, overlap, meta);
    assert w' == Window(w.done, w.buf + [lines[i - 1]], w.start);
    SliceSnoc(lines, w.start - 1, i);
    SpanSnoc(lines, w.start, i);
    var p, p' := Pending(w, i - 1, meta), Pending(w', i, meta);
    var cs := w.done + [p];
    if w.done != [] {
      assert Linked(cs[|cs| - 2], cs[|cs| - 1], lines, size, overlap);
      assert cs[|cs| - 2] == w.done[|w.done| - 1] && cs[|cs| - 1] == p;
    }
    ReplaceLast(w.done, p, p', lines, i - 1, i, size, overlap, meta);
  }

  /** A suffix of a slice is a slice. */
  lemma SuffixOfSlice(lines: seq<string>, lo: int, hi: int, m: int)
    requires 0 <= lo <= hi <= |lines| && 0 <= m <= hi - lo
    ensures lines[lo..hi][m..] == lines[lo + m..hi]
  {
  }

  /** A slice is the slice one shorter plus its last line. */
  lemma SliceSnoc(lines: seq<string>, lo: int, hi: int)
    requires 0 <= lo < hi <= |lines|
    ensures lines[lo..hi] == lines[lo..hi - 1] + [lines[hi - 1]]
  {
  }

  /** The lines the walk keeps from the current lines `start..n` are lines `s'..n`. */
  lemma TailIsSlice(buf: seq<string>, tail: seq<string>, start: int, s': int, lines: seq<string>, n: nat, overlap: nat)
    requires 1 <= n < |lines|
    requires 1 <= start <= n && buf == lines[start - 1..n]
    requires tail == OverlapTail(buf, overlap)
    requires s' == n + 1 - |tail|
    ensures start <= s' <= n + 1
    ensures tail == lines[s' - 1..n]
  {
    OverlapTailSuffix(buf, overlap);
    SuffixOfSlice(lines, start - 1, n, |buf| - |tail|);
  }

  /** The line before the kept ones, if any, would not have fitted. */
  lemma TailStops(buf: seq<string>, tail: seq<string>, start: int, s': int, lines: seq<string>, n: nat, overlap: nat)
    requires 1 <= n < |lines|
    requires 1 <= start <= n && buf == lines[start - 1..n]
    requires tail == OverlapTail(buf, overlap)
    requires s' == n + 1 - |tail| && start < s'
    ensures |Span(lines, s' - 1, n)| > overlap
  {
    OverlapTailMaximal(buf, overlap);
    SuffixOfSlice(lines, start - 1, n, |buf| - |tail| - 1);
  }

  /** What a split before line `i` carries into the next chunk, as a span of lines. */
  lemma SplitBuffer(buf: seq<string>, tail: seq<string>, start: int, s': int, lines: seq<string>, i: nat, overlap: nat)
    requires 2 <= i <= |lines|
    requires 1 <= start <= i - 1 && buf == lines[start - 1..i - 1]
    requires tail == OverlapTail(buf, overlap)
    requires s' == i - |tail|
    ensures start <= s' <= i
    ensures tail + [lines[i - 1]] == lines[s' - 1..i]
    ensures |Span(lines, s', i - 1)| <= overlap
    ensures s' == start || |Span(lines, s' - 1, i - 1)| > overlap
  {
    TailIsSlice(buf, tail, start, s', lines, i - 1, overlap);
    OverlapTailFits(buf, overlap);
    SliceSnoc(lines, s' - 1, i);
    if start < s' {
      TailStops(buf, tail, start, s', lines, i - 1, overlap);
    }
  }

  /** The text of a run of lines that is lines `s..e`. */
  lemma SpanOf(run: seq<string>, lines: seq<string>, s: int, e: int)
    requires 1 <= s && s - 1 <= e <= |lines|
    requires run == lines[s - 1..e]
    ensures Concat(run) == Span(lines, s, e)
  {
  }

  /** The chunk opened by a split before line `i`, starting at line `s'`, follows the chunk it closed. */
  lemma SplitLinks(p: Chunk, p': Chunk, s': int, lines: seq<string>, i: nat, size: nat, overlap: nat, meta: Metadata)
    requires 2 <= i <= |lines|
    requires ChunkOf(p, lines, meta) && p.endLine == i - 1
    requires |p.content| + |lines[i - 1]| > size
    requires p.startLine <= s' <= i
    requires |Span(lines, s', i - 1)| <= overlap
    requires s' == p.startLine || |Span(lines, s' - 1, i - 1)| > overlap
    requires p' == Chunk(Span(lines, s', i), s', i, meta)
    ensures Good(p', lines, size, overlap, meta)
    ensures Linked(p, p', lines, size, overlap)
  {
  }

  /** The state after a split before line `i`, built from what the split keeps. */
  lemma OpenAfterSplit(cs: seq<Chunk>, nb: seq<string>, s': int, lines: seq<string>, i: nat,
                       size: nat, overlap: nat, meta: Metadata)
    requires 2 <= i <= |lines|
    requires WellFormed(cs, lines, i - 1, size, overlap, meta) && cs != []
    requires Good(cs[|cs| - 1], lines, size, overlap, meta)
    requires |cs[|cs| - 1].content| + |lines[i - 1]| > size
    requires cs[|cs| - 1].startLine <= s' <= i
    requires |Span(lines, s', i - 1)| <= overlap
    requires s' == cs[|cs| - 1].startLine || |Span(lines, s' - 1, i - 1)| > overlap
    requires nb == lines[s' - 1..i]
    ensures Reached(Window(cs, nb, s'), lines, i, size, overlap, meta)
  {
    var p := cs[|cs| - 1];
    var w' := Window(cs, nb, s');
    var p' := Pending(w', i, meta);
    SpanOf(nb, lines, s', i);
    SplitLinks(p, p', s', lines, i, size, overlap, meta);
    Snoc(cs, p', lines, i - 1, i, size, overlap, meta);
  }

  /** What one iteration does when the line does not fit. */
  lemma StepSplits(w: Window, i: int, line: string, tail: seq<string>, size: nat, overlap: nat, meta: Metadata)
    requires |Concat(w.buf)| + |line| > size && w.buf != []
    requires tail == OverlapTail(w.buf, overlap)
    ensures Step(w, i, line, size, overlap, meta)
      == Window(w.done + [Chunk(Concat(w.buf), w.start, i - 1, meta)], tail + [line], i - |tail|)
  {
  }

  /** Line `i`, when it does not fit, closes the current chunk and opens one with the carried overlap. */
  lemma ReachedSplit(w: Window, lines: seq<string>, i: nat, size: nat, overlap: nat, meta: Metadata)
    requires 2 <= i <= |lines|
    requires Reached(w, lines, i - 1, size, overlap, meta)
    requires |Concat(w.buf)| + |lines[i - 1]| > size
    ensures Reached(Step(w, i, lines[i - 1], size, overlap, meta), lines, i, size, overlap, meta)
  {
    assert |w.buf| == i - w.start;
    var tail := OverlapTail(w.buf, overlap);
    var s' := i - |tail|;
    SplitBuffer(w.buf, tail, w.start, s', lines, i, overlap);
    var cs := w.done + [Pending(w, i - 1, meta)];
    StepSplits(w, i, lines[i - 1], tail, size, overlap, meta);
    assert WellFormed(cs, lines, i - 1, size, overlap, meta);
    assert cs[|cs| - 1] == Pending(w, i - 1, meta);
    OpenAfterSplit(cs, tail + [lines[i - 1]], s', lines, i, size, overlap, meta);
  }

  /** Every prefix of the input leaves the loop in a `Reached` state. */
  lemma {:induction false} FeedReached(lines: seq<string>, n: nat, size: nat, overlap: nat, meta: Metadata)
    requires n <= |lines|
    ensures Reached(Feed(lines, n, size, overlap, meta), lines, n, size, overlap, meta)
  {
    if n == 1 {
      ReachedFirst(lines, size, overlap, meta);
    } else if n > 1 {
      FeedReached(lines, n - 1, size, overlap, meta);
      var w := Feed(lines, n - 1, size, overlap, meta);
      if |Concat(w.buf)| + |lines[n - 1]| > size {
        ReachedSplit(w, lines, n, size, overlap, meta);
      } else {
        ReachedGrow(w, lines, n, size, overlap, meta);
      }
    }
  }

  /**
    The chunk list of a file: empty exactly for a file without lines; every
    chunk holds a non-empty line range with exactly those lines' text and the
    file's metadata; the first starts at line 1, the last ends at the last line,
    and consecutive chunks are linked as `Linked` says.
  */
  lemma ChunkLinesFacts(lines: seq<string>, path: string, language: string, size: nat, overlap: nat)
    ensures var cs := ChunkLines(lines, path, language, size, overlap);
      && (cs == [] <==> lines == [])
      && WellFormed(cs, lines, |lines|, size, overlap, ChunkMetadata(path, language))
  {
    var meta := ChunkMetadata(path, language);
    FeedReached(lines, |lines|, size, overlap, meta);
  }

  /** Consecutive chunks leave no line out: every line lies in some chunk. */
  lemma Coverage(cs: seq<Chunk>, lines: seq<string>, n: int, size: nat, overlap: nat, meta: Metadata, j: int)
    requires WellFormed(cs, lines, n, size, overlap, meta)
    requires cs != [] && 1 <= j <= n
    ensures exists k :: 0 <= k < |cs| && cs[k].startLine <= j <= cs[k].endLine
  {
    var k := 0;
    while cs[k].endLine < j
      invariant 0 <= k < |cs|
      invariant k == 0 || cs[k - 1].endLine < j
      decreases |cs| - k
    {
      assert Linked(cs[k], cs[k + 1], lines, size, overlap);
      k := k + 1;
    }
    if k > 0 {
      assert Linked(cs[k - 1], cs[k], lines, size, overlap);
    }
  }

  // ------------------------------------------------------------ two behaviours of the code

  /**
    A chunk can exceed the size with more than one line: with size 100 and
    overlap 50, lines of 60, 40 and 70 characters give a second chunk of
    lines 2..3 holding 110 characters, because the carried 40-character line
    plus the next line are appended without a second size check.
  */
  lemma OversizedChunkWithTwoLines(a: string, b: string, c: string, path: string, language: string)
    requires |a| == 60 && |b| == 40 && |c| == 70
    ensures var cs := ChunkLines([a, b, c], path, language, 100, 50);
      && |cs| == 2
      && cs[1].startLine == 2 && cs[1].endLine == 3
      && |cs[1].content| == 110 > 100
  {
    var lines, meta := [a, b, c], ChunkMetadata(path, language);
    assert Concat([a]) == a by { assert [a][..0] == []; }
    assert Concat([a, b]) == a + b by { assert [a, b][..1] == [a]; }
    assert Concat([b, c]) == b + c by { assert [b, c][..1] == [b]; assert Concat([b]) == b by { assert [b][..0] == []; } }
    assert Feed(lines, 0, 100, 50, meta) == Window([], [], 1);
    assert Feed(lines, 1, 100, 50, meta) == Window([], [a], 1);
    assert Feed(lines, 2, 100, 50, meta) == Window([], [a, b], 1);
    assert OverlapTail([a, b], 50) == [b] by {
      assert [a, b][..1] == [a];
      assert OverlapTail([a], 10) == [];
    }
    assert Feed(lines, 3, 100, 50, meta) == Window([Chunk(a + b, 1, 2, meta)], [b, c], 2);
  }

  /**
    Two consecutive chunks can share their start line: with size 100 and
    overlap 50, lines of 40 and 70 characters give chunks 1..1 and 1..2,
    because the whole first chunk fits in the overlap and is carried.
  */
  lemma RepeatedStartLine(a: string, b: string, path: string, language: string)
    requires |a| == 40 && |b| == 70
    ensures var cs := ChunkLines([a, b], path, language, 100, 50);
      && |cs| == 2
      && cs[0].startLine == cs[1].startLine == 1
      && cs[0].endLine == 1 && cs[1].endLine == 2
  {
    var lines, meta := [a, b], ChunkMetadata(path, language);
    assert Concat([a]) == a by { assert [a][..0] == []; }
    assert Feed(lines, 0, 100, 50, meta) == Window([], [], 1);
    assert Feed(lines, 1, 100, 50, meta) == Window([], [a], 1);
    assert OverlapTail([a], 50) == [a] by { assert [a][..0] == []; }
    assert Feed(lines, 2, 100, 50, meta) == Window([Chunk(a, 1, 1, meta)], [a, b], 1);
  }

  // ------------------------------------------------------------ the chunker object

  /** `TextChunker`: the size and overlap read from the settings once. */
  class TextChunker {
    const chunkSize: nat
    const overlap: nat

    constructor (settings: Config.Settings)
      requires Config.Valid(settings)
      ensures chunkSize == settings.chunkSize && overlap == settings.chunkOverlap
    {
      chunkSize := settings.chunkSize;
      overlap := settings.chunkOverlap;
    }

    /** The backward walk over the closed chunk's lines that collects the overlap. */
    method CarryOverlap(current: seq<string>) returns (overlapLines: seq<string>, overlapChars: int)
      ensures overlapLines == OverlapTail(current, overlap)
      ensures overlapChars == |Concat(overlapLines)|
    {
      overlapChars := 0;
      overlapLines := [];
      var j := |current|;
      assert current[..j] == current && current[j..] == [];
      assert OverlapTail(current, overlap) + [] == OverlapTail(current, overlap);
      while j > 0
        invariant 0 <= j <= |current|
        invariant overlapLines == current[j..]
        invariant overlapChars == |Concat(overlapLines)| <= overlap
        invariant OverlapTail(current, overlap) == OverlapTail(current[..j], overlap - overlapChars) + overlapLines
      {
        var prev := current[j - 1];
        if overlapChars + |prev| <= overlap {
          assert current[..j][..j - 1] == current[..j - 1];
          ConcatCons(prev, overlapLines);
          overlapLines := [prev] + overlapLines;
          overlapChars := overlapChars + |prev|;
          j := j - 1;
        } else {
          break;
        }
      }
    }

    /** `TextChunker.chunk` over the lines of a file. */
    method ChunkText(lines: seq<string>, path: string, language: string) returns (chunks: seq<Chunk>)
      ensures chunks == ChunkLines(lines, path, language, chunkSize, overlap)
      ensures chunks == [] <==> lines == []
      ensures WellFormed(chunks, lines, |lines|, chunkSize, overlap, ChunkMetadata(path, language))
    {
      var meta := ChunkMetadata(path, language);
      chunks := [];
      var current: seq<string> := [];
      var currentStart := 1;
      var currentLength := 0;
      var i := 1;
      while i <= |lines|
        invariant 1 <= i <= |lines| + 1
        invariant Feed(lines, i - 1, chunkSize, overlap, meta) == Window(chunks, current, currentStart)
        invariant currentLength == |Concat(current)|
      {
        var line := lines[i - 1];
        ghost var w := Window(chunks, current, currentStart);
        if currentLength + |line| > chunkSize && current != [] {
          chunks := chunks + [Chunk(Concat(current), currentStart, i - 1, meta)];
          var overlapLines, overlapChars := CarryOverlap(current);
          StepSplits(w, i, line, overlapLines, chunkSize, overlap, meta);
          current := overlapLines;
          currentStart := i - |overlapLines|;
          currentLength := overlapChars;
        }
        ConcatAppend(current, [line]);
        ConcatOne(line);
        current := current + [line];
        currentLength := currentLength + |line|;
        assert Step(w, i, line, chunkSize, overlap, meta) == Window(chunks, current, currentStart);
        assert Feed(lines, i, chunkSize, overlap, meta) == Window(chunks, current, currentStart);
        i := i + 1;
      }
      if current != [] {
        chunks := chunks + [Chunk(Concat(current), currentStart, |lines|, meta)];
      }
      ChunkLinesFacts(lines, path, language, chunkSize, overlap);
    }
  }
}
