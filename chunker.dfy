/**
 * The document chunker of the vault: a fixed word window with overlap, and a
 * greedy aggregation of paragraphs up to a word budget.
 */
module Chunker {
  import opened Wrappers
  import opened Text

  /** `DocumentChunker`: its two settings, counted in words. */
  datatype DocumentChunker = DocumentChunker(chunkSize: nat, chunkOverlap: nat)

  /** `DocumentChunker::new`. */
  function New(chunkSize: nat, chunkOverlap: nat): (c: DocumentChunker)
    ensures c.chunkSize == chunkSize && c.chunkOverlap == chunkOverlap
  {
    DocumentChunker(chunkSize, chunkOverlap)
  }

  /** `DocumentChunker::default()`: 500-word chunks with a 50-word overlap. */
  function Default(): (c: DocumentChunker)
    ensures c.chunkSize == 500 && c.chunkOverlap == 50
  {
    New(500, 50)
  }

  // ---------------------------------------------------------------------------
  // chunk_text: fixed word windows

  function Min(a: nat, b: nat): nat {
    if a <= b then a else b
  }

  /** `usize::saturating_sub`. */
  function SaturatingSub(a: nat, b: nat): nat {
    if a >= b then a - b else 0
  }

  /** The words `start..end` of one chunk. */
  datatype Window = Window(start: nat, end: nat)

  /** The end of the window that starts at `start`, over `n` words. */
  function WindowEnd(n: nat, size: nat, start: nat): nat {
    Min(start + size, n)
  }

  /**
   * One pass of the loop of `chunk_text` from `start`: `None` when it breaks,
   * otherwise the next value of `start`.
   */
  function NextStart(n: nat, size: nat, overlap: nat, start: nat): Option<nat> {
    var end := WindowEnd(n, size, start);
    if end >= n then None else Some(SaturatingSub(end, overlap))
  }

  /** The loop of `chunk_text` over `n` words ends exactly under this condition. */
  predicate Terminates(n: nat, size: nat, overlap: nat) {
    n == 0 || n <= size || overlap < size
  }

  /** Under `Terminates`, every pass that does not break moves `start` forward. */
  lemma NextStartAdvances(n: nat, size: nat, overlap: nat, start: nat)
    requires Terminates(n, size, overlap) && start < n
    ensures NextStart(n, size, overlap, start).Some? ==> start < NextStart(n, size, overlap, start).value < n
  {
  }

  /**
   * Otherwise the loop never ends: with words present, more words than
   * `size` and `overlap >= size`, the pass from 0 neither breaks nor moves.
   */
  lemma ChunkTextStalls(n: nat, size: nat, overlap: nat)
    requires !Terminates(n, size, overlap)
    ensures NextStart(n, size, overlap, 0) == Some(0)
  {
  }

  /** The windows the loop visits from `start` on. */
  function WindowsFrom(n: nat, size: nat, overlap: nat, start: nat): (ws: seq<Window>)
    requires start < n && (n <= size || overlap < size)
    ensures ws != [] && ws[0].start == start && ws[|ws| - 1].end == n
    ensures forall i :: 0 <= i < |ws| ==>
      start <= ws[i].start < ws[i].end <= n && ws[i].end - ws[i].start <= size
    decreases n - start
  {
    var end := WindowEnd(n, size, start);
    match NextStart(n, size, overlap, start)
    case None => [Window(start, end)]
    case Some(next) =>
      NextStartAdvances(n, size, overlap, start);
      [Window(start, end)] + WindowsFrom(n, size, overlap, next)
  }

  /** All windows of `chunk_text` over `n` words. */
  function Windows(n: nat, size: nat, overlap: nat): (ws: seq<Window>)
    requires Terminates(n, size, overlap)
    ensures forall i :: 0 <= i < |ws| ==> ws[i].start < ws[i].end <= n
  {
    if n == 0 then [] else WindowsFrom(n, size, overlap, 0)
  }

  /** There are no windows exactly when there are no words. */
  lemma WindowsEmpty(n: nat, size: nat, overlap: nat)
    requires Terminates(n, size, overlap)
    ensures Windows(n, size, overlap) == [] <==> n == 0
  {
  }

  /**
   * The windows cover the words from first to last: each holds at most `size`
   * words, the first starts at word 0 and the last ends at the final word.
   */
  lemma WindowsSpan(n: nat, size: nat, overlap: nat)
    requires Terminates(n, size, overlap) && n > 0
    ensures var ws := Windows(n, size, overlap);
      ws != [] && ws[0].start == 0 && ws[|ws| - 1].end == n &&
      forall i :: 0 <= i < |ws| ==> ws[i].end - ws[i].start <= size
  {
  }

  /**
   * Every window but the last holds exactly `size` words, and the next one
   * starts exactly `overlap` words before its end.
   */
  predicate Overlapping(ws: seq<Window>, size: nat, overlap: nat) {
    forall i :: 0 <= i < |ws| - 1 ==>
      ws[i].end - ws[i].start == size && ws[i].end >= overlap &&
      ws[i + 1].start == ws[i].end - overlap
  }

  /** Consecutive windows share exactly `overlap` words, and all but the last are full. */
  lemma {:induction false} WindowsOverlap(n: nat, size: nat, overlap: nat, start: nat)
    requires start < n && (n <= size || overlap < size)
    ensures Overlapping(WindowsFrom(n, size, overlap, start), size, overlap)
    decreases n - start
  {
    match NextStart(n, size, overlap, start)
    case None =>
    case Some(next) =>
      NextStartAdvances(n, size, overlap, start);
      WindowsOverlap(n, size, overlap, next);
      var rest := WindowsFrom(n, size, overlap, next);
      assert WindowEnd(n, size, start) == start + size;
      assert WindowsFrom(n, size, overlap, start) == [Window(start, start + size)] + rest;
      OverlappingCons(Window(start, start + size), rest, size, overlap);
  }

  /** A full window in front of overlapping windows that start `overlap` words before its end. */
  lemma OverlappingCons(w: Window, rest: seq<Window>, size: nat, overlap: nat)
    requires Overlapping(rest, size, overlap) && rest != []
    requires w.end - w.start == size && w.end >= overlap && rest[0].start == w.end - overlap
    ensures Overlapping([w] + rest, size, overlap)
  {
    var ws := [w] + rest;
    forall i | 0 <= i < |ws| - 1
      ensures ws[i].end - ws[i].start == size && ws[i].end >= overlap
      ensures ws[i + 1].start == ws[i].end - overlap
    {
      if i > 0 {
        assert ws[i] == rest[i - 1] && ws[i + 1] == rest[i];
      }
    }
  }

  /** The text of a chunk: its words joined by single spaces. */
  function ChunkOf(words: seq<string>, w: Window): string
    requires w.start <= w.end <= |words|
  {
    Join(" ", words[w.start..w.end])
  }

  /** A chunk splits back into exactly the words of its window. */
  lemma ChunkSplitsBack(text: string, w: Window)
    requires w.start <= w.end <= |Words(text)|
    ensures Words(ChunkOf(Words(text), w)) == Words(text)[w.start..w.end]
  {
    var words := Words(text);
    WordsAreWords(text);
    assert forall x :: x in words[w.start..w.end] ==> x in words;
    WordsJoinSpace(words[w.start..w.end]);
  }

  /** The windows lie within `n` words. */
  predicate Fits(ws: seq<Window>, n: nat) {
    forall i :: 0 <= i < |ws| ==> ws[i].start <= ws[i].end <= n
  }

  /** The chunk text of each window, in order. */
  function ChunkMap(words: seq<string>, ws: seq<Window>): (r: seq<string>)
    requires Fits(ws, |words|)
    ensures |r| == |ws|
  {
    if ws == [] then [] else [ChunkOf(words, ws[0])] + ChunkMap(words, ws[1..])
  }

  lemma {:induction false} ChunkMapIndex(words: seq<string>, ws: seq<Window>, i: nat)
    requires Fits(ws, |words|) && i < |ws|
    ensures ChunkMap(words, ws)[i] == ChunkOf(words, ws[i])
  {
    if i > 0 {
      ChunkMapIndex(words, ws[1..], i - 1);
    }
  }

  /** The chunks the loop still has to emit when it is at `start`. */
  function RestChunks(words: seq<string>, size: nat, overlap: nat, start: nat): seq<string>
    requires |words| <= size || overlap < size
  {
    if start < |words| then ChunkMap(words, WindowsFrom(|words|, size, overlap, start)) else []
  }

  /**
   * One pass of the loop emits the chunk at `start`; unless it breaks, the
   * loop goes on from a later start with the chunks after it.
   */
  lemma RestChunksStep(words: seq<string>, size: nat, overlap: nat, start: nat)
    requires start < |words| && (|words| <= size || overlap < size)
    ensures var end := Min(start + size, |words|);
      var chunk := Join(" ", words[start..end]);
      var next := SaturatingSub(end, overlap);
      && start <= end <= |words|
      && (end >= |words| ==> RestChunks(words, size, overlap, start) == [chunk])
      && (end < |words| ==>
            && start < next < |words|
            && RestChunks(words, size, overlap, start) == [chunk] + RestChunks(words, size, overlap, next))
  {
    var n := |words|;
    var end := Min(start + size, n);
    NextStartAdvances(n, size, overlap, start);
    var ws := WindowsFrom(n, size, overlap, start);
    ChunkMapCons(words, ws);
    WindowsFromStep(n, size, overlap, start);
    assert ChunkMap(words, ws) == [Join(" ", words[start..end])] + ChunkMap(words, ws[1..]);
  }

  /** The windows from `start`: the window at `start`, then those from the next start, if any. */
  lemma WindowsFromStep(n: nat, size: nat, overlap: nat, start: nat)
    requires start < n && (n <= size || overlap < size)
    ensures var ws := WindowsFrom(n, size, overlap, start);
      var end := Min(start + size, n);
      && ws[0] == Window(start, end)
      && (end >= n ==> ws[1..] == [])
      && (end < n ==> SaturatingSub(end, overlap) < n && ws[1..] == WindowsFrom(n, size, overlap, SaturatingSub(end, overlap)))
  {
    NextStartAdvances(n, size, overlap, start);
  }

  /** The chunks of some windows: the chunk of the first, then those of the rest. */
  lemma ChunkMapCons(words: seq<string>, ws: seq<Window>)
    requires Fits(ws, |words|) && ws != []
    ensures Fits(ws[1..], |words|)
    ensures ChunkMap(words, ws) == [ChunkOf(words, ws[0])] + ChunkMap(words, ws[1..])
  {
  }

  /**
   * The loop of `chunk_text` over the split words: one chunk per window, its
   * words re-joined by single spaces.
   */
  method ChunkWindows(c: DocumentChunker, words: seq<string>) returns (chunks: seq<string>)
    requires Terminates(|words|, c.chunkSize, c.chunkOverlap)
    ensures chunks == ChunkMap(words, Windows(|words|, c.chunkSize, c.chunkOverlap))
  {
    var n := |words|;
    var size, overlap := c.chunkSize, c.chunkOverlap;
    chunks := [];
    if n == 0 {
      return;
    }
    var start := 0;
    while start < n
      invariant start <= n
      invariant chunks + RestChunks(words, size, overlap, start) == ChunkMap(words, Windows(n, size, overlap))
      decreases n - start
    {
      var end := Min(start + size, n);
      RestChunksStep(words, size, overlap, start);
      ghost var before := chunks;
      var chunk := Join(" ", words[start..end]);
      chunks := chunks + [chunk];
      if end >= n {
        assert chunks == ChunkMap(words, Windows(n, size, overlap));
        break;
      }
      start := SaturatingSub(end, overlap);
      assert before + ([chunk] + RestChunks(words, size, overlap, start)) ==
        chunks + RestChunks(words, size, overlap, start);
    }
  }

  /**
   * `chunk_text`: the whitespace-split words of `text` cut into windows, each
   * re-joined by single spaces. The source loops forever when `Terminates`
   * fails, so it is required.
   */
  method ChunkText(c: DocumentChunker, text: string) returns (chunks: seq<string>)
    requires Terminates(|Words(text)|, c.chunkSize, c.chunkOverlap)
    ensures chunks == ChunkMap(Words(text), Windows(|Words(text)|, c.chunkSize, c.chunkOverlap))
  {
    chunks := ChunkWindows(c, Words(text));
  }

  /**
   * Each chunk of `chunk_text` splits back into exactly the words of its
   * window, so it holds at most `chunkSize` words.
   */
  lemma ChunkTextWords(c: DocumentChunker, text: string, i: nat)
    requires Terminates(|Words(text)|, c.chunkSize, c.chunkOverlap)
    ensures var ws := Windows(|Words(text)|, c.chunkSize, c.chunkOverlap);
      i < |ws| ==>
        Words(ChunkMap(Words(text), ws)[i]) == Words(text)[ws[i].start..ws[i].end] &&
        |Words(ChunkMap(Words(text), ws)[i])| <= c.chunkSize
  {
    var ws := Windows(|Words(text)|, c.chunkSize, c.chunkOverlap);
    if i < |ws| {
      ChunkMapIndex(Words(text), ws, i);
      ChunkSplitsBack(text, ws[i]);
      WindowsSpan(|Words(text)|, c.chunkSize, c.chunkOverlap);
    }
  }

  // ---------------------------------------------------------------------------
  // chunk_by_paragraphs: greedy paragraph groups

  const ParagraphBreak := "\n\n"

  /** The elements of `s` that `keep` accepts, in order, as `Iterator::filter` yields them. */
  function Filter<T>(keep: T -> bool, s: seq<T>): seq<T> {
    if s == [] then [] else (if keep(s[0]) then [s[0]] else []) + Filter(keep, s[1..])
  }

  lemma {:induction false} FilterMember<T>(keep: T -> bool, s: seq<T>, x: T)
    ensures x in Filter(keep, s) <==> x in s && keep(x)
    decreases |s|
  {
    if s != [] {
      FilterMember(keep, s[1..], x);
      assert s == [s[0]] + s[1..];
    }
  }

  lemma {:induction false} FilterAppend<T>(keep: T -> bool, a: seq<T>, b: seq<T>)
    ensures Filter(keep, a + b) == Filter(keep, a) + Filter(keep, b)
    decreases |a|
  {
    if a == [] {
      assert a + b == b;
    } else {
      var head := if keep(a[0]) then [a[0]] else [];
      FilterCons(keep, a, b);
      FilterAppend(keep, a[1..], b);
      assert head + (Filter(keep, a[1..]) + Filter(keep, b)) == head + Filter(keep, a[1..]) + Filter(keep, b);
    }
  }

  /** The filter decides on the first element of `a + b` as on the first element of `a`. */
  lemma FilterCons<T>(keep: T -> bool, a: seq<T>, b: seq<T>)
    requires a != []
    ensures Filter(keep, a + b) == (if keep(a[0]) then [a[0]] else []) + Filter(keep, a[1..] + b)
  {
    assert (a + b)[0] == a[0] && (a + b)[1..] == a[1..] + b;
  }

  /** A piece that is not only whitespace. */
  predicate NotBlank(piece: string) {
    Trim(piece) != []
  }

  /** Keeps the pieces that are not blank, in order. */
  function NonBlank(pieces: seq<string>): seq<string> {
    Filter(NotBlank, pieces)
  }

  /** A piece is kept exactly when it is one of the pieces and is not blank. */
  lemma NonBlankMember(pieces: seq<string>, p: string)
    ensures p in NonBlank(pieces) <==> p in pieces && Trim(p) != []
  {
    FilterMember(NotBlank, pieces, p);
  }

  /** The filter works piece by piece, so the kept pieces stay in their original order. */
  lemma NonBlankAppend(a: seq<string>, b: seq<string>)
    ensures NonBlank(a + b) == NonBlank(a) + NonBlank(b)
  {
    FilterAppend(NotBlank, a, b);
  }

  /** The paragraphs of `chunk_by_paragraphs`: the non-blank pieces between blank lines. */
  function Paragraphs(text: string): seq<string> {
    NonBlank(SplitOn(text, ParagraphBreak))
  }

  /** The words of paragraphs joined by blank lines. */
  function WordCount(group: seq<string>): nat {
    |Words(Join(ParagraphBreak, group))|
  }

  /** Adding a paragraph to a group adds its words. */
  lemma WordCountAppend(group: seq<string>, p: string)
    ensures WordCount(group + [p]) == WordCount(group) + |Words(p)|
  {
    JoinAppend(ParagraphBreak, group, p);
    if group != [] {
      assert AllWhitespace(ParagraphBreak) by {
        assert forall i :: 0 <= i < 2 ==> ParagraphBreak[i] == '\n';
      }
      WordsSeparator(Join(ParagraphBreak, group), ParagraphBreak, p);
    }
  }

  /** The chunks closed so far and the chunk being filled. */
  datatype Grouping = Grouping(done: seq<seq<string>>, current: seq<string>)

  /** One pass of the loop of `chunk_by_paragraphs`. */
  function Step(g: Grouping, p: string, size: nat): Grouping {
    if WordCount(g.current) + |Words(p)| > size then
      Grouping(if g.current == [] then g.done else g.done + [g.current], [p])
    else
      Grouping(g.done, g.current + [p])
  }

  /** The loop of `chunk_by_paragraphs` over `ps`. */
  function Accumulate(ps: seq<string>, size: nat): Grouping {
    if ps == [] then Grouping([], [])
    else Step(Accumulate(ps[..|ps| - 1], size), ps[|ps| - 1], size)
  }

  /** The paragraph groups emitted, one per chunk. */
  function Groups(ps: seq<string>, size: nat): seq<seq<string>> {
    var g := Accumulate(ps, size);
    if g.current == [] then g.done else g.done + [g.current]
  }

  function Flatten(gs: seq<seq<string>>): seq<string> {
    if gs == [] then [] else Flatten(gs[..|gs| - 1]) + gs[|gs| - 1]
  }

  /** A group of several paragraphs stays within the word budget. */
  predicate Bounded(g: seq<string>, size: nat) {
    |g| >= 2 ==> WordCount(g) <= size
  }

  /** A new chunk was started only because the next paragraph did not fit. */
  predicate Greedy(gs: seq<seq<string>>, size: nat)
    requires forall i :: 0 <= i < |gs| ==> gs[i] != []
  {
    forall i :: 0 <= i < |gs| - 1 ==> WordCount(gs[i]) + |Words(gs[i + 1][0])| > size
  }

  /** The closed groups and the open one hold the paragraphs in order; no closed group is empty. */
  predicate Partitioned(ps: seq<string>, g: Grouping) {
    && Flatten(g.done) + g.current == ps
    && (forall i :: 0 <= i < |g.done| ==> g.done[i] != [])
    && (g.current == [] <==> ps == [])
    && (g.current == [] ==> g.done == [])
  }

  lemma {:induction false} AccumulatePartitioned(ps: seq<string>, size: nat)
    ensures Partitioned(ps, Accumulate(ps, size))
  {
    if ps != [] {
      var init, p := ps[..|ps| - 1], ps[|ps| - 1];
      AccumulatePartitioned(init, size);
      var g := Accumulate(init, size);
      assert init + [p] == ps;
      if WordCount(g.current) + |Words(p)| > size {
        if g.current != [] {
          FlattenAppend(g.done, g.current);
          var done' := g.done + [g.current];
          assert forall i :: 0 <= i < |g.done| ==> done'[i] == g.done[i];
        }
      }
    }
  }

  /** Every group, closed or open, keeps `Bounded`. */
  lemma {:induction false} AccumulateBounded(ps: seq<string>, size: nat)
    ensures var g := Accumulate(ps, size);
      (forall i :: 0 <= i < |g.done| ==> Bounded(g.done[i], size)) && Bounded(g.current, size)
  {
    if ps != [] {
      var init, p := ps[..|ps| - 1], ps[|ps| - 1];
      AccumulateBounded(init, size);
      var g := Accumulate(init, size);
      assert init + [p] == ps;
      if WordCount(g.current) + |Words(p)| > size {
        var done' := g.done + [g.current];
        assert forall i :: 0 <= i < |g.done| ==> done'[i] == g.done[i];
        assert done'[|g.done|] == g.current;
      } else {
        WordCountAppend(g.current, p);
      }
    }
  }

  /** Every closed group was closed because the paragraph after it did not fit. */
  lemma {:induction false} AccumulateGreedy(ps: seq<string>, size: nat)
    ensures var g := Accumulate(ps, size);
      && (forall i :: 0 <= i < |g.done| ==> g.done[i] != [])
      && Greedy(g.done, size)
      && (g.done != [] && g.current != [] ==> WordCount(g.done[|g.done| - 1]) + |Words(g.current[0])| > size)
  {
    AccumulatePartitioned(ps, size);
    if ps != [] {
      var init, p := ps[..|ps| - 1], ps[|ps| - 1];
      AccumulateGreedy(init, size);
      AccumulatePartitioned(init, size);
      var g := Accumulate(init, size);
      assert init + [p] == ps;
      if WordCount(g.current) + |Words(p)| > size && g.current != [] {
        GreedyAppend(g.done, g.current, size);
      }
    }
  }

  /** Closing one more group keeps `Greedy` when the group did not fit after the last one. */
  lemma GreedyAppend(done: seq<seq<string>>, g: seq<string>, size: nat)
    requires g != [] && forall i :: 0 <= i < |done| ==> done[i] != []
    requires Greedy(done, size)
    requires done != [] ==> WordCount(done[|done| - 1]) + |Words(g[0])| > size
    ensures var gs := done + [g];
      (forall i :: 0 <= i < |gs| ==> gs[i] != []) && Greedy(gs, size)
  {
    var gs := done + [g];
    forall i | 0 <= i < |gs| - 1
      ensures WordCount(gs[i]) + |Words(gs[i + 1][0])| > size
    {
      assert gs[i] == done[i];
      if i + 1 < |done| {
        assert gs[i + 1] == done[i + 1];
      }
    }
  }

  lemma {:induction false} FlattenAppend(gs: seq<seq<string>>, g: seq<string>)
    ensures Flatten(gs + [g]) == Flatten(gs) + g
  {
    assert (gs + [g])[..|gs|] == gs;
  }

  /**
   * The groups hold the paragraphs in their original order, none is empty,
   * and consecutive groups were split only because the next paragraph did not fit.
   */
  lemma GroupsPartition(ps: seq<string>, size: nat)
    ensures var gs := Groups(ps, size);
      Flatten(gs) == ps && (forall i :: 0 <= i < |gs| ==> gs[i] != []) && Greedy(gs, size)
  {
    AccumulatePartitioned(ps, size);
    AccumulateGreedy(ps, size);
    var g := Accumulate(ps, size);
    if g.current != [] {
      FlattenAppend(g.done, g.current);
      GreedyAppend(g.done, g.current, size);
    }
  }

  lemma {:induction false} WordCountMember(g: seq<string>, p: string)
    requires p in g
    ensures |Words(p)| <= WordCount(g)
  {
    var k := |g| - 1;
    WordCountAppend(g[..k], g[k]);
    assert g[..k] + [g[k]] == g;
    if g[k] != p {
      WordCountMember(g[..k], p);
    }
  }

  /**
   * A chunk made of several paragraphs never exceeds `size` words, and a
   * paragraph longer than `size` words is a chunk on its own.
   */
  lemma GroupsBounded(ps: seq<string>, size: nat)
    ensures forall g :: g in Groups(ps, size) ==> Bounded(g, size)
    ensures forall g, p :: g in Groups(ps, size) && p in g && |Words(p)| > size ==> g == [p]
  {
    AccumulateBounded(ps, size);
    var acc := Accumulate(ps, size);
    forall g | g in Groups(ps, size) ensures Bounded(g, size) {
      if g != acc.current {
        var i :| 0 <= i < |acc.done| && acc.done[i] == g;
      }
    }
    forall g, p | g in Groups(ps, size) && p in g && |Words(p)| > size
      ensures g == [p]
    {
      OversizedAlone(g, p, size);
    }
  }

  /** A bounded group holding a paragraph longer than `size` words holds only that paragraph. */
  lemma OversizedAlone(g: seq<string>, p: string, size: nat)
    requires Bounded(g, size) && p in g && |Words(p)| > size
    ensures g == [p]
  {
    WordCountMember(g, p);
    assert |g| == 1;
    assert g == [g[0]];
  }

  /** A group of non-blank paragraphs gives a non-empty chunk. */
  lemma GroupNotBlank(g: seq<string>)
    requires g != [] && forall p :: p in g ==> Trim(p) != []
    ensures Trim(Join(ParagraphBreak, g)) != []
  {
    assert g[|g| - 1] in g;
    LastNotBlank(g);
  }

  /** A group whose last paragraph is not blank gives a non-empty chunk. */
  lemma LastNotBlank(g: seq<string>)
    requires g != [] && Trim(g[|g| - 1]) != []
    ensures Trim(Join(ParagraphBreak, g)) != []
  {
    HasWords(g[|g| - 1]);
    GroupWords(g);
    WordsEmptyIff(Join(ParagraphBreak, g));
  }

  /** A paragraph that is not blank has a word. */
  lemma HasWords(p: string)
    requires Trim(p) != []
    ensures |Words(p)| > 0
  {
    WordsEmptyIff(p);
  }

  /** A group ending in a paragraph with a word has a word. */
  lemma GroupWords(g: seq<string>)
    requires g != [] && |Words(g[|g| - 1])| > 0
    ensures |Words(Join(ParagraphBreak, g))| > 0
  {
    var k := |g| - 1;
    Snoc(g);
    WordCountAppend(g[..k], g[k]);
  }

  lemma Snoc<T>(s: seq<T>)
    requires s != []
    ensures s[..|s| - 1] + [s[|s| - 1]] == s
  {
  }

  /** The chunk of a group: its paragraphs joined by blank lines, trimmed. */
  function GroupChunk(g: seq<string>): string {
    Trim(Join(ParagraphBreak, g))
  }

  /** The chunk of each group, in order. */
  function GroupChunks(gs: seq<seq<string>>): (r: seq<string>)
    ensures |r| == |gs|
  {
    if gs == [] then [] else GroupChunks(gs[..|gs| - 1]) + [GroupChunk(gs[|gs| - 1])]
  }

  lemma {:induction false} GroupChunksIndex(gs: seq<seq<string>>, i: nat)
    requires i < |gs|
    ensures GroupChunks(gs)[i] == GroupChunk(gs[i])
  {
    var init := gs[..|gs| - 1];
    assert GroupChunks(gs) == GroupChunks(init) + [GroupChunk(gs[|gs| - 1])];
    if i < |gs| - 1 {
      GroupChunksIndex(init, i);
      assert init[i] == gs[i];
    }
  }

  /** The loop of `chunk_by_paragraphs` over the paragraphs. */
  method ChunkParagraphs(c: DocumentChunker, ps: seq<string>) returns (chunks: seq<string>)
    requires forall p :: p in ps ==> p != []
    ensures chunks == GroupChunks(Groups(ps, c.chunkSize))
  {
    var size := c.chunkSize;
    chunks := [];
    var current := "";
    ghost var g := Grouping([], []);
    for i := 0 to |ps|
      invariant g == Accumulate(ps[..i], size)
      invariant current == Join(ParagraphBreak, g.current)
      invariant chunks == GroupChunks(g.done)
      invariant forall q :: q in g.current ==> q != []
    {
      var p := ps[i];
      assert p in ps;
      assert ps[..i + 1][..i] == ps[..i];
      JoinEmptyIff(ParagraphBreak, g.current);
      var paraWords := Words(p);
      if |Words(current)| + |paraWords| > size {
        if current != [] {
          assert (g.done + [g.current])[..|g.done|] == g.done;
          chunks := chunks + [Trim(current)];
        }
        current := p;
      } else {
        if current != [] {
          current := current + ParagraphBreak;
        }
        current := current + p;
        JoinAppend(ParagraphBreak, g.current, p);
      }
      g := Step(g, p, size);
    }
    assert ps[..|ps|] == ps;
    JoinEmptyIff(ParagraphBreak, g.current);
    if current != [] {
      assert (g.done + [g.current])[..|g.done|] == g.done;
      chunks := chunks + [Trim(current)];
    }
  }

  /**
   * `chunk_by_paragraphs`: the non-blank paragraphs of `text`, grouped greedily
   * up to `chunkSize` words, one chunk per group.
   */
  method ChunkByParagraphs(c: DocumentChunker, text: string) returns (chunks: seq<string>)
    ensures chunks == GroupChunks(Groups(Paragraphs(text), c.chunkSize))
  {
    var ps := Paragraphs(text);
    assert forall p :: p in ps ==> p != [] by {
      forall p | p in ps ensures p != [] {
        NonBlankMember(SplitOn(text, ParagraphBreak), p);
        assert Trim(p) != [];
      }
    }
    chunks := ChunkParagraphs(c, ps);
  }

  lemma {:induction false} FlattenMember(gs: seq<seq<string>>, i: nat, q: string)
    requires i < |gs| && q in gs[i]
    ensures q in Flatten(gs)
  {
    if i < |gs| - 1 {
      FlattenMember(gs[..|gs| - 1], i, q);
    }
  }

  /** Every paragraph chunk is non-empty and has no surrounding whitespace. */
  lemma ParagraphChunksClean(c: DocumentChunker, text: string)
    ensures var chunks := GroupChunks(Groups(Paragraphs(text), c.chunkSize));
      forall i :: 0 <= i < |chunks| ==> chunks[i] != [] && IsTrimmed(chunks[i])
  {
    var ps := Paragraphs(text);
    var gs := Groups(ps, c.chunkSize);
    GroupsPartition(ps, c.chunkSize);
    forall i | 0 <= i < |gs|
      ensures GroupChunks(gs)[i] != [] && IsTrimmed(GroupChunks(gs)[i])
    {
      GroupChunksIndex(gs, i);
      forall q | q in gs[i] ensures Trim(q) != [] {
        FlattenMember(gs, i, q);
        NonBlankMember(SplitOn(text, ParagraphBreak), q);
      }
      GroupNotBlank(gs[i]);
      assert GroupChunk(gs[i]) != [];
    }
  }

  /**
   * The words of each paragraph chunk are the words of its group, so a chunk holds
   * at most `chunkSize` words unless it is one paragraph that alone is longer.
   */
  lemma ParagraphChunkWords(c: DocumentChunker, text: string, i: nat)
    ensures var ps := Paragraphs(text);
      var gs := Groups(ps, c.chunkSize);
      var chunks := GroupChunks(gs);
      i < |chunks| ==>
        Words(chunks[i]) == Words(Join(ParagraphBreak, gs[i])) &&
        (|Words(chunks[i])| <= c.chunkSize ||
         exists p :: p in ps && |Words(p)| > c.chunkSize && chunks[i] == Trim(p))
  {
    var ps := Paragraphs(text);
    var gs := Groups(ps, c.chunkSize);
    if i < |GroupChunks(gs)| {
      GroupChunksIndex(gs, i);
      GroupOf(ps, c.chunkSize, i);
      GroupChunkWords(gs[i], c.chunkSize);
      if |gs[i]| == 1 {
        assert gs[i][0] in gs[i];
      }
    }
  }

  /** Each group is non-empty, within the budget, and made of the given paragraphs. */
  lemma GroupOf(ps: seq<string>, size: nat, i: nat)
    requires i < |Groups(ps, size)|
    ensures var g := Groups(ps, size)[i];
      g != [] && Bounded(g, size) && forall p :: p in g ==> p in ps
  {
    var gs := Groups(ps, size);
    GroupsPartition(ps, size);
    GroupsBounded(ps, size);
    assert gs[i] in gs;
    forall p | p in gs[i] ensures p in ps {
      FlattenMember(gs, i, p);
    }
  }

  /** A group's chunk has the group's words; past the budget it is a single trimmed paragraph. */
  lemma GroupChunkWords(g: seq<string>, size: nat)
    requires g != [] && Bounded(g, size)
    ensures Words(GroupChunk(g)) == Words(Join(ParagraphBreak, g))
    ensures |Words(GroupChunk(g))| <= size ||
      (|g| == 1 && |Words(g[0])| > size && GroupChunk(g) == Trim(g[0]))
  {
    WordsTrim(Join(ParagraphBreak, g));
  }

  /** With the default settings the word-window loop always ends. */
  lemma DefaultTerminates(text: string)
    ensures Terminates(|Words(text)|, Default().chunkSize, Default().chunkOverlap)
  {
  }
}
