/**
 * Specification of the sentence-aware chunker (`SimpleRAG.chunk_text`).
 *
 * The chunking loop visits a sequence of windows `[lo, hi)` of the text.
 * `Trace` is that sequence, `Texts` turns windows into chunks (each window
 * stripped, empty results dropped) and `Chunks` is what the loop returns.
 */
module Chunking {
  import opened Text

  /** The slice `text[lo:hi]` one iteration of the loop cuts. */
  datatype Window = Window(lo: nat, hi: nat)

  /**
   * Where the window starting at `start` ends: `start + maxChars` capped at the
   * end of the text; when text remains after that, moved back to just after the
   * last '.' that lies strictly after `start`, if there is one.
   */
  function WindowEnd(text: string, maxChars: nat, start: nat): (end: nat)
    requires start < |text|
    ensures start <= end <= |text| && end <= start + maxChars
    ensures maxChars > 0 ==> start < end
    ensures start + maxChars >= |text| ==> end == |text|
  {
    var end := Min(start + maxChars, |text|);
    if end < |text| then
      var lastPeriod := RFind(text, '.', start, end);
      if lastPeriod > start then lastPeriod + 1 else end
    else end
  }

  /** Some '.' lies strictly between `lo` and `hi`. */
  predicate DotBetween(text: string, lo: nat, hi: nat)
    requires hi <= |text|
  {
    exists k :: lo < k < hi && text[k] == '.'
  }

  /**
   * When text remains after `start + maxChars`, the window ends just after the
   * last '.' strictly after `start` and before `start + maxChars`, and at
   * `start + maxChars` itself when there is no such '.'.
   */
  lemma WindowEndSnaps(text: string, maxChars: nat, start: nat)
    requires start < |text| && start + maxChars < |text|
    ensures var end := WindowEnd(text, maxChars, start);
      && (!DotBetween(text, start, start + maxChars) ==> end == start + maxChars)
      && (DotBetween(text, start, start + maxChars) ==>
            && start + 1 < end && text[end - 1] == '.'
            && !DotBetween(text, end - 1, start + maxChars))
  {
    RFindLast(text, '.', start, start + maxChars);
  }

  /** The cursor after window `w`: `max(end - overlap, start + 1)`. */
  function NextStart(w: Window, overlap: int): (next: nat)
    ensures next > w.lo
    ensures overlap >= 0 && w.lo < w.hi ==> next <= w.hi
  {
    Max(w.hi - overlap, w.lo + 1)
  }

  /** The chunk a window yields: its text, stripped (nothing for a window outside the text). */
  function ChunkOf(text: string, w: Window): string {
    if w.lo <= w.hi <= |text| then Strip(text[w.lo..w.hi]) else []
  }

  /**
   * The windows the loop visits from cursor `start` while it may still emit
   * `budget` chunks. The loop stops at the end of the text, after a window that
   * reaches the end, or once the budget is used up.
   */
  function Trace(text: string, maxChars: nat, overlap: int, budget: int, start: nat): (ws: seq<Window>)
    ensures ws == [] <==> start >= |text| || budget <= 0
    ensures ws != [] ==> ws[0].lo == start
    decreases |text| - start
  {
    if start >= |text| || budget <= 0 then []
    else
      var w := Window(start, WindowEnd(text, maxChars, start));
      if w.hi >= |text| then [w]
      else [w] + Trace(text, maxChars, overlap, Spend(text, w, budget), NextStart(w, overlap))
  }

  /** The budget left after window `w`: one chunk less when `w` yields one. */
  function Spend(text: string, w: Window, budget: int): int {
    if ChunkOf(text, w) == [] then budget else budget - 1
  }

  /** Every window lies in the text, starts at or after `start` and ends where `WindowEnd` puts it. */
  predicate WindowsFit(text: string, maxChars: nat, start: nat, ws: seq<Window>) {
    forall i :: 0 <= i < |ws| ==>
      start <= ws[i].lo < |text| && ws[i].hi == WindowEnd(text, maxChars, ws[i].lo)
  }

  /** Every window but the last stops short of the end of the text and is followed by the window at `NextStart`. */
  ghost predicate Linked(text: string, overlap: int, ws: seq<Window>) {
    forall i, j :: 0 <= i < j < |ws| && j == i + 1 ==>
      ws[i].hi < |text| && ws[j].lo == NextStart(ws[i], overlap)
  }

  /** One step of the loop: the first window, then the trace from the next cursor. */
  lemma TraceStep(text: string, maxChars: nat, overlap: int, budget: int, start: nat)
    requires start < |text| && budget > 0
    requires WindowEnd(text, maxChars, start) < |text|
    ensures var w := Window(start, WindowEnd(text, maxChars, start));
      Trace(text, maxChars, overlap, budget, start)
        == [w] + Trace(text, maxChars, overlap, Spend(text, w, budget), NextStart(w, overlap))
  {
  }

  /** The windows of a trace lie in the text, from `start` on, and end where `WindowEnd` puts them. */
  lemma {:induction false} TraceFits(text: string, maxChars: nat, overlap: int, budget: int, start: nat)
    ensures WindowsFit(text, maxChars, start, Trace(text, maxChars, overlap, budget, start))
    decreases |text| - start
  {
    var ws := Trace(text, maxChars, overlap, budget, start);
    if ws != [] && WindowEnd(text, maxChars, start) < |text| {
      var w := Window(start, WindowEnd(text, maxChars, start));
      var b := Spend(text, w, budget);
      var next := NextStart(w, overlap);
      var rest := Trace(text, maxChars, overlap, b, next);
      TraceStep(text, maxChars, overlap, budget, start);
      TraceFits(text, maxChars, overlap, b, next);
      forall i | 0 <= i < |ws|
        ensures start <= ws[i].lo < |text| && ws[i].hi == WindowEnd(text, maxChars, ws[i].lo)
      {
        if i > 0 { assert ws[i] == rest[i - 1]; }
      }
    }
  }

  /** Consecutive windows of a trace follow each other as the loop moves its cursor. */
  lemma {:induction false} TraceLinked(text: string, maxChars: nat, overlap: int, budget: int, start: nat)
    ensures Linked(text, overlap, Trace(text, maxChars, overlap, budget, start))
    decreases |text| - start
  {
    var ws := Trace(text, maxChars, overlap, budget, start);
    if ws != [] && WindowEnd(text, maxChars, start) < |text| {
      var w := Window(start, WindowEnd(text, maxChars, start));
      var b := Spend(text, w, budget);
      var next := NextStart(w, overlap);
      var rest := Trace(text, maxChars, overlap, b, next);
      TraceStep(text, maxChars, overlap, budget, start);
      TraceLinked(text, maxChars, overlap, b, next);
      forall i, j | 0 <= i < j < |ws| && j == i + 1
        ensures ws[i].hi < |text| && ws[j].lo == NextStart(ws[i], overlap)
      {
        assert ws[j] == rest[i];
        if i > 0 {
          assert ws[i] == rest[i - 1];
          assert rest[i - 1].hi < |text| && rest[i].lo == NextStart(rest[i - 1], overlap);
        }
      }
    } else if ws != [] {
      assert ws == [Window(start, WindowEnd(text, maxChars, start))];
    }
  }

  /** The chunks a sequence of windows yields, in order, without the empty ones. */
  function Texts(text: string, ws: seq<Window>): (cs: seq<string>)
    ensures |cs| <= |ws|
    decreases |ws|
  {
    if ws == [] then []
    else if ChunkOf(text, ws[0]) == [] then Texts(text, ws[1..])
    else [ChunkOf(text, ws[0])] + Texts(text, ws[1..])
  }

  /** Every chunk of a sequence of windows is non-empty. */
  lemma {:induction false} TextsNonEmpty(text: string, ws: seq<Window>)
    ensures forall k :: 0 <= k < |Texts(text, ws)| ==> Texts(text, ws)[k] != []
    decreases |ws|
  {
    if ws != [] {
      TextsNonEmpty(text, ws[1..]);
    }
  }

  /**
   * A trace emits at most `budget` chunks, and when its last window stops
   * short of the end of the text it has emitted exactly `budget`.
   */
  lemma {:induction false} TraceBudget(text: string, maxChars: nat, overlap: int, budget: int, start: nat)
    ensures var ws := Trace(text, maxChars, overlap, budget, start);
      && |Texts(text, ws)| <= Max(budget, 0)
      && (maxChars > 0 && overlap >= 0 && ws != [] && ws[|ws| - 1].hi < |text| ==> |Texts(text, ws)| == budget)
    decreases |text| - start
  {
    var ws := Trace(text, maxChars, overlap, budget, start);
    if ws != [] && WindowEnd(text, maxChars, start) < |text| {
      var w := Window(start, WindowEnd(text, maxChars, start));
      var b := Spend(text, w, budget);
      var next := NextStart(w, overlap);
      var rest := Trace(text, maxChars, overlap, b, next);
      TraceStep(text, maxChars, overlap, budget, start);
      TraceBudget(text, maxChars, overlap, b, next);
      TextsCons(text, w, rest);
      if rest != [] {
        assert ws[|ws| - 1] == rest[|rest| - 1];
      }
    }
  }

  /** The chunks of `[w] + rest`: the chunk of `w`, when there is one, then those of `rest`. */
  lemma TextsCons(text: string, w: Window, rest: seq<Window>)
    ensures Texts(text, [w] + rest) == (if ChunkOf(text, w) == [] then [] else [ChunkOf(text, w)]) + Texts(text, rest)
    ensures |Texts(text, [w] + rest)| == |Texts(text, rest)| + (if ChunkOf(text, w) == [] then 0 else 1)
  {
    assert ([w] + rest)[1..] == rest;
  }

  /**
   * What `chunk_text(text, maxChars, overlap, maxChunks)` returns: the chunks of
   * the windows the loop visits from cursor 0. Every chunk is non-empty and
   * there are at most `maxChunks` of them.
   */
  function Chunks(text: string, maxChars: nat, overlap: int, maxChunks: int): (cs: seq<string>)
    ensures forall k :: 0 <= k < |cs| ==> cs[k] != []
    ensures |cs| <= Max(maxChunks, 0)
  {
    TraceBudget(text, maxChars, overlap, maxChunks, 0);
    TextsNonEmpty(text, Trace(text, maxChars, overlap, maxChunks, 0));
    Texts(text, Trace(text, maxChars, overlap, maxChunks, 0))
  }

  /** The empty text has no chunks. */
  lemma EmptyTextHasNoChunks(maxChars: nat, overlap: int, maxChunks: int)
    ensures Chunks([], maxChars, overlap, maxChunks) == []
  {
  }

  /**
   * A text that fits in one window yields its stripped self as the single
   * chunk, or nothing when it is all white space.
   */
  lemma ShortTextIsOneChunk(text: string, maxChars: nat, overlap: int, maxChunks: int)
    requires |text| <= maxChars && maxChunks >= 1
    ensures Chunks(text, maxChars, overlap, maxChunks)
              == if Strip(text) == [] then [] else [Strip(text)]
  {
    if text != [] {
      var ws := Trace(text, maxChars, overlap, maxChunks, 0);
      assert ws == [Window(0, |text|)];
      assert text[0..|text|] == text;
      assert ws[1..] == [];
    }
  }

  /** Some window of `ws` holds position `p`. */
  predicate Covers(ws: seq<Window>, p: nat) {
    exists i :: 0 <= i < |ws| && ws[i].lo <= p < ws[i].hi
  }

  /** Consecutive windows start strictly later and leave no gap. */
  ghost predicate Chained(ws: seq<Window>) {
    forall i, j :: 0 <= i < j < |ws| && j == i + 1 ==> ws[i].lo < ws[j].lo <= ws[i].hi
  }

  /** A chain of windows covers every position from its first start to its last end. */
  lemma {:induction false} ChainCovers(ws: seq<Window>, p: nat)
    requires ws != [] && Chained(ws)
    requires ws[0].lo <= p < ws[|ws| - 1].hi
    ensures Covers(ws, p)
    decreases |ws|
  {
    if p >= ws[0].hi {
      var tail := ws[1..];
      assert Chained(tail) by {
        forall i, j | 0 <= i < j < |tail| && j == i + 1 ensures tail[i].lo < tail[j].lo <= tail[i].hi {
          assert tail[i] == ws[i + 1] && tail[j] == ws[j + 1];
        }
      }
      ChainCovers(tail, p);
      var i :| 0 <= i < |tail| && tail[i].lo <= p < tail[i].hi;
      assert ws[i + 1] == tail[i];
    }
  }

  /**
   * Windows that fit and are linked, with `maxChars > 0` and `overlap >= 0`,
   * are non-empty, at most `maxChars` long and chained, so they cover every
   * position from the first start to the last end.
   */
  lemma FittedLinkedCover(text: string, maxChars: nat, overlap: int, start: nat, ws: seq<Window>)
    requires maxChars > 0 && overlap >= 0
    requires WindowsFit(text, maxChars, start, ws) && Linked(text, overlap, ws)
    ensures forall i :: 0 <= i < |ws| ==> ws[i].lo < ws[i].hi <= ws[i].lo + maxChars
    ensures Chained(ws)
    ensures ws != [] ==> forall p :: ws[0].lo <= p < ws[|ws| - 1].hi ==> Covers(ws, p)
  {
    forall i, j | 0 <= i < j < |ws| && j == i + 1
      ensures ws[i].lo < ws[j].lo <= ws[i].hi
    {
      assert ws[i].lo < ws[i].hi;
    }
    if ws != [] {
      forall p | ws[0].lo <= p < ws[|ws| - 1].hi
        ensures Covers(ws, p)
      {
        ChainCovers(ws, p);
      }
    }
  }

  /**
   * The windows of a chunking run with `maxChars > 0` and `overlap >= 0`:
   * the first starts at 0; each is non-empty, at most `maxChars` long and ends
   * where `WindowEnd` puts it; the cursor strictly increases and never passes
   * the previous end, so together the windows cover the text from 0 to the last
   * end without a gap; and that last end is the end of the text unless the run
   * was cut short by `maxChunks`.
   */
  lemma ChunkingCoversText(text: string, maxChars: nat, overlap: int, maxChunks: int)
    requires maxChars > 0 && overlap >= 0
    ensures var ws := Trace(text, maxChars, overlap, maxChunks, 0);
      && Chunks(text, maxChars, overlap, maxChunks) == Texts(text, ws)
      && (ws == [] <==> text == [] || maxChunks <= 0)
      && (forall i :: 0 <= i < |ws| ==> ws[i].lo < ws[i].hi <= ws[i].lo + maxChars)
      && Chained(ws)
      && (ws != [] ==>
            && ws[0].lo == 0
            && (ws[|ws| - 1].hi == |text| || |Chunks(text, maxChars, overlap, maxChunks)| == maxChunks)
            && forall p :: 0 <= p < ws[|ws| - 1].hi ==> Covers(ws, p))
  {
    var ws := Trace(text, maxChars, overlap, maxChunks, 0);
    TraceBudget(text, maxChars, overlap, maxChunks, 0);
    TraceFits(text, maxChars, overlap, maxChunks, 0);
    TraceLinked(text, maxChars, overlap, maxChunks, 0);
    FittedLinkedCover(text, maxChars, overlap, 0, ws);
  }
}
