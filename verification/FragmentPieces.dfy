/** Window extraction: from the buffer to the list of memory pieces that make up a fragment. */
module FragmentPieces {
  import opened RingMath
  import opened Elements
  import opened IterableQueue
  import opened LowerBound

  /** A pointer into the buffer and a length: `count` frames of the record in `slot`, from frame `first` on. */
  datatype Piece = Piece(slot: nat, first: nat, count: nat)

  datatype ResultCode = Found | NotFound | NotYet | Unknown

  ghost predicate Fits(p: Piece, slots: seq<Element>) {
    p.slot < |slots| && p.first + p.count <= |slots[p.slot].frames|
  }

  ghost predicate AllFit(ps: seq<Piece>, slots: seq<Element>) {
    forall p :: p in ps ==> Fits(p, slots)
  }

  /** What a fragment built from the pieces contains. */
  ghost function Deref(ps: seq<Piece>, slots: seq<Element>): (fs: seq<Frame>)
    requires AllFit(ps, slots)
  {
    if ps == [] then []
    else
      var p := ps[|ps| - 1];
      assert Fits(p, slots);
      Deref(ps[..|ps| - 1], slots) + slots[p.slot].frames[p.first..p.first + p.count]
  }

  lemma AllFitConcat(a: seq<Piece>, b: seq<Piece>, slots: seq<Element>)
    requires AllFit(a, slots) && AllFit(b, slots)
    ensures AllFit(a + b, slots)
  {
    hide Fits;
  }

  lemma AllFitFront(ps: seq<Piece>, slots: seq<Element>)
    requires AllFit(ps, slots) && ps != []
    ensures AllFit(ps[..|ps| - 1], slots) && Fits(ps[|ps| - 1], slots)
  {
    hide Fits;
  }

  lemma {:induction false} DerefConcat(a: seq<Piece>, b: seq<Piece>, slots: seq<Element>)
    requires AllFit(a, slots) && AllFit(b, slots)
    ensures AllFit(a + b, slots) && Deref(a + b, slots) == Deref(a, slots) + Deref(b, slots)
  {
    hide Fits, AllFit, Deref;
    AllFitConcat(a, b, slots);
    if b == [] {
      assert a + b == a;
      DerefNothing(slots);
    } else {
      var b', p := b[..|b| - 1], b[|b| - 1];
      assert a + b == (a + b') + [p] && b == b' + [p];
      AllFitFront(b, slots);
      DerefConcat(a, b', slots);
      DerefAppend(a + b', p, slots);
      DerefAppend(b', p, slots);
    }
  }

  /** Pieces see only the slots they name. */
  lemma {:induction false} DerefFrame(ps: seq<Piece>, slots: seq<Element>, slots': seq<Element>)
    requires AllFit(ps, slots) && |slots| == |slots'|
    requires forall p :: p in ps ==> slots'[p.slot] == slots[p.slot]
    ensures AllFit(ps, slots') && Deref(ps, slots') == Deref(ps, slots)
  {
    forall p | p in ps
      ensures Fits(p, slots')
    {
      assert Fits(p, slots);
    }
    if ps != [] {
      DerefFrame(ps[..|ps| - 1], slots, slots');
    }
  }

  /** The pieces of the frames from `i` on that start later than one tick before the window and
      before its end; the subtraction is 64-bit. */
  function SplitPieces(e: Element, slot: nat, begin: nat, end: nat, lay: Layout, i: nat): (ps: seq<Piece>)
    requires begin < TWO_TO_THE_64 && lay.Valid() && i <= |e.frames|
  {
    if i == 0 then []
    else
      SplitPieces(e, slot, begin, end, lay, i - 1)
      + (if e.frames[i - 1].ts > Sub64(begin, lay.tick) && e.frames[i - 1].ts < end
         then [Piece(slot, i - 1, 1)] else [])
  }

  /** What the extraction takes of one element: nothing, some of its frames, or all of them. */
  function ElementPieces(e: Element, slot: nat, begin: nat, end: nat, lay: Layout): (ps: seq<Piece>)
    requires begin < TWO_TO_THE_64 && lay.Valid()
  {
    if end <= e.ts || e.ts + lay.Span() <= begin then []
    else if lay.numFrames > 1 && ((e.ts < begin && e.ts + lay.Span() > begin) || e.ts + lay.Span() > end) then
      SplitPieces(e, slot, begin, end, lay, |e.frames|)
    else [Piece(slot, 0, lay.numFrames)]
  }

  /** Splitting, skipping and whole copies together select exactly the frames that overlap the window. */
  lemma ElementPiecesAreFilter(slots: seq<Element>, slot: nat, begin: nat, end: nat, lay: Layout)
    requires lay.Valid() && slot < |slots| && WellFormed(slots[slot], lay)
    requires lay.tick <= begin < TWO_TO_THE_64
    ensures var ps := ElementPieces(slots[slot], slot, begin, end, lay);
            && AllFit(ps, slots)
            && (forall p :: p in ps ==> p.slot == slot)
            && Deref(ps, slots) == FramesInWindow(slots[slot].frames, begin, end, lay.tick)
  {
    hide Deref, Layout.Span, SplitPieces, WellFormed, FramesInWindow, Sub64;
    var e := slots[slot];
    WellFormedInSpan(e, lay);
    DerefNothing(slots);
    if end <= e.ts || e.ts + lay.Span() <= begin {
      NoneInWindow(e.frames, begin, end, lay.tick);
    } else if lay.numFrames > 1 && ((e.ts < begin && e.ts + lay.Span() > begin) || e.ts + lay.Span() > end) {
      SplitPiecesAreFilter(slots, slot, begin, end, lay, |e.frames|);
      assert e.frames[..|e.frames|] == e.frames;
    } else {
      AllInWindow(e.frames, begin, end, lay.tick);
      WholePiece(slots, slot);
    }
  }

  lemma WholePiece(slots: seq<Element>, slot: nat)
    requires slot < |slots|
    ensures var ps := [Piece(slot, 0, |slots[slot].frames|)];
            AllFit(ps, slots) && Deref(ps, slots) == slots[slot].frames
  {
    var p := Piece(slot, 0, |slots[slot].frames|);
    DerefAppend([], p, slots);
    assert [] + [p] == [p];
  }

  lemma {:induction false} SplitPiecesAreFilter(slots: seq<Element>, slot: nat, begin: nat, end: nat,
                                                lay: Layout, i: nat)
    requires slot < |slots| && i <= |slots[slot].frames| && lay.Valid() && lay.tick <= begin < TWO_TO_THE_64
    ensures var ps := SplitPieces(slots[slot], slot, begin, end, lay, i);
            && AllFit(ps, slots)
            && (forall p :: p in ps ==> p.slot == slot)
            && Deref(ps, slots) == FramesInWindow(slots[slot].frames[..i], begin, end, lay.tick)
  {
    hide Sub64, Deref;
    if 0 < i {
      var e := slots[slot];
      var ps, f := SplitPieces(e, slot, begin, end, lay, i - 1), e.frames[i - 1];
      SplitPiecesAreFilter(slots, slot, begin, end, lay, i - 1);
      assert e.frames[..i][..i - 1] == e.frames[..i - 1];
      if InWindow(f, begin, end, lay.tick) {
        DerefAppend(ps, Piece(slot, i - 1, 1), slots);
        assert e.frames[i - 1..i] == [f];
      } else {
        assert ps + [] == ps;
      }
    } else {
      DerefNothing(slots);
    }
  }

  lemma DerefNothing(slots: seq<Element>)
    ensures Deref([], slots) == []
  {
  }

  lemma DerefAppend(ps: seq<Piece>, p: Piece, slots: seq<Element>)
    requires AllFit(ps, slots) && Fits(p, slots)
    ensures AllFit(ps + [p], slots)
    ensures Deref(ps + [p], slots) == Deref(ps, slots) + slots[p.slot].frames[p.first..p.first + p.count]
  {
    assert (ps + [p])[..|ps|] == ps;
  }

  /** The reference for the extraction: the pieces of every live element, oldest first. */
  function WindowPieces(es: seq<Element>, r: nat, n: nat, begin: nat, end: nat, lay: Layout): (ps: seq<Piece>)
    requires begin < TWO_TO_THE_64 && lay.Valid()
    requires r < n && |es| <= n
  {
    if es == [] then []
    else
      WindowPieces(es[..|es| - 1], r, n, begin, end, lay)
      + ElementPieces(es[|es| - 1], Idx(r, |es| - 1, n), begin, end, lay)
  }

  /** The records from index `r` on are the elements `es`. */
  ghost predicate Holds(slots: seq<Element>, r: nat, es: seq<Element>) {
    && r < |slots| && |es| <= |slots|
    && forall p :: 0 <= p < |es| ==> slots[Idx(r, p, |slots|)] == es[p]
  }

  /** The pieces of the live elements hold exactly the buffered frames that overlap the window. */
  lemma {:induction false} WindowPiecesAreFilter(slots: seq<Element>, r: nat, es: seq<Element>,
                                                 begin: nat, end: nat, lay: Layout)
    requires Holds(slots, r, es) && AllWellFormed(es, lay)
    requires lay.Valid() && lay.tick <= begin < TWO_TO_THE_64
    ensures var ps := WindowPieces(es, r, |slots|, begin, end, lay);
            && AllFit(ps, slots)
            && Deref(ps, slots) == FramesInWindow(AllFrames(es), begin, end, lay.tick)
  {
    if es != [] {
      var es', e, slot := es[..|es| - 1], es[|es| - 1], Idx(r, |es| - 1, |slots|);
      WindowPiecesAreFilter(slots, r, es', begin, end, lay);
      ElementPiecesAreFilter(slots, slot, begin, end, lay);
      DerefConcat(WindowPieces(es', r, |slots|, begin, end, lay), ElementPieces(e, slot, begin, end, lay), slots);
      FramesInWindowConcat(AllFrames(es'), e.frames, begin, end, lay.tick);
    }
  }

  /** Elements that end before the window, or start at or after its end, yield no pieces. */
  lemma {:induction false} OutsidePieces(es: seq<Element>, a: nat, r: nat, n: nat, begin: nat, end: nat, lay: Layout)
    requires begin < TWO_TO_THE_64 && lay.Valid()
    requires r < n && a <= |es| <= n
    requires forall i :: a <= i < |es| ==> end <= es[i].ts || es[i].ts + lay.Span() <= begin
    ensures WindowPieces(es, r, n, begin, end, lay) == WindowPieces(es[..a], r, n, begin, end, lay)
  {
    if a < |es| {
      OutsidePieces(es[..|es| - 1], a, r, n, begin, end, lay);
      assert es[..|es| - 1][..a] == es[..a];
    } else {
      assert es[..a] == es;
    }
  }

  /** When the search for `key` gives no index: nothing is buffered, the key is older than everything
      buffered, or the arithmetic search is used and the key is beyond the data. */
  ghost predicate SearchMisses(es: seq<Element>, key: nat, lay: Layout, arithmetic: bool)
    requires lay.Valid()
  {
    es == [] || key < es[0].ts || (arithmetic && key > es[0].ts + |es| * lay.Span())
  }

  /** Position `p` is a place to start from: no frame of an earlier element overlaps the window.
      When the key wrapped around, it is the end of the data. */
  ghost predicate StartsAt(es: seq<Element>, begin: nat, lay: Layout, p: nat)
    requires lay.Valid()
  {
    && p <= |es|
    && if lay.Span() <= begin then forall i :: 0 <= i < p ==> es[i].ts + lay.Span() <= begin else p == |es|
  }

  /** The position at which a search for `key` that does not miss ends. */
  ghost function SearchPos(es: seq<Element>, key: int, lay: Layout, arithmetic: bool): (p: nat)
    requires lay.Valid()
    ensures p <= |es|
  {
    LowerBoundPos(es, if arithmetic then key - lay.tick + 1 else key)
  }

  /** Starting there leaves out nothing that overlaps the window. */
  lemma SearchPosStarts(es: seq<Element>, begin: nat, lay: Layout, arithmetic: bool)
    requires lay.Valid() && lay.Span() <= begin
    ensures StartsAt(es, begin, lay, SearchPos(es, begin - lay.Span(), lay, arithmetic))
  {
    hide Layout.Span, LowerBoundPos;
  }

  /** Where either search starts, as a position. */
  lemma SearchStartsAt(queue: IterableQueue<Element>, begin: nat, lay: Layout, arithmetic: bool, index: nat)
    returns (p: nat)
    requires queue.Valid() && lay.Valid() && begin < TWO_TO_THE_64 && queue.Live() != []
    requires Increasing(queue.Live()) && AllWellFormed(queue.Live(), lay)
    requires arithmetic ==> GapFree(queue.Live(), lay)
    requires var key := Sub64(begin, lay.Span());
             index == if arithmetic then FixedRateLowerBound(queue, key, lay) else SearchResult(queue, key)
    ensures index == END <==> SearchMisses(queue.Live(), Sub64(begin, lay.Span()), lay, arithmetic)
    ensures index != END ==>
              && StartsAt(queue.Live(), begin, lay, p)
              && p == SearchPos(queue.Live(), Sub64(begin, lay.Span()), lay, arithmetic)
              && index == Idx(queue.readIndex, p, queue.records.Length)
              && index < queue.records.Length < END
              && Distance(queue.readIndex, index, queue.records.Length) == p
  {
    var es, key, n := queue.Live(), Sub64(begin, lay.Span()), queue.records.Length;
    if arithmetic {
      FixedRateIsExact(queue, key, lay);
    }
    hide Layout.Span, FixedRateLowerBound, GapFree, LowerBoundPos, Sub64;
    p := LowerBoundPos(es, if arithmetic then key - lay.tick + 1 else key);
    if begin < lay.Span() {
      KeyWraps(begin, lay);
      assert AllWellFormed(es, lay);
    }
  }

  /** With a window that begins less than one span after zero, the search key wraps to the top of the range. */
  lemma KeyWraps(begin: nat, lay: Layout)
    requires lay.Valid() && begin < lay.Span()
    ensures Sub64(begin, lay.Span()) == 0x1_0000_0000_0000_0000 + begin - lay.Span()
  {
  }

  /** The pieces of a prefix of the buffer from which elements outside the window are left out. */
  lemma BeforeStart(es: seq<Element>, r: nat, n: nat, begin: nat, end: nat, lay: Layout, p: nat)
    requires begin < TWO_TO_THE_64 && lay.Valid() && r < n && |es| <= n && lay.Span() <= begin
    requires StartsAt(es, begin, lay, p)
    ensures WindowPieces(es[..p], r, n, begin, end, lay) == []
  {
    OutsidePieces(es[..p], 0, r, n, begin, end, lay);
  }

  lemma OneMore(es: seq<Element>, r: nat, n: nat, begin: nat, end: nat, lay: Layout, p: nat)
    requires begin < TWO_TO_THE_64 && lay.Valid() && r < n && |es| <= n && p < |es|
    ensures WindowPieces(es[..p + 1], r, n, begin, end, lay)
            == WindowPieces(es[..p], r, n, begin, end, lay) + ElementPieces(es[p], Idx(r, p, n), begin, end, lay)
  {
    assert es[..p + 1][..p] == es[..p];
  }

  lemma PastEnd(es: seq<Element>, r: nat, n: nat, begin: nat, end: nat, lay: Layout, p: nat)
    requires begin < TWO_TO_THE_64 && lay.Valid() && r < n && |es| <= n && p <= |es| && Increasing(es)
    requires p < |es| ==> end <= es[p].ts
    ensures WindowPieces(es[..p], r, n, begin, end, lay) == WindowPieces(es, r, n, begin, end, lay)
  {
    OutsidePieces(es, p, r, n, begin, end, lay);
  }

  /** When the arithmetic search finds the key beyond the data, no element overlaps the window. */
  lemma BeyondData(es: seq<Element>, r: nat, n: nat, begin: nat, end: nat, lay: Layout)
    requires begin < TWO_TO_THE_64 && lay.Valid() && r < n && |es| <= n && es != [] && lay.Span() <= begin
    requires GapFree(es, lay) && es[0].ts + lay.Span() <= begin
    requires SearchMisses(es, Sub64(begin, lay.Span()), lay, true)
    ensures WindowPieces(es, r, n, begin, end, lay) == []
  {
    hide Layout.Span;
    forall i | 0 <= i < |es|
      ensures es[i].ts + lay.Span() <= begin
    {
      GapFreeAt(es, lay, i);
      MulMono(i, |es|, lay.Span());
    }
    OutsidePieces(es, 0, r, n, begin, end, lay);
  }

  /** The frame loop over an element that only partly overlaps the window. */
  method SplitElement(element: Element, slot: nat, begin: nat, end: nat, lay: Layout) returns (pieces: seq<Piece>)
    requires begin < TWO_TO_THE_64 && lay.Valid()
    ensures pieces == SplitPieces(element, slot, begin, end, lay, |element.frames|)
  {
    pieces := [];
    for i := 0 to |element.frames|
      invariant pieces == SplitPieces(element, slot, begin, end, lay, i)
    {
      if element.frames[i].ts > Sub64(begin, lay.tick) && element.frames[i].ts < end {
        pieces := pieces + [Piece(slot, i, 1)];
      }
    }
  }

  /** Skips an element before the window, splits one that only partly overlaps it, or takes a whole one. */
  method TakeElement(element: Element, slot: nat, begin: nat, end: nat, lay: Layout) returns (pieces: seq<Piece>)
    requires begin < TWO_TO_THE_64 && lay.Valid() && element.ts < end
    ensures pieces == ElementPieces(element, slot, begin, end, lay)
  {
    if element.ts + lay.Span() <= begin {
      pieces := [];
    } else if lay.numFrames > 1 && ((element.ts < begin && element.ts + lay.Span() > begin)
                                    || element.ts + lay.Span() > end) {
      pieces := SplitElement(element, slot, begin, end, lay);
    } else {
      pieces := [Piece(slot, 0, lay.numFrames)];
    }
  }

  /** Gathers the pieces of [begin, end). `arithmetic` is the choice of the constant-time search. */
  method GetFragmentPieces(queue: IterableQueue<Element>, begin: nat, end: nat, lay: Layout, arithmetic: bool)
    returns (code: ResultCode, pieces: seq<Piece>)
    requires queue.Valid() && lay.Valid() && begin < TWO_TO_THE_64 && queue.Live() != []
    requires Increasing(queue.Live()) && AllWellFormed(queue.Live(), lay)
    requires arithmetic ==> GapFree(queue.Live(), lay)
    ensures code == if SearchMisses(queue.Live(), Sub64(begin, lay.Span()), lay, arithmetic) then NotYet else Found
    ensures pieces == if queue.Live()[0].ts + lay.Span() <= begin
                      then WindowPieces(queue.Live(), queue.readIndex, queue.records.Length, begin, end, lay)
                      else []
  {
    hide Idx, Distance, Good, IterableQueue.Live, Increasing, AllWellFormed, GapFree, Layout.Valid, Layout.Span;
    hide WindowPieces, ElementPieces, SearchResult, FixedRateLowerBound, Sub64;
    ghost var es, r, n := queue.Live(), queue.readIndex, queue.records.Length;
    var key := Sub64(begin, lay.Span());
    var index;
    if arithmetic {
      index := FixedRateLowerBound(queue, key, lay);
    } else {
      ghost var probes;
      index, probes := BinarySearchLowerBound(queue, key);
    }
    ghost var start := SearchStartsAt(queue, begin, lay, arithmetic, index);
    pieces := [];
    if index == END {
      if arithmetic && lay.Span() <= begin && es[0].ts + lay.Span() <= begin {
        BeyondData(es, r, n, begin, end, lay);
      }
      return NotYet, pieces;
    }
    code := Found;
    var it := new Iterator(queue, index);
    assert it.Position() == start;
    if lay.Span() <= begin {
      BeforeStart(es, r, n, begin, end, lay, start);
    }
    while it.IsGood() && queue.records[it.index].ts < end
      invariant it.queue == queue && it.Valid()
      invariant queue.Live() == es && queue.readIndex == r && queue.records.Length == n
      invariant if lay.Span() <= begin then pieces == WindowPieces(es[..it.Position()], r, n, begin, end, lay)
                else pieces == [] && it.Position() == |es|
      decreases |es| - it.Position()
    {
      ghost var p := it.Position();
      var element := queue.records[it.index];
      assert element == es[p] && it.index == Idx(r, p, n);
      OneMore(es, r, n, begin, end, lay, p);
      var some := TakeElement(element, it.index, begin, end, lay);
      pieces := pieces + some;
      it.Advance();
    }
    if lay.Span() <= begin {
      PastEnd(es, r, n, begin, end, lay, it.Position());
    }
  }
}
