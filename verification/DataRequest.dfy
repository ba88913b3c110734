/** Answering a data request: classify the window against the buffered data, extract, set error bits. */
module DataRequest {
  import opened RingMath
  import opened Elements
  import opened IterableQueue
  import opened LowerBound
  import opened FragmentPieces

  datatype ErrorBit = DataNotFound | Incomplete

  /** The buffered elements cover the window: the oldest one starts no later than the window begins, and the newest
      one no earlier than it ends. */
  ghost predicate Covers(es: seq<Element>, begin: nat, end: nat) {
    es != [] && es[0].ts <= begin && end <= es[|es| - 1].ts
  }

  /** The first piece of the window can be found: the oldest element ends no later than the window
      begins. This is what the search, which looks one span back, demands. */
  ghost predicate StartReachable(es: seq<Element>, begin: nat, lay: Layout)
    requires lay.Valid()
  {
    es != [] && es[0].ts + lay.Span() <= begin
  }

  /** A covered window whose start is reachable is never beyond the range of either search. */
  lemma CoveredWindowIsInRange(es: seq<Element>, begin: nat, end: nat, lay: Layout, arithmetic: bool)
    requires lay.Valid() && begin < TWO_TO_THE_64 && (arithmetic ==> GapFree(es, lay))
    ensures Covers(es, begin, end) && StartReachable(es, begin, lay) && begin <= end
            ==> !SearchMisses(es, Sub64(begin, lay.Span()), lay, arithmetic)
  {
    hide Layout.Span, GapFree;
    if arithmetic && es != [] {
      GapFreeAt(es, lay, |es| - 1);
      MulMono(|es| - 1, |es|, lay.Span());
    }
  }

  /** What is delivered for a window: the pieces of all live elements when the start can be found and either the
      window is covered or a partial answer is wanted and not all of it is gone; otherwise nothing. */
  ghost function Delivered(es: seq<Element>, r: nat, n: nat, begin: nat, end: nat, sendPartial: bool, lay: Layout)
    : (ps: seq<Piece>)
    requires lay.Valid() && begin < TWO_TO_THE_64 && r < n && |es| <= n
  {
    if StartReachable(es, begin, lay) && (Covers(es, begin, end) || (sendPartial && es[0].ts <= end))
    then WindowPieces(es, r, n, begin, end, lay) else []
  }

  method DataRequest(queue: IterableQueue<Element>, begin: nat, end: nat, sendPartial: bool, runMarker: bool,
                     lay: Layout, arithmetic: bool)
    returns (code: ResultCode, bits: set<ErrorBit>, pieces: seq<Piece>)
    requires queue.Valid() && lay.Valid() && begin < TWO_TO_THE_64
    requires Increasing(queue.Live()) && AllWellFormed(queue.Live(), lay)
    requires arithmetic ==> GapFree(queue.Live(), lay)
    // the request waits exactly when the run goes on and either its start cannot be found although the
    // window is covered, or nothing is missing but data at its end and a partial answer is not wanted
    ensures code == NotYet <==>
              var es := queue.Live();
              && runMarker && es != []
              && if Covers(es, begin, end) then SearchMisses(es, Sub64(begin, lay.Span()), lay, arithmetic)
                 else !sendPartial && es[0].ts <= begin
    ensures code != Unknown
    // what is delivered
    ensures pieces == Delivered(queue.Live(), queue.readIndex, queue.records.Length, begin, end, sendPartial, lay)
    ensures Covers(queue.Live(), begin, end) && StartReachable(queue.Live(), begin, lay) && begin <= end
            ==> code == Found && bits == {}
    // the answer in each case: covered, and the start found
    ensures var es := queue.Live();
            Covers(es, begin, end) && !SearchMisses(es, Sub64(begin, lay.Span()), lay, arithmetic)
            ==> code == Found && bits == {}
    // covered, and the start not found
    ensures var es := queue.Live();
            Covers(es, begin, end) && SearchMisses(es, Sub64(begin, lay.Span()), lay, arithmetic)
            ==> if runMarker then code == NotYet && bits == {} else code == NotFound && bits == {DataNotFound}
    // nothing buffered, or data at the start missing, or for a partial answer all of it
    ensures var es := queue.Live();
            es == [] || (!Covers(es, begin, end) && if sendPartial then end < es[0].ts else begin < es[0].ts)
            ==> code == NotFound && bits == {DataNotFound}
    // only data at the start missing, and a partial answer wanted
    ensures var es := queue.Live();
            sendPartial && es != [] && begin < es[0].ts <= end <= es[|es| - 1].ts
            ==> bits == {} && code == if SearchMisses(es, Sub64(begin, lay.Span()), lay, arithmetic) then NotFound
                                      else Found
    // data at the end missing
    ensures var es := queue.Live();
            sendPartial && es != [] && es[0].ts <= end && es[|es| - 1].ts < end
            ==> code == Found && bits == {Incomplete}
    ensures var es := queue.Live();
            !sendPartial && es != [] && es[0].ts <= begin && es[|es| - 1].ts < end
            ==> if runMarker then code == NotYet && bits == {} else code == NotFound && bits == {DataNotFound}
  {
    hide Idx, Distance, IterableQueue.Live, Increasing, AllWellFormed, GapFree, Layout.Valid, Layout.Span;
    hide WindowPieces, Sub64, SearchMisses, IterableQueue.Occupancy, IterableQueue.Front, IterableQueue.Back;
    hide IterableQueue.Valid;
    CoveredWindowIsInRange(queue.Live(), begin, end, lay, arithmetic);
    code, bits, pieces := Unknown, {}, [];
    if queue.Occupancy() != 0 {
      var frontSlot, backSlot := queue.Front(), queue.Back();
      var lastTs := queue.records[frontSlot.value].ts;
      var newestTs := queue.records[backSlot.value].ts;
      if lastTs <= begin && end <= newestTs {
        code, pieces := GetFragmentPieces(queue, begin, end, lay, arithmetic);
      } else if sendPartial && lastTs <= end && end <= newestTs {
        code, pieces := GetFragmentPieces(queue, begin, end, lay, arithmetic);
        if code == NotYet {
          code := NotFound;
        }
      } else if !sendPartial && lastTs > begin {
        bits := bits + {DataNotFound};
        code := NotFound;
      } else if sendPartial && lastTs > end {
        bits := bits + {DataNotFound};
        code := NotFound;
      } else if newestTs < end {
        if sendPartial {
          bits := bits + {Incomplete};
          code, pieces := GetFragmentPieces(queue, begin, end, lay, arithmetic);
          if code == NotYet {
            code := Found;
          }
        } else {
          code := NotYet;
        }
      } else {
        // no request is uncategorised
        assert false;
      }
      if code == NotYet {
        if runMarker {
          return;
        }
        bits := bits + {DataNotFound};
        code := NotFound;
      }
    } else {
      bits := bits + {DataNotFound};
      code := NotFound;
    }
  }

  /** The extracted pieces hold exactly the buffered frames that overlap the window. */
  lemma FragmentIsFilter(queue: IterableQueue<Element>, begin: nat, end: nat, lay: Layout)
    requires queue.Valid() && lay.Valid() && begin < TWO_TO_THE_64
    requires AllWellFormed(queue.Live(), lay) && StartReachable(queue.Live(), begin, lay)
    ensures var ps := WindowPieces(queue.Live(), queue.readIndex, queue.records.Length, begin, end, lay);
            && AllFit(ps, queue.records[..])
            && Deref(ps, queue.records[..]) == FramesInWindow(AllFrames(queue.Live()), begin, end, lay.tick)
  {
    WindowPiecesAreFilter(queue.records[..], queue.readIndex, queue.Live(), begin, end, lay);
  }

  /** Of a covered window, or one for which a partial answer is wanted, nothing that is buffered is lost if and only
      if the oldest element ends before the window begins, or starts at its end or later, or there is none. */
  lemma NothingLostIff(slots: seq<Element>, r: nat, es: seq<Element>, begin: nat, end: nat, sendPartial: bool,
                       lay: Layout)
    requires Holds(slots, r, es) && lay.Valid() && AllWellFormed(es, lay) && Increasing(es)
    requires begin < end && begin < TWO_TO_THE_64 && (sendPartial || Covers(es, begin, end))
    ensures var ps := Delivered(es, r, |slots|, begin, end, sendPartial, lay);
            var wanted := FramesInWindow(AllFrames(es), begin, end, lay.tick);
            && AllFit(ps, slots)
            && (Deref(ps, slots) == wanted <==> es == [] || es[0].ts + lay.Span() <= begin || end <= es[0].ts)
  {
    hide WindowPieces, Deref, Layout.Span, WellFormed, FramesInWindow;
    if StartReachable(es, begin, lay) {
      WindowPiecesAreFilter(slots, r, es, begin, end, lay);
    } else {
      DerefNothing(slots);
      if es == [] || end <= es[0].ts {
        NothingBefore(es, begin, end, lay);
      } else {
        var j := FrameAtStart(es[0], begin, end, lay);
        FrameInWindow(es, j, begin, end, lay.tick);
      }
    }
  }

  /** An element that starts before the end of a window and ends after its begin has a frame in it. */
  lemma FrameAtStart(e: Element, begin: nat, end: nat, lay: Layout) returns (j: nat)
    requires lay.Valid() && WellFormed(e, lay) && begin < end && e.ts < end && begin < e.ts + lay.Span()
    ensures j < |e.frames| && InWindow(e.frames[j], begin, end, lay.tick)
  {
    j := if begin < e.ts then 0 else Ticks(begin - e.ts, lay.tick);
    hide Ticks;
    SpanIsProduct(lay);
    if e.ts <= begin {
      CancelFactor(j, lay.numFrames, lay.tick);
    }
  }

  /** A window of which the first frame is buffered, for which the answer is empty although a partial one is wanted. */
  lemma BufferedFrameNotDelivered()
    ensures var lay := Layout(10, 1);
            var es := [Element(100, [Frame(100, [])]), Element(110, [Frame(110, [])])];
            && lay.Valid() && AllWellFormed(es, lay) && Increasing(es)
            && Delivered(es, 0, 3, 95, 105, true, lay) == []
            && FramesInWindow(AllFrames(es), 95, 105, lay.tick) == [Frame(100, [])]
  {
    var f, g := Frame(100, []), Frame(110, []);
    AllFramesAppend([], Element(100, [f]));
    AllFramesAppend([Element(100, [f])], Element(110, [g]));
    assert [Element(100, [f])] + [Element(110, [g])] == [Element(100, [f]), Element(110, [g])];
    assert [f, g][..1] == [f];
    assert FramesInWindow([f], 95, 105, 10) == [f];
  }
}
