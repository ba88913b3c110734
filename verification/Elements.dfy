/** The data kept in a latency buffer: elements (for example superchunks) that hold a fixed number of frames. */
module Elements {
  import opened RingMath

  /** Timestamps are 64-bit unsigned values. */
  const TWO_TO_THE_64: nat := 0x1_0000_0000_0000_0000

  datatype Frame = Frame(ts: nat, payload: seq<bv8>)

  datatype Element = Element(ts: nat, frames: seq<Frame>)

  /** The constants of an element type: `expected_tick_difference` and `get_num_frames()`. */
  datatype Layout = Layout(tick: nat, numFrames: nat) {
    predicate Valid() { 0 < tick && 0 < numFrames && numFrames * tick < TWO_TO_THE_64 }

    /** The ticks one element covers. */
    function Span(): (s: nat)
      requires Valid()
      ensures 0 < tick <= s < TWO_TO_THE_64
    {
      SpanBounds(tick, numFrames);
      numFrames * tick
    }
  }

  lemma SpanBounds(tick: nat, numFrames: nat)
    requires 0 < tick && 0 < numFrames
    ensures tick <= numFrames * tick
  {
    assert numFrames * tick == tick + (numFrames - 1) * tick;
  }

  /** Subtraction as 64-bit unsigned arithmetic does it: a negative difference wraps around. */
  function Sub64(a: nat, b: nat): (d: nat)
    requires a < TWO_TO_THE_64 && b <= TWO_TO_THE_64
    ensures d < TWO_TO_THE_64
    ensures b <= a ==> d == a - b
  {
    (a - b) % TWO_TO_THE_64
  }

  /** An element whose frames are one tick apart, the first at the element's own timestamp, with
      room for a further element before the timestamps run out. */
  ghost predicate WellFormed(e: Element, lay: Layout) {
    && lay.Valid()
    && |e.frames| == lay.numFrames
    && (forall i :: 0 <= i < |e.frames| ==> e.frames[i].ts == e.ts + i * lay.tick)
    && e.ts + 2 * lay.Span() <= TWO_TO_THE_64
  }

  ghost predicate AllWellFormed(es: seq<Element>, lay: Layout) {
    forall i :: 0 <= i < |es| ==> WellFormed(es[i], lay)
  }

  ghost predicate Increasing(es: seq<Element>) {
    forall i, j :: 0 <= i < j < |es| ==> es[i].ts < es[j].ts
  }

  /** Data of a fixed-rate source without a missing element. */
  ghost predicate GapFree(es: seq<Element>, lay: Layout)
    requires lay.Valid()
  {
    forall i :: 0 <= i < |es| ==> es[i].ts == es[0].ts + i * lay.Span()
  }

  function AllFrames(es: seq<Element>): (fs: seq<Frame>) {
    if es == [] then [] else AllFrames(es[..|es| - 1]) + es[|es| - 1].frames
  }

  /** A frame lasts one tick; the window is [begin, end). */
  predicate InWindow(f: Frame, begin: nat, end: nat, tick: nat) {
    f.ts + tick > begin && f.ts < end
  }

  /** The frames of `fs` that overlap the window, in order. */
  function FramesInWindow(fs: seq<Frame>, begin: nat, end: nat, tick: nat): (r: seq<Frame>) {
    if fs == [] then []
    else
      FramesInWindow(fs[..|fs| - 1], begin, end, tick)
      + (if InWindow(fs[|fs| - 1], begin, end, tick) then [fs[|fs| - 1]] else [])
  }

  lemma AllFramesAppend(es: seq<Element>, e: Element)
    ensures AllFrames(es + [e]) == AllFrames(es) + e.frames
  {
    assert (es + [e])[..|es|] == es;
  }

  lemma {:induction false} FramesInWindowConcat(a: seq<Frame>, b: seq<Frame>, begin: nat, end: nat, tick: nat)
    ensures FramesInWindow(a + b, begin, end, tick)
            == FramesInWindow(a, begin, end, tick) + FramesInWindow(b, begin, end, tick)
  {
    if b == [] {
      assert a + b == a;
    } else {
      var b' := b[..|b| - 1];
      assert (a + b)[..|a + b| - 1] == a + b';
      FramesInWindowConcat(a, b', begin, end, tick);
    }
  }

  lemma {:induction false} NoneInWindow(fs: seq<Frame>, begin: nat, end: nat, tick: nat)
    requires forall f :: f in fs ==> !InWindow(f, begin, end, tick)
    ensures FramesInWindow(fs, begin, end, tick) == []
  {
    if fs != [] {
      NoneInWindow(fs[..|fs| - 1], begin, end, tick);
    }
  }

  lemma {:induction false} AllInWindow(fs: seq<Frame>, begin: nat, end: nat, tick: nat)
    requires forall f :: f in fs ==> InWindow(f, begin, end, tick)
    ensures FramesInWindow(fs, begin, end, tick) == fs
  {
    hide InWindow;
    if fs != [] {
      AllInWindow(fs[..|fs| - 1], begin, end, tick);
      assert fs == fs[..|fs| - 1] + [fs[|fs| - 1]];
    }
  }

  /** Every frame of the element lies inside its span. */
  ghost predicate InSpan(e: Element, span: nat, tick: nat) {
    forall f :: f in e.frames ==> e.ts <= f.ts && f.ts + tick <= e.ts + span
  }

  lemma WellFormedInSpan(e: Element, lay: Layout)
    requires WellFormed(e, lay)
    ensures InSpan(e, lay.Span(), lay.tick)
    ensures |e.frames| == lay.numFrames && (lay.numFrames == 1 ==> lay.Span() == lay.tick)
  {
    forall i | 0 <= i < |e.frames|
      ensures e.ts <= e.frames[i].ts && e.frames[i].ts + lay.tick <= e.ts + lay.Span()
    {
      MulMono(i + 1, lay.numFrames, lay.tick);
      assert (i + 1) * lay.tick == i * lay.tick + lay.tick;
    }
  }

  /** A frame of the oldest element that overlaps the window is among those that overlap it. */
  lemma {:induction false} FrameInWindow(es: seq<Element>, j: nat, begin: nat, end: nat, tick: nat)
    requires es != [] && j < |es[0].frames| && InWindow(es[0].frames[j], begin, end, tick)
    ensures FramesInWindow(AllFrames(es), begin, end, tick) != []
  {
    var es', e := es[..|es| - 1], es[|es| - 1];
    FramesInWindowConcat(AllFrames(es'), e.frames, begin, end, tick);
    if |es| == 1 {
      FoundInWindow(e.frames, j, begin, end, tick);
    } else {
      FrameInWindow(es', j, begin, end, tick);
    }
  }

  lemma {:induction false} FoundInWindow(fs: seq<Frame>, j: nat, begin: nat, end: nat, tick: nat)
    requires j < |fs| && InWindow(fs[j], begin, end, tick)
    ensures FramesInWindow(fs, begin, end, tick) != []
  {
    if j < |fs| - 1 {
      FoundInWindow(fs[..|fs| - 1], j, begin, end, tick);
    }
  }

  lemma {:induction false} NothingBefore(es: seq<Element>, begin: nat, end: nat, lay: Layout)
    requires lay.Valid() && AllWellFormed(es, lay) && forall i :: 0 <= i < |es| ==> end <= es[i].ts
    ensures FramesInWindow(AllFrames(es), begin, end, lay.tick) == []
  {
    if es != [] {
      var es', e := es[..|es| - 1], es[|es| - 1];
      NothingBefore(es', begin, end, lay);
      FramesInWindowConcat(AllFrames(es'), e.frames, begin, end, lay.tick);
      WellFormedInSpan(e, lay);
      NoneInWindow(e.frames, begin, end, lay.tick);
    }
  }
}
