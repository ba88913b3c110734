/** The two searches of the latency buffer for the first element not older than a timestamp:
    a binary search over the wrapped indices, and constant-time arithmetic for fixed-rate data. */
module LowerBound {
  import opened RingMath
  import opened Elements
  import opened IterableQueue

  /** The first position from `i` on whose element is not older than `key`, or the length. */
  function LowerBoundFrom(es: seq<Element>, key: int, i: nat): (p: nat)
    requires i <= |es|
    ensures i <= p <= |es|
    ensures forall j :: i <= j < p ==> es[j].ts < key
    ensures p < |es| ==> key <= es[p].ts
    decreases |es| - i
  {
    if i == |es| || key <= es[i].ts then i else LowerBoundFrom(es, key, i + 1)
  }

  /** The reference for the searches: how many elements at the front of `es` are older than `key`. */
  function LowerBoundPos(es: seq<Element>, key: int): (p: nat)
    ensures p <= |es|
    ensures forall i :: 0 <= i < p ==> es[i].ts < key
    ensures p < |es| ==> key <= es[p].ts
  {
    LowerBoundFrom(es, key, 0)
  }

  /** On increasing timestamps the position is determined by its two neighbours. */
  lemma LowerBoundPosUnique(es: seq<Element>, key: int, p: nat)
    requires Increasing(es) && p <= |es|
    requires 0 < p ==> es[p - 1].ts < key
    requires p < |es| ==> key <= es[p].ts
    ensures p == LowerBoundPos(es, key)
  {
    assert forall j :: 0 <= j < p ==> es[j].ts <= es[p - 1].ts;
  }

  /** How often `d` can be halved before it is 0. */
  function Halvings(d: nat): (h: nat)
  {
    if d == 0 then 0 else 1 + Halvings(d / 2)
  }

  function Pow2(e: nat): (x: nat)
    ensures 0 < x
  {
    if e == 0 then 1 else 2 * Pow2(e - 1)
  }

  lemma {:induction false} HalvingsMonotone(a: nat, b: nat)
    requires a <= b
    ensures Halvings(a) <= Halvings(b)
    decreases b
  {
    if 0 < a {
      HalvingsMonotone(a / 2, b / 2);
    }
  }

  /** `Halvings` is one more than the base-2 logarithm. */
  lemma {:induction false} HalvingsIsLogarithmic(d: nat)
    requires 0 < d
    ensures Pow2(Halvings(d) - 1) <= d < Pow2(Halvings(d))
  {
    if 1 < d {
      HalvingsIsLogarithmic(d / 2);
    }
  }

  /** Where a search that starts at the oldest element ends: END when there is no element or the
      key is older than all of them, else the index of the first element not older than the key,
      which is the write index when every element is older. */
  ghost function SearchResult(queue: IterableQueue<Element>, key: int): (index: nat)
    reads queue, queue.records
    requires queue.Valid()
  {
    if queue.Live() == [] || key < queue.Live()[0].ts then END
    else Idx(queue.readIndex, LowerBoundPos(queue.Live(), key), queue.records.Length)
  }

  /** The index found names the first element not older than the key, whatever gaps the data has: every element before
      it is older, and it is not; it is the write index exactly when every element is older. */
  lemma ResultIsFirstNotOlder(queue: IterableQueue<Element>, key: int)
    requires queue.Valid() && queue.Live() != [] && queue.Live()[0].ts <= key
    ensures var es, index, n := queue.Live(), SearchResult(queue, key), queue.records.Length;
            && index < n
            && (forall i :: 0 <= i < |es| && i < Distance(queue.readIndex, index, n) ==> es[i].ts < key)
            && (index != queue.writeIndex ==> key <= queue.records[index].ts)
            && (index == queue.writeIndex <==> forall i :: 0 <= i < |es| ==> es[i].ts < key)
  {
    hide LowerBoundPos;
    var es, p, n := queue.Live(), LowerBoundPos(queue.Live(), key), queue.records.Length;
    assert SearchResult(queue, key) == Idx(queue.readIndex, p, n);
    if p < |es| {
      assert es[p] == queue.records[Idx(queue.readIndex, p, n)];
    }
  }

  method BinarySearchLowerBound(queue: IterableQueue<Element>, key: nat) returns (index: nat, ghost probes: nat)
    requires queue.Valid() && Increasing(queue.Live())
    ensures index == SearchResult(queue, key)
    ensures queue.Live() == [] ==> probes == 0
    ensures queue.Live() != [] ==> probes <= 1 + Halvings(|queue.Live()| - 1)
  {
    hide IterableQueue.Valid, IterableQueue.Live, Idx, Distance, Halvings, Increasing, Narrowed, LowerBoundPos;
    probes := 0;
    WholeRange(queue, key);
    var startIndex, endIndex := queue.readIndex, queue.writeIndex;
    if startIndex == endIndex {
      return END, probes;
    }
    var n := queue.records.Length;
    endIndex := if endIndex == 0 then n - 1 else endIndex - 1;
    ghost var es := queue.Live();
    if key < queue.records[startIndex].ts {
      return END, probes;
    }
    ghost var lo, hi, budget := 0, |es| - 1, Halvings(|es| - 1);
    while true
      invariant Narrowed(es, key, lo, hi) && 0 <= lo <= hi < |es|
      invariant startIndex == Idx(queue.readIndex, lo, n) && endIndex == Idx(queue.readIndex, hi, n)
      invariant probes + budget <= Halvings(|es| - 1) && budget == Halvings(hi - lo)
      decreases hi - lo
    {
      probes := probes + 1;
      ghost var mid, lower, upper := Midpoint(queue.readIndex, lo, hi, n);
      var diff := if startIndex <= endIndex then endIndex - startIndex else n + endIndex - startIndex;
      var middleIndex := startIndex + (diff + 1) / 2;
      if middleIndex >= n {
        middleIndex := middleIndex - n;
      }
      var between := queue.records[middleIndex].ts;
      assert between == es[mid].ts;
      Probe(es, key, lo, hi, mid);
      Neighbours(queue.readIndex, mid, n);
      if key == between {
        return middleIndex, probes;
      }
      if diff == 0 {
        if key < between {
          return middleIndex, probes;
        }
        middleIndex := middleIndex + 1;
        if middleIndex >= n {
          middleIndex := middleIndex - n;
        }
        return middleIndex, probes;
      }
      if key < between {
        endIndex := if middleIndex != 0 then middleIndex - 1 else n - 1;
        hi, budget := mid - 1, lower;
      } else {
        startIndex := middleIndex;
        lo, budget := mid, upper;
      }
    }
  }

  /** The search starts with the whole queue as its range. */
  lemma WholeRange(queue: IterableQueue<Element>, key: nat)
    requires queue.Valid()
    ensures queue.Live() == [] <==> queue.readIndex == queue.writeIndex
    ensures queue.readIndex < queue.records.Length <= MAX_SIZE && queue.writeIndex < queue.records.Length
    ensures queue.Live() != [] ==>
            var n, count := queue.records.Length, |queue.Live()|;
            && count < n && queue.readIndex == Idx(queue.readIndex, 0, n)
            && (if queue.writeIndex == 0 then n - 1 else queue.writeIndex - 1) == Idx(queue.readIndex, count - 1, n)
            && queue.records[queue.readIndex] == queue.Live()[0]
            && Narrowed(queue.Live(), key, 0, count - 1)
  {
  }

  lemma Neighbours(r: nat, p: nat, n: nat)
    requires r < n && p < n
    ensures var i := Idx(r, p, n);
            && (0 < p ==> Idx(r, p - 1, n) == if i != 0 then i - 1 else n - 1)
            && (p + 1 < n ==> Idx(r, p + 1, n) == if i + 1 >= n then i + 1 - n else i + 1)
  {
  }

  /** The wrapped midpoint is the midpoint of the positions, no 32-bit intermediate overflows, and
      either half takes at least one halving less. */
  lemma Midpoint(r: nat, lo: int, hi: int, n: nat) returns (mid: int, lower: nat, upper: nat)
    requires r < n <= MAX_SIZE && 0 <= lo <= hi < n
    ensures lo <= mid <= hi && (lo < hi ==> lo < mid)
    ensures var start, end := Idx(r, lo, n), Idx(r, hi, n);
            var diff := if start <= end then end - start else n + end - start;
            var middle := start + (diff + 1) / 2;
            && diff == hi - lo
            && n + end <= 0xFFFF_FFFF && middle <= 0xFFFF_FFFF
            && (if middle >= n then middle - n else middle) == Idx(r, mid, n)
    ensures lo < hi ==>
              && lower == Halvings(mid - 1 - lo) < Halvings(hi - lo)
              && upper == Halvings(hi - mid) < Halvings(hi - lo)
  {
    mid := lo + (hi - lo + 1) / 2;
    lower, upper := 0, Halvings(hi - mid);
    if lo < hi {
      lower := Halvings(mid - 1 - lo);
      HalvingsMonotone(mid - 1 - lo, (hi - lo) / 2);
      HalvingsMonotone(hi - mid, (hi - lo) / 2);
    }
  }

  /** Everything before position `lo` is older than the key and everything after `hi` is newer. */
  ghost predicate Narrowed(es: seq<Element>, key: nat, lo: int, hi: int) {
    && 0 <= lo <= hi < |es|
    && (0 < lo ==> es[lo - 1].ts < key)
    && (hi + 1 < |es| ==> key < es[hi + 1].ts)
  }

  /** What looking at position `mid` settles. */
  lemma Probe(es: seq<Element>, key: nat, lo: int, hi: int, mid: int)
    requires Increasing(es) && Narrowed(es, key, lo, hi) && lo <= mid <= hi
    ensures es[mid].ts == key ==> LowerBoundPos(es, key) == mid
    ensures lo == hi && key < es[mid].ts ==> LowerBoundPos(es, key) == mid
    ensures lo == hi && es[mid].ts < key ==> LowerBoundPos(es, key) == mid + 1
    ensures lo < mid && key < es[mid].ts ==> Narrowed(es, key, lo, mid - 1)
    ensures lo < mid && es[mid].ts < key ==> Narrowed(es, key, mid, hi)
  {
    if 0 < mid {
      assert es[mid - 1].ts < es[mid].ts;
    }
    if es[mid].ts == key || (lo == hi && key < es[mid].ts) {
      LowerBoundPosUnique(es, key, mid);
    } else if lo == hi {
      LowerBoundPosUnique(es, key, mid + 1);
    }
  }

  /** Whole ticks in a time difference. */
  function Ticks(d: nat, tick: nat): (t: nat)
    requires 0 < tick
    ensures t * tick <= d < t * tick + tick
  {
    d / tick
  }

  /** Whole elements that cover `t` ticks, at `num` ticks an element. */
  function RoundUp(t: nat, num: nat): (p: nat)
    requires 0 < num
    ensures t <= p * num < t + num
  {
    RoundUpBounds(t, num);
    if t % num != 0 then t / num + 1 else t / num
  }

  lemma RoundUpBounds(t: nat, num: nat)
    requires 0 < num
    ensures t % num != 0 ==> t <= (t / num + 1) * num < t + num
    ensures t % num == 0 ==> t == (t / num) * num
  {
    var q := t / num;
    assert q * num + t % num == t;
    assert (q + 1) * num == q * num + num;
  }

  /** The arithmetic search. `getNumFrames` is a constant of the element type, so the record at
      the read index supplies only a timestamp, also when the queue is empty. */
  function FixedRateLowerBound(queue: IterableQueue<Element>, timestamp: nat, lay: Layout): (index: nat)
    reads queue, queue.records
    requires queue.Valid() && lay.Valid()
    ensures queue.Live() == [] ==> index == END || index == queue.writeIndex
  {
    var n := queue.records.Length;
    var startIndex := queue.readIndex;
    var occupancyGuess := queue.Occupancy();
    var lastTs := queue.records[startIndex].ts;
    var newestTs := lastTs + occupancyGuess * lay.Span();
    if lastTs > timestamp || timestamp > newestTs then END
    else
      var timeTickDiff := Ticks(timestamp - lastTs, lay.tick);
      RoundedOffset(timestamp - lastTs, timeTickDiff, lay, occupancyGuess);
      var target := startIndex + RoundUp(timeTickDiff, lay.numFrames);
      if target >= n then target - n else target
  }

  /** Flooring to ticks and then rounding up to elements gives the first multiple of the span
      that exceeds `d` less one tick. */
  lemma RoundedOffset(d: nat, t: nat, lay: Layout, count: nat)
    requires lay.Valid() && d <= count * lay.Span() && t * lay.tick <= d < t * lay.tick + lay.tick
    ensures RoundUp(t, lay.numFrames) <= count
    ensures d < RoundUp(t, lay.numFrames) * lay.Span() + lay.tick
    ensures RoundUp(t, lay.numFrames) * lay.Span() + lay.tick <= d + lay.Span()
  {
    hide *;
    SpanIsProduct(lay);
    var p := RoundUp(t, lay.numFrames);
    TicksBound(d, t, lay.tick, lay.numFrames, lay.Span(), count);
    CancelFactor(p, count + 1, lay.numFrames);
    SpanBracket(d, t, lay.tick, lay.numFrames, lay.Span(), p);
  }

  lemma CancelFactor(a: int, b: int, c: nat)
    requires a * c < (b - 1) * c + c
    ensures a < b
  {
    if b <= a {
      MulMono(b, a, c);
    }
  }

  lemma SpanBracket(d: nat, t: nat, tick: nat, num: nat, span: nat, p: nat)
    requires span == num * tick && t <= p * num < t + num && t * tick <= d < t * tick + tick
    ensures d < p * span + tick && p * span + tick <= d + span
  {
    var q := p * num;
    MulMono(t, q, tick);
    MulMono(q + 1, t + num, tick);
    assert q * tick == p * span;
    assert (q + 1) * tick == q * tick + tick;
    assert (t + num) * tick == t * tick + num * tick;
  }

  lemma TicksBound(d: nat, t: nat, tick: nat, num: nat, span: nat, count: nat)
    requires span == num * tick && d <= count * span && t * tick <= d
    ensures 0 < tick ==> t <= count * num
  {
    if 0 < tick {
      assert (count * num) * tick == count * span;
      CancelFactor(t, count * num + 1, tick);
    }
  }

  lemma SpanIsProduct(lay: Layout)
    requires lay.Valid()
    ensures 0 < lay.tick && 0 < lay.numFrames && lay.Span() == lay.numFrames * lay.tick
  {
  }

  /** On gapless data the arithmetic search finds the first element newer than the key less one tick. */
  lemma FixedRateIsExact(queue: IterableQueue<Element>, key: nat, lay: Layout)
    requires queue.Valid() && lay.Valid() && queue.Live() != [] && GapFree(queue.Live(), lay)
    ensures var es := queue.Live();
            FixedRateLowerBound(queue, key, lay) ==
            if key < es[0].ts || key > es[0].ts + |es| * lay.Span() then END
            else Idx(queue.readIndex, LowerBoundPos(es, key - lay.tick + 1), queue.records.Length)
  {
    hide Layout.Span, Ticks, RoundUp, GapFree, LowerBoundPos;
    var es := queue.Live();
    if es[0].ts <= key <= es[0].ts + |es| * lay.Span() {
      var t := Ticks(key - es[0].ts, lay.tick);
      RoundedOffset(key - es[0].ts, t, lay, |es|);
      FixedRatePos(es, key, lay, RoundUp(t, lay.numFrames));
    }
  }

  lemma FixedRatePos(es: seq<Element>, key: nat, lay: Layout, p: nat)
    requires lay.Valid() && GapFree(es, lay) && es != [] && p <= |es|
    requires key < es[0].ts + p * lay.Span() + lay.tick
    requires es[0].ts + p * lay.Span() + lay.tick <= key + lay.Span()
    ensures p == LowerBoundPos(es, key - lay.tick + 1)
  {
    hide *;
    GapFreeIncreases(es, lay);
    if 0 < p {
      GapFreeAt(es, lay, p - 1);
      assert (p - 1) * lay.Span() + lay.Span() == p * lay.Span();
    }
    if p < |es| {
      GapFreeAt(es, lay, p);
    }
    LowerBoundPosUnique(es, key - lay.tick + 1, p);
  }

  lemma GapFreeAt(es: seq<Element>, lay: Layout, i: nat)
    requires lay.Valid() && GapFree(es, lay) && i < |es|
    ensures es[i].ts == es[0].ts + i * lay.Span()
  {
  }

  lemma GapFreeIncreases(es: seq<Element>, lay: Layout)
    requires lay.Valid() && GapFree(es, lay)
    ensures Increasing(es)
  {
    hide Layout.Span;
    forall i, j | 0 <= i < j < |es|
      ensures es[i].ts < es[j].ts
    {
      MulMono(i + 1, j, lay.Span());
      assert (i + 1) * lay.Span() == i * lay.Span() + lay.Span();
    }
  }

  /** The two searches agree on every key in range that is a whole number of ticks from the oldest element. */
  lemma FixedRateAgreesOnTicks(queue: IterableQueue<Element>, ticks: nat, lay: Layout)
    requires queue.Valid() && lay.Valid() && queue.Live() != [] && GapFree(queue.Live(), lay)
    requires ticks * lay.tick <= |queue.Live()| * lay.Span()
    ensures var key := queue.Live()[0].ts + ticks * lay.tick;
            FixedRateLowerBound(queue, key, lay) == SearchResult(queue, key)
  {
    hide Layout.Span, FixedRateLowerBound, GapFree, LowerBoundPos;
    var es := queue.Live();
    var key := es[0].ts + ticks * lay.tick;
    FixedRateIsExact(queue, key, lay);
    GapFreeIncreases(es, lay);
    var p := LowerBoundPos(es, key - lay.tick + 1);
    if p < |es| {
      GapFreeAt(es, lay, p);
      WholeTicks(ticks, p, lay);
    }
    LowerBoundPosUnique(es, key, p);
  }

  /** A whole number of ticks that is less than one tick beyond a multiple of the span is not beyond it. */
  lemma WholeTicks(ticks: nat, p: nat, lay: Layout)
    requires lay.Valid() && ticks * lay.tick < p * lay.Span() + lay.tick
    ensures ticks * lay.tick <= p * lay.Span()
  {
    SpanIsProduct(lay);
    var q := p * lay.numFrames;
    assert q * lay.tick == p * lay.Span();
    CancelFactor(ticks, q + 1, lay.tick);
    MulMono(ticks, q, lay.tick);
  }
}
