/** Making room: popping the oldest elements of the latency buffer. */
module Cleanup {
  import opened RingMath
  import opened Elements
  import opened IterableQueue

  /** The share `pct` of `count` elements, rounded down. */
  function Share(pct: real, count: nat): (k: nat)
    requires 0.0 <= pct <= 1.0
    ensures k as real <= pct * count as real < k as real + 1.0
    ensures k <= count
    ensures pct < 1.0 && 0 < count ==> k < count
  {
    ProductBound(pct, count as real);
    FloorOf(pct * count as real, count)
  }

  function FloorOf(x: real, count: nat): (k: nat)
    requires 0.0 <= x <= count as real
    ensures k as real <= x < k as real + 1.0
    ensures k <= count
    ensures x < count as real ==> k < count
  {
    x.Floor
  }

  lemma ProductBound(pct: real, x: real)
    requires 0.0 <= pct <= 1.0 && 0.0 <= x
    ensures 0.0 <= pct * x <= x
    ensures pct < 1.0 && 0.0 < x ==> pct * x < x
  {
    assert x - pct * x == (1.0 - pct) * x;
  }

  /** The first position from `i` on that is at `limit`, at the end, or not older than the watermark. */
  function OlderPrefix(es: seq<Element>, i: nat, limit: nat, watermark: nat): (k: nat)
    requires i <= |es| && i <= limit
    ensures i <= k <= limit && k <= |es|
    ensures forall j :: i <= j < k ==> es[j].ts < watermark
    ensures k < limit && k < |es| ==> watermark <= es[k].ts
    decreases |es| - i
  {
    if i == limit || i == |es| || watermark <= es[i].ts then i
    else OlderPrefix(es, i + 1, limit, watermark)
  }

  /** Pops the share `pct` of the elements, as far as they are older than the watermark, when more than
      `popLimit` are buffered. `oldest` is the timestamp up to which errors are then forgotten; it is None
      when there is nothing to clean up, and when the code looks at the front of a queue it has just emptied. */
  method Cleanup(queue: IterableQueue<Element>, popLimit: nat, pct: real, watermark: nat)
    returns (popped: nat, oldest: Option<nat>)
    requires queue.Valid() && 0.0 <= pct <= 1.0
    modifies queue`readIndex
    ensures queue.Valid()
    ensures |old(queue.Live())| <= popLimit ==> popped == 0 && oldest == None
    ensures |old(queue.Live())| > popLimit
            ==> popped == OlderPrefix(old(queue.Live()), 0, Share(pct, |old(queue.Live())|), watermark)
    ensures queue.Live() == old(queue.Live())[popped..]
    ensures |old(queue.Live())| > popLimit
            ==> oldest == if queue.Live() == [] then None else Some(queue.Live()[0].ts)
  {
    hide Idx, Distance, IterableQueue.Live, Share;
    ghost var es := queue.Live();
    popped, oldest := 0, None;
    if queue.Occupancy() > popLimit {
      var toPop := Share(pct, queue.Occupancy());
      for i := 0 to toPop
        invariant queue.Valid() && popped == i && queue.Live() == es[i..]
        invariant OlderPrefix(es, i, toPop, watermark) == OlderPrefix(es, 0, toPop, watermark)
      {
        var front := queue.Front();
        if queue.records[front.value].ts < watermark {
          queue.Pop(1);
          popped := popped + 1;
        } else {
          break;
        }
      }
      var front := queue.Front();
      if front.Some? {
        oldest := Some(queue.records[front.value].ts);
      }
    }
  }

  /** With a share below one the newest element survives; with a share of one the queue is emptied, and its
      front then missing, exactly when every element is older than the watermark. */
  lemma NewestSurvives(es: seq<Element>, pct: real, watermark: nat)
    requires 0.0 <= pct <= 1.0 && es != [] && Increasing(es)
    ensures var popped := OlderPrefix(es, 0, Share(pct, |es|), watermark);
            && (pct < 1.0 ==> popped < |es|)
            && (pct == 1.0 ==> (popped == |es| <==> es[|es| - 1].ts < watermark))
  {
    if pct == 1.0 {
      assert Share(pct, |es|) == |es|;
      assert forall j :: 0 <= j < |es| ==> es[j].ts <= es[|es| - 1].ts;
    }
  }
}
