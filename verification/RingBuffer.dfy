/** The ring as all protocols see it: slots and two indices on one side, the sequence of everything ever
    written and the number of elements popped from it on the other. */
module RingBuffer {
  import opened RingMath

  /** The indices are those of the positions `popped` and `|written|`, at most `size - 1` elements lie
      between them, and the slots of these positions hold what was written. */
  ghost predicate Ring<T>(slots: seq<T>, read: nat, write: nat, written: seq<T>, popped: nat) {
    var n := |slots|;
    && 2 <= n
    && popped <= |written| <= popped + n - 1
    && read == Slot(popped, n) && write == Slot(|written|, n)
    && forall k :: popped <= k < |written| ==> slots[Slot(k, n)] == written[k]
  }

  /** `occupancy` computes the number of elements. */
  lemma RingCount<T>(slots: seq<T>, read: nat, write: nat, written: seq<T>, popped: nat)
    requires Ring(slots, read, write, written, popped)
    ensures read < |slots| && write < |slots|
    ensures Distance(read, write, |slots|) == |written| - popped
    ensures read == write <==> popped == |written|
    ensures Next(write, |slots|) == read <==> |written| - popped == |slots| - 1
  {
    SlotAdd(popped, |written| - popped, |slots|);
  }

  /** The slot of a live position holds its element and is `good`. */
  lemma RingAt<T>(slots: seq<T>, read: nat, write: nat, written: seq<T>, popped: nat, k: nat)
    requires Ring(slots, read, write, written, popped) && popped <= k < |written|
    ensures slots[Slot(k, |slots|)] == written[k]
    ensures Good(Slot(k, |slots|), read, write) && Slot(k, |slots|) == Idx(read, k - popped, |slots|)
  {
    SlotAdd(popped, k - popped, |slots|);
    SlotAdd(popped, |written| - popped, |slots|);
  }

  /** The slot at the write index is free: whatever is constructed there disturbs no element. */
  lemma RingConstruct<T>(slots: seq<T>, read: nat, write: nat, written: seq<T>, popped: nat, e: T)
    requires Ring(slots, read, write, written, popped) && write < |slots|
    ensures Ring(slots[write := e], read, write, written, popped)
    ensures !Good(write, read, write)
  {
    forall k | popped <= k < |written|
      ensures Slot(k, |slots|) != write
    {
      SlotsDiffer(k, |written|, |slots|);
    }
  }

  lemma RingPublish<T>(slots: seq<T>, read: nat, write: nat, written: seq<T>, popped: nat, e: T)
    requires Ring(slots, read, write, written, popped) && write < |slots|
    requires |written| - popped < |slots| - 1 && slots[write] == e
    ensures Ring(slots, read, Next(write, |slots|), written + [e], popped)
  {
  }

  lemma RingPop<T>(slots: seq<T>, read: nat, write: nat, written: seq<T>, popped: nat)
    requires Ring(slots, read, write, written, popped) && popped < |written| && read < |slots|
    ensures Ring(slots, Next(read, |slots|), write, written, popped + 1)
  {
  }

  /** What is good stays good when the write index moves on. */
  lemma GoodAfterPublish<T>(slots: seq<T>, read: nat, write: nat, written: seq<T>, popped: nat, i: nat)
    requires Ring(slots, read, write, written, popped) && write < |slots| && i < |slots|
    requires |written| - popped < |slots| - 1 && Good(i, read, write)
    ensures Good(i, read, Next(write, |slots|))
  {
    RingCount(slots, read, write, written, popped);
  }

  /** An iterator at a position that was reached is good exactly when an element has been written there. */
  lemma GoodIffWritten<T>(slots: seq<T>, read: nat, write: nat, written: seq<T>, popped: nat, at: nat)
    requires Ring(slots, read, write, written, popped) && popped <= at <= |written|
    ensures Good(Slot(at, |slots|), read, write) <==> at < |written|
    ensures at < |written| ==> slots[Slot(at, |slots|)] == written[at]
  {
    if at < |written| {
      RingAt(slots, read, write, written, popped, at);
    }
  }

  /** The slot of the element popped last still holds it. */
  ghost predicate Retained<T>(slots: seq<T>, written: seq<T>, popped: nat) {
    0 < popped <= |written| && 0 < |slots| ==> slots[Slot(popped - 1, |slots|)] == written[popped - 1]
  }

  /** A write that is allowed does not touch it: the slot before the read index is used only when full. */
  lemma RetainedAfterConstruct<T>(slots: seq<T>, read: nat, write: nat, written: seq<T>, popped: nat, e: T)
    requires Ring(slots, read, write, written, popped) && write < |slots|
    requires Retained(slots, written, popped) && |written| - popped < |slots| - 1
    ensures Retained(slots[write := e], written, popped)
  {
    if 0 < popped {
      SlotsDiffer(popped - 1, |written|, |slots|);
    }
  }
}
