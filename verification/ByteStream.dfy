/** Byte addresses in a buffer of fixed-size records, and the stream of bytes that the records make up. */
module ByteStream {
  import opened RingMath

  datatype Record = Record(ts: nat, bytes: seq<bv8>)

  /** The byte at which record `i` starts. */
  function Start(i: nat, size: nat): (x: nat) {
    i * size
  }

  /** The record that byte `x` belongs to. */
  function Holder(x: nat, size: nat): (i: nat)
    requires 0 < size
  {
    x / size
  }

  /** The place of byte `x` in its record. */
  function Within(x: nat, size: nat): (r: nat)
    requires 0 < size
    ensures r < size
  {
    x % size
  }

  lemma StartOrder(i: nat, j: nat, size: nat)
    requires i <= j
    ensures Start(i, size) <= Start(j, size)
    ensures i < j ==> Start(i, size) + size <= Start(j, size)
    ensures Start(i + 1, size) == Start(i, size) + size
  {
    if i < j {
      MulGap(size, j, i);
    }
  }

  lemma HolderIs(i: nat, r: nat, size: nat)
    requires r < size
    ensures Holder(Start(i, size) + r, size) == i && Within(Start(i, size) + r, size) == r
  {
    RemainderUnique(Start(i, size) + r, size, i, r);
  }

  lemma HolderBounds(x: nat, size: nat)
    requires 0 < size
    ensures x == Start(Holder(x, size), size) + Within(x, size)
    ensures Start(Holder(x, size), size) <= x < Start(Holder(x, size) + 1, size)
  {
    StartOrder(Holder(x, size), Holder(x, size), size);
  }

  lemma HolderOrder(x: nat, y: nat, size: nat)
    requires 0 < size && x <= y
    ensures Holder(x, size) <= Holder(y, size)
  {
    HolderBounds(x, size);
    HolderBounds(y, size);
    if Holder(y, size) < Holder(x, size) {
      StartOrder(Holder(y, size) + 1, Holder(x, size), size);
    }
  }

  lemma HolderBefore(x: nat, i: nat, size: nat)
    requires 0 < size
    ensures x < Start(i, size) <==> Holder(x, size) < i
    ensures x <= Start(i, size) ==> Holder(x, size) <= i
  {
    HolderBounds(x, size);
    if Holder(x, size) < i {
      StartOrder(Holder(x, size) + 1, i, size);
    } else {
      StartOrder(i, Holder(x, size), size);
      if i < Holder(x, size) {
        StartOrder(i, Holder(x, size), size);
      }
    }
  }

  /** Byte `x` of the stream lies, in a ring of `n` slots, in the slot of its record and at its place there. */
  lemma SlotOfByte(x: nat, n: nat, size: nat)
    requires 0 < n && 0 < size && 0 < Start(n, size)
    ensures Holder(Slot(x, Start(n, size)), size) == Slot(Holder(x, size), n)
    ensures Within(Slot(x, Start(n, size)), size) == Within(x, size)
    ensures Slot(x, Start(n, size)) == Start(Slot(Holder(x, size), n), size) + Within(x, size)
  {
    var q, r := Holder(x, size), Within(x, size);
    var j, m := q % n, q / n;
    HolderBounds(x, size);
    assert q == n * m + j;
    var p := Start(j, size) + r;
    StartOrder(j, n, size);
    assert x == Start(n, size) * m + p by { Distribute(n, m, j, size); }
    RemainderUnique(x, Start(n, size), m, p);
    SlotIsRemainder(x, Start(n, size));
    SlotIsRemainder(q, n);
    HolderIs(j, r, size);
  }

  lemma Distribute(n: nat, m: nat, j: nat, size: nat)
    ensures Start(n * m + j, size) == Start(n, size) * m + Start(j, size)
  {
  }

  lemma SlotOfStart(i: nat, n: nat, size: nat)
    requires 0 < n && 0 < size && 0 < Start(n, size)
    ensures Slot(Start(i, size), Start(n, size)) == Start(Slot(i, n), size)
  {
    SlotOfByte(Start(i, size), n, size);
    HolderIs(i, 0, size);
  }

  predicate Aligned(x: nat, alignment: nat)
    requires 0 < alignment
  {
    x % alignment == 0
  }

  lemma AlignedSum(x: nat, y: nat, alignment: nat)
    requires 0 < alignment && Aligned(x, alignment) && Aligned(y, alignment)
    ensures Aligned(x + y, alignment)
  {
    var i, j := x / alignment, y / alignment;
    assert x + y == alignment * (i + j);
    RemainderUnique(x + y, alignment, i + j, 0);
  }

  /** Records of one size, in order of time. Time zero is not used by the source of the data, nor is the largest
      64-bit value. */
  ghost predicate Uniform(es: seq<Record>, size: nat) {
    && (forall i :: 0 <= i < |es| ==> |es[i].bytes| == size && 0 < es[i].ts < 0xFFFF_FFFF_FFFF_FFFF)
    && (forall i, j :: 0 <= i < j < |es| ==> es[i].ts < es[j].ts)
  }

  /** All bytes of the records, in order. */
  function Flatten(es: seq<Record>): (r: seq<bv8>) {
    if es == [] then [] else Flatten(es[..|es| - 1]) + es[|es| - 1].bytes
  }

  lemma FlattenAppend(es: seq<Record>, e: Record)
    ensures Flatten(es + [e]) == Flatten(es) + e.bytes
  {
    assert (es + [e])[..|es|] == es;
  }

  lemma {:induction false} FlattenConcat(es: seq<Record>, fs: seq<Record>)
    ensures Flatten(es + fs) == Flatten(es) + Flatten(fs)
  {
    if fs == [] {
      assert es + fs == es;
    } else {
      var gs, f := fs[..|fs| - 1], fs[|fs| - 1];
      assert fs == gs + [f] && es + fs == (es + gs) + [f];
      FlattenAppend(es + gs, f);
      FlattenConcat(es, gs);
    }
  }

  lemma {:induction false} FlattenLength(es: seq<Record>, size: nat)
    requires Uniform(es, size)
    ensures |Flatten(es)| == Start(|es|, size)
  {
    if es != [] {
      FlattenLength(es[..|es| - 1], size);
      StartOrder(|es| - 1, |es| - 1, size);
    }
  }

  lemma {:induction false} FlattenAt(es: seq<Record>, x: nat, size: nat)
    requires Uniform(es, size) && 0 < size && Holder(x, size) < |es|
    ensures x < |Flatten(es)|
    ensures Flatten(es)[x] == es[Holder(x, size)].bytes[Within(x, size)]
  {
    FlattenLength(es, size);
    HolderBefore(x, |es|, size);
    var front := es[..|es| - 1];
    FlattenLength(front, size);
    HolderBefore(x, |front|, size);
    HolderBounds(x, size);
    if Holder(x, size) < |front| {
      FlattenAt(front, x, size);
    }
  }

  lemma SplitTwice<T>(s: seq<T>, i: nat, j: nat)
    requires i <= j <= |s|
    ensures s == s[..j] + s[j..] && s[..j] == s[..i] + s[i..j]
  {
  }

  /** The bytes between two record boundaries are those of the records between. */
  lemma FlattenSlice(es: seq<Record>, i: nat, j: nat, size: nat)
    requires Uniform(es, size) && i <= j <= |es|
    ensures Start(i, size) <= Start(j, size) <= |Flatten(es)|
    ensures Flatten(es)[Start(i, size)..Start(j, size)] == Flatten(es[i..j])
  {
    hide Flatten, Start;
    FlattenLength(es[..i], size);
    FlattenLength(es[..j], size);
    hide Uniform;
    FlattenLength(es, size);
    StartOrder(i, j, size);
    StartOrder(j, |es|, size);
    SplitTwice(es, i, j);
    FlattenConcat(es[..j], es[j..]);
    FlattenConcat(es[..i], es[i..j]);
  }
}
