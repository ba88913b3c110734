/** Index arithmetic of a circular buffer of `n` slots, of which at most `n - 1` are in use.
    Physical indices live in `[0, n)`; absolute positions count elements since the start and never wrap. */
module RingMath {

  /** The index held by an iterator that has run off the queue: the largest 32-bit unsigned value. */
  const END: nat := 0xFFFF_FFFF

  /** The index after `i`, going back to 0 at the end of the buffer. */
  function Next(i: nat, n: nat): (j: nat)
    requires i < n
    ensures j < n
  {
    if i + 1 == n then 0 else i + 1
  }

  /** The index `p` places after `r`. */
  function Idx(r: nat, p: nat, n: nat): (i: nat)
    requires r < n && p < n
    ensures i < n
  {
    if r + p < n then r + p else r + p - n
  }

  /** The distance from `r` forward to `w`: the signed subtraction, corrected when it is negative. */
  function Distance(r: nat, w: nat, n: nat): (d: nat)
    requires r < n && w < n
    ensures d < n && Idx(r, d, n) == w
  {
    var ret: int := w - r;
    if ret < 0 then ret + n else ret
  }

  /** `Iterator::good` for an index other than END. */
  predicate Good(i: nat, r: nat, w: nat) {
    || (r <= i < w)
    || (r <= i && w < r)
    || (w < r && i < r && i < w)
  }

  /** The three-way test of `good` holds exactly of the indices between read and write. */
  lemma GoodIffLive(i: nat, r: nat, w: nat, n: nat)
    requires i < n && r < n && w < n
    ensures Good(i, r, w) <==> Distance(r, i, n) < Distance(r, w, n)
  {
  }

  /** The slot that absolute position `k` occupies. */
  function Slot(k: nat, n: nat): (i: nat)
    requires 0 < n
    ensures i < n
  {
    if k == 0 then 0 else Next(Slot(k - 1, n), n)
  }

  /** The slot of the next position. */
  lemma NextSlot(k: nat, n: nat)
    requires 0 < n
    ensures Slot(k + 1, n) == Next(Slot(k, n), n)
  {
  }

  lemma {:induction false} SlotAdd(k: nat, d: nat, n: nat)
    requires d < n
    ensures Slot(k + d, n) == Idx(Slot(k, n), d, n)
  {
    if d > 0 {
      SlotAdd(k, d - 1, n);
      assert Slot(k + d, n) == Next(Slot(k + (d - 1), n), n);
    }
  }

  /** The distance of two slots is that of the positions if and only if these are in order and less than a lap apart. */
  lemma SlotDistance(r: nat, w: nat, n: nat)
    requires 0 < n
    ensures Distance(Slot(r, n), Slot(w, n), n) == w - r <==> r <= w < r + n
  {
    if r <= w < r + n {
      SlotAdd(r, w - r, n);
    }
  }

  /** Positions less than one lap apart are in different slots. */
  lemma SlotsDiffer(j: nat, k: nat, n: nat)
    requires j < k < j + n
    ensures Slot(j, n) != Slot(k, n)
  {
    SlotAdd(j, k - j, n);
  }

  /** `Slot` is the remainder of the position. */
  lemma {:induction false} SlotIsRemainder(k: nat, n: nat)
    requires 0 < n
    ensures Slot(k, n) == k % n
  {
    if k > 0 {
      SlotIsRemainder(k - 1, n);
      RemainderNext(k - 1, n);
    }
  }

  lemma RemainderNext(k: nat, n: nat)
    requires 0 < n
    ensures (k + 1) % n == Next(k % n, n)
  {
    var q := k / n;
    if k % n + 1 == n {
      assert k + 1 == n * (q + 1);
      RemainderUnique(k + 1, n, q + 1, 0);
    } else {
      RemainderUnique(k + 1, n, q, k % n + 1);
    }
  }

  lemma RemainderUnique(x: int, n: nat, q: int, r: nat)
    requires 0 < n && r < n && x == n * q + r
    ensures x % n == r && x / n == q
  {
    var q', r' := x / n, x % n;
    assert x == n * q' + r';
    if q > q' {
      MulGap(n, q, q');
    } else if q < q' {
      MulGap(n, q', q);
    }
  }

  lemma MulGap(n: nat, a: int, b: int)
    requires b < a
    ensures n * b + n <= n * a
  {
    assert n * a == n * b + n + n * (a - b - 1);
  }

  lemma MulMono(a: int, b: int, c: nat)
    requires a <= b
    ensures a * c <= b * c
  {
    assert b * c == a * c + (b - a) * c;
  }
}
