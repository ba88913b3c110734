/** The list of requests whose data has not arrived yet, and one pass of the thread that watches it. */
module WaitingRequests {

  datatype Request = Request(id: nat, windowBegin: nat, windowEnd: nat)

  datatype RequestElement = RequestElement(request: Request, startTime: nat, sendPartial: bool)

  datatype Issue = Issue(request: Request, sendPartial: bool)

  const NS_PER_MS: nat := 1_000_000

  /** An element past the end of the window has arrived. */
  predicate Complete(e: RequestElement, newestTs: nat) {
    e.request.windowEnd < newestTs
  }

  /** The request has waited for at least the timeout, in whole milliseconds. */
  predicate TimedOut(e: RequestElement, now: nat, timeoutMs: nat) {
    (if now < e.startTime then 0 else now - e.startTime) / NS_PER_MS >= timeoutMs
  }

  /** The request has waited for at least the timeout, in nanoseconds. The clock may read earlier than its start. */
  predicate WaitedFor(e: RequestElement, now: nat, timeoutMs: nat) {
    timeoutMs * 1_000_000 <= if now < e.startTime then 0 else now - e.startTime
  }

  /** Whole milliseconds are reached exactly when their nanoseconds are. */
  lemma TimedOutIff(e: RequestElement, now: nat, timeoutMs: nat)
    ensures TimedOut(e, now, timeoutMs) <==> WaitedFor(e, now, timeoutMs)
    ensures e.startTime <= now ==> (TimedOut(e, now, timeoutMs) <==> now - e.startTime >= timeoutMs * 1_000_000)
  {
  }

  lemma WaitedForMonotone(e: RequestElement, now: nat, later: nat, timeoutMs: nat)
    requires now <= later
    ensures WaitedFor(e, now, timeoutMs) ==> WaitedFor(e, later, timeoutMs)
  {
  }

  /** A request whose window is complete keeps its flag; one that timed out accepts a partial answer. */
  function Reissue(e: RequestElement, newestTs: nat): Issue {
    Issue(e.request, if Complete(e, newestTs) then e.sendPartial else true)
  }

  lemma SwapKeeps<T>(s: seq<T>, i: nat, j: nat)
    requires i < j < |s|
    ensures multiset(s[i := s[j]][j := s[i]]) == multiset(s)
  {
    var a, b, c := s[..i], s[i + 1..j], s[j + 1..];
    assert s == a + [s[i]] + b + [s[j]] + c;
    assert s[i := s[j]][j := s[i]] == a + [s[j]] + b + [s[i]] + c;
  }

  /** The sequence with position `i` swapped with the back and the back dropped. */
  function SwapPop<T>(s: seq<T>, i: nat): (t: seq<T>)
    requires i < |s|
    ensures |t| == |s| - 1 && t[..i] == s[..i]
  {
    s[i := s[|s| - 1]][..|s| - 1]
  }

  /** Exactly one occurrence, that of element `i`, is lost. */
  lemma SwapPopRemovesOne<T>(s: seq<T>, i: nat)
    requires i < |s|
    ensures multiset(SwapPop(s, i)) + multiset{s[i]} == multiset(s)
  {
    var last := |s| - 1;
    if i < last {
      var u := s[i := s[last]][last := s[i]];
      SwapKeeps(s, i, last);
      assert u == SwapPop(s, i) + [s[i]];
    } else {
      assert s == SwapPop(s, i) + [s[i]];
    }
  }

  class WaitingRequests {
    var waiting: seq<RequestElement>

    /** Swaps position `i` with the back and drops the back. */
    method SwapRemove(i: nat)
      requires i < |waiting|
      modifies this
      ensures waiting == SwapPop(old(waiting), i)
      ensures |waiting| == |old(waiting)| - 1 && waiting[..i] == old(waiting[..i])
      ensures multiset(waiting) + multiset{old(waiting[i])} == multiset(old(waiting))
    {
      SwapPopRemovesOne(waiting, i);
      var last := |waiting| - 1;
      waiting := waiting[i := waiting[last]][last := waiting[i]];
      waiting := waiting[..last];
    }

    /** One pass under the lock. `clock(k)` is the k-th reading of the clock in the pass. The requests
        taken off the list are, in the order taken, `reissued`. */
    method Pass(newestTs: nat, timeoutMs: nat, clock: nat -> nat)
      returns (issued: seq<Issue>, readings: nat, ghost reissued: seq<RequestElement>)
      requires forall i, j :: 0 <= i <= j ==> clock(i) <= clock(j)
      modifies this
      ensures multiset(waiting) + multiset(reissued) == multiset(old(waiting))
      ensures |issued| == |reissued|
      ensures forall k :: 0 <= k < |issued| ==> issued[k] == Reissue(reissued[k], newestTs)
      ensures NoneReady(waiting, newestTs, timeoutMs, clock(0))
      ensures AllReady(reissued, newestTs, timeoutMs, clock(readings))
      ensures readings <= |old(waiting)|
    {
      hide Complete, TimedOut, WaitedFor, SwapPop, Reissue, NoneReady, AllReady;
      issued, readings, reissued := [], 0, [];
      NothingIsBoth(newestTs, timeoutMs, clock(0));
      var size := |waiting|;
      var i := 0;
      while i < size
        invariant 0 <= i <= size == |waiting|
        invariant readings + (size - i) <= |old(waiting)|
        invariant multiset(waiting) + multiset(reissued) == multiset(old(waiting))
        invariant |issued| == |reissued|
        invariant forall k :: 0 <= k < |issued| ==> issued[k] == Reissue(reissued[k], newestTs)
        invariant NoneReady(waiting[..i], newestTs, timeoutMs, clock(0))
        invariant AllReady(reissued, newestTs, timeoutMs, clock(readings))
        decreases size - i
      {
        var e := waiting[i];
        ReissueOf(e, newestTs);
        if e.request.windowEnd < newestTs {
          OneMoreReady(reissued, e, newestTs, timeoutMs, clock(readings));
          issued, reissued := issued + [Issue(e.request, e.sendPartial)], reissued + [e];
          SwapRemove(i);
          size := size - 1;
        } else {
          var now := clock(readings);
          LaterStillReady(reissued, newestTs, timeoutMs, clock(readings), clock(readings + 1));
          readings := readings + 1;
          if TimedOut(e, now, timeoutMs) {
            TimedOutIff(e, now, timeoutMs);
            WaitedForMonotone(e, now, clock(readings), timeoutMs);
            OneMoreReady(reissued, e, newestTs, timeoutMs, clock(readings));
            issued, reissued := issued + [Issue(e.request, true)], reissued + [e];
            SwapRemove(i);
            size := size - 1;
          } else {
            TimedOutIff(e, now, timeoutMs);
            WaitedForMonotone(e, clock(0), now, timeoutMs);
            assert waiting[..i + 1] == waiting[..i] + [e];
            OneMoreNotReady(waiting[..i], e, newestTs, timeoutMs, clock(0));
            i := i + 1;
          }
        }
      }
      assert waiting[..i] == waiting;
    }
  }

  /** None of the requests is complete or has timed out. */
  ghost predicate NoneReady(es: seq<RequestElement>, newestTs: nat, timeoutMs: nat, now: nat) {
    forall e :: e in es ==> newestTs <= e.request.windowEnd && !WaitedFor(e, now, timeoutMs)
  }

  /** Every one of the requests is complete or has timed out. */
  ghost predicate AllReady(es: seq<RequestElement>, newestTs: nat, timeoutMs: nat, now: nat) {
    forall e :: e in es ==> e.request.windowEnd < newestTs || WaitedFor(e, now, timeoutMs)
  }

  lemma ReissueOf(e: RequestElement, newestTs: nat)
    ensures Complete(e, newestTs) <==> e.request.windowEnd < newestTs
    ensures Reissue(e, newestTs) == Issue(e.request, if e.request.windowEnd < newestTs then e.sendPartial else true)
  {
  }

  lemma NothingIsBoth(newestTs: nat, timeoutMs: nat, now: nat)
    ensures NoneReady([], newestTs, timeoutMs, now) && AllReady([], newestTs, timeoutMs, now)
  {
  }

  lemma OneMoreReady(es: seq<RequestElement>, e: RequestElement, newestTs: nat, timeoutMs: nat, now: nat)
    requires AllReady(es, newestTs, timeoutMs, now)
    requires e.request.windowEnd < newestTs || WaitedFor(e, now, timeoutMs)
    ensures AllReady(es + [e], newestTs, timeoutMs, now)
  {
  }

  lemma OneMoreNotReady(es: seq<RequestElement>, e: RequestElement, newestTs: nat, timeoutMs: nat, now: nat)
    requires NoneReady(es, newestTs, timeoutMs, now)
    requires newestTs <= e.request.windowEnd && !WaitedFor(e, now, timeoutMs)
    ensures NoneReady(es + [e], newestTs, timeoutMs, now)
  {
  }

  lemma LaterStillReady(es: seq<RequestElement>, newestTs: nat, timeoutMs: nat, now: nat, later: nat)
    requires now <= later && AllReady(es, newestTs, timeoutMs, now)
    ensures AllReady(es, newestTs, timeoutMs, later)
  {
  }

  /** What the contract of `Pass` pins down: of every element that is complete or timed out when the pass
      starts no occurrence stays, and of every element that is neither when it ends all occurrences stay. */
  lemma PassIsExact(before: seq<RequestElement>, kept: seq<RequestElement>, reissued: seq<RequestElement>,
                    newestTs: nat, timeoutMs: nat, first: nat, last: nat, e: RequestElement)
    requires multiset(kept) + multiset(reissued) == multiset(before)
    requires NoneReady(kept, newestTs, timeoutMs, first) && AllReady(reissued, newestTs, timeoutMs, last)
    ensures e.request.windowEnd < newestTs || WaitedFor(e, first, timeoutMs)
            ==> multiset(kept)[e] == 0 && multiset(reissued)[e] == multiset(before)[e]
    ensures newestTs <= e.request.windowEnd && !WaitedFor(e, last, timeoutMs)
            ==> multiset(kept)[e] == multiset(before)[e] && multiset(reissued)[e] == 0
  {
    assert e in multiset(kept) ==> e in kept;
    assert e in multiset(reissued) ==> e in reissued;
    assert (multiset(kept) + multiset(reissued))[e] == multiset(kept)[e] + multiset(reissued)[e];
  }
}
