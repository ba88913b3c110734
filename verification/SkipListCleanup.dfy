/** Cleanup of a latency buffer that is a sorted, concurrently written list: drop the oldest elements
    until the buffered time span is below a limit. */
module SkipListCleanup {

  /** The span, in ticks, above which old elements are dropped. */
  const MAX_TS_DIFF: nat := 625_000_000

  /** The oldest timestamp in the list. */
  function First(list: set<nat>): (ts: nat)
    requires list != {}
    ensures ts in list && forall x :: x in list ==> ts <= x
  {
    FirstExists(list);
    var ts :| IsFirst(list, ts);
    ts
  }

  predicate IsFirst(list: set<nat>, ts: nat) {
    ts in list && forall x :: x in list ==> ts <= x
  }

  lemma {:induction false} FirstExists(list: set<nat>)
    requires list != {}
    ensures exists ts :: IsFirst(list, ts)
    decreases |list|
  {
    var y :| y in list;
    var rest := list - {y};
    assert list == rest + {y};
    if rest == {} {
      assert IsFirst(list, y);
    } else {
      FirstExists(rest);
      var ts :| IsFirst(rest, ts);
      assert IsFirst(list, if y <= ts then y else ts);
    }
  }

  /** The newest timestamp in the list. */
  function Last(list: set<nat>): (ts: nat)
    requires list != {}
    ensures ts in list && forall x :: x in list ==> x <= ts
  {
    LastExists(list);
    var ts :| IsLast(list, ts);
    ts
  }

  predicate IsLast(list: set<nat>, ts: nat) {
    ts in list && forall x :: x in list ==> x <= ts
  }

  lemma {:induction false} LastExists(list: set<nat>)
    requires list != {}
    ensures exists ts :: IsLast(list, ts)
    decreases |list|
  {
    var y :| y in list;
    var rest := list - {y};
    assert list == rest + {y};
    if rest == {} {
      assert IsLast(list, y);
    } else {
      LastExists(rest);
      var ts :| IsLast(rest, ts);
      assert IsLast(list, if ts <= y then y else ts);
    }
  }

  /** The elements at least the allowed span older than `newest`. */
  ghost function TooOld(list: set<nat>, newest: nat): (stale: set<nat>) {
    set ts | ts in list && ts + 625_000_000 <= newest
  }

  /** Everything that other threads insert in the first `k` rounds. */
  ghost function Inserted(arrivals: seq<set<nat>>, k: nat): (s: set<nat>)
    requires k <= |arrivals|
  {
    if k == 0 then {} else Inserted(arrivals, k - 1) + arrivals[k - 1]
  }

  class SkipList {
    /** The timestamps of the elements, which are their keys. */
    var list: set<nat>

    /** The cleanup loop. While it runs the producer inserts: `arrivals[k]` just before the k-th removal,
        and nothing after the last of them; `seen` counts the rounds that took place. Elements are dropped
        only when the span was above the limit at the start; then exactly those at least the limit older
        than the element that was newest at the start are dropped, and the span is below the limit. */
    method Cleanup(arrivals: seq<set<nat>>) returns (removed: set<nat>, seen: nat)
      modifies this
      ensures seen <= |arrivals|
      ensures old(list) == {} || Last(old(list)) - First(old(list)) <= 625_000_000
              ==> list == old(list) && removed == {} && seen == 0
      ensures old(list) != {} && Last(old(list)) - First(old(list)) > 625_000_000 ==>
                var newest, all := Last(old(list)), old(list) + Inserted(arrivals, seen);
                && removed == TooOld(all, newest) && removed != {}
                && list == all - removed
                && newest in list && newest - First(list) < 625_000_000
    {
      hide First, Last, TooOld, Inserted;
      NothingInserted(arrivals);
      removed, seen := {}, 0;
      if list == {} {
        return;
      }
      var tailTs, headTs := Last(list), First(list);
      if tailTs - headTs > MAX_TS_DIFF {
        var timeDiff := MAX_TS_DIFF;
        while timeDiff >= MAX_TS_DIFF
          invariant seen <= |arrivals|
          invariant list + removed == old(list) + Inserted(arrivals, seen)
          invariant removed <= TooOld(old(list) + Inserted(arrivals, seen), tailTs)
          invariant tailTs in list && headTs == First(list)
          invariant if removed == {} then tailTs - headTs > MAX_TS_DIFF == timeDiff else timeDiff == tailTs - headTs
          decreases |arrivals| - seen, if timeDiff >= MAX_TS_DIFF then 1 + |TooOld(list, tailTs)| else 0
        {
          ghost var before, rounds := list, seen;
          Stale(old(list) + Inserted(arrivals, seen), headTs, tailTs);
          if seen < |arrivals| {
            OneMoreRound(old(list), arrivals, seen, tailTs);
            list := list + arrivals[seen];
            seen := seen + 1;
          }
          list := list - {headTs};
          removed := removed + {headTs};
          if rounds == seen {
            DropOne(before, headTs, tailTs);
          }
          headTs := First(list);
          timeDiff := tailTs - headTs;
        }
        assert forall ts :: ts in list ==> headTs <= ts;
        Finished(list, removed, old(list) + Inserted(arrivals, seen), tailTs);
      }
    }
  }

  lemma DropOne(list: set<nat>, head: nat, newest: nat)
    requires head in list && head + MAX_TS_DIFF <= newest
    ensures |TooOld(list - {head}, newest)| < |TooOld(list, newest)|
  {
    assert TooOld(list - {head}, newest) == TooOld(list, newest) - {head};
  }

  lemma NothingInserted(arrivals: seq<set<nat>>)
    ensures Inserted(arrivals, 0) == {}
  {
  }

  lemma Stale(list: set<nat>, ts: nat, newest: nat)
    ensures ts in list && ts + MAX_TS_DIFF <= newest ==> ts in TooOld(list, newest)
  {
  }

  lemma OneMoreRound(list: set<nat>, arrivals: seq<set<nat>>, k: nat, newest: nat)
    requires k < |arrivals|
    ensures Inserted(arrivals, k + 1) == Inserted(arrivals, k) + arrivals[k]
    ensures TooOld(list + Inserted(arrivals, k), newest) <= TooOld(list + Inserted(arrivals, k + 1), newest)
  {
  }

  lemma Finished(list: set<nat>, removed: set<nat>, all: set<nat>, newest: nat)
    requires list + removed == all && removed <= TooOld(all, newest)
    requires forall ts :: ts in list ==> newest < ts + MAX_TS_DIFF
    ensures removed == TooOld(all, newest) && list == all - removed
  {
  }
}
