/** The life of a data request: posted to the thread pool, executed, answered or put on the waiting list,
    taken from there and posted again; and the end of a run. */
module RequestLifecycle {
  import opened WaitingRequests

  datatype Phase = Working | Answering | Requeueing

  /** The thread that watches the waiting list; it holds the list's lock during a pass. */
  datatype Waiter = Top | Pass(i: nat, size: nat) | Exited

  /** `late` are the requests that had been told to wait, but were not yet on the list, when the run marker fell. */
  datatype State = State(
    issued: set<nat>,
    posted: seq<nat>,
    executing: map<nat, Phase>,
    waiting: seq<nat>,
    answered: seq<nat>,
    runMarker: bool,
    waiter: Waiter,
    late: set<nat>,
    stopped: bool)

  datatype Label =
    | IssueRequest(r: nat) | Execute(r: nat) | Decide(r: nat, notYet: bool) | Answer(r: nat) | PushBack(r: nat)
    | BeginPass | ReissueOne | KeepOne | EndPass | ExitWaiter
    | ClearRunMarker | PoolJoined

  ghost predicate Init(s: State) {
    s == State({}, [], map[], [], [], true, Top, {}, false)
  }

  ghost predicate TaskStep(s: State, l: Label, s': State) {
    match l
    case IssueRequest(r) =>
      r !in s.issued && !s.stopped && s' == s.(issued := s.issued + {r}, posted := s.posted + [r])
    case Execute(r) =>
      && s.posted != [] && r == s.posted[0]
      && s' == s.(posted := s.posted[1..], executing := s.executing[r := Working])
    case Decide(r, notYet) =>
      // a request is told to wait only while the run marker is set
      && r in s.executing && s.executing[r] == Working && (notYet ==> s.runMarker)
      && s' == s.(executing := s.executing[r := if notYet then Requeueing else Answering])
    case Answer(r) =>
      && r in s.executing && s.executing[r] == Answering
      && s' == s.(executing := s.executing - {r}, answered := s.answered + [r])
    case PushBack(r) =>
      && r in s.executing && s.executing[r] == Requeueing && !s.waiter.Pass?
      && s' == s.(executing := s.executing - {r}, waiting := s.waiting + [r])
    case _ => false
  }

  ghost predicate WaiterStep(s: State, l: Label, s': State) {
    match l
    case BeginPass =>
      && s.waiter == Top && (s.runMarker || s.waiting != [])
      && s' == s.(waiter := Pass(0, |s.waiting|))
    case ReissueOne =>
      && s.waiter.Pass? && s.waiter.i < s.waiter.size && s.waiter.i < |s.waiting|
      && s' == s.(posted := s.posted + [s.waiting[s.waiter.i]], waiting := SwapPop(s.waiting, s.waiter.i),
                  waiter := Pass(s.waiter.i, s.waiter.size - 1))
    case KeepOne =>
      s.waiter.Pass? && s.waiter.i < s.waiter.size && s' == s.(waiter := Pass(s.waiter.i + 1, s.waiter.size))
    case EndPass =>
      s.waiter.Pass? && s.waiter.i >= s.waiter.size && s' == s.(waiter := Top)
    case ExitWaiter =>
      s.waiter == Top && !s.runMarker && s.waiting == [] && s' == s.(waiter := Exited)
    case _ => false
  }

  ghost predicate StopStep(s: State, l: Label, s': State) {
    match l
    case ClearRunMarker =>
      s.runMarker && s' == s.(runMarker := false, late := set r | r in s.executing && s.executing[r] == Requeueing)
    case PoolJoined =>
      // both joins have returned: the waiting thread is gone and the pool has nothing left to do
      && !s.runMarker && s.waiter == Exited && s.posted == [] && s.executing == map[]
      && s' == s.(stopped := true)
    case _ => false
  }

  ghost predicate Step(s: State, l: Label, s': State) {
    TaskStep(s, l, s') || WaiterStep(s, l, s') || StopStep(s, l, s')
  }

  /** Everything that is somewhere. */
  function Places(s: State): (all: multiset<nat>) {
    multiset(s.posted) + multiset(s.executing.Keys) + multiset(s.waiting) + multiset(s.answered)
  }

  ghost predicate Inv(s: State) {
    && Places(s) == multiset(s.issued)
    && (s.waiter.Pass? ==> s.waiter.i <= s.waiter.size == |s.waiting|)
    && (!s.runMarker ==> forall r :: r in s.executing && s.executing[r] == Requeueing ==> r in s.late)
    && (s.waiter == Exited ==> !s.runMarker && forall r :: r in s.waiting ==> r in s.late)
    && (s.stopped ==> s.waiter == Exited && s.posted == [] && s.executing == map[])
  }

  /** A place holds a request that was issued, and no other place holds it. */
  lemma InOnePlace(s: State, r: nat)
    requires Inv(s)
    ensures multiset(s.posted)[r] + (if r in s.executing then 1 else 0)
            + multiset(s.waiting)[r] + multiset(s.answered)[r]
            == if r in s.issued then 1 else 0
  {
    assert Places(s)[r] == multiset(s.issued)[r];
    assert multiset(s.executing.Keys)[r] == if r in s.executing then 1 else 0;
  }

  lemma IssueInv(s: State, r: nat, s': State)
    requires Inv(s) && TaskStep(s, IssueRequest(r), s')
    ensures Inv(s')
  {
    assert multiset(s'.issued) == multiset(s.issued) + multiset{r};
    assert Places(s') == Places(s) + multiset{r};
  }

  lemma KeysAfterInsert<V>(m: map<nat, V>, r: nat, v: V)
    requires r !in m
    ensures multiset(m[r := v].Keys) == multiset(m.Keys) + multiset{r}
  {
    assert m[r := v].Keys == m.Keys + {r};
  }

  lemma KeysAfterRemoval<V>(m: map<nat, V>, r: nat)
    requires r in m
    ensures multiset(m.Keys) == multiset((m - {r}).Keys) + multiset{r}
  {
    assert (m - {r}).Keys == m.Keys - {r};
  }

  lemma ExecuteInv(s: State, r: nat, s': State)
    requires Inv(s) && TaskStep(s, Execute(r), s')
    ensures Inv(s')
  {
    assert s.posted == [r] + s'.posted;
    assert multiset(s.posted) == multiset(s'.posted) + multiset{r};
    InOnePlace(s, r);
    assert multiset(s'.executing.Keys) == multiset(s.executing.Keys) + multiset{r} by {
      KeysAfterInsert(s.executing, r, s'.executing[r]);
    }
    assert Places(s') == Places(s);
  }

  lemma DecideInv(s: State, r: nat, notYet: bool, s': State)
    requires Inv(s) && TaskStep(s, Decide(r, notYet), s')
    ensures Inv(s')
  {
    assert s'.executing.Keys == s.executing.Keys;
  }

  lemma AnswerInv(s: State, r: nat, s': State)
    requires Inv(s) && TaskStep(s, Answer(r), s')
    ensures Inv(s')
  {
    KeysAfterRemoval(s.executing, r);
    assert Places(s') == Places(s);
  }

  lemma PushBackInv(s: State, r: nat, s': State)
    requires Inv(s) && TaskStep(s, PushBack(r), s')
    ensures Inv(s')
  {
    KeysAfterRemoval(s.executing, r);
    assert Places(s') == Places(s);
  }

  lemma TaskStepInv(s: State, l: Label, s': State)
    requires Inv(s) && TaskStep(s, l, s')
    ensures Inv(s')
  {
    match l {
      case IssueRequest(r) => IssueInv(s, r, s');
      case Execute(r) => ExecuteInv(s, r, s');
      case Decide(r, notYet) => DecideInv(s, r, notYet, s');
      case Answer(r) => AnswerInv(s, r, s');
      case PushBack(r) => PushBackInv(s, r, s');
    }
  }

  lemma WaiterStepInv(s: State, l: Label, s': State)
    requires Inv(s) && WaiterStep(s, l, s')
    ensures Inv(s')
  {
    if l.ReissueOne? {
      SwapPopRemovesOne(s.waiting, s.waiter.i);
    }
  }

  lemma StepInv(s: State, l: Label, s': State)
    requires Inv(s) && Step(s, l, s')
    ensures Inv(s')
  {
    if TaskStep(s, l, s') {
      TaskStepInv(s, l, s');
    } else if WaiterStep(s, l, s') {
      WaiterStepInv(s, l, s');
    }
  }

  ghost predicate Run(states: seq<State>, labels: seq<Label>) {
    && |states| == |labels| + 1
    && Init(states[0])
    && forall i :: 0 <= i < |labels| ==> Step(states[i], labels[i], states[i + 1])
  }

  lemma {:induction false} RunInv(states: seq<State>, labels: seq<Label>, i: nat)
    requires Run(states, labels) && i < |states|
    ensures Inv(states[i])
  {
    if 0 < i {
      hide Inv, Step;
      RunInv(states, labels, i - 1);
      StepInv(states[i - 1], labels[i - 1], states[i]);
    }
  }

  lemma RunExtends(states: seq<State>, labels: seq<Label>, l: Label, s': State)
    requires Run(states, labels) && Step(states[|labels|], l, s')
    ensures Run(states + [s'], labels + [l])
  {
    var states', labels' := states + [s'], labels + [l];
    forall i | 0 <= i < |labels'|
      ensures Step(states'[i], labels'[i], states'[i + 1])
    {
      if i < |labels| {
        assert Step(states[i], labels[i], states[i + 1]);
      }
    }
  }

  /** Conservation: at every moment of every run each issued request is, exactly once, in exactly one of the
      pool's queue, the tasks being executed, the waiting list and the answered requests, and nothing else is
      anywhere. */
  lemma RequestsAreConserved(states: seq<State>, labels: seq<Label>, i: nat, r: nat)
    requires Run(states, labels) && i < |states|
    ensures var s := states[i];
            multiset(s.posted)[r] + (if r in s.executing then 1 else 0)
            + multiset(s.waiting)[r] + multiset(s.answered)[r]
            == if r in s.issued then 1 else 0
  {
    RunInv(states, labels, i);
    InOnePlace(states[i], r);
  }

  lemma AnsweredGrows(s: State, l: Label, s': State)
    requires Step(s, l, s')
    ensures s.answered <= s'.answered && s.issued <= s'.issued
  {
  }

  /** An answer is final: no later moment has a second one, or has the request anywhere else. */
  lemma {:induction false} AnsweredIsFinal(states: seq<State>, labels: seq<Label>, i: nat, j: nat, r: nat)
    requires Run(states, labels) && i <= j < |states| && r in states[i].answered
    ensures multiset(states[j].answered)[r] == 1
    ensures r !in states[j].posted && r !in states[j].executing && r !in states[j].waiting
  {
    AnsweredStays(states, labels, i, j, r);
    RequestsAreConserved(states, labels, j, r);
    var s := states[j];
    assert r in multiset(s.answered);
    assert r in s.posted ==> r in multiset(s.posted);
    assert r in s.waiting ==> r in multiset(s.waiting);
  }

  lemma {:induction false} AnsweredStays(states: seq<State>, labels: seq<Label>, i: nat, j: nat, r: nat)
    requires Run(states, labels) && i <= j < |states| && r in states[i].answered
    ensures r in states[j].answered
  {
    hide Step, Init;
    if i < j {
      AnsweredStays(states, labels, i, j - 1, r);
      AnsweredGrows(states[j - 1], labels[j - 1], states[j]);
    }
  }

  /** No request is stuck before the waiting thread has gone: in every reachable state each issued one is answered or
      something can be done about it, at once, when its turn in the queue of the pool has come, or when the pass over
      the list that is under way comes to its end. */
  lemma UnansweredCanMove(states: seq<State>, labels: seq<Label>, i: nat, r: nat) returns (l: Label, s': State)
    requires Run(states, labels) && i < |states| && r in states[i].issued && r !in states[i].answered
    ensures r in states[i].waiting || Step(states[i], l, s')
    ensures var s := states[i];
            r in s.waiting
            || (r in s.posted && l == Execute(s.posted[0]))
            || (r in s.executing && s.executing[r] == Working && l == Decide(r, false))
            || (r in s.executing && s.executing[r] == Answering && l == Answer(r) && r in s'.answered)
            || (r in s.executing && s.executing[r] == Requeueing && l == PushBack(r) && r in s'.waiting)
            || (r in s.executing && s.executing[r] == Requeueing && s.waiter.Pass? && (l == KeepOne || l == EndPass))
  {
    RunInv(states, labels, i);
    RequestsAreConserved(states, labels, i, r);
    hide Run, Places;
    var s := states[i];
    l, s' := EndPass, s;
    assert multiset(s.posted)[r] > 0 <==> r in s.posted;
    assert multiset(s.waiting)[r] > 0 <==> r in s.waiting;
    assert multiset(s.answered)[r] > 0 <==> r in s.answered;
    if r in s.posted {
      l := Execute(s.posted[0]);
      s' := s.(posted := s.posted[1..], executing := s.executing[s.posted[0] := Working]);
    } else if r in s.executing {
      l, s' := ExecutingMoves(s, r);
    }
  }

  lemma ExecutingMoves(s: State, r: nat) returns (l: Label, s': State)
    requires r in s.executing
    ensures Step(s, l, s')
    ensures var phase := s.executing[r];
            || (phase == Working && l == Decide(r, false))
            || (phase == Answering && l == Answer(r) && r in s'.answered)
            || (phase == Requeueing && l == PushBack(r) && r in s'.waiting)
            || (phase == Requeueing && s.waiter.Pass? && (l == KeepOne || l == EndPass))
  {
    var phase := s.executing[r];
    if phase == Working {
      l, s' := Decide(r, false), s.(executing := s.executing[r := Answering]);
    } else if phase == Answering {
      l, s' := Answer(r), s.(executing := s.executing - {r}, answered := s.answered + [r]);
    } else if !s.waiter.Pass? {
      l, s' := PushBack(r), s.(executing := s.executing - {r}, waiting := s.waiting + [r]);
    } else if s.waiter.i < s.waiter.size {
      l, s' := KeepOne, s.(waiter := Pass(s.waiter.i + 1, s.waiter.size));
    } else {
      l, s' := EndPass, s.(waiter := Top);
    }
  }

  /** And a request on the list, while the waiting thread is there, can be issued again at its turn in a pass. */
  lemma WaitingCanMove(states: seq<State>, labels: seq<Label>, i: nat, r: nat) returns (l: Label, s': State)
    requires Run(states, labels) && i < |states| && r in states[i].waiting && states[i].waiter != Exited
    ensures Step(states[i], l, s')
    ensures var s := states[i];
            || (s.waiter == Top && l == BeginPass)
            || (s.waiter.Pass? && s.waiter.i < s.waiter.size && l == ReissueOne
                && s'.posted == s.posted + [s.waiting[s.waiter.i]])
            || (s.waiter.Pass? && s.waiter.i == s.waiter.size && l == EndPass)
  {
    RunInv(states, labels, i);
    hide Run, Places;
    var s := states[i];
    if s.waiter == Top {
      l, s' := BeginPass, s.(waiter := Pass(0, |s.waiting|));
    } else if s.waiter.i < s.waiter.size {
      l := ReissueOne;
      s' := s.(posted := s.posted + [s.waiting[s.waiter.i]], waiting := SwapPop(s.waiting, s.waiter.i),
               waiter := Pass(s.waiter.i, s.waiter.size - 1));
    } else {
      l, s' := EndPass, s.(waiter := Top);
    }
  }

  /** Once the waiting thread has gone, the list holds exactly what was put on it afterwards. */
  lemma {:induction false} WaitingAfterExit(states: seq<State>, labels: seq<Label>, i: nat, r: nat)
    requires Run(states, labels) && i < |states| && states[i].waiter == Exited
    ensures r in states[i].waiting
            <==> exists k :: 0 <= k < i && labels[k] == PushBack(r) && states[k].waiter == Exited
  {
    if i == 0 {
    } else {
      var s := states[i - 1];
      assert Step(s, labels[i - 1], states[i]);
      ListAtExit(s, labels[i - 1], states[i], r);
      hide Step;
      if s.waiter == Exited {
        WaitingAfterExit(states, labels, i - 1, r);
      } else {
        ExitedStays(states, labels, i - 1);
      }
    }
  }

  /** One step with the waiting thread gone, or the one with which it goes. */
  lemma ListAtExit(s: State, l: Label, s': State, r: nat)
    requires Step(s, l, s') && s'.waiter == Exited
    ensures s.waiter == Exited ==> (r in s'.waiting <==> r in s.waiting || l == PushBack(r))
    ensures s.waiter != Exited ==> s'.waiting == [] && !l.PushBack?
  {
  }

  lemma {:induction false} ExitedStays(states: seq<State>, labels: seq<Label>, i: nat)
    requires Run(states, labels) && i < |states| && states[i].waiter != Exited
    ensures forall k :: 0 <= k < i ==> states[k].waiter != Exited
  {
    if 0 < i {
      assert Step(states[i - 1], labels[i - 1], states[i]);
      ExitedStays(states, labels, i - 1);
    }
  }

  /** After `stop` a request is unanswered if and only if it was put on the waiting list after the waiting thread
      had gone; such a request had been told to wait, and was not yet on the list, when the run marker fell. */
  lemma AfterStop(states: seq<State>, labels: seq<Label>, i: nat, r: nat)
    requires Run(states, labels) && i < |states| && states[i].stopped && r in states[i].issued
    ensures r !in states[i].answered
            <==> exists k :: 0 <= k < i && labels[k] == PushBack(r) && states[k].waiter == Exited
    ensures r !in states[i].answered ==> r in states[i].late
  {
    hide Run, Step;
    RunInv(states, labels, i);
    RequestsAreConserved(states, labels, i, r);
    WaitingAfterExit(states, labels, i, r);
    var s := states[i];
    assert multiset(s.posted)[r] == 0;
    assert multiset(s.waiting)[r] > 0 <==> r in s.waiting;
    assert multiset(s.answered)[r] > 0 <==> r in s.answered;
  }

  /** When no request was on its way to the list as the run marker fell, `stop` leaves none unanswered. */
  lemma AllAnsweredAfterStop(states: seq<State>, labels: seq<Label>, i: nat)
    requires Run(states, labels) && i < |states| && states[i].stopped && states[i].late == {}
    ensures forall r :: r in states[i].issued ==> r in states[i].answered
  {
    hide Run;
    forall r | r in states[i].issued
      ensures r in states[i].answered
    {
      AfterStop(states, labels, i, r);
    }
  }

  /** A request is told to wait, and before it is put on the list the run marker falls. */
  lemma ToldToWait() returns (states: seq<State>, labels: seq<Label>)
    ensures Run(states, labels)
    ensures states[|labels|] == State({1}, [], map[1 := Requeueing], [], [], false, Top, {1}, false)
  {
    var s0 := State({}, [], map[], [], [], true, Top, {}, false);
    states, labels := [s0], [];
    states, labels := Go(states, labels, IssueRequest(1), s0.(issued := {1}, posted := [1]));
    hide Run;
    var s2 := s0.(issued := {1}, executing := map[1 := Working]);
    states, labels := Go(states, labels, Execute(1), s2);
    var s3 := s2.(executing := map[1 := Requeueing]);
    states, labels := Go(states, labels, Decide(1, true), s3);
    assert (set r | r in s3.executing && s3.executing[r] == Requeueing) == {1};
    states, labels := Go(states, labels, ClearRunMarker, s3.(runMarker := false, late := {1}));
  }

  /** The exception is real: this run ends with a request that nobody will answer. */
  lemma LateRequestIsLost() returns (states: seq<State>, labels: seq<Label>)
    ensures Run(states, labels)
    ensures states[|labels|].stopped && 1 in states[|labels|].issued
    ensures states[|labels|].waiting == [1] && states[|labels|].answered == []
  {
    hide Run;
    states, labels := ToldToWait();
    var s4 := State({1}, [], map[1 := Requeueing], [], [], false, Top, {1}, false);
    states, labels := Go(states, labels, ExitWaiter, s4.(waiter := Exited));
    assert s4.executing - {1} == map[];
    states, labels := Go(states, labels, PushBack(1), s4.(waiter := Exited, executing := map[], waiting := [1]));
    states, labels := Go(states, labels, PoolJoined,
                         s4.(waiter := Exited, executing := map[], waiting := [1], stopped := true));
  }

  lemma Go(states: seq<State>, labels: seq<Label>, l: Label, next: State)
    returns (states': seq<State>, labels': seq<Label>)
    requires Run(states, labels) && Step(states[|labels|], l, next)
    ensures Run(states', labels') && |states'| == |labels'| + 1 && states'[|labels'|] == next
  {
    RunExtends(states, labels, l, next);
    states', labels' := states + [next], labels + [l];
  }
}
