/** A thread that is handed one task after another through two atomic flags. */
module ReusableThread {

  /** A thread inside `set_work`: past the test of the assigned flag, past the exchange of the executed
      flag, past the write of the task. */
  datatype Setter = SIdle | SUnassigned(task: nat) | SWon(task: nat) | SStored(task: nat)

  datatype Worker =
    | WTop | WLook | WLookAgain | WReady
    | WRunning(task: nat) | WFinished | WMarked
    | WBeforeWait | WWaiting | WDone

  datatype Destructor = DNone | DWaiting | DJoining

  /** `accepted`, `started` and `completed` list the tasks in the order of the winning exchanges, of the
      calls and of the returns. */
  datatype State = State(
    taskExecuted: bool, taskAssigned: bool, threadQuit: bool,
    task: nat,
    setters: seq<Setter>, worker: Worker, destructor: Destructor,
    accepted: seq<nat>, started: seq<nat>, completed: seq<nat>)

  datatype Label =
    | TestAssigned(k: nat, task: nat) | ExchangeExecuted(k: nat) | StoreTask(k: nat) | SetAssigned(k: nat)
    | TestQuit | TestExecuted | TestAssignedAgain | CallTask | TaskReturns | SetExecuted | ClearAssigned
    | Wait | Wake
    | BeginDestruction | SetQuit

  ghost predicate Init(s: State, setters: nat) {
    s == State(true, false, false, 0, seq(setters, _ => SIdle), WTop, DNone, [], [], [])
  }

  ghost predicate SetterStep(s: State, l: Label, s': State) {
    match l
    case TestAssigned(k, task) =>
      && k < |s.setters| && s.setters[k] == SIdle && s.destructor == DNone
      && s' == s.(setters := s.setters[k := if s.taskAssigned then SIdle else SUnassigned(task)])
    case ExchangeExecuted(k) =>
      && k < |s.setters| && s.setters[k].SUnassigned?
      && s' == if s.taskExecuted
               then s.(taskExecuted := false, setters := s.setters[k := SWon(s.setters[k].task)],
                       accepted := s.accepted + [s.setters[k].task])
               else s.(setters := s.setters[k := SIdle])
    case StoreTask(k) =>
      && k < |s.setters| && s.setters[k].SWon?
      && s' == s.(task := s.setters[k].task, setters := s.setters[k := SStored(s.setters[k].task)])
    case SetAssigned(k) =>
      && k < |s.setters| && s.setters[k].SStored?
      && s' == s.(taskAssigned := true, setters := s.setters[k := SIdle])
    case _ => false
  }

  ghost predicate WorkerStep(s: State, l: Label, s': State) {
    match l
    case TestQuit => s.worker == WTop && s' == s.(worker := if s.threadQuit then WDone else WLook)
    case TestExecuted => s.worker == WLook && s' == s.(worker := if s.taskExecuted then WBeforeWait else WLookAgain)
    case TestAssignedAgain =>
      s.worker == WLookAgain && s' == s.(worker := if s.taskAssigned then WReady else WBeforeWait)
    case CallTask => s.worker == WReady && s' == s.(worker := WRunning(s.task), started := s.started + [s.task])
    case TaskReturns =>
      s.worker.WRunning? && s' == s.(worker := WFinished, completed := s.completed + [s.worker.task])
    case SetExecuted => s.worker == WFinished && s' == s.(worker := WMarked, taskExecuted := true)
    case ClearAssigned => s.worker == WMarked && s' == s.(worker := WTop, taskAssigned := false)
    case Wait => s.worker == WBeforeWait && s' == s.(worker := WWaiting)
    // a wait may end at any time, notified or not
    case Wake => s.worker == WWaiting && s' == s.(worker := WTop)
    case _ => false
  }

  ghost predicate DestructorStep(s: State, l: Label, s': State) {
    match l
    case BeginDestruction =>
      && s.destructor == DNone && (forall k :: 0 <= k < |s.setters| ==> s.setters[k] == SIdle)
      && s' == s.(destructor := DWaiting)
    case SetQuit =>
      s.destructor == DWaiting && !s.taskAssigned && s' == s.(destructor := DJoining, threadQuit := true)
    case _ => false
  }

  ghost predicate Step(s: State, l: Label, s': State) {
    SetterStep(s, l, s') || WorkerStep(s, l, s') || DestructorStep(s, l, s')
  }

  /** The worker is past its two tests and has not yet set the executed flag. */
  predicate Busy(w: Worker) {
    w.WReady? || w.WRunning? || w.WFinished?
  }

  /** The invariant of a thread with a single setter. */
  ghost predicate Inv(s: State) {
    && |s.setters| == 1
    && s.started == s.completed + (if s.worker.WRunning? then [s.worker.task] else [])
    && (s.worker.WRunning? ==> s.worker.task == s.task)
    && (s.worker.WLookAgain? || Busy(s.worker) ==> !s.taskExecuted)
    && (s.worker.WMarked? ==> s.taskExecuted)
    && (Busy(s.worker) || s.worker.WMarked? ==> s.taskAssigned)
    && (s.destructor != DNone ==> s.setters[0] == SIdle)
    && (s.threadQuit ==> s.taskExecuted && !s.taskAssigned && s.destructor != DNone)
    && (s.worker == WDone ==> s.threadQuit)
    && (match s.setters[0]
        case SWon(task) => !s.taskExecuted && !s.taskAssigned && s.accepted == s.completed + [task]
        case SStored(task) => !s.taskExecuted && !s.taskAssigned && s.accepted == s.completed + [task] && s.task == task
        case _ =>
          && (s.setters[0].SUnassigned? ==> !s.taskAssigned)
          && if s.taskExecuted || s.worker.WFinished? then
               s.accepted == s.completed && (s.taskAssigned <==> s.worker.WFinished? || s.worker.WMarked?)
             else s.taskAssigned && s.accepted == s.completed + [s.task])
  }

  lemma SetterStepInv(s: State, l: Label, s': State)
    requires Inv(s) && SetterStep(s, l, s')
    ensures Inv(s')
  {
  }

  lemma WorkerStepInv(s: State, l: Label, s': State)
    requires Inv(s) && WorkerStep(s, l, s')
    ensures Inv(s')
  {
  }

  lemma DestructorStepInv(s: State, l: Label, s': State)
    requires Inv(s) && DestructorStep(s, l, s')
    ensures Inv(s')
  {
  }

  lemma StepInv(s: State, l: Label, s': State)
    requires Inv(s) && Step(s, l, s')
    ensures Inv(s')
  {
    hide Inv, SetterStep, WorkerStep, DestructorStep;
    if SetterStep(s, l, s') {
      SetterStepInv(s, l, s');
    } else if WorkerStep(s, l, s') {
      WorkerStepInv(s, l, s');
    } else {
      DestructorStepInv(s, l, s');
    }
  }

  ghost predicate Run(states: seq<State>, labels: seq<Label>, setters: nat) {
    && |states| == |labels| + 1
    && Init(states[0], setters)
    && forall i :: 0 <= i < |labels| ==> Step(states[i], labels[i], states[i + 1])
  }

  lemma {:induction false} RunInv(states: seq<State>, labels: seq<Label>, i: nat)
    requires Run(states, labels, 1) && i < |states|
    ensures Inv(states[i])
  {
    if 0 < i {
      hide Inv, Step;
      RunInv(states, labels, i - 1);
      StepInv(states[i - 1], labels[i - 1], states[i]);
    }
  }

  /** With one setting thread, over all interleavings: tasks are called in the order of acceptance, each at most
      once, and at most one accepted task is not completed. */
  lemma EachTaskRunsOnce(states: seq<State>, labels: seq<Label>, i: nat)
    requires Run(states, labels, 1) && i < |states|
    ensures states[i].completed <= states[i].started <= states[i].accepted
    ensures |states[i].accepted| <= |states[i].completed| + 1
  {
    RunInv(states, labels, i);
  }

  /** Readiness observed after a task was accepted means that it, and every task before it, has completed. */
  lemma ReadyMeansCompleted(states: seq<State>, labels: seq<Label>, i: nat)
    requires Run(states, labels, 1) && i < |states| && states[i].taskExecuted
    ensures states[i].completed == states[i].accepted
  {
    RunInv(states, labels, i);
  }

  /** With one setting thread a call of `set_work` gets past its first test if and only if every task accepted before
      has completed and the worker has cleared both marks of the last one; and from there it is always accepted. */
  lemma AcceptedIffServed(states: seq<State>, labels: seq<Label>, i: nat)
    requires Run(states, labels, 1) && i < |labels|
    ensures |states[i].setters| == 1 == |states[i + 1].setters|
    ensures var s := states[i];
            labels[i].TestAssigned? ==>
              (states[i + 1].setters[0] == SUnassigned(labels[i].task)
               <==> s.completed == s.accepted && !s.worker.WFinished? && !s.worker.WMarked?)
    ensures labels[i].ExchangeExecuted? ==>
              states[i].setters[0].SUnassigned?
              && states[i + 1].accepted == states[i].accepted + [states[i].setters[0].task]
  {
    RunInv(states, labels, i);
    hide Run, WorkerStep, DestructorStep;
    assert Step(states[i], labels[i], states[i + 1]) by { StepAt(states, labels, i); }
    RunInv(states, labels, i + 1);
    if labels[i].TestAssigned? || labels[i].ExchangeExecuted? {
      OnlySettersSet(states[i], labels[i], states[i + 1]);
    }
  }

  lemma StepAt(states: seq<State>, labels: seq<Label>, i: nat)
    requires Run(states, labels, 1) && i < |labels|
    ensures Step(states[i], labels[i], states[i + 1])
  {
  }

  lemma OnlySettersSet(s: State, l: Label, s': State)
    requires Step(s, l, s') && (l.TestAssigned? || l.ExchangeExecuted?)
    ensures SetterStep(s, l, s')
  {
  }

  /** The task is never overwritten while it runs. */
  lemma RunningTaskIsStable(states: seq<State>, labels: seq<Label>, i: nat)
    requires Run(states, labels, 1) && i < |labels| && states[i].worker.WRunning?
    ensures states[i].task == states[i].worker.task && states[i + 1].task == states[i].task
  {
    RunInv(states, labels, i);
    assert Step(states[i], labels[i], states[i + 1]);
  }

  /** The destructor does not lose an accepted task: when the worker has quit, all are completed. */
  lemma QuitAfterCompletion(states: seq<State>, labels: seq<Label>, i: nat)
    requires Run(states, labels, 1) && i < |states| && states[i].worker == WDone
    ensures states[i].completed == states[i].accepted
  {
    RunInv(states, labels, i);
  }

  /** An accepted task is waiting, both flags are clear, and no setter is between winning and assigning. */
  ghost predicate Lost(s: State) {
    && s.completed != s.accepted && !s.taskExecuted && !s.taskAssigned
    && (forall k :: 0 <= k < |s.setters| ==> !s.setters[k].SWon? && !s.setters[k].SStored?)
    && !Busy(s.worker) && s.worker != WMarked
  }

  /** With one setting thread no accepted task is ever lost. */
  lemma NothingIsLost(states: seq<State>, labels: seq<Label>, i: nat)
    requires Run(states, labels, 1) && i < |states|
    ensures !Lost(states[i])
  {
    RunInv(states, labels, i);
  }

  lemma LostStays(s: State, l: Label, s': State)
    requires Lost(s) && Step(s, l, s')
    ensures Lost(s') && s'.accepted == s.accepted && s'.completed == s.completed
  {
  }

  /** With any number of setters, a task that is lost stays lost in the whole rest of the run: every later
      `set_work` is refused, no task completes, and the thread is never ready. */
  lemma {:induction false} LostForever(states: seq<State>, labels: seq<Label>, setters: nat, i: nat, j: nat)
    requires Run(states, labels, setters) && i <= j < |states| && Lost(states[i])
    ensures Lost(states[j]) && !states[j].taskExecuted
    ensures states[j].accepted == states[i].accepted && states[j].completed == states[i].completed
  {
    hide Init, Step;
    if i < j {
      LostForever(states, labels, setters, i, j - 1);
      LostStays(states[j - 1], labels[j - 1], states[j]);
    }
  }

  lemma RunExtends(states: seq<State>, labels: seq<Label>, setters: nat, l: Label, s': State)
    requires Run(states, labels, setters) && Step(states[|labels|], l, s')
    ensures Run(states + [s'], labels + [l], setters)
  {
    var states', labels' := states + [s'], labels + [l];
    forall i | 0 <= i < |labels'|
      ensures Step(states'[i], labels'[i], states'[i + 1])
    {
      if i < |labels| {
        assert Step(states[i], labels[i], states[i + 1]);
      }
    }
  }

  lemma Go(states: seq<State>, labels: seq<Label>, setters: nat, s: State, l: Label, next: State)
    returns (states': seq<State>, labels': seq<Label>)
    requires Run(states, labels, setters) && |states| == |labels| + 1 && states[|labels|] == s && Step(s, l, next)
    ensures Run(states', labels', setters) && |states'| == |labels'| + 1 && states'[|labels'|] == next
  {
    RunExtends(states, labels, setters, l, next);
    states', labels' := states + [next], labels + [l];
  }

  /** From the top of its loop the worker alone runs an assigned task up to the setting of the executed flag. */
  lemma WorkerServes(states: seq<State>, labels: seq<Label>, setters: nat, s: State)
    returns (states': seq<State>, labels': seq<Label>)
    requires Run(states, labels, setters) && |states| == |labels| + 1 && states[|labels|] == s
    requires s.worker == WTop && !s.threadQuit && !s.taskExecuted && s.taskAssigned
    ensures Run(states', labels', setters) && |states'| == |labels'| + 1
    ensures states'[|labels'|]
            == s.(worker := WMarked, taskExecuted := true, started := s.started + [s.task],
                  completed := s.completed + [s.task])
  {
    hide Run;
    states', labels' := Go(states, labels, setters, s, TestQuit, s.(worker := WLook));
    states', labels' := Go(states', labels', setters, s.(worker := WLook), TestExecuted, s.(worker := WLookAgain));
    states', labels' := Go(states', labels', setters, s.(worker := WLookAgain), TestAssignedAgain,
                           s.(worker := WReady));
    var s1 := s.(worker := WRunning(s.task), started := s.started + [s.task]);
    states', labels' := Go(states', labels', setters, s.(worker := WReady), CallTask, s1);
    var s2 := s1.(worker := WFinished, completed := s.completed + [s.task]);
    states', labels' := Go(states', labels', setters, s1, TaskReturns, s2);
    states', labels' := Go(states', labels', setters, s2, SetExecuted, s2.(worker := WMarked, taskExecuted := true));
  }

  /** The state with two distinguished setters and all others idle. */
  function WithSetters(s: State, first: Setter, second: Setter, others: nat): (s': State) {
    s.(setters := [first, second] + seq(others, _ => SIdle))
  }

  lemma SetterMoves(s: State, first: Setter, second: Setter, others: nat, next: Setter)
    ensures WithSetters(s, first, second, others).setters[0 := next] == WithSetters(s, next, second, others).setters
    ensures WithSetters(s, first, second, others).setters[1 := next] == WithSetters(s, first, next, others).setters
  {
  }

  /** One step of one of the two setters; `s'` says what it does apart from that. */
  lemma GoSetter(states: seq<State>, labels: seq<Label>, others: nat, s: State, first: Setter, second: Setter,
                 l: Label, s': State, first': Setter, second': Setter)
    returns (states': seq<State>, labels': seq<Label>)
    requires Run(states, labels, others + 2) && |states| == |labels| + 1
    requires states[|labels|] == WithSetters(s, first, second, others)
    requires SetterStep(WithSetters(s, first, second, others), l, WithSetters(s', first', second', others))
    ensures Run(states', labels', others + 2) && |states'| == |labels'| + 1
    ensures states'[|labels'|] == WithSetters(s', first', second', others)
  {
    hide Run, SetterStep;
    states', labels' := Go(states, labels, others + 2, WithSetters(s, first, second, others), l,
                           WithSetters(s', first', second', others));
  }

  lemma StartSetters(others: nat, s: State) returns (states: seq<State>, labels: seq<Label>)
    requires s == State(true, false, false, 0, [], WTop, DNone, [], [], [])
    ensures Run(states, labels, others + 2) && |states| == |labels| + 1
    ensures states[|labels|] == WithSetters(s, SIdle, SIdle, others)
  {
    var s0 := WithSetters(s, SIdle, SIdle, others);
    assert s0.setters == seq(others + 2, _ => SIdle);
    states, labels := [s0], [];
  }

  /** Two setters see the assigned flag clear; the second of them gets its task accepted, and the worker has
      just marked it as executed. */
  lemma SecondSetterOvertakes(others: nat) returns (states: seq<State>, labels: seq<Label>)
    ensures Run(states, labels, others + 2) && |states| == |labels| + 1
    ensures states[|labels|]
            == WithSetters(State(true, true, false, 8, [], WMarked, DNone, [8], [8], [8]),
                           SUnassigned(7), SIdle, others)
  {
    hide Run;
    var s0 := State(true, false, false, 0, [], WTop, DNone, [], [], []);
    states, labels := StartSetters(others, s0);
    SetterMoves(s0, SIdle, SIdle, others, SUnassigned(7));
    states, labels := GoSetter(states, labels, others, s0, SIdle, SIdle, TestAssigned(0, 7), s0, SUnassigned(7), SIdle);
    SetterMoves(s0, SUnassigned(7), SIdle, others, SUnassigned(8));
    states, labels := GoSetter(states, labels, others, s0, SUnassigned(7), SIdle, TestAssigned(1, 8),
                               s0, SUnassigned(7), SUnassigned(8));
    states, labels := SecondSetterSets(states, labels, others, s0);
    var s5 := s0.(taskExecuted := false, taskAssigned := true, task := 8, accepted := [8]);
    states, labels := WorkerServes(states, labels, others + 2, WithSetters(s5, SUnassigned(7), SIdle, others));
  }

  /** The second setter gets its task accepted while the first is past the test of the assigned flag. */
  lemma SecondSetterSets(states: seq<State>, labels: seq<Label>, others: nat, s: State)
    returns (states': seq<State>, labels': seq<Label>)
    requires Run(states, labels, others + 2) && |states| == |labels| + 1
    requires states[|labels|] == WithSetters(s, SUnassigned(7), SUnassigned(8), others)
    requires s.taskExecuted && s.accepted == []
    ensures Run(states', labels', others + 2) && |states'| == |labels'| + 1
    ensures states'[|labels'|]
            == WithSetters(s.(taskExecuted := false, taskAssigned := true, task := 8, accepted := [8]),
                           SUnassigned(7), SIdle, others)
  {
    hide Run;
    var first := SUnassigned(7);
    SetterMoves(s, first, SUnassigned(8), others, SWon(8));
    var s3 := s.(taskExecuted := false, accepted := [8]);
    states', labels' := GoSetter(states, labels, others, s, first, SUnassigned(8), ExchangeExecuted(1),
                                 s3, first, SWon(8));
    SetterMoves(s3, first, SWon(8), others, SStored(8));
    var s4 := s3.(task := 8);
    states', labels' := GoSetter(states', labels', others, s3, first, SWon(8), StoreTask(1), s4, first, SStored(8));
    SetterMoves(s4, first, SStored(8), others, SIdle);
    states', labels' := GoSetter(states', labels', others, s4, first, SStored(8), SetAssigned(1),
                                 s4.(taskAssigned := true), first, SIdle);
  }

  /** A single setter is a necessary condition: with any number of setters from two on an accepted task can be lost. */
  lemma TwoSettersLoseATask(setters: nat) returns (states: seq<State>, labels: seq<Label>)
    requires 2 <= setters
    ensures Run(states, labels, setters) && Lost(states[|labels|])
    ensures states[|labels|].accepted == [8, 7] && states[|labels|].completed == [8]
  {
    hide Run;
    var others := setters - 2;
    states, labels := SecondSetterOvertakes(others);
    var s11 := State(true, true, false, 8, [], WMarked, DNone, [8], [8], [8]);
    SetterMoves(s11, SUnassigned(7), SIdle, others, SWon(7));
    var s12 := s11.(taskExecuted := false, accepted := [8, 7]);
    states, labels := GoSetter(states, labels, others, s11, SUnassigned(7), SIdle, ExchangeExecuted(0),
                               s12, SWon(7), SIdle);
    SetterMoves(s12, SWon(7), SIdle, others, SStored(7));
    var s13 := s12.(task := 7);
    states, labels := GoSetter(states, labels, others, s12, SWon(7), SIdle, StoreTask(0), s13, SStored(7), SIdle);
    SetterMoves(s13, SStored(7), SIdle, others, SIdle);
    states, labels := GoSetter(states, labels, others, s13, SStored(7), SIdle, SetAssigned(0), s13, SIdle, SIdle);
    var s14 := WithSetters(s13, SIdle, SIdle, others);
    states, labels := Go(states, labels, setters, s14, ClearAssigned, s14.(worker := WTop, taskAssigned := false));
  }

  /** A run with a single setter: a task is set, runs and completes, and after that the destructor ends the thread. */
  lemma ThreadServesAndQuits() returns (states: seq<State>, labels: seq<Label>)
    ensures Run(states, labels, 1) && |states| == |labels| + 1
    ensures states[|labels|].worker == WDone && states[|labels|].accepted == [7] == states[|labels|].completed
  {
    hide Run;
    var s0 := State(true, false, false, 0, [SIdle], WTop, DNone, [], [], []);
    states, labels := StartOne(s0);
    states, labels := Go(states, labels, 1, s0, TestAssigned(0, 7), s0.(setters := [SUnassigned(7)]));
    var s1 := s0.(taskExecuted := false, setters := [SWon(7)], accepted := [7]);
    states, labels := Go(states, labels, 1, s0.(setters := [SUnassigned(7)]), ExchangeExecuted(0), s1);
    var s2 := s1.(task := 7, setters := [SStored(7)]);
    states, labels := Go(states, labels, 1, s1, StoreTask(0), s2);
    var s3 := s2.(taskAssigned := true, setters := [SIdle]);
    states, labels := Go(states, labels, 1, s2, SetAssigned(0), s3);
    states, labels := WorkerServes(states, labels, 1, s3);
    states, labels := WorkerQuits(states, labels,
                                  s3.(worker := WMarked, taskExecuted := true, started := [7], completed := [7]));
  }

  lemma WorkerQuits(states: seq<State>, labels: seq<Label>, s: State)
    returns (states': seq<State>, labels': seq<Label>)
    requires Run(states, labels, 1) && |states| == |labels| + 1 && states[|labels|] == s
    requires s.worker == WMarked && s.destructor == DNone && s.setters == [SIdle]
    ensures Run(states', labels', 1) && |states'| == |labels'| + 1
    ensures states'[|labels'|] == s.(worker := WDone, taskAssigned := false, destructor := DJoining, threadQuit := true)
  {
    hide Run;
    var s1 := s.(worker := WTop, taskAssigned := false);
    states', labels' := Go(states, labels, 1, s, ClearAssigned, s1);
    states', labels' := Go(states', labels', 1, s1, BeginDestruction, s1.(destructor := DWaiting));
    var s2 := s1.(destructor := DJoining, threadQuit := true);
    states', labels' := Go(states', labels', 1, s1.(destructor := DWaiting), SetQuit, s2);
    states', labels' := Go(states', labels', 1, s2, TestQuit, s2.(worker := WDone));
  }

  lemma StartOne(s: State) returns (states: seq<State>, labels: seq<Label>)
    requires s == State(true, false, false, 0, [SIdle], WTop, DNone, [], [], [])
    ensures Run(states, labels, 1) && |states| == |labels| + 1 && states[|labels|] == s
  {
    assert seq(1, _ => SIdle) == [SIdle];
    states, labels := [s], [];
  }
}
