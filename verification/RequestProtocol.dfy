/** Request tasks, the cleanup thread and the producer at work on one latency buffer.
    Any number of tasks of the thread pool extract windows while the producer writes; the cleanup thread
    pops only after it has kept new tasks out and the last running one has left. A step makes at most one access
    whose outcome another thread may still change. For a task this is the load of the write index or of the run
    marker: while it is inside the guarded section nothing else that it reads moves. */
module RequestProtocol {
  import opened RingMath
  import opened RingBuffer
  import opened Elements
  import opened LowerBound
  import opened FragmentPieces
  import opened Cleanup

  datatype Config = Config(lay: Layout, popLimit: nat, popShare: real)

  datatype Producer = PIdle | PReserved | PConstructed(e: Element)

  datatype Window = Window(begin: nat, end: nat, sendPartial: bool)

  /** A request that has been classified: the window, and the positions of the oldest element and one past the
      newest element at that moment. */
  datatype Job = Job(win: Window, lo: nat, seen: nat)

  /** A task inside the guarded section. `at` is the position of the element its iterator names. `Refusing` is about to
      test whether the run goes on, `Waits` is going to put its request on the waiting list. The recorder
      enters the section for its search as one more task, `Recording`. */
  datatype Task =
    | Recording
    | Entered(win: Window)
    | Looked(win: Window)
    | Searching(job: Job)
    | Scanning(job: Job, index: nat, at: nat, pieces: seq<Piece>)
    | Advancing(job: Job, index: nat, at: nat, pieces: seq<Piece>)
    | Settling(job: Job, index: nat, at: nat, pieces: seq<Piece>)
    | Gathered(job: Job, at: nat, pieces: seq<Piece>)
    | Refusing(job: Job)
    | Waits(job: Job)
    | Built(job: Job, at: nat, fragment: seq<Frame>)

  /** `CFront` has found the queue not empty; `mark` is the watermark that allowed the pop. `CForgetting` is about to
      look at the front for the last time. */
  datatype Cleaner =
    | CIdle
    | CWaiting
    | CMeasuring
    | CSizing
    | CCleaning(toPop: nat, done: nat)
    | CFront(toPop: nat, done: nat)
    | CPopping(toPop: nat, done: nat, mark: nat)
    | CForgetting
    | CEnding

  datatype Delivery = Delivery(job: Job, at: nat, fragment: seq<Frame>)

  datatype State = State(
    slots: seq<Element>, read: nat, write: nat, written: seq<Element>, popped: nat,
    producer: Producer,
    tasks: map<nat, Task>, requestsRunning: int, cleanupRequested: bool,
    cleaner: Cleaner, watermark: nat, runMarker: bool,
    sent: seq<Delivery>)

  datatype Label =
    | Reserve | Construct(e: Element) | Publish
    | Enter(t: nat, win: Window) | EnterRecorder(t: nat)
    | Look(t: nat) | Classify(t: nat) | Search(t: nat, arithmetic: bool)
    | Scan(t: nat) | Advance(t: nat) | Settle(t: nat) | Build(t: nat) | TestRunMarker(t: nat) | Leave(t: nat)
    | RequestCleanup | EndWait | Measure | SizePops | LookAtFront | CheckFront | PopFront | LeaveLoop | Forget
    | EndCleanup
    | SetWatermark(ts: nat) | ClearRunMarker

  /** The mutex is held by the cleanup thread from the end of its wait to the end of the cleanup. */
  ghost predicate Locked(s: State) {
    s.cleaner != CIdle && s.cleaner != CWaiting
  }

  ghost predicate Init(s: State, c: Config) {
    && c.lay.Valid() && 0.0 <= c.popShare <= 1.0
    && 2 <= |s.slots| && s.read == 0 && s.write == 0 && s.written == [] && s.popped == 0
    && s.producer == PIdle && s.tasks == map[] && s.requestsRunning == 0 && !s.cleanupRequested
    && s.cleaner == CIdle && s.runMarker && s.sent == []
  }

  ghost predicate ProducerStep(s: State, c: Config, l: Label, s': State)
    requires Legal(s, c)
  {
    match l
    case Reserve =>
      s.producer == PIdle && Next(s.write, |s.slots|) != s.read && s' == s.(producer := PReserved)
    case Construct(e) =>
      && s.producer == PReserved
      && WellFormed(e, c.lay) && (s.written != [] ==> s.written[|s.written| - 1].ts < e.ts)
      && s' == s.(slots := s.slots[s.write := e], producer := PConstructed(e))
    case Publish =>
      && s.producer.PConstructed?
      && s' == s.(write := Next(s.write, |s.slots|), written := s.written + [s.producer.e], producer := PIdle)
    case _ => false
  }

  /** The slot of the newest element. */
  function BackSlot(write: nat, n: nat): (i: nat)
    requires write < n
    ensures i < n && Next(i, n) == write
  {
    if write == 0 then n - 1 else write - 1
  }

  /** The first branch of the classification: the window begins no earlier than the oldest element that was there,
      and ends no later than the newest one starts. */
  ghost predicate Covered(job: Job, written: seq<Element>) {
    && job.lo < job.seen <= |written|
    && written[job.lo].ts <= job.win.begin && job.win.end <= written[job.seen - 1].ts
  }

  /** The branches of the classification. */
  function Classified(s: State, win: Window): (task: Task)
    requires s.read < |s.slots| && s.write < |s.slots|
  {
    var front, newest := s.slots[s.read].ts, s.slots[BackSlot(s.write, |s.slots|)].ts;
    var job := Job(win, s.popped, |s.written|);
    if front <= win.begin && win.end <= newest then Searching(job)
    else if win.sendPartial && front <= win.end && win.end <= newest then Searching(job)
    else if !win.sendPartial && front > win.begin then Built(job, job.seen, [])
    else if win.sendPartial && front > win.end then Built(job, job.seen, [])
    else if newest < win.end then (if win.sendPartial then Searching(job) else Refusing(job))
    else Built(job, job.seen, [])
  }

  /** The search one element before the window, and what a miss leads to. */
  ghost function Searched(s: State, lay: Layout, job: Job, arithmetic: bool): (task: Task)
    requires lay.Valid() && 0 < |s.slots| && s.popped <= |s.written| && lay.Span() <= job.win.begin
  {
    var es, key := s.written[s.popped..], job.win.begin - lay.Span();
    if SearchMisses(es, key, lay, arithmetic) then
      (if Covered(job, s.written) then Refusing(job) else Built(job, |s.written|, []))
    else
      var at := s.popped + SearchPos(es, key, lay, arithmetic);
      Scanning(job, Slot(at, |s.slots|), at, [])
  }

  /** The head of the scan's loop and its body. */
  ghost function Scanned(s: State, lay: Layout, task: Task): (task': Task)
    requires lay.Valid() && task.Scanning? && task.index < |s.slots| && task.job.win.begin < TWO_TO_THE_64
  {
    var win, e := task.job.win, s.slots[task.index];
    if Good(task.index, s.read, s.write) && e.ts < win.end
    then Advancing(task.job, task.index, task.at,
                   task.pieces + ElementPieces(e, task.index, win.begin, win.end, lay))
    else Gathered(task.job, task.at, task.pieces)
  }

  /** What one step does to the task that takes it. */
  ghost predicate TaskMove(s: State, c: Config, l: Label, task: Task, task': Task)
    requires Legal(s, c)
  {
    var n := |s.slots|;
    match l
    case Look(_) =>
      && task.Entered?
      && task' == if s.read == s.write then Built(Job(task.win, s.popped, |s.written|), |s.written|, [])
                  else Looked(task.win)
    case Classify(_) => task.Looked? && task' == Classified(s, task.win)
    case Search(_, arithmetic) =>
      && task.Searching? && s.popped <= |s.written| && c.lay.Span() <= task.job.win.begin
      && (arithmetic ==> GapFree(s.written[s.popped..], c.lay))
      && task' == Searched(s, c.lay, task.job, arithmetic)
    case Scan(_) =>
      && task.Scanning? && task.index < n && task.job.win.begin < TWO_TO_THE_64
      && task' == Scanned(s, c.lay, task)
    case Advance(_) =>
      // operator++: forward if good ...
      && task.Advancing? && task.index < n
      && task' == if Good(task.index, s.read, s.write)
                  then Settling(task.job, Next(task.index, n), task.at + 1, task.pieces)
                  else Settling(task.job, task.index, task.at, task.pieces)
    case Settle(_) =>
      // ... and off the end if not good
      && task.Settling?
      && task' == if Good(task.index, s.read, s.write) then Scanning(task.job, task.index, task.at, task.pieces)
                  else Gathered(task.job, task.at, task.pieces)
    case Build(_) =>
      && task.Gathered? && AllFit(task.pieces, s.slots)
      && task' == Built(task.job, task.at, Deref(task.pieces, s.slots))
    case TestRunMarker(_) =>
      // without a run going on the request is answered, with no data
      && task.Refusing?
      && task' == if s.runMarker then Waits(task.job) else Built(task.job, |s.written|, [])
    case _ => false
  }

  ghost predicate TaskStep(s: State, c: Config, l: Label, s': State)
    requires Legal(s, c)
  {
    match l
    case Enter(t, win) =>
      && t !in s.tasks && !s.cleanupRequested && !Locked(s)
      && c.lay.Span() <= win.begin < TWO_TO_THE_64
      && s' == s.(tasks := s.tasks[t := Entered(win)], requestsRunning := s.requestsRunning + 1)
    case EnterRecorder(t) =>
      && t !in s.tasks && !s.cleanupRequested && !Locked(s)
      && s' == s.(tasks := s.tasks[t := Recording], requestsRunning := s.requestsRunning + 1)
    case Leave(t) =>
      && t in s.tasks && !Locked(s) && (s.tasks[t].Built? || s.tasks[t].Waits? || s.tasks[t].Recording?)
      && s' == s.(tasks := s.tasks - {t}, requestsRunning := s.requestsRunning - 1,
                  sent := if s.tasks[t].Built?
                          then s.sent + [Delivery(s.tasks[t].job, s.tasks[t].at, s.tasks[t].fragment)] else s.sent)
    case Look(_) | Classify(_) | Search(_, _) | Scan(_) | Advance(_) | Settle(_) | Build(_) | TestRunMarker(_) =>
      && l.t in s.tasks && l.t in s'.tasks
      && TaskMove(s, c, l, s.tasks[l.t], s'.tasks[l.t])
      && s' == s.(tasks := s.tasks[l.t := s'.tasks[l.t]])
    case _ => false
  }

  ghost predicate CleanerStep(s: State, c: Config, l: Label, s': State)
    requires Legal(s, c)
  {
    var occupancy := Distance(s.read, s.write, |s.slots|);
    match l
    case RequestCleanup =>
      && s.cleaner == CIdle && occupancy > c.popLimit && !s.cleanupRequested
      && s' == s.(cleanupRequested := true, cleaner := CWaiting)
    case EndWait => s.cleaner == CWaiting && s.requestsRunning == 0 && s' == s.(cleaner := CMeasuring)
    case Measure =>
      s.cleaner == CMeasuring && s' == s.(cleaner := if occupancy > c.popLimit then CSizing else CEnding)
    case SizePops => s.cleaner == CSizing && s' == s.(cleaner := CCleaning(Share(c.popShare, occupancy), 0))
    case LookAtFront =>
      && s.cleaner.CCleaning? && s.cleaner.done < s.cleaner.toPop && s.read != s.write
      && s' == s.(cleaner := CFront(s.cleaner.toPop, s.cleaner.done))
    case CheckFront =>
      && s.cleaner.CFront?
      && s' == s.(cleaner := if s.slots[s.read].ts < s.watermark
                             then CPopping(s.cleaner.toPop, s.cleaner.done, s.watermark) else CForgetting)
    case PopFront =>
      && s.cleaner.CPopping?
      && s' == s.(read := Next(s.read, |s.slots|), popped := s.popped + 1,
                  cleaner := CCleaning(s.cleaner.toPop, s.cleaner.done + 1))
    case LeaveLoop =>
      s.cleaner.CCleaning? && s.cleaner.done >= s.cleaner.toPop && s' == s.(cleaner := CForgetting)
    case Forget => s.cleaner == CForgetting && s.read != s.write && s' == s.(cleaner := CEnding)
    case EndCleanup => s.cleaner == CEnding && s' == s.(cleanupRequested := false, cleaner := CIdle)
    case _ => false
  }

  ghost predicate Step(s: State, c: Config, l: Label, s': State)
    requires Legal(s, c)
  {
    || ProducerStep(s, c, l, s')
    || TaskStep(s, c, l, s')
    || CleanerStep(s, c, l, s')
    || (l.SetWatermark? && s' == s.(watermark := l.ts))
    || (l.ClearRunMarker? && s' == s.(runMarker := false))
  }

  ghost predicate Legal(s: State, c: Config) {
    c.lay.Valid() && 0.0 <= c.popShare <= 1.0 && s.read < |s.slots| && s.write < |s.slots|
  }

  // ---------------------------------------------------------------- the invariant

  ghost predicate ProducerInv(s: State)
    requires s.write < |s.slots|
  {
    && (s.producer != PIdle ==> |s.written| - s.popped < |s.slots| - 1)
    && (s.producer.PConstructed? ==> s.slots[s.write] == s.producer.e)
  }

  /** What the producer still has to publish fits behind what is written. */
  ghost predicate DataInv(s: State, lay: Layout)
    requires lay.Valid()
  {
    && Increasing(s.written) && AllWellFormed(s.written, lay)
    && (s.producer.PConstructed? ==>
          && WellFormed(s.producer.e, lay)
          && (s.written != [] ==> s.written[|s.written| - 1].ts < s.producer.e.ts))
  }

  ghost predicate GuardInv(s: State) {
    && s.requestsRunning == |s.tasks|
    && (s.cleanupRequested <==> s.cleaner != CIdle)
    && (Locked(s) ==> s.tasks == map[])
  }

  /** There is enough left for the pops to come and, when the share is below one, an element more. */
  ghost predicate CleanerInv(s: State, popShare: real) {
    && (s.cleaner == CSizing ==> s.popped < |s.written|)
    && (s.cleaner.CCleaning? || s.cleaner.CFront? || s.cleaner.CPopping? ==>
          && s.cleaner.done <= s.cleaner.toPop
          && s.cleaner.toPop - s.cleaner.done <= |s.written| - s.popped
          && (popShare < 1.0 ==> s.cleaner.toPop - s.cleaner.done < |s.written| - s.popped))
    && (s.cleaner.CFront? || s.cleaner.CPopping? ==> s.cleaner.done < s.cleaner.toPop)
    && (s.cleaner.CPopping? ==> s.popped < |s.written| && s.written[s.popped].ts < s.cleaner.mark)
    && (s.cleaner == CForgetting && popShare < 1.0 ==> s.popped < |s.written|)
  }

  /** The frames of the elements at positions `lo` to `hi - 1` that overlap the window. */
  ghost function Overlap(written: seq<Element>, lo: nat, hi: nat, win: Window, tick: nat): (fs: seq<Frame>)
    requires lo <= hi <= |written|
  {
    FramesInWindow(AllFrames(written[lo..hi]), win.begin, win.end, tick)
  }

  ghost predicate JobInv(job: Job, written: seq<Element>, lay: Layout)
    requires lay.Valid()
  {
    lay.Span() <= job.win.begin < TWO_TO_THE_64 && job.lo <= job.seen <= |written|
  }

  /** The request is given data: the oldest element that was there ends no later than the window begins, and either
      the newest one reaches the window's end, or a partial answer is wanted and not all of it was gone. */
  ghost predicate Due(job: Job, written: seq<Element>, lay: Layout)
    requires lay.Valid()
  {
    && job.lo < job.seen <= |written|
    && written[job.lo].ts + lay.Span() <= job.win.begin
    && (job.win.end <= written[job.seen - 1].ts || (job.win.sendPartial && written[job.lo].ts <= job.win.end))
  }

  /** The request may be told to wait: its window was covered, but began inside the oldest element (or, though it
      ended earlier than that, later than the newest one), or data at its end was missing. */
  ghost predicate MayWait(job: Job, written: seq<Element>, lay: Layout)
    requires lay.Valid()
  {
    && job.lo < job.seen <= |written|
    && if Covered(job, written) then
         written[job.lo].ts + lay.Span() <= job.win.begin ==> written[job.seen - 1].ts + lay.Span() <= job.win.begin
       else
         !job.win.sendPartial && written[job.lo].ts <= job.win.begin
  }

  /** The pieces name live slots and hold the overlap of the elements before position `at`. */
  ghost predicate PiecesInv(pieces: seq<Piece>, slots: seq<Element>, read: nat, write: nat,
                            written: seq<Element>, job: Job, at: nat, tick: nat) {
    && job.lo <= at <= |written|
    && AllFit(pieces, slots)
    && (forall p :: p in pieces ==> Good(p.slot, read, write))
    && Deref(pieces, slots) == Overlap(written, job.lo, at, job.win, tick)
  }

  /** The scan stopped at the end of the window or at the end of the data, and not before the end of the
      data that was there when the request was classified. */
  ghost predicate Finished(job: Job, written: seq<Element>, at: nat) {
    job.seen <= at || (at < |written| && job.win.end <= written[at].ts)
  }

  ghost predicate TaskInv(task: Task, slots: seq<Element>, read: nat, write: nat, written: seq<Element>,
                          popped: nat, lay: Layout)
    requires lay.Valid()
  {
    match task
    case Recording => true
    case Entered(win) => lay.Span() <= win.begin < TWO_TO_THE_64
    case Looked(win) => lay.Span() <= win.begin < TWO_TO_THE_64 && popped < |written|
    case Searching(job) =>
      && JobInv(job, written, lay) && job.lo == popped < job.seen
      && (Covered(job, written) || (job.win.sendPartial && written[job.lo].ts <= job.win.end))
    case Scanning(job, index, at, pieces) =>
      && JobInv(job, written, lay) && job.lo == popped && Due(job, written, lay)
      && 0 < |slots| && index == Slot(at, |slots|)
      && PiecesInv(pieces, slots, read, write, written, job, at, lay.tick)
    case Advancing(job, index, at, pieces) =>
      && JobInv(job, written, lay) && job.lo == popped && Due(job, written, lay)
      && 0 < |slots| && index == Slot(at, |slots|) && popped <= at < |written|
      && PiecesInv(pieces, slots, read, write, written, job, at + 1, lay.tick)
    case Settling(job, index, at, pieces) =>
      && JobInv(job, written, lay) && job.lo == popped && Due(job, written, lay)
      && 0 < |slots| && index == Slot(at, |slots|)
      && PiecesInv(pieces, slots, read, write, written, job, at, lay.tick)
    case Gathered(job, at, pieces) =>
      && JobInv(job, written, lay) && job.lo == popped && Due(job, written, lay)
      && PiecesInv(pieces, slots, read, write, written, job, at, lay.tick)
      && Finished(job, written, at)
    case Refusing(job) => JobInv(job, written, lay) && MayWait(job, written, lay)
    case Waits(job) => JobInv(job, written, lay) && MayWait(job, written, lay)
    case Built(job, at, fragment) => Answered(job, written, at, fragment, lay)
  }

  /** An answer holds the overlap of a scan that was finished when the request is given data, and else nothing. */
  ghost predicate Answered(job: Job, written: seq<Element>, at: nat, fragment: seq<Frame>, lay: Layout)
    requires lay.Valid()
  {
    && JobInv(job, written, lay)
    && job.lo <= at <= |written|
    && if Due(job, written, lay) then
         Finished(job, written, at) && fragment == Overlap(written, job.lo, at, job.win, lay.tick)
       else fragment == []
  }

  ghost predicate TasksInv(tasks: map<nat, Task>, slots: seq<Element>, read: nat, write: nat,
                           written: seq<Element>, popped: nat, lay: Layout)
    requires lay.Valid()
  {
    forall t :: t in tasks ==> TaskInv(tasks[t], slots, read, write, written, popped, lay)
  }

  ghost predicate SentInv(sent: seq<Delivery>, written: seq<Element>, lay: Layout)
    requires lay.Valid()
  {
    forall i :: 0 <= i < |sent| ==> Answered(sent[i].job, written, sent[i].at, sent[i].fragment, lay)
  }

  ghost predicate Inv(s: State, c: Config) {
    && Legal(s, c)
    && Ring(s.slots, s.read, s.write, s.written, s.popped)
    && ProducerInv(s)
    && DataInv(s, c.lay)
    && GuardInv(s)
    && CleanerInv(s, c.popShare)
    && TasksInv(s.tasks, s.slots, s.read, s.write, s.written, s.popped, c.lay)
    && SentInv(s.sent, s.written, c.lay)
  }

  lemma InitInv(s: State, c: Config)
    requires Init(s, c)
    ensures Inv(s, c)
  {
  }

  // ---------------------------------------------------------------- the producer

  /** Constructing at the write index disturbs no task: its pieces name good slots, and that slot is not good. */
  lemma TaskAfterConstruct(task: Task, slots: seq<Element>, read: nat, write: nat, written: seq<Element>,
                           popped: nat, lay: Layout, e: Element)
    requires lay.Valid() && write < |slots|
    requires TaskInv(task, slots, read, write, written, popped, lay)
    ensures TaskInv(task, slots[write := e], read, write, written, popped, lay)
  {
    hide Slot, JobInv, Due, MayWait, Covered, Finished, Overlap, Deref;
    if task.Scanning? || task.Advancing? || task.Settling? || task.Gathered? {
      assert forall p :: p in task.pieces ==> Fits(p, slots) && p.slot != write;
      DerefFrame(task.pieces, slots, slots[write := e]);
    }
  }

  lemma OverlapOfPrefix(written: seq<Element>, e: Element, lo: nat, hi: nat, win: Window, tick: nat)
    requires lo <= hi <= |written|
    ensures Overlap(written + [e], lo, hi, win, tick) == Overlap(written, lo, hi, win, tick)
  {
    assert (written + [e])[lo..hi] == written[lo..hi];
  }

  /** What was found out about a request stays true when elements are added. */
  lemma JobAfterPublish(job: Job, written: seq<Element>, lay: Layout, e: Element)
    requires lay.Valid() && JobInv(job, written, lay)
    ensures JobInv(job, written + [e], lay)
    ensures Due(job, written + [e], lay) <==> Due(job, written, lay)
    ensures MayWait(job, written + [e], lay) <==> MayWait(job, written, lay)
    ensures Covered(job, written + [e]) <==> Covered(job, written)
  {
    hide Layout.Span;
  }

  lemma AnsweredAfterPublish(job: Job, written: seq<Element>, at: nat, fragment: seq<Frame>, lay: Layout, e: Element)
    requires lay.Valid() && Answered(job, written, at, fragment, lay)
    ensures Answered(job, written + [e], at, fragment, lay)
  {
    hide JobInv, Due, MayWait, Overlap, Layout.Span;
    JobAfterPublish(job, written, lay, e);
    OverlapOfPrefix(written, e, job.lo, at, job.win, lay.tick);
  }

  /** Publishing an element disturbs no task: good slots stay good and earlier positions keep their elements. */
  lemma TaskAfterPublish(task: Task, slots: seq<Element>, read: nat, write: nat, written: seq<Element>,
                         popped: nat, lay: Layout, e: Element)
    requires lay.Valid() && write < |slots|
    requires Ring(slots, read, write, written, popped) && |written| - popped < |slots| - 1
    requires TaskInv(task, slots, read, write, written, popped, lay)
    ensures TaskInv(task, slots, read, Next(write, |slots|), written + [e], popped, lay)
  {
    hide Deref, Slot, Due, MayWait, Covered, Layout.Span;
    if !task.Recording? && !task.Entered? && !task.Looked? {
      assert JobInv(task.job, written, lay) by { TaskHasJob(task, slots, read, write, written, popped, lay); }
      JobAfterPublish(task.job, written, lay, e);
    }
    if task.Built? {
      AnsweredAfterPublish(task.job, written, task.at, task.fragment, lay, e);
    } else if task.Scanning? || task.Advancing? || task.Settling? || task.Gathered? {
      var hi := if task.Advancing? then task.at + 1 else task.at;
      OverlapOfPrefix(written, e, task.job.lo, hi, task.job.win, lay.tick);
      forall p | p in task.pieces
        ensures Good(p.slot, read, Next(write, |slots|))
      {
        assert Fits(p, slots);
        GoodAfterPublish(slots, read, write, written, popped, p.slot);
      }
      hide Overlap, Ring;
      assert TaskInv(task, slots, read, Next(write, |slots|), written + [e], popped, lay);
    }
  }

  lemma TaskHasJob(task: Task, slots: seq<Element>, read: nat, write: nat, written: seq<Element>, popped: nat,
                   lay: Layout)
    requires lay.Valid() && TaskInv(task, slots, read, write, written, popped, lay)
    requires !task.Recording? && !task.Entered? && !task.Looked?
    ensures JobInv(task.job, written, lay)
  {
    hide PiecesInv, Due, MayWait, Covered;
  }

  lemma DataAfterPublish(written: seq<Element>, e: Element, lay: Layout)
    requires lay.Valid() && Increasing(written) && AllWellFormed(written, lay) && WellFormed(e, lay)
    requires written != [] ==> written[|written| - 1].ts < e.ts
    ensures Increasing(written + [e]) && AllWellFormed(written + [e], lay)
  {
    hide WellFormed;
    forall i, j | 0 <= i < j < |written + [e]|
      ensures (written + [e])[i].ts < (written + [e])[j].ts
    {
      if j == |written| {
        assert written[i].ts <= written[|written| - 1].ts;
      }
    }
  }

  lemma ReserveInv(s: State, c: Config, s': State)
    requires Inv(s, c) && ProducerStep(s, c, Reserve, s')
    ensures Inv(s', c)
  {
    hide Ring, TaskInv, SentInv, DataInv, TasksInv, CleanerInv;
    RingCount(s.slots, s.read, s.write, s.written, s.popped);
    assert DataInv(s', c.lay) by { DataUnchanged(s, s', c.lay); }
    assert CleanerInv(s', c.popShare) by { CleanerUnchanged(s, s', c.popShare); }
  }

  lemma DataUnchanged(s: State, s': State, lay: Layout)
    requires lay.Valid() && DataInv(s, lay) && s'.written == s.written
    requires s'.producer.PConstructed? ==>
               && WellFormed(s'.producer.e, lay)
               && (s.written != [] ==> s.written[|s.written| - 1].ts < s'.producer.e.ts)
    ensures DataInv(s', lay)
  {
  }

  lemma CleanerUnchanged(s: State, s': State, popShare: real)
    requires CleanerInv(s, popShare) && s'.cleaner == s.cleaner && s'.popped == s.popped && s.written <= s'.written
    ensures CleanerInv(s', popShare)
  {
  }

  lemma ConstructInv(s: State, c: Config, e: Element, s': State)
    requires Inv(s, c) && ProducerStep(s, c, Construct(e), s')
    ensures Inv(s', c)
  {
    hide Ring, TaskInv, SentInv, DataInv, CleanerInv, WellFormed;
    RingConstruct(s.slots, s.read, s.write, s.written, s.popped, e);
    assert DataInv(s', c.lay) by { DataUnchanged(s, s', c.lay); }
    assert CleanerInv(s', c.popShare) by { CleanerUnchanged(s, s', c.popShare); }
    forall t | t in s'.tasks
      ensures TaskInv(s'.tasks[t], s'.slots, s'.read, s'.write, s'.written, s'.popped, c.lay)
    {
      TaskAfterConstruct(s.tasks[t], s.slots, s.read, s.write, s.written, s.popped, c.lay, e);
    }
  }

  lemma PublishInv(s: State, c: Config, s': State)
    requires Inv(s, c) && ProducerStep(s, c, Publish, s')
    ensures Inv(s', c)
  {
    hide Ring, TaskInv, Answered, Increasing, AllWellFormed, WellFormed, CleanerInv;
    var e := s.producer.e;
    RingPublish(s.slots, s.read, s.write, s.written, s.popped, e);
    DataAfterPublish(s.written, e, c.lay);
    assert CleanerInv(s', c.popShare) by { CleanerUnchanged(s, s', c.popShare); }
    forall t | t in s'.tasks
      ensures TaskInv(s'.tasks[t], s'.slots, s'.read, s'.write, s'.written, s'.popped, c.lay)
    {
      TaskAfterPublish(s.tasks[t], s.slots, s.read, s.write, s.written, s.popped, c.lay, e);
    }
    forall i | 0 <= i < |s'.sent|
      ensures Answered(s'.sent[i].job, s'.written, s'.sent[i].at, s'.sent[i].fragment, c.lay)
    {
      AnsweredAfterPublish(s.sent[i].job, s.written, s.sent[i].at, s.sent[i].fragment, c.lay, e);
    }
  }

  lemma ProducerStepInv(s: State, c: Config, l: Label, s': State)
    requires Inv(s, c) && ProducerStep(s, c, l, s')
    ensures Inv(s', c)
  {
    hide Inv;
    if l.Reserve? {
      ReserveInv(s, c, s');
    } else if l.Construct? {
      ConstructInv(s, c, l.e, s');
    } else {
      PublishInv(s, c, s');
    }
  }

  // ---------------------------------------------------------------- the tasks

  lemma OverlapEmpty(written: seq<Element>, lo: nat, hi: nat, win: Window, lay: Layout)
    requires lay.Valid() && lo <= hi <= |written| && AllWellFormed(written, lay)
    requires forall k :: lo <= k < hi ==> written[k].ts + lay.Span() <= win.begin || win.end <= written[k].ts
    ensures Overlap(written, lo, hi, win, lay.tick) == []
    decreases hi
  {
    if lo < hi {
      OverlapEmpty(written, lo, hi - 1, win, lay);
      OverlapNext(written, lo, hi - 1, win, lay);
    } else {
      assert written[lo..hi] == [];
    }
  }

  /** One more position adds the frames of its element that overlap the window, none if it lies outside. */
  lemma OverlapNext(written: seq<Element>, lo: nat, at: nat, win: Window, lay: Layout)
    requires lay.Valid() && lo <= at < |written| && AllWellFormed(written, lay)
    ensures Overlap(written, lo, at + 1, win, lay.tick)
            == Overlap(written, lo, at, win, lay.tick)
               + FramesInWindow(written[at].frames, win.begin, win.end, lay.tick)
    ensures written[at].ts + lay.Span() <= win.begin || win.end <= written[at].ts
            ==> Overlap(written, lo, at + 1, win, lay.tick) == Overlap(written, lo, at, win, lay.tick)
  {
    assert written[lo..at + 1] == written[lo..at] + [written[at]];
    AllFramesAppend(written[lo..at], written[at]);
    FramesInWindowConcat(AllFrames(written[lo..at]), written[at].frames, win.begin, win.end, lay.tick);
    if written[at].ts + lay.Span() <= win.begin || win.end <= written[at].ts {
      WellFormedInSpan(written[at], lay);
      NoneInWindow(written[at].frames, win.begin, win.end, lay.tick);
    }
  }

  lemma LookInv(s: State, c: Config, t: nat, task: Task, task': Task)
    requires Inv(s, c) && TaskMove(s, c, Look(t), task, task')
    requires TaskInv(task, s.slots, s.read, s.write, s.written, s.popped, c.lay)
    ensures TaskInv(task', s.slots, s.read, s.write, s.written, s.popped, c.lay)
  {
    hide TasksInv, SentInv, DataInv, Layout.Span;
    RingCount(s.slots, s.read, s.write, s.written, s.popped);
  }

  /** The two slots looked at are those of the oldest and of the newest element. */
  lemma EndsOfRing(s: State)
    requires Ring(s.slots, s.read, s.write, s.written, s.popped) && s.popped < |s.written| && s.write < |s.slots|
    ensures s.read < |s.slots| && s.slots[s.read] == s.written[s.popped]
    ensures s.slots[BackSlot(s.write, |s.slots|)] == s.written[|s.written| - 1]
  {
    RingCount(s.slots, s.read, s.write, s.written, s.popped);
    RingAt(s.slots, s.read, s.write, s.written, s.popped, |s.written| - 1);
    NextSlot(|s.written| - 1, |s.slots|);
  }

  lemma ClassifyInv(s: State, c: Config, t: nat, task: Task, task': Task)
    requires Inv(s, c) && TaskMove(s, c, Classify(t), task, task')
    requires TaskInv(task, s.slots, s.read, s.write, s.written, s.popped, c.lay)
    ensures TaskInv(task', s.slots, s.read, s.write, s.written, s.popped, c.lay)
  {
    hide Ring, TasksInv, SentInv, AllWellFormed, Layout.Span, BackSlot, Overlap;
    EndsOfRing(s);
    assert s.written[s.popped].ts <= s.written[|s.written| - 1].ts;
  }

  /** A search that misses although the window begins after the oldest element has found nothing buffered that ends
      after its begin. */
  lemma MissIsBeyond(es: seq<Element>, key: nat, lay: Layout, arithmetic: bool)
    requires lay.Valid() && es != [] && SearchMisses(es, key, lay, arithmetic) && es[0].ts <= key
    requires arithmetic ==> GapFree(es, lay)
    ensures forall i :: 0 <= i < |es| ==> es[i].ts + lay.Span() <= key
  {
    hide Layout.Span;
    forall i | 0 <= i < |es|
      ensures es[i].ts + lay.Span() <= key
    {
      GapFreeAt(es, lay, i);
      MulMono(i + 1, |es|, lay.Span());
      assert (i + 1) * lay.Span() == i * lay.Span() + lay.Span();
    }
  }

  lemma MissInv(s: State, c: Config, t: nat, arithmetic: bool, task: Task, task': Task)
    requires Inv(s, c) && TaskMove(s, c, Search(t, arithmetic), task, task') && !task'.Scanning?
    requires TaskInv(task, s.slots, s.read, s.write, s.written, s.popped, c.lay)
    ensures TaskInv(task', s.slots, s.read, s.write, s.written, s.popped, c.lay)
  {
    hide Ring, TasksInv, SentInv, ProducerInv, GuardInv, CleanerInv, GapFree, SearchMisses, Overlap, Layout.Span;
    hide SearchPos, WellFormed, Increasing;
    var job, es, key := task.job, s.written[s.popped..], task.job.win.begin - c.lay.Span();
    assert es[0] == s.written[job.lo];
    if es[0].ts <= key {
      MissIsBeyond(es, key, c.lay, arithmetic);
      assert forall k :: job.lo <= k < |s.written| ==> s.written[k] == es[k - job.lo];
      OverlapEmpty(s.written, job.lo, |s.written|, job.win, c.lay);
    }
  }

  lemma SearchInv(s: State, c: Config, t: nat, arithmetic: bool, task: Task, task': Task)
    requires Inv(s, c) && TaskMove(s, c, Search(t, arithmetic), task, task')
    requires TaskInv(task, s.slots, s.read, s.write, s.written, s.popped, c.lay)
    ensures TaskInv(task', s.slots, s.read, s.write, s.written, s.popped, c.lay)
  {
    hide Ring, TasksInv, SentInv, ProducerInv, GuardInv, CleanerInv, GapFree, SearchPos, Overlap, Layout.Span, Deref;
    hide WellFormed, Increasing, Slot;
    if task'.Scanning? {
      var job, es := task.job, s.written[s.popped..];
      SearchPosStarts(es, job.win.begin, c.lay, arithmetic);
      forall k | s.popped <= k < task'.at
        ensures s.written[k].ts + c.lay.Span() <= job.win.begin
      {
        assert s.written[k] == es[k - s.popped];
      }
      assert es[0] == s.written[job.lo];
      OverlapEmpty(s.written, job.lo, task'.at, job.win, c.lay);
      DerefNothing(s.slots);
    } else {
      MissInv(s, c, t, arithmetic, task, task');
    }
  }

  /** The pieces taken from the element at `at` extend the overlap by that position. */
  lemma ScanBody(pieces: seq<Piece>, slots: seq<Element>, read: nat, write: nat, written: seq<Element>,
                 job: Job, index: nat, at: nat, lay: Layout)
    requires lay.Valid() && AllWellFormed(written, lay) && lay.Span() <= job.win.begin < TWO_TO_THE_64
    requires PiecesInv(pieces, slots, read, write, written, job, at, lay.tick)
    requires at < |written| && index < |slots| && slots[index] == written[at] && Good(index, read, write)
    ensures PiecesInv(pieces + ElementPieces(slots[index], index, job.win.begin, job.win.end, lay),
                      slots, read, write, written, job, at + 1, lay.tick)
  {
    hide Good, Layout.Span, ElementPieces, WellFormed, Overlap, Deref, FramesInWindow;
    OverlapNext(written, job.lo, at, job.win, lay);
    ElementPiecesAreFilter(slots, index, job.win.begin, job.win.end, lay);
    var more := ElementPieces(slots[index], index, job.win.begin, job.win.end, lay);
    DerefConcat(pieces, more, slots);
  }

  lemma ScanInv(s: State, c: Config, t: nat, task: Task, task': Task)
    requires Inv(s, c) && TaskMove(s, c, Scan(t), task, task')
    requires TaskInv(task, s.slots, s.read, s.write, s.written, s.popped, c.lay)
    ensures TaskInv(task', s.slots, s.read, s.write, s.written, s.popped, c.lay)
  {
    hide Ring, Good, Slot, ElementPieces, PiecesInv, ProducerInv, GuardInv, CleanerInv, TasksInv, SentInv;
    PiecesBounds(task.pieces, s.slots, s.read, s.write, s.written, task.job, task.at, c.lay.tick);
    GoodIffWritten(s.slots, s.read, s.write, s.written, s.popped, task.at);
    if task'.Advancing? {
      ScanBody(task.pieces, s.slots, s.read, s.write, s.written, task.job, task.index, task.at, c.lay);
    }
  }

  lemma PiecesBounds(pieces: seq<Piece>, slots: seq<Element>, read: nat, write: nat, written: seq<Element>,
                     job: Job, at: nat, tick: nat)
    requires PiecesInv(pieces, slots, read, write, written, job, at, tick)
    ensures job.lo <= at <= |written|
  {
  }

  lemma AdvanceInv(s: State, c: Config, t: nat, task: Task, task': Task)
    requires Inv(s, c) && TaskMove(s, c, Advance(t), task, task')
    requires TaskInv(task, s.slots, s.read, s.write, s.written, s.popped, c.lay)
    ensures TaskInv(task', s.slots, s.read, s.write, s.written, s.popped, c.lay)
  {
    hide Good, Slot, Overlap, Deref, AllFit, ProducerInv, DataInv, GuardInv, CleanerInv, TasksInv, SentInv, Ring;
    hide Due, JobInv;
    GoodIffWritten(s.slots, s.read, s.write, s.written, s.popped, task.at);
    NextSlot(task.at, |s.slots|);
  }

  lemma SettleInv(s: State, c: Config, t: nat, task: Task, task': Task)
    requires Inv(s, c) && TaskMove(s, c, Settle(t), task, task')
    requires TaskInv(task, s.slots, s.read, s.write, s.written, s.popped, c.lay)
    ensures TaskInv(task', s.slots, s.read, s.write, s.written, s.popped, c.lay)
  {
    hide Good, Slot, Overlap, Deref, AllFit, ProducerInv, DataInv, GuardInv, CleanerInv, TasksInv, SentInv, Ring;
    hide Due;
    GoodIffWritten(s.slots, s.read, s.write, s.written, s.popped, task.at);
  }

  /** A request that is refused when it might have waited is owed nothing. */
  lemma TestRunMarkerInv(s: State, c: Config, t: nat, task: Task, task': Task)
    requires Inv(s, c) && TaskMove(s, c, TestRunMarker(t), task, task')
    requires TaskInv(task, s.slots, s.read, s.write, s.written, s.popped, c.lay)
    ensures TaskInv(task', s.slots, s.read, s.write, s.written, s.popped, c.lay)
  {
    hide Ring, TasksInv, SentInv, ProducerInv, GuardInv, CleanerInv, Overlap, WellFormed, Layout.Span;
    var job, last := task.job, task.job.seen - 1;
    if Due(job, s.written, c.lay) {
      forall k | job.lo <= k < |s.written|
        ensures s.written[k].ts + c.lay.Span() <= job.win.begin || job.win.end <= s.written[k].ts
      {
        if k < last {
          assert s.written[k].ts < s.written[last].ts;
        } else if last < k {
          assert s.written[last].ts < s.written[k].ts;
        }
      }
      OverlapEmpty(s.written, job.lo, |s.written|, job.win, c.lay);
    }
  }

  lemma TaskMoveInv(s: State, c: Config, l: Label, task: Task, task': Task)
    requires Inv(s, c) && TaskMove(s, c, l, task, task')
    requires TaskInv(task, s.slots, s.read, s.write, s.written, s.popped, c.lay)
    ensures TaskInv(task', s.slots, s.read, s.write, s.written, s.popped, c.lay)
  {
    hide Inv, TaskInv;
    match l {
      case Look(t) => LookInv(s, c, t, task, task');
      case Classify(t) => ClassifyInv(s, c, t, task, task');
      case Search(t, arithmetic) => SearchInv(s, c, t, arithmetic, task, task');
      case Scan(t) => ScanInv(s, c, t, task, task');
      case Advance(t) => AdvanceInv(s, c, t, task, task');
      case Settle(t) => SettleInv(s, c, t, task, task');
      case Build(t) => BuildInv(s, c, t, task, task');
      case TestRunMarker(t) => TestRunMarkerInv(s, c, t, task, task');
    }
  }

  lemma BuildInv(s: State, c: Config, t: nat, task: Task, task': Task)
    requires Inv(s, c) && TaskMove(s, c, Build(t), task, task')
    requires TaskInv(task, s.slots, s.read, s.write, s.written, s.popped, c.lay)
    ensures TaskInv(task', s.slots, s.read, s.write, s.written, s.popped, c.lay)
  {
  }

  lemma EnterInv(s: State, c: Config, l: Label, s': State)
    requires Inv(s, c) && TaskStep(s, c, l, s') && (l.Enter? || l.EnterRecorder?)
    ensures Inv(s', c)
  {
    hide Ring, TaskInv, SentInv, DataInv, CleanerInv, ProducerInv, TaskMove;
    EnteredInv(s'.tasks[l.t], s.slots, s.read, s.write, s.written, s.popped, c.lay);
    assert s'.tasks.Keys == s.tasks.Keys + {l.t};
    assert |s'.tasks| == |s'.tasks.Keys| && |s.tasks| == |s.tasks.Keys|;
    Unmoved(s, c, s');
  }

  lemma LeaveInv(s: State, c: Config, t: nat, s': State)
    requires Inv(s, c) && TaskStep(s, c, Leave(t), s')
    ensures Inv(s', c)
  {
    hide Ring, TaskInv, Answered, DataInv, CleanerInv, ProducerInv, TaskMove;
    if s.tasks[t].Built? {
      LeaveBuilt(s.tasks[t], s.slots, s.read, s.write, s.written, s.popped, c.lay);
    }
    assert s'.tasks.Keys == s.tasks.Keys - {t};
    assert |s'.tasks| == |s'.tasks.Keys| && |s.tasks| == |s.tasks.Keys|;
    Unmoved(s, c, s');
  }

  lemma MoveInv(s: State, c: Config, l: Label, s': State)
    requires Inv(s, c) && TaskStep(s, c, l, s') && !l.Enter? && !l.EnterRecorder? && !l.Leave?
    ensures Inv(s', c)
  {
    hide Ring, TaskInv, SentInv, DataInv, CleanerInv, ProducerInv, TaskMove;
    TaskMoveInv(s, c, l, s.tasks[l.t], s'.tasks[l.t]);
    assert s'.tasks.Keys == s.tasks.Keys;
    assert |s'.tasks| == |s'.tasks.Keys| && |s.tasks| == |s.tasks.Keys|;
    Unmoved(s, c, s');
  }

  /** The steps of tasks leave the ring, the producer and the cleanup thread alone. */
  lemma Unmoved(s: State, c: Config, s': State)
    requires Legal(s, c) && ProducerInv(s) && DataInv(s, c.lay) && CleanerInv(s, c.popShare)
    requires s' == s.(tasks := s'.tasks, requestsRunning := s'.requestsRunning, sent := s'.sent)
    ensures Legal(s', c) && ProducerInv(s') && DataInv(s', c.lay) && CleanerInv(s', c.popShare)
  {
    hide Increasing, AllWellFormed, WellFormed;
  }

  lemma TaskStepInv(s: State, c: Config, l: Label, s': State)
    requires Inv(s, c) && TaskStep(s, c, l, s')
    ensures Inv(s', c)
  {
    hide Inv, TaskMove;
    if l.Enter? || l.EnterRecorder? {
      EnterInv(s, c, l, s');
    } else if l.Leave? {
      LeaveInv(s, c, l.t, s');
    } else {
      MoveInv(s, c, l, s');
    }
  }

  lemma EnteredInv(task: Task, slots: seq<Element>, read: nat, write: nat, written: seq<Element>,
                   popped: nat, lay: Layout)
    requires lay.Valid()
    requires task == Recording || (task.Entered? && lay.Span() <= task.win.begin < TWO_TO_THE_64)
    ensures TaskInv(task, slots, read, write, written, popped, lay)
  {
  }

  lemma LeaveBuilt(task: Task, slots: seq<Element>, read: nat, write: nat, written: seq<Element>,
                   popped: nat, lay: Layout)
    requires lay.Valid() && task.Built? && TaskInv(task, slots, read, write, written, popped, lay)
    ensures Answered(task.job, written, task.at, task.fragment, lay)
  {
  }

  // ---------------------------------------------------------------- the cleanup thread

  /** The steps of the cleanup thread that decide: they leave the ring and the tasks alone. */
  lemma DecideInv(s: State, c: Config, l: Label, s': State)
    requires Inv(s, c) && CleanerStep(s, c, l, s') && !l.PopFront? && !l.EndWait?
    ensures Inv(s', c)
  {
    hide Ring, TasksInv, SentInv, DataInv, Share, Distance;
    RingCount(s.slots, s.read, s.write, s.written, s.popped);
    if l.CheckFront? {
      EndsOfRing(s);
    }
    DataOfProducer(s, c.lay);
    DataUnchanged(s, s', c.lay);
  }

  lemma PopFrontInv(s: State, c: Config, s': State)
    requires Inv(s, c) && CleanerStep(s, c, PopFront, s')
    ensures Inv(s', c)
  {
    hide Ring, TaskInv, SentInv, DataInv;
    RingPop(s.slots, s.read, s.write, s.written, s.popped);
    DataOfProducer(s, c.lay);
    DataUnchanged(s, s', c.lay);
  }

  lemma EndWaitInv(s: State, c: Config, s': State)
    requires Inv(s, c) && CleanerStep(s, c, EndWait, s')
    ensures Inv(s', c)
  {
    hide Ring, TaskInv, SentInv, DataInv;
    assert |s.tasks| == 0;
    DataOfProducer(s, c.lay);
    DataUnchanged(s, s', c.lay);
  }

  lemma DataOfProducer(s: State, lay: Layout)
    requires lay.Valid() && DataInv(s, lay)
    ensures s.producer.PConstructed? ==>
              && WellFormed(s.producer.e, lay)
              && (s.written != [] ==> s.written[|s.written| - 1].ts < s.producer.e.ts)
  {
  }

  lemma CleanerStepInv(s: State, c: Config, l: Label, s': State)
    requires Inv(s, c) && CleanerStep(s, c, l, s')
    ensures Inv(s', c)
  {
    hide Inv, Share, Distance;
    if l.PopFront? {
      PopFrontInv(s, c, s');
    } else if l.EndWait? {
      EndWaitInv(s, c, s');
    } else {
      DecideInv(s, c, l, s');
    }
  }

  lemma StepInv(s: State, c: Config, l: Label, s': State)
    requires Inv(s, c) && Step(s, c, l, s')
    ensures Inv(s', c)
  {
    if ProducerStep(s, c, l, s') {
      ProducerStepInv(s, c, l, s');
    } else if TaskStep(s, c, l, s') {
      TaskStepInv(s, c, l, s');
    } else if CleanerStep(s, c, l, s') {
      CleanerStepInv(s, c, l, s');
    } else {
      hide Ring, TaskInv, SentInv, Increasing, AllWellFormed, WellFormed;
      assert Inv(s', c);
    }
  }

  // ---------------------------------------------------------------- runs

  /** A run: a starting state, and one label for each step. */
  ghost predicate Run(states: seq<State>, labels: seq<Label>, c: Config) {
    && |states| == |labels| + 1
    && Init(states[0], c)
    && forall i :: 0 <= i < |labels| ==> Legal(states[i], c) && Step(states[i], c, labels[i], states[i + 1])
  }

  lemma {:induction false} RunInv(states: seq<State>, labels: seq<Label>, c: Config, i: nat)
    requires Run(states, labels, c) && i < |states|
    ensures Inv(states[i], c)
  {
    hide Init, Legal, Step, Inv;
    if i == 0 {
      InitInv(states[0], c);
    } else {
      RunInv(states, labels, c, i - 1);
      StepInv(states[i - 1], c, labels[i - 1], states[i]);
    }
  }

  lemma {:induction false} WrittenGrows(states: seq<State>, labels: seq<Label>, c: Config, i: nat, j: nat)
    requires Run(states, labels, c) && i <= j < |states|
    ensures states[i].written <= states[j].written
  {
    if i < j {
      WrittenGrows(states, labels, c, i, j - 1);
      hide Legal, TaskMove, Init;
      assert Step(states[j - 1], c, labels[j - 1], states[j]);
    }
  }

  /** Mutual exclusion for any number of tasks, the recorder among them: the counter is the number of tasks inside
      the guarded section, and from the start of a cleanup to its end there is none. */
  lemma MutualExclusion(states: seq<State>, labels: seq<Label>, c: Config, i: nat)
    requires Run(states, labels, c) && i < |states|
    ensures states[i].requestsRunning == |states[i].tasks|
    ensures Locked(states[i]) ==> states[i].requestsRunning == 0 && states[i].tasks == map[]
  {
    RunInv(states, labels, c, i);
  }

  /** The producer touches neither the tasks nor the cleanup thread, nor the old end of the ring. */
  lemma ProducerLeaves(s: State, c: Config, l: Label, s': State)
    requires Legal(s, c) && ProducerStep(s, c, l, s')
    ensures |s'.slots| == |s.slots|
    ensures s' == s.(slots := s'.slots, write := s'.write, written := s'.written, producer := s'.producer)
  {
    hide WellFormed;
  }

  /** Tasks touch neither the ring nor the cleanup thread, and none enters while a cleanup is requested. */
  lemma TasksLeave(s: State, c: Config, l: Label, s': State)
    requires Legal(s, c) && TaskStep(s, c, l, s')
    ensures s' == s.(tasks := s'.tasks, requestsRunning := s'.requestsRunning, sent := s'.sent)
    ensures s.cleanupRequested ==> s'.tasks.Keys <= s.tasks.Keys
    ensures l.Leave? ==> s'.requestsRunning < s.requestsRunning
  {
    hide TaskMove;
  }

  /** What one step can do while the cleanup thread waits. */
  lemma WaitingStep(s: State, c: Config, l: Label, s': State)
    requires Inv(s, c) && Step(s, c, l, s') && s.cleaner == CWaiting
    ensures s'.tasks.Keys <= s.tasks.Keys
    ensures l.Leave? ==> s'.requestsRunning < s.requestsRunning
    ensures !l.EndWait? ==> s'.cleaner == CWaiting
  {
    hide Ring, TasksInv, SentInv, DataInv, ProducerInv, CleanerInv, ProducerStep, TaskStep, Share, Distance;
    if ProducerStep(s, c, l, s') {
      ProducerLeaves(s, c, l, s');
      assert !l.Leave? by { OnlyTasksLeave(s, c, l, s'); }
    } else if TaskStep(s, c, l, s') {
      TasksLeave(s, c, l, s');
    }
  }

  lemma OnlyTasksLeave(s: State, c: Config, l: Label, s': State)
    requires Legal(s, c) && ProducerStep(s, c, l, s')
    ensures !l.Leave?
  {
  }

  /** While the cleanup thread waits no task enters, so the number of running tasks only falls; every
      task that leaves lowers it, and when it is zero the cleanup can begin. */
  lemma WaitingCleanerMakesProgress(states: seq<State>, labels: seq<Label>, c: Config, i: nat)
    requires Run(states, labels, c) && i < |labels| && states[i].cleaner == CWaiting
    ensures states[i + 1].tasks.Keys <= states[i].tasks.Keys
    ensures labels[i].Leave? ==> states[i + 1].requestsRunning < states[i].requestsRunning
    ensures !labels[i].EndWait? ==> states[i + 1].cleaner == CWaiting
    ensures states[i].tasks == map[]
            ==> Legal(states[i], c) && CleanerStep(states[i], c, EndWait, states[i].(cleaner := CMeasuring))
  {
    hide Step, Init, Ring, TasksInv, SentInv, DataInv, ProducerInv, CleanerInv;
    RunInv(states, labels, c, i);
    WaitingStep(states[i], c, labels[i], states[i + 1]);
  }

  lemma InsideStep(s: State, c: Config, l: Label, s': State)
    requires Inv(s, c) && Step(s, c, l, s') && s.tasks != map[]
    ensures s'.popped == s.popped && s'.read == s.read && |s'.slots| == |s.slots|
  {
    hide Ring, TasksInv, SentInv, DataInv, ProducerInv, CleanerInv, ProducerStep, TaskStep, Share, Distance;
    if ProducerStep(s, c, l, s') {
      ProducerLeaves(s, c, l, s');
    } else if TaskStep(s, c, l, s') {
      TasksLeave(s, c, l, s');
    }
  }

  /** From a task's entry to its leaving nothing it reads moves but the write index: the read index and the elements
      that were in the buffer stay. `occupancy`, with its load of the write index now and of the read index at any
      later moment inside, is then exact at the first and a lower bound at the second. */
  lemma {:induction false} InsideOnlyTheWriteIndexMoves(states: seq<State>, labels: seq<Label>, c: Config,
                                                        t: nat, i: nat, j: nat)
    requires Run(states, labels, c) && i <= j < |states| && forall k :: i <= k <= j ==> t in states[k].tasks
    ensures states[j].popped == states[i].popped && states[j].read == states[i].read
    ensures |states[j].slots| == |states[i].slots| && states[i].written <= states[j].written
    ensures states[j].read < |states[j].slots| && states[i].write < |states[j].slots|
    ensures forall k :: states[i].popped <= k < |states[i].written| ==>
              states[j].slots[Slot(k, |states[j].slots|)] == states[i].slots[Slot(k, |states[j].slots|)]
                == states[i].written[k]
    ensures var count := Distance(states[j].read, states[i].write, |states[j].slots|);
            count == |states[i].written| - states[i].popped <= |states[j].written| - states[j].popped
  {
    hide Init, Step, Distance;
    InsideReadIsFixed(states, labels, c, t, i, j);
    RunInv(states, labels, c, i);
    RunInv(states, labels, c, j);
    WrittenGrows(states, labels, c, i, j);
    hide Run;
    var s, s' := states[i], states[j];
    RingCount(s.slots, s.read, s.write, s.written, s.popped);
    forall k | s.popped <= k < |s.written|
      ensures s'.slots[Slot(k, |s'.slots|)] == s.slots[Slot(k, |s'.slots|)] == s.written[k]
    {
      RingAt(s.slots, s.read, s.write, s.written, s.popped, k);
      RingAt(s'.slots, s'.read, s'.write, s'.written, s'.popped, k);
    }
  }

  lemma {:induction false} InsideReadIsFixed(states: seq<State>, labels: seq<Label>, c: Config, t: nat, i: nat, j: nat)
    requires Run(states, labels, c) && i <= j < |states| && forall k :: i <= k <= j ==> t in states[k].tasks
    ensures states[j].popped == states[i].popped && states[j].read == states[i].read
    ensures |states[j].slots| == |states[i].slots|
  {
    hide Init, Step, Inv, Legal;
    if i < j {
      InsideReadIsFixed(states, labels, c, t, i, j - 1);
      RunInv(states, labels, c, j - 1);
      InsideStep(states[j - 1], c, labels[j - 1], states[j]);
    }
  }

  /** The pieces a task holds. */
  function PiecesOf(task: Task): (ps: seq<Piece>) {
    match task
    case Scanning(_, _, _, pieces) => pieces
    case Advancing(_, _, _, pieces) => pieces
    case Settling(_, _, _, pieces) => pieces
    case Gathered(_, _, pieces) => pieces
    case _ => []
  }

  /** At every moment of every run, every piece gathered by a task names the slot of an element that is in
      the buffer, and the slot still holds that element. */
  lemma PiecesNameLiveSlots(states: seq<State>, labels: seq<Label>, c: Config, i: nat, t: nat, p: Piece)
    returns (k: nat)
    requires Run(states, labels, c) && i < |states|
    requires t in states[i].tasks && p in PiecesOf(states[i].tasks[t])
    ensures states[i].popped <= k < |states[i].written| && p.slot < |states[i].slots|
    ensures p.slot == Slot(k, |states[i].slots|) && states[i].slots[p.slot] == states[i].written[k]
    ensures p.first + p.count <= |states[i].written[k].frames|
  {
    var s := states[i];
    RunInv(states, labels, c, i);
    assert TaskInv(s.tasks[t], s.slots, s.read, s.write, s.written, s.popped, c.lay);
    assert Fits(p, s.slots) && Good(p.slot, s.read, s.write);
    RingCount(s.slots, s.read, s.write, s.written, s.popped);
    GoodIffLive(p.slot, s.read, s.write, |s.slots|);
    k := s.popped + Distance(s.read, p.slot, |s.slots|);
    RingAt(s.slots, s.read, s.write, s.written, s.popped, k);
  }

  /** Elements at or past the end of the window add nothing to the overlap. */
  lemma OverlapSettled(written: seq<Element>, lo: nat, a: nat, b: nat, win: Window, lay: Layout)
    requires lay.Valid() && lo <= a <= b <= |written| && Increasing(written) && AllWellFormed(written, lay)
    requires a < b ==> win.end <= written[a].ts
    ensures Overlap(written, lo, b, win, lay.tick) == Overlap(written, lo, a, win, lay.tick)
    decreases b
  {
    if a < b {
      OverlapSettled(written, lo, a, b - 1, win, lay);
      assert written[a].ts <= written[b - 1].ts;
      OverlapNext(written, lo, b - 1, win, lay);
    }
  }

  /** What a request is given holds the overlap of at least everything that was buffered when it was classified; if
      the buffer covered the window then, of exactly that, and equally of everything written later. */
  lemma AnswerIsOverlap(written: seq<Element>, job: Job, at: nat, fragment: seq<Frame>, lay: Layout, m: nat)
    requires lay.Valid() && Increasing(written) && AllWellFormed(written, lay)
    requires Answered(job, written, at, fragment, lay) && Due(job, written, lay) && job.seen <= m <= |written|
    ensures at <= m && (at == m || job.win.end <= written[at].ts)
            ==> fragment == Overlap(written, job.lo, m, job.win, lay.tick)
    ensures Covered(job, written) ==> fragment == Overlap(written, job.lo, m, job.win, lay.tick)
  {
    hide Layout.Span, AllWellFormed, Overlap;
    if at <= m && (at == m || job.win.end <= written[at].ts) {
      OverlapSettled(written, job.lo, at, m, job.win, lay);
    } else if Covered(job, written) {
      assert forall k :: job.seen <= k < |written| ==> written[job.seen - 1].ts < written[k].ts;
      if at <= m {
        OverlapSettled(written, job.lo, at, m, job.win, lay);
      } else {
        OverlapSettled(written, job.lo, m, at, job.win, lay);
      }
    }
  }

  /** Stability: when the buffer covers the window of a request at the moment of its classification (step `k`),
      the fragment that is sent for it, at whatever later moment `i` and with whichever search, holds exactly the
      frames of that moment's buffer that overlap the window, if the oldest element ended before the window began;
      otherwise, if the request is answered at all, the fragment is empty. */
  lemma CoveredRequestGetsSnapshot(states: seq<State>, labels: seq<Label>, c: Config, k: nat, i: nat, d: nat)
    requires Run(states, labels, c) && k < i < |states| && labels[k].Classify? && labels[k].t in states[k].tasks
    requires var s, task := states[k], states[k].tasks[labels[k].t];
             && task.Looked? && d < |states[i].sent|
             && states[i].sent[d].job == Job(task.win, s.popped, |s.written|)
             && s.popped < |s.written|
             && s.written[s.popped].ts <= task.win.begin && task.win.end <= s.written[|s.written| - 1].ts
    ensures var s, win := states[k], states[k].tasks[labels[k].t].win;
            states[i].sent[d].fragment
            == if s.written[s.popped].ts + c.lay.Span() <= win.begin
               then FramesInWindow(AllFrames(s.written[s.popped..]), win.begin, win.end, c.lay.tick) else []
  {
    var s, s', e := states[k], states[i], states[i].sent[d];
    RunInv(states, labels, c, i);
    WrittenGrows(states, labels, c, k, i);
    hide Run, Ring, TasksInv, AllWellFormed, FramesInWindow, AllFrames, Layout.Span;
    assert Answered(e.job, s'.written, e.at, e.fragment, c.lay);
    assert s'.written[e.job.lo..e.job.seen] == s.written[s.popped..];
    if Due(e.job, s'.written, c.lay) {
      AnswerIsOverlap(s'.written, e.job, e.at, e.fragment, c.lay, e.job.seen);
    }
  }

  /** Every fragment sent, covered or partial, with either search, during a run or at its end: it holds the overlap of a
      prefix of the data with all that was buffered when the request was classified, if the oldest element then ended
      before the window began and the window was covered, or partly there with a partial answer wanted; in all other
      cases it is empty. */
  lemma EveryAnswerIsExact(states: seq<State>, labels: seq<Label>, c: Config, i: nat, d: nat) returns (m: nat)
    requires Run(states, labels, c) && i < |states| && d < |states[i].sent|
    ensures c.lay.Valid()
    ensures var e, written := states[i].sent[d], states[i].written;
            && e.job.lo <= e.job.seen <= m <= |written|
            && e.fragment == if Due(e.job, written, c.lay) then Overlap(written, e.job.lo, m, e.job.win, c.lay.tick)
                             else []
  {
    var e, written := states[i].sent[d], states[i].written;
    RunInv(states, labels, c, i);
    hide Run, Ring, TasksInv, AllWellFormed, Overlap, Layout.Span;
    assert Answered(e.job, written, e.at, e.fragment, c.lay);
    m := if e.at < e.job.seen then e.job.seen else e.at;
    if Due(e.job, written, c.lay) {
      AnswerIsOverlap(written, e.job, e.at, e.fragment, c.lay, m);
    }
  }

  /** A request is told to wait only while the run marker is set, and only if its window was covered but began inside
      the oldest element, or data at its end was missing and no partial answer wanted. */
  lemma WaitsOnlyDuringRun(states: seq<State>, labels: seq<Label>, c: Config, i: nat)
    requires Run(states, labels, c) && i < |labels| && labels[i].TestRunMarker?
    ensures labels[i].t in states[i].tasks && labels[i].t in states[i + 1].tasks
    ensures var task, task' := states[i].tasks[labels[i].t], states[i + 1].tasks[labels[i].t];
            && c.lay.Valid() && task.Refusing? && MayWait(task.job, states[i].written, c.lay)
            && (task'.Waits? <==> states[i].runMarker)
            && (task'.Built? <==> !states[i].runMarker)
  {
    RunInv(states, labels, c, i);
    hide Ring, SentInv, DataInv, GuardInv, CleanerInv, MayWait, JobInv;
    assert Step(states[i], c, labels[i], states[i + 1]);
  }

  // ---------------------------------------------------------------- who waits and who is answered

  /** While the run goes on, no request that may wait has been answered; windows are not empty. */
  ghost predicate Prompt(s: State, lay: Layout)
    requires lay.Valid()
  {
    s.runMarker ==>
      && (forall t :: t in s.tasks && s.tasks[t].Built? ==> Answerable(s.tasks[t].job, s.written, lay))
      && (forall d :: 0 <= d < |s.sent| ==> Answerable(s.sent[d].job, s.written, lay))
  }

  ghost predicate Answerable(job: Job, written: seq<Element>, lay: Layout)
    requires lay.Valid()
  {
    job.win.begin < job.win.end ==> !MayWait(job, written, lay)
  }

  lemma ClassifiedIsAnswerable(s: State, c: Config, t: nat, task: Task, task': Task)
    requires Inv(s, c) && TaskMove(s, c, Classify(t), task, task') && task'.Built?
    requires TaskInv(task, s.slots, s.read, s.write, s.written, s.popped, c.lay)
    ensures Answerable(task'.job, s.written, c.lay)
  {
    hide Ring, TasksInv, SentInv, AllWellFormed, Layout.Span, BackSlot, Overlap;
    EndsOfRing(s);
    assert s.written[s.popped].ts <= s.written[|s.written| - 1].ts;
  }

  lemma MoveIsAnswerable(s: State, c: Config, l: Label, task: Task, task': Task)
    requires Inv(s, c) && TaskMove(s, c, l, task, task') && task'.Built? && s.runMarker
    requires TaskInv(task, s.slots, s.read, s.write, s.written, s.popped, c.lay)
    ensures Answerable(task'.job, s.written, c.lay)
  {
    hide Ring, TasksInv, SentInv, DataInv, ProducerInv, CleanerInv, PiecesInv, Layout.Span, SearchMisses, Deref;
    RingCount(s.slots, s.read, s.write, s.written, s.popped);
    if l.Classify? {
      ClassifiedIsAnswerable(s, c, l.t, task, task');
    }
  }

  lemma PromptAfterPublish(s: State, c: Config, s': State)
    requires Inv(s, c) && Prompt(s, c.lay) && ProducerStep(s, c, Publish, s')
    ensures Prompt(s', c.lay)
  {
    hide Ring, MayWait, DataInv, Overlap, Finished, ProducerInv, CleanerInv, PiecesInv, Layout.Span;
    forall t | t in s'.tasks && s'.tasks[t].Built? && s.runMarker
      ensures Answerable(s'.tasks[t].job, s'.written, c.lay)
    {
      assert TaskInv(s.tasks[t], s.slots, s.read, s.write, s.written, s.popped, c.lay);
      JobAfterPublish(s.tasks[t].job, s.written, c.lay, s.producer.e);
    }
    forall d | 0 <= d < |s'.sent| && s.runMarker
      ensures Answerable(s'.sent[d].job, s'.written, c.lay)
    {
      JobAfterPublish(s.sent[d].job, s.written, c.lay, s.producer.e);
    }
  }

  lemma PromptAfterTask(s: State, c: Config, l: Label, s': State)
    requires Inv(s, c) && Prompt(s, c.lay) && TaskStep(s, c, l, s')
    ensures Prompt(s', c.lay)
  {
    hide Ring, TaskMove, DataInv, SentInv, GuardInv, ProducerInv, CleanerInv, TaskInv, Answerable;
    if s.runMarker && !l.Enter? && !l.EnterRecorder? && !l.Leave? && s'.tasks[l.t].Built? {
      MoveIsAnswerable(s, c, l, s.tasks[l.t], s'.tasks[l.t]);
    }
  }

  lemma PromptStep(s: State, c: Config, l: Label, s': State)
    requires Inv(s, c) && Legal(s, c) && Step(s, c, l, s') && Prompt(s, c.lay)
    ensures Prompt(s', c.lay)
  {
    hide Inv, TaskStep, Answerable;
    if l == Publish && ProducerStep(s, c, l, s') {
      PromptAfterPublish(s, c, s');
    } else if TaskStep(s, c, l, s') {
      PromptAfterTask(s, c, l, s');
    }
  }

  lemma {:induction false} PromptInRuns(states: seq<State>, labels: seq<Label>, c: Config, i: nat)
    requires Run(states, labels, c) && i < |states|
    ensures c.lay.Valid() && Prompt(states[i], c.lay)
  {
    hide Init, Legal, Step, Inv, Prompt;
    if i == 0 {
      InitPrompt(states[0], c);
    } else {
      PromptInRuns(states, labels, c, i - 1);
      RunInv(states, labels, c, i - 1);
      PromptStep(states[i - 1], c, labels[i - 1], states[i]);
    }
  }

  lemma InitPrompt(s: State, c: Config)
    requires Init(s, c)
    ensures c.lay.Valid() && Prompt(s, c.lay)
  {
  }

  /** While the run goes on a request is told to wait if and only if it may wait: none whose data is still to come, or
      whose window begins inside the oldest element, is answered before its time, and no other one waits. */
  lemma WaitsIffMayWait(states: seq<State>, labels: seq<Label>, c: Config, i: nat)
    requires Run(states, labels, c) && i < |states|
    ensures c.lay.Valid()
    ensures var s := states[i];
            forall t :: t in s.tasks && (s.tasks[t].Refusing? || s.tasks[t].Waits?)
              ==> MayWait(s.tasks[t].job, s.written, c.lay)
    ensures var s := states[i];
            forall t :: t in s.tasks && s.tasks[t].Built? && s.runMarker
              && s.tasks[t].job.win.begin < s.tasks[t].job.win.end
              ==> !MayWait(s.tasks[t].job, s.written, c.lay)
    ensures var s := states[i];
            forall d :: 0 <= d < |s.sent| && s.runMarker && s.sent[d].job.win.begin < s.sent[d].job.win.end
              ==> !MayWait(s.sent[d].job, s.written, c.lay)
  {
    RunInv(states, labels, c, i);
    PromptInRuns(states, labels, c, i);
    hide Run, Ring, SentInv, DataInv, MayWait, PiecesInv, JobInv, Due;
  }

  /** A new request, or the recorder, enters if and only if no cleanup is requested or under way. */
  lemma EntersIffNoCleanup(s: State, c: Config, t: nat, win: Window)
    requires Inv(s, c) && t !in s.tasks && c.lay.Span() <= win.begin < TWO_TO_THE_64
    ensures TaskStep(s, c, Enter(t, win), s.(tasks := s.tasks[t := Entered(win)],
                                             requestsRunning := s.requestsRunning + 1))
            <==> s.cleaner == CIdle
    ensures TaskStep(s, c, EnterRecorder(t), s.(tasks := s.tasks[t := Recording],
                                                requestsRunning := s.requestsRunning + 1))
            <==> s.cleaner == CIdle
  {
    hide Ring, TasksInv, SentInv, DataInv, ProducerInv, CleanerInv, TaskMove;
  }

  /** Nothing is sent but by a task that leaves with its fragment built, and by such a task exactly that fragment. */
  lemma LeavingAnswers(states: seq<State>, labels: seq<Label>, c: Config, i: nat)
    requires Run(states, labels, c) && i < |labels|
    ensures labels[i].Leave? ==> labels[i].t in states[i].tasks && labels[i].t !in states[i + 1].tasks
    ensures labels[i].Leave? && states[i].tasks[labels[i].t].Built? ==>
              var task := states[i].tasks[labels[i].t];
              states[i + 1].sent == states[i].sent + [Delivery(task.job, task.at, task.fragment)]
    ensures !labels[i].Leave? || !states[i].tasks[labels[i].t].Built? ==> states[i + 1].sent == states[i].sent
  {
    hide TaskMove, Share, Distance, WellFormed;
    assert Step(states[i], c, labels[i], states[i + 1]);
  }

  // ---------------------------------------------------------------- what a cleanup pops

  /** A cleanup is begun, and pops are considered, exactly when more than the limit is buffered. */
  lemma CleanupIsTriggered(states: seq<State>, labels: seq<Label>, c: Config, i: nat)
    requires Run(states, labels, c) && i < |states|
    ensures Legal(states[i], c)
    ensures var s := states[i];
            CleanerStep(s, c, RequestCleanup, s.(cleanupRequested := true, cleaner := CWaiting))
            <==> s.cleaner == CIdle && c.popLimit < |s.written| - s.popped
    ensures i < |labels| && labels[i] == Measure
            ==> (states[i + 1].cleaner == CSizing <==> c.popLimit < |states[i].written| - states[i].popped)
  {
    RunInv(states, labels, c, i);
    hide Ring, Distance, TasksInv, SentInv, DataInv, TaskMove, WellFormed;
    var s := states[i];
    RingCount(s.slots, s.read, s.write, s.written, s.popped);
    if i < |labels| {
      assert Step(s, c, labels[i], states[i + 1]);
    }
  }

  /** How far a cleanup has come that found the elements `es` and is to pop at most `limit` of them: it has popped
      `popped - base`, and what is decided is what the reference says. */
  ghost predicate Cleans(s: State, es: seq<Element>, base: nat, limit: nat, watermark: nat)
  {
    && limit <= |es| && base <= s.popped && s.popped - base <= limit
    && base + |es| <= |s.written| && s.written[base..base + |es|] == es
    && OlderPrefix(es, s.popped - base, limit, watermark) == OlderPrefix(es, 0, limit, watermark)
    && match s.cleaner
       case CCleaning(toPop, done) => toPop == limit && done == s.popped - base
       case CFront(toPop, done) => toPop == limit && done == s.popped - base < limit
       case CPopping(toPop, done, _) =>
         toPop == limit && done == s.popped - base < limit && es[s.popped - base].ts < watermark
       case CForgetting => s.popped - base == OlderPrefix(es, 0, limit, watermark)
       case _ => false
  }

  lemma CleanBegins(s: State, c: Config, s': State)
    requires Inv(s, c) && CleanerStep(s, c, SizePops, s')
    ensures s.popped <= |s.written|
    ensures var es := s.written[s.popped..]; Cleans(s', es, s.popped, Share(c.popShare, |es|), s.watermark)
  {
    hide Ring, Distance, TasksInv, SentInv, DataInv;
    RingCount(s.slots, s.read, s.write, s.written, s.popped);
    assert s.written[s.popped..s.popped + |s.written[s.popped..]|] == s.written[s.popped..];
  }

  /** One more step of the reference. */
  lemma OlderNext(es: seq<Element>, k: nat, limit: nat, watermark: nat)
    requires k <= limit <= |es|
    ensures k == limit ==> OlderPrefix(es, k, limit, watermark) == k
    ensures k < limit && watermark <= es[k].ts ==> OlderPrefix(es, k, limit, watermark) == k
    ensures k < limit && es[k].ts < watermark
            ==> OlderPrefix(es, k, limit, watermark) == OlderPrefix(es, k + 1, limit, watermark)
  {
  }

  lemma CleanCheck(s: State, c: Config, s': State, es: seq<Element>, base: nat, limit: nat)
    requires Inv(s, c) && CleanerStep(s, c, CheckFront, s') && Cleans(s, es, base, limit, s.watermark)
    ensures Cleans(s', es, base, limit, s.watermark)
  {
    hide Ring, Distance, TasksInv, SentInv, DataInv, Share, OlderPrefix;
    EndsOfRing(s);
    assert s.written[base..base + |es|][s.popped - base] == s.written[s.popped];
    OlderNext(es, s.popped - base, limit, s.watermark);
  }

  lemma CleanPop(s: State, c: Config, s': State, es: seq<Element>, base: nat, limit: nat)
    requires Legal(s, c) && CleanerStep(s, c, PopFront, s') && Cleans(s, es, base, limit, s.watermark)
    ensures Cleans(s', es, base, limit, s.watermark)
  {
    hide Distance, Share, OlderPrefix;
    OlderNext(es, s.popped - base, limit, s.watermark);
  }

  lemma CleanGoesOn(s: State, c: Config, l: Label, s': State, es: seq<Element>, base: nat, limit: nat)
    requires Inv(s, c) && CleanerStep(s, c, l, s') && Cleans(s, es, base, limit, s.watermark)
    requires s'.cleaner != CEnding
    ensures Cleans(s', es, base, limit, s.watermark)
  {
    hide Ring, Distance, ProducerInv, GuardInv, CleanerInv, TasksInv, SentInv, DataInv, Share, OlderPrefix;
    if l.CheckFront? {
      CleanCheck(s, c, s', es, base, limit);
    } else if l.PopFront? {
      CleanPop(s, c, s', es, base, limit);
    } else {
      OlderNext(es, s.popped - base, limit, s.watermark);
    }
  }

  /** Only the cleanup thread, the old end of the ring and what was written before matter to it. */
  lemma CleanKept(s: State, s': State, es: seq<Element>, base: nat, limit: nat, watermark: nat)
    requires Cleans(s, es, base, limit, watermark)
    requires s'.cleaner == s.cleaner && s'.popped == s.popped && s.written <= s'.written
    ensures Cleans(s', es, base, limit, watermark)
  {
    hide OlderPrefix;
    assert s'.written[base..base + |es|] == s.written[base..base + |es|];
  }

  lemma CleanUnmoved(s: State, c: Config, l: Label, s': State, es: seq<Element>, base: nat, limit: nat)
    requires Legal(s, c) && Step(s, c, l, s') && !CleanerStep(s, c, l, s') && s'.watermark == s.watermark
    requires Cleans(s, es, base, limit, s.watermark)
    ensures Cleans(s', es, base, limit, s.watermark)
  {
    hide TaskStep, ProducerStep, CleanerStep, Cleans;
    if ProducerStep(s, c, l, s') {
      ProducerLeaves(s, c, l, s');
      ProducerAppends(s, c, l, s');
    } else if TaskStep(s, c, l, s') {
      TasksLeave(s, c, l, s');
    }
    CleanKept(s, s', es, base, limit, s.watermark);
  }

  lemma ProducerAppends(s: State, c: Config, l: Label, s': State)
    requires Legal(s, c) && ProducerStep(s, c, l, s')
    ensures s.written <= s'.written
  {
    hide WellFormed;
  }

  /** A cleanup in the middle of everything pops what the cleanup of a queue at rest pops: when it leaves its loop,
      exactly the longest prefix below the watermark within the share of what it found, whatever is written meanwhile
      (the watermark is the same all the time). */
  lemma {:induction false} CleanupIsExact(states: seq<State>, labels: seq<Label>, c: Config, i: nat, j: nat)
    requires Run(states, labels, c) && i < j < |states| && labels[i] == SizePops
    requires forall k :: i <= k <= j ==> states[k].watermark == states[i].watermark
    requires forall k :: i < k <= j ==> states[k].cleaner != CEnding
    ensures states[i].popped <= |states[i].written| && 0.0 <= c.popShare <= 1.0
    ensures var es := states[i].written[states[i].popped..];
            var limit := Share(c.popShare, |es|);
            && Cleans(states[j], es, states[i].popped, limit, states[i].watermark)
            && (states[j].cleaner == CForgetting ==>
                  states[j].popped - states[i].popped == OlderPrefix(es, 0, limit, states[i].watermark))
  {
    hide Init, Inv, Legal, Step, Cleans, Share, OlderPrefix;
    RunInv(states, labels, c, i);
    if j == i + 1 {
      SizingStep(states[i], c, states[j]);
      CleanBegins(states[i], c, states[j]);
    } else {
      CleanupIsExact(states, labels, c, i, j - 1);
      RunInv(states, labels, c, j - 1);
      var s, s' := states[j - 1], states[j];
      var es := states[i].written[states[i].popped..];
      CleanStep(s, c, labels[j - 1], s', es, states[i].popped, Share(c.popShare, |es|));
    }
    CleansWhenForgetting(states[j], states[i].written[states[i].popped..], states[i].popped,
                         Share(c.popShare, |states[i].written[states[i].popped..]|), states[i].watermark);
  }

  lemma CleansWhenForgetting(s: State, es: seq<Element>, base: nat, limit: nat, watermark: nat)
    requires Cleans(s, es, base, limit, watermark)
    ensures limit <= |es|
    ensures s.cleaner == CForgetting ==> s.popped - base == OlderPrefix(es, 0, limit, watermark)
  {
  }

  lemma SizingStep(s: State, c: Config, s': State)
    requires Inv(s, c) && Legal(s, c) && Step(s, c, SizePops, s')
    ensures CleanerStep(s, c, SizePops, s') && 0.0 <= c.popShare <= 1.0
  {
    hide Inv, TaskMove, Share, Distance;
  }

  lemma CleanStep(s: State, c: Config, l: Label, s': State, es: seq<Element>, base: nat, limit: nat)
    requires Inv(s, c) && Legal(s, c) && Step(s, c, l, s') && s'.watermark == s.watermark
    requires Cleans(s, es, base, limit, s.watermark) && s'.cleaner != CEnding
    ensures Cleans(s', es, base, limit, s.watermark)
  {
    hide Inv, Legal, Step, Cleans, CleanerStep;
    if CleanerStep(s, c, l, s') {
      CleanGoesOn(s, c, l, s', es, base, limit);
    } else {
      CleanUnmoved(s, c, l, s', es, base, limit);
    }
  }

  /** In the middle of a cleanup the thread always has a step to take, but for one state: it is about to look at the
      front for the last time, and has emptied the queue. */
  lemma CleanupIsBlockedIff(s: State, c: Config)
    requires Inv(s, c) && Locked(s)
    ensures (exists l, s' :: CleanerStep(s, c, l, s')) <==> !(s.cleaner == CForgetting && s.popped == |s.written|)
  {
    hide Ring, Distance, TasksInv, SentInv, DataInv, ProducerInv, Share;
    RingCount(s.slots, s.read, s.write, s.written, s.popped);
    if !(s.cleaner == CForgetting && s.popped == |s.written|) {
      var l, s' := CleanerMoves(s, c);
    }
  }

  lemma CleanerMoves(s: State, c: Config) returns (l: Label, s': State)
    requires Legal(s, c) && Locked(s)
    requires s.cleaner == CForgetting || (s.cleaner.CCleaning? && s.cleaner.done < s.cleaner.toPop)
             ==> s.read != s.write
    ensures CleanerStep(s, c, l, s')
  {
    hide Distance, Share;
    var occupancy, k := Distance(s.read, s.write, |s.slots|), s.cleaner;
    if k == CMeasuring {
      l, s' := Measure, s.(cleaner := if occupancy > c.popLimit then CSizing else CEnding);
    } else if k == CSizing {
      l, s' := SizePops, s.(cleaner := CCleaning(Share(c.popShare, occupancy), 0));
    } else if k.CCleaning? && k.done < k.toPop {
      l, s' := LookAtFront, s.(cleaner := CFront(k.toPop, k.done));
    } else if k.CCleaning? {
      l, s' := LeaveLoop, s.(cleaner := CForgetting);
    } else if k.CFront? {
      l := CheckFront;
      s' := s.(cleaner := if s.slots[s.read].ts < s.watermark then CPopping(k.toPop, k.done, s.watermark)
                          else CForgetting);
    } else if k.CPopping? {
      l := PopFront;
      s' := s.(read := Next(s.read, |s.slots|), popped := s.popped + 1, cleaner := CCleaning(k.toPop, k.done + 1));
    } else if k == CForgetting {
      l, s' := Forget, s.(cleaner := CEnding);
    } else {
      l, s' := EndCleanup, s.(cleanupRequested := false, cleaner := CIdle);
    }
  }

  /** A write begins if and only if fewer than `size - 1` elements are in the ring. */
  lemma WriteBeginsIffNotFull(s: State, c: Config)
    requires Inv(s, c)
    ensures ProducerStep(s, c, Reserve, s.(producer := PReserved))
            <==> s.producer == PIdle && |s.written| - s.popped < |s.slots| - 1
  {
    hide Ring, TasksInv, SentInv, DataInv, CleanerInv;
    RingCount(s.slots, s.read, s.write, s.written, s.popped);
  }

  // ---------------------------------------------------------------- no task is blocked

  /** Whatever a task is at, the move it makes next; the search used is the binary one. */
  lemma NextMove(s: State, c: Config, t: nat, task: Task) returns (l: Label, task': Task)
    requires Inv(s, c) && TaskInv(task, s.slots, s.read, s.write, s.written, s.popped, c.lay)
    requires !task.Recording? && !task.Built? && !task.Waits?
    ensures TaskMove(s, c, l, task, task')
    ensures l.Look? || l.Classify? || l.Search? || l.Scan? || l.Advance? || l.Settle? || l.Build? || l.TestRunMarker?
    ensures l.t == t
  {
    hide Ring, TasksInv, SentInv, DataInv, ProducerInv, CleanerInv, GuardInv, Overlap, Due, MayWait, Covered;
    hide ElementPieces, SearchMisses, SearchPos, Deref, Finished, Slot, Good, Layout.Span;
    var n := |s.slots|;
    if task.Entered? {
      l := Look(t);
      task' := if s.read == s.write then Built(Job(task.win, s.popped, |s.written|), |s.written|, [])
               else Looked(task.win);
    } else if task.Looked? {
      l, task' := Classify(t), Classified(s, task.win);
    } else if task.Searching? {
      RingCount(s.slots, s.read, s.write, s.written, s.popped);
      l, task' := Search(t, false), Searched(s, c.lay, task.job, false);
    } else if task.Scanning? {
      l, task' := Scan(t), Scanned(s, c.lay, task);
    } else if task.Advancing? {
      l := Advance(t);
      task' := if Good(task.index, s.read, s.write)
               then Settling(task.job, Next(task.index, n), task.at + 1, task.pieces)
               else Settling(task.job, task.index, task.at, task.pieces);
    } else if task.Settling? {
      l := Settle(t);
      task' := if Good(task.index, s.read, s.write) then Scanning(task.job, task.index, task.at, task.pieces)
               else Gathered(task.job, task.at, task.pieces);
    } else if task.Gathered? {
      l, task' := Build(t), Built(task.job, task.at, Deref(task.pieces, s.slots));
    } else {
      l, task' := TestRunMarker(t), if s.runMarker then Waits(task.job) else Built(task.job, |s.written|, []);
    }
  }

  /** No task inside the guarded section is ever blocked: it has a move of its own to make, or leaves. */
  lemma TaskIsNeverBlocked(states: seq<State>, labels: seq<Label>, c: Config, i: nat, t: nat)
    returns (l: Label, s': State)
    requires Run(states, labels, c) && i < |states| && t in states[i].tasks
    ensures Legal(states[i], c) && TaskStep(states[i], c, l, s')
    ensures !l.Enter? && !l.EnterRecorder? && l.t == t
  {
    RunInv(states, labels, c, i);
    hide Run, Ring, SentInv, DataInv, ProducerInv, CleanerInv, TaskInv, TaskMove;
    var s, task := states[i], states[i].tasks[t];
    if task.Recording? || task.Built? || task.Waits? {
      l := Leave(t);
      s' := s.(tasks := s.tasks - {t}, requestsRunning := s.requestsRunning - 1,
               sent := if task.Built? then s.sent + [Delivery(task.job, task.at, task.fragment)] else s.sent);
    } else {
      var task';
      l, task' := NextMove(s, c, t, task);
      s' := s.(tasks := s.tasks[t := task']);
      assert s'.tasks[t] == task';
      MoveIsStep(s, c, l, s', task');
    }
  }

  lemma MoveIsStep(s: State, c: Config, l: Label, s': State, task': Task)
    requires Legal(s, c)
    requires l.Look? || l.Classify? || l.Search? || l.Scan? || l.Advance? || l.Settle? || l.Build? || l.TestRunMarker?
    requires l.t in s.tasks && TaskMove(s, c, l, s.tasks[l.t], task') && s' == s.(tasks := s.tasks[l.t := task'])
    ensures TaskStep(s, c, l, s')
  {
    hide TaskMove;
  }

  /** The cleanup thread never looks at the front of an empty queue before a pop, pops only elements older
      than the watermark it read, and, with a share below one, finds an element at the front when it looks there
      for the last time. */
  lemma CleanupIsBounded(states: seq<State>, labels: seq<Label>, c: Config, i: nat)
    requires Run(states, labels, c) && i < |states|
    ensures var s := states[i];
            && (s.cleaner.CCleaning? && s.cleaner.done < s.cleaner.toPop ==> s.read != s.write)
            && (s.cleaner.CFront? ==> s.read != s.write)
            && (s.cleaner.CPopping? ==> s.popped < |s.written| && s.written[s.popped].ts < s.cleaner.mark)
            && (s.cleaner == CForgetting && c.popShare < 1.0 ==> s.read != s.write)
  {
    RunInv(states, labels, c, i);
    RingCount(states[i].slots, states[i].read, states[i].write, states[i].written, states[i].popped);
    hide Run, Ring, TasksInv, SentInv, DataInv;
  }
}
