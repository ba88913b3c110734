/** Recording of the data stream to a file while the producer writes and the cleanup thread pops.
    The recorder searches inside the guarded section, but walks on with its iterator outside of it; what
    protects the elements it still needs is a watermark below which alone the cleanup thread pops.
    Each evaluation of the iterator's `good` is two loads, between which anything may happen. */
module Recording {
  import opened RingMath
  import opened RingBuffer
  import opened Elements
  import opened LowerBound

  /** The watermark while nothing is being recorded. */
  const NO_MARK: nat := TWO_TO_THE_64 - 1

  datatype Producer = PIdle | PReserved | PConstructed(e: Element)

  /** `CFront` has found the queue not empty; `mark` is the watermark that allowed the pop. */
  datatype Cleaner = CIdle | CCleaning | CFront | CPopping(mark: nat)

  /** `index` is the slot the iterator names and `at` its position; `r` is the read index that the
      evaluation of `good` under way has loaded. */
  datatype Recorder =
    | Off
    | Top
    | HaveFront(ts: nat, from: nat)
    | Search
    | Test(index: nat, at: nat)
    | TestLoaded(index: nat, at: nat, r: nat)
    | Body(index: nat, at: nat)
    | Marking(index: nat, at: nat, mark: nat)
    | Inc(index: nat, at: nat)
    | IncLoaded(index: nat, at: nat, r: nat)
    | Inc2(index: nat, at: nat)
    | Inc2Loaded(index: nat, at: nat, r: nat)

  /** `file` is what this recording has written so far, the elements of the positions `first` to `next - 1`;
      `from` is the position whose timestamp the watermark had first. */
  datatype State = State(
    slots: seq<Element>, read: nat, write: nat, written: seq<Element>, popped: nat,
    producer: Producer, cleaner: Cleaner, watermark: nat,
    recorder: Recorder, file: seq<Element>, from: nat, first: nat, next: nat)

  datatype Label =
    | Reserve | Construct(e: Element) | Publish
    | BeginCleanup | LookAtFront | CheckFront | PopFront | EndCleanup
    | Start | LoadFront | StoreMark | KeepMark | LowerBound
    | LoadRead | LoadWrite | WriteFile | SkipElement | RaiseMark | LeaveLoop | Stop

  ghost predicate Init(s: State, lay: Layout) {
    && lay.Valid()
    && 2 <= |s.slots| && s.read == 0 && s.write == 0 && s.written == [] && s.popped == 0
    && s.producer == PIdle && s.cleaner == CIdle && s.watermark == NO_MARK
    && s.recorder == Off && s.file == [] && s.first == 0 && s.next == 0
  }

  ghost predicate Legal(s: State, lay: Layout) {
    && lay.Valid() && s.read < |s.slots| && s.write < |s.slots| && s.popped <= |s.written|
    && (match s.recorder
        case Test(index, _) => index < |s.slots|
        case TestLoaded(index, _, r) => index < |s.slots| && r < |s.slots|
        case Body(index, _) => index < |s.slots|
        case Marking(index, _, _) => index < |s.slots|
        case Inc(index, _) => index < |s.slots|
        case IncLoaded(index, _, r) => index < |s.slots| && r < |s.slots|
        case Inc2(index, _) => index < |s.slots|
        case Inc2Loaded(index, _, r) => index < |s.slots| && r < |s.slots|
        case _ => true)
  }

  ghost predicate ProducerStep(s: State, lay: Layout, l: Label, s': State)
    requires Legal(s, lay)
  {
    match l
    case Reserve =>
      s.producer == PIdle && Next(s.write, |s.slots|) != s.read && s' == s.(producer := PReserved)
    case Construct(e) =>
      // elements do not overlap
      && s.producer == PReserved
      && WellFormed(e, lay) && (s.written != [] ==> s.written[|s.written| - 1].ts + lay.Span() <= e.ts)
      && s' == s.(slots := s.slots[s.write := e], producer := PConstructed(e))
    case Publish =>
      && s.producer.PConstructed?
      && s' == s.(write := Next(s.write, |s.slots|), written := s.written + [s.producer.e], producer := PIdle)
    case _ => false
  }

  ghost predicate CleanerStep(s: State, lay: Layout, l: Label, s': State)
    requires Legal(s, lay)
  {
    match l
    case BeginCleanup => s.cleaner == CIdle && s' == s.(cleaner := CCleaning)
    case LookAtFront => s.cleaner == CCleaning && s.read != s.write && s' == s.(cleaner := CFront)
    case CheckFront =>
      && s.cleaner == CFront
      && s' == s.(cleaner := if s.slots[s.read].ts < s.watermark then CPopping(s.watermark) else CCleaning)
    case PopFront =>
      && s.cleaner.CPopping?
      && s' == s.(read := Next(s.read, |s.slots|), popped := s.popped + 1, cleaner := CCleaning)
    case EndCleanup => s.cleaner == CCleaning && s' == s.(cleaner := CIdle)
    case _ => false
  }

  /** Where the search leaves the recorder. */
  function SearchOutcome(s: State): (s': State)
    requires s.popped <= |s.written| && 0 < |s.slots|
  {
    var es := s.written[s.popped..];
    if es == [] || s.watermark < es[0].ts then s.(recorder := Top)
    else
      var at := s.popped + LowerBoundPos(es, s.watermark);
      s.(recorder := Test(Slot(at, |s.slots|), at))
  }

  ghost predicate RecorderStep(s: State, lay: Layout, l: Label, s': State)
    requires Legal(s, lay)
  {
    var n := |s.slots|;
    match l
    case Start =>
      && s.recorder == Off
      && s' == s.(recorder := Top, watermark := 0, file := [], first := 0, next := 0)
    case LoadFront =>
      && s.recorder == Top && s.watermark == 0
      && s' == s.(recorder := HaveFront(if s.read == s.write then 0 else s.slots[s.read].ts, s.popped))
    case StoreMark =>
      && s.recorder.HaveFront?
      && s' == s.(recorder := Search, watermark := s.recorder.ts, from := s.recorder.from)
    case KeepMark =>
      s.recorder == Top && s.watermark != 0 && s' == s.(recorder := Search)
    case LowerBound =>
      // the task counter keeps the cleanup thread out during the search: `RequestProtocol.MutualExclusion`
      && s.recorder == Search && s.cleaner == CIdle
      && s' == SearchOutcome(s)
    case LoadRead =>
      || (s.recorder.Test? && s' == s.(recorder := TestLoaded(s.recorder.index, s.recorder.at, s.read)))
      || (s.recorder.Inc? && s' == s.(recorder := IncLoaded(s.recorder.index, s.recorder.at, s.read)))
      || (s.recorder.Inc2? && s' == s.(recorder := Inc2Loaded(s.recorder.index, s.recorder.at, s.read)))
    case LoadWrite =>
      // the loop's test
      || (s.recorder.TestLoaded?
          && s' == s.(recorder := if Good(s.recorder.index, s.recorder.r, s.write)
                                  then Body(s.recorder.index, s.recorder.at) else Top))
      // operator++: step forward if good, then run off the end if not good
      || (s.recorder.IncLoaded?
          && s' == s.(recorder := if Good(s.recorder.index, s.recorder.r, s.write)
                                  then Inc2(Next(s.recorder.index, n), s.recorder.at + 1)
                                  else Inc2(s.recorder.index, s.recorder.at)))
      || (s.recorder.Inc2Loaded?
          && s' == s.(recorder := if Good(s.recorder.index, s.recorder.r, s.write)
                                  then Test(s.recorder.index, s.recorder.at) else Top))
    case WriteFile =>
      && s.recorder.Body?
      && var e, at := s.slots[s.recorder.index], s.recorder.at;
      && s.watermark <= e.ts
      && s' == s.(file := s.file + [e], first := if s.file == [] then at else s.first, next := at + 1,
                  recorder := Marking(s.recorder.index, at, e.ts + lay.Span()))
    case SkipElement =>
      && s.recorder.Body? && s.slots[s.recorder.index].ts < s.watermark
      && s' == s.(recorder := Inc(s.recorder.index, s.recorder.at))
    case RaiseMark =>
      && s.recorder.Marking?
      && s' == s.(watermark := s.recorder.mark, recorder := Inc(s.recorder.index, s.recorder.at))
    case LeaveLoop =>
      // enough elements in one go
      s.recorder.Test? && s' == s.(recorder := Top)
    case Stop =>
      s.recorder == Top && s' == s.(recorder := Off, watermark := NO_MARK)
    case _ => false
  }

  ghost predicate Step(s: State, lay: Layout, l: Label, s': State)
    requires Legal(s, lay)
  {
    ProducerStep(s, lay, l, s') || CleanerStep(s, lay, l, s') || RecorderStep(s, lay, l, s')
  }

  // ---------------------------------------------------------------- the invariant

  ghost predicate NonOverlapping(es: seq<Element>, lay: Layout)
    requires lay.Valid()
  {
    forall i, j :: 0 <= i < j < |es| ==> es[i].ts + lay.Span() <= es[j].ts
  }

  ghost predicate RingInv(s: State) {
    && Ring(s.slots, s.read, s.write, s.written, s.popped)
    && Retained(s.slots, s.written, s.popped)
    && (s.producer != PIdle ==> |s.written| - s.popped < |s.slots| - 1)
    && (s.producer.PConstructed? && s.write < |s.slots| ==> s.slots[s.write] == s.producer.e)
    && (s.cleaner.CFront? ==> s.popped < |s.written|)
    && (s.cleaner.CPopping? ==> s.popped < |s.written| && s.written[s.popped].ts < s.cleaner.mark)
  }

  ghost predicate DataInv(s: State, lay: Layout)
    requires lay.Valid()
  {
    && NonOverlapping(s.written, lay) && AllWellFormed(s.written, lay)
    && (s.producer.PConstructed? ==>
          && WellFormed(s.producer.e, lay)
          && (s.written != [] ==> s.written[|s.written| - 1].ts + lay.Span() <= s.producer.e.ts))
  }

  /** Position `g` is the one the recorder needs next: everything before it is below the watermark and
      it is not, so the cleanup thread cannot pop it and has not decided to. */
  ghost predicate Guards(written: seq<Element>, popped: nat, cleaner: Cleaner, watermark: nat, g: nat) {
    && popped <= g <= |written|
    && (0 < g ==> written[g - 1].ts < watermark)
    && (g < |written| ==> watermark <= written[g].ts)
    && (cleaner.CPopping? ==> popped < g)
  }

  /** While something has been recorded, the watermark is the end of the last recorded element. */
  ghost predicate Follows(s: State, lay: Layout)
    requires lay.Valid()
  {
    && 0 < s.next <= |s.written|
    && s.watermark == s.written[s.next - 1].ts + lay.Span()
    && Guards(s.written, s.popped, s.cleaner, s.watermark, s.next)
  }

  ghost predicate FileInv(s: State) {
    s.first <= s.next <= |s.written| && s.file == s.written[s.first..s.next]
  }

  ghost predicate RecorderInv(s: State, lay: Layout)
    requires lay.Valid() && 0 < |s.slots|
  {
    match s.recorder
    case Off => s.watermark == NO_MARK
    case Top => if s.file == [] then Marked(s) else Follows(s, lay)
    case HaveFront(ts, from) =>
      s.file == [] && s.watermark == 0 && (ts == 0 || (from < |s.written| && ts == s.written[from].ts))
    case Search => if s.file == [] then Marked(s) else Follows(s, lay)
    case Test(index, at) => AtInv(s, lay, index, at)
    case TestLoaded(index, at, _) => AtInv(s, lay, index, at)
    case Body(index, at) => AtInv(s, lay, index, at) && at < |s.written|
    case Marking(index, at, mark) =>
      && s.file != [] && s.next == at + 1 && s.next <= |s.written|
      && index == Slot(at, |s.slots|) && mark == s.written[at].ts + lay.Span()
      && Guards(s.written, s.popped, s.cleaner, s.watermark, at)
    case Inc(index, at) => s.file != [] && Follows(s, lay) && at + 1 == s.next && index == Slot(at, |s.slots|)
    case IncLoaded(index, at, _) => s.file != [] && Follows(s, lay) && at + 1 == s.next && index == Slot(at, |s.slots|)
    case Inc2(index, at) => s.file != [] && AtInv(s, lay, index, at)
    case Inc2Loaded(index, at, _) => s.file != [] && AtInv(s, lay, index, at)
  }

  /** Nothing recorded yet: the watermark is zero or the timestamp of the element it was taken from. */
  ghost predicate Marked(s: State) {
    s.watermark == 0 || (s.from < |s.written| && s.watermark == s.written[s.from].ts)
  }

  /** The iterator names the position needed next or, when a stale test of `good` kept it back, the one
      recorded last. */
  ghost predicate AtInv(s: State, lay: Layout, index: nat, at: nat)
    requires lay.Valid() && 0 < |s.slots|
  {
    && index == Slot(at, |s.slots|) && at <= |s.written|
    && if s.file == [] then Marked(s) && at < |s.written| && Guards(s.written, s.popped, s.cleaner, s.watermark, at)
       else Follows(s, lay) && (at == s.next || at + 1 == s.next)
  }

  ghost predicate Inv(s: State, lay: Layout) {
    Legal(s, lay) && RingInv(s) && DataInv(s, lay) && FileInv(s) && RecorderInv(s, lay)
  }

  lemma InitInv(s: State, lay: Layout)
    requires Init(s, lay)
    ensures Inv(s, lay)
  {
  }

  /** A slot whose position was reached, and not popped but perhaps for the last, holds its element. */
  lemma SlotHolds(s: State, at: nat)
    requires RingInv(s) && s.popped <= at + 1 <= |s.written|
    ensures s.slots[Slot(at, |s.slots|)] == s.written[at]
  {
    if s.popped <= at {
      RingAt(s.slots, s.read, s.write, s.written, s.popped, at);
    }
  }

  /** No stale read index makes an iterator at the write index good. */
  lemma GoodIsWritten(s: State, index: nat, at: nat, r: nat)
    requires RingInv(s) && index == Slot(at, |s.slots|) && at <= |s.written| && Good(index, r, s.write)
    ensures at < |s.written|
  {
  }

  lemma DataAfterPublish(written: seq<Element>, e: Element, lay: Layout)
    requires lay.Valid() && NonOverlapping(written, lay) && AllWellFormed(written, lay) && WellFormed(e, lay)
    requires written != [] ==> written[|written| - 1].ts + lay.Span() <= e.ts
    ensures NonOverlapping(written + [e], lay) && AllWellFormed(written + [e], lay)
  {
    hide WellFormed, Layout.Span;
    forall i, j | 0 <= i < j < |written + [e]|
      ensures (written + [e])[i].ts + lay.Span() <= (written + [e])[j].ts
    {
      if j == |written| && i < |written| - 1 {
        assert written[i].ts + lay.Span() <= written[|written| - 1].ts;
      }
    }
  }

  lemma GuardsAfterPublish(written: seq<Element>, popped: nat, cleaner: Cleaner, watermark: nat, g: nat, e: Element)
    requires Guards(written, popped, cleaner, watermark, g)
    requires g == |written| ==> watermark <= e.ts
    ensures Guards(written + [e], popped, cleaner, watermark, g)
  {
  }

  lemma RecorderAfterPublish(s: State, lay: Layout, s': State)
    requires lay.Valid() && 0 < |s.slots| && s.producer.PConstructed? && RecorderInv(s, lay) && DataInv(s, lay)
    requires s' == s.(write := s'.write, written := s.written + [s.producer.e], producer := PIdle)
    ensures RecorderInv(s', lay)
  {
    hide Slot, NonOverlapping, AllWellFormed, WellFormed, Layout.Span;
    var e := s.producer.e;
    if !s.recorder.Off? && !s.recorder.HaveFront? && s.file != [] {
      if s.recorder.Marking? {
        GuardsAfterPublish(s.written, s.popped, s.cleaner, s.watermark, s.recorder.at, e);
      } else {
        GuardsAfterPublish(s.written, s.popped, s.cleaner, s.watermark, s.next, e);
      }
    }
  }

  lemma PublishInv(s: State, lay: Layout, s': State)
    requires Inv(s, lay) && ProducerStep(s, lay, Publish, s')
    ensures Inv(s', lay)
  {
    RingPublish(s.slots, s.read, s.write, s.written, s.popped, s.producer.e);
    DataAfterPublish(s.written, s.producer.e, lay);
    RecorderAfterPublish(s, lay, s');
    assert s'.written[s.first..s.next] == s.written[s.first..s.next];
    assert Retained(s'.slots, s'.written, s'.popped);
    hide Ring, Retained, Slot, NonOverlapping, AllWellFormed, WellFormed, Layout.Span, RecorderInv;
    assert Inv(s', lay);
  }

  /** The steps that leave the ring alone keep what is known of it. */
  lemma UnchangedRing(s: State, lay: Layout, s': State)
    requires lay.Valid() && RingInv(s) && DataInv(s, lay)
    requires s'.slots == s.slots && s'.read == s.read && s'.write == s.write && s'.written == s.written
    requires s'.popped == s.popped && s'.producer == s.producer && s'.cleaner == s.cleaner
    ensures RingInv(s') && DataInv(s', lay)
  {
  }

  lemma ReserveInv(s: State, lay: Layout, s': State)
    requires Inv(s, lay) && ProducerStep(s, lay, Reserve, s')
    ensures Inv(s', lay)
  {
    hide Ring, Retained, Slot, NonOverlapping, AllWellFormed, WellFormed, Layout.Span, Guards, RecorderInv;
    RingCount(s.slots, s.read, s.write, s.written, s.popped);
    UnchangedRecorder(s, lay, s');
  }

  /** The recorder's part of the invariant does not look at the producer. */
  lemma UnchangedRecorder(s: State, lay: Layout, s': State)
    requires lay.Valid() && 0 < |s.slots| == |s'.slots| && RecorderInv(s, lay)
    requires s' == s.(slots := s'.slots, producer := s'.producer)
    ensures RecorderInv(s', lay)
  {
    hide Slot, Guards, Layout.Span;
  }

  lemma ConstructInv(s: State, lay: Layout, e: Element, s': State)
    requires Inv(s, lay) && ProducerStep(s, lay, Construct(e), s')
    ensures Inv(s', lay)
  {
    hide Ring, Retained, Slot, NonOverlapping, AllWellFormed, WellFormed, Layout.Span, Guards, RecorderInv;
    RingConstruct(s.slots, s.read, s.write, s.written, s.popped, e);
    RetainedAfterConstruct(s.slots, s.read, s.write, s.written, s.popped, e);
    UnchangedRecorder(s, lay, s');
  }

  lemma ProducerStepInv(s: State, lay: Layout, l: Label, s': State)
    requires Inv(s, lay) && ProducerStep(s, lay, l, s')
    ensures Inv(s', lay)
  {
    hide Inv;
    if l.Reserve? {
      ReserveInv(s, lay, s');
    } else if l.Construct? {
      ConstructInv(s, lay, l.e, s');
    } else {
      PublishInv(s, lay, s');
    }
  }

  lemma CleanerRing(s: State, lay: Layout, l: Label, s': State)
    requires Legal(s, lay) && RingInv(s) && CleanerStep(s, lay, l, s')
    ensures RingInv(s')
    ensures l.CheckFront? && s'.cleaner.CPopping? ==> s.popped < |s.written| && s.written[s.popped].ts < s.watermark
    ensures l.PopFront? ==> s.popped < |s.written|
  {
    hide Ring, Slot, Good, Idx;
    RingCount(s.slots, s.read, s.write, s.written, s.popped);
    if s.popped < |s.written| {
      ReadIsSlot(s);
      RingAt(s.slots, s.read, s.write, s.written, s.popped, s.popped);
      RingPop(s.slots, s.read, s.write, s.written, s.popped);
    }
  }

  lemma ReadIsSlot(s: State)
    requires Ring(s.slots, s.read, s.write, s.written, s.popped)
    ensures s.read == Slot(s.popped, |s.slots|)
  {
  }

  /** Neither a decision to pop nor a pop reaches the position the recorder needs. */
  lemma GuardsAfterCleaner(s: State, lay: Layout, l: Label, s': State, g: nat)
    requires Legal(s, lay) && CleanerStep(s, lay, l, s')
    requires l.CheckFront? && s'.cleaner.CPopping? ==>
               s.popped < |s.written| && s.written[s.popped].ts < s.watermark
    requires Guards(s.written, s.popped, s.cleaner, s.watermark, g)
    ensures Guards(s'.written, s'.popped, s'.cleaner, s'.watermark, g)
  {
  }

  lemma RecorderAfterCleaner(s: State, lay: Layout, s': State)
    requires lay.Valid() && 0 < |s.slots| && RecorderInv(s, lay)
    requires s' == s.(read := s'.read, popped := s'.popped, cleaner := s'.cleaner)
    requires forall g :: Guards(s.written, s.popped, s.cleaner, s.watermark, g)
                         ==> Guards(s'.written, s'.popped, s'.cleaner, s'.watermark, g)
    ensures RecorderInv(s', lay)
  {
    hide Slot, Guards, Layout.Span;
  }

  lemma CleanerStepInv(s: State, lay: Layout, l: Label, s': State)
    requires Inv(s, lay) && CleanerStep(s, lay, l, s')
    ensures Inv(s', lay)
  {
    hide RingInv, NonOverlapping, AllWellFormed, WellFormed, Layout.Span, Guards, RecorderInv;
    CleanerRing(s, lay, l, s');
    forall g | Guards(s.written, s.popped, s.cleaner, s.watermark, g)
      ensures Guards(s'.written, s'.popped, s'.cleaner, s'.watermark, g)
    {
      GuardsAfterCleaner(s, lay, l, s', g);
    }
    RecorderAfterCleaner(s, lay, s');
  }

  /** The search finds the position that the recorder needs. */
  lemma SearchFinds(s: State, lay: Layout, at: nat)
    requires lay.Valid() && 0 < |s.slots| && NonOverlapping(s.written, lay)
    requires s.popped < |s.written| && s.written[s.popped].ts <= s.watermark && s.cleaner == CIdle
    requires if s.file == [] then Marked(s) else Follows(s, lay)
    requires at == s.popped + LowerBoundPos(s.written[s.popped..], s.watermark)
    ensures AtInv(s, lay, Slot(at, |s.slots|), at)
    ensures s.file != [] ==> at == s.next
  {
    hide NonOverlapping, LowerBoundPos, Slot, Layout.Span;
    FoundIsNeeded(s.written, s.popped, s.watermark, lay);
    if s.file != [] {
      FollowingIsFound(s.written, s.popped, s.watermark, s.next, lay);
    } else if s.watermark != 0 {
      MarkIsFound(s.written, s.popped, s.watermark, s.from, lay);
    }
  }

  lemma LowerBoundInv(s: State, lay: Layout, s': State)
    requires Inv(s, lay) && RecorderStep(s, lay, LowerBound, s')
    ensures Inv(s', lay)
  {
    hide RingInv, NonOverlapping, AllWellFormed, WellFormed, Layout.Span, LowerBoundPos, Slot, Guards;
    UnchangedRing(s, lay, s');
    if s'.recorder.Test? {
      assert s.written[s.popped..][0] == s.written[s.popped];
      SearchFinds(s, lay, s'.recorder.at);
    }
  }

  lemma FoundIsNeeded(written: seq<Element>, popped: nat, watermark: nat, lay: Layout)
    requires lay.Valid() && NonOverlapping(written, lay) && popped < |written| && written[popped].ts <= watermark
    ensures var at := popped + LowerBoundPos(written[popped..], watermark);
            && at <= |written|
            && (0 < at ==> written[at - 1].ts < watermark)
            && (at < |written| ==> watermark <= written[at].ts)
            && (watermark == 0 ==> at == popped)
  {
    var es := written[popped..];
    var p := LowerBoundPos(es, watermark);
    if 0 < p {
      assert es[p - 1] == written[popped + p - 1];
    } else if 0 < popped {
      assert written[popped - 1].ts + lay.Span() <= written[popped].ts;
    }
  }

  lemma MarkIsFound(written: seq<Element>, popped: nat, watermark: nat, from: nat, lay: Layout)
    requires lay.Valid() && NonOverlapping(written, lay) && popped < |written| && written[popped].ts <= watermark
    requires from < |written| && watermark == written[from].ts
    ensures popped + LowerBoundPos(written[popped..], watermark) == from
  {
    var es := written[popped..];
    if from < popped {
      assert false;
    }
    IncreasingTail(written, popped, lay);
    if popped < from {
      assert es[from - popped - 1] == written[from - 1];
      assert written[from - 1].ts + lay.Span() <= written[from].ts;
    }
    LowerBoundPosUnique(es, watermark, from - popped);
  }

  lemma IncreasingTail(written: seq<Element>, popped: nat, lay: Layout)
    requires lay.Valid() && NonOverlapping(written, lay) && popped <= |written|
    ensures Increasing(written[popped..])
  {
  }

  lemma FollowingIsFound(written: seq<Element>, popped: nat, watermark: nat, next: nat, lay: Layout)
    requires lay.Valid() && NonOverlapping(written, lay) && popped <= next <= |written|
    requires 0 < next && written[next - 1].ts < watermark && (next < |written| ==> watermark <= written[next].ts)
    ensures popped + LowerBoundPos(written[popped..], watermark) == next
  {
    var es := written[popped..];
    IncreasingTail(written, popped, lay);
    if popped < next {
      assert es[next - popped - 1] == written[next - 1];
    }
    LowerBoundPosUnique(es, watermark, next - popped);
  }

  lemma LoadWriteInv(s: State, lay: Layout, s': State)
    requires Inv(s, lay) && RecorderStep(s, lay, LoadWrite, s')
    ensures Inv(s', lay)
  {
    hide RingInv, NonOverlapping, AllWellFormed, WellFormed, Layout.Span, Good, Slot, Guards;
    UnchangedRing(s, lay, s');
    var index, at, r := s.recorder.index, s.recorder.at, s.recorder.r;
    if Good(index, r, s.write) {
      GoodIsWritten(s, index, at, r);
      NextSlot(at, |s.slots|);
    }
  }

  /** An element that is written is the one needed next: the one recorded last is below the watermark. */
  lemma WriteFileInv(s: State, lay: Layout, s': State)
    requires Inv(s, lay) && RecorderStep(s, lay, WriteFile, s')
    ensures Inv(s', lay)
  {
    hide RingInv, NonOverlapping, AllWellFormed, WellFormed, Slot;
    UnchangedRing(s, lay, s');
    var at := s.recorder.at;
    SlotHolds(s, at);
    if s.file == [] {
      assert s'.file == s.written[at..at + 1];
    } else {
      assert at == s.next;
      assert s.written[s.first..at + 1] == s.written[s.first..at] + [s.written[at]];
    }
  }

  lemma SkipElementInv(s: State, lay: Layout, s': State)
    requires Inv(s, lay) && RecorderStep(s, lay, SkipElement, s')
    ensures Inv(s', lay)
  {
    hide RingInv, NonOverlapping, AllWellFormed, WellFormed, Slot;
    UnchangedRing(s, lay, s');
    SlotHolds(s, s.recorder.at);
  }

  lemma NextStartsLater(written: seq<Element>, lay: Layout, at: nat)
    requires lay.Valid() && NonOverlapping(written, lay) && at < |written|
    ensures at + 1 < |written| ==> written[at].ts + lay.Span() <= written[at + 1].ts
    ensures written[at].ts < written[at].ts + lay.Span()
  {
  }

  lemma RaiseMarkInv(s: State, lay: Layout, s': State)
    requires Inv(s, lay) && RecorderStep(s, lay, RaiseMark, s')
    ensures Inv(s', lay)
  {
    hide RingInv, NonOverlapping, AllWellFormed, WellFormed, Slot, Layout.Span;
    UnchangedRing(s, lay, s');
    NextStartsLater(s.written, lay, s.recorder.at);
  }

  lemma LoadFrontInv(s: State, lay: Layout, s': State)
    requires Inv(s, lay) && RecorderStep(s, lay, LoadFront, s')
    ensures Inv(s', lay)
  {
    hide DataInv, Slot, Good, Idx, Layout.Span;
    RingCount(s.slots, s.read, s.write, s.written, s.popped);
    if s.popped < |s.written| {
      RingAt(s.slots, s.read, s.write, s.written, s.popped, s.popped);
      ReadIsSlot(s);
    }
    hide RingInv;
    UnchangedRing(s, lay, s');
  }

  lemma SimpleStepInv(s: State, lay: Layout, l: Label, s': State)
    requires Inv(s, lay) && RecorderStep(s, lay, l, s')
    requires l.Start? || l.StoreMark? || l.KeepMark? || l.LoadRead? || l.LeaveLoop? || l.Stop?
    ensures Inv(s', lay)
  {
    hide RingInv, DataInv, Guards, Slot, Layout.Span;
    UnchangedRing(s, lay, s');
  }

  lemma RecorderStepInv(s: State, lay: Layout, l: Label, s': State)
    requires Inv(s, lay) && RecorderStep(s, lay, l, s')
    ensures Inv(s', lay)
  {
    hide Inv, LowerBoundPos;
    if l.LowerBound? {
      LowerBoundInv(s, lay, s');
    } else if l.LoadWrite? {
      LoadWriteInv(s, lay, s');
    } else if l.WriteFile? {
      WriteFileInv(s, lay, s');
    } else if l.SkipElement? {
      SkipElementInv(s, lay, s');
    } else if l.RaiseMark? {
      RaiseMarkInv(s, lay, s');
    } else if l.LoadFront? {
      LoadFrontInv(s, lay, s');
    } else {
      SimpleStepInv(s, lay, l, s');
    }
  }

  lemma StepInv(s: State, lay: Layout, l: Label, s': State)
    requires Inv(s, lay) && Step(s, lay, l, s')
    ensures Inv(s', lay)
  {
    hide Inv, ProducerStep, CleanerStep, RecorderStep;
    assert Legal(s, lay) by { InvIsLegal(s, lay); }
    if ProducerStep(s, lay, l, s') {
      ProducerStepInv(s, lay, l, s');
    } else if CleanerStep(s, lay, l, s') {
      CleanerStepInv(s, lay, l, s');
    } else {
      RecorderStepInv(s, lay, l, s');
    }
  }

  lemma InvIsLegal(s: State, lay: Layout)
    requires Inv(s, lay)
    ensures Legal(s, lay)
  {
  }

  // ---------------------------------------------------------------- whole runs

  ghost predicate Run(states: seq<State>, labels: seq<Label>, lay: Layout) {
    && |states| == |labels| + 1
    && Init(states[0], lay)
    && forall i :: 0 <= i < |labels| ==> Legal(states[i], lay) && Step(states[i], lay, labels[i], states[i + 1])
  }

  lemma {:induction false} RunInv(states: seq<State>, labels: seq<Label>, lay: Layout, i: nat)
    requires Run(states, labels, lay) && i < |states|
    ensures Inv(states[i], lay)
  {
    hide Init, Legal, Step, Inv;
    if i == 0 {
      InitInv(states[0], lay);
    } else {
      RunInv(states, labels, lay, i - 1);
      StepInv(states[i - 1], lay, labels[i - 1], states[i]);
    }
  }

  /** Whatever the producer and the cleanup thread do, the file is a contiguous segment of the stream: consecutive
      elements in order, none left out, none twice. */
  lemma RecordingIsContiguous(states: seq<State>, labels: seq<Label>, lay: Layout, i: nat)
    requires Run(states, labels, lay) && i < |states|
    ensures states[i].first <= states[i].next <= |states[i].written|
    ensures states[i].file == states[i].written[states[i].first..states[i].next]
  {
    hide Run, Legal, RingInv, DataInv, RecorderInv;
    RunInv(states, labels, lay, i);
  }

  /** The cleanup thread pops nothing that is still to be recorded. */
  lemma CleanupStaysBehind(states: seq<State>, labels: seq<Label>, lay: Layout, i: nat)
    requires Run(states, labels, lay) && i < |states|
    requires states[i].recorder != Off && states[i].file != []
    ensures states[i].popped <= states[i].next
  {
    hide Run, Legal, RingInv, DataInv;
    RunInv(states, labels, lay, i);
  }

  /** At every moment of a write to the file, the bytes come from a live slot that holds the element due: the
      one after the last recorded one. */
  lemma WrittenElementIsLive(states: seq<State>, labels: seq<Label>, lay: Layout, i: nat)
    requires Run(states, labels, lay) && i < |states| && states[i].recorder.Body?
    requires var s := states[i];
             s.recorder.index < |s.slots| && s.watermark <= s.slots[s.recorder.index].ts
    ensures var s := states[i];
            && s.popped <= s.recorder.at < |s.written|
            && Good(s.recorder.index, s.read, s.write)
            && s.slots[s.recorder.index] == s.written[s.recorder.at]
            && (s.file != [] ==> s.recorder.at == s.next)
  {
    RunInv(states, labels, lay, i);
    hide Run, Init, Step, NonOverlapping, AllWellFormed, Retained, Slot, Good, Ring;
    var s := states[i];
    SlotHolds(s, s.recorder.at);
    if s.file != [] && s.recorder.at != s.next {
      assert false;
    }
    RingAt(s.slots, s.read, s.write, s.written, s.popped, s.recorder.at);
  }

  /** Everything recorded may be popped: outside of the moment between a write and the raising of the watermark, all
      recorded elements are below it. */
  lemma RecordedMayBePopped(states: seq<State>, labels: seq<Label>, lay: Layout, i: nat)
    requires Run(states, labels, lay) && i < |states| && states[i].file != []
    requires states[i].recorder != Off && !states[i].recorder.Marking?
    ensures var s := states[i];
            s.next <= |s.written| && forall k :: 0 <= k < s.next ==> s.written[k].ts < s.watermark
  {
    RunInv(states, labels, lay, i);
    hide Run, RingInv, AllWellFormed, Slot;
    var s := states[i];
    forall k | 0 <= k < s.next
      ensures s.written[k].ts < s.watermark
    {
      if k < s.next - 1 {
        assert s.written[k].ts + lay.Span() <= s.written[s.next - 1].ts;
      }
    }
  }

  /** The check of the front decides to pop exactly when the oldest element is below the watermark. */
  lemma CheckIsExact(s: State, lay: Layout, s': State)
    requires Inv(s, lay) && CleanerStep(s, lay, CheckFront, s')
    ensures s.popped < |s.written|
    ensures s'.cleaner.CPopping? <==> s.written[s.popped].ts < s.watermark
    ensures s.recorder == Off ==> s'.cleaner.CPopping?
  {
    hide Slot, Good, Idx, NonOverlapping;
    RingAt(s.slots, s.read, s.write, s.written, s.popped, s.popped);
    ReadIsSlot(s);
    hide Ring, Retained;
    assert WellFormed(s.written[s.popped], lay);
  }

  /** While no recording is going on the cleanup thread pops whatever it finds at the front. */
  lemma IdleCleanupPops(states: seq<State>, labels: seq<Label>, lay: Layout, i: nat)
    requires Run(states, labels, lay) && i < |labels| && labels[i] == CheckFront
    ensures states[i + 1].cleaner.CPopping? <==>
              states[i].popped < |states[i].written| && states[i].written[states[i].popped].ts < states[i].watermark
    ensures states[i].recorder == Off ==> states[i + 1].cleaner.CPopping?
  {
    hide Inv, ProducerStep, RecorderStep;
    RunInv(states, labels, lay, i);
    assert Step(states[i], lay, labels[i], states[i + 1]);
    OnlyCleanerChecks(states[i], lay, states[i + 1]);
    CheckIsExact(states[i], lay, states[i + 1]);
  }

  lemma OnlyCleanerChecks(s: State, lay: Layout, s': State)
    requires Legal(s, lay) && Step(s, lay, CheckFront, s')
    ensures CleanerStep(s, lay, CheckFront, s')
  {
  }

  /** A write begins if and only if fewer than `size - 1` elements are in the ring. */
  lemma WriteBeginsIffNotFull(s: State, lay: Layout)
    requires Inv(s, lay)
    ensures ProducerStep(s, lay, Reserve, s.(producer := PReserved))
            <==> s.producer == PIdle && |s.written| - s.popped < |s.slots| - 1
  {
    hide Ring, Retained, DataInv, RecorderInv;
    RingCount(s.slots, s.read, s.write, s.written, s.popped);
  }

  /** The recorder is never blocked but in the wait for a cleanup to end: in every other state it has a step to take,
      and the iterator names a slot of the buffer. */
  lemma RecorderCanMove(s: State, lay: Layout) returns (l: Label, s': State)
    requires Inv(s, lay) && s.recorder != Off && (s.recorder == Search ==> s.cleaner == CIdle)
    ensures RecorderStep(s, lay, l, s') && l != Stop && l != LeaveLoop
  {
    hide RingInv, DataInv, RecorderInv, FileInv, LowerBoundPos, Slot;
    var r := s.recorder;
    l, s' := LoadRead, s;
    if r == Top {
      if s.watermark == 0 {
        l := LoadFront;
        s' := s.(recorder := HaveFront(if s.read == s.write then 0 else s.slots[s.read].ts, s.popped));
      } else {
        l, s' := KeepMark, s.(recorder := Search);
      }
    } else if r.HaveFront? {
      l, s' := StoreMark, s.(recorder := Search, watermark := r.ts, from := r.from);
    } else if r == Search {
      l, s' := LowerBound, SearchOutcome(s);
    } else if r.Test? {
      s' := s.(recorder := TestLoaded(r.index, r.at, s.read));
    } else if r.TestLoaded? {
      l := LoadWrite;
      s' := s.(recorder := if Good(r.index, r.r, s.write) then Body(r.index, r.at) else Top);
    } else if r.Body? {
      l, s' := BodyOutcome(s, lay);
    } else if r.Marking? {
      l, s' := RaiseMark, s.(watermark := r.mark, recorder := Inc(r.index, r.at));
    } else if r.Inc? {
      s' := s.(recorder := IncLoaded(r.index, r.at, s.read));
    } else if r.IncLoaded? {
      l := LoadWrite;
      s' := s.(recorder := if Good(r.index, r.r, s.write) then Inc2(Next(r.index, |s.slots|), r.at + 1)
                           else Inc2(r.index, r.at));
    } else if r.Inc2? {
      s' := s.(recorder := Inc2Loaded(r.index, r.at, s.read));
    } else {
      l := LoadWrite;
      s' := s.(recorder := if Good(r.index, r.r, s.write) then Test(r.index, r.at) else Top);
    }
  }

  lemma BodyOutcome(s: State, lay: Layout) returns (l: Label, s': State)
    requires Legal(s, lay) && s.recorder.Body?
    ensures RecorderStep(s, lay, l, s') && (l == WriteFile || l == SkipElement)
  {
    hide LowerBoundPos, Slot, Layout.Span;
    var e, at, index := s.slots[s.recorder.index], s.recorder.at, s.recorder.index;
    if s.watermark <= e.ts {
      l := WriteFile;
      s' := s.(file := s.file + [e], first := if s.file == [] then at else s.first, next := at + 1,
               recorder := Marking(index, at, e.ts + lay.Span()));
    } else {
      l, s' := SkipElement, s.(recorder := Inc(index, at));
    }
  }

  // ---------------------------------------------------------------- when recording does not go on

  /** A recording under way resumes exactly where it left off, or not at all. It does not when everything it
      recorded has been popped and the stream has a gap there: the search for the end of the last recorded
      element then meets a front that is newer. */
  lemma ResumesUnlessGapAtFront(s: State, lay: Layout, s': State)
    requires Inv(s, lay) && s.file != [] && RecorderStep(s, lay, LowerBound, s')
    ensures s'.recorder == Test(Slot(s.next, |s.slots|), s.next)
            <==> s.popped < s.next || (s.next < |s.written| && s.written[s.next].ts == s.watermark)
    ensures s.popped == s.next < |s.written| && s.watermark < s.written[s.next].ts ==> Stuck(s')
  {
    hide RingInv, AllWellFormed, WellFormed, Layout.Span, LowerBoundPos, Slot;
    if s.popped < s.next - 1 {
      assert s.written[s.popped].ts + lay.Span() <= s.written[s.next - 1].ts;
    }
    if s.popped < |s.written| {
      assert s.written[s.popped..][0] == s.written[s.popped];
      if s.written[s.popped].ts <= s.watermark {
        SearchFinds(s, lay, s.popped + LowerBoundPos(s.written[s.popped..], s.watermark));
      }
    }
  }

  /** The watermark lies before the oldest buffered element. */
  ghost predicate Stuck(s: State) {
    && (s.recorder == Top || s.recorder == Search) && 0 < s.watermark
    && s.popped < |s.written| && s.watermark < s.written[s.popped].ts
    && !s.cleaner.CPopping?
  }

  /** From there on nothing is recorded and nothing popped. */
  lemma StuckStep(s: State, lay: Layout, l: Label, s': State)
    requires Inv(s, lay) && Step(s, lay, l, s') && Stuck(s) && l != Stop
    ensures Stuck(s') && s'.file == s.file && s'.popped == s.popped
  {
    hide RecorderInv, DataInv, FileInv, Retained, Slot, Good, Idx;
    RingAt(s.slots, s.read, s.write, s.written, s.popped, s.popped);
    ReadIsSlot(s);
    hide RingInv;
    assert s.written[s.popped..][0] == s.written[s.popped];
  }

  /** A recording that is stuck stays so until its time is over, and so does the cleanup. */
  lemma {:induction false} StuckUntilStop(states: seq<State>, labels: seq<Label>, lay: Layout, i: nat, j: nat)
    requires Run(states, labels, lay) && i <= j < |states| && Stuck(states[i])
    requires forall k :: i <= k < j ==> labels[k] != Stop
    ensures Stuck(states[j]) && states[j].file == states[i].file && states[j].popped == states[i].popped
  {
    hide Init, Legal, Step, Inv, Stuck;
    if i < j {
      StuckUntilStop(states, labels, lay, i, j - 1);
      RunInv(states, labels, lay, j - 1);
      StuckStep(states[j - 1], lay, labels[j - 1], states[j]);
    }
  }

  /** While nothing has been recorded yet, no pop is decided, and the watermark is zero or that of the front. */
  ghost predicate Calm(s: State) {
    s.recorder != Off && s.file == [] ==>
      && !s.cleaner.CPopping?
      && (s.watermark == 0 || (s.popped < |s.written| && s.watermark == s.written[s.popped].ts))
      && (s.recorder.HaveFront? && s.recorder.ts != 0
          ==> s.popped < |s.written| && s.recorder.ts == s.written[s.popped].ts)
  }

  lemma CalmStep(s: State, lay: Layout, l: Label, s': State)
    requires Inv(s, lay) && Step(s, lay, l, s') && Calm(s)
    requires l == Start ==> !s.cleaner.CPopping?
    ensures Calm(s')
  {
    hide AtInv, Follows, Marked, Guards, DataInv, FileInv, Retained, Slot, Good, Idx, LowerBoundPos;
    RingCount(s.slots, s.read, s.write, s.written, s.popped);
    if s.popped < |s.written| {
      RingAt(s.slots, s.read, s.write, s.written, s.popped, s.popped);
      ReadIsSlot(s);
    }
    hide RingInv;
  }

  lemma {:induction false} CalmInRuns(states: seq<State>, labels: seq<Label>, lay: Layout, k: nat, i: nat)
    requires Run(states, labels, lay) && k < i < |states|
    requires labels[k] == Start && !states[k].cleaner.CPopping? && forall j :: k < j < i ==> labels[j] != Start
    ensures Calm(states[i])
  {
    hide Init, Legal, Step, Inv, Calm;
    RunInv(states, labels, lay, i - 1);
    if i == k + 1 {
      StartIsFromOff(states[k], lay, states[i]);
    } else {
      CalmInRuns(states, labels, lay, k, i - 1);
    }
    CalmStep(states[i - 1], lay, labels[i - 1], states[i]);
  }

  lemma StartIsFromOff(s: State, lay: Layout, s': State)
    requires Legal(s, lay) && Step(s, lay, Start, s')
    ensures Calm(s)
  {
  }

  /** A recording that has recorded nothing yet is never stuck if no pop was decided at the moment it started,
      whatever happened to earlier recordings. */
  lemma StartIsNotStuck(states: seq<State>, labels: seq<Label>, lay: Layout, k: nat, i: nat)
    requires Run(states, labels, lay) && k < i < |states|
    requires labels[k] == Start && !states[k].cleaner.CPopping? && forall j :: k < j < i ==> labels[j] != Start
    ensures states[i].file == [] ==> !Stuck(states[i])
  {
    hide Run;
    CalmInRuns(states, labels, lay, k, i);
  }

  /** At the head of the loop, with nothing recorded but a watermark taken: the recording is stuck if and only if the
      element that gave the watermark has been popped. */
  lemma StuckIffMarkPopped(s: State, lay: Layout)
    requires Inv(s, lay) && s.file == [] && (s.recorder == Top || s.recorder == Search)
    requires 0 < s.watermark && s.popped < |s.written| && !s.cleaner.CPopping?
    ensures Stuck(s) <==> s.from < s.popped
  {
    hide RingInv, AllWellFormed, WellFormed, Layout.Span;
    if s.from < s.popped {
      assert s.written[s.from].ts + lay.Span() <= s.written[s.popped].ts;
    } else if s.popped < s.from {
      assert s.written[s.popped].ts + lay.Span() <= s.written[s.from].ts;
    }
  }

  lemma Go(states: seq<State>, labels: seq<Label>, lay: Layout, s: State, l: Label, s': State)
    returns (states': seq<State>, labels': seq<Label>)
    requires Run(states, labels, lay) && |states| == |labels| + 1 && states[|labels|] == s
    requires Legal(s, lay) && Step(s, lay, l, s')
    ensures Run(states', labels', lay) && |states'| == |labels'| + 1 && states'[|labels'|] == s'
  {
    hide Init, Legal, Step;
    states', labels' := states + [s'], labels + [l];
    forall i | 0 <= i < |labels'|
      ensures Legal(states'[i], lay) && Step(states'[i], lay, labels'[i], states'[i + 1])
    {
      if i < |labels| {
        assert states'[i] == states[i] && states'[i + 1] == states[i + 1];
      }
    }
  }

  lemma WriteOne(states: seq<State>, labels: seq<Label>, lay: Layout, s: State, e: Element)
    returns (states': seq<State>, labels': seq<Label>)
    requires Run(states, labels, lay) && |states| == |labels| + 1 && states[|labels|] == s
    requires Legal(s, lay) && s.producer == PIdle && Next(s.write, |s.slots|) != s.read
    requires WellFormed(e, lay) && (s.written != [] ==> s.written[|s.written| - 1].ts + lay.Span() <= e.ts)
    ensures Run(states', labels', lay) && |states'| == |labels'| + 1
    ensures states'[|labels'|] == s.(slots := s.slots[s.write := e], write := Next(s.write, |s.slots|),
                                     written := s.written + [e])
  {
    hide Run, WellFormed, Layout.Span;
    var s1 := s.(producer := PReserved);
    states', labels' := Go(states, labels, lay, s, Reserve, s1);
    var s2 := s1.(slots := s.slots[s.write := e], producer := PConstructed(e));
    states', labels' := Go(states', labels', lay, s1, Construct(e), s2);
    states', labels' := Go(states', labels', lay, s2, Publish,
                           s2.(write := Next(s.write, |s.slots|), written := s.written + [e], producer := PIdle));
  }

  lemma TwoBuffered(lay: Layout, e1: Element, e2: Element) returns (states: seq<State>, labels: seq<Label>)
    requires lay == Layout(1, 1) && e1 == Element(1, [Frame(1, [])]) && e2 == Element(2, [Frame(2, [])])
    ensures Run(states, labels, lay) && |states| == |labels| + 1
    ensures states[|labels|]
            == State([e1, e2, e1, e1], 0, 2, [e1, e2], 0, PIdle, CIdle, NO_MARK, Off, [], 0, 0, 0)
  {
    var s0 := State([e1, e1, e1, e1], 0, 0, [], 0, PIdle, CIdle, NO_MARK, Off, [], 0, 0, 0);
    states, labels := [s0], [];
    assert Run(states, labels, lay);
    hide Run;
    states, labels := WriteOne(states, labels, lay, s0, e1);
    var s1 := s0.(write := 1, written := [e1]);
    assert s0.slots[0 := e1] == s0.slots;
    states, labels := WriteOne(states, labels, lay, s1, e2);
    assert s1.slots[1 := e2] == [e1, e2, e1, e1];
    assert [e1] + [e2] == [e1, e2];
  }

  lemma PopDecided(states: seq<State>, labels: seq<Label>, lay: Layout, s: State)
    returns (states': seq<State>, labels': seq<Label>)
    requires Run(states, labels, lay) && |states| == |labels| + 1 && states[|labels|] == s && Legal(s, lay)
    requires s.cleaner == CIdle && s.read != s.write && s.slots[s.read].ts < s.watermark
    ensures Run(states', labels', lay) && |states'| == |labels'| + 1
    ensures states'[|labels'|] == s.(cleaner := CPopping(s.watermark))
  {
    hide Run;
    var s1, s2 := s.(cleaner := CCleaning), s.(cleaner := CFront);
    states', labels' := Go(states, labels, lay, s, BeginCleanup, s1);
    states', labels' := Go(states', labels', lay, s1, LookAtFront, s2);
    states', labels' := Go(states', labels', lay, s2, CheckFront, s.(cleaner := CPopping(s.watermark)));
  }

  /** A cleanup that decides to pop before a recording starts, and pops after the recording has taken its watermark
      from the front, leaves it stuck with nothing recorded. */
  lemma StartRacesWithCleanup() returns (states: seq<State>, labels: seq<Label>, lay: Layout)
    ensures Run(states, labels, lay) && |states| == |labels| + 1
    ensures Stuck(states[|labels|]) && states[|labels|].file == [] && states[|labels|].recorder == Search
  {
    hide Run, WellFormed;
    lay := Layout(1, 1);
    var e1, e2 := Element(1, [Frame(1, [])]), Element(2, [Frame(2, [])]);
    states, labels := TwoBuffered(lay, e1, e2);
    var s2 := State([e1, e2, e1, e1], 0, 2, [e1, e2], 0, PIdle, CIdle, NO_MARK, Off, [], 0, 0, 0);
    states, labels := PopDecided(states, labels, lay, s2);
    var s4 := s2.(cleaner := CPopping(NO_MARK));
    var s5 := s4.(recorder := Top, watermark := 0);
    states, labels := Go(states, labels, lay, s4, Start, s5);
    var s6 := s5.(recorder := HaveFront(1, 0));
    states, labels := Go(states, labels, lay, s5, LoadFront, s6);
    var s7 := s6.(recorder := Search, watermark := 1, from := 0);
    states, labels := Go(states, labels, lay, s6, StoreMark, s7);
    states, labels := Go(states, labels, lay, s7, PopFront, s7.(read := 1, popped := 1, cleaner := CCleaning));
  }

  /** The recorder turns to the element its search has found, writes it and moves the watermark behind it. */
  lemma RecordOne(states: seq<State>, labels: seq<Label>, lay: Layout, s: State)
    returns (states': seq<State>, labels': seq<Label>)
    requires Run(states, labels, lay) && |states| == |labels| + 1 && states[|labels|] == s && Legal(s, lay)
    requires s.recorder == Test(0, 0) && s.read == 0 && 0 < s.write && s.watermark <= s.slots[0].ts && s.file == []
    ensures Run(states', labels', lay) && |states'| == |labels'| + 1
    ensures states'[|labels'|] == s.(recorder := Inc(0, 0), watermark := s.slots[0].ts + lay.Span(),
                                     file := [s.slots[0]], first := 0, next := 1)
  {
    hide Run, Layout.Span;
    states', labels' := Go(states, labels, lay, s, LoadRead, s.(recorder := TestLoaded(0, 0, 0)));
    states', labels' := Go(states', labels', lay, s.(recorder := TestLoaded(0, 0, 0)), LoadWrite,
                           s.(recorder := Body(0, 0)));
    var mark := s.slots[0].ts + lay.Span();
    var s1 := s.(recorder := Marking(0, 0, mark), file := [s.slots[0]], first := 0, next := 1);
    states', labels' := Go(states', labels', lay, s.(recorder := Body(0, 0)), WriteFile, s1);
    states', labels' := Go(states', labels', lay, s1, RaiseMark, s1.(recorder := Inc(0, 0), watermark := mark));
  }

  /** The recorder steps off the only element and finds no further one. */
  lemma RunOff(states: seq<State>, labels: seq<Label>, lay: Layout, s: State)
    returns (states': seq<State>, labels': seq<Label>)
    requires Run(states, labels, lay) && |states| == |labels| + 1 && states[|labels|] == s && Legal(s, lay)
    requires s.recorder == Inc(0, 0) && s.read == 0 && s.write == 1
    ensures Run(states', labels', lay) && |states'| == |labels'| + 1 && states'[|labels'|] == s.(recorder := Top)
  {
    hide Run;
    var s1, s2 := s.(recorder := IncLoaded(0, 0, 0)), s.(recorder := Inc2(1, 1));
    var s3 := s.(recorder := Inc2Loaded(1, 1, 0));
    states', labels' := Go(states, labels, lay, s, LoadRead, s1);
    states', labels' := Go(states', labels', lay, s1, LoadWrite, s2);
    states', labels' := Go(states', labels', lay, s2, LoadRead, s3);
    states', labels' := Go(states', labels', lay, s3, LoadWrite, s.(recorder := Top));
  }

  lemma PopOne(states: seq<State>, labels: seq<Label>, lay: Layout, s: State)
    returns (states': seq<State>, labels': seq<Label>)
    requires Run(states, labels, lay) && |states| == |labels| + 1 && states[|labels|] == s && Legal(s, lay)
    requires s.cleaner == CIdle && s.read != s.write && s.slots[s.read].ts < s.watermark
    requires s.popped < |s.written| && s.recorder == Top
    ensures Run(states', labels', lay) && |states'| == |labels'| + 1
    ensures states'[|labels'|] == s.(read := Next(s.read, |s.slots|), popped := s.popped + 1)
  {
    hide Run;
    states', labels' := PopDecided(states, labels, lay, s);
    var s3 := s.(cleaner := CPopping(s.watermark));
    var s4 := s.(cleaner := CCleaning, read := Next(s.read, |s.slots|), popped := s.popped + 1);
    states', labels' := Go(states', labels', lay, s3, PopFront, s4);
    states', labels' := Go(states', labels', lay, s4, EndCleanup, s4.(cleaner := CIdle));
  }

  lemma SearchFirst(states: seq<State>, labels: seq<Label>, lay: Layout, s: State)
    returns (states': seq<State>, labels': seq<Label>)
    requires Run(states, labels, lay) && |states| == |labels| + 1 && states[|labels|] == s && Legal(s, lay)
    requires s.recorder == Off && s.cleaner == CIdle && s.read == 0 && s.write == 1 && s.popped == 0
    requires |s.written| == 1 && s.slots[0] == s.written[0] && 0 < s.written[0].ts
    ensures Run(states', labels', lay) && |states'| == |labels'| + 1
    ensures states'[|labels'|] == s.(recorder := Test(0, 0), watermark := s.written[0].ts,
                                     file := [], first := 0, next := 0, from := 0)
  {
    hide Run, LowerBoundPos;
    var ts := s.written[0].ts;
    var s1 := s.(recorder := Top, watermark := 0, file := [], first := 0, next := 0);
    states', labels' := Go(states, labels, lay, s, Start, s1);
    var s2 := s1.(recorder := HaveFront(ts, 0));
    states', labels' := Go(states', labels', lay, s1, LoadFront, s2);
    var s3 := s1.(recorder := Search, watermark := ts, from := 0);
    states', labels' := Go(states', labels', lay, s2, StoreMark, s3);
    assert s.written[0..] == s.written;
    LowerBoundPosUnique(s.written, ts, 0);
    states', labels' := Go(states', labels', lay, s3, LowerBound, s3.(recorder := Test(0, 0)));
  }

  /** A recording is stuck after a gap: its only element is recorded and popped, and the next one starts later than
      the recorded one ended. */
  lemma GapAfterPop() returns (states: seq<State>, labels: seq<Label>, lay: Layout)
    ensures Run(states, labels, lay) && |states| == |labels| + 1
    ensures Stuck(states[|labels|]) && states[|labels|].file == [Element(1, [Frame(1, [])])]
  {
    lay := Layout(1, 1);
    var e1, e3 := Element(1, [Frame(1, [])]), Element(3, [Frame(3, [])]);
    var s0 := State([e1, e1, e1], 0, 0, [], 0, PIdle, CIdle, NO_MARK, Off, [], 0, 0, 0);
    states, labels := [s0], [];
    assert Run(states, labels, lay);
    hide Run, WellFormed;
    assert WellFormed(e1, lay) && WellFormed(e3, lay) by { SmallIsWellFormed(); }
    states, labels := WriteOne(states, labels, lay, s0, e1);
    assert s0.slots[0 := e1] == s0.slots && [] + [e1] == [e1];
    var s1 := s0.(write := 1, written := [e1]);
    states, labels := SearchFirst(states, labels, lay, s1);
    var s2 := s1.(recorder := Test(0, 0), watermark := 1);
    states, labels := RecordOne(states, labels, lay, s2);
    var s3 := s2.(recorder := Inc(0, 0), watermark := 2, file := [e1], next := 1);
    states, labels := RunOff(states, labels, lay, s3);
    var s4 := s3.(recorder := Top);
    states, labels := PopOne(states, labels, lay, s4);
    var s5 := s4.(read := 1, popped := 1);
    states, labels := WriteOne(states, labels, lay, s5, e3);
  }

  lemma SmallIsWellFormed()
    ensures WellFormed(Element(1, [Frame(1, [])]), Layout(1, 1)) && WellFormed(Element(3, [Frame(3, [])]), Layout(1, 1))
  {
  }
}
