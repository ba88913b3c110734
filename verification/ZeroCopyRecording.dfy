/** Recording straight from the memory of the latency buffer: a byte pointer walks round the ring, in step with
    a watermark that keeps the cleanup thread behind it, while the producer writes. Every byte that a write
    takes from the buffer is a step of its own. */
module ZeroCopyRecording {
  import opened RingMath
  import opened RingBuffer
  import opened ByteStream

  /** The watermark while nothing is being recorded. */
  const NO_MARK: nat := 0xFFFF_FFFF_FFFF_FFFF

  /** The null pointer, which compares below every pointer into the buffer. */
  const NULL: int := -1

  /** The bytes of a record, of a whole write, and of the unit to which its pointer must be aligned. The buffer
      itself starts at an aligned address. */
  datatype Config = Config(slots: nat, size: nat, chunk: nat, alignment: nat) {
    predicate Valid() { 2 <= slots && 0 < size && 0 < chunk && 0 < alignment }

    /** The end of the buffer, as a pointer relative to its start. */
    function End(): (b: nat)
      requires Valid()
      ensures size < b
    {
      StartOrder(1, slots, size);
      Start(slots, size)
    }
  }

  datatype Producer = PIdle | PReserved | PConstructed(e: Record)

  /** `CFront` has found the queue not empty; `mark` is the watermark that allowed the pop. */
  datatype Cleaner = CIdle | CCleaning | CFront | CPopping(mark: nat)

  /** `Top` and `Resting` are the head of the outer loop, without and with a pointer. `RanOff` and `Adrift` are in
      the search for an aligned record, with an iterator that has run off the queue; `Wild` has left the search
      with the address that such an iterator names. */
  datatype Recorder =
    | Off
    | Top
    | Waited
    | HaveBegin(index: nat, at: nat)
    | Skipping(index: nat, at: nat)
    | RanOff
    | Adrift
    | Wild
    | LoadingEnd
    | EndLoaded(write: nat)
    | Choosing
    | Copying(copied: nat, left: int, wrap: bool)
    | Marking
    | Resting
    | Finishing(copied: nat, left: int)
    | Done

  /** `pointer` is the write pointer and `end` the pointer to the back slot loaded last, both relative to the start
      of the buffer. Of the history, `base` is the record where recording started, `pos` the place of the write
      pointer in the stream of all bytes, and `last` the record at `end`. */
  datatype State = State(
    slots: seq<Record>, read: nat, write: nat, written: seq<Record>, popped: nat,
    producer: Producer, cleaner: Cleaner, watermark: nat,
    recorder: Recorder, pointer: nat, end: int, file: seq<bv8>, base: nat, pos: nat, last: nat)

  datatype Label =
    | Reserve | Construct(e: Record) | Publish
    | BeginCleanup | LookAtFront | CheckFront | PopFront | EndCleanup
    | StartRecording | Wait | LoadBegin | TakeMark | SkipRecord | ResetMark | Spin | TakePointer
    | WaitAgain | LoadEnd | CompareEnd | WriteChunk | WriteTail | WriteNothing | CopyByte | EndWrite | RaiseMark
    | LeaveLoop
    | FinishRecord | EndFinish

  ghost predicate Init(s: State, c: Config) {
    && c.Valid()
    && |s.slots| == c.slots && s.read == 0 && s.write == 0 && s.written == [] && s.popped == 0
    && s.producer == PIdle && s.cleaner == CIdle && s.watermark == NO_MARK
    && s.recorder == Off && s.pointer == 0 && s.end == NULL && s.file == []
    && s.base == 0 && s.pos == 0 && s.last == 0
  }

  ghost predicate Legal(s: State, c: Config) {
    && c.Valid() && |s.slots| == c.slots && s.read < c.slots && s.write < c.slots
    && s.popped <= |s.written|
    && Holder(s.pointer, c.size) < c.slots
    && (s.recorder.HaveBegin? ==> s.recorder.index < c.slots)
    && (s.recorder.Skipping? ==> s.recorder.index < c.slots)
  }

  /** The byte at a pointer, which has to point into the buffer. */
  function Memory(slots: seq<Record>, x: nat, size: nat): (b: bv8)
    requires 0 < size
  {
    var i, r := Holder(x, size), Within(x, size);
    if i < |slots| && r < |slots[i].bytes| then slots[i].bytes[r] else 0
  }

  ghost predicate ProducerStep(s: State, c: Config, l: Label, s': State)
    requires Legal(s, c)
  {
    match l
    case Reserve =>
      s.producer == PIdle && Next(s.write, c.slots) != s.read && s' == s.(producer := PReserved)
    case Construct(e) =>
      && s.producer == PReserved
      && |e.bytes| == c.size && 0 < e.ts < 0xFFFF_FFFF_FFFF_FFFF
      && (s.written != [] ==> s.written[|s.written| - 1].ts < e.ts)
      && s' == s.(slots := s.slots[s.write := e], producer := PConstructed(e))
    case Publish =>
      && s.producer.PConstructed?
      && s' == s.(write := Next(s.write, c.slots), written := s.written + [s.producer.e], producer := PIdle)
    case _ => false
  }

  /** The flag that requests a cleanup is up in all states but `CIdle`. */
  ghost predicate CleanerStep(s: State, c: Config, l: Label, s': State)
    requires Legal(s, c)
  {
    match l
    case BeginCleanup => s.cleaner == CIdle && s' == s.(cleaner := CCleaning)
    case LookAtFront => s.cleaner == CCleaning && s.read != s.write && s' == s.(cleaner := CFront)
    case CheckFront =>
      && s.cleaner == CFront
      && s' == s.(cleaner := if s.slots[s.read].ts < s.watermark then CPopping(s.watermark) else CCleaning)
    case PopFront =>
      && s.cleaner.CPopping?
      && s' == s.(read := Next(s.read, c.slots), popped := s.popped + 1, cleaner := CCleaning)
    case EndCleanup => s.cleaner == CCleaning && s' == s.(cleaner := CIdle)
    case _ => false
  }

  /** Finding the aligned record to start from. */
  ghost predicate SeekStep(s: State, c: Config, l: Label, s': State)
    requires Legal(s, c)
  {
    match l
    case StartRecording => s.recorder == Off && s' == s.(recorder := Top, watermark := 0)
    case Wait => s.recorder == Top && s.cleaner == CIdle && s' == s.(recorder := Waited)
    case LoadBegin =>
      && s.recorder == Waited
      && s' == s.(recorder := if s.read == s.write then Top else HaveBegin(s.read, s.popped))
    case TakeMark =>
      && s.recorder.HaveBegin?
      && s' == s.(watermark := s.slots[s.recorder.index].ts, recorder := Skipping(s.recorder.index, s.recorder.at))
    case SkipRecord =>
      // the second of three tests of `good`: the first still holds, the third repeats the second
      && s.recorder.Skipping? && !Aligned(Start(s.recorder.index, c.size), c.alignment)
      && var next := Next(s.recorder.index, c.slots);
      && s' == if Good(next, s.read, s.write) then s.(recorder := Skipping(next, s.recorder.at + 1))
               else s.(recorder := RanOff)
    case ResetMark => s.recorder == RanOff && s' == s.(recorder := Adrift, watermark := 0)
    case Spin =>
      // the inner loop goes on: its test of the address the iterator names, and an increment without effect
      && s.recorder == Adrift
      && s' == s.(recorder := if Aligned(Start(END, c.size), c.alignment) then Wild else RanOff)
    case TakePointer =>
      && s.recorder.Skipping? && Aligned(Start(s.recorder.index, c.size), c.alignment)
      && s' == s.(recorder := LoadingEnd, pointer := Start(s.recorder.index, c.size),
                  base := s.recorder.at, pos := Start(s.recorder.at, c.size))
    case _ => false
  }

  /** The walk round the ring. */
  ghost predicate WalkStep(s: State, c: Config, l: Label, s': State)
    requires Legal(s, c)
  {
    match l
    case WaitAgain => s.recorder == Resting && s.cleaner == CIdle && s' == s.(recorder := LoadingEnd)
    case LoadEnd =>
      && s.recorder == LoadingEnd
      && s' == s.(recorder := EndLoaded(s.write), last := if s.written == [] then 0 else |s.written| - 1)
    case CompareEnd =>
      && s.recorder.EndLoaded?
      && var write := s.recorder.write;
      && s' == s.(recorder := Choosing,
                  end := if write == s.read then NULL
                         else Start(if write == 0 then c.slots - 1 else write - 1, c.size))
    case WriteChunk =>
      && s.recorder == Choosing
      && (s.pointer + c.chunk < s.end || (s.end < s.pointer && s.pointer + c.chunk < c.End()))
      && s' == s.(recorder := Copying(0, c.chunk, false))
    case WriteTail =>
      && s.recorder == Choosing && s.end < s.pointer && c.End() <= s.pointer + c.chunk
      && s' == s.(recorder := Copying(0, c.End() - s.pointer, true))
    case WriteNothing =>
      && s.recorder == Choosing && s.pointer <= s.end <= s.pointer + c.chunk
      && s' == s.(recorder := Marking)
    case CopyByte =>
      && s.recorder.Copying? && 0 < s.recorder.left
      && s' == s.(file := s.file + [Memory(s.slots, s.pointer + s.recorder.copied, c.size)],
                  recorder := Copying(s.recorder.copied + 1, s.recorder.left - 1, s.recorder.wrap))
    case EndWrite =>
      && s.recorder.Copying? && s.recorder.left == 0
      && var p := if s.recorder.wrap then 0 else s.pointer + s.recorder.copied;
      && s' == s.(recorder := Marking, pos := s.pos + s.recorder.copied,
                  pointer := if p == c.End() then 0 else p)
    case RaiseMark =>
      && s.recorder == Marking
      && s' == s.(recorder := Choosing, watermark := s.slots[Holder(s.pointer, c.size)].ts)
    case LeaveLoop =>
      s.recorder == Choosing && s' == s.(recorder := Resting)
    case _ => false
  }

  /** The time is over: the record that was started is completed. */
  ghost predicate FinishStep(s: State, c: Config, l: Label, s': State)
    requires Legal(s, c)
  {
    match l
    case FinishRecord =>
      || (s.recorder == Top && s' == s.(recorder := Done, watermark := NO_MARK))
      || (s.recorder == Resting
          && var started := Start(Holder(s.pointer, c.size), c.size);
          && s' == s.(recorder := Finishing(0, if started == s.pointer then 0
                                               else started + c.size - s.pointer)))
    case CopyByte =>
      && s.recorder.Finishing? && 0 < s.recorder.left
      && s' == s.(file := s.file + [Memory(s.slots, s.pointer + s.recorder.copied, c.size)],
                  recorder := Finishing(s.recorder.copied + 1, s.recorder.left - 1))
    case EndFinish =>
      && s.recorder.Finishing? && s.recorder.left == 0
      && s' == s.(recorder := Done, watermark := NO_MARK, pos := s.pos + s.recorder.copied)
    case _ => false
  }

  ghost predicate Step(s: State, c: Config, l: Label, s': State)
    requires Legal(s, c)
  {
    || ProducerStep(s, c, l, s') || CleanerStep(s, c, l, s')
    || SeekStep(s, c, l, s') || WalkStep(s, c, l, s') || FinishStep(s, c, l, s')
  }

  // ---------------------------------------------------------------- the invariant

  ghost predicate RingInv(s: State) {
    && Ring(s.slots, s.read, s.write, s.written, s.popped)
    && (s.producer != PIdle ==> |s.written| - s.popped < |s.slots| - 1)
    && (s.producer.PConstructed? && s.write < |s.slots| ==> s.slots[s.write] == s.producer.e)
    && (s.cleaner.CFront? || s.cleaner.CPopping? ==> s.popped < |s.written|)
  }

  ghost predicate DataInv(s: State, c: Config) {
    && Uniform(s.written, c.size)
    && (s.producer.PConstructed? ==>
          && |s.producer.e.bytes| == c.size && 0 < s.producer.e.ts < 0xFFFF_FFFF_FFFF_FFFF
          && (s.written != [] ==> s.written[|s.written| - 1].ts < s.producer.e.ts))
  }

  /** Record `k` is buffered, and the cleanup thread will not pop it. */
  ghost predicate Kept(written: seq<Record>, popped: nat, cleaner: Cleaner, watermark: nat, k: nat) {
    && popped <= k < |written|
    && watermark <= written[k].ts
    && (cleaner.CPopping? ==> popped < k)
  }

  /** No record has been popped since the recording started, and the next pop waits for the watermark. */
  ghost predicate Still(s: State, at: nat) {
    s.popped <= at < |s.written| && !s.cleaner.CPopping? && s.watermark <= s.written[s.popped].ts
  }

  /** The file holds the bytes of the stream from the start of record `base` up to byte `upto`. */
  ghost predicate Copied(written: seq<Record>, file: seq<bv8>, base: nat, upto: nat, size: nat) {
    Start(base, size) <= upto <= |Flatten(written)| && file == Flatten(written)[Start(base, size)..upto]
  }

  /** The pointer is that of byte `pos`, at the start of the newest record or before; the record it is in is kept. */
  ghost predicate Walking(s: State, c: Config)
    requires c.Valid()
  {
    && 0 < s.watermark
    && s.pointer == Slot(s.pos, c.End())
    && (Aligned(c.chunk, c.alignment) ==> Aligned(s.pointer, c.alignment))
    && Aligned(Start(Slot(s.base, c.slots), c.size), c.alignment)
    && s.written != [] && s.pos <= Start(|s.written| - 1, c.size)
    && Kept(s.written, s.popped, s.cleaner, s.watermark, Holder(s.pos, c.size))
  }

  /** The record that was the newest when the end was loaded starts less than a lap ahead of the pointer. */
  ghost predicate WithinLap(s: State, c: Config)
    requires c.Valid()
  {
    s.last < |s.written| && s.pos <= Start(s.last, c.size) < s.pos + c.End()
  }

  /** The end loaded last is the start of that record. */
  ghost predicate Ahead(s: State, c: Config)
    requires c.Valid()
  {
    && WithinLap(s, c)
    && s.end == Start(Slot(s.last, c.slots), c.size)
  }

  ghost predicate RecorderInv(s: State, c: Config)
    requires c.Valid()
  {
    match s.recorder
    case Off => s.file == [] && s.base == 0 && s.pos == 0 && s.watermark == NO_MARK
    case Top => s.file == [] && s.base == 0 && s.pos == 0 && s.watermark == 0
    case Waited => s.file == [] && s.base == 0 && s.pos == 0 && s.watermark == 0 && !s.cleaner.CPopping?
    case HaveBegin(index, at) =>
      s.file == [] && s.watermark == 0 && Still(s, at) && at == s.popped && index == Slot(at, c.slots)
    case Skipping(index, at) =>
      && s.file == [] && Still(s, at) && index == Slot(at, c.slots) && s.watermark == s.written[s.popped].ts
      && forall k :: s.popped <= k < at ==> !Aligned(Start(Slot(k, c.slots), c.size), c.alignment)
    case RanOff =>
      && s.file == [] && !Aligned(c.size, c.alignment)
      && !s.cleaner.CPopping? && (s.watermark == 0 || Still(s, s.popped))
    case Adrift => s.file == [] && !Aligned(c.size, c.alignment) && !s.cleaner.CPopping? && s.watermark == 0
    case Wild => s.file == []
    case LoadingEnd => Walking(s, c) && Copied(s.written, s.file, s.base, s.pos, c.size)
    case EndLoaded(write) =>
      && Walking(s, c) && Copied(s.written, s.file, s.base, s.pos, c.size)
      && WithinLap(s, c) && write == Slot(s.last + 1, c.slots)
    case Choosing => Walking(s, c) && Copied(s.written, s.file, s.base, s.pos, c.size) && Ahead(s, c)
    case Copying(copied, left, wrap) =>
      && Walking(s, c) && Copied(s.written, s.file, s.base, s.pos + copied, c.size) && Ahead(s, c)
      && 0 <= left && s.pos + copied + left <= Start(s.last, c.size)
      && s.pointer + copied + left <= c.End()
      && (!wrap ==> copied + left == c.chunk)
      && (wrap <==> s.pointer + copied + left == c.End())
    case Marking => Walking(s, c) && Copied(s.written, s.file, s.base, s.pos, c.size) && Ahead(s, c)
    case Resting => Walking(s, c) && Copied(s.written, s.file, s.base, s.pos, c.size)
    case Finishing(copied, left) =>
      && Walking(s, c) && Copied(s.written, s.file, s.base, s.pos + copied, c.size)
      && 0 <= left && s.pointer + copied + left <= c.End()
      && (s.pos + copied + left == Start(Holder(s.pos, c.size), c.size)
          || s.pos + copied + left == Start(Holder(s.pos, c.size) + 1, c.size))
    case Done =>
      && s.watermark == NO_MARK
      && Copied(s.written, s.file, s.base, s.pos, c.size)
      && s.pos == Start(Holder(s.pos, c.size), c.size)
      && (s.file != [] ==> Aligned(Start(Slot(s.base, c.slots), c.size), c.alignment))
  }

  ghost predicate Inv(s: State, c: Config) {
    Legal(s, c) && RingInv(s) && DataInv(s, c) && RecorderInv(s, c)
  }

  lemma InitInv(s: State, c: Config)
    requires Init(s, c)
    ensures Inv(s, c)
  {
    HolderBefore(0, c.slots, c.size);
  }

  /** What the recorder relies on is kept by the producer and by the cleanup thread. */
  lemma RecorderCarriesOn(s: State, c: Config, s': State)
    requires c.Valid() && RecorderInv(s, c)
    requires s'.watermark == s.watermark && s'.recorder == s.recorder && s'.pointer == s.pointer && s'.end == s.end
    requires s'.file == s.file && s'.base == s.base && s'.pos == s.pos && s'.last == s.last
    requires Walking(s, c) ==> Walking(s', c)
    requires Ahead(s, c) ==> Ahead(s', c)
    requires WithinLap(s, c) ==> WithinLap(s', c)
    requires forall upto :: Copied(s.written, s.file, s.base, upto, c.size)
                            ==> Copied(s'.written, s.file, s.base, upto, c.size)
    requires forall at :: Still(s, at) ==> Still(s', at) && s'.popped == s.popped
    requires s.written <= s'.written
    requires s.watermark == 0 && !s.cleaner.CPopping? ==> !s'.cleaner.CPopping?
    ensures RecorderInv(s', c)
  {
    hide Walking, Ahead, WithinLap, Copied, Slot, Start, Aligned, Holder;
  }

  lemma CopiedAfterPublish(written: seq<Record>, e: Record, file: seq<bv8>, base: nat, upto: nat, size: nat)
    requires Copied(written, file, base, upto, size)
    ensures Copied(written + [e], file, base, upto, size)
  {
    hide Start, Flatten;
    FlattenAppend(written, e);
  }

  lemma WalkingAfterPublish(s: State, c: Config, s': State)
    requires c.Valid() && s.producer.PConstructed?
    requires s' == s.(write := s'.write, written := s.written + [s.producer.e], producer := PIdle)
    ensures Walking(s, c) ==> Walking(s', c)
    ensures Ahead(s, c) ==> Ahead(s', c)
    ensures WithinLap(s, c) ==> WithinLap(s', c)
  {
    if Walking(s, c) {
      StartOrder(|s.written| - 1, |s.written|, c.size);
    }
    hide Start, Slot, Aligned, Holder, Config.End;
  }

  lemma PublishInv(s: State, c: Config, s': State)
    requires Inv(s, c) && ProducerStep(s, c, Publish, s')
    ensures Inv(s', c)
  {
    hide Ring, Walking, Ahead, WithinLap, Copied, RecorderInv, Holder, Slot;
    RingPublish(s.slots, s.read, s.write, s.written, s.popped, s.producer.e);
    WalkingAfterPublish(s, c, s');
    forall upto | Copied(s.written, s.file, s.base, upto, c.size)
      ensures Copied(s'.written, s.file, s.base, upto, c.size)
    {
      CopiedAfterPublish(s.written, s.producer.e, s.file, s.base, upto, c.size);
    }
    RecorderCarriesOn(s, c, s');
  }

  lemma ConstructInv(s: State, c: Config, e: Record, s': State)
    requires Inv(s, c) && ProducerStep(s, c, Construct(e), s')
    ensures Inv(s', c)
  {
    hide Ring, Copied, RecorderInv, Holder, Slot, Start, Aligned, Uniform;
    RingConstruct(s.slots, s.read, s.write, s.written, s.popped, e);
    RecorderCarriesOn(s, c, s');
  }

  lemma ReserveInv(s: State, c: Config, s': State)
    requires Inv(s, c) && ProducerStep(s, c, Reserve, s')
    ensures Inv(s', c)
  {
    hide Ring, Copied, RecorderInv, Holder, Slot, Start, Aligned, Uniform;
    RingCount(s.slots, s.read, s.write, s.written, s.popped);
    RecorderCarriesOn(s, c, s');
  }

  lemma ProducerStepInv(s: State, c: Config, l: Label, s': State)
    requires Inv(s, c) && ProducerStep(s, c, l, s')
    ensures Inv(s', c)
  {
    hide Inv;
    if l.Reserve? {
      ReserveInv(s, c, s');
    } else if l.Construct? {
      ConstructInv(s, c, l.e, s');
    } else {
      PublishInv(s, c, s');
    }
  }

  lemma FrontSlot(s: State)
    requires Ring(s.slots, s.read, s.write, s.written, s.popped)
    ensures s.read != s.write <==> s.popped < |s.written|
    ensures s.popped < |s.written| && s.read < |s.slots| ==> s.slots[s.read] == s.written[s.popped]
  {
    RingCount(s.slots, s.read, s.write, s.written, s.popped);
  }

  /** Neither a decision to pop nor a pop reaches the record the pointer is in. */
  lemma KeptByCleaner(s: State, c: Config, l: Label, s': State, k: nat)
    requires Legal(s, c) && RingInv(s) && Uniform(s.written, c.size) && CleanerStep(s, c, l, s')
    ensures Kept(s.written, s.popped, s.cleaner, s.watermark, k) ==>
              Kept(s'.written, s'.popped, s'.cleaner, s'.watermark, k)
    ensures Still(s, k) ==> Still(s', k) && s'.popped == s.popped
    ensures s.watermark == 0 && !s.cleaner.CPopping? ==> !s'.cleaner.CPopping?
  {
    hide Ring, Holder;
    FrontSlot(s);
  }

  lemma CleanerRing(s: State, c: Config, l: Label, s': State)
    requires Legal(s, c) && RingInv(s) && CleanerStep(s, c, l, s')
    ensures RingInv(s') && s'.read < c.slots
  {
    hide Ring, Holder;
    FrontSlot(s);
    if l.PopFront? {
      RingPop(s.slots, s.read, s.write, s.written, s.popped);
    }
  }

  lemma CleanerStepInv(s: State, c: Config, l: Label, s': State)
    requires Inv(s, c) && CleanerStep(s, c, l, s')
    ensures Inv(s', c)
  {
    hide Kept, Still, Copied, RecorderInv, Slot, Holder, Start, Aligned, Uniform, RingInv;
    CleanerRing(s, c, l, s');
    assert Legal(s', c) by {
      assert s'.popped <= |s'.written| by { PoppedBound(s'); }
    }
    KeptByCleaner(s, c, l, s', Holder(s.pos, c.size));
    forall at
      ensures Still(s, at) ==> Still(s', at) && s'.popped == s.popped
    {
      if 0 <= at {
        KeptByCleaner(s, c, l, s', at);
      }
    }
    RecorderCarriesOn(s, c, s');
  }

  lemma PoppedBound(s: State)
    requires RingInv(s)
    ensures s.popped <= |s.written|
  {
  }

  // ---------------------------------------------------------------- the recorder's own steps

  lemma WaitInv(s: State, c: Config, l: Label, s': State)
    requires Inv(s, c) && SeekStep(s, c, l, s') && (l.StartRecording? || l.Wait?)
    ensures Inv(s', c)
  {
    hide RingInv, DataInv, Holder;
    assert RingInv(s') && DataInv(s', c) by { UnchangedRing(s, c, s'); }
  }

  lemma UnchangedRing(s: State, c: Config, s': State)
    requires RingInv(s) && DataInv(s, c)
    requires s'.slots == s.slots && s'.read == s.read && s'.write == s.write && s'.written == s.written
    requires s'.popped == s.popped && s'.producer == s.producer && s'.cleaner == s.cleaner
    ensures RingInv(s') && DataInv(s', c)
  {
    hide Ring, Uniform;
  }

  lemma LoadBeginInv(s: State, c: Config, l: Label, s': State)
    requires Inv(s, c) && SeekStep(s, c, l, s') && (l.LoadBegin? || l.TakeMark?)
    ensures Inv(s', c)
  {
    hide Uniform, Holder, Slot, Aligned;
    UnchangedRing(s, c, s');
    FrontSlot(s);
    ReadSlot(s);
  }

  lemma ReadSlot(s: State)
    requires Ring(s.slots, s.read, s.write, s.written, s.popped)
    ensures s.read == Slot(s.popped, |s.slots|)
  {
  }

  lemma SkipRecordInv(s: State, c: Config, s': State)
    requires Inv(s, c) && SeekStep(s, c, SkipRecord, s')
    ensures Inv(s', c)
    ensures s'.recorder == RanOff <==> s.recorder.at + 1 == |s.written|
  {
    UnalignedSize(s.recorder.index, c.size, c.alignment);
    hide Uniform, Holder, Slot, Aligned, Start, Good, Ring;
    UnchangedRing(s, c, s');
    var at := s.recorder.at;
    NextSlot(at, c.slots);
    GoodIffWritten(s.slots, s.read, s.write, s.written, s.popped, at + 1);
  }

  lemma DriftInv(s: State, c: Config, l: Label, s': State)
    requires Inv(s, c) && SeekStep(s, c, l, s') && (l.ResetMark? || l.Spin?)
    ensures Inv(s', c)
  {
    hide RingInv, DataInv, Holder, Slot, Aligned, Start;
    UnchangedRing(s, c, s');
  }

  lemma UnalignedSize(i: nat, size: nat, alignment: nat)
    requires 0 < alignment && !Aligned(Start(i, size), alignment)
    ensures !Aligned(size, alignment)
  {
    if Aligned(size, alignment) {
      var q := size / alignment;
      assert Start(i, size) == alignment * (i * q);
      RemainderUnique(Start(i, size), alignment, i * q, 0);
    }
  }

  /** The pointer found is that of the first byte of record `at`. */
  lemma TakePointerInv(s: State, c: Config, s': State)
    requires Inv(s, c) && SeekStep(s, c, TakePointer, s')
    ensures Inv(s', c)
  {
    hide RingInv, Memory;
    var at := s.recorder.at;
    SlotOfStart(at, c.slots, c.size);
    HolderIs(at, 0, c.size);
    HolderIs(Slot(at, c.slots), 0, c.size);
    FlattenLength(s.written, c.size);
    StartOrder(at, |s.written| - 1, c.size);
    StartOrder(|s.written| - 1, |s.written|, c.size);
    hide Slot, Aligned, Start, Ring, Flatten, Holder, Config.End;
    UnchangedRing(s, c, s');
    assert Kept(s'.written, s'.popped, s'.cleaner, s'.watermark, at);
  }

  /** Of a pointer in a record that is kept, the newest record starts less than a lap ahead. */
  lemma BackIsAhead(s: State, c: Config)
    requires Inv(s, c) && Walking(s, c)
    ensures s.popped < |s.written| && s.write == Slot(|s.written|, c.slots)
    ensures Start(|s.written| - 1, c.size) < s.pos + c.End()
  {
    hide RecorderInv, Slot, Aligned, Start, Uniform, Holder, Copied, Config.End;
    var k, last := Holder(s.pos, c.size), |s.written| - 1;
    WriteSlot(s);
    hide Ring;
    HolderBounds(s.pos, c.size);
    StartOrder(last + 1, k + c.slots, c.size);
    StartOrder(last, last, c.size);
    LapLength(k, c);
  }

  lemma LoadEndInv(s: State, c: Config, s': State)
    requires Inv(s, c) && WalkStep(s, c, LoadEnd, s')
    ensures Inv(s', c)
  {
    hide Slot, Aligned, Start, RingInv, DataInv, Holder, Copied, Config.End, Kept;
    BackIsAhead(s, c);
    UnchangedRing(s, c, s');
  }

  /** The write index loaded before is never the read index loaded now, so the back pointer is not null. */
  lemma CompareEndInv(s: State, c: Config, s': State)
    requires Inv(s, c) && WalkStep(s, c, CompareEnd, s')
    ensures Inv(s', c) && s'.end != NULL
  {
    hide Slot, Aligned, Start, DataInv, Copied, Config.End, Holder, Ring;
    WriteSlot(s);
    ReadSlot(s);
    HolderBefore(s.pos, s.last, c.size);
    SlotsDiffer(s.popped, s.last + 1, c.slots);
    NextSlot(s.last, c.slots);
    UnchangedRing(s, c, s');
  }

  lemma WriteSlot(s: State)
    requires Ring(s.slots, s.read, s.write, s.written, s.popped)
    ensures s.write == Slot(|s.written|, |s.slots|) && |s.written| < s.popped + |s.slots|
  {
  }

  lemma LapLength(k: nat, c: Config)
    requires c.Valid()
    ensures Start(k + c.slots, c.size) == Start(k, c.size) + c.End()
  {
  }

  /** The place of the end relative to the pointer tells how much may be copied in one go. */
  lemma EndFromPointer(s: State, c: Config)
    requires c.Valid() && Walking(s, c) && Ahead(s, c)
    ensures var d := Start(s.last, c.size) - s.pos;
            s.end == if s.pointer + d < c.End() then s.pointer + d else s.pointer + d - c.End()
    ensures s.pointer < c.End()
  {
    hide Kept, Aligned;
    SlotOfStart(s.last, c.slots, c.size);
    hide Start, Holder;
    SlotAdd(s.pos, Start(s.last, c.size) - s.pos, c.End());
  }

  lemma BeginWriteInv(s: State, c: Config, l: Label, s': State)
    requires Inv(s, c) && WalkStep(s, c, l, s') && (l.WriteChunk? || l.WriteTail? || l.WriteNothing?)
    ensures Inv(s', c)
  {
    EndFromPointer(s, c);
    hide RingInv, DataInv, Slot, Start, Holder, Aligned, Copied, Kept, Config.End;
    UnchangedRing(s, c, s');
  }

  /** A byte read through the pointer is the byte of the stream that it stands for. */
  lemma ByteOfStream(s: State, c: Config, x: nat)
    requires Inv(s, c) && s.popped <= Holder(x, c.size) < |s.written|
    ensures x < |Flatten(s.written)|
    ensures Memory(s.slots, Slot(x, c.End()), c.size) == Flatten(s.written)[x]
    ensures Good(Holder(Slot(x, c.End()), c.size), s.read, s.write)
  {
    hide RecorderInv, Flatten, Holder, Slot, Start, Good;
    assert 0 < c.End();
    SlotOfByte(x, c.slots, c.size);
    RingAt(s.slots, s.read, s.write, s.written, s.popped, Holder(x, c.size));
    FlattenAt(s.written, x, c.size);
  }

  lemma PointerAhead(s: State, c: Config, copied: nat)
    requires c.Valid() && Walking(s, c) && s.pointer + copied < c.End()
    ensures s.pointer + copied == Slot(s.pos + copied, c.End())
  {
    hide Kept, Aligned, Holder, Start;
    SlotAdd(s.pos, copied, c.End());
  }

  /** The next byte of a write lies in a record that is kept. */
  lemma NextByteIsKept(s: State, c: Config)
    requires Inv(s, c)
    requires (s.recorder.Copying? || s.recorder.Finishing?) && 0 < s.recorder.left
    ensures var x := s.pos + s.recorder.copied;
            && s.popped <= Holder(x, c.size) < |s.written|
            && s.pointer + s.recorder.copied == Slot(x, c.End())
  {
    hide RingInv, DataInv, Start, Slot, Aligned, Copied, Holder, Config.End, Still;
    var x, k := s.pos + s.recorder.copied, Holder(s.pos, c.size);
    HolderOrder(s.pos, x, c.size);
    if s.recorder.Copying? {
      HolderBefore(x, s.last, c.size);
    } else {
      HolderBounds(s.pos, c.size);
      HolderBefore(x, k + 1, c.size);
    }
    PointerAhead(s, c, s.recorder.copied);
  }

  lemma CopiedOneMore(written: seq<Record>, file: seq<bv8>, base: nat, upto: nat, size: nat, b: bv8)
    requires Copied(written, file, base, upto, size)
    requires upto < |Flatten(written)| && b == Flatten(written)[upto]
    ensures Copied(written, file + [b], base, upto + 1, size)
  {
    hide Flatten, Start;
  }

  lemma NextByteCopied(s: State, c: Config)
    requires Inv(s, c)
    requires (s.recorder.Copying? || s.recorder.Finishing?) && 0 < s.recorder.left
    ensures Copied(s.written, s.file + [Memory(s.slots, s.pointer + s.recorder.copied, c.size)], s.base,
                   s.pos + s.recorder.copied + 1, c.size)
  {
    hide Start, Slot, Aligned, Holder, Config.End, Flatten, Memory, RingInv, DataInv, Walking, Ahead, Copied;
    var x := s.pos + s.recorder.copied;
    NextByteIsKept(s, c);
    ByteOfStream(s, c, x);
    CopiedOneMore(s.written, s.file, s.base, x, c.size, Flatten(s.written)[x]);
  }

  lemma CopyByteInv(s: State, c: Config, s': State)
    requires Inv(s, c) && WalkStep(s, c, CopyByte, s')
    ensures Inv(s', c)
  {
    hide Start, Slot, Aligned, Holder, Config.End, Memory, RingInv, DataInv, Kept, Copied;
    NextByteCopied(s, c);
    UnchangedRing(s, c, s');
  }

  lemma FinishByteInv(s: State, c: Config, s': State)
    requires Inv(s, c) && FinishStep(s, c, CopyByte, s')
    ensures Inv(s', c)
  {
    hide Start, Slot, Aligned, Holder, Config.End, Memory, RingInv, DataInv, Kept, Copied;
    NextByteCopied(s, c);
    UnchangedRing(s, c, s');
  }

  lemma KeptLater(s: State, c: Config, k: nat, k': nat)
    requires Uniform(s.written, c.size) && k <= k' < |s.written|
    requires Kept(s.written, s.popped, s.cleaner, s.watermark, k)
    ensures Kept(s.written, s.popped, s.cleaner, s.watermark, k')
  {
  }

  /** The pointer after a write is that of the byte after the last one written. */
  lemma PointerAfterWrite(s: State, c: Config, copied: nat, pos: nat)
    requires c.Valid() && s.pointer == Slot(s.pos, c.End()) && pos == s.pos + copied
    requires copied < c.End() && s.pointer + copied <= c.End()
    ensures Slot(pos, c.End()) == if s.pointer + copied == c.End() then 0 else s.pointer + copied
    ensures Holder(Slot(pos, c.End()), c.size) < c.slots
  {
    hide Start, Holder;
    SlotAdd(s.pos, copied, c.End());
    HolderBefore(Slot(pos, c.End()), c.slots, c.size);
  }

  lemma EndWriteInv(s: State, c: Config, s': State)
    requires Inv(s, c) && WalkStep(s, c, EndWrite, s')
    ensures Inv(s', c)
  {
    hide Start, Slot, Aligned, Holder, Config.End, Copied, RingInv, Uniform, Kept;
    var pos' := s.pos + s.recorder.copied;
    PointerAfterWrite(s, c, s.recorder.copied, pos');
    HolderOrder(s.pos, pos', c.size);
    HolderBefore(pos', s.last, c.size);
    StartOrder(s.last, |s.written| - 1, c.size);
    KeptLater(s, c, Holder(s.pos, c.size), Holder(pos', c.size));
    assert Aligned(0, c.alignment) by { ZeroAligned(c.alignment); }
    if Aligned(c.chunk, c.alignment) && !s.recorder.wrap {
      AlignedSum(s.pointer, c.chunk, c.alignment);
    }
    UnchangedRing(s, c, s');
  }

  lemma ZeroAligned(alignment: nat)
    requires 0 < alignment
    ensures Aligned(0, alignment)
  {
  }

  /** The timestamp read through the pointer is that of the record it is in. */
  lemma TimestampAtPointer(s: State, c: Config)
    requires Legal(s, c) && RingInv(s) && s.pointer == Slot(s.pos, c.End())
    requires s.popped <= Holder(s.pos, c.size) < |s.written|
    ensures s.slots[Holder(s.pointer, c.size)] == s.written[Holder(s.pos, c.size)]
  {
    hide Start, Slot, Holder;
    assert 0 < c.End();
    SlotOfByte(s.pos, c.slots, c.size);
    RingAt(s.slots, s.read, s.write, s.written, s.popped, Holder(s.pos, c.size));
  }

  lemma RaiseMarkInv(s: State, c: Config, s': State)
    requires Inv(s, c) && WalkStep(s, c, RaiseMark, s')
    ensures Inv(s', c)
    ensures s'.watermark == s.written[Holder(s.pos, c.size)].ts
  {
    hide Start, Slot, Aligned, Holder, Config.End, Copied, RingInv;
    TimestampAtPointer(s, c);
    UnchangedRing(s, c, s');
  }

  lemma RestInv(s: State, c: Config, l: Label, s': State)
    requires Inv(s, c) && WalkStep(s, c, l, s') && (l.WaitAgain? || l.LeaveLoop?)
    ensures Inv(s', c)
  {
    hide Start, Slot, Aligned, Holder, Config.End, Copied, RingInv, DataInv;
    UnchangedRing(s, c, s');
  }

  /** The bytes from the pointer to the end of its record. */
  lemma RestOfRecord(s: State, c: Config)
    requires Legal(s, c) && s.pointer == Slot(s.pos, c.End())
    ensures var started, k := Start(Holder(s.pointer, c.size), c.size), Holder(s.pos, c.size);
            && started <= s.pointer < started + c.size <= c.End()
            && s.pos + (started + c.size - s.pointer) == Start(k + 1, c.size)
            && (started == s.pointer ==> s.pos == Start(k, c.size))
  {
    hide Slot, Holder;
    var j, k := Holder(s.pointer, c.size), Holder(s.pos, c.size);
    assert 0 < c.End();
    SlotOfByte(s.pos, c.slots, c.size);
    HolderBounds(s.pos, c.size);
    HolderBounds(s.pointer, c.size);
    hide Start;
    StartOrder(k, k, c.size);
    StartOrder(j, c.slots, c.size);
  }

  lemma FinishRecordInv(s: State, c: Config, s': State)
    requires Inv(s, c) && FinishStep(s, c, FinishRecord, s')
    ensures Inv(s', c)
  {
    if s.recorder == Resting {
      RestOfRecord(s, c);
    } else {
      HolderIs(0, 0, c.size);
      assert Copied(s.written, s.file, s.base, s.pos, c.size);
    }
    hide Slot, Aligned, RingInv, DataInv, Kept, Copied, Holder, Config.End;
    UnchangedRing(s, c, s');
  }

  lemma EndFinishInv(s: State, c: Config, s': State)
    requires Inv(s, c) && FinishStep(s, c, EndFinish, s')
    ensures Inv(s', c)
  {
    HolderIs(Holder(s.pos, c.size), 0, c.size);
    HolderIs(Holder(s.pos, c.size) + 1, 0, c.size);
    hide Start, Slot, Aligned, Holder, Config.End, Copied, RingInv, DataInv, Kept;
    UnchangedRing(s, c, s');
  }

  lemma SeekStepInv(s: State, c: Config, l: Label, s': State)
    requires Inv(s, c) && SeekStep(s, c, l, s')
    ensures Inv(s', c)
  {
    hide Inv;
    if l.StartRecording? || l.Wait? {
      WaitInv(s, c, l, s');
    } else if l.LoadBegin? || l.TakeMark? {
      LoadBeginInv(s, c, l, s');
    } else if l.SkipRecord? {
      SkipRecordInv(s, c, s');
    } else if l.ResetMark? || l.Spin? {
      DriftInv(s, c, l, s');
    } else {
      TakePointerInv(s, c, s');
    }
  }

  lemma WalkStepInv(s: State, c: Config, l: Label, s': State)
    requires Inv(s, c) && WalkStep(s, c, l, s')
    ensures Inv(s', c)
  {
    hide Inv, Memory;
    if l.LoadEnd? {
      LoadEndInv(s, c, s');
    } else if l.CompareEnd? {
      CompareEndInv(s, c, s');
    } else if l.WriteChunk? || l.WriteTail? || l.WriteNothing? {
      BeginWriteInv(s, c, l, s');
    } else if l.CopyByte? {
      CopyByteInv(s, c, s');
    } else if l.EndWrite? {
      EndWriteInv(s, c, s');
    } else if l.RaiseMark? {
      RaiseMarkInv(s, c, s');
    } else {
      RestInv(s, c, l, s');
    }
  }

  lemma FinishStepInv(s: State, c: Config, l: Label, s': State)
    requires Inv(s, c) && FinishStep(s, c, l, s')
    ensures Inv(s', c)
  {
    hide Inv, Memory;
    if l.FinishRecord? {
      FinishRecordInv(s, c, s');
    } else if l.CopyByte? {
      FinishByteInv(s, c, s');
    } else {
      EndFinishInv(s, c, s');
    }
  }

  lemma InvIsLegal(s: State, c: Config)
    requires Inv(s, c)
    ensures Legal(s, c)
  {
  }

  lemma StepInv(s: State, c: Config, l: Label, s': State)
    requires Inv(s, c) && Legal(s, c) && Step(s, c, l, s')
    ensures Inv(s', c)
  {
    hide Inv, Legal, ProducerStep, CleanerStep, SeekStep, WalkStep, FinishStep;
    if ProducerStep(s, c, l, s') {
      ProducerStepInv(s, c, l, s');
    } else if CleanerStep(s, c, l, s') {
      CleanerStepInv(s, c, l, s');
    } else if SeekStep(s, c, l, s') {
      SeekStepInv(s, c, l, s');
    } else if WalkStep(s, c, l, s') {
      WalkStepInv(s, c, l, s');
    } else {
      FinishStepInv(s, c, l, s');
    }
  }

  // ---------------------------------------------------------------- whole runs

  ghost predicate Run(states: seq<State>, labels: seq<Label>, c: Config) {
    && |states| == |labels| + 1
    && Init(states[0], c)
    && forall i :: 0 <= i < |labels| ==> Legal(states[i], c) && Step(states[i], c, labels[i], states[i + 1])
  }

  lemma {:induction false} RunInv(states: seq<State>, labels: seq<Label>, c: Config, i: nat)
    requires Run(states, labels, c) && i < |states|
    ensures Inv(states[i], c)
  {
    hide Init, Legal, Step, Inv;
    if i == 0 {
      InitInv(states[0], c);
    } else {
      RunInv(states, labels, c, i - 1);
      StepInv(states[i - 1], c, labels[i - 1], states[i]);
    }
  }

  /** A finished recording consists of whole consecutive records of the stream, none left out and none twice,
      however often the pointer went round the ring. The first of them is an aligned one. */
  lemma OutputIsWholeRecords(states: seq<State>, labels: seq<Label>, c: Config, i: nat)
    requires Run(states, labels, c) && i < |states| && states[i].recorder == Done
    ensures c.Valid()
    ensures var s, upto := states[i], Holder(states[i].pos, c.size);
            && s.base <= upto <= |s.written|
            && s.file == Flatten(s.written[s.base..upto])
            && (s.file != [] ==> Aligned(Start(Slot(s.base, c.slots), c.size), c.alignment))
  {
    RunInv(states, labels, c, i);
    hide Run, RingInv, Aligned, Slot, Flatten;
    var s, upto := states[i], Holder(states[i].pos, c.size);
    FlattenLength(s.written, c.size);
    HolderBounds(s.pos, c.size);
    if |s.written| < upto {
      StartOrder(|s.written|, upto, c.size);
      assert false;
    }
    if upto < s.base {
      StartOrder(upto, s.base, c.size);
      assert false;
    }
    FlattenSlice(s.written, s.base, upto, c.size);
  }

  /** A recording that was at `pos` with `file` when its time was over has added less than a record since. */
  ghost predicate Finishes(s: State, c: Config, pos: nat, file: seq<bv8>) {
    && file <= s.file
    && if s.recorder.Finishing? then
         && s.pos == pos && |s.file| == |file| + s.recorder.copied
         && 0 <= s.recorder.left && s.recorder.copied + s.recorder.left < c.size
       else
         && s.recorder == Done && pos <= s.pos < pos + c.size && |s.file| == |file| + (s.pos - pos)
  }

  lemma FinishBegins(s: State, c: Config, s': State)
    requires Inv(s, c) && s.recorder == Resting && FinishStep(s, c, FinishRecord, s')
    ensures Finishes(s', c, s.pos, s.file)
  {
    hide RingInv, DataInv, Kept, Copied, Slot, Aligned, Config.End, Holder;
    RestOfRecord(s, c);
  }

  lemma FinishGoesOn(s: State, c: Config, l: Label, s': State, pos: nat, file: seq<bv8>)
    requires Legal(s, c) && Step(s, c, l, s') && Finishes(s, c, pos, file)
    ensures Finishes(s', c, pos, file)
  {
    hide Memory, Holder, Start, Aligned, Good;
  }

  /** From the moment the time is over, while its last record is being completed and when it is done: what is in the
      file stays, and less than a record is added. */
  lemma {:induction false} FinishingInRuns(states: seq<State>, labels: seq<Label>, c: Config, k: nat, i: nat)
    requires Run(states, labels, c) && k < i < |states|
    requires labels[k] == FinishRecord && states[k].recorder == Resting
    ensures Finishes(states[i], c, states[k].pos, states[k].file)
  {
    hide Init, Inv, Finishes, Legal, ProducerStep, CleanerStep, SeekStep, WalkStep, FinishStep;
    if i == k + 1 {
      RunInv(states, labels, c, k);
      assert Step(states[k], c, labels[k], states[i]);
      OnlyFinishFinishes(states[k], c, states[i]);
      FinishBegins(states[k], c, states[i]);
    } else {
      FinishingInRuns(states, labels, c, k, i - 1);
      FinishGoesOn(states[i - 1], c, labels[i - 1], states[i], states[k].pos, states[k].file);
    }
  }

  lemma OnlyFinishFinishes(s: State, c: Config, s': State)
    requires Legal(s, c) && Step(s, c, FinishRecord, s')
    ensures FinishStep(s, c, FinishRecord, s')
  {
  }

  /** A finished recording ends at the first record boundary at or after the place where it was when its time was over:
      a record that was started is completed, and none is begun. */
  lemma EndsAtNextBoundary(states: seq<State>, labels: seq<Label>, c: Config, k: nat, i: nat)
    requires Run(states, labels, c) && k < i < |states| && states[i].recorder == Done
    requires labels[k] == FinishRecord && states[k].recorder == Resting
    ensures c.Valid() && states[k].file <= states[i].file && |states[i].file| < |states[k].file| + c.size
    ensures var s, s' := states[k], states[i];
            && s.pos <= s'.pos < s.pos + c.size && s'.pos == Start(Holder(s'.pos, c.size), c.size)
            && |s'.file| == |s.file| + (s'.pos - s.pos)
  {
    FinishingInRuns(states, labels, c, k, i);
    RunInv(states, labels, c, i);
    hide Run, RingInv, DataInv, Copied, Holder, Start, Aligned;
  }

  /** At every moment of the recording the file is a contiguous segment of the stream of bytes. */
  lemma OutputIsContiguous(states: seq<State>, labels: seq<Label>, c: Config, i: nat)
    requires Run(states, labels, c) && i < |states|
    ensures var s, from := states[i], Start(states[i].base, c.size);
            s.file == [] || (from + |s.file| <= |Flatten(s.written)|
                             && s.file == Flatten(s.written)[from..from + |s.file|])
  {
    hide Run, RingInv, DataInv, Walking, Ahead, Aligned, Slot, Flatten, Holder, Start;
    RunInv(states, labels, c, i);
  }

  lemma ByteDue(s: State, c: Config)
    requires Inv(s, c) && (s.recorder.Copying? || s.recorder.Finishing?)
    ensures s.pos + s.recorder.copied == Start(s.base, c.size) + |s.file|
  {
    hide RingInv, DataInv, Walking, Ahead, WithinLap, Still, Aligned, Slot, Flatten, Holder, Start, Config.End;
  }

  /** Every byte taken from the buffer comes from a live slot, and is the one of the stream that is due. */
  lemma CopiedBytesAreLive(states: seq<State>, labels: seq<Label>, c: Config, i: nat)
    requires Run(states, labels, c) && i < |states|
    requires var r := states[i].recorder; (r.Copying? || r.Finishing?) && 0 < r.left
    ensures c.Valid()
    ensures var s := states[i];
            var x, p := s.pos + s.recorder.copied, s.pointer + s.recorder.copied;
            && p < c.End() && Good(Holder(p, c.size), s.read, s.write)
            && s.popped <= Holder(x, c.size) < |s.written| && x < |Flatten(s.written)|
            && x == Start(s.base, c.size) + |s.file|
            && Memory(s.slots, p, c.size) == Flatten(s.written)[x]
  {
    hide Run, Inv, Slot, Flatten, Holder, Start, Good, Memory, Config.End;
    var s := states[i];
    RunInv(states, labels, c, i);
    InvIsLegal(s, c);
    ByteDue(s, c);
    NextByteIsKept(s, c);
    ByteOfStream(s, c, s.pos + s.recorder.copied);
  }

  ghost predicate HasPointer(r: Recorder) {
    r == LoadingEnd || r.EndLoaded? || r == Choosing || r.Copying? || r == Marking || r == Resting || r.Finishing?
  }

  /** In ring order the write pointer never passes the start of the back slot; the record it is in is buffered and
      protected by the watermark. */
  lemma PointerStaysBetween(states: seq<State>, labels: seq<Label>, c: Config, i: nat)
    requires Run(states, labels, c) && i < |states| && HasPointer(states[i].recorder)
    ensures c.Valid()
    ensures var s := states[i];
            && s.popped <= Holder(s.pos, c.size) < |s.written|
            && s.watermark <= s.written[Holder(s.pos, c.size)].ts
            && s.pos <= Start(|s.written| - 1, c.size)
            && s.pointer == Slot(s.pos, c.End())
  {
    hide Run, RingInv, DataInv, Ahead, Aligned, Slot, Flatten, Holder, Start, Config.End, Copied;
    RunInv(states, labels, c, i);
  }

  /** With chunks of a multiple of the alignment the pointer is always aligned when a write begins, and a write
      that is not the tail of the buffer ends before the end of the buffer. */
  lemma PointerIsAligned(states: seq<State>, labels: seq<Label>, c: Config, i: nat)
    requires Run(states, labels, c) && i < |states|
    ensures c.Valid()
    ensures states[i].recorder == Choosing && Aligned(c.chunk, c.alignment)
            ==> Aligned(states[i].pointer, c.alignment)
    ensures states[i].recorder.Copying? && !states[i].recorder.wrap && states[i].recorder.left == 0
            ==> states[i].pointer + states[i].recorder.copied < c.End()
  {
    hide Run, RingInv, DataInv, Ahead, Aligned, Slot, Flatten, Holder, Start, Config.End, Copied, Kept;
    RunInv(states, labels, c, i);
  }

  /** The search for an aligned record ends at the first of the records buffered that is aligned; it runs off the
      queue if and only if there is none. */
  lemma StartsAtFirstAligned(s: State, c: Config, l: Label, s': State)
    requires Inv(s, c) && SeekStep(s, c, l, s')
    ensures l == TakePointer ==>
              && s.popped <= s'.base < |s.written|
              && Aligned(Start(Slot(s'.base, c.slots), c.size), c.alignment)
              && (forall k :: s.popped <= k < s'.base ==> !Aligned(Start(Slot(k, c.slots), c.size), c.alignment))
    ensures s.recorder.Skipping? && (l == TakePointer || s'.recorder == RanOff) ==>
              (s'.recorder == RanOff <==>
               forall k :: s.popped <= k < |s.written| ==> !Aligned(Start(Slot(k, c.slots), c.size), c.alignment))
  {
    if l.SkipRecord? {
      SkipRecordInv(s, c, s');
    }
    hide RingInv, DataInv, Aligned, Slot, Holder, Start, Good;
  }

  /** The address that an iterator which has run off the queue names: were it aligned, with an alignment that divides
      the number of 32-bit values, so would be every record. */
  lemma EndIsNotAligned(c: Config)
    requires c.Valid() && 0x1_0000_0000 % c.alignment == 0 && !Aligned(c.size, c.alignment)
    ensures !Aligned(Start(END, c.size), c.alignment)
  {
    var a := c.alignment;
    var x, y := Start(END, c.size) / a, 0x1_0000_0000 / a;
    if Aligned(Start(END, c.size), a) {
      assert 0x1_0000_0000 * c.size == a * (y * c.size) by { assert 0x1_0000_0000 == a * y; }
      assert c.size == a * (y * c.size) - a * x;
      assert c.size == a * (y * c.size - x) + 0;
      RemainderUnique(c.size, a, y * c.size - x, 0);
    }
  }

  ghost predicate Drifting(s: State) {
    s.recorder == RanOff || s.recorder == Adrift
  }

  lemma DriftingCleaner(s: State, c: Config, l: Label, s': State)
    requires Inv(s, c) && CleanerStep(s, c, l, s') && Drifting(s)
    ensures s' == s.(cleaner := s'.cleaner)
  {
    hide Ring, Holder, Slot, Start, Aligned, Good, Uniform, Walking, Ahead, WithinLap, Copied;
    FrontSlot(s);
  }

  lemma DriftingProducer(s: State, c: Config, l: Label, s': State)
    requires Legal(s, c) && ProducerStep(s, c, l, s')
    ensures s' == s.(slots := s'.slots, write := s'.write, written := s'.written, producer := s'.producer)
  {
    hide Holder;
  }

  lemma DriftingStep(s: State, c: Config, l: Label, s': State)
    requires Inv(s, c) && Legal(s, c) && Step(s, c, l, s') && Drifting(s)
    requires 0x1_0000_0000 % c.alignment == 0
    ensures Drifting(s') && s'.file == [] && s'.popped == s.popped
    ensures s.recorder == Adrift ==> s'.watermark == 0
  {
    hide RingInv, DataInv, Holder, Slot, Start, Aligned, Memory, Good, Walking, Ahead, WithinLap, Copied, Still;
    hide ProducerStep, CleanerStep;
    EndIsNotAligned(c);
    if ProducerStep(s, c, l, s') {
      DriftingProducer(s, c, l, s');
    } else if CleanerStep(s, c, l, s') {
      DriftingCleaner(s, c, l, s');
    }
  }

  /** With such an alignment, a search that has run off the queue never ends, not even with the time for recording:
      for the rest of the run nothing is recorded, and the cleanup thread pops nothing any more. */
  lemma {:induction false} AdriftForever(states: seq<State>, labels: seq<Label>, c: Config, i: nat, j: nat)
    requires Run(states, labels, c) && i <= j < |states| && Drifting(states[i])
    requires 0 < c.alignment && 0x1_0000_0000 % c.alignment == 0
    ensures Drifting(states[j]) && states[j].file == [] && states[j].popped == states[i].popped
  {
    hide Init, Inv, Legal, Step, Drifting;
    if i < j {
      AdriftForever(states, labels, c, i, j - 1);
      RunInv(states, labels, c, j - 1);
      DriftingStep(states[j - 1], c, labels[j - 1], states[j]);
    } else {
      RunInv(states, labels, c, i);
      DriftingIsEmpty(states[i], c);
    }
  }

  lemma DriftingIsEmpty(s: State, c: Config)
    requires Inv(s, c) && Drifting(s)
    ensures s.file == []
  {
  }

  /** With any alignment, the search leaves the queue for an address outside of it if and only if that address is
      aligned, and with an alignment that divides the number of 32-bit values it never does. */
  lemma WildIffEndAligned(s: State, c: Config, s': State)
    requires Inv(s, c) && SeekStep(s, c, Spin, s')
    ensures s'.recorder == Wild <==> Aligned(Start(END, c.size), c.alignment)
    ensures 0x1_0000_0000 % c.alignment == 0 ==> s'.recorder == RanOff
  {
    if 0x1_0000_0000 % c.alignment == 0 {
      EndIsNotAligned(c);
    }
  }

  /** The check of the front decides to pop exactly when the oldest record is below the watermark; when no recording has
      started, or it is done, always. */
  lemma CheckIsExact(states: seq<State>, labels: seq<Label>, c: Config, i: nat)
    requires Run(states, labels, c) && i < |labels| && labels[i] == CheckFront
    ensures states[i].popped < |states[i].written|
    ensures states[i + 1].cleaner.CPopping?
            <==> states[i].written[states[i].popped].ts < states[i].watermark
    ensures states[i].recorder == Off || states[i].recorder == Done ==> states[i + 1].cleaner.CPopping?
  {
    RunInv(states, labels, c, i);
    assert Step(states[i], c, labels[i], states[i + 1]);
    hide Run, Ring, Walking, Ahead, Copied, Slot, Holder, Start, Aligned;
    FrontSlot(states[i]);
  }

  /** The walk lags behind by no more than a chunk: nothing is written only when the start of the back slot is at
      most a chunk away, and otherwise a write begins that brings the pointer closer. */
  lemma WalkKeepsUp(s: State, c: Config)
    requires Inv(s, c) && s.recorder == Choosing
    ensures WalkStep(s, c, WriteNothing, s.(recorder := Marking)) ==> Start(s.last, c.size) <= s.pos + c.chunk
    ensures Start(s.last, c.size) > s.pos + c.chunk ==>
              exists left: int, wrap ::
                && 0 < left <= c.chunk
                && WalkStep(s, c, if wrap then WriteTail else WriteChunk, s.(recorder := Copying(0, left, wrap)))
  {
    EndFromPointer(s, c);
    hide RingInv, DataInv, Slot, Start, Holder, Aligned, Copied, Kept, Config.End, Memory;
    if Start(s.last, c.size) > s.pos + c.chunk {
      if s.end < s.pointer && c.End() <= s.pointer + c.chunk {
        assert WalkStep(s, c, if true then WriteTail else WriteChunk,
                        s.(recorder := Copying(0, c.End() - s.pointer, true)));
      } else {
        assert WalkStep(s, c, if false then WriteTail else WriteChunk, s.(recorder := Copying(0, c.chunk, false)));
      }
    }
  }

  lemma Go(states: seq<State>, labels: seq<Label>, c: Config, s: State, l: Label, s': State)
    returns (states': seq<State>, labels': seq<Label>)
    requires Run(states, labels, c) && |states| == |labels| + 1 && states[|labels|] == s
    requires Legal(s, c) && Step(s, c, l, s')
    ensures Run(states', labels', c) && |states'| == |labels'| + 1 && states'[|labels'|] == s'
  {
    hide Init, Legal, Step;
    states', labels' := states + [s'], labels + [l];
    forall i | 0 <= i < |labels'|
      ensures Legal(states'[i], c) && Step(states'[i], c, labels'[i], states'[i + 1])
    {
      if i < |labels| {
        assert states'[i] == states[i] && states'[i + 1] == states[i + 1];
      }
    }
  }

  /** One write of the producer. */
  lemma WriteOne(states: seq<State>, labels: seq<Label>, c: Config, s: State, e: Record)
    returns (states': seq<State>, labels': seq<Label>)
    requires Run(states, labels, c) && |states| == |labels| + 1 && states[|labels|] == s && Legal(s, c)
    requires s.producer == PIdle && Next(s.write, c.slots) != s.read
    requires |e.bytes| == c.size && 0 < e.ts < 0xFFFF_FFFF_FFFF_FFFF
    requires s.written != [] ==> s.written[|s.written| - 1].ts < e.ts
    ensures Run(states', labels', c) && |states'| == |labels'| + 1
    ensures states'[|labels'|] == s.(slots := s.slots[s.write := e], write := Next(s.write, c.slots),
                                     written := s.written + [e])
  {
    hide Run, Holder, Memory;
    var s1 := s.(producer := PReserved);
    states', labels' := Go(states, labels, c, s, Reserve, s1);
    var s2 := s1.(slots := s.slots[s.write := e], producer := PConstructed(e));
    states', labels' := Go(states', labels', c, s1, Construct(e), s2);
    states', labels' := Go(states', labels', c, s2, Publish,
                           s2.(write := Next(s.write, c.slots), written := s.written + [e], producer := PIdle));
  }

  /** One cleanup that pops the front. */
  lemma PopOne(states: seq<State>, labels: seq<Label>, c: Config, s: State)
    returns (states': seq<State>, labels': seq<Label>)
    requires Run(states, labels, c) && |states| == |labels| + 1 && states[|labels|] == s && Legal(s, c)
    requires s.cleaner == CIdle && s.recorder == Off && s.read != s.write && s.slots[s.read].ts < s.watermark
    requires s.popped < |s.written|
    ensures Run(states', labels', c) && |states'| == |labels'| + 1
    ensures states'[|labels'|] == s.(read := Next(s.read, c.slots), popped := s.popped + 1)
  {
    hide Run, Holder, Memory;
    var s1, s2, s3 := s.(cleaner := CCleaning), s.(cleaner := CFront), s.(cleaner := CPopping(s.watermark));
    states', labels' := Go(states, labels, c, s, BeginCleanup, s1);
    states', labels' := Go(states', labels', c, s1, LookAtFront, s2);
    states', labels' := Go(states', labels', c, s2, CheckFront, s3);
    var s4 := s1.(read := Next(s.read, c.slots), popped := s.popped + 1);
    states', labels' := Go(states', labels', c, s3, PopFront, s4);
    states', labels' := Go(states', labels', c, s4, EndCleanup, s4.(cleaner := CIdle));
  }

  /** From the start of a recording to the first record that the search looks at. */
  lemma BeginSeek(states: seq<State>, labels: seq<Label>, c: Config, s: State)
    returns (states': seq<State>, labels': seq<Label>)
    requires Run(states, labels, c) && |states| == |labels| + 1 && states[|labels|] == s && Legal(s, c)
    requires s.recorder == Off && s.cleaner == CIdle && s.read != s.write
    ensures Run(states', labels', c) && |states'| == |labels'| + 1
    ensures states'[|labels'|] == s.(recorder := Skipping(s.read, s.popped), watermark := s.slots[s.read].ts)
  {
    hide Run, Holder, Memory, Aligned, Start;
    var s1 := s.(recorder := Top, watermark := 0);
    states', labels' := Go(states, labels, c, s, StartRecording, s1);
    states', labels' := Go(states', labels', c, s1, Wait, s1.(recorder := Waited));
    var s2 := s1.(recorder := HaveBegin(s.read, s.popped));
    states', labels' := Go(states', labels', c, s1.(recorder := Waited), LoadBegin, s2);
    states', labels' := Go(states', labels', c, s2, TakeMark,
                           s.(recorder := Skipping(s.read, s.popped), watermark := s.slots[s.read].ts));
  }

  /** The search runs off the queue when the record it looks at, the newest one, is not aligned. */
  lemma SeekInVain(states: seq<State>, labels: seq<Label>, c: Config, s: State)
    returns (states': seq<State>, labels': seq<Label>)
    requires Run(states, labels, c) && |states| == |labels| + 1 && states[|labels|] == s && Legal(s, c)
    requires s.recorder.Skipping? && s.recorder.index == s.read && Next(s.read, c.slots) == s.write
    requires !Aligned(Start(s.read, c.size), c.alignment)
    ensures Run(states', labels', c) && |states'| == |labels'| + 1
    ensures states'[|labels'|] == s.(recorder := Adrift, watermark := 0)
  {
    hide Run, Holder, Memory, Aligned, Start;
    states', labels' := Go(states, labels, c, s, SkipRecord, s.(recorder := RanOff));
    states', labels' := Go(states', labels', c, s.(recorder := RanOff), ResetMark,
                           s.(recorder := Adrift, watermark := 0));
  }

  /** A buffer of three one-byte slots, of which only the unaligned second one is in use when recording starts. */
  lemma SearchRunsOff() returns (states: seq<State>, labels: seq<Label>, c: Config)
    ensures c.Valid() && 0x1_0000_0000 % c.alignment == 0
    ensures Run(states, labels, c) && |states| == |labels| + 1 && states[|labels|].recorder == Adrift
  {
    c := Config(3, 1, 2, 2);
    var e1, e2 := Record(1, [0]), Record(2, [0]);
    var s0 := State([e1, e1, e1], 0, 0, [], 0, PIdle, CIdle, NO_MARK, Off, 0, NULL, [], 0, 0, 0);
    states, labels := [s0], [];
    assert Run(states, labels, c);
    assert !Aligned(Start(1, 1), 2);
    hide Run, Aligned, Start;
    states, labels := WriteOne(states, labels, c, s0, e1);
    assert s0.slots[0 := e1] == s0.slots && [] + [e1] == [e1];
    var s1 := s0.(write := 1, written := [e1]);
    states, labels := PopOne(states, labels, c, s1);
    var s2 := s1.(read := 1, popped := 1);
    states, labels := WriteOne(states, labels, c, s2, e2);
    var s3 := s2.(slots := s2.slots[1 := e2], write := 2, written := s2.written + [e2]);
    states, labels := BeginSeek(states, labels, c, s3);
    states, labels := SeekInVain(states, labels, c, s3.(recorder := Skipping(1, 1), watermark := 2));
  }

  /** A write begins if and only if fewer than `size - 1` records are in the ring. */
  lemma WriteBeginsIffNotFull(s: State, c: Config)
    requires Inv(s, c)
    ensures ProducerStep(s, c, Reserve, s.(producer := PReserved))
            <==> s.producer == PIdle && |s.written| - s.popped < c.slots - 1
  {
    hide Ring, DataInv, RecorderInv, Holder;
    RingCount(s.slots, s.read, s.write, s.written, s.popped);
  }

  /** The recorder is never blocked but in the wait for a cleanup to end: in every state from the start of a recording
      to its end it has a step to take, beside those that end a round or the recording. */
  lemma RecorderCanMove(s: State, c: Config) returns (l: Label, s': State)
    requires Inv(s, c) && s.recorder != Off && s.recorder != Wild && s.recorder != Done
    requires s.recorder == Top || s.recorder == Resting ==> s.cleaner == CIdle
    ensures Step(s, c, l, s') && l != LeaveLoop && l != FinishRecord
  {
    hide RingInv, DataInv, RecorderInv, Holder, Slot, Start, Aligned, Good, Memory, Config.End;
    var r := s.recorder;
    if r == Top || r == Waited || r.HaveBegin? || r.Skipping? || r == RanOff || r == Adrift {
      l, s' := SeekerMoves(s, c);
    } else if r.Finishing? {
      l, s' := FinisherMoves(s, c);
    } else if r == Choosing {
      l, s' := ChooserMoves(s, c);
    } else {
      l, s' := WalkerMoves(s, c);
    }
  }

  lemma SeekerMoves(s: State, c: Config) returns (l: Label, s': State)
    requires Legal(s, c) && (s.recorder == Top ==> s.cleaner == CIdle)
    requires var r := s.recorder; r == Top || r == Waited || r.HaveBegin? || r.Skipping? || r == RanOff || r == Adrift
    ensures SeekStep(s, c, l, s')
  {
    hide Holder, Start, Aligned, Good, Memory;
    var r := s.recorder;
    if r == Top {
      l, s' := Wait, s.(recorder := Waited);
    } else if r == Waited {
      l, s' := LoadBegin, s.(recorder := if s.read == s.write then Top else HaveBegin(s.read, s.popped));
    } else if r.HaveBegin? {
      l, s' := TakeMark, s.(watermark := s.slots[r.index].ts, recorder := Skipping(r.index, r.at));
    } else if r == RanOff {
      l, s' := ResetMark, s.(recorder := Adrift, watermark := 0);
    } else if r == Adrift {
      l, s' := Spin, s.(recorder := if Aligned(Start(END, c.size), c.alignment) then Wild else RanOff);
    } else if Aligned(Start(r.index, c.size), c.alignment) {
      l := TakePointer;
      s' := s.(recorder := LoadingEnd, pointer := Start(r.index, c.size), base := r.at, pos := Start(r.at, c.size));
    } else {
      l := SkipRecord;
      var next := Next(r.index, c.slots);
      s' := if Good(next, s.read, s.write) then s.(recorder := Skipping(next, r.at + 1)) else s.(recorder := RanOff);
    }
  }

  /** At the choice, one of the three ways is open. */
  lemma ChooserMoves(s: State, c: Config) returns (l: Label, s': State)
    requires Inv(s, c) && s.recorder == Choosing
    ensures WalkStep(s, c, l, s') && (l == WriteChunk || l == WriteTail || l == WriteNothing)
  {
    EndFromPointer(s, c);
    hide RingInv, DataInv, RecorderInv, Holder, Slot, Start, Aligned, Memory, Config.End;
    if s.pointer + c.chunk < s.end || (s.end < s.pointer && s.pointer + c.chunk < c.End()) {
      l, s' := WriteChunk, s.(recorder := Copying(0, c.chunk, false));
    } else if s.end < s.pointer {
      l, s' := WriteTail, s.(recorder := Copying(0, c.End() - s.pointer, true));
    } else {
      l, s' := WriteNothing, s.(recorder := Marking);
    }
  }

  lemma WalkerMoves(s: State, c: Config) returns (l: Label, s': State)
    requires Inv(s, c) && (s.recorder == Resting ==> s.cleaner == CIdle)
    requires var r := s.recorder; r == Resting || r == LoadingEnd || r.EndLoaded? || r.Copying? || r == Marking
    ensures WalkStep(s, c, l, s') && l != LeaveLoop
  {
    hide RingInv, DataInv, Walking, WithinLap, Ahead, Copied, Holder, Slot, Start, Aligned, Memory, Config.End;
    var r := s.recorder;
    if r == Resting {
      l, s' := WaitAgain, s.(recorder := LoadingEnd);
    } else if r == LoadingEnd {
      l := LoadEnd;
      s' := s.(recorder := EndLoaded(s.write), last := if s.written == [] then 0 else |s.written| - 1);
    } else if r.EndLoaded? {
      l := CompareEnd;
      s' := s.(recorder := Choosing,
               end := if r.write == s.read then NULL
                      else Start(if r.write == 0 then c.slots - 1 else r.write - 1, c.size));
    } else if r == Marking {
      l, s' := RaiseMark, s.(recorder := Choosing, watermark := s.slots[Holder(s.pointer, c.size)].ts);
    } else if 0 < r.left {
      l := CopyByte;
      s' := s.(file := s.file + [Memory(s.slots, s.pointer + r.copied, c.size)],
               recorder := Copying(r.copied + 1, r.left - 1, r.wrap));
    } else {
      l := EndWrite;
      var p := if r.wrap then 0 else s.pointer + r.copied;
      s' := s.(recorder := Marking, pos := s.pos + r.copied, pointer := p);
    }
  }

  lemma FinisherMoves(s: State, c: Config) returns (l: Label, s': State)
    requires Inv(s, c) && s.recorder.Finishing?
    ensures FinishStep(s, c, l, s') && l != FinishRecord
  {
    hide RingInv, DataInv, Walking, Copied, Holder, Slot, Start, Aligned, Memory, Config.End;
    var r := s.recorder;
    if 0 < r.left {
      l := CopyByte;
      s' := s.(file := s.file + [Memory(s.slots, s.pointer + r.copied, c.size)],
               recorder := Finishing(r.copied + 1, r.left - 1));
    } else {
      l, s' := EndFinish, s.(recorder := Done, watermark := NO_MARK, pos := s.pos + r.copied);
    }
  }

  /** The buffer of a recording that copies the first of three one-byte records and is then out of time. */
  lemma ThreeBuffered(c: Config, e1: Record, e2: Record, e3: Record) returns (states: seq<State>, labels: seq<Label>)
    requires c == Config(4, 1, 1, 1) && e1 == Record(1, [5]) && e2 == Record(2, [6]) && e3 == Record(3, [7])
    ensures Run(states, labels, c) && |states| == |labels| + 1
    ensures states[|labels|] == State([e1, e2, e3, e1], 0, 3, [e1, e2, e3], 0, PIdle, CIdle, NO_MARK, Off,
                                      0, NULL, [], 0, 0, 0)
  {
    var s0 := State([e1, e1, e1, e1], 0, 0, [], 0, PIdle, CIdle, NO_MARK, Off, 0, NULL, [], 0, 0, 0);
    states, labels := [s0], [];
    assert Run(states, labels, c);
    hide Run;
    states, labels := WriteOne(states, labels, c, s0, e1);
    assert s0.slots[0 := e1] == s0.slots && [] + [e1] == [e1];
    var s1 := s0.(write := 1, written := [e1]);
    states, labels := WriteOne(states, labels, c, s1, e2);
    assert s1.slots[1 := e2] == [e1, e2, e1, e1] && [e1] + [e2] == [e1, e2];
    var s2 := s1.(slots := [e1, e2, e1, e1], write := 2, written := [e1, e2]);
    states, labels := WriteOne(states, labels, c, s2, e3);
    assert s2.slots[2 := e3] == [e1, e2, e3, e1] && [e1, e2] + [e3] == [e1, e2, e3];
  }

  /** A run of a whole recording: with three records buffered the pointer may pass the first, and no further record is
      written when the time is then over. */
  lemma OneRecordCopied() returns (states: seq<State>, labels: seq<Label>, c: Config)
    ensures c.Valid() && Run(states, labels, c) && |states| == |labels| + 1
    ensures states[|labels|].recorder == Done && states[|labels|].file == [5] && |states[|labels|].written| == 3
  {
    c := Config(4, 1, 1, 1);
    var e1, e2, e3 := Record(1, [5]), Record(2, [6]), Record(3, [7]);
    hide *;
    states, labels := ThreeBuffered(c, e1, e2, e3);
    var s3 := State([e1, e2, e3, e1], 0, 3, [e1, e2, e3], 0, PIdle, CIdle, NO_MARK, Off, 0, NULL, [], 0, 0, 0);
    states, labels := SeekAndLoadEnd(states, labels, c, s3);
    var s5 := s3.(recorder := Choosing, watermark := 1, last := 2, end := 2);
    states, labels := CopyOne(states, labels, c, s5);
    var s6 := s5.(recorder := Choosing, watermark := 2, file := [5], pos := 1, pointer := 1);
    states, labels := FinishNow(states, labels, c, s6);
  }

  lemma SeekAndLoadEnd(states: seq<State>, labels: seq<Label>, c: Config, s: State)
    returns (states': seq<State>, labels': seq<Label>)
    requires c == Config(4, 1, 1, 1) && Run(states, labels, c) && |states| == |labels| + 1 && states[|labels|] == s
    requires |s.slots| == 4 && s.read == 0 && s.write == 3 && |s.written| == 3 && s.popped == 0 && s.cleaner == CIdle
    requires s.recorder == Off && s.pointer == 0 && s.base == 0 && s.pos == 0 && s.slots[0].ts == 1
    ensures Run(states', labels', c) && |states'| == |labels'| + 1
    ensures states'[|labels'|] == s.(recorder := Choosing, watermark := 1, last := 2, end := 2)
  {
    hide Run, Memory;
    states', labels' := BeginSeek(states, labels, c, s);
    var s1 := s.(recorder := Skipping(0, 0), watermark := 1);
    states', labels' := Go(states', labels', c, s1, TakePointer, s1.(recorder := LoadingEnd));
    var s2 := s1.(recorder := EndLoaded(3), last := 2);
    states', labels' := Go(states', labels', c, s1.(recorder := LoadingEnd), LoadEnd, s2);
    states', labels' := Go(states', labels', c, s2, CompareEnd, s2.(recorder := Choosing, end := 2));
  }

  lemma CopyOne(states: seq<State>, labels: seq<Label>, c: Config, s: State)
    returns (states': seq<State>, labels': seq<Label>)
    requires c == Config(4, 1, 1, 1) && Run(states, labels, c) && |states| == |labels| + 1 && states[|labels|] == s
    requires |s.slots| == 4 && s.read == 0 && s.write == 3 && s.popped <= |s.written| && s.recorder == Choosing
    requires s.pointer == 0 && s.pos == 0 && s.end == 2 && s.file == [] && s.slots[0] == Record(1, [5])
    ensures Run(states', labels', c) && |states'| == |labels'| + 1
    ensures states'[|labels'|] == s.(recorder := Choosing, watermark := s.slots[1].ts, file := [5], pos := 1,
                                     pointer := 1)
  {
    hide Run;
    var s1 := s.(recorder := Copying(0, 1, false));
    states', labels' := Go(states, labels, c, s, WriteChunk, s1);
    assert Memory(s.slots, 0, 1) == 5;
    hide Memory;
    var s2 := s.(recorder := Copying(1, 0, false), file := [5]);
    states', labels' := Go(states', labels', c, s1, CopyByte, s2);
    var s3 := s2.(recorder := Marking, pos := 1, pointer := 1);
    states', labels' := Go(states', labels', c, s2, EndWrite, s3);
    states', labels' := Go(states', labels', c, s3, RaiseMark, s3.(recorder := Choosing, watermark := s.slots[1].ts));
  }

  lemma FinishNow(states: seq<State>, labels: seq<Label>, c: Config, s: State)
    returns (states': seq<State>, labels': seq<Label>)
    requires c == Config(4, 1, 1, 1) && Run(states, labels, c) && |states| == |labels| + 1 && states[|labels|] == s
    requires |s.slots| == 4 && s.read == 0 && s.write == 3 && s.popped <= |s.written|
    requires s.recorder == Choosing && s.pointer == 1
    ensures Run(states', labels', c) && |states'| == |labels'| + 1
    ensures states'[|labels'|] == s.(recorder := Done, watermark := NO_MARK)
  {
    hide Run, Memory;
    states', labels' := Go(states, labels, c, s, LeaveLoop, s.(recorder := Resting));
    var s1 := s.(recorder := Finishing(0, 0));
    states', labels' := Go(states', labels', c, s.(recorder := Resting), FinishRecord, s1);
    states', labels' := Go(states', labels', c, s1, EndFinish, s.(recorder := Done, watermark := NO_MARK));
  }
}
