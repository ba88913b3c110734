/** The queue as one producer and one consumer see it: every atomic load and store, and every access to a
    slot, is a step of its own, and the steps of the two threads interleave arbitrarily. */
module SpscProtocol {
  import opened RingMath
  import opened RingBuffer

  /** In a count under way or done, `first` is the number of elements in the queue at the first of its two loads. */
  datatype Producer<T> =
    | PIdle
    | WriteLoaded(record: T, currentWrite: nat)
    | WriteReserved(record: T, currentWrite: nat, nextRecord: nat)
    | WriteConstructed(record: T, nextRecord: nat)
    | PCountingRead(write: nat, first: nat)
    | PCountingWrite(read: nat, first: nat)
    | PCounted(count: nat, first: nat)

  datatype Consumer<T> =
    | CIdle
    | TakeLoaded(currentRead: nat)
    | TakeNonEmpty(currentRead: nat, nextRecord: nat)
    | TakeMoved(record: T, currentRead: nat, nextRecord: nat)
    | CCountingRead(write: nat, first: nat)
    | CCountingWrite(read: nat, first: nat)
    | CCounted(count: nat, first: nat)

  /** `written` and `consumed` record what the two threads have published so far. */
  datatype State<T> = State(
    slots: seq<T>,
    readIndex: nat,
    writeIndex: nat,
    producer: Producer<T>,
    consumer: Consumer<T>,
    written: seq<T>,
    consumed: seq<T>)

  datatype Label<T> =
    | WriteLoad(record: T) | WriteCheck | WriteConstruct | WritePublish
    | TakeLoad | TakeCheck | TakeMove | TakePublish
    | PCountLoadWrite | PCountLoadRead | PCountReturn
    | CCountLoadWrite | CCountLoadRead | CCountReturn

  ghost predicate Init<T>(s: State<T>) {
    && 2 <= |s.slots|
    && s.readIndex == 0 && s.writeIndex == 0
    && s.producer == PIdle && s.consumer == CIdle
    && s.written == [] && s.consumed == []
  }

  ghost predicate Step<T>(s: State<T>, l: Label<T>, s': State<T>)
    requires Bounds(s)
  {
    var n := |s.slots|;
    var size := if |s.consumed| <= |s.written| then |s.written| - |s.consumed| else 0;
    match l
    case WriteLoad(record) =>
      s.producer == PIdle && s' == s.(producer := WriteLoaded(record, s.writeIndex))
    case WriteCheck =>
      // the load of the read index; a full queue ends the write without effect
      && s.producer.WriteLoaded?
      && var next := Next(s.producer.currentWrite, n);
      && s' == s.(producer := if next != s.readIndex
                              then WriteReserved(s.producer.record, s.producer.currentWrite, next) else PIdle)
    case WriteConstruct =>
      && s.producer.WriteReserved?
      && s' == s.(slots := s.slots[s.producer.currentWrite := s.producer.record],
                  producer := WriteConstructed(s.producer.record, s.producer.nextRecord))
    case WritePublish =>
      && s.producer.WriteConstructed?
      && s' == s.(writeIndex := s.producer.nextRecord, written := s.written + [s.producer.record], producer := PIdle)
    case TakeLoad =>
      s.consumer == CIdle && s' == s.(consumer := TakeLoaded(s.readIndex))
    case TakeCheck =>
      // the load of the write index; an empty queue ends the read without effect
      && s.consumer.TakeLoaded?
      && s' == s.(consumer := if s.consumer.currentRead != s.writeIndex
                              then TakeNonEmpty(s.consumer.currentRead, Next(s.consumer.currentRead, n)) else CIdle)
    case TakeMove =>
      && s.consumer.TakeNonEmpty?
      && s' == s.(consumer := TakeMoved(s.slots[s.consumer.currentRead], s.consumer.currentRead, s.consumer.nextRecord))
    case TakePublish =>
      // until here the consumer also destroys what it has moved out of the slot
      && s.consumer.TakeMoved?
      && s' == s.(readIndex := s.consumer.nextRecord, consumed := s.consumed + [s.consumer.record], consumer := CIdle)
    // occupancy: one load of either index, in either order
    case PCountLoadWrite =>
      (s.producer == PIdle && s' == s.(producer := PCountingRead(s.writeIndex, size)))
      || (s.producer.PCountingWrite?
          && s' == s.(producer := PCounted(Distance(s.producer.read, s.writeIndex, n), s.producer.first)))
    case PCountLoadRead =>
      (s.producer == PIdle && s' == s.(producer := PCountingWrite(s.readIndex, size)))
      || (s.producer.PCountingRead?
          && s' == s.(producer := PCounted(Distance(s.readIndex, s.producer.write, n), s.producer.first)))
    case PCountReturn =>
      s.producer.PCounted? && s' == s.(producer := PIdle)
    case CCountLoadWrite =>
      (s.consumer == CIdle && s' == s.(consumer := CCountingRead(s.writeIndex, size)))
      || (s.consumer.CCountingWrite?
          && s' == s.(consumer := CCounted(Distance(s.consumer.read, s.writeIndex, n), s.consumer.first)))
    case CCountLoadRead =>
      (s.consumer == CIdle && s' == s.(consumer := CCountingWrite(s.readIndex, size)))
      || (s.consumer.CCountingRead?
          && s' == s.(consumer := CCounted(Distance(s.readIndex, s.consumer.write, n), s.consumer.first)))
    case CCountReturn =>
      s.consumer.CCounted? && s' == s.(consumer := CIdle)
  }

  /** Every index held anywhere names a slot. */
  ghost predicate Bounds<T>(s: State<T>) {
    var n := |s.slots|;
    && 2 <= n && s.readIndex < n && s.writeIndex < n
    && (match s.producer
        case WriteLoaded(_, currentWrite) => currentWrite < n
        case WriteReserved(_, currentWrite, nextRecord) => currentWrite < n && nextRecord < n
        case WriteConstructed(_, nextRecord) => nextRecord < n
        case PCountingRead(write, _) => write < n
        case PCountingWrite(read, _) => read < n
        case _ => true)
    && (match s.consumer
        case TakeLoaded(currentRead) => currentRead < n
        case TakeNonEmpty(currentRead, nextRecord) => currentRead < n && nextRecord < n
        case TakeMoved(_, currentRead, nextRecord) => currentRead < n && nextRecord < n
        case CCountingRead(write, _) => write < n
        case CCountingWrite(read, _) => read < n
        case _ => true)
  }

  ghost predicate ProducerInv<T>(s: State<T>)
    requires Bounds(s)
  {
    var n, live := |s.slots|, |s.written| - |s.consumed|;
    match s.producer
    case WriteLoaded(_, currentWrite) => currentWrite == s.writeIndex
    case WriteReserved(_, currentWrite, nextRecord) =>
      currentWrite == s.writeIndex && nextRecord == Next(s.writeIndex, n) && live < n - 1
    case WriteConstructed(record, nextRecord) =>
      nextRecord == Next(s.writeIndex, n) && live < n - 1 && s.slots[s.writeIndex] == record
    case PCountingRead(write, first) => write == s.writeIndex && live <= first
    case PCountingWrite(read, first) => live <= Distance(read, s.writeIndex, n) == first
    case PCounted(count, first) => live <= count <= first
    case _ => true
  }

  ghost predicate ConsumerInv<T>(s: State<T>)
    requires Bounds(s)
  {
    var n, live := |s.slots|, |s.written| - |s.consumed|;
    match s.consumer
    case TakeLoaded(currentRead) => currentRead == s.readIndex
    case TakeNonEmpty(currentRead, nextRecord) =>
      currentRead == s.readIndex && nextRecord == Next(s.readIndex, n) && 0 < live
    case TakeMoved(record, currentRead, nextRecord) =>
      && currentRead == s.readIndex && nextRecord == Next(s.readIndex, n)
      && 0 < live && record == s.written[|s.consumed|]
    case CCountingRead(write, first) => first == Distance(s.readIndex, write, n) <= live
    case CCountingWrite(read, first) => read == s.readIndex && first <= live
    case CCounted(count, first) => first <= count <= live
    case _ => true
  }

  ghost predicate Inv<T>(s: State<T>) {
    && Bounds(s)
    && Ring(s.slots, s.readIndex, s.writeIndex, s.written, |s.consumed|)
    && s.consumed == s.written[..|s.consumed|]
    && ProducerInv(s) && ConsumerInv(s)
  }

  lemma InitInv<T>(s: State<T>)
    requires Init(s)
    ensures Inv(s)
  {
  }

  lemma RingFacts<T>(s: State<T>)
    requires Inv(s)
    ensures |s.consumed| <= |s.written|
    ensures Distance(s.readIndex, s.writeIndex, |s.slots|) == |s.written| - |s.consumed|
    ensures s.readIndex == s.writeIndex <==> |s.consumed| == |s.written|
    ensures Next(s.writeIndex, |s.slots|) == s.readIndex <==> |s.written| - |s.consumed| == |s.slots| - 1
    ensures |s.consumed| < |s.written| ==> s.slots[s.readIndex] == s.written[|s.consumed|]
  {
    RingCount(s.slots, s.readIndex, s.writeIndex, s.written, |s.consumed|);
    if |s.consumed| < |s.written| {
      RingAt(s.slots, s.readIndex, s.writeIndex, s.written, |s.consumed|, |s.consumed|);
    }
  }

  lemma WriteStepInv<T>(s: State<T>, l: Label<T>, s': State<T>)
    requires Inv(s) && Step(s, l, s')
    requires l.WriteLoad? || l.WriteCheck? || l.WriteConstruct? || l.WritePublish?
    ensures Inv(s')
  {
    hide Ring;
    RingFacts(s);
    if l.WriteConstruct? {
      RingConstruct(s.slots, s.readIndex, s.writeIndex, s.written, |s.consumed|, s.producer.record);
    } else if l.WritePublish? {
      RingPublish(s.slots, s.readIndex, s.writeIndex, s.written, |s.consumed|, s.producer.record);
    }
  }

  lemma TakeStepInv<T>(s: State<T>, l: Label<T>, s': State<T>)
    requires Inv(s) && Step(s, l, s')
    requires l.TakeLoad? || l.TakeCheck? || l.TakeMove? || l.TakePublish?
    ensures Inv(s')
  {
    hide Ring;
    RingFacts(s);
    if l.TakePublish? {
      RingPop(s.slots, s.readIndex, s.writeIndex, s.written, |s.consumed|);
    }
  }

  lemma ProducerCountInv<T>(s: State<T>, l: Label<T>, s': State<T>)
    requires Inv(s) && Step(s, l, s') && (l.PCountLoadWrite? || l.PCountLoadRead? || l.PCountReturn?)
    ensures Inv(s')
  {
    hide Ring, ConsumerInv;
    RingFacts(s);
    ConsumerUnchanged(s, s');
  }

  lemma ConsumerUnchanged<T>(s: State<T>, s': State<T>)
    requires Inv(s) && Bounds(s') && s' == s.(producer := s'.producer)
    ensures ConsumerInv(s')
  {
    hide Ring, ProducerInv;
  }

  lemma ConsumerCountInv<T>(s: State<T>, l: Label<T>, s': State<T>)
    requires Inv(s) && Step(s, l, s') && (l.CCountLoadWrite? || l.CCountLoadRead? || l.CCountReturn?)
    ensures Inv(s')
  {
    hide Ring, ProducerInv;
    RingFacts(s);
    ProducerUnchanged(s, s');
  }

  lemma ProducerUnchanged<T>(s: State<T>, s': State<T>)
    requires Inv(s) && Bounds(s') && s' == s.(consumer := s'.consumer)
    ensures ProducerInv(s')
  {
    hide Ring, ConsumerInv;
  }

  lemma StepInv<T>(s: State<T>, l: Label<T>, s': State<T>)
    requires Inv(s) && Step(s, l, s')
    ensures Inv(s')
  {
    hide Inv;
    if l.WriteLoad? || l.WriteCheck? || l.WriteConstruct? || l.WritePublish? {
      WriteStepInv(s, l, s');
    } else if l.TakeLoad? || l.TakeCheck? || l.TakeMove? || l.TakePublish? {
      TakeStepInv(s, l, s');
    } else if l.PCountLoadWrite? || l.PCountLoadRead? || l.PCountReturn? {
      ProducerCountInv(s, l, s');
    } else {
      ConsumerCountInv(s, l, s');
    }
  }

  /** A run: a starting state, and one label for each step. */
  ghost predicate Run<T>(states: seq<State<T>>, labels: seq<Label<T>>) {
    && |states| == |labels| + 1
    && Init(states[0])
    && forall i :: 0 <= i < |labels| ==> Bounds(states[i]) && Step(states[i], labels[i], states[i + 1])
  }

  lemma {:induction false} RunInv<T>(states: seq<State<T>>, labels: seq<Label<T>>, i: nat)
    requires Run(states, labels) && i < |states|
    ensures Inv(states[i])
  {
    if i == 0 {
      InitInv(states[0]);
    } else {
      RunInv(states, labels, i - 1);
      StepInv(states[i - 1], labels[i - 1], states[i]);
    }
  }

  lemma RunExtends<T>(states: seq<State<T>>, labels: seq<Label<T>>, l: Label<T>, s': State<T>)
    requires Run(states, labels) && Bounds(states[|labels|]) && Step(states[|labels|], l, s')
    ensures Run(states + [s'], labels + [l])
  {
    var states', labels' := states + [s'], labels + [l];
    forall i | 0 <= i < |labels'|
      ensures Bounds(states'[i]) && Step(states'[i], labels'[i], states'[i + 1])
    {
      if i < |labels| {
        assert Step(states[i], labels[i], states[i + 1]);
      }
    }
  }

  /** The contents of the live slots, oldest first. */
  ghost function Live<T>(s: State<T>): (es: seq<T>)
    requires Bounds(s)
    ensures |es| == Distance(s.readIndex, s.writeIndex, |s.slots|)
  {
    seq(Distance(s.readIndex, s.writeIndex, |s.slots|),
        p requires 0 <= p < |s.slots| => s.slots[Idx(s.readIndex, p, |s.slots|)])
  }

  /** First in, first out, nothing lost and nothing twice: at every moment of every run what was written is
      what was consumed followed by what is in the ring, and the ring holds at most `size - 1` elements. */
  lemma QueueIsFifo<T>(states: seq<State<T>>, labels: seq<Label<T>>, i: nat)
    requires Run(states, labels) && i < |states|
    ensures Inv(states[i])
    ensures states[i].written == states[i].consumed + Live(states[i])
    ensures |Live(states[i])| <= |states[i].slots| - 1
  {
    var s := states[i];
    RunInv(states, labels, i);
    RingFacts(s);
    var popped, live := |s.consumed|, Live(s);
    forall p | 0 <= p < |live|
      ensures live[p] == s.written[popped + p]
    {
      RingAt(s.slots, s.readIndex, s.writeIndex, s.written, popped, popped + p);
    }
    assert s.written == s.written[..popped] + live;
  }

  /** While the producer may write to a slot and the consumer may read or destroy one, they are different slots. */
  lemma NoSlotShared<T>(states: seq<State<T>>, labels: seq<Label<T>>, i: nat)
    requires Run(states, labels) && i < |states|
    ensures var s := states[i];
            s.producer.WriteReserved? && (s.consumer.TakeNonEmpty? || s.consumer.TakeMoved?)
            ==> s.producer.currentWrite != s.consumer.currentRead
  {
    var s := states[i];
    RunInv(states, labels, i);
    RingFacts(s);
  }

  /** A write is refused only at a moment when `size - 1` elements are in the queue, a read only when none is. */
  lemma RefusalIsHonest<T>(states: seq<State<T>>, labels: seq<Label<T>>, i: nat)
    requires Run(states, labels) && i < |labels|
    ensures Inv(states[i])
    ensures labels[i].WriteCheck?
            ==> (states[i + 1].producer.PIdle? <==> |Live(states[i])| == |states[i].slots| - 1)
    ensures labels[i].TakeCheck? ==> (states[i + 1].consumer.CIdle? <==> Live(states[i]) == [])
  {
    RunInv(states, labels, i);
    RingFacts(states[i]);
    assert Step(states[i], labels[i], states[i + 1]);
  }

  /** What `first` records: the number of elements at the load that begins a count. */
  lemma CountBegins<T>(states: seq<State<T>>, labels: seq<Label<T>>, i: nat)
    requires Run(states, labels) && i < |labels|
    ensures Inv(states[i])
    ensures states[i].producer == PIdle && (labels[i].PCountLoadRead? || labels[i].PCountLoadWrite?)
            ==> var p := states[i + 1].producer;
                && (p.PCountingRead? || p.PCountingWrite?) && p.first == |Live(states[i])|
    ensures states[i].consumer == CIdle && (labels[i].CCountLoadRead? || labels[i].CCountLoadWrite?)
            ==> var c := states[i + 1].consumer;
                && (c.CCountingRead? || c.CCountingWrite?) && c.first == |Live(states[i])|
  {
    RunInv(states, labels, i);
    RingFacts(states[i]);
    assert Step(states[i], labels[i], states[i + 1]);
  }

  /** `occupancy` returns at most the true size to the consumer and at least the true size to the producer, and in
      either case nothing beyond the size at the first of its loads: the value lies between the two sizes. */
  lemma OccupancyIsOneSided<T>(states: seq<State<T>>, labels: seq<Label<T>>, i: nat)
    requires Run(states, labels) && i < |states|
    ensures Inv(states[i])
    ensures states[i].consumer.CCounted?
            ==> states[i].consumer.first <= states[i].consumer.count <= |Live(states[i])|
    ensures states[i].producer.PCounted?
            ==> |Live(states[i])| <= states[i].producer.count <= states[i].producer.first
  {
    RunInv(states, labels, i);
    RingFacts(states[i]);
  }

  /** The producer alone, from an idle moment at which the queue is not full, completes a write. */
  lemma CompleteWrite<T>(states: seq<State<T>>, labels: seq<Label<T>>, record: T)
    returns (states': seq<State<T>>, labels': seq<Label<T>>)
    requires Run(states, labels) && states[|labels|].producer == PIdle
    requires var s := states[|labels|]; Bounds(s) && Next(s.writeIndex, |s.slots|) != s.readIndex
    ensures Run(states', labels') && states <= states' && |states'| == |states| + 4
    ensures var s, s' := states[|labels|], states'[|labels'|];
            s' == s.(slots := s.slots[s.writeIndex := record], writeIndex := Next(s.writeIndex, |s.slots|),
                     written := s.written + [record])
    ensures forall i :: |states| <= i < |states'| ==> |states'[i].written| <= |states[|labels|].written| + 1
  {
    var s := states[|labels|];
    var next := Next(s.writeIndex, |s.slots|);
    var s1 := s.(producer := WriteLoaded(record, s.writeIndex));
    var s2 := s.(producer := WriteReserved(record, s.writeIndex, next));
    var s3 := s.(slots := s.slots[s.writeIndex := record], producer := WriteConstructed(record, next));
    var s4 := s3.(writeIndex := next, written := s.written + [record], producer := PIdle);
    RunExtends(states, labels, WriteLoad(record), s1);
    RunExtends(states + [s1], labels + [WriteLoad(record)], WriteCheck, s2);
    hide Run;
    states', labels' := states + [s1] + [s2], labels + [WriteLoad(record)] + [WriteCheck];
    RunExtends(states', labels', WriteConstruct, s3);
    states', labels' := states' + [s3], labels' + [WriteConstruct];
    RunExtends(states', labels', WritePublish, s4);
    states', labels' := states' + [s4], labels' + [WritePublish];
  }

  /** The consumer alone, from an idle moment at which the queue is not empty, completes a read. */
  lemma CompleteTake<T>(states: seq<State<T>>, labels: seq<Label<T>>)
    returns (states': seq<State<T>>, labels': seq<Label<T>>)
    requires Run(states, labels) && states[|labels|].consumer == CIdle
    requires var s := states[|labels|]; Bounds(s) && s.writeIndex != s.readIndex
    ensures Run(states', labels') && states <= states' && |states'| == |states| + 4
    ensures var s, s' := states[|labels|], states'[|labels'|];
            s' == s.(readIndex := Next(s.readIndex, |s.slots|), consumed := s.consumed + [s.slots[s.readIndex]])
    ensures forall i :: |states| <= i < |states'| ==> states'[i].written == states[|labels|].written
  {
    var s := states[|labels|];
    var next := Next(s.readIndex, |s.slots|);
    var s1 := s.(consumer := TakeLoaded(s.readIndex));
    var s2 := s.(consumer := TakeNonEmpty(s.readIndex, next));
    var s3 := s.(consumer := TakeMoved(s.slots[s.readIndex], s.readIndex, next));
    var s4 := s.(readIndex := next, consumed := s.consumed + [s.slots[s.readIndex]]);
    RunExtends(states, labels, TakeLoad, s1);
    RunExtends(states + [s1], labels + [TakeLoad], TakeCheck, s2);
    hide Run;
    states', labels' := states + [s1] + [s2], labels + [TakeLoad] + [TakeCheck];
    RunExtends(states', labels', TakeMove, s3);
    states', labels' := states' + [s3], labels' + [TakeMove];
    RunExtends(states', labels', TakePublish, s4);
    states', labels' := states' + [s4], labels' + [TakePublish];
  }

  lemma {:induction false} OnlyGrows<T>(states: seq<State<T>>, labels: seq<Label<T>>, i: nat, j: nat)
    requires Run(states, labels) && i <= j < |states|
    ensures |states[i].slots| == |states[j].slots|
    ensures |states[i].consumed| <= |states[j].consumed| && |states[i].written| <= |states[j].written|
  {
    if i < j {
      OnlyGrows(states, labels, i, j - 1);
      assert Step(states[j - 1], labels[j - 1], states[j]);
    }
  }

  /** What `occupancy` tells a third thread. When it loads the write index first and the read index later: the
      difference of the two counts if and only if the consumer has not overtaken the write index that was loaded,
      and then a lower bound. In the other order, which the language leaves open: the difference if and only if
      that is less than a lap, and then an upper bound. */
  lemma ForeignOccupancy<T>(states: seq<State<T>>, labels: seq<Label<T>>, i: nat, j: nat)
    requires Run(states, labels) && i <= j < |states|
    ensures states[j].readIndex < |states[j].slots| && states[i].writeIndex < |states[j].slots|
    ensures var count := Distance(states[j].readIndex, states[i].writeIndex, |states[j].slots|);
            && (count == |states[i].written| - |states[j].consumed| <==> |states[j].consumed| <= |states[i].written|)
            && (|states[j].consumed| <= |states[i].written| ==> count <= |states[j].written| - |states[j].consumed|)
    ensures states[i].readIndex < |states[j].slots| && states[j].writeIndex < |states[j].slots|
    ensures var n, between := |states[j].slots|, |states[j].written| - |states[i].consumed|;
            var count := Distance(states[i].readIndex, states[j].writeIndex, n);
            && (count == between <==> between < n)
            && (between < n ==> |states[j].written| - |states[j].consumed| <= count)
  {
    hide Run, Slot, Distance;
    var n := |states[j].slots|;
    IndicesAreSlots(states, labels, i);
    IndicesAreSlots(states, labels, j);
    OnlyGrows(states, labels, i, j);
    SlotDistance(|states[j].consumed|, |states[i].written|, n);
    SlotDistance(|states[i].consumed|, |states[j].written|, n);
  }

  lemma IndicesAreSlots<T>(states: seq<State<T>>, labels: seq<Label<T>>, i: nat)
    requires Run(states, labels) && i < |states|
    ensures var s := states[i];
            && 2 <= |s.slots| && |s.consumed| <= |s.written| < |s.consumed| + |s.slots|
            && s.readIndex == Slot(|s.consumed|, |s.slots|) && s.writeIndex == Slot(|s.written|, |s.slots|)
  {
    hide Run, ProducerInv, ConsumerInv;
    RunInv(states, labels, i);
  }

  /** Otherwise there is no bound: loading the write index at the start of this run and the read index at its end
      gives two elements, although only one was ever written. */
  lemma ForeignOccupancyIsWrong() returns (states: seq<State<int>>, labels: seq<Label<int>>)
    ensures Run(states, labels)
    ensures forall i :: 0 <= i < |states| ==> |states[i].written| <= 1
    ensures states[|labels|].readIndex < 3 && states[0].writeIndex < 3
    ensures Distance(states[|labels|].readIndex, states[0].writeIndex, 3) == 2
  {
    var s0: State<int> := State([0, 0, 0], 0, 0, PIdle, CIdle, [], []);
    states, labels := [s0], [];
    states, labels := CompleteWrite(states, labels, 7);
    states, labels := CompleteTake(states, labels);
  }
}
