/** The latency buffer queue: one producer, one consumer, a circular array of records. */
module IterableQueue {
  import opened RingMath

  datatype Option<+T> = None | Some(value: T)

  /** Above this size `occupancy` would leave the range of the signed 32-bit values it computes with. */
  const MAX_SIZE: nat := 0x7FFF_FFFF

  class IterableQueue<T(0)> {
    var records: array<T>
    var readIndex: nat
    var writeIndex: nat
    var overflowCtr: nat

    ghost predicate Valid()
      reads this, records
    {
      && 2 <= records.Length <= MAX_SIZE
      && readIndex < records.Length
      && writeIndex < records.Length
    }

    /** The elements in the queue, oldest first. */
    ghost function Live(): (es: seq<T>)
      reads this, records
      requires Valid()
      ensures |es| == Distance(readIndex, writeIndex, records.Length)
      ensures forall p :: 0 <= p < |es| ==> es[p] == records[Idx(readIndex, p, records.Length)]
    {
      seq(Distance(readIndex, writeIndex, records.Length),
          p reads this, records requires 0 <= p < records.Length && readIndex < records.Length
            => records[Idx(readIndex, p, records.Length)])
    }

    constructor (size: nat)
      requires 2 <= size <= MAX_SIZE
      ensures Valid() && fresh(records)
      ensures records.Length == size && Live() == [] && overflowCtr == 0
    {
      records := new T[size];
      readIndex, writeIndex, overflowCtr := 0, 0, 0;
    }

    /** Appends, or counts an overflow and drops the new record when `size - 1` slots are in use. */
    method Write(record: T) returns (ok: bool)
      requires Valid()
      modifies this, records
      ensures Valid() && records == old(records) && readIndex == old(readIndex)
      ensures ok <==> |old(Live())| < records.Length - 1
      ensures Live() == if ok then old(Live()) + [record] else old(Live())
      ensures overflowCtr == if ok then old(overflowCtr) else old(overflowCtr) + 1
      ensures forall i :: 0 <= i < records.Length && Good(i, old(readIndex), old(writeIndex))
                          ==> records[i] == old(records[i])
    {
      var currentWrite := writeIndex;
      var nextRecord := currentWrite + 1;
      if nextRecord == records.Length {
        nextRecord := 0;
      }
      if nextRecord != readIndex {
        records[currentWrite] := record;
        writeIndex := nextRecord;
        return true;
      }
      overflowCtr := overflowCtr + 1;
      return false;
    }

    method Read() returns (record: Option<T>)
      requires Valid()
      modifies this`readIndex
      ensures Valid()
      ensures record == if old(Live()) == [] then None else Some(old(Live())[0])
      ensures Live() == if old(Live()) == [] then [] else old(Live())[1..]
    {
      var currentRead := readIndex;
      if currentRead == writeIndex {
        return None;
      }
      var nextRecord := currentRead + 1;
      if nextRecord == records.Length {
        nextRecord := 0;
      }
      record := Some(records[currentRead]);
      readIndex := nextRecord;
    }

    method PopFront()
      requires Valid() && Live() != []
      modifies this`readIndex
      ensures Valid() && Live() == old(Live())[1..]
      ensures readIndex == Idx(old(readIndex), 1, records.Length)
    {
      var nextRecord := readIndex + 1;
      if nextRecord == records.Length {
        nextRecord := 0;
      }
      readIndex := nextRecord;
    }

    method Pop(x: nat)
      requires Valid() && x <= |Live()|
      modifies this`readIndex
      ensures Valid() && Live() == old(Live())[x..]
    {
      for i := 0 to x
        invariant Valid() && Live() == old(Live())[i..]
      {
        PopFront();
      }
    }

    predicate IsEmpty()
      reads this, records
      requires Valid()
      ensures IsEmpty() <==> Live() == []
    {
      readIndex == writeIndex
    }

    predicate IsFull()
      reads this, records
      requires Valid()
      ensures IsFull() <==> |Live()| == records.Length - 1
    {
      var nextRecord := writeIndex + 1;
      var nextRecord' := if nextRecord == records.Length then 0 else nextRecord;
      nextRecord' == readIndex
    }

    function Occupancy(): (count: nat)
      reads this, records
      requires Valid()
      ensures count == |Live()|
    {
      var ret: int := writeIndex - readIndex;
      if ret < 0 then ret + records.Length else ret
    }

    /** The slot of the oldest element. */
    function Front(): (slot: Option<nat>)
      reads this, records
      requires Valid()
      ensures slot.None? <==> Live() == []
      ensures slot.Some? ==> slot.value < records.Length && records[slot.value] == Live()[0]
    {
      if readIndex == writeIndex then None else Some(readIndex)
    }

    /** The slot of the newest element. */
    function Back(): (slot: Option<nat>)
      reads this, records
      requires Valid()
      ensures slot.None? <==> Live() == []
      ensures slot.Some? ==> slot.value < records.Length && records[slot.value] == Live()[|Live()| - 1]
    {
      if writeIndex == readIndex then None
      else
        var last := if writeIndex == 0 then records.Length - 1 else writeIndex - 1;
        assert last == Idx(readIndex, |Live()| - 1, records.Length);
        Some(last)
    }

    method Flush()
      requires Valid()
      modifies this`readIndex
      ensures Valid() && Live() == []
    {
      Pop(Occupancy());
    }

    /** The index of the oldest element, or END. */
    function Begin(): (index: nat)
      reads this, records
      requires Valid()
      ensures Live() == [] ==> index == END
      ensures Live() != [] ==> index < records.Length && records[index] == Live()[0]
    {
      if readIndex == writeIndex then END else readIndex
    }
  }

  /** A forward iterator: the index of a live element, the write index, or END. */
  class Iterator<T(0)> {
    const queue: IterableQueue<T>
    var index: nat

    ghost predicate Valid()
      reads this, queue, queue.records
    {
      && queue.Valid()
      && (index != END ==>
            && index < queue.records.Length
            && Distance(queue.readIndex, index, queue.records.Length) <= |queue.Live()|)
    }

    /** How many live elements lie before the one the iterator names; all of them when it names none. */
    ghost function Position(): (p: nat)
      reads this, queue, queue.records
      requires Valid()
      ensures p <= |queue.Live()|
      ensures index != END ==> index == Idx(queue.readIndex, p, queue.records.Length)
    {
      if index == END then |queue.Live()| else Distance(queue.readIndex, index, queue.records.Length)
    }

    constructor (queue: IterableQueue<T>, index: nat)
      requires queue.Valid()
      requires index != END ==>
                 && index < queue.records.Length
                 && Distance(queue.readIndex, index, queue.records.Length) <= |queue.Live()|
      ensures Valid() && this.queue == queue && this.index == index
    {
      this.queue := queue;
      this.index := index;
    }

    predicate IsGood()
      reads this, queue, queue.records
      requires Valid()
      ensures IsGood() <==> Position() < |queue.Live()|
      ensures IsGood() ==> index < queue.records.Length && queue.records[index] == queue.Live()[Position()]
    {
      index != END && Good(index, queue.readIndex, queue.writeIndex)
    }

    /** `operator++`: one element forward; END once no live element is named. */
    method Advance()
      requires Valid()
      modifies this`index
      ensures Valid()
      ensures Position() == if old(Position()) < |queue.Live()| then old(Position()) + 1 else old(Position())
      ensures index == END <==> Position() == |queue.Live()|
    {
      if IsGood() {
        index := index + 1;
        if index == queue.records.Length {
          index := 0;
        }
      }
      if !IsGood() {
        index := END;
      }
    }
  }

  /** A full sweep from `begin` visits the live elements, each once, oldest first. */
  method Sweep<T(0)>(queue: IterableQueue<T>) returns (visited: seq<T>)
    requires queue.Valid()
    ensures visited == queue.Live()
  {
    visited := [];
    var it := new Iterator(queue, queue.Begin());
    while it.index != END
      invariant queue == it.queue && it.Valid()
      invariant it.index == END <==> it.Position() == |queue.Live()|
      invariant visited == queue.Live()[..it.Position()]
      decreases |queue.Live()| - it.Position()
    {
      visited := visited + [queue.records[it.index]];
      it.Advance();
    }
  }
}
