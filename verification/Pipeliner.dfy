/**
 The pipeliner: fills the pipeline with requests for the next samples. Sending Interests and their deadlines
 are not modelled; what is issued is returned.
 */
module Pipeliners {
  import opened InterestControls
  import opened Options
  import BufferSlots

  datatype SampleClass = Delta | Key

  /** A requested sample: which stream of samples of the thread, and its number there. */
  datatype Request = Request(class_: SampleClass, no: int)

  /** Next number of each class, and the class to ask for next. */
  datatype Counters = Counters(delta: int, key: int, next: SampleClass)

  function Next(k: Counters): Request
  {
    Request(k.next, if k.next == Delta then k.delta else k.key)
  }

  function Advanced(k: Counters): Counters
  {
    Counters(if k.next == Delta then k.delta + 1 else k.delta,
             if k.next == Key then k.key + 1 else k.key,
             Delta)
  }

  /** What is issued when there is room for `room` samples. */
  function Issued(k: Counters, room: int): seq<Request>
    decreases room
  {
    if room <= 0 then [] else [Next(k)] + Issued(Advanced(k), room - 1)
  }

  function After(k: Counters, room: int): Counters
    decreases room
  {
    if room <= 0 then k else After(Advanced(k), room - 1)
  }

  function Numbers(issued: seq<Request>, class_: SampleClass): seq<int>
    decreases |issued|
  {
    if issued == [] then []
    else if issued[0].class_ == class_ then [issued[0].no] + Numbers(issued[1..], class_)
    else Numbers(issued[1..], class_)
  }

  ghost predicate Contiguous(numbers: seq<int>, from: int)
  {
    forall i | 0 <= i < |numbers| :: numbers[i] == from + i
  }

  /** The first request is for the class that is due, all later ones are for delta samples. */
  lemma {:induction false} FirstThenDeltas(k: Counters, room: nat)
    ensures |Issued(k, room)| == room
    ensures forall i | 0 <= i < room :: Issued(k, room)[i].class_ == if i == 0 then k.next else Delta
    decreases room
  {
    if room == 0 {
    } else {
      FirstThenDeltas(Advanced(k), room - 1);
    }
  }

  // ---------- batches ----------

  function BatchOf(sample: BufferSlots.SampleKey, nData: nat, nParity: nat): seq<BufferSlots.Interest>
  {
    seq(nData, i requires i >= 0 => BufferSlots.Interest(sample, Some(BufferSlots.DataSeg(i))))
    + seq(nParity, i requires i >= 0 => BufferSlots.Interest(sample, Some(BufferSlots.ParitySeg(i))))
  }

  /** The segments expected of a sample, data first; the estimates are inputs. */
  method GetBatch(sample: BufferSlots.SampleKey, nData: nat, nParity: nat, noParity: bool)
    returns (interests: seq<BufferSlots.Interest>)
    ensures interests == BatchOf(sample, nData, if noParity then 0 else nParity)
  {
    interests := [];
    for segNo := 0 to nData
      invariant interests == BatchOf(sample, segNo, 0)
    {
      interests := interests + [BufferSlots.Interest(sample, Some(BufferSlots.DataSeg(segNo)))];
    }
    if !noParity {
      for segNo := 0 to nParity
        invariant interests == BatchOf(sample, nData, segNo)
      {
        interests := interests + [BufferSlots.Interest(sample, Some(BufferSlots.ParitySeg(segNo)))];
      }
    }
  }

  /** A clear slot accepts any batch. */
  lemma BatchFillsSlot(sample: BufferSlots.SampleKey, nData: nat, nParity: nat)
    ensures BufferSlots.Request(BufferSlots.CLEARED, BatchOf(sample, nData, nParity)).1
  {
    BufferSlots.ClearedInv();
    BufferSlots.RequestAcceptsOneSample(BufferSlots.CLEARED, BatchOf(sample, nData, nParity));
  }

  /**
   A clear slot that took a batch has requested exactly the data segments below the one number and the parity
   segments below the other, each once, and all of the same sample; so nothing is missing when the packet has
   as many as expected.
   */
  lemma BatchAsksForAll(sample: BufferSlots.SampleKey, nData: nat, nParity: nat)
    ensures var s := BufferSlots.Request(BufferSlots.CLEARED, BatchOf(sample, nData, nParity)).0;
      && (forall k :: k in s.requested <==> k.no < (if k.DataSeg? then nData else nParity))
      && (forall k | k in s.requested :: s.requested[k] == 1)
      && (nData + nParity > 0 ==> s.name == Some(sample))
  {
    BatchRequests(sample, nData, nParity, |BatchOf(sample, nData, nParity)|);
    var batch := BatchOf(sample, nData, nParity);
    assert batch[..|batch|] == batch;
    forall k: BufferSlots.SegKey
      ensures (exists j | 0 <= j < nData + nParity :: SegmentAt(nData, j) == k)
              <==> k.no < (if k.DataSeg? then nData else nParity)
    {
      assert SegmentAt(nData, if k.DataSeg? then k.no else nData + k.no) == k
             || k.no >= (if k.DataSeg? then nData else nParity);
    }
  }

  /** The segment that Interest `j` of a batch asks for. */
  function SegmentAt(nData: nat, j: nat): BufferSlots.SegKey
  {
    if j < nData then BufferSlots.DataSeg(j) else BufferSlots.ParitySeg(j - nData)
  }

  lemma {:induction false} BatchRequests(sample: BufferSlots.SampleKey, nData: nat, nParity: nat, n: nat)
    requires n <= nData + nParity
    ensures |BatchOf(sample, nData, nParity)| == nData + nParity
    ensures var (s, ok) := BufferSlots.AddInterests(BufferSlots.CLEARED, BatchOf(sample, nData, nParity)[..n]);
      && ok
      && (forall k :: k in s.requested <==> exists j | 0 <= j < n :: SegmentAt(nData, j) == k)
      && (forall k | k in s.requested :: s.requested[k] == 1)
      && s.name == (if n > 0 then Some(sample) else None)
  {
    var batch := BatchOf(sample, nData, nParity);
    if n == 0 {
      assert batch[..0] == [];
    } else {
      BatchRequests(sample, nData, nParity, n - 1);
      assert batch[n - 1] == BufferSlots.Interest(sample, Some(SegmentAt(nData, n - 1)));
      assert batch[..n] == batch[..n - 1] + [batch[n - 1]];
      BufferSlots.AddOneMore(BufferSlots.CLEARED, batch[..n - 1], batch[n - 1]);
    }
  }

  // ---------- the object ----------

  class Pipeliner {
    const control: InterestControl
    var k: Counters

    constructor (control: InterestControl)
      ensures this.control == control && k == Counters(0, 0, Delta)
    {
      this.control := control;
      k := Counters(0, 0, Delta);
    }

    method SetNeedSample(class_: SampleClass)
      modifies this
      ensures k == old(k).(next := class_)
    {
      k := k.(next := class_);
    }

    method SetSequenceNumber(no: int, class_: SampleClass)
      modifies this
      ensures k == if class_ == Delta then old(k).(delta := no) else old(k).(key := no)
    {
      if class_ == Delta {
        k := k.(delta := no);
      }
      if class_ == Key {
        k := k.(key := no);
      }
    }

    method Reset()
      modifies this
      ensures k == old(k).(next := Delta)
    {
      k := k.(next := Delta);
    }

    /** Requests samples until there is no more room: exactly as many as there was room for. */
    method FillUpPipeline() returns (issued: seq<Request>)
      modifies this, control
      ensures issued == Issued(old(k), old(control.Room())) && k == After(old(k), old(control.Room()))
      ensures |issued| == if old(control.Room()) > 0 then old(control.Room()) else 0
      ensures control.c == old(control.c).(pipeline := old(control.c).pipeline + |issued|)
      ensures control.c.pipeline == if old(control.c).pipeline < control.c.limit then control.c.limit
                                    else old(control.c).pipeline
    {
      issued := [];
      while control.Room() > 0
        invariant issued + Issued(k, control.Room()) == Issued(old(k), old(control.Room()))
        invariant After(k, control.Room()) == After(old(k), old(control.Room()))
        invariant control.c == old(control.c).(pipeline := old(control.c).pipeline + |issued|)
        invariant control.Room() == old(control.Room()) - |issued| && (issued != [] ==> control.Room() >= 0)
        decreases control.Room()
      {
        assert issued + Issued(k, control.Room())
               == (issued + [Next(k)]) + Issued(Advanced(k), control.Room() - 1);
        var request := RequestNext();
        issued := issued + [request];
      }
    }

    /** One turn of the loop. */
    method RequestNext() returns (request: Request)
      requires control.Room() > 0
      modifies this, control
      ensures request == Next(old(k)) && k == Advanced(old(k))
      ensures control.c == old(control.c).(pipeline := old(control.c).pipeline + 1)
    {
      request := Next(k);
      var ok := control.Increment();
      if k.next == Delta {
        k := k.(delta := k.delta + 1);
      } else {
        k := k.(key := k.key + 1);
      }
      k := k.(next := Delta);
    }

    /** Requests one sample without counting it, and without moving on to the next number. */
    method Express() returns (issued: Request)
      modifies this
      ensures issued == Next(old(k)) && k == old(k).(next := Delta)
    {
      issued := Next(k);
      k := k.(next := Delta);
    }
  }

  // ---------- runs ----------

  datatype Op = Fill(room: int) | Need(class_: SampleClass) | OpReset

  function RunCounters(k: Counters, ops: seq<Op>): Counters
    decreases |ops|
  {
    if ops == [] then k
    else match ops[0]
         case Fill(room) => RunCounters(After(k, room), ops[1..])
         case Need(class_) => RunCounters(k.(next := class_), ops[1..])
         case OpReset => RunCounters(k.(next := Delta), ops[1..])
  }

  function RunIssued(k: Counters, ops: seq<Op>): seq<Request>
    decreases |ops|
  {
    if ops == [] then []
    else match ops[0]
         case Fill(room) => Issued(k, room) + RunIssued(After(k, room), ops[1..])
         case Need(class_) => RunIssued(k.(next := class_), ops[1..])
         case OpReset => RunIssued(k.(next := Delta), ops[1..])
  }

  lemma {:induction false} NumbersAppend(a: seq<Request>, b: seq<Request>, class_: SampleClass)
    ensures Numbers(a + b, class_) == Numbers(a, class_) + Numbers(b, class_)
    decreases |a|
  {
    if a == [] {
      assert a + b == b;
    } else {
      assert (a + b)[1..] == a[1..] + b;
      NumbersAppend(a[1..], b, class_);
    }
  }

  lemma {:induction false} FillIsContiguous(k: Counters, room: int)
    ensures Contiguous(Numbers(Issued(k, room), Delta), k.delta)
    ensures Contiguous(Numbers(Issued(k, room), Key), k.key)
    ensures After(k, room).delta == k.delta + |Numbers(Issued(k, room), Delta)|
    ensures After(k, room).key == k.key + |Numbers(Issued(k, room), Key)|
    decreases room
  {
    if room <= 0 {
    } else {
      FillIsContiguous(Advanced(k), room - 1);
      NumbersAppend([Next(k)], Issued(Advanced(k), room - 1), Delta);
      NumbersAppend([Next(k)], Issued(Advanced(k), room - 1), Key);
      assert Numbers([Next(k)][1..], Delta) == [] && Numbers([Next(k)][1..], Key) == [];
    }
  }

  /**
   Until a sequence number is set from outside, the numbers requested of each class follow one another
   without gap or repeat, whatever order samples are asked for in.
   */
  lemma {:induction false} RunsAreContiguous(k: Counters, ops: seq<Op>)
    ensures Contiguous(Numbers(RunIssued(k, ops), Delta), k.delta)
    ensures Contiguous(Numbers(RunIssued(k, ops), Key), k.key)
    decreases |ops|
  {
    if ops == [] {
    } else {
      match ops[0]
      case Fill(room) =>
        FillIsContiguous(k, room);
        RunsAreContiguous(After(k, room), ops[1..]);
        NumbersAppend(Issued(k, room), RunIssued(After(k, room), ops[1..]), Delta);
        NumbersAppend(Issued(k, room), RunIssued(After(k, room), ops[1..]), Key);
      case Need(class_) => RunsAreContiguous(k.(next := class_), ops[1..]);
      case OpReset => RunsAreContiguous(k.(next := Delta), ops[1..]);
    }
  }
}
