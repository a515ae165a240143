/**
 That samples get through: one that was requested and whose data segments all arrive is in the playback queue
 afterwards.
 */
module Delivery {
  import opened EndToEnd
  import B = BufferSlots
  import R = ReadPacket
  import F = FrameBuffer
  import C = Consumers
  import L = LateRequests
  import V = Reservations

  /** Neither a pop, which may drop what is being assembled, nor a restart. */
  predicate Assembles(e: C.Event)
  {
    !e.Pop? && !e.Restart?
  }

  predicate AllAssemble(es: seq<C.Event>)
  {
    es == [] || (Assembles(es[0]) && AllAssemble(es[1..]))
  }

  predicate Delivers(e: C.Event, key: B.SampleKey, seg: B.SegKey)
  {
    e.Deliver? && e.seg.sample == key && e.seg.seg == seg
  }

  /** The sample is reserved, or waits in a slot that has asked for the segment, and holds it if it `came`. */
  ghost predicate TakenOrHolds(v: F.BufferView, key: B.SampleKey, seg: B.SegKey, came: bool)
  {
    key in v.reserved
    || (key in v.active && !v.active[key].state.Ready? && seg in v.active[key].requested
        && (came ==> seg in v.active[key].fetched))
  }

  lemma RequestStillHolds(v: F.BufferView, name: B.SampleKey, interests: seq<B.Interest>,
                          key: B.SampleKey, seg: B.SegKey, came: bool)
    requires (forall k | k in v.active :: F.ActiveOk(k, v.active[k])) && TakenOrHolds(v, key, seg, came)
    ensures TakenOrHolds(F.RequestView(v, name, interests).0, key, seg, came)
  {
    if name == key && key in v.active && key !in v.reserved {
      B.AddInterestsInv(v.active[key], interests);
    }
  }

  /** An active slot takes every segment it has asked for, and keeps it. */
  lemma TakesRequested(s: B.SlotState, seg: B.WireSegment)
    requires F.ActiveOk(seg.sample, s) && seg.seg in s.requested
    ensures B.Receive(s, seg).1.Accepted?
    ensures B.Receive(s, seg).0.fetched.Keys == s.fetched.Keys + {seg.seg}
  {
    B.ReceiveInv(s, seg);
  }

  /** An arrival for the sample itself. */
  lemma ArrivalStillHolds(c: C.Consumer, seg: B.WireSegment, k: B.SegKey, came: bool)
    requires |c.q.names| == |c.q.times| && !C.LateArrival(c.v, seg) && seg.sample in c.v.active
    requires F.ActiveOk(seg.sample, c.v.active[seg.sample]) && F.ReceiveView(c.v, seg).1.Accepted?
    requires TakenOrHolds(c.v, seg.sample, k, came) && seg.sample !in c.v.reserved
    ensures TakenOrHolds(C.DeliverStep(c, seg).v, seg.sample, k, came || seg.seg == k)
  {
    V.DeliverReserves(c, seg);
    var s := B.Receive(c.v.active[seg.sample], seg).0;
    L.AcceptedSlot(c.v, seg);
    B.ReceiveInv(c.v.active[seg.sample], seg);
    if !s.state.Ready? {
      L.OthersAsk(c, seg);
      B.AddInterestsInv(s, C.MissingInterests(seg.sample, s));
    } else {
      assert seg.sample in C.DeliverStep(c, seg).v.reserved.Keys;
    }
  }

  /** An arrival for another sample, or one that is not accepted. */
  lemma OtherArrival(c: C.Consumer, seg: B.WireSegment, key: B.SampleKey)
    requires |c.q.names| == |c.q.times| && !C.LateArrival(c.v, seg) && key in c.v.active
    requires seg.sample in c.v.active ==> F.ActiveOk(seg.sample, c.v.active[seg.sample])
    requires seg.sample != key || !F.ReceiveView(c.v, seg).1.Accepted?
    ensures var v := C.DeliverStep(c, seg).v; key in v.active && v.active[key] == c.v.active[key]
  {
    if !F.ReceiveView(c.v, seg).1.Accepted? {
      L.RefusedLeavesAll(c, seg);
    } else {
      L.AcceptedSlot(c.v, seg);
      if B.Receive(c.v.active[seg.sample], seg).0.state.Ready? {
        L.ReadyLeaves(c, seg);
      } else {
        L.OthersAsk(c, seg);
      }
    }
  }

  lemma DeliverStillHolds(c: C.Consumer, seg: B.WireSegment, capacity: nat, key: B.SampleKey, k: B.SegKey, came: bool)
    requires C.Inv(c, capacity) && !C.LateArrival(c.v, seg) && TakenOrHolds(c.v, key, k, came)
    ensures TakenOrHolds(C.DeliverStep(c, seg).v, key, k, came || Delivers(C.Deliver(seg), key, k))
  {
    V.DeliverReserves(c, seg);
    if key in c.v.reserved {
      assert key in C.DeliverStep(c, seg).v.reserved.Keys;
    } else if seg.sample == key && F.ReceiveView(c.v, seg).1.Accepted? {
      ArrivalStillHolds(c, seg, k, came);
    } else {
      OtherArrival(c, seg, key);
      assert F.ActiveOk(key, c.v.active[key]);
      if seg.sample == key && seg.seg == k {
        TakesRequested(c.v.active[key], seg);
      }
    }
  }

  lemma StepStillHolds(c: C.Consumer, e: C.Event, capacity: nat, key: B.SampleKey, k: B.SegKey, came: bool)
    requires C.Inv(c, capacity) && C.NoLateRequest(c, e) && Assembles(e) && TakenOrHolds(c.v, key, k, came)
    ensures TakenOrHolds(C.Step(c, e).v, key, k, came || Delivers(e, key, k))
  {
    match e
    case Issue(name, interests) => RequestStillHolds(c.v, name, interests, key, k, came);
    case Again(name, interests) => RequestStillHolds(c.v, name, interests, key, k, came);
    case Deliver(seg) => DeliverStillHolds(c, seg, capacity, key, k, came);
  }

  predicate DeliveredIn(es: seq<C.Event>, key: B.SampleKey, seg: B.SegKey)
  {
    es != [] && (Delivers(es[0], key, seg) || DeliveredIn(es[1..], key, seg))
  }

  lemma {:induction false} RunStillHolds(c: C.Consumer, es: seq<C.Event>, capacity: nat,
                                         key: B.SampleKey, k: B.SegKey, came: bool)
    requires C.Inv(c, capacity) && C.Legal(c, es, capacity) && TakenOrHolds(c.v, key, k, came) && AllAssemble(es)
    ensures TakenOrHolds(C.Run(c, es, capacity).v, key, k, came || DeliveredIn(es, key, k))
    decreases |es|
  {
    if es == [] {
    } else {
      StepStillHolds(c, es[0], capacity, key, k, came);
      C.StepKeepsInv(c, es[0], capacity);
      RunStillHolds(C.Step(c, es[0]), es[1..], capacity, key, k, came || Delivers(es[0], key, k));
    }
  }

  /** A slot that holds all data segments does not wait. */
  lemma WholeSlotIsReady(s: B.SlotState, name: B.SampleKey, wire: B.SegKey -> B.WireSegment, n: nat)
    requires n > 0 && F.ActiveOk(name, s) && Genuine(s, wire, n)
    requires forall i: nat | i < n :: B.DataSeg(i) in s.fetched
    ensures s.state.Ready?
  {
    AllHere(s.fetched, n);
    assert forall i | i in R.DataNumbers(s.fetched) :: B.DataSeg(i) in s.fetched;
    NumbersOfKeys(B.DataKeys(s.fetched.Keys), R.DataNumbers(s.fetched));
    assert B.DataSeg(0) in B.DataKeys(s.fetched.Keys);
  }

  /**
   A requested sample whose data segments all arrive, in any order and among those of other samples, is in
   the playback queue afterwards, as long as nothing is popped or restarted meanwhile, requests are in time,
   and no two samples have the same publish time.
   */
  lemma DeliveredIsQueued(c: C.Consumer, es: seq<C.Event>, capacity: nat,
                          key: B.SampleKey, wire: B.SegKey -> B.WireSegment, n: nat)
    requires C.Inv(c, capacity) && C.Legal(c, es, capacity) && c.q.stranded == {} && V.CleanRun(c, es, capacity)
    requires AllAssemble(es)
    requires key in c.v.active && !c.v.active[key].state.Ready? && Genuine(c.v.active[key], wire, n)
    requires n > 0 && Announces(wire, n) && AllFromProducer(es, key, wire, n)
    requires forall i: nat | i < n ::
               B.DataSeg(i) in c.v.active[key].requested && DeliveredIn(es, key, B.DataSeg(i))
    ensures key in C.Run(c, es, capacity).q.names
  {
    var end := C.Run(c, es, capacity);
    RunStaysGenuine(c, es, capacity, key, wire, n);
    V.CleanRunsStrandNothing(c, es, capacity);
    if key !in end.v.reserved {
      forall i: nat | i < n ensures key in end.v.active && B.DataSeg(i) in end.v.active[key].fetched {
        RunStillHolds(c, es, capacity, key, B.DataSeg(i), false);
      }
      RunStillHolds(c, es, capacity, key, B.DataSeg(0), false);
      WholeSlotIsReady(end.v.active[key], key, wire, n);
      assert false;
    }
  }
}
