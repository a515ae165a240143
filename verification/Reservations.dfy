/**
 Reserved slots over whole runs of the consumer: each one reserved goes back to the pool exactly once, and
 when no header is missing and no time comes twice, the reserved slots are exactly the queued ones.
 */
module Reservations {
  import opened BufferSlots
  import opened Options
  import opened FrameBuffer
  import opened PlaybackQueues
  import opened QueueTimes
  import opened Consumers

  /** The arrival that makes the slot of `k` ready gets it reserved. */
  predicate Reserves(c: Consumer, e: Event, k: SampleKey)
  {
    && e.Deliver? && e.seg.sample == k
    && ReceiveView(c.v, e.seg).1.Accepted?
    && ReceiveView(c.v, e.seg).0.active[k].state.Ready?
  }

  /** A pop releases the slot of the first queued sample. */
  predicate Releases(c: Consumer, e: Event, k: SampleKey)
  {
    e.Pop? && c.q.names != [] && Front(c.q) == k
  }

  function One(b: bool): nat
  {
    if b then 1 else 0
  }

  /** How often the run reserves sample `k`. */
  ghost function Reservations(c: Consumer, es: seq<Event>, capacity: nat, k: SampleKey): nat
    requires Inv(c, capacity) && Legal(c, es, capacity)
    decreases |es|
  {
    if es == [] then 0
    else
      StepKeepsInv(c, es[0], capacity);
      One(Reserves(c, es[0], k)) + Reservations(Step(c, es[0]), es[1..], capacity, k)
  }

  /** How often the run releases sample `k`. */
  ghost function ReleasesOf(c: Consumer, es: seq<Event>, capacity: nat, k: SampleKey): nat
    requires Inv(c, capacity) && Legal(c, es, capacity)
    decreases |es|
  {
    if es == [] then 0
    else
      StepKeepsInv(c, es[0], capacity);
      One(Releases(c, es[0], k)) + ReleasesOf(Step(c, es[0]), es[1..], capacity, k)
  }

  /** What the pipeliner asks for changes neither the queue nor what is reserved. */
  lemma AcceptedStep(c: Consumer, seg: WireSegment)
    requires |c.q.names| == |c.q.times| && ReceiveView(c.v, seg).1.Accepted?
    ensures var v := ReceiveView(c.v, seg).0;
      var s := v.active[seg.sample];
      && s.name == Some(seg.sample)
      && v.reserved == c.v.reserved
      && DeliverStep(c, seg).v.reserved == NewData(v, c.q, s).0.reserved
      && DeliverStep(c, seg).q == NewData(v, c.q, s).1
  {
    var v := ReceiveView(c.v, seg).0;
    var s := v.active[seg.sample];
    AskTouches(NewData(v, c.q, s).0, seg.sample, s);
  }

  lemma NewDataReserves(v: BufferView, q: QueueView, key: SampleKey)
    requires key in v.active && v.active[key].name == Some(key) && |q.names| == |q.times|
    ensures NewData(v, q, v.active[key]).0.reserved.Keys
            == if v.active[key].state.Ready? then v.reserved.Keys + {key} else v.reserved.Keys
  {
  }

  /** An arrival reserves a sample that is not reserved, or leaves the reserved ones alone. */
  lemma DeliverReserves(c: Consumer, seg: WireSegment)
    requires |c.q.names| == |c.q.times|
    ensures DeliverStep(c, seg).v.reserved.Keys
            == if Reserves(c, Deliver(seg), seg.sample) then c.v.reserved.Keys + {seg.sample} else c.v.reserved.Keys
  {
    if ReceiveView(c.v, seg).1.Accepted? {
      AcceptedStep(c, seg);
      NewDataReserves(ReceiveView(c.v, seg).0, c.q, seg.sample);
    }
  }

  lemma AskTouches(v: BufferView, key: SampleKey, s: SlotState)
    ensures AskMissing(v, key, s).reserved == v.reserved
  {
    if Missing(s) != [] {
      RequestTouches(v, key, MissingInterests(key, s));
    }
  }

  /** A pop returns one reserved slot to the pool, besides the active slots it drops. */
  lemma PopReleases(c: Consumer, period: real)
    requires QueueOk(c.v.reserved, c.q)
    ensures var d := Step(c, Pop(period)).v;
      if c.q.names == [] then d == c.v
      else
        && Front(c.q) in c.v.reserved && d.reserved == c.v.reserved - {Front(c.q)}
        && d.free == c.v.free + (|c.v.active| - |d.active|) + 1
  {
    if c.q.names != [] {
      assert Queued(c.v.reserved, c.q.names[0], c.q.times[0]);
      PopFrees(c.v, Front(c.q));
    }
  }

  lemma PopFrees(v: BufferView, key: SampleKey)
    requires key in v.reserved
    ensures PopView(v, key).reserved == v.reserved - {key}
    ensures PopView(v, key).free == v.free + (|v.active| - |PopView(v, key).active|) + 1
  {
    PopConserves(v, key);
    MapRemoveSize(v.reserved, {key});
  }

  lemma StepReserves(c: Consumer, e: Event, k: SampleKey)
    requires QueueOk(c.v.reserved, c.q) && forall j | j in c.v.active :: j !in c.v.reserved
    ensures One(k in Step(c, e).v.reserved) + One(Releases(c, e, k))
            == One(k in c.v.reserved) + One(Reserves(c, e, k))
  {
    match e
    case Issue(key, interests) => RequestTouches(c.v, key, interests);
    case Again(key, interests) => RequestTouches(c.v, key, interests);
    case Deliver(seg) =>
      DeliverReservesOne(c, seg, k);
    case Pop(period) => PopReleases(c, period);
    case Restart =>
  }

  lemma DeliverReservesOne(c: Consumer, seg: WireSegment, k: SampleKey)
    requires |c.q.names| == |c.q.times|
    requires ReceiveView(c.v, seg).1.Accepted? ==> seg.sample !in c.v.reserved
    ensures One(k in DeliverStep(c, seg).v.reserved)
            == One(k in c.v.reserved) + One(Reserves(c, Deliver(seg), k))
  {
    DeliverReserves(c, seg);
    assert k in DeliverStep(c, seg).v.reserved <==> k in DeliverStep(c, seg).v.reserved.Keys;
  }

  /**
   For every sample: as often as it was reserved it was released again, but for the one time it may be
   reserved at the end. This holds of every prefix of a run too, so that reservations and releases of a
   sample alternate, and each reserved slot goes back to the pool once.
   */
  lemma {:induction false} ReservedOnceReleasedOnce(c: Consumer, es: seq<Event>, capacity: nat, k: SampleKey)
    requires Inv(c, capacity) && Legal(c, es, capacity)
    ensures ReleasesOf(c, es, capacity, k) + One(k in Run(c, es, capacity).v.reserved)
            == Reservations(c, es, capacity, k) + One(k in c.v.reserved)
    decreases |es|
  {
    if es == [] {
    } else {
      StepKeepsInv(c, es[0], capacity);
      StepReserves(c, es[0], k);
      ReservedOnceReleasedOnce(Step(c, es[0]), es[1..], capacity, k);
    }
  }

  // ---------- nothing stranded ----------

  /** A slot that becomes ready has its segment 0, and a time no queued sample has. */
  ghost predicate Clean(c: Consumer, e: Event)
  {
    e.Deliver? && ReceiveView(c.v, e.seg).1.Accepted? ==>
      var s := ReceiveView(c.v, e.seg).0.active[e.seg.sample];
      s.state.Ready? ==> Header(s).Some? && Stamp(s) !in c.q.times
  }

  ghost predicate CleanRun(c: Consumer, es: seq<Event>, capacity: nat)
    requires Inv(c, capacity) && Legal(c, es, capacity)
    decreases |es|
  {
    es == []
    || (Clean(c, es[0]) && (StepKeepsInv(c, es[0], capacity); CleanRun(Step(c, es[0]), es[1..], capacity)))
  }

  /** An arrival strands its sample exactly when it makes the slot ready unclean. */
  lemma DeliverStrands(c: Consumer, seg: WireSegment)
    requires QueueOk(c.v.reserved, c.q)
    requires ReceiveView(c.v, seg).1.Accepted? ==> seg.sample !in c.v.reserved
    ensures DeliverStep(c, seg).q.stranded
            == c.q.stranded + if Clean(c, Deliver(seg)) then {} else {seg.sample}
  {
    if ReceiveView(c.v, seg).1.Accepted? {
      AcceptedStep(c, seg);
      var v := ReceiveView(c.v, seg).0;
      QueueStrands(v, c.q, v.active[seg.sample]);
    }
  }

  lemma QueueStrands(v: BufferView, q: QueueView, s: SlotState)
    requires s.name.Some? && s.name.value !in q.stranded
    requires |q.names| == |q.times| && Increasing(q.times)
    ensures NewData(v, q, s).1.stranded
            == q.stranded
               + if s.state.Ready? ==> Header(s).Some? && Stamp(s) !in q.times then {} else {s.name.value}
  {
  }

  lemma CleanStep(c: Consumer, e: Event, capacity: nat)
    requires Inv(c, capacity) && Clean(c, e) && c.q.stranded == {}
    ensures Step(c, e).q.stranded == {}
  {
    if e.Deliver? {
      assert ReceiveView(c.v, e.seg).1.Accepted? ==> e.seg.sample in c.v.active;
      DeliverStrands(c, e.seg);
    }
  }

  /** On clean runs the reserved slots are the queued ones, each queued once. */
  lemma {:induction false} CleanRunsStrandNothing(c: Consumer, es: seq<Event>, capacity: nat)
    requires Inv(c, capacity) && Legal(c, es, capacity) && CleanRun(c, es, capacity)
    requires c.q.stranded == {}
    ensures var r := Run(c, es, capacity);
      && r.q.stranded == {}
      && (forall k :: k in r.v.reserved <==> k in r.q.names)
      && |r.v.reserved| == |r.q.names|
    decreases |es|
  {
    if es == [] {
      AllQueued(c.v.reserved, c.q);
    } else {
      StepKeepsInv(c, es[0], capacity);
      CleanStep(c, es[0], capacity);
      CleanRunsStrandNothing(Step(c, es[0]), es[1..], capacity);
    }
  }

  lemma AllQueued(reserved: map<SampleKey, SlotState>, q: QueueView)
    requires QueueOk(reserved, q) && q.stranded == {}
    ensures forall k :: k in reserved <==> k in q.names
    ensures |reserved| == |q.names|
  {
    NamesDistinct(reserved, q);
    DistinctSize(q.names);
    forall k | k in q.names ensures k in reserved {
      var i :| 0 <= i < |q.names| && q.names[i] == k;
      assert Queued(reserved, q.names[i], q.times[i]);
    }
    assert reserved.Keys == set k | k in q.names;
  }

  lemma {:induction false} DistinctSize<T>(s: seq<T>)
    requires forall i, j | 0 <= i < j < |s| :: s[i] != s[j]
    ensures |set x | x in s| == |s|
  {
    if s != [] {
      var front, last := s[..|s| - 1], s[|s| - 1];
      DistinctSize(front);
      assert s == front + [last];
      assert (set x | x in s) == (set x | x in front) + {last};
    }
  }
}
