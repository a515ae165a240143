/**
 Runs of the consumer: samples are requested, segments arrive, samples are popped, everything is reset. The
 state is the buffer's view, the queue's view and the pipeline counter of the interest control; the steps
 are what the methods of Buffer, PlaybackQueue, Pipeliner and InterestControl are proved to do.
 */
module Consumers {
  import opened BufferSlots
  import opened Options
  import opened FrameBuffer
  import opened PlaybackQueues
  import opened QueueTimes

  datatype Consumer = Consumer(v: BufferView, q: QueueView, pipeline: int)

  /**
   `Issue` is one round of `fillUpPipeline`, `Again` a request for segments of a sample already asked for
   (retransmissions), `Restart` the entry into the idle state.
   */
  datatype Event =
    | Issue(key: SampleKey, interests: seq<Interest>)
    | Again(key: SampleKey, interests: seq<Interest>)
    | Deliver(seg: WireSegment)
    | Pop(period: real)
    | Restart

  function Step(c: Consumer, e: Event): Consumer
    requires |c.q.names| == |c.q.times|
  {
    match e
    case Issue(key, interests) =>
      var (v, r) := RequestView(c.v, key, interests);
      c.(v := v, pipeline := if r.Threw? then c.pipeline else c.pipeline + 1)
    case Again(key, interests) => c.(v := RequestView(c.v, key, interests).0)
    case Deliver(seg) => DeliverStep(c, seg)
    case Pop(period) => c.(v := PopSpec(c.v, c.q, period).0, q := PopSpec(c.v, c.q, period).1)
    case Restart => c.(v := ResetView(c.v), pipeline := 0)
  }

  /**
   A segment the slot accepts is seen by the observers of the buffer in turn: the queue, which takes a slot
   that has become ready; the pipeliner, which requests the missing segments of the slot; and the one that
   counts the pipeline down. When the queue throws, because a slot that became ready lacks its header, the
   other two are not reached.
   */
  function DeliverStep(c: Consumer, seg: WireSegment): Consumer
    requires |c.q.names| == |c.q.times|
  {
    var (v, r) := ReceiveView(c.v, seg);
    if !r.Accepted? then c.(v := v)
    else
      var s := v.active[seg.sample];
      var (v', q') := NewData(v, c.q, s);
      if Headless(s) then Consumer(v', q', c.pipeline)
      else
        Consumer(AskMissing(v', seg.sample, s), q',
                 c.pipeline - (if c.v.active[seg.sample].state.New? then 1 else 0))
  }

  /** `Pipeliner::onNewData`. The Interests go to whatever slot is active under the name, or to a new one. */
  function AskMissing(v: BufferView, key: SampleKey, s: SlotState): BufferView
  {
    if Missing(s) == [] then v else RequestView(v, key, MissingInterests(key, s)).0
  }

  function MissingInterests(key: SampleKey, s: SlotState): (r: seq<Interest>)
    ensures |r| == |Missing(s)|
    ensures forall i | 0 <= i < |r| :: r[i] == Interest(key, Some(Missing(s)[i]))
  {
    seq(|Missing(s)|, i requires 0 <= i < |Missing(s)| => Interest(key, Some(Missing(s)[i])))
  }

  /** An arrival that makes its slot ready, so that the queue reserves it, with segments missing. */
  predicate LateArrival(v: BufferView, seg: WireSegment)
  {
    && ReceiveView(v, seg).1.Accepted?
    && var s := ReceiveView(v, seg).0.active[seg.sample];
    && s.state.Ready? && !Headless(s) && Missing(s) != []
  }

  predicate Headless(s: SlotState)
  {
    s.state.Ready? && Header(s).None?
  }

  // ---------- playback: what every step keeps ----------

  /** No sample is active and reserved at once; buffer and queue are in order. */
  ghost predicate Inv(c: Consumer, capacity: nat)
  {
    && ViewOk(c.v, capacity)
    && QueueOk(c.v.reserved, c.q)
    && (forall k | k in c.v.active :: k !in c.v.reserved)
  }

  /** Interests are filed under their own sample, and no reserved sample is requested, by an arrival either. */
  predicate NoLateRequest(c: Consumer, e: Event)
  {
    match e
    case Issue(key, interests) => RequestInTime(c.v, key, interests)
    case Again(key, interests) => RequestInTime(c.v, key, interests)
    case Deliver(seg) => !LateArrival(c.v, seg)
    case _ => true
  }

  predicate RequestInTime(v: BufferView, key: SampleKey, interests: seq<Interest>)
  {
    key !in v.reserved && forall i | 0 <= i < |interests| :: interests[i].sample == key
  }

  /** A consumer that has just been set up is in order. */
  lemma InitInv(capacity: nat)
    ensures Inv(Consumer(BufferView(map[], map[], capacity, Drops(0, 0, 0, 0)), EMPTY_QUEUE, 0), capacity)
  {
  }

  lemma ReserveStep(v: BufferView, q: QueueView, capacity: nat, key: SampleKey)
    requires ViewOk(v, capacity) && QueueOk(v.reserved, q) && key in v.active && key !in v.reserved
    requires v.active[key].state.Ready?
    requires forall k | k in v.active :: k !in v.reserved
    ensures v.active[key].name == Some(key)
    ensures var (v', q') := NewData(v, q, v.active[key]);
      && v' == ReserveView(v, key)
      && ViewOk(v', capacity) && QueueOk(v'.reserved, q') && forall k | k in v'.active :: k !in v'.reserved
  {
    ReserveKeepsOk(v, capacity, key);
    var s := v.active[key];
    assert ActiveOk(key, s);
    StrandOk(v.reserved, q, key, s.(state := Locked));
    if Header(s).Some? {
      assert Header(s.(state := Locked)) == Header(s);
      EnqueueOk(v.reserved[key := s.(state := Locked)], Strand(q, key), key);
    }
  }

  lemma DeliverKeeps(c: Consumer, seg: WireSegment, capacity: nat)
    requires Inv(c, capacity) && !LateArrival(c.v, seg)
    ensures Inv(DeliverStep(c, seg), capacity)
  {
    var (v, r) := ReceiveView(c.v, seg);
    ReceiveKeepsOk(c.v, capacity, seg);
    if r.Accepted? {
      var s := v.active[seg.sample];
      if s.state.Ready? {
        ReserveStep(v, c.q, capacity, seg.sample);
      } else {
        AskKeeps(c.(v := v), seg.sample, s, capacity);
      }
    }
  }

  lemma AskKeeps(c: Consumer, key: SampleKey, s: SlotState, capacity: nat)
    requires Inv(c, capacity) && key !in c.v.reserved
    ensures Inv(c.(v := AskMissing(c.v, key, s)), capacity)
  {
    if Missing(s) != [] {
      RequestKeeps(c, key, MissingInterests(key, s), capacity);
    }
  }

  lemma PopKeeps(c: Consumer, period: real, capacity: nat)
    requires Inv(c, capacity)
    ensures Inv(Step(c, Pop(period)), capacity)
  {
    if c.q.names != [] {
      var key := Front(c.q);
      var dropped := ObsoleteView(c.v, key);
      if !key.isKey {
        StepKeepsOk(c.v, capacity, OpDropOlder(key));
      }
      assert dropped.reserved == c.v.reserved;
      StepKeepsOk(dropped, capacity, OpRelease(key));
      PopOk(c.v.reserved, c.q);
      FrontLeaves(c.v.reserved, c.q);
      UnstrandOk(c.v.reserved, Strand(PopFront(c.q), key), key);
      assert Queued(c.v.reserved, c.q.names[0], c.q.times[0]);
    }
  }

  lemma RequestKeeps(c: Consumer, key: SampleKey, interests: seq<Interest>, capacity: nat)
    requires Inv(c, capacity) && key !in c.v.reserved
    requires forall i | 0 <= i < |interests| :: interests[i].sample == key
    ensures Inv(c.(v := RequestView(c.v, key, interests).0), capacity)
  {
    RequestKeepsOk(c.v, capacity, key, interests);
    RequestTouches(c.v, key, interests);
    SameReserved(c, RequestView(c.v, key, interests).0, key, capacity);
  }

  lemma RequestTouches(v: BufferView, key: SampleKey, interests: seq<Interest>)
    ensures var w := RequestView(v, key, interests).0;
      w.reserved == v.reserved && forall k | k in w.active :: k in v.active || k == key
  {
  }

  lemma SameReserved(c: Consumer, v: BufferView, key: SampleKey, capacity: nat)
    requires Inv(c, capacity) && ViewOk(v, capacity) && key !in c.v.reserved
    requires v.reserved == c.v.reserved && forall k | k in v.active :: k in c.v.active || k == key
    ensures Inv(c.(v := v), capacity)
  {
  }

  lemma StepKeepsInv(c: Consumer, e: Event, capacity: nat)
    requires Inv(c, capacity) && NoLateRequest(c, e)
    ensures Inv(Step(c, e), capacity)
  {
    match e
    case Issue(key, interests) => RequestKeeps(c, key, interests, capacity);
    case Again(key, interests) => RequestKeeps(c, key, interests, capacity);
    case Deliver(seg) => DeliverKeeps(c, seg, capacity);
    case Pop(period) => PopKeeps(c, period, capacity);
    case Restart => StepKeepsOk(c.v, capacity, OpReset);
  }

  /** No event of the run is a late request. */
  ghost predicate Legal(c: Consumer, es: seq<Event>, capacity: nat)
    requires Inv(c, capacity)
    decreases |es|
  {
    es == []
    || (NoLateRequest(c, es[0])
        && (StepKeepsInv(c, es[0], capacity); Legal(Step(c, es[0]), es[1..], capacity)))
  }

  ghost function Run(c: Consumer, es: seq<Event>, capacity: nat): (r: Consumer)
    requires Inv(c, capacity) && Legal(c, es, capacity)
    ensures Inv(r, capacity)
    decreases |es|
  {
    if es == [] then c
    else
      StepKeepsInv(c, es[0], capacity);
      Run(Step(c, es[0]), es[1..], capacity)
  }

  lemma DeliverConserves(c: Consumer, seg: WireSegment, capacity: nat)
    requires Inv(c, capacity)
    ensures Total(DeliverStep(c, seg).v) == Total(c.v)
  {
    StepConserves(c.v, OpReceive(seg));
    if ReceiveView(c.v, seg).1.Accepted? {
      var v := ReceiveView(c.v, seg).0;
      var s := v.active[seg.sample];
      NewDataConserves(v, c.q, seg.sample);
      StepConserves(NewData(v, c.q, s).0, OpRequest(seg.sample, MissingInterests(seg.sample, s)));
    }
  }

  lemma NewDataConserves(v: BufferView, q: QueueView, key: SampleKey)
    requires key in v.active && v.active[key].name == Some(key) && key !in v.reserved
    requires |q.names| == |q.times|
    ensures Total(NewData(v, q, v.active[key]).0) == Total(v)
  {
  }

  lemma PopConserves(v: BufferView, key: SampleKey)
    ensures Total(PopView(v, key)) == Total(v)
  {
  }

  lemma StepConservesSlots(c: Consumer, e: Event, capacity: nat)
    requires Inv(c, capacity) && NoLateRequest(c, e)
    ensures Total(Step(c, e).v) == Total(c.v)
  {
    match e
    case Issue(key, interests) => StepConserves(c.v, OpRequest(key, interests));
    case Again(key, interests) => StepConserves(c.v, OpRequest(key, interests));
    case Deliver(seg) => DeliverConserves(c, seg, capacity);
    case Pop(period) =>
      if c.q.names != [] {
        PopConserves(c.v, Front(c.q));
      }
    case Restart => StepConserves(c.v, OpReset);
  }

  lemma {:induction false} RunsConserveTotal(c: Consumer, es: seq<Event>, capacity: nat)
    requires Inv(c, capacity) && Legal(c, es, capacity)
    ensures Total(Run(c, es, capacity).v) == Total(c.v)
    decreases |es|
  {
    if es == [] {
    } else {
      StepKeepsInv(c, es[0], capacity);
      StepConservesSlots(c, es[0], capacity);
      RunsConserveTotal(Step(c, es[0]), es[1..], capacity);
    }
  }

  /**
   Over any run without late requests no slot is lost; at its end queued samples are strictly increasing in
   time, every one of them is reserved and locked, and the play time the next `pop` gives is not negative.
   */
  lemma RunsKeepPlayback(c: Consumer, es: seq<Event>, capacity: nat)
    requires Inv(c, capacity) && Legal(c, es, capacity)
    ensures var r := Run(c, es, capacity);
      && Total(r.v) == Total(c.v)
      && Increasing(r.q.times)
      && (forall k | k in r.q.names :: k in r.v.reserved && r.v.reserved[k].state.Locked?)
      && forall period | period >= 0.0 ::
           var p := PopSpec(r.v, r.q, period).2;
           p.Popped? ==> p.playTime >= 0.0 && p.name in r.v.reserved && p.timestamp == Stamp(r.v.reserved[p.name])
  {
    RunsConserveTotal(c, es, capacity);
    var r := Run(c, es, capacity);
    QueuedAreLocked(r, capacity);
    forall period | period >= 0.0
      ensures var p := PopSpec(r.v, r.q, period).2;
        p.Popped? ==> p.playTime >= 0.0 && p.name in r.v.reserved && p.timestamp == Stamp(r.v.reserved[p.name])
    {
      PopIsTimely(r.v, r.q, period);
    }
  }

  lemma PopIsTimely(v: BufferView, q: QueueView, period: real)
    requires QueueOk(v.reserved, q) && period >= 0.0
    ensures var p := PopSpec(v, q, period).2;
      p.Popped? ==> p.playTime >= 0.0 && p.name in v.reserved && p.timestamp == Stamp(v.reserved[p.name])
  {
    if q.names != [] {
      assert Queued(v.reserved, q.names[0], q.times[0]);
    }
  }

  /** A reserved slot shows the header that came with data segment 0. */
  lemma HeaderIsOfSegmentZero(k: SampleKey, s: SlotState)
    requires ReservedOk(k, s)
    ensures Header(s) == if DataSeg(0) in s.fetched then Some(s.fetched[DataSeg(0)].common) else None
  {
  }

  lemma QueuedByPublishTime(reserved: map<SampleKey, SlotState>, q: QueueView, i: nat)
    requires QueueOk(reserved, q) && i < |q.names| && ReservedOk(q.names[i], reserved[q.names[i]])
    ensures DataSeg(0) in reserved[q.names[i]].fetched
    ensures q.times[i] == reserved[q.names[i]].fetched[DataSeg(0)].common.timestamp
  {
    assert Queued(reserved, q.names[i], q.times[i]);
    HeaderIsOfSegmentZero(q.names[i], reserved[q.names[i]]);
  }

  /** All these samples are reserved with their segment 0, and its header times are strictly increasing. */
  ghost predicate InPublishOrder(reserved: map<SampleKey, SlotState>, names: seq<SampleKey>)
  {
    && (forall i | 0 <= i < |names| :: names[i] in reserved && DataSeg(0) in reserved[names[i]].fetched)
    && forall i, j | 0 <= i < j < |names| ::
         reserved[names[i]].fetched[DataSeg(0)].common.timestamp
         < reserved[names[j]].fetched[DataSeg(0)].common.timestamp
  }

  /** The earliest sample with its time, to be played until the time of the next one, or for one period. */
  ghost predicate IsEarliest(p: Popped, reserved: map<SampleKey, SlotState>, names: seq<SampleKey>, period: real)
    requires InPublishOrder(reserved, names)
  {
    if names == [] then p.NothingQueued?
    else
      && p.Popped? && p.name == names[0]
      && p.timestamp == reserved[p.name].fetched[DataSeg(0)].common.timestamp
      && p.playTime == if |names| == 1 then period
                       else (reserved[names[1]].fetched[DataSeg(0)].common.timestamp - p.timestamp) as real
  }

  lemma QueuedInPublishOrder(reserved: map<SampleKey, SlotState>, q: QueueView)
    requires QueueOk(reserved, q) && forall k | k in reserved :: ReservedOk(k, reserved[k])
    ensures InPublishOrder(reserved, q.names)
    ensures forall i | 0 <= i < |q.names| ::
              q.times[i] == reserved[q.names[i]].fetched[DataSeg(0)].common.timestamp
  {
    forall i | 0 <= i < |q.names|
      ensures q.names[i] in reserved && DataSeg(0) in reserved[q.names[i]].fetched
      ensures q.times[i] == reserved[q.names[i]].fetched[DataSeg(0)].common.timestamp
    {
      assert Queued(reserved, q.names[i], q.times[i]);
      QueuedByPublishTime(reserved, q, i);
    }
  }

  lemma PopsEarliest(v: BufferView, q: QueueView, period: real)
    requires |q.times| == |q.names| && InPublishOrder(v.reserved, q.names)
    requires forall i | 0 <= i < |q.names| ::
               q.times[i] == v.reserved[q.names[i]].fetched[DataSeg(0)].common.timestamp
    ensures IsEarliest(PopSpec(v, q, period).2, v.reserved, q.names, period)
  {
  }

  /**
   Samples are played in the order of their publish times, which are those in the headers that segments 0
   brought: after any legal run queued samples are in that order, and a pop hands out the earliest, with its
   time and for the time until the next one.
   */
  lemma PlaysInOrderOfPublishing(c: Consumer, es: seq<Event>, capacity: nat, period: real)
    requires Inv(c, capacity) && Legal(c, es, capacity)
    ensures var r := Run(c, es, capacity);
      && InPublishOrder(r.v.reserved, r.q.names)
      && IsEarliest(PopSpec(r.v, r.q, period).2, r.v.reserved, r.q.names, period)
  {
    var r := Run(c, es, capacity);
    QueuedInPublishOrder(r.v.reserved, r.q);
    PopsEarliest(r.v, r.q, period);
  }

  /** Active slots in one of the states of a slot whose sample is not complete. */
  ghost function IncompleteAmong(v: BufferView, keys: set<SampleKey>): set<SampleKey>
  {
    set k | k in keys && k in v.active && !v.active[k].state.Ready? && !v.active[k].state.Locked?
  }

  /** Active slots that were asked for segments of a key frame. */
  ghost function KeysAmong(v: BufferView, keys: set<SampleKey>): set<SampleKey>
  {
    set k | k in keys && k in v.active && v.active[k].name.Some? && v.active[k].name.value.isKey
  }

  /** What a popped sample makes obsolete. */
  ghost function Obsolete(v: BufferView, key: SampleKey): set<SampleKey>
  {
    set k | k in v.active && !key.isKey && Before(k, key)
  }

  lemma ObsoleteExactly(v: BufferView, key: SampleKey)
    ensures var w, gone := ObsoleteView(v, key), Obsolete(v, key);
      && w.reserved == v.reserved && w.active == v.active - gone
      && w.drops.dropped == v.drops.dropped + |gone|
      && w.drops.incomplete == v.drops.incomplete + |IncompleteAmong(v, gone)|
      && w.drops.droppedKey == v.drops.droppedKey + |KeysAmong(v, gone)|
  {
    LateAreIncomplete(v, Obsolete(v, key));
    if key.isKey {
      assert Obsolete(v, key) == {};
      assert Late(v, {}) == {} && KeyFrames(v, {}) == {};
      assert v.active - {} == v.active;
    } else {
      assert Obsolete(v, key) == Older(v, key);
    }
  }

  lemma LateAreIncomplete(v: BufferView, keys: set<SampleKey>)
    ensures Late(v, keys) == IncompleteAmong(v, keys) && KeyFrames(v, keys) == KeysAmong(v, keys)
  {
  }

  /**
   Everything a pop does: the popped sample leaves queue and reservations, a popped delta frame takes with it
   exactly the active samples that come before it, all other slots stay as they are, and the counters tell
   how many were dropped and how many of those were incomplete.
   */
  lemma PopDropsExactly(c: Consumer, period: real)
    requires |c.q.names| == |c.q.times| && c.q.names != []
    ensures var d := Step(c, Pop(period));
      var key, gone := c.q.names[0], Obsolete(c.v, c.q.names[0]);
      && d.q.names == c.q.names[1..] && d.q.times == c.q.times[1..] && d.pipeline == c.pipeline
      && d.v.reserved == c.v.reserved - {key} && d.v.active == c.v.active - gone
      && d.v.drops.dropped == c.v.drops.dropped + |gone|
      && d.v.drops.incomplete == c.v.drops.incomplete + |IncompleteAmong(c.v, gone)|
      && d.v.drops.droppedKey == c.v.drops.droppedKey + |KeysAmong(c.v, gone)|
  {
    ObsoleteExactly(c.v, Front(c.q));
  }

  lemma QueuedAreLocked(c: Consumer, capacity: nat)
    requires Inv(c, capacity)
    ensures forall k | k in c.q.names :: k in c.v.reserved && c.v.reserved[k].state.Locked?
    ensures c.q.names != [] ==> c.q.times[0] == Stamp(c.v.reserved[c.q.names[0]])
  {
  }
}
