/**
 What the pipeline counter of the interest control counts, over whole runs of the consumer: the active slots
 in which no data has arrived, plus the samples lost while in that state, less what was never counted up or
 was counted down twice.
 */
module PipelineAccounting {
  import opened BufferSlots
  import opened Options
  import opened FrameBuffer
  import opened PlaybackQueues
  import opened Consumers
  import opened LateRequests
  import Pipeliners

  function NewKeys(v: BufferView): set<SampleKey>
  {
    set k | k in v.active && v.active[k].state.New?
  }

  /** A batch as `getBatch` makes it: segments of one sample, at least one. */
  predicate WellFormedBatch(key: SampleKey, interests: seq<Interest>)
  {
    && interests != []
    && forall i | 0 <= i < |interests| :: interests[i].sample == key && interests[i].seg.Some?
  }

  predicate WellFormedEvent(e: Event)
  {
    (e.Issue? || e.Again?) ==> WellFormedBatch(e.key, e.interests)
  }

  // ---------- what moves the counter and the new slots apart ----------

  /** A parity segment that its slot accepts while no data segment has arrived there. */
  predicate ParityFirst(v: BufferView, seg: WireSegment)
  {
    && seg.seg.ParitySeg?
    && ReceiveView(v, seg).1.Accepted?
    && v.active[seg.sample].state.New?
  }

  /** A request that makes a slot new. */
  predicate TakesSlot(v: BufferView, key: SampleKey)
  {
    if key in v.active then v.active[key].state.Free? else v.free > 0
  }

  /**
   Samples counted up that no arrival will count down: requested when no slot was free or while already being
   assembled; ready at the first data segment but without a header; dropped, with no data yet, by a popped
   delta frame they come before.
   */
  function Lost(c: Consumer, e: Event): nat
  {
    match e
    case Issue(key, interests) =>
      if key in c.v.active
      then (if c.v.active[key].state.New? || c.v.active[key].state.Assembling? then 1 else 0)
      else (if c.v.free == 0 then 1 else 0)
    case Deliver(seg) =>
      if ReceiveView(c.v, seg).1.Accepted? && c.v.active[seg.sample].state.New?
         && Headless(ReceiveView(c.v, seg).0.active[seg.sample]) then 1 else 0
    case Pop(period) =>
      if c.q.names == [] || Front(c.q).isKey then 0
      else |set k | k in NewKeys(c.v) && Before(k, Front(c.q))|
    case _ => 0
  }

  /**
   Slots made new that were not counted up, and arrivals counted down that leave their slot new: requests
   for missing or lost segments that take a fresh slot, and parity in front of data.
   */
  function Uncounted(c: Consumer, e: Event): nat
  {
    match e
    case Again(key, interests) => if TakesSlot(c.v, key) then 1 else 0
    case Deliver(seg) =>
      (if ParityFirst(c.v, seg) then 1 else 0)
      + (if LateArrival(c.v, seg) && c.v.free > 0 then 1 else 0)
    case _ => 0
  }

  /** What the counter says beyond the slots in which no data has arrived. */
  function Balance(c: Consumer): int
  {
    c.pipeline - |NewKeys(c.v)|
  }

  // ---------- requests ----------

  /** A well-formed batch is refused by a ready slot only, and makes an unused slot new. */
  lemma BatchOutcome(key: SampleKey, s: SlotState, interests: seq<Interest>)
    requires ActiveOk(key, s) && WellFormedBatch(key, interests)
    ensures Request(s, interests).1 <==> !s.state.Ready?
    ensures Request(s, interests).0.state == if s.state.Free? then New else s.state
  {
    RequestAcceptsOneSample(s, interests);
    if !s.state.Ready? {
      RequestsLeaveAssembly(s, interests);
    }
  }

  lemma RequestNews(v: BufferView, key: SampleKey, interests: seq<Interest>)
    requires forall k | k in v.active :: ActiveOk(k, v.active[k])
    requires WellFormedBatch(key, interests)
    ensures var (w, r) := RequestView(v, key, interests);
      && NewKeys(w) == (if TakesSlot(v, key) then NewKeys(v) + {key} else NewKeys(v))
      && (r.Threw? <==> key in v.active && v.active[key].state.Ready?)
  {
    if key in v.active {
      BatchOutcome(key, v.active[key], interests);
      SetNews(v, key, Request(v.active[key], interests).0);
    } else if v.free > 0 {
      FreshSlotNews(v, key, interests);
    }
  }

  lemma FreshSlotNews(v: BufferView, key: SampleKey, interests: seq<Interest>)
    requires key !in v.active && v.free > 0 && WellFormedBatch(key, interests)
    ensures Request(CLEARED, interests).1
    ensures NewKeys(SetActive(TakeView(v, key), key, Request(CLEARED, interests).0)) == NewKeys(v) + {key}
  {
    ClearedInv();
    BatchOutcome(key, CLEARED, interests);
    SetNews(TakeView(v, key), key, Request(CLEARED, interests).0);
    assert NewKeys(TakeView(v, key)) == NewKeys(v);
  }

  lemma SetNews(v: BufferView, key: SampleKey, s: SlotState)
    requires key in v.active
    ensures NewKeys(SetActive(v, key, s)) == if s.state.New? then NewKeys(v) + {key} else NewKeys(v) - {key}
  {
  }

  lemma IssueAccounts(c: Consumer, key: SampleKey, interests: seq<Interest>)
    requires forall k | k in c.v.active :: ActiveOk(k, c.v.active[k])
    requires WellFormedBatch(key, interests) && |c.q.names| == |c.q.times|
    ensures Balance(Step(c, Issue(key, interests))) == Balance(c) + Lost(c, Issue(key, interests))
  {
    RequestNews(c.v, key, interests);
    var (v, r) := RequestView(c.v, key, interests);
    assert Step(c, Issue(key, interests)) == c.(v := v, pipeline := if r.Threw? then c.pipeline else c.pipeline + 1);
    if key in c.v.active {
      assert ActiveOk(key, c.v.active[key]);
    }
  }

  lemma AgainAccounts(c: Consumer, key: SampleKey, interests: seq<Interest>)
    requires (forall k | k in c.v.active :: ActiveOk(k, c.v.active[k])) && |c.q.names| == |c.q.times|
    requires WellFormedBatch(key, interests)
    ensures Balance(Step(c, Again(key, interests))) == Balance(c) - Uncounted(c, Again(key, interests))
  {
    RequestNews(c.v, key, interests);
  }

  // ---------- arrivals ----------

  /** A slot accepting a segment leaves `New` exactly when the segment is data. */
  lemma ReceiveNews(v: BufferView, seg: WireSegment)
    requires forall k | k in v.active :: ActiveOk(k, v.active[k])
    ensures var (w, r) := ReceiveView(v, seg);
      && NewKeys(w) == (if r.Accepted? && seg.seg.DataSeg? then NewKeys(v) - {seg.sample} else NewKeys(v))
      && (r.Accepted? ==> w.active.Keys == v.active.Keys && w.free == v.free)
  {
    if seg.sample in v.active {
      ReceiveState(v.active[seg.sample], seg);
      SetNews(v, seg.sample, Receive(v.active[seg.sample], seg).0);
    }
  }

  lemma QueueingNews(v: BufferView, q: QueueView, s: SlotState)
    requires s.name.Some? && |q.names| == |q.times|
    requires s.name.value in v.active ==> v.active[s.name.value] == s
    ensures NewKeys(NewData(v, q, s).0) == NewKeys(v)
  {
  }

  lemma AskingNews(v: BufferView, key: SampleKey, s: SlotState)
    requires forall k | k in v.active :: ActiveOk(k, v.active[k])
    ensures NewKeys(AskMissing(v, key, s))
            == if Missing(s) != [] && TakesSlot(v, key) then NewKeys(v) + {key} else NewKeys(v)
  {
    if Missing(s) != [] {
      RequestNews(v, key, MissingInterests(key, s));
    }
  }

  lemma RemoveOne<T>(s: set<T>, x: T)
    requires x in s
    ensures |s - {x}| == |s| - 1
  {
    assert s == (s - {x}) + {x};
  }

  /** What the observers of the buffer do to the new slots once a slot has accepted a segment. */
  lemma ObserversNews(v: BufferView, q: QueueView, key: SampleKey)
    requires (forall k | k in v.active :: ActiveOk(k, v.active[k])) && |q.names| == |q.times|
    requires key in v.active && v.active[key].name == Some(key)
    ensures var s := v.active[key];
      NewKeys(if Headless(s) then NewData(v, q, s).0 else AskMissing(NewData(v, q, s).0, key, s))
      == if s.state.Ready? && !Headless(s) && Missing(s) != [] && v.free > 0 then NewKeys(v) + {key} else NewKeys(v)
  {
    var s := v.active[key];
    assert ActiveOk(key, s);
    QueueingNews(v, q, s);
    AskingNews(NewData(v, q, s).0, key, s);
  }

  /** What an arrival does to the new slots, the pipeliner's own request included. */
  lemma DeliverNews(c: Consumer, seg: WireSegment, capacity: nat)
    requires ViewOk(c.v, capacity) && |c.q.names| == |c.q.times|
    ensures var left := if ReceiveView(c.v, seg).1.Accepted? && seg.seg.DataSeg? then NewKeys(c.v) - {seg.sample}
                        else NewKeys(c.v);
      NewKeys(DeliverStep(c, seg).v)
      == if LateArrival(c.v, seg) && c.v.free > 0 then left + {seg.sample} else left
  {
    ReceiveNews(c.v, seg);
    if ReceiveView(c.v, seg).1.Accepted? {
      ReceiveKeepsOk(c.v, capacity, seg);
      AcceptedSlot(c.v, seg);
      ObserversNews(ReceiveView(c.v, seg).0, c.q, seg.sample);
    }
  }

  lemma DeliverSizes(c: Consumer, seg: WireSegment, capacity: nat)
    requires ViewOk(c.v, capacity) && |c.q.names| == |c.q.times|
    ensures |NewKeys(DeliverStep(c, seg).v)|
            == |NewKeys(c.v)|
               - (if ReceiveView(c.v, seg).1.Accepted? && seg.seg.DataSeg? && c.v.active[seg.sample].state.New?
                  then 1 else 0)
               + (if LateArrival(c.v, seg) && c.v.free > 0 then 1 else 0)
  {
    DeliverNews(c, seg, capacity);
    if ReceiveView(c.v, seg).1.Accepted? {
      ReceiveState(c.v.active[seg.sample], seg);
      if seg.seg.DataSeg? && seg.sample in NewKeys(c.v) {
        RemoveOne(NewKeys(c.v), seg.sample);
      }
    }
  }

  /**
   Exactly what an arrival does to the balance: a parity segment accepted before any data takes one away, so
   does a late request that takes a second slot; a first data segment that makes its slot ready without a
   header leaves one behind; nothing else changes it.
   */
  lemma DeliverAccounts(c: Consumer, seg: WireSegment, capacity: nat)
    requires ViewOk(c.v, capacity) && |c.q.names| == |c.q.times|
    ensures Balance(Step(c, Deliver(seg))) == Balance(c) + Lost(c, Deliver(seg)) - Uncounted(c, Deliver(seg))
  {
    DeliverSizes(c, seg, capacity);
    if ReceiveView(c.v, seg).1.Accepted? {
      ReceiveState(c.v.active[seg.sample], seg);
    }
    CountDown(c, seg);
  }

  /** What an arrival does to the counter. */
  lemma CountDown(c: Consumer, seg: WireSegment)
    requires |c.q.names| == |c.q.times|
    ensures DeliverStep(c, seg).pipeline
            == c.pipeline - (if && ReceiveView(c.v, seg).1.Accepted? && c.v.active[seg.sample].state.New?
                                && !Headless(ReceiveView(c.v, seg).0.active[seg.sample]) then 1 else 0)
  {
  }

  /** The assertion in `decrement` fails exactly when a new slot accepts a segment while the counter is zero. */
  lemma DecrementFailsExactly(c: Consumer, seg: WireSegment)
    requires |c.q.names| == |c.q.times| && c.pipeline >= 0
    ensures Step(c, Deliver(seg)).pipeline < 0 <==>
            && c.pipeline == 0 && ReceiveView(c.v, seg).1.Accepted? && c.v.active[seg.sample].state.New?
            && !Headless(ReceiveView(c.v, seg).0.active[seg.sample])
  {
  }

  // ---------- pops ----------

  /** Popping a delta frame drops the new slots that come before it, and no others. */
  lemma PopNews(v: BufferView, key: SampleKey)
    ensures NewKeys(PopView(v, key))
            == if key.isKey then NewKeys(v) else NewKeys(v) - (set k | k in NewKeys(v) && Before(k, key))
  {
  }

  lemma PopAccounts(c: Consumer, period: real)
    requires |c.q.names| == |c.q.times|
    ensures Balance(Step(c, Pop(period))) == Balance(c) + Lost(c, Pop(period))
  {
    if c.q.names != [] {
      var key := Front(c.q);
      PopNews(c.v, key);
      SplitSize(NewKeys(c.v), set k | k in NewKeys(c.v) && Before(k, key));
    }
  }

  lemma SplitSize<T>(s: set<T>, t: set<T>)
    requires t <= s
    ensures |s| == |s - t| + |t|
  {
    assert s == (s - t) + t;
  }

  // ---------- whole runs ----------

  ghost function OwedAfter(c: Consumer, e: Event, owed: int): int
  {
    if e.Restart? then 0 else owed + Lost(c, e) - Uncounted(c, e)
  }

  lemma StepAccounts(c: Consumer, e: Event, capacity: nat)
    requires Inv(c, capacity) && WellFormedEvent(e)
    ensures Balance(Step(c, e)) == OwedAfter(c, e, Balance(c))
  {
    match e
    case Issue(key, interests) => IssueAccounts(c, key, interests);
    case Again(key, interests) => AgainAccounts(c, key, interests);
    case Deliver(seg) => DeliverAccounts(c, seg, capacity);
    case Pop(period) => PopAccounts(c, period);
    case Restart => assert NewKeys(ResetView(c.v)) == {};
  }

  /** Losses less what was not counted, since the last restart. */
  ghost function Owed(c: Consumer, es: seq<Event>, capacity: nat, owed: int): int
    requires Inv(c, capacity) && Legal(c, es, capacity)
    decreases |es|
  {
    if es == [] then owed
    else
      StepKeepsInv(c, es[0], capacity);
      Owed(Step(c, es[0]), es[1..], capacity, OwedAfter(c, es[0], owed))
  }

  /** The exact law, for every legal run: counter = new slots + samples lost - what was not counted. */
  lemma {:induction false} RunsBalance(c: Consumer, es: seq<Event>, capacity: nat, owed: int)
    requires Inv(c, capacity) && Legal(c, es, capacity)
    requires forall i | 0 <= i < |es| :: WellFormedEvent(es[i])
    requires Balance(c) == owed
    ensures var r := Run(c, es, capacity); r.pipeline == |NewKeys(r.v)| + Owed(c, es, capacity, owed)
    decreases |es|
  {
    if es == [] {
    } else {
      StepKeepsInv(c, es[0], capacity);
      StepAccounts(c, es[0], capacity);
      RunsBalance(Step(c, es[0]), es[1..], capacity, OwedAfter(c, es[0], owed));
    }
  }

  /** Every later request is for a slot in use, and no parity segment comes before all data. */
  ghost predicate Counted(c: Consumer, es: seq<Event>, capacity: nat)
    requires Inv(c, capacity) && Legal(c, es, capacity)
    decreases |es|
  {
    es == []
    || (Uncounted(c, es[0]) == 0
        && (StepKeepsInv(c, es[0], capacity); Counted(Step(c, es[0]), es[1..], capacity)))
  }

  lemma {:induction false} CountedOwesNothing(c: Consumer, es: seq<Event>, capacity: nat, owed: int)
    requires Inv(c, capacity) && Legal(c, es, capacity) && Counted(c, es, capacity) && owed >= 0
    ensures Owed(c, es, capacity, owed) >= 0
    decreases |es|
  {
    if es == [] {
    } else {
      StepKeepsInv(c, es[0], capacity);
      CountedOwesNothing(Step(c, es[0]), es[1..], capacity, OwedAfter(c, es[0], owed));
    }
  }

  /** So on counted runs the counter never falls below the number of new slots: `decrement` never fails. */
  lemma RunsNeverNegative(c: Consumer, es: seq<Event>, capacity: nat)
    requires Inv(c, capacity) && Legal(c, es, capacity) && Counted(c, es, capacity) && Balance(c) >= 0
    requires forall i | 0 <= i < |es| :: WellFormedEvent(es[i])
    ensures Run(c, es, capacity).pipeline >= |NewKeys(Run(c, es, capacity).v)| >= 0
  {
    RunsBalance(c, es, capacity, Balance(c));
    CountedOwesNothing(c, es, capacity, Balance(c));
  }

  /**
   Parity in front of data breaks it: one sample is requested with its data segment and two parity segments,
   both parity segments arrive, and the counter is at minus one.
   */
  lemma ParityFirstCountsTwice(c: Consumer, p0: WireSegment, p1: WireSegment)
    requires c.q == EMPTY_QUEUE && c.pipeline == 0 && p0.sample !in c.v.active && c.v.free > 0
    requires p1.sample == p0.sample && p0.finalBlock == p1.finalBlock == 1
    requires p0.seg == ParitySeg(0) && p1.seg == ParitySeg(1)
    ensures var c1 := Step(c, Issue(p0.sample, Pipeliners.BatchOf(p0.sample, 1, 2)));
      && |c1.q.names| == |c1.q.times|
      && var c2 := Step(c1, Deliver(p0));
      && |c2.q.names| == |c2.q.times|
      && Step(c2, Deliver(p1)).pipeline == -1
  {
    BatchWaitsForData(c.v, p0.sample);
    var c1 := Step(c, Issue(p0.sample, Pipeliners.BatchOf(p0.sample, 1, 2)));
    BothParitiesArrive(c1, p0, p1);
  }
}
