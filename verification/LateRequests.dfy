/**
 Requests that come too late. The pipeliner asks for the missing segments of a slot after the queue may have
 reserved it; the request then finds no active slot and takes a second one. Here is exactly when an arrival
 does that, and that it does not happen on runs in which no parity segment precedes all data.
 */
module LateRequests {
  import opened BufferSlots
  import opened Options
  import opened FrameBuffer
  import opened PlaybackQueues
  import opened Consumers
  import Pipeliners

  /** Everything announced has been requested, and no parity is announced where none has arrived. */
  ghost predicate Quiet(s: SlotState)
  {
    && !s.state.Ready?
    && Missing(s) == []
    && (ParityKeys(s.fetched.Keys) == {} ==> s.info.nParitySegments == 0)
  }

  /** A parity segment announces as many as the ones that came before it. */
  predicate ParityAgrees(s: SlotState, seg: WireSegment)
  {
    seg.seg.ParitySeg? && ParityKeys(s.fetched.Keys) != {} ==> seg.SlicesNum() == s.info.nParitySegments
  }

  // ---------- one slot ----------

  lemma MissingNone(s: SlotState)
    ensures Missing(s) == [] <==>
            s.fetched == map[]
            || ((forall i | 0 <= i < s.info.nDataSegments :: DataSeg(i) in s.requested)
                && (forall i | 0 <= i < s.info.nParitySegments :: ParitySeg(i) in s.requested))
  {
    if s.fetched != map[] {
      MissingIsExact(s, s);
    }
  }

  /** A slot that goes on assembling becomes ready only when nothing new is announced. */
  lemma AssemblingArrival(s: SlotState, seg: WireSegment)
    requires SlotInv(s) && Quiet(s) && s.state.Assembling? && ParityAgrees(s, seg)
    requires Receive(s, seg).1.Accepted? && Receive(s, seg).0.state.Ready?
    ensures Missing(Receive(s, seg).0) == []
  {
    var t := Receive(s, seg).0;
    assert s.fetched != map[];
    MissingNone(s);
    NothingNewAnnounced(s, seg);
    assert forall i | 0 <= i < t.info.nDataSegments :: DataSeg(i) in s.requested;
    assert forall i | 0 <= i < t.info.nParitySegments :: ParitySeg(i) in s.requested;
    MissingNone(t);
  }

  lemma NothingNewAnnounced(s: SlotState, seg: WireSegment)
    requires SlotInv(s) && Quiet(s) && s.state.Assembling? && ParityAgrees(s, seg)
    requires Receive(s, seg).1.Accepted? && Receive(s, seg).0.state.Ready?
    ensures var t := Receive(s, seg).0;
      && t.requested == s.requested
      && t.info.nDataSegments <= s.info.nDataSegments && t.info.nParitySegments <= s.info.nParitySegments
  {
    assert s.info.halves == 2 * |DataKeys(s.fetched.Keys)| + |ParityKeys(s.fetched.Keys)|;
    assert seg.seg !in s.fetched;
  }

  lemma NoDataYet(s: SlotState)
    requires SlotInv(s) && s.state.New?
    ensures forall k | k in s.fetched :: k.ParitySeg?
  {
    assert forall k | k in s.fetched :: k.DataSeg? ==> k in DataKeys(s.fetched.Keys);
  }

  /**
   The first data segment of a slot, whether parity came before it or not, makes the slot ready with segments
   missing exactly when it is segment 0, the weights suffice, and an announced one was not requested.
   */
  lemma FirstData(s: SlotState, seg: WireSegment)
    requires SlotInv(s) && Quiet(s) && s.state.New? && seg.seg.DataSeg? && Receive(s, seg).1.Accepted?
    ensures var t := Receive(s, seg).0;
      t.state.Ready? && !Headless(t) && Missing(t) != []
      <==> && seg.seg.no == 0 && s.info.halves + 2 >= 2 * seg.SlicesNum()
           && exists i | 0 <= i < seg.SlicesNum() :: DataSeg(i) !in s.requested
  {
    var t := Receive(s, seg).0;
    NoDataYet(s);
    assert t.fetched == s.fetched[seg.seg := seg] && t.fetched != map[];
    MissingNone(s);
    MissingNone(t);
  }

  /** With data alone nothing is late: a lone first segment is the only one announced. */
  lemma FirstDataAlone(s: SlotState, seg: WireSegment)
    requires SlotInv(s) && Quiet(s) && s.state.New? && s.fetched == map[]
    requires seg.seg.DataSeg? && Receive(s, seg).1.Accepted?
    ensures var t := Receive(s, seg).0;
      !(t.state.Ready? && !Headless(t) && Missing(t) != [])
  {
    FirstData(s, seg);
    assert DataKeys({}) == {} && ParityKeys({}) == {};
  }

  // ---------- the buffer ----------

  ghost predicate AllQuiet(v: BufferView)
  {
    forall k | k in v.active :: Quiet(v.active[k])
  }

  /**
   Exactly which arrivals are late, where parity segments agree on their number: a first data segment that
   comes behind enough parity while some announced segment was not requested.
   */
  lemma LateArrivalExactly(v: BufferView, seg: WireSegment, capacity: nat)
    requires ViewOk(v, capacity) && AllQuiet(v)
    requires seg.sample in v.active ==> ParityAgrees(v.active[seg.sample], seg)
    ensures LateArrival(v, seg) <==>
            && ReceiveView(v, seg).1.Accepted?
            && var s := v.active[seg.sample];
            && s.state.New? && seg.seg == DataSeg(0)
            && s.info.halves + 2 >= 2 * seg.SlicesNum()
            && exists i | 0 <= i < seg.SlicesNum() :: DataSeg(i) !in s.requested
  {
    if ReceiveView(v, seg).1.Accepted? {
      var s := v.active[seg.sample];
      assert ActiveOk(seg.sample, s);
      if s.state.New? && seg.seg.DataSeg? {
        FirstData(s, seg);
      } else if s.state.New? {
        ParityKeepsNew(s, seg);
      } else if s.state.Assembling? {
        if Receive(s, seg).0.state.Ready? {
          AssemblingArrival(s, seg);
        }
      }
    }
  }

  lemma ParityKeepsNew(s: SlotState, seg: WireSegment)
    requires SlotInv(s) && s.state.New? && seg.seg.ParitySeg?
    ensures Receive(s, seg).0.state.New?
  {
  }

  // ---------- every step leaves the buffer quiet ----------

  /** Requests leave what has arrived alone, and only add to what is requested. */
  lemma {:induction false} RequestsStayQuiet(s: SlotState, interests: seq<Interest>)
    requires Quiet(s)
    ensures Quiet(Request(s, interests).0)
    decreases |interests|
  {
    if interests == [] {
    } else if !s.state.Locked? && AddInterest(s, interests[0]).Some? {
      var t := AddInterest(s, interests[0]).value;
      MissingNone(s);
      MissingNone(t);
      RequestsStayQuiet(t, interests[1..]);
    }
  }

  lemma RequestStaysQuiet(v: BufferView, key: SampleKey, interests: seq<Interest>)
    requires AllQuiet(v)
    ensures AllQuiet(RequestView(v, key, interests).0)
  {
    RequestsStayQuiet(if key in v.active then v.active[key] else CLEARED, interests);
  }

  /** Asking for the missing segments leaves none missing. */
  lemma AskingQuiets(key: SampleKey, s: SlotState)
    requires SlotInv(s) && s.name == Some(key) && (s.state.New? || s.state.Assembling?)
    requires ParityKeys(s.fetched.Keys) == {} ==> s.info.nParitySegments == 0
    ensures Quiet(Request(s, MissingInterests(key, s)).0)
  {
    var interests := MissingInterests(key, s);
    var t := Request(s, interests).0;
    RequestAcceptsOneSample(s, interests);
    AddInterestsInv(s, interests);
    RequestsLeaveAssembly(s, interests);
    forall k | k in Missing(s) ensures k in t.requested {
      var j :| 0 <= j < |Missing(s)| && Missing(s)[j] == k;
      assert interests[j] == Interest(key, Some(k));
    }
    if s.fetched != map[] {
      MissingNone(t);
      MissingIsExact(s, s.(requested := t.requested));
    }
  }

  lemma ReceivedParity(s: SlotState, seg: WireSegment)
    requires SlotInv(s) && (ParityKeys(s.fetched.Keys) == {} ==> s.info.nParitySegments == 0)
    ensures var t := Receive(s, seg).0;
      ParityKeys(t.fetched.Keys) == {} ==> t.info.nParitySegments == 0
  {
    var (t, r) := Receive(s, seg);
    if r.Accepted? && seg.seg !in s.fetched {
      assert t.fetched.Keys == s.fetched.Keys + {seg.seg};
      if seg.seg.ParitySeg? {
        assert seg.seg in ParityKeys(t.fetched.Keys);
      } else {
        assert ParityKeys(t.fetched.Keys) == ParityKeys(s.fetched.Keys);
      }
    }
  }

  lemma DeliverStaysQuiet(c: Consumer, seg: WireSegment)
    requires |c.q.names| == |c.q.times| && AllQuiet(c.v) && !LateArrival(c.v, seg)
    requires seg.sample in c.v.active ==> ActiveOk(seg.sample, c.v.active[seg.sample])
    ensures AllQuiet(DeliverStep(c, seg).v)
  {
    if ReceiveView(c.v, seg).1.Accepted? {
      var key, s := seg.sample, Receive(c.v.active[seg.sample], seg).0;
      AcceptedSlot(c.v, seg);
      ReceivedParity(c.v.active[key], seg);
      if s.state.Ready? {
        ReadyLeaves(c, seg);
      } else {
        AskingQuiets(key, s);
        OthersAsk(c, seg);
      }
      PutQuiet(c.v, DeliverStep(c, seg).v, key);
    } else {
      RefusedLeavesAll(c, seg);
    }
  }

  lemma RefusedLeavesAll(c: Consumer, seg: WireSegment)
    requires |c.q.names| == |c.q.times| && !ReceiveView(c.v, seg).1.Accepted?
    ensures DeliverStep(c, seg).v.active == c.v.active
  {
    if seg.sample in c.v.active {
      assert c.v.active[seg.sample := c.v.active[seg.sample]] == c.v.active;
    }
  }

  lemma AcceptedSlot(v: BufferView, seg: WireSegment)
    requires ReceiveView(v, seg).1.Accepted? && ActiveOk(seg.sample, v.active[seg.sample])
    ensures var s := Receive(v.active[seg.sample], seg).0;
      && s == ReceiveView(v, seg).0.active[seg.sample]
      && SlotInv(s) && s.name == Some(seg.sample) && !s.state.Locked? && !s.state.Free?
  {
    ReceiveInv(v.active[seg.sample], seg);
  }

  /** A slot that has become ready has left the active ones. */
  lemma ReadyLeaves(c: Consumer, seg: WireSegment)
    requires |c.q.names| == |c.q.times| && !LateArrival(c.v, seg)
    requires ReceiveView(c.v, seg).1.Accepted? && Receive(c.v.active[seg.sample], seg).0.state.Ready?
    ensures DeliverStep(c, seg).v.active == c.v.active - {seg.sample}
  {
    var v := ReceiveView(c.v, seg).0;
    assert v.active - {seg.sample} == c.v.active - {seg.sample};
  }

  /** Any other slot that accepts a segment has been asked for what is missing. */
  lemma OthersAsk(c: Consumer, seg: WireSegment)
    requires |c.q.names| == |c.q.times| && ReceiveView(c.v, seg).1.Accepted?
    requires var s := Receive(c.v.active[seg.sample], seg).0; !s.state.Ready? && !s.state.Locked?
    ensures var s := Receive(c.v.active[seg.sample], seg).0;
      DeliverStep(c, seg).v.active
      == c.v.active[seg.sample := Request(s, MissingInterests(seg.sample, s)).0]
  {
    var v := ReceiveView(c.v, seg).0;
    AskedView(v, seg.sample, v.active[seg.sample]);
  }

  lemma PutQuiet(v: BufferView, w: BufferView, key: SampleKey)
    requires AllQuiet(v) && forall k | k in w.active && k != key :: k in v.active && w.active[k] == v.active[k]
    requires key in w.active ==> Quiet(w.active[key])
    ensures AllQuiet(w)
  {
  }

  /** Only the slot under the name is touched, and where nothing is missing not even that. */
  lemma AskedView(v: BufferView, key: SampleKey, s: SlotState)
    requires key in v.active && v.active[key] == s && !s.state.Ready? && !s.state.Locked?
    ensures AskMissing(v, key, s) == SetActive(v, key, Request(s, MissingInterests(key, s)).0)
  {
    if Missing(s) == [] {
      assert MissingInterests(key, s) == [];
      assert v.active[key := s] == v.active;
    }
  }

  lemma StepStaysQuiet(c: Consumer, e: Event, capacity: nat)
    requires Inv(c, capacity) && AllQuiet(c.v) && NoLateRequest(c, e)
    ensures AllQuiet(Step(c, e).v)
  {
    match e
    case Issue(key, interests) => RequestStaysQuiet(c.v, key, interests);
    case Again(key, interests) => RequestStaysQuiet(c.v, key, interests);
    case Deliver(seg) => DeliverStaysQuiet(c, seg);
    case Pop(period) =>
    case Restart =>
  }

  // ---------- runs without parity in front of data ----------

  /** Nothing has arrived in a new slot. */
  ghost predicate Untouched(v: BufferView)
  {
    forall k | k in v.active && v.active[k].state.New? :: v.active[k].fetched == map[]
  }

  /**
   The producer's parity segments agree on their number and none arrives before all data, and requests from
   outside are for samples that are not reserved.
   */
  ghost predicate TidyEvent(c: Consumer, e: Event)
  {
    match e
    case Issue(key, interests) => RequestInTime(c.v, key, interests)
    case Again(key, interests) => RequestInTime(c.v, key, interests)
    case Deliver(seg) =>
      seg.sample in c.v.active ==>
        ParityAgrees(c.v.active[seg.sample], seg)
        && !(seg.seg.ParitySeg? && c.v.active[seg.sample].state.New?)
    case _ => true
  }

  lemma TidyIsInTime(c: Consumer, e: Event, capacity: nat)
    requires Inv(c, capacity) && AllQuiet(c.v) && Untouched(c.v) && TidyEvent(c, e)
    ensures NoLateRequest(c, e)
  {
    if e.Deliver? {
      LateArrivalExactly(c.v, e.seg, capacity);
      if LateArrival(c.v, e.seg) {
        FirstDataAlone(c.v.active[e.seg.sample], e.seg);
        assert false;
      }
    }
  }

  lemma RequestStaysUntouched(v: BufferView, key: SampleKey, interests: seq<Interest>)
    requires Untouched(v) && (forall k | k in v.active :: ActiveOk(k, v.active[k]))
    ensures Untouched(RequestView(v, key, interests).0)
  {
    var s := if key in v.active then v.active[key] else CLEARED;
    ClearedInv();
    RequestKeepsArrivals(s, interests);
  }

  lemma RequestKeepsArrivals(s: SlotState, interests: seq<Interest>)
    requires SlotInv(s) && !s.state.Locked?
    ensures var t := Request(s, interests).0;
      t.fetched == s.fetched && (t.state.New? ==> s.state.New? || s.state.Free?)
  {
    if !s.state.Ready? {
      AddInterestsInv(s, interests);
    }
  }

  lemma DeliverStaysUntouched(c: Consumer, seg: WireSegment)
    requires |c.q.names| == |c.q.times| && Untouched(c.v) && TidyEvent(c, Deliver(seg)) && !LateArrival(c.v, seg)
    requires seg.sample in c.v.active ==> ActiveOk(seg.sample, c.v.active[seg.sample])
    ensures Untouched(DeliverStep(c, seg).v)
  {
    if ReceiveView(c.v, seg).1.Accepted? {
      var key, s := seg.sample, Receive(c.v.active[seg.sample], seg).0;
      AcceptedSlot(c.v, seg);
      if s.state.Ready? {
        ReadyLeaves(c, seg);
      } else {
        ReceiveState(c.v.active[key], seg);
        RequestKeepsArrivals(s, MissingInterests(key, s));
        OthersAsk(c, seg);
      }
    } else {
      RefusedLeavesAll(c, seg);
    }
  }

  lemma TidyStaysUntouched(c: Consumer, e: Event, capacity: nat)
    requires Inv(c, capacity) && Untouched(c.v) && TidyEvent(c, e) && NoLateRequest(c, e)
    ensures Untouched(Step(c, e).v)
  {
    match e
    case Issue(key, interests) => RequestStaysUntouched(c.v, key, interests);
    case Again(key, interests) => RequestStaysUntouched(c.v, key, interests);
    case Deliver(seg) => DeliverStaysUntouched(c, seg);
    case Pop(period) => PopStaysUntouched(c, period);
    case Restart =>
  }

  lemma PopStaysUntouched(c: Consumer, period: real)
    requires Untouched(c.v) && |c.q.names| == |c.q.times|
    ensures Untouched(Step(c, Pop(period)).v)
  {
    var w := Step(c, Pop(period)).v;
    assert forall k | k in w.active :: k in c.v.active && w.active[k] == c.v.active[k];
  }

  /** One tidy event: it is in time, and leaves everything as the next one needs it. */
  lemma TidyStep(c: Consumer, e: Event, capacity: nat)
    requires Inv(c, capacity) && AllQuiet(c.v) && Untouched(c.v) && TidyEvent(c, e)
    ensures NoLateRequest(c, e)
    ensures Inv(Step(c, e), capacity) && AllQuiet(Step(c, e).v) && Untouched(Step(c, e).v)
  {
    TidyIsInTime(c, e, capacity);
    StepKeepsInv(c, e, capacity);
    StepStaysQuiet(c, e, capacity);
    TidyStaysUntouched(c, e, capacity);
  }

  ghost predicate TidyRun(c: Consumer, es: seq<Event>, capacity: nat)
    requires Inv(c, capacity) && AllQuiet(c.v) && Untouched(c.v)
    decreases |es|
  {
    es == []
    || (TidyEvent(c, es[0]) && (TidyStep(c, es[0], capacity); TidyRun(Step(c, es[0]), es[1..], capacity)))
  }

  /**
   On a tidy run the code itself never makes a late request: everything proved of legal runs holds, without
   looking at what is missing when a slot becomes ready.
   */
  lemma {:induction false} TidyRunsAreLegal(c: Consumer, es: seq<Event>, capacity: nat)
    requires Inv(c, capacity) && AllQuiet(c.v) && Untouched(c.v) && TidyRun(c, es, capacity)
    ensures Legal(c, es, capacity)
    ensures AllQuiet(Run(c, es, capacity).v) && Untouched(Run(c, es, capacity).v)
    decreases |es|
  {
    if es == [] {
    } else {
      TidyStep(c, es[0], capacity);
      TidyRunsAreLegal(Step(c, es[0]), es[1..], capacity);
    }
  }

  // ---------- parity in front of data ----------

  /** A slot that waits for one data and two parity segments, and the first of them arrive. */
  ghost predicate WaitsForData(v: BufferView, key: SampleKey)
  {
    && key in v.active
    && var s := v.active[key];
    && SlotInv(s) && s.name == Some(key) && s.state.New? && s.info.nDataSegments == 0
    && s.requested.Keys == {DataSeg(0), ParitySeg(0), ParitySeg(1)}
  }

  lemma BatchWaitsForData(v: BufferView, key: SampleKey)
    requires key !in v.active && v.free > 0
    ensures var w := RequestView(v, key, Pipeliners.BatchOf(key, 1, 2)).0;
      && WaitsForData(w, key) && w.active[key].fetched == map[] && w.free == v.free - 1
      && w.reserved == v.reserved
      && RequestView(v, key, Pipeliners.BatchOf(key, 1, 2)).1.Filed?
  {
    var d := Interest(key, Some(DataSeg(0)));
    var p0, p1 := Interest(key, Some(ParitySeg(0))), Interest(key, Some(ParitySeg(1)));
    assert Pipeliners.BatchOf(key, 1, 2) == [d, p0, p1];
    var s1 := AddInterest(CLEARED, d).value;
    var s2 := AddInterest(s1, p0).value;
    var s3 := AddInterest(s2, p1).value;
    assert [d, p0, p1][1..] == [p0, p1] && [p0, p1][1..] == [p1] && [p1][1..] == [];
    assert AddInterests(s2, [p1]) == (s3, true);
    assert AddInterests(s1, [p0, p1]) == (s3, true);
    assert AddInterests(CLEARED, [d, p0, p1]) == (s3, true);
    assert s3.requested.Keys == {DataSeg(0), ParitySeg(0), ParitySeg(1)};
    assert DataKeys({}) == {} && ParityKeys({}) == {};
  }

  /** One of two parity segments arrives: the slot stays new, and is counted all the same. */
  lemma ParityArrives(c: Consumer, p: WireSegment)
    requires |c.q.names| == |c.q.times| && WaitsForData(c.v, p.sample)
    requires p.seg.ParitySeg? && p.seg.no < 2 && p.finalBlock == 1
    requires p.seg !in c.v.active[p.sample].fetched
    ensures var d := DeliverStep(c, p);
      && WaitsForData(d.v, p.sample) && d.q == c.q && d.pipeline == c.pipeline - 1
      && d.v.free == c.v.free && d.v.reserved == c.v.reserved
      && var t := d.v.active[p.sample];
      && t.fetched.Keys == c.v.active[p.sample].fetched.Keys + {p.seg} && t.info.nParitySegments == 2
      && Missing(t) == []
  {
    var s := c.v.active[p.sample];
    assert p.seg in {DataSeg(0), ParitySeg(0), ParitySeg(1)};
    var t := Receive(s, p).0;
    ReceiveInv(s, p);
    ReceiveState(s, p);
    MissingNone(t);
  }

  /**
   A late arrival exists: one data and two parity segments are requested, both parity segments arrive, then
   data segment 0 of two. The slot is ready, data segment 1 was never requested, and the request for it takes
   a second slot for a sample that is reserved by then.
   */
  lemma ParityFirstMakesALateRequest(c: Consumer, p0: WireSegment, p1: WireSegment, d: WireSegment)
    requires c.q == EMPTY_QUEUE && p0.sample !in c.v.active && c.v.free > 1
    requires p1.sample == d.sample == p0.sample && p0.finalBlock == p1.finalBlock == d.finalBlock == 1
    requires p0.seg == ParitySeg(0) && p1.seg == ParitySeg(1) && d.seg == DataSeg(0)
    ensures var c1 := Step(c, Issue(p0.sample, Pipeliners.BatchOf(p0.sample, 1, 2)));
      && |c1.q.names| == |c1.q.times|
      && var c2 := DeliverStep(c1, p0);
      && |c2.q.names| == |c2.q.times|
      && var c3 := DeliverStep(c2, p1);
      && |c3.q.names| == |c3.q.times|
      && LateArrival(c3.v, d)
      && c3.pipeline == c.pipeline - 1
      && var w := DeliverStep(c3, d).v;
      && d.sample in w.active && w.active[d.sample].state.New? && d.sample in w.reserved
      && w.free == c.v.free - 2
  {
    BatchWaitsForData(c.v, p0.sample);
    var c1 := Step(c, Issue(p0.sample, Pipeliners.BatchOf(p0.sample, 1, 2)));
    BothParitiesArrive(c1, p0, p1);
    var c3 := DeliverStep(DeliverStep(c1, p0), p1);
    DataBehindParity(c3.v, d);
    LateTakesASlot(c3, d);
  }

  lemma BothParitiesArrive(c: Consumer, p0: WireSegment, p1: WireSegment)
    requires |c.q.names| == |c.q.times| && WaitsForData(c.v, p0.sample) && c.v.active[p0.sample].fetched == map[]
    requires p1.sample == p0.sample && p0.finalBlock == p1.finalBlock == 1
    requires p0.seg == ParitySeg(0) && p1.seg == ParitySeg(1)
    ensures var c2 := DeliverStep(c, p0);
      && |c2.q.names| == |c2.q.times|
      && var c3 := DeliverStep(c2, p1);
      && c3.q == c.q && c3.pipeline == c.pipeline - 2 && c3.v.free == c.v.free
      && WaitsForData(c3.v, p0.sample)
      && var t := c3.v.active[p0.sample];
      && t.fetched.Keys == {ParitySeg(0), ParitySeg(1)} && t.info.nParitySegments == 2 && Missing(t) == []
  {
    ParityArrives(c, p0);
    var c2 := DeliverStep(c, p0);
    SecondParityArrives(c2, p1);
  }

  lemma SecondParityArrives(c: Consumer, p: WireSegment)
    requires |c.q.names| == |c.q.times| && WaitsForData(c.v, p.sample) && p.seg == ParitySeg(1) && p.finalBlock == 1
    requires c.v.active[p.sample].fetched.Keys == {ParitySeg(0)}
    ensures var d := DeliverStep(c, p);
      && WaitsForData(d.v, p.sample) && d.q == c.q && d.pipeline == c.pipeline - 1 && d.v.free == c.v.free
      && var t := d.v.active[p.sample];
      && t.fetched.Keys == {ParitySeg(0), ParitySeg(1)} && t.info.nParitySegments == 2 && Missing(t) == []
  {
    ParityArrives(c, p);
  }

  lemma DataBehindParity(v: BufferView, d: WireSegment)
    requires WaitsForData(v, d.sample) && d.seg == DataSeg(0) && d.finalBlock == 1
    requires v.active[d.sample].fetched.Keys == {ParitySeg(0), ParitySeg(1)}
    requires v.active[d.sample].info.nParitySegments == 2 && Missing(v.active[d.sample]) == []
    ensures LateArrival(v, d)
  {
    var s := v.active[d.sample];
    assert DataKeys(s.fetched.Keys) == {} && ParityKeys(s.fetched.Keys) == {ParitySeg(0), ParitySeg(1)};
    FirstData(s, d);
    assert DataSeg(1) !in s.requested;
  }

  /** A late arrival leaves its sample reserved, and new in a second slot if there is one. */
  lemma LateTakesASlot(c: Consumer, seg: WireSegment)
    requires |c.q.names| == |c.q.times| && c.v.free > 0 && LateArrival(c.v, seg)
    ensures var w := DeliverStep(c, seg).v;
      && seg.sample in w.reserved && w.free == c.v.free - 1
      && w.active.Keys == c.v.active.Keys && w.active[seg.sample].state.New?
  {
    var v := ReceiveView(c.v, seg).0;
    BatchIsTaken(seg.sample, v.active[seg.sample]);
    assert ReserveView(v, seg.sample).active.Keys + {seg.sample} == c.v.active.Keys;
  }

  /** A clear slot takes the request for missing segments and is new. */
  lemma BatchIsTaken(key: SampleKey, s: SlotState)
    requires Missing(s) != []
    ensures Request(CLEARED, MissingInterests(key, s)).1
    ensures Request(CLEARED, MissingInterests(key, s)).0.state.New?
  {
    ClearedInv();
    RequestAcceptsOneSample(CLEARED, MissingInterests(key, s));
    RequestsLeaveAssembly(CLEARED, MissingInterests(key, s));
  }
}
