/**
 One slot of the frame buffer: the segments requested for a sample, the segments that have arrived, and the
 assembly state derived from them.

 Times and sizes kept for statistics are not modelled. Weights are counted in halves: a data segment
 weighs two, a parity segment one.
 */
module BufferSlots {
  import opened Bytes
  import opened Options

  /**
   The name of a sample: the thread it belongs to (as a rank in the canonical order of thread prefixes),
   whether it is a key frame, and its number.
   */
  datatype SampleKey = SampleKey(thread: nat, isKey: bool, no: nat)

  /** The rest of a segment's name. */
  datatype SegKey = DataSeg(no: nat) | ParitySeg(no: nat)

  /** An Interest; without segment-level information it is a "rightmost" Interest. */
  datatype Interest = Interest(sample: SampleKey, seg: Option<SegKey>)

  datatype CommonHeader = CommonHeader(sampleRate: real, timestamp: int)

  /** A received segment. `common` is the packet header, carried by data segment 0 only. */
  datatype WireSegment = WireSegment(sample: SampleKey, seg: SegKey, finalBlock: nat, content: bytes,
                                     common: CommonHeader, original: bool)
  {
    function SlicesNum(): nat { finalBlock + 1 }
  }

  datatype State = Free | New | Assembling | Ready | Locked

  function Halves(k: SegKey): nat
  {
    if k.DataSeg? then 2 else 1
  }

  /**
   What assembly has found out about a sample: the key of its segment 0, the consistency flags, the segment
   numbers announced, and the weight that has arrived.
   */
  datatype AssemblyRecord = AssemblyRecord(
    headKey: SegKey,
    segmentMeta: bool,
    headerMeta: bool,
    nDataSegments: nat,
    nParitySegments: nat,
    halves: nat,
    hasOriginal: bool)

  /** FinalBlockId + 1 is never zero. */
  type Assembly = a: AssemblyRecord | a.segmentMeta ==> a.nDataSegments > 0
    witness AssemblyRecord(DataSeg(0), false, false, 0, 0, 0, false)

  /** The fields of a slot, as a value. `requested` counts how often each segment was asked for. */
  datatype SlotState = SlotState(
    name: Option<SampleKey>,
    requested: map<SegKey, nat>,
    fetched: map<SegKey, WireSegment>,
    nRtx: nat,
    info: Assembly,
    state: State)
  {
    /** The assembled level: the shares of the fetched segments, summed. */
    ghost function Level(): real
      requires info.nDataSegments > 0
    {
      Share(Weight(fetched.Keys), info.nDataSegments)
    }
  }

  const NOTHING: Assembly := AssemblyRecord(DataSeg(0), false, false, 0, 0, 0, false)
  const CLEARED := SlotState(None, map[], map[], 0, NOTHING, Free)

  // ---------- weights of sets of segments ----------

  function DataKeys(keys: set<SegKey>): set<SegKey>
  {
    set k | k in keys && k.DataSeg?
  }

  function ParityKeys(keys: set<SegKey>): set<SegKey>
  {
    set k | k in keys && k.ParitySeg?
  }

  function Weight(keys: set<SegKey>): nat
  {
    2 * |DataKeys(keys)| + |ParityKeys(keys)|
  }

  lemma WeightAdd(keys: set<SegKey>, k: SegKey)
    requires k !in keys
    ensures Weight(keys + {k}) == Weight(keys) + Halves(k)
  {
    if k.DataSeg? {
      assert DataKeys(keys + {k}) == DataKeys(keys) + {k};
      assert ParityKeys(keys + {k}) == ParityKeys(keys);
    } else {
      assert DataKeys(keys + {k}) == DataKeys(keys);
      assert ParityKeys(keys + {k}) == ParityKeys(keys) + {k};
    }
  }

  function Share(halves: nat, nData: nat): real
    requires nData > 0
  {
    halves as real / (2 * nData) as real
  }

  lemma ShareAdd(a: nat, b: nat, nData: nat)
    requires nData > 0
    ensures Share(a + b, nData) == Share(a, nData) + Share(b, nData)
  {
  }

  lemma ShareOfOne(k: SegKey, nData: nat)
    requires nData > 0
    ensures Share(Halves(k), nData) == if k.ParitySeg? then 0.5 / nData as real else 1.0 / nData as real
  {
  }

  lemma LevelStep(done: set<SegKey>, k: SegKey, nData: nat)
    requires nData > 0 && k !in done
    ensures Share(Weight(done + {k}), nData)
            == Share(Weight(done), nData) + if k.ParitySeg? then 0.5 / nData as real else 1.0 / nData as real
  {
    WeightAdd(done, k);
    ShareAdd(Weight(done), Halves(k), nData);
    ShareOfOne(k, nData);
  }

  lemma ShareAtLeastOne(halves: nat, nData: nat)
    requires nData > 0
    ensures Share(halves, nData) >= 1.0 <==> halves >= 2 * nData
  {
    QuotientAtLeastOne(halves as real, (2 * nData) as real);
  }

  lemma QuotientAtLeastOne(x: real, d: real)
    requires d > 0.0
    ensures x / d >= 1.0 <==> x >= d
  {
    var q := x / d;
    assert x == q * d;
    if q >= 1.0 {
      assert (q - 1.0) * d >= 0.0;
    } else {
      assert (1.0 - q) * d > 0.0;
    }
  }

  // ---------- what each operation does to a slot ----------

  /** One Interest; `None` where the source throws. */
  function AddInterest(s: SlotState, i: Interest): Option<SlotState>
  {
    if i.seg.None? then None
    else if s.name.Some? && s.name.value != i.sample then None
    else
      var key := i.seg.value;
      var times := if key in s.requested then s.requested[key] else 0;
      Some(s.(name := Some(i.sample),
              info := if s.name.None? then s.info.(headKey := key) else s.info,
              requested := s.requested[key := times + 1],
              nRtx := if key in s.requested then s.nRtx + 1 else s.nRtx,
              state := if s.state.Free? then New else s.state))
  }

  /** The loop of `segmentsRequested`: stops at the first Interest it refuses, keeping what came before. */
  function AddInterests(s: SlotState, interests: seq<Interest>): (SlotState, bool)
    decreases |interests|
  {
    if interests == [] then (s, true)
    else match AddInterest(s, interests[0])
         case None => (s, false)
         case Some(s') => AddInterests(s', interests[1..])
  }

  function Request(s: SlotState, interests: seq<Interest>): (SlotState, bool)
  {
    if s.state.Ready? || s.state.Locked? then (s, false) else AddInterests(s, interests)
  }

  function Observe(a: Assembly, state: State, seg: WireSegment): Assembly
  {
    var data := seg.seg.DataSeg?;
    AssemblyRecord(if state != New then a.headKey else if data then DataSeg(0) else ParitySeg(0),
             a.segmentMeta || data,
             a.headerMeta || seg.seg == DataSeg(0),
             if data then seg.SlicesNum() else a.nDataSegments,
             if data then a.nParitySegments else seg.SlicesNum(),
             a.halves + Halves(seg.seg),
             seg.original)
  }

  function NextState(a: Assembly, state: State): State
  {
    if !a.segmentMeta then state else if a.halves >= 2 * a.nDataSegments then Ready else Assembling
  }

  /** `updateConsistencyState`, after `seg` has been put into `fetched`. */
  function UpdateConsistency(s: SlotState, seg: WireSegment): SlotState
  {
    var a := Observe(s.info, s.state, seg);
    s.(info := a, state := NextState(a, s.state))
  }

  datatype Reception = Ignored | Refused | Accepted

  function Receive(s: SlotState, seg: WireSegment): (SlotState, Reception)
  {
    if s.state.Locked? then (s, Ignored)
    else if s.name != Some(seg.sample) || seg.seg !in s.requested then (s, Refused)
    else if seg.seg in s.fetched then (s, Accepted)
    else (UpdateConsistency(s.(fetched := s.fetched[seg.seg := seg]), seg), Accepted)
  }

  function Toggled(s: SlotState): Option<SlotState>
  {
    match s.state
    case Locked => Some(s.(state := Ready))
    case Ready => Some(s.(state := Locked))
    case _ => None
  }

  function Header(s: SlotState): Option<CommonHeader>
  {
    if s.info.headKey in s.fetched then Some(s.fetched[s.info.headKey].common) else None
  }

  // ---------- what holds of every slot in use ----------

  ghost predicate SlotInv(s: SlotState)
  {
    && (s.state.Free? ==> s == CLEARED)
    && (!s.state.Free? ==> s.name.Some?)
    && s.fetched.Keys <= s.requested.Keys
    && (forall k <- s.fetched :: s.fetched[k].seg == k && s.name == Some(s.fetched[k].sample))
    && s.info.halves == Weight(s.fetched.Keys)
    && (s.info.segmentMeta <==> DataKeys(s.fetched.Keys) != {})
    && (s.info.headerMeta <==> DataSeg(0) in s.fetched)
    && (s.state.New? <==> s.state != Free && !s.info.segmentMeta)
    && (s.info.segmentMeta ==> s.info.headKey == DataSeg(0))
    && (s.info.segmentMeta ==> (s.state.Assembling? <==> s.info.halves < 2 * s.info.nDataSegments))
  }

  lemma ClearedInv()
    ensures SlotInv(CLEARED)
  {
  }

  lemma AddInterestInv(s: SlotState, i: Interest)
    requires SlotInv(s) && !s.state.Ready? && !s.state.Locked? && AddInterest(s, i).Some?
    ensures var t := AddInterest(s, i).value;
      && SlotInv(t) && t.name == Some(i.sample) && t.fetched == s.fetched
      && t.requested.Keys == s.requested.Keys + {i.seg.value}
      && t.state == (if s.state.Free? then New else s.state)
  {
  }

  /** Requests never change what has been fetched, nor the state of a slot already in use. */
  lemma {:induction false} AddInterestsInv(s: SlotState, interests: seq<Interest>)
    requires SlotInv(s) && !s.state.Ready? && !s.state.Locked?
    ensures var (t, ok) := AddInterests(s, interests);
      && SlotInv(t)
      && t.fetched == s.fetched && t.requested.Keys >= s.requested.Keys
      && (!s.state.Free? ==> t.state == s.state && t.name == s.name)
      && (t.state.Free? || t.state.New? || t.state.Assembling?)
      && (ok ==> forall j | 0 <= j < |interests| ::
                   && interests[j].seg.Some? && interests[j].seg.value in t.requested
                   && t.name == Some(interests[j].sample))
    decreases |interests|
  {
    if interests != [] && AddInterest(s, interests[0]).Some? {
      var s' := AddInterest(s, interests[0]).value;
      AddInterestInv(s, interests[0]);
      AddInterestsInv(s', interests[1..]);
      var (t, ok) := AddInterests(s, interests);
      forall j | 0 <= j < |interests| && ok
        ensures interests[j].seg.Some? && interests[j].seg.value in t.requested
                && t.name == Some(interests[j].sample)
      {
        if j > 0 {
          assert interests[j] == interests[1..][j - 1];
        }
      }
    }
  }

  /** How many of the Interests are for segment `k`. */
  function Asked(interests: seq<Interest>, k: SegKey): nat
  {
    if interests == [] then 0 else (if interests[0].seg == Some(k) then 1 else 0) + Asked(interests[1..], k)
  }

  function TimesRequested(s: SlotState, k: SegKey): nat
  {
    if k in s.requested then s.requested[k] else 0
  }

  /**
   A batch that is accepted adds to what is counted for each segment as often as it asks for it; every Interest
   for a segment asked for before counts as a retransmission.
   */
  lemma {:induction false} RequestsAreCounted(s: SlotState, interests: seq<Interest>, k: SegKey)
    requires AddInterests(s, interests).1
    ensures var t := AddInterests(s, interests).0;
      && TimesRequested(t, k) == TimesRequested(s, k) + Asked(interests, k)
      && t.nRtx + |t.requested| == s.nRtx + |s.requested| + |interests|
    decreases |interests|
  {
    if interests == [] {
    } else {
      var t := AddInterest(s, interests[0]).value;
      var key := interests[0].seg.value;
      RequestsAreCounted(t, interests[1..], k);
      assert |t.requested| == |s.requested| + if key in s.requested then 0 else 1;
    }
  }

  /** Locking and unlocking undo each other, and nothing but ready and locked slots can be toggled. */
  lemma TogglesBack(s: SlotState)
    ensures Toggled(s).Some? <==> s.state.Ready? || s.state.Locked?
    ensures Toggled(s).Some? ==> Toggled(s).value != s && Toggled(Toggled(s).value) == Some(s)
  {
  }

  /** One more Interest at the end of a batch. */
  lemma {:induction false} AddOneMore(s: SlotState, interests: seq<Interest>, i: Interest)
    requires AddInterests(s, interests).1
    ensures AddInterests(s, interests + [i])
            == match AddInterest(AddInterests(s, interests).0, i)
               case None => (AddInterests(s, interests).0, false)
               case Some(t) => (t, true)
    decreases |interests|
  {
    if interests == [] {
      assert [] + [i] == [i] && [i][1..] == [];
    } else {
      assert (interests + [i])[0] == interests[0] && (interests + [i])[1..] == interests[1..] + [i];
      AddOneMore(AddInterest(s, interests[0]).value, interests[1..], i);
    }
  }

  /**
   A batch is refused exactly when the slot is ready or locked, an Interest names no segment, or two names
   in play differ before the segment number.
   */
  lemma {:induction false} RequestAcceptsOneSample(s: SlotState, interests: seq<Interest>)
    requires SlotInv(s)
    ensures Request(s, interests).1 <==>
            && !s.state.Ready? && !s.state.Locked?
            && (forall j | 0 <= j < |interests| :: interests[j].seg.Some?)
            && (forall j | 0 <= j < |interests| ::
                  interests[j].sample == (if s.name.Some? then s.name.value else interests[0].sample))
    decreases |interests|
  {
    if !s.state.Ready? && !s.state.Locked? && interests != [] {
      match AddInterest(s, interests[0])
      case None =>
        assert interests[0].seg.None? || interests[0].sample != s.name.value;
      case Some(s') =>
        AddInterestInv(s, interests[0]);
        RequestAcceptsOneSample(s', interests[1..]);
        assert forall j | 1 <= j < |interests| :: interests[j] == interests[1..][j - 1];
        assert forall j | 0 <= j < |interests| - 1 :: interests[1..][j] == interests[j + 1];
    }
  }

  lemma ReceiveInv(s: SlotState, seg: WireSegment)
    requires SlotInv(s)
    ensures SlotInv(Receive(s, seg).0)
    ensures Receive(s, seg).0.name == s.name && Receive(s, seg).0.requested == s.requested
    ensures Receive(s, seg).1.Accepted? ==> Receive(s, seg).0.fetched.Keys == s.fetched.Keys + {seg.seg}
  {
    var (t, r) := Receive(s, seg);
    if r.Accepted? && seg.seg !in s.fetched {
      WeightAdd(s.fetched.Keys, seg.seg);
      assert t.fetched.Keys == s.fetched.Keys + {seg.seg};
      if seg.seg.DataSeg? {
        assert seg.seg in DataKeys(t.fetched.Keys);
      } else {
        assert DataKeys(t.fetched.Keys) == DataKeys(s.fetched.Keys);
      }
    }
  }

  /** Whether the segment taken last answered an Interest of ours; a repeat changes nothing. */
  lemma OriginalIsOfLast(s: SlotState, seg: WireSegment)
    ensures var (t, r) := Receive(s, seg);
      if r.Accepted? && seg.seg !in s.fetched then t.info.hasOriginal == seg.original else t == s
  {
  }

  /** A slot stays new exactly while only parity segments are accepted. */
  lemma ReceiveState(s: SlotState, seg: WireSegment)
    requires SlotInv(s)
    ensures var (t, r) := Receive(s, seg);
      t.state.New? <==> s.state.New? && (r.Accepted? ==> seg.seg.ParitySeg?)
  {
    ReceiveInv(s, seg);
    var (t, r) := Receive(s, seg);
    if r.Accepted? && seg.seg.DataSeg? {
      assert seg.seg in DataKeys(t.fetched.Keys);
    } else if r.Accepted? {
      assert DataKeys(t.fetched.Keys) == DataKeys(s.fetched.Keys);
    }
  }

  // ---------- assembly does not depend on the order of arrival ----------

  /** The segments of one published sample: all data segments announce `nData`, all parity ones `nParity`. */
  ghost predicate Agree(wire: SegKey -> WireSegment, sample: SampleKey, nData: nat, nParity: nat)
  {
    && nData > 0 && nParity > 0
    && forall k :: wire(k).seg == k && wire(k).sample == sample
                   && wire(k).SlicesNum() == (if k.DataSeg? then nData else nParity)
  }

  /** What a slot holds after exactly the segments in `keys` have arrived, written without any order. */
  ghost function Assembled(s: SlotState, keys: set<SegKey>, wire: SegKey -> WireSegment,
                           nData: nat, nParity: nat): SlotState
    requires nData > 0
  {
    var data := DataKeys(keys) != {};
    var a := AssemblyRecord(if data then DataSeg(0) else if keys != {} then ParitySeg(0) else s.info.headKey,
                      data,
                      DataSeg(0) in keys,
                      if data then nData else 0,
                      if ParityKeys(keys) != {} then nParity else 0,
                      Weight(keys),
                      false);
    s.(fetched := map k | k in keys :: wire(k),
       info := a,
       state := if !data then New else if Weight(keys) >= 2 * nData then Ready else Assembling)
  }

  function LastWas(s: SlotState, original: bool): SlotState
  {
    s.(info := s.info.(hasOriginal := original))
  }

  function Forget(s: SlotState): SlotState
  {
    LastWas(s, false)
  }

  ghost function Arrive(s: SlotState, arrivals: seq<SegKey>, wire: SegKey -> WireSegment): SlotState
  {
    if arrivals == [] then s
    else Receive(Arrive(s, arrivals[..|arrivals| - 1], wire), wire(arrivals[|arrivals| - 1])).0
  }

  function KeySet(arrivals: seq<SegKey>): set<SegKey>
  {
    set k | k in arrivals
  }

  lemma ArrivalStep(s: SlotState, keys: set<SegKey>, k: SegKey, wire: SegKey -> WireSegment,
                    nData: nat, nParity: nat, original: bool)
    requires s.name.Some? && Agree(wire, s.name.value, nData, nParity)
    requires k in s.requested
    ensures var before := LastWas(Assembled(s, keys, wire, nData, nParity), original);
      var (after, r) := Receive(before, wire(k));
      r.Accepted? && Forget(after) == Assembled(s, keys + {k}, wire, nData, nParity)
  {
    if k in keys {
      assert keys + {k} == keys;
    } else {
      FreshArrival(s, keys, k, wire, nData, nParity, original);
    }
  }

  lemma FreshArrival(s: SlotState, keys: set<SegKey>, k: SegKey, wire: SegKey -> WireSegment,
                     nData: nat, nParity: nat, original: bool)
    requires s.name.Some? && Agree(wire, s.name.value, nData, nParity)
    requires k in s.requested && k !in keys
    ensures var before := LastWas(Assembled(s, keys, wire, nData, nParity), original);
      Forget(UpdateConsistency(before.(fetched := before.fetched[k := wire(k)]), wire(k)))
      == Assembled(s, keys + {k}, wire, nData, nParity)
  {
    WeightAdd(keys, k);
    assert (map j | j in keys :: wire(j))[k := wire(k)] == map j | j in keys + {k} :: wire(j);
    if k.DataSeg? {
      assert k in DataKeys(keys + {k});
      assert ParityKeys(keys + {k}) == ParityKeys(keys);
      assert wire(k).seg == k && wire(k).SlicesNum() == nData;
    } else {
      assert k in ParityKeys(keys + {k});
      assert DataKeys(keys + {k}) == DataKeys(keys);
      assert wire(k).seg == k && wire(k).SlicesNum() == nParity;
    }
  }

  /**
   After any arrival sequence, with repeats, the slot is what `Assembled` says of the set of segments that
   arrived. (`hasOriginal` alone remembers which one was last.)
   */
  lemma {:induction false} AssemblyIsOrderIndependent(s: SlotState, arrivals: seq<SegKey>,
                                                      wire: SegKey -> WireSegment, nData: nat, nParity: nat)
    requires s.name.Some? && Agree(wire, s.name.value, nData, nParity)
    requires Forget(s) == Assembled(s, {}, wire, nData, nParity)
    requires KeySet(arrivals) <= s.requested.Keys
    ensures Forget(Arrive(s, arrivals, wire))
            == Assembled(s, KeySet(arrivals), wire, nData, nParity)
  {
    if arrivals == [] {
      assert KeySet(arrivals) == {};
    } else {
      var front, k := arrivals[..|arrivals| - 1], arrivals[|arrivals| - 1];
      assert arrivals == front + [k];
      assert KeySet(arrivals) == KeySet(front) + {k};
      AssemblyIsOrderIndependent(s, front, wire, nData, nParity);
      var mid := Arrive(s, front, wire);
      ArrivalStep(s, KeySet(front), k, wire, nData, nParity, mid.info.hasOriginal);
    }
  }

  lemma {:induction false} RequestsLeaveAssembly(s: SlotState, interests: seq<Interest>)
    requires !s.state.Ready? && !s.state.Locked?
    ensures var (t, ok) := AddInterests(s, interests);
      && t.fetched == s.fetched
      && t.info.(headKey := DataSeg(0)) == s.info.(headKey := DataSeg(0))
      && (interests != [] && ok ==> t.name.Some? && t.state == (if s.state.Free? then New else s.state))
    decreases |interests|
  {
    if interests != [] && AddInterest(s, interests[0]).Some? {
      RequestsLeaveAssembly(AddInterest(s, interests[0]).value, interests[1..]);
    }
  }

  /** A pool slot that took a batch of requests is a slot in which nothing has arrived yet. */
  lemma FreshSlot(interests: seq<Interest>, wire: SegKey -> WireSegment, nData: nat, nParity: nat)
    requires interests != [] && nData > 0 && AddInterests(CLEARED, interests).1
    ensures var s := AddInterests(CLEARED, interests).0;
      s.name.Some? && Forget(s) == Assembled(s, {}, wire, nData, nParity)
  {
    RequestsLeaveAssembly(CLEARED, interests);
    assert DataKeys({}) == {} && ParityKeys({}) == {};
    assert (map k: SegKey | k in {} :: wire(k)) == map[];
  }

  /** Some data segment, and weights adding up to the number of data segments. */
  ghost predicate Enough(keys: set<SegKey>, nData: nat)
  {
    DataKeys(keys) != {} && 2 * |DataKeys(keys)| + |ParityKeys(keys)| >= 2 * nData
  }

  /**
   The slot is ready exactly when some data segment arrived and the weights add up to the data segments
   announced, which is when its assembled level has reached 1.
   */
  lemma ReadyIff(s: SlotState, arrivals: seq<SegKey>, wire: SegKey -> WireSegment, nData: nat, nParity: nat)
    requires s.name.Some? && Agree(wire, s.name.value, nData, nParity)
    requires Forget(s) == Assembled(s, {}, wire, nData, nParity)
    requires KeySet(arrivals) <= s.requested.Keys
    ensures var t := Arrive(s, arrivals, wire);
      && (t.state.Ready? <==> Enough(KeySet(arrivals), nData))
      && (t.state.Ready? <==> t.info.segmentMeta && t.Level() >= 1.0)
      && (t.state.New? <==> DataKeys(KeySet(arrivals)) == {})
  {
    AssemblyIsOrderIndependent(s, arrivals, wire, nData, nParity);
    assert Arrive(s, arrivals, wire).fetched.Keys == KeySet(arrivals);
    ShareAtLeastOne(Weight(KeySet(arrivals)), nData);
  }

  /** More arrivals, in any order, never take a slot out of `Ready`. */
  lemma ReadyIsKept(s: SlotState, some: seq<SegKey>, more: seq<SegKey>, wire: SegKey -> WireSegment,
                    nData: nat, nParity: nat)
    requires s.name.Some? && Agree(wire, s.name.value, nData, nParity)
    requires Forget(s) == Assembled(s, {}, wire, nData, nParity)
    requires KeySet(some) <= KeySet(more) <= s.requested.Keys
    requires Arrive(s, some, wire).state.Ready?
    ensures Arrive(s, more, wire).state.Ready?
  {
    ReadyIff(s, some, wire, nData, nParity);
    ReadyIff(s, more, wire, nData, nParity);
    EnoughIsMonotone(KeySet(some), KeySet(more), nData);
  }

  lemma EnoughIsMonotone(a: set<SegKey>, b: set<SegKey>, nData: nat)
    requires a <= b && Enough(a, nData)
    ensures Enough(b, nData)
  {
    assert DataKeys(a) <= DataKeys(b) && ParityKeys(a) <= ParityKeys(b);
    SubsetSize(DataKeys(a), DataKeys(b));
    SubsetSize(ParityKeys(a), ParityKeys(b));
  }

  lemma SubsetSize<T>(a: set<T>, b: set<T>)
    requires a <= b
    ensures |a| <= |b|
  {
    assert b == a + (b - a);
  }

  // ---------- missing segments ----------

  /** The segments below the given numbers that have not been requested, data first. */
  function Unrequested(requested: map<SegKey, nat>, nData: nat, nParity: nat): (r: seq<SegKey>)
    ensures forall k :: k in r <==> k !in requested && k.no < (if k.DataSeg? then nData else nParity)
    ensures forall i, j | 0 <= i < j < |r| :: r[i] != r[j]
    decreases nData + nParity
  {
    if nParity > 0 then
      Unrequested(requested, nData, nParity - 1)
      + (if ParitySeg(nParity - 1) in requested then [] else [ParitySeg(nParity - 1)])
    else if nData > 0 then
      Unrequested(requested, nData - 1, 0)
      + (if DataSeg(nData - 1) in requested then [] else [DataSeg(nData - 1)])
    else []
  }

  function Missing(s: SlotState): seq<SegKey>
  {
    if s.fetched == map[] then [] else Unrequested(s.requested, s.info.nDataSegments, s.info.nParitySegments)
  }

  /**
   Nothing is missing exactly when nothing has arrived or every announced segment is requested; and
   requesting what is reported missing, nothing less, brings that about.
   */
  lemma MissingIsExact(s: SlotState, t: SlotState)
    requires s.fetched != map[] && t == s.(requested := t.requested) && s.requested.Keys <= t.requested.Keys
    ensures Missing(t) == [] <==> forall k :: k in Missing(s) ==> k in t.requested
    ensures Missing(t) == [] <==>
            && (forall i | 0 <= i < s.info.nDataSegments :: DataSeg(i) in t.requested)
            && (forall i | 0 <= i < s.info.nParitySegments :: ParitySeg(i) in t.requested)
  {
    var nData, nParity := s.info.nDataSegments, s.info.nParitySegments;
    if Missing(t) == [] {
      assert forall i | 0 <= i < nData :: DataSeg(i) !in Missing(t);
      assert forall i | 0 <= i < nParity :: ParitySeg(i) !in Missing(t);
    } else {
      var k := Missing(t)[0];
      assert k in Missing(t);
      assert k == if k.DataSeg? then DataSeg(k.no) else ParitySeg(k.no);
    }
  }

  // ---------- the slot object ----------

  /** The mutable slot. Its fields are the components of `s`, and the level computed from them. */
  class BufferSlot {
    var s: SlotState
    var asmLevel: real

    constructor ()
      ensures s == CLEARED
    {
      s := CLEARED;
      asmLevel := 0.0;
    }

    method Clear()
      modifies this
      ensures s == CLEARED
    {
      s := CLEARED;
      asmLevel := 0.0;
    }

    /** `ok` is false where the source throws; Interests in front of the offending one stay added. */
    method SegmentsRequested(interests: seq<Interest>) returns (ok: bool)
      modifies `s
      ensures (s, ok) == Request(old(s), interests)
    {
      if s.state == Ready || s.state == Locked {
        return false;
      }
      for n := 0 to |interests|
        invariant AddInterests(old(s), interests) == AddInterests(s, interests[n..])
      {
        ghost var was := s;
        var i := interests[n];
        assert interests[n..][1..] == interests[n + 1..];
        if i.seg.None? {
          return false;
        }
        var key := i.seg.value;
        if s.name.None? {
          s := s.(info := s.info.(headKey := key), name := Some(i.sample));
        } else if s.name.value != i.sample {
          return false;
        }
        if key in s.requested {
          s := s.(nRtx := s.nRtx + 1, requested := s.requested[key := s.requested[key] + 1]);
        } else {
          s := s.(requested := s.requested[key := 1]);
        }
        if s.state == Free {
          s := s.(state := New);
        }
        assert AddInterest(was, i) == Some(s);
      }
      return true;
    }

    method SegmentReceived(seg: WireSegment) returns (r: Reception)
      modifies this
      ensures (s, r) == Receive(old(s), seg)
      ensures if r.Accepted? && seg.seg !in old(s).fetched && s.info.segmentMeta
              then asmLevel == s.Level()
              else asmLevel == old(asmLevel)
    {
      if s.state == Locked {
        return Ignored;
      }
      if s.name != Some(seg.sample) || seg.seg !in s.requested {
        return Refused;
      }
      if seg.seg !in s.fetched {
        s := s.(fetched := s.fetched[seg.seg := seg]);
        UpdateConsistencyState(seg);
      }
      return Accepted;
    }

    method UpdateConsistencyState(seg: WireSegment)
      modifies this
      ensures s == UpdateConsistency(old(s), seg)
      ensures if s.info.segmentMeta then asmLevel == s.Level() else asmLevel == old(asmLevel)
    {
      ObserveSegment(seg);
      if s.info.segmentMeta {
        asmLevel := AssembledLevel();
        s := s.(state := if s.info.halves >= 2 * s.info.nDataSegments then Ready else Assembling);
      }
    }

    /** The part of `updateConsistencyState` that collects metadata and weight. */
    method ObserveSegment(seg: WireSegment)
      modifies `s
      ensures s == old(s).(info := Observe(old(s).info, old(s).state, seg))
    {
      var a: AssemblyRecord := s.info;
      if s.state == New {
        a := a.(headKey := if seg.seg.DataSeg? then DataSeg(0) else ParitySeg(0));
      }
      if seg.seg.DataSeg? {
        a := a.(segmentMeta := true, nDataSegments := seg.SlicesNum());
        if seg.seg.no == 0 {
          a := a.(headerMeta := true);
        }
      } else {
        a := a.(nParitySegments := seg.SlicesNum());
      }
      s := s.(info := a.(hasOriginal := seg.original, halves := a.halves + Halves(seg.seg)));
    }

    /** `updateAssembledLevel`: sums the shares of the fetched segments, in whatever order they come. */
    method AssembledLevel() returns (level: real)
      requires s.info.nDataSegments > 0
      ensures level == s.Level()
    {
      level := 0.0;
      var nData := s.info.nDataSegments;
      var todo := s.fetched.Keys;
      ghost var done: set<SegKey> := {};
      assert DataKeys({}) == {} && ParityKeys({}) == {};
      while todo != {}
        invariant done !! todo && done + todo == s.fetched.Keys
        invariant level == Share(Weight(done), nData)
        decreases todo
      {
        var k :| k in todo;
        LevelStep(done, k, nData);
        level := level + (if k.ParitySeg? then 0.5 / nData as real else 1.0 / nData as real);
        done, todo := done + {k}, todo - {k};
      }
      assert done == s.fetched.Keys;
    }

    method GetMissingSegments() returns (missing: seq<SegKey>)
      ensures missing == Missing(s)
    {
      missing := [];
      if |s.fetched| == 0 {
        return;
      }
      for segNo := 0 to s.info.nDataSegments
        invariant missing == Unrequested(s.requested, segNo, 0)
      {
        if DataSeg(segNo) !in s.requested {
          missing := missing + [DataSeg(segNo)];
        }
      }
      for segNo := 0 to s.info.nParitySegments
        invariant missing == Unrequested(s.requested, s.info.nDataSegments, segNo)
      {
        if ParitySeg(segNo) !in s.requested {
          missing := missing + [ParitySeg(segNo)];
        }
      }
    }

    /** `ok` is false where the source throws. */
    method ToggleLock() returns (ok: bool)
      modifies `s
      ensures match Toggled(old(s))
              case None => !ok && s == old(s)
              case Some(t) => ok && s == t
    {
      if s.state == Locked {
        s := s.(state := Ready);
        return true;
      }
      if s.state != Ready {
        return false;
      }
      s := s.(state := Locked);
      return true;
    }

    /**
     The packet header, found under the key of segment 0. The guard of the source tests
     `!consistency_&HeaderMeta`, which is never true; what fails instead is the map lookup.
     */
    method GetHeader() returns (header: Option<CommonHeader>)
      ensures header == Header(s)
    {
      header := if s.info.headKey in s.fetched then Some(s.fetched[s.info.headKey].common) else None;
    }
  }
}
