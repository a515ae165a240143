/**
 From producer to consumer: a video frame packet is sliced and published, its segments arrive in any order
 and any number of times, and the slot's packet is read into a storage that may hold anything.
 */
module EndToEnd {
  import opened Bytes
  import opened NetworkData
  import opened Options
  import opened Slicing
  import opened VideoPacket
  import B = BufferSlots
  import R = ReadPacket
  import F = FrameBuffer
  import P = PlaybackQueues
  import C = Consumers

  /** What a consumer receives under the number of a published segment is that segment. */
  ghost predicate Files(wire: B.SegKey -> B.WireSegment, out: seq<Segment>)
  {
    forall i | 0 <= i < |out| ::
      && wire(B.DataSeg(out[i].no)).content == out[i].content
      && wire(B.DataSeg(out[i].no)).finalBlock == out[i].finalBlock
  }

  /** `wire` gives the data segments that publishing `data` produced, and parity segments that parse. */
  ghost predicate Carries(wire: B.SegKey -> B.WireSegment, data: bytes, n: nat, headers: nat -> bytes)
    requires n > 0
  {
    && (exists out: seq<Segment> :: Published(out, data, n, R.SEGMENT_HEADER_SIZE, headers) && Files(wire, out))
    && forall i: nat :: R.Opens(wire(B.ParitySeg(i)))
  }

  /** Only published data segments arrived, and all of them. */
  ghost predicate AllDataArrived(arrivals: seq<B.SegKey>, n: nat)
  {
    forall i: nat :: B.DataSeg(i) in arrivals <==> i < n
  }

  /** Under the numbers of the pieces there are segments that open to them and announce how many there are. */
  ghost predicate Offers(wire: B.SegKey -> B.WireSegment, pieces: seq<bytes>)
  {
    && (forall i: nat | i < |pieces| ::
          && R.Opens(wire(B.DataSeg(i))) && R.Payload(wire(B.DataSeg(i))) == pieces[i]
          && wire(B.DataSeg(i)).SlicesNum() == |pieces|)
    && forall i: nat :: R.Opens(wire(B.ParitySeg(i)))
  }

  lemma CarriesOffers(wire: B.SegKey -> B.WireSegment, data: bytes, n: nat, headers: nat -> bytes)
    requires n > 0 && Carries(wire, data, n, headers)
    ensures Offers(wire, Chunks(data, n))
  {
    var out: seq<Segment> :| Published(out, data, n, R.SEGMENT_HEADER_SIZE, headers) && Files(wire, out);
    forall i: nat | i < |out|
      ensures R.Opens(wire(B.DataSeg(i))) && R.Payload(wire(B.DataSeg(i))) == Chunks(data, n)[i]
      ensures wire(B.DataSeg(i)).SlicesNum() == |out|
    {
      assert out[i].no == i;
      OpenSegment(headers(i), Chunks(data, n)[i]);
    }
  }

  /** Complete data, laid out: the published bytes, and behind them whatever the storage held. */
  lemma EvenLayout(storage: bytes, payloads: map<nat, bytes>, size: nat, count: nat, total: nat)
    requires 0 < count <= total && |R.Piece(payloads, count - 1, size)| <= size
    requires forall i | 0 <= i < count - 1 :: |R.Piece(payloads, i, size)| == size
    ensures var r := R.LaidOut(storage, payloads, size, count, total);
      Flatten(R.Pieces(payloads, count, size)) <= r && |r| == R.Offset(size, count)
  {
    R.OffsetMonotone(size, count, total);
    EvenRoom(Resize(storage, R.Offset(size, total)), payloads, size, count);
  }

  lemma EvenRoom(room: bytes, payloads: map<nat, bytes>, size: nat, count: nat)
    requires count > 0 && |R.Piece(payloads, count - 1, size)| <= size && R.Offset(size, count) <= |room|
    requires forall i | 0 <= i < count - 1 :: |R.Piece(payloads, i, size)| == size
    ensures Flatten(R.Pieces(payloads, count, size))
            <= Resize(R.InsertAll(room, size, payloads, count), R.Offset(size, count))
  {
    R.EvenPiecesLineUp(room, size, payloads, count);
    CutBehind(Flatten(R.Pieces(payloads, count, size)), room, R.Offset(size, count));
  }

  lemma CutBehind(front: bytes, room: bytes, k: nat)
    requires |front| <= k <= |room|
    ensures front <= Resize(front + room, k) && |Resize(front + room, k)| == k
  {
  }

  /** The same for any parts of which all but the last are as long as the first, and the last no longer. */
  lemma LayoutOfParts(storage: bytes, payloads: map<nat, bytes>, parts: seq<bytes>, total: nat)
    requires 0 < |parts| <= total && |parts[|parts| - 1]| <= |parts[0]|
    requires forall i | 0 <= i < |parts| - 1 :: |parts[i]| == |parts[0]|
    requires forall i | 0 <= i < |parts| :: i in payloads && payloads[i] == parts[i]
    ensures Flatten(parts) <= R.LaidOut(storage, payloads, |parts[0]|, |parts|, total)
  {
    EvenLayout(storage, payloads, |parts[0]|, |parts|, total);
    assert R.Pieces(payloads, |parts|, |parts[0]|) == parts;
  }

  /** With all parts of a packet as payloads, `readPacket` lays them out. */
  lemma ReadsParts(fetched: map<B.SegKey, B.WireSegment>, payloads: map<nat, bytes>, parts: seq<bytes>, storage: bytes)
    requires 0 < |parts| && |parts[|parts| - 1]| <= |parts[0]|
    requires forall i | 0 <= i < |parts| - 1 :: |parts[i]| == |parts[0]|
    requires forall i: nat :: i in payloads <==> i < |parts|
    requires forall i | 0 <= i < |parts| :: payloads[i] == parts[i]
    requires payloads.Keys == R.DataNumbers(fetched)
    requires forall i: nat | B.DataSeg(i) in fetched :: fetched[B.DataSeg(i)].SlicesNum() == |parts|
    ensures var r := R.ReadSpec(fetched, payloads, storage); r.Complete? && Flatten(parts) <= r.data
  {
    PlanForParts(fetched, payloads, parts);
    var total := |parts| + R.ExpectedParity(fetched);
    LayoutOfParts(storage, payloads, parts, total);
    ReadsLaidOut(fetched, payloads, storage, |parts[0]|, |parts|, total, Flatten(parts));
  }

  lemma ReadsLaidOut(fetched: map<B.SegKey, B.WireSegment>, payloads: map<nat, bytes>, storage: bytes,
                     size: nat, n: nat, total: nat, front: bytes)
    requires payloads.Keys == R.DataNumbers(fetched) && R.PlanFor(fetched, payloads) == R.LayOut(size, n, total)
    requires n <= total && front <= R.LaidOut(storage, payloads, size, n, total)
    ensures var r := R.ReadSpec(fetched, payloads, storage); r.Complete? && front <= r.data
  {
  }

  lemma PlanForParts(fetched: map<B.SegKey, B.WireSegment>, payloads: map<nat, bytes>, parts: seq<bytes>)
    requires 0 < |parts|
    requires forall i: nat :: i in payloads <==> i < |parts|
    requires forall i | 0 <= i < |parts| :: payloads[i] == parts[i]
    requires payloads.Keys == R.DataNumbers(fetched)
    requires forall i: nat | B.DataSeg(i) in fetched :: fetched[B.DataSeg(i)].SlicesNum() == |parts|
    ensures R.PlanFor(fetched, payloads)
            == R.LayOut(|parts[0]|, |parts|, |parts| + R.ExpectedParity(fetched))
  {
    assert payloads.Keys == R.Below(|parts|);
    assert 0 in payloads && R.First(payloads.Keys) == 0;
    assert R.Expected(fetched) == |parts|;
  }

  /** All pieces but the last are as long as the first, and the last is no longer. */
  ghost predicate Even(pieces: seq<bytes>)
  {
    && pieces != [] && |pieces[|pieces| - 1]| <= |pieces[0]|
    && forall i | 0 <= i < |pieces| - 1 :: |pieces[i]| == |pieces[0]|
  }

  lemma EvenChunks(wire: B.SegKey -> B.WireSegment, data: bytes, n: nat, headers: nat -> bytes)
    requires n > 0 && Carries(wire, data, n, headers)
    ensures Offers(wire, Chunks(data, n)) && Even(Chunks(data, n)) && Flatten(Chunks(data, n)) == data
  {
    CarriesOffers(wire, data, n, headers);
    ChunksPartition(data, n);
  }

  /** Segments from `wire`, of the first `count` data segments and of parity. */
  ghost predicate From(fetched: map<B.SegKey, B.WireSegment>, wire: B.SegKey -> B.WireSegment, count: nat)
  {
    forall k | k in fetched :: fetched[k] == wire(k) && (k.DataSeg? ==> k.no < count)
  }

  /** What the slot holds once all data segments have arrived makes `readPacket` lay out the pieces. */
  lemma ReadsPieces(fetched: map<B.SegKey, B.WireSegment>, wire: B.SegKey -> B.WireSegment, storage: bytes,
                    pieces: seq<bytes>)
    requires Offers(wire, pieces) && Even(pieces) && From(fetched, wire, |pieces|)
    requires forall i: nat | i < |pieces| :: B.DataSeg(i) in fetched
    ensures R.AllOpen(fetched) && R.DataPayloads(fetched).Keys == R.DataNumbers(fetched)
    ensures var r := R.ReadSpec(fetched, R.DataPayloads(fetched), storage);
      r.Complete? && Flatten(pieces) <= r.data
  {
    SegmentsOpen(fetched, wire, pieces);
    forall i: nat ensures B.DataSeg(i) in fetched <==> i < |pieces| {
      assert B.DataSeg(i) in fetched ==> B.DataSeg(i).no < |pieces|;
    }
    NumbersFrom(fetched, |pieces|);
    PayloadsInside(fetched, wire, pieces);
    ReadsParts(fetched, R.DataPayloads(fetched), pieces, storage);
  }

  lemma PayloadsInside(fetched: map<B.SegKey, B.WireSegment>, wire: B.SegKey -> B.WireSegment, pieces: seq<bytes>)
    requires Offers(wire, pieces) && From(fetched, wire, |pieces|) && R.AllOpen(fetched)
    requires forall i: nat | i < |pieces| :: B.DataSeg(i) in fetched
    ensures forall i: nat | i < |pieces| :: i in R.DataPayloads(fetched) && R.DataPayloads(fetched)[i] == pieces[i]
    ensures forall i: nat | B.DataSeg(i) in fetched :: fetched[B.DataSeg(i)].SlicesNum() == |pieces|
  {
    forall i: nat | B.DataSeg(i) in fetched ensures fetched[B.DataSeg(i)].SlicesNum() == |pieces| {
      assert B.DataSeg(i).no < |pieces|;
    }
    forall i: nat | i < |pieces| ensures i in R.DataNumbers(fetched) {
      assert B.DataSeg(i) in fetched && B.DataSeg(i).no == i;
    }
  }

  lemma SegmentsOpen(fetched: map<B.SegKey, B.WireSegment>, wire: B.SegKey -> B.WireSegment, pieces: seq<bytes>)
    requires Offers(wire, pieces) && From(fetched, wire, |pieces|)
    ensures R.AllOpen(fetched) && R.DataPayloads(fetched).Keys == R.DataNumbers(fetched)
  {
    forall k | k in fetched ensures R.Opens(fetched[k]) {
      if k.DataSeg? {
        assert k == B.DataSeg(k.no);
      } else {
        assert k == B.ParitySeg(k.no);
      }
    }
  }

  lemma NumbersFrom(fetched: map<B.SegKey, B.WireSegment>, count: nat)
    requires forall i: nat :: B.DataSeg(i) in fetched <==> i < count
    ensures forall i: nat :: i in R.DataNumbers(fetched) <==> i < count
  {
    forall i: nat ensures i in R.DataNumbers(fetched) <==> i < count {
      assert B.DataSeg(i) in fetched <==> i < count;
    }
  }

  function PacketBytes(frameHeader: bytes, list: seq<SyncEntry>, common: bytes, frame: bytes): bytes
    requires Publishable(frameHeader, list, common, frame)
  {
    PacketEncodable(frameHeader, list, common, frame);
    Encode(PacketBlobs(frameHeader, list, common), frame)
  }

  /** A reader of the bytes finds this common header, sync list and frame. */
  ghost predicate Shows(data: bytes, list: seq<SyncEntry>, common: bytes, frame: bytes)
  {
    var p := OpenHeaderPacket(data, COMMON_HEADER_SIZE);
    && p.Some?
    && p.value.Header() == common
    && ReadSync(p.value.blobs, 1, map[]) == MapOf(list, map[])
    && FrameOf(p.value) == Some(frame)
  }

  lemma ShowsPublished(frameHeader: bytes, list: seq<SyncEntry>, common: bytes, frame: bytes, more: bytes)
    requires Publishable(frameHeader, list, common, frame)
    ensures Shows(PacketBytes(frameHeader, list, common, frame) + more, list, common, frame)
  {
    VideoRoundTrip(frameHeader, list, common, frame, more);
  }

  /**
   A published video packet survives the network. Whatever the order of arrival, with repeats and parity in
   between, and whatever the reused storage held, the packet that is read shows the published common header,
   sync list and frame.
   */
  lemma PublishedPacketIsRead(
    frameHeader: bytes, list: seq<SyncEntry>, common: bytes, frame: bytes, wireLength: nat,
    headers: nat -> bytes, wire: B.SegKey -> B.WireSegment, nParity: nat,
    slot: B.SlotState, arrivals: seq<B.SegKey>, storage: bytes)
    requires Publishable(frameHeader, list, common, frame)
    requires PayloadLength(wireLength, R.SEGMENT_HEADER_SIZE) > 0
    requires var data := PacketBytes(frameHeader, list, common, frame);
      var n := PayloadLength(wireLength, R.SEGMENT_HEADER_SIZE);
      && Carries(wire, data, n, headers)
      && slot.name.Some? && B.Agree(wire, slot.name.value, |Chunks(data, n)|, nParity)
      && B.Forget(slot) == B.Assembled(slot, {}, wire, |Chunks(data, n)|, nParity)
      && AllDataArrived(arrivals, |Chunks(data, n)|)
      && B.KeySet(arrivals) <= slot.requested.Keys
    ensures var fetched := B.Arrive(slot, arrivals, wire).fetched;
      && R.AllOpen(fetched) && R.DataPayloads(fetched).Keys == R.DataNumbers(fetched)
      && var r := R.ReadSpec(fetched, R.DataPayloads(fetched), storage);
      && r.Complete? && Shows(r.data, list, common, frame)
  {
    var data := PacketBytes(frameHeader, list, common, frame);
    var n := PayloadLength(wireLength, R.SEGMENT_HEADER_SIZE);
    B.AssemblyIsOrderIndependent(slot, arrivals, wire, |Chunks(data, n)|, nParity);
    var fetched := B.Arrive(slot, arrivals, wire).fetched;
    EvenChunks(wire, data, n, headers);
    ArrivedAll(fetched, wire, arrivals, |Chunks(data, n)|);
    ReadsPieces(fetched, wire, storage, Chunks(data, n));
    var r := R.ReadSpec(fetched, R.DataPayloads(fetched), storage);
    PrefixAndRest(data, r.data);
    ShowsPublished(frameHeader, list, common, frame, r.data[|data|..]);
  }

  lemma FullWhenAsMany(numbers: set<nat>, n: nat)
    requires numbers <= R.Below(n)
    ensures |numbers| >= n <==> forall i: nat | i < n :: i in numbers
  {
    B.SubsetSize(numbers, R.Below(n));
    if |numbers| >= n {
      assert R.Below(n) == numbers + (R.Below(n) - numbers);
      assert |R.Below(n) - numbers| == 0;
    }
    if forall i: nat | i < n :: i in numbers {
      B.SubsetSize(R.Below(n), numbers);
    }
  }

  lemma ExpectedOfGenuine(fetched: map<B.SegKey, B.WireSegment>, wire: B.SegKey -> B.WireSegment,
                          pieces: seq<bytes>)
    requires Offers(wire, pieces) && From(fetched, wire, |pieces|) && R.DataNumbers(fetched) != {}
    ensures R.Expected(fetched) == |pieces|
  {
    var first := R.First(R.DataNumbers(fetched));
    assert B.DataSeg(first) in fetched && B.DataSeg(first).no < |pieces|;
  }

  /**
   What `readPacket` answers for any published segments that are there: complete exactly when all data
   segments are, and begins with the data then; too little exactly when one is missing and there is either no
   data or no parity segment; anything else goes to the decoder.
   */
  lemma ReadsExactly(fetched: map<B.SegKey, B.WireSegment>, wire: B.SegKey -> B.WireSegment, storage: bytes,
                     pieces: seq<bytes>)
    requires Offers(wire, pieces) && Even(pieces) && From(fetched, wire, |pieces|)
    ensures R.AllOpen(fetched) && R.DataPayloads(fetched).Keys == R.DataNumbers(fetched)
    ensures var r := R.ReadSpec(fetched, R.DataPayloads(fetched), storage);
      var whole := forall i: nat | i < |pieces| :: B.DataSeg(i) in fetched;
      && (r.Complete? <==> whole)
      && (r.Complete? ==> Flatten(pieces) <= r.data)
      && (r.NotEnough? <==> !whole && (R.DataNumbers(fetched) == {} || R.ParityNumbers(fetched) == {}))
  {
    SegmentsOpen(fetched, wire, pieces);
    if R.DataNumbers(fetched) != {} {
      ExpectedOfGenuine(fetched, wire, pieces);
    }
    PlanExactly(fetched, R.DataPayloads(fetched), |pieces|);
    if forall i: nat | i < |pieces| :: B.DataSeg(i) in fetched {
      ReadsPieces(fetched, wire, storage, pieces);
    }
  }

  lemma PlanExactly(fetched: map<B.SegKey, B.WireSegment>, payloads: map<nat, bytes>, n: nat)
    requires n > 0 && payloads.Keys == R.DataNumbers(fetched)
    requires forall k | k in fetched && k.DataSeg? :: k.no < n
    requires R.DataNumbers(fetched) != {} ==> R.Expected(fetched) == n
    ensures var plan := R.PlanFor(fetched, payloads);
      var whole := forall i: nat | i < n :: B.DataSeg(i) in fetched;
      && (plan.LayOut? <==> whole)
      && (plan.GiveUp? <==> !whole && (R.DataNumbers(fetched) == {} || R.ParityNumbers(fetched) == {}))
  {
    AllHere(fetched, n);
    assert payloads == map[] <==> payloads.Keys == {};
    assert B.DataSeg(0) in fetched ==> 0 in R.DataNumbers(fetched);
  }

  /** All data segments are there exactly when there are as many as announced. */
  lemma AllHere(fetched: map<B.SegKey, B.WireSegment>, n: nat)
    requires forall k | k in fetched && k.DataSeg? :: k.no < n
    ensures |R.DataNumbers(fetched)| >= n <==> forall i: nat | i < n :: B.DataSeg(i) in fetched
  {
    forall i: nat ensures i in R.DataNumbers(fetched) <==> B.DataSeg(i) in fetched {
      assert B.DataSeg(i).no == i;
    }
    FullWhenAsMany(R.DataNumbers(fetched), n);
  }

  lemma ArrivedAll(fetched: map<B.SegKey, B.WireSegment>, wire: B.SegKey -> B.WireSegment,
                   arrivals: seq<B.SegKey>, n: nat)
    requires AllDataArrived(arrivals, n) && fetched.Keys == B.KeySet(arrivals)
    requires forall k | k in fetched :: fetched[k] == wire(k)
    ensures From(fetched, wire, n) && forall i: nat | i < n :: B.DataSeg(i) in fetched
  {
    forall k | k in fetched && k.DataSeg? ensures k.no < n {
      assert k == B.DataSeg(k.no) && k in arrivals;
    }
  }

  // ---------- over whole runs of the consumer, up to the pop ----------

  /** What arrives under the name of the sample is a published segment of it; `n` is the number of data segments. */
  ghost predicate FromProducer(e: C.Event, key: B.SampleKey, wire: B.SegKey -> B.WireSegment, n: nat)
  {
    e.Deliver? && e.seg.sample == key ==>
      e.seg == wire(e.seg.seg) && (e.seg.seg.DataSeg? ==> e.seg.seg.no < n)
  }

  ghost predicate AllFromProducer(es: seq<C.Event>, key: B.SampleKey, wire: B.SegKey -> B.WireSegment, n: nat)
  {
    forall i | 0 <= i < |es| :: FromProducer(es[i], key, wire, n)
  }

  /** The slot holds published segments only, and knows how many data segments there are. */
  ghost predicate Genuine(s: B.SlotState, wire: B.SegKey -> B.WireSegment, n: nat)
  {
    && From(s.fetched, wire, n)
    && (s.info.segmentMeta ==> s.info.nDataSegments == n)
  }

  ghost predicate GenuineIn(slots: map<B.SampleKey, B.SlotState>, key: B.SampleKey,
                            wire: B.SegKey -> B.WireSegment, n: nat)
  {
    key in slots ==> Genuine(slots[key], wire, n)
  }

  ghost predicate GenuineView(v: F.BufferView, key: B.SampleKey, wire: B.SegKey -> B.WireSegment, n: nat)
  {
    GenuineIn(v.active, key, wire, n) && GenuineIn(v.reserved, key, wire, n)
  }

  ghost predicate Announces(wire: B.SegKey -> B.WireSegment, n: nat)
  {
    forall i | 0 <= i < n :: wire(B.DataSeg(i)).SlicesNum() == n
  }

  lemma RequestStaysGenuine(s: B.SlotState, interests: seq<B.Interest>, wire: B.SegKey -> B.WireSegment, n: nat)
    requires Genuine(s, wire, n)
    ensures Genuine(B.Request(s, interests).0, wire, n)
  {
    if !s.state.Ready? && !s.state.Locked? {
      B.RequestsLeaveAssembly(s, interests);
    }
  }

  lemma ReceiveStaysGenuine(s: B.SlotState, seg: B.WireSegment, wire: B.SegKey -> B.WireSegment, n: nat)
    requires Genuine(s, wire, n) && Announces(wire, n)
    requires seg == wire(seg.seg) && (seg.seg.DataSeg? ==> seg.seg.no < n)
    ensures Genuine(B.Receive(s, seg).0, wire, n)
  {
    if seg.seg.DataSeg? {
      assert seg.seg == B.DataSeg(seg.seg.no);
    }
  }

  lemma RequestViewStaysGenuine(v: F.BufferView, name: B.SampleKey, interests: seq<B.Interest>,
                                key: B.SampleKey, wire: B.SegKey -> B.WireSegment, n: nat)
    requires GenuineView(v, key, wire, n)
    ensures GenuineView(F.RequestView(v, name, interests).0, key, wire, n)
  {
    if name == key {
      RequestStaysGenuine(if key in v.active then v.active[key] else B.CLEARED, interests, wire, n);
    }
  }

  lemma NewDataStaysGenuine(v: F.BufferView, q: P.QueueView, s: B.SlotState,
                            key: B.SampleKey, wire: B.SegKey -> B.WireSegment, n: nat)
    requires GenuineView(v, key, wire, n) && s.name.Some? && |q.names| == |q.times|
    ensures GenuineView(P.NewData(v, q, s).0, key, wire, n)
  {
  }

  lemma DeliverStaysGenuine(c: C.Consumer, seg: B.WireSegment,
                            key: B.SampleKey, wire: B.SegKey -> B.WireSegment, n: nat)
    requires |c.q.names| == |c.q.times| && GenuineView(c.v, key, wire, n) && Announces(wire, n)
    requires FromProducer(C.Deliver(seg), key, wire, n)
    ensures GenuineView(C.DeliverStep(c, seg).v, key, wire, n)
  {
    var (v, r) := F.ReceiveView(c.v, seg);
    if seg.sample == key && key in c.v.active {
      ReceiveStaysGenuine(c.v.active[key], seg, wire, n);
    }
    if r.Accepted? {
      var s := v.active[seg.sample];
      NewDataStaysGenuine(v, c.q, s, key, wire, n);
      RequestViewStaysGenuine(P.NewData(v, c.q, s).0, seg.sample, C.MissingInterests(seg.sample, s), key, wire, n);
    }
  }

  lemma StepStaysGenuine(c: C.Consumer, e: C.Event, key: B.SampleKey, wire: B.SegKey -> B.WireSegment, n: nat)
    requires |c.q.names| == |c.q.times| && GenuineView(c.v, key, wire, n) && Announces(wire, n)
    requires FromProducer(e, key, wire, n)
    ensures GenuineView(C.Step(c, e).v, key, wire, n)
  {
    match e
    case Issue(name, interests) => RequestViewStaysGenuine(c.v, name, interests, key, wire, n);
    case Again(name, interests) => RequestViewStaysGenuine(c.v, name, interests, key, wire, n);
    case Deliver(seg) => DeliverStaysGenuine(c, seg, key, wire, n);
    case Pop(period) =>
    case Restart =>
  }

  lemma {:induction false} RunStaysGenuine(c: C.Consumer, es: seq<C.Event>, capacity: nat,
                                           key: B.SampleKey, wire: B.SegKey -> B.WireSegment, n: nat)
    requires C.Inv(c, capacity) && C.Legal(c, es, capacity)
    requires GenuineView(c.v, key, wire, n) && Announces(wire, n) && AllFromProducer(es, key, wire, n)
    ensures GenuineView(C.Run(c, es, capacity).v, key, wire, n)
    decreases |es|
  {
    if es == [] {
    } else {
      assert FromProducer(es[0], key, wire, n);
      StepStaysGenuine(c, es[0], key, wire, n);
      C.StepKeepsInv(c, es[0], capacity);
      assert forall i | 0 <= i < |es| - 1 :: es[1..][i] == es[i + 1];
      RunStaysGenuine(C.Step(c, es[0]), es[1..], capacity, key, wire, n);
    }
  }

  /** Data segments are told apart by their numbers. */
  lemma {:induction false} NumbersOfKeys(keys: set<B.SegKey>, numbers: set<nat>)
    requires forall k | k in keys :: k.DataSeg? && k.no in numbers
    requires forall i | i in numbers :: B.DataSeg(i) in keys
    ensures |numbers| == |keys|
    decreases keys
  {
    if keys == {} {
      assert forall i | i in numbers :: B.DataSeg(i) in keys;
      assert numbers == {};
    } else {
      var k :| k in keys;
      assert k == B.DataSeg(k.no);
      NumbersOfKeys(keys - {k}, numbers - {k.no});
    }
  }

  /** A slot that was reserved has enough for `readPacket` to go on. */
  lemma ReservedHasEnough(s: B.SlotState, name: B.SampleKey, wire: B.SegKey -> B.WireSegment, n: nat)
    requires F.ReservedOk(name, s) && Genuine(s, wire, n)
    ensures R.DataNumbers(s.fetched) != {}
    ensures R.ParityNumbers(s.fetched) == {} ==> forall i: nat | i < n :: B.DataSeg(i) in s.fetched
  {
    var k :| k in B.DataKeys(s.fetched.Keys);
    assert k.no in R.DataNumbers(s.fetched);
    assert forall i | i in R.DataNumbers(s.fetched) :: B.DataSeg(i) in s.fetched;
    NumbersOfKeys(B.DataKeys(s.fetched.Keys), R.DataNumbers(s.fetched));
    if R.ParityNumbers(s.fetched) == {} {
      assert forall p | p in B.ParityKeys(s.fetched.Keys) :: p.no in R.ParityNumbers(s.fetched);
      assert B.ParityKeys(s.fetched.Keys) == {};
      AllHere(s.fetched, n);
    }
  }

  /** What `readPacket` answers for the segments of a reserved slot, whichever they are. */
  ghost predicate ReadsIfWhole(fetched: map<B.SegKey, B.WireSegment>, storage: bytes, data: bytes, n: nat)
  {
    && R.AllOpen(fetched) && R.DataPayloads(fetched).Keys == R.DataNumbers(fetched)
    && var r := R.ReadSpec(fetched, R.DataPayloads(fetched), storage);
    && !r.NotEnough?
    && (r.Complete? <==> forall i: nat | i < n :: B.DataSeg(i) in fetched)
    && (r.Complete? ==> data <= r.data)
  }

  lemma ReservedIsRead(s: B.SlotState, name: B.SampleKey, wire: B.SegKey -> B.WireSegment, storage: bytes,
                       pieces: seq<bytes>)
    requires Offers(wire, pieces) && Even(pieces)
    requires F.ReservedOk(name, s) && Genuine(s, wire, |pieces|)
    ensures ReadsIfWhole(s.fetched, storage, Flatten(pieces), |pieces|)
  {
    ReadsExactly(s.fetched, wire, storage, pieces);
    ReservedHasEnough(s, name, wire, |pieces|);
  }

  /**
   From the publisher to the player, over any run of the consumer in which no request is late and what
   arrives under the name of the sample are segments of its packet: when the sample is popped, the slot
   never has too little, and is read without recovery exactly when all data segments are in it. What is read
   then shows the published common header, sync list and frame, whatever the storage held.
   */
  lemma PlayedPacketIsRead(
    frameHeader: bytes, list: seq<SyncEntry>, common: bytes, frame: bytes, wireLength: nat,
    headers: nat -> bytes, wire: B.SegKey -> B.WireSegment, key: B.SampleKey,
    c: C.Consumer, es: seq<C.Event>, capacity: nat, period: real, storage: bytes)
    requires Publishable(frameHeader, list, common, frame)
    requires var n := PayloadLength(wireLength, R.SEGMENT_HEADER_SIZE);
      var data := PacketBytes(frameHeader, list, common, frame);
      && n > 0 && Carries(wire, data, n, headers)
      && AllFromProducer(es, key, wire, |Chunks(data, n)|)
    requires C.Inv(c, capacity) && C.Legal(c, es, capacity) && key !in c.v.active && key !in c.v.reserved
    requires var r := C.Run(c, es, capacity);
      var p := P.PopSpec(r.v, r.q, period).2;
      p.Popped? && p.name == key
    ensures var n := PayloadLength(wireLength, R.SEGMENT_HEADER_SIZE);
      var data := PacketBytes(frameHeader, list, common, frame);
      var v := C.Run(c, es, capacity).v;
      && key in v.reserved
      && var fetched := v.reserved[key].fetched;
      && R.AllOpen(fetched) && R.DataPayloads(fetched).Keys == R.DataNumbers(fetched)
      && var r := R.ReadSpec(fetched, R.DataPayloads(fetched), storage);
      && !r.NotEnough?
      && (r.Complete? <==> forall i: nat | i < |Chunks(data, n)| :: B.DataSeg(i) in fetched)
      && (r.Complete? ==> Shows(r.data, list, common, frame))
  {
    var n := PayloadLength(wireLength, R.SEGMENT_HEADER_SIZE);
    var data := PacketBytes(frameHeader, list, common, frame);
    EvenChunks(wire, data, n, headers);
    RunStaysGenuine(c, es, capacity, key, wire, |Chunks(data, n)|);
    var end := C.Run(c, es, capacity);
    assert P.Queued(end.v.reserved, end.q.names[0], end.q.times[0]);
    ReservedIsRead(end.v.reserved[key], key, wire, storage, Chunks(data, n));
    var fetched := end.v.reserved[key].fetched;
    var r := R.ReadSpec(fetched, R.DataPayloads(fetched), storage);
    if r.Complete? {
      PrefixAndRest(data, r.data);
      ShowsPublished(frameHeader, list, common, frame, r.data[|data|..]);
    }
  }
}
