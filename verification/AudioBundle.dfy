/**
 Audio bundles: samples packed into one packet of a given wire length, and the audio thread that fills bundle
 after bundle. A sample is a one-byte header and its payload.
 */
module AudioBundles {
  import opened Bytes
  import opened NetworkData
  import Slicing

  const COMMON_HEADER_SIZE := 24
  const SAMPLE_HEADER_SIZE := 1

  /** A sample as it lies in the bundle, header first. */
  type Sample = s: bytes | 0 < |s| < MAX_BLOB_LENGTH witness [0]

  /** Space for samples once the counter and the packet header are taken off. */
  function Capacity(wireLength: nat): nat
  {
    Slicing.PayloadLength(wireLength, COMMON_HEADER_SIZE)
  }

  function Cost(s: Sample): nat
  {
    BlobWireLength(|s|)
  }

  function Used(samples: seq<Sample>): nat
  {
    if samples == [] then 0 else Used(samples[..|samples| - 1]) + Cost(samples[|samples| - 1])
  }

  datatype Bundle = Bundle(samples: seq<Sample>, remaining: nat)

  predicate HasSpace(b: Bundle, s: Sample)
  {
    b.remaining - Cost(s) >= 0
  }

  function Added(b: Bundle, s: Sample): Bundle
    requires HasSpace(b, s)
  {
    Bundle(b.samples + [s], b.remaining - Cost(s))
  }

  function Cleared(wireLength: nat): Bundle
  {
    Bundle([], Capacity(wireLength))
  }

  ghost predicate Conserved(b: Bundle, wireLength: nat)
  {
    b.remaining + Used(b.samples) == Capacity(wireLength)
  }

  lemma AddConserves(b: Bundle, s: Sample, wireLength: nat)
    requires Conserved(b, wireLength) && HasSpace(b, s)
    ensures Conserved(Added(b, s), wireLength)
  {
    var samples := b.samples + [s];
    assert samples[..|samples| - 1] == b.samples && samples[|samples| - 1] == s;
  }

  // ---------- size of the finished packet ----------

  lemma {:induction false} UsedIsHeaderArea(samples: seq<Sample>)
    ensures SumBlobLengths(Lengths(samples)) == Used(samples)
    decreases |samples|
  {
    if samples == [] {
    } else {
      var front, last := samples[..|samples| - 1], samples[|samples| - 1];
      UsedIsHeaderArea(front);
      SumAppend(Lengths(front), |last|);
      assert Lengths(samples) == Lengths(front) + [|last|];
    }
  }

  lemma {:induction false} SumAppend(lengths: seq<nat>, n: nat)
    ensures SumBlobLengths(lengths + [n]) == SumBlobLengths(lengths) + BlobWireLength(n)
    decreases |lengths|
  {
    if lengths == [] {
      assert lengths + [n] == [n] && [n][1..] == [];
    } else {
      SumAppend(lengths[1..], n);
      assert (lengths + [n])[1..] == lengths[1..] + [n];
    }
  }

  /** The length of the packet once its header is set. */
  function FinishedLength(samples: seq<Sample>): nat
  {
    WireLength(0, Lengths(samples) + [COMMON_HEADER_SIZE])
  }

  /** A bundle with its header keeps to the wire length exactly when that has room for the header. */
  lemma FinishedWithinWireLength(b: Bundle, wireLength: nat)
    requires Conserved(b, wireLength)
    ensures FinishedLength(b.samples) <= wireLength <==> wireLength >= 1 + BlobWireLength(COMMON_HEADER_SIZE)
    ensures wireLength >= 1 + BlobWireLength(COMMON_HEADER_SIZE) ==>
              FinishedLength(b.samples) == wireLength - b.remaining
  {
    UsedIsHeaderArea(b.samples);
    SumAppend(Lengths(b.samples), COMMON_HEADER_SIZE);
  }

  /** `wireLength(wireLength, sampleSize)`: what a bundle full of samples with `sampleSize` bytes of payload takes. */
  function PredictedLength(wireLength: nat, sampleSize: nat): nat
  {
    var sample := sampleSize + SAMPLE_HEADER_SIZE;
    WireLength(0, seq(Capacity(wireLength) / BlobWireLength(sample), _ => sample) + [COMMON_HEADER_SIZE])
  }

  /** Samples of one size are accepted until as many are in as divide the capacity. */
  function Filled(b: Bundle, samples: seq<Sample>): Bundle
    decreases |samples|
  {
    if samples == [] || !HasSpace(b, samples[0]) then b else Filled(Added(b, samples[0]), samples[1..])
  }

  ghost predicate AllOfSize(samples: seq<Sample>, size: nat)
  {
    forall i | 0 <= i < |samples| :: |samples[i]| == size
  }

  lemma {:induction false} FilledTakes(b: Bundle, samples: seq<Sample>, size: nat, count: nat, rest: nat)
    requires AllOfSize(samples, size) && |samples| > count
    requires b.remaining == count * BlobWireLength(size) + rest && rest < BlobWireLength(size)
    ensures Filled(b, samples).samples == b.samples + samples[..count]
    decreases count
  {
    if count == 0 {
      assert b.samples + samples[..0] == b.samples;
    } else {
      assert count * BlobWireLength(size) == (count - 1) * BlobWireLength(size) + BlobWireLength(size);
      assert (count - 1) * BlobWireLength(size) >= 0;
      FilledTakes(Added(b, samples[0]), samples[1..], size, count - 1, rest);
      assert b.samples + [samples[0]] + samples[1..][..count - 1] == b.samples + samples[..count];
    }
  }

  /** Equal samples fill a bundle to exactly the count and the length that `wireLength` predicts. */
  lemma EqualSamplesFill(wireLength: nat, sampleSize: nat, samples: seq<Sample>)
    requires AllOfSize(samples, sampleSize + SAMPLE_HEADER_SIZE)
    requires |samples| > Capacity(wireLength) / BlobWireLength(sampleSize + SAMPLE_HEADER_SIZE)
    ensures var b := Filled(Cleared(wireLength), samples);
      && |b.samples| == Capacity(wireLength) / BlobWireLength(sampleSize + SAMPLE_HEADER_SIZE)
      && FinishedLength(b.samples) == PredictedLength(wireLength, sampleSize)
  {
    var size := sampleSize + SAMPLE_HEADER_SIZE;
    var count := Capacity(wireLength) / BlobWireLength(size);
    FilledTakes(Cleared(wireLength), samples, size, count, Capacity(wireLength) % BlobWireLength(size));
    var b := Filled(Cleared(wireLength), samples);
    assert [] + samples[..count] == samples[..count];
    assert Lengths(b.samples) == seq(count, _ => size);
  }

  // ---------- the bundle object ----------

  class AudioBundlePacket {
    const packet: DataPacket
    const wireLength: nat
    var remainingSpace: nat

    /** The samples in the packet, read from its bytes; meaningful for up to 255 of them. */
    ghost var samples: seq<Sample>

    /** While the counter has not run over, the packet is the encoding of the samples. */
    ghost predicate Valid()
      reads this, packet
    {
      && packet.Coherent()
      && Conserved(Bundle(samples, remainingSpace), wireLength)
      && (|samples| <= 255 ==> packet.Blobs() == samples && packet.Payload() == [])
    }

    constructor (wireLength: nat)
      ensures Valid() && samples == [] && remainingSpace == Capacity(wireLength) && this.wireLength == wireLength
      ensures fresh(packet)
    {
      this.wireLength := wireLength;
      packet := new DataPacket([]);
      remainingSpace := Capacity(wireLength);
      samples := [];
    }

    method Clear()
      requires Valid()
      modifies this, packet
      ensures Valid() && Bundle(samples, remainingSpace) == Cleared(wireLength)
    {
      packet.Clear();
      remainingSpace := Capacity(wireLength);
      samples := [];
    }

    function HasSpaceFor(s: Sample): bool
      reads this
    {
      remainingSpace - Cost(s) >= 0
    }

    /** The part of `operator<<` that writes into the packet. */
    method Insert(s: Sample)
      requires packet.Coherent()
      modifies packet
      ensures packet.Coherent()
      ensures |old(packet.Blobs())| < 255 ==>
                packet.Blobs() == old(packet.Blobs()) + [s] && packet.Payload() == old(packet.Payload())
    {
      packet.DataIsEncoding();
      assert s[..|s|] == s;
      packet.AddBlob(s);
    }

    /**
     `operator<<`; `ok` is false where the source throws. Counter, length and bytes go in as in `addBlob`.
     */
    method Append(s: Sample) returns (ok: bool)
      requires Valid()
      modifies this, packet
      ensures Valid() && ok == HasSpace(Bundle(old(samples), old(remainingSpace)), s)
      ensures Bundle(samples, remainingSpace)
              == if ok then Added(Bundle(old(samples), old(remainingSpace)), s)
                 else Bundle(old(samples), old(remainingSpace))
    {
      ok := HasSpaceFor(s);
      if ok {
        AddConserves(Bundle(samples, remainingSpace), s, wireLength);
        Insert(s);
        remainingSpace := remainingSpace - Cost(s);
        samples := samples + [s];
      }
    }
  }

  // ---------- the audio thread ----------

  /** Bundles handed out so far, and the one being filled. */
  datatype Delivery = Delivery(out: seq<seq<Sample>>, current: Bundle)

  function Delivered(d: Delivery, s: Sample, wireLength: nat): (Delivery, bool)
  {
    var e := if HasSpace(d.current, s) then d else Delivery(d.out + [d.current.samples], Cleared(wireLength));
    if HasSpace(e.current, s) then (e.(current := Added(e.current, s)), true) else (e, false)
  }

  function Concat(bundles: seq<seq<Sample>>): seq<Sample>
  {
    if bundles == [] then [] else Concat(bundles[..|bundles| - 1]) + bundles[|bundles| - 1]
  }

  /** All samples handed out or held, in order. */
  function Held(d: Delivery): seq<Sample>
  {
    Concat(d.out) + d.current.samples
  }

  lemma HandedOutIsHeld(d: Delivery, wireLength: nat)
    ensures Held(Delivery(d.out + [d.current.samples], Cleared(wireLength))) == Held(d)
  {
    var out := d.out + [d.current.samples];
    assert out[..|out| - 1] == d.out && out[|out| - 1] == d.current.samples;
    assert Concat(out) + [] == Concat(out);
  }

  lemma AddedIsHeld(d: Delivery, s: Sample, wireLength: nat)
    requires Conserved(d.current, wireLength) && HasSpace(d.current, s)
    ensures Conserved(Added(d.current, s), wireLength)
    ensures Held(d.(current := Added(d.current, s))) == Held(d) + [s]
  {
    AddConserves(d.current, s, wireLength);
    Regroup(Concat(d.out), d.current.samples, [s]);
  }

  /** A delivered sample joins behind all earlier ones, and it is refused exactly when no empty bundle holds it. */
  lemma DeliverKeepsOrder(d: Delivery, s: Sample, wireLength: nat)
    requires Conserved(d.current, wireLength)
    ensures var (e, ok) := Delivered(d, s, wireLength);
      && Conserved(e.current, wireLength)
      && (ok <==> Cost(s) <= Capacity(wireLength))
      && Held(e) == if ok then Held(d) + [s] else Held(d)
  {
    if HasSpace(d.current, s) {
      AddedIsHeld(d, s, wireLength);
    } else {
      var next := Delivery(d.out + [d.current.samples], Cleared(wireLength));
      HandedOutIsHeld(d, wireLength);
      assert Used([]) == 0;
      if HasSpace(next.current, s) {
        AddedIsHeld(next, s, wireLength);
      }
    }
  }

  function DeliveredAll(d: Delivery, samples: seq<Sample>, wireLength: nat): Delivery
    decreases |samples|
  {
    if samples == [] then d else DeliveredAll(Delivered(d, samples[0], wireLength).0, samples[1..], wireLength)
  }

  function Fitting(samples: seq<Sample>, wireLength: nat): seq<Sample>
    decreases |samples|
  {
    if samples == [] then []
    else (if Cost(samples[0]) <= Capacity(wireLength) then [samples[0]] else []) + Fitting(samples[1..], wireLength)
  }

  /** Over any run the bundles handed out and the current one hold exactly the samples that fit, in order. */
  lemma {:induction false} NothingLostOrReordered(d: Delivery, samples: seq<Sample>, wireLength: nat)
    requires Conserved(d.current, wireLength)
    ensures Held(DeliveredAll(d, samples, wireLength)) == Held(d) + Fitting(samples, wireLength)
    ensures Conserved(DeliveredAll(d, samples, wireLength).current, wireLength)
    decreases |samples|
  {
    if samples == [] {
    } else {
      var e := Delivered(d, samples[0], wireLength).0;
      var joined := if Cost(samples[0]) <= Capacity(wireLength) then [samples[0]] else [];
      DeliverKeepsOrder(d, samples[0], wireLength);
      NothingLostOrReordered(e, samples[1..], wireLength);
      assert Held(e) == Held(d) + joined;
      Regroup(Held(d), joined, Fitting(samples[1..], wireLength));
    }
  }

  // ---------- bundles are filled before they go out ----------

  /** A bundle goes out exactly when the next sample does not fit into what is left of it. */
  lemma HandsOutExactly(d: Delivery, s: Sample, wireLength: nat)
    requires Conserved(d.current, wireLength)
    ensures var (e, ok) := Delivered(d, s, wireLength);
      if Used(d.current.samples) + Cost(s) <= Capacity(wireLength)
      then e.out == d.out && e.current.samples == d.current.samples + [s]
      else e.out == d.out + [d.current.samples] && e.current.samples == if ok then [s] else []
  {
  }

  /** The bundle behind the one that went out as number `i`. */
  function Behind(d: Delivery, i: nat): seq<Sample>
  {
    if i + 1 < |d.out| then d.out[i + 1] else d.current.samples
  }

  /** The bundle had no room for the first sample of the one behind it. */
  predicate HadNoRoom(bundle: seq<Sample>, behind: seq<Sample>, wireLength: nat)
  {
    behind != [] && Used(bundle) + Cost(behind[0]) > Capacity(wireLength)
  }

  ghost predicate Full(d: Delivery, wireLength: nat)
  {
    forall i | 0 <= i < |d.out| :: HadNoRoom(d.out[i], Behind(d, i), wireLength)
  }

  lemma StepStaysFull(d: Delivery, s: Sample, wireLength: nat)
    requires Conserved(d.current, wireLength) && Full(d, wireLength) && Cost(s) <= Capacity(wireLength)
    ensures Full(Delivered(d, s, wireLength).0, wireLength)
  {
    HandsOutExactly(d, s, wireLength);
    DeliverKeepsOrder(d, s, wireLength);
    var e := Delivered(d, s, wireLength).0;
    if e.out == d.out {
      GrownStaysFull(d, e, s, wireLength);
    } else {
      HandedOutStaysFull(d, e, s, wireLength);
    }
  }

  lemma GrownStaysFull(d: Delivery, e: Delivery, s: Sample, wireLength: nat)
    requires Full(d, wireLength) && e.out == d.out && e.current.samples == d.current.samples + [s]
    ensures Full(e, wireLength)
  {
    forall i | 0 <= i < |e.out| ensures HadNoRoom(e.out[i], Behind(e, i), wireLength) {
      assert HadNoRoom(d.out[i], Behind(d, i), wireLength);
      SameFirst(d.out[i], Behind(d, i), Behind(e, i), wireLength);
    }
  }

  lemma HandedOutStaysFull(d: Delivery, e: Delivery, s: Sample, wireLength: nat)
    requires Full(d, wireLength) && e.out == d.out + [d.current.samples] && e.current.samples == [s]
    requires HadNoRoom(d.current.samples, [s], wireLength)
    ensures Full(e, wireLength)
  {
    forall i | 0 <= i < |e.out| ensures HadNoRoom(e.out[i], Behind(e, i), wireLength) {
      if i < |d.out| {
        assert HadNoRoom(d.out[i], Behind(d, i), wireLength);
        assert e.out[i] == d.out[i] && Behind(e, i) == Behind(d, i);
      } else {
        assert e.out[i] == d.current.samples && Behind(e, i) == [s];
      }
    }
  }

  lemma SameFirst(bundle: seq<Sample>, a: seq<Sample>, b: seq<Sample>, wireLength: nat)
    requires HadNoRoom(bundle, a, wireLength) && b != [] && b[0] == a[0]
    ensures HadNoRoom(bundle, b, wireLength)
  {
  }

  /** Over any run of samples that fit a bundle, no bundle goes out before the next sample would not fit. */
  lemma {:induction false} BundlesAreFull(d: Delivery, samples: seq<Sample>, wireLength: nat)
    requires Conserved(d.current, wireLength) && Full(d, wireLength)
    requires forall i | 0 <= i < |samples| :: Cost(samples[i]) <= Capacity(wireLength)
    ensures Full(DeliveredAll(d, samples, wireLength), wireLength)
    decreases |samples|
  {
    if samples == [] {
    } else {
      StepStaysFull(d, samples[0], wireLength);
      DeliverKeepsOrder(d, samples[0], wireLength);
      BundlesAreFull(Delivered(d, samples[0], wireLength).0, samples[1..], wireLength);
    }
  }

  lemma Regroup(a: seq<Sample>, b: seq<Sample>, c: seq<Sample>)
    ensures a + b + c == a + (b + c)
  {
  }

  class AudioThread {
    const bundle: AudioBundlePacket
    var bundleNo: int
    /** The bytes the callback was given; the bundle object itself is used again. */
    var sent: seq<bytes>

    ghost var out: seq<seq<Sample>>

    constructor (wireLength: nat)
      ensures fresh(bundle) && fresh(bundle.packet) && Valid() && bundle.wireLength == wireLength
      ensures State() == Delivery([], Cleared(wireLength))
    {
      bundle := new AudioBundlePacket(wireLength);
      bundleNo := 0;
      sent, out := [], [];
    }

    /** Every bundle of no more samples than the counter can hold went out as the encoding of its samples. */
    ghost predicate Valid()
      reads this, bundle, bundle.packet
    {
      && bundle.Valid()
      && |sent| == |out| == bundleNo
      && forall i | 0 <= i < |out| && |out[i]| <= 255 :: Encodable(out[i]) && sent[i] == Encode(out[i], [])
    }

    ghost function State(): Delivery
      reads this, bundle
    {
      Delivery(out, Bundle(bundle.samples, bundle.remainingSpace))
    }

    /** `ok` is false where the source throws: the sample does not fit even an empty bundle. */
    method Deliver(s: Sample) returns (ok: bool)
      requires Valid()
      modifies this, bundle, bundle.packet
      ensures Valid() && (State(), ok) == Delivered(old(State()), s, bundle.wireLength)
    {
      ghost var d := State();
      if !bundle.HasSpaceFor(s) {
        HandOut();
      }
      ghost var e := State();
      assert e == if HasSpace(d.current, s) then d
                  else Delivery(d.out + [d.current.samples], Cleared(bundle.wireLength));
      ok := bundle.Append(s);
      assert State() == if ok then e.(current := Added(e.current, s)) else e;
    }

    /** Calls back with the bundle, then empties it. */
    method HandOut()
      requires Valid()
      modifies this, bundle, bundle.packet
      ensures Valid()
      ensures State() == Delivery(old(out) + [old(bundle.samples)], Cleared(bundle.wireLength))
    {
      bundle.packet.DataIsEncoding();
      out := out + [bundle.samples];
      sent := sent + [bundle.packet.data];
      bundleNo := bundleNo + 1;
      bundle.Clear();
    }
  }
}
