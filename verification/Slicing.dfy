/**
 Cutting a packet into data segments, publishing them under numbered names, and putting the packet back
 together.
 */
module Slicing {
  import opened Bytes
  import opened NetworkData
  import opened Options
  import opened Division

  /** The largest payload for which a segment stays within the wire length; 0 when the header fills it. */
  function PayloadLength(wireLength: nat, headerSize: nat): nat
  {
    var length := wireLength - 1 - BlobWireLength(headerSize);
    if length < 0 then 0 else length
  }

  function SegmentWireLength(payloadLength: nat, headerSize: nat): nat
  {
    WireLength(payloadLength, [headerSize])
  }

  function NumSlices(length: nat, wireLength: nat, headerSize: nat): nat
    requires PayloadLength(wireLength, headerSize) > 0
  {
    var n := PayloadLength(wireLength, headerSize);
    length / n + (if length % n != 0 then 1 else 0)
  }

  /** `data` in pieces of `n` bytes, the last one possibly shorter; one empty piece for no data. */
  function Chunks(data: bytes, n: nat): seq<bytes>
    requires n > 0
    decreases |data|
  {
    if |data| <= n then [data] else [data[..n]] + Chunks(data[n..], n)
  }

  method Slice(data: bytes, wireLength: nat, headerSize: nat) returns (segments: seq<bytes>)
    ensures PayloadLength(wireLength, headerSize) == 0 ==> segments == []
    ensures PayloadLength(wireLength, headerSize) > 0 ==>
              segments == Chunks(data, PayloadLength(wireLength, headerSize))
  {
    segments := [];
    var payloadLength := PayloadLength(wireLength, headerSize);
    if payloadLength == 0 {
      return;
    }
    var p1 := 0;
    var p2 := p1 + payloadLength;
    assert data[0..] == data;
    while p2 < |data|
      invariant p2 == p1 + payloadLength && p1 <= |data|
      invariant segments + Chunks(data[p1..], payloadLength) == Chunks(data, payloadLength)
    {
      assert data[p1..][..payloadLength] == data[p1..p2];
      assert data[p1..][payloadLength..] == data[p2..];
      segments := segments + [data[p1..p2]];
      p1 := p2;
      p2 := p2 + payloadLength;
    }
    segments := segments + [data[p1..]];
  }

  // ---------- slices partition the data ----------

  lemma {:induction false} ChunksPartition(data: bytes, n: nat)
    requires n > 0
    ensures Flatten(Chunks(data, n)) == data
    ensures forall i | 0 <= i < |Chunks(data, n)| - 1 :: |Chunks(data, n)[i]| == n
    ensures |Chunks(data, n)[|Chunks(data, n)| - 1]| <= n
    ensures data != [] ==> Chunks(data, n)[|Chunks(data, n)| - 1] != []
    decreases |data|
  {
    if |data| <= n {
      assert Flatten([data]) == data + Flatten([]);
    } else {
      ChunksPartition(data[n..], n);
      var rest := Chunks(data[n..], n);
      assert Chunks(data, n)[1..] == rest;
      assert forall i | 1 <= i < |Chunks(data, n)| :: Chunks(data, n)[i] == rest[i - 1];
      assert data[..n] + data[n..] == data;
    }
  }

  /** `slice` and `numSlices` agree on every packet except the empty one, which `slice` gives a segment. */
  lemma {:induction false} SliceCount(data: bytes, wireLength: nat, headerSize: nat)
    requires PayloadLength(wireLength, headerSize) > 0
    ensures |Chunks(data, PayloadLength(wireLength, headerSize))| == NumSlices(|data|, wireLength, headerSize)
            <==> data != []
    decreases |data|
  {
    var n := PayloadLength(wireLength, headerSize);
    if data == [] {
      QuotientUnique(0, n, 0, 0);
    } else if |data| < n {
      QuotientUnique(|data|, n, 0, |data|);
    } else if |data| == n {
      QuotientUnique(|data|, n, 1, 0);
    } else {
      QuotientStep(|data|, n);
      SliceCount(data[n..], wireLength, headerSize);
    }
  }

  // ---------- publishing ----------

  /** A published data object: the segment number ending its name, its FinalBlockId and its content. */
  datatype Segment = Segment(no: nat, finalBlock: nat, content: bytes)

  /**
   What the publisher hands out for `data` in pieces of `n` bytes. The segment headers are inputs: interest
   nonce and delays come from the pending interest table, which is not part of the model.
   */
  predicate Published(out: seq<Segment>, data: bytes, n: nat, headerSize: nat, headers: nat -> bytes)
    requires n > 0 && 0 < headerSize < MAX_BLOB_LENGTH
  {
    && |out| == |Chunks(data, n)|
    && forall i | 0 <= i < |out| ::
         && |headers(i)| == headerSize
         && out[i] == Segment(i, |out| - 1, Encode([headers(i)], Chunks(data, n)[i]))
  }

  /** The loop of `PacketPublisher::publish`. */
  method Publish(data: bytes, wireLength: nat, headerSize: nat, headers: nat -> bytes)
    returns (out: seq<Segment>)
    requires 0 < headerSize < MAX_BLOB_LENGTH
    requires forall i :: |headers(i)| == headerSize
    ensures PayloadLength(wireLength, headerSize) == 0 ==> out == []
    ensures PayloadLength(wireLength, headerSize) > 0 ==>
              Published(out, data, PayloadLength(wireLength, headerSize), headerSize, headers)
  {
    var segments := Slice(data, wireLength, headerSize);
    out := [];
    var segIdx := 0;
    while segIdx < |segments|
      invariant segIdx == |out| <= |segments|
      invariant forall i | 0 <= i < |out| ::
                  out[i] == Segment(i, |segments| - 1, Encode([headers(i)], segments[i]))
    {
      var segmentData := new DataPacket(segments[segIdx]);
      var ok := segmentData.SetHeader(headers(segIdx));
      segmentData.DataIsEncoding();
      assert [] + [headers(segIdx)] == [headers(segIdx)];
      WrappedLength(headers(segIdx), segments[segIdx]);
      var size := SegmentWireLength(|segments[segIdx]|, headerSize);
      out := out + [Segment(segIdx, |segments| - 1, segmentData.data[..size])];
      segIdx := segIdx + 1;
    }
  }

  lemma WrappedLength(header: bytes, payload: bytes)
    requires 0 < |header| < MAX_BLOB_LENGTH
    ensures |Encode([header], payload)| == SegmentWireLength(|payload|, |header|)
  {
    WireLengthIsLength([header], payload);
    assert Lengths([header]) == [|header|];
  }

  /** No wrapped segment exceeds the wire length, and all but the last fill it exactly. */
  lemma SegmentsWithinWireLength(data: bytes, wireLength: nat, headerSize: nat, i: nat, header: bytes)
    requires PayloadLength(wireLength, headerSize) > 0
    requires 0 < headerSize == |header| < MAX_BLOB_LENGTH
    requires i < |Chunks(data, PayloadLength(wireLength, headerSize))|
    ensures var slices := Chunks(data, PayloadLength(wireLength, headerSize));
      var size := |Encode([header], slices[i])|;
      size <= wireLength && (i < |slices| - 1 ==> size == wireLength)
  {
    var slices := Chunks(data, PayloadLength(wireLength, headerSize));
    ChunksPartition(data, PayloadLength(wireLength, headerSize));
    WrappedLength(header, slices[i]);
    assert SumBlobLengths([headerSize]) == headerSize + 2 + SumBlobLengths([]);
  }

  // ---------- putting the packet back together ----------

  /** `VideoFramePacket::merge` and `AudioBundlePacket::merge`: payloads in the order given. */
  method Merge(segments: seq<Opened>) returns (packetBytes: bytes)
    ensures packetBytes == Flatten(Payloads(segments))
  {
    packetBytes := [];
    assert segments[..0] == [];
    for i := 0 to |segments|
      invariant packetBytes == Flatten(Payloads(segments[..i]))
    {
      assert Payloads(segments[..i + 1]) == Payloads(segments[..i]) + [segments[i].payload];
      FlattenAppend(Payloads(segments[..i]), segments[i].payload);
      packetBytes := packetBytes + segments[i].payload;
    }
    assert segments[..|segments|] == segments;
  }

  function Payloads(segments: seq<Opened>): seq<bytes>
  {
    seq(|segments|, i requires 0 <= i < |segments| => segments[i].payload)
  }

  function Numbers(out: seq<Segment>): set<nat>
  {
    set seg | seg in out :: seg.no
  }

  /** The published numbers are 0 to one less than the count, each once; the last is the FinalBlockId of all. */
  lemma NumberedOnce(data: bytes, n: nat, headerSize: nat, headers: nat -> bytes, out: seq<Segment>)
    requires n > 0 && 0 < headerSize < MAX_BLOB_LENGTH && Published(out, data, n, headerSize, headers)
    ensures forall k: nat :: k in Numbers(out) <==> k < |out|
    ensures forall i, j | 0 <= i < j < |out| :: out[i].no != out[j].no
    ensures forall seg | seg in out :: seg.finalBlock == |out| - 1
  {
    forall k: nat | k < |out| ensures k in Numbers(out) {
      assert out[k] in out && out[k].no == k;
    }
  }

  /** Where piece `k` of `data` ends. */
  function EndOf(data: bytes, n: nat, k: nat): nat
  {
    if (k + 1) * n <= |data| then (k + 1) * n else |data|
  }

  /** The segments are filed under their own numbers, opened. */
  ghost predicate Filed(out: seq<Segment>, headerSize: nat, files: map<nat, Opened>)
  {
    forall seg | seg in out :: seg.no in files && OpenHeaderPacket(seg.content, headerSize) == Some(files[seg.no])
  }

  /** The payload filed under number `k` is the `k`-th piece of the data. */
  lemma PieceUnderNumber(data: bytes, n: nat, headerSize: nat, headers: nat -> bytes,
                         out: seq<Segment>, files: map<nat, Opened>, k: nat)
    requires n > 0 && 0 < headerSize < MAX_BLOB_LENGTH && Published(out, data, n, headerSize, headers)
    requires Filed(out, headerSize, files) && k < |out|
    ensures k in files && k * n <= EndOf(data, n, k) <= |data|
    ensures files[k].payload == data[k * n..EndOf(data, n, k)] == Chunks(data, n)[k]
  {
    assert out[k] in out;
    OpenSegment(headers(k), Chunks(data, n)[k]);
    ChunkAt(data, n, k);
  }

  /** The payloads filed under numbers below `count`, in the order of the numbers. */
  function ByNumber(files: map<nat, Opened>, count: nat): seq<bytes>
    requires forall k: nat | k < count :: k in files
  {
    seq(count, k requires 0 <= k < count => files[k].payload)
  }

  /** Filed under their own numbers, in whatever order they came, published segments restore the data. */
  lemma FiledByNumber(data: bytes, n: nat, headerSize: nat, headers: nat -> bytes,
                      out: seq<Segment>, files: map<nat, Opened>)
    requires n > 0 && 0 < headerSize < MAX_BLOB_LENGTH && Published(out, data, n, headerSize, headers)
    requires Filed(out, headerSize, files)
    ensures forall k: nat | k < |out| :: k in files
    ensures Flatten(ByNumber(files, |out|)) == data
  {
    forall k: nat | k < |out| ensures k in files && files[k].payload == Chunks(data, n)[k] {
      PieceUnderNumber(data, n, headerSize, headers, out, files, k);
    }
    assert ByNumber(files, |out|) == Chunks(data, n);
    ChunksPartition(data, n);
  }

  /** `k * n`, by repeated addition. */
  function Start(n: nat, k: nat): nat
  {
    if k == 0 then 0 else Start(n, k - 1) + n
  }

  lemma {:induction false} StartIsProduct(n: nat, k: nat)
    ensures Start(n, k) == k * n
  {
    if k == 0 {
    } else {
      StartIsProduct(n, k - 1);
    }
  }

  lemma {:induction false} ChunkFrom(data: bytes, n: nat, k: nat)
    requires n > 0 && k < |Chunks(data, n)|
    ensures var end := if Start(n, k + 1) <= |data| then Start(n, k + 1) else |data|;
      Start(n, k) <= end && Chunks(data, n)[k] == data[Start(n, k)..end]
    decreases k
  {
    if k == 0 {
    } else {
      ChunkFrom(data[n..], n, k - 1);
      assert Chunks(data, n)[k] == Chunks(data[n..], n)[k - 1];
    }
  }

  /** The `k`-th piece of the data. */
  lemma ChunkAt(data: bytes, n: nat, k: nat)
    requires n > 0 && k < |Chunks(data, n)|
    ensures k * n <= EndOf(data, n, k) && Chunks(data, n)[k] == data[k * n..EndOf(data, n, k)]
  {
    StartIsProduct(n, k);
    StartIsProduct(n, k + 1);
    ChunkFrom(data, n, k);
  }

  /** Parsing every published segment and merging the payloads gives the published bytes back. */
  lemma PublishThenMerge(data: bytes, n: nat, headerSize: nat, headers: nat -> bytes,
                         out: seq<Segment>, parts: seq<Opened>)
    requires n > 0 && 0 < headerSize < MAX_BLOB_LENGTH && Published(out, data, n, headerSize, headers)
    requires |parts| == |out|
    requires forall i | 0 <= i < |out| :: OpenHeaderPacket(out[i].content, headerSize) == Some(parts[i])
    ensures Payloads(parts) == Chunks(data, n)
    ensures Flatten(Payloads(parts)) == data
  {
    forall i | 0 <= i < |out| ensures parts[i].payload == Chunks(data, n)[i] {
      OpenSegment(headers(i), Chunks(data, n)[i]);
    }
    assert Payloads(parts) == Chunks(data, n);
    ChunksPartition(data, n);
  }

  lemma OpenSegment(header: bytes, payload: bytes)
    requires 0 < |header| < MAX_BLOB_LENGTH
    ensures OpenHeaderPacket(Encode([header], payload), |header|) == Some(Opened([header], payload))
  {
    OpenRoundTrip([], header, payload);
    assert [] + [header] == [header];
  }

  // ---------- the packet header inside segment 0 ----------

  /**
   The blob `reinit` collected last, whether or not it went on to accept the vector. `None` stands for
   reads outside the vector: no blob at all, a length field behind the data, or a blob that ends there.
   */
  function LastBlob(packet: bytes): Option<bytes>
    requires packet != []
  {
    var p := ParsePacket(packet);
    if p.Overrun? || p.blobs == [] then
      None
    else
      var r := p.blobs[|p.blobs| - 1];
      if r.lo <= r.hi <= |packet| then Some(packet[r.lo..r.hi]) else None
  }

  /** `WireSegment::packetHeader`: the last blob of the packet that starts in this segment's payload. */
  function PacketHeader(content: bytes): Option<bytes>
  {
    if Accepts(content) && ParsePacket(content).payloadBegin < |content| then
      LastBlob(content[ParsePacket(content).payloadBegin..])
    else
      None
  }

  lemma PacketHeaderInside(segmentHeader: bytes, inner: bytes)
    requires |segmentHeader| < MAX_BLOB_LENGTH && inner != []
    ensures PacketHeader(Encode([segmentHeader], inner)) == LastBlob(inner)
  {
    RoundTrip([segmentHeader], inner);
  }

  /** Where blob `j` of a packet begins with its length field; with `j` the number of blobs, the payload. */
  function Offset(blobs: seq<bytes>, j: nat): nat
    requires BlobsFit(blobs) && j <= |blobs|
  {
    1 + |HeaderArea(blobs[..j])|
  }

  /** Cut behind `k` bytes, the packet ends with the length field of blob `j` and not all of its bytes. */
  predicate CutInside(blobs: seq<bytes>, j: nat, k: nat)
    requires BlobsFit(blobs) && j < |blobs|
  {
    Offset(blobs, j) + 2 <= k <= Offset(blobs, j) + |blobs[j]|
  }

  /** The blob a reader of the first `k` bytes takes for the header. */
  predicate ShownAsHeader(blobs: seq<bytes>, k: nat, h: bytes)
    requires BlobsFit(blobs) && blobs != []
  {
    || (Offset(blobs, |blobs|) <= k && h == blobs[|blobs| - 1])
    || (exists j | 0 < j < |blobs| :: CutInside(blobs, j, k) && h == blobs[j - 1])
  }

  /**
   What segment 0 gives as the packet's header, for every packet and every slice length: the last blob
   if the whole header area lies in slice 0, and the blob in front of the one that the cut went through,
   if the length field of that one still is in the slice.
   */
  lemma HeaderOfSegmentZero(blobs: seq<bytes>, frame: bytes, n: nat, segmentHeader: bytes, h: bytes)
    requires n > 0 && blobs != [] && Encodable(blobs) && |segmentHeader| < MAX_BLOB_LENGTH
    ensures var slice0 := Chunks(Encode(blobs, frame), n)[0];
      PacketHeader(Encode([segmentHeader], slice0)) == Some(h) <==> ShownAsHeader(blobs, |slice0|, h)
  {
    var slice0 := Chunks(Encode(blobs, frame), n)[0];
    PacketHeaderInside(segmentHeader, slice0);
    assert slice0 == Encode(blobs, frame)[..|slice0|];
    LastBlobOfPrefix(blobs, frame, |slice0|, h);
  }

  /**
   A packet with a header unlike its other blobs shows it in segment 0 if and only if the whole header
   area lies in slice 0.
   */
  lemma OwnHeaderOfSegmentZero(blobs: seq<bytes>, frame: bytes, n: nat, segmentHeader: bytes)
    requires n > 0 && blobs != [] && Encodable(blobs) && |segmentHeader| < MAX_BLOB_LENGTH
    requires blobs[|blobs| - 1] !in blobs[..|blobs| - 1]
    ensures var slice0 := Chunks(Encode(blobs, frame), n)[0];
      PacketHeader(Encode([segmentHeader], slice0)) == Some(blobs[|blobs| - 1])
      <==> 1 + |HeaderArea(blobs)| <= |slice0|
  {
    var slice0 := Chunks(Encode(blobs, frame), n)[0];
    HeaderOfSegmentZero(blobs, frame, n, segmentHeader, blobs[|blobs| - 1]);
    assert blobs[..|blobs|] == blobs;
    assert forall i | 0 <= i < |blobs| - 1 :: blobs[i] == blobs[..|blobs| - 1][i];
  }

  lemma LastBlobOfPrefix(blobs: seq<bytes>, frame: bytes, k: nat, h: bytes)
    requires blobs != [] && Encodable(blobs) && 0 < k <= |Encode(blobs, frame)|
    ensures LastBlob(Encode(blobs, frame)[..k]) == Some(h) <==> ShownAsHeader(blobs, k, h)
  {
    if Offset(blobs, |blobs|) <= k {
      WholeHeaderShown(blobs, frame, k);
      forall j | 0 < j < |blobs| ensures !CutInside(blobs, j, k) {
        OffsetsGrow(blobs, j + 1, |blobs|);
        NextOffset(blobs, j);
      }
    } else {
      var j := CutBlob(blobs, k, |blobs|);
      CutHeaderShown(blobs, frame, k, j);
      forall i | 0 < i < |blobs| && CutInside(blobs, i, k) ensures i == j {
        NextOffset(blobs, i);
        if i < j {
          OffsetsGrow(blobs, i + 1, j);
        } else if j < i {
          OffsetsGrow(blobs, j + 1, i);
        }
      }
    }
  }

  /** The blob the cut goes through. */
  function CutBlob(blobs: seq<bytes>, k: nat, n: nat): (j: nat)
    requires BlobsFit(blobs) && n <= |blobs| && 0 < k < Offset(blobs, n)
    ensures j < n && Offset(blobs, j) <= k < Offset(blobs, j + 1)
  {
    if Offset(blobs, n - 1) <= k then n - 1 else CutBlob(blobs, k, n - 1)
  }

  lemma NextOffset(blobs: seq<bytes>, j: nat)
    requires BlobsFit(blobs) && j < |blobs|
    ensures Offset(blobs, j + 1) == Offset(blobs, j) + 2 + |blobs[j]|
  {
    assert blobs[..j + 1] == blobs[..j] + [blobs[j]];
    HeaderAreaAppend(blobs[..j], blobs[j]);
  }

  lemma {:induction false} OffsetsGrow(blobs: seq<bytes>, i: nat, j: nat)
    requires BlobsFit(blobs) && i <= j <= |blobs|
    ensures Offset(blobs, i) <= Offset(blobs, j)
    decreases j - i
  {
    if i == j {
    } else {
      OffsetsGrow(blobs, i, j - 1);
      NextOffset(blobs, j - 1);
    }
  }

  lemma WholeHeaderShown(blobs: seq<bytes>, frame: bytes, k: nat)
    requires blobs != [] && Encodable(blobs) && Offset(blobs, |blobs|) <= k <= |Encode(blobs, frame)|
    ensures LastBlob(Encode(blobs, frame)[..k]) == Some(blobs[|blobs| - 1])
  {
    FrontParsed(blobs, frame, k, |blobs|);
  }

  /** A cut through blob `j` leaves the blobs in front of it to be collected. */
  lemma CutHeaderShown(blobs: seq<bytes>, frame: bytes, k: nat, j: nat)
    requires Encodable(blobs) && j < |blobs| && k <= |Encode(blobs, frame)|
    requires Offset(blobs, j) <= k < Offset(blobs, j + 1)
    ensures LastBlob(Encode(blobs, frame)[..k])
            == if j > 0 && CutInside(blobs, j, k) then Some(blobs[j - 1]) else None
  {
    var data := Encode(blobs, frame)[..k];
    var n := |blobs|;
    FrontParsed(blobs, frame, k, j);
    var front := ParseBlobs(data, 1, j);
    ParseSplits(data, 1, n, j);
    PrependAllShape(front.blobs, ParseBlobs(data, Offset(blobs, j), n - j));
    FrameInPacket(blobs, frame, j);
    CutFrame(Encode(blobs, frame), Offset(blobs, j), blobs[j], k, n - j);
    assert ParsePacket(data) == PrependAll(front.blobs, ParseBlobs(data, Offset(blobs, j), n - j));
  }

  /** The blobs in front of the cut are parsed as they were written. */
  lemma FrontParsed(blobs: seq<bytes>, frame: bytes, k: nat, j: nat)
    requires Encodable(blobs) && j <= |blobs| && Offset(blobs, j) <= k <= |Encode(blobs, frame)|
    ensures var data := Encode(blobs, frame)[..k];
      var front := ParseBlobs(data, 1, j);
      && front.Parsed? && front.payloadBegin == Offset(blobs, j)
      && |front.blobs| == j && Inside(front.blobs, 0, k)
      && (j > 0 ==> data[front.blobs[j - 1].lo..front.blobs[j - 1].hi] == blobs[j - 1])
  {
    var data := Encode(blobs, frame)[..k];
    FramesInFront(blobs, frame, k, j);
    ParseInvertsFrames(data, 1, blobs[..j]);
    RangesInside(data, 1, j);
    if j > 0 {
      SliceAt(data, ParseBlobs(data, 1, j).blobs, j - 1);
    }
  }

  lemma FramesInFront(blobs: seq<bytes>, frame: bytes, k: nat, j: nat)
    requires Encodable(blobs) && j <= |blobs| && k <= |Encode(blobs, frame)| && Offset(blobs, j) <= k
    ensures HoldsAt(Encode(blobs, frame)[..k], 1, HeaderArea(blobs[..j]))
  {
    assert blobs == blobs[..j] + blobs[j..];
    HeaderAreaConcat(blobs[..j], blobs[j..]);
    PrefixHolds(|blobs|, HeaderArea(blobs[..j]), HeaderArea(blobs[j..]), frame, k);
  }

  lemma PrefixHolds(c: byte, a: bytes, b: bytes, rest: bytes, k: nat)
    requires 1 + |a| <= k <= 1 + |a| + |b| + |rest|
    ensures HoldsAt(([c] + (a + b) + rest)[..k], 1, a)
  {
    var data := [c] + (a + b) + rest;
    assert data[..k][1..1 + |a|] == data[1..1 + |a|] == a;
  }

  lemma FrameInPacket(blobs: seq<bytes>, frame: bytes, j: nat)
    requires Encodable(blobs) && j < |blobs|
    ensures HoldsAt(Encode(blobs, frame), Offset(blobs, j), Frame(blobs[j]))
    ensures Offset(blobs, j + 1) == Offset(blobs, j) + |Frame(blobs[j])|
  {
    NextOffset(blobs, j);
    assert blobs[..|blobs|] == blobs;
    OffsetsGrow(blobs, j + 1, |blobs|);
    var data := Encode(blobs, frame);
    assert data[..|data|] == data;
    FramesInFront(blobs, frame, |data|, j + 1);
    assert blobs[..j + 1] == blobs[..j] + [blobs[j]];
    HeaderAreaAppend(blobs[..j], blobs[j]);
    HoldsSplit(data, 1, HeaderArea(blobs[..j]), Frame(blobs[j]));
  }

  /** What the parser makes of the frame the cut goes through. */
  lemma CutFrame(data: bytes, pos: nat, b: bytes, k: nat, n: nat)
    requires |b| < MAX_BLOB_LENGTH && HoldsAt(data, pos, Frame(b)) && pos <= k < pos + 2 + |b| && n > 0
    ensures var rest := ParseBlobs(data[..k], pos, n);
      if k < pos + 2 then rest == Overrun([])
      else if k <= pos + |b| then rest == Malformed([])
      else rest.Overrun? || rest == Parsed([Range(pos + 2, k + 1)], k + 1)
  {
    FrameAt(data, pos, b);
    if k >= pos + 2 {
      assert SizeAt(data[..k], pos) == |b|;
      if k > pos + |b| {
        assert ParseBlobs(data[..k], k + 1, n - 1) == if n == 1 then Parsed([], k + 1) else Overrun([]);
      }
    }
  }
}
