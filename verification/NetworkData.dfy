/**
 The wire format of data packets: a counter byte, length-prefixed blobs, then the payload.

     <#blobs> [<length low> <length high> <blob>]* <payload>

 `Encode` says what the format is; `Parse` is what `DataPacketT::reinit` makes of an arbitrary byte
 vector. The class `DataPacket` is the mutable packet, with `DataPacketT` and `HeaderPacketT`
 flattened into one class.
 */
module NetworkData {
  import opened Bytes
  import opened Options

  // ---------- the format ----------

  const MAX_BLOB_LENGTH := 0x1_0000

  /** `n >> 8`, by repeated subtraction: the proofs about whole packets then need no division. */
  function HighByte(n: nat): (r: nat)
    ensures 256 * r <= n < 256 * r + 256
  {
    if n < 256 then 0 else 1 + HighByte(n - 256)
  }

  lemma HighByteIsQuotient(n: nat)
    ensures HighByte(n) == n / 256 && n - 256 * HighByte(n) == n % 256
  {
  }

  /** A blob behind its length, low byte first. */
  function Frame(blob: bytes): bytes
    requires |blob| < MAX_BLOB_LENGTH
  {
    [|blob| - 256 * HighByte(|blob|), HighByte(|blob|)] + blob
  }

  predicate Encodable(blobs: seq<bytes>)
  {
    |blobs| <= 255 && BlobsFit(blobs)
  }

  predicate BlobsFit(blobs: seq<bytes>)
  {
    forall i | 0 <= i < |blobs| :: |blobs[i]| < MAX_BLOB_LENGTH
  }

  function HeaderArea(blobs: seq<bytes>): bytes
    requires BlobsFit(blobs)
  {
    if blobs == [] then [] else Frame(blobs[0]) + HeaderArea(blobs[1..])
  }

  function Encode(blobs: seq<bytes>, payload: bytes): bytes
    requires Encodable(blobs)
  {
    [|blobs|] + HeaderArea(blobs) + payload
  }

  // ---------- the parser ----------

  /** A blob is a pair of iterators into the packet's own bytes. */
  datatype Range = Range(lo: nat, hi: nat)

  /**
   What `reinit` does with a byte vector: accept it, find a length that does not fit (`Malformed`), or
   read a length field that lies behind the last byte (`Overrun`, undefined in the source). The ranges
   are those collected before it stopped.
   */
  datatype Parse =
    | Parsed(blobs: seq<Range>, payloadBegin: nat)
    | Malformed(blobs: seq<Range>)
    | Overrun(blobs: seq<Range>)
  {
    function Prepend(r: Range): Parse
    {
      match this
      case Parsed(bs, p) => Parsed([r] + bs, p)
      case Malformed(bs) => Malformed([r] + bs)
      case Overrun(bs) => Overrun([r] + bs)
    }
  }

  /** The two-byte length field at `pos`, low byte first. */
  function SizeAt(data: bytes, pos: nat): nat
    requires pos + 1 < |data|
  {
    data[pos] as nat + 256 * data[pos + 1] as nat
  }

  /** `n` blobs are still announced and the next length field starts at `pos`. */
  function ParseBlobs(data: bytes, pos: nat, n: nat): Parse
    decreases n
  {
    if n == 0 then
      Parsed([], pos)
    else if pos + 1 >= |data| then
      Overrun([])
    else
      var size := SizeAt(data, pos);
      if pos + 1 + size > |data| then
        Malformed([])
      else
        ParseBlobs(data, pos + 2 + size, n - 1).Prepend(Range(pos + 2, pos + 2 + size))
  }

  function ParsePacket(data: bytes): Parse
    requires data != []
  {
    ParseBlobs(data, 1, data[0])
  }

  /** Accepted, with every blob inside the vector. */
  predicate Accepts(data: bytes)
  {
    && data != []
    && ParsePacket(data).Parsed?
    && ParsePacket(data).payloadBegin <= |data|
  }

  predicate Inside(ranges: seq<Range>, lo: nat, hi: nat)
  {
    forall i | 0 <= i < |ranges| :: lo <= ranges[i].lo <= ranges[i].hi <= hi
  }

  function Slices(data: bytes, ranges: seq<Range>): seq<bytes>
    requires Inside(ranges, 0, |data|)
  {
    if ranges == [] then [] else [data[ranges[0].lo..ranges[0].hi]] + Slices(data, ranges[1..])
  }

  // ---------- the parser inverts the format ----------

  lemma {:induction false} RangesInside(data: bytes, pos: nat, n: nat)
    requires ParseBlobs(data, pos, n).Parsed?
    ensures var p := ParseBlobs(data, pos, n);
      && pos <= p.payloadBegin
      && |p.blobs| == n
      && Inside(p.blobs, pos, p.payloadBegin)
    decreases n
  {
    if n == 0 {
    } else {
      RangesInside(data, pos + 2 + SizeAt(data, pos), n - 1);
    }
  }

  predicate HoldsAt(data: bytes, pos: nat, x: bytes)
  {
    pos + |x| <= |data| && data[pos..pos + |x|] == x
  }

  lemma HoldsSplit(data: bytes, pos: nat, x: bytes, y: bytes)
    ensures HoldsAt(data, pos, x + y) <==> HoldsAt(data, pos, x) && HoldsAt(data, pos + |x|, y)
  {
    if pos + |x| + |y| <= |data| {
      assert data[pos..pos + |x + y|] == data[pos..pos + |x|] + data[pos + |x|..pos + |x| + |y|];
      assert (x + y)[..|x|] == x && (x + y)[|x|..] == y;
    }
  }

  /** Parsing from `pos` reads back exactly the frames that were written there. */
  lemma {:induction false} ParseInvertsFrames(data: bytes, pos: nat, blobs: seq<bytes>)
    requires BlobsFit(blobs) && HoldsAt(data, pos, HeaderArea(blobs))
    ensures var p := ParseBlobs(data, pos, |blobs|);
      && p.Parsed?
      && p.payloadBegin == pos + |HeaderArea(blobs)|
      && Inside(p.blobs, 0, |data|)
      && Slices(data, p.blobs) == blobs
    decreases |blobs|
  {
    if blobs == [] {
      assert Slices(data, []) == [];
    } else {
      var b, rest := blobs[0], blobs[1..];
      FrameInFront(data, pos, b, rest);
      var next := pos + 2 + |b|;
      ParseInvertsFrames(data, next, rest);
      assert |rest| == |blobs| - 1;
      ParseStep(data, pos, |blobs|, b, next);
      assert Slices(data, ParseBlobs(data, pos, |blobs|).blobs) == [b] + rest;
      assert blobs == [b] + rest;
      assert |HeaderArea(blobs)| == 2 + |b| + |HeaderArea(rest)|;
    }
  }

  lemma FrameInFront(data: bytes, pos: nat, b: bytes, rest: seq<bytes>)
    requires |b| < MAX_BLOB_LENGTH && BlobsFit(rest) && HoldsAt(data, pos, Frame(b) + HeaderArea(rest))
    ensures pos + 2 + |b| <= |data| && SizeAt(data, pos) == |b| && data[pos + 2..pos + 2 + |b|] == b
    ensures HoldsAt(data, pos + 2 + |b|, HeaderArea(rest))
  {
    HoldsSplit(data, pos, Frame(b), HeaderArea(rest));
    FrameAt(data, pos, b);
  }

  /** A frame can be read back at the place it was written to. */
  lemma FrameAt(data: bytes, pos: nat, b: bytes)
    requires |b| < MAX_BLOB_LENGTH
    ensures HoldsAt(data, pos, Frame(b)) <==>
            && pos + 2 + |b| <= |data|
            && SizeAt(data, pos) == |b|
            && data[pos + 2..pos + 2 + |b|] == b
  {
    if pos + 2 + |b| <= |data| {
      var w := data[pos..pos + 2 + |b|];
      assert data[pos] == w[0] && data[pos + 1] == w[1] && data[pos + 2..pos + 2 + |b|] == w[2..];
      assert Frame(b)[2..] == b;
      assert w == [w[0], w[1]] + w[2..];
    }
  }

  lemma ParseStep(data: bytes, pos: nat, n: nat, b: bytes, next: nat)
    requires n > 0 && next == pos + 2 + |b| <= |data| && SizeAt(data, pos) == |b| && data[pos + 2..next] == b
    requires var rest := ParseBlobs(data, next, n - 1);
      rest.Parsed? && Inside(rest.blobs, 0, |data|)
    ensures var p := ParseBlobs(data, pos, n);
      var rest := ParseBlobs(data, next, n - 1);
      && p.Parsed? && p.payloadBegin == rest.payloadBegin
      && Inside(p.blobs, 0, |data|)
      && Slices(data, p.blobs) == [b] + Slices(data, rest.blobs)
  {
  }

  /** Parsing an encoded packet gives the same blobs and the same payload. */
  lemma RoundTrip(blobs: seq<bytes>, payload: bytes)
    requires Encodable(blobs)
    ensures var data := Encode(blobs, payload);
      && Accepts(data)
      && var p := ParsePacket(data);
      && p.payloadBegin == 1 + |HeaderArea(blobs)|
      && Inside(p.blobs, 0, |data|)
      && Slices(data, p.blobs) == blobs
      && data[p.payloadBegin..] == payload
  {
    var data := Encode(blobs, payload);
    assert data[1..1 + |HeaderArea(blobs)|] == HeaderArea(blobs);
    ParseInvertsFrames(data, 1, blobs);
    assert data[1 + |HeaderArea(blobs)|..] == payload;
  }

  /** Every accepted stretch of frames is the encoding of the blobs it was parsed into. */
  lemma {:induction false} FramesOfParse(data: bytes, pos: nat, n: nat)
    requires pos <= |data|
    requires ParseBlobs(data, pos, n).Parsed? && ParseBlobs(data, pos, n).payloadBegin <= |data|
    ensures var p := ParseBlobs(data, pos, n);
      && Inside(p.blobs, 0, |data|)
      && |p.blobs| == n && pos <= p.payloadBegin
      && BlobsFit(Slices(data, p.blobs))
      && |Slices(data, p.blobs)| == n
      && HeaderArea(Slices(data, p.blobs)) == data[pos..p.payloadBegin]
    decreases n
  {
    RangesInside(data, pos, n);
    if n == 0 {
    } else {
      var next := pos + 2 + SizeAt(data, pos);
      RangesInside(data, next, n - 1);
      FramesOfParse(data, next, n - 1);
      var b, rest := data[pos + 2..next], ParseBlobs(data, next, n - 1);
      ParseStep(data, pos, n, b, next);
      FrameAt(data, pos, b);
      GlueFrames(data, pos, b, Slices(data, rest.blobs), next, rest.payloadBegin);
      assert ParseBlobs(data, pos, n).payloadBegin == rest.payloadBegin;
      assert Slices(data, ParseBlobs(data, pos, n).blobs) == [b] + Slices(data, rest.blobs);
    }
  }

  lemma GlueFrames(data: bytes, pos: nat, b: bytes, blobs: seq<bytes>, next: nat, end: nat)
    requires |b| < MAX_BLOB_LENGTH && HoldsAt(data, pos, Frame(b)) && BlobsFit(blobs)
    requires pos + 2 + |b| == next <= end <= |data| && HeaderArea(blobs) == data[next..end]
    ensures BlobsFit([b] + blobs) && HeaderArea([b] + blobs) == data[pos..end]
  {
    assert ([b] + blobs)[1..] == blobs;
    assert data[pos..next] + data[next..end] == data[pos..end];
  }

  /** What an accepted vector encodes. */
  lemma EncodingOf(data: bytes)
    requires Accepts(data)
    ensures var p := ParsePacket(data);
      && Inside(p.blobs, 0, |data|) && |p.blobs| == data[0] == |Slices(data, p.blobs)|
      && Encodable(Slices(data, p.blobs))
      && data == Encode(Slices(data, p.blobs), data[p.payloadBegin..])
  {
    FramesOfParse(data, 1, data[0]);
    var p := ParsePacket(data);
    assert data == [data[0]] + data[1..p.payloadBegin] + data[p.payloadBegin..];
  }

  /**
   The parser accepts a vector with all blobs inside exactly when the vector is an encoding: there is no
   input it takes for a packet that no packet could have produced.
   */
  lemma AcceptsExactlyEncodings(data: bytes)
    ensures Accepts(data) <==>
            exists blobs, payload :: Encodable(blobs) && data == Encode(blobs, payload)
  {
    if Accepts(data) {
      EncodingOf(data);
    }
    if exists blobs, payload :: Encodable(blobs) && data == Encode(blobs, payload) {
      var blobs, payload :| Encodable(blobs) && data == Encode(blobs, payload);
      RoundTrip(blobs, payload);
    }
  }

  /** No byte vector encodes two different packets. */
  lemma EncodeInjective(b1: seq<bytes>, p1: bytes, b2: seq<bytes>, p2: bytes)
    requires Encodable(b1) && Encodable(b2) && Encode(b1, p1) == Encode(b2, p2)
    ensures b1 == b2 && p1 == p2
  {
    RoundTrip(b1, p1);
    RoundTrip(b2, p2);
  }

  /**
   The length test of `reinit` is off by one: this vector announces a two-byte blob of which it holds
   only the first byte, and is accepted all the same.
   */
  lemma BlobMayEndBehindTheData()
    ensures var data: bytes := [1, 2, 0, 7];
      && ParsePacket(data) == Parsed([Range(3, 5)], 5)
      && !Accepts(data)
  {
  }

  /** One byte is the most an accepted packet can overshoot. */
  lemma {:induction false} OvershootIsOneByte(data: bytes, pos: nat, n: nat)
    requires pos <= |data| + 1 && ParseBlobs(data, pos, n).Parsed?
    ensures ParseBlobs(data, pos, n).payloadBegin <= |data| + 1
    decreases n
  {
    if n == 0 {
    } else {
      OvershootIsOneByte(data, pos + 2 + SizeAt(data, pos), n - 1);
    }
  }

  /** What was accepted is accepted with one more byte, and as the same ranges. */
  lemma {:induction false} OneMoreByte(data: bytes, x: byte, pos: nat, n: nat)
    requires ParseBlobs(data, pos, n).Parsed?
    ensures ParseBlobs(data + [x], pos, n) == ParseBlobs(data, pos, n)
    decreases n
  {
    if n == 0 {
    } else {
      assert SizeAt(data + [x], pos) == SizeAt(data, pos);
      OneMoreByte(data, x, pos + 2 + SizeAt(data, pos), n - 1);
    }
  }

  /** Frames up to the end, the last one not empty, are accepted as the same ranges with one byte less. */
  lemma {:induction false} OneByteLess(data: bytes, x: byte, pos: nat, n: nat)
    requires n > 0 && ParseBlobs(data + [x], pos, n).Parsed?
    requires var p := ParseBlobs(data + [x], pos, n);
      p.payloadBegin == |data| + 1 && |p.blobs| == n && p.blobs[n - 1].lo < p.blobs[n - 1].hi
    ensures ParseBlobs(data, pos, n) == ParseBlobs(data + [x], pos, n)
    decreases n
  {
    var next := pos + 2 + SizeAt(data + [x], pos);
    RangesInside(data + [x], next, n - 1);
    if n == 1 {
      assert SizeAt(data + [x], pos) == SizeAt(data, pos);
    } else {
      ParsedGrows(data + [x], next, n - 1);
      assert SizeAt(data + [x], pos) == SizeAt(data, pos);
      OneByteLess(data, x, next, n - 1);
    }
  }

  lemma {:induction false} ParsedGrows(data: bytes, pos: nat, n: nat)
    requires ParseBlobs(data, pos, n).Parsed?
    ensures ParseBlobs(data, pos, n).payloadBegin >= pos + 2 * n
    decreases n
  {
    if n == 0 {
    } else {
      ParsedGrows(data, pos + 2 + SizeAt(data, pos), n - 1);
    }
  }

  /** Accepted by the source although the last blob ends behind the vector. */
  predicate Overshoots(data: bytes)
  {
    data != [] && ParsePacket(data).Parsed? && ParsePacket(data).payloadBegin > |data|
  }

  /**
   The vectors accepted with a blob that ends behind them are exactly the encodings with no payload and a
   last blob that is not empty, less their last byte.
   */
  lemma OvershootsExactly(data: bytes)
    ensures Overshoots(data) <==>
            exists blobs, x: byte :: Encodable(blobs) && blobs != [] && blobs[|blobs| - 1] != []
                                     && data + [x] == Encode(blobs, [])
  {
    if Overshoots(data) {
      OvershootIsCutEncoding(data);
    }
    if blobs, x: byte :| Encodable(blobs) && blobs != [] && blobs[|blobs| - 1] != []
                         && data + [x] == Encode(blobs, []) {
      CutEncodingOvershoots(data, blobs, x);
    }
  }

  lemma OvershootIsCutEncoding(data: bytes)
    requires Overshoots(data)
    ensures exists blobs, x: byte :: Encodable(blobs) && blobs != [] && blobs[|blobs| - 1] != []
                                     && data + [x] == Encode(blobs, [])
  {
    var full, n := data + [0], data[0];
    OvershootIsOneByte(data, 1, n);
    OneMoreByte(data, 0, 1, n);
    assert full[0] == n;
    EncodingOf(full);
    LastOvershoots(data, 1, n);
    var p := ParsePacket(full);
    assert full[p.payloadBegin..] == [];
    SliceAt(full, p.blobs, n - 1);
    var blobs := Slices(full, p.blobs);
    assert blobs[|blobs| - 1] != [] && data + [0] == Encode(blobs, []);
  }

  /** The blob that overshoots is the last one, and it is not empty. */
  lemma {:induction false} LastOvershoots(data: bytes, pos: nat, n: nat)
    requires pos <= |data| && ParseBlobs(data, pos, n).Parsed? && ParseBlobs(data, pos, n).payloadBegin > |data|
    ensures n > 0 && |ParseBlobs(data, pos, n).blobs| == n
    ensures var r := ParseBlobs(data, pos, n).blobs[n - 1]; r.lo < r.hi
    decreases n
  {
    RangesInside(data, pos, n);
    var next := pos + 2 + SizeAt(data, pos);
    if next <= |data| {
      LastOvershoots(data, next, n - 1);
    } else if n > 1 {
      assert ParseBlobs(data, next, n - 1).Overrun?;
    }
  }

  lemma {:induction false} SliceAt(data: bytes, ranges: seq<Range>, i: nat)
    requires Inside(ranges, 0, |data|) && i < |ranges|
    ensures |Slices(data, ranges)| == |ranges| && Slices(data, ranges)[i] == data[ranges[i].lo..ranges[i].hi]
    decreases |ranges|
  {
    if |ranges| == 1 {
    } else {
      SliceAt(data, ranges[1..], if i == 0 then 0 else i - 1);
    }
  }

  lemma CutEncodingOvershoots(data: bytes, blobs: seq<bytes>, x: byte)
    requires Encodable(blobs) && blobs != [] && blobs[|blobs| - 1] != [] && data + [x] == Encode(blobs, [])
    ensures Overshoots(data)
  {
    var full := data + [x];
    RoundTrip(blobs, []);
    FramesOfParse(full, 1, full[0]);
    var p := ParsePacket(full);
    SliceAt(full, p.blobs, |blobs| - 1);
    assert data[0] == full[0] == |blobs|;
    OneByteLess(data, x, 1, |blobs|);
  }

  /** Parsing `n` frames is parsing the first `j` and going on behind them. */
  lemma {:induction false} ParseSplits(data: bytes, pos: nat, n: nat, j: nat)
    requires j <= n && ParseBlobs(data, pos, j).Parsed?
    ensures var front := ParseBlobs(data, pos, j);
      ParseBlobs(data, pos, n) == PrependAll(front.blobs, ParseBlobs(data, front.payloadBegin, n - j))
    decreases j
  {
    if j == 0 {
    } else {
      ParseSplits(data, pos + 2 + SizeAt(data, pos), n - 1, j - 1);
    }
  }

  // ---------- packets cut short, packets with more bytes behind ----------

  /**
   The first `k` bytes of a packet parse to the same blobs if and only if the whole header area is
   among them. (What follows the header area may be cut or replaced freely.)
   */
  lemma PrefixKeepsBlobs(blobs: seq<bytes>, payload: bytes, k: nat)
    requires Encodable(blobs) && 0 < k <= |Encode(blobs, payload)|
    ensures Accepts(Encode(blobs, payload)[..k]) <==> 1 + |HeaderArea(blobs)| <= k
    ensures 1 + |HeaderArea(blobs)| <= k ==>
              Encode(blobs, payload)[..k] == Encode(blobs, payload[..k - 1 - |HeaderArea(blobs)|])
  {
    var data := Encode(blobs, payload);
    var h := 1 + |HeaderArea(blobs)|;
    if h <= k {
      EncodeExtends(blobs, payload[..k - h], payload[k - h..]);
      assert payload[..k - h] + payload[k - h..] == payload;
      assert data[..k] == Encode(blobs, payload[..k - h]);
      RoundTrip(blobs, payload[..k - h]);
    }
    if Accepts(data[..k]) {
      ShortPrefixRejected(blobs, payload, k);
    }
  }

  lemma ShortPrefixRejected(blobs: seq<bytes>, payload: bytes, k: nat)
    requires Encodable(blobs) && k <= |Encode(blobs, payload)| && Accepts(Encode(blobs, payload)[..k])
    ensures 1 + |HeaderArea(blobs)| <= k
  {
    var data := Encode(blobs, payload);
    AcceptsExactlyEncodings(data[..k]);
    var b2, p2 :| Encodable(b2) && data[..k] == Encode(b2, p2);
    EncodeExtends(b2, p2, data[k..]);
    assert data == data[..k] + data[k..];
    EncodeInjective(blobs, payload, b2, p2 + data[k..]);
  }

  lemma EncodeExtends(blobs: seq<bytes>, payload: bytes, more: bytes)
    requires Encodable(blobs)
    ensures Encode(blobs, payload) + more == Encode(blobs, payload + more)
  {
  }

  // ---------- header packets ----------

  /** What a received packet with a header exposes: its blobs (the last one is the header) and payload. */
  datatype Opened = Opened(blobs: seq<bytes>, payload: bytes)
  {
    function Header(): bytes
      requires blobs != []
    {
      blobs[|blobs| - 1]
    }
  }

  /** The immutable `HeaderPacketT` constructor: valid iff the last blob has the size of the header. */
  function OpenHeaderPacket(data: bytes, headerSize: nat): Option<Opened>
  {
    if Accepts(data) then
      var p := ParsePacket(data);
      RangesInside(data, 1, data[0]);
      var blobs := Slices(data, p.blobs);
      if blobs != [] && |blobs[|blobs| - 1]| == headerSize
      then Some(Opened(blobs, data[p.payloadBegin..]))
      else None
    else
      None
  }

  lemma OpenRoundTrip(blobs: seq<bytes>, header: bytes, payload: bytes)
    requires Encodable(blobs + [header])
    ensures OpenHeaderPacket(Encode(blobs + [header], payload), |header|)
            == Some(Opened(blobs + [header], payload))
  {
    RoundTrip(blobs + [header], payload);
  }

  // ---------- wire lengths ----------

  /** Overhead of one blob; an empty blob is never written. */
  function BlobWireLength(n: nat): nat
  {
    if n == 0 then 0 else n + 2
  }

  function WireLength(payloadLength: nat, blobLengths: seq<nat>): nat
  {
    1 + payloadLength + SumBlobLengths(blobLengths)
  }

  function SumBlobLengths(blobLengths: seq<nat>): nat
  {
    if blobLengths == [] then 0 else BlobWireLength(blobLengths[0]) + SumBlobLengths(blobLengths[1..])
  }

  function Lengths(blobs: seq<bytes>): seq<nat>
  {
    seq(|blobs|, i requires 0 <= i < |blobs| => |blobs[i]|)
  }

  /** The static length computation agrees with the bytes `Encode` produces, when no blob is empty. */
  lemma {:induction false} WireLengthIsLength(blobs: seq<bytes>, payload: bytes)
    requires Encodable(blobs) && [] !in blobs
    ensures |Encode(blobs, payload)| == WireLength(|payload|, Lengths(blobs))
  {
    HeaderAreaLength(blobs);
  }

  lemma {:induction false} HeaderAreaLength(blobs: seq<bytes>)
    requires BlobsFit(blobs) && [] !in blobs
    ensures |HeaderArea(blobs)| == SumBlobLengths(Lengths(blobs))
  {
    if blobs == [] {
    } else {
      HeaderAreaLength(blobs[1..]);
      assert Lengths(blobs)[1..] == Lengths(blobs[1..]);
      assert blobs[0] in blobs;
    }
  }

  lemma {:induction false} HeaderAreaAppend(blobs: seq<bytes>, b: bytes)
    requires BlobsFit(blobs + [b])
    ensures BlobsFit(blobs) && |b| < MAX_BLOB_LENGTH
    ensures HeaderArea(blobs + [b]) == HeaderArea(blobs) + Frame(b)
  {
    assert (blobs + [b])[|blobs|] == b && forall i | 0 <= i < |blobs| :: (blobs + [b])[i] == blobs[i];
    if blobs == [] {
      assert blobs + [b] == [b];
      assert HeaderArea([b]) == Frame(b) + HeaderArea([]);
    } else {
      assert (blobs + [b])[1..] == blobs[1..] + [b];
      HeaderAreaAppend(blobs[1..], b);
      assert HeaderArea(blobs + [b]) == Frame(blobs[0]) + (HeaderArea(blobs[1..]) + Frame(b));
    }
  }

  lemma {:induction false} HeaderAreaConcat(a: seq<bytes>, b: seq<bytes>)
    requires BlobsFit(a) && BlobsFit(b)
    ensures BlobsFit(a + b) && HeaderArea(a + b) == HeaderArea(a) + HeaderArea(b)
    decreases |a|
  {
    if a == [] {
      assert a + b == b;
    } else {
      var rest := a[1..];
      HeaderAreaConcat(rest, b);
      assert (a + b)[0] == a[0] && (a + b)[1..] == rest + b;
      Associates(Frame(a[0]), HeaderArea(rest), HeaderArea(b));
    }
  }

  // ---------- the mutable packet ----------

  class DataPacket {
    var data: bytes
    var blobs: seq<Range>
    var payloadBegin: nat
    var isValid: bool
    var isHeaderSet: bool

    /** The bytes are an encoding and the iterators are what the parser finds in them. */
    ghost predicate Coherent()
      reads this
    {
      && Accepts(data)
      && ParsePacket(data) == Parsed(blobs, payloadBegin)
      && Inside(blobs, 0, |data|)
    }

    ghost function Blobs(): seq<bytes>
      requires Coherent()
      reads this
    {
      Slices(data, blobs)
    }

    ghost function Payload(): bytes
      requires Coherent()
      reads this
    {
      data[payloadBegin..]
    }

    /** `HeaderPacketT(payload)`: a counter byte in front of the payload, not valid until a header is set. */
    constructor (payload: bytes)
      ensures Coherent() && Blobs() == [] && Payload() == payload
      ensures !isHeaderSet && !isValid
    {
      data := [0] + payload;
      blobs := [];
      payloadBegin := 1;
      isValid := false;
      isHeaderSet := false;
      new;
      assert data[1..] == payload;
    }

    /** Recomputes the iterators from the bytes; accepts, or leaves the packet marked invalid. */
    method Reinit()
      modifies `blobs, `payloadBegin, `isValid
      ensures data == [] ==> blobs == [] && !isValid && payloadBegin == old(payloadBegin)
      ensures data != [] ==> match ParsePacket(data)
              case Parsed(bs, p) => blobs == bs && payloadBegin == p && isValid == old(isValid)
              case Malformed(bs) => blobs == bs && payloadBegin == old(payloadBegin) && !isValid
              case Overrun(bs) => blobs == bs && payloadBegin == old(payloadBegin) && !isValid
    {
      blobs := [];
      if |data| == 0 {
        isValid := false;
        return;
      }
      var p1: nat := 1;
      var nBlobs: nat := data[0];
      var i := 0;
      var invalid := false;
      ghost var whole := ParsePacket(data);
      while i < nBlobs && !invalid
        invariant 0 <= i <= nBlobs
        invariant !invalid ==> whole == PrependAll(blobs, ParseBlobs(data, p1, nBlobs - i))
        invariant invalid ==> !whole.Parsed? && whole.blobs == blobs
        invariant payloadBegin == old(payloadBegin) && isValid == old(isValid)
        decreases nBlobs - i, !invalid
      {
        PrependAllShape(blobs, ParseBlobs(data, p1, nBlobs - i));
        if p1 + 1 >= |data| {
          // the source reads the length field past the end here
          invalid := true;
          assert whole.blobs == blobs + [];
          break;
        }
        var blobSize := SizeAt(data, p1);
        p1 := p1 + 1;
        if p1 + blobSize > |data| {
          invalid := true;
          assert whole.blobs == blobs + [];
          break;
        }
        p1 := p1 + 1;
        var p2 := p1 + blobSize;
        PrependAllAppend(blobs, Range(p1, p2), ParseBlobs(data, p2, nBlobs - i - 1));
        blobs := blobs + [Range(p1, p2)];
        p1 := p2;
        i := i + 1;
      }
      if !invalid {
        PrependAllShape(blobs, Parsed([], p1));
        assert blobs + [] == blobs;
        payloadBegin := p1;
      } else {
        isValid := false;
      }
    }

    /**
     Appends a blob. The length parameter is 16 bits wide, so only that many bytes are taken; an empty
     blob is dropped. With fewer than 255 blobs the packet gains exactly this blob; the 256th one wraps
     the counter to zero and every blob is lost to the payload.
     */
    method AddBlob(d: bytes)
      requires Coherent()
      modifies `data, `blobs, `payloadBegin, `isValid
      ensures Coherent() && isValid == old(isValid)
      ensures var b := d[..|d| % MAX_BLOB_LENGTH];
        if b == [] then
          data == old(data) && Blobs() == old(Blobs()) && Payload() == old(Payload())
        else if |old(blobs)| < 255 then
          Blobs() == old(Blobs()) + [b] && Payload() == old(Payload())
        else
          Blobs() == [] && |data| == |old(data)| + |b| + 2
    {
      var n := |d| % MAX_BLOB_LENGTH;
      if n == 0 {
        return;
      }
      ghost var bs, payload, b := Blobs(), Payload(), d[..n];
      CounterPart(bs, payload);
      ghost var front := [if |bs| == 255 then 0 else |bs| + 1] + HeaderArea(bs);

      data := data[0 := (data[0] as nat + 1) % 256];
      FrameInserted(front, b, payload);

      data := Insert(data, payloadBegin, [n % 256]);
      payloadBegin := payloadBegin + 1;
      data := Insert(data, payloadBegin, [n / 256]);
      payloadBegin := payloadBegin + 1;
      data := Insert(data, payloadBegin, d[..n]);

      AddedBlob(data, bs, b, payload);
      Reinit();
    }

    /** Adds the header as the last blob; a second header is refused. */
    method SetHeader(header: bytes) returns (ok: bool)
      requires Coherent()
      modifies this
      ensures Coherent()
      ensures ok == !old(isHeaderSet)
      ensures !ok ==> data == old(data) && isValid == old(isValid) && isHeaderSet
      ensures ok ==> isValid && isHeaderSet
      ensures ok && 0 < |header| < MAX_BLOB_LENGTH && |old(blobs)| < 255 ==>
                Blobs() == old(Blobs()) + [header] && Payload() == old(Payload())
    {
      if isHeaderSet {
        return false;
      }
      assert header[..|header|] == header;
      AddBlob(header);
      isValid := true;
      isHeaderSet := true;
      return true;
    }

    /** Back to an empty packet; `isValid_` is not touched. */
    method Clear()
      modifies `data, `blobs, `payloadBegin, `isHeaderSet
      ensures Coherent() && Blobs() == [] && Payload() == [] && !isHeaderSet
    {
      data := [0];
      payloadBegin := 1;
      blobs := [];
      isHeaderSet := false;
    }

    lemma CounterPart(bs: seq<bytes>, payload: bytes)
      requires Coherent() && bs == Blobs() && payload == Payload()
      ensures Encodable(bs) && |bs| == |blobs|
      ensures var front := [if |bs| == 255 then 0 else |bs| + 1] + HeaderArea(bs);
        && payloadBegin == |front|
        && data[0 := (data[0] as nat + 1) % 256] == front + payload
    {
      DataIsEncoding();
      RoundTrip(bs, payload);
      CountUp(bs, payload);
    }

    /** A coherent packet holds exactly the encoding of its blobs and its payload. */
    lemma DataIsEncoding()
      requires Coherent()
      ensures Encodable(Blobs()) && data == Encode(Blobs(), Payload())
      ensures |Blobs()| == |blobs| == data[0]
    {
      EncodingOf(data);
    }
  }

  /** What the bytes mean after the counter, a frame and nothing else have changed. */
  lemma AddedBlob(data: bytes, bs: seq<bytes>, b: bytes, payload: bytes)
    requires Encodable(bs) && |b| < MAX_BLOB_LENGTH
    requires data == [if |bs| == 255 then 0 else |bs| + 1] + HeaderArea(bs) + Frame(b) + payload
    ensures Accepts(data)
    ensures var p := ParsePacket(data);
      && Inside(p.blobs, 0, |data|)
      && (|bs| < 255 ==> Slices(data, p.blobs) == bs + [b] && data[p.payloadBegin..] == payload)
      && (|bs| == 255 ==> Slices(data, p.blobs) == [])
  {
    if |bs| < 255 {
      HeaderAreaAppend(bs, b);
      Reassociate([|bs| + 1], HeaderArea(bs), Frame(b), payload);
      RoundTrip(bs + [b], payload);
    } else {
      NoBlobs(data);
    }
  }

  lemma Reassociate(a: bytes, b: bytes, c: bytes, d: bytes)
    ensures a + b + c + d == a + (b + c) + d
  {
  }

  /** The three insertions of `addBlob` put a frame between what was in front and what was behind. */
  lemma FrameInserted(front: bytes, b: bytes, rest: bytes)
    requires |b| < MAX_BLOB_LENGTH
    ensures var v1 := Insert(front + rest, |front|, [|b| % 256]);
      var v2 := Insert(v1, |front| + 1, [|b| / 256]);
      Insert(v2, |front| + 2, b) == front + Frame(b) + rest
  {
  }

  /** Counting up the first byte; the counter wraps at 256 blobs. */
  lemma CountUp(blobs: seq<bytes>, payload: bytes)
    requires Encodable(blobs)
    ensures var data := Encode(blobs, payload);
      data[0 := (data[0] as nat + 1) % 256]
      == [if |blobs| == 255 then 0 else |blobs| + 1] + HeaderArea(blobs) + payload
  {
    var data, n := Encode(blobs, payload), |blobs|;
    WrappedCount(n);
    assert data[0] == n;
    ReplaceFirst(n, (n + 1) % 256, HeaderArea(blobs), payload);
  }

  lemma WrappedCount(n: byte)
    ensures (n + 1) % 256 == if n == 255 then 0 else n + 1
  {
  }

  lemma ReplaceFirst(x: byte, y: byte, a: bytes, b: bytes)
    ensures ([x] + a + b)[0 := y] == [y] + a + b
  {
  }

  lemma NoBlobs(data: bytes)
    requires data != [] && data[0] == 0
    ensures ParsePacket(data) == Parsed([], 1) && Accepts(data) && Slices(data, []) == []
  {
  }

  ghost function PrependAll(rs: seq<Range>, p: Parse): Parse
  {
    if rs == [] then p else PrependAll(rs[1..], p).Prepend(rs[0])
  }

  lemma {:induction false} PrependAllAppend(rs: seq<Range>, r: Range, p: Parse)
    ensures PrependAll(rs + [r], p) == PrependAll(rs, p.Prepend(r))
  {
    if rs == [] {
      assert [r][1..] == [];
      assert rs + [r] == [r];
    } else {
      assert (rs + [r])[1..] == rs[1..] + [r];
      PrependAllAppend(rs[1..], r, p);
    }
  }

  lemma {:induction false} PrependAllShape(rs: seq<Range>, p: Parse)
    ensures PrependAll(rs, p).blobs == rs + p.blobs
    ensures PrependAll(rs, p).Parsed? <==> p.Parsed?
    ensures PrependAll(rs, p).Malformed? <==> p.Malformed?
    ensures p.Parsed? ==> PrependAll(rs, p).payloadBegin == p.payloadBegin
  {
    if rs == [] {
      assert rs + p.blobs == p.blobs;
    } else {
      PrependAllShape(rs[1..], p);
      assert [rs[0]] + (rs[1..] + p.blobs) == rs + p.blobs;
    }
  }
}
