/**
 Video frame packets: an encoder header as blob 0, the sync list as pairs of blobs, and the common sample
 header as the last blob, in front of the encoded frame.
 */
module VideoPacket {
  import opened Bytes
  import opened NetworkData
  import opened Options
  import opened PacketNumbers

  const FRAME_HEADER_SIZE := 29
  const COMMON_HEADER_SIZE := 24

  /** How a packet number lies in memory. */
  function NumberBytes(n: PacketNumber): bytes
  {
    UnsignedBytes(if n < 0 then n + 0x1_0000_0000 else n)
  }

  function UnsignedBytes(u: nat): bytes
    requires u < 0x1_0000_0000
  {
    var h1 := HighByte(u);
    var h2 := HighByte(h1);
    var h3 := HighByte(h2);
    [u - 256 * h1, h1 - 256 * h2, h2 - 256 * h3, h3]
  }

  function UnsignedValue(b: bytes): nat
    requires |b| >= 4
  {
    b[0] as nat + 256 * b[1] as nat + 0x1_0000 * b[2] as nat + 0x100_0000 * b[3] as nat
  }

  function NumberValue(b: bytes): PacketNumber
    requires |b| >= 4
  {
    var u := UnsignedValue(b);
    assert u < 0x1_0000_0000;
    if u >= 0x8000_0000 then u - 0x1_0000_0000 else u
  }

  lemma NumberRoundTrip(n: PacketNumber)
    ensures |NumberBytes(n)| == 4 && NumberValue(NumberBytes(n)) == n
  {
  }

  /** The low byte comes first. */
  lemma LowByteFirst(u: nat)
    requires u < 0x1_0000_0000
    ensures UnsignedBytes(u) == [u % 256, u / 256 % 256, u / 256 / 256 % 256, u / 256 / 256 / 256]
  {
    var h1 := HighByte(u);
    var h2 := HighByte(h1);
    HighByteIsQuotient(u);
    HighByteIsQuotient(h1);
    HighByteIsQuotient(h2);
  }

  // ---------- sync lists ----------

  /** One entry of the source's `map<string, PacketNumber>`; a list holds them in iteration order. */
  datatype SyncEntry = SyncEntry(thread: bytes, no: PacketNumber)

  predicate ShortNames(list: seq<SyncEntry>)
  {
    forall i | 0 <= i < |list| :: |list[i].thread| < MAX_BLOB_LENGTH
  }

  predicate NoEmptyName(list: seq<SyncEntry>)
  {
    forall i | 0 <= i < |list| :: list[i].thread != []
  }

  /** The blobs `setSyncList` leaves behind for one entry: `addBlob` drops an empty name. */
  function EntryBlobs(e: SyncEntry): seq<bytes>
  {
    (if e.thread == [] then [] else [e.thread]) + [NumberBytes(e.no)]
  }

  function SyncBlobs(list: seq<SyncEntry>): seq<bytes>
  {
    if list == [] then [] else EntryBlobs(list[0]) + SyncBlobs(list[1..])
  }

  ghost function MapOf(list: seq<SyncEntry>, acc: map<bytes, PacketNumber>): map<bytes, PacketNumber>
  {
    if list == [] then acc else MapOf(list[1..], acc[list[0].thread := list[0].no])
  }

  /** What the loop of `getSyncList` collects from blob `i` on. */
  ghost function ReadSync(blobs: seq<bytes>, i: nat, acc: map<bytes, PacketNumber>): map<bytes, PacketNumber>
    decreases |blobs| - i
  {
    if i + 1 < |blobs| && |blobs[i + 1]| >= 4
    then ReadSync(blobs, i + 2, acc[blobs[i] := NumberValue(blobs[i + 1])])
    else acc
  }

  /** Every value blob the loop visits is wide enough to be read as a packet number. */
  predicate ValuesReadable(blobs: seq<bytes>)
  {
    forall i | 0 <= i < |blobs| && 2 * i + 2 < |blobs| :: |blobs[2 * i + 2]| >= 4
  }

  method GetSyncList(blobs: seq<bytes>) returns (list: map<bytes, PacketNumber>)
    requires ValuesReadable(blobs)
    ensures list == ReadSync(blobs, 1, map[])
  {
    list := map[];
    var blob := 1;
    ghost var k := 0;
    while blob + 1 < |blobs|
      invariant blob == 2 * k + 1
      invariant ReadSync(blobs, 1, map[]) == ReadSync(blobs, blob, list)
    {
      assert |blobs[2 * k + 2]| >= 4;
      list := list[blobs[blob] := NumberValue(blobs[blob + 1])];
      blob := blob + 2;
      k := k + 1;
    }
  }

  lemma {:induction false} ReadInvertsSync(before: seq<bytes>, list: seq<SyncEntry>, tail: seq<bytes>,
                                           acc: map<bytes, PacketNumber>)
    requires NoEmptyName(list) && |tail| <= 1
    ensures ReadSync(before + SyncBlobs(list) + tail, |before|, acc) == MapOf(list, acc)
    decreases |list|
  {
    var blobs := before + SyncBlobs(list) + tail;
    if list == [] {
    } else {
      var pair := [list[0].thread, NumberBytes(list[0].no)];
      NumberRoundTrip(list[0].no);
      assert blobs == (before + pair) + SyncBlobs(list[1..]) + tail;
      assert blobs[|before|] == list[0].thread && blobs[|before| + 1] == NumberBytes(list[0].no);
      ReadInvertsSync(before + pair, list[1..], tail, acc[list[0].thread := list[0].no]);
    }
  }

  lemma {:induction false} MapOfHasThreads(list: seq<SyncEntry>, acc: map<bytes, PacketNumber>, t: bytes)
    ensures t in MapOf(list, acc) <==> t in acc || exists i :: 0 <= i < |list| && list[i].thread == t
  {
    if list == [] {
    } else {
      MapOfHasThreads(list[1..], acc[list[0].thread := list[0].no], t);
      if i :| 0 <= i < |list| && list[i].thread == t {
        assert i == 0 || list[1..][i - 1].thread == t;
      }
      if i :| 0 <= i < |list| - 1 && list[1..][i].thread == t {
        assert list[i + 1].thread == t;
      }
    }
  }

  lemma {:induction false} ReadsNoEmptyName(blobs: seq<bytes>, i: nat, acc: map<bytes, PacketNumber>)
    requires [] !in acc && forall j | 0 <= j < |blobs| :: blobs[j] != []
    ensures [] !in ReadSync(blobs, i, acc)
    decreases |blobs| - i
  {
    if i + 1 < |blobs| && |blobs[i + 1]| >= 4 {
      ReadsNoEmptyName(blobs, i + 2, acc[blobs[i] := NumberValue(blobs[i + 1])]);
    }
  }

  lemma {:induction false} SyncBlobsNotEmpty(list: seq<SyncEntry>)
    ensures forall j | 0 <= j < |SyncBlobs(list)| :: SyncBlobs(list)[j] != []
  {
    if list == [] {
    } else {
      NumberRoundTrip(list[0].no);
      SyncBlobsNotEmpty(list[1..]);
    }
  }

  /**
   A packet gives back the sync list it was built with, before and after the common header was added, if
   and only if no thread name in the list is empty.
   */
  lemma SyncListRoundTrip(frameHeader: bytes, list: seq<SyncEntry>, tail: seq<bytes>)
    requires frameHeader != [] && |tail| <= 1 && [] !in tail
    ensures ReadSync([frameHeader] + SyncBlobs(list) + tail, 1, map[]) == MapOf(list, map[])
            <==> NoEmptyName(list)
  {
    var blobs := [frameHeader] + SyncBlobs(list) + tail;
    if NoEmptyName(list) {
      ReadInvertsSync([frameHeader], list, tail, map[]);
    } else {
      var i :| 0 <= i < |list| && list[i].thread == [];
      MapOfHasThreads(list, map[], []);
      SyncBlobsNotEmpty(list);
      forall j | 0 <= j < |blobs| ensures blobs[j] != [] {
        if j > |SyncBlobs(list)| {
          assert blobs[j] == tail[j - 1 - |SyncBlobs(list)|];
        }
      }
      ReadsNoEmptyName(blobs, 1, map[]);
    }
  }

  lemma {:induction false} SyncBlobsShape(list: seq<SyncEntry>)
    requires NoEmptyName(list) && ShortNames(list)
    ensures BlobsFit(SyncBlobs(list)) && |SyncBlobs(list)| == 2 * |list|
    ensures forall i | 0 <= i < |list| :: |SyncBlobs(list)[2 * i + 1]| == 4
  {
    if list == [] {
    } else {
      NumberRoundTrip(list[0].no);
      SyncBlobsShape(list[1..]);
      var rest := SyncBlobs(list[1..]);
      assert SyncBlobs(list) == [list[0].thread, NumberBytes(list[0].no)] + rest;
      forall i | 0 <= i < |list| ensures |SyncBlobs(list)[2 * i + 1]| == 4 {
        if i > 0 {
          assert SyncBlobs(list)[2 * i + 1] == rest[2 * (i - 1) + 1];
        }
      }
    }
  }

  // ---------- the packet ----------

  /** The encoder header; only the frame length, its last field, is read back by the packet code. */
  predicate IsFrameHeader(header: bytes, frame: bytes)
  {
    && |header| == FRAME_HEADER_SIZE
    && |frame| < 0x1_0000_0000
    && header[FRAME_HEADER_SIZE - 4..] == UnsignedBytes(|frame|)
  }

  function PacketBlobs(frameHeader: bytes, list: seq<SyncEntry>, common: bytes): seq<bytes>
  {
    [frameHeader] + SyncBlobs(list) + [common]
  }

  predicate Publishable(frameHeader: bytes, list: seq<SyncEntry>, common: bytes, frame: bytes)
  {
    && IsFrameHeader(frameHeader, frame)
    && |common| == COMMON_HEADER_SIZE
    && NoEmptyName(list) && ShortNames(list) && 2 * |list| + 2 <= 255
  }

  /** `getFrame`: as many payload bytes as the encoder header says. */
  function FrameOf(p: Opened): Option<bytes>
  {
    if p.blobs != [] && |p.blobs[0]| == FRAME_HEADER_SIZE
       && UnsignedValue(p.blobs[0][FRAME_HEADER_SIZE - 4..]) <= |p.payload|
    then Some(p.payload[..UnsignedValue(p.blobs[0][FRAME_HEADER_SIZE - 4..])])
    else None
  }

  lemma PacketEncodable(frameHeader: bytes, list: seq<SyncEntry>, common: bytes, frame: bytes)
    requires Publishable(frameHeader, list, common, frame)
    ensures Encodable(PacketBlobs(frameHeader, list, common))
  {
    SyncBlobsShape(list);
    var blobs := PacketBlobs(frameHeader, list, common);
    forall i | 0 <= i < |blobs| ensures |blobs[i]| < MAX_BLOB_LENGTH {
      if 0 < i < |blobs| - 1 {
        assert blobs[i] == SyncBlobs(list)[i - 1];
      }
    }
  }

  /**
   A received video packet, with any bytes behind the published ones, shows the same common header, the
   same sync list and exactly the published frame.
   */
  lemma VideoRoundTrip(frameHeader: bytes, list: seq<SyncEntry>, common: bytes, frame: bytes, padding: bytes)
    requires Publishable(frameHeader, list, common, frame)
    ensures var blobs := PacketBlobs(frameHeader, list, common);
      && Encodable(blobs)
      && var p := OpenHeaderPacket(Encode(blobs, frame) + padding, COMMON_HEADER_SIZE);
      && p.Some?
      && p.value.blobs == blobs
      && p.value.Header() == common
      && ReadSync(p.value.blobs, 1, map[]) == MapOf(list, map[])
      && FrameOf(p.value) == Some(frame)
  {
    var blobs := PacketBlobs(frameHeader, list, common);
    PacketEncodable(frameHeader, list, common, frame);
    EncodeExtends(blobs, frame, padding);
    OpenRoundTrip([frameHeader] + SyncBlobs(list), common, frame + padding);
    SyncListRoundTrip(frameHeader, list, [common]);
    assert UnsignedValue(UnsignedBytes(|frame|)) == |frame|;
    assert (frame + padding)[..|frame|] == frame;
  }

  class VideoFramePacket {
    const packet: DataPacket
    var isSyncListSet: bool

    constructor (frameHeader: bytes, frame: bytes)
      requires IsFrameHeader(frameHeader, frame)
      ensures fresh(packet) && packet.Coherent() && packet.Blobs() == [frameHeader] && packet.Payload() == frame
      ensures !isSyncListSet && !packet.isHeaderSet
    {
      packet := new DataPacket(frame);
      isSyncListSet := false;
      new;
      assert frameHeader[..|frameHeader|] == frameHeader;
      packet.AddBlob(frameHeader);
    }

    /** The body of the loop in `setSyncList`. */
    method AddEntry(it: SyncEntry)
      requires packet.Coherent() && |it.thread| < MAX_BLOB_LENGTH && |packet.blobs| <= 253
      modifies packet`data, packet`blobs, packet`payloadBegin, packet`isValid
      ensures packet.Coherent() && packet.Payload() == old(packet.Payload())
      ensures packet.Blobs() == old(packet.Blobs()) + EntryBlobs(it)
      ensures |packet.blobs| <= |old(packet.blobs)| + 2
    {
      ghost var before := packet.Blobs();
      NumberRoundTrip(it.no);
      assert it.thread[..|it.thread|] == it.thread;
      assert NumberBytes(it.no)[..4] == NumberBytes(it.no);
      packet.DataIsEncoding();
      packet.AddBlob(it.thread);
      ghost var between := packet.Blobs();
      assert between == before + (if it.thread == [] then [] else [it.thread]);
      packet.DataIsEncoding();
      packet.AddBlob(NumberBytes(it.no));
      assert packet.Blobs() == between + [NumberBytes(it.no)];
      packet.DataIsEncoding();
      assert packet.Blobs() == before + EntryBlobs(it);
    }

    /** Refused once the header or a sync list is in place; otherwise appends name and number per entry. */
    method SetSyncList(list: seq<SyncEntry>) returns (ok: bool)
      requires packet.Coherent() && ShortNames(list)
      requires |packet.blobs| + 2 * |list| <= 255
      modifies this`isSyncListSet, packet`data, packet`blobs, packet`payloadBegin, packet`isValid
      ensures packet.Coherent()
      ensures ok == (!packet.isHeaderSet && !old(isSyncListSet))
      ensures !ok ==> packet.data == old(packet.data) && isSyncListSet == old(isSyncListSet)
      ensures ok ==> packet.Blobs() == old(packet.Blobs()) + SyncBlobs(list)
                     && packet.Payload() == old(packet.Payload()) && isSyncListSet
    {
      if packet.isHeaderSet || isSyncListSet {
        return false;
      }
      ghost var before := packet.Blobs();
      packet.DataIsEncoding();
      for i := 0 to |list|
        invariant packet.Coherent()
        invariant |packet.blobs| <= |old(packet.blobs)| + 2 * i
        invariant packet.Blobs() + SyncBlobs(list[i..]) == before + SyncBlobs(list)
        invariant packet.Payload() == old(packet.Payload())
        invariant packet.isHeaderSet == old(packet.isHeaderSet)
      {
        SyncBlobsStep(packet.Blobs(), list, i);
        AddEntry(list[i]);
      }
      isSyncListSet := true;
      return true;
    }
  }

  lemma SyncBlobsStep(before: seq<bytes>, list: seq<SyncEntry>, i: nat)
    requires i < |list|
    ensures before + SyncBlobs(list[i..]) == (before + EntryBlobs(list[i])) + SyncBlobs(list[i + 1..])
  {
  }
}
