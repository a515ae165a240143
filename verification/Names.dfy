/**
 Names of streams, threads, samples and segments: the parser `extractInfo` and the printers `getPrefix` and
 `getSuffix`.

 A name is a sequence of components. ndn-cpp marks numbers with a leading byte; here a component is a tagged
 value, and the text of a component is its escaped form, so that appending an escaped text component gives
 the component back.
 */
module Names {
  import opened PacketNumbers

  type uint32 = n: int | 0 <= n < 0x1_0000_0000
  type uint64 = n: int | 0 <= n < 0x1_0000_0000_0000_0000

  datatype Component =
    | Text(text: string)
    | Version(n: uint64)
    | Segment(n: uint64)
    | SequenceNumber(n: uint64)
    | Timestamp(n: uint64)

  type Name = seq<Component>

  const APP := Text("ndnrtc")
  const AUDIO := Text("audio")
  const VIDEO := Text("video")
  const META := Text("_meta")
  const DELTA := Text("d")
  const KEY := Text("k")
  const PARITY := Text("_parity")
  const MANIFEST := Text("_manifest")

  /** The escaped form of a marked number starts with a percent sign, and is no marked number when appended. */
  function Escaped(c: Component): string
  {
    match c
    case Text(s) => s
    case Version(_) => "%FD"
    case Segment(_) => "%00"
    case SequenceNumber(_) => "%FE"
    case Timestamp(_) => "%FC"
  }

  // conversions between the 64-bit numbers of components and the fields
  function ToUint32(n: uint64): uint32
  {
    n % 0x1_0000_0000
  }

  function ToPacketNumber(n: uint64): PacketNumber
  {
    if ToUint32(n) < 0x8000_0000 then ToUint32(n) else ToUint32(n) - 0x1_0000_0000
  }

  function FromPacketNumber(n: PacketNumber): uint64
  {
    if n < 0 then n + 0x1_0000_0000_0000_0000 else n
  }

  datatype SampleClass = Unknown | Key | Delta
  datatype SegmentClass = UnknownSegment | Data | Parity | Manifest | Meta

  datatype Info = Info(
    basePrefix: Name, apiVersion: uint32, isVideo: bool, streamName: string, threadName: string,
    isMeta: bool, isParity: bool, isDelta: bool, hasSeqNo: bool, hasSegNo: bool,
    class_: SampleClass, segmentClass: SegmentClass,
    sampleNo: PacketNumber, segNo: uint32, metaVersion: uint32, streamTimestamp: uint64)

  /** What the constructor sets; stream type, `hasSegNo` and the timestamp are left as memory has them. */
  predicate Initialised(i: Info)
  {
    && i.basePrefix == [] && i.apiVersion == 0 && i.streamName == "" && i.threadName == ""
    && !i.isMeta && !i.isParity && !i.isDelta && !i.hasSeqNo
    && i.class_ == Unknown && i.segmentClass == UnknownSegment
    && i.sampleNo == 0 && i.segNo == 0 && i.metaVersion == 0
  }

  // ---------- printing ----------

  const BASE: bv8 := 1
  const LIBRARY: bv8 := 3
  const STREAM: bv8 := 7
  const STREAM_TS: bv8 := 15
  const THREAD_NT: bv8 := 31
  const THREAD: bv8 := 63
  const SAMPLE: bv8 := 127
  const SEGMENT: bv8 := 255

  const S_SEGMENT: bv8 := 1
  const S_SAMPLE: bv8 := 3
  const S_THREAD: bv8 := 7
  const S_STREAM: bv8 := 15
  const S_LIBRARY: bv8 := 31

  predicate Has(filter: bv8, bits: bv8)
  {
    filter & bits != 0
  }

  function When(b: bool, n: Name): Name
  {
    if b then n else []
  }

  function AppPart(i: Info): Name
  {
    [APP, Version(i.apiVersion)]
  }

  function StreamPart(i: Info): Name
  {
    [if i.isVideo then VIDEO else AUDIO, Text(i.streamName)]
  }

  function ClassPart(i: Info): Name
  {
    [if i.class_ == Delta then DELTA else KEY]
  }

  function SequencePart(i: Info): Name
  {
    [SequenceNumber(FromPacketNumber(i.sampleNo))]
  }

  function SegmentPart(i: Info): Name
  {
    When(i.isParity, [PARITY]) + [Segment(i.segNo)]
  }

  function Prefix(i: Info, filter: bv8): Name
  {
    if filter == 0 then i.basePrefix
    else
      i.basePrefix
      + When(Has(filter, LIBRARY ^ BASE), AppPart(i))
      + When(Has(filter, STREAM ^ LIBRARY), StreamPart(i))
      + When(Has(filter, STREAM_TS ^ STREAM) && i.threadName != "", [Timestamp(i.streamTimestamp)])
      + When(i.threadName != "" && Has(filter, THREAD ^ STREAM_TS), [Text(i.threadName)])
      + (if i.isMeta then MetaEnd(i, filter) else SampleEnd(i, filter))
  }

  function MetaEnd(i: Info, filter: bv8): Name
  {
    When(Has(filter, SEGMENT ^ THREAD), [META])
    + When(Has(filter, SEGMENT ^ SAMPLE), [Version(i.metaVersion), Segment(i.segNo)])
  }

  function SampleEnd(i: Info, filter: bv8): Name
  {
    When(Has(filter, THREAD ^ THREAD_NT) && i.threadName != "" && i.isVideo, ClassPart(i))
    + When(Has(filter, SAMPLE ^ THREAD), SequencePart(i))
    + When(Has(filter, SEGMENT ^ SAMPLE), SegmentPart(i))
  }

  /**
   The source's second condition for the thread name compares the stream type before it masks the filter
   with it. No filter has a bit in both masks, so the condition never holds.
   */
  lemma NoCommonBit(filter: bv8, isVideo: bool)
    ensures filter & (THREAD_NT ^ STREAM_TS) & (if isVideo then 1 else 0) == 0
  {
  }

  function Suffix(i: Info, filter: bv8): Name
  {
    if filter == 0 then []
    else
      When(Has(filter, S_LIBRARY ^ S_STREAM), AppPart(i))
      + When(Has(filter, S_STREAM ^ S_THREAD),
             StreamPart(i) + When(i.threadName != "", [Timestamp(i.streamTimestamp)]))
      + When(Has(filter, S_THREAD ^ S_SAMPLE) && i.threadName != "", [Text(i.threadName)])
      + SuffixEnd(i, filter)
  }

  function KindPart(i: Info, filter: bv8): Name
  {
    When(i.isMeta && ((Has(filter, S_THREAD ^ S_SAMPLE) && i.threadName != "")
                      || Has(filter, S_STREAM ^ S_THREAD)), [META])
    + When(Has(filter, S_THREAD ^ S_SAMPLE) && i.threadName != "" && i.isVideo && !i.isMeta, ClassPart(i))
  }

  function NumberPart(i: Info, filter: bv8): Name
  {
    When(Has(filter, S_SAMPLE ^ S_SEGMENT), if i.isMeta then [Version(i.metaVersion)] else SequencePart(i))
  }

  function SuffixEnd(i: Info, filter: bv8): Name
  {
    KindPart(i, filter) + NumberPart(i, filter) + When(Has(filter, S_SEGMENT) && i.hasSegNo, SegmentPart(i))
  }

  // ---------- parsing ----------

  /** How a parser ends; `Threw` is an exception that leaves `extractInfo`. */
  datatype Verdict = Accepted | Rejected | Threw

  function ExtractMeta(name: Name, i: Info): (Info, Verdict)
  {
    if name == [] || !name[0].Version? then (i, Rejected)
    else
      var j := i.(metaVersion := ToUint32(name[0].n));
      if |name| == 1 then (j.(hasSegNo := false), Accepted)
      else if !name[1].Segment? then (j, Threw)
      else (j.(segNo := ToUint32(name[1].n), hasSegNo := true), Accepted)
  }

  /** Names shorter than a thread's: the stream, or the stream with its timestamp. */
  predicate IsStreamName(name: Name)
  {
    |name| == 1 || (|name| == 2 && name[1].Timestamp?)
  }

  function StreamInfo(name: Name, i: Info): Info
    requires IsStreamName(name)
  {
    var j := i.(streamName := Escaped(name[0]));
    if |name| == 1 then j else j.(streamTimestamp := name[1].n)
  }

  /** Stream, timestamp and thread, in front of what names a sample. */
  function ThreadInfo(name: Name, i: Info): Info
    requires |name| >= 3 && name[1].Timestamp?
  {
    i.(streamName := Escaped(name[0]), isMeta := false, class_ := Unknown, segmentClass := UnknownSegment,
       streamTimestamp := name[1].n, threadName := Escaped(name[2]))
  }

  /** What follows the sample number in a video name. */
  function VideoSegmentInfo(rest: Name, i: Info): (Info, Verdict)
  {
    if rest == [] then (i.(segmentClass := UnknownSegment, hasSegNo := false), Accepted)
    else
      var j := i.(isParity := rest[0] == PARITY, hasSegNo := true);
      if rest[0] == PARITY then
        if |rest| == 1 then (j, Rejected)
        else if rest[1].Segment? then (j.(segmentClass := Parity, segNo := ToUint32(rest[1].n)), Accepted)
        else (j.(segmentClass := Parity), Rejected)
      else if rest[0] == MANIFEST then (j.(segmentClass := Manifest), Accepted)
      else if rest[0].Segment? then (j.(segmentClass := Data, segNo := ToUint32(rest[0].n)), Accepted)
      else (j.(segmentClass := Data), Rejected)
  }

  /** What follows the thread in a video name. */
  function VideoSampleInfo(rest: Name, i: Info): (Info, Verdict)
  {
    if rest == [] then (i, Accepted)
    else if rest[0] == META then
      var (j, r) := ExtractMeta(rest[1..], i.(isMeta := true, segmentClass := Meta));
      (j, if r.Threw? then Threw else Accepted)
    else if rest[0] == DELTA || rest[0] == KEY then
      var j := i.(isDelta := rest[0] == DELTA, class_ := if rest[0] == DELTA then Delta else Key);
      if |rest| == 1 then (j.(hasSeqNo := false), Accepted)
      else if !rest[1].SequenceNumber? then (j, Rejected)
      else VideoSegmentInfo(rest[2..], j.(sampleNo := ToPacketNumber(rest[1].n), hasSeqNo := true))
    else (i, Rejected)
  }

  function StreamMetaInfo(name: Name, i: Info): Info
    requires |name| >= 2
  {
    i.(streamName := Escaped(name[0]), isMeta := true, segmentClass := Meta)
  }

  function VideoInfo(name: Name, i: Info): (Info, Verdict)
  {
    if IsStreamName(name) then (StreamInfo(name, i), Accepted)
    else if |name| < 3 then (i, Rejected)
    else if name[1] == META then ExtractMeta(name[2..], StreamMetaInfo(name, i).(threadName := ""))
    else if name[1].Timestamp? then VideoSampleInfo(name[3..], ThreadInfo(name, i))
    else (i.(streamName := Escaped(name[0]), isMeta := false, class_ := Unknown,
             segmentClass := UnknownSegment), Threw)
  }

  /** What follows the thread in an audio name. */
  function AudioSampleInfo(rest: Name, i: Info): (Info, Verdict)
  {
    if rest == [] then (i.(hasSeqNo := false), Accepted)
    else if rest[0] == META then
      var (j, r) := ExtractMeta(rest[1..], i.(isMeta := true, segmentClass := Meta));
      (j, if r.Threw? then Threw else Accepted)
    else
      var j := i.(isDelta := true, class_ := Delta);
      if !rest[0].SequenceNumber? then (j, Rejected)
      else
        var k := j.(sampleNo := ToPacketNumber(rest[0].n), hasSeqNo := true);
        if |rest| == 1 then (k.(hasSegNo := false), Accepted)
        else if rest[1] == MANIFEST then (k.(segmentClass := Manifest), Accepted)
        else if rest[1].Segment?
        then (k.(hasSegNo := true, segmentClass := Data, segNo := ToUint32(rest[1].n)), Accepted)
        else (k.(hasSegNo := true, segmentClass := Data), Rejected)
  }

  function AudioInfo(name: Name, i: Info): (Info, Verdict)
  {
    if IsStreamName(name) then (StreamInfo(name, i), Accepted)
    else if |name| < 2 then (i, Rejected)
    else if name[1] == META then
      if |name| == 2 then (StreamMetaInfo(name, i), Rejected)
      else ExtractMeta(name[2..], StreamMetaInfo(name, i).(threadName := ""))
    else if name[1].Timestamp? then AudioSampleInfo(name[3..], ThreadInfo(name, i))
    else (i.(streamName := Escaped(name[0]), isMeta := false, class_ := Unknown,
             segmentClass := UnknownSegment), Threw)
  }

  /** The place of the last application component that is neither first nor last; 0 when there is none. */
  function LastApp(name: Name, below: nat): (j: nat)
    requires below <= |name|
    ensures j != 0 ==> j < below && name[j] == APP
    ensures forall k | j < k < below :: name[k] != APP || k == 0
  {
    if below <= 1 then 0 else if name[below - 1] == APP then below - 1 else LastApp(name, below - 1)
  }

  /** What follows the application component. */
  function AppInfo(rest: Name, i: Info): (Info, Verdict)
    requires rest != []
  {
    if !rest[0].Version? then (i, Rejected)
    else
      var j := i.(apiVersion := ToUint32(rest[0].n));
      if |rest| == 1 then (j, Rejected)
      else if rest[1] == AUDIO then AudioInfo(rest[2..], j.(isVideo := false))
      else if rest[1] == VIDEO then VideoInfo(rest[2..], j.(isVideo := true))
      else (j, Rejected)
  }

  function ExtractInfo(name: Name, i: Info): (Info, Verdict)
  {
    var j := if |name| < 2 then 0 else LastApp(name, |name| - 1);
    if j == 0 then (i, Rejected) else AppInfo(name[j + 1..], i.(basePrefix := name[..j]))
  }

  // ---------- the names of segments ----------

  /** A name down to a segment number: of a media segment, or of stream or thread metadata. */
  datatype FullName =
    | MediaName(base: Name, version: uint32, isVideo: bool, stream: string, ts: uint64, thread: string,
                isKey: bool, no: PacketNumber, parity: bool, seg: uint32)
    | StreamMetaName(base: Name, version: uint32, isVideo: bool, stream: string,
                     metaVersion: uint32, seg: uint32)
    | ThreadMetaName(base: Name, version: uint32, isVideo: bool, stream: string, ts: uint64, thread: string,
                     metaVersion: uint32, seg: uint32)

  /** Audio has no key frames and no parity. */
  predicate WellFormed(f: FullName)
  {
    && f.base != []
    && (!f.StreamMetaName? ==> f.thread != "")
    && (f.MediaName? && !f.isVideo ==> !f.isKey && !f.parity)
  }

  function Print(f: FullName): Name
  {
    f.base + [APP, Version(f.version), if f.isVideo then VIDEO else AUDIO, Text(f.stream)] + Tail(f)
  }

  function Tail(f: FullName): Name
  {
    match f
    case MediaName(_, _, _, _, _, _, _, _, _, _) =>
      [Timestamp(f.ts), Text(f.thread)]
      + When(f.isVideo, [if f.isKey then KEY else DELTA])
      + [SequenceNumber(FromPacketNumber(f.no))]
      + When(f.parity, [PARITY])
      + [Segment(f.seg)]
    case StreamMetaName(_, _, _, _, _, _) => [META, Version(f.metaVersion), Segment(f.seg)]
    case ThreadMetaName(_, _, _, _, _, _, _, _) =>
      [Timestamp(f.ts), Text(f.thread), META, Version(f.metaVersion), Segment(f.seg)]
  }

  /** Neither stream nor thread is called like the application. (The base prefix may be.) */
  predicate NoLaterApp(f: FullName)
  {
    f.stream != "ndnrtc" && (!f.StreamMetaName? ==> f.thread != "ndnrtc")
  }

  /** The fields that say what a name says. */
  predicate Describes(i: Info, f: FullName)
  {
    && i.basePrefix == f.base && i.apiVersion == f.version && i.isVideo == f.isVideo
    && i.streamName == f.stream && i.segNo == f.seg && i.hasSegNo
    && match f
       case MediaName(_, _, _, _, _, _, _, _, _, _) =>
         && !i.isMeta && i.streamTimestamp == f.ts && i.threadName == f.thread
         && i.class_ == (if f.isKey then Key else Delta) && i.isDelta == !f.isKey
         && i.sampleNo == f.no && i.hasSeqNo
         && i.isParity == f.parity && i.segmentClass == (if f.parity then Parity else Data)
       case StreamMetaName(_, _, _, _, _, _) =>
         i.isMeta && i.threadName == "" && i.metaVersion == f.metaVersion && i.segmentClass == Meta
       case ThreadMetaName(_, _, _, _, _, _, _, _) =>
         && i.isMeta && i.streamTimestamp == f.ts && i.threadName == f.thread
         && i.metaVersion == f.metaVersion && i.segmentClass == Meta
  }

  lemma AppFound(f: FullName)
    requires WellFormed(f)
    ensures LastApp(Print(f), |Print(f)| - 1) == |f.base| <==> NoLaterApp(f)
  {
    AppPositions(f);
  }

  /** Behind the base prefix only the stream and the thread can look like the application component. */
  lemma AppPositions(f: FullName)
    requires WellFormed(f)
    ensures var name, b := Print(f), |f.base|;
      && |name| > b + 6 && name[b] == APP
      && (forall k | b < k < |name| :: name[k] == APP ==> k == b + 3 || k == b + 5)
      && (name[b + 3] == APP <==> f.stream == "ndnrtc")
      && (name[b + 5] == APP <==> !f.StreamMetaName? && f.thread == "ndnrtc")
      && (f.StreamMetaName? || |name| > b + 7)
      && !name[b + 4].Version? && !name[b + 6].Version?
  {
    var name, b := Print(f), |f.base|;
    assert name[b] == APP && name[b + 1].Version? && name[b + 2] != APP && name[b + 3] == Text(f.stream);
    assert forall k | b + 4 <= k < |name| :: name[k] == Tail(f)[k - b - 4];
    TailPositions(f);
  }

  /** Of the components behind the stream, only the thread can look like the application component. */
  lemma TailPositions(f: FullName)
    requires WellFormed(f)
    ensures var t := Tail(f);
      && |t| >= 3 && (f.StreamMetaName? || |t| > 3)
      && (forall k | 0 <= k < |t| :: t[k] == APP ==> k == 1)
      && (t[1] == APP <==> !f.StreamMetaName? && f.thread == "ndnrtc")
      && !t[0].Version? && !t[2].Version?
  {
  }

  /** The scan, once it has found where the base prefix ends. */
  lemma Scanned(f: FullName, i: Info)
    requires WellFormed(f) && NoLaterApp(f)
    ensures var start := i.(basePrefix := f.base, apiVersion := f.version, isVideo := f.isVideo);
      var rest := [Text(f.stream)] + Tail(f);
      ExtractInfo(Print(f), i) == if f.isVideo then VideoInfo(rest, start) else AudioInfo(rest, start)
  {
    AppFound(f);
    var typed := [Version(f.version), if f.isVideo then VIDEO else AUDIO];
    HeadApart(f.base, APP, typed[0], typed[1], Text(f.stream), Tail(f));
    ScannedAt(Print(f), f.base, f.version, f.isVideo, [Text(f.stream)] + Tail(f), i,
              i.(basePrefix := f.base, apiVersion := f.version, isVideo := f.isVideo));
  }

  lemma HeadApart(base: Name, a: Component, b: Component, c: Component, d: Component, tail: Name)
    ensures base + [a, b, c, d] + tail == base + [a] + ([b, c] + ([d] + tail))
  {
  }

  lemma ScannedAt(name: Name, base: Name, version: uint32, isVideo: bool, rest: Name, i: Info, start: Info)
    requires name == base + [APP] + ([Version(version), if isVideo then VIDEO else AUDIO] + rest)
    requires base != [] && LastApp(name, |name| - 1) == |base|
    requires start == i.(basePrefix := base, apiVersion := version, isVideo := isVideo)
    ensures ExtractInfo(name, i) == if isVideo then VideoInfo(rest, start) else AudioInfo(rest, start)
  {
    var typed := [Version(version), if isVideo then VIDEO else AUDIO] + rest;
    FoundApp(name, base, typed, i);
    VersionAndType(version, isVideo, rest, i.(basePrefix := base), start);
  }

  lemma FoundApp(name: Name, base: Name, rest: Name, i: Info)
    requires base != [] && rest != [] && name == base + [APP] + rest && LastApp(name, |name| - 1) == |base|
    ensures ExtractInfo(name, i) == AppInfo(rest, i.(basePrefix := base))
  {
    SplitAt(base, rest);
  }

  lemma SplitAt(base: Name, rest: Name)
    ensures (base + [APP] + rest)[..|base|] == base && (base + [APP] + rest)[|base| + 1..] == rest
  {
  }

  lemma VersionAndType(version: uint32, isVideo: bool, rest: Name, i: Info, start: Info)
    requires start == i.(apiVersion := version, isVideo := isVideo)
    ensures
      AppInfo([Version(version), if isVideo then VIDEO else AUDIO] + rest, i)
      == if isVideo then VideoInfo(rest, start) else AudioInfo(rest, start)
  {
  }

  predicate Started(i: Info, f: FullName)
  {
    !i.isParity && i.basePrefix == f.base && i.apiVersion == f.version && i.isVideo == f.isVideo
  }

  lemma StreamMetaParses(f: FullName, i: Info)
    requires f.StreamMetaName? && Started(i, f)
    ensures var rest := [Text(f.stream)] + Tail(f);
      var (j, r) := if f.isVideo then VideoInfo(rest, i) else AudioInfo(rest, i);
      r.Accepted? && Describes(j, f)
  {
  }

  lemma ThreadMetaParses(f: FullName, i: Info)
    requires WellFormed(f) && f.ThreadMetaName? && Started(i, f)
    ensures var rest := [Text(f.stream)] + Tail(f);
      var (j, r) := if f.isVideo then VideoInfo(rest, i) else AudioInfo(rest, i);
      r.Accepted? && Describes(j, f)
  {
  }

  lemma AudioParses(f: FullName, i: Info)
    requires WellFormed(f) && f.MediaName? && !f.isVideo && Started(i, f)
    ensures var (j, r) := AudioInfo([Text(f.stream)] + Tail(f), i); r.Accepted? && Describes(j, f)
  {
  }

  lemma VideoParses(f: FullName, i: Info)
    requires WellFormed(f) && f.MediaName? && f.isVideo && Started(i, f)
    ensures var (j, r) := VideoInfo([Text(f.stream)] + Tail(f), i); r.Accepted? && Describes(j, f)
  {
    var rest := [Text(f.stream)] + Tail(f);
    var end := When(f.parity, [PARITY]) + [Segment(f.seg)];
    assert rest[3..] == [if f.isKey then KEY else DELTA, SequenceNumber(FromPacketNumber(f.no))] + end;
    var j := ThreadInfo(rest, i);
    assert VideoInfo(rest, i) == VideoSampleInfo(rest[3..], j);
    VideoSampleParses(f, end, j);
  }

  lemma VideoSampleParses(f: FullName, end: Name, i: Info)
    requires f.MediaName? && f.isVideo && end == When(f.parity, [PARITY]) + [Segment(f.seg)]
    requires Started(i, f) && !i.isMeta
    requires i.streamName == f.stream && i.streamTimestamp == f.ts && i.threadName == f.thread
    ensures var rest := [if f.isKey then KEY else DELTA, SequenceNumber(FromPacketNumber(f.no))] + end;
      var (j, r) := VideoSampleInfo(rest, i);
      r.Accepted? && Describes(j, f)
  {
    var rest := [if f.isKey then KEY else DELTA, SequenceNumber(FromPacketNumber(f.no))] + end;
    assert rest[2..] == end;
    var j := i.(isDelta := !f.isKey, class_ := if f.isKey then Key else Delta,
                sampleNo := ToPacketNumber(FromPacketNumber(f.no)), hasSeqNo := true);
    assert VideoSampleInfo(rest, i) == VideoSegmentInfo(end, j);
    VideoSegmentParses(f, end, j);
  }

  lemma VideoSegmentParses(f: FullName, end: Name, i: Info)
    requires f.MediaName? && f.isVideo && end == When(f.parity, [PARITY]) + [Segment(f.seg)]
    requires !i.isParity
    ensures VideoSegmentInfo(end, i)
            == (i.(isParity := f.parity, hasSegNo := true, segmentClass := if f.parity then Parity else Data,
                   segNo := f.seg), Accepted)
  {
    if f.parity {
      assert end == [PARITY, Segment(f.seg)];
    } else {
      assert end == [Segment(f.seg)];
    }
  }

  /** Every well-formed name is understood, field by field, even if its base prefix contains "ndnrtc". */
  lemma ExtractsPrinted(f: FullName, i: Info)
    requires WellFormed(f) && NoLaterApp(f) && Initialised(i)
    ensures var (j, r) := ExtractInfo(Print(f), i); r.Accepted? && Describes(j, f)
  {
    Scanned(f, i);
    var start := i.(basePrefix := f.base, apiVersion := f.version, isVideo := f.isVideo);
    if f.StreamMetaName? {
      StreamMetaParses(f, start);
    } else if f.ThreadMetaName? {
      ThreadMetaParses(f, start);
    } else if f.isVideo {
      VideoParses(f, start);
    } else {
      AudioParses(f, start);
    }
  }

  /** The name that fields without a name of their own would print. */
  function Named(i: Info): FullName
  {
    if !i.isMeta then
      MediaName(i.basePrefix, i.apiVersion, i.isVideo, i.streamName, i.streamTimestamp, i.threadName,
                i.isVideo && i.class_ != Delta, i.sampleNo, i.isParity, i.segNo)
    else if i.threadName == "" then
      StreamMetaName(i.basePrefix, i.apiVersion, i.isVideo, i.streamName, i.metaVersion, i.segNo)
    else
      ThreadMetaName(i.basePrefix, i.apiVersion, i.isVideo, i.streamName, i.streamTimestamp, i.threadName,
                     i.metaVersion, i.segNo)
  }

  lemma FullPrefix(i: Info)
    ensures Prefix(i, SEGMENT)
            == i.basePrefix + AppPart(i) + StreamPart(i)
               + When(i.threadName != "", [Timestamp(i.streamTimestamp)])
               + When(i.threadName != "", [Text(i.threadName)])
               + (if i.isMeta then [META] + [Version(i.metaVersion), Segment(i.segNo)]
                  else When(i.threadName != "" && i.isVideo, ClassPart(i)) + SequencePart(i) + SegmentPart(i))
  {
  }

  lemma Assoc(a: Name, b: Name, c: Name)
    ensures (a + b) + c == a + (b + c)
  {
  }

  lemma PrintsNamed(i: Info)
    requires i.isMeta || i.threadName != ""
    ensures Prefix(i, SEGMENT) == Print(Named(i))
  {
    FullPrefix(i);
    var ts := When(i.threadName != "", [Timestamp(i.streamTimestamp)]);
    var th := When(i.threadName != "", [Text(i.threadName)]);
    var end := if i.isMeta then [META] + [Version(i.metaVersion), Segment(i.segNo)]
               else When(i.threadName != "" && i.isVideo, ClassPart(i)) + SequencePart(i) + SegmentPart(i);
    var front := i.basePrefix + AppPart(i) + StreamPart(i);
    Assoc(i.basePrefix, AppPart(i), StreamPart(i));
    assert AppPart(i) + StreamPart(i)
           == [APP, Version(i.apiVersion), if i.isVideo then VIDEO else AUDIO, Text(i.streamName)];
    Assoc(front, ts, th);
    Assoc(front, ts + th, end);
    TailNamed(i);
  }

  lemma TailNamed(i: Info)
    requires i.isMeta || i.threadName != ""
    ensures Tail(Named(i))
            == When(i.threadName != "", [Timestamp(i.streamTimestamp)])
               + When(i.threadName != "", [Text(i.threadName)])
               + (if i.isMeta then [META] + [Version(i.metaVersion), Segment(i.segNo)]
                  else When(i.threadName != "" && i.isVideo, ClassPart(i)) + SequencePart(i) + SegmentPart(i))
  {
  }

  /** What the fields say is printed back as the name. */
  lemma PrintsBack(i: Info, f: FullName)
    requires WellFormed(f) && Describes(i, f)
    ensures Prefix(i, SEGMENT) == Print(f)
  {
    assert Named(i) == f;
    PrintsNamed(i);
  }

  /** Different well-formed names are printed differently. */
  lemma PrintInjective(f: FullName, g: FullName, i: Info)
    requires WellFormed(f) && NoLaterApp(f) && WellFormed(g) && NoLaterApp(g) && Initialised(i)
    requires Print(f) == Print(g)
    ensures f == g
  {
    ExtractsPrinted(f, i);
    ExtractsPrinted(g, i);
    assert Named(ExtractInfo(Print(f), i).0) == f;
  }

  // ---------- which names survive ----------

  /** What extraction leaves in the fields it does not find in the name. */
  lemma ExtractedFields(name: Name, i: Info)
    requires Initialised(i) && ExtractInfo(name, i).1.Accepted?
    ensures var j := ExtractInfo(name, i).0;
      var b := |j.basePrefix|;
      && b > 0 && b + 3 < |name| && name[..b] == j.basePrefix && name[b] == APP
      && LastApp(name, |name| - 1) == b
      && (!j.isVideo ==> !j.isParity)
      && (|name| > b + 5 && !j.isMeta ==> name[b + 4].Timestamp? && j.threadName == Escaped(name[b + 5]))
  {
    var b := LastApp(name, |name| - 1);
    var rest := name[b + 1..];
    AppFields(rest, i.(basePrefix := name[..b]));
    var j := ExtractInfo(name, i).0;
    assert j == AppInfo(rest, i.(basePrefix := name[..b])).0;
    assert j.basePrefix == name[..b] && |j.basePrefix| == b;
    assert |name| > b + 5 ==> rest[3] == name[b + 4] && rest[4] == name[b + 5];
  }

  lemma AppFields(rest: Name, i: Info)
    requires rest != [] && AppInfo(rest, i).1.Accepted? && !i.isParity
    ensures var j := AppInfo(rest, i).0;
      && |rest| > 2 && j.basePrefix == i.basePrefix && (!j.isVideo ==> !j.isParity)
      && (|rest| > 4 && !j.isMeta ==> rest[3].Timestamp? && j.threadName == Escaped(rest[4]))
  {
    var start := i.(apiVersion := ToUint32(rest[0].n));
    if rest[1] == AUDIO {
      AudioFields(rest[2..], start.(isVideo := false));
    } else {
      VideoFields(rest[2..], start.(isVideo := true));
    }
  }

  /** Fields the end of a name does not touch. */
  predicate SameStream(i: Info, j: Info)
  {
    j.basePrefix == i.basePrefix && j.isVideo == i.isVideo && j.threadName == i.threadName
  }

  lemma MetaFields(name: Name, i: Info)
    ensures var j := ExtractMeta(name, i).0;
      SameStream(i, j) && j.isMeta == i.isMeta && j.isParity == i.isParity
  {
  }

  lemma AudioSampleFields(rest: Name, i: Info)
    ensures SameStream(i, AudioSampleInfo(rest, i).0) && AudioSampleInfo(rest, i).0.isParity == i.isParity
  {
    if rest != [] {
      MetaFields(rest[1..], i.(isMeta := true, segmentClass := Meta));
    }
  }

  lemma VideoSegmentFields(rest: Name, i: Info)
    ensures SameStream(i, VideoSegmentInfo(rest, i).0)
  {
  }

  lemma VideoSampleFields(rest: Name, i: Info)
    ensures SameStream(i, VideoSampleInfo(rest, i).0)
  {
    if rest != [] && rest[0] == META {
      MetaFields(rest[1..], i.(isMeta := true, segmentClass := Meta));
    } else if |rest| > 1 && (rest[0] == DELTA || rest[0] == KEY) && rest[1].SequenceNumber? {
      var j := i.(isDelta := rest[0] == DELTA, class_ := if rest[0] == DELTA then Delta else Key);
      VideoSegmentFields(rest[2..], j.(sampleNo := ToPacketNumber(rest[1].n), hasSeqNo := true));
    }
  }

  lemma AudioFields(rest: Name, i: Info)
    requires AudioInfo(rest, i).1.Accepted? && !i.isParity && !i.isVideo
    ensures var j := AudioInfo(rest, i).0;
      && |rest| > 0 && !j.isParity && !j.isVideo && j.basePrefix == i.basePrefix
      && (|rest| > 2 && !j.isMeta ==> rest[1].Timestamp? && j.threadName == Escaped(rest[2]))
  {
    if |rest| > 2 && rest[1] == META {
      MetaFields(rest[2..], StreamMetaInfo(rest, i).(threadName := ""));
    } else if |rest| > 2 {
      AudioSampleFields(rest[3..], ThreadInfo(rest, i));
    }
  }

  lemma VideoFields(rest: Name, i: Info)
    requires VideoInfo(rest, i).1.Accepted? && i.isVideo
    ensures var j := VideoInfo(rest, i).0;
      && |rest| > 0 && j.isVideo && j.basePrefix == i.basePrefix
      && (|rest| > 2 && !j.isMeta ==> rest[1].Timestamp? && j.threadName == Escaped(rest[2]))
  {
    if |rest| > 2 && rest[1] == META {
      MetaFields(rest[2..], StreamMetaInfo(rest, i).(threadName := ""));
    } else if |rest| > 2 {
      VideoSampleFields(rest[3..], ThreadInfo(rest, i));
    }
  }

  lemma SurvivorIsWellFormed(name: Name, i: Info)
    requires Initialised(i)
    requires ExtractInfo(name, i).1.Accepted? && Prefix(ExtractInfo(name, i).0, SEGMENT) == name
    ensures var f := Named(ExtractInfo(name, i).0);
      WellFormed(f) && NoLaterApp(f) && Print(f) == name
  {
    var j := ExtractInfo(name, i).0;
    ExtractedFields(name, i);
    if !j.isMeta && j.threadName == "" {
      FullPrefix(j);
      assert false;
    }
    PrintsNamed(j);
    AppFound(Named(j));
  }

  /**
   Exactly the well-formed names in which neither stream nor thread is called "ndnrtc" are understood by
   `extractInfo` and given back by `getPrefix`.
   */
  lemma RoundTripsExactly(name: Name, i: Info)
    requires Initialised(i)
    ensures (var (j, r) := ExtractInfo(name, i); r.Accepted? && Prefix(j, SEGMENT) == name)
            <==> exists f :: WellFormed(f) && NoLaterApp(f) && Print(f) == name
  {
    var (j, r) := ExtractInfo(name, i);
    if r.Accepted? && Prefix(j, SEGMENT) == name {
      SurvivorIsWellFormed(name, i);
    }
    if f :| WellFormed(f) && NoLaterApp(f) && Print(f) == name {
      ExtractsPrinted(f, i);
      PrintsBack(j, f);
    }
  }

  /** A later "ndnrtc" hides the name: the scan stops there, and what follows is no version. */
  lemma LaterAppHidesTheName(f: FullName, i: Info)
    requires WellFormed(f) && !NoLaterApp(f) && Initialised(i)
    ensures ExtractInfo(Print(f), i).1.Rejected?
  {
    AppPositions(f);
    var j := LastApp(Print(f), |Print(f)| - 1);
    assert j == |f.base| + 3 || j == |f.base| + 5;
  }

  // ---------- splitting a media name ----------

  /** The parts of a media name. */
  datatype Parts = Parts(base: Name, app: Name, stream: Name, ts: Name, thread: Name, cls: Name, no: Name, seg: Name)

  function PartsOf(i: Info): Parts
  {
    Parts(i.basePrefix, AppPart(i), StreamPart(i), [Timestamp(i.streamTimestamp)], [Text(i.threadName)],
          When(i.isVideo, ClassPart(i)), SequencePart(i), SegmentPart(i))
  }

  lemma ShortPrefixes(i: Info)
    requires !i.isMeta && i.threadName != ""
    ensures var p := PartsOf(i);
      && Prefix(i, BASE) == p.base
      && Prefix(i, LIBRARY) == p.base + p.app
      && Prefix(i, STREAM_TS) == p.base + p.app + p.stream + p.ts
  {
  }

  lemma ThreadPrefix(i: Info)
    requires !i.isMeta && i.threadName != ""
    ensures var p := PartsOf(i);
      Prefix(i, THREAD) == p.base + p.app + p.stream + p.ts + p.thread + p.cls
  {
  }

  lemma SamplePrefix(i: Info)
    requires !i.isMeta && i.threadName != ""
    ensures var p := PartsOf(i);
      Prefix(i, SAMPLE) == p.base + p.app + p.stream + p.ts + p.thread + (p.cls + p.no)
  {
  }

  lemma SegmentPrefix(i: Info)
    requires !i.isMeta && i.threadName != ""
    ensures var p := PartsOf(i);
      Prefix(i, SEGMENT) == p.base + p.app + p.stream + p.ts + p.thread + (p.cls + p.no + p.seg)
  {
  }

  lemma LibrarySuffix(i: Info)
    requires !i.isMeta && i.threadName != "" && i.hasSegNo
    ensures var p := PartsOf(i);
      Suffix(i, S_LIBRARY) == p.app + (p.stream + p.ts) + p.thread + p.cls + p.no + p.seg
  {
    var p := PartsOf(i);
    assert SuffixEnd(i, S_LIBRARY) == p.cls + p.no + p.seg;
  }

  lemma StreamSuffix(i: Info)
    requires !i.isMeta && i.threadName != "" && i.hasSegNo
    ensures var p := PartsOf(i);
      Suffix(i, S_STREAM) == p.stream + p.ts + p.thread + p.cls + p.no + p.seg
  {
    var p := PartsOf(i);
    assert SuffixEnd(i, S_STREAM) == p.cls + p.no + p.seg;
  }

  lemma ThreadSuffix(i: Info)
    requires !i.isMeta && i.threadName != "" && i.hasSegNo
    ensures var p := PartsOf(i);
      Suffix(i, S_THREAD) == p.thread + p.cls + p.no + p.seg
  {
    var p := PartsOf(i);
    assert SuffixEnd(i, S_THREAD) == p.cls + p.no + p.seg;
  }

  lemma ShortSuffixes(i: Info)
    requires !i.isMeta && i.threadName != "" && i.hasSegNo
    ensures var p := PartsOf(i);
      Suffix(i, S_SAMPLE) == p.no + p.seg && Suffix(i, S_SEGMENT) == p.seg
  {
  }

  lemma Regroup(p: Parts)
    ensures var whole := p.base + p.app + p.stream + p.ts + p.thread + (p.cls + p.no + p.seg);
      && p.base + (p.app + (p.stream + p.ts) + p.thread + p.cls + p.no + p.seg) == whole
      && (p.base + p.app) + (p.stream + p.ts + p.thread + p.cls + p.no + p.seg) == whole
      && (p.base + p.app + p.stream + p.ts) + (p.thread + p.cls + p.no + p.seg) == whole
      && (p.base + p.app + p.stream + p.ts + p.thread + p.cls) + (p.no + p.seg) == whole
      && (p.base + p.app + p.stream + p.ts + p.thread + (p.cls + p.no)) + p.seg == whole
  {
  }

  /** Cut at any level, a media name is its prefix followed by its suffix. */
  lemma SplitsAtEveryLevel(f: FullName, i: Info)
    requires WellFormed(f) && f.MediaName? && Describes(i, f)
    ensures Prefix(i, BASE) + Suffix(i, S_LIBRARY) == Print(f)
    ensures Prefix(i, LIBRARY) + Suffix(i, S_STREAM) == Print(f)
    ensures Prefix(i, STREAM_TS) + Suffix(i, S_THREAD) == Print(f)
    ensures Prefix(i, THREAD) + Suffix(i, S_SAMPLE) == Print(f)
    ensures Prefix(i, SAMPLE) + Suffix(i, S_SEGMENT) == Print(f)
  {
    PrintsBack(i, f);
    ShortPrefixes(i);
    ThreadPrefix(i);
    SamplePrefix(i);
    SegmentPrefix(i);
    LibrarySuffix(i);
    StreamSuffix(i);
    ThreadSuffix(i);
    ShortSuffixes(i);
    Regroup(PartsOf(i));
  }

  /** So the key of a slot and the key of a segment inside it determine the segment. */
  lemma KeysDetermineSegments(f: FullName, g: FullName, i: Info, j: Info, blank: Info)
    requires WellFormed(f) && NoLaterApp(f) && f.MediaName? && Describes(i, f)
    requires WellFormed(g) && NoLaterApp(g) && g.MediaName? && Describes(j, g)
    requires Initialised(blank)
    ensures Prefix(i, SAMPLE) == Prefix(j, SAMPLE) && Suffix(i, S_SEGMENT) == Suffix(j, S_SEGMENT) <==> f == g
  {
    if f == g {
      assert PartsOf(i) == PartsOf(j);
      SamplePrefix(i);
      SamplePrefix(j);
      ShortSuffixes(i);
      ShortSuffixes(j);
    } else if Prefix(i, SAMPLE) == Prefix(j, SAMPLE) && Suffix(i, S_SEGMENT) == Suffix(j, S_SEGMENT) {
      SplitsAtEveryLevel(f, i);
      SplitsAtEveryLevel(g, j);
      PrintInjective(f, g, blank);
    }
  }

  // ---------- the object ----------

  /** The out-parameter of the parsers. Its fields are the components of `v`; parsers do not reset them. */
  class NamespaceInfo {
    var v: Info

    constructor (uninitialised: Info)
      ensures Initialised(v)
    {
      v := uninitialised.(
        basePrefix := [], apiVersion := 0, streamName := "", threadName := "",
        isMeta := false, isParity := false, isDelta := false, hasSeqNo := false,
        class_ := Unknown, segmentClass := UnknownSegment, sampleNo := 0, segNo := 0, metaVersion := 0);
    }

    method GetPrefix(filter: bv8) returns (prefix: Name)
      ensures prefix == Prefix(v, filter)
    {
      prefix := v.basePrefix;
      if filter != 0 {
        prefix := AppendLibrary(prefix, filter & (LIBRARY ^ BASE) != 0);
        prefix := AppendStream(prefix, filter & (STREAM ^ LIBRARY) != 0);
        prefix := AppendThread(prefix, filter);
        if v.isMeta {
          prefix := AppendMeta(prefix, filter);
        } else {
          prefix := AppendSample(prefix, filter);
        }
      }
    }

    method AppendLibrary(front: Name, wanted: bool) returns (prefix: Name)
      ensures prefix == front + When(wanted, AppPart(v))
    {
      prefix := front;
      if wanted {
        prefix := prefix + [APP, Version(v.apiVersion)];
      }
    }

    method AppendStream(front: Name, wanted: bool) returns (prefix: Name)
      ensures prefix == front + When(wanted, StreamPart(v))
    {
      prefix := front;
      if wanted {
        prefix := prefix + [if v.isVideo then VIDEO else AUDIO, Text(v.streamName)];
      }
    }

    method AppendThread(front: Name, filter: bv8) returns (prefix: Name)
      ensures prefix == front
                        + When(Has(filter, STREAM_TS ^ STREAM) && v.threadName != "", [Timestamp(v.streamTimestamp)])
                        + When(v.threadName != "" && Has(filter, THREAD ^ STREAM_TS), [Text(v.threadName)])
    {
      prefix := front;
      if filter & (STREAM_TS ^ STREAM) != 0 && v.threadName != "" {
        prefix := prefix + [Timestamp(v.streamTimestamp)];
      }
      NoCommonBit(filter, v.isVideo);
      if v.threadName != ""
         && (filter & (THREAD ^ STREAM_TS) != 0
             || filter & (THREAD_NT ^ STREAM_TS) & (if v.isVideo then 1 else 0) != 0) {
        prefix := prefix + [Text(v.threadName)];
      }
    }

    method AppendMeta(front: Name, filter: bv8) returns (prefix: Name)
      ensures prefix == front + MetaEnd(v, filter)
    {
      prefix := front;
      if filter & (SEGMENT ^ THREAD) != 0 {
        prefix := prefix + [META];
      }
      if filter & (SEGMENT ^ SAMPLE) != 0 {
        prefix := prefix + [Version(v.metaVersion), Segment(v.segNo)];
      }
    }

    method AppendSample(front: Name, filter: bv8) returns (prefix: Name)
      ensures prefix == front + SampleEnd(v, filter)
    {
      prefix := front;
      var withClass := filter & (THREAD ^ THREAD_NT) != 0 && v.threadName != "" && v.isVideo;
      ghost var cls := When(withClass, ClassPart(v));
      ghost var no := When(Has(filter, SAMPLE ^ THREAD), SequencePart(v));
      if withClass {
        prefix := prefix + [if v.class_ == Delta then DELTA else KEY];
      }
      assert prefix == front + cls;
      if filter & (SAMPLE ^ THREAD) != 0 {
        prefix := prefix + [SequenceNumber(FromPacketNumber(v.sampleNo))];
      }
      assert prefix == front + cls + no;
      Assoc(front, cls, no);
      if filter & (SEGMENT ^ SAMPLE) != 0 {
        prefix := AppendSegment(prefix);
      }
      Assoc(front, cls + no, When(Has(filter, SEGMENT ^ SAMPLE), SegmentPart(v)));
    }

    method AppendSegment(front: Name) returns (prefix: Name)
      ensures prefix == front + SegmentPart(v)
    {
      prefix := front;
      if v.isParity {
        prefix := prefix + [PARITY];
      }
      prefix := prefix + [Segment(v.segNo)];
    }

    method GetSuffix(filter: bv8) returns (suffix: Name)
      ensures suffix == Suffix(v, filter)
    {
      suffix := [];
      if filter != 0 {
        suffix := AppendLibrary(suffix, filter & (S_LIBRARY ^ S_STREAM) != 0);
        assert suffix == When(Has(filter, S_LIBRARY ^ S_STREAM), AppPart(v));
        suffix := AppendStreamAndTime(suffix, filter & (S_STREAM ^ S_THREAD) != 0);
        suffix := AppendThreadName(suffix, filter & (S_THREAD ^ S_SAMPLE) != 0 && v.threadName != "");
        suffix := AppendSuffixEnd(suffix, filter);
      }
    }

    method AppendStreamAndTime(front: Name, wanted: bool) returns (suffix: Name)
      ensures suffix == front
                        + When(wanted, StreamPart(v) + When(v.threadName != "", [Timestamp(v.streamTimestamp)]))
    {
      suffix := AppendStream(front, wanted);
      if wanted && v.threadName != "" {
        suffix := suffix + [Timestamp(v.streamTimestamp)];
      }
    }

    method AppendThreadName(front: Name, wanted: bool) returns (suffix: Name)
      ensures suffix == front + When(wanted, [Text(v.threadName)])
    {
      suffix := front;
      if wanted {
        suffix := suffix + [Text(v.threadName)];
      }
    }

    method AppendSuffixEnd(front: Name, filter: bv8) returns (suffix: Name)
      ensures suffix == front + SuffixEnd(v, filter)
    {
      suffix := AppendKind(front, filter);
      if filter & (S_SAMPLE ^ S_SEGMENT) != 0 {
        if v.isMeta {
          suffix := suffix + [Version(v.metaVersion)];
        } else {
          suffix := suffix + [SequenceNumber(FromPacketNumber(v.sampleNo))];
        }
      }
      Assoc(front, KindPart(v, filter), NumberPart(v, filter));
      if filter & S_SEGMENT != 0 && v.hasSegNo {
        suffix := AppendSegment(suffix);
      }
      Assoc(front, KindPart(v, filter) + NumberPart(v, filter),
            When(Has(filter, S_SEGMENT) && v.hasSegNo, SegmentPart(v)));
    }

    method AppendKind(front: Name, filter: bv8) returns (suffix: Name)
      ensures suffix == front + KindPart(v, filter)
    {
      suffix := front;
      if v.isMeta {
        if (filter & (S_THREAD ^ S_SAMPLE) != 0 && v.threadName != "") || filter & (S_STREAM ^ S_THREAD) != 0 {
          suffix := suffix + [META];
        }
      }
      if filter & (S_THREAD ^ S_SAMPLE) != 0 && v.threadName != "" && v.isVideo && !v.isMeta {
        suffix := suffix + [if v.class_ == Delta then DELTA else KEY];
      }
    }

    method ExtractMetaInfo(name: Name) returns (r: Verdict)
      modifies this
      ensures (v, r) == ExtractMeta(name, old(v))
    {
      if |name| >= 1 && name[0].Version? {
        v := v.(metaVersion := ToUint32(name[0].n));
        if |name| >= 2 {
          if !name[1].Segment? {
            return Threw;
          }
          v := v.(segNo := ToUint32(name[1].n));
          v := v.(hasSegNo := true);
        } else {
          v := v.(hasSegNo := false);
        }
        return Accepted;
      }
      return Rejected;
    }

    /** Stream name or metadata flag, then the timestamp and the thread; common to both parsers. */
    method ExtractThread(name: Name) returns (r: Verdict)
      requires |name| >= 3 && name[1] != META
      modifies this
      ensures name[1].Timestamp? ==> r == Accepted && v == ThreadInfo(name, old(v))
      ensures !name[1].Timestamp? ==>
                && r == Threw
                && v == old(v).(streamName := Escaped(name[0]), isMeta := false, class_ := Unknown,
                                segmentClass := UnknownSegment)
    {
      v := v.(streamName := Escaped(name[0]));
      v := v.(isMeta := false);
      v := v.(class_ := Unknown, segmentClass := UnknownSegment);
      if !name[1].Timestamp? {
        return Threw;
      }
      v := v.(streamTimestamp := name[1].n);
      v := v.(threadName := Escaped(name[2]));
      return Accepted;
    }

    method ExtractVideoStreamInfo(name: Name) returns (r: Verdict)
      modifies this
      ensures (v, r) == VideoInfo(name, old(v))
    {
      if |name| == 1 {
        v := v.(streamName := Escaped(name[0]));
        return Accepted;
      }
      if |name| == 2 && name[1].Timestamp? {
        v := v.(streamName := Escaped(name[0]));
        v := v.(streamTimestamp := name[1].n);
        return Accepted;
      }
      if |name| < 3 {
        return Rejected;
      }
      var idx := 2;
      if name[idx - 1] == META {
        v := v.(streamName := Escaped(name[0]), isMeta := true);
        v := v.(segmentClass := Meta);
        v := v.(threadName := "");
        r := ExtractMetaInfo(name[idx..]);
        return;
      }
      r := ExtractThread(name);
      if r.Accepted? {
        idx := idx + 1;
        r := ExtractVideoSample(name, idx);
      }
    }

    /** The part of the video parser behind the thread. */
    method ExtractVideoSample(name: Name, start: nat) returns (r: Verdict)
      requires start <= |name| && !v.isMeta
      modifies this
      ensures (v, r) == VideoSampleInfo(name[start..], old(v))
    {
      var idx := start;
      if |name| <= idx {
        return Accepted;
      }
      v := v.(isMeta := name[idx] == META);
      idx := idx + 1;
      assert name[start..][1..] == name[idx..];
      if v.isMeta {
        v := v.(segmentClass := Meta);
        if |name| > idx - 1 {
          var met := ExtractMetaInfo(name[idx..]);
          if met.Threw? {
            return Threw;
          }
        }
        return Accepted;
      }
      if name[idx - 1] == DELTA || name[idx - 1] == KEY {
        v := v.(isDelta := name[idx - 1] == DELTA);
        v := v.(class_ := if v.isDelta then Delta else Key);
        if |name| > idx {
          if !name[idx].SequenceNumber? {
            return Rejected;
          }
          v := v.(sampleNo := ToPacketNumber(name[idx].n));
          idx := idx + 1;
        } else {
          v := v.(hasSeqNo := false);
          return Accepted;
        }
        v := v.(hasSeqNo := true);
        assert name[start..][2..] == name[idx..];
        r := ExtractVideoSegment(name, idx);
        return;
      }
      return Rejected;
    }

    method ExtractVideoSegment(name: Name, idx: nat) returns (r: Verdict)
      requires idx <= |name|
      modifies this
      ensures (v, r) == VideoSegmentInfo(name[idx..], old(v))
    {
      if |name| > idx {
        v := v.(isParity := name[idx] == PARITY);
        v := v.(hasSegNo := true);
        if v.isParity && |name| > idx + 1 {
          v := v.(segmentClass := Parity);
          if !name[idx + 1].Segment? {
            return Rejected;
          }
          v := v.(segNo := ToUint32(name[idx + 1].n));
          return Accepted;
        } else {
          if v.isParity {
            return Rejected;
          }
          if name[idx] == MANIFEST {
            v := v.(segmentClass := Manifest);
          } else {
            v := v.(segmentClass := Data);
            if !name[idx].Segment? {
              return Rejected;
            }
            v := v.(segNo := ToUint32(name[idx].n));
          }
          return Accepted;
        }
      } else {
        v := v.(segmentClass := UnknownSegment);
        v := v.(hasSegNo := false);
        return Accepted;
      }
    }

    method ExtractAudioStreamInfo(name: Name) returns (r: Verdict)
      modifies this
      ensures (v, r) == AudioInfo(name, old(v))
    {
      if |name| == 1 {
        v := v.(streamName := Escaped(name[0]));
        return Accepted;
      }
      if |name| == 2 && name[1].Timestamp? {
        v := v.(streamName := Escaped(name[0]));
        v := v.(streamTimestamp := name[1].n);
        return Accepted;
      }
      if |name| < 2 {
        return Rejected;
      }
      var idx := 2;
      if name[idx - 1] == META {
        v := v.(streamName := Escaped(name[0]), isMeta := true);
        v := v.(segmentClass := Meta);
        if |name| < idx + 1 {
          return Rejected;
        }
        v := v.(threadName := "");
        r := ExtractMetaInfo(name[idx..]);
        return;
      }
      if |name| == 2 {
        v := v.(streamName := Escaped(name[0]), isMeta := false);
        v := v.(class_ := Unknown, segmentClass := UnknownSegment);
        return Threw;
      }
      r := ExtractThread(name);
      if r.Accepted? {
        idx := idx + 1;
        r := ExtractAudioSample(name, idx);
      }
    }

    /** The part of the audio parser behind the thread. */
    method ExtractAudioSample(name: Name, start: nat) returns (r: Verdict)
      requires start <= |name| && !v.isMeta
      modifies this
      ensures (v, r) == AudioSampleInfo(name[start..], old(v))
    {
      var idx := start;
      if |name| == start {
        v := v.(hasSeqNo := false);
        return Accepted;
      }
      v := v.(isMeta := name[idx] == META);
      assert name[start..][1..] == name[idx + 1..];
      if v.isMeta {
        v := v.(segmentClass := Meta);
        if |name| > idx + 1 {
          var met := ExtractMetaInfo(name[idx + 1..]);
          if met.Threw? {
            return Threw;
          }
        }
        return Accepted;
      }
      v := v.(isDelta := true);
      v := v.(class_ := Delta);
      if !name[idx].SequenceNumber? {
        return Rejected;
      }
      v := v.(sampleNo := ToPacketNumber(name[idx].n));
      idx := idx + 1;
      v := v.(hasSeqNo := true);
      if |name| > idx {
        if name[idx] == MANIFEST {
          v := v.(segmentClass := Manifest);
        } else {
          v := v.(hasSegNo := true);
          v := v.(segmentClass := Data);
          if !name[idx].Segment? {
            return Rejected;
          }
          v := v.(segNo := ToUint32(name[idx].n));
        }
        return Accepted;
      }
      v := v.(hasSegNo := false);
      return Accepted;
    }

    /** Scans for the application component from the back, then parses what follows it. */
    method Extract(name: Name) returns (r: Verdict)
      modifies this
      ensures (v, r) == ExtractInfo(name, old(v))
    {
      var goodName := false;
      var i := |name| - 2;
      while i > 0 && !goodName
        invariant |name| < 2 ==> i < 0 && !goodName
        invariant |name| >= 2 ==> 0 <= i <= |name| - 2
        invariant !goodName && |name| >= 2 ==> LastApp(name, |name| - 1) == LastApp(name, i + 1)
        invariant goodName ==> LastApp(name, |name| - 1) == i + 1
        decreases if goodName then 0 else 1, i
      {
        goodName := name[i] == APP;
        i := i - 1;
      }
      if goodName {
        v := v.(basePrefix := name[..i + 1]);
        r := ExtractAfterApp(name[i + 2..]);
        return;
      }
      return Rejected;
    }

    method ExtractAfterApp(rest: Name) returns (r: Verdict)
      requires rest != []
      modifies this
      ensures (v, r) == AppInfo(rest, old(v))
    {
      if !rest[0].Version? {
        return Rejected;
      }
      v := v.(apiVersion := ToUint32(rest[0].n));
      if |rest| > 1 && (rest[1] == AUDIO || rest[1] == VIDEO) {
        v := v.(isVideo := rest[1] == VIDEO);
        if v.isVideo {
          r := ExtractVideoStreamInfo(rest[2..]);
        } else {
          r := ExtractAudioStreamInfo(rest[2..]);
        }
        return;
      }
      return Rejected;
    }
  }
}
