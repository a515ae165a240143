/**
 Names that do not go down to a segment number: of streams, threads and samples, of manifests and of metadata.
 What `getPrefix` makes of them, what `extractInfo` reads in them, and exactly which names it accepts.
 */
module NameLevels {
  import opened Names

  // ---------- names that end earlier ----------

  /** How far a name goes: to the stream, its timestamp, the thread (without or with the kind of frame), a sample. */
  datatype Level = ToStream | ToTimestamp | ToThreadOnly | ToThread | ToSample

  function FilterOf(l: Level): bv8
  {
    match l
    case ToStream => STREAM
    case ToTimestamp => STREAM_TS
    case ToThreadOnly => THREAD_NT
    case ToThread => THREAD
    case ToSample => SAMPLE
  }

  /** How many components behind the stream belong to the level. Audio names have no kind of frame. */
  function Depth(f: FullName, l: Level): nat
    requires f.MediaName?
  {
    match l
    case ToStream => 0
    case ToTimestamp => 1
    case ToThreadOnly => 2
    case ToThread => if f.isVideo then 3 else 2
    case ToSample => if f.isVideo then 4 else 3
  }

  /** The front of a media name, down to the level. */
  function Front(f: FullName, l: Level): Name
    requires f.MediaName? && WellFormed(f)
  {
    TailLength(f);
    Print(f)[..|f.base| + 4 + Depth(f, l)]
  }

  lemma TailLength(f: FullName)
    requires f.MediaName?
    ensures |Tail(f)| == Depth(f, ToSample) + (if f.parity then 2 else 1)
    ensures |Print(f)| == |f.base| + 4 + |Tail(f)|
  {
  }

  /** `getPrefix` gives exactly that front of the name, at every level. */
  lemma PrefixIsFront(i: Info, f: FullName, l: Level)
    requires WellFormed(f) && f.MediaName? && Describes(i, f)
    ensures Prefix(i, FilterOf(l)) == Front(f, l)
  {
    TailLength(f);
    FrontOf(f, Depth(f, l));
    var head := f.base + [APP, Version(f.version), if f.isVideo then VIDEO else AUDIO, Text(f.stream)];
    assert f.base + AppPart(i) + StreamPart(i) == head;
    PrefixParts(i, l);
    TailParts(i, f, l);
    Assoc(head, When(!l.ToStream?, [Timestamp(f.ts)]), When(!l.ToStream? && !l.ToTimestamp?, [Text(f.thread)]));
    Assoc(head, When(!l.ToStream?, [Timestamp(f.ts)]) + When(!l.ToStream? && !l.ToTimestamp?, [Text(f.thread)]),
          EndPart(i, l));
  }

  /** Behind the thread: the kind of frame from the thread level on, the number at the sample's. */
  function EndPart(i: Info, l: Level): Name
  {
    When(i.isVideo && (l.ToThread? || l.ToSample?), ClassPart(i)) + When(l.ToSample?, SequencePart(i))
  }

  lemma PrefixParts(i: Info, l: Level)
    requires !i.isMeta && i.threadName != ""
    ensures Prefix(i, FilterOf(l))
            == i.basePrefix + AppPart(i) + StreamPart(i) + When(!l.ToStream?, [Timestamp(i.streamTimestamp)])
               + When(!l.ToStream? && !l.ToTimestamp?, [Text(i.threadName)]) + EndPart(i, l)
  {
    EndBits(i, l);
    FrontBits(l);
  }

  lemma EndBits(i: Info, l: Level)
    requires i.threadName != ""
    ensures SampleEnd(i, FilterOf(l)) == EndPart(i, l)
  {
    assert !Has(FilterOf(l), SEGMENT ^ SAMPLE);
    assert Has(FilterOf(l), SAMPLE ^ THREAD) <==> l.ToSample?;
    assert Has(FilterOf(l), THREAD ^ THREAD_NT) <==> l.ToThread? || l.ToSample?;
  }

  lemma FrontBits(l: Level)
    ensures FilterOf(l) != 0 && Has(FilterOf(l), LIBRARY ^ BASE) && Has(FilterOf(l), STREAM ^ LIBRARY)
    ensures Has(FilterOf(l), STREAM_TS ^ STREAM) <==> !l.ToStream?
    ensures Has(FilterOf(l), THREAD ^ STREAM_TS) <==> !l.ToStream? && !l.ToTimestamp?
  {
  }

  lemma TailParts(i: Info, f: FullName, l: Level)
    requires WellFormed(f) && f.MediaName? && Describes(i, f) && Depth(f, l) <= |Tail(f)|
    ensures Tail(f)[..Depth(f, l)]
            == When(!l.ToStream?, [Timestamp(f.ts)]) + When(!l.ToStream? && !l.ToTimestamp?, [Text(f.thread)])
               + EndPart(i, l)
  {
    var t := Tail(f);
    assert t[0] == Timestamp(f.ts) && t[1] == Text(f.thread);
    if l.ToThread? || l.ToSample? {
      assert f.isVideo ==> t[2] == ClassPart(i)[0];
      assert l.ToSample? ==> t[if f.isVideo then 3 else 2] == SequencePart(i)[0];
    } else {
      assert EndPart(i, l) == [];
    }
  }

  lemma FrontOf(f: FullName, k: nat)
    requires k <= |Tail(f)|
    ensures |f.base| + 4 + k <= |Print(f)|
    ensures Print(f)[..|f.base| + 4 + k]
            == f.base + [APP, Version(f.version), if f.isVideo then VIDEO else AUDIO, Text(f.stream)] + Tail(f)[..k]
  {
  }

  /** No component in front of the last one looks like the application component of a longer base prefix. */
  predicate Visible(f: FullName, l: Level)
    requires f.MediaName?
  {
    (Depth(f, l) > 0 ==> f.stream != "ndnrtc") && (Depth(f, l) > 2 ==> f.thread != "ndnrtc")
  }

  lemma FrontScanned(f: FullName, l: Level)
    requires WellFormed(f) && f.MediaName?
    ensures var name, b := Front(f, l), |f.base|;
      var j := LastApp(name, |name| - 1);
      if Visible(f, l) then j == b else j > b && j + 1 < |name| && !name[j + 1].Version?
  {
    FrontApps(f, l);
    var name := Front(f, l);
    var j := LastApp(name, |name| - 1);
    assert j >= |f.base|;
  }

  /** Where the application component, or one that looks like it, can be in a front. */
  lemma FrontApps(f: FullName, l: Level)
    requires WellFormed(f) && f.MediaName?
    ensures var name, b := Front(f, l), |f.base|;
      && |name| == b + 4 + Depth(f, l) && b > 0 && name[b] == APP
      && (forall k | b < k < |name| :: name[k] == APP ==> k == b + 3 || k == b + 5)
      && (name[b + 3] == APP <==> f.stream == "ndnrtc")
      && (Depth(f, l) > 0 ==> !name[b + 4].Version?)
      && (Depth(f, l) > 2 ==> (name[b + 5] == APP <==> f.thread == "ndnrtc") && !name[b + 6].Version?)
  {
    var name, full := Front(f, l), Print(f);
    AppPositions(f);
    TailLength(f);
    assert forall k | 0 <= k < |name| :: name[k] == full[k];
  }

  /** What the fields say of a name that ends at the level. */
  predicate DescribesTo(i: Info, f: FullName, l: Level)
    requires f.MediaName?
  {
    && i.basePrefix == f.base && i.apiVersion == f.version && i.isVideo == f.isVideo
    && i.streamName == f.stream && !i.isMeta && !i.isParity && i.segmentClass == UnknownSegment
    && (!l.ToStream? ==> i.streamTimestamp == f.ts)
    && i.threadName == (if l.ToStream? || l.ToTimestamp? then "" else f.thread)
    && i.class_ == (if l.ToSample? || (l.ToThread? && f.isVideo) then (if f.isKey then Key else Delta) else Unknown)
    && i.isDelta == (i.class_ == Delta)
    && i.hasSeqNo == l.ToSample? && (l.ToSample? ==> i.sampleNo == f.no && !i.hasSegNo)
  }

  lemma FrontParses(f: FullName, l: Level, blank: Info)
    requires WellFormed(f) && f.MediaName? && Initialised(blank) && Visible(f, l)
    ensures var (j, r) := ExtractInfo(Front(f, l), blank);
      r.Accepted? && DescribesTo(j, f, l)
  {
    var d := Depth(f, l);
    TailLength(f);
    FrontOf(f, d);
    FrontScanned(f, l);
    var start := blank.(basePrefix := f.base, apiVersion := f.version, isVideo := f.isVideo);
    var rest := [Text(f.stream)] + Tail(f)[..d];
    HeadApart(f.base, APP, Version(f.version), if f.isVideo then VIDEO else AUDIO, Text(f.stream), Tail(f)[..d]);
    ScannedAt(Front(f, l), f.base, f.version, f.isVideo, rest, blank, start);
    if f.isVideo {
      VideoFrontParses(f, l, rest, start);
    } else {
      AudioFrontParses(f, l, rest, start);
    }
  }

  /** The fields after base prefix, version and type have been read. */
  predicate StartedAt(i: Info, f: FullName)
  {
    && Initialised(i.(basePrefix := [], apiVersion := 0))
    && i.basePrefix == f.base && i.apiVersion == f.version && i.isVideo == f.isVideo
  }

  lemma VideoFrontParses(f: FullName, l: Level, rest: Name, i: Info)
    requires WellFormed(f) && f.MediaName? && f.isVideo && StartedAt(i, f)
    requires Depth(f, l) <= |Tail(f)| && rest == [Text(f.stream)] + Tail(f)[..Depth(f, l)]
    ensures var (j, r) := VideoInfo(rest, i); r.Accepted? && DescribesTo(j, f, l)
  {
    var t, d := Tail(f), Depth(f, l);
    assert t[0] == Timestamp(f.ts) && t[1] == Text(f.thread) && t[2] == (if f.isKey then KEY else DELTA);
    assert t[3] == SequenceNumber(FromPacketNumber(f.no));
    if d >= 2 {
      assert rest[1] == Timestamp(f.ts) && rest[2] == Text(f.thread) && rest[1] != META;
      assert VideoInfo(rest, i) == VideoSampleInfo(rest[3..], ThreadInfo(rest, i));
      assert rest[3..] == if d == 2 then [] else if d == 3 then [t[2]] else [t[2], t[3]];
    } else {
      assert rest == if d == 0 then [Text(f.stream)] else [Text(f.stream), Timestamp(f.ts)];
    }
  }

  lemma AudioFrontParses(f: FullName, l: Level, rest: Name, i: Info)
    requires WellFormed(f) && f.MediaName? && !f.isVideo && StartedAt(i, f)
    requires Depth(f, l) <= |Tail(f)| && rest == [Text(f.stream)] + Tail(f)[..Depth(f, l)]
    ensures var (j, r) := AudioInfo(rest, i); r.Accepted? && DescribesTo(j, f, l)
  {
    var t, d := Tail(f), Depth(f, l);
    assert t[0] == Timestamp(f.ts) && t[1] == Text(f.thread) && t[2] == SequenceNumber(FromPacketNumber(f.no));
    if d >= 2 {
      assert rest[1] == Timestamp(f.ts) && rest[2] == Text(f.thread) && rest[1] != META;
      assert AudioInfo(rest, i) == AudioSampleInfo(rest[3..], ThreadInfo(rest, i));
      assert rest[3..] == if d == 2 then [] else [t[2]];
      AudioSampleFront(rest[3..], f, ThreadInfo(rest, i));
    } else {
      assert rest == if d == 0 then [Text(f.stream)] else [Text(f.stream), Timestamp(f.ts)];
    }
  }

  lemma AudioSampleFront(rest: Name, f: FullName, i: Info)
    requires f.MediaName? && (rest == [] || rest == [SequenceNumber(FromPacketNumber(f.no))])
    ensures AudioSampleInfo(rest, i)
            == (if rest == [] then i.(hasSeqNo := false)
                else i.(isDelta := true, class_ := Delta, sampleNo := f.no, hasSeqNo := true, hasSegNo := false),
                Accepted)
  {
  }

  /** A front hidden by a later application component is rejected. */
  lemma HiddenFront(f: FullName, l: Level, blank: Info)
    requires WellFormed(f) && f.MediaName? && !Visible(f, l)
    ensures ExtractInfo(Front(f, l), blank).1.Rejected?
  {
    FrontScanned(f, l);
    var name := Front(f, l);
    var j := LastApp(name, |name| - 1);
    assert name[j + 1..][0] == name[j + 1];
  }

  /**
   Names of streams, threads and samples, audio and video: what `getPrefix` gives at a level is accepted by
   `extractInfo` if and only if no stream or thread in front of its last component is called "ndnrtc"; the
   fields down to the level are then the original ones, with nothing beyond. Asked for the same level again
   they print the same name, but for a stream with its timestamp: without a thread the timestamp is left out.
   */
  lemma EveryLevelSurvives(f: FullName, i: Info, l: Level, blank: Info)
    requires WellFormed(f) && f.MediaName? && Describes(i, f) && Initialised(blank)
    ensures var name := Prefix(i, FilterOf(l));
      var (j, r) := ExtractInfo(name, blank);
      && name == Front(f, l)
      && (r.Accepted? <==> Visible(f, l))
      && (r.Accepted? ==> DescribesTo(j, f, l) && (Prefix(j, FilterOf(l)) == name <==> !l.ToTimestamp?))
  {
    PrefixIsFront(i, f, l);
    if Visible(f, l) {
      FrontParses(f, l, blank);
      PrintsFrontAgain(f, i, l, ExtractInfo(Front(f, l), blank).0);
    } else {
      HiddenFront(f, l, blank);
    }
  }

  lemma PrintsFrontAgain(f: FullName, i: Info, l: Level, j: Info)
    requires WellFormed(f) && f.MediaName? && Describes(i, f) && DescribesTo(j, f, l)
    ensures Prefix(j, FilterOf(l)) == Prefix(i, FilterOf(l)) <==> !l.ToTimestamp?
  {
    if l.ToTimestamp? {
      assert |Prefix(i, STREAM_TS)| == |f.base| + 5 && |Prefix(j, STREAM_TS)| == |f.base| + 4;
    }
  }

  /** The manifest of a sample, and anything behind it. */
  function ManifestName(f: FullName, more: Name): Name
    requires f.MediaName? && WellFormed(f)
  {
    Front(f, ToSample) + [MANIFEST] + more
  }

  /**
   The name of a sample's manifest is understood as such, whatever comes behind the manifest component, with
   the fields of the sample; no number of a segment is read.
   */
  lemma ManifestParses(f: FullName, more: Name, blank: Info)
    requires WellFormed(f) && f.MediaName? && NoLaterApp(f) && APP !in more && Initialised(blank)
    ensures var (j, r) := ExtractInfo(ManifestName(f, more), blank);
      && r.Accepted? && j.segmentClass == Manifest && j.segNo == 0 && !j.isParity && !j.isMeta
      && j.basePrefix == f.base && j.apiVersion == f.version && j.isVideo == f.isVideo
      && j.streamName == f.stream && j.streamTimestamp == f.ts && j.threadName == f.thread
      && j.class_ == (if f.isKey then Key else Delta) && j.sampleNo == f.no && j.hasSeqNo
  {
    var d := Depth(f, ToSample);
    TailLength(f);
    FrontOf(f, d);
    ManifestScanned(f, more);
    var start := blank.(basePrefix := f.base, apiVersion := f.version, isVideo := f.isVideo);
    var behind := Tail(f)[..d] + ([MANIFEST] + more);
    var rest := [Text(f.stream)] + behind;
    var head := f.base + [APP, Version(f.version), if f.isVideo then VIDEO else AUDIO, Text(f.stream)];
    assert Front(f, ToSample) == head + Tail(f)[..d];
    ManifestApart(head, Tail(f)[..d], [MANIFEST], more);
    HeadApart(f.base, APP, Version(f.version), if f.isVideo then VIDEO else AUDIO, Text(f.stream), behind);
    ScannedAt(ManifestName(f, more), f.base, f.version, f.isVideo, rest, blank, start);
    ManifestBehind(f, more, rest, start);
  }

  lemma ManifestApart(head: Name, tail: Name, manifest: Name, more: Name)
    ensures (head + tail) + manifest + more == head + (tail + (manifest + more))
  {
  }

  lemma ManifestScanned(f: FullName, more: Name)
    requires WellFormed(f) && f.MediaName? && NoLaterApp(f) && APP !in more
    ensures var name := ManifestName(f, more); LastApp(name, |name| - 1) == |f.base|
  {
    var name, full, front := ManifestName(f, more), Print(f), Front(f, ToSample);
    AppPositions(f);
    TailLength(f);
    assert forall k | 0 <= k < |front| :: name[k] == full[k];
    assert forall k | |front| < k < |name| :: name[k] == more[k - |front| - 1];
  }

  lemma ManifestBehind(f: FullName, more: Name, rest: Name, i: Info)
    requires WellFormed(f) && f.MediaName? && StartedAt(i, f)
    requires |Tail(f)| >= Depth(f, ToSample)
    requires rest == [Text(f.stream)] + (Tail(f)[..Depth(f, ToSample)] + ([MANIFEST] + more))
    ensures var (j, r) := if f.isVideo then VideoInfo(rest, i) else AudioInfo(rest, i);
      && r.Accepted? && j.segmentClass == Manifest && j.segNo == 0 && !j.isParity && !j.isMeta
      && j.basePrefix == f.base && j.apiVersion == f.version && j.isVideo == f.isVideo
      && j.streamName == f.stream && j.streamTimestamp == f.ts && j.threadName == f.thread
      && j.class_ == (if f.isKey then Key else Delta) && j.sampleNo == f.no && j.hasSeqNo
  {
    var t := Tail(f);
    var j := ThreadInfo(rest, i);
    assert rest[1] == t[0] == Timestamp(f.ts) && rest[2] == t[1] == Text(f.thread) && rest[1] != META;
    if f.isVideo {
      assert rest[3] == t[2] && rest[4] == t[3] && rest[5] == MANIFEST;
      assert VideoInfo(rest, i) == VideoSampleInfo(rest[3..], j);
      VideoManifest(rest[3..], f, j);
    } else {
      assert rest[3] == t[2] && rest[4] == MANIFEST;
      assert AudioInfo(rest, i) == AudioSampleInfo(rest[3..], j);
      AudioManifest(rest[3..], f, j);
    }
  }

  lemma AudioManifest(rest: Name, f: FullName, i: Info)
    requires f.MediaName? && |rest| > 1
    requires rest[0] == SequenceNumber(FromPacketNumber(f.no)) && rest[1] == MANIFEST
    ensures AudioSampleInfo(rest, i)
            == (i.(isDelta := true, class_ := Delta, sampleNo := f.no, hasSeqNo := true, segmentClass := Manifest),
                Accepted)
  {
  }

  lemma VideoManifest(rest: Name, f: FullName, i: Info)
    requires f.MediaName? && |rest| > 2 && rest[0] == (if f.isKey then KEY else DELTA)
    requires rest[1] == SequenceNumber(FromPacketNumber(f.no)) && rest[2] == MANIFEST
    ensures VideoSampleInfo(rest, i)
            == (i.(isDelta := !f.isKey, class_ := if f.isKey then Key else Delta, sampleNo := f.no, hasSeqNo := true,
                   isParity := false, hasSegNo := true, segmentClass := Manifest), Accepted)
  {
    assert rest[2..][0] == MANIFEST;
  }

  // ---------- names of metadata that end earlier ----------

  /** How many components behind the stream a metadata name has in front of its version. */
  function MetaDepth(f: FullName): nat
  {
    if f.StreamMetaName? then 1 else 3
  }

  /** A metadata name with `k` components behind the stream. */
  function MetaFront(f: FullName, k: nat): Name
    requires !f.MediaName? && k <= MetaDepth(f) + 1
  {
    var head := f.base + [APP, Version(f.version), if f.isVideo then VIDEO else AUDIO, Text(f.stream)];
    head + Tail(f)[..k]
  }

  lemma MetaFrontScanned(f: FullName, k: nat, i: Info)
    requires WellFormed(f) && NoLaterApp(f) && !f.MediaName? && k <= MetaDepth(f) + 1
    ensures var start := i.(basePrefix := f.base, apiVersion := f.version, isVideo := f.isVideo);
      var rest := [Text(f.stream)] + Tail(f)[..k];
      ExtractInfo(MetaFront(f, k), i) == if f.isVideo then VideoInfo(rest, start) else AudioInfo(rest, start)
  {
    var name, full, b := MetaFront(f, k), Print(f), |f.base|;
    AppPositions(f);
    FrontOf(f, k);
    assert forall j | 0 <= j < |name| :: name[j] == full[j];
    assert LastApp(name, |name| - 1) == b;
    HeadApart(f.base, APP, Version(f.version), if f.isVideo then VIDEO else AUDIO, Text(f.stream), Tail(f)[..k]);
    ScannedAt(name, f.base, f.version, f.isVideo, [Text(f.stream)] + Tail(f)[..k], i,
              i.(basePrefix := f.base, apiVersion := f.version, isVideo := f.isVideo));
  }

  /**
   A metadata name that ends with its version is understood, without a segment number. One that ends in front
   of the version is understood for a thread and rejected for a stream.
   */
  lemma MetaFrontParses(f: FullName, blank: Info)
    requires WellFormed(f) && NoLaterApp(f) && !f.MediaName? && Initialised(blank)
    ensures var (j, r) := ExtractInfo(MetaFront(f, MetaDepth(f) + 1), blank);
      && r.Accepted? && j.isMeta && j.segmentClass == Meta && j.metaVersion == f.metaVersion && !j.hasSegNo
      && j.streamName == f.stream && j.threadName == (if f.StreamMetaName? then "" else f.thread)
    ensures var (j, r) := ExtractInfo(MetaFront(f, MetaDepth(f)), blank);
      && (r.Accepted? <==> f.ThreadMetaName?)
      && (r.Accepted? ==> j.isMeta && j.segmentClass == Meta && j.streamName == f.stream
                          && j.threadName == f.thread && j.streamTimestamp == f.ts)
  {
    var d := MetaDepth(f);
    MetaFrontScanned(f, d, blank);
    MetaFrontScanned(f, d + 1, blank);
    var start := blank.(basePrefix := f.base, apiVersion := f.version, isVideo := f.isVideo);
    MetaBehind(f, [Text(f.stream)] + Tail(f)[..d], [Text(f.stream)] + Tail(f)[..d + 1], start);
  }

  lemma MetaBehind(f: FullName, short: Name, long: Name, i: Info)
    requires WellFormed(f) && !f.MediaName? && StartedAt(i, f)
    requires short == [Text(f.stream)] + Tail(f)[..MetaDepth(f)]
    requires long == [Text(f.stream)] + Tail(f)[..MetaDepth(f) + 1]
    ensures var (j, r) := if f.isVideo then VideoInfo(long, i) else AudioInfo(long, i);
      && r.Accepted? && j.isMeta && j.segmentClass == Meta && j.metaVersion == f.metaVersion && !j.hasSegNo
      && j.streamName == f.stream && j.threadName == (if f.StreamMetaName? then "" else f.thread)
    ensures var (j, r) := if f.isVideo then VideoInfo(short, i) else AudioInfo(short, i);
      && (r.Accepted? <==> f.ThreadMetaName?)
      && (r.Accepted? ==> j.isMeta && j.segmentClass == Meta && j.streamName == f.stream
                          && j.threadName == f.thread && j.streamTimestamp == f.ts)
  {
    if f.StreamMetaName? {
      assert short == [Text(f.stream), META] && long == [Text(f.stream), META, Version(f.metaVersion)];
      assert long[2..] == [Version(f.metaVersion)];
    } else {
      var thread := [Text(f.stream), Timestamp(f.ts), Text(f.thread), META];
      assert short == thread && long == thread + [Version(f.metaVersion)];
      ThreadMetaBehind(f, short, ThreadInfo(short, i));
      ThreadMetaBehind(f, long, ThreadInfo(long, i));
      assert short[3..] == [META] && long[3..] == [META, Version(f.metaVersion)];
    }
  }

  lemma ThreadMetaBehind(f: FullName, name: Name, i: Info)
    requires f.ThreadMetaName? && |name| >= 4 && name[3] == META
    requires name[4..] == [] || name[4..] == [Version(f.metaVersion)]
    ensures var (j, r) := VideoSampleInfo(name[3..], i);
      && r.Accepted? && (j, r) == AudioSampleInfo(name[3..], i)
      && j == (if name[4..] == [] then i.(isMeta := true, segmentClass := Meta)
               else i.(isMeta := true, segmentClass := Meta, metaVersion := f.metaVersion, hasSegNo := false))
  {
    assert name[3..][1..] == name[4..];
  }

  /** The parts of a metadata name behind the stream. */
  function MetaTimestamp(i: Info): Name { When(i.threadName != "", [Timestamp(i.streamTimestamp)]) }
  function MetaThread(i: Info): Name { When(i.threadName != "", [Text(i.threadName)]) }
  function MetaNumbers(i: Info): Name { [Version(i.metaVersion), Segment(i.segNo)] }

  lemma MetaPrefixes(i: Info)
    requires i.isMeta
    ensures Prefix(i, BASE) == i.basePrefix && Prefix(i, LIBRARY) == i.basePrefix + AppPart(i)
    ensures Prefix(i, STREAM_TS) == i.basePrefix + AppPart(i) + StreamPart(i) + MetaTimestamp(i)
    ensures Prefix(i, THREAD) == i.basePrefix + AppPart(i) + StreamPart(i) + MetaTimestamp(i) + MetaThread(i)
    ensures Prefix(i, SAMPLE) == i.basePrefix + AppPart(i) + StreamPart(i) + MetaTimestamp(i) + MetaThread(i) + [META]
  {
  }

  lemma MetaLongSuffixes(i: Info)
    requires i.isMeta && i.hasSegNo && !i.isParity
    ensures Suffix(i, S_LIBRARY)
            == AppPart(i) + (StreamPart(i) + MetaTimestamp(i)) + MetaThread(i) + ([META] + MetaNumbers(i))
    ensures Suffix(i, S_STREAM) == (StreamPart(i) + MetaTimestamp(i)) + MetaThread(i) + ([META] + MetaNumbers(i))
  {
    assert SuffixEnd(i, S_LIBRARY) == [META] + MetaNumbers(i);
    assert SuffixEnd(i, S_STREAM) == [META] + MetaNumbers(i);
  }

  lemma MetaShortSuffixes(i: Info)
    requires i.isMeta && i.hasSegNo && !i.isParity
    ensures Suffix(i, S_THREAD) == MetaThread(i) + (When(i.threadName != "", [META]) + MetaNumbers(i))
    ensures Suffix(i, S_SAMPLE) == MetaNumbers(i)
  {
    assert SuffixEnd(i, S_THREAD) == When(i.threadName != "", [META]) + MetaNumbers(i);
    assert SuffixEnd(i, S_SAMPLE) == MetaNumbers(i);
  }

  lemma MetaPrinted(i: Info)
    requires i.isMeta
    ensures Prefix(i, SEGMENT)
            == i.basePrefix + AppPart(i) + StreamPart(i) + MetaTimestamp(i) + MetaThread(i) + ([META] + MetaNumbers(i))
  {
    FullPrefix(i);
  }

  lemma MetaRegroup(base: Name, app: Name, stream: Name, ts: Name, thread: Name, meta: Name, numbers: Name)
    ensures var whole := base + app + stream + ts + thread + (meta + numbers);
      && base + (app + (stream + ts) + thread + (meta + numbers)) == whole
      && (base + app) + ((stream + ts) + thread + (meta + numbers)) == whole
      && (base + app + stream + ts) + (thread + (meta + numbers)) == whole
      && (base + app + stream + ts + thread + meta) + numbers == whole
  {
  }

  /**
   Cut in two, a metadata name is prefix and suffix of the same level down to the stream, and for a thread
   down to its timestamp; behind that the metadata component goes with the sample, not with the thread.
   */
  lemma MetaSplits(f: FullName, i: Info)
    requires WellFormed(f) && !f.MediaName? && Describes(i, f) && !i.isParity
    ensures Prefix(i, BASE) + Suffix(i, S_LIBRARY) == Print(f)
    ensures Prefix(i, LIBRARY) + Suffix(i, S_STREAM) == Print(f)
    ensures Prefix(i, STREAM_TS) + Suffix(i, S_THREAD) == Print(f) <==> f.ThreadMetaName?
    ensures Prefix(i, SAMPLE) + Suffix(i, S_SAMPLE) == Print(f)
    ensures Prefix(i, THREAD) + Suffix(i, S_SAMPLE) != Print(f)
  {
    PrintsBack(i, f);
    MetaPrinted(i);
    MetaPrefixes(i);
    MetaLongSuffixes(i);
    MetaShortSuffixes(i);
    MetaRegroup(i.basePrefix, AppPart(i), StreamPart(i), MetaTimestamp(i), MetaThread(i), [META], MetaNumbers(i));
    assert |Prefix(i, THREAD) + Suffix(i, S_SAMPLE)| == |Print(f)| - 1;
    assert f.StreamMetaName? ==> |Prefix(i, STREAM_TS) + Suffix(i, S_THREAD)| == |Print(f)| - 1;
  }

  // ---------- exactly which names are accepted ----------

  /** Behind the metadata component: a version, and a segment if anything follows. */
  predicate IsMetaEnd(e: Name)
  {
    e != [] && e[0].Version? && (|e| > 1 ==> e[1].Segment?)
  }

  /** Behind a sample: nothing, a manifest, a segment, or (video) parity with a segment. */
  predicate IsSampleEnd(isVideo: bool, e: Name)
  {
    || e == []
    || e[0] == MANIFEST || e[0].Segment?
    || (isVideo && |e| > 1 && e[0] == PARITY && e[1].Segment?)
  }

  /** Behind a thread. Metadata without a readable version is let through, with an unreadable segment it throws. */
  predicate IsThreadEnd(isVideo: bool, e: Name)
  {
    || e == []
    || (e[0] == META && !BadMetaSegment(e[1..]))
    || (if isVideo
        then (e[0] == DELTA || e[0] == KEY) && (|e| > 1 ==> e[1].SequenceNumber? && IsSampleEnd(true, e[2..]))
        else e[0].SequenceNumber? && IsSampleEnd(false, e[1..]))
  }

  /** A version with something behind it that is no segment. */
  predicate BadMetaSegment(e: Name)
  {
    |e| > 1 && e[0].Version? && !e[1].Segment?
  }

  /** Behind the type of media: a stream and what belongs to it. */
  predicate IsStreamEnd(isVideo: bool, e: Name)
  {
    || |e| == 1
    || (|e| == 2 && e[1].Timestamp?)
    || (|e| > 2 && e[1] == META && IsMetaEnd(e[2..]))
    || (|e| > 2 && e[1].Timestamp? && IsThreadEnd(isVideo, e[3..]))
  }

  /** Where the parser throws: no timestamp where one must be, or a metadata version with a bad segment. */
  predicate ThrowsBehindType(isVideo: bool, e: Name)
  {
    || (|e| > (if isVideo then 2 else 1) && e[1] != META && !e[1].Timestamp?)
    || (|e| > 2 && e[1] == META && BadMetaSegment(e[2..]))
    || (|e| > 3 && e[1].Timestamp? && e[3] == META && BadMetaSegment(e[4..]))
  }

  lemma BehindType(isVideo: bool, e: Name, i: Info)
    ensures var r := (if isVideo then VideoInfo(e, i) else AudioInfo(e, i)).1;
      && (r.Accepted? <==> IsStreamEnd(isVideo, e))
      && (r.Threw? <==> ThrowsBehindType(isVideo, e))
  {
    if |e| > 2 && e[1].Timestamp? {
      BehindThread(isVideo, e[3..], ThreadInfo(e, i));
    }
  }

  lemma BehindThread(isVideo: bool, e: Name, i: Info)
    ensures var r := (if isVideo then VideoSampleInfo(e, i) else AudioSampleInfo(e, i)).1;
      && (r.Accepted? <==> IsThreadEnd(isVideo, e))
      && (r.Threw? <==> e != [] && e[0] == META && BadMetaSegment(e[1..]))
  {
  }

  /** The application component that counts: the last one in front of the last component, but not the first. */
  ghost predicate IsAppAt(name: Name, j: nat)
  {
    && 0 < j < |name| - 1 && name[j] == APP
    && forall k | j < k < |name| - 1 :: name[k] != APP
  }

  /** Behind the application component come a version and the type of media. */
  predicate IsTyped(name: Name, j: nat)
  {
    j + 2 < |name| && name[j + 1].Version? && (name[j + 2] == AUDIO || name[j + 2] == VIDEO)
  }

  lemma BehindVersion(rest: Name, i: Info)
    requires rest != []
    ensures var r := AppInfo(rest, i).1;
      var typed := |rest| > 1 && rest[0].Version? && (rest[1] == AUDIO || rest[1] == VIDEO);
      && (r.Accepted? <==> typed && IsStreamEnd(rest[1] == VIDEO, rest[2..]))
      && (r.Threw? <==> typed && ThrowsBehindType(rest[1] == VIDEO, rest[2..]))
  {
    if |rest| > 1 && rest[0].Version? && (rest[1] == AUDIO || rest[1] == VIDEO) {
      var isVideo := rest[1] == VIDEO;
      BehindType(isVideo, rest[2..], i.(apiVersion := ToUint32(rest[0].n), isVideo := isVideo));
    }
  }

  lemma BehindApp(name: Name, j: nat, i: Info)
    requires IsAppAt(name, j)
    ensures var r := ExtractInfo(name, i).1;
      && (r.Accepted? <==> IsTyped(name, j) && IsStreamEnd(name[j + 2] == VIDEO, name[j + 3..]))
      && (r.Threw? <==> IsTyped(name, j) && ThrowsBehindType(name[j + 2] == VIDEO, name[j + 3..]))
  {
    assert LastApp(name, |name| - 1) == j;
    var rest := name[j + 1..];
    BehindVersion(rest, i.(basePrefix := name[..j]));
    assert rest[0] == name[j + 1];
    if j + 2 < |name| {
      assert rest[1] == name[j + 2] && rest[2..] == name[j + 3..];
    }
  }

  /**
   Exactly the names that `extractInfo` accepts, and exactly those on which it throws: behind the application
   component a version, the type of media, and one of the endings above.
   */
  lemma ExtractsExactly(name: Name, i: Info)
    ensures ExtractInfo(name, i).1.Accepted? <==>
            exists j: nat :: IsAppAt(name, j) && IsTyped(name, j)
                             && IsStreamEnd(name[j + 2] == VIDEO, name[j + 3..])
    ensures ExtractInfo(name, i).1.Threw? <==>
            exists j: nat :: IsAppAt(name, j) && IsTyped(name, j)
                             && ThrowsBehindType(name[j + 2] == VIDEO, name[j + 3..])
  {
    if j: nat :| IsAppAt(name, j) {
      BehindApp(name, j, i);
      forall k: nat | IsAppAt(name, k) ensures k == j {
      }
    } else {
      assert |name| >= 2 && LastApp(name, |name| - 1) != 0 ==> IsAppAt(name, LastApp(name, |name| - 1));
    }
  }
}
