/**
 The segment fetcher on its key-chain path: it asks for one segment after the other and hands over their
 concatenation. Every received packet is processed once, verified or not. Expressing an Interest is an
 effect recorded in the state; answers and timeouts are inputs.
 */
module SegmentFetchers {
  import opened Bytes

  datatype FinalBlock = NoFinalBlock | Undecodable | FinalSegment(no: nat)

  /** A packet: the version its name belongs to, its segment number if the name ends with one, its content. */
  datatype Data = Data(version: nat, segment: Segment, finalBlock: FinalBlock, content: bytes)

  datatype Segment = NoSegment | Segment(no: nat)

  /** The first Interest asks for the rightmost version. */
  datatype Interest = Rightmost | ForSegment(version: nat, no: nat)

  datatype ErrorCode = InterestTimeout | DataHasNoSegment

  datatype Callback =
    | OnComplete(content: bytes, invalid: seq<Data>, packets: seq<Data>)
    | OnError(code: ErrorCode)

  datatype Fetch = Fetch(
    parts: seq<bytes>, packets: seq<Data>, invalid: seq<Data>,
    pending: seq<Interest>, callbacks: seq<Callback>, sent: nat)

  const STARTED := Fetch([], [], [], [Rightmost], [], 1)

  function Failed(f: Fetch, code: ErrorCode): Fetch
  {
    f.(callbacks := f.callbacks + [OnError(code)])
  }

  function Expressed(f: Fetch, i: Interest): Fetch
  {
    f.(pending := f.pending + [i], sent := f.sent + 1)
  }

  /** `processSegment`. */
  function Processed(f: Fetch, data: Data): Fetch
  {
    if data.segment.NoSegment? then Failed(f, DataHasNoSegment)
    else if data.segment.no != |f.parts| then Expressed(f, ForSegment(data.version, |f.parts|))
    else
      var g := f.(parts := f.parts + [data.content], packets := f.packets + [data]);
      match data.finalBlock
      case Undecodable => Failed(g, DataHasNoSegment)
      case FinalSegment(no) =>
        if no == data.segment.no
        then g.(callbacks := g.callbacks + [OnComplete(Flatten(g.parts), g.invalid, g.packets)])
        else Expressed(g, ForSegment(data.version, data.segment.no + 1))
      case NoFinalBlock => Expressed(g, ForSegment(data.version, data.segment.no + 1))
  }

  /** The outstanding Interest is answered. */
  function Answered(f: Fetch, data: Data, verified: bool): Fetch
    requires f.pending != []
  {
    var g := f.(pending := f.pending[1..]);
    Processed(if verified then g else g.(invalid := g.invalid + [data]), data)
  }

  function TimedOut(f: Fetch): Fetch
    requires f.pending != []
  {
    Failed(f.(pending := f.pending[1..]), InterestTimeout)
  }

  function Contents(packets: seq<Data>): seq<bytes>
  {
    seq(|packets|, i requires 0 <= i < |packets| => packets[i].content)
  }

  /**
   Either one Interest is outstanding or one callback has been made; what has been kept are segments 0, 1,
   2, ... in order; and a completed fetch handed over the concatenation of all segments up to the final one.
   */
  ghost predicate Inv(f: Fetch)
  {
    && |f.pending| + |f.callbacks| == 1
    && f.parts == Contents(f.packets)
    && (forall i | 0 <= i < |f.packets| :: f.packets[i].segment == Segment(i))
    && (f.pending != [] && f.pending[0].ForSegment? ==> f.pending[0].no == |f.parts|)
    && (f.pending != [] && f.pending[0].Rightmost? ==> f.parts == [])
    && (f.callbacks != [] && f.callbacks[0].OnComplete? ==> CompleteOk(f.callbacks[0]))
  }

  ghost predicate CompleteOk(c: Callback)
    requires c.OnComplete?
  {
    && c.packets != []
    && c.content == Flatten(Contents(c.packets))
    && (forall i | 0 <= i < |c.packets| :: c.packets[i].segment == Segment(i))
    && c.packets[|c.packets| - 1].finalBlock == FinalSegment(|c.packets| - 1)
    && forall i | 0 <= i < |c.packets| - 1 :: c.packets[i].finalBlock != FinalSegment(i)
  }

  /** No packet kept so far was the final one, unless the fetch is over. */
  ghost predicate Unfinished(f: Fetch)
  {
    f.pending != [] ==> forall i | 0 <= i < |f.packets| :: f.packets[i].finalBlock != FinalSegment(i)
  }

  datatype Event = Answer(data: Data, verified: bool) | Timeout

  /** Nothing happens any more once no Interest is outstanding. */
  function Step(f: Fetch, e: Event): Fetch
  {
    if f.pending == [] then f
    else match e
         case Answer(data, verified) => Answered(f, data, verified)
         case Timeout => TimedOut(f)
  }

  function Run(f: Fetch, es: seq<Event>): Fetch
    decreases |es|
  {
    if es == [] then f else Run(Step(f, es[0]), es[1..])
  }

  lemma StepInv(f: Fetch, e: Event)
    requires Inv(f) && Unfinished(f)
    ensures Inv(Step(f, e)) && Unfinished(Step(f, e))
  {
    if f.pending != [] {
      var g := f.(pending := []);
      assert f.pending[1..] == [];
      if e.Answer? {
        ProcessedInv(if e.verified then g else g.(invalid := g.invalid + [e.data]), e.data);
      }
    }
  }

  /** A packet is processed while no Interest is outstanding and no callback has been made. */
  lemma ProcessedInv(f: Fetch, data: Data)
    requires f.pending == [] && f.callbacks == [] && f.parts == Contents(f.packets)
    requires forall i | 0 <= i < |f.packets| ::
               f.packets[i].segment == Segment(i) && f.packets[i].finalBlock != FinalSegment(i)
    ensures Inv(Processed(f, data)) && Unfinished(Processed(f, data))
  {
    if data.segment == Segment(|f.parts|) {
      assert Contents(f.packets + [data]) == f.parts + [data.content];
    }
  }

  lemma {:induction false} RunsKeepInv(f: Fetch, es: seq<Event>)
    requires Inv(f) && Unfinished(f)
    ensures Inv(Run(f, es))
    decreases |es|
  {
    if es == [] {
    } else {
      StepInv(f, es[0]);
      RunsKeepInv(Step(f, es[0]), es[1..]);
    }
  }

  // ---------- what each event leads to, and what is reported ----------

  /**
   An answer is kept exactly when it is the segment that comes next. It ends the fetch with an error when it
   is no segment, or is kept and has no readable final block; it completes the fetch when it is kept and is
   the final one; otherwise the next segment is asked for, of the version that was answered.
   */
  lemma AnswerLeadsTo(f: Fetch, data: Data, verified: bool)
    requires Inv(f) && Unfinished(f) && f.pending != []
    ensures var next := Answered(f, data, verified);
      var kept := data.segment == Segment(|f.parts|);
      && next.packets == (if kept then f.packets + [data] else f.packets)
      && next.parts == (if kept then f.parts + [data.content] else f.parts)
      && (|next.callbacks| == 1 && next.callbacks[0] == OnError(DataHasNoSegment) <==>
            data.segment.NoSegment? || (kept && data.finalBlock.Undecodable?))
      && ((|next.callbacks| == 1 && next.callbacks[0].OnComplete?) <==>
            kept && data.finalBlock == FinalSegment(|f.parts|))
      && (next.pending != [] <==> next.callbacks == [])
      && (next.pending != [] ==>
            next.pending == [ForSegment(data.version, |next.parts|)] && next.sent == f.sent + 1)
  {
    assert f.pending[1..] == [] && f.callbacks == [];
    var g := f.(pending := []);
    var next := Answered(f, data, verified);
    assert next == Processed(if verified then g else g.(invalid := g.invalid + [data]), data);
    assert next.callbacks == [] || next.callbacks == [next.callbacks[0]];
  }

  /** A timeout is an error, and nothing more is asked for. */
  lemma TimeoutLeadsTo(f: Fetch)
    requires Inv(f) && f.pending != []
    ensures var next := TimedOut(f);
      next.callbacks == [OnError(InterestTimeout)] && next.pending == [] && next.sent == f.sent
  {
    assert f.pending[1..] == [];
  }

  /** The answers of a run that failed verification, as long as the fetch went on. */
  function Unverified(f: Fetch, es: seq<Event>): seq<Data>
    decreases |es|
  {
    if es == [] || f.pending == [] then []
    else (if es[0].Answer? && !es[0].verified then [es[0].data] else []) + Unverified(Step(f, es[0]), es[1..])
  }

  /** A completed fetch reports what it has recorded. */
  ghost predicate Reported(f: Fetch)
  {
    f.callbacks != [] && f.callbacks[0].OnComplete? ==>
      f.callbacks[0].invalid == f.invalid && f.callbacks[0].packets == f.packets
  }

  lemma StepReports(f: Fetch, e: Event)
    requires Inv(f) && Reported(f) && f.pending != []
    ensures Reported(Step(f, e))
    ensures Step(f, e).invalid == f.invalid + if e.Answer? && !e.verified then [e.data] else []
  {
  }

  /** Over every run the packets reported as invalid are exactly those that failed verification, in order. */
  lemma {:induction false} RunsReport(f: Fetch, es: seq<Event>)
    requires Inv(f) && Unfinished(f) && Reported(f)
    ensures Run(f, es).invalid == f.invalid + Unverified(f, es) && Reported(Run(f, es))
    decreases |es|
  {
    if es == [] {
    } else if f.pending == [] {
      NothingHappens(f, es);
    } else {
      var next, rest := Step(f, es[0]), es[1..];
      StepInv(f, es[0]);
      StepReports(f, es[0]);
      RunsReport(next, rest);
      var first := if es[0].Answer? && !es[0].verified then [es[0].data] else [];
      assert Unverified(f, es) == first + Unverified(next, rest);
      Regroup(f.invalid, first, Unverified(next, rest));
    }
  }

  lemma Regroup(a: seq<Data>, b: seq<Data>, c: seq<Data>)
    ensures (a + b) + c == a + (b + c)
  {
  }

  lemma {:induction false} NothingHappens(f: Fetch, es: seq<Event>)
    requires f.pending == []
    ensures Run(f, es) == f
    decreases |es|
  {
    if es == [] {
    } else {
      NothingHappens(f, es[1..]);
    }
  }

  // ---------- it finishes ----------

  /**
   A producer with segments 0 to `final`: every Interest for a segment is answered with that segment, and
   only the final one announces itself as final.
   */
  ghost predicate Serves(answer: Interest -> Data, final: nat)
  {
    && answer(Rightmost).segment.Segment?
    && (forall i :: answer(i).segment == Segment(final) ==> answer(i).finalBlock == FinalSegment(final))
    && (forall i :: answer(i).segment != Segment(final) && answer(i).segment.Segment? ==>
          answer(i).finalBlock != Undecodable && answer(i).finalBlock != FinalSegment(answer(i).segment.no))
    && forall v: nat, n: nat | n <= final ::
         answer(ForSegment(v, n)).version == v && answer(ForSegment(v, n)).segment == Segment(n)
  }

  /** `n` rounds of answering whatever is outstanding. */
  ghost function Driven(f: Fetch, answer: Interest -> Data, verified: Interest -> bool, n: nat): Fetch
    decreases n
  {
    if n == 0 || f.pending == [] then f
    else Driven(Answered(f, answer(f.pending[0]), verified(f.pending[0])), answer, verified, n - 1)
  }

  ghost predicate Finished(f: Fetch)
  {
    f.pending == [] && |f.callbacks| == 1 && f.callbacks[0].OnComplete?
  }

  /** The segment that is waited for is kept; behind it comes the Interest for the next one, or the end. */
  lemma AnsweredInOrder(f: Fetch, data: Data, verified: bool, final: nat)
    requires |f.pending| == 1 && f.callbacks == [] && |f.parts| <= final && data.segment == Segment(|f.parts|)
    requires |f.parts| == final ==> data.finalBlock == FinalSegment(final)
    requires |f.parts| < final ==> data.finalBlock != Undecodable && data.finalBlock != FinalSegment(|f.parts|)
    ensures var next := Answered(f, data, verified);
      && |next.parts| == |f.parts| + 1
      && if |f.parts| < final
         then next.pending == [ForSegment(data.version, |f.parts| + 1)] && next.callbacks == []
              && next.sent == f.sent + 1
         else Finished(next) && next.sent == f.sent
  {
    assert f.pending[1..] == [];
  }

  lemma {:induction false} FinishesFrom(f: Fetch, answer: Interest -> Data, verified: Interest -> bool, final: nat)
    requires Serves(answer, final) && |f.pending| == 1 && f.callbacks == []
    requires f.pending[0].ForSegment? && f.pending[0].no == |f.parts| <= final
    ensures var g := Driven(f, answer, verified, final - |f.parts| + 1);
      Finished(g) && g.sent == f.sent + (final - |f.parts|)
    decreases final - |f.parts|
  {
    var data := answer(f.pending[0]);
    var next := Answered(f, data, verified(f.pending[0]));
    assert data.segment == Segment(|f.parts|);
    AnsweredInOrder(f, data, verified(f.pending[0]), final);
    var n := final - |f.parts| + 1;
    assert Driven(f, answer, verified, n) == Driven(next, answer, verified, n - 1);
    if |f.parts| < final {
      assert final - |next.parts| + 1 == n - 1;
      FinishesFrom(next, answer, verified, final);
    } else {
      assert n == 1 && Driven(next, answer, verified, 0) == next;
    }
  }

  /** Served by such a producer, the fetch completes, within `final + 2` Interests. */
  lemma FetchFinishes(answer: Interest -> Data, verified: Interest -> bool, final: nat)
    requires Serves(answer, final)
    ensures var g := Driven(STARTED, answer, verified, final + 2);
      && Finished(g) && Inv(g)
      && g.sent <= final + 2
      && (g.sent == final + 1 <==> answer(Rightmost).segment == Segment(0))
  {
    var next := Answered(STARTED, answer(Rightmost), verified(Rightmost));
    FirstAnswer(answer, verified, final);
    if next.pending != [] {
      FinishesFrom(next, answer, verified, final);
      DrivenEnough(next, answer, verified, final - |next.parts| + 1, final + 1);
    }
    DrivenInv(STARTED, answer, verified, final + 2);
  }

  /** After the first answer the fetch has segment 0, or asks for it; a single segment completes it at once. */
  lemma FirstAnswer(answer: Interest -> Data, verified: Interest -> bool, final: nat)
    requires Serves(answer, final)
    ensures var first := answer(Rightmost).segment == Segment(0);
      var next := Answered(STARTED, answer(Rightmost), verified(Rightmost));
      && |next.parts| == (if first then 1 else 0)
      && if first && final == 0 then Finished(next) && next.sent == 1
         else next.callbacks == [] && next.sent == 2
              && |next.pending| == 1 && next.pending[0].ForSegment? && next.pending[0].no == |next.parts|
  {
  }

  lemma {:induction false} DrivenEnough(f: Fetch, answer: Interest -> Data, verified: Interest -> bool, n: nat, m: nat)
    requires n <= m && Driven(f, answer, verified, n).pending == []
    ensures Driven(f, answer, verified, m) == Driven(f, answer, verified, n)
    decreases n
  {
    if n > 0 && f.pending != [] {
      DrivenEnough(Answered(f, answer(f.pending[0]), verified(f.pending[0])), answer, verified, n - 1, m - 1);
    }
  }

  lemma {:induction false} DrivenInv(f: Fetch, answer: Interest -> Data, verified: Interest -> bool, n: nat)
    requires Inv(f) && Unfinished(f)
    ensures Inv(Driven(f, answer, verified, n))
    decreases n
  {
    if n > 0 && f.pending != [] {
      StepInv(f, Answer(answer(f.pending[0]), verified(f.pending[0])));
      DrivenInv(Answered(f, answer(f.pending[0]), verified(f.pending[0])), answer, verified, n - 1);
    }
  }

  // ---------- the object ----------

  /** The whole content, copied part by part into a buffer of the total size. */
  method Concatenate(parts: seq<bytes>) returns (content: array<byte>)
    ensures content[..] == Flatten(parts)
    ensures fresh(content)
  {
    var totalSize := 0;
    assert parts[..0] == [];
    for i := 0 to |parts|
      invariant totalSize == |Flatten(parts[..i])|
    {
      assert parts[..i + 1] == parts[..i] + [parts[i]];
      FlattenAppend(parts[..i], parts[i]);
      totalSize := totalSize + |parts[i]|;
    }
    assert parts[..|parts|] == parts;
    content := new byte[totalSize](_ => 0);
    var offset := 0;
    for i := 0 to |parts|
      invariant content.Length == |Flatten(parts)|
      invariant offset == |Flatten(parts[..i])| <= content.Length
      invariant content[..offset] == Flatten(parts[..i])
    {
      assert parts[..i + 1] == parts[..i] + [parts[i]];
      FlattenAppend(parts[..i], parts[i]);
      assert parts == parts[..i + 1] + parts[i + 1..];
      FlattenConcat(parts[..i + 1], parts[i + 1..]);
      Copy(content, offset, parts[i]);
      offset := offset + |parts[i]|;
    }
  }

  /** `memcpy` into the buffer. */
  method Copy(content: array<byte>, offset: nat, part: bytes)
    requires offset + |part| <= content.Length
    modifies content
    ensures content[..offset] == old(content[..offset])
    ensures content[offset..offset + |part|] == part
    ensures content[..offset + |part|] == old(content[..offset]) + part
  {
    for j := 0 to |part|
      invariant content[..offset] == old(content[..offset])
      invariant content[offset..offset + j] == part[..j]
    {
      content[offset + j] := part[j];
    }
    assert content[..offset + |part|] == content[..offset] + content[offset..offset + |part|];
  }

  class SegmentFetcher {
    var f: Fetch

    constructor ()
      ensures f == STARTED
    {
      f := STARTED;
    }

    /** The packet is verified, and processed whatever the outcome. */
    method OnSegmentReceived(data: Data, verified: bool)
      requires f.pending != [] && Inv(f)
      modifies this
      ensures f == Answered(old(f), data, verified)
    {
      f := f.(pending := f.pending[1..]);
      if !verified {
        f := f.(invalid := f.invalid + [data]);
      }
      ProcessSegment(data);
    }

    method ProcessSegment(data: Data)
      modifies this
      ensures f == Processed(old(f), data)
    {
      if data.segment.NoSegment? {
        f := f.(callbacks := f.callbacks + [OnError(DataHasNoSegment)]);
        return;
      }
      var expected := |f.parts|;
      if data.segment.no != expected {
        FetchNextSegment(data, expected);
        return;
      }
      f := f.(parts := f.parts + [data.content]);
      f := f.(packets := f.packets + [data]);
      if data.finalBlock.Undecodable? {
        f := f.(callbacks := f.callbacks + [OnError(DataHasNoSegment)]);
        return;
      }
      if data.finalBlock.FinalSegment? && data.finalBlock.no == data.segment.no {
        var content := Concatenate(f.parts);
        f := f.(callbacks := f.callbacks + [OnComplete(content[..], f.invalid, f.packets)]);
        return;
      }
      FetchNextSegment(data, expected + 1);
    }

    method FetchNextSegment(data: Data, segment: nat)
      modifies this
      ensures f == Expressed(old(f), ForSegment(data.version, segment))
    {
      f := f.(pending := f.pending + [ForSegment(data.version, segment)], sent := f.sent + 1);
    }

    method OnTimeout()
      requires f.pending != []
      modifies this
      ensures f == TimedOut(old(f))
    {
      f := f.(pending := f.pending[1..]);
      f := f.(callbacks := f.callbacks + [OnError(InterestTimeout)]);
    }
  }
}
