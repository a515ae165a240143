/**
 The playout clock: samples are taken off the playback queue one after the other, and a timer is set for the
 time each is to be shown. Sums are over unbounded integers; the clock is an input.
 */
module PlayoutClock {
  import opened QueueTimes

  // ---------- JitterTiming ----------

  /** Time to wait (ms), processing time not yet made up for (us), and start of the last iteration (us). */
  datatype Timing = Timing(wait: int, proc: int, stamp: int)

  const RESET := Timing(0, 0, 0)

  /** The timer must not fire early; where it did, the source stops at an assertion. */
  predicate Early(t: Timing, now: int)
  {
    t.stamp != 0 && now - t.stamp < t.wait * 1000
  }

  function Started(t: Timing, now: int): Timing
  {
    t.(stamp := now, proc := if t.stamp == 0 then t.proc else t.proc + (now - t.stamp) - t.wait * 1000)
  }

  /** Whole milliseconds of processing time are taken off the delay, as far as it goes. */
  function Absorbed(t: Timing, delay: int): int
  {
    if t.proc < 1000 then 0
    else if (t.proc / 1000) * 1000 > delay * 1000 then delay * 1000
    else (t.proc / 1000) * 1000
  }

  function Updated(t: Timing, delay: int): Timing
  {
    t.(wait := (delay * 1000 - Absorbed(t, delay)) / 1000, proc := t.proc - Absorbed(t, delay))
  }

  /** What is not waited is taken off the processing time, to the microsecond. */
  lemma AbsorbsExactly(t: Timing, delay: int)
    requires delay >= 0 && t.proc >= 0
    ensures var u := Updated(t, delay);
      && 1000 * u.wait + (t.proc - u.proc) == 1000 * delay
      && u.wait >= 0 && u.proc >= 0
      && (u.proc < 1000 || u.wait == 0)
  {
  }

  class JitterTiming {
    var t: Timing

    constructor ()
      ensures t == RESET
    {
      t := RESET;
    }

    method Flush()
      modifies this
      ensures t == RESET
    {
      t := RESET;
    }

    /** `ok` is false where the source's assertion fails. */
    method StartFramePlayout(now: int) returns (ok: bool)
      modifies this
      ensures ok == !Early(old(t), now)
      ensures t == if ok then Started(old(t), now) else old(t)
    {
      if t.stamp == 0 {
        t := t.(stamp := now);
      } else {
        var elapsed := now - t.stamp;
        if elapsed < t.wait * 1000 {
          return false;
        }
        elapsed := elapsed - t.wait * 1000;
        t := t.(proc := t.proc + elapsed);
        t := t.(stamp := now);
      }
      return true;
    }

    method UpdatePlayoutTime(delay: int)
      requires delay >= 0
      modifies this
      ensures t == Updated(old(t), delay)
    {
      var playoutUsec := delay * 1000;
      if t.proc >= 1000 {
        var processingUsec := (t.proc / 1000) * 1000;
        if processingUsec > playoutUsec {
          processingUsec := playoutUsec;
          playoutUsec := 0;
        } else {
          playoutUsec := playoutUsec - processingUsec;
        }
        t := t.(proc := t.proc - processingUsec);
      }
      t := t.(wait := playoutUsec / 1000);
    }
  }

  // ---------- PlayoutImpl ----------

  datatype Play = Play(lastTimestamp: int, lastDelay: int, adjustment: int)

  /** A positive number rounded to the nearest whole one. */
  function Round(x: real): (r: int)
    ensures -0.5 < r as real - x <= 0.5
  {
    (x + 0.5).Floor
  }

  function Corrected(p: Play, timestamp: int): Play
  {
    if p.lastDelay >= 0 then p.(adjustment := p.adjustment + (timestamp - p.lastTimestamp) - p.lastDelay) else p
  }

  /** The adjustment still owed, and the delay after what could be paid of it. */
  function Adjusted(adjustment: int, delay: int): (int, int)
  {
    if adjustment < 0 && -adjustment > delay then (adjustment + delay, 0) else (0, delay + adjustment)
  }

  /** `size()` is nonzero: a lone sample with a period below one millisecond does not count. */
  predicate HasSamples(q: seq<int>, period: real)
  {
    Duration(q, period).Floor != 0
  }

  /** The queue counts as empty although a sample is in it exactly when it is alone with a period below 1 ms. */
  lemma HasSamplesExactly(q: seq<int>, period: real)
    requires Increasing(q) && period >= 0.0
    ensures HasSamples(q, period) <==> |q| > 1 || (|q| == 1 && period >= 1.0)
  {
  }

  /** One iteration's bookkeeping, up to the delay before adjustment, which becomes `lastDelay`. */
  function Taken(p: Play, q: seq<int>, period: real): Play
  {
    if HasSamples(q, period) && q != [] then
      Corrected(p, q[0]).(lastTimestamp := q[0], lastDelay := PlayTime(q, period).Floor)
    else
      p.(lastTimestamp := p.lastTimestamp + Round(period), lastDelay := Round(period))
  }

  function Left(q: seq<int>, period: real): seq<int>
  {
    if HasSamples(q, period) && q != [] then q[1..] else q
  }

  function Iterated(p: Play, q: seq<int>, period: real): (Play, int)
  {
    var taken := Taken(p, q, period);
    var (owed, actual) := Adjusted(taken.adjustment, taken.lastDelay);
    (taken.(adjustment := owed), actual)
  }

  /** The delay handed to the timer is never negative. */
  lemma ActualDelayNotNegative(p: Play, q: seq<int>, period: real)
    requires Increasing(q) && period >= 0.0
    ensures var (r, actual) := Iterated(p, q, period);
      && actual >= 0 && r.lastDelay >= 0
      && actual == r.lastDelay + Taken(p, q, period).adjustment - r.adjustment
  {
  }

  class PlayoutImpl {
    const timing: JitterTiming
    var isRunning: bool
    var p: Play

    constructor ()
      ensures !isRunning && p == Play(-1, -1, 0) && fresh(timing) && timing.t == RESET
    {
      timing := new JitterTiming();
      isRunning := false;
      p := Play(-1, -1, 0);
    }

    /**
     `ok` is false where the source throws or stops at an assertion. `times` and `period` are the queue's
     timestamps and sample period; `left` is what remains queued.
     */
    method Start(fastForwardMs: nat, now: int, times: seq<int>, period: real)
      returns (ok: bool, left: seq<int>, actual: int)
      requires Increasing(times) && period >= 0.0
      modifies this`isRunning, this`p, timing
      ensures old(isRunning) ==> !ok && isRunning && p == old(p) && timing.t == old(timing.t)
      ensures !old(isRunning) ==>
                && ok && isRunning
                && (p, actual) == Iterated(Play(-1, -1, 0 - fastForwardMs), times, period)
                && left == Left(times, period)
                && timing.t == Updated(Started(RESET, now), actual)
    {
      left, actual := times, 0;
      if isRunning {
        return false, left, actual;
      }
      timing.Flush();
      p := Play(-1, -1, 0 - fastForwardMs);
      isRunning := true;
      ok, left, actual := ExtractSample(now, times, period);
    }

    method Stop()
      modifies this`isRunning, timing
      ensures !isRunning && timing.t == if old(isRunning) then RESET else old(timing.t)
    {
      if isRunning {
        isRunning := false;
        timing.Flush();
      }
    }

    method AddAdjustment(adjMs: int)
      modifies this`p
      ensures p == old(p).(adjustment := old(p).adjustment + adjMs)
    {
      p := p.(adjustment := p.adjustment + adjMs);
    }

    method CorrectAdjustment(timestamp: int)
      modifies this`p
      ensures p == Corrected(old(p), timestamp)
    {
      if p.lastDelay >= 0 {
        var prevDelay := timestamp - p.lastTimestamp;
        p := p.(adjustment := p.adjustment + (prevDelay - p.lastDelay));
      }
    }

    method AdjustDelay(delay: int) returns (actual: int)
      modifies this`p
      ensures (p.adjustment, actual) == Adjusted(old(p).adjustment, delay)
      ensures p == old(p).(adjustment := p.adjustment)
    {
      var adj := 0;
      if p.adjustment < 0 && -p.adjustment > delay {
        p := p.(adjustment := p.adjustment + delay);
        adj := -delay;
      } else {
        adj := p.adjustment;
        p := p.(adjustment := 0);
      }
      return delay + adj;
    }

    method ExtractSample(now: int, times: seq<int>, period: real)
      returns (ok: bool, left: seq<int>, actual: int)
      requires Increasing(times) && period >= 0.0
      modifies this`p, timing
      ensures !isRunning ==> ok && p == old(p) && left == times && timing.t == old(timing.t)
      ensures isRunning ==> ok == !Early(old(timing.t), now)
      ensures !ok ==> p == old(p) && left == times && timing.t == old(timing.t)
      ensures isRunning && ok ==>
                && (p, actual) == Iterated(old(p), times, period)
                && left == Left(times, period)
                && timing.t == Updated(Started(old(timing.t), now), actual)
    {
      ok, left, actual := true, times, 0;
      if !isRunning {
        return;
      }
      ghost var before := p;
      var sampleDelay := Round(period);
      ok := timing.StartFramePlayout(now);
      if !ok {
        return;
      }
      if HasSamples(times, period) && times != [] {
        var playTimeMs := PlayTime(times, period);
        CorrectAdjustment(times[0]);
        p := p.(lastTimestamp := times[0]);
        sampleDelay := playTimeMs.Floor;
        left := times[1..];
      } else {
        p := p.(lastTimestamp := p.lastTimestamp + sampleDelay);
      }
      p := p.(lastDelay := sampleDelay);
      ActualDelayNotNegative(before, times, period);
      actual := AdjustDelay(sampleDelay);
      timing.UpdatePlayoutTime(actual);
    }
  }

  // ---------- whole runs ----------

  /** Playout and queue, and what an observer adds up on the side. */
  datatype System = System(p: Play, t: Timing, q: seq<int>, ledger: Ledger)

  /**
   Start of the first iteration, its timestamp, the delays handed to the timer, the adjustments made from
   outside, what an empty queue made `lastTimestamp` move beyond the delay before, and the samples shown.
   */
  datatype Ledger = Ledger(first: int, firstTimestamp: int, ffwd: nat, actual: int, added: int, drift: int,
                           shown: seq<int>)

  /** Timer, arrival of a sample in the queue, adjustment from outside. */
  datatype Event = Tick(now: int, period: real) | Arrive(timestamp: int) | Add(adjMs: int)

  function Begin(ffwd: nat, now: int, q: seq<int>, period: real): System
  {
    var (p, actual) := Iterated(Play(-1, -1, 0 - ffwd), q, period);
    System(p, Updated(Started(RESET, now), actual), Left(q, period),
           Ledger(now, p.lastTimestamp, ffwd, actual, 0, 0, Shown(q, period)))
  }

  /** The sample an iteration hands out, if there is one. */
  function Shown(q: seq<int>, period: real): seq<int>
  {
    if HasSamples(q, period) && q != [] then [q[0]] else []
  }

  function Drift(s: System, period: real): int
  {
    if HasSamples(s.q, period) && s.q != [] then 0 else Round(period) - s.p.lastDelay
  }

  function Step(s: System, e: Event): System
  {
    match e
    case Tick(now, period) =>
      var (p, actual) := Iterated(s.p, s.q, period);
      System(p, Updated(Started(s.t, now), actual), Left(s.q, period),
             s.ledger.(actual := s.ledger.actual + actual, drift := s.ledger.drift + Drift(s, period),
                       shown := s.ledger.shown + Shown(s.q, period)))
    case Arrive(timestamp) => s.(q := Insert(s.q, timestamp))
    case Add(adjMs) =>
      s.(p := s.p.(adjustment := s.p.adjustment + adjMs), ledger := s.ledger.(added := s.ledger.added + adjMs))
  }

  predicate OnTime(s: System, e: Event)
  {
    e.Tick? ==> !Early(s.t, e.now) && e.period >= 0.0
  }

  function Run(s: System, es: seq<Event>): System
    decreases |es|
  {
    if es == [] then s else Run(Step(s, es[0]), es[1..])
  }

  predicate RunsOnTime(s: System, es: seq<Event>)
    decreases |es|
  {
    es == [] || (OnTime(s, es[0]) && RunsOnTime(Step(s, es[0]), es[1..]))
  }

  /** What the playout side owes and has paid. */
  ghost predicate Balanced(s: System)
  {
    s.ledger.actual == (s.p.lastTimestamp - s.ledger.firstTimestamp) + s.p.lastDelay - s.ledger.ffwd
                       + s.ledger.added - s.p.adjustment - s.ledger.drift
  }

  ghost predicate Timed(s: System)
  {
    && s.t.stamp > 0 && s.t.wait >= 0 && s.t.proc >= 0
    && (s.t.proc < 1000 || s.t.wait == 0)
    && s.t.stamp - s.ledger.first + 1000 * s.t.wait == 1000 * s.ledger.actual + s.t.proc
  }

  ghost predicate Inv(s: System)
  {
    Increasing(s.q) && s.p.lastDelay >= 0 && Balanced(s) && Timed(s)
  }

  lemma BeginInv(ffwd: nat, now: int, q: seq<int>, period: real)
    requires Increasing(q) && period >= 0.0 && now > 0
    ensures Inv(Begin(ffwd, now, q, period))
  {
  }

  lemma TickInv(s: System, now: int, period: real)
    requires Inv(s) && OnTime(s, Tick(now, period))
    ensures Inv(Step(s, Tick(now, period)))
  {
  }

  lemma StepInv(s: System, e: Event)
    requires Inv(s) && OnTime(s, e)
    ensures Inv(Step(s, e))
  {
    match e
    case Tick(now, period) => TickInv(s, now, period);
    case Arrive(timestamp) => InsertKeepsOrder(s.q, timestamp);
    case Add(adjMs) =>
  }

  lemma {:induction false} RunsKeepInv(s: System, es: seq<Event>)
    requires Inv(s) && RunsOnTime(s, es)
    ensures Inv(Run(s, es))
    decreases |es|
  {
    if es == [] {
    } else {
      StepInv(s, es[0]);
      RunsKeepInv(Step(s, es[0]), es[1..]);
    }
  }

  /**
   The clock law, for every run: an iteration starts later than the first one by the media time played, plus
   the delay last set, minus the fast-forward, plus the adjustments made and minus those still owed (and
   minus the drift), all in milliseconds, plus the processing time not yet made up for.
   */
  lemma ClockLaw(ffwd: nat, start: int, q: seq<int>, period: real, es: seq<Event>, now: int)
    requires Increasing(q) && period >= 0.0 && start > 0
    requires RunsOnTime(Begin(ffwd, start, q, period), es)
    requires !Early(Run(Begin(ffwd, start, q, period), es).t, now)
    ensures var s := Run(Begin(ffwd, start, q, period), es);
      && now - start == 1000 * ((s.p.lastTimestamp - s.ledger.firstTimestamp) + s.p.lastDelay - ffwd
                                + s.ledger.added - s.p.adjustment - s.ledger.drift)
                        + Started(s.t, now).proc
      && (s.t.proc < 1000 || s.t.wait == 0)
  {
    BeginInv(ffwd, start, q, period);
    RunsKeepInv(Begin(ffwd, start, q, period), es);
    LedgerKept(Begin(ffwd, start, q, period), es);
  }

  lemma {:induction false} LedgerKept(s: System, es: seq<Event>)
    ensures var r := Run(s, es);
      r.ledger.first == s.ledger.first && r.ledger.ffwd == s.ledger.ffwd
    decreases |es|
  {
    if es == [] {
    } else {
      LedgerKept(Step(s, es[0]), es[1..]);
    }
  }

  // ---------- no drift with a constant period ----------

  predicate ConstantPeriod(es: seq<Event>, period: int)
  {
    forall i | 0 <= i < |es| :: es[i].Tick? ==> es[i].period == period as real
  }

  /** With an empty queue the last delay was the sample period. */
  ghost predicate Steady(s: System, period: int)
  {
    s.q == [] ==> s.p.lastDelay == period
  }

  lemma FullQueueHasSamples(q: seq<int>, period: int)
    requires Increasing(q) && period > 0
    ensures HasSamples(q, period as real) <==> q != []
  {
  }

  lemma {:induction false} NoDrift(s: System, es: seq<Event>, period: int)
    requires Inv(s) && RunsOnTime(s, es) && Steady(s, period) && period > 0 && ConstantPeriod(es, period)
    ensures Run(s, es).ledger.drift == s.ledger.drift
    decreases |es|
  {
    if es == [] {
    } else {
      FullQueueHasSamples(s.q, period);
      StepInv(s, es[0]);
      NoDrift(Step(s, es[0]), es[1..], period);
    }
  }

  /**
   On a run that starts with a sample and keeps one whole sample period, nothing drifts, also over
   iterations on an empty queue: play is tied to the producer's timestamps to the microsecond.
   */
  lemma ClockLawWithoutDrift(ffwd: nat, start: int, q: seq<int>, period: int, es: seq<Event>, now: int)
    requires Increasing(q) && q != [] && period > 0 && start > 0 && ConstantPeriod(es, period)
    requires RunsOnTime(Begin(ffwd, start, q, period as real), es)
    requires !Early(Run(Begin(ffwd, start, q, period as real), es).t, now)
    ensures var s := Run(Begin(ffwd, start, q, period as real), es);
      now - start == 1000 * ((s.p.lastTimestamp - q[0]) + s.p.lastDelay - ffwd + s.ledger.added - s.p.adjustment)
                     + Started(s.t, now).proc
  {
    var s := Begin(ffwd, start, q, period as real);
    FullQueueHasSamples(q, period);
    BeginInv(ffwd, start, q, period as real);
    NoDrift(s, es, period);
    ClockLaw(ffwd, start, q, period as real, es, now);
    FirstTimestampKept(s, es);
  }

  lemma {:induction false} FirstTimestampKept(s: System, es: seq<Event>)
    ensures Run(s, es).ledger.firstTimestamp == s.ledger.firstTimestamp
    decreases |es|
  {
    if es == [] {
    } else {
      FirstTimestampKept(Step(s, es[0]), es[1..]);
    }
  }

  // ---------- every sample is shown ----------

  /** A sample that arrives is later than all that are queued. */
  predicate ArrivesInOrder(s: System, e: Event)
  {
    e.Arrive? ==> s.q == [] || s.q[|s.q| - 1] < e.timestamp
  }

  predicate InOrder(s: System, es: seq<Event>)
    decreases |es|
  {
    es == [] || (ArrivesInOrder(s, es[0]) && InOrder(Step(s, es[0]), es[1..]))
  }

  function ArrivalsOf(es: seq<Event>): seq<int>
  {
    if es == [] then [] else (if es[0].Arrive? then [es[0].timestamp] else []) + ArrivalsOf(es[1..])
  }

  lemma StepShows(s: System, e: Event)
    requires Increasing(s.q) && ArrivesInOrder(s, e)
    ensures Increasing(Step(s, e).q)
    ensures Step(s, e).ledger.shown + Step(s, e).q
            == s.ledger.shown + s.q + if e.Arrive? then [e.timestamp] else []
  {
    if e.Arrive? {
      InsertKeepsOrder(s.q, e.timestamp);
      assert Rank(s.q, e.timestamp) == |s.q|;
      assert Step(s, e).q == s.q + [e.timestamp];
      assert s.ledger.shown + (s.q + [e.timestamp]) == s.ledger.shown + s.q + [e.timestamp];
    } else if e.Tick? {
      TickShows(s, e.now, e.period);
    }
  }

  lemma TickShows(s: System, now: int, period: real)
    ensures var n := Step(s, Tick(now, period));
      n.ledger.shown + n.q == s.ledger.shown + s.q + []
  {
    var shown := Shown(s.q, period);
    assert shown + Left(s.q, period) == s.q;
    assert (s.ledger.shown + shown) + Left(s.q, period) == s.ledger.shown + (shown + Left(s.q, period));
  }

  /** Samples that arrive in order are shown in that order, each once, and those not shown yet are queued. */
  lemma {:induction false} EverySampleIsShownOnce(s: System, es: seq<Event>)
    requires Increasing(s.q) && InOrder(s, es)
    ensures Run(s, es).ledger.shown + Run(s, es).q == s.ledger.shown + s.q + ArrivalsOf(es)
    decreases |es|
  {
    if es == [] {
    } else {
      var next := Step(s, es[0]);
      var first, rest := if es[0].Arrive? then [es[0].timestamp] else [], ArrivalsOf(es[1..]);
      StepShows(s, es[0]);
      EverySampleIsShownOnce(next, es[1..]);
      assert next.ledger.shown + next.q == s.ledger.shown + s.q + first;
      assert (s.ledger.shown + s.q + first) + rest == s.ledger.shown + s.q + (first + rest);
    }
  }

  // ---------- what is owed is paid ----------

  lemma {:induction false} RunOneMore(s: System, es: seq<Event>, k: nat)
    requires k < |es|
    ensures Run(s, es[..k + 1]) == Step(Run(s, es[..k]), es[k])
    decreases k
  {
    if k == 0 {
      assert es[..1][1..] == [];
    } else {
      RunOneMore(Step(s, es[0]), es[1..], k - 1);
      assert es[..k + 1][1..] == es[1..][..k] && es[..k][1..] == es[1..][..k - 1];
    }
  }

  lemma TickPays(s: System, now: int, period: real)
    requires Increasing(s.q) && period >= 0.0
    ensures var n := Step(s, Tick(now, period));
      && n.p.adjustment <= 0 && n.ledger.actual >= s.ledger.actual
      && (n.p.adjustment < 0 ==> n.ledger.actual == s.ledger.actual)
  {
    ActualDelayNotNegative(s.p, s.q, period);
  }

  /**
   Over every on-time run, after each iteration nothing is left to be added to the delays, and as long as
   anything is owed the delay handed to the timer is zero: playout catches up as fast as it can.
   */
  lemma EachIterationPays(ffwd: nat, start: int, q: seq<int>, period: real, es: seq<Event>, k: nat)
    requires Increasing(q) && period >= 0.0 && start > 0
    requires RunsOnTime(Begin(ffwd, start, q, period), es) && k < |es| && es[k].Tick?
    ensures var first := Begin(ffwd, start, q, period);
      first.p.adjustment <= 0 && (first.p.adjustment < 0 ==> first.ledger.actual == 0)
    ensures var s := Run(Begin(ffwd, start, q, period), es[..k]);
      var n := Run(Begin(ffwd, start, q, period), es[..k + 1]);
      && n.p.adjustment <= 0 && n.ledger.actual >= s.ledger.actual
      && (n.p.adjustment < 0 ==> n.ledger.actual == s.ledger.actual)
  {
    var begin := Begin(ffwd, start, q, period);
    BeginInv(ffwd, start, q, period);
    PrefixOnTime(begin, es, k);
    RunsKeepInv(begin, es[..k]);
    RunOneMore(begin, es, k);
    TickPays(Run(begin, es[..k]), es[k].now, es[k].period);
  }

  lemma {:induction false} PrefixOnTime(s: System, es: seq<Event>, k: nat)
    requires RunsOnTime(s, es) && k <= |es|
    ensures RunsOnTime(s, es[..k]) && (k < |es| ==> OnTime(Run(s, es[..k]), es[k]))
    decreases k
  {
    if k == 0 {
    } else {
      PrefixOnTime(Step(s, es[0]), es[1..], k - 1);
      assert es[..k][1..] == es[1..][..k - 1];
    }
  }

  /** Queued samples follow the one shown last, and one another, at distance `d`. */
  ghost predicate Regular(s: System, d: int)
  {
    && s.p.lastDelay == d
    && (s.q != [] ==> s.q[0] == s.p.lastTimestamp + d)
    && forall i | 0 <= i < |s.q| - 1 :: s.q[i + 1] == s.q[i] + d
  }

  /** A sample arrives when it is its turn, the sample period is `d`, and nothing is adjusted from outside. */
  predicate RegularEvent(s: System, e: Event, d: int)
  {
    match e
    case Tick(now, period) => period == d as real
    case Arrive(timestamp) => timestamp == (if s.q == [] then s.p.lastTimestamp else s.q[|s.q| - 1]) + d
    case Add(adjMs) => false
  }

  predicate RegularRun(s: System, es: seq<Event>, d: int)
    decreases |es|
  {
    es == [] || (RegularEvent(s, es[0], d) && RegularRun(Step(s, es[0]), es[1..], d))
  }

  function Ticks(es: seq<Event>): nat
  {
    if es == [] then 0 else (if es[0].Tick? then 1 else 0) + Ticks(es[1..])
  }

  lemma RegularTick(s: System, now: int, d: int)
    requires Increasing(s.q) && Regular(s, d) && d > 0 && s.p.adjustment <= 0
    ensures var n := Step(s, Tick(now, d as real));
      && Regular(n, d) && Increasing(n.q)
      && n.p.adjustment == (if s.p.adjustment + d <= 0 then s.p.adjustment + d else 0)
      && n.ledger.actual == s.ledger.actual + (if s.p.adjustment + d <= 0 then 0 else s.p.adjustment + d)
  {
    FullQueueHasSamples(s.q, d);
  }

  lemma RegularArrival(s: System, t: int, d: int)
    requires Increasing(s.q) && Regular(s, d) && d > 0 && RegularEvent(s, Arrive(t), d)
    ensures Regular(Step(s, Arrive(t)), d) && Increasing(Step(s, Arrive(t)).q)
  {
    InsertKeepsOrder(s.q, t);
    assert Rank(s.q, t) == |s.q|;
    assert Step(s, Arrive(t)).q == s.q + [t];
  }

  /** What the iterations of a run pay off at `d` each. */
  function Worth(es: seq<Event>, d: int): int
  {
    if es == [] then 0 else (if es[0].Tick? then d else 0) + Worth(es[1..], d)
  }

  lemma {:induction false} WorthIsProduct(es: seq<Event>, d: int)
    ensures Worth(es, d) == Ticks(es) * d
  {
    if es == [] {
    } else {
      WorthIsProduct(es[1..], d);
      assert Ticks(es) * d == (Ticks(es) - Ticks(es[1..])) * d + Ticks(es[1..]) * d;
    }
  }

  /**
   With samples at regular distance each iteration pays off that much: after `n` iterations a debt has shrunk
   by `n * d` or is gone, and only what the iterations took beyond it has been waited.
   */
  lemma DebtIsPaid(s: System, es: seq<Event>, d: int)
    requires Increasing(s.q) && Regular(s, d) && d > 0 && s.p.adjustment <= 0 && RegularRun(s, es, d)
    ensures var left := s.p.adjustment + Ticks(es) * d;
      && Run(s, es).p.adjustment == (if left <= 0 then left else 0)
      && Run(s, es).ledger.actual == s.ledger.actual + (if left <= 0 then 0 else left)
  {
    WorthIsProduct(es, d);
    DebtShrinks(s, es, d);
  }

  lemma {:induction false} DebtShrinks(s: System, es: seq<Event>, d: int)
    requires Increasing(s.q) && Regular(s, d) && d > 0 && s.p.adjustment <= 0 && RegularRun(s, es, d)
    ensures var left := s.p.adjustment + Worth(es, d);
      && Worth(es, d) >= 0
      && Run(s, es).p.adjustment == (if left <= 0 then left else 0)
      && Run(s, es).ledger.actual == s.ledger.actual + (if left <= 0 then 0 else left)
    decreases |es|
  {
    if es == [] {
    } else {
      if es[0].Tick? {
        RegularTick(s, es[0].now, d);
      } else {
        RegularArrival(s, es[0].timestamp, d);
      }
      DebtShrinks(Step(s, es[0]), es[1..], d);
    }
  }

  /** Ten iterations of 33 ms pay off any debt below 330 ms. */
  lemma TenIterationsPay(s: System, es: seq<Event>)
    requires Increasing(s.q) && Regular(s, 33) && -330 < s.p.adjustment <= 0 && RegularRun(s, es, 33)
    requires Ticks(es) == 10
    ensures Run(s, es).p.adjustment == 0
  {
    DebtIsPaid(s, es, 33);
  }
}
