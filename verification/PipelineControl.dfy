/**
 The state machine of pipeline control, and PipelineControl, which observes the machine and restarts it from
 inside a state change.

 What states decide from segment data, and what the latency control commands, comes with the event. The
 calls a state makes on pipeliner, buffer and playout control are recorded in `trace`.
 */
module PipelineControls {
  import opened PipelineCommands

  datatype State = Idle | Bootstrapping | Adjusting | Fetching

  /** Which states the machine has, and how it bootstraps; the default (audio) machine is like the video one. */
  datatype Kind = Streaming | PlaybackDriven

  /**
   A segment as the states look at it: metadata, of a key frame, not older than the first sample requested,
   not older than the sample playback starts off with; and the current command of the latency control.
   */
  datatype SegmentInfo = SegmentInfo(isMeta: bool, isKey: bool, expected: bool, startsOff: bool, command: Command)

  datatype Event = Start | Reset | Starvation | Segment(s: SegmentInfo) | Timeout(isMeta: bool) | Nack(isMeta: bool)

  /** `ResetControls` stands for the reset of buffer, pipeliner, latency and interest control. */
  datatype Effect =
    | Switched(from: State, to: State)
    | ResetControls
    | AllowPlayout(allow: bool)
    | Ask
    | FillUp
    | ExpressAgain
    | MarkLowerLimit

  datatype Machine = Machine(
    kind: Kind, state: State, attached: bool, metadata: bool, allowed: bool,
    rebufferings: nat, indicator: State, trace: seq<Effect>)

  function Initial(kind: Kind): Machine
  {
    Machine(kind, Idle, false, false, false, 0, Idle, [ResetControls, AllowPlayout(false)])
  }

  predicate HasState(kind: Kind, s: State)
  {
    kind == PlaybackDriven ==> s != Adjusting
  }

  function Traced(m: Machine, effects: seq<Effect>): Machine
  {
    m.(trace := m.trace + effects)
  }

  // ---------- what a state does with an event ----------

  /** The machine after the state's own reaction, and the state it asks for. */
  function React(m: Machine, e: Event): (Machine, State)
  {
    match m.state
    case Idle => (m, Idle)
    case Bootstrapping => if m.kind == Streaming then Bootstrap(m, e) else SeedBootstrap(m, e)
    case Adjusting =>
      if e.Timeout? then (Traced(m, [ExpressAgain]), Adjusting)
      else if !e.Segment? then (m, Adjusting)
      else if e.s.command == Increase then (Traced(m, [FillUp, MarkLowerLimit]), Fetching)
      else (Traced(m, [FillUp]), Adjusting)
    case Fetching =>
      if e.Timeout? then (Traced(m, [ExpressAgain]), Fetching)
      else if !e.Segment? then (m, Fetching)
      else (Traced(m, [FillUp]), if e.s.command == Increase then Adjusting else Fetching)
  }

  function Bootstrap(m: Machine, e: Event): (Machine, State)
  {
    if e.Timeout? then (if e.isMeta then Traced(m, [Ask]) else m, Bootstrapping)
    else if !e.Segment? then (m, Bootstrapping)
    else if e.s.isMeta then (Traced(m.(metadata := true), [FillUp]), Bootstrapping)
    else if !m.metadata || !e.s.expected then (m, Bootstrapping)
    else if !e.s.startsOff then (Traced(m, [FillUp]), Bootstrapping)
    else (Traced(m.(allowed := true), [FillUp, AllowPlayout(true)]), Adjusting)
  }

  function SeedBootstrap(m: Machine, e: Event): (Machine, State)
  {
    if e.Timeout? then (Traced(m, [Ask]), Bootstrapping)
    else if e.Segment? && e.s.isKey then (Traced(m.(allowed := true), [FillUp, AllowPlayout(true)]), Fetching)
    else (m, Bootstrapping)
  }

  /** The transition table. */
  function Table(s: State, e: Event): State
  {
    match (s, e)
    case (Idle, Start) => Bootstrapping
    case (Bootstrapping, Reset) => Idle
    case (Adjusting, Reset) => Idle
    case (Adjusting, Starvation) => Idle
    case (Fetching, Reset) => Idle
    case (Fetching, Starvation) => Idle
    case _ => s
  }

  /** Leaving the current state and entering another. */
  function Entered(m: Machine, s: State): Machine
  {
    var n := m.(state := s, metadata := false, allowed := m.allowed && s != Idle);
    Traced(n, [Switched(m.state, s)]
              + (if s == Idle then [ResetControls, AllowPlayout(false)]
                 else if s == Bootstrapping then [Ask] else []))
  }

  /**
   A whole change of state with what observers make of it, without nesting: if the machine fell back to idle
   and PipelineControl is watching, it goes on to bootstrapping at once.
   */
  function Changed(m: Machine, s: State, e: Event): Machine
  {
    var n := Entered(m, s);
    var restarted := if s == Idle && m.attached && !e.Reset?
                     then Entered(n.(rebufferings := n.rebufferings + 1), Bootstrapping) else n;
    restarted.(rebufferings := restarted.rebufferings + (if e.Starvation? then 1 else 0), indicator := s)
  }

  /** The second component is false where the source throws. */
  function Dispatched(m: Machine, e: Event): (Machine, bool)
  {
    var (n, s) := React(m, e);
    if s != m.state then (if HasState(m.kind, s) then (Changed(n, s, e), true) else (n, false))
    else if Table(m.state, e) != m.state then (Changed(n, Table(m.state, e), e), true)
    else (n, true)
  }

  // ---------- PipelineControl ----------

  datatype Op =
    | OpStart
    | OpStop
    | OpStarvation
    | OpSegment(s: SegmentInfo)
    | OpTimeout(isMeta: bool)
    | OpNack(isMeta: bool)

  function Apply(m: Machine, op: Op): (Machine, bool)
  {
    match op
    case OpStart => if m.state != Idle then (m, false) else Dispatched(m.(attached := true), Start)
    case OpStop => Dispatched(m.(attached := false), Reset)
    case OpStarvation =>
      var (n, ok) := Dispatched(m, Starvation);
      if ok then Dispatched(n, Start) else (n, false)
    case OpSegment(s) => Dispatched(m, Segment(s))
    case OpTimeout(isMeta) => Dispatched(m, Timeout(isMeta))
    case OpNack(isMeta) => Dispatched(m, Nack(isMeta))
  }

  function Run(m: Machine, ops: seq<Op>): Machine
    decreases |ops|
  {
    if ops == [] then m else Run(Apply(m, ops[0]).0, ops[1..])
  }

  predicate Playing(s: State)
  {
    s == Adjusting || s == Fetching
  }

  /** Every entry into bootstrapping comes from idle, right after the reset. */
  ghost predicate TraceOk(trace: seq<Effect>)
  {
    forall i | 0 <= i < |trace| && trace[i].Switched? && trace[i].to == Bootstrapping ::
      && trace[i].from == Idle
      && i >= 2 && trace[i - 2] == ResetControls && trace[i - 1] == AllowPlayout(false)
  }

  ghost predicate Inv(m: Machine)
  {
    && (m.allowed <==> Playing(m.state))
    && (m.attached ==> m.state != Idle)
    && (m.metadata ==> m.state == Bootstrapping)
    && HasState(m.kind, m.state)
    && TraceOk(m.trace)
    && (m.state == Idle ==> JustReset(m.trace))
  }

  ghost predicate JustReset(trace: seq<Effect>)
  {
    |trace| >= 2 && trace[|trace| - 2] == ResetControls && trace[|trace| - 1] == AllowPlayout(false)
  }

  lemma TraceExtends(trace: seq<Effect>, more: seq<Effect>)
    requires TraceOk(trace)
    requires forall i | 0 <= i < |more| && more[i].Switched? :: more[i].to != Bootstrapping
    ensures TraceOk(trace + more)
  {
  }

  lemma TraceBootstraps(trace: seq<Effect>)
    requires TraceOk(trace) && JustReset(trace)
    ensures TraceOk(trace + [Switched(Idle, Bootstrapping), Ask])
  {
  }

  lemma EnteredOk(m: Machine, s: State)
    requires TraceOk(m.trace) && (s == Bootstrapping ==> m.state == Idle && JustReset(m.trace))
    ensures var n := Entered(m, s);
      TraceOk(n.trace) && (s == Idle ==> JustReset(n.trace))
  {
    if s == Bootstrapping {
      TraceBootstraps(m.trace);
      assert [Switched(m.state, s)] + [Ask] == [Switched(Idle, Bootstrapping), Ask];
    } else if s == Idle {
      TraceExtends(m.trace, [Switched(m.state, s)] + [ResetControls, AllowPlayout(false)]);
    } else {
      TraceExtends(m.trace, [Switched(m.state, s)] + []);
    }
  }

  lemma ChangedOk(m: Machine, s: State, e: Event)
    requires TraceOk(m.trace) && (s == Bootstrapping ==> m.state == Idle && JustReset(m.trace))
    ensures var n := Changed(m, s, e);
      TraceOk(n.trace) && (n.state == Idle ==> JustReset(n.trace))
  {
    EnteredOk(m, s);
    if s == Idle && m.attached && !e.Reset? {
      EnteredOk(Entered(m, s).(rebufferings := Entered(m, s).rebufferings + 1), Bootstrapping);
    }
  }

  /** A state's own reaction changes no state, and nothing but playout and metadata of the rest. */
  lemma ReactOk(m: Machine, e: Event)
    requires TraceOk(m.trace)
    ensures var (n, s) := React(m, e);
      && TraceOk(n.trace) && n.state == m.state && n.attached == m.attached && n.kind == m.kind
      && (m.state == Idle ==> n == m && s == Idle)
      && (s != m.state ==> s != Idle && s != Bootstrapping)
      && n.allowed == (m.allowed || (m.state == Bootstrapping && s != Bootstrapping))
      && (n.metadata ==> m.metadata || m.state == Bootstrapping)
  {
    ReactTraceOk(m, e);
  }

  lemma ReactTraceOk(m: Machine, e: Event)
    requires TraceOk(m.trace)
    ensures TraceOk(React(m, e).0.trace)
  {
    TraceExtends(m.trace, [Ask]);
    TraceExtends(m.trace, [FillUp]);
    TraceExtends(m.trace, [ExpressAgain]);
    TraceExtends(m.trace, [FillUp, MarkLowerLimit]);
    TraceExtends(m.trace, [FillUp, AllowPlayout(true)]);
  }

  /** One event keeps the invariant, also with the restart nested in it. */
  lemma DispatchedOk(m: Machine, e: Event)
    requires Inv(m.(attached := false)) && (m.attached && m.state == Idle ==> e.Start?)
    requires e.Reset? ==> !m.attached
    ensures Inv(Dispatched(m, e).0) && Dispatched(m, e).0.kind == m.kind
  {
    ReactOk(m, e);
    var (n, s) := React(m, e);
    if s != m.state {
      ChangedOk(n, s, e);
    } else if Table(m.state, e) != m.state {
      ChangedOk(n, Table(m.state, e), e);
    }
  }

  lemma ApplyOk(m: Machine, op: Op)
    requires Inv(m)
    ensures Inv(Apply(m, op).0) && Apply(m, op).0.kind == m.kind
  {
    match op
    case OpStart => if m.state == Idle { DispatchedOk(m.(attached := true), Start); }
    case OpStop => DispatchedOk(m.(attached := false), Reset);
    case OpStarvation =>
      DispatchedOk(m, Starvation);
      DispatchedOk(Dispatched(m, Starvation).0, Start);
    case OpSegment(s) => DispatchedOk(m, Segment(s));
    case OpTimeout(isMeta) => DispatchedOk(m, Timeout(isMeta));
    case OpNack(isMeta) => DispatchedOk(m, Nack(isMeta));
  }

  /**
   Over any run: playout is allowed exactly while adjusting or fetching, and bootstrapping is entered only
   from idle and right after everything was reset.
   */
  lemma {:induction false} RunsAreSafe(kind: Kind, ops: seq<Op>)
    ensures var m := Run(Initial(kind), ops);
      && (m.allowed <==> m.state == Adjusting || m.state == Fetching)
      && TraceOk(m.trace)
      && (kind == PlaybackDriven ==> m.state != Adjusting)
  {
    RunKeepsInv(Initial(kind), ops);
  }

  lemma {:induction false} RunKeepsInv(m: Machine, ops: seq<Op>)
    requires Inv(m)
    ensures Inv(Run(m, ops)) && Run(m, ops).kind == m.kind
    decreases |ops|
  {
    if ops == [] {
    } else {
      ApplyOk(m, ops[0]);
      RunKeepsInv(Apply(m, ops[0]).0, ops[1..]);
    }
  }

  /** From any state starvation ends in bootstrapping, with playout off. */
  lemma StarvationBootstraps(m: Machine)
    requires Inv(m)
    ensures var (n, ok) := Apply(m, OpStarvation);
      ok && n.state == Bootstrapping && !n.allowed && n.attached == m.attached
  {
  }

  /**
   A starvation that stops playback is counted twice when PipelineControl is watching, and leaves the state
   statistic at idle although the machine is bootstrapping; otherwise the statistic shows the state.
   */
  lemma StarvationStatistics(m: Machine)
    requires Inv(m) && m.indicator == m.state
    ensures var n := Apply(m, OpStarvation).0;
      && n.rebufferings == m.rebufferings + (if !Playing(m.state) then 0 else if m.attached then 2 else 1)
      && (n.indicator == n.state <==> !Playing(m.state) || !m.attached)
  {
  }

  /** All other operations keep the statistic at the state, and count no rebuffering. */
  lemma StatisticsFollow(m: Machine, op: Op)
    requires Inv(m) && m.indicator == m.state && !op.OpStarvation?
    ensures var n := Apply(m, op).0; n.indicator == n.state && n.rebufferings == m.rebufferings
  {
    match op
    case OpStart => DispatchFollows(m.(attached := true), Start);
    case OpStop => DispatchFollows(m.(attached := false), Reset);
    case OpSegment(s) => DispatchFollows(m, Segment(s));
    case OpTimeout(isMeta) => DispatchFollows(m, Timeout(isMeta));
    case OpNack(isMeta) => DispatchFollows(m, Nack(isMeta));
    case OpStarvation =>
  }

  lemma DispatchFollows(m: Machine, e: Event)
    requires m.indicator == m.state && !e.Starvation?
    ensures var n := Dispatched(m, e).0; n.indicator == n.state && n.rebufferings == m.rebufferings
  {
    ReactKeeps(m, e);
  }

  lemma ReactKeeps(m: Machine, e: Event)
    ensures var (n, s) := React(m, e);
      && n.indicator == m.indicator && n.state == m.state && n.rebufferings == m.rebufferings
      && (s == Idle ==> m.state == Idle)
  {
  }

  function WithoutNacks(ops: seq<Op>): seq<Op>
  {
    if ops == [] then [] else (if ops[0].OpNack? then [] else [ops[0]]) + WithoutNacks(ops[1..])
  }

  /** No state ever hears of a Nack: a run with Nacks ends, trace and counters included, as one without. */
  lemma {:induction false} NacksAreIgnored(m: Machine, ops: seq<Op>)
    ensures Run(m, ops) == Run(m, WithoutNacks(ops))
    decreases |ops|
  {
    if ops == [] {
    } else if ops[0].OpNack? {
      NackChangesNothing(m, ops[0].isMeta);
      assert WithoutNacks(ops) == WithoutNacks(ops[1..]);
      NacksAreIgnored(m, ops[1..]);
    } else {
      var next := Apply(m, ops[0]).0;
      assert WithoutNacks(ops)[1..] == WithoutNacks(ops[1..]);
      assert Run(m, WithoutNacks(ops)) == Run(next, WithoutNacks(ops[1..]));
      NacksAreIgnored(next, ops[1..]);
    }
  }

  lemma NackChangesNothing(m: Machine, isMeta: bool)
    ensures Apply(m, OpNack(isMeta)) == (m, true)
  {
  }

  /** Dispatch throws exactly when a playback-driven machine that fetches is told to increase the pipeline. */
  lemma ThrowsExactly(m: Machine, e: Event)
    requires HasState(m.kind, m.state)
    ensures !Dispatched(m, e).1
            <==> m.kind == PlaybackDriven && m.state == Fetching && e.Segment? && e.s.command == Increase
  {
  }

  // ---------- when it starts playing, and what it does while it plays ----------

  /** A metadata segment has come, and the machine has been bootstrapping since before it came. */
  ghost predicate MetadataCame(kind: Kind, ops: seq<Op>)
  {
    exists k | 0 <= k < |ops| ::
      && ops[k].OpSegment? && ops[k].s.isMeta
      && forall j | k <= j <= |ops| :: Run(Initial(kind), ops[..j]).state == Bootstrapping
  }

  lemma {:induction false} RunOneMore(m: Machine, ops: seq<Op>, op: Op)
    ensures Run(m, ops + [op]) == Apply(Run(m, ops), op).0
    decreases |ops|
  {
    if ops == [] {
      assert [] + [op] == [op] && [op][1..] == [];
    } else {
      assert (ops + [op])[0] == ops[0] && (ops + [op])[1..] == ops[1..] + [op];
      RunOneMore(Apply(m, ops[0]).0, ops[1..], op);
    }
  }

  lemma StepRemembers(m: Machine, op: Op)
    requires Inv(m) && m.kind == Streaming && Apply(m, op).0.state == Bootstrapping
    ensures Apply(m, op).0.metadata
            <==> m.state == Bootstrapping && (m.metadata || (op.OpSegment? && op.s.isMeta))
  {
  }

  /** A bootstrapping machine knows exactly whether metadata has come since it began to. */
  lemma {:induction false} MetadataIsRemembered(ops: seq<Op>)
    ensures var m := Run(Initial(Streaming), ops);
      m.state == Bootstrapping ==> (m.metadata <==> MetadataCame(Streaming, ops))
    decreases |ops|
  {
    if ops == [] {
    } else {
      var front, op := ops[..|ops| - 1], ops[|ops| - 1];
      var m := Run(Initial(Streaming), front);
      assert ops == front + [op];
      RunOneMore(Initial(Streaming), front, op);
      RunKeepsInv(Initial(Streaming), front);
      MetadataIsRemembered(front);
      if Run(Initial(Streaming), ops).state == Bootstrapping {
        StepRemembers(m, op);
        CameOneMore(front, op);
      }
    }
  }

  lemma CameOneMore(front: seq<Op>, op: Op)
    requires Run(Initial(Streaming), front + [op]).state == Bootstrapping
    ensures MetadataCame(Streaming, front + [op]) <==>
            && Run(Initial(Streaming), front).state == Bootstrapping
            && (MetadataCame(Streaming, front) || (op.OpSegment? && op.s.isMeta))
  {
    if MetadataCame(Streaming, front + [op]) {
      CameBefore(front, op);
    }
    if && Run(Initial(Streaming), front).state == Bootstrapping
       && (MetadataCame(Streaming, front) || (op.OpSegment? && op.s.isMeta)) {
      CameStill(front, op);
    }
  }

  lemma CameBefore(front: seq<Op>, op: Op)
    requires MetadataCame(Streaming, front + [op])
    ensures Run(Initial(Streaming), front).state == Bootstrapping
    ensures MetadataCame(Streaming, front) || (op.OpSegment? && op.s.isMeta)
  {
    var ops := front + [op];
    var k :| 0 <= k < |ops| && ops[k].OpSegment? && ops[k].s.isMeta
             && forall j | k <= j <= |ops| :: Run(Initial(Streaming), ops[..j]).state == Bootstrapping;
    assert ops[..|front|] == front;
    if k < |front| {
      assert front[k] == ops[k];
      forall j | k <= j <= |front| ensures Run(Initial(Streaming), front[..j]).state == Bootstrapping {
        assert front[..j] == ops[..j];
      }
    }
  }

  lemma CameStill(front: seq<Op>, op: Op)
    requires Run(Initial(Streaming), front + [op]).state == Bootstrapping
    requires Run(Initial(Streaming), front).state == Bootstrapping
    requires MetadataCame(Streaming, front) || (op.OpSegment? && op.s.isMeta)
    ensures MetadataCame(Streaming, front + [op])
  {
    var ops := front + [op];
    assert ops[..|ops|] == ops && ops[..|front|] == front;
    if op.OpSegment? && op.s.isMeta {
      assert ops[|front|] == op;
      assert forall j | |front| <= j <= |ops| :: Run(Initial(Streaming), ops[..j]).state == Bootstrapping;
    } else {
      var k :| 0 <= k < |front| && front[k].OpSegment? && front[k].s.isMeta
               && forall j | k <= j <= |front| :: Run(Initial(Streaming), front[..j]).state == Bootstrapping;
      assert ops[k] == front[k];
      forall j | k <= j <= |ops| ensures Run(Initial(Streaming), ops[..j]).state == Bootstrapping {
        assert j <= |front| ==> ops[..j] == front[..j];
      }
    }
  }

  /**
   When playback starts, after any run: a streaming machine that bootstraps starts if and only if metadata has
   come since and the segment is of a frame that is expected and starts playback off; it then adjusts. A
   playback-driven one starts if and only if the segment is of a key frame; it then fetches. Nothing else
   starts playback.
   */
  lemma PlaybackStartsExactly(kind: Kind, ops: seq<Op>, op: Op)
    requires !Run(Initial(kind), ops).allowed
    ensures var m, n := Run(Initial(kind), ops), Apply(Run(Initial(kind), ops), op).0;
      && (n.allowed <==>
            && m.state == Bootstrapping && op.OpSegment?
            && match kind
               case Streaming => !op.s.isMeta && op.s.expected && op.s.startsOff && MetadataCame(kind, ops)
               case PlaybackDriven => op.s.isKey)
      && (n.allowed ==> n.state == if kind == Streaming then Adjusting else Fetching)
  {
    RunKeepsInv(Initial(kind), ops);
    if kind == Streaming {
      MetadataIsRemembered(ops);
    }
    StartsExactly(Run(Initial(kind), ops), op);
  }

  lemma StartsExactly(m: Machine, op: Op)
    requires Inv(m) && !m.allowed
    ensures var n := Apply(m, op).0;
      && (n.allowed <==>
            && m.state == Bootstrapping && op.OpSegment?
            && if m.kind == Streaming then !op.s.isMeta && op.s.expected && op.s.startsOff && m.metadata
               else op.s.isKey)
      && (n.allowed ==> n.state == if m.kind == Streaming then Adjusting else Fetching)
  {
  }

  /**
   While playing, a streaming machine changes between adjusting and fetching exactly on segments that come with
   the command to increase the pipeline; a playback-driven one goes on fetching. Only starvation and a stop
   end playing.
   */
  lemma PlayingGoesOn(m: Machine, op: Op)
    requires Inv(m) && m.allowed
    ensures var n := Apply(m, op).0;
      match op
      case OpStop => n.state == Idle
      case OpStarvation => n.state == Bootstrapping
      case OpSegment(s) =>
        && (n.state == Adjusting <==>
              m.kind == Streaming && (m.state == Fetching <==> s.command == Increase))
        && (n.state == Fetching <==>
              m.kind == PlaybackDriven || (m.state == Adjusting <==> s.command == Increase))
      case _ => n.state == m.state
  {
  }

  /** While not playing: a start leaves idle for bootstrapping, a stop leads to idle, starvation to bootstrapping. */
  lemma NotPlayingGoesOn(m: Machine, op: Op)
    requires Inv(m) && !Apply(m, op).0.allowed && !m.allowed
    ensures Apply(m, op).0.state
            == match op
               case OpStop => Idle
               case OpStart => Bootstrapping
               case OpStarvation => Bootstrapping
               case _ => m.state
  {
  }

  /** Starvation while playing resets everything and asks anew; otherwise it starts a machine that is idle. */
  lemma StarvationDoes(m: Machine)
    requires Inv(m)
    ensures var n := Apply(m, OpStarvation).0;
      n.trace == m.trace + if m.state == Bootstrapping then []
                           else if m.state == Idle then [Switched(Idle, Bootstrapping), Ask]
                           else [Switched(m.state, Idle), ResetControls, AllowPlayout(false),
                                 Switched(Idle, Bootstrapping), Ask]
  {
    var n := Dispatched(m, Starvation).0;
    if m.allowed {
      var fallen := [Switched(m.state, Idle), ResetControls, AllowPlayout(false)];
      assert n.trace == m.trace + fallen + if m.attached then [Switched(Idle, Bootstrapping), Ask] else [];
    } else {
      assert n == m;
    }
  }

  /**
   What a segment makes the machine do, in this order. Every one handled while playing fills the pipeline; so
   do, while bootstrapping, metadata and expected frames, or a key frame where playback drives.
   */
  lemma SegmentDoes(m: Machine, s: SegmentInfo)
    requires Inv(m)
    ensures var n := Apply(m, OpSegment(s)).0;
      n.trace == m.trace
        + match m.state
          case Idle => []
          case Bootstrapping =>
            (if m.kind == PlaybackDriven then (if s.isKey then [FillUp] else [])
             else if s.isMeta || (m.metadata && s.expected) then [FillUp] else [])
            + (if n.allowed then [AllowPlayout(true), Switched(Bootstrapping, n.state)] else [])
          case Adjusting =>
            if s.command == Increase then [FillUp, MarkLowerLimit, Switched(Adjusting, Fetching)] else [FillUp]
          case Fetching =>
            [FillUp] + if n.state == Adjusting then [Switched(Fetching, Adjusting)] else []
  {
    if m.state == Bootstrapping {
      BootSegmentDoes(m, s);
    } else if m.allowed {
      PlayingSegmentDoes(m, s);
    }
  }

  lemma BootSegmentDoes(m: Machine, s: SegmentInfo)
    requires Inv(m) && m.state == Bootstrapping
    ensures var n := Apply(m, OpSegment(s)).0;
      n.trace == m.trace
        + (if m.kind == PlaybackDriven then (if s.isKey then [FillUp] else [])
           else if s.isMeta || (m.metadata && s.expected) then [FillUp] else [])
        + (if n.allowed then [AllowPlayout(true), Switched(Bootstrapping, n.state)] else [])
  {
    var (reacted, next) := React(m, Segment(s));
    if next != Bootstrapping {
      assert reacted.trace == m.trace + [FillUp, AllowPlayout(true)];
      assert Apply(m, OpSegment(s)).0.trace == reacted.trace + [Switched(Bootstrapping, next)];
    } else {
      assert Apply(m, OpSegment(s)).0 == reacted;
    }
  }

  lemma PlayingSegmentDoes(m: Machine, s: SegmentInfo)
    requires Inv(m) && m.allowed
    ensures var n := Apply(m, OpSegment(s)).0;
      n.trace == m.trace + if m.state == Adjusting
                           then (if s.command == Increase
                                 then [FillUp, MarkLowerLimit, Switched(Adjusting, Fetching)] else [FillUp])
                           else [FillUp] + if n.state == Adjusting then [Switched(Fetching, Adjusting)] else []
  {
    var (reacted, next) := React(m, Segment(s));
    if next != m.state && HasState(m.kind, next) {
      assert Apply(m, OpSegment(s)).0.trace == reacted.trace + [Switched(m.state, next)];
    } else {
      assert Apply(m, OpSegment(s)).0 == reacted;
    }
  }

  /** Timeouts express again what they were about while playing, and ask anew while bootstrapping. */
  lemma OtherDoes(m: Machine, op: Op)
    requires Inv(m) && !op.OpStarvation? && !op.OpSegment?
    ensures var n := Apply(m, op).0;
      n.trace == m.trace
        + match op
          case OpStart => if m.state == Idle then [Switched(Idle, Bootstrapping), Ask] else []
          case OpStop => if m.state == Idle then []
                         else [Switched(m.state, Idle), ResetControls, AllowPlayout(false)]
          case OpTimeout(isMeta) =>
            if m.allowed then [ExpressAgain]
            else if m.state == Bootstrapping && (isMeta || m.kind == PlaybackDriven) then [Ask] else []
          case _ => []
  {
  }

  // ---------- the objects ----------

  /** How deep a change of state can nest: a starvation makes the observer dispatch again. */
  function Depth(e: Event): nat
  {
    if e.Starvation? then 1 else 0
  }

  class PipelineControl {
    var m: Machine

    constructor (kind: Kind)
      ensures m == Initial(kind)
    {
      m := Initial(kind);
    }

    /** `ok` is false where the source throws. */
    method StartUp() returns (ok: bool)
      modifies this
      ensures (m, ok) == Apply(old(m), OpStart)
      decreases 0, 5
    {
      if m.state != Idle {
        return false;
      }
      m := m.(attached := true);
      ok := Dispatch(Start);
    }

    method Stop() returns (ok: bool)
      modifies this
      ensures (m, ok) == Apply(old(m), OpStop)
      decreases 0, 5
    {
      m := m.(attached := false);
      ok := Dispatch(Reset);
    }

    method SegmentStarvation() returns (ok: bool)
      modifies this
      ensures (m, ok) == Apply(old(m), OpStarvation)
    {
      ok := Dispatch(Starvation);
      if ok {
        ok := Dispatch(Start);
      }
    }

    method Dispatch(e: Event) returns (ok: bool)
      modifies this
      ensures (m, ok) == Dispatched(old(m), e)
      decreases Depth(e), 4
    {
      var (reacted, next) := React(m, e);
      m := reacted;
      if next != m.state {
        if !HasState(m.kind, next) {
          return false;
        }
        SwitchToState(next, e);
      } else {
        var changed := Transition(e);
      }
      return true;
    }

    method Transition(e: Event) returns (changed: bool)
      modifies this
      ensures changed == (Table(old(m).state, e) != old(m).state)
      ensures m == if changed then Changed(old(m), Table(old(m).state, e), e) else old(m)
      decreases Depth(e), 3
    {
      changed := Table(m.state, e) != m.state;
      if changed {
        SwitchToState(Table(m.state, e), e);
      }
    }

    method SwitchToState(s: State, e: Event)
      requires s == Idle ==> e.Starvation? || e.Reset?
      modifies this
      ensures m == Changed(old(m), s, e)
      decreases Depth(e), 2
    {
      m := Entered(m, s);
      if m.attached {
        OnStateMachineChangedState(e, m.state);
      }
      if e.Starvation? {
        m := m.(rebufferings := m.rebufferings + 1);
      }
      m := m.(indicator := s);
    }

    /** Called from inside a change of state; stops and starts the machine that is still changing. */
    method OnStateMachineChangedState(trigger: Event, newState: State)
      requires m.state == newState && m.attached && (newState == Idle ==> trigger.Starvation? || trigger.Reset?)
      modifies this
      ensures newState == Idle && !trigger.Reset? ==>
                m == Entered(old(m).(rebufferings := old(m).rebufferings + 1), Bootstrapping)
                     .(indicator := Bootstrapping)
      ensures !(newState == Idle && !trigger.Reset?) ==> m == old(m)
      decreases Depth(trigger), 1
    {
      if newState == Idle && !trigger.Reset? {
        m := m.(rebufferings := m.rebufferings + 1);
        var stopped := Stop();
        var started := StartUp();
      }
    }
  }
}
