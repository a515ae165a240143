/**
 How many samples may be outstanding, and how the limit moves. Rates and delays are real numbers; the limits
 are unsigned in the source and natural here, with the wrap-around where a difference can be negative.
 */
module InterestControls {

  type int32 = n: int | -0x8000_0000 <= n < 0x8000_0000

  const MIN_PIPELINE_SIZE: nat := 3
  const INITIAL_UPPER_LIMIT: nat := 30
  const MAX_PIPELINE_SIZE_MS := 1000.0

  function Ceil(x: real): int
  {
    -(-x).Floor
  }

  // ---------- StrategyDefault ----------

  /** Samples produced during `avg + deviation` milliseconds, and a half. */
  function Demand(rate: real, avg: real, deviation: real): int
  {
    if avg <= 0.0 then MIN_PIPELINE_SIZE
    else Ceil((avg + deviation) / SamplePeriod(rate) + 0.5)
  }

  function SamplePeriod(rate: real): (period: real)
    ensures period > 0.0
  {
    if rate > 0.0 then PositiveQuotient(rate) else 30.0
  }

  function PositiveQuotient(rate: real): (period: real)
    requires rate > 0.0
    ensures period > 0.0 && period * rate == 1000.0
  {
    1000.0 / rate
  }

  datatype Limits = Limits(lower: nat, upper: nat)

  function Min(a: int, b: int): int
  {
    if a <= b then a else b
  }

  function Max(a: int, b: int): int
  {
    if a <= b then b else a
  }

  lemma DemandPositive(rate: real, avg: real, deviation: real)
    requires deviation >= 0.0
    ensures Demand(rate, avg, deviation) >= 1
  {
  }

  function GetLimits(rate: real, avg: real, deviation: real): (r: Limits)
    requires deviation >= 0.0
    ensures 1 <= r.lower <= r.upper <= 8 * r.lower
  {
    DemandPositive(rate, avg, deviation);
    DemandPositive(rate, MAX_PIPELINE_SIZE_MS, 0.0);
    var most := Demand(rate, MAX_PIPELINE_SIZE_MS, 0.0);
    var lower := Min(Max(Demand(rate, avg, deviation), MIN_PIPELINE_SIZE), most);
    Limits(lower, Min(lower * 8, most))
  }

  /** A second's worth of samples at a rate above 1.5 leaves room for the smallest pipeline. */
  lemma SmallestPipelineFits(rate: real, avg: real, deviation: real)
    requires deviation >= 0.0
    ensures GetLimits(rate, avg, deviation).lower >= MIN_PIPELINE_SIZE <==> rate > 1.5 || rate <= 0.0
  {
  }

  /**
   The lower limit covers the samples produced during the average round trip and its deviation, as far as one
   second's worth of samples goes, and unless it is the smallest one it is not two above what that takes; the
   upper limit is eight times the lower one, or one second's worth. Without a rate there is a sample every 30
   milliseconds; without an average the smallest pipeline will do.
   */
  lemma LimitsCoverDemand(rate: real, avg: real, deviation: real)
    requires deviation >= 0.0
    ensures var n, period := GetLimits(rate, avg, deviation), if rate > 0.0 then 1000.0 / rate else 30.0;
      period > 0.0
      && var needed, second := (avg + deviation) / period, Ceil(1000.0 / period + 0.5);
      && n.lower <= second && n.upper <= second
      && (n.lower >= MIN_PIPELINE_SIZE || n.lower == second)
      && (n.upper == 8 * n.lower || n.upper == second)
      && if avg > 0.0
         then (n.lower as real >= needed + 0.5 || n.lower == second)
              && (n.lower as real < needed + 1.5 || n.lower <= MIN_PIPELINE_SIZE)
         else n.lower <= MIN_PIPELINE_SIZE
  {
    var period := SamplePeriod(rate);
    var second := Demand(rate, MAX_PIPELINE_SIZE_MS, 0.0);
    DemandPositive(rate, avg, deviation);
    DemandPositive(rate, MAX_PIPELINE_SIZE_MS, 0.0);
    if avg > 0.0 {
      CeilBounds((avg + deviation) / period + 0.5);
      Clamped(Demand(rate, avg, deviation), second, (avg + deviation) / period);
    }
  }

  lemma CeilBounds(x: real)
    ensures x <= Ceil(x) as real < x + 1.0
  {
  }

  lemma Clamped(demand: int, second: int, needed: real)
    requires demand >= 1 && second >= 1 && needed + 0.5 <= demand as real < needed + 1.5
    ensures var lower := Min(Max(demand, MIN_PIPELINE_SIZE), second);
      && lower <= second && Min(lower * 8, second) <= second
      && (lower as real >= needed + 0.5 || lower == second)
      && (lower as real < needed + 1.5 || lower <= MIN_PIPELINE_SIZE)
      && (lower >= MIN_PIPELINE_SIZE || lower == second)
      && (Min(lower * 8, second) == 8 * lower || Min(lower * 8, second) == second)
  {
  }

  // ---------- InterestControl ----------

  datatype Control = Control(initialised: bool, limitSet: bool, lower: nat, limit: nat, upper: nat, pipeline: int)

  const RESET := Control(false, false, MIN_PIPELINE_SIZE, MIN_PIPELINE_SIZE, INITIAL_UPPER_LIMIT, 0)

  function ChangeLimit(c: Control, newLimit: nat): Control
  {
    c.(limit := if newLimit < c.lower then c.lower else if newLimit > c.upper then c.upper else newLimit)
  }

  function SetLimits(c: Control, n: Limits): Control
  {
    if c.lower == n.lower && c.upper == n.upper then c
    else
      var d := c.(lower := if !c.limitSet || n.lower > c.lower then n.lower else c.lower, upper := n.upper);
      if d.limit < d.lower then ChangeLimit(d, d.lower) else d
  }

  /** The value of an `int` made unsigned. */
  function Unsigned(x: int): nat
  {
    if x < 0 then x % 0x1_0000_0000 else x
  }

  /** `withhold` with `std::round`, which rounds halves away from zero. */
  function WithholdBy(c: Control): nat
  {
    (Unsigned(c.limit - c.lower) + 1) / 2
  }

  function Withhold(c: Control): (Control, bool)
  {
    if !c.initialised || WithholdBy(c) == 0 then (c, false)
    else (ChangeLimit(c, Unsigned(c.limit - WithholdBy(c))), true)
  }

  function Burst(c: Control): (Control, bool)
  {
    if c.initialised then (ChangeLimit(c, c.limit + (c.limit + 1) / 2), true) else (c, false)
  }

  ghost predicate InOrder(c: Control)
  {
    c.lower <= c.upper && c.lower <= c.limit
  }

  /** One withhold halves the distance to the lower limit, and reports false exactly when there is none. */
  lemma WithholdHalves(c: Control)
    requires c.initialised && InOrder(c) && c.limit <= c.upper
    ensures var (d, changed) := Withhold(c);
      && d == c.(limit := c.lower + (c.limit - c.lower) / 2)
      && (changed <==> c.limit > c.lower)
  {
  }

  /** With the limit below the lower one the difference wraps, and withholding goes up to the upper limit. */
  lemma WithholdOutOfOrder(c: Control)
    requires c.initialised && c.limit < c.lower < 0x8000_0000 && c.upper < 0x8000_0000
    ensures Withhold(c) == (c.(limit := c.upper), true)
  {
    assert Unsigned(c.limit - c.lower) == 0x1_0000_0000 - (c.lower - c.limit);
    assert Unsigned(c.limit - WithholdBy(c)) >= 0x8000_0000;
  }

  function Withholds(c: Control, n: nat): Control
    decreases n
  {
    if n == 0 then c
    else
      var d := Withhold(c).0;
      Withholds(d, n - 1)
  }

  function Pow2(n: nat): nat
  {
    if n == 0 then 1 else 2 * Pow2(n - 1)
  }

  /** So withholding is a binary search down: `n` times is enough when the distance is below `2^n`. */
  lemma {:induction false} WithholdsReachTheBottom(c: Control, n: nat)
    requires c.initialised && InOrder(c) && c.limit <= c.upper && c.limit - c.lower < Pow2(n)
    ensures Withholds(c, n).limit == c.lower
    decreases n
  {
    if n == 0 {
    } else {
      WithholdHalves(c);
      WithholdsReachTheBottom(Withhold(c).0, n - 1);
    }
  }

  /** A burst raises the limit by half, rounded up, as far as the upper limit. */
  lemma BurstGrows(c: Control)
    requires c.initialised && InOrder(c) && c.limit <= c.upper
    ensures var (d, done) := Burst(c);
      && done && c.limit <= d.limit <= c.upper
      && 2 * d.limit <= 3 * c.limit + 1
      && (2 * d.limit >= 3 * c.limit || d.limit == c.upper)
      && (d.limit == c.limit <==> c.limit == c.upper || c.limit == 0)
  {
  }

  /**
   New limits keep the order unless the marked lower limit stays above the new upper one; then they keep it
   no more.
   */
  lemma SetLimitsKeepsOrder(c: Control, n: Limits)
    requires InOrder(c) && n.lower <= n.upper
    ensures var d := SetLimits(c, n);
      && (InOrder(d) <==> !c.limitSet || c.lower <= n.upper)
      && (d.lower <= d.limit <==> !c.limitSet || c.lower <= n.upper || c.limit >= d.lower)
  {
  }

  /** New limits become the limits, but for a marked lower one that is higher; the limit follows only upwards. */
  lemma AfterNewLimits(c: Control, n: Limits)
    requires InOrder(c)
    ensures var d := SetLimits(c, n);
      && d.upper == n.upper
      && d.lower == (if c.limitSet && c.lower > n.lower then c.lower else n.lower)
      && d.limit == (if c.limit >= d.lower then c.limit else if d.lower <= d.upper then d.lower else d.upper)
      && d.pipeline == c.pipeline && d.limitSet == c.limitSet && d.initialised == c.initialised
  {
  }

  /** `initialize`, which runs on every metadata packet. */
  function Initialised(c: Control, pipelineLimit: int32): Control
  {
    ChangeLimit(c.(lower := MIN_PIPELINE_SIZE, upper := Max(c.upper, pipelineLimit)), Unsigned(pipelineLimit))
  }

  function Marked(c: Control, lower: nat, n: Limits): Control
  {
    SetLimits(c.(limitSet := true, lower := lower), n)
  }

  /** What the estimator knows when limits are computed: rate, average round trip and its deviation. */
  datatype Estimate = Estimate(rate: real, avg: real, deviation: real)

  /** The deviation is a square root. */
  predicate Sensible(e: Estimate)
  {
    e.deviation >= 0.0
  }

  function LimitsOf(e: Estimate): Limits
    requires Sensible(e)
  {
    GetLimits(e.rate, e.avg, e.deviation)
  }

  datatype Op =
    | OpReset
    | OpInitialize(pipelineLimit: int32)
    | OpRate(e: Estimate)
    | OpDrd(e: Estimate)
    | OpMark(lower: nat, e: Estimate)
    | OpBurst
    | OpWithhold
    | OpIncrement
    | OpDecrement

  predicate SensibleOp(op: Op)
  {
    (op.OpRate? || op.OpDrd? || op.OpMark?) ==> Sensible(op.e)
  }

  function Apply(c: Control, op: Op): Control
    requires SensibleOp(op)
  {
    match op
    case OpReset => RESET
    case OpInitialize(pipelineLimit) => Initialised(c, pipelineLimit)
    case OpRate(e) => SetLimits(c.(initialised := true), LimitsOf(e))
    case OpDrd(e) => if c.initialised then SetLimits(c, LimitsOf(e)) else c
    case OpMark(lower, e) => Marked(c, lower, LimitsOf(e))
    case OpBurst => Burst(c).0
    case OpWithhold => Withhold(c).0
    case OpIncrement => if c.pipeline >= c.limit then c else c.(pipeline := c.pipeline + 1)
    case OpDecrement => c.(pipeline := c.pipeline - 1)
  }

  /**
   The operations that put the limits out of order: initialising below the smallest pipeline while the upper
   limit is below it too; new limits, or a mark, under which the marked lower limit stays above the upper
   one; and a mark above the current limit that is just what the limits would be anyway.
   */
  predicate Breaks(c: Control, op: Op)
    requires SensibleOp(op)
  {
    match op
    case OpInitialize(pipelineLimit) => c.upper < MIN_PIPELINE_SIZE && pipelineLimit < MIN_PIPELINE_SIZE
    case OpRate(e) => c.limitSet && c.lower > LimitsOf(e).upper
    case OpDrd(e) => c.initialised && c.limitSet && c.lower > LimitsOf(e).upper
    case OpMark(lower, e) =>
      lower > LimitsOf(e).upper
      || (Limits(lower, c.upper) == LimitsOf(e) && c.limit < lower)
    case _ => false
  }

  /** Initialising keeps the order if and only if either limit allows the smallest pipeline. */
  lemma InitialiseKeepsOrder(c: Control, pipelineLimit: int32)
    requires InOrder(c)
    ensures InOrder(Initialised(c, pipelineLimit))
            <==> c.upper >= MIN_PIPELINE_SIZE || pipelineLimit >= MIN_PIPELINE_SIZE
  {
  }

  /** It can be broken: a rate of one sample a second, then metadata asking for two. */
  lemma InitialiseCanBreakTheOrder()
    ensures var c := Apply(RESET, OpRate(Estimate(1.0, 100.0, 0.0)));
      && InOrder(c) && !InOrder(Apply(c, OpInitialize(2)))
  {
    assert SamplePeriod(1.0) == 1000.0;
    assert GetLimits(1.0, 100.0, 0.0) == Limits(2, 2);
  }

  /** An operation keeps limits that are in order exactly when it is not one of those. */
  lemma KeepsOrderExactly(c: Control, op: Op)
    requires SensibleOp(op) && InOrder(c)
    ensures InOrder(Apply(c, op)) <==> !Breaks(c, op)
  {
    match op
    case OpInitialize(pipelineLimit) => InitialiseKeepsOrder(c, pipelineLimit);
    case OpRate(e) => SetLimitsKeepsOrder(c.(initialised := true), LimitsOf(e));
    case OpDrd(e) => if c.initialised { SetLimitsKeepsOrder(c, LimitsOf(e)); }
    case _ =>
  }

  /** The limits are in order after every prefix of the run. */
  ghost predicate OrderedThroughout(c: Control, ops: seq<Op>)
    requires forall i | 0 <= i < |ops| :: SensibleOp(ops[i])
    decreases |ops|
  {
    InOrder(c) && (ops == [] || OrderedThroughout(Apply(c, ops[0]), ops[1..]))
  }

  predicate NothingBreaks(c: Control, ops: seq<Op>)
    requires forall i | 0 <= i < |ops| :: SensibleOp(ops[i])
    decreases |ops|
  {
    ops == [] || (!Breaks(c, ops[0]) && NothingBreaks(Apply(c, ops[0]), ops[1..]))
  }

  /** Over every run, marks and initialisations included, the limits stay in order exactly if nothing breaks it. */
  lemma {:induction false} RunsKeepOrderExactly(c: Control, ops: seq<Op>)
    requires forall i | 0 <= i < |ops| :: SensibleOp(ops[i])
    requires InOrder(c)
    ensures OrderedThroughout(c, ops) <==> NothingBreaks(c, ops)
    decreases |ops|
  {
    if ops == [] {
    } else {
      KeepsOrderExactly(c, ops[0]);
      if !Breaks(c, ops[0]) {
        RunsKeepOrderExactly(Apply(c, ops[0]), ops[1..]);
      }
    }
  }

  /** A rate at which a second's worth of samples has room for the smallest pipeline. */
  predicate RateFits(op: Op)
  {
    (op.OpRate? || op.OpDrd?) ==> op.e.rate > 1.5 || op.e.rate <= 0.0
  }

  /**
   Without a marked lower limit, and at rates above 1.5 (or none), lower <= upper and lower <= limit over
   every run, whatever metadata initialises the control with.
   */
  lemma {:induction false} RunsKeepOrder(c: Control, ops: seq<Op>)
    requires forall i | 0 <= i < |ops| :: SensibleOp(ops[i]) && RateFits(ops[i]) && !ops[i].OpMark?
    requires InOrder(c) && !c.limitSet && c.upper >= MIN_PIPELINE_SIZE
    ensures OrderedThroughout(c, ops)
    decreases |ops|
  {
    if ops == [] {
    } else {
      KeepsOrderExactly(c, ops[0]);
      if ops[0].OpRate? || ops[0].OpDrd? {
        SmallestPipelineFits(ops[0].e.rate, ops[0].e.avg, ops[0].e.deviation);
      }
      RunsKeepOrder(Apply(c, ops[0]), ops[1..]);
    }
  }

  /** The average and the deviation of the round trip come from the estimator, as inputs. */
  class InterestControl {
    var c: Control

    constructor ()
      ensures c == RESET
    {
      c := RESET;
    }

    method Reset()
      modifies this
      ensures c == RESET
    {
      c := c.(initialised := false, limitSet := false, pipeline := 0);
      c := c.(lower := MIN_PIPELINE_SIZE, limit := MIN_PIPELINE_SIZE, upper := INITIAL_UPPER_LIMIT);
    }

    /** Starts from the given limit; afterwards it lies between the smallest pipeline and the upper limit. */
    method Initialize(pipelineLimit: int32)
      modifies this
      ensures c == Apply(old(c), OpInitialize(pipelineLimit))
      ensures pipelineLimit >= MIN_PIPELINE_SIZE ==> c.limit == pipelineLimit && InOrder(c)
    {
      c := c.(lower := MIN_PIPELINE_SIZE);
      c := c.(upper := Max(c.upper, pipelineLimit));
      ChangeLimitTo(Unsigned(pipelineLimit));
    }

    function Room(): int
      reads this
    {
      c.limit - c.pipeline
    }

    /** `ok` is false where the source's assertion fails; see `PipelineAccounting.DecrementFailsExactly`. */
    method Decrement() returns (ok: bool)
      modifies this
      ensures ok == (old(c).pipeline > 0) && c == Apply(old(c), OpDecrement)
    {
      c := c.(pipeline := c.pipeline - 1);
      return c.pipeline >= 0;
    }

    method Increment() returns (ok: bool)
      modifies this
      ensures ok == (old(c).pipeline < old(c).limit) && c == Apply(old(c), OpIncrement)
    {
      if c.pipeline >= c.limit {
        return false;
      }
      c := c.(pipeline := c.pipeline + 1);
      return true;
    }

    method DoBurst() returns (ok: bool)
      modifies this
      ensures (c, ok) == Burst(old(c))
    {
      if c.initialised {
        var d := (c.limit + 1) / 2;
        ChangeLimitTo(c.limit + d);
        return true;
      }
      return false;
    }

    method DoWithhold() returns (ok: bool)
      modifies this
      ensures (c, ok) == Withhold(old(c))
    {
      if c.initialised {
        var d := WithholdBy(c);
        if d != 0 {
          ChangeLimitTo(Unsigned(c.limit - d));
        }
        return d != 0;
      }
      return false;
    }

    method MarkLowerLimit(lower: nat, e: Estimate)
      requires Sensible(e)
      modifies this
      ensures c == Apply(old(c), OpMark(lower, e))
    {
      c := c.(limitSet := true);
      c := c.(lower := lower);
      SetLimitsFrom(e);
    }

    method TargetRateUpdate(e: Estimate)
      requires Sensible(e)
      modifies this
      ensures c == Apply(old(c), OpRate(e))
    {
      c := c.(initialised := true);
      SetLimitsFrom(e);
    }

    method OnOriginalDrdUpdate(e: Estimate)
      requires Sensible(e)
      modifies this
      ensures c == Apply(old(c), OpDrd(e))
    {
      if c.initialised {
        SetLimitsFrom(e);
      }
    }

    method SetLimitsFrom(e: Estimate)
      requires Sensible(e)
      modifies this
      ensures c == SetLimits(old(c), LimitsOf(e))
    {
      var n := LimitsOf(e);
      if c.lower != n.lower || c.upper != n.upper {
        if !c.limitSet || n.lower > c.lower {
          c := c.(lower := n.lower);
        }
        c := c.(upper := n.upper);
        if c.limit < c.lower {
          ChangeLimitTo(c.lower);
        }
      }
    }

    method ChangeLimitTo(newLimit: nat)
      modifies this
      ensures c == ChangeLimit(old(c), newLimit)
    {
      if newLimit < c.lower {
        c := c.(limit := c.lower);
      } else if newLimit > c.upper {
        c := c.(limit := c.upper);
      } else {
        c := c.(limit := newLimit);
      }
    }
  }
}
