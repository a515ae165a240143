/**
 Latency control: each arriving sample leads to a command for the request pipeline. Whether arrival is stable
 and whether the data retrieval delay has changed are inputs, as is the clock.
 */
module LatencyControls {
  import opened PipelineCommands

  datatype Control = Control(timestamp: int, waitForChange: bool, waitForStability: bool, current: Command)

  const RESET := Control(0, false, false, Keep)

  /** What is known when a sample arrives; `acted` says whether an observer adjusts the pipeline when told to. */
  datatype Arrival = Arrival(now: int, stable: bool, changed: bool, acted: bool)

  function Fired(c: Control, now: int, window: nat): bool
  {
    c.timestamp != 0 && now - c.timestamp > window
  }

  /** The command for an arrival. */
  function Decide(c: Control, a: Arrival, window: nat): Command
  {
    if a.stable then
      if !c.waitForChange then Decrease
      else if a.changed then Keep
      else if Fired(c, a.now, window) then Decrease else Keep
    else if Fired(c, a.now, window) then Increase else Keep
  }

  /** A stable arrival on which the awaited change of the retrieval delay is seen. */
  predicate SeesChange(c: Control, a: Arrival)
  {
    a.stable && c.waitForChange && a.changed
  }

  function Arrived(c: Control, a: Arrival, window: nat): Control
  {
    var command := Decide(c, a, window);
    var restarts := SeesChange(c, a) || command == Increase;
    Control(
      if c.timestamp == 0 || restarts || (command == Decrease && a.acted) then a.now else c.timestamp,
      if restarts then false else c.waitForChange || (command == Decrease && a.acted),
      if restarts then true else if a.stable && !c.waitForChange then false else c.waitForStability,
      command)
  }

  class LatencyControl {
    const window: nat
    var c: Control

    constructor (timeoutWindowMs: nat)
      ensures window == timeoutWindowMs && c == RESET
    {
      window := timeoutWindowMs;
      c := RESET;
    }

    method Reset()
      modifies this
      ensures c == RESET
    {
      c := RESET;
    }

    method SampleArrived(a: Arrival)
      modifies this
      ensures c == Arrived(old(c), a, window)
    {
      var command := Keep;
      if c.timestamp == 0 {
        c := c.(timestamp := a.now);
      }
      var timeoutFired := a.now - c.timestamp > window;
      if a.stable {
        if c.waitForChange {
          if a.changed {
            c := c.(timestamp := a.now, waitForStability := true, waitForChange := false);
          } else if timeoutFired {
            command := Decrease;
          }
        } else {
          c := c.(waitForStability := false);
          command := Decrease;
        }
      } else if timeoutFired {
        c := c.(timestamp := a.now, waitForStability := true, waitForChange := false);
        command := Increase;
      }
      c := c.(current := command);
      if a.acted && command != Keep {
        PipelineChanged(a.now);
      }
    }

    method PipelineChanged(now: int)
      modifies this
      ensures c == if old(c).current == Decrease then old(c).(timestamp := now, waitForChange := true) else old(c)
    {
      if c.current == Decrease {
        c := c.(timestamp := now, waitForChange := true);
      }
    }
  }

  // ---------- spacing of commands ----------

  /** What an arrival led to; `acted` as in the arrival. */
  datatype Entry = Entry(now: int, command: Command, sawChange: bool, acted: bool)

  function Log(c: Control, arrivals: seq<Arrival>, window: nat): seq<Entry>
    decreases |arrivals|
  {
    if arrivals == [] then []
    else
      var last := arrivals[|arrivals| - 1];
      var before := Run(c, arrivals[..|arrivals| - 1], window);
      Log(c, arrivals[..|arrivals| - 1], window)
      + [Entry(last.now, Decide(before, last, window), SeesChange(before, last), last.acted)]
  }

  function Run(c: Control, arrivals: seq<Arrival>, window: nat): Control
    decreases |arrivals|
  {
    if arrivals == [] then c
    else Arrived(Run(c, arrivals[..|arrivals| - 1], window), arrivals[|arrivals| - 1], window)
  }

  /** A positive clock that does not go back, and an observer that acts on every command. */
  ghost predicate WellTimed(arrivals: seq<Arrival>)
  {
    && (forall i | 0 <= i < |arrivals| :: arrivals[i].now > 0 && arrivals[i].acted)
    && forall i, j | 0 <= i < j < |arrivals| :: arrivals[i].now <= arrivals[j].now
  }

  ghost predicate ChangeAfter(log: seq<Entry>, i: nat)
  {
    exists k | i < k < |log| :: log[k].sawChange
  }

  ghost predicate ChangeBetween(log: seq<Entry>, i: nat, j: nat)
  {
    exists k | i < k < j && k < |log| :: log[k].sawChange
  }

  ghost predicate IncreasesSpaced(log: seq<Entry>, window: nat)
  {
    forall i, j | 0 <= i < j < |log| :: log[j].command == Increase && log[i].command != Keep ==>
      log[j].now - log[i].now > window
  }

  ghost predicate DecreasesSpaced(log: seq<Entry>, window: nat)
  {
    forall i, j | 0 <= i < j < |log| :: log[j].command == Decrease && log[i].command == Decrease ==>
      log[j].now - log[i].now > window || ChangeBetween(log, i, j)
  }

  /** The timestamp is not before any command, and a decrease is waited on until something releases it. */
  ghost predicate Tracks(c: Control, log: seq<Entry>, window: nat)
  {
    && (log != [] ==> 0 < c.timestamp <= log[|log| - 1].now)
    && (log == [] ==> c.timestamp == 0)
    && (forall i | 0 <= i < |log| :: log[i].command != Keep ==> log[i].now <= c.timestamp)
    && (forall i | 0 <= i < |log| :: log[i].command == Decrease ==>
          c.waitForChange || ChangeAfter(log, i) || c.timestamp - log[i].now > window)
  }

  lemma AppendKeepsChanges(log: seq<Entry>, e: Entry)
    ensures forall i, j | 0 <= i < j < |log| :: ChangeBetween(log, i, j) ==> ChangeBetween(log + [e], i, j)
    ensures forall i | 0 <= i < |log| :: ChangeAfter(log, i) ==> ChangeAfter(log + [e], i)
                                                                 && ChangeBetween(log + [e], i, |log|)
    ensures e.sawChange ==> forall i | 0 <= i < |log| :: ChangeAfter(log + [e], i)
  {
    var more := log + [e];
    assert forall k | 0 <= k < |log| :: more[k] == log[k];
    forall i, j | 0 <= i < j < |log| && ChangeBetween(log, i, j) ensures ChangeBetween(more, i, j) {
      var k :| i < k < j && k < |log| && log[k].sawChange;
      assert more[k].sawChange;
    }
    forall i | 0 <= i < |log| && ChangeAfter(log, i) ensures ChangeAfter(more, i) && ChangeBetween(more, i, |log|) {
      var k :| i < k < |log| && log[k].sawChange;
      assert more[k].sawChange;
    }
    if e.sawChange {
      assert more[|log|].sawChange;
    }
  }

  lemma StepTracks(c: Control, log: seq<Entry>, a: Arrival, window: nat)
    requires Tracks(c, log, window) && IncreasesSpaced(log, window) && DecreasesSpaced(log, window)
    requires a.now > 0 && a.acted && (log != [] ==> log[|log| - 1].now <= a.now)
    ensures var more := log + [Entry(a.now, Decide(c, a, window), SeesChange(c, a), a.acted)];
      && Tracks(Arrived(c, a, window), more, window)
      && IncreasesSpaced(more, window) && DecreasesSpaced(more, window)
  {
    var e := Entry(a.now, Decide(c, a, window), SeesChange(c, a), a.acted);
    AppendKeepsChanges(log, e);
    var more := log + [e];
    assert forall k | 0 <= k < |log| :: more[k] == log[k];
    assert more[|log|] == e;
  }

  /**
   On every run an increase comes more than the window after any earlier command, and any two decreases are
   more than the window apart or have an observed change of the retrieval delay between them.
   */
  lemma {:induction false} CommandsAreSpaced(arrivals: seq<Arrival>, window: nat)
    requires WellTimed(arrivals)
    ensures var log := Log(RESET, arrivals, window);
      && |log| == |arrivals|
      && IncreasesSpaced(log, window) && DecreasesSpaced(log, window)
      && Tracks(Run(RESET, arrivals, window), log, window)
      && (log != [] ==> log[|log| - 1].now == arrivals[|arrivals| - 1].now)
    decreases |arrivals|
  {
    if arrivals == [] {
    } else {
      var front, last := arrivals[..|arrivals| - 1], arrivals[|arrivals| - 1];
      assert forall i | 0 <= i < |front| :: front[i] == arrivals[i];
      CommandsAreSpaced(front, window);
      StepTracks(Run(RESET, front, window), Log(RESET, front, window), last, window);
    }
  }

  /** Without an observer that acts, decreases may follow one another at once. */
  lemma UnobservedDecreasesAreNotSpaced(now: int, window: nat)
    requires now > 0
    ensures var arrivals := [Arrival(now, true, false, false), Arrival(now, true, false, false)];
      !DecreasesSpaced(Log(RESET, arrivals, window), window)
  {
    var a := Arrival(now, true, false, false);
    var e := Entry(now, Decrease, false, false);
    assert [a, a][..1] == [a] && [a][..0] == [];
    assert Log(RESET, [a], window) == [] + [e];
    assert Log(RESET, [a, a], window) == [e] + [e];
    assert !ChangeBetween([e, e], 0, 1);
    assert [e] + [e] == [e, e];
  }

  // ---------- exactly which commands are given ----------

  /** The pipeline was decreased, and since then neither was a change seen nor the pipeline increased. */
  ghost predicate Awaiting(log: seq<Entry>)
  {
    exists i | 0 <= i < |log| ::
      && log[i].command == Decrease && log[i].acted
      && forall k | i < k < |log| :: log[k].command != Increase && !log[k].sawChange
  }

  /** An entry from which the wait for the next command is counted: the first one, or one that changed something. */
  predicate Resets(log: seq<Entry>, k: nat)
    requires k < |log|
  {
    k == 0 || log[k].command == Increase || (log[k].command == Decrease && log[k].acted) || log[k].sawChange
  }

  /** More than the window has gone by since the last such entry. */
  ghost predicate Overdue(log: seq<Entry>, now: int, window: nat)
  {
    exists k | 0 <= k < |log| ::
      && Resets(log, k) && now - log[k].now > window
      && forall j | k < j < |log| :: !Resets(log, j)
  }

  /** The fields are what the history says. */
  ghost predicate Remembers(c: Control, log: seq<Entry>)
  {
    && (log == [] ==> c.timestamp == 0)
    && (log != [] ==> c.timestamp > 0 && exists k | 0 <= k < |log| ::
          Resets(log, k) && c.timestamp == log[k].now && forall j | k < j < |log| :: !Resets(log, j))
    && (c.waitForChange <==> Awaiting(log))
  }

  /**
   The command for an arrival follows from the history alone: increase when data is not fresh and the wait is
   over; decrease when it is fresh and either no change is awaited, or none is seen and the wait is over.
   */
  ghost predicate FollowsFrom(log: seq<Entry>, a: Arrival, e: Entry, window: nat)
  {
    && e.now == a.now && e.acted == a.acted
    && (e.sawChange <==> a.stable && a.changed && Awaiting(log))
    && (e.command == Increase <==> !a.stable && Overdue(log, a.now, window))
    && (e.command == Decrease <==>
          a.stable && (!Awaiting(log) || (!a.changed && Overdue(log, a.now, window))))
  }

  lemma OverdueExactly(c: Control, log: seq<Entry>, now: int, window: nat)
    requires Remembers(c, log)
    ensures Overdue(log, now, window) <==> Fired(c, now, window)
  {
    if log != [] {
      var k :| 0 <= k < |log| && Resets(log, k) && c.timestamp == log[k].now
               && forall j | k < j < |log| :: !Resets(log, j);
      if Overdue(log, now, window) {
        var i :| 0 <= i < |log| && Resets(log, i) && now - log[i].now > window
                 && forall j | i < j < |log| :: !Resets(log, j);
        assert i == k;
      }
    }
  }

  lemma AwaitingOneMore(log: seq<Entry>, e: Entry)
    ensures Awaiting(log + [e]) <==>
            || (e.command == Decrease && e.acted)
            || (Awaiting(log) && e.command != Increase && !e.sawChange)
  {
    var more := log + [e];
    assert forall k | 0 <= k < |log| :: more[k] == log[k];
    assert more[|log|] == e;
    if Awaiting(more) {
      var i :| 0 <= i < |more| && more[i].command == Decrease && more[i].acted
               && forall k | i < k < |more| :: more[k].command != Increase && !more[k].sawChange;
      if i < |log| {
        assert log[i] == more[i];
        assert forall k | i < k < |log| :: log[k].command != Increase && !log[k].sawChange;
      }
    }
    if Awaiting(log) && e.command != Increase && !e.sawChange {
      var i :| 0 <= i < |log| && log[i].command == Decrease && log[i].acted
               && forall k | i < k < |log| :: log[k].command != Increase && !log[k].sawChange;
      assert more[i] == log[i];
    }
    if e.command == Decrease && e.acted {
      assert more[|log|].command == Decrease;
    }
  }

  lemma StepRemembers(c: Control, log: seq<Entry>, a: Arrival, window: nat)
    requires Remembers(c, log) && a.now > 0
    ensures var e := Entry(a.now, Decide(c, a, window), SeesChange(c, a), a.acted);
      && FollowsFrom(log, a, e, window)
      && Remembers(Arrived(c, a, window), log + [e])
  {
    var e := Entry(a.now, Decide(c, a, window), SeesChange(c, a), a.acted);
    OverdueExactly(c, log, a.now, window);
    AwaitingOneMore(log, e);
    TimestampOneMore(c, log, a, window, e);
  }

  /** Stability is awaited from a seen change or an increase on, until fresh data comes with no change awaited. */
  lemma StabilityAwaited(c: Control, log: seq<Entry>, a: Arrival, window: nat)
    requires Remembers(c, log)
    ensures Arrived(c, a, window).waitForStability
            == if SeesChange(c, a) || Decide(c, a, window) == Increase then true
               else if a.stable && !Awaiting(log) then false else c.waitForStability
  {
  }

  lemma TimestampOneMore(c: Control, log: seq<Entry>, a: Arrival, window: nat, e: Entry)
    requires Remembers(c, log) && a.now > 0
    requires e == Entry(a.now, Decide(c, a, window), SeesChange(c, a), a.acted)
    ensures var more, d := log + [e], Arrived(c, a, window);
      && d.timestamp > 0
      && exists k | 0 <= k < |more| ::
           Resets(more, k) && d.timestamp == more[k].now && forall j | k < j < |more| :: !Resets(more, j)
  {
    var more, d := log + [e], Arrived(c, a, window);
    assert forall k | 0 <= k < |log| :: more[k] == log[k] && (Resets(more, k) <==> Resets(log, k));
    assert more[|log|] == e;
    if Resets(more, |log|) {
      assert d.timestamp == more[|log|].now;
    } else {
      var k :| 0 <= k < |log| && Resets(log, k) && c.timestamp == log[k].now
               && forall j | k < j < |log| :: !Resets(log, j);
      assert Resets(more, k) && d.timestamp == more[k].now;
    }
  }

  lemma {:induction false} RunRemembers(arrivals: seq<Arrival>, window: nat)
    requires forall j | 0 <= j < |arrivals| :: arrivals[j].now > 0
    ensures Remembers(Run(RESET, arrivals, window), Log(RESET, arrivals, window))
    ensures |Log(RESET, arrivals, window)| == |arrivals|
    decreases |arrivals|
  {
    if arrivals == [] {
    } else {
      var front, last := arrivals[..|arrivals| - 1], arrivals[|arrivals| - 1];
      RunRemembers(front, window);
      StepRemembers(Run(RESET, front, window), Log(RESET, front, window), last, window);
    }
  }

  /**
   On every run, for every arrival, with or without an observer that acts: the command is the one that follows
   from what has happened so far.
   */
  lemma {:induction false} CommandsExactly(arrivals: seq<Arrival>, window: nat, i: nat)
    requires (forall j | 0 <= j < |arrivals| :: arrivals[j].now > 0) && i < |arrivals|
    ensures var log := Log(RESET, arrivals, window);
      |log| == |arrivals| && FollowsFrom(log[..i], arrivals[i], log[i], window)
    decreases |arrivals|
  {
    var front, last := arrivals[..|arrivals| - 1], arrivals[|arrivals| - 1];
    var before, log := Log(RESET, front, window), Log(RESET, arrivals, window);
    RunRemembers(front, window);
    assert |before| == |front| && log[..|front|] == before;
    if i < |front| {
      CommandsExactly(front, window, i);
      assert log[..i] == before[..i] && log[i] == before[i] && arrivals[i] == front[i];
    } else {
      StepRemembers(Run(RESET, front, window), before, last, window);
      assert log[..i] == before;
    }
  }
}
