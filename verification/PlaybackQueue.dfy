/** What a playback queue does to the timestamps of the samples it holds. */
module QueueTimes {

  ghost predicate Increasing(q: seq<int>)
  {
    forall i, j | 0 <= i < j < |q| :: q[i] < q[j]
  }

  /** How many samples stand in front of time `t`. */
  function Rank(q: seq<int>, t: int): (i: nat)
    ensures i <= |q|
    ensures forall j | 0 <= j < i :: q[j] < t
    ensures i < |q| ==> q[i] >= t
  {
    if q == [] || q[0] >= t then 0 else 1 + Rank(q[1..], t)
  }

  predicate Taken(q: seq<int>, t: int)
  {
    Rank(q, t) < |q| && q[Rank(q, t)] == t
  }

  /** Insertion into `std::set<Sample>`: in order of time, and not at all when the time is there already. */
  function Insert(q: seq<int>, t: int): seq<int>
  {
    if Taken(q, t) then q else q[..Rank(q, t)] + [t] + q[Rank(q, t)..]
  }

  lemma InsertKeepsOrder(q: seq<int>, t: int)
    requires Increasing(q)
    ensures Increasing(Insert(q, t))
    ensures Taken(q, t) <==> t in q
    ensures forall x :: x in Insert(q, t) <==> x in q || x == t
  {
  }

  /** The play time `pop` hands out: the gap to the next sample, or the sample period for the last one. */
  function PlayTime(q: seq<int>, period: real): real
    requires q != []
  {
    if |q| > 1 then (q[1] - q[0]) as real else period
  }

  /** `size()` before it is cut to whole milliseconds. */
  function Duration(q: seq<int>, period: real): real
  {
    if q == [] then 0.0 else (q[|q| - 1] - q[0]) as real + period
  }

  function TotalPlayTime(q: seq<int>, period: real, pops: nat): real
    requires pops <= |q|
  {
    if pops == 0 then 0.0 else PlayTime(q, period) + TotalPlayTime(q[1..], period, pops - 1)
  }

  /** Play times are not negative, and those of consecutive pops telescope. */
  lemma {:induction false} PlayTimesTelescope(q: seq<int>, period: real, pops: nat)
    requires Increasing(q) && pops < |q|
    ensures TotalPlayTime(q, period, pops) == (q[pops] - q[0]) as real
    ensures period >= 0.0 ==> PlayTime(q, period) >= 0.0
  {
    if pops == 0 {
    } else {
      PlayTimesTelescope(q[1..], period, pops - 1);
    }
  }

  /** Popping everything takes exactly the queue's size. */
  lemma {:induction false} PoppingAllTakesItsSize(q: seq<int>, period: real)
    requires Increasing(q)
    ensures TotalPlayTime(q, period, |q|) == Duration(q, period)
    decreases |q|
  {
    if |q| > 1 {
      PoppingAllTakesItsSize(q[1..], period);
    } else if |q| == 1 {
      assert TotalPlayTime(q[1..], period, 0) == 0.0;
    }
  }
}

/**
 The playback queue: assembled samples in order of their publish time. It observes the buffer; a slot that
 becomes ready is reserved and queued, and goes back to the pool when it is popped.
 */
module PlaybackQueues {
  import opened BufferSlots
  import opened Options
  import opened FrameBuffer
  import opened QueueTimes

  function Stamp(s: SlotState): int
  {
    if Header(s).Some? then Header(s).value.timestamp else 0
  }

  /**
   The queue as a value: names and times of the queued samples, and the reserved samples that never made it
   into the queue.
   */
  datatype QueueView = QueueView(names: seq<SampleKey>, times: seq<int>, stranded: set<SampleKey>)

  const EMPTY_QUEUE := QueueView([], [], {})

  /**
   Every queued sample is reserved and has its header, times are strictly increasing, and every other
   reserved sample is stranded.
   */
  ghost predicate QueueOk(reserved: map<SampleKey, SlotState>, q: QueueView)
  {
    && |q.times| == |q.names|
    && (forall i | 0 <= i < |q.names| :: Queued(reserved, q.names[i], q.times[i]))
    && Increasing(q.times)
    && (forall k | k in reserved :: k in q.names || k in q.stranded)
    && (forall k | k in q.stranded :: k in reserved && k !in q.names)
  }

  ghost predicate Queued(reserved: map<SampleKey, SlotState>, name: SampleKey, time: int)
  {
    && name in reserved
    && reserved[name].name == Some(name)
    && Header(reserved[name]).Some?
    && time == Stamp(reserved[name])
  }

  function Strand(q: QueueView, key: SampleKey): QueueView
  {
    q.(stranded := q.stranded + {key})
  }

  function Enqueue(q: QueueView, key: SampleKey, t: int): QueueView
    requires |q.names| == |q.times|
  {
    if Taken(q.times, t) then q
    else QueueView(q.names[..Rank(q.times, t)] + [key] + q.names[Rank(q.times, t)..],
                   Insert(q.times, t), q.stranded - {key})
  }

  function Front(q: QueueView): SampleKey
    requires q.names != []
  {
    q.names[0]
  }

  function PopFront(q: QueueView): QueueView
    requires q.names != [] && q.times != []
  {
    q.(names := q.names[1..], times := q.times[1..])
  }

  lemma StrandOk(reserved: map<SampleKey, SlotState>, q: QueueView, key: SampleKey, s: SlotState)
    requires QueueOk(reserved, q) && key !in reserved
    ensures QueueOk(reserved[key := s], Strand(q, key))
  {
  }

  lemma EnqueueOk(reserved: map<SampleKey, SlotState>, q: QueueView, key: SampleKey)
    requires QueueOk(reserved, q) && key in q.stranded && Header(reserved[key]).Some?
    requires reserved[key].name == Some(key)
    ensures QueueOk(reserved, Enqueue(q, key, Stamp(reserved[key])))
  {
    var t := Stamp(reserved[key]);
    if !Taken(q.times, t) {
      InsertKeepsOrder(q.times, t);
      Spliced(q.names, key, Rank(q.times, t));
      EnqueuedEach(reserved, q, key, t);
    }
  }

  lemma EnqueuedEach(reserved: map<SampleKey, SlotState>, q: QueueView, key: SampleKey, t: int)
    requires |q.times| == |q.names| && !Taken(q.times, t)
    requires forall i | 0 <= i < |q.names| :: Queued(reserved, q.names[i], q.times[i])
    requires Queued(reserved, key, t)
    ensures var r := Enqueue(q, key, t);
      |r.names| == |r.times| && forall j | 0 <= j < |r.names| :: Queued(reserved, r.names[j], r.times[j])
  {
  }

  lemma Spliced<T>(s: seq<T>, x: T, i: nat)
    requires i <= |s|
    ensures var r := s[..i] + [x] + s[i..];
      && |r| == |s| + 1
      && (forall j | 0 <= j < |r| :: r[j] == if j < i then s[j] else if j == i then x else s[j - 1])
      && (forall y :: y in r <==> y in s || y == x)
  {
  }

  /** Names are distinct, because times are. */
  lemma NamesDistinct(reserved: map<SampleKey, SlotState>, q: QueueView)
    requires QueueOk(reserved, q)
    ensures forall i, j | 0 <= i < j < |q.names| :: q.names[i] != q.names[j]
  {
  }

  lemma PopOk(reserved: map<SampleKey, SlotState>, q: QueueView)
    requires QueueOk(reserved, q) && q.names != []
    ensures QueueOk(reserved, Strand(PopFront(q), Front(q)))
  {
  }

  /** The queue holds the very objects that are reserved under its names. */
  ghost predicate Aligned(reserved: map<SampleKey, BufferSlot>, queue: seq<BufferSlot>, names: seq<SampleKey>)
  {
    |queue| == |names| && forall i | 0 <= i < |queue| :: names[i] in reserved && queue[i] == reserved[names[i]]
  }

  lemma SplicedAligned(reserved: map<SampleKey, BufferSlot>, queue: seq<BufferSlot>, names: seq<SampleKey>,
                       key: SampleKey, i: nat)
    requires Aligned(reserved, queue, names) && key in reserved && i <= |queue|
    ensures Aligned(reserved, queue[..i] + [reserved[key]] + queue[i..], names[..i] + [key] + names[i..])
  {
  }

  datatype Popped = NothingQueued | Popped(name: SampleKey, timestamp: int, playTime: real)

  class PlaybackQueue {
    const buffer: Buffer
    var queue: seq<BufferSlot>
    var packetRate: real

    ghost var q: QueueView

    /** The queued objects are the reserved ones. (`QueueOk` is kept by what the methods do to the views.) */
    ghost predicate Valid()
      reads this, buffer, buffer.pool, buffer.pool.pool, buffer.active.Values, buffer.reserved.Values
    {
      && buffer.Valid()
      && Aligned(buffer.reserved, queue, q.names)
    }

    ghost predicate Ok()
      reads this, buffer
    {
      QueueOk(buffer.view.reserved, q)
    }

    constructor (buffer: Buffer)
      requires buffer.Valid() && buffer.reserved == map[]
      ensures Valid() && this.buffer == buffer && q == EMPTY_QUEUE && packetRate == 0.0 && Ok()
    {
      this.buffer := buffer;
      queue, q := [], EMPTY_QUEUE;
      packetRate := 0.0;
    }

    function SamplePeriod(): (period: real)
      reads this
      ensures packetRate >= 0.0 ==> period >= 0.0
      ensures if packetRate == 0.0 then period == 0.0 else period * packetRate == 1000.0
    {
      if packetRate != 0.0 then 1000.0 / packetRate else 0.0
    }

    /** Name and time of a queued sample, as its slot has them. */
    lemma TimeOf(i: nat)
      requires Valid() && Ok() && i < |queue|
      ensures |q.times| == |queue| && Stamp(queue[i].s) == q.times[i] && queue[i].s.name == Some(q.names[i])
    {
    }

    /** The size in milliseconds, cut to a whole number. */
    method Size() returns (size: int)
      requires Valid() && Ok() && packetRate >= 0.0
      ensures size == Duration(q.times, SamplePeriod()).Floor
    {
      if |queue| == 0 {
        return 0;
      }
      TimeOf(0);
      TimeOf(|queue| - 1);
      if |queue| == 1 {
        return SamplePeriod().Floor;
      }
      size := ((Stamp(queue[|queue| - 1].s) - Stamp(queue[0].s)) as real + SamplePeriod()).Floor;
    }

    /** The place for a time in the queue: behind every earlier sample. */
    method FindPlace(t: int) returns (i: nat)
      requires Valid() && Ok()
      ensures i == Rank(q.times, t) <= |queue| == |q.times|
    {
      i := 0;
      if |queue| > 0 {
        TimeOf(0);
      }
      while i < |queue| && Stamp(queue[i].s) < t
        invariant i <= |queue| && Rank(q.times, t) == i + Rank(q.times[i..], t)
        invariant i < |queue| ==> Stamp(queue[i].s) == q.times[i]
      {
        assert q.times[i..][1..] == q.times[i + 1..];
        i := i + 1;
        if i < |queue| {
          TimeOf(i);
        }
      }
    }

    /** Reserves a ready sample; until it is queued it counts as stranded. */
    method Reserve(key: SampleKey)
      requires Valid() && Ok() && key in buffer.active && key !in buffer.reserved
      requires buffer.active[key].s.state.Ready?
      modifies this`q, buffer`active, buffer`reserved, buffer`view, buffer`home, buffer.active.Values
      ensures Valid() && buffer.view == ReserveView(old(buffer.view), key)
      ensures key in buffer.reserved && buffer.reserved[key] == old(buffer.active[key])
      ensures buffer.reserved[key].s == old(buffer.active[key].s).(state := Locked)
      ensures q == Strand(old(q), key) && Ok()
    {
      StrandOk(buffer.view.reserved, q, key, buffer.active[key].s.(state := Locked));
      var ok := buffer.ReserveSlot(key);
      q := Strand(q, key);
    }

    /** Inserts a reserved sample by its time, unless that time is taken. */
    method Insert(key: SampleKey)
      requires Valid() && Ok() && key in buffer.reserved
      modifies this`queue, this`q
      ensures Valid() && q == Enqueue(old(q), key, Stamp(buffer.view.reserved[key]))
    {
      var t := Stamp(buffer.reserved[key].s);
      var i := FindPlace(t);
      if i < |queue| {
        TimeOf(i);
        if Stamp(queue[i].s) == t {
          return;
        }
      }
      InsertAt(key, t, i);
    }

    method InsertAt(key: SampleKey, t: int, i: nat)
      requires Valid() && key in buffer.reserved && |q.names| == |q.times|
      requires i == Rank(q.times, t) <= |queue| && !Taken(q.times, t)
      modifies this`queue, this`q
      ensures Valid() && q == Enqueue(old(q), key, t)
    {
      SplicedAligned(buffer.reserved, queue, q.names, key, i);
      queue := queue[..i] + [buffer.reserved[key]] + queue[i..];
      q := Enqueue(q, key, t);
    }

    /**
     The queue's reaction to a received segment: a slot that has become ready is reserved and queued. The
     header lookup throws (`ok` is false) when segment 0 is not among the fetched ones, after the slot has
     been reserved; and a sample whose time is taken is not queued either. Both leave it stranded.
     */
    method OnNewData(slot: BufferSlot) returns (ok: bool)
      requires Valid() && Ok() && slot.s.name.Some?
      requires slot.s.name.value in buffer.active && buffer.active[slot.s.name.value] == slot
      requires slot.s.name.value !in buffer.reserved
      modifies this`queue, this`q, this`packetRate
      modifies buffer`active, buffer`reserved, buffer`view, buffer`home, buffer.active.Values
      ensures Valid() && ok == (old(slot.s).state.Ready? ==> Header(old(slot.s)).Some?)
      ensures (buffer.view, q) == NewData(old(buffer.view), old(q), old(slot.s))
      ensures packetRate == if old(slot.s).state.Ready? && ok then Header(old(slot.s)).value.sampleRate
                            else old(packetRate)
    {
      if slot.s.state != Ready {
        return true;
      }
      var key := slot.s.name.value;
      Reserve(key);
      ok := QueueReserved(slot, key);
    }

    /** Looks up the header of a reserved slot and inserts the sample; throws when there is none. */
    method QueueReserved(slot: BufferSlot, key: SampleKey) returns (ok: bool)
      requires Valid() && Ok() && key in buffer.reserved && buffer.reserved[key] == slot
      modifies this`queue, this`q, this`packetRate
      ensures Valid() && ok == Header(slot.s).Some?
      ensures q == if ok then Enqueue(old(q), key, Stamp(slot.s)) else old(q)
      ensures packetRate == if ok then Header(slot.s).value.sampleRate else old(packetRate)
    {
      var header := slot.GetHeader();
      if header.None? {
        return false;
      }
      packetRate := header.value.sampleRate;
      Insert(key);
      return true;
    }

    /** Takes the first sample out of the queue; until its slot is released it counts as stranded. */
    method TakeFront() returns (slot: BufferSlot, playTime: real)
      requires Valid() && Ok() && queue != []
      modifies this`queue, this`q
      ensures Valid() && |old(q).times| == |old(queue)| && q == Strand(PopFront(old(q)), Front(old(q)))
      ensures slot.s.name == Some(Front(old(q))) && Stamp(slot.s) == old(q).times[0]
      ensures playTime == PlayTime(old(q).times, SamplePeriod())
    {
      TimeOf(0);
      if |queue| > 1 {
        TimeOf(1);
      }
      slot := queue[0];
      queue := queue[1..];
      q := Strand(PopFront(q), Front(q));
      playTime := if |queue| > 0 then (Stamp(queue[0].s) - Stamp(slot.s)) as real else SamplePeriod();
    }

    /** A popped delta frame makes everything before it obsolete. */
    method DropObsolete(key: SampleKey)
      requires buffer.Valid() && Total(buffer.view) <= buffer.pool.capacity
      modifies buffer`active, buffer`view, buffer`home, buffer`drops, buffer.pool, buffer.active.Values
      ensures buffer.Valid() && buffer.view == ObsoleteView(old(buffer.view), key)
      ensures Total(buffer.view) == old(Total(buffer.view))
    {
      DropAllTotal(buffer.view, Older(buffer.view, key));
      if !key.isKey {
        buffer.InvalidatePrevious(key);
      }
    }

    /** What `pop` does once the sample has been handed out. */
    method Discard(key: SampleKey)
      requires Valid() && key !in q.names && Total(buffer.view) <= buffer.pool.capacity
      modifies this`q, buffer`active, buffer`reserved, buffer`view, buffer`home, buffer`drops
      modifies buffer.pool, buffer.active.Values, buffer.reserved.Values
      ensures Valid() && buffer.view == PopView(old(buffer.view), key)
      ensures q == old(q).(stranded := old(q).stranded - {key})
    {
      DropObsolete(key);
      Release(key);
    }

    method Release(key: SampleKey)
      requires Valid() && key !in q.names && Total(buffer.view) <= buffer.pool.capacity
      modifies this`q, buffer`reserved, buffer`view, buffer`home, buffer.pool, buffer.reserved.Values
      ensures Valid() && buffer.view == ReleaseView(old(buffer.view), key)
      ensures q == old(q).(stranded := old(q).stranded - {key})
    {
      UnstrandAligned(buffer.reserved, queue, q.names, key);
      buffer.ReleaseSlot(key);
      q := q.(stranded := q.stranded - {key});
    }

    /** Hands out the first sample with its play time, drops what it makes obsolete, and frees its slot. */
    method Pop() returns (r: Popped)
      requires Valid() && Ok() && Total(buffer.view) <= buffer.pool.capacity
      modifies this`queue, this`q, buffer`active, buffer`reserved, buffer`view, buffer`home, buffer`drops
      modifies buffer.pool, buffer.active.Values, buffer.reserved.Values
      ensures Valid()
      ensures (buffer.view, q, r) == PopSpec(old(buffer.view), old(q), SamplePeriod())
    {
      if |queue| == 0 {
        return NothingQueued;
      }
      FrontLeaves(buffer.view.reserved, q);
      var slot, playTime := TakeFront();
      var prefix := slot.s.name.value;
      r := Popped(prefix, Stamp(slot.s), playTime);
      Discard(prefix);
    }
  }

  function ObsoleteView(v: BufferView, key: SampleKey): BufferView
  {
    if key.isKey then v else DropAllView(v, Older(v, key))
  }

  /** What `pop` does to buffer and queue, and what it hands out. */
  function PopSpec(v: BufferView, q: QueueView, period: real): (BufferView, QueueView, Popped)
  {
    if q.names == [] || q.times == [] then (v, q, NothingQueued)
    else (PopView(v, Front(q)), PopFront(q), Popped(Front(q), q.times[0], PlayTime(q.times, period)))
  }

  /** The first name does not come again, and nothing stays stranded by taking and releasing it. */
  lemma FrontLeaves(reserved: map<SampleKey, SlotState>, q: QueueView)
    requires QueueOk(reserved, q) && q.names != []
    ensures Front(q) !in q.names[1..] && Front(q) !in q.stranded
    ensures q.stranded + {Front(q)} - {Front(q)} == q.stranded
  {
  }

  lemma UnstrandAligned(reserved: map<SampleKey, BufferSlot>, queue: seq<BufferSlot>, names: seq<SampleKey>,
                        key: SampleKey)
    requires Aligned(reserved, queue, names) && key !in names
    ensures Aligned(reserved - {key}, queue, names)
  {
  }

  lemma UnstrandOk(reserved: map<SampleKey, SlotState>, q: QueueView, key: SampleKey)
    requires QueueOk(reserved, q) && key in q.stranded
    ensures QueueOk(reserved - {key}, q.(stranded := q.stranded - {key}))
  {
  }

  /** What a received segment does to buffer and queue, by the state of its slot. */
  function NewData(v: BufferView, q: QueueView, s: SlotState): (BufferView, QueueView)
    requires s.name.Some? && |q.names| == |q.times|
  {
    if !s.state.Ready? then (v, q)
    else if Header(s).None? then (ReserveView(v, s.name.value), Strand(q, s.name.value))
    else (ReserveView(v, s.name.value), Enqueue(Strand(q, s.name.value), s.name.value, Stamp(s)))
  }

  function PopView(v: BufferView, name: SampleKey): BufferView
  {
    ReleaseView(ObsoleteView(v, name), name)
  }
}
