/**
 The frame buffer: a pool of slots, the slots being assembled, and the slots reserved for playback.

 Slots are objects that move between the three places. `Buffer.Valid` says that no slot is in two of them;
 `View` abstracts from the objects, and every method is proved against a function on views. Observers are
 called by whoever calls `Received` (see PlaybackQueue), locks and statistics other than the drop counters
 are not modelled.
 */
module FrameBuffer {
  import opened BufferSlots
  import opened Options

  /** Canonical order of sample names: by thread, delta before key, then by number. */
  predicate Before(a: SampleKey, b: SampleKey)
  {
    a.thread < b.thread
    || (a.thread == b.thread && !a.isKey && b.isKey)
    || (a.thread == b.thread && a.isKey == b.isKey && a.no < b.no)
  }

  // ---------- views and what the operations do to them ----------

  datatype Drops = Drops(dropped: nat, incomplete: nat, droppedKey: nat, incompleteKey: nat)

  datatype BufferView = BufferView(active: map<SampleKey, SlotState>, reserved: map<SampleKey, SlotState>,
                       free: nat, drops: Drops)

  predicate Unfinished(s: State)
  {
    s.Free? || s.New? || s.Assembling?
  }

  datatype RequestResult = Filed | NoFreeSlot | Threw

  function SetActive(v: BufferView, key: SampleKey, s: SlotState): BufferView
  {
    v.(active := v.active[key := s])
  }

  function TakeView(v: BufferView, key: SampleKey): BufferView
    requires v.free > 0
  {
    v.(active := v.active[key := CLEARED], free := v.free - 1)
  }

  function RequestView(v: BufferView, key: SampleKey, interests: seq<Interest>): (BufferView, RequestResult)
  {
    if key !in v.active && v.free == 0 then (v, NoFreeSlot)
    else
      var w := if key in v.active then v else TakeView(v, key);
      var (slot, ok) := Request(w.active[key], interests);
      (SetActive(w, key, slot), if ok then Filed else Threw)
  }

  /** The slot is unchanged where the source throws, so the view is too. */
  function ReceiveView(v: BufferView, seg: WireSegment): (BufferView, Reception)
  {
    if seg.sample !in v.active then (v, Refused)
    else
      var (slot', r) := Receive(v.active[seg.sample], seg);
      (SetActive(v, seg.sample, slot'), r)
  }

  /** What `toggleLock` leaves of a slot, where it throws too. */
  function Swapped(s: SlotState): SlotState
  {
    if Toggled(s).Some? then Toggled(s).value else s
  }

  function ReserveView(v: BufferView, key: SampleKey): BufferView
  {
    if key !in v.active then v
    else v.(reserved := v.reserved[key := Swapped(v.active[key])], active := v.active - {key})
  }

  function ReleaseView(v: BufferView, key: SampleKey): BufferView
  {
    if key !in v.reserved then v else v.(reserved := v.reserved - {key}, free := v.free + 1)
  }

  function ResetView(v: BufferView): BufferView
  {
    v.(active := map[], free := v.free + |v.active|)
  }

  /** The class counted is the one the slot learned from a name; a slot that never got one is not a key. */
  predicate HoldsKey(s: SlotState)
  {
    s.name.Some? && s.name.value.isKey
  }

  function CountDrop(d: Drops, s: SlotState): Drops
  {
    Drops(d.dropped + 1,
          if Unfinished(s.state) then d.incomplete + 1 else d.incomplete,
          if HoldsKey(s) then d.droppedKey + 1 else d.droppedKey,
          if HoldsKey(s) && Unfinished(s.state) then d.incompleteKey + 1 else d.incompleteKey)
  }

  function DropView(v: BufferView, key: SampleKey): BufferView
    requires key in v.active
  {
    v.(active := v.active - {key}, free := v.free + 1, drops := CountDrop(v.drops, v.active[key]))
  }

  /** The active samples whose names come before `key`. */
  function Older(v: BufferView, key: SampleKey): set<SampleKey>
  {
    set k | k in v.active && Before(k, key)
  }

  function Late(v: BufferView, keys: set<SampleKey>): set<SampleKey>
  {
    set k | k in keys && k in v.active && Unfinished(v.active[k].state)
  }

  function KeyFrames(v: BufferView, keys: set<SampleKey>): set<SampleKey>
  {
    set k | k in keys && k in v.active && HoldsKey(v.active[k])
  }

  /** Dropping all of `keys` at once. */
  function DropAllView(v: BufferView, keys: set<SampleKey>): BufferView
    requires keys <= v.active.Keys
  {
    v.(active := v.active - keys, free := v.free + |keys|, drops := DropCounts(v, keys))
  }

  function DropCounts(v: BufferView, keys: set<SampleKey>): Drops
  {
    Drops(v.drops.dropped + |keys|,
          v.drops.incomplete + |Late(v, keys)|,
          v.drops.droppedKey + |KeyFrames(v, keys)|,
          v.drops.incompleteKey + |Late(v, keys) * KeyFrames(v, keys)|)
  }

  function Total(v: BufferView): nat
  {
    v.free + |v.active| + |v.reserved|
  }

  // ---------- runs: conservation ----------

  datatype Op =
    | OpRequest(key: SampleKey, interests: seq<Interest>)
    | OpReceive(seg: WireSegment)
    | OpReserve(key: SampleKey)
    | OpRelease(key: SampleKey)
    | OpDropOlder(key: SampleKey)
    | OpReset

  function Apply(v: BufferView, op: Op): BufferView
  {
    match op
    case OpRequest(key, interests) => RequestView(v, key, interests).0
    case OpReceive(seg) => ReceiveView(v, seg).0
    case OpReserve(key) => ReserveView(v, key)
    case OpRelease(key) => ReleaseView(v, key)
    case OpDropOlder(key) => DropAllView(v, Older(v, key))
    case OpReset => ResetView(v)
  }

  /** A reservation that replaces an earlier one: the slot reserved before is forgotten. */
  predicate Overwrites(v: BufferView, op: Op)
  {
    op.OpReserve? && op.key in v.active && op.key in v.reserved
  }

  function RunOps(v: BufferView, ops: seq<Op>): BufferView
    decreases |ops|
  {
    if ops == [] then v else RunOps(Apply(v, ops[0]), ops[1..])
  }

  function Overwritten(v: BufferView, ops: seq<Op>): nat
    decreases |ops|
  {
    if ops == [] then 0
    else (if Overwrites(v, ops[0]) then 1 else 0) + Overwritten(Apply(v, ops[0]), ops[1..])
  }

  lemma MapRemoveSize<K, V>(m: map<K, V>, keys: set<K>)
    requires keys <= m.Keys
    ensures |m - keys| == |m| - |keys|
  {
  }

  lemma MapUpdateSize<K, V>(m: map<K, V>, k: K, v: V)
    ensures |m[k := v]| == |m| + (if k in m then 0 else 1)
  {
  }

  lemma SetConserves(v: BufferView, key: SampleKey, s: SlotState)
    requires key in v.active
    ensures Total(SetActive(v, key, s)) == Total(v)
  {
    MapUpdateSize(v.active, key, s);
  }

  lemma RequestConserves(v: BufferView, key: SampleKey, interests: seq<Interest>)
    ensures Total(RequestView(v, key, interests).0) == Total(v)
  {
    if key in v.active {
      SetConserves(v, key, Request(v.active[key], interests).0);
    } else if v.free > 0 {
      MapUpdateSize(v.active, key, CLEARED);
      SetConserves(TakeView(v, key), key, Request(CLEARED, interests).0);
    }
  }

  lemma ReserveConserves(v: BufferView, key: SampleKey)
    ensures Total(ReserveView(v, key)) + (if key in v.active && key in v.reserved then 1 else 0) == Total(v)
  {
    if key in v.active {
      MapRemoveSize(v.active, {key});
      MapUpdateSize(v.reserved, key, Swapped(v.active[key]));
    }
  }

  lemma ReleaseConserves(v: BufferView, key: SampleKey)
    ensures Total(ReleaseView(v, key)) == Total(v)
  {
    if key in v.reserved {
      MapRemoveSize(v.reserved, {key});
    }
  }

  /** One operation keeps the number of slots, unless it reserves a sample that is reserved already. */
  lemma StepConserves(v: BufferView, op: Op)
    ensures Total(Apply(v, op)) + (if Overwrites(v, op) then 1 else 0) == Total(v)
  {
    match op
    case OpRequest(key, interests) => RequestConserves(v, key, interests);
    case OpReceive(seg) =>
      if seg.sample in v.active {
        SetConserves(v, seg.sample, Receive(v.active[seg.sample], seg).0);
      }
    case OpReserve(key) => ReserveConserves(v, key);
    case OpRelease(key) => ReleaseConserves(v, key);
    case OpDropOlder(key) => DropAllTotal(v, Older(v, key));
    case OpReset =>
  }

  /**
   Over any run, the slots in the three places and the reservations overwritten on the way add up to what
   there was at the start: a slot is lost exactly when a reserved sample is assembled and reserved again.
   */
  lemma {:induction false} RunsConserveSlots(v: BufferView, ops: seq<Op>)
    ensures Total(RunOps(v, ops)) + Overwritten(v, ops) == Total(v)
    decreases |ops|
  {
    if ops == [] {
    } else {
      StepConserves(v, ops[0]);
      RunsConserveSlots(Apply(v, ops[0]), ops[1..]);
    }
  }

  /**
   Such a run exists: `requested` looks only among the active slots, so a request for a reserved sample takes
   a second slot, and when that one is reserved the first is gone.
   */
  lemma LateRequestLosesASlot(v: BufferView, key: SampleKey, seg: WireSegment)
    requires key in v.reserved && key !in v.active && v.free > 0
    requires seg.sample == key && seg.seg == DataSeg(0) && seg.finalBlock == 0
    ensures var ops := [OpRequest(key, [Interest(key, Some(DataSeg(0)))]), OpReceive(seg), OpReserve(key)];
      Overwritten(v, ops) == 1 && Total(RunOps(v, ops)) == Total(v) - 1
  {
    var i := Interest(key, Some(DataSeg(0)));
    var ops := [OpRequest(key, [i]), OpReceive(seg), OpReserve(key)];
    var v1 := Apply(v, ops[0]);
    assert AddInterests(CLEARED, [i]).0 == AddInterest(CLEARED, i).value by {
      assert [i][1..] == [];
    }
    assert key in v1.active && key in v1.reserved;
    var v2 := Apply(v1, ops[1]);
    assert ops[1..][1..] == ops[2..] && ops[2..][1..] == [];
    assert Overwritten(v2, ops[2..]) == 1;
    assert Overwritten(v1, ops[1..]) == 1;
    RunsConserveSlots(v, ops);
  }

  // ---------- dropping what is older ----------

  lemma DropOne(v: BufferView, keys: set<SampleKey>, k: SampleKey)
    requires keys <= v.active.Keys && k in v.active && k !in keys
    ensures k in DropAllView(v, keys).active
    ensures DropView(DropAllView(v, keys), k) == DropAllView(v, keys + {k})
  {
    assert v.active - keys - {k} == v.active - (keys + {k});
    CountOne(v, keys, k);
  }

  lemma CountOne(v: BufferView, keys: set<SampleKey>, k: SampleKey)
    requires keys <= v.active.Keys && k in v.active && k !in keys
    ensures CountDrop(DropCounts(v, keys), v.active[k]) == DropCounts(v, keys + {k})
  {
    var late, key := Late(v, keys), KeyFrames(v, keys);
    AddOne(late, Late(v, keys + {k}), k, Unfinished(v.active[k].state));
    AddOne(key, KeyFrames(v, keys + {k}), k, HoldsKey(v.active[k]));
    AddOne(late * key, Late(v, keys + {k}) * KeyFrames(v, keys + {k}), k,
           Unfinished(v.active[k].state) && HoldsKey(v.active[k]));
  }

  lemma AddOne<T>(s: set<T>, t: set<T>, k: T, added: bool)
    requires k !in s && (forall x :: x in t <==> x in s || (x == k && added))
    ensures |t| == if added then |s| + 1 else |s|
  {
    assert t == if added then s + {k} else s;
  }

  /** While a slot is filed there is room for it in the pool. */
  lemma RoomForReserved(v: BufferView, key: SampleKey)
    requires key in v.reserved
    ensures v.free < Total(v)
  {
  }

  lemma RoomForActive(v: BufferView, key: SampleKey)
    requires key in v.active
    ensures v.free < Total(v) && |v.active - {key}| == |v.active| - 1
  {
  }

  lemma DropAllTotal(v: BufferView, keys: set<SampleKey>)
    requires keys <= v.active.Keys
    ensures Total(DropAllView(v, keys)) == Total(v)
  {
  }

  /** A sample that is still active and older can be dropped next, and there is room for its slot. */
  lemma NextOlder(v: BufferView, done: set<SampleKey>, key: SampleKey, k: SampleKey)
    requires done <= Older(v, key) && k in DropAllView(v, done).active && Before(k, key)
    ensures k !in done && done + {k} <= Older(v, key)
    ensures DropView(DropAllView(v, done), k) == DropAllView(v, done + {k})
    ensures DropAllView(v, done).free < Total(v)
  {
    DropOne(v, done, k);
    DropAllTotal(v, done);
    MapRemoveSize(DropAllView(v, done).active, {k});
  }

  lemma AllOlderDropped(v: BufferView, done: set<SampleKey>, key: SampleKey)
    requires done <= Older(v, key)
    requires forall k | k in DropAllView(v, done).active :: !Before(k, key)
    ensures done == Older(v, key)
  {
  }

  lemma DropNone(v: BufferView)
    ensures DropAllView(v, {}) == v
  {
  }

  /**
   Dropping what is older than delta frame `key` removes exactly the active delta frames of the same thread
   with smaller numbers, and keeps every key frame, if and only if no thread that sorts before this one has
   an active sample: a slot of such a thread goes whatever it holds.
   */
  lemma OlderThanDelta(v: BufferView, key: SampleKey)
    requires !key.isKey
    requires forall k | k in v.active :: v.active[k].name in {None, Some(k)}
    ensures Older(v, key) == (set k | k in v.active && k.thread == key.thread && !k.isKey && k.no < key.no)
            <==> forall k | k in v.active :: k.thread >= key.thread
    ensures (forall k | k in v.active :: k.thread >= key.thread) ==>
              && KeyFrames(v, Older(v, key)) == {}
              && DropAllView(v, Older(v, key)).drops.droppedKey == v.drops.droppedKey
              && DropAllView(v, Older(v, key)).drops.incompleteKey == v.drops.incompleteKey
  {
    var expected := set k | k in v.active && k.thread == key.thread && !k.isKey && k.no < key.no;
    if k :| k in v.active && k.thread < key.thread {
      assert k in Older(v, key) && k !in expected;
    } else {
      assert Older(v, key) == expected;
      assert KeyFrames(v, Older(v, key)) == {};
    }
  }

  // ---------- the pool ----------

  class SlotPool {
    const capacity: nat
    var pool: seq<BufferSlot>

    constructor (capacity: nat)
      ensures this.capacity == capacity && |pool| == capacity
      ensures forall i | 0 <= i < |pool| :: fresh(pool[i]) && pool[i].s == CLEARED
      ensures forall i, j | 0 <= i < j < |pool| :: pool[i] != pool[j]
    {
      this.capacity := capacity;
      pool := [];
      new;
      for i := 0 to capacity
        invariant |pool| == i
        invariant forall k | 0 <= k < |pool| :: fresh(pool[k]) && pool[k].s == CLEARED
        invariant forall k, j | 0 <= k < j < |pool| :: pool[k] != pool[j]
      {
        var slot := new BufferSlot();
        pool := pool + [slot];
      }
    }

    /** Takes the slot at the back, null when there is none. */
    method Pop() returns (slot: BufferSlot?)
      modifies this
      ensures old(pool) == [] ==> slot == null && pool == []
      ensures old(pool) != [] ==> slot == old(pool)[|old(pool)| - 1] && pool == old(pool)[..|old(pool)| - 1]
    {
      if |pool| > 0 {
        slot := pool[|pool| - 1];
        pool := pool[..|pool| - 1];
      } else {
        slot := null;
      }
    }

    /** Clears the slot and takes it in; refuses it, uncleared, when the pool is full. */
    method Push(slot: BufferSlot) returns (ok: bool)
      modifies this, slot
      ensures ok == (|old(pool)| < capacity)
      ensures ok ==> pool == old(pool) + [slot] && slot.s == CLEARED
      ensures !ok ==> pool == old(pool) && slot.s == old(slot.s)
    {
      if |pool| < capacity {
        slot.Clear();
        pool := pool + [slot];
        return true;
      }
      return false;
    }
  }

  // ---------- the buffer ----------

  datatype Receipt =
    | Receipt(slot: BufferSlot, oldState: State, reception: Reception)
    | NotRequested

  /** An active slot carries the name it is filed under, or none if the request that took it failed. */
  ghost predicate ActiveOk(k: SampleKey, s: SlotState)
  {
    && SlotInv(s)
    && !s.state.Locked?
    && (s.name == Some(k) || s == CLEARED)
  }

  ghost predicate ReservedOk(k: SampleKey, s: SlotState)
  {
    && SlotInv(s)
    && s.state.Locked?
    && s.name == Some(k)
  }

  ghost predicate ViewOk(v: BufferView, capacity: nat)
  {
    && (forall k | k in v.active :: ActiveOk(k, v.active[k]))
    && (forall k | k in v.reserved :: ReservedOk(k, v.reserved[k]))
    && Total(v) <= capacity
  }

  /** The one place a slot object is in. */
  datatype Place = InPool(i: nat) | InActive(key: SampleKey) | InReserved(key: SampleKey)

  class Buffer {
    const pool: SlotPool
    var active: map<SampleKey, BufferSlot>
    var reserved: map<SampleKey, BufferSlot>
    var drops: Drops

    ghost var home: map<BufferSlot, Place>
    ghost var view: BufferView

    /**
     Every slot of the buffer has one place, pool slots are clear, and the view is up to date. (That `ViewOk`
     holds of the view is kept by what the methods do to it.)
     */
    ghost predicate Valid()
      reads this, pool, pool.pool, active.Values, reserved.Values
    {
      Coherent()
    }

    ghost predicate Coherent()
      reads this, pool, pool.pool, active.Values, reserved.Values
    {
      && (forall i | 0 <= i < |pool.pool| ::
            var slot := pool.pool[i];
            slot in home && home[slot] == InPool(i) && slot.s == CLEARED)
      && (forall k | k in active ::
            var slot := active[k];
            slot in home && home[slot] == InActive(k) && k in view.active && slot.s == view.active[k])
      && (forall k | k in reserved ::
            var slot := reserved[k];
            slot in home && home[slot] == InReserved(k) && k in view.reserved && slot.s == view.reserved[k])
      && view.active.Keys == active.Keys
      && view.reserved.Keys == reserved.Keys
      && view.free == |pool.pool|
      && view.drops == drops
    }

    /** No slot object is in two places, or filed twice in one of them. */
    lemma PlacesAreSeparate()
      requires Valid()
      ensures forall i, j | 0 <= i < j < |pool.pool| :: pool.pool[i] != pool.pool[j]
      ensures forall k, j | k in active && j in active && k != j :: active[k] != active[j]
      ensures forall k, j | k in reserved && j in reserved && k != j :: reserved[k] != reserved[j]
      ensures forall k, j | k in active && j in reserved :: active[k] != reserved[j]
      ensures forall k | k in active :: active[k] !in pool.pool
      ensures forall k | k in reserved :: reserved[k] !in pool.pool
    {
    }

    constructor (pool: SlotPool)
      requires forall i | 0 <= i < |pool.pool| :: pool.pool[i].s == CLEARED
      requires forall i, j | 0 <= i < j < |pool.pool| :: pool.pool[i] != pool.pool[j]
      requires |pool.pool| <= pool.capacity
      ensures Valid() && this.pool == pool && pool.pool == old(pool.pool)
      ensures view == BufferView(map[], map[], |pool.pool|, Drops(0, 0, 0, 0))
      ensures ViewOk(view, pool.capacity)
    {
      this.pool := pool;
      active := map[];
      reserved := map[];
      drops := Drops(0, 0, 0, 0);
      view := BufferView(map[], map[], |pool.pool|, Drops(0, 0, 0, 0));
      home := map[];
      new;
      for i := 0 to |pool.pool|
        invariant pool.pool == old(pool.pool) && active == map[] && reserved == map[]
        invariant view == BufferView(map[], map[], |pool.pool|, drops)
        invariant forall j | 0 <= j < i :: pool.pool[j] in home && home[pool.pool[j]] == InPool(j)
      {
        home := home[pool.pool[i] := InPool(i)];
      }
    }

    /** The slots that requests may touch. */
    ghost function Movable(): set<BufferSlot>
      reads this, pool
    {
      active.Values + set s | s in pool.pool
    }

    /** Takes a slot out of the pool and files it, still clear, under `key`. */
    method TakeSlot(key: SampleKey)
      requires Valid() && key !in active && pool.pool != []
      modifies this`active, this`view, this`home, pool
      ensures Valid() && view == TakeView(old(view), key)
      ensures key in active && active[key] in old(pool.pool) && active == old(active)[key := active[key]]
      ensures Movable() <= old(Movable())
    {
      var slot := pool.Pop();
      active := active[key := slot];
      home := home[slot := InActive(key)];
      view := TakeView(view, key);
    }

    /** Adds Interests to a slot that is filed already. */
    method RequestFiled(key: SampleKey, interests: seq<Interest>) returns (ok: bool)
      requires Valid() && key in active
      modifies this`view, active[key]
      ensures Valid() && ok == Request(old(view).active[key], interests).1
      ensures view == SetActive(old(view), key, Request(old(view).active[key], interests).0)
    {
      ghost var slot := Request(view.active[key], interests).0;
      ok := active[key].SegmentsRequested(interests);
      view := SetActive(view, key, slot);
    }

    /** One sample's part of `requested`: find the slot or take one from the pool, then add the Interests. */
    method RequestSample(key: SampleKey, interests: seq<Interest>) returns (r: RequestResult)
      requires Valid()
      modifies this`active, this`view, this`home, pool, pool.pool, active.Values
      ensures Valid() && (view, r) == RequestView(old(view), key, interests)
      ensures Movable() <= old(Movable())
    {
      if key !in active {
        if |pool.pool| == 0 {
          return NoFreeSlot;
        }
        TakeSlot(key);
      }
      var ok := RequestFiled(key, interests);
      r := if ok then Filed else Threw;
    }

    /**
     `requested`: groups the Interests by sample and serves the groups one after the other, each once,
     stopping at the first that finds no slot or is refused. The groups may come in any order here; `ops`
     records it.
     */
    method Requested(interests: seq<Interest>) returns (r: RequestResult, ghost ops: seq<Op>)
      requires Valid()
      modifies this`active, this`view, this`home, pool, pool.pool, active.Values
      ensures Valid() && view == RunOps(old(view), ops)
      ensures forall i | 0 <= i < |ops| ::
                ops[i].OpRequest? && ops[i].interests == OfSample(interests, ops[i].key) != []
      ensures forall i, j | 0 <= i < j < |ops| :: ops[i].key != ops[j].key
      ensures StoppedAt(old(view), ops, r)
      ensures r.Filed? ==> forall i | 0 <= i < |interests| :: interests[i].sample in Served(ops)
    {
      var groups := GroupBySample(interests);
      r, ops := ServeGroups(groups);
    }

    method ServeGroups(groups: map<SampleKey, seq<Interest>>) returns (r: RequestResult, ghost ops: seq<Op>)
      requires Valid()
      modifies this`active, this`view, this`home, pool, pool.pool, active.Values
      ensures Valid() && view == RunOps(old(view), ops)
      ensures exists left :: ServedFrom(ops, groups, left) && (r.Filed? ==> left == {})
      ensures StoppedAt(old(view), ops, r)
    {
      ops := [];
      r := Filed;
      var todo := groups.Keys;
      while todo != {}
        invariant Valid() && view == RunOps(old(view), ops)
        invariant Movable() <= old(Movable())
        invariant todo <= groups.Keys && ServedFrom(ops, groups, todo)
        invariant r.Filed? && StoppedAt(old(view), ops, r)
        decreases todo
      {
        var k :| k in todo;
        assert active.Values <= Movable() && forall s | s in pool.pool :: s in Movable();
        StoppedNext(old(view), ops, OpRequest(k, groups[k]));
        r := RequestSample(k, groups[k]);
        RunAppend(old(view), ops, OpRequest(k, groups[k]));
        ServedNext(ops, groups, k, todo);
        ops, todo := ops + [OpRequest(k, groups[k])], todo - {k};
        if !r.Filed? {
          return;
        }
      }
    }

    /** Hands a segment to its slot. `NotRequested` and a refused segment are where the source throws. */
    method Received(seg: WireSegment) returns (receipt: Receipt)
      requires Valid()
      modifies this`view, active.Values
      ensures Valid() && view == ReceiveView(old(view), seg).0
      ensures receipt.NotRequested? <==> seg.sample !in active
      ensures receipt.Receipt? ==>
                && receipt.slot == active[seg.sample]
                && receipt.oldState == old(view).active[seg.sample].state
                && receipt.reception == ReceiveView(old(view), seg).1
    {
      if seg.sample !in active {
        return NotRequested;
      }
      var slot := active[seg.sample];
      var oldState := slot.s.state;
      ghost var after := Receive(slot.s, seg).0;
      var reception := slot.SegmentReceived(seg);
      view := SetActive(view, seg.sample, after);
      receipt := Receipt(slot, oldState, reception);
    }

    /** Takes a slot off the active map and pushes it into the pool. */
    method ReturnActive(key: SampleKey)
      requires Valid() && key in active && |pool.pool| < pool.capacity
      modifies this`active, this`view, this`home, pool, active[key]
      ensures Valid() && view == old(view).(active := old(view).active - {key}, free := old(view).free + 1)
      ensures active == old(active) - {key}
    {
      var slot := active[key];
      active := active - {key};
      view := view.(active := view.active - {key});
      GiveBack(slot);
    }

    /** Pushes a slot that is in none of the three places into the pool, where there is room for it. */
    method GiveBack(slot: BufferSlot)
      requires Valid() && |pool.pool| < pool.capacity
      requires slot !in pool.pool && slot !in active.Values && slot !in reserved.Values
      modifies this`view, this`home, pool, slot
      ensures Valid() && view == old(view).(free := old(view).free + 1)
    {
      view := view.(free := view.free + 1);
      home := home[slot := InPool(|pool.pool|)];
      var ok := pool.Push(slot);
    }

    /** Drops one active sample: it is counted, and its slot goes back to the pool. */
    method Invalidate(key: SampleKey)
      requires Valid() && key in active && |pool.pool| < pool.capacity
      modifies this`active, this`view, this`home, this`drops, pool, active[key]
      ensures Valid() && view == DropView(old(view), key)
      ensures active == old(active) - {key}
    {
      drops := CountDrop(drops, active[key].s);
      view := view.(drops := drops);
      ReturnActive(key);
    }

    /** Drops every active sample that comes before `key`. */
    method InvalidatePrevious(key: SampleKey)
      requires Valid() && Total(view) <= pool.capacity
      modifies this`active, this`view, this`home, this`drops, pool, active.Values
      ensures Valid() && view == DropAllView(old(view), Older(old(view), key))
    {
      ghost var before := view;
      ghost var done: set<SampleKey> := {};
      DropNone(before);
      while exists k :: k in active && Before(k, key)
        invariant Valid() && active.Values <= old(active.Values)
        invariant done <= Older(before, key) && view == DropAllView(before, done)
        decreases active.Keys
      {
        var k :| k in active && Before(k, key);
        NextOlder(before, done, key, k);
        Invalidate(k);
        done := done + {k};
      }
      AllOlderDropped(before, done, key);
    }

    /**
     Moves a slot from the active map to the reserved one and locks it. `ok` is false where locking throws, after
     the slot has been moved: it was not ready.
     */
    method ReserveSlot(key: SampleKey) returns (ok: bool)
      requires Valid()
      modifies this`active, this`reserved, this`view, this`home, active.Values
      ensures Valid() && view == ReserveView(old(view), key)
      ensures key in old(active) ==> reserved == old(reserved)[key := old(active)[key]]
      ensures key !in old(active) ==> reserved == old(reserved)
      ensures ok <==> key in old(active) ==> Toggled(old(view).active[key]).Some?
    {
      ok := true;
      if key in active {
        var slot := active[key];
        reserved := reserved[key := slot];
        active := active - {key};
        home := home[slot := InReserved(key)];
        view := ReserveView(view, key);
        ok := slot.ToggleLock();
      }
    }

    /** Returns a reserved slot to the pool. */
    method ReleaseSlot(key: SampleKey)
      requires Valid() && Total(view) <= pool.capacity
      modifies this`reserved, this`view, this`home, pool, reserved.Values
      ensures Valid() && view == ReleaseView(old(view), key)
      ensures reserved == if key in old(reserved) then old(reserved) - {key} else old(reserved)
    {
      if key in reserved {
        RoomForReserved(view, key);
        ReturnReserved(key);
      }
    }

    method ReturnReserved(key: SampleKey)
      requires Valid() && key in reserved && |pool.pool| < pool.capacity
      modifies this`reserved, this`view, this`home, pool, reserved[key]
      ensures Valid() && view == ReleaseView(old(view), key)
      ensures reserved == old(reserved) - {key}
    {
      var slot := reserved[key];
      reserved := reserved - {key};
      view := view.(reserved := view.reserved - {key});
      GiveBack(slot);
    }

    /** Returns all active slots to the pool; reserved ones stay. */
    method Reset()
      requires Valid() && Total(view) <= pool.capacity
      modifies this`active, this`view, this`home, pool, active.Values
      ensures Valid() && view == ResetView(old(view))
    {
      while active != map[]
        invariant Valid() && active.Values <= old(active.Values)
        invariant view.reserved == old(view).reserved && view.drops == old(view).drops
        invariant view.free + |view.active| == old(view).free + |old(view).active|
        decreases active.Keys
      {
        var k :| k in active;
        RoomForActive(view, k);
        ReturnActive(k);
      }
    }
  }

  // ---------- grouping Interests by sample ----------

  function OfSample(interests: seq<Interest>, key: SampleKey): seq<Interest>
  {
    if interests == [] then []
    else
      var rest := OfSample(interests[..|interests| - 1], key);
      if interests[|interests| - 1].sample == key then rest + [interests[|interests| - 1]] else rest
  }

  ghost predicate Grouped(groups: map<SampleKey, seq<Interest>>, interests: seq<Interest>)
  {
    && (forall k :: k in groups <==> OfSample(interests, k) != [])
    && (forall k | k in groups :: groups[k] == OfSample(interests, k))
    && (forall i | 0 <= i < |interests| :: interests[i].sample in groups)
  }

  method GroupBySample(interests: seq<Interest>) returns (groups: map<SampleKey, seq<Interest>>)
    ensures Grouped(groups, interests)
  {
    groups := map[];
    for n := 0 to |interests|
      invariant Grouped(groups, interests[..n])
    {
      GroupOne(groups, interests[..n], interests[n]);
      assert interests[..n + 1] == interests[..n] + [interests[n]];
      groups := Joined(groups, interests[n]);
    }
    assert interests[..|interests|] == interests;
  }

  /** One more Interest, behind those of its sample. */
  function Joined(groups: map<SampleKey, seq<Interest>>, i: Interest): map<SampleKey, seq<Interest>>
  {
    groups[i.sample := (if i.sample in groups then groups[i.sample] else []) + [i]]
  }

  lemma GroupOne(groups: map<SampleKey, seq<Interest>>, interests: seq<Interest>, i: Interest)
    requires Grouped(groups, interests)
    ensures Grouped(Joined(groups, i), interests + [i])
  {
  }

  function Served(ops: seq<Op>): set<SampleKey>
  {
    set op | op in ops && op.OpRequest? :: op.key
  }

  /** Only groups have been served, each once, and all of them but those left. */
  ghost predicate ServedFrom(ops: seq<Op>, groups: map<SampleKey, seq<Interest>>, left: set<SampleKey>)
  {
    && (forall i | 0 <= i < |ops| ::
          ops[i].OpRequest? && ops[i].key in groups && ops[i].interests == groups[ops[i].key] && ops[i].key !in left)
    && (forall i, j | 0 <= i < j < |ops| :: ops[i].key != ops[j].key)
    && groups.Keys <= Served(ops) + left
  }

  /** How the buffer answers the request `ops[i]`, after those before it. */
  function Answer(v: BufferView, ops: seq<Op>, i: nat): RequestResult
    requires i < |ops| && ops[i].OpRequest?
  {
    RequestView(RunOps(v, ops[..i]), ops[i].key, ops[i].interests).1
  }

  /** Every request but the last was filed, and the last one was answered by `r`. */
  ghost predicate StoppedAt(v: BufferView, ops: seq<Op>, r: RequestResult)
  {
    && (forall i | 0 <= i < |ops| :: ops[i].OpRequest?)
    && (forall i | 0 <= i < |ops| :: Answer(v, ops, i) == if i == |ops| - 1 then r else Filed)
    && (ops == [] ==> r == Filed)
  }

  lemma StoppedNext(v: BufferView, ops: seq<Op>, op: Op)
    requires StoppedAt(v, ops, Filed) && op.OpRequest?
    ensures StoppedAt(v, ops + [op], RequestView(RunOps(v, ops), op.key, op.interests).1)
  {
    var more := ops + [op];
    forall i | 0 <= i < |ops| ensures Answer(v, more, i) == Answer(v, ops, i) {
      assert more[..i] == ops[..i];
    }
    assert more[..|ops|] == ops;
  }

  lemma ServedNext(ops: seq<Op>, groups: map<SampleKey, seq<Interest>>, k: SampleKey, left: set<SampleKey>)
    requires ServedFrom(ops, groups, left) && k in groups && k in left
    ensures ServedFrom(ops + [OpRequest(k, groups[k])], groups, left - {k})
  {
    var op := OpRequest(k, groups[k]);
    var more := ops + [op];
    assert op in more && op.key in Served(more);
    forall j | j in Served(ops) ensures j in Served(more) {
      var o :| o in ops && o.OpRequest? && o.key == j;
      assert o in more;
    }
  }

  lemma {:induction false} RunAppend(v: BufferView, ops: seq<Op>, op: Op)
    ensures RunOps(v, ops + [op]) == Apply(RunOps(v, ops), op)
    decreases |ops|
  {
    if ops == [] {
      assert ops + [op] == [op] && [op][1..] == [];
    } else {
      assert (ops + [op])[1..] == ops[1..] + [op];
      RunAppend(Apply(v, ops[0]), ops[1..], op);
    }
  }

  // ---------- the operations keep views in order ----------

  lemma RequestKeepsOk(v: BufferView, capacity: nat, key: SampleKey, interests: seq<Interest>)
    requires ViewOk(v, capacity) && forall i | 0 <= i < |interests| :: interests[i].sample == key
    ensures ViewOk(RequestView(v, key, interests).0, capacity)
  {
    StepConserves(v, OpRequest(key, interests));
    ClearedInv();
    RequestOk(key, if key in v.active then v.active[key] else CLEARED, interests);
  }

  /** The source only reserves a slot that is ready, and files Interests under their own sample. */
  predicate Allowed(v: BufferView, op: Op)
  {
    match op
    case OpRequest(key, interests) => forall i | 0 <= i < |interests| :: interests[i].sample == key
    case OpReserve(key) => key in v.active ==> v.active[key].state.Ready?
    case _ => true
  }

  predicate AllowedRun(v: BufferView, ops: seq<Op>)
    decreases |ops|
  {
    ops == [] || (Allowed(v, ops[0]) && AllowedRun(Apply(v, ops[0]), ops[1..]))
  }

  lemma StepKeepsOk(v: BufferView, capacity: nat, op: Op)
    requires ViewOk(v, capacity) && Allowed(v, op)
    ensures ViewOk(Apply(v, op), capacity)
  {
    match op
    case OpRequest(key, interests) => RequestKeepsOk(v, capacity, key, interests);
    case OpReceive(seg) => ReceiveKeepsOk(v, capacity, seg);
    case OpReserve(key) => ReserveKeepsOk(v, capacity, key);
    case OpRelease(key) => StepConserves(v, op);
    case OpDropOlder(key) => StepConserves(v, op);
    case OpReset => StepConserves(v, op);
  }

  lemma ReceiveKeepsOk(v: BufferView, capacity: nat, seg: WireSegment)
    requires ViewOk(v, capacity)
    ensures ViewOk(ReceiveView(v, seg).0, capacity)
  {
    StepConserves(v, OpReceive(seg));
    if seg.sample in v.active {
      ReceivedOk(seg.sample, v.active[seg.sample], seg);
      PutActive(v, capacity, seg.sample, Receive(v.active[seg.sample], seg).0);
    }
  }

  lemma ReceivedOk(key: SampleKey, s: SlotState, seg: WireSegment)
    requires ActiveOk(key, s)
    ensures ActiveOk(key, Receive(s, seg).0)
  {
    ReceiveInv(s, seg);
  }

  lemma PutActive(v: BufferView, capacity: nat, key: SampleKey, s: SlotState)
    requires ViewOk(v, capacity) && ActiveOk(key, s) && Total(SetActive(v, key, s)) <= capacity
    ensures ViewOk(SetActive(v, key, s), capacity)
  {
  }

  lemma ReserveKeepsOk(v: BufferView, capacity: nat, key: SampleKey)
    requires ViewOk(v, capacity) && (key in v.active ==> v.active[key].state.Ready?)
    ensures ViewOk(ReserveView(v, key), capacity)
  {
    StepConserves(v, OpReserve(key));
    if key in v.active {
      LockedOk(key, v.active[key]);
      PutReserved(v, capacity, key, v.active[key].(state := Locked));
    }
  }

  lemma PutReserved(v: BufferView, capacity: nat, key: SampleKey, s: SlotState)
    requires ViewOk(v, capacity) && ReservedOk(key, s)
    requires Total(v.(reserved := v.reserved[key := s], active := v.active - {key})) <= capacity
    ensures ViewOk(v.(reserved := v.reserved[key := s], active := v.active - {key}), capacity)
  {
  }

  lemma LockedOk(key: SampleKey, s: SlotState)
    requires ActiveOk(key, s) && s.state.Ready?
    ensures ReservedOk(key, s.(state := Locked))
  {
  }

  /**
   In every reachable state active slots are filed under their own name, reserved ones are locked, and the
   three places together hold no more slots than the pool was made with, so that `push` never refuses one.
   */
  lemma {:induction false} RunsKeepOk(v: BufferView, capacity: nat, ops: seq<Op>)
    requires ViewOk(v, capacity) && AllowedRun(v, ops)
    ensures ViewOk(RunOps(v, ops), capacity)
    decreases |ops|
  {
    if ops == [] {
    } else {
      StepKeepsOk(v, capacity, ops[0]);
      RunsKeepOk(Apply(v, ops[0]), capacity, ops[1..]);
    }
  }

  lemma RequestOk(key: SampleKey, s: SlotState, interests: seq<Interest>)
    requires ActiveOk(key, s) && forall i | 0 <= i < |interests| :: interests[i].sample == key
    ensures ActiveOk(key, Request(s, interests).0)
  {
    if !s.state.Ready? {
      AddInterestsInv(s, interests);
      AddedNames(key, s, interests);
    }
  }

  lemma {:induction false} AddedNames(key: SampleKey, s: SlotState, interests: seq<Interest>)
    requires s.name == Some(key) || s == CLEARED
    requires forall i | 0 <= i < |interests| :: interests[i].sample == key
    ensures AddInterests(s, interests).0.name == Some(key) || AddInterests(s, interests).0 == CLEARED
    decreases |interests|
  {
    if interests != [] && AddInterest(s, interests[0]).Some? {
      AddedNames(key, AddInterest(s, interests[0]).value, interests[1..]);
    }
  }
}
