/**
 Reading a video frame packet out of a slot: the data segments are laid out one after the other in a storage
 that is reused from frame to frame. When data segments are missing the source hands the storage to the
 erasure decoder; that part is not modelled (`NeedsRecovery`).
 */
module ReadPacket {
  import opened Bytes
  import N = NetworkData
  import opened BufferSlots

  const SEGMENT_HEADER_SIZE := 36

  /** The segment's content is a header packet, as the producer makes them. */
  predicate Opens(seg: WireSegment)
  {
    N.OpenHeaderPacket(seg.content, SEGMENT_HEADER_SIZE).Some?
  }

  function Payload(seg: WireSegment): bytes
    requires Opens(seg)
  {
    N.OpenHeaderPacket(seg.content, SEGMENT_HEADER_SIZE).value.payload
  }

  predicate AllOpen(fetched: map<SegKey, WireSegment>)
  {
    forall k | k in fetched :: Opens(fetched[k])
  }

  /** The payloads of the data segments, by number. */
  function DataPayloads(fetched: map<SegKey, WireSegment>): map<nat, bytes>
    requires AllOpen(fetched)
  {
    map i | i in DataNumbers(fetched) :: Payload(fetched[DataSeg(i)])
  }

  function DataNumbers(fetched: map<SegKey, WireSegment>): set<nat>
  {
    set k | k in fetched && k.DataSeg? :: k.no
  }

  function ParityNumbers(fetched: map<SegKey, WireSegment>): set<nat>
  {
    set k | k in fetched && k.ParitySeg? :: k.no
  }

  // ---------- laying out pieces ----------

  /** `size * i`, by repeated addition. */
  function Offset(size: nat, i: nat): nat
  {
    if i == 0 then 0 else Offset(size, i - 1) + size
  }

  lemma {:induction false} OffsetIsProduct(size: nat, i: nat)
    ensures Offset(size, i) == size * i
  {
    if i == 0 {
    } else {
      OffsetIsProduct(size, i - 1);
    }
  }

  lemma {:induction false} OffsetMonotone(size: nat, i: nat, j: nat)
    requires i <= j
    ensures Offset(size, i) <= Offset(size, j)
    decreases j
  {
    if i < j {
      OffsetMonotone(size, i, j - 1);
    }
  }

  /** What is put at position `i`: the segment's payload, or zeros where there is none. */
  function Piece(payloads: map<nat, bytes>, i: nat, size: nat): bytes
  {
    if i in payloads then payloads[i] else Zeros(size)
  }

  function Pieces(payloads: map<nat, bytes>, n: nat, size: nat): seq<bytes>
  {
    seq(n, i requires i >= 0 => Piece(payloads, i, size))
  }

  /** Piece `i` is inserted at `size * i`, wherever the pieces before it really end. */
  function InsertAll(storage: bytes, size: nat, payloads: map<nat, bytes>, n: nat): (r: bytes)
    requires Offset(size, n) <= |storage|
    ensures |r| >= |storage|
  {
    if n == 0 then storage
    else Insert(InsertAll(storage, size, payloads, n - 1), Offset(size, n - 1), Piece(payloads, n - 1, size))
  }

  lemma OneMorePiece(payloads: map<nat, bytes>, n: nat, size: nat)
    requires n > 0
    ensures Pieces(payloads, n, size) == Pieces(payloads, n - 1, size) + [Piece(payloads, n - 1, size)]
    ensures Flatten(Pieces(payloads, n, size)) == Flatten(Pieces(payloads, n - 1, size)) + Piece(payloads, n - 1, size)
  {
    FlattenAppend(Pieces(payloads, n - 1, size), Piece(payloads, n - 1, size));
    assert Pieces(payloads, n, size) == Pieces(payloads, n - 1, size) + [Piece(payloads, n - 1, size)];
  }

  lemma {:induction false} EvenLength(payloads: map<nat, bytes>, n: nat, size: nat)
    requires forall i | 0 <= i < n :: |Piece(payloads, i, size)| == size
    ensures |Flatten(Pieces(payloads, n, size))| == Offset(size, n)
  {
    if n == 0 {
    } else {
      EvenLength(payloads, n - 1, size);
      OneMorePiece(payloads, n, size);
    }
  }

  /** When all pieces but the last have the same size, they end up in front of the storage, in order. */
  lemma {:induction false} EvenPiecesLineUp(storage: bytes, size: nat, payloads: map<nat, bytes>, n: nat)
    requires Offset(size, n) <= |storage|
    requires forall i | 0 <= i < n - 1 :: |Piece(payloads, i, size)| == size
    ensures InsertAll(storage, size, payloads, n) == Flatten(Pieces(payloads, n, size)) + storage
    ensures n > 0 ==> |Flatten(Pieces(payloads, n, size))|
                      == Offset(size, n - 1) + |Piece(payloads, n - 1, size)|
  {
    if n == 0 {
      assert Flatten([]) + storage == storage;
    } else {
      EvenPiecesLineUp(storage, size, payloads, n - 1);
      EvenLength(payloads, n - 1, size);
      OneMorePiece(payloads, n, size);
      var front, last := Flatten(Pieces(payloads, n - 1, size)), Piece(payloads, n - 1, size);
      assert InsertAll(storage, size, payloads, n) == Insert(front + storage, |front|, last);
      InsertBetween(front, last, storage);
    }
  }

  lemma {:induction false} AllZeros(n: nat)
    ensures Zeros(n) == seq(n, _ => 0)
  {
    if n == 0 {
    } else {
      AllZeros(n - 1);
      assert seq(n, _ => 0) == [0] + seq(n - 1, _ => 0);
    }
  }

  lemma {:induction false} PieceInFront(payloads: map<nat, bytes>, size: nat, n: nat, i: nat)
    requires i < n && forall k | 0 <= k < n :: |Piece(payloads, k, size)| == size
    ensures Offset(size, i) + size <= |Flatten(Pieces(payloads, n, size))|
    ensures Flatten(Pieces(payloads, n, size))[Offset(size, i)..Offset(size, i) + size] == Piece(payloads, i, size)
    decreases n
  {
    OneMorePiece(payloads, n, size);
    EvenLength(payloads, n - 1, size);
    var front, last := Flatten(Pieces(payloads, n - 1, size)), Piece(payloads, n - 1, size);
    if i < n - 1 {
      PieceInFront(payloads, size, n - 1, i);
      SliceInFront(front, last, Offset(size, i), Offset(size, i) + size);
    } else {
      assert (front + last)[|front|..|front| + size] == last;
    }
  }

  /** Each segment lies where its number says, and where one is missing there are zeros: as the decoder needs it. */
  lemma PiecesInPlace(storage: bytes, payloads: map<nat, bytes>, size: nat, n: nat, i: nat)
    requires Offset(size, n) <= |storage| && i < n
    requires forall k: nat | k < n && k in payloads :: |payloads[k]| == size
    ensures var r := InsertAll(storage, size, payloads, n);
      && size * i + size <= |r|
      && r[size * i..size * i + size] == if i in payloads then payloads[i] else seq(size, _ => 0)
  {
    assert forall k | 0 <= k < n :: |Piece(payloads, k, size)| == size;
    PieceAtOffset(storage, payloads, size, n, i);
    OffsetIsProduct(size, i);
    AllZeros(size);
  }

  lemma PieceAtOffset(storage: bytes, payloads: map<nat, bytes>, size: nat, n: nat, i: nat)
    requires Offset(size, n) <= |storage| && i < n
    requires forall k | 0 <= k < n :: |Piece(payloads, k, size)| == size
    ensures var r := InsertAll(storage, size, payloads, n);
      && Offset(size, i) + size <= |r|
      && r[Offset(size, i)..Offset(size, i) + size] == Piece(payloads, i, size)
  {
    var front := Flatten(Pieces(payloads, n, size));
    EvenPiecesLineUp(storage, size, payloads, n);
    assert InsertAll(storage, size, payloads, n) == front + storage;
    PieceInFront(payloads, size, n, i);
    SliceInFront(front, storage, Offset(size, i), Offset(size, i) + size);
  }

  lemma SliceInFront(front: bytes, storage: bytes, lo: nat, hi: nat)
    requires lo <= hi <= |front|
    ensures (front + storage)[lo..hi] == front[lo..hi]
  {
  }

  // ---------- which segment comes first ----------

  ghost predicate IsFirst(k: nat, numbers: set<nat>)
  {
    k in numbers && forall j | j in numbers :: k <= j
  }

  lemma {:induction false} SomeFirst(numbers: set<nat>)
    requires numbers != {}
    ensures exists k :: IsFirst(k, numbers)
    decreases |numbers|
  {
    var k :| k in numbers;
    var rest := numbers - {k};
    if rest == {} {
      assert numbers == {k};
      assert IsFirst(k, numbers);
    } else {
      SomeFirst(rest);
      var m :| IsFirst(m, rest);
      assert numbers == rest + {k};
      assert IsFirst(if k <= m then k else m, numbers);
    }
  }

  ghost function First(numbers: set<nat>): (r: nat)
    requires numbers != {}
    ensures IsFirst(r, numbers)
  {
    SomeFirst(numbers);
    var k :| IsFirst(k, numbers);
    k
  }

  method FindFirst(numbers: set<nat>) returns (k: nat)
    requires numbers != {}
    ensures k == First(numbers) && IsFirst(k, numbers)
  {
    SomeFirst(numbers);
    k :| k in numbers && forall j | j in numbers :: k <= j;
  }

  // ---------- reading ----------

  datatype ReadResult = NotEnough | NeedsRecovery | Complete(data: bytes)

  ghost function Expected(fetched: map<SegKey, WireSegment>): nat
    requires DataNumbers(fetched) != {}
  {
    fetched[DataSeg(First(DataNumbers(fetched)))].SlicesNum()
  }

  ghost function ExpectedParity(fetched: map<SegKey, WireSegment>): nat
  {
    if ParityNumbers(fetched) == {} then 0 else fetched[ParitySeg(First(ParityNumbers(fetched)))].SlicesNum()
  }

  /** The layout of a complete frame: the pieces in a storage sized for all segments, cut behind the data. */
  function LaidOut(storage: bytes, payloads: map<nat, bytes>, size: nat, n: nat, total: nat): bytes
    requires n <= total
  {
    OffsetMonotone(size, n, total);
    Resize(InsertAll(Resize(storage, Offset(size, total)), size, payloads, n), Offset(size, n))
  }

  /** What `readPacket` does with the segments it finds: `total` counts data and parity segments. */
  datatype Plan = GiveUp | Recover | LayOut(size: nat, n: nat, total: nat)

  ghost function PlanFor(fetched: map<SegKey, WireSegment>, payloads: map<nat, bytes>): Plan
    requires payloads.Keys == DataNumbers(fetched)
  {
    if payloads == map[] || (ParityNumbers(fetched) == {} && |payloads.Keys| < Expected(fetched)) then GiveUp
    else if |payloads.Keys| < Expected(fetched) then Recover
    else LayOut(|payloads[First(payloads.Keys)]|, Expected(fetched), Expected(fetched) + ExpectedParity(fetched))
  }

  /** What `readPacket` answers, given the payloads and what the reused storage held. */
  ghost function ReadSpec(fetched: map<SegKey, WireSegment>, payloads: map<nat, bytes>, storage: bytes): ReadResult
    requires payloads.Keys == DataNumbers(fetched)
  {
    match PlanFor(fetched, payloads)
    case GiveUp => NotEnough
    case Recover => NeedsRecovery
    case LayOut(size, n, total) => Complete(LaidOut(storage, payloads, size, n, total))
  }

  lemma RestComesLater(keys: set<nat>, todo: set<nat>, m: nat, k: nat)
    requires IsFirst(k, todo) && todo <= keys && forall j | j in keys :: j in todo <==> j >= m
    ensures k >= m && forall j | j in keys :: j in todo - {k} <==> j >= k + 1
    ensures forall i | m <= i < k :: i !in keys
  {
  }

  lemma CompleteRead(fetched: map<SegKey, WireSegment>, payloads: map<nat, bytes>, storage: bytes,
                     size: nat, n: nat, total: nat)
    requires payloads.Keys == DataNumbers(fetched) && n <= total
    requires PlanFor(fetched, payloads) == LayOut(size, n, total)
    ensures ReadSpec(fetched, payloads, storage) == Complete(LaidOut(storage, payloads, size, n, total))
  {
  }

  /** As many data segments as expected leave no gap at the end. */
  lemma NoneMissing(data: set<nat>, m: nat, n: nat)
    requires |data| >= n >= m
    requires m < n ==> forall k | k in data :: k < m
    ensures m == n
  {
    if m < n {
      SubsetSize(data, Below(m));
      assert false;
    }
  }

  function Below(m: nat): (r: set<nat>)
    ensures |r| == m && forall i: nat :: i in r <==> i < m
  {
    if m == 0 then {} else Below(m - 1) + {m - 1}
  }

  class VideoFrameSlot {
    var storage: bytes
    var fecList: seq<bool>

    /** Zeros where a segment is missing, up to number `upto`. */
    method FillGap(ghost before: bytes, payloads: map<nat, bytes>, m0: nat, upto: nat, size: nat, n: nat)
      returns (m: nat)
      requires m0 <= upto && m0 <= n && Offset(size, n) <= |before|
      requires forall i | m0 <= i < upto :: i !in payloads
      requires Offset(size, m0) <= |before| && storage == InsertAll(before, size, payloads, m0)
      modifies this`storage
      ensures m == (if upto < n then upto else n) && Offset(size, m) <= |before|
      ensures storage == InsertAll(before, size, payloads, m)
    {
      m := m0;
      while m != upto && m < n
        invariant m0 <= m <= n && m <= upto && Offset(size, m) <= |before|
        invariant storage == InsertAll(before, size, payloads, m)
        decreases n - m
      {
        OffsetMonotone(size, m + 1, n);
        storage := Insert(storage, Offset(size, m), Zeros(size));
        m := m + 1;
      }
    }

    /** One turn of the loop over the data segments. */
    method Place(ghost before: bytes, payloads: map<nat, bytes>, m0: nat, k: nat, size: nat, n: nat)
      returns (m: nat)
      requires k in payloads && m0 <= k && m0 < n <= |fecList| && Offset(size, n) <= |before|
      requires forall i | m0 <= i < k :: i !in payloads
      requires Offset(size, m0) <= |before| && storage == InsertAll(before, size, payloads, m0)
      modifies this
      ensures m == (if k < n then k + 1 else n) && Offset(size, m) <= |before|
      ensures storage == InsertAll(before, size, payloads, m)
      ensures fecList == if k < n then old(fecList)[k := true] else old(fecList)
    {
      m := FillGap(before, payloads, m0, k, size, n);
      if m < n {
        PutSegment(before, payloads, k, size, n);
        m := m + 1;
      }
    }

    method PutSegment(ghost before: bytes, payloads: map<nat, bytes>, k: nat, size: nat, n: nat)
      requires k in payloads && k < n <= |fecList| && Offset(size, n) <= |before|
      requires Offset(size, k) <= |before| && storage == InsertAll(before, size, payloads, k)
      modifies this
      ensures Offset(size, k + 1) <= |before| && storage == InsertAll(before, size, payloads, k + 1)
      ensures fecList == old(fecList)[k := true]
    {
      OffsetMonotone(size, k + 1, n);
      storage := Insert(storage, Offset(size, k), payloads[k]);
      fecList := fecList[k := true];
    }

    /** Lays out the data segments in order of number, zeros in the gaps; `m` pieces in all. */
    method InsertSegments(payloads: map<nat, bytes>, size: nat, n: nat) returns (m: nat)
      requires Offset(size, n) <= |storage| && n <= |fecList|
      requires forall i | 0 <= i < |fecList| :: !fecList[i]
      modifies this
      ensures m <= n && (m < n ==> forall k | k in payloads :: k < m)
      ensures Offset(size, m) <= |old(storage)| && storage == InsertAll(old(storage), size, payloads, m)
      ensures |fecList| == |old(fecList)| && forall i | 0 <= i < |fecList| :: fecList[i] == (i < m && i in payloads)
    {
      m := 0;
      var todo := payloads.Keys;
      while todo != {}
        invariant todo <= payloads.Keys && m <= n && Offset(size, m) <= |old(storage)|
        invariant m < n ==> forall k | k in payloads :: k in todo <==> k >= m
        invariant storage == InsertAll(old(storage), size, payloads, m)
        invariant |fecList| == |old(fecList)|
        invariant forall i | 0 <= i < |fecList| :: fecList[i] == (i < m && i in payloads)
        decreases todo
      {
        var k := FindFirst(todo);
        if m < n {
          RestComesLater(payloads.Keys, todo, m, k);
        }
        todo := todo - {k};
        if m < n {
          m := Place(old(storage), payloads, m, k, size, n);
        }
      }
    }

    /** Storage and erasure list for `n` data segments; `whole` when there are as many as that. */
    method LayOutData(payloads: map<nat, bytes>, size: nat, n: nat, nParity: nat) returns (whole: bool)
      modifies this
      ensures whole <==> |payloads.Keys| >= n
      ensures whole ==> storage == LaidOut(old(storage), payloads, size, n, n + nParity)
      ensures |fecList| == n + nParity && forall i | 0 <= i < |fecList| :: fecList[i] <==> i < n && i in payloads
    {
      fecList := seq(n + nParity, _ => false);
      storage := Resize(storage, Offset(size, n + nParity));
      OffsetMonotone(size, n, n + nParity);
      var m := InsertSegments(payloads, size, n);
      whole := |payloads.Keys| >= n;
      if whole {
        NoneMissing(payloads.Keys, m, n);
        storage := Resize(storage, Offset(size, n));
      }
    }

    method ReadPacket(fetched: map<SegKey, WireSegment>) returns (r: ReadResult)
      requires fetched != map[] && AllOpen(fetched)
      modifies this
      ensures DataPayloads(fetched).Keys == DataNumbers(fetched)
      ensures r == ReadSpec(fetched, DataPayloads(fetched), old(storage))
      ensures r.Complete? ==> storage == r.data
      ensures !r.NotEnough? ==> Erasures(fetched)
    {
      var payloads := DataPayloads(fetched);
      assert payloads.Keys == DataNumbers(fetched);
      r := Read(fetched, payloads);
    }

    /** The erasure list marks exactly the data segments that arrived. */
    ghost predicate Erasures(fetched: map<SegKey, WireSegment>)
      reads this
    {
      && DataNumbers(fetched) != {}
      && |fecList| == Expected(fetched) + ExpectedParity(fetched)
      && forall i | 0 <= i < |fecList| :: fecList[i] <==> i < Expected(fetched) && i in DataNumbers(fetched)
    }

    method Read(fetched: map<SegKey, WireSegment>, payloads: map<nat, bytes>) returns (r: ReadResult)
      requires payloads.Keys == DataNumbers(fetched)
      modifies this
      ensures r == ReadSpec(fetched, payloads, old(storage))
      ensures r.Complete? ==> storage == r.data
      ensures !r.NotEnough? ==> Erasures(fetched)
    {
      var enough, first, n, nParity := Survey(fetched, payloads);
      if !enough {
        return NotEnough;
      }
      r := LayOutAll(fetched, payloads, |payloads[first]|, n, nParity);
    }

    /** Lays out what there is; without all data segments the decoder would go on from here. */
    method LayOutAll(fetched: map<SegKey, WireSegment>, payloads: map<nat, bytes>, size: nat, n: nat, nParity: nat)
      returns (r: ReadResult)
      requires payloads.Keys == DataNumbers(fetched) != {}
      requires n == Expected(fetched) && nParity == ExpectedParity(fetched)
      requires PlanFor(fetched, payloads) == if |payloads.Keys| < n then Recover else LayOut(size, n, n + nParity)
      modifies this
      ensures r == ReadSpec(fetched, payloads, old(storage)) && !r.NotEnough?
      ensures r.Complete? ==> storage == r.data
      ensures Erasures(fetched)
    {
      var whole := LayOutData(payloads, size, n, nParity);
      if whole {
        CompleteRead(fetched, payloads, old(storage), size, n, n + nParity);
        r := Complete(storage);
      } else {
        r := NeedsRecovery;
      }
    }

    /** Whether to go on, the first data segment, and how many segments of each kind are announced. */
    method Survey(fetched: map<SegKey, WireSegment>, payloads: map<nat, bytes>)
      returns (enough: bool, first: nat, n: nat, nParity: nat)
      requires payloads.Keys == DataNumbers(fetched)
      ensures !enough ==> PlanFor(fetched, payloads) == GiveUp
      ensures enough ==>
                && first in payloads && n == Expected(fetched) && nParity == ExpectedParity(fetched)
                && PlanFor(fetched, payloads) == if |payloads.Keys| < n then Recover
                                                 else LayOut(|payloads[first]|, n, n + nParity)
    {
      var data, parity := payloads.Keys, ParityNumbers(fetched);
      enough, first, n, nParity := false, 0, 0, 0;
      if |data| == 0 {
        return;
      }
      first := FindFirst(data);
      n := fetched[DataSeg(first)].SlicesNum();
      if parity == {} && |data| < n {
        return;
      }
      enough := true;
      if parity != {} {
        var firstParity := FindFirst(parity);
        nParity := fetched[ParitySeg(firstParity)].SlicesNum();
      }
    }
  }
}
