/** Byte vectors, and the few container operations the packet modules share. */
module Bytes {

  type byte = b: int | 0 <= b < 256

  type bytes = seq<byte>

  /** `std::vector::insert` of a range in front of position `pos`. */
  function Insert(v: bytes, pos: nat, x: bytes): bytes
    requires pos <= |v|
  {
    v[..pos] + x + v[pos..]
  }

  lemma InsertBetween(a: bytes, x: bytes, b: bytes)
    ensures Insert(a + b, |a|, x) == a + x + b
  {
  }

  lemma Associates(a: bytes, b: bytes, c: bytes)
    ensures (a + b) + c == a + (b + c)
  {
  }

  lemma PrefixAndRest(a: bytes, b: bytes)
    requires a <= b
    ensures b == a + b[|a|..]
  {
  }

  function Zeros(n: nat): (r: bytes)
    ensures |r| == n
  {
    if n == 0 then [] else [0] + Zeros(n - 1)
  }

  /** `std::vector::resize`: cuts, or grows with zeros. */
  function Resize(v: bytes, n: nat): bytes
  {
    if n <= |v| then v[..n] else v + Zeros(n - |v|)
  }

  function Flatten(parts: seq<bytes>): bytes
  {
    if parts == [] then [] else parts[0] + Flatten(parts[1..])
  }

  lemma {:induction false} FlattenAppend(parts: seq<bytes>, last: bytes)
    ensures Flatten(parts + [last]) == Flatten(parts) + last
  {
    if parts == [] {
      assert parts + [last] == [last];
      assert Flatten([last]) == last + Flatten([]);
    } else {
      FlattenAppend(parts[1..], last);
      assert (parts + [last])[1..] == parts[1..] + [last];
      assert Flatten(parts + [last]) == parts[0] + (Flatten(parts[1..]) + last);
    }
  }

  lemma {:induction false} FlattenConcat(a: seq<bytes>, b: seq<bytes>)
    ensures Flatten(a + b) == Flatten(a) + Flatten(b)
  {
    if a == [] {
      assert a + b == b;
    } else {
      FlattenConcat(a[1..], b);
      assert (a + b)[1..] == a[1..] + b;
      assert Flatten(a + b) == a[0] + (Flatten(a[1..]) + Flatten(b));
    }
  }
}
