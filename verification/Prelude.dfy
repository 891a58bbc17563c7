/** Machine integers, bytes and results shared by every module. */
module Prelude {

  type byte = b: int | 0 <= b < 0x100
  type u32 = n: int | 0 <= n < 0x1_0000_0000
  type u64 = n: int | 0 <= n < 0x1_0000_0000_0000_0000

  type Bytes = seq<byte>

  const U32_MAX: int := 0xFFFF_FFFF
  const U64_MAX: int := 0xFFFF_FFFF_FFFF_FFFF
  /** `usize` on a 64-bit target. */
  const USIZE_MAX: int := 0xFFFF_FFFF_FFFF_FFFF
  const I32_MAX: int := 0x7FFF_FFFF

  datatype Option<+T> = None | Some(value: T)

  datatype FrameKey = FrameKey(traj: u64, idx: u32)

  datatype Error =
    | CorruptFrame
    | FrameTooLong
    | Truncated
    | MissingFrame(key: FrameKey)
    | TrajExists(traj: u64, frames: u32)
    | ParseError
    | Message(what: string)

  datatype Result<+T> = Ok(value: T) | Err(error: Error) {

    predicate IsFailure() {
      Err?
    }

    function PropagateFailure<U>(): Result<U>
      requires Err?
    {
      Err(error)
    }

    function Extract(): T
      requires Ok?
    {
      value
    }
  }

  /** `done` followed by what is still to come. */
  function Prefixed<T>(done: seq<T>, rest: Result<seq<T>>): Result<seq<T>> {
    if rest.Ok? then Ok(done + rest.value) else rest
  }

  /** Two results one after the other; the first error wins. */
  function Joined<T>(first: Result<seq<T>>, second: Result<seq<T>>): Result<seq<T>> {
    if first.Ok? then Prefixed(first.value, second) else first
  }

  lemma PrefixedNothing<T>(rest: Result<seq<T>>)
    ensures Prefixed([], rest) == rest
  {
    if rest.Ok? {
      assert [] + rest.value == rest.value;
    }
  }

  lemma JoinedNothing<T>(done: Result<seq<T>>)
    ensures Joined(done, Ok([])) == done
  {
    if done.Ok? {
      assert done.value + [] == done.value;
    }
  }

  lemma JoinedAssociates<T>(first: Result<seq<T>>, mid: Result<seq<T>>, last: Result<seq<T>>)
    ensures Joined(first, Joined(mid, last)) == Joined(Joined(first, mid), last)
  {
    if first.Ok? && mid.Ok? && last.Ok? {
      assert first.value + (mid.value + last.value) == first.value + mid.value + last.value;
    }
  }

  function Min(a: int, b: int): int {
    if a < b then a else b
  }

  function Max(a: int, b: int): int {
    if a < b then b else a
  }

  /** `usize::saturating_add`. */
  function SatAdd(a: nat, b: nat): nat {
    Min(a + b, USIZE_MAX)
  }

  /** `usize::saturating_mul`. */
  function SatMul(a: nat, b: nat): nat {
    Min(a * b, USIZE_MAX)
  }

  function Flatten<T>(parts: seq<seq<T>>): seq<T> {
    if parts == [] then [] else parts[0] + Flatten(parts[1..])
  }

  lemma {:induction false} FlattenSnoc<T>(parts: seq<seq<T>>, last: seq<T>)
    ensures Flatten(parts + [last]) == Flatten(parts) + last
  {
    FlattenAppend(parts, [last]);
    assert Flatten([last]) == last by {
      assert [last][1..] == [];
    }
  }

  lemma {:induction false} FlattenAppend<T>(a: seq<seq<T>>, b: seq<seq<T>>)
    ensures Flatten(a + b) == Flatten(a) + Flatten(b)
  {
    if a == [] {
      assert a + b == b;
    } else {
      assert Flatten(a + b) == a[0] + Flatten(a[1..] + b) by {
        assert (a + b)[1..] == a[1..] + b;
      }
      FlattenAppend(a[1..], b);
    }
  }

  lemma {:induction false} SubsetSize<T>(a: set<T>, b: set<T>)
    requires a <= b
    ensures |a| <= |b|
  {
    if a != {} {
      var x :| x in a;
      SubsetSize(a - {x}, b - {x});
    }
  }

  lemma SameSize<T>(a: set<T>, b: set<T>)
    requires a <= b && |a| == |b|
    ensures a == b
  {
    if a != b {
      var x :| x in b && x !in a;
      assert |b - {x}| < |b| && a <= b - {x};
      SubsetSize(a, b - {x});
    }
  }

  // ---------------------------------------------------------------------
  // Fixed-width integers as bytes
  // ---------------------------------------------------------------------

  function Pow256(k: nat): (p: nat)
    ensures p > 0
  {
    if k == 0 then 1 else 0x100 * Pow256(k - 1)
  }

  lemma Pow256Values()
    ensures Pow256(4) == 0x1_0000_0000
    ensures Pow256(8) == 0x1_0000_0000_0000_0000
  {
    assert Pow256(2) == 0x1_0000;
    assert Pow256(4) == 0x1_0000_0000;
    assert Pow256(6) == 0x1_0000_0000_0000;
  }

  /** The low `k` bytes of `n`, least significant first. */
  function LittleEndian(n: nat, k: nat): (b: Bytes)
    ensures |b| == k
  {
    if k == 0 then [] else [n % 0x100] + LittleEndian(n / 0x100, k - 1)
  }

  function FromLittleEndian(b: Bytes): (n: nat)
    ensures n < Pow256(|b|)
  {
    if b == [] then 0 else b[0] + 0x100 * FromLittleEndian(b[1..])
  }

  lemma {:induction false} LittleEndianRoundTrip(n: nat, k: nat)
    requires n < Pow256(k)
    ensures FromLittleEndian(LittleEndian(n, k)) == n
  {
    if k > 0 {
      LittleEndianRoundTrip(n / 0x100, k - 1);
      assert LittleEndian(n, k)[1..] == LittleEndian(n / 0x100, k - 1);
    }
  }

  /** The low `k` bytes of `n`, most significant first. */
  function BigEndian(n: nat, k: nat): (b: Bytes)
    ensures |b| == k
  {
    if k == 0 then [] else BigEndian(n / 0x100, k - 1) + [n % 0x100]
  }

  function FromBigEndian(b: Bytes): (n: nat)
    ensures n < Pow256(|b|)
  {
    if b == [] then 0 else 0x100 * FromBigEndian(b[..|b| - 1]) + b[|b| - 1]
  }

  lemma {:induction false} BigEndianRoundTrip(n: nat, k: nat)
    requires n < Pow256(k)
    ensures FromBigEndian(BigEndian(n, k)) == n
  {
    if k > 0 {
      BigEndianRoundTrip(n / 0x100, k - 1);
      assert BigEndian(n, k)[..k - 1] == BigEndian(n / 0x100, k - 1);
    }
  }

  lemma {:induction false} FromBigEndianRoundTrip(b: Bytes)
    ensures BigEndian(FromBigEndian(b), |b|) == b
  {
    if b != [] {
      FromBigEndianRoundTrip(b[..|b| - 1]);
      assert b == b[..|b| - 1] + [b[|b| - 1]];
    }
  }

  /** `(n as u32).to_le_bytes()`: a wider value keeps its low four bytes. */
  function Le32(n: nat): (b: Bytes)
    ensures |b| == 4
  {
    LittleEndian(n, 4)
  }

  function Le64(n: u64): (b: Bytes)
    ensures |b| == 8
  {
    LittleEndian(n, 8)
  }

  function FromLe32(b: Bytes): u32
    requires |b| == 4
  {
    Pow256Values();
    FromLittleEndian(b)
  }

  function FromLe64(b: Bytes): u64
    requires |b| == 8
  {
    Pow256Values();
    FromLittleEndian(b)
  }

  lemma Le32RoundTrip(n: u32)
    ensures FromLe32(Le32(n)) == n
  {
    Pow256Values();
    LittleEndianRoundTrip(n, 4);
  }

  lemma Le64RoundTrip(n: u64)
    ensures FromLe64(Le64(n)) == n
  {
    Pow256Values();
    LittleEndianRoundTrip(n, 8);
  }
}
