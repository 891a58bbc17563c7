/** Width checks for MPI counts, batch cursors, and the ingest record format. */
module MpiWire {
  import opened Prelude

  type i32 = n: int | -0x8000_0000 <= n <= 0x7FFF_FFFF

  function Sum(counts: seq<int>): int {
    if counts == [] then 0 else Sum(counts[..|counts| - 1]) + counts[|counts| - 1]
  }

  predicate NonNegative(counts: seq<int>) {
    forall i :: 0 <= i < |counts| ==> counts[i] >= 0
  }

  /** What a classic collective accepts: no negative count, and a total that is a non-negative `i32`. */
  predicate Fits(counts: seq<int>) {
    NonNegative(counts) && Sum(counts) <= I32_MAX
  }

  /** The start of every part when parts of these sizes are laid end to end. */
  function Displacements(counts: seq<int>): (d: seq<int>)
    ensures |d| == |counts|
    ensures forall i :: 0 <= i < |counts| ==> d[i] == Sum(counts[..i])
  {
    seq(|counts|, i requires 0 <= i < |counts| => Sum(counts[..i]))
  }

  lemma {:induction false} SumPrefix(counts: seq<int>, i: nat)
    requires NonNegative(counts) && i <= |counts|
    ensures 0 <= Sum(counts[..i]) <= Sum(counts)
  {
    if i == |counts| {
      assert counts[..i] == counts;
      if i > 0 {
        SumPrefix(counts[..i - 1], i - 1);
        assert counts[..i - 1][..i - 1] == counts[..i - 1];
      }
    } else {
      SumPrefix(counts[..|counts| - 1], i);
      assert counts[..|counts| - 1][..i] == counts[..i];
    }
  }

  lemma SumSnoc(counts: seq<int>, i: nat)
    requires i < |counts|
    ensures Sum(counts[..i + 1]) == Sum(counts[..i]) + counts[i]
  {
    assert counts[..i + 1][..i] == counts[..i];
  }

  function MpiI32(n: u64): Result<i32> {
    if n <= I32_MAX then Ok(n) else Err(Message("MPI count exceeds i32"))
  }

  /** `prefix_i32` succeeds exactly when every displacement and the total fit. */
  method PrefixI32(counts: seq<i32>) returns (r: Result<seq<int>>)
    ensures r.Ok? <==> Fits(counts)
    ensures r.Ok? ==> r.value == Displacements(counts)
  {
    var acc := 0;
    var out: seq<int> := [];
    assert counts[..0] == [];
    for i := 0 to |counts|
      invariant NonNegative(counts[..i])
      invariant acc == Sum(counts[..i]) && 0 <= acc <= I32_MAX
      invariant out == Displacements(counts)[..i]
    {
      var c := counts[i];
      SumSnoc(counts, i);
      if c < 0 {
        return Err(Message("negative MPI count"));
      }
      out := out + [acc];
      if acc + c > I32_MAX {
        if NonNegative(counts) {
          SumPrefix(counts, i + 1);
        }
        return Err(Message("MPI displacement exceeds i32"));
      }
      acc := acc + c;
    }
    assert counts[..|counts|] == counts;
    r := Ok(out);
  }

  method FitsI32(counts: seq<u64>) returns (ok: bool)
    ensures ok <==> Fits(counts)
  {
    var acc := 0;
    assert counts[..0] == [];
    for i := 0 to |counts|
      invariant acc == Sum(counts[..i]) <= I32_MAX
    {
      SumSnoc(counts, i);
      SumPrefix(counts, i);
      SumPrefix(counts, i + 1);
      if counts[i] > I32_MAX || acc + counts[i] > I32_MAX {
        return false;
      }
      acc := acc + counts[i];
    }
    assert counts[..|counts|] == counts;
    ok := true;
  }

  lemma FitsEach(counts: seq<int>, i: nat)
    requires Fits(counts) && i < |counts|
    ensures 0 <= counts[i] <= I32_MAX
    ensures 0 <= Displacements(counts)[i] <= I32_MAX - counts[i]
  {
    SumPrefix(counts, i);
    SumPrefix(counts, i + 1);
    SumSnoc(counts, i);
  }

  // ---------------------------------------------------------------------
  // Batch cursor
  // ---------------------------------------------------------------------

  function HashGatherChunk(): nat {
    I32_MAX / 16
  }

  function BatchEnd(b0: nat, batch: nat, n: nat): nat {
    if b0 >= n then b0 else Min(SatAdd(b0, Max(batch, 1)), n)
  }

  function ShrinkBatchEnd(b0: nat, b1: nat): Option<nat> {
    var span := if b1 > b0 then b1 - b0 else 0;
    if span <= 1 then None
    else
      var next := SatAdd(b0, span / 2);
      if b0 < next < b1 then Some(next) else None
  }

  /** The cursor always moves, for every batch value a caller can pass. */
  lemma BatchAdvances(b0: nat, batch: nat, n: nat)
    requires b0 < n <= USIZE_MAX
    ensures b0 < BatchEnd(b0, batch, n) <= n
    ensures batch >= n - b0 ==> BatchEnd(b0, batch, n) == n
    ensures BatchEnd(b0, batch, n) - b0 == Min(Max(batch, 1), n - b0)
  {}

  /** A batch can be halved exactly while it holds two frames, and the halves stay proper. */
  lemma ShrinkStops(b0: nat, b1: nat)
    requires b1 <= USIZE_MAX
    ensures ShrinkBatchEnd(b0, b1).None? <==> b1 <= b0 + 1
    ensures ShrinkBatchEnd(b0, b1).Some? ==> b0 < ShrinkBatchEnd(b0, b1).value < b1
    ensures ShrinkBatchEnd(b0, b1).Some? ==> 2 * (ShrinkBatchEnd(b0, b1).value - b0) <= b1 - b0
  {}

  /** The sum that wraps: `b0 + usize::MAX` is `b0 - 1`, an empty range, which is why the end saturates. */
  lemma WrappedEndIsEmpty(b0: nat)
    requires 0 < b0 <= USIZE_MAX
    ensures (b0 + USIZE_MAX) % (USIZE_MAX + 1) < b0
  {}

  // ---------------------------------------------------------------------
  // Records
  // ---------------------------------------------------------------------

  /** A duplicate carries its own bytes unless its winner is in this batch. */
  predicate SendStored(winner: nat, frame: nat, batchStart: nat) {
    winner == frame || winner < batchStart
  }

  function RecordBytes(encLen: nat, storedLen: nat, sendBlob: bool): nat {
    8 + 8 + encLen + 8 + (if sendBlob then storedLen else 0)
  }

  function Record(frame: u64, enc: Bytes, stored: Bytes): Bytes
    requires |enc| <= U64_MAX && |stored| <= U64_MAX
  {
    Le64(frame) + (Le64(|enc|) + enc) + (Le64(|stored|) + stored)
  }

  function ReadU64(buf: Bytes): (r: Result<(u64, Bytes)>)
    ensures r.Ok? ==> |r.value.1| == |buf| - 8
  {
    if |buf| < 8 then Err(Truncated) else Ok((FromLe64(buf[..8]), buf[8..]))
  }

  function ReadBytes(buf: Bytes): (r: Result<(Bytes, Bytes)>)
    ensures r.Ok? ==> |r.value.1| <= |buf| - 8
  {
    var (n, rest) :- ReadU64(buf);
    if |rest| < n then Err(Truncated) else Ok((rest[..n], rest[n..]))
  }

  lemma U64Reads(n: u64, rest: Bytes)
    ensures ReadU64(Le64(n) + rest) == Ok((n, rest))
  {
    Le64RoundTrip(n);
    assert (Le64(n) + rest)[..8] == Le64(n);
    assert (Le64(n) + rest)[8..] == rest;
  }

  lemma BytesRead(b: Bytes, rest: Bytes)
    requires |b| <= U64_MAX
    ensures ReadBytes(Le64(|b|) + b + rest) == Ok((b, rest))
  {
    U64Reads(|b|, b + rest);
    assert Le64(|b|) + b + rest == Le64(|b|) + (b + rest);
    assert (b + rest)[..|b|] == b;
    assert (b + rest)[|b|..] == rest;
  }

  datatype Rec = Rec(frame: u64, enc: Bytes, raw: Bytes)

  /** One record off the front of a receive buffer, and the bytes behind it. */
  function ReadRecord(buf: Bytes): (r: Result<(Rec, Bytes)>)
    ensures r.Ok? ==> |r.value.1| < |buf|
  {
    var (frame, b1) :- ReadU64(buf);
    var (enc, b2) :- ReadBytes(b1);
    var (raw, b3) :- ReadBytes(b2);
    Ok((Rec(frame, enc, raw), b3))
  }

  lemma RecordReads(frame: u64, enc: Bytes, stored: Bytes, rest: Bytes)
    requires |enc| <= U64_MAX && |stored| <= U64_MAX
    ensures ReadRecord(Record(frame, enc, stored) + rest) == Ok((Rec(frame, enc, stored), rest))
  {
    var s2 := Le64(|stored|) + stored + rest;
    var s1 := Le64(|enc|) + enc + s2;
    assert Record(frame, enc, stored) + rest == Le64(frame) + s1;
    U64Reads(frame, s1);
    BytesRead(enc, s2);
    BytesRead(stored, rest);
  }

  lemma RecordLength(frame: u64, enc: Bytes, stored: Bytes, send: bool)
    requires |enc| <= U64_MAX && |stored| <= U64_MAX
    ensures |Record(frame, enc, if send then stored else [])| == RecordBytes(|enc|, |stored|, send)
  {}
}
