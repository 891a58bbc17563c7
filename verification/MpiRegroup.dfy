/** The owner's side of an MPI ingest: received frames become aligned groups as soon as a group is complete. */
module MpiRegroup {
  import opened Prelude
  import opened Utf8
  import opened Keys
  import opened MpiDecode
  import FC = FrameCodec

  // ---------------------------------------------------------------------
  // Packing one group of held rows
  // ---------------------------------------------------------------------

  function LoadAll(z: FC.Zstd, rows: seq<Held>): (r: Result<seq<FC.Frame>>)
    ensures r.Ok? ==> |r.value| == |rows|
    ensures r.Ok? ==> forall i :: 0 <= i < |rows| ==>
      r.value[i].idx == rows[i].fk.idx && FC.LoadFrame(z, rows[i].stored) == Ok(r.value[i].text)
  {
    if rows == [] then Ok([])
    else
      var before :- LoadAll(z, rows[..|rows| - 1]);
      var last := rows[|rows| - 1];
      var text :- FC.LoadFrame(z, last.stored);
      Ok(before + [FC.Frame(last.fk.idx, text)])
  }

  function WithStored(rows: seq<Held>, packed: seq<Bytes>): (out: seq<Held>)
    requires |packed| == |rows|
    ensures |out| == |rows|
    ensures forall i :: 0 <= i < |rows| ==> out[i] == rows[i].(stored := packed[i])
  {
    seq(|rows|, i requires 0 <= i < |rows| => rows[i].(stored := packed[i]))
  }

  /** `pack_held`: load each single-frame value and pack the run. */
  function PackHeld(z: FC.Zstd, rows: seq<Held>): (r: Result<seq<Held>>)
    ensures r.Ok? ==> |r.value| == |rows|
  {
    var frames :- LoadAll(z, rows);
    var packed :- FC.PackAligned(z, frames);
    Ok(WithStored(rows, packed))
  }

  // ---------------------------------------------------------------------
  // Streams of whole trajectories
  // ---------------------------------------------------------------------

  /** Frames in one aligned group starting at `idx` of a trajectory of `n` frames. */
  function Need(idx: u32, n: u32): nat
    requires idx < n
  {
    Min(idx / 64 * 64 + 64, n) - idx / 64 * 64
  }

  predicate Follows(a: FrameKey, b: FrameKey) {
    b.traj == a.traj && b.idx == a.idx + 1
  }

  /** At position `p` the stream is inside a trajectory that is present as a whole. */
  predicate InTraj(s: seq<Held>, nOf: map<u64, u32>, p: nat)
    requires p < |s|
  {
    var fk := s[p].fk;
    && fk.traj in nOf && fk.idx < nOf[fk.traj]
    && (fk.idx > 0 ==> p > 0 && Follows(s[p - 1].fk, fk))
    && (fk.idx + 1 < nOf[fk.traj] ==> p + 1 < |s| && Follows(fk, s[p + 1].fk))
  }

  predicate StreamOk(s: seq<Held>, nOf: map<u64, u32>) {
    forall p :: 0 <= p < |s| ==> InTraj(s, nOf, p)
  }

  predicate Boundary(s: seq<Held>, p: nat)
    requires p <= |s|
  {
    p == |s| || s[p].fk.idx % 64 == 0
  }

  function NeedAt(s: seq<Held>, nOf: map<u64, u32>, p: nat): nat
    requires p < |s|
  {
    var fk := s[p].fk;
    if fk.traj in nOf && fk.idx < nOf[fk.traj] then Need(fk.idx, nOf[fk.traj]) else 0
  }

  /** What regrouping a stream means: each aligned group of each trajectory is packed by itself, in order. */
  function PackStream(z: FC.Zstd, s: seq<Held>, nOf: map<u64, u32>): Result<seq<Held>>
    decreases |s|
  {
    if s == [] then Ok([])
    else
      var n := NeedAt(s, nOf, 0);
      if n == 0 || n > |s| then Err(CorruptFrame)
      else Joined(PackHeld(z, s[..n]), PackStream(z, s[n..], nOf))
  }

  lemma {:induction false} RunsOn(s: seq<Held>, nOf: map<u64, u32>, p: nat, k: nat)
    requires StreamOk(s, nOf) && p < |s| && s[p].fk.traj in nOf && s[p].fk.idx + k < nOf[s[p].fk.traj]
    ensures p + k < |s| && s[p + k].fk == FrameKey(s[p].fk.traj, s[p].fk.idx + k)
  {
    if k > 0 {
      RunsOn(s, nOf, p, k - 1);
      assert InTraj(s, nOf, p + k - 1);
    }
  }

  /** From a group boundary the whole group is in the stream, and the next boundary is behind it. */
  lemma GroupShape(s: seq<Held>, nOf: map<u64, u32>, p: nat)
    requires StreamOk(s, nOf) && p < |s| && Boundary(s, p)
    ensures var n := NeedAt(s, nOf, p);
      && 1 <= n <= 64 && p + n <= |s| && Boundary(s, p + n)
      && s[p].fk.idx / 64 * 64 == s[p].fk.idx
      && forall q :: p <= q < p + n ==> s[q].fk == FrameKey(s[p].fk.traj, s[p].fk.idx + (q - p))
  {
    assert InTraj(s, nOf, p);
    var fk := s[p].fk;
    var n := NeedAt(s, nOf, p);
    RunsOn(s, nOf, p, n - 1);
    forall q | p <= q < p + n ensures s[q].fk == FrameKey(fk.traj, fk.idx + (q - p)) {
      RunsOn(s, nOf, p, q - p);
    }
    if p + n < |s| {
      assert InTraj(s, nOf, p + n) && InTraj(s, nOf, p + (n - 1));
    }
  }

  // ---------------------------------------------------------------------
  // Draining
  // ---------------------------------------------------------------------

  lemma StreamStep(z: FC.Zstd, s: seq<Held>, nOf: map<u64, u32>, p: nat, n: nat, done: seq<Held>)
    requires p < |s| && n == NeedAt(s, nOf, p) && 0 < n && p + n <= |s|
    ensures Prefixed(done, PackStream(z, s[p..], nOf)) ==
      (var group := PackHeld(z, s[p..p + n]);
       if group.Ok? then Prefixed(done + group.value, PackStream(z, s[p + n..], nOf)) else Err(group.error))
  {
    hide PackHeld, NeedAt;
    var tail := s[p..];
    NeedShift(s, nOf, p);
    assert tail[..n] == s[p..p + n];
    assert tail[n..] == s[p + n..];
    var group, rest := PackHeld(z, s[p..p + n]), PackStream(z, s[p + n..], nOf);
    if group.Ok? && rest.Ok? {
      assert done + (group.value + rest.value) == done + group.value + rest.value;
    }
  }

  lemma NeedShift(s: seq<Held>, nOf: map<u64, u32>, p: nat)
    requires p < |s|
    ensures NeedAt(s[p..], nOf, 0) == NeedAt(s, nOf, p)
  {}

  /** `start + GROUP_LEN` is a u32 sum, so the last aligned group of the index range wraps. */
  function WrappedEnd(start: u32, n: u32): u32 {
    Min((start + 64) % 0x1_0000_0000, n)
  }

  function WrappedNeed(start: u32, n: u32): nat {
    (WrappedEnd(start, n) - start) % 0x1_0000_0000
  }

  /** The u32 sums give the true group length except in the last group of the u32 index range. */
  lemma WrappedNeedIs(start: u32, n: u32)
    requires start < n && start % 64 == 0
    ensures WrappedNeed(start, n) > 0
    ensures start < 0xFFFF_FFC0 ==> WrappedNeed(start, n) == Need(start, n) && WrappedEnd(start, n) == start + Need(start, n)
    ensures start >= 0xFFFF_FFC0 ==> WrappedNeed(start, n) == 64 && WrappedEnd(start, n) == 0
    ensures WrappedNeed(start, n) == Need(start, n) <==> start < 0xFFFF_FFC0
  {}

  /** Trajectories short enough that no group end wraps. */
  predicate NoWrap(nOf: map<u64, u32>) {
    forall t <- nOf :: nOf[t] <= 0xFFFF_FFC0
  }

  /** No frame of this piece of the stream lies in the last aligned group of the u32 index range. */
  predicate Unwrapped(s: seq<Held>, lo: nat, hi: nat)
    requires hi <= |s|
  {
    forall p :: lo <= p < hi ==> s[p].fk.idx < 0xFFFF_FFC0
  }

  lemma NoWrapUnwrapped(s: seq<Held>, nOf: map<u64, u32>)
    requires StreamOk(s, nOf) && NoWrap(nOf)
    ensures Unwrapped(s, 0, |s|)
  {
    forall p | 0 <= p < |s| ensures s[p].fk.idx < 0xFFFF_FFC0 {
      FrameCounted(s, nOf, p);
    }
  }

  lemma UnwrappedGroup(s: seq<Held>, nOf: map<u64, u32>, lo: nat, p: nat)
    requires StreamOk(s, nOf) && lo <= p < |s| && Boundary(s, p) && s[p].fk.idx < 0xFFFF_FFC0
    requires Unwrapped(s, lo, p)
    ensures p + NeedAt(s, nOf, p) <= |s| && Unwrapped(s, lo, p + NeedAt(s, nOf, p))
  {
    hide StreamOk, NeedAt;
    GroupShape(s, nOf, p);
  }

  /**
   * `drain_ready`: emit every complete group at the front of the buffer. `s` is the whole
   * stream and the buffer is the part of it that has arrived and not been drained.
   * A failure is a failure to pack a group, never a misaligned one. A frame whose group end wraps is never
   * drained: the buffer of a stream that has arrived as a whole is empty exactly when there is none.
   */
  method DrainReady(z: FC.Zstd, buf0: seq<Held>, nOf: map<u64, u32>, ghost s: seq<Held>, ghost d: nat)
    returns (r: Result<seq<Held>>, buf: seq<Held>, ghost d1: nat)
    requires StreamOk(s, nOf) && d + |buf0| <= |s| && Boundary(s, d)
    requires buf0 == s[d..d + |buf0|]
    ensures d <= d1 <= d + |buf0| && Boundary(s, d1) && buf == s[d1..d + |buf0|]
    ensures r.Ok? ==> PackStream(z, s[d..], nOf) == Prefixed(r.value, PackStream(z, s[d1..], nOf))
    ensures r.Err? ==> PackStream(z, s[d..], nOf) == r
    ensures Unwrapped(s, d, d1)
    ensures r.Ok? ==> |buf| < 64 || buf[0].fk.idx >= 0xFFFF_FFC0
    ensures r.Ok? && d + |buf0| == |s| ==> (buf == [] <==> Unwrapped(s, d, |s|))
  {
    hide PackStream, PackHeld, StreamOk, WrappedEnd, WrappedNeed, Need;
    var ready: seq<Held> := [];
    buf, d1 := buf0, d;
    PrefixedNothing(PackStream(z, s[d..], nOf));
    while buf != []
      invariant d <= d1 <= d + |buf0| && Boundary(s, d1)
      invariant buf == s[d1..d + |buf0|]
      invariant PackStream(z, s[d..], nOf) == Prefixed(ready, PackStream(z, s[d1..], nOf))
      invariant Unwrapped(s, d, d1)
      decreases |buf|
    {
      var fk := buf[0].fk;
      GroupShape(s, nOf, d1);
      FrameCounted(s, nOf, d1);
      var n := nOf[fk.traj];
      var start := fk.idx / 64 * 64;
      assert fk.idx == start;
      WrappedNeedIs(start, n);
      var end, need := WrappedEnd(start, n), WrappedNeed(start, n);
      if |buf| < need {
        break;
      }
      var last := buf[need - 1].fk;
      if last.traj != fk.traj || last.idx + 1 != end {
        break;
      }
      UnwrappedGroup(s, nOf, d, d1);
      StreamStep(z, s, nOf, d1, need, ready);
      assert buf[..need] == s[d1..d1 + need];
      var group := PackHeld(z, buf[..need]);
      if group.Err? {
        r := Err(group.error);
        return;
      }
      ready := ready + group.value;
      buf := buf[need..];
      d1 := d1 + need;
    }
    r := Ok(ready);
  }

  lemma FrameCounted(s: seq<Held>, nOf: map<u64, u32>, p: nat)
    requires StreamOk(s, nOf) && p < |s|
    ensures s[p].fk.traj in nOf && s[p].fk.idx < nOf[s[p].fk.traj]
  {
    assert InTraj(s, nOf, p);
  }
}
