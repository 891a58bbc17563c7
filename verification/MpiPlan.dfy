/**
 * What every rank of an MPI ingest knows: the block partition, the global frame
 * sequence, the owner of each environment and the dedup winner of each frame.
 */
module MpiPlan {
  import opened Prelude
  import opened Utf8
  import opened Keys
  import opened Store
  import opened Routing
  import KeyWire

  // ---------------------------------------------------------------------
  // Block partition
  // ---------------------------------------------------------------------

  /** First item of `rank`'s block of `n` items; `rank == size` gives the end of the last block. */
  function BlockStart(n: nat, size: nat, rank: nat): nat
    requires size > 0
  {
    rank * (n / size) + Min(rank, n % size)
  }

  /** `block_range(n, size, rank)` as a half-open pair. */
  function BlockRange(n: nat, size: nat, rank: nat): (r: (nat, nat))
    requires rank < size
  {
    var start := BlockStart(n, size, rank);
    (start, start + n / size + if rank < n % size then 1 else 0)
  }

  /** Neighbouring blocks touch, the first starts at 0 and the last ends at `n`. */
  lemma BlocksTile(n: nat, size: nat, rank: nat)
    requires rank < size
    ensures BlockRange(n, size, rank) == (BlockStart(n, size, rank), BlockStart(n, size, rank + 1))
    ensures BlockStart(n, size, 0) == 0
    ensures BlockStart(n, size, size) == n
    ensures BlockStart(n, size, rank) <= BlockStart(n, size, rank + 1)
  {
    var base := n / size;
    assert (rank + 1) * base == rank * base + base;
    assert base >= 0;
    assert size * base + n % size == n;
  }

  lemma {:induction false} BlocksOrdered(n: nat, size: nat, rank: nat)
    requires rank <= size && size > 0
    ensures BlockStart(n, size, rank) <= n
  {
    if rank == size {
      BlocksTile(n, size, 0);
    } else {
      BlocksTile(n, size, rank);
      BlocksUpward(n, size, rank, size);
    }
  }

  lemma {:induction false} BlocksUpward(n: nat, size: nat, a: nat, b: nat)
    requires a <= b <= size && size > 0
    ensures BlockStart(n, size, a) <= BlockStart(n, size, b)
  {
    hide BlockStart;
    if a < b {
      BlocksTile(n, size, b - 1);
      BlocksUpward(n, size, a, b - 1);
    }
  }

  /** Block sizes differ by at most one, the larger ones on the low ranks. */
  lemma BlocksBalanced(n: nat, size: nat, rank: nat)
    requires rank < size
    ensures var (lo, hi) := BlockRange(n, size, rank); n / size <= hi - lo <= n / size + 1
    ensures rank + 1 < size ==>
      var (lo, hi), (next, end) := BlockRange(n, size, rank), BlockRange(n, size, rank + 1); hi - lo >= end - next
  {}

  function Clamp(x: nat, lo: nat, hi: nat): nat {
    Max(lo, Min(x, hi))
  }

  // ---------------------------------------------------------------------
  // Routes
  // ---------------------------------------------------------------------

  /** Where a trajectory's frames are written: the rank that owns the environment, and its id. */
  datatype Dest = Dest(owner: nat, env: u32)

  datatype Route = SingleWriter | Sharded(shards: u32)

  predicate RouteOk(route: Route) {
    route.Sharded? ==> route.shards > 0
  }

  function EnvOf(route: Route, traj: u64): u32
    requires RouteOk(route)
  {
    match route
    case SingleWriter => 0
    case Sharded(n) => ShardForTraj(traj, n)
  }

  function OwnerOf(route: Route, size: nat, env: u32): (owner: nat)
    requires size > 0
    ensures owner < size
  {
    match route
    case SingleWriter => 0
    case Sharded(_) => env % size
  }

  lemma OwnerRoutes(n: u32, size: u32, env: u32)
    requires 0 < size
    ensures OwnerOf(SingleWriter, size, env) == 0
    ensures OwnerOf(Sharded(n), size, env) == ShardForTraj(env, size)
  {}

  /** A single writer is rank 0; of any `size` consecutive shards each rank owns exactly one. */
  lemma OwnersSpread(n: u32, size: u32, env: u32, rank: nat) returns (e: u32)
    requires 0 < size && rank < size && env + (size - 1) <= U32_MAX
    ensures OwnerOf(SingleWriter, size, env) == 0
    ensures env <= e < env + size && OwnerOf(Sharded(n), size, e) == rank
    ensures forall d: u32 :: env <= d < env + size && OwnerOf(Sharded(n), size, d) == rank ==> d == e
  {
    hide OwnerOf, ShardForTraj;
    e := ShardOnce(env, size, rank);
    OwnerRoutes(n, size, env);
    OwnerRoutes(n, size, e);
    forall d: u32 | env <= d < env + size && OwnerOf(Sharded(n), size, d) == rank ensures d == e {
      OwnerRoutes(n, size, d);
    }
  }

  function DestOf(route: Route, size: nat, traj: u64): (d: Dest)
    requires RouteOk(route) && size > 0
    ensures d.owner < size && d.owner == OwnerOf(route, size, d.env)
  {
    var env := EnvOf(route, traj);
    Dest(OwnerOf(route, size, env), env)
  }

  // ---------------------------------------------------------------------
  // Files and the global frame sequence
  // ---------------------------------------------------------------------

  /** An input file, as the spans the frame-offset table cuts it into. */
  datatype File = File(traj: u64, path: string, spans: seq<Text>)

  datatype Item = Item(fk: FrameKey, text: Text, dest: Dest)

  predicate Counted(files: seq<File>) {
    forall i :: 0 <= i < |files| ==> |files[i].spans| <= U32_MAX
  }

  predicate DistinctTrajs(files: seq<File>) {
    forall i, j :: 0 <= i < j < |files| ==> files[i].traj != files[j].traj
  }

  function FileItems(f: File, dest: Dest): (items: seq<Item>)
    requires |f.spans| <= U32_MAX
    ensures |items| == |f.spans|
    ensures forall i :: 0 <= i < |items| ==> items[i] == Item(FrameKey(f.traj, i), f.spans[i], dest)
  {
    seq(|f.spans|, i requires 0 <= i < |f.spans| => Item(FrameKey(f.traj, i), f.spans[i], dest))
  }

  /** The frames of all files in argument order. */
  function Items(files: seq<File>, route: Route, size: nat): (items: seq<Item>)
    requires Counted(files) && RouteOk(route) && size > 0
    ensures |items| == Total(files)
  {
    if files == [] then []
    else
      var n := |files| - 1;
      Items(files[..n], route, size) + FileItems(files[n], DestOf(route, size, files[n].traj))
  }

  function Total(files: seq<File>): nat {
    if files == [] then 0 else Total(files[..|files| - 1]) + |files[|files| - 1].spans|
  }

  /** Global index of the first frame of file `f`. */
  function G0(files: seq<File>, f: nat): nat
    requires f <= |files|
  {
    Total(files[..f])
  }

  lemma G0Next(files: seq<File>, f: nat)
    requires f < |files|
    ensures G0(files, f + 1) == G0(files, f) + |files[f].spans|
  {
    assert files[..f + 1][..f] == files[..f];
  }

  /** `file_of`: how many leading files end at or before frame `g`. */
  function FileOf(files: seq<File>, g: nat): (f: nat)
    ensures f <= |files|
    ensures forall i :: 0 <= i < f ==> G0(files, i) + |files[i].spans| <= g
    ensures f < |files| ==> g < G0(files, f) + |files[f].spans|
  {
    FileOfFrom(files, g, 0)
  }

  function FileOfFrom(files: seq<File>, g: nat, from: nat): (f: nat)
    requires from <= |files|
    requires forall i :: 0 <= i < from ==> G0(files, i) + |files[i].spans| <= g
    ensures from <= f <= |files|
    ensures forall i :: 0 <= i < f ==> G0(files, i) + |files[i].spans| <= g
    ensures f < |files| ==> g < G0(files, f) + |files[f].spans|
    decreases |files| - from
  {
    if from == |files| || g < G0(files, from) + |files[from].spans| then from
    else FileOfFrom(files, g, from + 1)
  }

  /** Files that end at or before `g` come first. */
  lemma {:induction false} EndsAscend(files: seq<File>, i: nat, j: nat)
    requires i <= j <= |files|
    ensures G0(files, i) <= G0(files, j)
  {
    hide G0;
    if i < j {
      EndsAscend(files, i, j - 1);
      G0Next(files, j - 1);
    }
  }

  /** `partition_point` of `file_of`: bisect for the first file that ends behind frame `g`. */
  method Bisect(files: seq<File>, g: nat) returns (f: nat)
    ensures f == FileOf(files, g)
  {
    hide G0, FileOf;
    var lo, hi := 0, |files|;
    while lo < hi
      invariant 0 <= lo <= hi <= |files|
      invariant forall i :: 0 <= i < lo ==> EndOf(files, i) <= g
      invariant forall i :: hi <= i < |files| ==> g < EndOf(files, i)
    {
      var mid := (lo + hi) / 2;
      if EndOf(files, mid) <= g {
        forall i | lo <= i <= mid ensures EndOf(files, i) <= g {
          EndsGrow(files, i, mid);
        }
        lo := mid + 1;
      } else {
        forall i | mid <= i < hi ensures g < EndOf(files, i) {
          EndsGrow(files, mid, i);
        }
        hi := mid;
      }
    }
    f := lo;
    FileOfUnique(files, g, f);
  }

  /** Global index one past the last frame of file `i`. */
  function EndOf(files: seq<File>, i: nat): nat
    requires i < |files|
  {
    G0(files, i) + |files[i].spans|
  }

  lemma EndsGrow(files: seq<File>, i: nat, j: nat)
    requires i <= j < |files|
    ensures EndOf(files, i) <= EndOf(files, j)
  {
    hide G0;
    G0Next(files, i);
    G0Next(files, j);
    EndsAscend(files, i + 1, j + 1);
  }

  lemma FileOfUnique(files: seq<File>, g: nat, f: nat)
    requires f <= |files|
    requires forall i :: 0 <= i < f ==> EndOf(files, i) <= g
    requires f < |files| ==> g < EndOf(files, f)
    ensures f == FileOf(files, g)
  {
    hide G0, FileOfFrom;
    var h := FileOf(files, g);
    assert h < |files| ==> EndOf(files, h) == G0(files, h) + |files[h].spans|;
    assert f < |files| ==> EndOf(files, f) == G0(files, f) + |files[f].spans|;
  }

  lemma CountedPrefix(files: seq<File>, n: nat)
    requires Counted(files) && n <= |files|
    ensures Counted(files[..n])
  {}

  lemma {:induction false} ItemAt(files: seq<File>, route: Route, size: nat, f: nat, i: nat)
    requires Counted(files) && RouteOk(route) && size > 0
    requires f < |files| && i < |files[f].spans|
    ensures G0(files, f) + i < Total(files)
    ensures Items(files, route, size)[G0(files, f) + i]
         == Item(FrameKey(files[f].traj, i), files[f].spans[i], DestOf(route, size, files[f].traj))
  {
    hide DestOf, Counted, RouteOk;
    var n := |files| - 1;
    if f < n {
      assert Counted(files[..n]) by { CountedPrefix(files, n); }
      ItemAt(files[..n], route, size, f, i);
      assert files[..n][..f] == files[..f];
    }
  }

  lemma FileOfBounds(files: seq<File>, g: nat)
    requires g < Total(files)
    ensures var f := FileOf(files, g);
      f < |files| && G0(files, f) <= g < G0(files, f) + |files[f].spans|
  {
    hide FileOfFrom, Total;
    var f := FileOf(files, g);
    if f == 0 {
      assert files[..0] == [];
      assert Total([]) == 0 by { NoFiles(); }
    } else {
      G0Next(files, f - 1);
    }
    assert files[..|files|] == files;
  }

  lemma NoFiles()
    ensures Total([]) == 0
  {}

  /** `file_of` names the file that holds frame `g`, and the offset in it. */
  lemma FileOfFinds(files: seq<File>, route: Route, size: nat, g: nat)
    requires Counted(files) && RouteOk(route) && size > 0
    requires g < Total(files)
    ensures var f := FileOf(files, g);
      f < |files| && G0(files, f) <= g < G0(files, f) + |files[f].spans|
      && Items(files, route, size)[g]
         == Item(FrameKey(files[f].traj, g - G0(files, f)), files[f].spans[g - G0(files, f)],
                 DestOf(route, size, files[f].traj))
  {
    hide DestOf, FileOfFrom, Total, FileOf, Items, G0;
    FileOfBounds(files, g);
    var f := FileOf(files, g);
    ItemAt(files, route, size, f, g - G0(files, f));
  }

  // ---------------------------------------------------------------------
  // Encoded frames and dedup winners
  // ---------------------------------------------------------------------

  datatype Enc = Enc(hash: Hash, keys: Bytes, stored: Bytes)

  /** Parse one span, derive its keys and its single-frame value. */
  function EncodeItem(w: World, fk: FrameKey, text: Text): Result<Enc> {
    match w.Parse(text)
    case None => Err(ParseError)
    case Some(proj) =>
      var p := Build(w, fk, proj, text, true);
      var keys :- KeyWire.EncodeKeys(p);
      Ok(Enc(p.hash, keys, p.stored))
  }

  predicate EncodedAs(w: World, items: seq<Item>, encs: seq<Enc>) {
    && |encs| == |items|
    && forall g :: 0 <= g < |items| ==> EncodeItem(w, items[g].fk, items[g].text) == Ok(encs[g])
  }

  function HashesOf(encs: seq<Enc>): (hs: seq<Hash>)
    ensures |hs| == |encs|
    ensures forall g :: 0 <= g < |encs| ==> hs[g] == encs[g].hash
  {
    seq(|encs|, g requires 0 <= g < |encs| => encs[g].hash)
  }

  /** Equal bytes in the same environment, as the winner table keys them. */
  function ContentKey(items: seq<Item>, hashes: seq<Hash>, g: nat): (u32, Hash)
    requires g < |items| == |hashes|
  {
    (items[g].dest.env, hashes[g])
  }

  predicate FirstWithKey(items: seq<Item>, hashes: seq<Hash>, f: nat)
    requires f < |items| == |hashes|
  {
    forall h :: 0 <= h < f ==> ContentKey(items, hashes, h) != ContentKey(items, hashes, f)
  }

  predicate WinnerOf(items: seq<Item>, hashes: seq<Hash>, f: nat, g: nat)
    requires g < |items| == |hashes|
  {
    f <= g && ContentKey(items, hashes, f) == ContentKey(items, hashes, g) && FirstWithKey(items, hashes, f)
  }

  /** `first[g]` is the lowest frame with the same content in the same environment. */
  predicate Winners(items: seq<Item>, hashes: seq<Hash>, first: seq<nat>)
    requires |items| == |hashes|
  {
    |first| == |items| && forall g :: 0 <= g < |first| ==> WinnerOf(items, hashes, first[g], g)
  }

  /** The `seen` map pass over all frames. */
  method FirstOf(items: seq<Item>, hashes: seq<Hash>) returns (first: seq<nat>)
    requires |items| == |hashes|
    ensures Winners(items, hashes, first)
  {
    hide ContentKey;
    var seen: map<(u32, Hash), nat> := map[];
    first := [];
    for g := 0 to |items|
      invariant |first| == g
      invariant forall h :: 0 <= h < g ==> ContentKey(items, hashes, h) in seen
      invariant forall k <- seen :: seen[k] < g && k == ContentKey(items, hashes, seen[k]) && FirstWithKey(items, hashes, seen[k])
      invariant forall h :: 0 <= h < g ==> WinnerOf(items, hashes, first[h], h)
    {
      var key := ContentKey(items, hashes, g);
      if key !in seen {
        seen := seen[key := g];
      }
      first := first + [seen[key]];
    }
  }

  /** Distinct texts of one environment have distinct digests. */
  predicate CollisionFree(w: World, items: seq<Item>) {
    forall g, h ::
      && 0 <= g < |items| && 0 <= h < |items|
      && w.Digest(items[g].text) == w.Digest(items[h].text)
      && items[g].dest.env == items[h].dest.env
      ==> items[g].text == items[h].text
  }

  lemma WinnerBytes(w: World, items: seq<Item>, encs: seq<Enc>, first: seq<nat>, g: nat)
    requires EncodedAs(w, items, encs) && Winners(items, HashesOf(encs), first) && CollisionFree(w, items)
    requires g < |items|
    ensures first[g] <= g && items[first[g]].dest.env == items[g].dest.env
    ensures first[first[g]] == first[g]
    ensures encs[first[g]].stored == encs[g].stored && |encs[first[g]].keys| == |encs[g].keys|
  {
    hide KeyWire.EncodeKeys;
    var f := first[g];
    assert WinnerOf(items, HashesOf(encs), f, g);
    assert WinnerOf(items, HashesOf(encs), first[f], f);
    assert EncodeItem(w, items[f].fk, items[f].text) == Ok(encs[f]);
    assert EncodeItem(w, items[g].fk, items[g].text) == Ok(encs[g]);
    assert items[f].text == items[g].text;
    KeyWire.SameTextWidth(w, w.Parse(items[g].text).value, items[g].text, true, items[f].fk, items[g].fk);
  }
}
