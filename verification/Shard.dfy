/** Trajectories spread over shards by id: fan-out select, and joining and splitting by re-appending the text. */
module Shard {
  import opened Prelude
  import opened Utf8
  import opened Keys
  import opened KeyOrder
  import opened Store
  import opened Corpus
  import opened CorpusGrow
  import opened Query
  import opened Selection
  import opened Routing
  import opened CorpusRebuild
  import Ingest
  import Mutators
  import FC = FrameCodec

  // ---------------------------------------------------------------------
  // Fan-out select
  // ---------------------------------------------------------------------

  /** The live texts of all shards together. */
  function Union(parts: seq<Texts>): Texts {
    if parts == [] then map[] else Union(parts[..|parts| - 1]) + parts[|parts| - 1]
  }

  /** Shard `s` holds only trajectories that route to it. */
  predicate Routed(parts: seq<Texts>, n: u32) {
    n > 0 && |parts| == n && forall s :: 0 <= s < |parts| ==> forall fk <- parts[s] :: ShardForTraj(fk.traj, n) == s
  }

  predicate Apart(parts: seq<Texts>) {
    forall i, j, fk :: 0 <= i < j < |parts| && fk in parts[i] ==> fk !in parts[j]
  }

  lemma RoutedApart(parts: seq<Texts>, n: u32)
    requires Routed(parts, n)
    ensures Apart(parts)
  {
    forall i, j, fk | 0 <= i < j < |parts| && fk in parts[i] ensures fk !in parts[j] {
      assert ShardForTraj(fk.traj, n) == i;
    }
  }

  lemma {:induction false} UnionIs(parts: seq<Texts>, s: nat, fk: FrameKey)
    requires Apart(parts) && s < |parts| && fk in parts[s]
    ensures fk in Union(parts) && Union(parts)[fk] == parts[s][fk]
  {
    var n := |parts| - 1;
    if s < n {
      UnionIs(parts[..n], s, fk);
      assert fk !in parts[n];
    }
  }

  lemma {:induction false} UnionHas(parts: seq<Texts>, s: nat)
    requires s < |parts|
    ensures parts[s].Keys <= Union(parts).Keys
  {
    if s < |parts| - 1 {
      UnionHas(parts[..|parts| - 1], s);
    }
  }

  lemma {:induction false} UnionFrom(parts: seq<Texts>, fk: FrameKey) returns (s: nat)
    requires fk in Union(parts)
    ensures s < |parts| && fk in parts[s]
  {
    var n := |parts| - 1;
    if fk in parts[n] {
      s := n;
    } else {
      s := UnionFrom(parts[..n], fk);
    }
  }

  /** The filters of a query without a digest look at one frame's text, so the union's matches are the shards'. */
  lemma WantedApart(w: World, posts: seq<map<Hash, FrameKey>>, all: map<Hash, FrameKey>, parts: seq<Texts>, q: Select, s: nat, fk: FrameKey)
    requires |q.meta| <= 7 && q.contentHash.None? && Apart(parts) && |posts| == |parts| && s < |parts| && fk in parts[s]
    ensures fk in Wanted(w, all, Union(parts), q) <==> fk in Wanted(w, posts[s], parts[s], q)
  {
    hide Meets, Filters, Union;
    NoDigest(q);
    UnionIs(parts, s, fk);
    var fs := Filters(q);
    forall i | 0 <= i < |fs|
      ensures Kept(w, all, Union(parts), fs[i], fk) <==> Kept(w, posts[s], parts[s], fs[i], fk) {}
  }

  ghost predicate Answers(w: World, posts: seq<map<Hash, FrameKey>>, parts: seq<Texts>, q: Select, outs: seq<seq<FrameKey>>)
    requires |q.meta| <= 7
  {
    && |posts| == |outs| == |parts|
    && forall s :: 0 <= s < |parts| ==> FirstOf(outs[s], Wanted(w, posts[s], parts[s], q), q.limit)
  }

  function Gathered(outs: seq<seq<FrameKey>>): (s: set<FrameKey>) {
    set o <- outs, k <- o :: k
  }

  /** At least as many keys of `s` as `out` has come before `k`, so all of `out` does. */
  lemma CutBefore(all: seq<FrameKey>, s: set<FrameKey>, part: seq<FrameKey>, k: FrameKey, i: nat)
    requires Lists(all, s) && Sorted(part) && i < |part| && i < |all|
    requires forall j :: 0 <= j < |part| ==> part[j] in s && KeyLess(part[j], k)
    ensures KeyLess(all[i], k)
  {
    if !KeyLess(all[i], k) {
      var early, firsts := set j | 0 <= j < |part| :: part[j], set j | 0 <= j < i :: all[j];
      SortedSize(part, early);
      SortedSize(all[..i], firsts);
      forall x | x in early ensures x in firsts {
        var j :| 0 <= j < |all| && all[j] == x;
      }
      SubsetSize(early, firsts);
    }
  }

  lemma SortedSize(keys: seq<FrameKey>, s: set<FrameKey>)
    requires Sorted(keys) && s == set j | 0 <= j < |keys| :: keys[j]
    ensures |s| == |keys|
  {
    assert Lists(keys, s);
    ListedSize(keys, s);
  }

  /** Merging the shards' cut-off answers and cutting again gives the cut-off answer of the whole. */
  lemma TopOfTops(w: World, posts: seq<map<Hash, FrameKey>>, all: map<Hash, FrameKey>, parts: seq<Texts>, q: Select,
      outs: seq<seq<FrameKey>>, merged: seq<FrameKey>)
    requires |q.meta| <= 7 && q.contentHash.None? && Apart(parts) && Answers(w, posts, parts, q, outs)
    requires Lists(merged, Gathered(outs))
    ensures var n := if q.limit.Some? then Min(q.limit.value, |merged|) else |merged|;
      FirstOf(merged[..n], Wanted(w, all, Union(parts), q), q.limit)
  {
    hide Wanted, Union, Apart;
    var whole, some := Wanted(w, all, Union(parts), q), Gathered(outs);
    GatheredWanted(w, posts, all, parts, q, outs);
    ListedSize(merged, some);
    SubsetSize(some, whole);
    var n := if q.limit.Some? then Min(q.limit.value, |merged|) else |merged|;
    var out := merged[..n];
    forall k | k in whole ensures k in out || forall i :: 0 <= i < n ==> KeyLess(out[i], k) {
      if k in some {
        InListing(merged, some, n, k);
      } else {
        var s := MissingFull(w, posts, all, parts, q, outs, k);
        PartBefore(outs, merged, q.limit.value, s, k);
      }
    }
    assert |out| == if q.limit.Some? then Min(q.limit.value, |whole|) else |whole| by {
      if k :| k in whole && k !in some {
        var s := MissingFull(w, posts, all, parts, q, outs, k);
        PartFull(outs, s, q.limit.value);
      } else {
        assert whole == some;
      }
    }
  }

  lemma InListing(merged: seq<FrameKey>, some: set<FrameKey>, n: nat, k: FrameKey)
    requires Lists(merged, some) && n <= |merged| && k in some
    ensures k in merged[..n] || forall i :: 0 <= i < n ==> KeyLess(merged[..n][i], k)
  {
    var j :| 0 <= j < |merged| && merged[j] == k;
    if j < n {
      assert merged[..n][j] == k;
    }
  }

  /** Every key a shard returns is wanted of the whole. */
  lemma GatheredWanted(w: World, posts: seq<map<Hash, FrameKey>>, all: map<Hash, FrameKey>, parts: seq<Texts>, q: Select, outs: seq<seq<FrameKey>>)
    requires |q.meta| <= 7 && q.contentHash.None? && Apart(parts) && Answers(w, posts, parts, q, outs)
    ensures Gathered(outs) <= Wanted(w, all, Union(parts), q)
  {
    hide Union, Apart, KeptByAll, Filters, Sorted;
    forall k | k in Gathered(outs) ensures k in Wanted(w, all, Union(parts), q) {
      var s: nat :| s < |outs| && k in outs[s];
      var i :| 0 <= i < |outs[s]| && outs[s][i] == k;
      assert k in Wanted(w, posts[s], parts[s], q);
      WantedApart(w, posts, all, parts, q, s, k);
    }
  }

  /** A wanted key no shard returned was cut off: its shard returned a full answer of smaller keys. */
  lemma MissingFull(w: World, posts: seq<map<Hash, FrameKey>>, all: map<Hash, FrameKey>, parts: seq<Texts>, q: Select,
      outs: seq<seq<FrameKey>>, k: FrameKey) returns (s: nat)
    requires |q.meta| <= 7 && q.contentHash.None? && Apart(parts) && Answers(w, posts, parts, q, outs)
    requires k in Wanted(w, all, Union(parts), q) && k !in Gathered(outs)
    ensures s < |outs| && q.limit.Some? && |outs[s]| == q.limit.value && Sorted(outs[s])
    ensures forall i :: 0 <= i < |outs[s]| ==> KeyLess(outs[s][i], k)
  {
    hide Union, Apart, KeptByAll, Filters, Sorted;
    s := UnionFrom(parts, k);
    WantedApart(w, posts, all, parts, q, s, k);
    var mine := Wanted(w, posts[s], parts[s], q);
    assert FirstOf(outs[s], mine, q.limit);
    assert k !in outs[s];
    if q.limit.None? || q.limit.value > |mine| {
      Complete(outs[s], mine);
    } else if q.limit.value == |mine| {
      Complete(outs[s], mine);
    }
  }

  lemma Complete(out: seq<FrameKey>, s: set<FrameKey>)
    requires Sorted(out) && (forall i :: 0 <= i < |out| ==> out[i] in s) && |out| == |s|
    ensures forall k <- s :: k in out
  {
    var listed := set j | 0 <= j < |out| :: out[j];
    SortedSize(out, listed);
    SameSize(listed, s);
  }

  lemma PartFull(outs: seq<seq<FrameKey>>, s: nat, limit: nat)
    requires s < |outs| && |outs[s]| == limit && Sorted(outs[s])
    ensures |Gathered(outs)| >= limit
  {
    var mine := set j | 0 <= j < |outs[s]| :: outs[s][j];
    SortedSize(outs[s], mine);
    assert mine <= Gathered(outs) by {
      forall x | x in mine ensures x in Gathered(outs) {
        assert outs[s] in outs && x in outs[s];
      }
    }
    SubsetSize(mine, Gathered(outs));
  }

  lemma PartBefore(outs: seq<seq<FrameKey>>, merged: seq<FrameKey>, limit: nat, s: nat, k: FrameKey)
    requires s < |outs| && |outs[s]| == limit && Sorted(outs[s]) && Lists(merged, Gathered(outs))
    requires forall i :: 0 <= i < |outs[s]| ==> KeyLess(outs[s][i], k)
    ensures forall i :: 0 <= i < Min(limit, |merged|) ==> KeyLess(merged[i], k)
  {
    forall i | 0 <= i < Min(limit, |merged|) ensures KeyLess(merged[i], k) {
      forall j | 0 <= j < |outs[s]| ensures outs[s][j] in Gathered(outs) {
        assert outs[s] in outs && outs[s][j] in outs[s];
      }
      CutBefore(merged, Gathered(outs), outs[s], k, i);
    }
  }

  /** A shard that has data answers for its texts; one that was never written holds none. */
  ghost predicate ShardOk(w: World, shard: Option<Store>, texts: Texts, rows: Table -> seq<Bytes>) {
    match shard
    case None => texts == map[]
    case Some(s) => Sound(w, s, texts) && s.frames.Keys == texts.Keys && Cursors(s.idx, rows)
  }

  function PostsOf(shard: Option<Store>): map<Hash, FrameKey> {
    match shard
    case None => map[]
    case Some(s) => s.frameByHash
  }

  ghost function AllPosts(shards: seq<Option<Store>>): (posts: seq<map<Hash, FrameKey>>)
    ensures |posts| == |shards| && forall s :: 0 <= s < |shards| ==> posts[s] == PostsOf(shards[s])
  {
    seq(|shards|, s requires 0 <= s < |shards| => PostsOf(shards[s]))
  }

  lemma NothingWanted(w: World, posts: map<Hash, FrameKey>, q: Select)
    requires |q.meta| <= 7
    ensures FirstOf([], Wanted(w, posts, map[], q), q.limit)
  {
    hide Filters, KeptByAll;
    assert Wanted(w, posts, map[], q) == {};
  }

  /** `ShardedConCorpus::select` returns what one environment with all the shards' frames would return. */
  method FanOut(shards: seq<Option<Store>>, rows: nat -> (Table -> seq<Bytes>), q: Select, n: u32,
      ghost w: World, ghost parts: seq<Texts>, ghost all: map<Hash, FrameKey>) returns (out: seq<FrameKey>)
    requires |q.meta| <= 7 && q.contentHash.None? && |shards| == |parts| && Routed(parts, n)
    requires forall s :: 0 <= s < |shards| ==> ShardOk(w, shards[s], parts[s], rows(s))
    ensures FirstOf(out, Wanted(w, all, Union(parts), q), q.limit)
  {
    hide Sound, Cursors, Wanted, FirstOf, Union, Routed, Apart, Lists;
    var found: set<FrameKey> := {};
    ghost var outs: seq<seq<FrameKey>> := [];
    ghost var posts := AllPosts(shards);
    for s := 0 to |shards|
      invariant |outs| == s && found == Gathered(outs)
      invariant forall j :: 0 <= j < s ==> FirstOf(outs[j], Wanted(w, posts[j], parts[j], q), q.limit)
    {
      var keys := [];
      assert ShardOk(w, shards[s], parts[s], rows(s));
      if shards[s].Some? {
        keys := SelectKeys(shards[s].value, rows(s), q, w, parts[s]);
      } else {
        NothingWanted(w, posts[s], q);
      }
      GatheredSnoc(outs, keys);
      found := found + (set k | k in keys);
      outs := outs + [keys];
    }
    RoutedApart(parts, n);
    var merged := Listing(found);
    TopOfTops(w, posts, all, parts, q, outs, merged);
    out := if q.limit.Some? && q.limit.value < |merged| then merged[..q.limit.value] else merged;
    assert merged[..|merged|] == merged;
  }

  lemma GatheredSnoc(outs: seq<seq<FrameKey>>, keys: seq<FrameKey>)
    ensures Gathered(outs + [keys]) == Gathered(outs) + (set k | k in keys)
  {
    forall k ensures k in Gathered(outs + [keys]) <==> k in Gathered(outs) || k in keys {
      if k in Gathered(outs + [keys]) {
        var o :| o in outs + [keys] && k in o;
        assert o in outs || o == keys;
      }
      if k in keys {
        assert keys in outs + [keys];
      }
    }
  }

  // ---------------------------------------------------------------------
  // Joining and splitting
  // ---------------------------------------------------------------------

  /** Frames of one trajectory. */
  function OnTraj(texts: Texts, traj: u64): (r: Texts)
    ensures forall fk :: fk in r <==> fk in texts && fk.traj == traj
    ensures forall fk <- r :: r[fk] == texts[fk]
  {
    map fk | fk in texts && fk.traj == traj :: texts[fk]
  }

  /** The frames of the trajectories in `trajs`. */
  function OnTrajs(texts: Texts, trajs: set<u64>): (r: Texts)
    ensures forall fk :: fk in r <==> fk in texts && fk.traj in trajs
    ensures forall fk <- r :: r[fk] == texts[fk]
  {
    map fk | fk in texts && fk.traj in trajs :: texts[fk]
  }

  /** The frames that route to shard `s`. */
  function OnShard(texts: Texts, n: u32, s: nat): (r: Texts)
    requires n > 0
    ensures forall fk :: fk in r <==> fk in texts && ShardForTraj(fk.traj, n) == s
    ensures forall fk <- r :: r[fk] == texts[fk]
  {
    map fk | fk in texts && ShardForTraj(fk.traj, n) == s :: texts[fk]
  }

  /** The parser cuts the concatenation of a trajectory's stored texts back into those texts. */
  ghost predicate SplitsBack(Split: Bytes -> Result<seq<Text>>, s: Store, texts: Texts) {
    forall traj <- s.meta :: Split(Flatten(Mutators.SpansOf(texts, traj, s.meta[traj].frames)))
      == Ok(Mutators.SpansOf(texts, traj, s.meta[traj].frames))
  }

  /** A spans list put from index 0 on is that trajectory's part of the texts. */
  lemma SpansAreTraj(w: World, src: Store, texts: Texts, dst: Texts, traj: u64, n: u32)
    requires Coherent(w, src, texts) && n == Live(src, traj)
    ensures WithSpan(dst, traj, 0, Mutators.SpansOf(texts, traj, n)) == dst + OnTraj(texts, traj)
  {
    hide WithSpan, OnTraj, Sound, Readable, CookedFresh;
    var spans := Mutators.SpansOf(texts, traj, n);
    var a, b := WithSpan(dst, traj, 0, spans), dst + OnTraj(texts, traj);
    assert a.Keys == b.Keys;
    forall fk | fk in a ensures a[fk] == b[fk] {
      if InSpan(fk, traj, 0, n) {
        WithSpanAt(dst, traj, 0, spans, fk);
        assert fk == FrameKey(traj, fk.idx);
      }
    }
  }

  lemma NotInMeta(w: World, s: Store, texts: Texts, traj: u64)
    requires Coherent(w, s, texts)
    ensures traj !in s.meta ==> forall fk <- texts :: fk.traj != traj
  {
    hide Sound, Readable, CookedFresh;
  }

  /** No trajectory is on both sides. */
  predicate TrajApart(a: Texts, b: Texts) {
    forall fk, gk :: fk in a && gk in b ==> fk.traj != gk.traj
  }

  /** Only trajectories with frames are recorded. */
  predicate Lean(s: Store) {
    forall t <- s.meta :: s.meta[t].frames > 0
  }

  lemma LeanHas(w: World, s: Store, texts: Texts, traj: u64)
    requires Coherent(w, s, texts) && Lean(s) && traj in s.meta
    ensures FrameKey(traj, 0) in texts
  {
    hide Sound, Readable, CookedFresh;
  }

  /** The texts of a trajectory as they are copied: they parse, and they group exactly when its frames fit. */
  lemma CopiedSpans(w: World, s: Store, texts: Texts, traj: u64, keys: seq<FrameKey>)
    requires Coherent(w, s, texts) && Lists(keys, Mutators.KeysOfTraj(s, traj))
    requires |keys| == Live(s, traj) && forall i :: 0 <= i < |keys| ==> keys[i] == FrameKey(traj, i)
    ensures var spans := Mutators.SpansOf(texts, traj, |keys|);
      && (forall i :: 0 <= i < |spans| ==> w.Parse(spans[i]).Some?)
      && (FC.Groupable(Ingest.FramesFrom(0, spans)) <==> TrajFits(texts, traj))
  {
    hide Hashed, Posted, Indexed, CookedFresh, Numbered, Read, FC.Groupable, TrajFits, FC.Lawful;
    Mutators.ListedTraj(w.zstd, s, texts, traj, keys);
    var spans := Mutators.SpansOf(texts, traj, |keys|);
    assert FramesOf(texts, keys) == Ingest.FramesFrom(0, spans);
    TrajFitsIs(texts, traj, keys);
  }

  /** Read one trajectory frame by frame, concatenate, and append the text to another environment. */
  method CopyTraj(w: World, src: Store, dst: Store, traj: u64, source: string, compress: bool,
      Split: Bytes -> Result<seq<Text>>, ghost texts: Texts, ghost into: Texts) returns (r: Result<Store>)
    requires FC.Lawful(w.zstd) && Coherent(w, src, texts) && Coherent(w, dst, into)
    requires traj in src.meta && SplitsBack(Split, src, texts)
    ensures r.Ok? <==> traj !in dst.meta && (compress ==> TrajFits(texts, traj))
    ensures r.Ok? ==> Coherent(w, r.value, into + OnTraj(texts, traj)) && forall gk <- into :: gk.traj != traj
    ensures r.Ok? ==> r.value.meta == dst.meta[traj := TrajMeta(Live(src, traj), source)]
  {
    hide Coherent, WithSpan, OnTraj, Ingest.Append, FC.Lawful, Read, Lists, FC.Groupable, TrajFits;
    NotInMeta(w, dst, into, traj);
    var keys := Listing(Mutators.KeysOfTraj(src, traj));
    Mutators.TrajRun(w, src, texts, traj, keys);
    ghost var spans := Mutators.SpansOf(texts, traj, |keys|);
    CopiedSpans(w, src, texts, traj, keys);
    var concat: Bytes := [];
    for i := 0 to |keys|
      invariant concat == Flatten(spans[..i])
    {
      Mutators.ReadsBack(w, src, texts, keys[i]);
      var blob := Read(w.zstd, src.frames, keys[i]);
      if blob.Err? {
        return Err(CorruptFrame);
      }
      FlattenSnoc(spans[..i], spans[i]);
      assert spans[..i + 1] == spans[..i] + [spans[i]];
      concat := concat + blob.value;
    }
    assert spans[..|spans|] == spans;
    var cut := Split(concat);
    if cut.Err? {
      return Err(ParseError);
    }
    r := Ingest.Append(w, dst, traj, cut.value, source, compress);
    AppendSucceeds(w, dst, traj, cut.value, source, compress);
    AppendCoherent(w, dst, into, traj, cut.value, source, compress);
    SpansAreTraj(w, src, texts, into, traj, |keys|);
  }

  predicate Ascending(trajs: seq<u64>) {
    forall i, j :: 0 <= i < j < |trajs| ==> trajs[i] < trajs[j]
  }

  lemma AscendingSnoc(trajs: seq<u64>, t: u64)
    requires Ascending(trajs) && (trajs != [] ==> trajs[|trajs| - 1] < t)
    ensures Ascending(trajs + [t])
  {}

  lemma NextTraj(keys: seq<FrameKey>, i: nat)
    requires Sorted(keys) && 0 < i < |keys|
    ensures keys[i - 1].traj <= keys[i].traj
  {
    assert KeyLess(keys[i - 1], keys[i]);
  }

  /** The trajectories that have frames, in ascending order. */
  method TrajList(s: Store) returns (trajs: seq<u64>)
    ensures ListsTrajs(trajs, s) && Ascending(trajs)
  {
    hide Sorted, KeyLess, Ascending, HasTraj;
    var keys := Listing(s.frames.Keys);
    trajs := [];
    AscendingNone();
    for i := 0 to |keys|
      invariant Ascending(trajs)
      invariant forall a :: 0 <= a < |trajs| ==> HasTraj(s, trajs[a])
      invariant forall j :: 0 <= j < i ==> keys[j].traj in trajs
      invariant if i == 0 then trajs == [] else trajs != [] && trajs[|trajs| - 1] == keys[i - 1].traj
    {
      if i > 0 {
        NextTraj(keys, i);
      }
      if i == 0 || keys[i].traj != keys[i - 1].traj {
        Having(s, keys[i]);
        AscendingSnoc(trajs, keys[i].traj);
        trajs := trajs + [keys[i].traj];
      }
    }
    forall fk | fk in s.frames ensures fk.traj in trajs {
      assert fk in keys;
    }
  }

  lemma AscendingNone()
    ensures Ascending([])
  {}

  lemma Having(s: Store, fk: FrameKey)
    requires fk in s.frames
    ensures HasTraj(s, fk.traj)
  {}

  /** A trajectory that was not copied but is recorded at the destination is there already. */
  lemma AlreadyThere(w: World, s: Store, texts: Texts, into: Texts, done: set<u64>, traj: u64, src: Store, out: Store)
    requires Coherent(w, src, texts) && HasTraj(src, traj) && traj !in done
    requires Coherent(w, out, into + OnTrajs(texts, done)) && Lean(out) && traj in out.meta
    ensures !TrajApart(into, texts)
  {
    hide Coherent, OnTrajs;
    LeanHas(w, out, into + OnTrajs(texts, done), traj);
    assert FrameKey(traj, 0) in into;
    var fk := FrameOn(w, src, texts, traj);
  }

  lemma FrameOn(w: World, s: Store, texts: Texts, traj: u64) returns (fk: FrameKey)
    requires Coherent(w, s, texts) && HasTraj(s, traj)
    ensures fk in texts && fk.traj == traj && traj in s.meta && Live(s, traj) > 0
  {
    hide Sound, Read, CookedFresh;
    fk :| fk in s.frames && fk.traj == traj;
  }

  /** `append_sharded_into` for one shard: all its trajectories in ascending order. */
  method CopyAll(w: World, src: Store, dst: Store, source: string, compress: bool, Split: Bytes -> Result<seq<Text>>,
      ghost texts: Texts, ghost into: Texts) returns (r: Result<Store>)
    requires FC.Lawful(w.zstd) && Coherent(w, src, texts) && Coherent(w, dst, into) && SplitsBack(Split, src, texts)
    requires Lean(dst)
    ensures r.Ok? <==> TrajApart(into, texts) && (compress ==> AllFit(texts))
    ensures r.Ok? ==> Coherent(w, r.value, into + texts) && Lean(r.value)
  {
    hide Coherent, FC.Lawful, SplitsBack, OnTraj, OnTrajs, HasTraj, TrajApart, AllFit, TrajFits, Lean, Ascending, CopiedTo;
    var trajs := TrajList(src);
    TrajsKnown(w, src, texts, trajs);
    var out := dst;
    ghost var done: set<u64> := {};
    NoneCopied(w, dst, texts, into, compress);
    for i := 0 to |trajs|
      invariant forall t: u64 :: t in done <==> t in trajs[..i]
      invariant CopiedTo(w, out, texts, into, done, compress)
    {
      NotYet(trajs, i);
      CopiedMeans(w, out, texts, into, done, compress);
      if trajs[i] in out.meta {
        AlreadyThere(w, src, texts, into, done, trajs[i], src, out);
      }
      UnfitTraj(texts, trajs[i]);
      ghost var fk := FrameOn(w, src, texts, trajs[i]);
      ghost var before := out;
      out :- CopyTraj(w, src, out, trajs[i], source, compress, Split, texts, into + OnTrajs(texts, done));
      CopiedMore(w, src, before, out, texts, into, done, trajs[i], source, compress);
      assert trajs[..i + 1] == trajs[..i] + [trajs[i]];
      done := done + {trajs[i]};
    }
    assert trajs[..|trajs|] == trajs;
    CopiedMeans(w, out, texts, into, done, compress);
    AllTrajs(texts, into, done);
    AllCopied(texts, into, done, compress);
    r := Ok(out);
  }

  /** The trajectories of `done` are copied: none of them was there before, and each fits where it must. */
  ghost predicate CopiedTo(w: World, out: Store, texts: Texts, into: Texts, done: set<u64>, compress: bool) {
    && (forall gk <- into :: gk.traj !in done)
    && (compress ==> forall t <- done :: TrajFits(texts, t))
    && Coherent(w, out, into + OnTrajs(texts, done)) && Lean(out)
  }

  lemma NoneCopied(w: World, dst: Store, texts: Texts, into: Texts, compress: bool)
    requires Coherent(w, dst, into) && Lean(dst)
    ensures CopiedTo(w, dst, texts, into, {}, compress)
  {
    hide Coherent, Lean, TrajFits;
    assert into + OnTrajs(texts, {}) == into;
  }

  lemma CopiedMeans(w: World, out: Store, texts: Texts, into: Texts, done: set<u64>, compress: bool)
    requires CopiedTo(w, out, texts, into, done, compress)
    ensures forall gk <- into :: gk.traj !in done
    ensures compress ==> forall t <- done :: TrajFits(texts, t)
    ensures Coherent(w, out, into + OnTrajs(texts, done)) && Lean(out)
  {
    hide Coherent, Lean, TrajFits, OnTrajs;
  }

  lemma CopiedMore(w: World, src: Store, before: Store, out: Store, texts: Texts, into: Texts, done: set<u64>, traj: u64,
      source: string, compress: bool)
    requires CopiedTo(w, before, texts, into, done, compress) && (compress ==> TrajFits(texts, traj))
    requires Coherent(w, out, into + OnTrajs(texts, done) + OnTraj(texts, traj))
    requires forall gk <- into + OnTrajs(texts, done) :: gk.traj != traj
    requires Live(src, traj) > 0 && out.meta == before.meta[traj := TrajMeta(Live(src, traj), source)]
    ensures CopiedTo(w, out, texts, into, done + {traj}, compress)
  {
    hide Coherent, TrajFits, OnTraj, OnTrajs, Live;
    OneMore(texts, into, done, traj);
  }

  lemma NotYet(trajs: seq<u64>, i: nat)
    requires Ascending(trajs) && i < |trajs|
    ensures trajs[i] !in trajs[..i]
  {}

  lemma UnfitTraj(texts: Texts, traj: u64)
    ensures !TrajFits(texts, traj) ==> !AllFit(texts)
  {
    hide Fits;
  }

  lemma AllCopied(texts: Texts, into: Texts, done: set<u64>, compress: bool)
    requires forall fk <- texts :: fk.traj in done
    requires forall gk <- into :: gk.traj !in done
    requires compress ==> forall t <- done :: TrajFits(texts, t)
    ensures TrajApart(into, texts) && (compress ==> AllFit(texts))
  {
    hide Fits;
  }

  predicate HasTraj(s: Store, traj: u64) {
    exists fk :: fk in s.frames && fk.traj == traj
  }

  predicate ListsTrajs(trajs: seq<u64>, s: Store) {
    && (forall i :: 0 <= i < |trajs| ==> HasTraj(s, trajs[i]))
    && forall fk <- s.frames :: fk.traj in trajs
  }

  lemma TrajsKnown(w: World, s: Store, texts: Texts, trajs: seq<u64>)
    requires Coherent(w, s, texts) && ListsTrajs(trajs, s)
    ensures forall i :: 0 <= i < |trajs| ==> trajs[i] in s.meta
    ensures forall fk <- texts :: fk.traj in trajs
  {
    hide Sound, Read, CookedFresh;
  }

  lemma OneMore(texts: Texts, into: Texts, done: set<u64>, traj: u64)
    ensures into + OnTrajs(texts, done) + OnTraj(texts, traj) == into + OnTrajs(texts, done + {traj})
  {
    hide OnTraj, OnTrajs;
    var a, b := into + OnTrajs(texts, done) + OnTraj(texts, traj), into + OnTrajs(texts, done + {traj});
    assert a.Keys == b.Keys;
  }

  lemma AllTrajs(texts: Texts, into: Texts, trajs: set<u64>)
    requires forall fk <- texts :: fk.traj in trajs
    ensures into + OnTrajs(texts, trajs) == into + texts
  {
    hide OnTrajs;
    assert OnTrajs(texts, trajs) == texts;
  }

  /** No trajectory has frames on two shards. */
  predicate AllApart(parts: seq<Texts>) {
    forall i, j :: 0 <= i < j < |parts| ==> TrajApart(parts[i], parts[j])
  }

  lemma JoinNothing()
    ensures Union([]) == map[] && AllApart([])
  {}

  lemma JoinOne(parts: seq<Texts>, s: nat)
    requires s < |parts| && AllApart(parts[..s]) && TrajApart(Union(parts[..s]), parts[s])
    ensures Union(parts[..s + 1]) == Union(parts[..s]) + parts[s] && AllApart(parts[..s + 1])
  {
    hide Union, TrajApart;
    UnionSnoc(parts, s);
    forall i | 0 <= i < s ensures TrajApart(parts[i], parts[s]) {
      UnionHas(parts[..s], i);
      FewerApart(Union(parts[..s]), parts[i], parts[s]);
    }
    assert forall i :: 0 <= i < s ==> parts[..s][i] == parts[i];
  }

  lemma UnionSnoc(parts: seq<Texts>, s: nat)
    requires s < |parts|
    ensures Union(parts[..s + 1]) == Union(parts[..s]) + parts[s]
  {
    assert parts[..s + 1][..s] == parts[..s];
  }

  lemma FewerApart(a: Texts, b: Texts, c: Texts)
    requires TrajApart(a, c) && b.Keys <= a.Keys
    ensures TrajApart(b, c)
  {}

  /** A shard that shares a trajectory with an earlier one. */
  lemma JoinClash(parts: seq<Texts>, s: nat)
    requires s < |parts| && AllApart(parts)
    ensures TrajApart(Union(parts[..s]), parts[s])
  {
    hide Union;
    forall fk, gk | fk in Union(parts[..s]) && gk in parts[s] ensures fk.traj != gk.traj {
      var j := UnionFrom(parts[..s], fk);
      assert TrajApart(parts[j], parts[s]);
    }
  }

  /** Two environments that agree on a trajectory's texts agree on its count and its spans. */
  lemma SameTraj(w: World, a: Store, ta: Texts, b: Store, tb: Texts, traj: u64)
    requires Coherent(w, a, ta) && Coherent(w, b, tb)
    requires traj in a.meta && a.meta[traj].frames > 0
    requires forall fk: FrameKey :: fk.traj == traj ==> (fk in ta <==> fk in tb) && (fk in ta ==> ta[fk] == tb[fk])
    ensures traj in b.meta && b.meta[traj].frames == a.meta[traj].frames
    ensures Mutators.SpansOf(ta, traj, a.meta[traj].frames) == Mutators.SpansOf(tb, traj, a.meta[traj].frames)
  {
    hide Sound, Readable, CookedFresh;
    var n := a.meta[traj].frames;
    assert FrameKey(traj, 0) in ta;
    var m := b.meta[traj].frames;
    assert FrameKey(traj, n) !in ta && FrameKey(traj, m) !in tb;
    assert n == m;
    assert forall i :: 0 <= i < n ==> FrameKey(traj, i) in ta;
  }

  /** A trajectory of the union is the trajectory of the one shard that has it. */
  lemma UnionTraj(parts: seq<Texts>, s: nat, fk: FrameKey, gk: FrameKey)
    requires AllApart(parts) && s < |parts| && fk in parts[s] && gk.traj == fk.traj
    ensures gk in Union(parts) <==> gk in parts[s]
    ensures gk in parts[s] ==> Union(parts)[gk] == parts[s][gk]
  {
    hide Union, TrajApart;
    AllApartMeans(parts);
    if gk in Union(parts) {
      var j := UnionFrom(parts, gk);
      if j != s {
        Together(parts[j], parts[s], gk, fk);
        Together(parts[s], parts[j], fk, gk);
        assert false;
      }
    }
    if gk in parts[s] {
      UnionIs(parts, s, gk);
    }
  }

  lemma AllApartMeans(parts: seq<Texts>)
    requires AllApart(parts)
    ensures Apart(parts)
  {
    forall i, j, fk | 0 <= i < j < |parts| && fk in parts[i] ensures fk !in parts[j] {
      assert TrajApart(parts[i], parts[j]);
    }
  }

  lemma Together(a: Texts, b: Texts, fk: FrameKey, gk: FrameKey)
    requires fk in a && gk in b && fk.traj == gk.traj
    ensures !TrajApart(a, b)
  {}

  /** The joined environment records each copied trajectory with its count. */
  predicate CountsJoined(shards: seq<Store>, joined: Store) {
    && Lean(joined)
    && (forall t <- joined.meta :: exists s :: 0 <= s < |shards| && t in shards[s].meta)
    && forall s, t :: 0 <= s < |shards| && t in shards[s].meta && shards[s].meta[t].frames > 0
        ==> t in joined.meta && joined.meta[t].frames == shards[s].meta[t].frames
  }

  ghost predicate ShardsOk(w: World, shards: seq<Store>, parts: seq<Texts>, Split: Bytes -> Result<seq<Text>>) {
    && |shards| == |parts|
    && forall s :: 0 <= s < |shards| ==> Coherent(w, shards[s], parts[s]) && SplitsBack(Split, shards[s], parts[s])
  }

  lemma JoinedTraj(w: World, shards: seq<Store>, parts: seq<Texts>, joined: Store, s: nat, t: u64)
    requires |shards| == |parts| && s < |shards| && AllApart(parts)
    requires Coherent(w, shards[s], parts[s]) && Coherent(w, joined, Union(parts))
    requires FrameKey(t, 0) in parts[s]
    ensures t in shards[s].meta && t in joined.meta && joined.meta[t].frames == shards[s].meta[t].frames > 0
    ensures Mutators.SpansOf(Union(parts), t, joined.meta[t].frames) == Mutators.SpansOf(parts[s], t, shards[s].meta[t].frames)
  {
    hide Union, AllApart, Coherent, Mutators.SpansOf;
    Recorded(w, shards[s], parts[s], FrameKey(t, 0));
    forall fk: FrameKey | fk.traj == t
      ensures (fk in parts[s] <==> fk in Union(parts)) && (fk in parts[s] ==> parts[s][fk] == Union(parts)[fk])
    {
      UnionTraj(parts, s, FrameKey(t, 0), fk);
    }
    SameTraj(w, shards[s], parts[s], joined, Union(parts), t);
  }

  lemma Recorded(w: World, s: Store, texts: Texts, fk: FrameKey)
    requires Coherent(w, s, texts)
    ensures fk in texts <==> fk.traj in s.meta && fk.idx < s.meta[fk.traj].frames
  {
    hide Sound, Readable, CookedFresh;
  }

  /** The joined environment counts and splits back as the shards do. */
  lemma JoinedSplits(w: World, shards: seq<Store>, parts: seq<Texts>, Split: Bytes -> Result<seq<Text>>, joined: Store)
    requires ShardsOk(w, shards, parts, Split) && AllApart(parts)
    requires Coherent(w, joined, Union(parts)) && Lean(joined)
    ensures CountsJoined(shards, joined) && SplitsBack(Split, joined, Union(parts))
  {
    hide Union, AllApart, Coherent, Mutators.SpansOf;
    forall t | t in joined.meta
      ensures exists s :: 0 <= s < |shards| && t in shards[s].meta
      ensures Split(Flatten(Mutators.SpansOf(Union(parts), t, joined.meta[t].frames)))
        == Ok(Mutators.SpansOf(Union(parts), t, joined.meta[t].frames))
    {
      LeanHas(w, joined, Union(parts), t);
      var s := UnionFrom(parts, FrameKey(t, 0));
      JoinedTraj(w, shards, parts, joined, s, t);
    }
    forall s, t | 0 <= s < |shards| && t in shards[s].meta && shards[s].meta[t].frames > 0
      ensures t in joined.meta && joined.meta[t].frames == shards[s].meta[t].frames
    {
      Recorded(w, shards[s], parts[s], FrameKey(t, 0));
      JoinedTraj(w, shards, parts, joined, s, t);
    }
  }

  predicate EachFits(parts: seq<Texts>) {
    forall s :: 0 <= s < |parts| ==> AllFit(parts[s])
  }

  /**
   * `join_to_single_env`: one new environment with the frames of all shards. It succeeds exactly when no trajectory
   * has frames on two shards and, compressing, every frame fits its group.
   */
  method JoinShards(w: World, shards: seq<Store>, compress: bool, Split: Bytes -> Result<seq<Text>>, ghost parts: seq<Texts>)
    returns (r: Result<Store>)
    requires FC.Lawful(w.zstd) && ShardsOk(w, shards, parts, Split)
    ensures r.Ok? <==> AllApart(parts) && (compress ==> EachFits(parts))
    ensures r.Ok? ==> Coherent(w, r.value, Union(parts)) && CountsJoined(shards, r.value)
    ensures r.Ok? ==> SplitsBack(Split, r.value, Union(parts))
  {
    hide Coherent, FC.Lawful, SplitsBack, TrajApart, AllApart, Union, AllFit, CountsJoined;
    JoinNothing();
    EmptyIsCoherent(w);
    var out := EMPTY;
    for s := 0 to |shards|
      invariant Coherent(w, out, Union(parts[..s])) && Lean(out)
      invariant AllApart(parts[..s])
      invariant compress ==> forall j :: 0 <= j < s ==> AllFit(parts[j])
    {
      if AllApart(parts) {
        JoinClash(parts, s);
      }
      out :- CopyAll(w, shards[s], out, "join-from-shard", compress, Split, parts[s], Union(parts[..s]));
      JoinOne(parts, s);
    }
    assert parts[..|parts|] == parts;
    JoinedSplits(w, shards, parts, Split, out);
    r := Ok(out);
  }

  lemma ShardHasNone(w: World, s: Store, texts: Texts, done: set<u64>, n: u32, sid: nat, traj: u64)
    requires n > 0 && Coherent(w, s, OnShard(OnTrajs(texts, done), n, sid)) && Lean(s) && traj !in done
    ensures traj !in s.meta
  {
    hide Coherent;
    if traj in s.meta {
      LeanHas(w, s, OnShard(OnTrajs(texts, done), n, sid), traj);
    }
  }

  /**
   * `split_single_to_sharded`: every trajectory goes to the shard its id routes to. It succeeds exactly when there is
   * a shard and, compressing, every frame fits its group.
   */
  method SplitSingle(w: World, single: Store, n: u32, compress: bool, Split: Bytes -> Result<seq<Text>>, ghost texts: Texts)
    returns (r: Result<seq<Store>>)
    requires FC.Lawful(w.zstd) && Coherent(w, single, texts) && SplitsBack(Split, single, texts)
    ensures r.Ok? <==> n > 0 && (compress ==> AllFit(texts))
    ensures r.Ok? ==> |r.value| == n && forall s :: 0 <= s < n ==> Coherent(w, r.value[s], OnShard(texts, n, s)) && Lean(r.value[s])
  {
    hide Coherent, FC.Lawful, SplitsBack, OnTraj, OnTrajs, OnShard, HasTraj, AllFit, TrajFits, Lean;
    if n == 0 {
      return Err(Message("n_shards must be >= 1"));
    }
    var trajs := TrajList(single);
    TrajsKnown(w, single, texts, trajs);
    EmptyIsCoherent(w);
    EmptyIsLean();
    var shards := seq(n, _ => EMPTY);
    ghost var done: set<u64> := {};
    forall s | 0 <= s < n ensures OnShard(OnTrajs(texts, done), n, s) == map[] {}
    for i := 0 to |trajs|
      invariant |shards| == n && forall t: u64 :: t in done <==> t in trajs[..i]
      invariant compress ==> forall t <- done :: TrajFits(texts, t)
      invariant forall s :: 0 <= s < n ==> Coherent(w, shards[s], OnShard(OnTrajs(texts, done), n, s)) && Lean(shards[s])
    {
      var sid := ShardForTraj(trajs[i], n);
      NotYet(trajs, i);
      ShardHasNone(w, shards[sid], texts, done, n, sid, trajs[i]);
      UnfitTraj(texts, trajs[i]);
      var next :- CopyTraj(w, single, shards[sid], trajs[i], "split-from-single", compress, Split, texts,
        OnShard(OnTrajs(texts, done), n, sid));
      LeanMore(w, single, texts, shards[sid], trajs[i], next, "split-from-single");
      forall s | 0 <= s < n
        ensures OnShard(OnTrajs(texts, done + {trajs[i]}), n, s) ==
          if s == sid then OnShard(OnTrajs(texts, done), n, s) + OnTraj(texts, trajs[i]) else OnShard(OnTrajs(texts, done), n, s)
      {
        ShardGains(texts, done, trajs[i], n, s);
      }
      shards := shards[sid := next];
      assert trajs[..i + 1] == trajs[..i] + [trajs[i]];
      done := done + {trajs[i]};
    }
    assert trajs[..|trajs|] == trajs;
    assert OnTrajs(texts, done) == texts;
    AllCopied(texts, map[], done, compress);
    r := Ok(shards);
  }

  lemma EmptyIsLean()
    ensures Lean(EMPTY)
  {}

  lemma LeanMore(w: World, src: Store, texts: Texts, dst: Store, traj: u64, next: Store, source: string)
    requires Coherent(w, src, texts) && HasTraj(src, traj) && Lean(dst)
    requires next.meta == dst.meta[traj := TrajMeta(Live(src, traj), source)]
    ensures Lean(next)
  {
    hide Coherent;
    var fk := FrameOn(w, src, texts, traj);
  }

  lemma ShardGains(texts: Texts, done: set<u64>, traj: u64, n: u32, s: nat)
    requires n > 0
    ensures OnShard(OnTrajs(texts, done + {traj}), n, s) ==
      if s == ShardForTraj(traj, n) then OnShard(OnTrajs(texts, done), n, s) + OnTraj(texts, traj)
      else OnShard(OnTrajs(texts, done), n, s)
  {
    hide OnTraj, OnTrajs, OnShard, ShardForTraj;
    var a := OnShard(OnTrajs(texts, done + {traj}), n, s);
    var b := OnShard(OnTrajs(texts, done), n, s);
    if s == ShardForTraj(traj, n) {
      assert a.Keys == (b + OnTraj(texts, traj)).Keys;
    } else {
      assert a.Keys == b.Keys;
    }
  }

  /** Splitting the joined texts over the same number of shards gives every shard its own frames back. */
  lemma SplitRestores(parts: seq<Texts>, n: u32, s: nat)
    requires Routed(parts, n) && s < n
    ensures OnShard(Union(parts), n, s) == parts[s]
  {
    hide Union, Apart;
    RoutedApart(parts, n);
    var a := OnShard(Union(parts), n, s);
    forall fk ensures fk in a <==> fk in parts[s] {
      if fk in a {
        var t := UnionFrom(parts, fk);
      }
      if fk in parts[s] {
        UnionIs(parts, s, fk);
      }
    }
    forall fk | fk in a ensures a[fk] == parts[s][fk] {
      UnionIs(parts, s, fk);
    }
  }

  /** Environments with the same texts have the same hashes and the same index rows, and read the same. */
  lemma TextsDecide(w: World, a: Store, b: Store, texts: Texts)
    requires Coherent(w, a, texts) && Coherent(w, b, texts)
    ensures a.hashByFrame == b.hashByFrame && a.idx == b.idx && a.frameByHash.Keys == b.frameByHash.Keys
    ensures a.frames.Keys == b.frames.Keys
    ensures forall fk <- texts :: Read(w.zstd, a.frames, fk) == Read(w.zstd, b.frames, fk)
  {
    hide Read, CookedFresh, Numbered, Hashed, Posted, Indexed, Parsed;
    HashedOnce(w, a.hashByFrame, b.hashByFrame, texts);
    IndexedOnce(w, a.idx, b.idx, texts);
    PostedKeys(w, a.frameByHash, b.frameByHash, texts);
  }

  /** What a round trip gives a shard back: its texts, hashes, index rows, posted digests and reads. */
  ghost predicate Restored(w: World, before: Store, after: Store, texts: Texts) {
    && Coherent(w, after, texts)
    && after.hashByFrame == before.hashByFrame && after.idx == before.idx
    && after.frameByHash.Keys == before.frameByHash.Keys && after.frames.Keys == before.frames.Keys
    && (forall fk <- texts :: Read(w.zstd, after.frames, fk) == Read(w.zstd, before.frames, fk))
    && (forall t <- after.meta :: t in before.meta && after.meta[t].frames == before.meta[t].frames > 0)
    && (forall t <- before.meta :: before.meta[t].frames > 0 ==> t in after.meta)
  }

  lemma RestoredIs(w: World, before: Store, after: Store, texts: Texts)
    requires Coherent(w, before, texts) && Coherent(w, after, texts) && Lean(after)
    ensures Restored(w, before, after, texts)
  {
    hide Coherent, Read;
    TextsDecide(w, before, after, texts);
    forall t | t in after.meta ensures t in before.meta && after.meta[t].frames == before.meta[t].frames > 0 {
      SameTraj(w, after, texts, before, texts, t);
    }
    forall t | t in before.meta && before.meta[t].frames > 0 ensures t in after.meta {
      SameTraj(w, before, texts, after, texts, t);
    }
  }

  lemma RoutedAllApart(parts: seq<Texts>, n: u32)
    requires Routed(parts, n)
    ensures AllApart(parts)
  {
    forall i, j | 0 <= i < j < |parts| ensures TrajApart(parts[i], parts[j]) {
      forall fk, gk | fk in parts[i] && gk in parts[j] ensures fk.traj != gk.traj {
        assert ShardForTraj(fk.traj, n) == i && ShardForTraj(gk.traj, n) == j;
      }
    }
  }

  /** The union fits exactly when every shard does: a run lies inside one trajectory. */
  lemma UnionFits(parts: seq<Texts>)
    requires AllApart(parts)
    ensures AllFit(Union(parts)) <==> EachFits(parts)
  {
    hide Union, AllApart, Fits;
    AllApartMeans(parts);
    forall s, fk | 0 <= s < |parts| && fk in parts[s]
      ensures fk in Union(parts) && (Fits(Union(parts), fk) <==> Fits(parts[s], fk))
    {
      UnionIs(parts, s, fk);
      FitsInUnion(parts, s, fk);
    }
    if EachFits(parts) {
      forall fk | fk in Union(parts) ensures Fits(Union(parts), fk) {
        var s := UnionFrom(parts, fk);
      }
    }
    if AllFit(Union(parts)) {
      forall s, fk | 0 <= s < |parts| && fk in parts[s] ensures Fits(parts[s], fk) {
        assert fk in Union(parts) && Fits(Union(parts), fk);
      }
    }
  }

  lemma FitsInUnion(parts: seq<Texts>, s: nat, fk: FrameKey)
    requires AllApart(parts) && s < |parts| && fk in parts[s] && fk in Union(parts)
    ensures Fits(Union(parts), fk) <==> Fits(parts[s], fk)
  {
    hide Union, AllApart, FC.GroupOf;
    forall gk: FrameKey | gk.traj == fk.traj
      ensures gk in Union(parts) <==> gk in parts[s]
      ensures gk in parts[s] ==> Union(parts)[gk] == parts[s][gk]
    {
      UnionTraj(parts, s, fk, gk);
    }
  }

  /**
   * Joining shards and splitting the result over the same number of shards gives every shard back: the same texts
   * under the same keys, hashes, index rows and counts. It fails only for a frame that does not fit its group.
   */
  method JoinThenSplit(w: World, shards: seq<Store>, n: u32, compressJoin: bool, compressSplit: bool,
      Split: Bytes -> Result<seq<Text>>, ghost parts: seq<Texts>) returns (r: Result<seq<Store>>)
    requires FC.Lawful(w.zstd) && ShardsOk(w, shards, parts, Split) && Routed(parts, n)
    ensures r.Ok? <==> (compressJoin || compressSplit ==> EachFits(parts))
    ensures r.Ok? ==> |r.value| == n && forall s :: 0 <= s < n ==> Restored(w, shards[s], r.value[s], parts[s])
  {
    hide Coherent, FC.Lawful, SplitsBack, Union, AllApart, AllFit, CountsJoined, OnShard, Lean, Restored, EachFits;
    RoutedAllApart(parts, n);
    UnionFits(parts);
    var joined :- JoinShards(w, shards, compressJoin, Split, parts);
    r := SplitSingle(w, joined, n, compressSplit, Split, Union(parts));
    if r.Ok? {
      forall s | 0 <= s < n ensures Restored(w, shards[s], r.value[s], parts[s]) {
        SplitRestores(parts, n, s);
        RestoredIs(w, shards[s], r.value[s], parts[s]);
      }
    }
  }

  lemma HashedOnce(w: World, a: map<FrameKey, Hash>, b: map<FrameKey, Hash>, texts: Texts)
    requires Hashed(w, a, texts) && Hashed(w, b, texts)
    ensures a == b
  {}

  lemma IndexedOnce(w: World, a: set<Entry>, b: set<Entry>, texts: Texts)
    requires Indexed(w, a, texts) && Indexed(w, b, texts)
    ensures a == b
  {
    hide Rows;
    forall e ensures e in a <==> e in b {}
  }

  lemma PostedKeys(w: World, a: map<Hash, FrameKey>, b: map<Hash, FrameKey>, texts: Texts)
    requires Posted(w, a, texts) && Posted(w, b, texts)
    ensures a.Keys == b.Keys
  {
    forall h ensures h in a <==> h in b {
      if h in a {
        assert a[h] in texts;
      }
      if h in b {
        assert b[h] in texts;
      }
    }
  }
}
