/** The parallel ingest into a sharded root, up to what a reader of the shards finds afterwards. */
module MpiSharded {
  import opened Prelude
  import opened Utf8
  import opened Store
  import opened Corpus
  import opened Routing
  import opened MpiPlan
  import opened MpiSerial
  import opened MpiEngine
  import opened MpiCoherent
  import opened Mutators
  import Shard
  import FC = FrameCodec

  /** A sharded root: every shard is consistent and holds only trajectories that route to it. */
  ghost predicate RootOk(w: World, envs: map<u32, Store>, parts: seq<Texts>, n: u32) {
    Shard.Routed(parts, n) && forall s :: 0 <= s < n ==> Coherent(w, EnvIn(envs, s), parts[s])
  }

  /** What reading a frame finds in the shard its trajectory routes to. */
  function ReadSharded(z: FC.Zstd, envs: map<u32, Store>, n: u32, fk: FrameKey): Result<Text>
    requires n > 0
  {
    Read(z, EnvIn(envs, ShardForTraj(fk.traj, n)).frames, fk)
  }

  /** Every frame of every file is found there. */
  ghost predicate AllFound(z: FC.Zstd, envs: map<u32, Store>, n: u32, files: seq<File>)
    requires n > 0 && Counted(files)
  {
    forall i, k :: 0 <= i < |files| && 0 <= k < |files[i].spans| ==>
      ReadSharded(z, envs, n, FrameKey(files[i].traj, k)) == Ok(files[i].spans[k])
  }

  /** Shard `s` after the ingest: as before, or with its files. */
  ghost function PartAfter(before: Store, after: Store, texts: Texts, files: seq<File>, n: u32, s: u32): Texts
    requires Counted(files) && n > 0
  {
    if after == before then texts else WithFiles(texts, files, Sharded(n), s)
  }

  lemma PartOk(w: World, envs: map<u32, Store>, envs1: map<u32, Store>, texts: Texts, files: seq<File>, n: u32, s: u32)
    requires FC.Lawful(w.zstd) && Counted(files) && s < n && Coherent(w, EnvIn(envs, s), texts) && RoutesTo(texts, Sharded(n), s)
    requires SerialAll(w, envs, files, Sharded(n)).Ok?
    requires EnvIn(envs1, s) == EnvIn(envs, s) || EnvIn(envs1, s) == EnvIn(SerialAll(w, envs, files, Sharded(n)).value, s)
    ensures var part := PartAfter(EnvIn(envs, s), EnvIn(envs1, s), texts, files, n, s);
      Coherent(w, EnvIn(envs1, s), part) && RoutesTo(part, Sharded(n), s)
  {
    hide Coherent, SerialAll, FC.Lawful, WithFiles, EnvIn, RoutesTo;
    SerialCoherent(w, envs, files, Sharded(n), s, texts);
    WithFilesRouted(texts, files, Sharded(n), s);
  }

  lemma RoutedIs(parts: seq<Texts>, n: u32)
    requires n > 0 && |parts| == n
    ensures Shard.Routed(parts, n) <==> forall s :: 0 <= s < n ==> RoutesTo(parts[s], Sharded(n), s)
  {}

  /** One frame is found. */
  lemma Found(w: World, envs: map<u32, Store>, texts: Texts, files: seq<File>, n: u32, i: nat, k: nat)
    requires Counted(files) && DistinctTrajs(files) && n > 0 && i < |files| && k < |files[i].spans|
    requires var s := ShardForTraj(files[i].traj, n);
      Coherent(w, EnvIn(envs, s), WithFiles(texts, files, Sharded(n), s))
    ensures ReadSharded(w.zstd, envs, n, FrameKey(files[i].traj, k)) == Ok(files[i].spans[k])
  {
    hide Coherent, WithFiles, Read, EnvIn;
    var s := ShardForTraj(files[i].traj, n);
    WithFilesHas(texts, files, Sharded(n), i, k);
    ReadsBack(w, EnvIn(envs, s), WithFiles(texts, files, Sharded(n), s), FrameKey(files[i].traj, k));
  }

  /** An environment that gained a file differs from before, so its texts are the new ones. */
  lemma PartsAre(w: World, envs: map<u32, Store>, envs1: map<u32, Store>, texts: Texts, files: seq<File>, n: u32, s: u32)
    requires FC.Lawful(w.zstd) && Counted(files) && s < n && Coherent(w, EnvIn(envs, s), texts)
    requires SerialAll(w, envs, files, Sharded(n)).Ok?
    requires EnvIn(envs1, s) == EnvIn(SerialAll(w, envs, files, Sharded(n)).value, s)
    ensures PartAfter(EnvIn(envs, s), EnvIn(envs1, s), texts, files, n, s) == WithFiles(texts, files, Sharded(n), s)
  {
    hide Coherent, SerialAll, FC.Lawful, WithFiles, EnvIn;
    SerialCoherent(w, envs, files, Sharded(n), s, texts);
    if EnvIn(envs1, s) == EnvIn(envs, s) {
      TextsOnce(w, EnvIn(envs, s), texts, WithFiles(texts, files, Sharded(n), s));
    }
  }

  lemma TextsOnce(w: World, s: Store, a: Texts, b: Texts)
    requires Coherent(w, s, a) && Coherent(w, s, b)
    ensures a == b
  {
    hide Sound, Numbered, CookedFresh, Read;
    assert a.Keys == b.Keys;
  }

  /**
   * A parallel ingest into `n` shards. Whatever it returns the root stays a sharded root; on success every frame of
   * every file is found in the shard that readers look in.
   */
  method IngestSharded(disk: Disk, w: World, files: seq<File>, n: u32, size: nat, batch: nat, healthy: bool, ghost parts: seq<Texts>)
    returns (r: Result<seq<u32>>, ghost later: seq<Texts>)
    requires FC.Lawful(w.zstd) && n > 0 && size > 0
    requires Counted(files) ==> CollisionFree(w, Items(files, Sharded(n), size))
    requires RootOk(w, disk.envs, parts, n)
    modifies disk
    ensures RootOk(w, disk.envs, later, n)
    ensures r.Ok? ==> Counted(files) && AllFound(w.zstd, disk.envs, n, files)
    ensures r.Ok? ==> forall s :: 0 <= s < n ==> later[s] == WithFiles(parts[s], files, Sharded(n), s)
  {
    hide *;
    RouteIs(n);
    ghost var envs := disk.envs;
    var committing: bool;
    r, committing := Engine(disk, w, files, Sharded(n), size, batch, healthy);
    if !committing {
      later := parts;
    } else {
      later := Later(w, envs, disk.envs, files, n, size, r.Ok?, parts);
    }
  }

  lemma RouteIs(n: u32)
    requires n > 0
    ensures RouteOk(Sharded(n))
  {}

  lemma Later(w: World, envs: map<u32, Store>, envs1: map<u32, Store>, files: seq<File>, n: u32, size: nat, ok: bool, parts: seq<Texts>)
      returns (later: seq<Texts>)
    requires FC.Lawful(w.zstd) && n > 0 && size > 0 && Counted(files)
    requires CanIngest(w, files, Sharded(n), size, envs)
    requires RootOk(w, envs, parts, n)
    requires SerialAll(w, envs, files, Sharded(n)).Ok?
    requires forall e: u32 ::
      || EnvIn(envs1, e) == EnvIn(SerialAll(w, envs, files, Sharded(n)).value, e)
      || (!ok && EnvIn(envs1, e) == EnvIn(envs, e))
    ensures RootOk(w, envs1, later, n)
    ensures ok ==> AllFound(w.zstd, envs1, n, files)
    ensures ok ==> forall s :: 0 <= s < n ==> later[s] == WithFiles(parts[s], files, Sharded(n), s)
  {
    hide Coherent, SerialAll, FC.Lawful, WithFiles, EnvIn, ReadSharded, PartAfter, RoutesTo, Shard.Routed, Counted;
    assert DistinctTrajs(files);
    RootParts(w, envs, parts, n);
    later := seq(n, s requires 0 <= s < n => PartAfter(EnvIn(envs, s), EnvIn(envs1, s), parts[s], files, n, s));
    forall s | 0 <= s < n ensures Coherent(w, EnvIn(envs1, s), later[s]) && RoutesTo(later[s], Sharded(n), s) {
      PartOk(w, envs, envs1, parts[s], files, n, s);
    }
    RoutedIs(later, n);
    if ok {
      forall s | 0 <= s < n ensures later[s] == WithFiles(parts[s], files, Sharded(n), s) {
        PartsAre(w, envs, envs1, parts[s], files, n, s);
      }
      forall i, k | 0 <= i < |files| && 0 <= k < |files[i].spans|
        ensures k <= U32_MAX && ReadSharded(w.zstd, envs1, n, FrameKey(files[i].traj, k)) == Ok(files[i].spans[k])
      {
        var s := ShardForTraj(files[i].traj, n);
        assert Coherent(w, EnvIn(envs1, s), later[s]);
        WithFilesHas(parts[s], files, Sharded(n), i, k);
        Found(w, envs1, parts[s], files, n, i, k);
      }
    }
  }

  lemma RootParts(w: World, envs: map<u32, Store>, parts: seq<Texts>, n: u32)
    requires RootOk(w, envs, parts, n)
    ensures |parts| == n
    ensures forall s :: 0 <= s < n ==> RoutesTo(parts[s], Sharded(n), s)
  {
    hide Coherent, RoutesTo;
    RoutedIs(parts, n);
  }
}
