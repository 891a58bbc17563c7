/** The reference: the same files ingested one after the other, and its closed form per environment. */
module MpiSerial {
  import opened Prelude
  import opened Utf8
  import opened Keys
  import opened Store
  import opened MpiPlan
  import opened MpiDecode
  import opened MpiRegroup
  import opened MpiStream
  import Ingest
  import FC = FrameCodec

  /** Opening an environment that does not exist yet gives an empty one. */
  function EnvIn(envs: map<u32, Store>, e: u32): Store {
    if e in envs then envs[e] else EMPTY
  }

  /** Compressed serial ingest of the files in order, each into the environment its trajectory routes to. */
  function SerialAll(w: World, envs: map<u32, Store>, files: seq<File>, route: Route): Result<map<u32, Store>>
    requires Counted(files) && RouteOk(route)
  {
    if files == [] then Ok(envs)
    else
      var n := |files| - 1;
      var f := files[n];
      var e := EnvOf(route, f.traj);
      var before :- SerialAll(w, envs, files[..n], route);
      var s :- Ingest.Append(w, EnvIn(before, e), f.traj, f.spans, f.path, true);
      Ok(before[e := s])
  }

  /** Rows of environment `e`, in global frame order. */
  function FileStream(w: World, files: seq<File>, route: Route, e: u32): seq<Held>
    requires Counted(files) && RouteOk(route)
  {
    if files == [] then []
    else
      var n := |files| - 1;
      FileStream(w, files[..n], route, e) +
      (if EnvOf(route, files[n].traj) == e then FileHelds(w, files[n]) else [])
  }

  /** Puts of environment `e` under serial ingest. */
  function EnvPuts(w: World, files: seq<File>, route: Route, e: u32): Result<seq<Prepared>>
    requires Counted(files) && RouteOk(route)
  {
    if files == [] then Ok([])
    else
      var n := |files| - 1;
      if EnvOf(route, files[n].traj) == e
      then Joined(EnvPuts(w, files[..n], route, e), SerialPuts(w, files[n]))
      else EnvPuts(w, files[..n], route, e)
  }

  function MetaOf(f: File): TrajMeta
    requires |f.spans| <= U32_MAX
  {
    TrajMeta(|f.spans|, f.path)
  }

  /** Metadata of environment `e` under serial ingest. */
  function EnvMetas(s: Store, files: seq<File>, route: Route, e: u32): Store
    requires Counted(files) && RouteOk(route)
  {
    if files == [] then s
    else
      var n := |files| - 1;
      var before := EnvMetas(s, files[..n], route, e);
      if EnvOf(route, files[n].traj) == e then PutMeta(before, files[n].traj, MetaOf(files[n])) else before
  }

  /** `n_of` gives every file's frame count. */
  predicate CountsEach(files: seq<File>, nOf: map<u64, u32>) {
    forall i :: 0 <= i < |files| ==> files[i].traj in nOf && nOf[files[i].traj] == |files[i].spans|
  }

  predicate AllEncode(w: World, files: seq<File>)
    requires Counted(files)
  {
    forall i :: 0 <= i < |files| ==> FileEncodes(w, files[i])
  }

  lemma FileHeldKeys(w: World, f: File)
    requires |f.spans| <= U32_MAX
    ensures forall i :: 0 <= i < |f.spans| ==> FileHelds(w, f)[i].fk == FrameKey(f.traj, i)
  {
    hide EncodeItem;
  }

  lemma {:induction false} StreamsAreWhole(w: World, files: seq<File>, route: Route, e: u32, nOf: map<u64, u32>)
    requires Counted(files) && RouteOk(route) && CountsEach(files, nOf)
    ensures StreamOk(FileStream(w, files, route, e), nOf)
  {
    hide FileHelds, FileEncodes, EnvOf, StreamOk;
    if files == [] {
      assert StreamOk([], nOf) by { NothingWhole(nOf); }
    } else {
      var n := |files| - 1;
      StreamsAreWhole(w, files[..n], route, e, nOf);
      OneFileWhole(w, files[n], nOf);
      WholeAppend(FileStream(w, files[..n], route, e), FileHelds(w, files[n]), nOf);
      assert FileStream(w, files[..n], route, e) + [] == FileStream(w, files[..n], route, e);
    }
  }

  lemma NothingWhole(nOf: map<u64, u32>)
    ensures StreamOk([], nOf)
  {}

  lemma WholeAppend(a: seq<Held>, b: seq<Held>, nOf: map<u64, u32>)
    requires StreamOk(a, nOf) && StreamOk(b, nOf)
    ensures StreamOk(a + b, nOf)
  {
    forall p | 0 <= p < |a + b| ensures InTraj(a + b, nOf, p) {
      if p < |a| {
        assert InTraj(a, nOf, p);
      } else {
        assert InTraj(b, nOf, p - |a|);
      }
    }
  }

  lemma OneFileWhole(w: World, f: File, nOf: map<u64, u32>)
    requires |f.spans| <= U32_MAX
    requires f.traj in nOf && nOf[f.traj] == |f.spans|
    ensures StreamOk(FileHelds(w, f), nOf)
  {
    hide HeldFor, FileEncodes;
    FileHeldKeys(w, f);
  }

  lemma WholeStartsAligned(s: seq<Held>, nOf: map<u64, u32>)
    requires StreamOk(s, nOf)
    ensures Boundary(s, 0)
  {
    if s != [] {
      assert InTraj(s, nOf, 0);
    }
  }

  /** Regrouping an environment's stream and decoding it gives the puts of serial ingest, or the same failure. */
  lemma {:induction false} StreamMatchesSerial(w: World, files: seq<File>, route: Route, e: u32, nOf: map<u64, u32>)
    requires FC.Lawful(w.zstd) && Counted(files) && RouteOk(route) && AllEncode(w, files) && CountsEach(files, nOf)
    ensures var packed := PackStream(w.zstd, FileStream(w, files, route, e), nOf);
      && (packed.Ok? <==> EnvPuts(w, files, route, e).Ok?)
      && (packed.Ok? ==> Decoded(packed.value) == EnvPuts(w, files, route, e))
  {
    hide FC.Lawful, PackStream, PackHeld, Decoded, SerialPuts, StreamOk, EnvOf, FileHelds, FileEncodes;
    if files == [] {
      assert PackStream(w.zstd, [], nOf) == Ok([]) && Decoded([]) == Ok([]) by { EmptyStream(w.zstd, nOf); }
    } else {
      var n := |files| - 1;
      var f := files[n];
      StreamMatchesSerial(w, files[..n], route, e, nOf);
      if EnvOf(route, f.traj) == e {
        var s, h := FileStream(w, files[..n], route, e), FileHelds(w, f);
        StreamsAreWhole(w, files[..n], route, e, nOf);
        WholeStartsAligned(s, nOf);
        PackStreamAppend(w.zstd, s, nOf, 0, h);
        assert s[0..] == s;
        FilePacksWhole(w, f, nOf);
        FileMatchesSerial(w, f);
        var a, b := PackStream(w.zstd, s, nOf), PackHeld(w.zstd, h);
        if a.Ok? && b.Ok? {
          DecodedAppend(a.value, b.value);
        }
      } else {
        assert FileStream(w, files, route, e) == FileStream(w, files[..n], route, e);
      }
    }
  }

  lemma EmptyStream(z: FC.Zstd, nOf: map<u64, u32>)
    ensures PackStream(z, [], nOf) == Ok([]) && Decoded([]) == Ok([])
  {}

  lemma FilePacksWhole(w: World, f: File, nOf: map<u64, u32>)
    requires FC.Lawful(w.zstd) && |f.spans| <= U32_MAX && FileEncodes(w, f)
    requires f.traj in nOf && nOf[f.traj] == |f.spans|
    ensures PackStream(w.zstd, FileHelds(w, f), nOf) == PackHeld(w.zstd, FileHelds(w, f))
  {
    hide FC.Lawful, PackStream, PackHeld, LoadAll, StreamOk, HeldFor;
    var h := FileHelds(w, f);
    OneFileWhole(w, f, nOf);
    WholeStartsAligned(h, nOf);
    FileHeldKeys(w, f);
    HeldsLoad(w, f, h, |h|);
    assert h[..|h|] == h && h[0..] == h;
    OneTrajectory(w.zstd, h, nOf, 0);
  }

  // ---------------------------------------------------------------------
  // Serial ingest in closed form
  // ---------------------------------------------------------------------

  /** Everything serial ingest needs to succeed on these files. */
  predicate SerialReady(w: World, envs: map<u32, Store>, files: seq<File>, route: Route)
    requires Counted(files) && RouteOk(route)
  {
    && DistinctTrajs(files)
    && forall i :: 0 <= i < |files| ==> SerialPuts(w, files[i]).Ok? && FreshIn(envs, route, files[i].traj)
  }

  predicate FreshIn(envs: map<u32, Store>, route: Route, traj: u64)
    requires RouteOk(route)
  {
    traj !in EnvIn(envs, EnvOf(route, traj)).meta
  }

  lemma {:induction false} EnvPutsOk(w: World, envs: map<u32, Store>, files: seq<File>, route: Route, e: u32)
    requires Counted(files) && RouteOk(route) && SerialReady(w, envs, files, route)
    ensures EnvPuts(w, files, route, e).Ok?
  {
    hide SerialPuts, FreshIn, EnvOf;
    if files != [] {
      EnvPutsOk(w, envs, files[..|files| - 1], route, e);
    }
  }

  lemma {:induction false} MetasKeep(s: Store, files: seq<File>, route: Route, e: u32, traj: u64)
    requires Counted(files) && RouteOk(route)
    ensures traj in EnvMetas(s, files, route, e).meta ==>
      traj in s.meta || exists i :: 0 <= i < |files| && files[i].traj == traj
    ensures EnvMetas(s, files, route, e).frames == s.frames
  {
    hide EnvOf;
    if files != [] {
      MetasKeep(s, files[..|files| - 1], route, e, traj);
    }
  }

  /** Metadata puts commute with frame puts, so interleaving them per file changes nothing. */
  lemma {:induction false} MetasCommute(s: Store, files: seq<File>, route: Route, e: u32, ps: seq<Prepared>)
    requires Counted(files) && RouteOk(route)
    ensures PutAll(EnvMetas(s, files, route, e), ps) == EnvMetas(PutAll(s, ps), files, route, e)
  {
    hide EnvOf, PutAll, PutMeta;
    if files != [] {
      var n := |files| - 1;
      MetasCommute(s, files[..n], route, e, ps);
      PutAllMeta(EnvMetas(s, files[..n], route, e), ps, files[n].traj, MetaOf(files[n]));
    }
  }

  /** The state serial ingest leaves in environment `e`. */
  function SerialEnv(w: World, envs: map<u32, Store>, files: seq<File>, route: Route, e: u32): Store
    requires Counted(files) && RouteOk(route)
  {
    var puts := EnvPuts(w, files, route, e);
    EnvMetas(PutAll(EnvIn(envs, e), if puts.Ok? then puts.value else []), files, route, e)
  }

  lemma AppendIs(w: World, s: Store, f: File)
    requires |f.spans| <= U32_MAX && SerialPuts(w, f).Ok? && f.traj !in s.meta
    ensures Ingest.Append(w, s, f.traj, f.spans, f.path, true)
         == Ok(PutMeta(PutAll(s, SerialPuts(w, f).value), f.traj, MetaOf(f)))
  {
    hide Ingest.Prepare, Ingest.GroupPrepared, PutAll, PutMeta;
    var ps := Ingest.Prepare(w, f.traj, 0, f.spans, true).value;
    Ingest.IndexesFit(w, f.traj, 0, f.spans, ps, SerialPuts(w, f).value, true);
  }

  lemma {:induction false} SerialInClosedForm(w: World, envs: map<u32, Store>, files: seq<File>, route: Route)
    requires Counted(files) && RouteOk(route) && SerialReady(w, envs, files, route)
    ensures var r := SerialAll(w, envs, files, route);
      r.Ok? && forall e: u32 :: EnvIn(r.value, e) == SerialEnv(w, envs, files, route, e)
  {
    hide SerialPuts, EnvOf, PutAll, PutMeta, Ingest.Append;
    if files == [] {
      forall e: u32 ensures EnvIn(envs, e) == SerialEnv(w, envs, files, route, e) {
        assert PutAll(EnvIn(envs, e), []) == EnvIn(envs, e) by { PutNothing(EnvIn(envs, e)); }
      }
    } else {
      var n := |files| - 1;
      var f := files[n];
      var e0 := EnvOf(route, f.traj);
      SerialInClosedForm(w, envs, files[..n], route);
      var before := SerialAll(w, envs, files[..n], route).value;
      SerialStep(w, envs, files, route);
      forall e: u32 ensures EnvIn(SerialAll(w, envs, files, route).value, e) == SerialEnv(w, envs, files, route, e) {
        if e != e0 {
          assert SerialEnv(w, envs, files, route, e) == SerialEnv(w, envs, files[..n], route, e);
        }
      }
    }
  }

  lemma PutNothing(s: Store)
    ensures PutAll(s, []) == s
  {}

  /** One more file: its append on top of the closed form so far is the closed form including it. */
  lemma SerialStep(w: World, envs: map<u32, Store>, files: seq<File>, route: Route)
    requires Counted(files) && RouteOk(route) && SerialReady(w, envs, files, route) && files != []
    ensures var (n, f) := (|files| - 1, files[|files| - 1]);
      var e := EnvOf(route, f.traj);
      Ingest.Append(w, SerialEnv(w, envs, files[..n], route, e), f.traj, f.spans, f.path, true)
        == Ok(SerialEnv(w, envs, files, route, e))
  {
    hide SerialPuts, EnvOf, PutAll, PutMeta, Ingest.Append;
    var n := |files| - 1;
    var f := files[n];
    var e := EnvOf(route, f.traj);
    var s, q := EnvIn(envs, e), SerialPuts(w, f).value;
    EnvPutsOk(w, envs, files[..n], route, e);
    var p := EnvPuts(w, files[..n], route, e).value;
    assert SerialPuts(w, f).Ok? && FreshIn(envs, route, f.traj);
    MetasKeep(PutAll(s, p), files[..n], route, e, f.traj);
    PutAllSoa(s, p);
    AppendIs(w, SerialEnv(w, envs, files[..n], route, e), f);
    MetasCommute(PutAll(s, p), files[..n], route, e, q);
    PutAllAppend(s, p, q);
  }
}
