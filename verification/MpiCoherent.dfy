/** A serial ingest, and so by the engine's theorem a parallel one, leaves every environment consistent. */
module MpiCoherent {
  import opened Prelude
  import opened Utf8
  import opened Store
  import opened MpiPlan
  import opened MpiSerial
  import opened Corpus
  import opened CorpusGrow
  import Ingest
  import FC = FrameCodec

  /** The texts of environment `e` once the files routed to it are in. */
  function WithFiles(texts: Texts, files: seq<File>, route: Route, e: u32): Texts
    requires Counted(files) && RouteOk(route)
  {
    if files == [] then texts
    else
      var n := |files| - 1;
      var before := WithFiles(texts, files[..n], route, e);
      if EnvOf(route, files[n].traj) == e then WithSpan(before, files[n].traj, 0, files[n].spans) else before
  }

  /** Every environment stays consistent, with exactly the texts of the files that route to it added. */
  lemma {:induction false} SerialCoherent(w: World, envs: map<u32, Store>, files: seq<File>, route: Route, e: u32, texts: Texts)
    requires FC.Lawful(w.zstd) && Counted(files) && RouteOk(route)
    requires Coherent(w, EnvIn(envs, e), texts)
    ensures var r := SerialAll(w, envs, files, route);
      r.Ok? ==> Coherent(w, EnvIn(r.value, e), WithFiles(texts, files, route, e))
  {
    hide Coherent, Ingest.Append, EnvOf, FC.Lawful, WithSpan;
    if files != [] {
      var n := |files| - 1;
      SerialCoherent(w, envs, files[..n], route, e, texts);
      var before := SerialAll(w, envs, files[..n], route);
      if before.Ok? && EnvOf(route, files[n].traj) == e {
        AppendCoherent(w, EnvIn(before.value, e), WithFiles(texts, files[..n], route, e), files[n].traj, files[n].spans, files[n].path, true);
      }
    }
  }

  /** Everything environment `e` holds routes to it. */
  predicate RoutesTo(texts: Texts, route: Route, e: u32)
    requires RouteOk(route)
  {
    forall fk <- texts :: EnvOf(route, fk.traj) == e
  }

  /** Files add only frames that route to the environment. */
  lemma {:induction false} WithFilesRouted(texts: Texts, files: seq<File>, route: Route, e: u32)
    requires Counted(files) && RouteOk(route) && RoutesTo(texts, route, e)
    ensures RoutesTo(WithFiles(texts, files, route, e), route, e)
  {
    hide EnvOf, WithSpan;
    if files != [] {
      WithFilesRouted(texts, files[..|files| - 1], route, e);
    }
  }

  /** Each frame of each file is in the environment its trajectory routes to, with its own text. */
  lemma {:induction false} WithFilesHas(texts: Texts, files: seq<File>, route: Route, i: nat, k: nat)
    requires Counted(files) && RouteOk(route) && DistinctTrajs(files)
    requires i < |files| && k < |files[i].spans|
    ensures k <= U32_MAX
    ensures var all := WithFiles(texts, files, route, EnvOf(route, files[i].traj));
      FrameKey(files[i].traj, k) in all && all[FrameKey(files[i].traj, k)] == files[i].spans[k]
  {
    hide EnvOf, WithSpan;
    var n := |files| - 1;
    var e := EnvOf(route, files[i].traj);
    var before := WithFiles(texts, files[..n], route, e);
    if i < n {
      WithFilesHas(texts, files[..n], route, i, k);
      assert !InSpan(FrameKey(files[i].traj, k), files[n].traj, 0, |files[n].spans|);
    } else {
      WithSpanAt(before, files[n].traj, 0, files[n].spans, FrameKey(files[n].traj, k));
    }
  }
}
