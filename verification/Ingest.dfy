/** Serial ingest of one trajectory: prepare outside the transaction, group, then commit the puts. */
module Ingest {
  import opened Prelude
  import opened Utf8
  import opened Keys
  import opened Store
  import FC = FrameCodec

  predicate Counted(spans: seq<Text>) {
    |spans| <= U32_MAX
  }

  /** `prepare_trajectory_str`: every span of the file parsed and turned into its puts, from index `start` on. */
  function Prepare(w: World, traj: u64, start: nat, spans: seq<Text>, compress: bool): (r: Result<seq<Prepared>>)
    requires start + |spans| <= U32_MAX
    ensures r.Ok? ==> |r.value| == |spans|
  {
    if spans == [] then Ok([])
    else
      var n := |spans| - 1;
      var before :- Prepare(w, traj, start, spans[..n], compress);
      match w.Parse(spans[n])
      case None => Err(ParseError)
      case Some(proj) => Ok(before + [Build(w, FrameKey(traj, start + n), proj, spans[n], compress)])
  }

  /** What every prepared frame is, by position. */
  predicate PreparedAs(w: World, traj: u64, start: nat, spans: seq<Text>, compress: bool, ps: seq<Prepared>)
    requires start + |spans| <= U32_MAX
  {
    && |ps| == |spans|
    && forall i :: 0 <= i < |spans| ==> PreparedAt(w, traj, start + i, spans[i], compress, ps[i])
  }

  predicate PreparedAt(w: World, traj: u64, idx: u32, span: Text, compress: bool, p: Prepared) {
    w.Parse(span).Some? && p == Build(w, FrameKey(traj, idx), w.Parse(span).value, span, compress)
  }

  lemma {:induction false} PrepareMeans(w: World, traj: u64, start: nat, spans: seq<Text>, compress: bool)
    requires start + |spans| <= U32_MAX
    ensures var r := Prepare(w, traj, start, spans, compress);
      && (r.Ok? <==> forall i :: 0 <= i < |spans| ==> w.Parse(spans[i]).Some?)
      && (r.Ok? ==> PreparedAs(w, traj, start, spans, compress, r.value))
  {
    hide Build;
    if spans != [] {
      PrepareMeans(w, traj, start, spans[..|spans| - 1], compress);
    }
  }

  function LoadPrepared(z: FC.Zstd, ps: seq<Prepared>): (r: Result<seq<FC.Frame>>)
    ensures r.Ok? ==> |r.value| == |ps|
  {
    if ps == [] then Ok([])
    else
      var before :- LoadPrepared(z, ps[..|ps| - 1]);
      var last := ps[|ps| - 1];
      var text :- FC.LoadFrame(z, last.stored);
      Ok(before + [FC.Frame(last.fk.idx, text)])
  }

  function WithPacked(ps: seq<Prepared>, packed: seq<Bytes>): (out: seq<Prepared>)
    requires |packed| == |ps|
    ensures |out| == |ps|
    ensures forall i :: 0 <= i < |ps| ==> out[i] == ps[i].(stored := packed[i])
  {
    seq(|ps|, i requires 0 <= i < |ps| => ps[i].(stored := packed[i]))
  }

  /** `group_prepared`: share one zstd group across each aligned run when that is shorter. */
  function GroupPrepared(z: FC.Zstd, ps: seq<Prepared>): (r: Result<seq<Prepared>>)
    ensures r.Ok? ==> |r.value| == |ps|
  {
    if |ps| < 2 then Ok(ps)
    else
      var frames :- LoadPrepared(z, ps);
      var packed :- FC.PackAligned(z, frames);
      Ok(WithPacked(ps, packed))
  }

  /** The frame count a commit records: one past the last index. */
  function CountOf(ps: seq<Prepared>): u32
    requires forall i :: 0 <= i < |ps| ==> ps[i].fk.idx < U32_MAX
  {
    if ps == [] then 0 else ps[|ps| - 1].fk.idx + 1
  }

  lemma {:induction false} LoadsTexts(w: World, traj: u64, start: nat, spans: seq<Text>, ps: seq<Prepared>, compress: bool)
    requires FC.Lawful(w.zstd) && start + |spans| <= U32_MAX
    requires PreparedAs(w, traj, start, spans, compress, ps)
    ensures LoadPrepared(w.zstd, ps) == Ok(FramesFrom(start, spans))
  {
    hide FC.StoreFrame, FC.LoadFrame, FC.Lawful, Build;
    if spans != [] {
      var n := |spans| - 1;
      LoadsTexts(w, traj, start, spans[..n], ps[..n], compress);
      assert PreparedAt(w, traj, start + n, spans[n], compress, ps[n]);
      BuiltKey(w, FrameKey(traj, start + n), w.Parse(spans[n]).value, spans[n], compress);
      FC.StoreLoads(w.zstd, spans[n], compress);
      assert FramesFrom(start, spans) == FramesFrom(start, spans[..n]) + [FC.Frame(start + n, spans[n])];
    }
  }

  function FramesFrom(start: nat, spans: seq<Text>): (fs: seq<FC.Frame>)
    requires start + |spans| <= U32_MAX
    ensures |fs| == |spans|
    ensures forall i :: 0 <= i < |spans| ==> fs[i] == FC.Frame(start + i, spans[i])
  {
    seq(|spans|, i requires 0 <= i < |spans| => FC.Frame(start + i, spans[i]))
  }

  /** The grouped puts of a prepared trajectory carry the packed values of its texts; one frame is its own packing. */
  lemma GroupedMeans(w: World, traj: u64, start: nat, spans: seq<Text>, ps: seq<Prepared>)
    requires FC.Lawful(w.zstd) && start + |spans| <= U32_MAX
    requires PreparedAs(w, traj, start, spans, true, ps)
    ensures GroupPrepared(w.zstd, ps) ==
      (var packed := FC.PackAligned(w.zstd, FramesFrom(start, spans));
       if packed.Ok? then Ok(WithPacked(ps, packed.value)) else Err(packed.error))
  {
    hide FC.StoreFrame, FC.LoadFrame, FC.Lawful, Build;
    LoadsTexts(w, traj, start, spans, ps, true);
    if |spans| == 1 {
      assert PreparedAt(w, traj, start, spans[0], true, ps[0]);
      BuiltKey(w, FrameKey(traj, start), w.Parse(spans[0]).value, spans[0], true);
      PackOne(w.zstd, FC.Frame(start, spans[0]));
      assert FramesFrom(start, spans) == [FC.Frame(start, spans[0])];
      assert WithPacked(ps, [ps[0].stored]) == ps;
    } else if spans == [] {
      assert WithPacked(ps, []) == ps;
    }
  }

  lemma PackOne(z: FC.Zstd, f: FC.Frame)
    ensures FC.PackAligned(z, [f]) == Ok([FC.StoreFrame(z, f.text, true)])
  {
    hide FC.StoreFrame;
    assert FC.RunLen([f]) == 1;
    assert [f][..1] == [f] && [f][1..] == [];
    assert FC.Singles(z, [f]) == [FC.StoreFrame(z, f.text, true)];
    assert FC.PackAligned(z, []) == Ok([]);
    assert [FC.StoreFrame(z, f.text, true)] + [] == [FC.StoreFrame(z, f.text, true)];
  }

  /** `commit_prepared` for a new trajectory: refuse an existing one, else put every frame and the metadata. */
  function Commit(s: Store, traj: u64, ps: seq<Prepared>, source: string): Result<Store>
    requires forall i :: 0 <= i < |ps| ==> ps[i].fk.idx < U32_MAX
  {
    if traj in s.meta then Err(TrajExists(traj, s.meta[traj].frames))
    else Ok(PutMeta(PutAll(s, ps), traj, TrajMeta(CountOf(ps), source)))
  }

  /** `append_trajectory_str` on the spans the parser cuts the file into. */
  function Append(w: World, s: Store, traj: u64, spans: seq<Text>, source: string, compress: bool): Result<Store>
    requires Counted(spans)
  {
    var ps :- Prepare(w, traj, 0, spans, compress);
    var grouped :- if compress then GroupPrepared(w.zstd, ps) else Ok(ps);
    IndexesFit(w, traj, 0, spans, ps, grouped, compress);
    Commit(s, traj, grouped, source)
  }

  lemma IndexesFit(w: World, traj: u64, start: nat, spans: seq<Text>, ps: seq<Prepared>, grouped: seq<Prepared>, compress: bool)
    requires start + |spans| <= U32_MAX
    requires Prepare(w, traj, start, spans, compress) == Ok(ps)
    requires grouped == ps || GroupPrepared(w.zstd, ps) == Ok(grouped)
    ensures |grouped| == |spans|
    ensures forall i :: 0 <= i < |grouped| ==> grouped[i].fk == FrameKey(traj, start + i) && start + i < U32_MAX
  {
    hide LoadPrepared, FC.PackAligned, Build;
    PrepareMeans(w, traj, start, spans, compress);
    forall i | 0 <= i < |ps| ensures ps[i].fk == FrameKey(traj, start + i) {
      assert PreparedAt(w, traj, start + i, spans[i], compress, ps[i]);
      BuiltKey(w, FrameKey(traj, start + i), w.Parse(spans[i]).value, spans[i], compress);
    }
  }

  lemma BuiltKey(w: World, fk: FrameKey, p: Proj, text: Text, compress: bool)
    ensures Build(w, fk, p, text, compress).fk == fk
    ensures Build(w, fk, p, text, compress).stored == FC.StoreFrame(w.zstd, text, compress)
    ensures Build(w, fk, p, text, compress).hash == w.Digest(text)
  {}
}
