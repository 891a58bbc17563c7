/** Append and extend: new frames behind the live ones of a trajectory. */
module CorpusGrow {
  import opened Prelude
  import opened Utf8
  import opened Keys
  import opened Store
  import opened Ingest
  import opened Corpus
  import FC = FrameCodec

  /** An in-memory frame: what it projects to, and the text the writer gives it. */
  datatype Mem = Mem(proj: Proj, text: Text)

  /** Writing a frame and parsing it again keeps the projection. */
  ghost predicate Faithful(w: World, ms: seq<Mem>) {
    forall i :: 0 <= i < |ms| ==> w.Parse(ms[i].text) == Some(ms[i].proj)
  }

  function TextsOf(ms: seq<Mem>): (ts: seq<Text>)
    ensures |ts| == |ms|
    ensures forall i :: 0 <= i < |ms| ==> ts[i] == ms[i].text
  {
    seq(|ms|, i requires 0 <= i < |ms| => ms[i].text)
  }

  /** `prepare_trajectory_frames`: the keys come from the frame in memory, the hash and value from its text. */
  function PrepareFrames(w: World, traj: u64, start: nat, ms: seq<Mem>, compress: bool): (ps: seq<Prepared>)
    requires start + |ms| <= U32_MAX
    ensures |ps| == |ms|
    ensures forall i :: 0 <= i < |ms| ==> ps[i] == Build(w, FrameKey(traj, start + i), ms[i].proj, ms[i].text, compress)
  {
    hide Build;
    seq(|ms|, i requires 0 <= i < |ms| => Build(w, FrameKey(traj, start + i), ms[i].proj, ms[i].text, compress))
  }

  /** The puts of a trajectory as they reach the write transaction. */
  function Grouped(w: World, ps: seq<Prepared>, compress: bool): (r: Result<seq<Prepared>>)
    ensures r.Ok? ==> |r.value| == |ps|
  {
    if compress then GroupPrepared(w.zstd, ps) else Ok(ps)
  }

  lemma FaithfulPrepares(w: World, traj: u64, start: nat, ms: seq<Mem>, compress: bool)
    requires start + |ms| <= U32_MAX && Faithful(w, ms)
    ensures PreparedAs(w, traj, start, TextsOf(ms), compress, PrepareFrames(w, traj, start, ms, compress))
  {
    hide Build;
  }

  /** Grouping changes the stored form and nothing else. */
  lemma GroupedCarries(w: World, traj: u64, start: nat, spans: seq<Text>, compress: bool, ps: seq<Prepared>, out: seq<Prepared>)
    requires FC.Lawful(w.zstd) && start + |spans| <= U32_MAX
    requires PreparedAs(w, traj, start, spans, compress, ps) && Grouped(w, ps, compress) == Ok(out)
    ensures CarryAll(w, traj, start, spans, out)
    ensures StoredAs(w.zstd, start, spans, compress, StoredOf(out))
    ensures forall i :: 0 <= i < |out| ==> out[i].fk == FrameKey(traj, start + i)
  {
    hide Build, Carries, FC.PackAligned, GroupPrepared, FC.StoreFrame, FC.Lawful;
    if compress {
      GroupedMeans(w, traj, start, spans, ps);
      assert StoredOf(out) == FC.PackAligned(w.zstd, FramesFrom(start, spans)).value;
    }
    forall i | 0 <= i < |out|
      ensures Carries(w, out[i], FrameKey(traj, start + i), spans[i]) && out[i].fk == FrameKey(traj, start + i)
      ensures !compress ==> out[i].stored == FC.StoreFrame(w.zstd, spans[i], false)
    {
      assert PreparedAt(w, traj, start + i, spans[i], compress, ps[i]);
      BuiltKey(w, FrameKey(traj, start + i), w.Parse(spans[i]).value, spans[i], compress);
      BuiltCarries(w, FrameKey(traj, start + i), spans[i], compress, out[i].stored);
      assert out[i] == ps[i].(stored := out[i].stored);
      CarriedKey(w, out[i], FrameKey(traj, start + i), spans[i]);
    }
  }

  /** Grouping fails exactly when a text longer than `u32` shares its aligned run with another frame. */
  lemma GroupedSucceeds(w: World, traj: u64, start: nat, spans: seq<Text>, compress: bool, ps: seq<Prepared>)
    requires FC.Lawful(w.zstd) && start + |spans| <= U32_MAX
    requires PreparedAs(w, traj, start, spans, compress, ps)
    ensures Grouped(w, ps, compress).Ok? <==> (compress ==> FC.Groupable(FramesFrom(start, spans)))
  {
    hide PreparedAs, FC.PackAligned, GroupPrepared, FC.Lawful, FC.Groupable;
    if compress {
      GroupedMeans(w, traj, start, spans, ps);
      FC.PackSucceeds(w.zstd, FramesFrom(start, spans));
    }
  }

  /** The live frame count of a trajectory, as metadata records it. */
  function Live(s: Store, traj: u64): u32 {
    if traj in s.meta then s.meta[traj].frames else 0
  }

  lemma LiveIsNext(w: World, s: Store, texts: Texts, traj: u64, n: nat)
    requires Numbered(s.meta, texts)
    ensures Unused(texts, traj, Live(s, traj), n)
  {}

  /** Frames put behind the live ones, with metadata that counts them, keep the environment consistent. */
  lemma SpanCoherent(w: World, s: Store, texts: Texts, traj: u64, spans: seq<Text>, compress: bool,
      ps: seq<Prepared>, m: TrajMeta)
    requires FC.Lawful(w.zstd) && Coherent(w, s, texts)
    requires Live(s, traj) + |spans| <= U32_MAX
    requires CarryAll(w, traj, Live(s, traj), spans, ps)
    requires StoredAs(w.zstd, Live(s, traj), spans, compress, StoredOf(ps))
    requires forall i :: 0 <= i < |ps| ==> ps[i].fk == FrameKey(traj, Live(s, traj) + i)
    requires m.frames == Live(s, traj) + |spans|
    ensures Coherent(w, PutMeta(PutAll(s, ps), traj, m), WithSpan(texts, traj, Live(s, traj), spans))
  {
    hide *;
    CoherentParts(w, s, texts);
    LiveIsNext(w, s, texts, traj, |spans|);
    CarryAllLength(w, traj, Live(s, traj), spans, ps);
    PutAllSound(w, s, texts, traj, Live(s, traj), spans, ps);
    PutAllFrames(s, traj, Live(s, traj), ps);
    SpanReadable(w.zstd, s.frames, texts, traj, Live(s, traj), spans, compress, StoredOf(ps));
    PutAllSoa(s, ps);
    SpanNumbered(s, texts, traj, spans, m);
    SpanCooked(w, s.soa, texts, traj, Live(s, traj), spans);
    CoherentWhole(w, PutAll(s, ps), traj, m, WithSpan(texts, traj, Live(s, traj), spans));
  }

  lemma CoherentParts(w: World, s: Store, texts: Texts)
    requires Coherent(w, s, texts)
    ensures Readable(w.zstd, s.frames, texts) && Sound(w, s, texts)
    ensures Numbered(s.meta, texts) && CookedFresh(w, s.soa, texts)
  {
    hide Readable, Sound, Numbered, CookedFresh;
  }

  lemma CarryAllLength(w: World, traj: u64, start: nat, spans: seq<Text>, ps: seq<Prepared>)
    requires start + |spans| <= U32_MAX && CarryAll(w, traj, start, spans, ps)
    ensures |ps| == |spans|
  {
    hide Carries;
  }

  lemma SpanNumbered(s: Store, texts: Texts, traj: u64, spans: seq<Text>, m: TrajMeta)
    requires Numbered(s.meta, texts) && Live(s, traj) + |spans| <= U32_MAX && m.frames == Live(s, traj) + |spans|
    ensures Numbered(s.meta[traj := m], WithSpan(texts, traj, Live(s, traj), spans))
  {
    hide WithSpan;
  }

  lemma SpanCooked(w: World, soa: map<FrameKey, Bytes>, texts: Texts, traj: u64, start: nat, spans: seq<Text>)
    requires start + |spans| <= U32_MAX && CookedFresh(w, soa, texts) && Unused(texts, traj, start, |spans|)
    ensures CookedFresh(w, soa, WithSpan(texts, traj, start, spans))
  {
    hide WithSpan;
  }

  lemma CoherentWhole(w: World, s: Store, traj: u64, m: TrajMeta, texts: Texts)
    requires Readable(w.zstd, s.frames, texts) && Sound(w, s, texts)
    requires Numbered(s.meta[traj := m], texts) && CookedFresh(w, s.soa, texts)
    ensures Coherent(w, PutMeta(s, traj, m), texts)
  {
    hide Readable, Numbered, CookedFresh, Indexed, Hashed, Posted, Parsed;
  }

  // ---------------------------------------------------------------------
  // Append
  // ---------------------------------------------------------------------

  /** `commit_prepared` of a new trajectory keeps the invariant and adds exactly its texts. */
  lemma CommitCoherent(w: World, s: Store, texts: Texts, traj: u64, spans: seq<Text>, source: string, compress: bool,
      ps: seq<Prepared>, out: seq<Prepared>)
    requires FC.Lawful(w.zstd) && Coherent(w, s, texts) && Counted(spans)
    requires PreparedAs(w, traj, 0, spans, compress, ps) && Grouped(w, ps, compress) == Ok(out)
    requires forall i :: 0 <= i < |out| ==> out[i].fk.idx < U32_MAX
    ensures traj in s.meta <==> Commit(s, traj, out, source).Err?
    ensures var r := Commit(s, traj, out, source);
      r.Ok? ==> (
        && Coherent(w, r.value, WithSpan(texts, traj, 0, spans))
        && r.value.meta == s.meta[traj := TrajMeta(|spans|, source)])
  {
    hide Coherent, PreparedAs, Grouped, PutAll, CarryAll, StoredAs, WithSpan;
    GroupedCarries(w, traj, 0, spans, compress, ps, out);
    CarryAllLength(w, traj, 0, spans, out);
    if traj !in s.meta {
      PutAllSoa(s, out);
      SpanCoherent(w, s, texts, traj, spans, compress, out, TrajMeta(|spans|, source));
    }
  }

  /** `append_trajectory_str` keeps the invariant. */
  lemma AppendCoherent(w: World, s: Store, texts: Texts, traj: u64, spans: seq<Text>, source: string, compress: bool)
    requires FC.Lawful(w.zstd) && Coherent(w, s, texts) && Counted(spans)
    ensures var r := Append(w, s, traj, spans, source, compress);
      r.Ok? ==> (
        && traj !in s.meta && Coherent(w, r.value, WithSpan(texts, traj, 0, spans))
        && r.value.meta == s.meta[traj := TrajMeta(|spans|, source)])
  {
    hide Coherent, Commit, GroupPrepared, PreparedAs, PreparedAt, WithSpan, Prepare;
    var r := Append(w, s, traj, spans, source, compress);
    if r.Ok? {
      var ps := Prepare(w, traj, 0, spans, compress).value;
      var out := Grouped(w, ps, compress).value;
      PrepareMeans(w, traj, 0, spans, compress);
      IndexesFit(w, traj, 0, spans, ps, out, compress);
      CommitCoherent(w, s, texts, traj, spans, source, compress, ps, out);
    }
  }

  /** When an append succeeds: a new trajectory, texts that parse, and runs that group. */
  lemma AppendSucceeds(w: World, s: Store, traj: u64, spans: seq<Text>, source: string, compress: bool)
    requires FC.Lawful(w.zstd) && Counted(spans)
    ensures Append(w, s, traj, spans, source, compress).Ok? <==>
      && traj !in s.meta
      && (forall i :: 0 <= i < |spans| ==> w.Parse(spans[i]).Some?)
      && (compress ==> FC.Groupable(FramesFrom(0, spans)))
  {
    hide Commit, GroupPrepared, PreparedAs, Prepare, FC.Lawful, FC.Groupable;
    PrepareMeans(w, traj, 0, spans, compress);
    var ps := Prepare(w, traj, 0, spans, compress);
    if ps.Ok? {
      GroupedSucceeds(w, traj, 0, spans, compress, ps.value);
      var out := Grouped(w, ps.value, compress);
      if out.Ok? {
        IndexesFit(w, traj, 0, spans, ps.value, out.value, compress);
        CommitRefuses(s, traj, out.value, source);
      }
    }
  }

  lemma CommitRefuses(s: Store, traj: u64, ps: seq<Prepared>, source: string)
    requires forall i :: 0 <= i < |ps| ==> ps[i].fk.idx < U32_MAX
    ensures Commit(s, traj, ps, source).Ok? <==> traj !in s.meta
  {}

  // ---------------------------------------------------------------------
  // Extend
  // ---------------------------------------------------------------------

  /** The metadata an extend starts from: the live one, else what it read before, else a new one. */
  function ExtendMeta(s: Store, traj: u64, prior: Option<TrajMeta>, hint: string): TrajMeta {
    if traj in s.meta then s.meta[traj] else if prior.Some? then prior.value else TrajMeta(0, hint)
  }

  /** The write transaction of `extend_trajectory_frames`: the puts were derived for index `start`. */
  function ExtendCommit(s: Store, traj: u64, start: u32, prior: Option<TrajMeta>, ps: seq<Prepared>, hint: string): Result<Store>
    requires start + |ps| <= U32_MAX
    requires forall i :: 0 <= i < |ps| ==> ps[i].fk == FrameKey(traj, start + i)
  {
    if Live(s, traj) != start then Err(Message("concurrent extend race"))
    else
      var n := if ps == [] then start else ps[|ps| - 1].fk.idx + 1;
      Ok(PutMeta(PutAll(s, ps), traj, ExtendMeta(s, traj, prior, hint).(frames := n)))
  }

  /** The source a trajectory is known by after an extend: the one it had, or the hint when it is new. */
  function SourceKept(s: Store, traj: u64, prior: Option<TrajMeta>, hint: string): string {
    if traj in s.meta then s.meta[traj].source else if prior.Some? then prior.value.source else hint
  }

  /** An extend that finds the count it started from adds its block; any other changes nothing. */
  lemma ExtendCoherent(w: World, s: Store, texts: Texts, traj: u64, start: u32, prior: Option<TrajMeta>,
      spans: seq<Text>, compress: bool, ps: seq<Prepared>, out: seq<Prepared>, hint: string)
    requires FC.Lawful(w.zstd) && Coherent(w, s, texts) && start + |spans| <= U32_MAX
    requires PreparedAs(w, traj, start, spans, compress, ps) && Grouped(w, ps, compress) == Ok(out)
    ensures |out| == |spans| && forall i :: 0 <= i < |out| ==> out[i].fk == FrameKey(traj, start + i)
    ensures var r := ExtendCommit(s, traj, start, prior, out, hint);
      && (r.Ok? <==> Live(s, traj) == start)
      && (r.Ok? ==> (
        && Coherent(w, r.value, WithSpan(texts, traj, start, spans)) && Live(r.value, traj) == start + |spans|
        && r.value.meta == s.meta[traj := TrajMeta(start + |spans|, SourceKept(s, traj, prior, hint))]))
  {
    hide *;
    GroupedCarries(w, traj, start, spans, compress, ps, out);
    CarryAllLength(w, traj, start, spans, out);
    ExtendCommitIs(s, traj, start, prior, out, hint);
    if Live(s, traj) == start {
      SpanCoherent(w, s, texts, traj, spans, compress, out, TrajMeta(start + |spans|, SourceKept(s, traj, prior, hint)));
    }
  }

  lemma ExtendCommitIs(s: Store, traj: u64, start: u32, prior: Option<TrajMeta>, ps: seq<Prepared>, hint: string)
    requires start + |ps| <= U32_MAX
    requires forall i :: 0 <= i < |ps| ==> ps[i].fk == FrameKey(traj, start + i)
    ensures var r, m := ExtendCommit(s, traj, start, prior, ps, hint), TrajMeta(start + |ps|, SourceKept(s, traj, prior, hint));
      && (r.Ok? <==> Live(s, traj) == start)
      && (r.Ok? ==> r.value == PutMeta(PutAll(s, ps), traj, m) && r.value.meta == s.meta[traj := m] && Live(r.value, traj) == m.frames)
  {
    hide PutAll;
    PutAllSoa(s, ps);
  }
}
