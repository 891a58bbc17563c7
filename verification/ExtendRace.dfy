/**
 * Concurrent extends and appends on one environment. A thread reads the live count and prepares outside the
 * write transaction; its transaction then runs alone. Between the two any other thread may commit.
 */
module ExtendRace {
  import opened Prelude
  import opened Utf8
  import opened Keys
  import opened Store
  import opened Ingest
  import opened Corpus
  import opened CorpusGrow
  import FC = FrameCodec

  /** Where a thread stands; `ps` are its puts before grouping, `out` what its transaction will write. */
  datatype Pc =
    | Idle
    | Extending(traj: u64, start: u32, prior: Option<TrajMeta>, spans: seq<Text>, ps: seq<Prepared>, out: seq<Prepared>, hint: string)
    | Appending(traj: u64, spans: seq<Text>, ps: seq<Prepared>, out: seq<Prepared>, source: string)

  /** A successful commit: the block of frames it added. */
  datatype Block = Block(traj: u64, start: u32, spans: seq<Text>)

  datatype Sys = Sys(threads: seq<Pc>, store: Store, blocks: seq<Block>)

  datatype Act =
    | StartExtend(traj: u64, ms: seq<Mem>, hint: string)
    | StartAppend(traj: u64, spans: seq<Text>, source: string)
    | Commit

  function PriorOf(s: Store, traj: u64): Option<TrajMeta> {
    if traj in s.meta then Some(s.meta[traj]) else None
  }

  predicate KeysFrom(out: seq<Prepared>, traj: u64, start: nat) {
    start + |out| <= U32_MAX && forall i :: 0 <= i < |out| ==> out[i].fk == FrameKey(traj, start + i)
  }

  /** The read and the preparation of an extend; a text that cannot be grouped ends it there. */
  function PrepareExtend(w: World, s: Store, compress: bool, traj: u64, ms: seq<Mem>, hint: string): Pc
    requires Live(s, traj) + |ms| <= U32_MAX
  {
    var start := Live(s, traj);
    var ps := PrepareFrames(w, traj, start, ms, compress);
    match Grouped(w, ps, compress)
    case Err(_) => Idle
    case Ok(out) => Extending(traj, start, PriorOf(s, traj), TextsOf(ms), ps, out, hint)
  }

  function PrepareAppend(w: World, compress: bool, traj: u64, spans: seq<Text>, source: string): Pc
    requires Counted(spans)
  {
    match Prepare(w, traj, 0, spans, compress)
    case Err(_) => Idle
    case Ok(ps) =>
      match Grouped(w, ps, compress)
      case Err(_) => Idle
      case Ok(out) => Appending(traj, spans, ps, out, source)
  }

  /** The store and the block a commit leaves; `None` when the transaction refused. */
  function CommitOf(s: Store, pc: Pc): Option<(Store, Block)>
    requires !pc.Idle? && KeysFrom(pc.out, pc.traj, if pc.Extending? then pc.start else 0)
  {
    match pc
    case Extending(traj, start, prior, spans, _, out, hint) =>
      (match ExtendCommit(s, traj, start, prior, out, hint)
       case Err(_) => None
       case Ok(s1) => Some((s1, Block(traj, start, spans))))
    case Appending(traj, spans, _, out, source) =>
      (match Ingest.Commit(s, traj, out, source)
       case Err(_) => None
       case Ok(s1) => Some((s1, Block(traj, 0, spans))))
  }

  ghost predicate PcOk(w: World, compress: bool, pc: Pc) {
    match pc
    case Idle => true
    case Extending(traj, start, _, spans, ps, out, _) => Ready(w, compress, traj, start, spans, ps, out)
    case Appending(traj, spans, ps, out, _) => Ready(w, compress, traj, 0, spans, ps, out)
  }

  /** What a thread holds is the preparation of its spans from its start index on. */
  ghost predicate Ready(w: World, compress: bool, traj: u64, start: nat, spans: seq<Text>, ps: seq<Prepared>, out: seq<Prepared>) {
    && start + |spans| <= U32_MAX && |out| == |spans|
    && PreparedAs(w, traj, start, spans, compress, ps) && Grouped(w, ps, compress) == Ok(out)
    && KeysFrom(out, traj, start)
  }

  predicate Enabled(sys: Sys, i: nat, a: Act)
    requires i < |sys.threads|
  {
    match a
    case StartExtend(traj, ms, _) => sys.threads[i].Idle? && Live(sys.store, traj) + |ms| <= U32_MAX
    case StartAppend(_, spans, _) => sys.threads[i].Idle? && Counted(spans)
    case Commit =>
      var pc := sys.threads[i];
      !pc.Idle? && KeysFrom(pc.out, pc.traj, if pc.Extending? then pc.start else 0)
  }

  function Step(w: World, compress: bool, sys: Sys, i: nat, a: Act): Sys
    requires i < |sys.threads| && Enabled(sys, i, a)
  {
    match a
    case StartExtend(traj, ms, hint) =>
      sys.(threads := sys.threads[i := PrepareExtend(w, sys.store, compress, traj, ms, hint)])
    case StartAppend(traj, spans, source) =>
      sys.(threads := sys.threads[i := PrepareAppend(w, compress, traj, spans, source)])
    case Commit =>
      match CommitOf(sys.store, sys.threads[i])
      case None => sys.(threads := sys.threads[i := Idle])
      case Some((s1, block)) => Sys(sys.threads[i := Idle], s1, sys.blocks + [block])
  }

  // ---------------------------------------------------------------------
  // The invariant
  // ---------------------------------------------------------------------

  predicate BlockFits(b: Block) {
    b.start + |b.spans| <= U32_MAX
  }

  predicate AllFit(blocks: seq<Block>) {
    forall k :: 0 <= k < |blocks| ==> BlockFits(blocks[k])
  }

  /** The texts after a block. */
  function WithBlock(texts: Texts, b: Block): Texts
    requires BlockFits(b)
  {
    WithSpan(texts, b.traj, b.start, b.spans)
  }

  /** The texts and the live counts after a list of blocks, each of which starts where its trajectory ended. */
  function AllTexts(texts: Texts, blocks: seq<Block>): Texts
    requires AllFit(blocks)
  {
    if blocks == [] then texts
    else WithBlock(AllTexts(texts, blocks[..|blocks| - 1]), blocks[|blocks| - 1])
  }

  ghost predicate Inv(w: World, compress: bool, texts0: Texts, sys: Sys) {
    && FC.Lawful(w.zstd)
    && AllFit(sys.blocks)
    && Coherent(w, sys.store, AllTexts(texts0, sys.blocks))
    && forall i :: 0 <= i < |sys.threads| ==> PcOk(w, compress, sys.threads[i])
  }

  lemma ExtendPrepares(w: World, s: Store, compress: bool, traj: u64, ms: seq<Mem>, hint: string)
    requires FC.Lawful(w.zstd) && Live(s, traj) + |ms| <= U32_MAX && Faithful(w, ms)
    ensures PcOk(w, compress, PrepareExtend(w, s, compress, traj, ms, hint))
  {
    hide Faithful, PreparedAs, Grouped, CarryAll, StoredAs, FC.Lawful, Build;
    var start := Live(s, traj);
    var ps := PrepareFrames(w, traj, start, ms, compress);
    FaithfulPrepares(w, traj, start, ms, compress);
    if Grouped(w, ps, compress).Ok? {
      GroupedCarries(w, traj, start, TextsOf(ms), compress, ps, Grouped(w, ps, compress).value);
    }
    PreparedLength(w, traj, start, TextsOf(ms), compress, ps);
  }

  lemma PreparedLength(w: World, traj: u64, start: nat, spans: seq<Text>, compress: bool, ps: seq<Prepared>)
    requires start + |spans| <= U32_MAX && PreparedAs(w, traj, start, spans, compress, ps)
    ensures |ps| == |spans|
  {
    hide PreparedAt;
  }

  lemma AppendPrepares(w: World, compress: bool, traj: u64, spans: seq<Text>, source: string)
    requires FC.Lawful(w.zstd) && Counted(spans)
    ensures PcOk(w, compress, PrepareAppend(w, compress, traj, spans, source))
  {
    hide PreparedAs, Grouped, CarryAll, StoredAs, FC.Lawful, Prepare;
    var r := Prepare(w, traj, 0, spans, compress);
    PrepareMeans(w, traj, 0, spans, compress);
    if r.Ok? && Grouped(w, r.value, compress).Ok? {
      GroupedCarries(w, traj, 0, spans, compress, r.value, Grouped(w, r.value, compress).value);
    }
  }

  /** A commit either adds a block of unused indices at the live count, or leaves the store alone. */
  lemma CommitKeeps(w: World, compress: bool, s: Store, texts: Texts, pc: Pc)
    requires FC.Lawful(w.zstd) && Coherent(w, s, texts) && !pc.Idle? && PcOk(w, compress, pc)
    requires KeysFrom(pc.out, pc.traj, if pc.Extending? then pc.start else 0)
    ensures var r := CommitOf(s, pc);
      && (r.Some? <==> if pc.Extending? then Live(s, pc.traj) == pc.start else pc.traj !in s.meta)
      && (r.Some? ==>
        var (s1, b) := r.value;
        && BlockFits(b) && b.traj == pc.traj && b.spans == pc.spans && b.start == Live(s, b.traj)
        && Unused(texts, b.traj, b.start, |b.spans|)
        && Coherent(w, s1, WithBlock(texts, b)) && Live(s1, b.traj) == b.start + |b.spans|)
  {
    hide Coherent, PreparedAs, Grouped, WithSpan, FC.Lawful, PutAll, Unused;
    if pc.Extending? {
      ExtendCoherent(w, s, texts, pc.traj, pc.start, pc.prior, pc.spans, compress, pc.ps, pc.out, pc.hint);
    } else {
      CommitCoherent(w, s, texts, pc.traj, pc.spans, pc.source, compress, pc.ps, pc.out);
    }
    CoherentNumbered(w, s, texts);
    LiveIsNext(w, s, texts, pc.traj, |pc.spans|);
  }

  lemma CoherentNumbered(w: World, s: Store, texts: Texts)
    requires Coherent(w, s, texts)
    ensures Numbered(s.meta, texts)
  {
    hide Readable, Sound, Numbered, CookedFresh;
  }

  ghost predicate FaithfulAct(w: World, a: Act) {
    a.StartExtend? ==> Faithful(w, a.ms)
  }

  lemma StepKeeps(w: World, compress: bool, texts0: Texts, sys: Sys, i: nat, a: Act)
    requires Inv(w, compress, texts0, sys) && i < |sys.threads| && Enabled(sys, i, a) && FaithfulAct(w, a)
    ensures Inv(w, compress, texts0, Step(w, compress, sys, i, a))
  {
    hide Coherent, PcOk, PrepareExtend, PrepareAppend, CommitOf, FC.Lawful, Faithful, WithBlock;
    match a {
      case StartExtend(traj, ms, hint) => ExtendPrepares(w, sys.store, compress, traj, ms, hint);
      case StartAppend(traj, spans, source) => AppendPrepares(w, compress, traj, spans, source);
      case Commit =>
        IdleOk(w, compress);
        CommitKeeps(w, compress, sys.store, AllTexts(texts0, sys.blocks), sys.threads[i]);
        var next := Step(w, compress, sys, i, a);
        if next.blocks != sys.blocks {
          assert next.blocks[..|next.blocks| - 1] == sys.blocks;
        }
    }
  }

  lemma IdleOk(w: World, compress: bool)
    ensures PcOk(w, compress, Idle)
  {}

  /**
   * One step of any interleaving: no stored frame changes or goes, a success adds exactly its own block, on unused
   * indices, at the live count of its trajectory, and a losing racer changes nothing.
   */
  lemma StepGrows(w: World, compress: bool, texts0: Texts, sys: Sys, i: nat, a: Act)
    requires Inv(w, compress, texts0, sys) && i < |sys.threads| && Enabled(sys, i, a) && FaithfulAct(w, a)
    ensures var next, pc := Step(w, compress, sys, i, a), sys.threads[i];
      && (next.blocks == sys.blocks ==> next.store == sys.store)
      && (next.blocks != sys.blocks <==>
          a.Commit? && if pc.Extending? then Live(sys.store, pc.traj) == pc.start else pc.traj !in sys.store.meta)
      && (next.blocks != sys.blocks ==>
        next.blocks != [] && next.blocks[..|next.blocks| - 1] == sys.blocks &&
        var b := next.blocks[|next.blocks| - 1];
        && a.Commit? && b.traj == sys.threads[i].traj && b.spans == sys.threads[i].spans
        && BlockFits(b) && Unused(AllTexts(texts0, sys.blocks), b.traj, b.start, |b.spans|)
        && b.start == Live(sys.store, b.traj) && Live(next.store, b.traj) == b.start + |b.spans|
        && forall t: u64 :: t != b.traj ==> Live(next.store, t) == Live(sys.store, t))
  {
    hide Coherent, PcOk, PrepareExtend, PrepareAppend, FC.Lawful, Unused, PutAll, CommitOf, Live;
    if a.Commit? {
      var pc := sys.threads[i];
      CommitKeeps(w, compress, sys.store, AllTexts(texts0, sys.blocks), pc);
      OthersStay(sys.store, pc);
      var next := Step(w, compress, sys, i, a);
      if next.blocks != sys.blocks {
        assert next.blocks[..|next.blocks| - 1] == sys.blocks;
      }
      assert CommitOf(sys.store, pc).Some? ==> |next.blocks| == |sys.blocks| + 1;
    }
  }

  /** A call leaves its preparation for one of its own spans, at the live count an extend reads, exactly when it can. */
  lemma StepStarts(w: World, compress: bool, texts0: Texts, sys: Sys, i: nat, a: Act)
    requires Inv(w, compress, texts0, sys) && i < |sys.threads| && Enabled(sys, i, a) && FaithfulAct(w, a)
    ensures var pc := Step(w, compress, sys, i, a).threads[i];
      match a {
        case StartExtend(traj, ms, hint) =>
          var start := Live(sys.store, traj);
          && (pc.Extending? <==> (compress ==> FC.Groupable(FramesFrom(start, TextsOf(ms)))))
          && (if pc.Extending? then pc.traj == traj && pc.start == start && pc.spans == TextsOf(ms) && pc.hint == hint else pc.Idle?)
        case StartAppend(traj, spans, source) =>
          && (pc.Appending? <==>
              (forall k :: 0 <= k < |spans| ==> w.Parse(spans[k]).Some?) && (compress ==> FC.Groupable(FramesFrom(0, spans))))
          && (if pc.Appending? then pc.traj == traj && pc.spans == spans && pc.source == source else pc.Idle?)
        case Commit => pc.Idle?
      }
  {
    hide Coherent, PcOk, CommitOf, FC.Lawful, FC.Groupable, Faithful, Prepare, PreparedAs, PrepareFrames, Grouped, AllTexts, Live;
    match a {
      case StartExtend(traj, ms, hint) =>
        var start := Live(sys.store, traj);
        FaithfulPrepares(w, traj, start, ms, compress);
        GroupedSucceeds(w, traj, start, TextsOf(ms), compress, PrepareFrames(w, traj, start, ms, compress));
      case StartAppend(traj, spans, source) =>
        PrepareMeans(w, traj, 0, spans, compress);
        var ps := Prepare(w, traj, 0, spans, compress);
        if ps.Ok? {
          GroupedSucceeds(w, traj, 0, spans, compress, ps.value);
        }
      case Commit =>
    }
  }

  /** A prepared block can always be committed, and an idle thread can always start. */
  lemma NeverStuck(w: World, compress: bool, texts0: Texts, sys: Sys, i: nat)
    requires Inv(w, compress, texts0, sys) && i < |sys.threads|
    ensures Enabled(sys, i, Commit) <==> !sys.threads[i].Idle?
    ensures forall traj: u64, ms: seq<Mem>, hint: string ::
      Enabled(sys, i, StartExtend(traj, ms, hint)) <==> sys.threads[i].Idle? && Live(sys.store, traj) + |ms| <= U32_MAX
    ensures forall traj: u64, spans: seq<Text>, source: string ::
      Enabled(sys, i, StartAppend(traj, spans, source)) <==> sys.threads[i].Idle? && |spans| <= U32_MAX
  {
    hide Coherent, FC.Lawful, PreparedAs, Grouped, Live, AllTexts;
    assert PcOk(w, compress, sys.threads[i]);
  }

  lemma OthersStay(s: Store, pc: Pc)
    requires !pc.Idle? && KeysFrom(pc.out, pc.traj, if pc.Extending? then pc.start else 0)
    ensures var r := CommitOf(s, pc);
      r.Some? ==> forall t: u64 :: t != pc.traj ==> Live(r.value.0, t) == Live(s, t)
  {
    hide PutAll;
    PutAllSoa(s, pc.out);
  }

  // ---------------------------------------------------------------------
  // Runs
  // ---------------------------------------------------------------------

  datatype Move = Move(who: nat, act: Act)

  function Run(w: World, compress: bool, sys: Sys, schedule: seq<Move>): Sys
    decreases |schedule|
  {
    if schedule == [] then sys
    else
      var before := Run(w, compress, sys, schedule[..|schedule| - 1]);
      var m := schedule[|schedule| - 1];
      if m.who < |before.threads| && Enabled(before, m.who, m.act) then Step(w, compress, before, m.who, m.act) else before
  }

  /** In every interleaving the environment stays consistent, with the texts of the blocks that won and no others. */
  lemma {:induction false} RunKeeps(w: World, compress: bool, texts0: Texts, sys: Sys, schedule: seq<Move>)
    requires Inv(w, compress, texts0, sys) && forall k :: 0 <= k < |schedule| ==> FaithfulAct(w, schedule[k].act)
    ensures Inv(w, compress, texts0, Run(w, compress, sys, schedule))
    decreases |schedule|
  {
    hide Inv, Step, Enabled, FaithfulAct;
    if schedule != [] {
      var n := |schedule| - 1;
      RunKeeps(w, compress, texts0, sys, schedule[..n]);
      var before, m := Run(w, compress, sys, schedule[..n]), schedule[n];
      if m.who < |before.threads| && Enabled(before, m.who, m.act) {
        StepKeeps(w, compress, texts0, before, m.who, m.act);
      }
    }
  }

  /** Blocks of one trajectory follow each other without gap or overlap. */
  predicate Tiled(blocks: seq<Block>) {
    forall j, k :: 0 <= j < k < |blocks| && blocks[j].traj == blocks[k].traj ==>
      blocks[j].start + |blocks[j].spans| <= blocks[k].start
  }

  lemma {:induction false} RunTiles(w: World, compress: bool, texts0: Texts, sys: Sys, schedule: seq<Move>)
    requires Inv(w, compress, texts0, sys) && sys.blocks == []
    requires forall k :: 0 <= k < |schedule| ==> FaithfulAct(w, schedule[k].act)
    ensures var end := Run(w, compress, sys, schedule);
      && Tiled(end.blocks)
      && (forall k :: 0 <= k < |end.blocks| ==>
        BlockFits(end.blocks[k]) && end.blocks[k].start + |end.blocks[k].spans| <= Live(end.store, end.blocks[k].traj))
    decreases |schedule|
  {
    hide Inv, Enabled, FaithfulAct, Step, AllTexts;
    if schedule != [] {
      var n := |schedule| - 1;
      RunKeeps(w, compress, texts0, sys, schedule[..n]);
      RunTiles(w, compress, texts0, sys, schedule[..n]);
      var before, m := Run(w, compress, sys, schedule[..n]), schedule[n];
      if m.who < |before.threads| && Enabled(before, m.who, m.act) {
        StepGrows(w, compress, texts0, before, m.who, m.act);
      }
    }
  }

  /** Whatever committed once is still stored at the end, under its own key. */
  lemma {:induction false} BlockStays(texts: Texts, blocks: seq<Block>, k: nat, fk: FrameKey)
    requires AllFit(blocks) && Tiled(blocks) && k < |blocks|
    requires InSpan(fk, blocks[k].traj, blocks[k].start, |blocks[k].spans|)
    ensures fk in AllTexts(texts, blocks)
    ensures AllTexts(texts, blocks)[fk] == blocks[k].spans[fk.idx - blocks[k].start]
    decreases |blocks|
  {
    hide AllTexts, WithBlock;
    var n := |blocks| - 1;
    LastBlock(texts, blocks, fk);
    if k < n {
      assert InSpan(fk, blocks[..n][k].traj, blocks[..n][k].start, |blocks[..n][k].spans|);
      BlockStays(texts, blocks[..n], k, fk);
      assert blocks[k].traj == blocks[n].traj ==> blocks[k].start + |blocks[k].spans| <= blocks[n].start;
    }
  }

  lemma LastBlock(texts: Texts, blocks: seq<Block>, fk: FrameKey)
    requires AllFit(blocks) && blocks != []
    ensures var n, r := |blocks| - 1, AllTexts(texts, blocks);
      var before := AllTexts(texts, blocks[..n]);
      if InSpan(fk, blocks[n].traj, blocks[n].start, |blocks[n].spans|)
      then fk in r && r[fk] == blocks[n].spans[fk.idx - blocks[n].start]
      else fk in before ==> fk in r && r[fk] == before[fk]
  {
    hide WithSpan;
    var b := blocks[|blocks| - 1];
    assert BlockFits(b);
    if InSpan(fk, b.traj, b.start, |b.spans|) {
      WithSpanAt(AllTexts(texts, blocks[..|blocks| - 1]), b.traj, b.start, b.spans, fk);
    }
  }
}
