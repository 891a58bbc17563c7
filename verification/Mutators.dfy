/** The operations that change an environment, each one write transaction installed whole or dropped. */
module Mutators {
  import opened Prelude
  import opened Utf8
  import opened Keys
  import opened KeyOrder
  import opened Store
  import opened Ingest
  import opened Corpus
  import opened CorpusGrow
  import opened CorpusRewrite
  import opened CorpusRebuild
  import opened Environment
  import opened CodecSizes
  import FC = FrameCodec

  // ---------------------------------------------------------------------
  // Preparing, outside any transaction
  // ---------------------------------------------------------------------

  /** `prepare_trajectory_str`: parse span after span. */
  method PrepareLoop(w: World, traj: u64, spans: seq<Text>, compress: bool) returns (r: Result<seq<Prepared>>)
    requires Counted(spans)
    ensures r == Prepare(w, traj, 0, spans, compress)
  {
    hide Build;
    var out: seq<Prepared> := [];
    for i := 0 to |spans|
      invariant |out| == i
      invariant Prepare(w, traj, 0, spans[..i], compress) == Ok(out)
    {
      PrepareNext(w, traj, spans, compress, i, out);
      var proj := w.Parse(spans[i]);
      if proj.None? {
        PrepareStops(w, traj, spans, compress, i + 1, ParseError);
        return Err(ParseError);
      }
      out := out + [Build(w, FrameKey(traj, i), proj.value, spans[i], compress)];
    }
    assert spans[..|spans|] == spans;
    r := Ok(out);
  }

  lemma PrepareNext(w: World, traj: u64, spans: seq<Text>, compress: bool, i: nat, out: seq<Prepared>)
    requires Counted(spans) && i < |spans| && Prepare(w, traj, 0, spans[..i], compress) == Ok(out)
    ensures Prepare(w, traj, 0, spans[..i + 1], compress) ==
      match w.Parse(spans[i]) {
        case None => Err(ParseError)
        case Some(proj) => Ok(out + [Build(w, FrameKey(traj, i), proj, spans[i], compress)])
      }
  {
    hide Build;
    assert spans[..i + 1][..i] == spans[..i];
  }

  lemma {:induction false} PrepareStops(w: World, traj: u64, spans: seq<Text>, compress: bool, i: nat, e: Error)
    requires Counted(spans) && i <= |spans| && Prepare(w, traj, 0, spans[..i], compress) == Err(e)
    ensures Prepare(w, traj, 0, spans, compress) == Err(e)
    decreases |spans| - i
  {
    hide Build;
    if i == |spans| {
      assert spans[..i] == spans;
    } else {
      assert spans[..i + 1][..i] == spans[..i];
      PrepareStops(w, traj, spans, compress, i + 1, e);
    }
  }

  method PutAllLoop(txn: Txn, ps: seq<Prepared>)
    modifies txn
    ensures txn.Tables() == PutAll(old(txn.Tables()), ps)
  {
    hide Put;
    for i := 0 to |ps|
      invariant txn.Tables() == PutAll(old(txn.Tables()), ps[..i])
    {
      assert ps[..i + 1][..i] == ps[..i];
      txn.PutIndexPuts(ps[i]);
    }
    assert ps[..|ps|] == ps;
  }

  method DeleteAllLoop(txn: Txn, ps: seq<Prepared>) returns (stale: seq<Hash>)
    modifies txn
    ensures txn.Tables() == DeleteAll(old(txn.Tables()), ps)
    ensures stale == StaleAll(old(txn.Tables()), ps)
  {
    hide Delete, StaleOf;
    stale := [];
    for i := 0 to |ps|
      invariant txn.Tables() == DeleteAll(old(txn.Tables()), ps[..i])
      invariant stale == StaleAll(old(txn.Tables()), ps[..i])
    {
      assert ps[..i + 1][..i] == ps[..i];
      var last := txn.DeleteIndexPuts(ps[i]);
      stale := stale + if last.Some? then [last.value] else [];
    }
    assert ps[..|ps|] == ps;
  }

  /** The write transaction of an extend: the live count must still be the one the puts were derived for. */
  method CommitExtend(txn: Txn, traj: u64, start: u32, prior: Option<TrajMeta>, ps: seq<Prepared>, hint: string)
    returns (r: Result<u32>)
    requires start + |ps| <= U32_MAX
    requires forall i :: 0 <= i < |ps| ==> ps[i].fk == FrameKey(traj, start + i)
    modifies txn
    ensures var spec := ExtendCommit(old(txn.Tables()), traj, start, prior, ps, hint);
      if r.Ok? then spec == Ok(txn.Tables()) && r.value == start + |ps| else spec.Err?
  {
    hide PutAll, ExtendMeta;
    if Live(txn.Tables(), traj) != start {
      return Err(Message("concurrent extend race"));
    }
    var m := ExtendMeta(txn.Tables(), traj, prior, hint);
    PutAllSoa(txn.Tables(), ps);
    PutAllLoop(txn, ps);
    var n := if ps == [] then start else ps[|ps| - 1].fk.idx + 1;
    txn.meta := txn.meta[traj := m.(frames := n)];
    r := Ok(n);
  }

  /** The write transaction of a unit change. */
  method CommitUnits(txn: Txn, olds: seq<Prepared>, news: seq<Prepared>)
    modifies txn
    ensures txn.Tables() == Rewrite(old(txn.Tables()), olds, news)
  {
    hide DeleteAll, StaleAll, RepointAll, PutAll;
    var stale := DeleteAllLoop(txn, olds);
    txn.RepointFrameByHash(stale);
    PutAllLoop(txn, news);
  }

  // ---------------------------------------------------------------------
  // Rewriting in memory
  // ---------------------------------------------------------------------

  /** The frames a unit conversion makes of the stored texts, in order; the first failure stops it. */
  function Rescaled(Rescale: Text -> Result<Mem>, spans: seq<Text>): (r: Result<seq<Mem>>)
    ensures r.Ok? ==> |r.value| == |spans|
  {
    if spans == [] then Ok([])
    else
      var n := |spans| - 1;
      var before :- Rescaled(Rescale, spans[..n]);
      var last :- Rescale(spans[n]);
      Ok(before + [last])
  }

  lemma {:induction false} RescaledStops(Rescale: Text -> Result<Mem>, spans: seq<Text>, i: nat)
    requires i <= |spans| && Rescaled(Rescale, spans[..i]).Err?
    ensures Rescaled(Rescale, spans).Err?
    decreases |spans| - i
  {
    if i == |spans| {
      assert spans[..i] == spans;
    } else {
      assert spans[..i + 1][..i] == spans[..i];
      RescaledStops(Rescale, spans, i + 1);
    }
  }

  lemma {:induction false} RescaledFaithful(w: World, Rescale: Text -> Result<Mem>, spans: seq<Text>)
    requires forall t: Text :: Rescale(t).Ok? ==> w.Parse(Rescale(t).value.text) == Some(Rescale(t).value.proj)
    ensures var r := Rescaled(Rescale, spans); r.Ok? ==> Faithful(w, r.value)
  {
    if spans != [] {
      RescaledFaithful(w, Rescale, spans[..|spans| - 1]);
    }
  }

  /** The keys `0 .. n` of a trajectory. */
  function Run(traj: u64, n: u32): (keys: seq<FrameKey>)
    ensures |keys| == n && forall i :: 0 <= i < n ==> keys[i] == FrameKey(traj, i)
  {
    seq(n, i requires 0 <= i < n => FrameKey(traj, i))
  }

  function KeysOfTraj(s: Store, traj: u64): set<FrameKey> {
    set fk | fk in s.frames && fk.traj == traj
  }

  /** What some listed frames map to: their texts, or their stored values. */
  function ValuesAt<V>(m: map<FrameKey, V>, keys: seq<FrameKey>): (vs: seq<V>)
    requires forall i :: 0 <= i < |keys| ==> keys[i] in m
    ensures |vs| == |keys| && forall i :: 0 <= i < |keys| ==> vs[i] == m[keys[i]]
  {
    seq(|keys|, i requires 0 <= i < |keys| => m[keys[i]])
  }

  /** The cursor over a trajectory visits `0 .. frames`. */
  lemma TrajRun(w: World, s: Store, texts: Texts, traj: u64, keys: seq<FrameKey>)
    requires Coherent(w, s, texts) && Lists(keys, KeysOfTraj(s, traj))
    ensures |keys| == Live(s, traj) && keys == Run(traj, Live(s, traj))
    ensures forall i :: 0 <= i < |keys| ==> keys[i] in texts
    ensures keys != [] ==> Holds(s, texts, traj, ValuesAt(texts, keys))
  {
    hide Sound, Read, CookedFresh;
    var run := Run(traj, Live(s, traj));
    forall k | k in KeysOfTraj(s, traj) ensures k in run {
      assert run[k.idx] == k;
    }
    ListsOnce(keys, run, KeysOfTraj(s, traj));
  }

  // ---------------------------------------------------------------------
  // The environment
  // ---------------------------------------------------------------------

  class ConCorpus {
    const w: World
    var compress: bool
    var tables: Store
    /** What the primary table reads back as. */
    ghost var texts: Texts

    ghost predicate Valid()
      reads this
    {
      FC.Lawful(w.zstd) && Coherent(w, tables, texts)
    }

    constructor (w: World, compress: bool)
      requires FC.Lawful(w.zstd)
      ensures Valid() && this.w == w && texts == map[] && tables == EMPTY
    {
      EmptyIsCoherent(w);
      this.w, this.compress, tables, texts := w, compress, EMPTY, map[];
    }

    /** `append_trajectory_str`: exactly the serial append, or nothing. */
    method AppendStr(traj: u64, spans: seq<Text>, source: string) returns (r: Result<u32>)
      requires Valid() && Counted(spans)
      modifies this`tables, this`texts
      ensures Valid()
      ensures var spec := Append(w, old(tables), traj, spans, source, compress);
        if r.Ok? then spec == Ok(tables) && r.value == |spans| else spec.Err? && tables == old(tables)
      ensures texts == if r.Ok? then WithSpan(old(texts), traj, 0, spans) else old(texts)
    {
      hide Coherent, Append, Prepare, Grouped, PutAll, FC.Lawful, WithSpan;
      AppendSteps(w, tables, traj, spans, source, compress);
      var prepared :- PrepareLoop(w, traj, spans, compress);
      var ps :- Grouped(w, prepared, compress);
      AppendParts(w, tables, texts, traj, spans, source, compress, prepared, ps);
      var txn := new Txn(tables);
      if traj in txn.meta {
        return Err(TrajExists(traj, txn.meta[traj].frames));
      }
      PutAllLoop(txn, ps);
      txn.meta := txn.meta[traj := TrajMeta(|spans|, source)];
      tables, texts := txn.Tables(), WithSpan(texts, traj, 0, spans);
      r := Ok(|spans|);
    }

    /** `extend_trajectory_frames` run alone: the frames go behind the live ones, or nothing changes. */
    method ExtendFrames(traj: u64, ms: seq<Mem>, hint: string) returns (r: Result<u32>)
      requires Valid() && Live(tables, traj) + |ms| <= U32_MAX && Faithful(w, ms)
      modifies this`tables, this`texts
      ensures Valid()
      ensures r.Ok? ==> r.value == Live(old(tables), traj) + |ms| == Live(tables, traj)
      ensures texts == if r.Ok? then WithSpan(old(texts), traj, Live(old(tables), traj), TextsOf(ms)) else old(texts)
      ensures r.Err? ==> tables == old(tables)
      ensures r.Ok? ==> tables.meta == old(tables).meta[traj := TrajMeta(r.value, SourceKept(old(tables), traj, None, hint))]
      ensures r.Ok? <==> (compress ==> FC.Groupable(FramesFrom(Live(old(tables), traj), TextsOf(ms))))
    {
      hide Coherent, Grouped, FC.Lawful, WithSpan, Faithful, PreparedAs, Build, ExtendCommit, FC.Groupable;
      var start := Live(tables, traj);
      var prior := if traj in tables.meta then Some(tables.meta[traj]) else None;
      var prepared := PrepareFrames(w, traj, start, ms, compress);
      FaithfulPrepares(w, traj, start, ms, compress);
      GroupedSucceeds(w, traj, start, TextsOf(ms), compress, prepared);
      var ps :- Grouped(w, prepared, compress);
      ExtendCoherent(w, tables, texts, traj, start, prior, TextsOf(ms), compress, prepared, ps, hint);
      var txn := new Txn(tables);
      r := CommitExtend(txn, traj, start, prior, ps, hint);
      if r.Ok? {
        tables, texts := txn.Tables(), WithSpan(texts, traj, start, TextsOf(ms));
      }
    }

    /** Read, parse and convert every frame of a trajectory; the puts to delete come from the stored text. */
    method Convert(traj: u64, keys: seq<FrameKey>, Rescale: Text -> Result<Mem>, ghost spans: seq<Text>)
      returns (r: Result<(seq<Prepared>, seq<Mem>)>)
      requires Valid() && |keys| == |spans| <= U32_MAX
      requires forall i :: 0 <= i < |keys| ==>
        keys[i] == FrameKey(traj, i) && keys[i] in texts && texts[keys[i]] == spans[i]
      ensures r.Ok? ==> PreparedAs(w, traj, 0, spans, compress, r.value.0) && Rescaled(Rescale, spans) == Ok(r.value.1)
      ensures r.Err? ==> Rescaled(Rescale, spans).Err?
    {
      hide Build, FC.Lawful, Read, Coherent, PreparedAt;
      var olds: seq<Prepared>, ms: seq<Mem> := [], [];
      for i := 0 to |keys|
        invariant |olds| == i
        invariant forall j :: 0 <= j < i ==> PreparedAt(w, traj, j, spans[j], compress, olds[j])
        invariant Rescaled(Rescale, spans[..i]) == Ok(ms)
      {
        assert spans[..i + 1][..i] == spans[..i];
        ReadsBack(w, tables, texts, keys[i]);
        var blob := Read(w.zstd, tables.frames, keys[i]);
        if blob.Err? {
          return Err(CorruptFrame);
        }
        var proj := w.Parse(blob.value);
        if proj.None? {
          return Err(ParseError);
        }
        var next := Rescale(blob.value);
        if next.Err? {
          RescaledStops(Rescale, spans, i + 1);
          return Err(next.error);
        }
        PreparedIs(w, traj, i, spans[i], compress);
        olds := olds + [Build(w, keys[i], proj.value, blob.value, compress)];
        ms := ms + [next.value];
      }
      assert spans[..|spans|] == spans;
      r := Ok((olds, ms));
    }

    /**
     * `set_trajectory_units`: every frame of the trajectory is replaced by its conversion, or nothing changes.
     * The conversion is any function of a frame's text whose output parses back to what it wrote.
     */
    method SetTrajectoryUnits(traj: u64, Rescale: Text -> Result<Mem>) returns (r: Result<u32>)
      requires Valid()
      requires forall t: Text :: Rescale(t).Ok? ==> w.Parse(Rescale(t).value.text) == Some(Rescale(t).value.proj)
      modifies this`tables, this`texts
      ensures Valid()
      ensures r.Ok? ==> traj in tables.meta && r.value == Live(tables, traj) > 0 && tables.meta == old(tables.meta)
      ensures r.Ok? ==>
        var ms := Rescaled(Rescale, SpansOf(old(texts), traj, r.value));
        ms.Ok? && texts == WithSpan(old(texts), traj, 0, TextsOf(ms.value))
      ensures r.Err? ==> tables == old(tables) && texts == old(texts)
      ensures r.Ok? <==>
        var ms := Rescaled(Rescale, SpansOf(old(texts), traj, Live(old(tables), traj)));
        && Live(old(tables), traj) > 0 && ms.Ok?
        && (compress ==> FC.Groupable(FramesFrom(0, TextsOf(ms.value))))
    {
      hide Coherent, Grouped, FC.Lawful, WithSpan, Faithful, PreparedAs, Build, Holds, CarryAll, StoredAs, Rescaled, Lists,
        Rewrite, RepointAll, DeleteAll, StaleAll, PutAll, Run, FC.Groupable;
      var keys := Listing(KeysOfTraj(tables, traj));
      TrajRun(w, tables, texts, traj, keys);
      if keys == [] {
        return Err(Message("no frames for traj"));
      }
      ghost var spans := SpansOf(texts, traj, |keys|);
      assert spans == ValuesAt(texts, keys);
      var converted := Convert(traj, keys, Rescale, spans);
      if converted.Err? {
        return Err(converted.error);
      }
      var olds, ms := converted.value.0, converted.value.1;
      var prepared := PrepareFrames(w, traj, 0, ms, compress);
      RescaledPrepares(w, traj, spans, Rescale, ms, compress);
      var ps :- Grouped(w, prepared, compress);
      UnitsCoherent(w, tables, texts, traj, spans, Rescale, olds, ms, compress, ps);
      var txn := new Txn(tables);
      CommitUnits(txn, olds, ps);
      tables, texts := txn.Tables(), WithSpan(texts, traj, 0, TextsOf(ms));
      r := Ok(|keys|);
    }

    /** Every frame can be read; the other tables may hold anything. */
    ghost predicate Legible()
      reads this
    {
      FC.Lawful(w.zstd) && Readable(w.zstd, tables.frames, texts)
    }

    /** `reindex`: needs the primary table only, and succeeds exactly when every text parses. */
    method Reindex() returns (r: Result<nat>)
      requires Legible()
      modifies this`tables
      ensures Legible()
      ensures r.Ok? <==> Parsed(w, texts)
      ensures r.Ok? ==> Sound(w, tables, texts) && FirstPosted(tables.frameByHash, tables.hashByFrame)
      ensures r.Ok? ==> tables.frames == old(tables.frames) && r.value == |texts|
      ensures tables.meta == old(tables.meta) && tables.soa == old(tables.soa)
      ensures r.Ok? && Numbered(tables.meta, texts) && CookedFresh(w, tables.soa, texts) ==> Valid()
      ensures r.Err? ==> tables == old(tables)
    {
      hide Readable, FC.Lawful, Sound, FirstPosted, Lists, Read, Parsed, Rows, Coherent, Numbered, CookedFresh;
      var keys := Listing(tables.frames.Keys);
      ReindexRestores(w, tables, texts, keys);
      var txn := new Txn(tables);
      var ok := IndexLoop(w, txn, keys);
      if !ok {
        return Err(ParseError);
      }
      ListingCounts(w.zstd, tables.frames, texts, keys);
      tables := txn.Tables();
      r := Ok(|keys|);
    }

    /** `repack_traj`: rewrite one trajectory to the current codec, writing only values that differ. */
    method RepackTraj(traj: u64) returns (r: Result<nat>)
      requires Legible()
      modifies this`tables
      ensures Legible() && tables == old(tables).(frames := tables.frames) && tables.frames.Keys == old(tables.frames.Keys)
      ensures r.Ok? <==> TrajFits(texts, traj)
      ensures r.Ok? ==> Settled(w.zstd, tables.frames, texts, traj) && Compact(w.zstd, tables.frames, texts, traj)
      ensures r.Ok? ==> r.value == |Rewritten(old(tables.frames), tables.frames)|
      ensures forall fk <- Rewritten(old(tables.frames), tables.frames) :: fk.traj == traj
      ensures forall t: u64 :: Settled(w.zstd, old(tables.frames), texts, t) ==> Settled(w.zstd, tables.frames, texts, t)
      ensures Settled(w.zstd, old(tables.frames), texts, traj) ==> r == Ok(0) && tables == old(tables)
      ensures r.Err? ==> tables == old(tables)
    {
      hide Readable, FC.Lawful, Read, Settled, FC.PackAligned, FramesOf, PutValues, ListsTraj, Changed, Lists, TrajFits, Rewritten,
        Compact;
      RewrittenNone(tables.frames);
      var keys := Listing(KeysOfTraj(tables, traj));
      ListedTraj(w.zstd, tables, texts, traj, keys);
      if keys == [] {
        NoneSettled(w.zstd, tables.frames, texts, traj);
        NoneFits(texts, traj);
        SettledCompact(w.zstd, tables.frames, texts, traj);
        return Ok(0);
      }
      var view: seq<FC.Frame> := [];
      for i := 0 to |keys|
        invariant tables == old(tables)
        invariant |view| == i && forall j :: 0 <= j < i ==> view[j] == FramesOf(texts, keys)[j]
      {
        LegibleAt(w.zstd, tables.frames, texts, keys, i);
        var blob := Read(w.zstd, tables.frames, keys[i]);
        if blob.Err? {
          return Err(CorruptFrame);
        }
        view := view + [FC.Frame(keys[i].idx, blob.value)];
      }
      assert view == FramesOf(texts, keys);
      TrajPacks(w.zstd, texts, traj, keys);
      SettledPacks(w.zstd, tables.frames, texts, traj, keys);
      var packed :- FC.PackAlignedLoop(w.zstd, view);
      RepackReads(w.zstd, tables.frames, texts, traj, keys);
      RepackSettles(w.zstd, tables.frames, texts, traj, keys);
      var n, frames := WriteChanged(tables.frames, keys, packed);
      ChangedCounts(tables.frames, keys, packed, traj);
      tables := tables.(frames := frames);
      SettledCompact(w.zstd, tables.frames, texts, traj);
      r := Ok(n);
    }

    /** Repack the trajectories of `keys` in turn, each in its own transaction, until one fails. */
    method RepackEach(keys: seq<FrameKey>) returns (r: Result<nat>)
      requires Legible() && Lists(keys, tables.frames.Keys)
      modifies this`tables
      ensures Legible() && tables == old(tables).(frames := tables.frames) && tables.frames.Keys == old(tables.frames.Keys)
      ensures r.Ok? <==> AllFit(texts)
      ensures r.Ok? ==> forall t: u64 :: Settled(w.zstd, tables.frames, texts, t)
      ensures r.Ok? ==> r.value == |Rewritten(old(tables.frames), tables.frames)|
      ensures (forall t: u64 :: Settled(w.zstd, old(tables.frames), texts, t)) ==> r == Ok(0) && tables == old(tables)
    {
      hide Readable, FC.Lawful, Read, Settled, Compact, TrajFits, AllFit, Rewritten, RepackedTo;
      RewrittenNone(tables.frames);
      NoneRepacked(w.zstd, tables.frames, texts, keys);
      ghost var s0 := tables;
      var n := 0;
      for i := 0 to |keys|
        invariant Legible() && tables == s0.(frames := tables.frames) && tables.frames.Keys == s0.frames.Keys
        invariant RepackedTo(w.zstd, s0.frames, tables.frames, texts, keys, i)
        invariant n == |Rewritten(s0.frames, tables.frames)|
        invariant (forall t: u64 :: Settled(w.zstd, s0.frames, texts, t)) ==> n == 0 && tables == s0
      {
        if i == 0 || keys[i].traj != keys[i - 1].traj {
          ghost var before := tables.frames;
          var done := RepackTraj(keys[i].traj);
          if done.Err? {
            SomeUnfit(texts, keys, i);
            return Err(done.error);
          }
          n := n + done.value;
          NextRepacked(w.zstd, s0.frames, before, tables.frames, texts, keys, i);
        } else {
          SameRepacked(w.zstd, s0.frames, tables.frames, texts, keys, i);
        }
      }
      AllRepacked(w.zstd, s0.frames, tables.frames, texts, keys);
      r := Ok(n);
    }

    /**
     * `migrate_frames`: every trajectory in turn, each in its own transaction. It succeeds exactly when every frame
     * fits its group. Texts and the other tables stay, whether or not it runs to the end; the result counts the
     * values it rewrote; a second run writes nothing.
     */
    method MigrateFrames() returns (r: Result<nat>)
      requires Legible()
      modifies this`tables
      ensures Legible() && tables == old(tables).(frames := tables.frames) && tables.frames.Keys == old(tables.frames.Keys)
      ensures old(Valid()) ==> Valid()
      ensures r.Ok? <==> AllFit(texts)
      ensures r.Ok? ==> forall t: u64 :: Settled(w.zstd, tables.frames, texts, t)
      ensures r.Ok? ==> forall t: u64 :: Compact(w.zstd, tables.frames, texts, t)
      ensures r.Ok? ==> r.value == |Rewritten(old(tables.frames), tables.frames)|
      ensures (forall t: u64 :: Settled(w.zstd, old(tables.frames), texts, t)) ==> r == Ok(0) && tables == old(tables)
    {
      hide Readable, FC.Lawful, Read, Settled, Lists, Coherent, AllFit, Rewritten, Compact;
      ghost var was, s0 := Valid(), tables;
      var keys := Listing(tables.frames.Keys);
      r := RepackEach(keys);
      if r.Ok? {
        forall t: u64 ensures Compact(w.zstd, tables.frames, texts, t) {
          SettledCompact(w.zstd, tables.frames, texts, t);
        }
      }
      if was {
        SameRowsCoherent(w, s0, tables, texts);
      }
    }

    /** `cook_frame`: the packed arrays of the text that is stored now. */
    method CookFrame(fk: FrameKey) returns (r: Result<nat>)
      requires Valid()
      modifies this`tables
      ensures Valid()
      ensures r.Ok? <==> fk in texts && w.Cook(texts[fk]).Some?
      ensures tables == if r.Ok? then old(tables).(soa := old(tables.soa)[fk := w.Cook(texts[fk]).value]) else old(tables)
    {
      hide Sound, Readable, Numbered, FC.Lawful, Read;
      if fk in texts {
        ReadsBack(w, tables, texts, fk);
      }
      NoSuchFrame(w, tables, texts, fk);
      var blob :- Read(w.zstd, tables.frames, fk);
      var bytes := w.Cook(blob);
      if bytes.None? {
        return Err(ParseError);
      }
      CookedCoherent(w, tables, texts, tables.soa[fk := bytes.value]);
      tables := tables.(soa := tables.soa[fk := bytes.value]);
      r := Ok(|bytes.value|);
    }

    method DeleteCooked(fk: FrameKey)
      requires Valid()
      modifies this`tables
      ensures Valid() && tables == old(tables).(soa := old(tables.soa) - {fk})
    {
      hide Sound, Readable, Numbered, FC.Lawful;
      CookedCoherent(w, tables, texts, tables.soa - {fk});
      tables := tables.(soa := tables.soa - {fk});
    }
  }

  lemma CookedCoherent(w: World, s: Store, texts: Texts, soa: map<FrameKey, Bytes>)
    requires Coherent(w, s, texts) && CookedFresh(w, soa, texts)
    ensures Coherent(w, s.(soa := soa), texts)
  {
    hide Readable, Parsed, Hashed, Posted, Indexed, Numbered, CookedFresh;
  }

  lemma NoSuchFrame(w: World, s: Store, texts: Texts, fk: FrameKey)
    requires Coherent(w, s, texts)
    ensures Read(w.zstd, s.frames, fk).Ok? ==> fk in texts
  {
    hide Sound, FC.DecodeFrame;
  }

  lemma SameRowsCoherent(w: World, a: Store, b: Store, texts: Texts)
    requires Coherent(w, a, texts) && Readable(w.zstd, b.frames, texts) && b == a.(frames := b.frames)
    ensures Coherent(w, b, texts)
  {
    hide Readable, Parsed, Hashed, Posted, Indexed, Numbered, CookedFresh;
  }

  lemma AllSettled(z: FC.Zstd, before: map<FrameKey, Bytes>, frames: map<FrameKey, Bytes>, texts: Texts, keys: seq<FrameKey>)
    requires Readable(z, before, texts) && Lists(keys, before.Keys)
    requires forall j :: 0 <= j < |keys| ==> Settled(z, frames, texts, keys[j].traj)
    ensures forall t: u64 :: Settled(z, frames, texts, t)
  {
    hide Read, Settled;
    forall t: u64 ensures Settled(z, frames, texts, t) {
      if fk :| fk in texts && fk.traj == t {
        assert fk in keys;
      } else {
        NoneSettled(z, frames, texts, t);
      }
    }
  }

  /** The loop of `reindex` over the primary keys: clear every secondary table, then put each frame's rows. */
  method IndexLoop(w: World, txn: Txn, keys: seq<FrameKey>) returns (ok: bool)
    modifies txn
    ensures txn.frames == old(txn.frames) && txn.meta == old(txn.meta) && txn.soa == old(txn.soa)
    ensures ok <==> IndexKeys(w, txn.frames, keys).Ok?
    ensures ok ==> IndexKeys(w, txn.frames, keys) == Ok(Tables(txn.hashByFrame, txn.frameByHash, txn.idx))
  {
    hide Read, Rows, IndexKeys;
    txn.idx, txn.frameByHash, txn.hashByFrame := {}, map[], map[];
    IndexNone(w, txn.frames, keys);
    for i := 0 to |keys|
      invariant txn.frames == old(txn.frames) && txn.meta == old(txn.meta) && txn.soa == old(txn.soa)
      invariant IndexKeys(w, txn.frames, keys[..i]) == Ok(Tables(txn.hashByFrame, txn.frameByHash, txn.idx))
    {
      IndexNext(w, txn.frames, keys, i);
      var blob := Read(w.zstd, txn.frames, keys[i]);
      if blob.Err? {
        return false;
      }
      var proj := w.Parse(blob.value);
      if proj.None? {
        return false;
      }
      var digest := w.Digest(blob.value);
      txn.hashByFrame := txn.hashByFrame[keys[i] := digest];
      if digest !in txn.frameByHash {
        txn.frameByHash := txn.frameByHash[digest := keys[i]];
      }
      txn.IndexFrame(w, keys[i], blob.value, proj.value);
    }
    assert keys[..|keys|] == keys;
    ok := true;
  }

  lemma IndexNone(w: World, frames: map<FrameKey, Bytes>, keys: seq<FrameKey>)
    ensures IndexKeys(w, frames, keys[..0]) == Ok(Tables(map[], map[], {}))
  {}

  /** Write the values that differ from the stored ones, and count them. */
  method WriteChanged(before: map<FrameKey, Bytes>, keys: seq<FrameKey>, packed: seq<Bytes>)
    returns (n: nat, frames: map<FrameKey, Bytes>)
    requires |packed| == |keys| && Sorted(keys) && forall i :: 0 <= i < |keys| ==> keys[i] in before
    ensures n == Changed(before, keys, packed) && frames == PutValues(before, keys, packed)
  {
    n, frames := 0, before;
    for i := 0 to |keys|
      invariant n == Changed(before, keys[..i], packed[..i])
      invariant frames == PutValues(before, keys[..i], packed[..i])
    {
      assert keys[..i + 1][..i] == keys[..i] && packed[..i + 1][..i] == packed[..i];
      PutValuesAt(before, keys[..i], packed[..i]);
      assert keys[i] !in keys[..i];
      if packed[i] != before[keys[i]] {
        frames := frames[keys[i] := packed[i]];
        n := n + 1;
      } else {
        assert frames[keys[i] := packed[i]] == frames;
      }
    }
    assert keys[..|keys|] == keys && packed[..|packed|] == packed;
  }

  /** The frames whose stored value differs. */
  function Rewritten(before: map<FrameKey, Bytes>, after: map<FrameKey, Bytes>): (r: set<FrameKey>)
    requires after.Keys == before.Keys
    ensures forall fk :: fk in r <==> fk in before && after[fk] != before[fk]
  {
    set fk | fk in before && after[fk] != before[fk]
  }

  lemma RewrittenNone(frames: map<FrameKey, Bytes>)
    ensures Rewritten(frames, frames) == {}
  {}

  /** The count that a repack returns is the number of frames it rewrites. */
  lemma {:induction false} ChangedIs(frames: map<FrameKey, Bytes>, keys: seq<FrameKey>, packed: seq<Bytes>)
    requires |packed| == |keys| && Sorted(keys) && forall i :: 0 <= i < |keys| ==> keys[i] in frames
    ensures PutValues(frames, keys, packed).Keys == frames.Keys
    ensures Changed(frames, keys, packed) == |Rewritten(frames, PutValues(frames, keys, packed))|
    ensures forall fk <- Rewritten(frames, PutValues(frames, keys, packed)) :: fk in keys
  {
    PutValuesAt(frames, keys, packed);
    if keys == [] {
      assert Rewritten(frames, PutValues(frames, keys, packed)) == {};
    } else {
      var n := |keys| - 1;
      SortedTake(keys, n);
      hide Sorted, PutValues;
      ChangedIs(frames, keys[..n], packed[..n]);
      PutValuesAt(frames, keys[..n], packed[..n]);
      var before := Rewritten(frames, PutValues(frames, keys[..n], packed[..n]));
      var now := Rewritten(frames, PutValues(frames, keys, packed));
      assert keys[n] !in keys[..n] && keys[n] !in before;
      assert PutValues(frames, keys, packed) == PutValues(frames, keys[..n], packed[..n])[keys[n] := packed[n]] by {
        PutValuesLast(frames, keys, packed);
      }
      if packed[n] != frames[keys[n]] {
        assert now == before + {keys[n]};
      } else {
        assert now == before;
      }
    }
  }

  lemma PutValuesLast(frames: map<FrameKey, Bytes>, keys: seq<FrameKey>, vs: seq<Bytes>)
    requires keys != [] && |vs| == |keys|
    ensures PutValues(frames, keys, vs) == PutValues(frames, keys[..|keys| - 1], vs[..|keys| - 1])[keys[|keys| - 1] := vs[|keys| - 1]]
  {}

  lemma ChangedCounts(frames: map<FrameKey, Bytes>, keys: seq<FrameKey>, packed: seq<Bytes>, traj: u64)
    requires |packed| == |keys| && Sorted(keys) && forall i :: 0 <= i < |keys| ==> keys[i] in frames && keys[i].traj == traj
    ensures PutValues(frames, keys, packed).Keys == frames.Keys
    ensures Changed(frames, keys, packed) == |Rewritten(frames, PutValues(frames, keys, packed))|
    ensures forall fk <- Rewritten(frames, PutValues(frames, keys, packed)) :: fk.traj == traj
  {
    hide Sorted, PutValues, Changed;
    ChangedIs(frames, keys, packed);
  }

  /** Rewriting frames of a trajectory that was not touched before adds to the count. */
  lemma RewrittenMore(a: map<FrameKey, Bytes>, b: map<FrameKey, Bytes>, c: map<FrameKey, Bytes>, traj: u64)
    requires b.Keys == a.Keys && c.Keys == a.Keys
    requires forall fk <- Rewritten(a, b) :: fk.traj != traj
    requires forall fk <- Rewritten(b, c) :: fk.traj == traj
    ensures Rewritten(a, c) == Rewritten(a, b) + Rewritten(b, c)
    ensures |Rewritten(a, c)| == |Rewritten(a, b)| + |Rewritten(b, c)|
  {
    hide Rewritten;
    assert Rewritten(a, b) !! Rewritten(b, c);
    assert Rewritten(a, c) == Rewritten(a, b) + Rewritten(b, c);
  }

  /** The keys of one trajectory stand together, so a trajectory that starts at `i` was not seen before. */
  lemma RepackedBefore(a: map<FrameKey, Bytes>, b: map<FrameKey, Bytes>, keys: seq<FrameKey>, i: nat)
    requires b.Keys == a.Keys && Sorted(keys) && i < |keys| && (i == 0 || keys[i].traj != keys[i - 1].traj)
    requires forall fk <- Rewritten(a, b) :: exists j :: 0 <= j < i && keys[j].traj == fk.traj
    ensures forall fk <- Rewritten(a, b) :: fk.traj != keys[i].traj
  {
    hide Rewritten;
    forall j | 0 <= j < i ensures keys[j].traj != keys[i].traj {
      assert KeyLess(keys[i - 1], keys[i]);
      assert j < i - 1 ==> KeyLess(keys[j], keys[i - 1]);
    }
  }

  /** The trajectories of the first `i` keys are settled, and nothing else was rewritten. */
  ghost predicate RepackedTo(z: FC.Zstd, before: map<FrameKey, Bytes>, now: map<FrameKey, Bytes>, texts: Texts, keys: seq<FrameKey>, i: nat)
    requires now.Keys == before.Keys && i <= |keys|
  {
    SettledTo(z, now, texts, keys, i) && OnlyTo(before, now, keys, i)
  }

  ghost predicate SettledTo(z: FC.Zstd, now: map<FrameKey, Bytes>, texts: Texts, keys: seq<FrameKey>, i: nat)
    requires i <= |keys|
  {
    forall j :: 0 <= j < i ==> Settled(z, now, texts, keys[j].traj) && TrajFits(texts, keys[j].traj)
  }

  predicate OnlyTo(before: map<FrameKey, Bytes>, now: map<FrameKey, Bytes>, keys: seq<FrameKey>, i: nat)
    requires now.Keys == before.Keys && i <= |keys|
  {
    forall fk <- Rewritten(before, now) :: exists j :: 0 <= j < i && keys[j].traj == fk.traj
  }

  lemma NextRepacked(z: FC.Zstd, before: map<FrameKey, Bytes>, mid: map<FrameKey, Bytes>, now: map<FrameKey, Bytes>, texts: Texts,
      keys: seq<FrameKey>, i: nat)
    requires mid.Keys == before.Keys && now.Keys == before.Keys && Sorted(keys)
    requires i < |keys| && (i == 0 || keys[i].traj != keys[i - 1].traj)
    requires RepackedTo(z, before, mid, texts, keys, i)
    requires forall fk <- Rewritten(mid, now) :: fk.traj == keys[i].traj
    requires forall t: u64 :: Settled(z, mid, texts, t) ==> Settled(z, now, texts, t)
    requires Settled(z, now, texts, keys[i].traj) && TrajFits(texts, keys[i].traj)
    ensures RepackedTo(z, before, now, texts, keys, i + 1)
    ensures |Rewritten(before, now)| == |Rewritten(before, mid)| + |Rewritten(mid, now)|
  {
    hide Rewritten, Settled, TrajFits, Sorted, SettledTo, OnlyTo;
    NextSettled(z, mid, now, texts, keys, i);
    NextOnly(before, mid, now, keys, i);
  }

  lemma NextSettled(z: FC.Zstd, mid: map<FrameKey, Bytes>, now: map<FrameKey, Bytes>, texts: Texts, keys: seq<FrameKey>, i: nat)
    requires i < |keys| && SettledTo(z, mid, texts, keys, i)
    requires forall t: u64 :: Settled(z, mid, texts, t) ==> Settled(z, now, texts, t)
    requires Settled(z, now, texts, keys[i].traj) && TrajFits(texts, keys[i].traj)
    ensures SettledTo(z, now, texts, keys, i + 1)
  {
    hide Settled, TrajFits;
  }

  lemma NextOnly(before: map<FrameKey, Bytes>, mid: map<FrameKey, Bytes>, now: map<FrameKey, Bytes>, keys: seq<FrameKey>, i: nat)
    requires mid.Keys == before.Keys && now.Keys == before.Keys && Sorted(keys)
    requires i < |keys| && (i == 0 || keys[i].traj != keys[i - 1].traj) && OnlyTo(before, mid, keys, i)
    requires forall fk <- Rewritten(mid, now) :: fk.traj == keys[i].traj
    ensures OnlyTo(before, now, keys, i + 1)
    ensures |Rewritten(before, now)| == |Rewritten(before, mid)| + |Rewritten(mid, now)|
  {
    hide Rewritten, Sorted;
    RepackedBefore(before, mid, keys, i);
    RewrittenMore(before, mid, now, keys[i].traj);
    forall fk | fk in Rewritten(before, now) ensures exists j :: 0 <= j < i + 1 && keys[j].traj == fk.traj {
      if fk in Rewritten(before, mid) {
        var j :| 0 <= j < i && keys[j].traj == fk.traj;
      }
    }
  }

  lemma SameRepacked(z: FC.Zstd, before: map<FrameKey, Bytes>, now: map<FrameKey, Bytes>, texts: Texts, keys: seq<FrameKey>, i: nat)
    requires now.Keys == before.Keys && 0 < i < |keys| && keys[i].traj == keys[i - 1].traj
    requires RepackedTo(z, before, now, texts, keys, i)
    ensures RepackedTo(z, before, now, texts, keys, i + 1)
  {
    hide Rewritten, Settled, TrajFits;
  }

  lemma NoneRepacked(z: FC.Zstd, frames: map<FrameKey, Bytes>, texts: Texts, keys: seq<FrameKey>)
    ensures RepackedTo(z, frames, frames, texts, keys, 0)
  {
    hide Settled, TrajFits;
  }

  lemma AllRepacked(z: FC.Zstd, before: map<FrameKey, Bytes>, now: map<FrameKey, Bytes>, texts: Texts, keys: seq<FrameKey>)
    requires now.Keys == before.Keys && Readable(z, before, texts) && Lists(keys, before.Keys)
    requires RepackedTo(z, before, now, texts, keys, |keys|)
    ensures AllFit(texts) && forall t: u64 :: Settled(z, now, texts, t)
  {
    hide Rewritten, Settled, TrajFits, Readable, AllFit, Lists;
    AllSettled(z, before, now, texts, keys);
    AllFitting(z, before, texts, keys);
  }

  lemma SomeUnfit(texts: Texts, keys: seq<FrameKey>, i: nat)
    requires i < |keys| && !TrajFits(texts, keys[i].traj)
    ensures !AllFit(texts)
  {
    hide Fits;
  }

  lemma AllFitting(z: FC.Zstd, before: map<FrameKey, Bytes>, texts: Texts, keys: seq<FrameKey>)
    requires Readable(z, before, texts) && Lists(keys, before.Keys)
    requires forall j :: 0 <= j < |keys| ==> TrajFits(texts, keys[j].traj)
    ensures AllFit(texts)
  {
    hide Read, Fits, Sorted;
    forall fk | fk in texts ensures Fits(texts, fk) {
      assert fk in keys;
    }
  }

  lemma NoneFits(texts: Texts, traj: u64)
    requires ListsTraj([], texts, traj)
    ensures TrajFits(texts, traj)
  {}

  lemma SettledPacks(z: FC.Zstd, frames: map<FrameKey, Bytes>, texts: Texts, traj: u64, keys: seq<FrameKey>)
    requires ListsTraj(keys, texts, traj)
    ensures Settled(z, frames, texts, traj) ==> FC.PackAligned(z, FramesOf(texts, keys)).Ok?
  {
    hide FC.PackAligned, Sorted;
    if Settled(z, frames, texts, traj) {
      assert Holding(z, frames, texts, keys);
    }
  }

  /** The frames of a trajectory hold what packing its texts gives. */
  ghost predicate Settled(z: FC.Zstd, frames: map<FrameKey, Bytes>, texts: Texts, traj: u64) {
    forall keys :: ListsTraj(keys, texts, traj) ==> Holding(z, frames, texts, keys)
  }

  predicate Holding(z: FC.Zstd, frames: map<FrameKey, Bytes>, texts: Texts, keys: seq<FrameKey>) {
    && (forall i :: 0 <= i < |keys| ==> keys[i] in texts && keys[i] in frames)
    && Packed(z, frames, texts, keys)
  }

  /** Every maximal aligned run of the trajectory is stored in its smallest form. */
  ghost predicate Compact(z: FC.Zstd, frames: map<FrameKey, Bytes>, texts: Texts, traj: u64) {
    forall keys, i: nat, j: nat :: ListsTraj(keys, texts, traj) && MaximalRun(FramesOf(texts, keys), i, j) ==>
      RunCompact(z, frames, texts, keys, i, j)
  }

  predicate RunCompact(z: FC.Zstd, frames: map<FrameKey, Bytes>, texts: Texts, keys: seq<FrameKey>, i: nat, j: nat)
    requires (forall k :: 0 <= k < |keys| ==> keys[k] in texts) && i <= j <= |keys|
  {
    && (forall k :: 0 <= k < |keys| ==> keys[k] in frames)
    && (Held(z, FramesOf(texts, keys)) ==> SmallestRun(z, FramesOf(texts, keys)[i..j], ValuesAt(frames, keys[i..j])))
  }

  lemma SettledCompact(z: FC.Zstd, frames: map<FrameKey, Bytes>, texts: Texts, traj: u64)
    requires FC.Lawful(z) && Settled(z, frames, texts, traj)
    ensures Compact(z, frames, texts, traj)
  {
    hide FC.Lawful, FC.PackAligned, SmallestRun, MaximalRun, Held, Sorted;
    forall keys, i: nat, j: nat | ListsTraj(keys, texts, traj) && MaximalRun(FramesOf(texts, keys), i, j)
      ensures i <= j <= |keys| && RunCompact(z, frames, texts, keys, i, j)
    {
      assert Holding(z, frames, texts, keys);
      RunNonEmpty(FramesOf(texts, keys), i, j);
      var packed := FC.PackAligned(z, FramesOf(texts, keys)).value;
      assert ValuesAt(frames, keys[i..j]) == packed[i..j];
      if Held(z, FramesOf(texts, keys)) {
        PackedSizes(z, FramesOf(texts, keys), i, j);
      }
    }
  }

  lemma ListedTraj(z: FC.Zstd, s: Store, texts: Texts, traj: u64, keys: seq<FrameKey>)
    requires Readable(z, s.frames, texts) && Lists(keys, KeysOfTraj(s, traj))
    ensures ListsTraj(keys, texts, traj)
    ensures Sorted(keys) && forall i :: 0 <= i < |keys| ==> keys[i] in texts && keys[i] in s.frames
  {
    hide Read;
  }

  lemma ListsTrajOnce(a: seq<FrameKey>, b: seq<FrameKey>, texts: Texts, traj: u64)
    requires ListsTraj(a, texts, traj) && ListsTraj(b, texts, traj)
    ensures a == b
  {
    ListsOnce(a, b, set fk | fk in texts && fk.traj == traj);
  }

  lemma NoneSettled(z: FC.Zstd, frames: map<FrameKey, Bytes>, texts: Texts, traj: u64)
    requires ListsTraj([], texts, traj)
    ensures Settled(z, frames, texts, traj)
  {
    forall keys | ListsTraj(keys, texts, traj) ensures Holding(z, frames, texts, keys) {
      ListsTrajOnce(keys, [], texts, traj);
      assert FramesOf(texts, keys) == [];
    }
  }

  lemma LegibleAt(z: FC.Zstd, frames: map<FrameKey, Bytes>, texts: Texts, keys: seq<FrameKey>, i: nat)
    requires Readable(z, frames, texts) && i < |keys| && forall j :: 0 <= j < |keys| ==> keys[j] in texts
    ensures Read(z, frames, keys[i]) == Ok(texts[keys[i]]) && FramesOf(texts, keys)[i] == FC.Frame(keys[i].idx, texts[keys[i]])
  {
    hide Read;
  }

  /** A repack settles its trajectory, disturbs no other, and writes nothing where it is settled already. */
  lemma RepackSettles(z: FC.Zstd, frames: map<FrameKey, Bytes>, texts: Texts, traj: u64, keys: seq<FrameKey>)
    requires Readable(z, frames, texts) && ListsTraj(keys, texts, traj)
    requires FC.PackAligned(z, FramesOf(texts, keys)).Ok?
    ensures forall i :: 0 <= i < |keys| ==> keys[i] in texts && keys[i] in frames
    ensures var packed := FC.PackAligned(z, FramesOf(texts, keys)).value;
      var frames1 := PutValues(frames, keys, packed);
      && Settled(z, frames1, texts, traj)
      && (forall t: u64 :: Settled(z, frames, texts, t) ==> Settled(z, frames1, texts, t))
      && (Settled(z, frames, texts, traj) ==> Changed(frames, keys, packed) == 0 && frames1 == frames)
  {
    hide Read, FC.PackAligned, PutValues, Changed;
    var packed := FC.PackAligned(z, FramesOf(texts, keys)).value;
    var frames1 := PutValues(frames, keys, packed);
    RepackTwice(z, frames, texts, keys);
    PutValuesAt(frames, keys, packed);
    forall ks | ListsTraj(ks, texts, traj) ensures Holding(z, frames1, texts, ks) {
      ListsTrajOnce(ks, keys, texts, traj);
    }
    forall t: u64 | Settled(z, frames, texts, t) ensures Settled(z, frames1, texts, t) {
      if t != traj {
        forall ks | ListsTraj(ks, texts, t) ensures Holding(z, frames1, texts, ks) {
          assert Holding(z, frames, texts, ks);
          forall i | 0 <= i < |ks| ensures frames1[ks[i]] == frames[ks[i]] {
            assert ks[i] !in keys;
          }
        }
      }
    }
    if Settled(z, frames, texts, traj) {
      SettledStays(z, frames, texts, traj, keys);
    }
  }

  lemma SettledStays(z: FC.Zstd, frames: map<FrameKey, Bytes>, texts: Texts, traj: u64, keys: seq<FrameKey>)
    requires frames.Keys == texts.Keys && ListsTraj(keys, texts, traj) && Settled(z, frames, texts, traj)
    requires FC.PackAligned(z, FramesOf(texts, keys)).Ok?
    ensures var packed := FC.PackAligned(z, FramesOf(texts, keys)).value;
      Changed(frames, keys, packed) == 0 && PutValues(frames, keys, packed) == frames
  {
    hide FC.PackAligned, PutValues, Changed;
    var packed := FC.PackAligned(z, FramesOf(texts, keys)).value;
    assert Holding(z, frames, texts, keys);
    PutValuesAt(frames, keys, packed);
    NothingChanged(frames, keys, packed);
    assert PutValues(frames, keys, packed) == frames;
  }

  lemma IndexNext(w: World, frames: map<FrameKey, Bytes>, keys: seq<FrameKey>, i: nat)
    requires i < |keys| && IndexKeys(w, frames, keys[..i]).Ok?
    ensures var t := IndexKeys(w, frames, keys[..i]).value;
      var text := Read(w.zstd, frames, keys[i]);
      if text.Ok? && w.Parse(text.value).Some? then IndexKeys(w, frames, keys[..i + 1]) == Ok(IndexOne(w, t, keys[i], text.value))
      else IndexKeys(w, frames, keys).Err?
  {
    hide Read, IndexOne;
    assert keys[..i + 1][..i] == keys[..i];
    if IndexKeys(w, frames, keys[..i + 1]).Err? {
      IndexStops(w, frames, keys, i + 1);
    }
  }

  lemma {:induction false} IndexStops(w: World, frames: map<FrameKey, Bytes>, keys: seq<FrameKey>, i: nat)
    requires i <= |keys| && IndexKeys(w, frames, keys[..i]).Err?
    ensures IndexKeys(w, frames, keys).Err?
    decreases |keys| - i
  {
    hide Read, IndexOne;
    if i == |keys| {
      assert keys[..i] == keys;
    } else {
      assert keys[..i + 1][..i] == keys[..i];
      IndexStops(w, frames, keys, i + 1);
    }
  }

  lemma ListingCounts(z: FC.Zstd, frames: map<FrameKey, Bytes>, texts: Texts, keys: seq<FrameKey>)
    requires Readable(z, frames, texts) && Lists(keys, frames.Keys)
    ensures |keys| == |texts|
  {
    hide Read;
    ListedSize(keys, texts.Keys);
    assert |texts| == |texts.Keys|;
  }

  lemma ReadsBack(w: World, s: Store, texts: Texts, fk: FrameKey)
    requires Coherent(w, s, texts) && fk in texts
    ensures Read(w.zstd, s.frames, fk) == Ok(texts[fk]) && w.Parse(texts[fk]).Some?
  {
    hide Read, Indexed, Hashed, Posted, CookedFresh, Numbered;
  }

  lemma PreparedIs(w: World, traj: u64, idx: u32, span: Text, compress: bool)
    requires w.Parse(span).Some?
    ensures PreparedAt(w, traj, idx, span, compress, Build(w, FrameKey(traj, idx), w.Parse(span).value, span, compress))
  {
    hide Build;
  }

  ghost function SpansOf(texts: Texts, traj: u64, n: u32): (spans: seq<Text>)
    ensures |spans| == n
    ensures forall i :: 0 <= i < n && FrameKey(traj, i) in texts ==> spans[i] == texts[FrameKey(traj, i)]
  {
    seq(n, i requires 0 <= i < n => if FrameKey(traj, i) in texts then texts[FrameKey(traj, i)] else [])
  }

  lemma RescaledPrepares(w: World, traj: u64, spans: seq<Text>, Rescale: Text -> Result<Mem>, ms: seq<Mem>, compress: bool)
    requires FC.Lawful(w.zstd) && |spans| <= U32_MAX && Rescaled(Rescale, spans) == Ok(ms)
    requires forall t: Text :: Rescale(t).Ok? ==> w.Parse(Rescale(t).value.text) == Some(Rescale(t).value.proj)
    ensures Grouped(w, PrepareFrames(w, traj, 0, ms, compress), compress).Ok?
      <==> (compress ==> FC.Groupable(FramesFrom(0, TextsOf(ms))))
  {
    hide *;
    RescaledFaithful(w, Rescale, spans);
    FaithfulPrepares(w, traj, 0, ms, compress);
    GroupedSucceeds(w, traj, 0, TextsOf(ms), compress, PrepareFrames(w, traj, 0, ms, compress));
  }

  lemma UnitsCoherent(w: World, s: Store, texts: Texts, traj: u64, spans: seq<Text>, Rescale: Text -> Result<Mem>,
      olds: seq<Prepared>, ms: seq<Mem>, compress: bool, ps: seq<Prepared>)
    requires FC.Lawful(w.zstd) && Coherent(w, s, texts) && Holds(s, texts, traj, spans)
    requires forall t: Text :: Rescale(t).Ok? ==> w.Parse(Rescale(t).value.text) == Some(Rescale(t).value.proj)
    requires |spans| <= U32_MAX && PreparedAs(w, traj, 0, spans, compress, olds) && Rescaled(Rescale, spans) == Ok(ms)
    requires Grouped(w, PrepareFrames(w, traj, 0, ms, compress), compress) == Ok(ps)
    ensures Coherent(w, Rewrite(s, olds, ps), WithSpan(texts, traj, 0, TextsOf(ms)))
    ensures Rewrite(s, olds, ps).meta == s.meta
  {
    hide *;
    RescaledFaithful(w, Rescale, spans);
    FaithfulPrepares(w, traj, 0, ms, compress);
    GroupedCarries(w, traj, 0, TextsOf(ms), compress, PrepareFrames(w, traj, 0, ms, compress), ps);
    PreparedCarries(w, traj, spans, compress, olds);
    RewriteCoherent(w, s, texts, traj, spans, olds, TextsOf(ms), ps, compress);
  }

  lemma PreparedCarries(w: World, traj: u64, spans: seq<Text>, compress: bool, ps: seq<Prepared>)
    requires |spans| <= U32_MAX && PreparedAs(w, traj, 0, spans, compress, ps)
    ensures CarryAll(w, traj, 0, spans, ps) && |ps| == |spans|
    ensures forall i :: 0 <= i < |ps| ==> ps[i].fk == FrameKey(traj, i)
  {
    hide Build, Carries;
    forall i | 0 <= i < |ps| ensures Carries(w, ps[i], FrameKey(traj, i), spans[i]) && ps[i].fk == FrameKey(traj, i) {
      assert PreparedAt(w, traj, 0 + i, spans[i], compress, ps[i]);
      BuiltCarries(w, FrameKey(traj, i), spans[i], compress, ps[i].stored);
      assert ps[i].(stored := ps[i].stored) == ps[i];
      CarriedKey(w, ps[i], FrameKey(traj, i), spans[i]);
    }
  }

  lemma AppendSteps(w: World, s: Store, traj: u64, spans: seq<Text>, source: string, compress: bool)
    requires Counted(spans)
    ensures var prepared := Prepare(w, traj, 0, spans, compress);
      prepared.Err? || Grouped(w, prepared.value, compress).Err? ==> Append(w, s, traj, spans, source, compress).Err?
  {
    hide GroupPrepared, PutAll, Prepare;
  }

  lemma AppendParts(w: World, s: Store, texts: Texts, traj: u64, spans: seq<Text>, source: string, compress: bool,
      prepared: seq<Prepared>, ps: seq<Prepared>)
    requires FC.Lawful(w.zstd) && Coherent(w, s, texts) && Counted(spans)
    requires Prepare(w, traj, 0, spans, compress) == Ok(prepared) && Grouped(w, prepared, compress) == Ok(ps)
    ensures Append(w, s, traj, spans, source, compress) ==
      if traj in s.meta then Err(TrajExists(traj, s.meta[traj].frames))
      else Ok(PutMeta(PutAll(s, ps), traj, TrajMeta(|spans|, source)))
    ensures traj !in s.meta ==>
      Coherent(w, PutMeta(PutAll(s, ps), traj, TrajMeta(|spans|, source)), WithSpan(texts, traj, 0, spans))
  {
    hide Coherent, GroupPrepared, PutAll, Prepare, PutMeta;
    AppendCoherent(w, s, texts, traj, spans, source, compress);
    IndexesFit(w, traj, 0, spans, prepared, ps, compress);
  }
}
