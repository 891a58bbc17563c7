/** Unit changes at the level of the store: what an export reads, through the cooked arrays or without, stays the same. */
module StoredUnits {
  import opened Prelude
  import opened Utf8
  import opened Keys
  import opened Store
  import opened Corpus
  import opened CorpusGrow
  import opened Mutators
  import Ingest
  import CookedSoa
  import U = Units
  import FC = FrameCodec

  /** The CON parser, writer and projection on frames, the bits of a text's numbers, and what the bits stand for. */
  datatype Con = Con(
    Read: Bytes -> Option<U.Frame>,
    Write: U.Frame -> Text,
    Project: U.Frame -> Proj,
    Bits: Bytes -> Option<seq<CookedSoa.Atom>>,
    Num: F64 -> real)

  function Real3(num: F64 -> real, v: CookedSoa.Vec3): U.Vec {
    U.Vec(num(v.0), num(v.1), num(v.2))
  }

  function OptReal3(num: F64 -> real, v: Option<CookedSoa.Vec3>): Option<U.Vec> {
    if v.Some? then Some(Real3(num, v.value)) else None
  }

  predicate SameNumbers(num: F64 -> real, bits: seq<CookedSoa.Atom>, atoms: seq<U.Atom>) {
    && |bits| == |atoms|
    && forall i :: 0 <= i < |atoms| ==>
        && atoms[i].pos == Real3(num, bits[i].pos)
        && atoms[i].vel == OptReal3(num, bits[i].velocity) && atoms[i].force == OptReal3(num, bits[i].force)
  }

  /** The cook and the parser read the same numbers. */
  ghost predicate ReadsBits(c: Con) {
    && c.Num(0) == 0.0
    && forall t: Bytes :: c.Read(t).Some? ==> c.Bits(t).Some? && SameNumbers(c.Num, c.Bits(t).value, c.Read(t).value.atoms)
  }

  // ---------------------------------------------------------------------
  // Export from the store
  // ---------------------------------------------------------------------

  function Reals(num: F64 -> real, vs: seq<CookedSoa.Vec3>): (r: seq<U.Vec>)
    ensures |r| == |vs| && forall i :: 0 <= i < |vs| ==> r[i] == Real3(num, vs[i])
  {
    seq(|vs|, i requires 0 <= i < |vs| => Real3(num, vs[i]))
  }

  function OptReals(num: F64 -> real, vs: Option<seq<CookedSoa.Vec3>>): Option<seq<U.Vec>> {
    if vs.Some? then Some(Reals(num, vs.value)) else None
  }

  /** One frame of `collect_h5md_with`: the header from the text, the arrays from the cooked value when there is one. */
  function ShowStored(w: World, c: Con, u: U.UnitTable, g: U.Geometry, s: Store, fk: FrameKey, o: Option<string>): Result<U.Shown> {
    var text :- Read(w.zstd, s.frames, fk);
    match c.Read(text)
    case None => Err(ParseError)
    case Some(f) =>
      match CookedSoa.GetCooked(s, fk) {
        case None => U.Show(u, g, f, fk.idx, o)
        case Some(k) =>
          U.ShowFrom(u, g, f.header, U.Zs(f.atoms), Reals(c.Num, k.positions), OptReals(c.Num, k.velocities),
            OptReals(c.Num, k.forces), fk.idx, o)
      }
  }

  /** The frames `0 .. n` of a trajectory. */
  function ExportStored(w: World, c: Con, u: U.UnitTable, g: U.Geometry, s: Store, traj: u64, n: nat, o: Option<string>):
      Result<seq<U.Shown>>
    requires n <= U32_MAX
  {
    if n == 0 then Ok([])
    else
      var before :- ExportStored(w, c, u, g, s, traj, n - 1, o);
      var last :- ShowStored(w, c, u, g, s, FrameKey(traj, n - 1), o);
      Ok(before + [last])
  }

  function ShowText(c: Con, u: U.UnitTable, g: U.Geometry, t: Text, idx: nat, o: Option<string>): Result<U.Shown> {
    match c.Read(t)
    case None => Err(ParseError)
    case Some(f) => U.Show(u, g, f, idx, o)
  }

  function ExportTexts(c: Con, u: U.UnitTable, g: U.Geometry, spans: seq<Text>, o: Option<string>): Result<seq<U.Shown>> {
    if spans == [] then Ok([])
    else
      var n := |spans| - 1;
      var before :- ExportTexts(c, u, g, spans[..n], o);
      var last :- ShowText(c, u, g, spans[n], n, o);
      Ok(before + [last])
  }

  /** The arrays the cache gives are those of the parsed text. */
  lemma CookedReals(c: Con, bits: seq<CookedSoa.Atom>, atoms: seq<U.Atom>)
    requires c.Num(0) == 0.0 && SameNumbers(c.Num, bits, atoms) && |bits| <= U32_MAX
    ensures var k := CookedSoa.FromText(bits);
      && Reals(c.Num, k.positions) == U.Pos(atoms)
      && OptReals(c.Num, k.velocities) == U.VelOf(atoms) && OptReals(c.Num, k.forces) == U.FrcOf(atoms)
  {
    assert Real3(c.Num, CookedSoa.ZERO) == U.Vec(0.0, 0.0, 0.0);
    assert CookedSoa.AnyVelocity(bits) <==> U.HasVelocities(atoms) by {
      if i :| 0 <= i < |bits| && bits[i].velocity.Some? {
        assert atoms[i].vel.Some?;
      }
      if i :| 0 <= i < |atoms| && atoms[i].vel.Some? {
        assert bits[i].velocity.Some?;
      }
    }
    assert CookedSoa.AnyForce(bits) <==> U.HasForces(atoms) by {
      if i :| 0 <= i < |bits| && bits[i].force.Some? {
        assert atoms[i].force.Some?;
      }
      if i :| 0 <= i < |atoms| && atoms[i].force.Some? {
        assert bits[i].force.Some?;
      }
    }
    hide CookedSoa.AnyVelocity, CookedSoa.AnyForce, U.HasVelocities, U.HasForces;
    assert Reals(c.Num, CookedSoa.Positions(bits)) == U.Pos(atoms);
    assert Reals(c.Num, CookedSoa.Velocities(bits)) == U.Vel(atoms);
    assert Reals(c.Num, CookedSoa.Forces(bits)) == U.Frc(atoms);
  }

  /** In a consistent environment an export through the cache shows what the text alone would show. */
  lemma CachedShow(w: World, c: Con, u: U.UnitTable, g: U.Geometry, s: Store, texts: Texts, fk: FrameKey, o: Option<string>)
    requires Coherent(w, s, texts) && CookedSoa.CooksFrom(w, c.Bits) && ReadsBits(c) && fk in texts
    ensures ShowStored(w, c, u, g, s, fk, o) == ShowText(c, u, g, texts[fk], fk.idx, o)
  {
    hide Coherent, CookedSoa.CooksFrom, CookedSoa.GetCooked, Read, SameNumbers, U.ShowFrom, U.VelOf, U.FrcOf, U.Pos, U.Zs,
      Reals, OptReals, CookedSoa.FromText;
    ReadsBack(w, s, texts, fk);
    if c.Read(texts[fk]).Some? && CookedSoa.GetCooked(s, fk).Some? {
      CookedSoa.CookedIs(w, c.Bits, s, texts, fk);
      CookedReals(c, c.Bits(texts[fk]).value, c.Read(texts[fk]).value.atoms);
    }
  }

  lemma {:induction false} ExportIs(w: World, c: Con, u: U.UnitTable, g: U.Geometry, s: Store, texts: Texts, traj: u64, n: nat,
      o: Option<string>, spans: seq<Text>)
    requires Coherent(w, s, texts) && CookedSoa.CooksFrom(w, c.Bits) && ReadsBits(c)
    requires n <= |spans| <= U32_MAX
    requires forall i :: 0 <= i < |spans| ==> FrameKey(traj, i) in texts && texts[FrameKey(traj, i)] == spans[i]
    ensures ExportStored(w, c, u, g, s, traj, n, o) == ExportTexts(c, u, g, spans[..n], o)
  {
    hide Coherent, CookedSoa.CooksFrom, ReadsBits, ShowStored, ShowText;
    if n > 0 {
      ExportIs(w, c, u, g, s, texts, traj, n - 1, o, spans);
      CachedShow(w, c, u, g, s, texts, FrameKey(traj, n - 1), o);
      assert spans[..n][..n - 1] == spans[..n - 1];
    }
  }

  // ---------------------------------------------------------------------
  // Set-units
  // ---------------------------------------------------------------------

  /** What `set_trajectory_units` makes of one stored text. */
  function RescaleText(c: Con, u: U.UnitTable, given: map<string, string>, t: Text): Result<Mem> {
    match c.Read(t)
    case None => Err(ParseError)
    case Some(f) =>
      var f1 :- U.Convert(u, f, given);
      Ok(Mem(c.Project(f1), c.Write(f1)))
  }

  function Rescaler(c: Con, u: U.UnitTable, given: map<string, string>): Text -> Result<Mem> {
    (t: Text) => RescaleText(c, u, given, t)
  }

  /** A converted frame is read back from what the writer makes of it. */
  ghost predicate WritesBack(w: World, c: Con, u: U.UnitTable, given: map<string, string>) {
    forall t: Text :: c.Read(t).Some? && U.Convert(u, c.Read(t).value, given).Ok? ==>
      var f1 := U.Convert(u, c.Read(t).value, given).value;
      c.Read(c.Write(f1)) == Some(f1) && w.Parse(c.Write(f1)) == Some(c.Project(f1))
  }

  lemma ShowTextUnchanged(w: World, c: Con, u: U.UnitTable, g: U.Geometry, given: map<string, string>, t: Text, idx: nat)
    requires WritesBack(w, c, u, given) && U.Lawful(u) && U.Roots(g)
    requires Rescaler(c, u, given)(t).Ok? && ShowText(c, u, g, t, idx, None).Ok?
    ensures ShowText(c, u, g, Rescaler(c, u, given)(t).value.text, idx, None) == ShowText(c, u, g, t, idx, None)
  {
    hide U.Convert, U.Show, U.Lawful, U.Roots;
    U.ShowUnchanged(u, g, c.Read(t).value, given, idx);
  }

  lemma ExportLast(c: Con, u: U.UnitTable, g: U.Geometry, spans: seq<Text>, o: Option<string>)
    ensures spans == [] ==> ExportTexts(c, u, g, spans, o) == Ok([])
    ensures spans != [] ==> (
      var n := |spans| - 1;
      var before, last := ExportTexts(c, u, g, spans[..n], o), ShowText(c, u, g, spans[n], n, o);
      ExportTexts(c, u, g, spans, o) ==
        if before.Err? then Err(before.error) else if last.Err? then Err(last.error) else Ok(before.value + [last.value]))
  {
    hide ShowText;
  }

  lemma RescaledLast(Rescale: Text -> Result<Mem>, spans: seq<Text>, ms: seq<Mem>)
    requires spans != [] && Rescaled(Rescale, spans) == Ok(ms)
    ensures var n := |spans| - 1;
      && |ms| == n + 1 && Rescaled(Rescale, spans[..n]) == Ok(ms[..n]) && Rescale(spans[n]) == Ok(ms[n])
      && TextsOf(ms)[..n] == TextsOf(ms[..n]) && TextsOf(ms)[n] == ms[n].text
  {
    var n := |spans| - 1;
    assert TextsOf(ms)[..n] == TextsOf(ms[..n]);
  }

  lemma {:induction false} TextsUnchanged(w: World, c: Con, u: U.UnitTable, g: U.Geometry, given: map<string, string>,
      spans: seq<Text>, ms: seq<Mem>)
    requires WritesBack(w, c, u, given) && U.Lawful(u) && U.Roots(g)
    requires Rescaled(Rescaler(c, u, given), spans) == Ok(ms) && ExportTexts(c, u, g, spans, None).Ok?
    ensures ExportTexts(c, u, g, TextsOf(ms), None) == ExportTexts(c, u, g, spans, None)
  {
    hide *;
    ExportLast(c, u, g, spans, None);
    ExportLast(c, u, g, TextsOf(ms), None);
    if spans != [] {
      var n := |spans| - 1;
      RescaledLast(Rescaler(c, u, given), spans, ms);
      TextsUnchanged(w, c, u, g, given, spans[..n], ms[..n]);
      ShowTextUnchanged(w, c, u, g, given, spans[n], n);
    }
  }

  lemma {:induction false} RescaledEach(Rescale: Text -> Result<Mem>, spans: seq<Text>)
    ensures Rescaled(Rescale, spans).Ok? <==> forall i :: 0 <= i < |spans| ==> Rescale(spans[i]).Ok?
  {
    if spans != [] {
      RescaledEach(Rescale, spans[..|spans| - 1]);
    }
  }

  lemma RescaleParses(w: World, c: Con, u: U.UnitTable, given: map<string, string>)
    requires WritesBack(w, c, u, given)
    ensures forall t: Text :: Rescaler(c, u, given)(t).Ok? ==>
      w.Parse(Rescaler(c, u, given)(t).value.text) == Some(Rescaler(c, u, given)(t).value.proj)
  {
    hide U.Convert;
  }

  /** Frames of the trajectory by index, as the texts hold them. */
  lemma Spelled(w: World, s: Store, texts: Texts, traj: u64, spans: seq<Text>)
    requires Coherent(w, s, texts) && Live(s, traj) == |spans|
    requires forall i :: 0 <= i < |spans| && FrameKey(traj, i) in texts ==> spans[i] == texts[FrameKey(traj, i)]
    ensures forall i :: 0 <= i < |spans| ==> FrameKey(traj, i) in texts && texts[FrameKey(traj, i)] == spans[i]
  {
    hide Sound, Readable, CookedFresh;
  }

  /** The trajectory has frames, each of them reads and converts, and, compressing, fits its group. */
  ghost predicate UnitsReady(c: Con, u: U.UnitTable, given: map<string, string>, compress: bool, spans: seq<Text>)
    requires |spans| <= U32_MAX
  {
    && spans != []
    && (forall i :: 0 <= i < |spans| ==> RescaleText(c, u, given, spans[i]).Ok?)
    && (compress ==> FC.Groupable(Ingest.FramesFrom(0, LaterTexts(c, u, given, spans))))
  }

  /** The texts of the converted frames. */
  function LaterTexts(c: Con, u: U.UnitTable, given: map<string, string>, spans: seq<Text>): (later: seq<Text>)
    ensures |later| == |spans|
  {
    var ms := Rescaled(Rescaler(c, u, given), spans);
    if ms.Ok? then TextsOf(ms.value) else spans
  }

  lemma ReadyIs(c: Con, u: U.UnitTable, given: map<string, string>, compress: bool, spans: seq<Text>)
    requires |spans| <= U32_MAX
    ensures var ms := Rescaled(Rescaler(c, u, given), spans);
      UnitsReady(c, u, given, compress, spans) <==>
        (spans != [] && ms.Ok? && (compress ==> FC.Groupable(Ingest.FramesFrom(0, TextsOf(ms.value)))))
  {
    hide RescaleText, FC.Groupable;
    RescaledEach(Rescaler(c, u, given), spans);
  }

  /** What a stored frame reads back as. */
  function StoredFrame(w: World, c: Con, s: Store, fk: FrameKey): Option<U.Frame> {
    match Read(w.zstd, s.frames, fk)
    case Err(_) => None
    case Ok(text) => c.Read(text)
  }

  /** Every frame of the trajectory reads back in the requested units, each number measuring what it did. */
  ghost predicate AllRequested(w: World, c: Con, u: U.UnitTable, given: map<string, string>, a: Store, b: Store, traj: u64, n: nat)
    requires n <= U32_MAX
  {
    forall i :: 0 <= i < n ==> FrameRequested(w, c, u, given, a, b, FrameKey(traj, i))
  }

  ghost predicate FrameRequested(w: World, c: Con, u: U.UnitTable, given: map<string, string>, a: Store, b: Store, fk: FrameKey) {
    var f, f1 := StoredFrame(w, c, a, fk), StoredFrame(w, c, b, fk);
    f.Some? && f1.Some? && U.Requested(u, f.value, given, f1.value)
  }

  /** Both environments export the trajectory alike, if the first exports it at all. */
  ghost predicate SameExport(w: World, c: Con, u: U.UnitTable, g: U.Geometry, a: Store, b: Store, traj: u64, n: nat)
    requires n <= U32_MAX
  {
    var before := ExportStored(w, c, u, g, a, traj, n, None);
    before.Ok? ==> ExportStored(w, c, u, g, b, traj, n, None) == before
  }

  /**
   * `set_trajectory_units` with the conversion of `Units`: when it succeeds, every frame reads back with the requested
   * labels and numbers that measure the same, and whatever an export showed before it shows afterwards, cooked arrays
   * or not.
   */
  method SetUnits(corpus: ConCorpus, c: Con, u: U.UnitTable, given: map<string, string>, traj: u64, ghost g: U.Geometry)
    returns (r: Result<u32>)
    requires corpus.Valid() && CookedSoa.CooksFrom(corpus.w, c.Bits) && ReadsBits(c) && WritesBack(corpus.w, c, u, given)
    requires U.Lawful(u) && U.Roots(g)
    modifies corpus`tables, corpus`texts
    ensures corpus.Valid()
    ensures r.Ok? <==>
      UnitsReady(c, u, given, corpus.compress, SpansOf(old(corpus.texts), traj, Live(old(corpus.tables), traj)))
    ensures r.Ok? ==> r.value == Live(old(corpus.tables), traj) == Live(corpus.tables, traj)
    ensures r.Ok? ==> AllRequested(corpus.w, c, u, given, old(corpus.tables), corpus.tables, traj, r.value)
    ensures r.Ok? ==> SameExport(corpus.w, c, u, g, old(corpus.tables), corpus.tables, traj, r.value)
    ensures r.Err? ==> corpus.tables == old(corpus.tables) && corpus.texts == old(corpus.texts)
  {
    hide *;
    ghost var s0, texts0 := corpus.tables, corpus.texts;
    ghost var spans := SpansOf(texts0, traj, Live(s0, traj));
    RescaleParses(corpus.w, c, u, given);
    LiveCounted(s0, traj);
    ReadyIs(c, u, given, corpus.compress, spans);
    ValidIs(corpus);
    r := corpus.SetTrajectoryUnits(traj, Rescaler(c, u, given));
    if r.Ok? {
      SameMetaLive(s0, corpus.tables, traj);
      ValidIs(corpus);
      RequestedAll(corpus.w, c, u, given, s0, texts0, corpus.tables, corpus.texts, traj, spans);
      ExportSame(corpus.w, c, u, g, given, s0, texts0, corpus.tables, corpus.texts, traj, spans);
    }
  }

  lemma OneRequested(w: World, c: Con, u: U.UnitTable, given: map<string, string>, s0: Store, texts0: Texts,
      s1: Store, texts1: Texts, fk: FrameKey)
    requires Coherent(w, s0, texts0) && Coherent(w, s1, texts1) && WritesBack(w, c, u, given) && U.Lawful(u)
    requires fk in texts0 && fk in texts1 && Rescaler(c, u, given)(texts0[fk]).Ok?
    requires texts1[fk] == Rescaler(c, u, given)(texts0[fk]).value.text
    ensures FrameRequested(w, c, u, given, s0, s1, fk)
  {
    hide Coherent, U.Convert, U.Requested, U.Lawful, Read;
    ReadsBack(w, s0, texts0, fk);
    ReadsBack(w, s1, texts1, fk);
    U.ConvertMeans(u, c.Read(texts0[fk]).value, given);
  }

  lemma {:induction false} RescaledAt(Rescale: Text -> Result<Mem>, spans: seq<Text>, ms: seq<Mem>, i: nat)
    requires Rescaled(Rescale, spans) == Ok(ms) && i < |spans|
    ensures |ms| == |spans| && Rescale(spans[i]) == Ok(ms[i])
  {
    RescaledLast(Rescale, spans, ms);
    if i < |spans| - 1 {
      RescaledAt(Rescale, spans[..|spans| - 1], ms[..|spans| - 1], i);
    }
  }

  lemma RequestedAll(w: World, c: Con, u: U.UnitTable, given: map<string, string>, s0: Store, texts0: Texts,
      s1: Store, texts1: Texts, traj: u64, spans: seq<Text>)
    requires Coherent(w, s0, texts0) && Coherent(w, s1, texts1) && WritesBack(w, c, u, given) && U.Lawful(u)
    requires spans == SpansOf(texts0, traj, Live(s0, traj)) && Live(s1, traj) == Live(s0, traj)
    requires Rescaled(Rescaler(c, u, given), spans).Ok?
    requires texts1 == WithSpan(texts0, traj, 0, TextsOf(Rescaled(Rescaler(c, u, given), spans).value))
    ensures AllRequested(w, c, u, given, s0, s1, traj, Live(s0, traj))
  {
    hide Coherent, WritesBack, U.Lawful, Rescaled, Rescaler, WithSpan, FrameRequested;
    var ms := Rescaled(Rescaler(c, u, given), spans).value;
    var later := TextsOf(ms);
    LaterAt(texts0, traj, later);
    Spelled(w, s0, texts0, traj, spans);
    Spelled(w, s1, texts1, traj, later);
    forall i | 0 <= i < |spans| ensures FrameRequested(w, c, u, given, s0, s1, FrameKey(traj, i)) {
      RescaledAt(Rescaler(c, u, given), spans, ms, i);
      OneRequested(w, c, u, given, s0, texts0, s1, texts1, FrameKey(traj, i));
    }
  }

  lemma LiveCounted(s: Store, traj: u64)
    ensures Live(s, traj) <= U32_MAX
  {}

  lemma SameMetaLive(a: Store, b: Store, traj: u64)
    requires a.meta == b.meta
    ensures Live(a, traj) == Live(b, traj)
  {}

  lemma ValidIs(corpus: ConCorpus)
    requires corpus.Valid()
    ensures Coherent(corpus.w, corpus.tables, corpus.texts)
  {
    hide Coherent;
  }

  /** The texts of a trajectory, whichever way they are named, are what an export shows. */
  lemma ExportSpans(w: World, c: Con, u: U.UnitTable, g: U.Geometry, s: Store, texts: Texts, traj: u64, spans: seq<Text>)
    requires Coherent(w, s, texts) && CookedSoa.CooksFrom(w, c.Bits) && ReadsBits(c)
    requires Live(s, traj) == |spans|
    requires forall i :: 0 <= i < |spans| && FrameKey(traj, i) in texts ==> spans[i] == texts[FrameKey(traj, i)]
    ensures ExportStored(w, c, u, g, s, traj, |spans|, None) == ExportTexts(c, u, g, spans, None)
  {
    hide Coherent, CookedSoa.CooksFrom, ReadsBits, ExportStored, ExportTexts;
    Spelled(w, s, texts, traj, spans);
    ExportIs(w, c, u, g, s, texts, traj, |spans|, None, spans);
    assert spans[..|spans|] == spans;
  }

  lemma LaterAt(texts: Texts, traj: u64, later: seq<Text>)
    requires |later| <= U32_MAX
    ensures var texts1 := WithSpan(texts, traj, 0, later);
      forall i :: 0 <= i < |later| && FrameKey(traj, i) in texts1 ==> later[i] == texts1[FrameKey(traj, i)]
  {
    hide WithSpan;
    var texts1 := WithSpan(texts, traj, 0, later);
    forall i | 0 <= i < |later| && FrameKey(traj, i) in texts1 ensures later[i] == texts1[FrameKey(traj, i)] {
      assert FrameKey(traj, 0 + i) == FrameKey(traj, i);
    }
  }

  lemma ExportSame(w: World, c: Con, u: U.UnitTable, g: U.Geometry, given: map<string, string>, s0: Store, texts0: Texts,
      s1: Store, texts1: Texts, traj: u64, spans: seq<Text>)
    requires Coherent(w, s0, texts0) && Coherent(w, s1, texts1)
    requires CookedSoa.CooksFrom(w, c.Bits) && ReadsBits(c) && WritesBack(w, c, u, given) && U.Lawful(u) && U.Roots(g)
    requires spans == SpansOf(texts0, traj, Live(s0, traj)) && Live(s1, traj) == Live(s0, traj)
    requires Rescaled(Rescaler(c, u, given), spans).Ok?
    requires texts1 == WithSpan(texts0, traj, 0, TextsOf(Rescaled(Rescaler(c, u, given), spans).value))
    ensures SameExport(w, c, u, g, s0, s1, traj, Live(s0, traj))
  {
    hide Coherent, CookedSoa.CooksFrom, ReadsBits, WritesBack, U.Lawful, U.Roots, Rescaled, Rescaler, ExportStored, ExportTexts, WithSpan;
    var ms := Rescaled(Rescaler(c, u, given), spans).value;
    var later := TextsOf(ms);
    ExportSpans(w, c, u, g, s0, texts0, traj, spans);
    LaterAt(texts0, traj, later);
    ExportSpans(w, c, u, g, s1, texts1, traj, later);
    if ExportTexts(c, u, g, spans, None).Ok? {
      TextsUnchanged(w, c, u, g, given, spans, ms);
    }
  }
}
