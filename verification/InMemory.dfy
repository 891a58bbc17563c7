/**
 * In-memory ingest derives the index keys from the frame in memory, while the store keeps the text the writer makes
 * of it. Which frames are indexed as their stored text says?
 */
module InMemory {
  import opened Prelude
  import opened Utf8
  import opened Keys
  import opened Scan
  import opened Store
  import opened Corpus
  import opened CorpusGrow
  import opened Query

  // ---------------------------------------------------------------------
  // What the indexes see of a projection
  // ---------------------------------------------------------------------

  /** A scalar as the range indexes take it: one that is not finite is skipped. */
  function Fin(x: Option<F64>): Option<F64> {
    if x.Some? && Finite(x.value) then x else None
  }

  function Counts(p: Proj): set<(Text, u32)> {
    set i | 0 <= i < |p.species| :: p.species[i]
  }

  /** The finite metadata scalars with their channels. */
  function Channels(meta: seq<Option<F64>>): set<(byte, F64)> {
    set i | 0 <= i < |meta| && Fin(meta[i]).Some? :: ((i + 1) % 0x100, meta[i].value)
  }

  /** Two projections agree in every field an index is made of. */
  predicate SameScreen(p: Proj, q: Proj) {
    && p.nAtoms == q.nAtoms && Counts(p) == Counts(q) && p.formula == q.formula
    && p.energy.Some? == q.energy.Some? && p.hasForces == q.hasForces && p.hasVelocities == q.hasVelocities
    && Fin(p.energy) == Fin(q.energy) && (p.hasForces ==> Fin(p.fmax) == Fin(q.fmax))
    && Fin(p.mass) == Fin(q.mass) && Fin(p.volume) == Fin(q.volume)
    && p.pbc == q.pbc && Channels(p.meta) == Channels(q.meta)
  }

  /** The part of that agreement which one table can see. */
  predicate SameField(p: Proj, q: Proj, t: Table) {
    match t
    case Natoms => p.nAtoms == q.nAtoms
    case Symbol => true
    case ElemCount => Counts(p) == Counts(q)
    case Formula => p.formula == q.formula
    case Energy => Fin(p.energy) == Fin(q.energy)
    case Fmax => (if p.hasForces then Fin(p.fmax) else None) == (if q.hasForces then Fin(q.fmax) else None)
    case Mass => Fin(p.mass) == Fin(q.mass)
    case Volume => Fin(p.volume) == Fin(q.volume)
    case Pbc => p.pbc == q.pbc
    case Flags => p.energy.Some? == q.energy.Some? && p.hasForces == q.hasForces && p.hasVelocities == q.hasVelocities
    case Meta => Channels(p.meta) == Channels(q.meta)
  }

  predicate SameRowsIn(a: seq<Bytes>, b: seq<Bytes>) {
    (forall k <- a :: k in b) && forall k <- b :: k in a
  }

  // ---------------------------------------------------------------------
  // One table at a time
  // ---------------------------------------------------------------------

  lemma NatomsDecide(m: u32, n: u32, fk: FrameKey)
    ensures SameRowsIn([NatomsKey(m, fk)], [NatomsKey(n, fk)]) <==> m == n
  {
    hide NatomsKey;
    Pow256Values();
    NatomsParses(m, fk);
    NatomsParses(n, fk);
    if SameRowsIn([NatomsKey(m, fk)], [NatomsKey(n, fk)]) {
      assert NatomsKey(m, fk) in [NatomsKey(m, fk)];
    }
  }

  lemma NatomsParses(n: u32, fk: FrameKey)
    ensures NumberOf(NatomsKey(n, fk), 4) == n
  {
    Pow256Values();
    NumberedParses(n, 4, fk);
  }

  lemma FormulasDecide(a: Text, b: Text, fk: FrameKey)
    ensures SameRowsIn(if a == [] then [] else [FormulaKey(a, fk)], if b == [] then [] else [FormulaKey(b, fk)]) <==> a == b
  {
    hide FormulaKey;
    if a != [] && b != [] && FormulaKey(a, fk) == FormulaKey(b, fk) {
      FormulaOnly(a, b, fk);
    }
    if a != [] {
      assert FormulaKey(a, fk) in [FormulaKey(a, fk)];
    }
    if b != [] {
      assert FormulaKey(b, fk) in [FormulaKey(b, fk)];
    }
  }

  lemma FormulaOnly(a: Text, b: Text, fk: FrameKey)
    requires FormulaKey(a, fk) == FormulaKey(b, fk)
    ensures a == b
  {
    assert TextPrefix(a) <= TextPrefix(b) + FrameKeyBytes(fk);
    PrefixMatchesOnlyEqual(a, b, FrameKeyBytes(fk));
  }

  lemma BinsDecide(x: Option<F64>, y: Option<F64>, fk: FrameKey)
    ensures SameRowsIn(OptBin(x, fk), OptBin(y, fk)) <==> Fin(x) == Fin(y)
  {
    hide BinKey, NumberOf, Finite;
    BinIs(x, fk);
    BinIs(y, fk);
    if Fin(x).Some? {
      assert OptBin(x, fk)[0] in OptBin(x, fk);
      if Fin(y).Some? && SameRowsIn(OptBin(x, fk), OptBin(y, fk)) {
        OrderedOnce(x.value, y.value);
      }
    }
    if Fin(y).Some? {
      assert OptBin(y, fk)[0] in OptBin(y, fk);
    }
  }

  lemma BinIs(x: Option<F64>, fk: FrameKey)
    ensures |OptBin(x, fk)| == if Fin(x).Some? then 1 else 0
    ensures Fin(x).Some? ==> NumberOf(OptBin(x, fk)[0], 8) == OrderedBits(x.value).value
  {
    hide NumberOf;
    if x.Some? {
      BinKeyParses(x.value, fk);
    }
  }

  lemma OrderedOnce(a: F64, b: F64)
    requires Finite(a) && Finite(b) && OrderedBits(a).value == OrderedBits(b).value
    ensures a == b
  {}

  lemma MasksDecide(a: Option<Periodic>, b: Option<Periodic>, fk: FrameKey)
    ensures SameRowsIn(if a.Some? then [PbcKey(MaskOf(a.value), fk)] else [], if b.Some? then [PbcKey(MaskOf(b.value), fk)] else [])
      <==> a == b
  {
    hide FrameKeyBytes, MaskOf;
    if a.Some? {
      MaskBits(a.value);
      assert PbcKey(MaskOf(a.value), fk)[0] == MaskOf(a.value);
      assert PbcKey(MaskOf(a.value), fk) in [PbcKey(MaskOf(a.value), fk)];
    }
    if b.Some? {
      MaskBits(b.value);
      assert PbcKey(MaskOf(b.value), fk)[0] == MaskOf(b.value);
      assert PbcKey(MaskOf(b.value), fk) in [PbcKey(MaskOf(b.value), fk)];
    }
    if a.Some? && b.Some? && MaskOf(a.value) == MaskOf(b.value) {
      MaskOnce(a.value, b.value);
    }
  }

  lemma FlagsDecide(p: Proj, q: Proj, fk: FrameKey)
    ensures SameRowsIn(FlagKeys(p, fk), FlagKeys(q, fk)) <==> SameField(p, q, Flags)
  {
    hide FlagKeys;
    FlagsIn(p, fk);
    FlagsIn(q, fk);
    if SameField(p, q, Flags) {
      FlagsSame(p, q, fk);
    }
  }

  lemma FlagsIn(p: Proj, fk: FrameKey)
    ensures FlagKey(FLAG_HAS_ENERGY, fk) in FlagKeys(p, fk) <==> p.energy.Some?
    ensures FlagKey(FLAG_HAS_FORCES, fk) in FlagKeys(p, fk) <==> p.hasForces
    ensures FlagKey(FLAG_HAS_VELOCITIES, fk) in FlagKeys(p, fk) <==> p.hasVelocities
  {
    hide FrameKeyBytes;
    forall b: byte ensures FlagKey(b, fk)[0] == b {}
    hide FlagKey;
  }

  lemma FlagsSame(p: Proj, q: Proj, fk: FrameKey)
    requires SameField(p, q, Flags)
    ensures FlagKeys(p, fk) == FlagKeys(q, fk)
  {}

  lemma CountsDecide(p: Proj, q: Proj, fk: FrameKey)
    ensures SameRowsIn(ElemCountKeys(p.species, fk), ElemCountKeys(q.species, fk)) <==> Counts(p) == Counts(q)
  {
    hide ElemCountKeys, ElemCountKey;
    if Counts(p) == Counts(q) {
      CountsCover(p, q, fk);
      CountsCover(q, p, fk);
    }
    if SameRowsIn(ElemCountKeys(p.species, fk), ElemCountKeys(q.species, fk)) {
      RowsCover(p, q, fk);
      RowsCover(q, p, fk);
    }
  }

  lemma CountsCover(p: Proj, q: Proj, fk: FrameKey)
    requires Counts(p) <= Counts(q)
    ensures forall k <- ElemCountKeys(p.species, fk) :: k in ElemCountKeys(q.species, fk)
  {
    hide ElemCountKeys, ElemCountKey;
    forall k | k in ElemCountKeys(p.species, fk) ensures k in ElemCountKeys(q.species, fk) {
      ElemCountRows(p.species, fk, k);
      ElemCountRows(q.species, fk, k);
      var i :| 0 <= i < |p.species| && k == ElemCountKey(p.species[i].0, p.species[i].1, fk);
      assert p.species[i] in Counts(q);
    }
  }

  lemma RowsCover(p: Proj, q: Proj, fk: FrameKey)
    requires forall k <- ElemCountKeys(p.species, fk) :: k in ElemCountKeys(q.species, fk)
    ensures Counts(p) <= Counts(q)
  {
    hide ElemCountKeys, ElemCountKey;
    forall c | c in Counts(p) ensures c in Counts(q) {
      var i :| 0 <= i < |p.species| && p.species[i] == c;
      var k := ElemCountKey(c.0, c.1, fk);
      ElemCountRows(p.species, fk, k);
      ElemCountRows(q.species, fk, k);
      var j :| 0 <= j < |q.species| && k == ElemCountKey(q.species[j].0, q.species[j].1, fk);
      CountOnly(c, q.species[j], fk);
    }
  }

  lemma CountOnly(a: (Text, u32), b: (Text, u32), fk: FrameKey)
    requires ElemCountKey(a.0, a.1, fk) == ElemCountKey(b.0, b.1, fk)
    ensures a == b
  {
    hide ElemCountKey, ParseElemCount;
    ElemCountParses(a.0, a.1, fk);
    ElemCountOnly(b.0, b.1, fk, a.0);
  }

  /** The symbol rows follow from the counts. */
  lemma SymbolsFollow(p: Proj, q: Proj, fk: FrameKey)
    requires Counts(p) <= Counts(q)
    ensures forall k <- SymbolKeys(DistinctSymbols(p.species), fk) :: k in SymbolKeys(DistinctSymbols(q.species), fk)
  {
    hide SymbolKeys, SymbolKey, DistinctSymbols;
    forall k | k in SymbolKeys(DistinctSymbols(p.species), fk) ensures k in SymbolKeys(DistinctSymbols(q.species), fk) {
      SymbolRows(p.species, fk, k);
      SymbolRows(q.species, fk, k);
      var i :| 0 <= i < |p.species| && k == SymbolKey(p.species[i].0, fk);
      assert p.species[i] in Counts(q);
    }
  }

  lemma ChannelsDecide(a: seq<Option<F64>>, b: seq<Option<F64>>, fk: FrameKey)
    ensures SameRowsIn(MetaKeys(a, fk), MetaKeys(b, fk)) <==> Channels(a) == Channels(b)
  {
    hide MetaKeys, Channels;
    if Channels(a) == Channels(b) {
      ChannelsCover(a, b, fk);
      ChannelsCover(b, a, fk);
    }
    if SameRowsIn(MetaKeys(a, fk), MetaKeys(b, fk)) {
      MetaCover(a, b, fk);
      MetaCover(b, a, fk);
    }
  }

  lemma ChannelsCover(a: seq<Option<F64>>, b: seq<Option<F64>>, fk: FrameKey)
    requires Channels(a) <= Channels(b)
    ensures forall k <- MetaKeys(a, fk) :: k in MetaKeys(b, fk)
  {
    hide MetaKeys, MetaKey, Finite;
    forall k | k in MetaKeys(a, fk) ensures k in MetaKeys(b, fk) {
      MetaRows(a, fk, k);
      MetaRows(b, fk, k);
      var i :| 0 <= i < |a| && MetaRow(a, i, fk, k);
      MetaKeyParses((i + 1) % 0x100, a[i].value, fk);
      assert ((i + 1) % 0x100, a[i].value) in Channels(b);
      var j :| 0 <= j < |b| && Fin(b[j]).Some? && ((j + 1) % 0x100, b[j].value) == ((i + 1) % 0x100, a[i].value);
      assert MetaRow(b, j, fk, k);
    }
  }

  lemma MetaCover(a: seq<Option<F64>>, b: seq<Option<F64>>, fk: FrameKey)
    requires forall k <- MetaKeys(a, fk) :: k in MetaKeys(b, fk)
    ensures Channels(a) <= Channels(b)
  {
    hide MetaKeys, MetaKey, Finite, OrderedBits;
    forall c | c in Channels(a) ensures c in Channels(b) {
      var i :| 0 <= i < |a| && Fin(a[i]).Some? && ((i + 1) % 0x100, a[i].value) == c;
      MetaKeyParses(c.0, c.1, fk);
      var k := MetaKey(c.0, c.1, fk).value;
      assert MetaRow(a, i, fk, k);
      MetaRows(a, fk, k);
      MetaRows(b, fk, k);
      var j :| 0 <= j < |b| && MetaRow(b, j, fk, k);
      MetaKeyParses((j + 1) % 0x100, b[j].value, fk);
      OrderedOnce(c.1, b[j].value);
    }
  }

  /** A table tells two projections apart exactly by its own field. */
  lemma TableDecides(p: Proj, q: Proj, fk: FrameKey, t: Table)
    requires t != Symbol
    ensures SameRowsIn(KeysFor(p, fk, t), KeysFor(q, fk, t)) <==> SameField(p, q, t)
  {
    hide SameRowsIn, OptBin, NatomsKey, FormulaKey, PbcKey, FlagKeys, MetaKeys, ElemCountKeys, Counts, Channels, Fin, MaskOf;
    match t {
      case Natoms => NatomsDecide(p.nAtoms, q.nAtoms, fk);
      case ElemCount => CountsDecide(p, q, fk);
      case Formula => FormulasDecide(p.formula, q.formula, fk);
      case Energy => BinsDecide(p.energy, q.energy, fk);
      case Fmax => FmaxDecide(p, q, fk);
      case Mass => BinsDecide(p.mass, q.mass, fk);
      case Volume => BinsDecide(p.volume, q.volume, fk);
      case Pbc => MasksDecide(p.pbc, q.pbc, fk);
      case Flags => FlagsDecide(p, q, fk);
      case Meta => ChannelsDecide(p.meta, q.meta, fk);
      case Symbol =>
    }
  }

  lemma FmaxDecide(p: Proj, q: Proj, fk: FrameKey)
    ensures SameRowsIn(KeysFor(p, fk, Fmax), KeysFor(q, fk, Fmax)) <==> SameField(p, q, Fmax)
  {
    hide SameRowsIn, BinKey;
    var x, y := if p.hasForces then p.fmax else None, if q.hasForces then q.fmax else None;
    assert KeysFor(p, fk, Fmax) == OptBin(x, fk) && KeysFor(q, fk, Fmax) == OptBin(y, fk);
    BinsDecide(x, y, fk);
  }

  /** The projections give the same rows in all tables exactly when they agree field by field. */
  lemma ScreenDecides(w: World, fk: FrameKey, p: Proj, s: Text, compress: bool, q: Proj, t: Text)
    ensures RowSet(Build(w, fk, p, s, compress)) == RowSet(Build(w, fk, q, t, false)) <==> SameScreen(p, q)
  {
    hide KeysFor, RowSet, Build, Counts, Channels, Fin, KeysOf;
    forall e: Entry
      ensures e in RowSet(Build(w, fk, p, s, compress)) <==> e.key in KeysFor(p, fk, e.table)
      ensures e in RowSet(Build(w, fk, q, t, false)) <==> e.key in KeysFor(q, fk, e.table)
    {
      BuiltFor(w, fk, p, s, compress, e.table);
      BuiltFor(w, fk, q, t, false, e.table);
    }
    forall u: Table | u != Symbol
      ensures SameRowsIn(KeysFor(p, fk, u), KeysFor(q, fk, u)) <==> SameField(p, q, u)
    {
      TableDecides(p, q, fk, u);
    }
    if SameScreen(p, q) {
      SymbolsSame(p, q, fk);
      forall e: Entry ensures e.key in KeysFor(p, fk, e.table) <==> e.key in KeysFor(q, fk, e.table) {
        assert SameRowsIn(KeysFor(p, fk, e.table), KeysFor(q, fk, e.table));
      }
    }
    if RowSet(Build(w, fk, p, s, compress)) == RowSet(Build(w, fk, q, t, false)) {
      forall u: Table ensures SameRowsIn(KeysFor(p, fk, u), KeysFor(q, fk, u)) {
        forall k ensures k in KeysFor(p, fk, u) <==> k in KeysFor(q, fk, u) {
          assert Entry(u, k) in RowSet(Build(w, fk, p, s, compress)) <==> Entry(u, k) in RowSet(Build(w, fk, q, t, false));
        }
      }
      AllFields(p, q);
    }
  }

  lemma SymbolsSame(p: Proj, q: Proj, fk: FrameKey)
    requires Counts(p) == Counts(q)
    ensures SameRowsIn(KeysFor(p, fk, Symbol), KeysFor(q, fk, Symbol))
  {
    hide SymbolKeys, DistinctSymbols, Counts;
    SymbolsFollow(p, q, fk);
    SymbolsFollow(q, p, fk);
  }

  lemma AllFields(p: Proj, q: Proj)
    requires forall u: Table :: u != Symbol ==> SameField(p, q, u)
    ensures SameScreen(p, q)
  {
    hide Counts, Channels, Fin;
    assert SameField(p, q, Natoms) && SameField(p, q, ElemCount) && SameField(p, q, Formula) && SameField(p, q, Energy);
    assert SameField(p, q, Fmax) && SameField(p, q, Mass) && SameField(p, q, Volume) && SameField(p, q, Pbc);
    assert SameField(p, q, Flags) && SameField(p, q, Meta);
  }

  lemma BuiltFor(w: World, fk: FrameKey, p: Proj, text: Text, compress: bool, t: Table)
    ensures KeysOf(Build(w, fk, p, text, compress), t) == KeysFor(p, fk, t)
  {
    BuiltKeys(w, fk, p, text, t);
  }

  // ---------------------------------------------------------------------
  // The store
  // ---------------------------------------------------------------------

  /**
   * Storing a frame from memory leaves the indexes holding what the stored texts imply exactly when the text parses
   * and its projection agrees with the frame's own in every indexed field.
   */
  lemma InMemoryIndexed(w: World, idx: set<Entry>, texts: Texts, fk: FrameKey, m: Mem, compress: bool)
    requires Indexed(w, idx, texts) && fk !in texts
    ensures Indexed(w, idx + RowSet(Build(w, fk, m.proj, m.text, compress)), texts[fk := m.text])
      <==> w.Parse(m.text).Some? && SameScreen(m.proj, w.Parse(m.text).value)
  {
    hide Rows, RowSet, Build, SameScreen, Indexed;
    RowsExact(w, idx, texts, fk, m, compress);
    RowsAgree(w, fk, m, compress);
  }

  lemma RowsAgree(w: World, fk: FrameKey, m: Mem, compress: bool)
    ensures RowSet(Build(w, fk, m.proj, m.text, compress)) == Rows(w, fk, m.text)
      <==> w.Parse(m.text).Some? && SameScreen(m.proj, w.Parse(m.text).value)
  {
    hide RowSet, Build, SameScreen;
    if w.Parse(m.text).Some? {
      ScreenDecides(w, fk, m.proj, m.text, compress, w.Parse(m.text).value, m.text);
    } else {
      SomeRow(w, fk, m, compress);
    }
  }

  lemma SomeRow(w: World, fk: FrameKey, m: Mem, compress: bool)
    ensures RowSet(Build(w, fk, m.proj, m.text, compress)) != {}
  {
    hide SymbolKeys, ElemCountKeys, MetaKeys, FlagKeys, NatomsKey;
    assert KeysOf(Build(w, fk, m.proj, m.text, compress), Natoms)[0] == NatomsKey(m.proj.nAtoms, fk);
    assert Entry(Natoms, NatomsKey(m.proj.nAtoms, fk)) in RowSet(Build(w, fk, m.proj, m.text, compress));
  }

  /** A scalar that the written text reproduces as another finite number, as rounding to fewer digits does. */
  predicate Rounded(of: Scalar, p: Proj, q: Proj) {
    var x, y := ScalarOf(p, of), ScalarOf(q, of);
    x.Some? && y.Some? && Finite(x.value) && Finite(y.value) && x.value != y.value
  }

  /** A writer that keeps fewer digits rounds: a frame whose energy, force, mass or volume moved is indexed under the old one. */
  lemma RoundingDiffers(w: World, idx: set<Entry>, texts: Texts, fk: FrameKey, m: Mem, compress: bool, of: Scalar)
    requires Indexed(w, idx, texts) && fk !in texts
    requires w.Parse(m.text).Some? && Rounded(of, m.proj, w.Parse(m.text).value)
    ensures !Indexed(w, idx + RowSet(Build(w, fk, m.proj, m.text, compress)), texts[fk := m.text])
    ensures var key := BinKey(ScalarOf(m.proj, of).value, fk);
      key.Some? && Entry(TableOf(of), key.value) in RowSet(Build(w, fk, m.proj, m.text, compress))
  {
    hide Indexed, Rows, RowSet, Build, BinKey, Finite, Counts, Channels, KeysFor, KeysOf;
    InMemoryIndexed(w, idx, texts, fk, m, compress);
    assert !SameScreen(m.proj, w.Parse(m.text).value);
    BinKeyParses(ScalarOf(m.proj, of).value, fk);
    BandKeys(m.proj, fk, of);
    BuiltFor(w, fk, m.proj, m.text, compress, TableOf(of));
    var keys := KeysOf(Build(w, fk, m.proj, m.text, compress), TableOf(of));
    assert keys == OptBin(ScalarOf(m.proj, of), fk) && keys[0] == BinKey(ScalarOf(m.proj, of).value, fk).value;
  }

  lemma RowsExact(w: World, idx: set<Entry>, texts: Texts, fk: FrameKey, m: Mem, compress: bool)
    requires Indexed(w, idx, texts) && fk !in texts
    ensures var p := Build(w, fk, m.proj, m.text, compress);
      Indexed(w, idx + RowSet(p), texts[fk := m.text]) <==> RowSet(p) == Rows(w, fk, m.text)
  {
    hide Rows, RowSet, Build;
    var p := Build(w, fk, m.proj, m.text, compress);
    var texts1 := texts[fk := m.text];
    forall e ensures Owned(w, texts1, e) <==> Owned(w, texts, e) || e in Rows(w, fk, m.text) {
      OwnedWith(w, texts, fk, m.text, e);
    }
    forall e ensures !(Owned(w, texts, e) && (e in RowSet(p) || e in Rows(w, fk, m.text))) {
      NotMine(w, texts, fk, m, compress, e);
    }
    if Indexed(w, idx + RowSet(p), texts1) {
      forall e ensures e in RowSet(p) <==> e in Rows(w, fk, m.text) {}
    }
  }

  lemma OwnedWith(w: World, texts: Texts, fk: FrameKey, text: Text, e: Entry)
    requires fk !in texts
    ensures Owned(w, texts[fk := text], e) <==> Owned(w, texts, e) || e in Rows(w, fk, text)
  {
    hide Rows;
    var texts1 := texts[fk := text];
    if k :| k in texts && e in Rows(w, k, texts[k]) {
      assert k in texts1 && e in Rows(w, k, texts1[k]);
    }
    if e in Rows(w, fk, text) {
      assert fk in texts1 && e in Rows(w, fk, texts1[fk]);
    }
    if k :| k in texts1 && e in Rows(w, k, texts1[k]) {
      assert k != fk ==> k in texts && e in Rows(w, k, texts[k]);
    }
  }

  /** A row that names `fk` belongs to no other live frame. */
  lemma NotMine(w: World, texts: Texts, fk: FrameKey, m: Mem, compress: bool, e: Entry)
    requires fk !in texts
    ensures !(Owned(w, texts, e) && (e in RowSet(Build(w, fk, m.proj, m.text, compress)) || e in Rows(w, fk, m.text)))
  {
    hide Rows, RowSet, Build;
    if k :| k in texts && e in Rows(w, k, texts[k]) {
      RowNames(w, k, texts[k], e);
      if e in Rows(w, fk, m.text) {
        RowNames(w, fk, m.text, e);
        NamesOne(e.key, k, fk);
      }
      if e in RowSet(Build(w, fk, m.proj, m.text, compress)) {
        BuiltNames(w, fk, m, compress, e);
        NamesOne(e.key, k, fk);
      }
    }
  }

  lemma BuiltNames(w: World, fk: FrameKey, m: Mem, compress: bool, e: Entry)
    requires e in RowSet(Build(w, fk, m.proj, m.text, compress))
    ensures Names(e.key, fk)
  {
    hide Build;
    BuiltRowsName(w, fk, m.proj, m.text, compress);
    var keys := KeysOf(Build(w, fk, m.proj, m.text, compress), e.table);
    assert AllName(keys, fk);
    var i :| 0 <= i < |keys| && keys[i] == e.key;
  }
}
