/** `select`: filters answered by index scans, intersected, sorted and cut off. */
module Query {
  import opened Prelude
  import opened Utf8
  import opened Keys
  import opened KeyOrder
  import opened F64Order
  import opened Store
  import opened Corpus
  import opened Scan
  import FC = FrameCodec

  datatype Range = Range(lo: Option<F64>, hi: Option<F64>) {
    predicate Given() {
      lo.Some? || hi.Some?
    }
  }

  datatype Select = Select(
    contentHash: Option<Hash>,
    traj: Option<u64>,
    natomsMin: Option<u32>,
    natomsMax: Option<u32>,
    symbolsAll: seq<Text>,
    formula: Option<Text>,
    countExact: seq<(Text, u32)>,
    countMin: seq<(Text, u32)>,
    energy: Range,
    fmax: Range,
    mass: Range,
    volume: Range,
    pbc: Option<Periodic>,
    meta: seq<Range>,
    forces: bool,
    velocities: bool,
    hasEnergy: bool,
    limit: Option<nat>)

  /** The scalars with a range table of their own. */
  datatype Scalar = ByEnergy | ByFmax | ByMass | ByVolume

  /** One requested restriction, in the form its scan takes. */
  datatype Filter =
    | DigestIs(h: Hash)
    | NatomsIn(lo: u32, hi: u32)
    | HasSymbol(sym: Text)
    | FormulaIs(formula: Text)
    | CountIn(sym: Text, lo: u32, hi: u32)
    | Banded(of: Scalar, least: F64, most: F64)
    | PbcIs(mask: byte)
    | MetaIn(channel: byte, least: F64, most: F64)
    | Flagged(flag: byte)

  function Or<T>(x: Option<T>, other: T): T {
    if x.Some? then x.value else other
  }

  function OptFilter(given: bool, f: Filter): seq<Filter> {
    if given then [f] else []
  }

  function MetaFilters(meta: seq<Range>): seq<Filter>
    requires |meta| <= 7
  {
    if meta == [] then []
    else
      var n := |meta| - 1;
      MetaFilters(meta[..n]) +
      OptFilter(meta[n].Given(), MetaIn(n + 1, Or(meta[n].lo, NEG_INF), Or(meta[n].hi, POS_INF)))
  }

  /** The restrictions of a query in the order the scans run; an absent fmax bound starts at zero. */
  function Segments(q: Select): (parts: seq<seq<Filter>>)
    requires |q.meta| <= 7
    ensures |parts| == 15
  {
    [if q.contentHash.Some? then [DigestIs(q.contentHash.value)] else [],
     OptFilter(q.natomsMin.Some? || q.natomsMax.Some?, NatomsIn(Or(q.natomsMin, 0), Or(q.natomsMax, U32_MAX))),
     seq(|q.symbolsAll|, i requires 0 <= i < |q.symbolsAll| => HasSymbol(q.symbolsAll[i])),
     OptFilter(q.formula.Some?, FormulaIs(Or(q.formula, []))),
     seq(|q.countExact|, i requires 0 <= i < |q.countExact| =>
       CountIn(q.countExact[i].0, q.countExact[i].1, q.countExact[i].1)),
     seq(|q.countMin|, i requires 0 <= i < |q.countMin| => CountIn(q.countMin[i].0, q.countMin[i].1, U32_MAX)),
     OptFilter(q.energy.Given(), Banded(ByEnergy, Or(q.energy.lo, NEG_INF), Or(q.energy.hi, POS_INF))),
     OptFilter(q.fmax.Given(), Banded(ByFmax, Or(q.fmax.lo, 0), Or(q.fmax.hi, POS_INF))),
     OptFilter(q.mass.Given(), Banded(ByMass, Or(q.mass.lo, NEG_INF), Or(q.mass.hi, POS_INF))),
     OptFilter(q.volume.Given(), Banded(ByVolume, Or(q.volume.lo, NEG_INF), Or(q.volume.hi, POS_INF))),
     OptFilter(q.pbc.Some?, PbcIs(MaskOf(Or(q.pbc, (false, false, false))))),
     MetaFilters(q.meta),
     OptFilter(q.forces, Flagged(FLAG_HAS_FORCES)),
     OptFilter(q.velocities, Flagged(FLAG_HAS_VELOCITIES)),
     OptFilter(q.hasEnergy, Flagged(FLAG_HAS_ENERGY))]
  }

  function Filters(q: Select): seq<Filter>
    requires |q.meta| <= 7
  {
    Flatten(Segments(q))
  }

  // ---------------------------------------------------------------------
  // What a filter asks of a frame
  // ---------------------------------------------------------------------

  function ScalarOf(p: Proj, of: Scalar): Option<F64> {
    match of
    case ByEnergy => p.energy
    case ByFmax => if p.hasForces then p.fmax else None
    case ByMass => p.mass
    case ByVolume => p.volume
  }

  predicate InBand(x: Option<F64>, lo: F64, hi: F64) {
    x.Some? && Finite(x.value) && Scanned(lo, hi, x.value)
  }

  /** The filter read off the projection of a frame's text. */
  predicate Meets(f: Filter, p: Proj) {
    match f
    case DigestIs(_) => true
    case NatomsIn(lo, hi) => lo <= p.nAtoms <= hi
    case HasSymbol(sym) => exists i :: 0 <= i < |p.species| && p.species[i].0 == sym
    case FormulaIs(formula) => formula != [] && p.formula == formula
    case CountIn(sym, lo, hi) => exists i :: 0 <= i < |p.species| && p.species[i].0 == sym && lo <= p.species[i].1 <= hi
    case Banded(of, lo, hi) => InBand(ScalarOf(p, of), lo, hi)
    case PbcIs(mask) => p.pbc.Some? && MaskOf(p.pbc.value) == mask
    case MetaIn(channel, lo, hi) => exists i :: 0 <= i < |p.meta| && (i + 1) % 0x100 == channel && InBand(p.meta[i], lo, hi)
    case Flagged(flag) =>
      || (flag == FLAG_HAS_FORCES && p.hasForces)
      || (flag == FLAG_HAS_VELOCITIES && p.hasVelocities)
      || (flag == FLAG_HAS_ENERGY && p.energy.Some?)
  }

  /** A digest filter keeps the posted frame only; every other filter looks at the text. */
  predicate Passes(w: World, posts: map<Hash, FrameKey>, f: Filter, fk: FrameKey, text: Text) {
    && (f.DigestIs? ==> f.h in posts && posts[f.h] == fk)
    && w.Parse(text).Some? && Meets(f, w.Parse(text).value)
  }

  // ---------------------------------------------------------------------
  // From rows to frames
  // ---------------------------------------------------------------------

  /** The row `key` of table `t` belongs to live frame `fk`. */
  ghost predicate OwnedBy(w: World, texts: Texts, t: Table, key: Bytes, fk: FrameKey) {
    fk in texts && w.Parse(texts[fk]).Some? && key in KeysFor(w.Parse(texts[fk]).value, fk, t)
  }

  lemma RowsAre(w: World, fk: FrameKey, text: Text, e: Entry)
    ensures e in Rows(w, fk, text) <==> w.Parse(text).Some? && e.key in KeysFor(w.Parse(text).value, fk, e.table)
  {
    hide Build, KeysOf, KeysFor;
    if w.Parse(text).Some? {
      BuiltKeys(w, fk, w.Parse(text).value, text, e.table);
    }
  }

  lemma RowOwner(w: World, idx: set<Entry>, texts: Texts, t: Table, key: Bytes)
    requires Indexed(w, idx, texts)
    ensures Entry(t, key) in idx <==> exists fk :: OwnedBy(w, texts, t, key, fk)
  {
    hide Rows, KeysFor;
    var e := Entry(t, key);
    if e in idx {
      var fk :| fk in texts && e in Rows(w, fk, texts[fk]);
      RowsAre(w, fk, texts[fk], e);
      assert OwnedBy(w, texts, t, key, fk);
    }
    if fk :| OwnedBy(w, texts, t, key, fk) {
      RowsAre(w, fk, texts[fk], e);
      assert Owned(w, texts, e);
    }
  }

  /** The cursor of table `t`: its rows in byte order. */
  ghost predicate Cursor(idx: set<Entry>, t: Table, rows: seq<Bytes>) {
    LexSorted(rows) && forall k :: k in rows <==> Entry(t, k) in idx
  }

  lemma CursorOwner(w: World, idx: set<Entry>, texts: Texts, t: Table, rows: seq<Bytes>, key: Bytes)
    requires Indexed(w, idx, texts) && Cursor(idx, t, rows)
    ensures key in rows <==> exists fk :: OwnedBy(w, texts, t, key, fk)
  {
    hide Indexed, OwnedBy, LexSorted;
    RowOwner(w, idx, texts, t, key);
  }

  /** A live frame's own row is under the cursor. */
  lemma OwnRow(w: World, idx: set<Entry>, texts: Texts, t: Table, rows: seq<Bytes>, key: Bytes, fk: FrameKey) returns (i: nat)
    requires Indexed(w, idx, texts) && Cursor(idx, t, rows) && OwnedBy(w, texts, t, key, fk)
    ensures i < |rows| && rows[i] == key
  {
    hide Indexed, OwnedBy, LexSorted;
    CursorOwner(w, idx, texts, t, rows, key);
    i :| 0 <= i < |rows| && rows[i] == key;
  }

  /** Every row under the cursor is a live frame's own. */
  lemma RowOf(w: World, idx: set<Entry>, texts: Texts, t: Table, rows: seq<Bytes>, i: nat) returns (fk: FrameKey)
    requires Indexed(w, idx, texts) && Cursor(idx, t, rows) && i < |rows|
    ensures OwnedBy(w, texts, t, rows[i], fk)
  {
    hide Indexed, OwnedBy, LexSorted;
    CursorOwner(w, idx, texts, t, rows, rows[i]);
    fk :| OwnedBy(w, texts, t, rows[i], fk);
  }

  ghost predicate RangeFound(rows: seq<Bytes>, width: nat, lo: nat, hi: nat, fk: FrameKey) {
    exists i :: 0 <= i < |rows| && RangeHit(rows[i], width, lo, hi, fk)
  }

  ghost predicate PrefixFound(rows: seq<Bytes>, pref: Bytes, fk: FrameKey) {
    exists i :: 0 <= i < |rows| && PrefixHit(rows[i], pref, fk)
  }

  ghost predicate CountFound(rows: seq<Bytes>, sym: Text, lo: nat, hi: nat, fk: FrameKey) {
    exists i :: 0 <= i < |rows| && CountHit(rows[i], sym, lo, hi, fk)
  }

  ghost predicate MetaFound(rows: seq<Bytes>, channel: byte, lo: nat, hi: nat, fk: FrameKey) {
    exists i :: 0 <= i < |rows| && MetaHit(rows[i], channel, lo, hi, fk)
  }

  ghost predicate Satisfies(w: World, texts: Texts, f: Filter, fk: FrameKey) {
    fk in texts && w.Parse(texts[fk]).Some? && Meets(f, w.Parse(texts[fk]).value)
  }

  lemma NatomsHits(w: World, idx: set<Entry>, texts: Texts, rows: seq<Bytes>, lo: u32, hi: u32, fk: FrameKey)
    requires Indexed(w, idx, texts) && Cursor(idx, Natoms, rows)
    ensures RangeFound(rows, 4, lo, hi, fk) <==> Satisfies(w, texts, NatomsIn(lo, hi), fk)
  {
    hide Indexed, Cursor, NumberOf, KeyAfter;
    Pow256Values();
    if i: nat :| i < |rows| && RangeHit(rows[i], 4, lo, hi, fk) {
      var g := RowOf(w, idx, texts, Natoms, rows, i);
      NumberedParses(w.Parse(texts[g]).value.nAtoms, 4, g);
    }
    if Satisfies(w, texts, NatomsIn(lo, hi), fk) {
      var n := w.Parse(texts[fk]).value.nAtoms;
      NumberedParses(n, 4, fk);
      var i := OwnRow(w, idx, texts, Natoms, rows, NatomsKey(n, fk), fk);
      assert RangeHit(rows[i], 4, lo, hi, fk);
    }
  }

  function TableOf(of: Scalar): Table {
    match of
    case ByEnergy => Energy
    case ByFmax => Fmax
    case ByMass => Mass
    case ByVolume => Volume
  }

  lemma BandKeys(p: Proj, fk: FrameKey, of: Scalar)
    ensures KeysFor(p, fk, TableOf(of)) == OptBin(ScalarOf(p, of), fk)
  {
    hide BinKey;
  }

  lemma BinKeyParses(x: F64, fk: FrameKey)
    ensures BinKey(x, fk).Some? <==> Finite(x)
    ensures Finite(x) ==>
      var k := BinKey(x, fk).value;
      |k| == 20 && NumberOf(k, 8) == OrderedBits(x).value && KeyAfter(k, 8) == Some(fk)
  {
    hide NumberOf, KeyAfter;
    Pow256Values();
    if Finite(x) {
      NumberedParses(OrderedBits(x).value, 8, fk);
    }
  }

  lemma BandHits(w: World, idx: set<Entry>, texts: Texts, of: Scalar, rows: seq<Bytes>, lo: F64, hi: F64, fk: FrameKey)
    requires Indexed(w, idx, texts) && Cursor(idx, TableOf(of), rows)
    ensures RangeFound(rows, 8, LowBits(lo), HighBits(hi), fk) <==> Satisfies(w, texts, Banded(of, lo, hi), fk)
  {
    hide Indexed, Cursor, NumberOf, KeyAfter, KeysFor, ScalarOf, TableOf, BinKey, LowBits, HighBits, OrderedBits, Finite;
    if i: nat :| i < |rows| && RangeHit(rows[i], 8, LowBits(lo), HighBits(hi), fk) {
      var g := RowOf(w, idx, texts, TableOf(of), rows, i);
      var p := w.Parse(texts[g]).value;
      BandKeys(p, g, of);
      BinKeyParses(ScalarOf(p, of).value, g);
    }
    if Satisfies(w, texts, Banded(of, lo, hi), fk) {
      var p := w.Parse(texts[fk]).value;
      BandKeys(p, fk, of);
      BinKeyParses(ScalarOf(p, of).value, fk);
      var i := OwnRow(w, idx, texts, TableOf(of), rows, BinKey(ScalarOf(p, of).value, fk).value, fk);
      assert RangeHit(rows[i], 8, LowBits(lo), HighBits(hi), fk);
    }
  }

  lemma NamedParses(pref: Bytes, fk: FrameKey)
    ensures PrefixHit(Suffixed(pref, fk), pref, fk)
    ensures forall g :: FrameKeyFromBytes(Suffixed(pref, fk)[|Suffixed(pref, fk)| - 12..]) == Some(g) ==> g == fk
  {
    hide FrameKeyFromBytes, FrameKeyBytes;
    FrameKeyRoundTrip(fk);
    var k := Suffixed(pref, fk);
    assert k[|k| - 12..] == FrameKeyBytes(fk);
  }

  /** A text key answers a prefix scan for its own text only, with its own frame. */
  lemma TextKeyHit(text: Text, g: FrameKey, asked: Text, fk: FrameKey)
    ensures PrefixHit(Suffixed(TextPrefix(text), g), TextPrefix(asked), fk) <==> asked == text && fk == g
  {
    hide FrameKeyFromBytes, FrameKeyBytes;
    NamedParses(TextPrefix(text), g);
    if PrefixHit(Suffixed(TextPrefix(text), g), TextPrefix(asked), fk) {
      PrefixMatchesOnlyEqual(asked, text, FrameKeyBytes(g));
    }
  }

  lemma SymbolKeyed(p: Proj, g: FrameKey, key: Bytes)
    ensures key in KeysFor(p, g, Symbol) <==>
      exists j :: 0 <= j < |p.species| && key == Suffixed(TextPrefix(p.species[j].0), g)
  {
    hide SymbolKeys, DistinctSymbols, Suffixed, TextPrefix;
    SymbolRows(p.species, g, key);
  }

  lemma SymbolHits(w: World, idx: set<Entry>, texts: Texts, rows: seq<Bytes>, sym: Text, fk: FrameKey)
    requires Indexed(w, idx, texts) && Cursor(idx, Symbol, rows)
    ensures PrefixFound(rows, TextPrefix(sym), fk) <==> Satisfies(w, texts, HasSymbol(sym), fk)
  {
    hide Indexed, Cursor, Suffixed, PrefixHit, TextPrefix, KeysFor;
    if i: nat :| i < |rows| && PrefixHit(rows[i], TextPrefix(sym), fk) {
      var g := RowOf(w, idx, texts, Symbol, rows, i);
      var p := w.Parse(texts[g]).value;
      SymbolKeyed(p, g, rows[i]);
      var j :| 0 <= j < |p.species| && rows[i] == Suffixed(TextPrefix(p.species[j].0), g);
      TextKeyHit(p.species[j].0, g, sym, fk);
    }
    if Satisfies(w, texts, HasSymbol(sym), fk) {
      SymbolKeyed(w.Parse(texts[fk]).value, fk, Suffixed(TextPrefix(sym), fk));
      TextKeyHit(sym, fk, sym, fk);
      var i := OwnRow(w, idx, texts, Symbol, rows, Suffixed(TextPrefix(sym), fk), fk);
      assert PrefixHit(rows[i], TextPrefix(sym), fk);
    }
  }

  lemma FormulaHits(w: World, idx: set<Entry>, texts: Texts, rows: seq<Bytes>, formula: Text, fk: FrameKey)
    requires Indexed(w, idx, texts) && Cursor(idx, Formula, rows)
    ensures PrefixFound(rows, TextPrefix(formula), fk) <==> Satisfies(w, texts, FormulaIs(formula), fk)
  {
    hide Indexed, Cursor, PrefixHit, Suffixed, TextPrefix;
    if i: nat :| i < |rows| && PrefixHit(rows[i], TextPrefix(formula), fk) {
      var g := RowOf(w, idx, texts, Formula, rows, i);
      TextKeyHit(w.Parse(texts[g]).value.formula, g, formula, fk);
    }
    if Satisfies(w, texts, FormulaIs(formula), fk) {
      TextKeyHit(formula, fk, formula, fk);
      var i := OwnRow(w, idx, texts, Formula, rows, Suffixed(TextPrefix(formula), fk), fk);
      assert PrefixHit(rows[i], TextPrefix(formula), fk);
    }
  }

  lemma CountHits(w: World, idx: set<Entry>, texts: Texts, rows: seq<Bytes>, sym: Text, lo: u32, hi: u32, fk: FrameKey)
    requires Indexed(w, idx, texts) && Cursor(idx, ElemCount, rows)
    ensures CountFound(rows, sym, lo, hi, fk) <==> Satisfies(w, texts, CountIn(sym, lo, hi), fk)
  {
    hide Indexed, Cursor, ParseElemCount, ElemCountKey, ElemCountKeys;
    if i: nat :| i < |rows| && CountHit(rows[i], sym, lo, hi, fk) {
      var g := RowOf(w, idx, texts, ElemCount, rows, i);
      var p := w.Parse(texts[g]).value;
      ElemCountRows(p.species, g, rows[i]);
      var j :| 0 <= j < |p.species| && rows[i] == ElemCountKey(p.species[j].0, p.species[j].1, g);
      ElemCountOnly(p.species[j].0, p.species[j].1, g, sym);
    }
    if Satisfies(w, texts, CountIn(sym, lo, hi), fk) {
      var p := w.Parse(texts[fk]).value;
      var j :| 0 <= j < |p.species| && p.species[j].0 == sym && lo <= p.species[j].1 <= hi;
      ElemCountParses(sym, p.species[j].1, fk);
      ElemCountRows(p.species, fk, ElemCountKey(sym, p.species[j].1, fk));
      var i := OwnRow(w, idx, texts, ElemCount, rows, ElemCountKey(sym, p.species[j].1, fk), fk);
      assert CountHit(rows[i], sym, lo, hi, fk);
    }
  }

  /** A count row answers for its own symbol only. */
  lemma ElemCountOnly(symbol: Text, count: u32, fk: FrameKey, sym: Text)
    ensures var r := ParseElemCount(ElemCountKey(symbol, count, fk), sym);
      r.Some? ==> sym == symbol && r.value == (count, fk)
  {
    hide FrameKeyFromBytes, FrameKeyBytes;
    if ParseElemCount(ElemCountKey(symbol, count, fk), sym).Some? {
      var rest := BigEndian(count, 4) + FrameKeyBytes(fk);
      assert ElemCountKey(symbol, count, fk) == TextPrefix(symbol) + rest;
      PrefixMatchesOnlyEqual(sym, symbol, rest);
      ElemCountParses(symbol, count, fk);
    }
  }

  lemma PbcHits(w: World, idx: set<Entry>, texts: Texts, rows: seq<Bytes>, mask: byte, fk: FrameKey)
    requires Indexed(w, idx, texts) && Cursor(idx, Pbc, rows)
    ensures PrefixFound(rows, [mask], fk) <==> Satisfies(w, texts, PbcIs(mask), fk)
  {
    hide Indexed, Cursor, FrameKeyFromBytes, FrameKeyBytes;
    if i: nat :| i < |rows| && PrefixHit(rows[i], [mask], fk) {
      var g := RowOf(w, idx, texts, Pbc, rows, i);
      var p := w.Parse(texts[g]).value;
      MaskBits(p.pbc.value);
      assert rows[i] == Suffixed([MaskOf(p.pbc.value)], g);
      NamedParses([MaskOf(p.pbc.value)], g);
      assert rows[i][0] == MaskOf(p.pbc.value);
    }
    if Satisfies(w, texts, PbcIs(mask), fk) {
      MaskBits(w.Parse(texts[fk]).value.pbc.value);
      NamedParses([mask], fk);
      var i := OwnRow(w, idx, texts, Pbc, rows, PbcKey(mask, fk), fk);
      assert PrefixHit(rows[i], [mask], fk);
    }
  }

  lemma FlagHits(w: World, idx: set<Entry>, texts: Texts, rows: seq<Bytes>, flag: byte, fk: FrameKey)
    requires Indexed(w, idx, texts) && Cursor(idx, Flags, rows)
    ensures PrefixFound(rows, [flag], fk) <==> Satisfies(w, texts, Flagged(flag), fk)
  {
    hide Indexed, Cursor, FrameKeyFromBytes, FrameKeyBytes;
    if i: nat :| i < |rows| && PrefixHit(rows[i], [flag], fk) {
      var g := RowOf(w, idx, texts, Flags, rows, i);
      var p := w.Parse(texts[g]).value;
      FlagRows(p, g, rows[i]);
      var b: byte :| rows[i] == FlagKey(b, g) && Meets(Flagged(b), p);
      NamedParses([b], g);
      assert rows[i][0] == b;
    }
    if Satisfies(w, texts, Flagged(flag), fk) {
      NamedParses([flag], fk);
      FlagRows(w.Parse(texts[fk]).value, fk, FlagKey(flag, fk));
      var i := OwnRow(w, idx, texts, Flags, rows, FlagKey(flag, fk), fk);
      assert PrefixHit(rows[i], [flag], fk);
    }
  }

  lemma FlagRows(p: Proj, fk: FrameKey, key: Bytes)
    ensures key in FlagKeys(p, fk) <==> exists b: byte :: key == FlagKey(b, fk) && Meets(Flagged(b), p)
  {
    hide FlagKey;
  }

  lemma MetaHits(w: World, idx: set<Entry>, texts: Texts, rows: seq<Bytes>, channel: byte, lo: F64, hi: F64, fk: FrameKey)
    requires Indexed(w, idx, texts) && Cursor(idx, Meta, rows)
    ensures MetaFound(rows, channel, LowBits(lo), HighBits(hi), fk) <==> Satisfies(w, texts, MetaIn(channel, lo, hi), fk)
  {
    hide Indexed, Cursor, MetaHit, Satisfies, LowBits, HighBits;
    if i: nat :| i < |rows| && MetaHit(rows[i], channel, LowBits(lo), HighBits(hi), fk) {
      MetaHitMeans(w, idx, texts, rows, channel, lo, hi, fk, i);
    }
    if Satisfies(w, texts, MetaIn(channel, lo, hi), fk) {
      var i := MetaRowHit(w, idx, texts, rows, channel, lo, hi, fk);
    }
  }

  lemma MetaHitMeans(w: World, idx: set<Entry>, texts: Texts, rows: seq<Bytes>, channel: byte, lo: F64, hi: F64, fk: FrameKey, i: nat)
    requires Indexed(w, idx, texts) && Cursor(idx, Meta, rows)
    requires i < |rows| && MetaHit(rows[i], channel, LowBits(lo), HighBits(hi), fk)
    ensures Satisfies(w, texts, MetaIn(channel, lo, hi), fk)
  {
    hide Indexed, Cursor, MetaKeys, MetaKey, FrameKeyFromBytes, LowBits, HighBits, OrderedBits, Finite, FromBigEndian;
    var g := RowOf(w, idx, texts, Meta, rows, i);
    var p := w.Parse(texts[g]).value;
    MetaRows(p.meta, g, rows[i]);
    var j :| 0 <= j < |p.meta| && MetaRow(p.meta, j, g, rows[i]);
    MetaKeyParses((j + 1) % 0x100, p.meta[j].value, g);
  }

  lemma MetaRowHit(w: World, idx: set<Entry>, texts: Texts, rows: seq<Bytes>, channel: byte, lo: F64, hi: F64, fk: FrameKey) returns (i: nat)
    requires Indexed(w, idx, texts) && Cursor(idx, Meta, rows)
    requires Satisfies(w, texts, MetaIn(channel, lo, hi), fk)
    ensures i < |rows| && MetaHit(rows[i], channel, LowBits(lo), HighBits(hi), fk)
  {
    hide Indexed, Cursor, MetaKeys, MetaKey, FrameKeyFromBytes, LowBits, HighBits, OrderedBits, Finite, FromBigEndian;
    var p := w.Parse(texts[fk]).value;
    var j :| 0 <= j < |p.meta| && (j + 1) % 0x100 == channel && InBand(p.meta[j], lo, hi);
    MetaKeyParses(channel, p.meta[j].value, fk);
    var key := MetaKey(channel, p.meta[j].value, fk).value;
    assert MetaRow(p.meta, j, fk, key);
    MetaRows(p.meta, fk, key);
    i := OwnRow(w, idx, texts, Meta, rows, key, fk);
  }

  predicate MetaRow(meta: seq<Option<F64>>, j: nat, fk: FrameKey, key: Bytes)
    requires j < |meta|
  {
    meta[j].Some? && MetaKey((j + 1) % 0x100, meta[j].value, fk) == Some(key)
  }

  lemma {:induction false} MetaRows(meta: seq<Option<F64>>, fk: FrameKey, key: Bytes)
    ensures key in MetaKeys(meta, fk) <==> exists j :: 0 <= j < |meta| && MetaRow(meta, j, fk, key)
  {
    hide MetaKey;
    if meta != [] {
      var n := |meta| - 1;
      MetaRows(meta[..n], fk, key);
      if j :| 0 <= j < n && MetaRow(meta[..n], j, fk, key) {
        assert MetaRow(meta, j, fk, key);
      }
      if j :| 0 <= j < |meta| && MetaRow(meta, j, fk, key) {
        assert j < n ==> MetaRow(meta[..n], j, fk, key);
      }
      if MetaRow(meta, n, fk, key) {
        assert OptKey(Some(key))[0] == key;
      }
    }
  }

  lemma MetaKeyParses(channel: byte, x: F64, fk: FrameKey)
    ensures MetaKey(channel, x, fk).Some? <==> Finite(x)
    ensures Finite(x) ==>
      var k := MetaKey(channel, x, fk).value;
      |k| == 21 && k[0] == channel && FromBigEndian(k[1..9]) == OrderedBits(x).value && FrameKeyFromBytes(k[9..21]) == Some(fk)
  {
    hide FrameKeyFromBytes, FrameKeyBytes;
    Pow256Values();
    if Finite(x) {
      var k := MetaKey(channel, x, fk).value;
      BigEndianRoundTrip(OrderedBits(x).value, 8);
      FrameKeyRoundTrip(fk);
      assert k[1..9] == BigEndian(OrderedBits(x).value, 8);
      assert k[9..21] == FrameKeyBytes(fk);
    }
  }
}
