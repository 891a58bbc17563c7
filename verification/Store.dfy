/** The tables of one LMDB environment and the puts of one prepared frame. */
module Store {
  import opened Prelude
  import opened Utf8
  import opened Keys
  import FrameCodec

  /** What the parser projects a frame to; reals are carried as their binary64 bits. */
  datatype Proj = Proj(
    nAtoms: u32,
    species: seq<(Text, u32)>,
    formula: Text,
    energy: Option<F64>,
    hasForces: bool,
    fmax: Option<F64>,
    hasVelocities: bool,
    mass: Option<F64>,
    volume: Option<F64>,
    pbc: Option<Periodic>,
    meta: seq<Option<F64>>)

  /** The libraries the store is built on: zstd, the content hash, the CON parser and its packed arrays. */
  datatype World = World(
    zstd: FrameCodec.Zstd,
    Digest: Bytes -> Hash,
    Parse: Bytes -> Option<Proj>,
    Cook: Bytes -> Option<Bytes>)

  datatype TrajMeta = TrajMeta(frames: u32, source: string)

  datatype Store = Store(
    frames: map<FrameKey, Bytes>,
    hashByFrame: map<FrameKey, Hash>,
    frameByHash: map<Hash, FrameKey>,
    idx: set<Entry>,
    soa: map<FrameKey, Bytes>,
    meta: map<u64, TrajMeta>)

  const EMPTY: Store := Store(map[], map[], map[], {}, map[], map[])

  /** Everything one frame writes, derived outside the write transaction. */
  datatype Prepared = Prepared(
    fk: FrameKey,
    stored: Bytes,
    hash: Hash,
    natomsK: Bytes,
    symbolKeys: seq<Bytes>,
    elemCountKeys: seq<Bytes>,
    formulaK: seq<Bytes>,
    energyK: seq<Bytes>,
    fmaxK: seq<Bytes>,
    massK: seq<Bytes>,
    volumeK: seq<Bytes>,
    pbcK: seq<Bytes>,
    flagKeys: seq<Bytes>,
    metaKeys: seq<Bytes>)

  function OptKey(k: Option<Bytes>): (s: seq<Bytes>)
    ensures |s| <= 1
  {
    if k.Some? then [k.value] else []
  }

  function OptBin(x: Option<F64>, fk: FrameKey): (s: seq<Bytes>)
    ensures |s| <= 1
    ensures forall i :: 0 <= i < |s| ==> |s[i]| == 20 && Names(s[i], fk)
  {
    if x.Some? then OptKey(BinKey(x.value, fk)) else []
  }

  predicate AllName(keys: seq<Bytes>, fk: FrameKey) {
    forall i :: 0 <= i < |keys| ==> Names(keys[i], fk)
  }

  /** The symbols in order of first appearance, as the `seen` set leaves them. */
  function DistinctSymbols(species: seq<(Text, u32)>): (syms: seq<Text>)
  {
    if species == [] then []
    else
      var before := DistinctSymbols(species[..|species| - 1]);
      var sym := species[|species| - 1].0;
      if sym in before then before else before + [sym]
  }

  function SymbolKeys(syms: seq<Text>, fk: FrameKey): (ks: seq<Bytes>)
    ensures |ks| == |syms| && AllName(ks, fk)
    ensures forall i :: 0 <= i < |syms| ==> ks[i] == SymbolKey(syms[i], fk)
  {
    seq(|syms|, i requires 0 <= i < |syms| => SymbolKey(syms[i], fk))
  }

  function ElemCountKeys(species: seq<(Text, u32)>, fk: FrameKey): (ks: seq<Bytes>)
    ensures |ks| == |species| && AllName(ks, fk)
    ensures forall i :: 0 <= i < |species| ==> ks[i] == ElemCountKey(species[i].0, species[i].1, fk)
  {
    seq(|species|, i requires 0 <= i < |species| => ElemCountKey(species[i].0, species[i].1, fk))
  }

  function FlagKeys(p: Proj, fk: FrameKey): (ks: seq<Bytes>)
    ensures AllName(ks, fk)
    ensures forall i :: 0 <= i < |ks| ==> |ks[i]| == 13
  {
    (if p.energy.Some? then [FlagKey(FLAG_HAS_ENERGY, fk)] else []) +
    (if p.hasForces then [FlagKey(FLAG_HAS_FORCES, fk)] else []) +
    (if p.hasVelocities then [FlagKey(FLAG_HAS_VELOCITIES, fk)] else [])
  }

  /** Channel `i + 1` holds the `i`-th metadata scalar, skipped when absent or not finite. */
  function MetaKeys(meta: seq<Option<F64>>, fk: FrameKey): (ks: seq<Bytes>)
    ensures AllName(ks, fk)
    ensures forall i :: 0 <= i < |ks| ==> |ks[i]| == 21
  {
    if meta == [] then []
    else
      var n := |meta| - 1;
      MetaKeys(meta[..n], fk) +
      (if meta[n].Some? then OptKey(MetaKey((n + 1) % 0x100, meta[n].value, fk)) else [])
  }

  function Build(w: World, fk: FrameKey, p: Proj, text: Text, compress: bool): Prepared {
    Prepared(
      fk,
      FrameCodec.StoreFrame(w.zstd, text, compress),
      w.Digest(text),
      NatomsKey(p.nAtoms, fk),
      SymbolKeys(DistinctSymbols(p.species), fk),
      ElemCountKeys(p.species, fk),
      if p.formula == [] then [] else [FormulaKey(p.formula, fk)],
      OptBin(p.energy, fk),
      if p.hasForces then OptBin(p.fmax, fk) else [],
      OptBin(p.mass, fk),
      OptBin(p.volume, fk),
      if p.pbc.Some? then [PbcKey(MaskOf(p.pbc.value), fk)] else [],
      FlagKeys(p, fk),
      MetaKeys(p.meta, fk))
  }

  /** The tables in the order the puts visit them. */
  const TABLES: seq<Table> :=
    [Natoms, Symbol, ElemCount, Formula, Energy, Fmax, Mass, Volume, Pbc, Flags, Meta]

  function KeysOf(p: Prepared, t: Table): seq<Bytes> {
    match t
    case Natoms => [p.natomsK]
    case Symbol => p.symbolKeys
    case ElemCount => p.elemCountKeys
    case Formula => p.formulaK
    case Energy => p.energyK
    case Fmax => p.fmaxK
    case Mass => p.massK
    case Volume => p.volumeK
    case Pbc => p.pbcK
    case Flags => p.flagKeys
    case Meta => p.metaKeys
  }

  lemma SymbolRows(species: seq<(Text, u32)>, fk: FrameKey, key: Bytes)
    ensures key in SymbolKeys(DistinctSymbols(species), fk) <==>
      exists i :: 0 <= i < |species| && key == SymbolKey(species[i].0, fk)
  {
    hide SymbolKey, SymbolKeys, DistinctSymbols;
    var syms := DistinctSymbols(species);
    DistinctCovers(species);
    if key in SymbolKeys(syms, fk) {
      var i :| 0 <= i < |syms| && SymbolKeys(syms, fk)[i] == key;
      assert syms[i] in syms;
    }
    if i :| 0 <= i < |species| && key == SymbolKey(species[i].0, fk) {
      assert species[i].0 in syms;
      var j :| 0 <= j < |syms| && syms[j] == species[i].0;
      assert SymbolKeys(syms, fk)[j] == key;
    }
  }

  lemma {:induction false} DistinctCovers(species: seq<(Text, u32)>)
    ensures forall i :: 0 <= i < |species| ==> species[i].0 in DistinctSymbols(species)
    ensures forall sym <- DistinctSymbols(species) :: exists i :: 0 <= i < |species| && species[i].0 == sym
  {
    if species != [] {
      var n := |species| - 1;
      DistinctCovers(species[..n]);
      forall sym | sym in DistinctSymbols(species) ensures exists i :: 0 <= i < |species| && species[i].0 == sym {
        if sym in DistinctSymbols(species[..n]) {
          var i :| 0 <= i < n && species[..n][i].0 == sym;
          assert species[i].0 == sym;
        } else {
          assert species[n].0 == sym;
        }
      }
      forall i | 0 <= i < |species| ensures species[i].0 in DistinctSymbols(species) {
        if i < n {
          assert species[..n][i].0 in DistinctSymbols(species[..n]);
        }
      }
    }
  }

  lemma ElemCountRows(species: seq<(Text, u32)>, fk: FrameKey, key: Bytes)
    ensures key in ElemCountKeys(species, fk) <==>
      exists i :: 0 <= i < |species| && key == ElemCountKey(species[i].0, species[i].1, fk)
  {
    hide ElemCountKey, ElemCountKeys;
    var ks := ElemCountKeys(species, fk);
    if i :| 0 <= i < |species| && key == ElemCountKey(species[i].0, species[i].1, fk) {
      assert ks[i] == key;
    }
  }

  /** The keys of one table, from the projection alone. */
  function KeysFor(p: Proj, fk: FrameKey, t: Table): seq<Bytes> {
    match t
    case Natoms => [NatomsKey(p.nAtoms, fk)]
    case Symbol => SymbolKeys(DistinctSymbols(p.species), fk)
    case ElemCount => ElemCountKeys(p.species, fk)
    case Formula => if p.formula == [] then [] else [FormulaKey(p.formula, fk)]
    case Energy => OptBin(p.energy, fk)
    case Fmax => if p.hasForces then OptBin(p.fmax, fk) else []
    case Mass => OptBin(p.mass, fk)
    case Volume => OptBin(p.volume, fk)
    case Pbc => if p.pbc.Some? then [PbcKey(MaskOf(p.pbc.value), fk)] else []
    case Flags => FlagKeys(p, fk)
    case Meta => MetaKeys(p.meta, fk)
  }

  lemma BuiltKeys(w: World, fk: FrameKey, p: Proj, text: Text, t: Table)
    ensures KeysOf(Build(w, fk, p, text, false), t) == KeysFor(p, fk, t)
  {
    hide OptBin, NatomsKey, FormulaKey, FlagKeys, MetaKeys, PbcKey, MaskOf, SymbolKeys, ElemCountKeys, DistinctSymbols, FrameCodec.StoreFrame;
  }

  /** The index rows of one frame over all tables. */
  function RowSet(p: Prepared): (rows: set<Entry>)
    ensures forall e :: e in rows <==> e.key in KeysOf(p, e.table)
  {
    set t <- TABLES, k <- KeysOf(p, t) :: Entry(t, k)
  }

  predicate RowsName(p: Prepared, fk: FrameKey) {
    forall t :: AllName(KeysOf(p, t), fk)
  }

  lemma BuiltRowsName(w: World, fk: FrameKey, p: Proj, text: Text, compress: bool)
    ensures RowsName(Build(w, fk, p, text, compress), fk)
  {
    var b := Build(w, fk, p, text, compress);
    forall t ensures AllName(KeysOf(b, t), fk) {
      match t {
        case Formula =>
        case Energy =>
        case _ =>
      }
    }
  }

  // ---------------------------------------------------------------------
  // Puts
  // ---------------------------------------------------------------------

  /** The tables after one frame's puts; a digest that is already posted keeps its frame. */
  function Put(s: Store, p: Prepared): Store {
    s.(frames := s.frames[p.fk := p.stored],
       hashByFrame := s.hashByFrame[p.fk := p.hash],
       frameByHash := if p.hash in s.frameByHash then s.frameByHash else s.frameByHash[p.hash := p.fk],
       idx := s.idx + RowSet(p))
  }

  function PutAll(s: Store, ps: seq<Prepared>): Store {
    if ps == [] then s else Put(PutAll(s, ps[..|ps| - 1]), ps[|ps| - 1])
  }

  function PutMeta(s: Store, traj: u64, m: TrajMeta): Store {
    s.(meta := s.meta[traj := m])
  }

  lemma {:induction false} PutAllAppend(s: Store, a: seq<Prepared>, b: seq<Prepared>)
    ensures PutAll(s, a + b) == PutAll(PutAll(s, a), b)
  {
    hide Put;
    if b == [] {
      assert a + b == a;
    } else {
      var n := |b| - 1;
      PutAllAppend(s, a, b[..n]);
      assert (a + b)[..|a + b| - 1] == a + b[..n];
      assert (a + b)[|a + b| - 1] == b[n];
    }
  }

  /** The index of the first put with digest `h`, or the number of puts. */
  function FirstWith(ps: seq<Prepared>, h: Hash): (i: nat)
    ensures i <= |ps|
    ensures forall j :: 0 <= j < i ==> ps[j].hash != h
    ensures i < |ps| ==> ps[i].hash == h
  {
    if ps == [] then 0
    else
      var n := |ps| - 1;
      var before := FirstWith(ps[..n], h);
      if before < n then before else if ps[n].hash == h then n else |ps|
  }

  /** A digest keeps the frame it was posted to; a new digest is posted to the first frame inserted with it. */
  lemma {:induction false} PutAllPosts(s: Store, ps: seq<Prepared>, h: Hash)
    ensures var posts, i := PutAll(s, ps).frameByHash, FirstWith(ps, h);
      && (h in posts <==> h in s.frameByHash || i < |ps|)
      && (h in s.frameByHash ==> posts[h] == s.frameByHash[h])
      && (h !in s.frameByHash && i < |ps| ==> posts[h] == ps[i].fk)
  {
    hide RowSet;
    if ps != [] {
      PutAllPosts(s, ps[..|ps| - 1], h);
    }
  }

  /** Trajectory metadata and frame records live in different tables, so their puts commute. */
  lemma {:induction false} PutAllMeta(s: Store, ps: seq<Prepared>, traj: u64, m: TrajMeta)
    ensures PutAll(PutMeta(s, traj, m), ps) == PutMeta(PutAll(s, ps), traj, m)
  {
    hide RowSet;
    if ps != [] {
      PutAllMeta(s, ps[..|ps| - 1], traj, m);
    }
  }

  lemma {:induction false} PutAllSoa(s: Store, ps: seq<Prepared>)
    ensures PutAll(s, ps).soa == s.soa && PutAll(s, ps).meta == s.meta
  {
    hide RowSet;
    if ps != [] {
      PutAllSoa(s, ps[..|ps| - 1]);
    }
  }
}
