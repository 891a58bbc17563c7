/** One LMDB environment: its write transactions and the operations that change it. */
module Environment {
  import opened Prelude
  import opened Utf8
  import opened Keys
  import opened KeyOrder
  import opened Store
  import opened Ingest
  import opened Corpus
  import opened CorpusGrow
  import opened CorpusRewrite
  import opened CorpusRebuild
  import FC = FrameCodec

  /** An open write transaction: its own copy of the tables, installed by the commit or dropped. */
  class Txn {
    var frames: map<FrameKey, Bytes>
    var hashByFrame: map<FrameKey, Hash>
    var frameByHash: map<Hash, FrameKey>
    var idx: set<Entry>
    var soa: map<FrameKey, Bytes>
    var meta: map<u64, TrajMeta>

    function Tables(): Store
      reads this
    {
      Store(frames, hashByFrame, frameByHash, idx, soa, meta)
    }

    constructor (s: Store)
      ensures Tables() == s
    {
      frames, hashByFrame, frameByHash := s.frames, s.hashByFrame, s.frameByHash;
      idx, soa, meta := s.idx, s.soa, s.meta;
    }

    method PutKeys(t: Table, keys: seq<Bytes>)
      modifies this`idx
      ensures forall e :: e in idx <==> e in old(idx) || (e.table == t && e.key in keys)
    {
      for i := 0 to |keys|
        invariant forall e :: e in idx <==> e in old(idx) || (e.table == t && e.key in keys[..i])
      {
        idx := idx + {Entry(t, keys[i])};
      }
    }

    method DeleteKeys(t: Table, keys: seq<Bytes>)
      modifies this`idx
      ensures forall e :: e in idx <==> e in old(idx) && !(e.table == t && e.key in keys)
    {
      for i := 0 to |keys|
        invariant forall e :: e in idx <==> e in old(idx) && !(e.table == t && e.key in keys[..i])
      {
        idx := idx - {Entry(t, keys[i])};
      }
    }

    method PutRows(p: Prepared)
      modifies this`idx
      ensures idx == old(idx) + RowSet(p)
    {
      hide KeysOf;
      for t := 0 to |TABLES|
        invariant forall e :: e in idx <==> e in old(idx) || (e.table in TABLES[..t] && e.key in KeysOf(p, e.table))
      {
        PutKeys(TABLES[t], KeysOf(p, TABLES[t]));
      }
      AllTables();
      assert idx == old(idx) + RowSet(p);
    }

    method DeleteRows(p: Prepared)
      modifies this`idx
      ensures idx == old(idx) - RowSet(p)
    {
      hide KeysOf;
      for t := 0 to |TABLES|
        invariant forall e :: e in idx <==> e in old(idx) && !(e.table in TABLES[..t] && e.key in KeysOf(p, e.table))
      {
        DeleteKeys(TABLES[t], KeysOf(p, TABLES[t]));
      }
      AllTables();
      assert idx == old(idx) - RowSet(p);
    }

    /** `put_index_puts`: the index rows go in one table after the other. */
    method PutIndexPuts(p: Prepared)
      modifies this
      ensures Tables() == Put(old(Tables()), p)
    {
      hide RowSet;
      frames := frames[p.fk := p.stored];
      hashByFrame := hashByFrame[p.fk := p.hash];
      if p.hash !in frameByHash {
        frameByHash := frameByHash[p.hash := p.fk];
      }
      PutRows(p);
    }

    /** `delete_index_puts`: the digest posting stays, and is reported when it named this frame. */
    method DeleteIndexPuts(p: Prepared) returns (stale: Option<Hash>)
      modifies this
      ensures Tables() == Delete(old(Tables()), p)
      ensures stale == StaleOf(old(Tables()), p)
    {
      hide RowSet;
      stale := if p.hash in frameByHash && frameByHash[p.hash] == p.fk then Some(p.hash) else None;
      frames, hashByFrame, soa := frames - {p.fk}, hashByFrame - {p.fk}, soa - {p.fk};
      DeleteRows(p);
    }

    method PutOne(t: Table, key: Bytes)
      modifies this`idx
      ensures idx == old(idx) + {Entry(t, key)}
    {
      idx := idx + {Entry(t, key)};
    }

    method PutSome(t: Table, key: Option<Bytes>)
      modifies this`idx
      ensures idx == old(idx) + if key.Some? then {Entry(t, key.value)} else {}
    {
      if key.Some? {
        idx := idx + {Entry(t, key.value)};
      }
    }

    /** The per-species puts of `reindex`, repeated symbols included. */
    method IndexSpecies(species: seq<(Text, u32)>, fk: FrameKey)
      modifies this`idx
      ensures forall e :: e in idx <==> e in old(idx) || SpeciesRow(species, fk, e)
    {
      for i := 0 to |species|
        invariant forall e :: e in idx <==> e in old(idx) || SpeciesRow(species[..i], fk, e)
      {
        ghost var before := idx;
        PutOne(ElemCount, ElemCountKey(species[i].0, species[i].1, fk));
        PutOne(Symbol, SymbolKey(species[i].0, fk));
        SpeciesSnoc(species, fk, i);
      }
      assert species[..|species|] == species;
    }

    method IndexMeta(meta: seq<Option<F64>>, fk: FrameKey)
      modifies this`idx
      ensures forall e :: e in idx <==> e in old(idx) || (e.table == Meta && e.key in MetaKeys(meta, fk))
    {
      for i := 0 to |meta|
        invariant forall e :: e in idx <==> e in old(idx) || (e.table == Meta && e.key in MetaKeys(meta[..i], fk))
      {
        assert meta[..i + 1][..i] == meta[..i];
        if meta[i].Some? {
          PutSome(Meta, MetaKey((i + 1) % 0x100, meta[i].value, fk));
        }
      }
      assert meta[..|meta|] == meta;
    }

    method IndexFlags(p: Proj, fk: FrameKey)
      modifies this`idx
      ensures forall e :: e in idx <==> (
        || e in old(idx)
        || (e.table == Flags && e.key in FlagKeys(p, fk))
        || (e.table == Energy && e.key in OptBin(p.energy, fk))
        || (e.table == Fmax && p.hasForces && e.key in OptBin(p.fmax, fk)))
    {
      if p.energy.Some? {
        PutSome(Energy, BinKey(p.energy.value, fk));
        PutOne(Flags, FlagKey(FLAG_HAS_ENERGY, fk));
      }
      if p.hasForces {
        PutOne(Flags, FlagKey(FLAG_HAS_FORCES, fk));
        if p.fmax.Some? {
          PutSome(Fmax, BinKey(p.fmax.value, fk));
        }
      }
      if p.hasVelocities {
        PutOne(Flags, FlagKey(FLAG_HAS_VELOCITIES, fk));
      }
    }

    /** The index puts of `reindex`, derived field by field, are the rows that ingest derives. */
    method IndexFrame(w: World, fk: FrameKey, text: Text, p: Proj)
      requires w.Parse(text) == Some(p)
      modifies this`idx
      ensures idx == old(idx) + Rows(w, fk, text)
    {
      hide *;
      ghost var s0 := idx;
      PutOne(Natoms, NatomsKey(p.nAtoms, fk));
      IndexSpecies(p.species, fk);
      if p.formula != [] {
        PutOne(Formula, FormulaKey(p.formula, fk));
      }
      IndexFlags(p, fk);
      if p.mass.Some? {
        PutSome(Mass, BinKey(p.mass.value, fk));
      }
      if p.volume.Some? {
        PutSome(Volume, BinKey(p.volume.value, fk));
      }
      if p.pbc.Some? {
        PutOne(Pbc, PbcKey(MaskOf(p.pbc.value), fk));
      }
      IndexMeta(p.meta, fk);
      forall e ensures e in idx <==> e in s0 + Rows(w, fk, text) {
        DerivedRow(w, fk, text, p, e);
        assert e in idx <==> e in s0 || Derived(p, fk, e) by {
          DerivedIs(p, fk, e);
        }
      }
    }

    /** The first frame in cursor order for every digest. */
    method Survivors() returns (survivor: map<Hash, FrameKey>)
      ensures forall h :: Survivor(hashByFrame, h) == (if h in survivor then Some(survivor[h]) else None)
    {
      var keys := Listing(hashByFrame.Keys);
      survivor := map[];
      for i := 0 to |keys|
        invariant forall h <- survivor :: First(hashByFrame, h, survivor[h])
        invariant forall j :: 0 <= j < i ==> hashByFrame[keys[j]] in survivor
      {
        var h := hashByFrame[keys[i]];
        if h !in survivor {
          assert First(hashByFrame, h, keys[i]) by {
            FirstListed(hashByFrame, keys, i);
          }
          survivor := survivor[h := keys[i]];
        }
      }
      forall fk | fk in hashByFrame ensures hashByFrame[fk] in survivor {
        assert fk in keys;
      }
      SurvivorsAre(hashByFrame, survivor);
    }

    /** `repoint_frame_by_hash`. */
    method RepointFrameByHash(stale: seq<Hash>)
      modifies this`frameByHash
      ensures frameByHash == RepointAll(hashByFrame, old(frameByHash), stale)
    {
      hide RepointAll;
      if stale == [] {
        RepointNone(hashByFrame, frameByHash);
        return;
      }
      var survivor := Survivors();
      assert stale[0..] == stale;
      for i := 0 to |stale|
        invariant RepointAll(hashByFrame, old(frameByHash), stale) == RepointAll(hashByFrame, frameByHash, stale[i..])
      {
        RepointNext(hashByFrame, frameByHash, stale, i);
        var digest := stale[i];
        if digest in frameByHash && frameByHash[digest] !in hashByFrame {
          if digest in survivor {
            frameByHash := frameByHash[digest := survivor[digest]];
          } else {
            frameByHash := frameByHash - {digest};
          }
        }
      }
      assert stale[|stale|..] == [];
      RepointNone(hashByFrame, frameByHash);
    }
  }

  predicate SpeciesRow(species: seq<(Text, u32)>, fk: FrameKey, e: Entry) {
    || (e.table == Symbol && exists i :: 0 <= i < |species| && e.key == SymbolKey(species[i].0, fk))
    || (e.table == ElemCount && exists i :: 0 <= i < |species| && e.key == ElemCountKey(species[i].0, species[i].1, fk))
  }

  lemma SpeciesSnoc(species: seq<(Text, u32)>, fk: FrameKey, i: nat)
    requires i < |species|
    ensures forall e :: SpeciesRow(species[..i + 1], fk, e) <==>
      SpeciesRow(species[..i], fk, e) || e == Entry(Symbol, SymbolKey(species[i].0, fk))
      || e == Entry(ElemCount, ElemCountKey(species[i].0, species[i].1, fk))
  {
    hide SymbolKey, ElemCountKey;
    var a, b := species[..i + 1], species[..i];
    forall j | 0 <= j <= i ensures a[j] == species[j] && (j < i ==> b[j] == species[j]) {}
    forall e ensures SpeciesRow(a, fk, e) <==>
      SpeciesRow(b, fk, e) || e == Entry(Symbol, SymbolKey(species[i].0, fk))
      || e == Entry(ElemCount, ElemCountKey(species[i].0, species[i].1, fk))
    {
      assert e == Entry(e.table, e.key);
      if j :| 0 <= j < |a| && e.key == SymbolKey(a[j].0, fk) {
        assert j < i ==> e.key == SymbolKey(b[j].0, fk);
      }
      if j :| 0 <= j < |a| && e.key == ElemCountKey(a[j].0, a[j].1, fk) {
        assert j < i ==> e.key == ElemCountKey(b[j].0, b[j].1, fk);
      }
      if j :| 0 <= j < |b| && e.key == SymbolKey(b[j].0, fk) {
        assert e.key == SymbolKey(a[j].0, fk);
      }
      if j :| 0 <= j < |b| && e.key == ElemCountKey(b[j].0, b[j].1, fk) {
        assert e.key == ElemCountKey(a[j].0, a[j].1, fk);
      }
      assert a[i] == species[i];
    }
  }

  predicate OptRow(t: Table, key: Option<Bytes>, e: Entry) {
    key.Some? && e == Entry(t, key.value)
  }

  function BinOf(x: Option<F64>, fk: FrameKey): Option<Bytes> {
    if x.Some? then BinKey(x.value, fk) else None
  }

  /** A row that `reindex` derives from a frame. */
  predicate Derived(p: Proj, fk: FrameKey, e: Entry) {
    || e == Entry(Natoms, NatomsKey(p.nAtoms, fk))
    || SpeciesRow(p.species, fk, e)
    || (p.formula != [] && e == Entry(Formula, FormulaKey(p.formula, fk)))
    || (e.table == Flags && e.key in FlagKeys(p, fk))
    || (e.table == Energy && e.key in OptBin(p.energy, fk))
    || (e.table == Fmax && p.hasForces && e.key in OptBin(p.fmax, fk))
    || OptRow(Mass, BinOf(p.mass, fk), e)
    || OptRow(Volume, BinOf(p.volume, fk), e)
    || (p.pbc.Some? && e == Entry(Pbc, PbcKey(MaskOf(p.pbc.value), fk)))
    || (e.table == Meta && e.key in MetaKeys(p.meta, fk))
  }

  lemma DerivedIs(p: Proj, fk: FrameKey, e: Entry)
    ensures Derived(p, fk, e) <==>
      || e == Entry(Natoms, NatomsKey(p.nAtoms, fk))
      || SpeciesRow(p.species, fk, e)
      || (p.formula != [] && e == Entry(Formula, FormulaKey(p.formula, fk)))
      || (e.table == Flags && e.key in FlagKeys(p, fk))
      || (e.table == Energy && e.key in OptBin(p.energy, fk))
      || (e.table == Fmax && p.hasForces && e.key in OptBin(p.fmax, fk))
      || (p.mass.Some? && BinKey(p.mass.value, fk).Some? && e == Entry(Mass, BinKey(p.mass.value, fk).value))
      || (p.volume.Some? && BinKey(p.volume.value, fk).Some? && e == Entry(Volume, BinKey(p.volume.value, fk).value))
      || (p.pbc.Some? && e == Entry(Pbc, PbcKey(MaskOf(p.pbc.value), fk)))
      || (e.table == Meta && e.key in MetaKeys(p.meta, fk))
  {
    hide BinKey, SpeciesRow, NatomsKey, FormulaKey, FlagKeys, MetaKeys, PbcKey, MaskOf, OptBin;
  }

  /** The two derivations agree: dropping repeated symbols loses no row. */
  lemma DerivedRow(w: World, fk: FrameKey, text: Text, p: Proj, e: Entry)
    requires w.Parse(text) == Some(p)
    ensures Derived(p, fk, e) <==> e in Rows(w, fk, text)
  {
    hide BinKey, NatomsKey, FormulaKey, FlagKeys, MetaKeys, PbcKey, MaskOf, SymbolKey, ElemCountKey, DistinctSymbols, Build, KeysOf;
    BuiltKeys(w, fk, p, text, e.table);
    match e.table {
      case Symbol => SymbolRows(p.species, fk, e.key);
      case ElemCount => ElemCountRows(p.species, fk, e.key);
      case _ =>
    }
    assert e == Entry(e.table, e.key);
  }

  lemma AllTables()
    ensures forall t: Table :: t in TABLES[..|TABLES|]
  {
    assert TABLES[..|TABLES|] == TABLES;
    forall t: Table ensures t in TABLES {
      match t {
        case Natoms => assert TABLES[0] == t;
        case Symbol => assert TABLES[1] == t;
        case ElemCount => assert TABLES[2] == t;
        case Formula => assert TABLES[3] == t;
        case Energy => assert TABLES[4] == t;
        case Fmax => assert TABLES[5] == t;
        case Mass => assert TABLES[6] == t;
        case Volume => assert TABLES[7] == t;
        case Pbc => assert TABLES[8] == t;
        case Flags => assert TABLES[9] == t;
        case Meta => assert TABLES[10] == t;
      }
    }
  }

  lemma FirstListed(hashes: map<FrameKey, Hash>, keys: seq<FrameKey>, i: nat)
    requires Lists(keys, hashes.Keys) && i < |keys|
    requires forall j :: 0 <= j < i ==> hashes[keys[j]] != hashes[keys[i]]
    ensures First(hashes, hashes[keys[i]], keys[i])
  {
    var h := hashes[keys[i]];
    forall k | k in hashes && hashes[k] == h ensures k == keys[i] || KeyLess(keys[i], k) {
      var j :| 0 <= j < |keys| && keys[j] == k;
      assert j >= i;
    }
  }

  lemma SurvivorsAre(hashes: map<FrameKey, Hash>, survivor: map<Hash, FrameKey>)
    requires forall h <- survivor :: First(hashes, h, survivor[h])
    requires forall fk <- hashes :: hashes[fk] in survivor
    ensures forall h :: Survivor(hashes, h) == (if h in survivor then Some(survivor[h]) else None)
  {
    forall h ensures Survivor(hashes, h) == (if h in survivor then Some(survivor[h]) else None) {
      if h in survivor {
        SurvivorIs(hashes, h, survivor[h]);
      }
    }
  }

  lemma RepointNone(hashes: map<FrameKey, Hash>, posts: map<Hash, FrameKey>)
    ensures RepointAll(hashes, posts, []) == posts
  {}

  lemma RepointNext(hashes: map<FrameKey, Hash>, posts: map<Hash, FrameKey>, stale: seq<Hash>, i: nat)
    requires i < |stale|
    ensures RepointAll(hashes, posts, stale[i..]) == RepointAll(hashes, RepointOne(hashes, posts, stale[i]), stale[i + 1..])
  {
    assert stale[i..][1..] == stale[i + 1..];
  }
}
