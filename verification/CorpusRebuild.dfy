/** Rebuilding: the indexes from the primary table, and the primary table in the current codec. */
module CorpusRebuild {
  import opened Prelude
  import opened Utf8
  import opened Keys
  import opened KeyOrder
  import opened Store
  import opened Ingest
  import opened Corpus
  import opened CorpusGrow
  import opened CorpusRewrite
  import FC = FrameCodec

  // ---------------------------------------------------------------------
  // Reindex
  // ---------------------------------------------------------------------

  /** The secondary tables while `reindex` rebuilds them. */
  datatype Tables = Tables(hashes: map<FrameKey, Hash>, posts: map<Hash, FrameKey>, idx: set<Entry>)

  function IndexOne(w: World, t: Tables, fk: FrameKey, text: Text): Tables {
    var h := w.Digest(text);
    Tables(t.hashes[fk := h], if h in t.posts then t.posts else t.posts[h := fk], t.idx + Rows(w, fk, text))
  }

  /** `reindex` over the primary keys in cursor order; one unreadable or unparsable frame aborts it. */
  function IndexKeys(w: World, frames: map<FrameKey, Bytes>, keys: seq<FrameKey>): Result<Tables> {
    if keys == [] then Ok(Tables(map[], map[], {}))
    else
      var n := |keys| - 1;
      var t :- IndexKeys(w, frames, keys[..n]);
      var text :- Read(w.zstd, frames, keys[n]);
      if w.Parse(text).None? then Err(ParseError) else Ok(IndexOne(w, t, keys[n], text))
  }

  function WithTables(s: Store, t: Tables): Store {
    s.(hashByFrame := t.hashes, frameByHash := t.posts, idx := t.idx)
  }

  function Restrict(texts: Texts, keys: seq<FrameKey>): (r: Texts)
    ensures forall fk :: fk in r <==> fk in texts && fk in keys
    ensures forall fk <- r :: r[fk] == texts[fk]
  {
    map fk | fk in texts && fk in keys :: texts[fk]
  }

  /** Each posting names the first frame, in table order, that stores its digest. */
  ghost predicate FirstPosted(posts: map<Hash, FrameKey>, hashes: map<FrameKey, Hash>) {
    forall h <- posts :: First(hashes, h, posts[h])
  }

  lemma FirstStays(hashes: map<FrameKey, Hash>, h: Hash, p: FrameKey, fk: FrameKey, d: Hash)
    requires First(hashes, h, p) && forall k <- hashes :: KeyLess(k, fk)
    ensures First(hashes[fk := d], h, p)
  {}

  lemma FirstNew(hashes: map<FrameKey, Hash>, fk: FrameKey, d: Hash)
    requires forall k <- hashes :: hashes[k] != d
    ensures First(hashes[fk := d], d, fk)
  {}

  lemma IndexOneFirst(w: World, t: Tables, texts: Texts, fk: FrameKey, text: Text)
    requires Hashed(w, t.hashes, texts) && FirstPosted(t.posts, t.hashes)
    requires Posted(w, t.posts, texts) && forall k <- texts :: KeyLess(k, fk)
    ensures FirstPosted(IndexOne(w, t, fk, text).posts, IndexOne(w, t, fk, text).hashes)
  {
    hide Rows, First, KeyLess;
    var t1 := IndexOne(w, t, fk, text);
    forall h | h in t1.posts ensures First(t1.hashes, h, t1.posts[h]) {
      if h in t.posts {
        FirstStays(t.hashes, h, t.posts[h], fk, w.Digest(text));
      } else {
        FirstNew(t.hashes, fk, h);
      }
    }
  }

  lemma IndexOneSound(w: World, s: Store, t: Tables, texts: Texts, fk: FrameKey, text: Text)
    requires Sound(w, WithTables(s, t), texts) && fk !in texts && w.Parse(text).Some?
    ensures Sound(w, WithTables(s, IndexOne(w, t, fk, text)), texts[fk := text])
  {
    hide *;
    var p := Build(w, fk, w.Parse(text).value, text, false);
    BuiltCarries(w, fk, text, false, p.stored);
    BuiltStored(w, fk, text);
    PutSound(w, WithTables(s, t), texts, p, text);
    SameTables(w, s, t, p, fk, text);
    SoundTables(w, Put(WithTables(s, t), p), WithTables(s, IndexOne(w, t, fk, text)), texts[fk := text]);
  }

  lemma BuiltStored(w: World, fk: FrameKey, text: Text)
    requires w.Parse(text).Some?
    ensures var p := Build(w, fk, w.Parse(text).value, text, false);
      p.fk == fk && p.(stored := p.stored) == p && RowSet(p) == Rows(w, fk, text) && p.hash == w.Digest(text)
  {}

  lemma SameTables(w: World, s: Store, t: Tables, p: Prepared, fk: FrameKey, text: Text)
    requires p.fk == fk && p.hash == w.Digest(text) && RowSet(p) == Rows(w, fk, text)
    ensures var a, b := Put(WithTables(s, t), p), WithTables(s, IndexOne(w, t, fk, text));
      a.hashByFrame == b.hashByFrame && a.frameByHash == b.frameByHash && a.idx == b.idx
  {}

  lemma SoundTables(w: World, a: Store, b: Store, texts: Texts)
    requires Sound(w, a, texts)
    requires a.hashByFrame == b.hashByFrame && a.frameByHash == b.frameByHash && a.idx == b.idx
    ensures Sound(w, b, texts)
  {
    hide Parsed, Hashed, Posted, Indexed;
  }

  lemma {:induction false} IndexKeysSound(w: World, s: Store, texts: Texts, keys: seq<FrameKey>)
    requires Readable(w.zstd, s.frames, texts) && Sorted(keys)
    requires forall i :: 0 <= i < |keys| ==> keys[i] in texts
    ensures var r := IndexKeys(w, s.frames, keys);
      && (r.Ok? <==> Parsed(w, Restrict(texts, keys)))
      && (r.Ok? ==> Sound(w, WithTables(s, r.value), Restrict(texts, keys)) && FirstPosted(r.value.posts, r.value.hashes))
  {
    hide Read, IndexOne, Sound, FirstPosted, WithTables, Restrict, KeyLess, Hashed, Posted;
    if keys == [] {
      assert Restrict(texts, keys) == map[];
      NothingSound(w, s);
    } else {
      var n := |keys| - 1;
      var fk, before := keys[n], Restrict(texts, keys[..n]);
      IndexKeysSound(w, s, texts, keys[..n]);
      RestrictSnoc(texts, keys);
      var r := IndexKeys(w, s.frames, keys[..n]);
      if r.Ok? && w.Parse(texts[fk]).Some? {
        SoundHas(w, s, r.value, before);
        IndexOneSound(w, s, r.value, before, fk, texts[fk]);
        IndexOneFirst(w, r.value, before, fk, texts[fk]);
      }
    }
  }

  lemma SoundHas(w: World, s: Store, t: Tables, texts: Texts)
    requires Sound(w, WithTables(s, t), texts)
    ensures Hashed(w, t.hashes, texts) && Posted(w, t.posts, texts)
  {
    hide Hashed, Posted, Parsed, Indexed;
  }

  lemma NothingSound(w: World, s: Store)
    ensures Sound(w, WithTables(s, Tables(map[], map[], {})), map[]) && FirstPosted(map[], map[])
  {
    hide Rows;
    forall e: Entry ensures e in {} <==> Owned(w, map[], e) {}
  }

  lemma RestrictSnoc(texts: Texts, keys: seq<FrameKey>)
    requires keys != [] && Sorted(keys) && keys[|keys| - 1] in texts
    ensures var n := |keys| - 1;
      && Restrict(texts, keys) == Restrict(texts, keys[..n])[keys[n] := texts[keys[n]]]
      && keys[n] !in Restrict(texts, keys[..n])
      && forall k <- Restrict(texts, keys[..n]) :: KeyLess(k, keys[n])
  {
    var n := |keys| - 1;
    forall k | k in Restrict(texts, keys[..n]) ensures KeyLess(k, keys[n]) {
      var i :| 0 <= i < n && keys[..n][i] == k;
    }
    assert keys == keys[..n] + [keys[n]];
    assert forall i :: 0 <= i < n ==> keys[..n][i] == keys[i];
    assert Restrict(texts, keys).Keys == Restrict(texts, keys[..n])[keys[n] := texts[keys[n]]].Keys;
  }

  /**
   * `reindex` rebuilds every secondary table from the primary one alone, whatever they held before: it succeeds
   * exactly when every text parses, and then each digest is posted to its first frame.
   */
  lemma ReindexRestores(w: World, s: Store, texts: Texts, keys: seq<FrameKey>)
    requires Readable(w.zstd, s.frames, texts) && Lists(keys, s.frames.Keys)
    ensures var r := IndexKeys(w, s.frames, keys);
      && (r.Ok? <==> Parsed(w, texts))
      && (r.Ok? ==> Sound(w, WithTables(s, r.value), texts) && FirstPosted(r.value.posts, r.value.hashes))
      && (r.Ok? && Numbered(s.meta, texts) && CookedFresh(w, s.soa, texts) ==> Coherent(w, WithTables(s, r.value), texts))
  {
    hide *;
    RestrictAll(w.zstd, s.frames, texts, keys);
    IndexKeysSound(w, s, texts, keys);
    var r := IndexKeys(w, s.frames, keys);
    if r.Ok? {
      WithTablesKeeps(s, r.value);
      if Numbered(s.meta, texts) && CookedFresh(w, s.soa, texts) {
        CoherentIs(w, WithTables(s, r.value), texts);
      }
    }
  }

  lemma WithTablesKeeps(s: Store, t: Tables)
    ensures var s1 := WithTables(s, t); s1.frames == s.frames && s1.meta == s.meta && s1.soa == s.soa
  {}

  lemma RestrictAll(z: FC.Zstd, frames: map<FrameKey, Bytes>, texts: Texts, keys: seq<FrameKey>)
    requires Readable(z, frames, texts) && Lists(keys, frames.Keys)
    ensures Restrict(texts, keys) == texts && Sorted(keys)
    ensures forall i :: 0 <= i < |keys| ==> keys[i] in texts
  {
    hide Read;
    assert Restrict(texts, keys).Keys == texts.Keys;
  }

  // ---------------------------------------------------------------------
  // Migrate
  // ---------------------------------------------------------------------

  /** The listed frames of one trajectory with their texts. */
  function FramesOf(texts: Texts, keys: seq<FrameKey>): (fs: seq<FC.Frame>)
    requires forall i :: 0 <= i < |keys| ==> keys[i] in texts
    ensures |fs| == |keys|
    ensures forall i :: 0 <= i < |keys| ==> fs[i] == FC.Frame(keys[i].idx, texts[keys[i]])
  {
    seq(|keys|, i requires 0 <= i < |keys| => FC.Frame(keys[i].idx, texts[keys[i]]))
  }

  /** `frames` with `vs[i]` under `keys[i]`. */
  function PutValues(frames: map<FrameKey, Bytes>, keys: seq<FrameKey>, vs: seq<Bytes>): map<FrameKey, Bytes>
    requires |vs| == |keys|
  {
    if keys == [] then frames
    else
      var n := |keys| - 1;
      PutValues(frames, keys[..n], vs[..n])[keys[n] := vs[n]]
  }

  lemma {:induction false} PutValuesAt(frames: map<FrameKey, Bytes>, keys: seq<FrameKey>, vs: seq<Bytes>)
    requires |vs| == |keys| && Sorted(keys)
    requires forall i :: 0 <= i < |keys| ==> keys[i] in frames
    ensures var r := PutValues(frames, keys, vs);
      && r.Keys == frames.Keys
      && (forall i :: 0 <= i < |keys| ==> r[keys[i]] == vs[i])
      && forall fk <- frames :: fk !in keys ==> r[fk] == frames[fk]
  {
    if keys != [] {
      var n := |keys| - 1;
      SortedTake(keys, n);
      hide Sorted, KeyLess;
      PutValuesAt(frames, keys[..n], vs[..n]);
      var r := PutValues(frames, keys, vs);
      assert r.Keys == frames.Keys;
      forall i | 0 <= i < |keys| ensures r[keys[i]] == vs[i] {
        assert i < n ==> keys[..n][i] == keys[i] && vs[..n][i] == vs[i];
      }
      forall fk | fk in frames && fk !in keys ensures r[fk] == frames[fk] {
        assert keys[n] in keys;
        assert fk !in keys[..n];
      }
    }
  }

  lemma SortedTake(keys: seq<FrameKey>, n: nat)
    requires Sorted(keys) && n < |keys|
    ensures Sorted(keys[..n]) && forall i :: 0 <= i < n ==> keys[i] != keys[n]
  {}

  /** `keys` lists the frames of `traj` that are in `texts`. */
  predicate ListsTraj(keys: seq<FrameKey>, texts: Texts, traj: u64) {
    && Sorted(keys)
    && (forall i :: 0 <= i < |keys| ==> keys[i] in texts && keys[i].traj == traj)
    && forall fk <- texts :: fk.traj == traj ==> fk in keys
  }

  lemma ListedIncrease(keys: seq<FrameKey>, texts: Texts, traj: u64)
    requires ListsTraj(keys, texts, traj)
    ensures FC.Increasing(FramesOf(texts, keys))
  {
    forall i, j | 0 <= i < j < |keys| ensures keys[i].idx < keys[j].idx {
      assert KeyLess(keys[i], keys[j]);
    }
  }

  /** A text that fits a group's length field, or the only stored frame of its aligned run. */
  predicate Fits(texts: Texts, fk: FrameKey)
    requires fk in texts
  {
    |texts[fk]| <= U32_MAX
    || forall gk <- texts :: gk.traj == fk.traj && FC.GroupOf(gk.idx) == FC.GroupOf(fk.idx) ==> gk == fk
  }

  predicate TrajFits(texts: Texts, traj: u64) {
    forall fk <- texts :: fk.traj == traj ==> Fits(texts, fk)
  }

  predicate AllFit(texts: Texts) {
    forall fk <- texts :: Fits(texts, fk)
  }

  lemma TrajFitsIs(texts: Texts, traj: u64, keys: seq<FrameKey>)
    requires ListsTraj(keys, texts, traj)
    ensures FC.Groupable(FramesOf(texts, keys)) <==> TrajFits(texts, traj)
  {
    hide FC.ShortOrAlone, Fits, Sorted;
    var fs := FramesOf(texts, keys);
    forall i | 0 <= i < |keys| ensures FC.ShortOrAlone(fs, i) <==> Fits(texts, keys[i]) {
      FitsIs(texts, traj, keys, i);
    }
    if FC.Groupable(fs) {
      forall fk | fk in texts && fk.traj == traj ensures Fits(texts, fk) {
        var i :| 0 <= i < |keys| && keys[i] == fk;
        assert FC.ShortOrAlone(fs, i);
      }
    }
  }

  lemma FitsIs(texts: Texts, traj: u64, keys: seq<FrameKey>, i: nat)
    requires ListsTraj(keys, texts, traj) && i < |keys|
    ensures FC.ShortOrAlone(FramesOf(texts, keys), i) <==> Fits(texts, keys[i])
  {
    var fs := FramesOf(texts, keys);
    forall j | 0 <= j < |keys| && keys[j] == keys[i] ensures j == i {
      KeyOnce(keys, i, j);
    }
    hide Sorted, FC.GroupOf;
    if FC.ShortOrAlone(fs, i) && |texts[keys[i]]| > U32_MAX {
      forall gk | gk in texts && gk.traj == keys[i].traj && FC.GroupOf(gk.idx) == FC.GroupOf(keys[i].idx) ensures gk == keys[i] {
        var j :| 0 <= j < |keys| && keys[j] == gk;
        assert FC.GroupOf(fs[j].idx) == FC.GroupOf(fs[i].idx);
      }
    }
  }

  lemma KeyOnce(keys: seq<FrameKey>, i: nat, j: nat)
    requires Sorted(keys) && i < |keys| && j < |keys| && keys[i] == keys[j]
    ensures i == j
  {}

  /** A trajectory can be packed exactly when its frames fit. */
  lemma TrajPacks(z: FC.Zstd, texts: Texts, traj: u64, keys: seq<FrameKey>)
    requires ListsTraj(keys, texts, traj)
    ensures FC.PackAligned(z, FramesOf(texts, keys)).Ok? <==> TrajFits(texts, traj)
  {
    hide FC.PackAligned, FC.Groupable, TrajFits, Sorted;
    ListedIncrease(keys, texts, traj);
    FC.PackSucceeds(z, FramesOf(texts, keys));
    TrajFitsIs(texts, traj, keys);
  }

  /**
   * Repacking a trajectory, whatever mix of codecs it was stored in, keeps every text: each redirect it writes
   * names a group it writes too, and the old redirects are all replaced.
   */
  lemma RepackReads(z: FC.Zstd, frames: map<FrameKey, Bytes>, texts: Texts, traj: u64, keys: seq<FrameKey>)
    requires FC.Lawful(z) && Readable(z, frames, texts) && ListsTraj(keys, texts, traj)
    requires FC.PackAligned(z, FramesOf(texts, keys)).Ok?
    ensures Readable(z, PutValues(frames, keys, FC.PackAligned(z, FramesOf(texts, keys)).value), texts)
  {
    hide FC.PackAligned, FC.Lawful, FC.DecodeFrame, PutValues;
    var fs := FramesOf(texts, keys);
    var packed := FC.PackAligned(z, fs).value;
    var frames1 := PutValues(frames, keys, packed);
    PutValuesAt(frames, keys, packed);
    ListedIncrease(keys, texts, traj);
    forall fk | fk in texts ensures Read(z, frames1, fk) == Ok(texts[fk]) {
      if fk.traj == traj {
        var k :| 0 <= k < |keys| && keys[k] == fk;
        forall i | 0 <= i < |fs| ensures Fetch(frames1, traj)(fs[i].idx) == Ok(packed[i]) {
          assert keys[i] == FrameKey(traj, fs[i].idx);
        }
        FC.PackDecodes(z, fs, k, Fetch(frames1, traj));
      } else {
        ReadKept(z, frames, frames1, fk);
      }
    }
  }

  /** How many values a repack writes: those that differ from what is stored. */
  function Changed(frames: map<FrameKey, Bytes>, keys: seq<FrameKey>, packed: seq<Bytes>): nat
    requires |packed| == |keys| && forall i :: 0 <= i < |keys| ==> keys[i] in frames
  {
    if keys == [] then 0
    else
      var n := |keys| - 1;
      Changed(frames, keys[..n], packed[..n]) + if packed[n] != frames[keys[n]] then 1 else 0
  }

  lemma {:induction false} NothingChanged(frames: map<FrameKey, Bytes>, keys: seq<FrameKey>, packed: seq<Bytes>)
    requires |packed| == |keys| && forall i :: 0 <= i < |keys| ==> keys[i] in frames
    ensures Changed(frames, keys, packed) == 0 <==> forall i :: 0 <= i < |keys| ==> packed[i] == frames[keys[i]]
  {
    if keys != [] {
      var n := |keys| - 1;
      NothingChanged(frames, keys[..n], packed[..n]);
      assert forall i :: 0 <= i < n ==> packed[..n][i] == packed[i] && keys[..n][i] == keys[i];
    }
  }

  /** A trajectory holds exactly what packing its texts gives. */
  predicate Packed(z: FC.Zstd, frames: map<FrameKey, Bytes>, texts: Texts, keys: seq<FrameKey>)
    requires forall i :: 0 <= i < |keys| ==> keys[i] in texts && keys[i] in frames
  {
    var r := FC.PackAligned(z, FramesOf(texts, keys));
    r.Ok? && forall i :: 0 <= i < |keys| ==> frames[keys[i]] == r.value[i]
  }

  /** A second repack finds the values it would write and writes none. */
  lemma RepackTwice(z: FC.Zstd, frames: map<FrameKey, Bytes>, texts: Texts, keys: seq<FrameKey>)
    requires frames.Keys == texts.Keys && Sorted(keys)
    requires forall i :: 0 <= i < |keys| ==> keys[i] in texts
    requires FC.PackAligned(z, FramesOf(texts, keys)).Ok?
    ensures var packed := FC.PackAligned(z, FramesOf(texts, keys)).value;
      var frames1 := PutValues(frames, keys, packed);
      frames1.Keys == texts.Keys && Packed(z, frames1, texts, keys) && Changed(frames1, keys, packed) == 0
  {
    hide FC.PackAligned, PutValues, Changed;
    var packed := FC.PackAligned(z, FramesOf(texts, keys)).value;
    PutValuesAt(frames, keys, packed);
    NothingChanged(PutValues(frames, keys, packed), keys, packed);
  }
}
