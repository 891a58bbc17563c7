/** Rewriting a trajectory in place: delete its rows, repoint the digests it posted, put the new rows. */
module CorpusRewrite {
  import opened Prelude
  import opened Utf8
  import opened Keys
  import opened KeyOrder
  import opened Store
  import opened Ingest
  import opened Corpus
  import opened CorpusGrow
  import FC = FrameCodec

  // ---------------------------------------------------------------------
  // Deleting
  // ---------------------------------------------------------------------

  /** `delete_index_puts`: every row of one frame goes, except its digest posting. */
  function Delete(s: Store, p: Prepared): Store {
    s.(frames := s.frames - {p.fk}, hashByFrame := s.hashByFrame - {p.fk}, soa := s.soa - {p.fk},
       idx := s.idx - RowSet(p))
  }

  /** The digest a deletion leaves posted to the deleted frame. */
  function StaleOf(s: Store, p: Prepared): Option<Hash> {
    if p.hash in s.frameByHash && s.frameByHash[p.hash] == p.fk then Some(p.hash) else None
  }

  function DeleteAll(s: Store, ps: seq<Prepared>): Store {
    if ps == [] then s else Delete(DeleteAll(s, ps[..|ps| - 1]), ps[|ps| - 1])
  }

  function StaleAll(s: Store, ps: seq<Prepared>): seq<Hash> {
    if ps == [] then []
    else
      var n := |ps| - 1;
      var last := StaleOf(DeleteAll(s, ps[..n]), ps[n]);
      StaleAll(s, ps[..n]) + if last.Some? then [last.value] else []
  }

  /** Postings while the `stale` digests wait for a new frame: only those may name a frame that is gone. */
  ghost predicate PostedExcept(w: World, posts: map<Hash, FrameKey>, texts: Texts, stale: seq<Hash>) {
    && (forall h <- posts :: posts[h] in texts ==> w.Digest(texts[posts[h]]) == h)
    && (forall h <- posts :: h !in stale ==> posts[h] in texts)
    && forall fk <- texts :: w.Digest(texts[fk]) in posts
  }

  /** The invariant between the deletions and the repointing. */
  ghost predicate SoundExcept(w: World, s: Store, texts: Texts, stale: seq<Hash>) {
    && Parsed(w, texts) && Hashed(w, s.hashByFrame, texts)
    && PostedExcept(w, s.frameByHash, texts, stale) && Indexed(w, s.idx, texts)
  }

  lemma SoundIsExceptNone(w: World, s: Store, texts: Texts)
    ensures Sound(w, s, texts) <==> SoundExcept(w, s, texts, [])
  {
    hide Indexed, Hashed, Parsed;
  }

  /** A frame's rows are its own: they carry its key, so no other frame loses one. */
  lemma DeleteRows(w: World, idx: set<Entry>, texts: Texts, p: Prepared)
    requires Indexed(w, idx, texts) && p.fk in texts && Carries(w, p, p.fk, texts[p.fk])
    ensures Indexed(w, idx - RowSet(p), texts - {p.fk})
  {
    hide Rows, RowSet;
    var texts1 := texts - {p.fk};
    forall e ensures e in idx - RowSet(p) <==> Owned(w, texts1, e) {
      if e in idx && e !in RowSet(p) {
        var fk :| fk in texts && e in Rows(w, fk, texts[fk]);
        assert fk in texts1 && e in Rows(w, fk, texts1[fk]);
      }
      if Owned(w, texts1, e) {
        var fk :| fk in texts1 && e in Rows(w, fk, texts1[fk]);
        assert fk in texts && e in Rows(w, fk, texts[fk]);
        if e in RowSet(p) {
          RowsNameOne(w, fk, texts[fk], p.fk, texts[p.fk], e);
        }
      }
    }
  }

  lemma DeletePosts(w: World, posts: map<Hash, FrameKey>, texts: Texts, stale: seq<Hash>, fk: FrameKey)
    requires PostedExcept(w, posts, texts, stale) && fk in texts
    ensures var h := w.Digest(texts[fk]);
      PostedExcept(w, posts, texts - {fk}, stale + if h in posts && posts[h] == fk then [h] else [])
  {}

  lemma DeleteSound(w: World, s: Store, texts: Texts, stale: seq<Hash>, p: Prepared)
    requires SoundExcept(w, s, texts, stale) && p.fk in texts && Carries(w, p, p.fk, texts[p.fk])
    ensures var last := StaleOf(s, p);
      SoundExcept(w, Delete(s, p), texts - {p.fk}, stale + if last.Some? then [last.value] else [])
  {
    hide Indexed, PostedExcept, RowSet, Rows;
    DeleteRows(w, s.idx, texts, p);
    DeletePosts(w, s.frameByHash, texts, stale, p.fk);
  }

  lemma {:induction false} DeleteAllSound(w: World, s: Store, texts: Texts, traj: u64, spans: seq<Text>, ps: seq<Prepared>)
    requires Sound(w, s, texts) && |spans| <= U32_MAX && CarryAll(w, traj, 0, spans, ps)
    requires forall i :: 0 <= i < |spans| ==> FrameKey(traj, i) in texts && texts[FrameKey(traj, i)] == spans[i]
    ensures SoundExcept(w, DeleteAll(s, ps), texts - SpanKeys(traj, 0, |spans|), StaleAll(s, ps))
  {
    hide Sound, SoundExcept, Carries, Delete, StaleOf;
    if spans == [] {
      SoundIsExceptNone(w, s, texts);
      assert texts - SpanKeys(traj, 0, 0) == texts;
    } else {
      var n := |spans| - 1;
      DeleteAllSound(w, s, texts, traj, spans[..n], ps[..n]);
      CarriedKey(w, ps[n], FrameKey(traj, n), spans[n]);
      var texts1 := texts - SpanKeys(traj, 0, n);
      DeleteSound(w, DeleteAll(s, ps[..n]), texts1, StaleAll(s, ps[..n]), ps[n]);
      assert texts1 - {FrameKey(traj, n)} == texts - SpanKeys(traj, 0, |spans|);
    }
  }

  // ---------------------------------------------------------------------
  // Repointing
  // ---------------------------------------------------------------------

  /** `fk` is the first frame in table order that still stores digest `h`. */
  ghost predicate First(hashes: map<FrameKey, Hash>, h: Hash, fk: FrameKey) {
    && fk in hashes && hashes[fk] == h
    && forall k <- hashes :: hashes[k] == h ==> k == fk || KeyLess(fk, k)
  }

  /** The `survivor` map of `repoint_frame_by_hash`. */
  ghost function Survivor(hashes: map<FrameKey, Hash>, h: Hash): (r: Option<FrameKey>)
    ensures r.Some? ==> First(hashes, h, r.value)
    ensures r.None? ==> forall fk <- hashes :: hashes[fk] != h
  {
    if exists fk :: First(hashes, h, fk) then
      var fk :| First(hashes, h, fk);
      Some(fk)
    else
      NoneFirst(hashes, h);
      None
  }

  lemma SurvivorIs(hashes: map<FrameKey, Hash>, h: Hash, fk: FrameKey)
    requires First(hashes, h, fk)
    ensures Survivor(hashes, h) == Some(fk)
  {}

  lemma NoneFirst(hashes: map<FrameKey, Hash>, h: Hash)
    requires forall fk :: !First(hashes, h, fk)
    ensures forall fk <- hashes :: hashes[fk] != h
  {
    if exists k :: k in hashes && hashes[k] == h {
      FirstExists(hashes, h, hashes.Keys);
      var fk: FrameKey :| fk in hashes.Keys && hashes[fk] == h
        && forall k <- hashes.Keys :: hashes[k] == h ==> k == fk || KeyLess(fk, k);
      assert First(hashes, h, fk);
    }
  }

  /** `repoint_frame_by_hash` for one digest: a posting that still names a live frame is left alone. */
  ghost function RepointOne(hashes: map<FrameKey, Hash>, posts: map<Hash, FrameKey>, h: Hash): map<Hash, FrameKey> {
    if h !in posts || posts[h] in hashes then posts
    else
      match Survivor(hashes, h)
      case Some(fk) => posts[h := fk]
      case None => posts - {h}
  }

  ghost function RepointAll(hashes: map<FrameKey, Hash>, posts: map<Hash, FrameKey>, stale: seq<Hash>): map<Hash, FrameKey> {
    if stale == [] then posts
    else RepointAll(hashes, RepointOne(hashes, posts, stale[0]), stale[1..])
  }

  /** A digest with a live frame has a first one. */
  lemma {:induction false} FirstExists(hashes: map<FrameKey, Hash>, h: Hash, keys: set<FrameKey>)
    requires keys <= hashes.Keys && exists k :: k in keys && hashes[k] == h
    ensures exists fk :: fk in keys && hashes[fk] == h && forall k <- keys :: hashes[k] == h ==> k == fk || KeyLess(fk, k)
    decreases |keys|
  {
    var a: FrameKey :| a in keys && hashes[a] == h;
    var rest := set k | k in keys && k != a && hashes[k] == h;
    if rest == {} {
      assert forall k <- keys :: hashes[k] == h ==> k in rest || k == a;
    } else {
      assert |rest| < |keys| by { Smaller(rest, keys, a); }
      FirstExists(hashes, h, rest);
      var b: FrameKey :| b in rest && hashes[b] == h && forall k <- rest :: hashes[k] == h ==> k == b || KeyLess(b, k);
      var c := if KeyLess(a, b) then a else b;
      assert c in keys && hashes[c] == h;
      forall k | k in keys && hashes[k] == h ensures k == c || KeyLess(c, k) {
        assert k == a || k in rest;
      }
    }
  }

  lemma Smaller<T>(rest: set<T>, keys: set<T>, a: T)
    requires rest <= keys && a in keys && a !in rest
    ensures |rest| < |keys|
  {
    assert rest + {a} <= keys;
    SubsetSize(rest + {a}, keys);
  }

  /** One repointed digest is right, and the others are as before. */
  lemma RepointOneSound(w: World, hashes: map<FrameKey, Hash>, posts: map<Hash, FrameKey>, texts: Texts, h: Hash, stale: seq<Hash>)
    requires Hashed(w, hashes, texts) && PostedExcept(w, posts, texts, [h] + stale)
    ensures PostedExcept(w, RepointOne(hashes, posts, h), texts, stale)
  {
    hide Survivor;
    var after := RepointOne(hashes, posts, h);
    forall g | g in after && g !in stale ensures after[g] in texts {
      assert g != h ==> g !in [h] + stale;
    }
  }

  /** Repointing every stale digest restores the postings. */
  lemma {:induction false} RepointAllSound(w: World, hashes: map<FrameKey, Hash>, posts: map<Hash, FrameKey>, texts: Texts, stale: seq<Hash>)
    requires Hashed(w, hashes, texts) && PostedExcept(w, posts, texts, stale)
    ensures Posted(w, RepointAll(hashes, posts, stale), texts)
  {
    if stale != [] {
      hide Hashed, PostedExcept, RepointOne, Posted;
      assert stale == [stale[0]] + stale[1..];
      RepointOneSound(w, hashes, posts, texts, stale[0], stale[1..]);
      RepointAllSound(w, hashes, RepointOne(hashes, posts, stale[0]), texts, stale[1..]);
    }
  }

  // ---------------------------------------------------------------------
  // Setting units
  // ---------------------------------------------------------------------

  /** The write transaction of `set_trajectory_units`. */
  ghost function Rewrite(s: Store, olds: seq<Prepared>, news: seq<Prepared>): Store {
    var s1 := DeleteAll(s, olds);
    PutAll(s1.(frameByHash := RepointAll(s1.hashByFrame, s1.frameByHash, StaleAll(s, olds))), news)
  }

  lemma {:induction false} DeleteAllTables(s: Store, traj: u64, ps: seq<Prepared>)
    requires |ps| <= U32_MAX && forall i :: 0 <= i < |ps| ==> ps[i].fk == FrameKey(traj, i)
    ensures var s1 := DeleteAll(s, ps);
      && s1.frames == s.frames - SpanKeys(traj, 0, |ps|) && s1.soa == s.soa - SpanKeys(traj, 0, |ps|)
      && s1.meta == s.meta && s1.frameByHash == s.frameByHash
  {
    hide RowSet;
    if ps == [] {
      assert s.frames - {} == s.frames && s.soa - {} == s.soa;
    } else {
      var n := |ps| - 1;
      DeleteAllTables(s, traj, ps[..n]);
      var gone := SpanKeys(traj, 0, n);
      assert s.frames - gone - {FrameKey(traj, n)} == s.frames - SpanKeys(traj, 0, n + 1);
      assert s.soa - gone - {FrameKey(traj, n)} == s.soa - SpanKeys(traj, 0, n + 1);
    }
  }

  /** All frames of one trajectory gone: the others read as before. */
  lemma WithoutReadable(z: FC.Zstd, frames: map<FrameKey, Bytes>, texts: Texts, traj: u64, n: nat)
    requires n <= U32_MAX && Readable(z, frames, texts)
    requires forall fk <- texts :: fk.traj == traj ==> fk.idx < n
    ensures Readable(z, frames - SpanKeys(traj, 0, n), texts - SpanKeys(traj, 0, n))
  {
    hide Read, SpanKeys;
    var gone := SpanKeys(traj, 0, n);
    var texts1 := texts - gone;
    forall fk | fk in texts1 ensures Read(z, frames - gone, fk) == Ok(texts1[fk]) {
      ReadKept(z, frames, frames - gone, fk);
    }
  }

  /** `traj` stores exactly the texts `spans`. */
  ghost predicate Holds(s: Store, texts: Texts, traj: u64, spans: seq<Text>) {
    && traj in s.meta && s.meta[traj].frames == |spans|
    && forall i :: 0 <= i < |spans| ==> FrameKey(traj, i) in texts && texts[FrameKey(traj, i)] == spans[i]
  }

  /**
   * Deleting, repointing and putting leaves exactly the new texts of the trajectory: no index row, digest
   * or cooked array of the old ones is left, and no other trajectory loses a posting it shared.
   */
  lemma RewriteCoherent(w: World, s: Store, texts: Texts, traj: u64, spans: seq<Text>, olds: seq<Prepared>,
      later: seq<Text>, news: seq<Prepared>, compress: bool)
    requires FC.Lawful(w.zstd) && Coherent(w, s, texts) && Holds(s, texts, traj, spans)
    requires CarryAll(w, traj, 0, spans, olds)
    requires |later| == |spans| <= U32_MAX && CarryAll(w, traj, 0, later, news)
    requires StoredAs(w.zstd, 0, later, compress, StoredOf(news))
    requires forall i :: 0 <= i < |olds| ==> olds[i].fk == FrameKey(traj, i)
    requires forall i :: 0 <= i < |news| ==> news[i].fk == FrameKey(traj, i)
    ensures Coherent(w, Rewrite(s, olds, news), WithSpan(texts, traj, 0, later))
    ensures Rewrite(s, olds, news).meta == s.meta
  {
    hide *;
    var n := |spans|;
    var s1, texts1 := DeleteAll(s, olds), texts - SpanKeys(traj, 0, n);
    var s2 := s1.(frameByHash := RepointAll(s1.hashByFrame, s1.frameByHash, StaleAll(s, olds)));
    CoherentParts(w, s, texts);
    CarryAllLength(w, traj, 0, spans, olds);
    CarryAllLength(w, traj, 0, later, news);
    HoldsAll(s, texts, traj, spans);
    DeleteAllSound(w, s, texts, traj, spans, olds);
    DeleteAllTables(s, traj, olds);
    RepointedSound(w, s1, texts1, StaleAll(s, olds));
    WithoutReadable(w.zstd, s.frames, texts, traj, n);
    RewriteIs(s, olds, news);
    NoneLeft(texts, traj, n);
    PutAllSound(w, s2, texts1, traj, 0, later, news);
    PutAllFrames(s2, traj, 0, news);
    PutAllSoa(s2, news);
    SpanReadable(w.zstd, s2.frames, texts1, traj, 0, later, compress, StoredOf(news));
    Replaced(texts, traj, later);
    RewriteCooked(w, s.soa, texts, traj, later);
    RewriteNumbered(s, texts, traj, spans, later);
    CoherentIs(w, Rewrite(s, olds, news), WithSpan(texts, traj, 0, later));
  }

  lemma RewriteIs(s: Store, olds: seq<Prepared>, news: seq<Prepared>)
    ensures var s1 := DeleteAll(s, olds);
      Rewrite(s, olds, news) == PutAll(s1.(frameByHash := RepointAll(s1.hashByFrame, s1.frameByHash, StaleAll(s, olds))), news)
  {}

  lemma HoldsAll(s: Store, texts: Texts, traj: u64, spans: seq<Text>)
    requires Numbered(s.meta, texts) && Holds(s, texts, traj, spans)
    ensures |spans| <= U32_MAX
    ensures forall i :: 0 <= i < |spans| ==> FrameKey(traj, i) in texts && texts[FrameKey(traj, i)] == spans[i]
    ensures forall fk <- texts :: fk.traj == traj ==> fk.idx < |spans|
  {}

  lemma RepointedSound(w: World, s: Store, texts: Texts, stale: seq<Hash>)
    requires SoundExcept(w, s, texts, stale)
    ensures Sound(w, s.(frameByHash := RepointAll(s.hashByFrame, s.frameByHash, stale)), texts)
  {
    hide Parsed, Hashed, Indexed, PostedExcept, Posted;
    RepointAllSound(w, s.hashByFrame, s.frameByHash, texts, stale);
  }

  lemma NoneLeft(texts: Texts, traj: u64, n: nat)
    requires n <= U32_MAX
    ensures Unused(texts - SpanKeys(traj, 0, n), traj, 0, n)
  {}

  lemma Replaced(texts: Texts, traj: u64, later: seq<Text>)
    requires |later| <= U32_MAX
    ensures WithSpan(texts - SpanKeys(traj, 0, |later|), traj, 0, later) == WithSpan(texts, traj, 0, later)
  {
    hide WithSpan, SpanKeys;
    var a, b := WithSpan(texts - SpanKeys(traj, 0, |later|), traj, 0, later), WithSpan(texts, traj, 0, later);
    assert a.Keys == b.Keys;
    forall fk | fk in a ensures a[fk] == b[fk] {
      if InSpan(fk, traj, 0, |later|) {
        WithSpanAt(texts, traj, 0, later, fk);
        WithSpanAt(texts - SpanKeys(traj, 0, |later|), traj, 0, later, fk);
      }
    }
  }

  lemma RewriteCooked(w: World, soa: map<FrameKey, Bytes>, texts: Texts, traj: u64, later: seq<Text>)
    requires |later| <= U32_MAX && CookedFresh(w, soa, texts)
    ensures CookedFresh(w, soa - SpanKeys(traj, 0, |later|), WithSpan(texts, traj, 0, later))
  {
    hide WithSpan, SpanKeys;
  }

  lemma RewriteNumbered(s: Store, texts: Texts, traj: u64, spans: seq<Text>, later: seq<Text>)
    requires |later| == |spans| <= U32_MAX && Numbered(s.meta, texts) && Holds(s, texts, traj, spans)
    ensures Numbered(s.meta, WithSpan(texts, traj, 0, later))
  {
    hide WithSpan;
  }

  lemma CoherentIs(w: World, s: Store, texts: Texts)
    requires Readable(w.zstd, s.frames, texts) && Sound(w, s, texts)
    requires Numbered(s.meta, texts) && CookedFresh(w, s.soa, texts)
    ensures Coherent(w, s, texts)
  {
    hide Readable, Sound, Numbered, CookedFresh;
  }
}
