/** What keeps the tables of one environment consistent with the texts it stores. */
module Corpus {
  import opened Prelude
  import opened Utf8
  import opened Keys
  import opened Store
  import opened Ingest
  import FC = FrameCodec

  type Texts = map<FrameKey, Text>

  // ---------------------------------------------------------------------
  // Reading
  // ---------------------------------------------------------------------

  /** The value a redirect of trajectory `traj` names. */
  function Fetch(frames: map<FrameKey, Bytes>, traj: u64): u32 -> Result<Bytes> {
    (idx: u32) =>
      if FrameKey(traj, idx) in frames then Ok(frames[FrameKey(traj, idx)])
      else Err(MissingFrame(FrameKey(traj, idx)))
  }

  /** `get_frame_text`. */
  function Read(z: FC.Zstd, frames: map<FrameKey, Bytes>, fk: FrameKey): Result<Text> {
    if fk in frames then FC.DecodeFrame(z, frames[fk], Fetch(frames, fk.traj)) else Err(MissingFrame(fk))
  }

  /** `texts` is what the primary table reads back as. */
  ghost predicate Readable(z: FC.Zstd, frames: map<FrameKey, Bytes>, texts: Texts) {
    frames.Keys == texts.Keys && forall fk <- texts :: Read(z, frames, fk) == Ok(texts[fk])
  }

  /** A readable frame stays readable, with its text, when its trajectory's values stay and others change. */
  lemma ReadKept(z: FC.Zstd, before: map<FrameKey, Bytes>, after: map<FrameKey, Bytes>, fk: FrameKey)
    requires Read(z, before, fk).Ok?
    requires forall i: u32 :: FrameKey(fk.traj, i) in before ==>
      FrameKey(fk.traj, i) in after && after[FrameKey(fk.traj, i)] == before[FrameKey(fk.traj, i)]
    ensures Read(z, after, fk) == Read(z, before, fk)
  {
    hide FC.LoadFrame, FC.DecodeGroup;
    assert fk == FrameKey(fk.traj, fk.idx);
    DecodeLocal(z, before[fk], Fetch(before, fk.traj), Fetch(after, fk.traj));
  }

  lemma DecodeLocal(z: FC.Zstd, stored: Bytes, f: u32 -> Result<Bytes>, g: u32 -> Result<Bytes>)
    requires FC.DecodeFrame(z, stored, f).Ok?
    requires forall i: u32 :: f(i).Ok? ==> g(i) == f(i)
    ensures FC.DecodeFrame(z, stored, g) == FC.DecodeFrame(z, stored, f)
  {
    hide FC.OpenGroupOrSingle, FC.ParseRedirect;
    if FC.IsRedirect(stored) {
      var (head, _) := FC.ParseRedirect(stored).value;
      assert f(head).Ok?;
    }
  }

  // ---------------------------------------------------------------------
  // The tables against the texts
  // ---------------------------------------------------------------------

  /** The index rows a text implies. */
  function Rows(w: World, fk: FrameKey, text: Text): set<Entry> {
    match w.Parse(text)
    case None => {}
    case Some(proj) => RowSet(Build(w, fk, proj, text, false))
  }

  lemma RowsNameOne(w: World, a: FrameKey, s: Text, b: FrameKey, t: Text, e: Entry)
    requires e in Rows(w, a, s) && e in Rows(w, b, t)
    ensures a == b
  {
    RowNames(w, a, s, e);
    RowNames(w, b, t, e);
    NamesOne(e.key, a, b);
  }

  lemma RowNames(w: World, fk: FrameKey, text: Text, e: Entry)
    requires e in Rows(w, fk, text)
    ensures Names(e.key, fk)
  {
    hide Build;
    var proj := w.Parse(text).value;
    BuiltRowsName(w, fk, proj, text, false);
    var keys := KeysOf(Build(w, fk, proj, text, false), e.table);
    assert AllName(keys, fk);
    var i :| 0 <= i < |keys| && keys[i] == e.key;
  }

  ghost predicate Parsed(w: World, texts: Texts) {
    forall fk <- texts :: w.Parse(texts[fk]).Some?
  }

  /** `hash_by_frame` has exactly the live frames, each with its digest. */
  ghost predicate Hashed(w: World, hashes: map<FrameKey, Hash>, texts: Texts) {
    hashes.Keys == texts.Keys && forall fk <- texts :: hashes[fk] == w.Digest(texts[fk])
  }

  /** Every posting names a live frame with that digest, and every live digest is posted. */
  ghost predicate Posted(w: World, posts: map<Hash, FrameKey>, texts: Texts) {
    && (forall h <- posts :: posts[h] in texts && w.Digest(texts[posts[h]]) == h)
    && forall fk <- texts :: w.Digest(texts[fk]) in posts
  }

  ghost predicate Owned(w: World, texts: Texts, e: Entry) {
    exists fk :: fk in texts && e in Rows(w, fk, texts[fk])
  }

  /** The secondary indexes hold exactly the rows the live texts imply. */
  ghost predicate Indexed(w: World, idx: set<Entry>, texts: Texts) {
    forall e :: e in idx <==> Owned(w, texts, e)
  }

  ghost predicate Sound(w: World, s: Store, texts: Texts) {
    && Parsed(w, texts) && Hashed(w, s.hashByFrame, texts)
    && Posted(w, s.frameByHash, texts) && Indexed(w, s.idx, texts)
  }

  /** Each trajectory's frames are `0 .. frames`. */
  ghost predicate Numbered(meta: map<u64, TrajMeta>, texts: Texts) {
    forall fk :: fk in texts <==> fk.traj in meta && fk.idx < meta[fk.traj].frames
  }

  /** A cooked entry was made from the text that is stored now. */
  ghost predicate CookedFresh(w: World, soa: map<FrameKey, Bytes>, texts: Texts) {
    forall fk <- soa :: fk in texts && w.Cook(texts[fk]) == Some(soa[fk])
  }

  /** The invariant of an environment. */
  ghost predicate Coherent(w: World, s: Store, texts: Texts) {
    && Readable(w.zstd, s.frames, texts) && Sound(w, s, texts)
    && Numbered(s.meta, texts) && CookedFresh(w, s.soa, texts)
  }

  lemma EmptyIsCoherent(w: World)
    ensures Coherent(w, EMPTY, map[])
  {
    forall e ensures e in EMPTY.idx <==> Owned(w, map[], e) {}
  }

  // ---------------------------------------------------------------------
  // One put
  // ---------------------------------------------------------------------

  /** `p` carries what `text` stored under `fk` implies; the stored form is not part of it. */
  ghost predicate Carries(w: World, p: Prepared, fk: FrameKey, text: Text) {
    p.fk == fk && p.hash == w.Digest(text) && w.Parse(text).Some? && RowSet(p) == Rows(w, fk, text)
  }

  lemma BuiltCarries(w: World, fk: FrameKey, text: Text, compress: bool, stored: Bytes)
    requires w.Parse(text).Some?
    ensures Carries(w, Build(w, fk, w.Parse(text).value, text, compress).(stored := stored), fk, text)
  {
    var p := Build(w, fk, w.Parse(text).value, text, compress).(stored := stored);
    var q := Build(w, fk, w.Parse(text).value, text, false);
    SameRows(p, q);
  }

  lemma SameRows(p: Prepared, q: Prepared)
    requires q == p.(stored := q.stored)
    ensures RowSet(p) == RowSet(q)
  {
    forall e ensures e in RowSet(p) <==> e in RowSet(q) {
      assert KeysOf(p, e.table) == KeysOf(q, e.table);
    }
  }

  lemma PutRows(w: World, idx: set<Entry>, texts: Texts, p: Prepared, text: Text)
    requires Indexed(w, idx, texts) && p.fk !in texts && Carries(w, p, p.fk, text)
    ensures Indexed(w, idx + RowSet(p), texts[p.fk := text])
  {
    hide Rows, RowSet;
    var texts1 := texts[p.fk := text];
    forall e ensures e in idx + RowSet(p) <==> Owned(w, texts1, e) {
      if e in RowSet(p) {
        assert p.fk in texts1 && e in Rows(w, p.fk, texts1[p.fk]);
      }
      if Owned(w, texts, e) {
        var fk :| fk in texts && e in Rows(w, fk, texts[fk]);
        assert fk in texts1 && e in Rows(w, fk, texts1[fk]);
      }
      if Owned(w, texts1, e) {
        var fk :| fk in texts1 && e in Rows(w, fk, texts1[fk]);
        assert fk != p.fk ==> Owned(w, texts, e);
      }
    }
  }

  lemma PutHashes(w: World, hashes: map<FrameKey, Hash>, texts: Texts, fk: FrameKey, text: Text)
    requires Hashed(w, hashes, texts)
    ensures Hashed(w, hashes[fk := w.Digest(text)], texts[fk := text])
  {}

  /** A digest that is already posted keeps its frame. */
  lemma PutPosts(w: World, posts: map<Hash, FrameKey>, texts: Texts, fk: FrameKey, text: Text)
    requires Posted(w, posts, texts) && fk !in texts
    ensures var h := w.Digest(text);
      Posted(w, if h in posts then posts else posts[h := fk], texts[fk := text])
  {}

  lemma PutSound(w: World, s: Store, texts: Texts, p: Prepared, text: Text)
    requires Sound(w, s, texts) && p.fk !in texts && Carries(w, p, p.fk, text)
    ensures Sound(w, Put(s, p), texts[p.fk := text])
  {
    hide Indexed, RowSet, Rows, Hashed, Posted;
    PutRows(w, s.idx, texts, p, text);
    PutHashes(w, s.hashByFrame, texts, p.fk, text);
    PutPosts(w, s.frameByHash, texts, p.fk, text);
  }

  // ---------------------------------------------------------------------
  // A run of puts on one trajectory
  // ---------------------------------------------------------------------

  /** The keys of `n` frames of `traj` from index `start` on. */
  predicate InSpan(fk: FrameKey, traj: u64, start: nat, n: nat) {
    fk.traj == traj && start <= fk.idx < start + n
  }

  function SpanKeys(traj: u64, start: nat, n: nat): (keys: set<FrameKey>)
    requires start + n <= U32_MAX
    ensures forall fk: FrameKey :: fk in keys <==> InSpan(fk, traj, start, n)
  {
    if n == 0 then {} else SpanKeys(traj, start, n - 1) + {FrameKey(traj, start + (n - 1))}
  }

  /** `m` with the values `vs` at the frames of `traj` from index `start` on. */
  function WithSpan<V>(m: map<FrameKey, V>, traj: u64, start: nat, vs: seq<V>): (r: map<FrameKey, V>)
    requires start + |vs| <= U32_MAX
    ensures r.Keys == m.Keys + SpanKeys(traj, start, |vs|)
    ensures forall i :: 0 <= i < |vs| ==> r[FrameKey(traj, start + i)] == vs[i]
    ensures forall fk <- r :: !InSpan(fk, traj, start, |vs|) ==> r[fk] == m[fk]
  {
    if vs == [] then m
    else
      var n := |vs| - 1;
      WithSpan(m, traj, start, vs[..n])[FrameKey(traj, start + n) := vs[n]]
  }

  lemma WithSpanAt<V>(m: map<FrameKey, V>, traj: u64, start: nat, vs: seq<V>, fk: FrameKey)
    requires start + |vs| <= U32_MAX && InSpan(fk, traj, start, |vs|)
    ensures fk in WithSpan(m, traj, start, vs) && WithSpan(m, traj, start, vs)[fk] == vs[fk.idx - start]
  {
    hide WithSpan;
    assert fk == FrameKey(traj, start + (fk.idx - start));
  }

  /** None of those keys is live. */
  predicate Unused(texts: Texts, traj: u64, start: nat, n: nat) {
    forall fk <- texts :: !InSpan(fk, traj, start, n)
  }

  ghost predicate CarryAll(w: World, traj: u64, start: nat, spans: seq<Text>, ps: seq<Prepared>)
    requires start + |spans| <= U32_MAX
  {
    && |ps| == |spans|
    && forall i :: 0 <= i < |ps| ==> Carries(w, ps[i], FrameKey(traj, start + i), spans[i])
  }

  lemma {:induction false} PutAllSound(w: World, s: Store, texts: Texts, traj: u64, start: nat, spans: seq<Text>, ps: seq<Prepared>)
    requires Sound(w, s, texts) && start + |spans| <= U32_MAX && CarryAll(w, traj, start, spans, ps)
    requires Unused(texts, traj, start, |spans|)
    ensures Sound(w, PutAll(s, ps), WithSpan(texts, traj, start, spans))
  {
    hide Sound, Carries, Put;
    if spans != [] {
      var n := |spans| - 1;
      PutAllSound(w, s, texts, traj, start, spans[..n], ps[..n]);
      CarriedKey(w, ps[n], FrameKey(traj, start + n), spans[n]);
      PutSound(w, PutAll(s, ps[..n]), WithSpan(texts, traj, start, spans[..n]), ps[n], spans[n]);
    }
  }

  lemma CarriedKey(w: World, p: Prepared, fk: FrameKey, text: Text)
    requires Carries(w, p, fk, text)
    ensures p.fk == fk
  {}

  function StoredOf(ps: seq<Prepared>): (vs: seq<Bytes>)
    ensures |vs| == |ps|
    ensures forall i :: 0 <= i < |ps| ==> vs[i] == ps[i].stored
  {
    seq(|ps|, i requires 0 <= i < |ps| => ps[i].stored)
  }

  /** What a run of puts does to the primary table. */
  lemma {:induction false} PutAllFrames(s: Store, traj: u64, start: nat, ps: seq<Prepared>)
    requires start + |ps| <= U32_MAX
    requires forall i :: 0 <= i < |ps| ==> ps[i].fk == FrameKey(traj, start + i)
    ensures PutAll(s, ps).frames == WithSpan(s.frames, traj, start, StoredOf(ps))
  {
    hide PutAll, StoredOf, WithSpan;
    PutAllLast(s, ps);
    if ps == [] {
      NoSpan(s.frames, traj, start);
    } else {
      var n := |ps| - 1;
      PutAllFrames(s, traj, start, ps[..n]);
      assert StoredOf(ps)[..n] == StoredOf(ps[..n]);
      SpanLast(s.frames, traj, start, StoredOf(ps));
    }
  }

  lemma NoSpan<V>(m: map<FrameKey, V>, traj: u64, start: nat)
    requires start <= U32_MAX
    ensures WithSpan(m, traj, start, []) == m
  {}

  lemma SpanLast<V>(m: map<FrameKey, V>, traj: u64, start: nat, vs: seq<V>)
    requires start + |vs| <= U32_MAX && vs != []
    ensures WithSpan(m, traj, start, vs) ==
      WithSpan(m, traj, start, vs[..|vs| - 1])[FrameKey(traj, start + |vs| - 1) := vs[|vs| - 1]]
  {}

  lemma PutAllLast(s: Store, ps: seq<Prepared>)
    ensures PutAll(s, ps).frames ==
      if ps == [] then s.frames else PutAll(s, ps[..|ps| - 1]).frames[ps[|ps| - 1].fk := ps[|ps| - 1].stored]
  {
    hide RowSet;
  }

  // ---------------------------------------------------------------------
  // Stored forms
  // ---------------------------------------------------------------------

  /** The values the frames `start ..` of a trajectory get: packed when compressing, else the text itself. */
  ghost predicate StoredAs(z: FC.Zstd, start: nat, spans: seq<Text>, compress: bool, stored: seq<Bytes>)
    requires start + |spans| <= U32_MAX
  {
    && |stored| == |spans|
    && if compress then FC.PackAligned(z, FramesFrom(start, spans)) == Ok(stored)
       else forall i :: 0 <= i < |spans| ==> stored[i] == FC.StoreFrame(z, spans[i], false)
  }

  /** Stored values read back as their texts wherever the table holds them. */
  lemma StoredReads(z: FC.Zstd, frames: map<FrameKey, Bytes>, traj: u64, start: nat, spans: seq<Text>,
      compress: bool, stored: seq<Bytes>, k: nat)
    requires FC.Lawful(z) && start + |spans| <= U32_MAX && StoredAs(z, start, spans, compress, stored)
    requires forall i :: 0 <= i < |spans| ==>
      FrameKey(traj, start + i) in frames && frames[FrameKey(traj, start + i)] == stored[i]
    requires k < |spans|
    ensures Read(z, frames, FrameKey(traj, start + k)) == Ok(spans[k])
  {
    hide FC.PackAligned, FC.Lawful, FC.LoadFrame, FC.StoreFrame, FC.DecodeGroup;
    if compress {
      FC.PackDecodes(z, FramesFrom(start, spans), k, Fetch(frames, traj));
    } else {
      FC.StoreLoads(z, spans[k], false);
    }
  }

  /** New values at unused frames of one trajectory leave the table readable. */
  lemma SpanReadable(z: FC.Zstd, frames: map<FrameKey, Bytes>, texts: Texts, traj: u64, start: nat, spans: seq<Text>,
      compress: bool, stored: seq<Bytes>)
    requires FC.Lawful(z) && start + |spans| <= U32_MAX && StoredAs(z, start, spans, compress, stored)
    requires Readable(z, frames, texts) && Unused(texts, traj, start, |spans|)
    ensures Readable(z, WithSpan(frames, traj, start, stored), WithSpan(texts, traj, start, spans))
  {
    hide FC.Lawful, StoredAs, Read, WithSpan;
    StoredLength(z, start, spans, compress, stored);
    var frames1, texts1 := WithSpan(frames, traj, start, stored), WithSpan(texts, traj, start, spans);
    forall fk | fk in texts1 ensures Read(z, frames1, fk) == Ok(texts1[fk]) {
      if InSpan(fk, traj, start, |spans|) {
        WithSpanAt(texts, traj, start, spans, fk);
        StoredReads(z, frames1, traj, start, spans, compress, stored, fk.idx - start);
      } else {
        ReadKept(z, frames, frames1, fk);
      }
    }
  }

  lemma StoredLength(z: FC.Zstd, start: nat, spans: seq<Text>, compress: bool, stored: seq<Bytes>)
    requires start + |spans| <= U32_MAX && StoredAs(z, start, spans, compress, stored)
    ensures |stored| == |spans|
  {}
}
