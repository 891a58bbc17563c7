/** The query as a whole, against the plain filter over every live frame. */
module Selection {
  import opened Prelude
  import opened Utf8
  import opened Keys
  import opened KeyOrder
  import opened F64Order
  import opened Store
  import opened Corpus
  import opened Scan
  import opened Query
  import FC = FrameCodec

  // ---------------------------------------------------------------------
  // One filter
  // ---------------------------------------------------------------------

  ghost predicate Cursors(idx: set<Entry>, rows: Table -> seq<Bytes>) {
    forall t: Table :: Cursor(idx, t, rows(t))
  }

  ghost predicate Kept(w: World, posts: map<Hash, FrameKey>, texts: Texts, f: Filter, fk: FrameKey) {
    fk in texts && Passes(w, posts, f, fk, texts[fk])
  }

  lemma KeptMeans(w: World, posts: map<Hash, FrameKey>, texts: Texts, f: Filter, fk: FrameKey)
    ensures !f.DigestIs? ==> (Kept(w, posts, texts, f, fk) <==> Satisfies(w, texts, f, fk))
  {
    hide Meets;
  }

  /** The scan that answers one filter finds exactly the frames the filter keeps. */
  method ScanFilter(rows: Table -> seq<Bytes>, posts: map<Hash, FrameKey>, f: Filter, traj: Option<u64>,
      ghost w: World, ghost idx: set<Entry>, ghost texts: Texts) returns (s: set<FrameKey>)
    requires Indexed(w, idx, texts) && Cursors(idx, rows) && Posted(w, posts, texts) && Parsed(w, texts)
    ensures forall fk :: fk in s <==> TrajOk(traj, fk) && Kept(w, posts, texts, f, fk)
  {
    hide Indexed, Cursor, RangeHit, PrefixHit, CountHit, MetaHit, Meets, Satisfies, TrajOk, LowBits, HighBits;
    match f
    case DigestIs(h) =>
      s := {};
      TrajOkIs(traj);
      if h in posts && (traj.None? || traj.value == posts[h].traj) {
        s := {posts[h]};
      }
      forall fk ensures fk in s <==> TrajOk(traj, fk) && Kept(w, posts, texts, f, fk) {
        MeetsDigest(w, posts, texts, h, fk);
      }
    case NatomsIn(lo, hi) =>
      CursorHas(idx, rows, Natoms);
      s := ScanRange(rows(Natoms), 4, lo, hi, traj);
      forall fk ensures fk in s <==> TrajOk(traj, fk) && Kept(w, posts, texts, f, fk) {
        NatomsHits(w, idx, texts, rows(Natoms), lo, hi, fk);
        KeptMeans(w, posts, texts, f, fk);
      }
    case HasSymbol(sym) =>
      s := ScanPrefix(rows(Symbol), TextPrefix(sym), traj);
      forall fk ensures fk in s <==> TrajOk(traj, fk) && Kept(w, posts, texts, f, fk) {
        SymbolHits(w, idx, texts, rows(Symbol), sym, fk);
        KeptMeans(w, posts, texts, f, fk);
      }
    case FormulaIs(formula) =>
      s := ScanPrefix(rows(Formula), TextPrefix(formula), traj);
      forall fk ensures fk in s <==> TrajOk(traj, fk) && Kept(w, posts, texts, f, fk) {
        FormulaHits(w, idx, texts, rows(Formula), formula, fk);
        KeptMeans(w, posts, texts, f, fk);
      }
    case CountIn(sym, lo, hi) =>
      s := ScanCounts(rows(ElemCount), sym, lo, hi, traj);
      forall fk ensures fk in s <==> TrajOk(traj, fk) && Kept(w, posts, texts, f, fk) {
        CountHits(w, idx, texts, rows(ElemCount), sym, lo, hi, fk);
        KeptMeans(w, posts, texts, f, fk);
      }
    case Banded(of, lo, hi) =>
      CursorHas(idx, rows, TableOf(of));
      s := ScanRange(rows(TableOf(of)), 8, LowBits(lo), HighBits(hi), traj);
      forall fk ensures fk in s <==> TrajOk(traj, fk) && Kept(w, posts, texts, f, fk) {
        BandHits(w, idx, texts, of, rows(TableOf(of)), lo, hi, fk);
        KeptMeans(w, posts, texts, f, fk);
      }
    case PbcIs(mask) =>
      s := ScanPrefix(rows(Pbc), [mask], traj);
      forall fk ensures fk in s <==> TrajOk(traj, fk) && Kept(w, posts, texts, f, fk) {
        PbcHits(w, idx, texts, rows(Pbc), mask, fk);
        KeptMeans(w, posts, texts, f, fk);
      }
    case MetaIn(channel, lo, hi) =>
      s := ScanMeta(rows(Meta), channel, LowBits(lo), HighBits(hi), traj);
      forall fk ensures fk in s <==> TrajOk(traj, fk) && Kept(w, posts, texts, f, fk) {
        MetaHits(w, idx, texts, rows(Meta), channel, lo, hi, fk);
        KeptMeans(w, posts, texts, f, fk);
      }
    case Flagged(flag) =>
      s := ScanPrefix(rows(Flags), [flag], traj);
      forall fk ensures fk in s <==> TrajOk(traj, fk) && Kept(w, posts, texts, f, fk) {
        FlagHits(w, idx, texts, rows(Flags), flag, fk);
        KeptMeans(w, posts, texts, f, fk);
      }
  }

  lemma CursorHas(idx: set<Entry>, rows: Table -> seq<Bytes>, t: Table)
    requires Cursors(idx, rows)
    ensures LexSorted(rows(t))
  {
    assert Cursor(idx, t, rows(t));
  }

  lemma TrajOkIs(traj: Option<u64>)
    ensures forall fk :: TrajOk(traj, fk) <==> traj.None? || traj.value == fk.traj
  {}

  lemma MeetsDigest(w: World, posts: map<Hash, FrameKey>, texts: Texts, h: Hash, fk: FrameKey)
    requires Posted(w, posts, texts) && Parsed(w, texts)
    ensures Kept(w, posts, texts, DigestIs(h), fk) <==> h in posts && posts[h] == fk
  {}

  // ---------------------------------------------------------------------
  // Intersection
  // ---------------------------------------------------------------------

  predicate InAll<T(==)>(sets: seq<set<T>>, x: T) {
    forall i :: 0 <= i < |sets| ==> x in sets[i]
  }

  predicate BySize<T>(sets: seq<set<T>>) {
    forall i, j :: 0 <= i < j < |sets| ==> |sets[i]| <= |sets[j]|
  }

  /** The stable sort by size. */
  method SortBySize<T>(sets: seq<set<T>>) returns (out: seq<set<T>>)
    ensures BySize(out) && |out| == |sets| && multiset(out) == multiset(sets)
  {
    out := [];
    for n := 0 to |sets|
      invariant BySize(out) && |out| == n && multiset(out) == multiset(sets[..n])
    {
      var i := n;
      while i > 0 && |out[i - 1]| > |sets[n]|
        invariant 0 <= i <= n
        invariant forall j :: i <= j < n ==> |out[j]| > |sets[n]|
      {
        i := i - 1;
      }
      Inserted(out, sets[n], i);
      assert sets[..n + 1] == sets[..n] + [sets[n]];
      out := out[..i] + [sets[n]] + out[i..];
    }
    assert sets[..|sets|] == sets;
  }

  lemma Inserted<T>(out: seq<set<T>>, s: set<T>, i: nat)
    requires BySize(out) && i <= |out| && (i > 0 ==> |out[i - 1]| <= |s|)
    requires forall j :: i <= j < |out| ==> |out[j]| > |s|
    ensures BySize(out[..i] + [s] + out[i..])
    ensures multiset(out[..i] + [s] + out[i..]) == multiset(out) + multiset{s}
  {
    assert out == out[..i] + out[i..];
    InsertedSizes(out, s, i, out[..i] + [s] + out[i..]);
  }

  lemma InsertedSizes<T>(out: seq<set<T>>, s: set<T>, i: nat, r: seq<set<T>>)
    requires BySize(out) && i <= |out| && (i > 0 ==> |out[i - 1]| <= |s|)
    requires forall j :: i <= j < |out| ==> |out[j]| > |s|
    requires r == out[..i] + [s] + out[i..]
    ensures BySize(r)
  {
    forall j, k | 0 <= j < k < |r| ensures |r[j]| <= |r[k]| {
      if j < i {
        assert r[j] == out[j] && |out[j]| <= |s|;
      }
      if k > i {
        assert r[k] == out[k - 1];
      }
    }
  }

  lemma SameInAll<T>(a: seq<set<T>>, b: seq<set<T>>, x: T)
    requires multiset(a) == multiset(b) && InAll(a, x)
    ensures InAll(b, x)
  {
    forall i | 0 <= i < |b| ensures x in b[i] {
      assert b[i] in multiset(b);
      assert b[i] in a;
    }
  }

  /** Intersect smallest first and stop at the empty set: the result is the plain intersection. */
  method SmallestFirst<T(==)>(sets: seq<set<T>>) returns (acc: set<T>)
    requires sets != []
    ensures forall x :: x in acc <==> InAll(sets, x)
  {
    var sorted := SortBySize(sets);
    acc := sorted[0];
    var i := 1;
    while i < |sorted| && acc != {}
      invariant 1 <= i <= |sorted|
      invariant forall x :: x in acc <==> InAll(sorted[..i], x)
    {
      acc := if |sorted[i]| < |acc| then sorted[i] * acc else acc * sorted[i];
      i := i + 1;
    }
    forall x ensures x in acc <==> InAll(sets, x) {
      if x in acc {
        assert i == |sorted|;
        assert sorted[..i] == sorted;
        SameInAll(sorted, sets, x);
      }
      if InAll(sets, x) {
        SameInAll(sets, sorted, x);
        assert InAll(sorted[..i], x);
      }
    }
  }

  // ---------------------------------------------------------------------
  // Limit
  // ---------------------------------------------------------------------

  /** `out` is the first `limit` keys of `s` in table order, or all of them. */
  ghost predicate FirstOf(out: seq<FrameKey>, s: set<FrameKey>, limit: Option<nat>) {
    && Sorted(out) && (forall i :: 0 <= i < |out| ==> out[i] in s)
    && |out| == (if limit.Some? then Min(limit.value, |s|) else |s|)
    && forall k <- s :: k in out || forall i :: 0 <= i < |out| ==> KeyLess(out[i], k)
  }

  lemma TakeFirst(all: seq<FrameKey>, s: set<FrameKey>, limit: Option<nat>)
    requires Lists(all, s)
    ensures var n := if limit.Some? then Min(limit.value, |all|) else |all|;
      FirstOf(all[..n], s, limit)
  {
    var n := if limit.Some? then Min(limit.value, |all|) else |all|;
    ListedSize(all, s);
    forall k | k in s ensures k in all[..n] || forall i :: 0 <= i < n ==> KeyLess(all[..n][i], k) {
      var j :| 0 <= j < |all| && all[j] == k;
      if j < n {
        assert all[..n][j] == k;
      }
    }
  }

  // ---------------------------------------------------------------------
  // Select
  // ---------------------------------------------------------------------

  /** The plain filter: every live frame of the trajectory that every restriction keeps. */
  ghost function Wanted(w: World, posts: map<Hash, FrameKey>, texts: Texts, q: Select): (keys: set<FrameKey>)
    requires |q.meta| <= 7
  {
    set fk | fk in texts && TrajOk(q.traj, fk) && KeptByAll(w, posts, texts, Filters(q), fk)
  }

  ghost predicate KeptByAll(w: World, posts: map<Hash, FrameKey>, texts: Texts, fs: seq<Filter>, fk: FrameKey) {
    forall i :: 0 <= i < |fs| ==> Kept(w, posts, texts, fs[i], fk)
  }

  method ScanAll(rows: Table -> seq<Bytes>, posts: map<Hash, FrameKey>, fs: seq<Filter>, traj: Option<u64>,
      ghost w: World, ghost idx: set<Entry>, ghost texts: Texts) returns (sets: seq<set<FrameKey>>)
    requires Indexed(w, idx, texts) && Cursors(idx, rows) && Posted(w, posts, texts) && Parsed(w, texts)
    ensures |sets| == |fs|
    ensures forall fk :: InAll(sets, fk) <==> KeptByAll(w, posts, texts, fs, fk) && (fs != [] ==> TrajOk(traj, fk))
  {
    hide Indexed, Cursors, Posted, Parsed, Kept, TrajOk;
    sets := [];
    for i := 0 to |fs|
      invariant |sets| == i
      invariant forall j :: 0 <= j < i ==> forall fk :: fk in sets[j] <==> TrajOk(traj, fk) && Kept(w, posts, texts, fs[j], fk)
    {
      var s := ScanFilter(rows, posts, fs[i], traj, w, idx, texts);
      sets := sets + [s];
    }
    forall fk ensures InAll(sets, fk) <==> KeptByAll(w, posts, texts, fs, fk) && (fs != [] ==> TrajOk(traj, fk)) {
      if fs != [] && InAll(sets, fk) {
        assert fk in sets[0];
      }
    }
  }

  /**
   * `select`: the early exits, the prefix scans, the smallest-first intersection and the cut-off lose nothing
   * and add nothing against the plain filter.
   */
  method SelectKeys(s: Store, rows: Table -> seq<Bytes>, q: Select, ghost w: World, ghost texts: Texts)
    returns (out: seq<FrameKey>)
    requires |q.meta| <= 7 && Sound(w, s, texts) && s.frames.Keys == texts.Keys && Cursors(s.idx, rows)
    ensures FirstOf(out, Wanted(w, s.frameByHash, texts, q), q.limit)
  {
    hide Indexed, Cursors, Posted, Parsed, Hashed, Kept, Filters, Lists, FirstOf;
    var fs := Filters(q);
    var sets := ScanAll(rows, s.frameByHash, fs, q.traj, w, s.idx, texts);
    if sets == [] {
      sets := [set fk | fk in s.frames.Keys && (q.traj.None? || q.traj.value == fk.traj)];
      assert InAll(sets, FrameKey(0, 0)) <==> FrameKey(0, 0) in sets[0];
    }
    var acc := SmallestFirst(sets);
    assert acc == Wanted(w, s.frameByHash, texts, q) by {
      forall fk ensures fk in acc <==> fk in Wanted(w, s.frameByHash, texts, q) {
        if fs != [] && KeptByAll(w, s.frameByHash, texts, fs, fk) {
          KeptLives(w, s.frameByHash, texts, fs[0], fk);
        }
      }
    }
    out := Listing(acc);
    TakeFirst(out, acc, q.limit);
    if q.limit.Some? && q.limit.value < |out| {
      out := out[..q.limit.value];
    } else {
      assert out[..|out|] == out;
    }
  }

  lemma KeptLives(w: World, posts: map<Hash, FrameKey>, texts: Texts, f: Filter, fk: FrameKey)
    requires Kept(w, posts, texts, f, fk)
    ensures fk in texts
  {}

  // ---------------------------------------------------------------------
  // What a query asks for, field by field
  // ---------------------------------------------------------------------

  /** `lo <= x` in totalOrder; a bound that lies above every finite number asks nothing. */
  predicate AtLeast(lo: F64, x: F64) {
    Finite(lo) || SignNegative(lo) ==> TotalLe(lo, x)
  }

  predicate AtMost(hi: F64, x: F64) {
    Finite(hi) || !SignNegative(hi) ==> TotalLe(x, hi)
  }

  /** A requested range keeps the finite values between its bounds and drops absent ones. */
  predicate Between(r: Range, x: Option<F64>) {
    r.Given() ==>
      && x.Some? && Finite(x.value)
      && (r.lo.Some? ==> AtLeast(r.lo.value, x.value)) && (r.hi.Some? ==> AtMost(r.hi.value, x.value))
  }

  predicate HasCount(p: Proj, sym: Text, lo: nat, hi: nat) {
    exists i :: 0 <= i < |p.species| && p.species[i].0 == sym && lo <= p.species[i].1 <= hi
  }

  /** A range on the largest force starts at zero when only its upper end is given. */
  function FmaxAsked(q: Select): Range {
    if q.fmax.Given() then Range(Some(Or(q.fmax.lo, 0)), q.fmax.hi) else q.fmax
  }

  /** The query as its fields read; a range on the largest force starts at zero when only its upper end is given. */
  predicate Asked(q: Select, p: Proj) {
    && (q.natomsMin.Some? ==> q.natomsMin.value <= p.nAtoms)
    && (q.natomsMax.Some? ==> p.nAtoms <= q.natomsMax.value)
    && (forall i :: 0 <= i < |q.symbolsAll| ==> Meets(HasSymbol(q.symbolsAll[i]), p))
    && (q.formula.Some? ==> p.formula == q.formula.value && p.formula != [])
    && (forall i :: 0 <= i < |q.countExact| ==> HasCount(p, q.countExact[i].0, q.countExact[i].1, q.countExact[i].1))
    && (forall i :: 0 <= i < |q.countMin| ==> HasCount(p, q.countMin[i].0, q.countMin[i].1, U32_MAX))
    && Between(q.energy, p.energy)
    && (q.fmax.Given() ==> p.hasForces && Between(Range(Some(Or(q.fmax.lo, 0)), q.fmax.hi), p.fmax))
    && Between(q.mass, p.mass) && Between(q.volume, p.volume)
    && (q.pbc.Some? ==> p.pbc == q.pbc)
    && (forall i :: 0 <= i < |q.meta| && i < |p.meta| ==> Between(q.meta[i], p.meta[i]))
    && (q.forces ==> p.hasForces) && (q.velocities ==> p.hasVelocities) && (q.hasEnergy ==> p.energy.Some?)
  }

  lemma KeptAppend(w: World, posts: map<Hash, FrameKey>, texts: Texts, a: seq<Filter>, b: seq<Filter>, fk: FrameKey)
    ensures KeptByAll(w, posts, texts, a + b, fk) <==> KeptByAll(w, posts, texts, a, fk) && KeptByAll(w, posts, texts, b, fk)
  {
    hide Kept;
    var c := a + b;
    if KeptByAll(w, posts, texts, c, fk) {
      forall i | 0 <= i < |a| ensures Kept(w, posts, texts, a[i], fk) {
        assert c[i] == a[i];
      }
      forall i | 0 <= i < |b| ensures Kept(w, posts, texts, b[i], fk) {
        assert c[|a| + i] == b[i];
      }
    }
  }

  lemma {:induction false} KeptFlatten(w: World, posts: map<Hash, FrameKey>, texts: Texts, parts: seq<seq<Filter>>, fk: FrameKey)
    ensures KeptByAll(w, posts, texts, Flatten(parts), fk) <==>
      forall i :: 0 <= i < |parts| ==> KeptByAll(w, posts, texts, parts[i], fk)
  {
    hide KeptByAll;
    if parts == [] {
      KeptNone(w, posts, texts, fk);
    } else {
      KeptFlatten(w, posts, texts, parts[1..], fk);
      KeptAppend(w, posts, texts, parts[0], Flatten(parts[1..]), fk);
      assert forall i :: 0 < i < |parts| ==> parts[i] == parts[1..][i - 1];
    }
  }

  lemma KeptNone(w: World, posts: map<Hash, FrameKey>, texts: Texts, fk: FrameKey)
    ensures KeptByAll(w, posts, texts, [], fk)
  {}

  lemma KeptOne(w: World, posts: map<Hash, FrameKey>, texts: Texts, given: bool, f: Filter, fk: FrameKey)
    requires fk in texts && w.Parse(texts[fk]).Some? && !f.DigestIs?
    ensures KeptByAll(w, posts, texts, OptFilter(given, f), fk) <==> (given ==> Meets(f, w.Parse(texts[fk]).value))
  {
    hide Meets;
    if given {
      assert OptFilter(given, f)[0] == f;
    }
  }

  /** A range scan with defaulted bounds keeps what the range asks for. */
  lemma BandMeans(r: Range, x: Option<F64>, least: F64, most: F64)
    requires r.Given() && least == Or(r.lo, NEG_INF) && most == Or(r.hi, POS_INF)
    ensures InBand(x, least, most) <==> Between(r, x)
  {
    hide OrderedBits, TotalLe;
    if x.Some? && Finite(x.value) {
      LeastMeans(least, x.value);
      MostMeans(most, x.value);
      InfinitiesOutside(x.value);
    }
  }

  lemma LeastMeans(lo: F64, x: F64)
    requires Finite(x)
    ensures LowBits(lo) <= OrderedBits(x).value <==> AtLeast(lo, x)
  {
    hide TotalLe;
    if Finite(lo) {
      OrderedBitsSort(lo, x);
    } else {
      NonFiniteOutside(lo, x);
    }
  }

  lemma MostMeans(hi: F64, x: F64)
    requires Finite(x)
    ensures OrderedBits(x).value <= HighBits(hi) <==> AtMost(hi, x)
  {
    hide TotalLe;
    if Finite(hi) {
      OrderedBitsSort(x, hi);
    } else {
      NonFiniteOutside(hi, x);
    }
  }

  lemma InfinitiesOutside(x: F64)
    requires Finite(x)
    ensures AtLeast(NEG_INF, x) && AtMost(POS_INF, x)
  {
    NonFiniteOutside(NEG_INF, x);
    NonFiniteOutside(POS_INF, x);
  }

  lemma {:induction false} MetaMeans(w: World, posts: map<Hash, FrameKey>, texts: Texts, meta: seq<Range>, fk: FrameKey)
    requires fk in texts && w.Parse(texts[fk]).Some? && |meta| <= 7 == |w.Parse(texts[fk]).value.meta|
    ensures KeptByAll(w, posts, texts, MetaFilters(meta), fk) <==>
      forall i :: 0 <= i < |meta| ==> Between(meta[i], w.Parse(texts[fk]).value.meta[i])
  {
    hide InBand, Between, KeptByAll, OptFilter, Meets;
    if meta == [] {
      KeptNone(w, posts, texts, fk);
    } else {
      var n := |meta| - 1;
      var r, p := meta[n], w.Parse(texts[fk]).value;
      var f := MetaIn(n + 1, Or(r.lo, NEG_INF), Or(r.hi, POS_INF));
      MetaMeans(w, posts, texts, meta[..n], fk);
      KeptAppend(w, posts, texts, MetaFilters(meta[..n]), OptFilter(r.Given(), f), fk);
      KeptOne(w, posts, texts, r.Given(), f, fk);
      ChannelMeans(r, p, n);
      assert forall i :: 0 <= i < n ==> meta[..n][i] == meta[i];
    }
  }

  lemma ChannelMeans(r: Range, p: Proj, n: nat)
    requires n < 7 == |p.meta|
    ensures (r.Given() ==> Meets(MetaIn(n + 1, Or(r.lo, NEG_INF), Or(r.hi, POS_INF)), p)) <==> Between(r, p.meta[n])
  {
    hide InBand;
    if r.Given() {
      BandMeans(r, p.meta[n], Or(r.lo, NEG_INF), Or(r.hi, POS_INF));
      assert (n + 1) % 0x100 == n + 1;
    }
  }

  lemma BandSegment(w: World, posts: map<Hash, FrameKey>, texts: Texts, fk: FrameKey, of: Scalar, r: Range, least: F64, most: F64)
    requires fk in texts && w.Parse(texts[fk]).Some?
    requires r.Given() ==> least == Or(r.lo, NEG_INF) && most == Or(r.hi, POS_INF)
    ensures KeptByAll(w, posts, texts, OptFilter(r.Given(), Banded(of, least, most)), fk) <==>
      Between(r, ScalarOf(w.Parse(texts[fk]).value, of))
  {
    hide InBand, ScalarOf, KeptByAll;
    KeptOne(w, posts, texts, r.Given(), Banded(of, least, most), fk);
    if r.Given() {
      BandMeans(r, ScalarOf(w.Parse(texts[fk]).value, of), least, most);
    }
  }

  /** Where each restriction sits among the segments. */
  lemma SegmentsAre(q: Select)
    requires |q.meta| <= 7
    ensures var parts := Segments(q);
      && parts[0] == (if q.contentHash.Some? then [DigestIs(q.contentHash.value)] else [])
      && parts[1] == OptFilter(q.natomsMin.Some? || q.natomsMax.Some?, NatomsIn(Or(q.natomsMin, 0), Or(q.natomsMax, U32_MAX)))
      && parts[3] == OptFilter(q.formula.Some?, FormulaIs(Or(q.formula, [])))
      && parts[6] == OptFilter(q.energy.Given(), Banded(ByEnergy, Or(q.energy.lo, NEG_INF), Or(q.energy.hi, POS_INF)))
      && parts[7] == OptFilter(q.fmax.Given(), Banded(ByFmax, Or(q.fmax.lo, 0), Or(q.fmax.hi, POS_INF)))
      && parts[8] == OptFilter(q.mass.Given(), Banded(ByMass, Or(q.mass.lo, NEG_INF), Or(q.mass.hi, POS_INF)))
      && parts[9] == OptFilter(q.volume.Given(), Banded(ByVolume, Or(q.volume.lo, NEG_INF), Or(q.volume.hi, POS_INF)))
      && parts[10] == OptFilter(q.pbc.Some?, PbcIs(MaskOf(Or(q.pbc, (false, false, false)))))
      && parts[11] == MetaFilters(q.meta)
      && parts[12] == OptFilter(q.forces, Flagged(FLAG_HAS_FORCES))
      && parts[13] == OptFilter(q.velocities, Flagged(FLAG_HAS_VELOCITIES))
      && parts[14] == OptFilter(q.hasEnergy, Flagged(FLAG_HAS_ENERGY))
    ensures var parts := Segments(q);
      && |parts[2]| == |q.symbolsAll| && |parts[4]| == |q.countExact| && |parts[5]| == |q.countMin|
      && (forall i :: 0 <= i < |q.symbolsAll| ==> parts[2][i] == HasSymbol(q.symbolsAll[i]))
      && (forall i :: 0 <= i < |q.countExact| ==>
        parts[4][i] == CountIn(q.countExact[i].0, q.countExact[i].1, q.countExact[i].1))
      && (forall i :: 0 <= i < |q.countMin| ==> parts[5][i] == CountIn(q.countMin[i].0, q.countMin[i].1, U32_MAX))
  {
    hide MetaFilters, OptFilter, MaskOf, Or;
  }

  /** The list segments: one filter for each entry. */
  lemma ListSegments(w: World, posts: map<Hash, FrameKey>, texts: Texts, q: Select, fk: FrameKey)
    requires |q.meta| <= 7 && fk in texts && w.Parse(texts[fk]).Some?
    ensures var p, parts := w.Parse(texts[fk]).value, Segments(q);
      && (KeptByAll(w, posts, texts, parts[2], fk) <==>
        forall i :: 0 <= i < |q.symbolsAll| ==> Meets(HasSymbol(q.symbolsAll[i]), p))
      && (KeptByAll(w, posts, texts, parts[4], fk) <==>
        forall i :: 0 <= i < |q.countExact| ==> HasCount(p, q.countExact[i].0, q.countExact[i].1, q.countExact[i].1))
      && (KeptByAll(w, posts, texts, parts[5], fk) <==>
        forall i :: 0 <= i < |q.countMin| ==> HasCount(p, q.countMin[i].0, q.countMin[i].1, U32_MAX))
  {
    hide MetaFilters, OptFilter, MaskOf, Segments;
    SegmentsAre(q);
    var p, parts := w.Parse(texts[fk]).value, Segments(q);
    forall i | 0 <= i < |q.symbolsAll|
      ensures Kept(w, posts, texts, parts[2][i], fk) <==> Meets(HasSymbol(q.symbolsAll[i]), p) {}
    forall i | 0 <= i < |q.countExact|
      ensures Kept(w, posts, texts, parts[4][i], fk) <==> HasCount(p, q.countExact[i].0, q.countExact[i].1, q.countExact[i].1) {}
    forall i | 0 <= i < |q.countMin|
      ensures Kept(w, posts, texts, parts[5][i], fk) <==> HasCount(p, q.countMin[i].0, q.countMin[i].1, U32_MAX) {}
  }

  /** The segments for single options. */
  lemma OptSegments(w: World, posts: map<Hash, FrameKey>, texts: Texts, q: Select, fk: FrameKey)
    requires |q.meta| <= 7 && fk in texts && w.Parse(texts[fk]).Some?
    ensures var p, parts := w.Parse(texts[fk]).value, Segments(q);
      && (KeptByAll(w, posts, texts, parts[1], fk) <==>
        (q.natomsMin.Some? ==> q.natomsMin.value <= p.nAtoms) && (q.natomsMax.Some? ==> p.nAtoms <= q.natomsMax.value))
      && (KeptByAll(w, posts, texts, parts[3], fk) <==> (q.formula.Some? ==> p.formula == q.formula.value && p.formula != []))
      && (KeptByAll(w, posts, texts, parts[10], fk) <==>
        (q.pbc.Some? ==> p.pbc == q.pbc))
  {
    hide MetaFilters, MaskOf, OptFilter, Segments, KeptByAll;
    SegmentsAre(q);
    KeptOne(w, posts, texts, q.natomsMin.Some? || q.natomsMax.Some?, NatomsIn(Or(q.natomsMin, 0), Or(q.natomsMax, U32_MAX)), fk);
    KeptOne(w, posts, texts, q.formula.Some?, FormulaIs(Or(q.formula, [])), fk);
    KeptOne(w, posts, texts, q.pbc.Some?, PbcIs(MaskOf(Or(q.pbc, (false, false, false)))), fk);
    var p := w.Parse(texts[fk]).value;
    if q.pbc.Some? && p.pbc.Some? && MaskOf(p.pbc.value) == MaskOf(q.pbc.value) {
      MaskOnce(p.pbc.value, q.pbc.value);
    }
  }

  lemma FlagSegments(w: World, posts: map<Hash, FrameKey>, texts: Texts, q: Select, fk: FrameKey)
    requires |q.meta| <= 7 && fk in texts && w.Parse(texts[fk]).Some?
    ensures var p, parts := w.Parse(texts[fk]).value, Segments(q);
      && (KeptByAll(w, posts, texts, parts[12], fk) <==> (q.forces ==> p.hasForces))
      && (KeptByAll(w, posts, texts, parts[13], fk) <==> (q.velocities ==> p.hasVelocities))
      && (KeptByAll(w, posts, texts, parts[14], fk) <==> (q.hasEnergy ==> p.energy.Some?))
  {
    hide MetaFilters, MaskOf, OptFilter, Segments, KeptByAll;
    SegmentsAre(q);
    KeptOne(w, posts, texts, q.forces, Flagged(FLAG_HAS_FORCES), fk);
    KeptOne(w, posts, texts, q.velocities, Flagged(FLAG_HAS_VELOCITIES), fk);
    KeptOne(w, posts, texts, q.hasEnergy, Flagged(FLAG_HAS_ENERGY), fk);
  }

  lemma DigestSegment(w: World, posts: map<Hash, FrameKey>, texts: Texts, q: Select, fk: FrameKey)
    requires |q.meta| <= 7 && fk in texts && w.Parse(texts[fk]).Some?
    ensures KeptByAll(w, posts, texts, Segments(q)[0], fk) <==>
      (q.contentHash.Some? ==> q.contentHash.value in posts && posts[q.contentHash.value] == fk)
  {
    hide Segments;
    SegmentsAre(q);
    if q.contentHash.Some? {
      assert Segments(q)[0][0] == DigestIs(q.contentHash.value);
    }
  }

  lemma RangeSegments(w: World, posts: map<Hash, FrameKey>, texts: Texts, q: Select, fk: FrameKey)
    requires |q.meta| <= 7 && fk in texts && w.Parse(texts[fk]).Some? && |w.Parse(texts[fk]).value.meta| == 7
    ensures var p, parts := w.Parse(texts[fk]).value, Segments(q);
      && (KeptByAll(w, posts, texts, parts[6], fk) <==> Between(q.energy, p.energy))
      && (KeptByAll(w, posts, texts, parts[7], fk) <==> Between(FmaxAsked(q), ScalarOf(p, ByFmax)))
      && (KeptByAll(w, posts, texts, parts[8], fk) <==> Between(q.mass, p.mass))
      && (KeptByAll(w, posts, texts, parts[9], fk) <==> Between(q.volume, p.volume))
      && (KeptByAll(w, posts, texts, parts[11], fk) <==> forall i :: 0 <= i < |q.meta| ==> Between(q.meta[i], p.meta[i]))
  {
    hide Between, ScalarOf, MaskOf, MetaFilters, KeptByAll, HasCount, Segments;
    SegmentsAre(q);
    BandSegment(w, posts, texts, fk, ByEnergy, q.energy, Or(q.energy.lo, NEG_INF), Or(q.energy.hi, POS_INF));
    BandSegment(w, posts, texts, fk, ByMass, q.mass, Or(q.mass.lo, NEG_INF), Or(q.mass.hi, POS_INF));
    BandSegment(w, posts, texts, fk, ByVolume, q.volume, Or(q.volume.lo, NEG_INF), Or(q.volume.hi, POS_INF));
    BandSegment(w, posts, texts, fk, ByFmax, FmaxAsked(q), Or(q.fmax.lo, 0), Or(q.fmax.hi, POS_INF));
    MetaMeans(w, posts, texts, q.meta, fk);
    ScalarsAre(w.Parse(texts[fk]).value);
  }

  lemma ScalarsAre(p: Proj)
    ensures ScalarOf(p, ByEnergy) == p.energy && ScalarOf(p, ByMass) == p.mass && ScalarOf(p, ByVolume) == p.volume
  {}

  lemma FmaxMeans(q: Select, p: Proj)
    ensures Between(FmaxAsked(q), ScalarOf(p, ByFmax)) <==>
      (q.fmax.Given() ==> p.hasForces && Between(Range(Some(Or(q.fmax.lo, 0)), q.fmax.hi), p.fmax))
  {
    hide Finite, AtLeast, AtMost;
  }

  lemma Fifteen(P: nat -> bool)
    ensures (forall i: nat :: i < 15 ==> P(i)) <==>
      P(0) && P(1) && P(2) && P(3) && P(4) && P(5) && P(6) && P(7) && P(8) && P(9) && P(10) && P(11) && P(12) && P(13) && P(14)
  {}

  /** The plain filter of the scans is the query as its fields read, for the seven channels a frame has. */
  lemma QueryMeans(w: World, posts: map<Hash, FrameKey>, texts: Texts, q: Select, fk: FrameKey)
    requires |q.meta| <= 7 && fk in texts && w.Parse(texts[fk]).Some? && |w.Parse(texts[fk]).value.meta| == 7
    ensures KeptByAll(w, posts, texts, Filters(q), fk) <==>
      && (q.contentHash.Some? ==> q.contentHash.value in posts && posts[q.contentHash.value] == fk)
      && Asked(q, w.Parse(texts[fk]).value)
  {
    hide Between, ScalarOf, MaskOf, KeptByAll, HasCount, Segments, FmaxAsked, Meets, Flatten;
    FmaxMeans(q, w.Parse(texts[fk]).value);
    KeptFlatten(w, posts, texts, Segments(q), fk);
    DigestSegment(w, posts, texts, q, fk);
    OptSegments(w, posts, texts, q, fk);
    FlagSegments(w, posts, texts, q, fk);
    ListSegments(w, posts, texts, q, fk);
    RangeSegments(w, posts, texts, q, fk);
    Fifteen((i: nat) => i < 15 ==> KeptByAll(w, posts, texts, Segments(q)[i], fk));
  }

  // ---------------------------------------------------------------------
  // One key for each text
  // ---------------------------------------------------------------------

  /** The digest tells the live texts apart. */
  ghost predicate Injective(w: World, texts: Texts) {
    forall a, b :: a in texts && b in texts && w.Digest(texts[a]) == w.Digest(texts[b]) ==> texts[a] == texts[b]
  }

  /** The frame its digest is posted to. */
  ghost function PostOf(w: World, posts: map<Hash, FrameKey>, texts: Texts, k: FrameKey): FrameKey
    requires Posted(w, posts, texts) && k in texts
  {
    posts[w.Digest(texts[k])]
  }

  ghost predicate Represented(uniq: seq<FrameKey>, texts: Texts, k: FrameKey)
    requires k in texts
  {
    exists u :: u in uniq && u in texts && texts[u] == texts[k]
  }

  /** The selected keys that are posted under their own digest. */
  ghost predicate Posters(w: World, posts: map<Hash, FrameKey>, texts: Texts, sel: seq<FrameKey>, uniq: seq<FrameKey>)
    requires Posted(w, posts, texts) && forall k <- sel :: k in texts
  {
    forall k :: k in uniq <==> k in sel && PostOf(w, posts, texts, k) == k
  }

  /** `unique_frame_keys`: no two results share a text, and a text is represented exactly when its posted frame is selected. */
  method UniqueFrameKeys(s: Store, rows: Table -> seq<Bytes>, q: Select, ghost w: World, ghost texts: Texts)
    returns (uniq: seq<FrameKey>, ghost sel: seq<FrameKey>)
    requires |q.meta| <= 7 && Sound(w, s, texts) && s.frames.Keys == texts.Keys && Cursors(s.idx, rows)
    ensures FirstOf(sel, Wanted(w, s.frameByHash, texts, q), q.limit)
    ensures forall k <- sel :: k in texts
    ensures Posters(w, s.frameByHash, texts, sel, uniq) && Sorted(uniq)
    ensures Injective(w, texts) ==> forall u, v :: u in uniq && v in uniq && texts[u] == texts[v] ==> u == v
    ensures Injective(w, texts) ==>
      forall k <- sel :: Represented(uniq, texts, k) <==> PostOf(w, s.frameByHash, texts, k) in sel
    ensures Injective(w, texts) && q.traj.None? && q.limit.None? ==>
      forall k <- sel :: Represented(uniq, texts, k)
  {
    hide *;
    SoundParts(w, s, texts);
    var keys := SelectKeys(s, rows, q, w, texts);
    sel := keys;
    SelectedLive(w, s.frameByHash, texts, q, keys);
    uniq := [];
    NoPosters(w, s.frameByHash, texts);
    SelectedSorted(w, s.frameByHash, texts, q, keys);
    assert keys[..0] == [];
    for i := 0 to |keys|
      invariant Posters(w, s.frameByHash, texts, keys[..i], uniq) && Sorted(uniq)
    {
      assert keys[i] in keys;
      var h := s.hashByFrame[keys[i]];
      var posted := h in s.frameByHash && s.frameByHash[h] == keys[i];
      PostersSnoc(w, s.frameByHash, texts, keys, i, uniq);
      PostersSorted(w, s.frameByHash, texts, keys, i, uniq);
      if posted {
        uniq := uniq + [keys[i]];
      }
    }
    assert keys[..|keys|] == keys;
    if Injective(w, texts) {
      OneEach(w, s.frameByHash, texts, sel, uniq);
      if q.traj.None? && q.limit.None? {
        AllRepresented(w, s.frameByHash, texts, q, sel);
      }
    }
  }

  lemma SoundParts(w: World, s: Store, texts: Texts)
    requires Sound(w, s, texts)
    ensures Parsed(w, texts) && Posted(w, s.frameByHash, texts) && s.hashByFrame.Keys == texts.Keys
    ensures forall fk <- texts :: s.hashByFrame[fk] == w.Digest(texts[fk])
  {
    hide Parsed, Posted, Indexed;
  }

  lemma NoPosters(w: World, posts: map<Hash, FrameKey>, texts: Texts)
    requires Posted(w, posts, texts)
    ensures Posters(w, posts, texts, [], []) && Sorted([])
  {}

  lemma SelectedSorted(w: World, posts: map<Hash, FrameKey>, texts: Texts, q: Select, keys: seq<FrameKey>)
    requires |q.meta| <= 7 && FirstOf(keys, Wanted(w, posts, texts, q), q.limit)
    ensures Sorted(keys)
  {
    hide KeptByAll, Sorted;
  }

  /** The next selected key comes behind every one that was kept. */
  lemma PostersSorted(w: World, posts: map<Hash, FrameKey>, texts: Texts, keys: seq<FrameKey>, i: nat, uniq: seq<FrameKey>)
    requires Posted(w, posts, texts) && i < |keys| && Sorted(keys) && forall k <- keys :: k in texts
    requires Posters(w, posts, texts, keys[..i], uniq) && Sorted(uniq)
    ensures Sorted(uniq + [keys[i]])
  {
    hide Posted, PostOf;
    forall j | 0 <= j < |uniq| ensures KeyLess(uniq[j], keys[i]) {
      assert uniq[j] in keys[..i];
    }
  }

  lemma PostersSnoc(w: World, posts: map<Hash, FrameKey>, texts: Texts, keys: seq<FrameKey>, i: nat, uniq: seq<FrameKey>)
    requires Posted(w, posts, texts) && i < |keys| && forall k <- keys :: k in texts
    requires Posters(w, posts, texts, keys[..i], uniq)
    ensures var h := w.Digest(texts[keys[i]]);
      Posters(w, posts, texts, keys[..i + 1], if h in posts && posts[h] == keys[i] then uniq + [keys[i]] else uniq)
  {
    hide PostOf;
    assert keys[..i + 1] == keys[..i] + [keys[i]];
    assert PostOf(w, posts, texts, keys[i]) == posts[w.Digest(texts[keys[i]])] by {
      PostIs(w, posts, texts, keys[i]);
    }
  }

  lemma PostIs(w: World, posts: map<Hash, FrameKey>, texts: Texts, k: FrameKey)
    requires Posted(w, posts, texts) && k in texts
    ensures w.Digest(texts[k]) in posts && PostOf(w, posts, texts, k) == posts[w.Digest(texts[k])]
  {}

  lemma SelectedLive(w: World, posts: map<Hash, FrameKey>, texts: Texts, q: Select, keys: seq<FrameKey>)
    requires |q.meta| <= 7 && FirstOf(keys, Wanted(w, posts, texts, q), q.limit)
    ensures forall k <- keys :: k in texts
  {
    hide KeptByAll, Sorted;
  }

  lemma OneEach(w: World, posts: map<Hash, FrameKey>, texts: Texts, sel: seq<FrameKey>, uniq: seq<FrameKey>)
    requires Posted(w, posts, texts) && Injective(w, texts) && forall k <- sel :: k in texts
    requires Posters(w, posts, texts, sel, uniq)
    ensures forall u, v :: u in uniq && v in uniq && texts[u] == texts[v] ==> u == v
    ensures forall k <- sel :: Represented(uniq, texts, k) <==> PostOf(w, posts, texts, k) in sel
  {
    forall k | k in sel ensures Represented(uniq, texts, k) <==> PostOf(w, posts, texts, k) in sel {
      var p := PostOf(w, posts, texts, k);
      assert texts[p] == texts[k];
      assert PostOf(w, posts, texts, p) == p;
      if p in sel {
        assert p in uniq;
      }
      if u :| u in uniq && u in texts && texts[u] == texts[k] {
        assert PostOf(w, posts, texts, u) == u;
      }
    }
  }

  /**
   * The filters look at the text, so the posted frame passes them when any frame with its text does; a digest filter
   * keeps the posted frame only.
   */
  lemma AllRepresented(w: World, posts: map<Hash, FrameKey>, texts: Texts, q: Select, sel: seq<FrameKey>)
    requires Posted(w, posts, texts) && Parsed(w, texts) && Injective(w, texts)
    requires |q.meta| <= 7 && q.traj.None? && q.limit.None?
    requires FirstOf(sel, Wanted(w, posts, texts, q), q.limit)
    ensures forall k <- sel :: k in texts && PostOf(w, posts, texts, k) in sel
  {
    hide Meets, Filters, Sorted, Segments;
    var all := Wanted(w, posts, texts, q);
    ListedAll(sel, all);
    forall k | k in sel ensures k in texts && PostOf(w, posts, texts, k) in sel {
      assert k in all;
      if q.contentHash.Some? {
        DigestKeepsPost(w, posts, texts, q, k);
      } else {
        NoDigest(q);
        var p, fs := PostOf(w, posts, texts, k), Filters(q);
        assert texts[p] == texts[k];
        forall i | 0 <= i < |fs| ensures Kept(w, posts, texts, fs[i], p) {
          assert Kept(w, posts, texts, fs[i], k);
        }
        assert p in all;
      }
    }
  }

  lemma DigestKeepsPost(w: World, posts: map<Hash, FrameKey>, texts: Texts, q: Select, k: FrameKey)
    requires Posted(w, posts, texts) && |q.meta| <= 7 && q.contentHash.Some?
    requires k in texts && w.Parse(texts[k]).Some? && KeptByAll(w, posts, texts, Filters(q), k)
    ensures PostOf(w, posts, texts, k) == k
  {
    hide KeptByAll, Segments, Flatten;
    KeptFlatten(w, posts, texts, Segments(q), k);
    SegmentsAre(q);
    DigestSegment(w, posts, texts, q, k);
  }

  /** Without a limit the result is the whole set. */
  lemma ListedAll(sel: seq<FrameKey>, all: set<FrameKey>)
    requires FirstOf(sel, all, None)
    ensures forall k <- all :: k in sel
  {
    var listed := set k | k in sel;
    assert Lists(sel, listed);
    ListedSize(sel, listed);
    assert listed <= all;
    SameSize(listed, all);
  }

  lemma NoDigest(q: Select)
    requires |q.meta| <= 7 && q.contentHash.None?
    ensures forall i :: 0 <= i < |Filters(q)| ==> !Filters(q)[i].DigestIs?
  {
    hide Flatten, Segments, MetaFilters, OptFilter;
    NoDigestSegments(q);
    FlattenNoDigest(Segments(q));
  }

  ghost predicate Digestless(fs: seq<Filter>) {
    forall i :: 0 <= i < |fs| ==> !fs[i].DigestIs?
  }

  lemma {:induction false} FlattenNoDigest(parts: seq<seq<Filter>>)
    requires forall i :: 0 <= i < |parts| ==> Digestless(parts[i])
    ensures Digestless(Flatten(parts))
  {
    if parts != [] {
      assert forall i :: 0 <= i < |parts[1..]| ==> parts[1..][i] == parts[i + 1];
      FlattenNoDigest(parts[1..]);
    }
  }

  lemma NoDigestSegments(q: Select)
    requires |q.meta| <= 7 && q.contentHash.None?
    ensures forall i :: 0 <= i < 15 ==> Digestless(Segments(q)[i])
  {
    hide Segments;
    SegmentsAre(q);
    NoDigestMeta(q.meta);
    Fifteen((i: nat) => i < 15 ==> Digestless(Segments(q)[i]));
  }

  lemma {:induction false} NoDigestMeta(meta: seq<Range>)
    requires |meta| <= 7
    ensures Digestless(MetaFilters(meta))
  {
    if meta != [] {
      NoDigestMeta(meta[..|meta| - 1]);
    }
  }
}
