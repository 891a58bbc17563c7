/** The byte order LMDB keeps its tables in, and what it means for the keys. */
module KeyOrder {
  import opened Prelude
  import opened Utf8
  import opened Keys

  /** `memcmp` order; a proper prefix comes first. */
  predicate LexLess(a: Bytes, b: Bytes) {
    b != [] && (a == [] || a[0] < b[0] || (a[0] == b[0] && LexLess(a[1..], b[1..])))
  }

  lemma {:induction false} LexIrreflexive(a: Bytes)
    ensures !LexLess(a, a)
  {
    if a != [] {
      LexIrreflexive(a[1..]);
    }
  }

  lemma {:induction false} LexTransitive(a: Bytes, b: Bytes, c: Bytes)
    requires LexLess(a, b) && LexLess(b, c)
    ensures LexLess(a, c)
  {
    if a != [] && a[0] == b[0] == c[0] {
      LexTransitive(a[1..], b[1..], c[1..]);
    }
  }

  lemma {:induction false} LexSamePrefix(p: Bytes, a: Bytes, b: Bytes)
    ensures LexLess(p + a, p + b) <==> LexLess(a, b)
  {
    if p == [] {
      assert p + a == a && p + b == b;
    } else {
      LexSamePrefix(p[1..], a, b);
      assert (p + a)[1..] == p[1..] + a;
      assert (p + b)[1..] == p[1..] + b;
    }
  }

  /** Fixed-width heads that differ decide the comparison. */
  lemma {:induction false} LexHeads(p: Bytes, q: Bytes, a: Bytes, b: Bytes)
    requires |p| == |q| && LexLess(p, q)
    ensures LexLess(p + a, q + b)
  {
    assert (p + a)[1..] == p[1..] + a;
    assert (q + b)[1..] == q[1..] + b;
    if p[0] == q[0] {
      LexHeads(p[1..], q[1..], a, b);
    }
  }

  /** Big-endian integers of one width sort as numbers. */
  lemma {:induction false} BigEndianOrder(m: nat, n: nat, k: nat)
    requires m < n < Pow256(k)
    ensures LexLess(BigEndian(m, k), BigEndian(n, k))
  {
    if k > 0 {
      if m / 0x100 < n / 0x100 {
        BigEndianOrder(m / 0x100, n / 0x100, k - 1);
        LexHeads(BigEndian(m / 0x100, k - 1), BigEndian(n / 0x100, k - 1), [m % 0x100], [n % 0x100]);
      } else {
        LexSamePrefix(BigEndian(m / 0x100, k - 1), [m % 0x100], [n % 0x100]);
      }
    }
  }

  /** The order of `FrameKey`: by trajectory, then by frame. */
  predicate KeyLess(a: FrameKey, b: FrameKey) {
    a.traj < b.traj || (a.traj == b.traj && a.idx < b.idx)
  }

  /** The table order of primary keys is the order of `FrameKey`. */
  lemma FrameKeyOrder(a: FrameKey, b: FrameKey)
    ensures LexLess(FrameKeyBytes(a), FrameKeyBytes(b)) <==> KeyLess(a, b)
  {
    if KeyLess(a, b) {
      FrameKeyAscends(a, b);
    } else if a == b {
      LexIrreflexive(FrameKeyBytes(a));
    } else {
      FrameKeyAscends(b, a);
      if LexLess(FrameKeyBytes(a), FrameKeyBytes(b)) {
        LexTransitive(FrameKeyBytes(a), FrameKeyBytes(b), FrameKeyBytes(a));
        LexIrreflexive(FrameKeyBytes(a));
      }
    }
  }

  lemma FrameKeyAscends(a: FrameKey, b: FrameKey)
    requires KeyLess(a, b)
    ensures LexLess(FrameKeyBytes(a), FrameKeyBytes(b))
  {
    Pow256Values();
    if a.traj < b.traj {
      BigEndianOrder(a.traj, b.traj, 8);
      LexHeads(BigEndian(a.traj, 8), BigEndian(b.traj, 8), BigEndian(a.idx, 4), BigEndian(b.idx, 4));
    } else {
      BigEndianOrder(a.idx, b.idx, 4);
      LexSamePrefix(BigEndian(a.traj, 8), BigEndian(a.idx, 4), BigEndian(b.idx, 4));
    }
  }

  // ---------------------------------------------------------------------
  // Sorted listings
  // ---------------------------------------------------------------------

  predicate Sorted(keys: seq<FrameKey>) {
    forall i, j :: 0 <= i < j < |keys| ==> KeyLess(keys[i], keys[j])
  }

  /** `keys` lists the set `s` in table order. */
  predicate Lists(keys: seq<FrameKey>, s: set<FrameKey>) {
    && Sorted(keys)
    && (forall i :: 0 <= i < |keys| ==> keys[i] in s)
    && forall k <- s :: k in keys
  }

  /** A set has one listing. */
  lemma {:induction false} ListsOnce(a: seq<FrameKey>, b: seq<FrameKey>, s: set<FrameKey>)
    requires Lists(a, s) && Lists(b, s)
    ensures a == b
  {
    if s == {} {
      assert a == [] && b == [];
    } else {
      var k :| k in s;
      assert k in a && k in b;
      var m, n := |a| - 1, |b| - 1;
      LastIsGreatest(a, s);
      LastIsGreatest(b, s);
      assert a[m] == b[n];
      WithoutLast(a, s);
      WithoutLast(b, s);
      ListsOnce(a[..m], b[..n], s - {a[m]});
      assert a == a[..m] + [a[m]] && b == b[..n] + [b[n]];
    }
  }

  lemma LastIsGreatest(a: seq<FrameKey>, s: set<FrameKey>)
    requires Lists(a, s) && a != []
    ensures forall k <- s :: k == a[|a| - 1] || KeyLess(k, a[|a| - 1])
  {
    forall k | k in s ensures k == a[|a| - 1] || KeyLess(k, a[|a| - 1]) {
      var i :| 0 <= i < |a| && a[i] == k;
    }
  }

  lemma WithoutLast(a: seq<FrameKey>, s: set<FrameKey>)
    requires Lists(a, s) && a != []
    ensures Lists(a[..|a| - 1], s - {a[|a| - 1]})
  {
    var m := |a| - 1;
    forall k | k in s - {a[m]} ensures k in a[..m] {
      var i :| 0 <= i < |a| && a[i] == k;
      assert a[..m][i] == k;
    }
  }

  lemma {:induction false} ListedSize(keys: seq<FrameKey>, s: set<FrameKey>)
    requires Lists(keys, s)
    ensures |keys| == |s|
  {
    if keys == [] {
      assert s == {};
    } else {
      WithoutLast(keys, s);
      ListedSize(keys[..|keys| - 1], s - {keys[|keys| - 1]});
    }
  }

  /** Insert one key into a listing. */
  method Insert(keys: seq<FrameKey>, ghost s: set<FrameKey>, k: FrameKey) returns (out: seq<FrameKey>)
    requires Lists(keys, s) && k !in s
    ensures Lists(out, s + {k})
  {
    var i := |keys|;
    while i > 0 && KeyLess(k, keys[i - 1])
      invariant 0 <= i <= |keys|
      invariant forall j :: i <= j < |keys| ==> KeyLess(k, keys[j])
    {
      i := i - 1;
    }
    out := keys[..i] + [k] + keys[i..];
    InsertLists(keys, s, k, i, out);
  }

  lemma InsertLists(keys: seq<FrameKey>, s: set<FrameKey>, k: FrameKey, i: nat, out: seq<FrameKey>)
    requires Lists(keys, s) && k !in s && i <= |keys|
    requires out == keys[..i] + [k] + keys[i..]
    requires i > 0 ==> !KeyLess(k, keys[i - 1])
    requires forall j :: i <= j < |keys| ==> KeyLess(k, keys[j])
    ensures Lists(out, s + {k})
  {
    forall j | 0 <= j < i ensures KeyLess(keys[j], k) {
      assert keys[i - 1] in s;
      assert j < i - 1 ==> KeyLess(keys[j], keys[i - 1]);
    }
    InsertSorted(keys, k, i, out);
    InsertCovers(keys, s, k, i, out);
  }

  lemma InsertSorted(keys: seq<FrameKey>, k: FrameKey, i: nat, out: seq<FrameKey>)
    requires Sorted(keys) && i <= |keys|
    requires out == keys[..i] + [k] + keys[i..]
    requires forall j :: 0 <= j < i ==> KeyLess(keys[j], k)
    requires forall j :: i <= j < |keys| ==> KeyLess(k, keys[j])
    ensures Sorted(out)
  {
    hide KeyLess;
    forall x, y | 0 <= x < y < |out| ensures KeyLess(out[x], out[y]) {
      if x < i {
        assert out[x] == keys[x];
      }
      if y > i {
        assert out[y] == keys[y - 1];
      }
    }
  }

  lemma InsertCovers(keys: seq<FrameKey>, s: set<FrameKey>, k: FrameKey, i: nat, out: seq<FrameKey>)
    requires Lists(keys, s) && i <= |keys|
    requires out == keys[..i] + [k] + keys[i..]
    ensures forall j :: 0 <= j < |out| ==> out[j] in s + {k}
    ensures forall x <- s + {k} :: x in out
  {
    hide Sorted, KeyLess;
    assert out[i] == k;
    forall x | x in s ensures x in out {
      var j :| 0 <= j < |keys| && keys[j] == x;
      assert out[if j < i then j else j + 1] == x;
    }
  }

  /** The keys of a table in cursor order. */
  method Listing(s: set<FrameKey>) returns (keys: seq<FrameKey>)
    ensures Lists(keys, s)
  {
    keys := [];
    var left := s;
    while left != {}
      invariant left <= s && Lists(keys, s - left)
    {
      var k :| k in left;
      keys := Insert(keys, s - left, k);
      left := left - {k};
      assert s - left == s - (left + {k}) + {k};
    }
    assert s - {} == s;
  }
}
