/** Cursor scans over the byte-sorted index tables. */
module Scan {
  import opened Prelude
  import opened Utf8
  import opened Keys
  import opened KeyOrder

  /** A cursor visits its table in byte order. */
  predicate LexSorted(rows: seq<Bytes>) {
    forall i, j :: 0 <= i < j < |rows| ==> LexLess(rows[i], rows[j])
  }

  predicate TrajOk(traj: Option<u64>, fk: FrameKey) {
    traj.Some? ==> traj.value == fk.traj
  }

  function NumberOf(k: Bytes, width: nat): nat
    requires width <= |k|
  {
    FromBigEndian(k[..width])
  }

  function KeyAfter(k: Bytes, width: nat): Option<FrameKey>
    requires width + 12 <= |k|
  {
    FrameKeyFromBytes(k[width..width + 12])
  }

  lemma NumberedParses(n: nat, width: nat, fk: FrameKey)
    requires n < Pow256(width)
    ensures var k := BigEndian(n, width) + FrameKeyBytes(fk);
      |k| == width + 12 && NumberOf(k, width) == n && KeyAfter(k, width) == Some(fk)
  {
    var k := BigEndian(n, width) + FrameKeyBytes(fk);
    BigEndianRoundTrip(n, width);
    FrameKeyRoundTrip(fk);
    assert k[..width] == BigEndian(n, width);
    assert k[width..width + 12] == FrameKeyBytes(fk);
  }

  /** Byte order is number order on the leading big-endian field. */
  lemma NumbersAscend(a: Bytes, b: Bytes, width: nat)
    requires LexLess(a, b) && width <= |a| && width <= |b|
    ensures NumberOf(a, width) <= NumberOf(b, width)
  {
    var m, n := NumberOf(a, width), NumberOf(b, width);
    if n < m {
      FromBigEndianRoundTrip(a[..width]);
      FromBigEndianRoundTrip(b[..width]);
      BigEndianOrder(n, m, width);
      LexHeads(b[..width], a[..width], b[width..], a[width..]);
      assert a == a[..width] + a[width..] && b == b[..width] + b[width..];
      LexTransitive(a, b, a);
      LexIrreflexive(a);
    }
  }

  predicate RangeHit(k: Bytes, width: nat, lo: nat, hi: nat, fk: FrameKey) {
    |k| >= width + 12 && lo <= NumberOf(k, width) <= hi && KeyAfter(k, width) == Some(fk)
  }

  /** The ordered range scans of `select`: leave the table at the first number above the range. */
  method ScanRange(rows: seq<Bytes>, width: nat, lo: nat, hi: nat, traj: Option<u64>) returns (s: set<FrameKey>)
    requires LexSorted(rows)
    ensures forall fk :: fk in s <==> TrajOk(traj, fk) && exists i :: 0 <= i < |rows| && RangeHit(rows[i], width, lo, hi, fk)
  {
    hide RangeHit, LexLess;
    s := {};
    var i := 0;
    while i < |rows|
      invariant 0 <= i <= |rows|
      invariant forall fk :: fk in s <==> TrajOk(traj, fk) && exists j :: 0 <= j < i && RangeHit(rows[j], width, lo, hi, fk)
    {
      var k := rows[i];
      HitIs(k, width, lo, hi);
      if |k| >= width + 12 {
        var n := NumberOf(k, width);
        if n > hi {
          forall j, fk | i <= j < |rows| ensures !RangeHit(rows[j], width, lo, hi, fk) {
            HitIs(rows[j], width, lo, hi);
            if j > i && |rows[j]| >= width + 12 {
              NumbersAscend(k, rows[j], width);
            }
          }
          break;
        }
        if n >= lo {
          var fk := KeyAfter(k, width);
          if fk.Some? && (traj.None? || traj.value == fk.value.traj) {
            s := s + {fk.value};
          }
        }
      }
      i := i + 1;
    }
  }

  lemma HitIs(k: Bytes, width: nat, lo: nat, hi: nat)
    ensures forall fk :: RangeHit(k, width, lo, hi, fk) <==>
      |k| >= width + 12 && lo <= NumberOf(k, width) <= hi && KeyAfter(k, width) == Some(fk)
  {
    hide NumberOf, KeyAfter;
  }

  predicate PrefixHit(k: Bytes, pref: Bytes, fk: FrameKey) {
    pref <= k && |k| >= 12 && FrameKeyFromBytes(k[|k| - 12..]) == Some(fk)
  }

  /** The prefix scans of `select`: every row behind the prefix names its frame in the last 12 bytes. */
  method ScanPrefix(rows: seq<Bytes>, pref: Bytes, traj: Option<u64>) returns (s: set<FrameKey>)
    ensures forall fk :: fk in s <==> TrajOk(traj, fk) && exists i :: 0 <= i < |rows| && PrefixHit(rows[i], pref, fk)
  {
    hide FrameKeyFromBytes;
    s := {};
    for i := 0 to |rows|
      invariant forall fk :: fk in s <==> TrajOk(traj, fk) && exists j :: 0 <= j < i && PrefixHit(rows[j], pref, fk)
    {
      var k := rows[i];
      if pref <= k && |k| >= 12 {
        var fk := FrameKeyFromBytes(k[|k| - 12..]);
        if fk.Some? && (traj.None? || traj.value == fk.value.traj) {
          s := s + {fk.value};
        }
      }
    }
  }

  /** `parse_elem_count_key`. */
  function ParseElemCount(k: Bytes, symbol: Text): Option<(u32, FrameKey)> {
    var pref := TextPrefix(symbol);
    if !(pref <= k) || |k| < |pref| + 4 + 12 then None
    else
      Pow256Values();
      match FrameKeyFromBytes(k[|pref| + 4..|pref| + 4 + 12])
      case None => None
      case Some(fk) => Some((FromBigEndian(k[|pref|..|pref| + 4]), fk))
  }

  lemma ElemCountParses(symbol: Text, count: u32, fk: FrameKey)
    ensures ParseElemCount(ElemCountKey(symbol, count, fk), symbol) == Some((count, fk))
  {
    Pow256Values();
    BigEndianRoundTrip(count, 4);
    FrameKeyRoundTrip(fk);
    var pref, k := TextPrefix(symbol), ElemCountKey(symbol, count, fk);
    assert k[|pref|..|pref| + 4] == BigEndian(count, 4);
    assert k[|pref| + 4..|pref| + 4 + 12] == FrameKeyBytes(fk);
  }

  predicate CountHit(k: Bytes, symbol: Text, lo: nat, hi: nat, fk: FrameKey) {
    var r := ParseElemCount(k, symbol);
    r.Some? && lo <= r.value.0 <= hi && r.value.1 == fk
  }

  method ScanCounts(rows: seq<Bytes>, symbol: Text, lo: nat, hi: nat, traj: Option<u64>) returns (s: set<FrameKey>)
    ensures forall fk :: fk in s <==> TrajOk(traj, fk) && exists i :: 0 <= i < |rows| && CountHit(rows[i], symbol, lo, hi, fk)
  {
    hide ParseElemCount;
    s := {};
    for i := 0 to |rows|
      invariant forall fk :: fk in s <==> TrajOk(traj, fk) && exists j :: 0 <= j < i && CountHit(rows[j], symbol, lo, hi, fk)
    {
      var r := ParseElemCount(rows[i], symbol);
      if r.Some? && lo <= r.value.0 <= hi && (traj.None? || traj.value == r.value.1.traj) {
        s := s + {r.value.1};
      }
    }
  }

  predicate MetaHit(k: Bytes, channel: byte, lo: nat, hi: nat, fk: FrameKey) {
    [channel] <= k && |k| >= 21 && lo <= FromBigEndian(k[1..9]) <= hi && FrameKeyFromBytes(k[9..21]) == Some(fk)
  }

  /** The scan of one metadata channel visits the whole channel: a value above the range is passed over. */
  method ScanMeta(rows: seq<Bytes>, channel: byte, lo: nat, hi: nat, traj: Option<u64>) returns (s: set<FrameKey>)
    ensures forall fk :: fk in s <==> TrajOk(traj, fk) && exists i :: 0 <= i < |rows| && MetaHit(rows[i], channel, lo, hi, fk)
  {
    hide FrameKeyFromBytes, FromBigEndian;
    s := {};
    for i := 0 to |rows|
      invariant forall fk :: fk in s <==> TrajOk(traj, fk) && exists j :: 0 <= j < i && MetaHit(rows[j], channel, lo, hi, fk)
    {
      var k := rows[i];
      if [channel] <= k && |k| >= 21 {
        var bits := FromBigEndian(k[1..9]);
        var fk := FrameKeyFromBytes(k[9..21]);
        if lo <= bits <= hi && fk.Some? && (traj.None? || traj.value == fk.value.traj) {
          s := s + {fk.value};
        }
      }
    }
  }

  /**
   * The separator closes the text: a row of one text starts with another text's prefix only when the texts are
   * the same, because no text holds 0xFF.
   */
  lemma PrefixMatchesOnlyEqual(a: Text, b: Text, rest: Bytes)
    requires TextPrefix(a) <= TextPrefix(b) + rest
    ensures a == b
  {
    NoHighBytes(a);
    NoHighBytes(b);
    var k := TextPrefix(b) + rest;
    assert TextPrefix(a)[|a|] == 0xFF && k[|b|] == 0xFF;
    assert k[..|a|] == a by {
      assert TextPrefix(a) == k[..|a| + 1];
      assert forall i :: 0 <= i < |a| ==> TextPrefix(a)[i] == a[i];
    }
    assert forall i :: 0 <= i < |b| ==> k[i] == b[i];
    assert k[..|b|] == b;
  }
}
