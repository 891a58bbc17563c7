/** Packing a whole stream group by group is packing each trajectory as serial ingest does. */
module MpiStream {
  import opened Prelude
  import opened Utf8
  import opened Keys
  import opened Store
  import opened MpiPlan
  import opened MpiDecode
  import opened MpiRegroup
  import Ingest
  import KeyWire
  import FC = FrameCodec

  // ---------------------------------------------------------------------
  // Splitting
  // ---------------------------------------------------------------------

  lemma {:induction false} LoadAllAppend(z: FC.Zstd, a: seq<Held>, b: seq<Held>)
    ensures LoadAll(z, a + b) == Joined(LoadAll(z, a), LoadAll(z, b))
  {
    hide FC.LoadFrame;
    if b == [] {
      assert a + b == a;
      JoinedNothing(LoadAll(z, a));
    } else {
      var n := |b| - 1;
      LoadAllAppend(z, a, b[..n]);
      assert (a + b)[..|a + b| - 1] == a + b[..n];
      assert (a + b)[|a + b| - 1] == b[n];
      var (x, y, text) := (LoadAll(z, a), LoadAll(z, b[..n]), FC.LoadFrame(z, b[n].stored));
      if x.Ok? && y.Ok? && text.Ok? {
        var last := [FC.Frame(b[n].fk.idx, text.value)];
        assert x.value + y.value + last == x.value + (y.value + last);
      }
    }
  }

  /** Rows whose values are single frames, as they arrive from the wire. */
  predicate Loadable(z: FC.Zstd, rows: seq<Held>) {
    LoadAll(z, rows).Ok?
  }

  lemma PackHeldSplits(z: FC.Zstd, a: seq<Held>, b: seq<Held>)
    requires Loadable(z, a) && Loadable(z, b)
    requires a != [] && b != [] ==> FC.GroupOf(a[|a| - 1].fk.idx) != FC.GroupOf(b[0].fk.idx)
    ensures PackHeld(z, a + b) == Joined(PackHeld(z, a), PackHeld(z, b))
  {
    hide FC.PackAligned, FC.GroupOf, LoadAll, WithStored;
    LoadAllAppend(z, a, b);
    var (fa, fb) := (LoadAll(z, a).value, LoadAll(z, b).value);
    FC.PackSplits(z, fa, fb);
    var (pa, pb) := (FC.PackAligned(z, fa), FC.PackAligned(z, fb));
    if pa.Ok? && pb.Ok? {
      WithStoredAppend(a, b, pa.value, pb.value);
    }
  }

  lemma WithStoredAppend(a: seq<Held>, b: seq<Held>, x: seq<Bytes>, y: seq<Bytes>)
    requires |a| == |x| && |b| == |y|
    ensures WithStored(a + b, x + y) == WithStored(a, x) + WithStored(b, y)
  {}

  lemma {:induction false} LoadableParts(z: FC.Zstd, a: seq<Held>, b: seq<Held>)
    requires Loadable(z, a + b)
    ensures Loadable(z, a) && Loadable(z, b)
  {
    LoadAllAppend(z, a, b);
  }

  /** A stream of whole trajectories can be followed by anything: its groups end where it ends. */
  lemma {:induction false} PackStreamAppend(z: FC.Zstd, s: seq<Held>, nOf: map<u64, u32>, p: nat, b: seq<Held>)
    requires StreamOk(s, nOf) && p <= |s| && Boundary(s, p)
    ensures PackStream(z, s[p..] + b, nOf) == Joined(PackStream(z, s[p..], nOf), PackStream(z, b, nOf))
    decreases |s| - p
  {
    hide PackHeld, NeedAt, StreamOk;
    if p == |s| {
      assert s[p..] + b == b;
      PrefixedNothing(PackStream(z, b, nOf));
    } else {
      var n := NeedAt(s, nOf, p);
      GroupShape(s, nOf, p);
      PackStreamAppend(z, s, nOf, p + n, b);
      FirstGroup(z, s, nOf, p, n, b);
      FirstGroup(z, s, nOf, p, n, []);
      assert s[p..] + [] == s[p..] && s[p + n..] + [] == s[p + n..];
      JoinedAssociates(PackHeld(z, s[p..p + n]), PackStream(z, s[p + n..], nOf), PackStream(z, b, nOf));
    }
  }

  lemma FirstGroup(z: FC.Zstd, s: seq<Held>, nOf: map<u64, u32>, p: nat, n: nat, b: seq<Held>)
    requires p < |s| && n == NeedAt(s, nOf, p) && 0 < n && p + n <= |s|
    ensures PackStream(z, s[p..] + b, nOf) == Joined(PackHeld(z, s[p..p + n]), PackStream(z, s[p + n..] + b, nOf))
  {
    hide PackHeld;
    var t := s[p..] + b;
    assert t[0] == s[p];
    assert NeedAt(t, nOf, 0) == n;
    hide NeedAt;
    assert t[..n] == s[p..p + n];
    assert t[n..] == s[p + n..] + b;
  }

  /** For the frames of one trajectory, group by group is all at once. */
  lemma {:induction false} OneTrajectory(z: FC.Zstd, s: seq<Held>, nOf: map<u64, u32>, p: nat)
    requires StreamOk(s, nOf) && p <= |s| && Boundary(s, p) && Loadable(z, s[p..])
    requires forall q :: 0 <= q < |s| ==> s[q].fk.idx == q
    ensures PackStream(z, s[p..], nOf) == PackHeld(z, s[p..])
    decreases |s| - p
  {
    hide PackHeld, NeedAt, StreamOk, Loadable;
    if p == |s| {
      assert s[p..] == [];
      NothingPacks(z);
    } else {
      var n := NeedAt(s, nOf, p);
      GroupShape(s, nOf, p);
      FirstGroup(z, s, nOf, p, n, []);
      assert s[p..] + [] == s[p..] && s[p + n..] + [] == s[p + n..];
      assert s[p..] == s[p..p + n] + s[p + n..];
      LoadableParts(z, s[p..p + n], s[p + n..]);
      OneTrajectory(z, s, nOf, p + n);
      if p + n < |s| {
        NextGroupDiffers(s, nOf, p);
      }
      PackHeldSplits(z, s[p..p + n], s[p + n..]);
    }
  }

  lemma NothingPacks(z: FC.Zstd)
    ensures PackHeld(z, []) == Ok([])
  {
    assert FC.PackAligned(z, []) == Ok([]);
    assert WithStored([], []) == [];
  }

  lemma NextGroupDiffers(s: seq<Held>, nOf: map<u64, u32>, p: nat)
    requires StreamOk(s, nOf) && p < |s| && Boundary(s, p)
    requires p + NeedAt(s, nOf, p) < |s|
    requires forall q :: 0 <= q < |s| ==> s[q].fk.idx == q
    ensures var n := NeedAt(s, nOf, p);
      0 < n && FC.GroupOf(s[p + n - 1].fk.idx) != FC.GroupOf(s[p + n].fk.idx)
  {
    GroupShape(s, nOf, p);
  }

  // ---------------------------------------------------------------------
  // One file
  // ---------------------------------------------------------------------

  /** The row a frame travels as, before regrouping. */
  function HeldFor(w: World, fk: FrameKey, text: Text): Held {
    match EncodeItem(w, fk, text)
    case Ok(enc) => Held(fk, enc.keys, enc.stored)
    case Err(_) => Held(fk, [], [])
  }

  function FileHelds(w: World, f: File): (hs: seq<Held>)
    requires |f.spans| <= U32_MAX
    ensures |hs| == |f.spans|
    ensures forall i :: 0 <= i < |hs| ==> hs[i] == HeldFor(w, FrameKey(f.traj, i), f.spans[i])
  {
    seq(|f.spans|, i requires 0 <= i < |f.spans| => HeldFor(w, FrameKey(f.traj, i), f.spans[i]))
  }

  predicate FileEncodes(w: World, f: File)
    requires |f.spans| <= U32_MAX
  {
    forall i :: 0 <= i < |f.spans| ==> EncodeItem(w, FrameKey(f.traj, i), f.spans[i]).Ok?
  }

  /** The puts serial ingest makes for one file. */
  function SerialPuts(w: World, f: File): (r: Result<seq<Prepared>>)
    requires |f.spans| <= U32_MAX
    ensures r.Ok? ==> |r.value| == |f.spans|
  {
    var ps :- Ingest.Prepare(w, f.traj, 0, f.spans, true);
    Ingest.GroupPrepared(w.zstd, ps)
  }

  /** `put_encoded`: the rows' keys decoded, in order. */
  function Decoded(rows: seq<Held>): Result<seq<Prepared>> {
    if rows == [] then Ok([])
    else Joined(DecodeRow(rows[0]), Decoded(rows[1..]))
  }

  function DecodeRow(row: Held): Result<seq<Prepared>> {
    var p :- KeyWire.DecodeKeys(row.fk, row.keys, row.stored);
    Ok([p])
  }

  lemma {:induction false} DecodedAppend(a: seq<Held>, b: seq<Held>)
    ensures Decoded(a + b) == Joined(Decoded(a), Decoded(b))
  {
    hide DecodeRow;
    if a == [] {
      assert a + b == b;
      PrefixedNothing(Decoded(b));
    } else {
      DecodedAppend(a[1..], b);
      assert (a + b)[0] == a[0] && (a + b)[1..] == a[1..] + b;
      JoinedAssociates(DecodeRow(a[0]), Decoded(a[1..]), Decoded(b));
    }
  }

  lemma {:induction false} DecodedEach(rows: seq<Held>, ps: seq<Prepared>)
    requires |rows| == |ps|
    requires forall i :: 0 <= i < |rows| ==> DecodeRow(rows[i]) == Ok([ps[i]])
    ensures Decoded(rows) == Ok(ps)
  {
    hide DecodeRow;
    if rows != [] {
      DecodedEach(rows[1..], ps[1..]);
      assert ps == [ps[0]] + ps[1..];
    }
  }

  lemma EncodedRow(w: World, traj: u64, i: u32, text: Text, p: Prepared, stored: Bytes)
    requires EncodeItem(w, FrameKey(traj, i), text).Ok?
    requires Ingest.PreparedAt(w, traj, i, text, true, p)
    ensures var h := HeldFor(w, FrameKey(traj, i), text);
      && h.fk == FrameKey(traj, i) && h.stored == p.stored
      && DecodeRow(h.(stored := stored)) == Ok([p.(stored := stored)])
  {
    hide Build, KeyWire.EncodeKeys, KeyWire.DecodeKeys, KeyWire.Shaped;
    Ingest.BuiltKey(w, FrameKey(traj, i), w.Parse(text).value, text, true);
    KeyWire.BuiltIsShaped(w, FrameKey(traj, i), w.Parse(text).value, text, true);
    KeyWire.KeysRoundTrip(p, stored);
  }

  lemma {:induction false} HeldsLoad(w: World, f: File, hs: seq<Held>, n: nat)
    requires FC.Lawful(w.zstd) && |f.spans| <= U32_MAX && FileEncodes(w, f)
    requires n <= |f.spans| && hs == FileHelds(w, f)
    ensures LoadAll(w.zstd, hs[..n]) == Ok(Ingest.FramesFrom(0, f.spans[..n]))
  {
    hide FC.Lawful, FC.LoadFrame, FC.StoreFrame, EncodeItem, Build;
    if n > 0 {
      HeldsLoad(w, f, hs, n - 1);
      assert hs[..n][..n - 1] == hs[..n - 1];
      assert f.spans[..n][..n - 1] == f.spans[..n - 1];
      var i := n - 1;
      EncodedStored(w, FrameKey(f.traj, i), f.spans[i]);
      FC.StoreLoads(w.zstd, f.spans[i], true);
      assert Ingest.FramesFrom(0, f.spans[..n])
          == Ingest.FramesFrom(0, f.spans[..n - 1]) + [FC.Frame(i, f.spans[i])];
    }
  }

  lemma EncodedStored(w: World, fk: FrameKey, text: Text)
    requires EncodeItem(w, fk, text).Ok?
    ensures w.Parse(text).Some?
    ensures HeldFor(w, fk, text).fk == fk
    ensures HeldFor(w, fk, text).stored == FC.StoreFrame(w.zstd, text, true)
  {
    hide FC.StoreFrame, KeyWire.EncodeKeys;
    Ingest.BuiltKey(w, fk, w.Parse(text).value, text, true);
  }

  /** Packing a file's rows and decoding them gives exactly the puts of serial ingest, or the same failure. */
  lemma FileMatchesSerial(w: World, f: File)
    requires FC.Lawful(w.zstd) && |f.spans| <= U32_MAX && FileEncodes(w, f)
    ensures var packed := PackHeld(w.zstd, FileHelds(w, f));
      && (packed.Ok? <==> SerialPuts(w, f).Ok?)
      && (packed.Ok? ==> Decoded(packed.value) == SerialPuts(w, f))
  {
    hide FC.Lawful, FC.PackAligned, FC.StoreFrame, FC.LoadFrame, EncodeItem, DecodeRow, Ingest.GroupPrepared, LoadAll, Ingest.Prepare, Ingest.PreparedAt, HeldFor;
    var hs := FileHelds(w, f);
    HeldsLoad(w, f, hs, |hs|);
    assert hs[..|hs|] == hs && f.spans[..|hs|] == f.spans;
    forall i | 0 <= i < |f.spans| ensures w.Parse(f.spans[i]).Some? {
      EncodedStored(w, FrameKey(f.traj, i), f.spans[i]);
    }
    Ingest.PrepareMeans(w, f.traj, 0, f.spans, true);
    var ps := Ingest.Prepare(w, f.traj, 0, f.spans, true).value;
    Ingest.GroupedMeans(w, f.traj, 0, f.spans, ps);
    var packed := FC.PackAligned(w.zstd, Ingest.FramesFrom(0, f.spans));
    if packed.Ok? {
      var rows, puts := WithStored(hs, packed.value), Ingest.WithPacked(ps, packed.value);
      forall i | 0 <= i < |rows| ensures DecodeRow(rows[i]) == Ok([puts[i]]) {
        assert Ingest.PreparedAt(w, f.traj, i, f.spans[i], true, ps[i]);
        EncodedRow(w, f.traj, i, f.spans[i], ps[i], packed.value[i]);
      }
      DecodedEach(rows, puts);
    }
  }
}
