/**
 * The collective ingest as a whole: sessions, batches, regrouping, metadata and the commit round,
 * proved equal to serial ingest of the same files.
 */
module MpiEngine {
  import opened Prelude
  import opened Utf8
  import opened Keys
  import opened Store
  import opened MpiWire
  import opened MpiPlan
  import opened MpiExchange
  import opened MpiDecode
  import opened MpiRegroup
  import opened MpiStream
  import opened MpiSerial
  import opened MpiArrive
  import FC = FrameCodec

  /** The replicated inputs of one ingest and the durable state it starts from. */
  datatype Job = Job(
    w: World,
    files: seq<File>,
    route: Route,
    size: nat,
    nOf: map<u64, u32>,
    prior: map<u32, Store>)

  ghost predicate JobOk(j: Job) {
    && FC.Lawful(j.w.zstd)
    && Counted(j.files) && RouteOk(j.route) && j.size > 0
    && CountsEach(j.files, j.nOf)
  }

  /** One rank's mutable state: buffered rows and the open write transaction of each environment it owns. */
  datatype Rank = Rank(bufs: map<u32, seq<Held>>, sessions: map<u32, Store>)

  function BufOf(bufs: map<u32, seq<Held>>, e: u32): seq<Held> {
    if e in bufs then bufs[e] else []
  }

  ghost function StreamIn(j: Job, e: u32): seq<Held>
    requires JobOk(j)
  {
    FileStream(j.w, j.files, j.route, e)
  }

  /** `k` rows of the stream have arrived, `dr` of them are drained, and the session holds their puts. */
  ghost predicate EnvAt(j: Job, e: u32, buf: seq<Held>, session: Store, k: nat, dr: nat, out: seq<Held>)
    requires JobOk(j)
  {
    var s := StreamIn(j, e);
    && dr <= k <= |s| && Boundary(s, dr) && buf == s[dr..k] && Unwrapped(s, 0, dr)
    && PackStream(j.w.zstd, s, j.nOf) == Prefixed(out, PackStream(j.w.zstd, s[dr..], j.nOf))
    && Decoded(out).Ok?
    && session == PutAll(EnvIn(j.prior, e), Decoded(out).value)
  }

  ghost predicate EnvOk(j: Job, e: u32, buf: seq<Held>, session: Store, k: nat)
    requires JobOk(j)
  {
    exists dr: nat, out: seq<Held> :: EnvAt(j, e, buf, session, k, dr, out)
  }

  // ---------------------------------------------------------------------
  // One environment
  // ---------------------------------------------------------------------

  lemma StreamWhole(j: Job, e: u32)
    requires JobOk(j)
    ensures StreamOk(StreamIn(j, e), j.nOf) && Boundary(StreamIn(j, e), 0)
  {
    StreamsAreWhole(j.w, j.files, j.route, e, j.nOf);
    WholeStartsAligned(StreamIn(j, e), j.nOf);
  }

  lemma FreshSession(j: Job, e: u32)
    requires JobOk(j)
    ensures EnvOk(j, e, [], EnvIn(j.prior, e), 0)
  {
    hide PackStream, FileStream, StreamOk, JobOk, PutAll, Decoded;
    var s := StreamIn(j, e);
    StreamWhole(j, e);
    PrefixedNothing(PackStream(j.w.zstd, s, j.nOf));
    assert s[0..] == s && s[0..0] == [];
    EmptyStream(j.w.zstd, j.nOf);
    PutNothing(EnvIn(j.prior, e));
    assert EnvAt(j, e, [], EnvIn(j.prior, e), 0, 0, []);
  }

  /** Rows that arrive at the end of the buffer. */
  lemma BufferGrows(j: Job, e: u32, buf: seq<Held>, more: seq<Held>, session: Store, k: nat)
    requires JobOk(j) && EnvOk(j, e, buf, session, k)
    requires k + |more| <= |StreamIn(j, e)| && more == StreamIn(j, e)[k..k + |more|]
    ensures EnvOk(j, e, buf + more, session, k + |more|)
  {
    hide PackStream, FileStream, JobOk, PutAll, Decoded, StreamIn, Boundary;
    var dr: nat, out: seq<Held> :| EnvAt(j, e, buf, session, k, dr, out);
    var s := StreamIn(j, e);
    assert s[dr..k] + s[k..k + |more|] == s[dr..k + |more|];
    assert EnvAt(j, e, buf + more, session, k + |more|, dr, out);
  }

  /** `flush_ready` for one environment: drain complete groups and stage their puts. */
  method FlushReady(j: Job, e: u32, buf: seq<Held>, session: Store, ghost k: nat)
    returns (r: Result<(seq<Held>, Store)>)
    requires JobOk(j) && EnvOk(j, e, buf, session, k)
    ensures r.Ok? ==> EnvOk(j, e, r.value.0, r.value.1, k) && |r.value.0| <= |buf|
    ensures r.Ok? ==> |r.value.0| < 64 || r.value.0[0].fk.idx >= 0xFFFF_FFC0
    ensures r.Ok? && k == |StreamIn(j, e)| ==> (r.value.0 == [] <==> Unwrapped(StreamIn(j, e), 0, k))
    ensures r.Err? && AllEncode(j.w, j.files) ==> EnvPuts(j.w, j.files, j.route, e).Err?
  {
    hide AllEncode, EnvPuts, PackStream, FileStream, JobOk, PutAll, Decoded, StreamIn, Boundary, StreamOk;
    ghost var dr: nat, out: seq<Held> :| EnvAt(j, e, buf, session, k, dr, out);
    ghost var s := StreamIn(j, e);
    StreamWhole(j, e);
    var ready, rest, dr1 := DrainReady(j.w.zstd, buf, j.nOf, s, dr);
    if ready.Err? {
      FlushFails(j, e, out, PackStream(j.w.zstd, s[dr..], j.nOf), []);
      return Err(ready.error);
    }
    var puts := Decoded(ready.value);
    if puts.Err? {
      FlushFails(j, e, out, PackStream(j.w.zstd, s[dr1..], j.nOf), ready.value);
      return Err(puts.error);
    }
    FlushStep(j, e, buf, rest, session, k, dr, dr1, out, ready.value);
    r := Ok((rest, PutAll(session, puts.value)));
  }

  /** A group that cannot be packed, or rows that cannot be decoded, fail serial ingest too. */
  lemma FlushFails(j: Job, e: u32, out: seq<Held>, tail: Result<seq<Held>>, ready: seq<Held>)
    requires JobOk(j)
    requires PackStream(j.w.zstd, StreamIn(j, e), j.nOf) == Prefixed(out, Prefixed(ready, tail))
    requires tail.Err? || Decoded(ready).Err?
    ensures AllEncode(j.w, j.files) ==> EnvPuts(j.w, j.files, j.route, e).Err?
  {
    hide AllEncode, EnvPuts, PackStream, FileStream, Decoded;
    if AllEncode(j.w, j.files) {
      StreamMatchesSerial(j.w, j.files, j.route, e, j.nOf);
      if tail.Ok? {
        DecodedAppend(out, ready + tail.value);
        DecodedAppend(ready, tail.value);
      }
    }
  }

  lemma FlushStep(j: Job, e: u32, buf: seq<Held>, rest: seq<Held>, session: Store, k: nat, dr: nat, dr1: nat,
                  out: seq<Held>, ready: seq<Held>)
    requires JobOk(j) && EnvAt(j, e, buf, session, k, dr, out)
    requires dr <= dr1 <= k && Boundary(StreamIn(j, e), dr1) && rest == StreamIn(j, e)[dr1..k]
    requires PackStream(j.w.zstd, StreamIn(j, e)[dr..], j.nOf)
          == Prefixed(ready, PackStream(j.w.zstd, StreamIn(j, e)[dr1..], j.nOf))
    requires Decoded(ready).Ok? && Unwrapped(StreamIn(j, e), dr, dr1)
    ensures EnvOk(j, e, rest, PutAll(session, Decoded(ready).value), k)
  {
    hide PackStream, FileStream, JobOk, PutAll, Decoded, StreamIn, Boundary;
    var tail := PackStream(j.w.zstd, StreamIn(j, e)[dr1..], j.nOf);
    DecodedAppend(out, ready);
    PutAllAppend(EnvIn(j.prior, e), Decoded(out).value, Decoded(ready).value);
    if tail.Ok? {
      assert out + (ready + tail.value) == out + ready + tail.value;
    }
    assert EnvAt(j, e, rest, PutAll(session, Decoded(ready).value), k, dr1, out + ready);
  }

  /** No frame of the environment lies in the last aligned group of the u32 index range. */
  ghost predicate Short(j: Job, e: u32)
    requires JobOk(j)
  {
    Unwrapped(StreamIn(j, e), 0, |StreamIn(j, e)|)
  }

  lemma NoWrapShort(j: Job, e: u32)
    requires JobOk(j) && NoWrap(j.nOf)
    ensures Short(j, e)
  {
    hide FileStream, StreamOk, NoWrap;
    StreamWhole(j, e);
    NoWrapUnwrapped(StreamIn(j, e), j.nOf);
  }

  /** An environment whose whole stream arrived and whose buffer is empty holds exactly the serial puts. */
  lemma Drained(j: Job, e: u32, session: Store)
    requires JobOk(j) && AllEncode(j.w, j.files)
    requires EnvOk(j, e, [], session, |StreamIn(j, e)|)
    ensures EnvPuts(j.w, j.files, j.route, e).Ok? && Short(j, e)
    ensures session == PutAll(EnvIn(j.prior, e), EnvPuts(j.w, j.files, j.route, e).value)
  {
    hide PackStream, FileStream, PutAll, Decoded, Boundary, EnvPuts, AllEncode;
    var s := StreamIn(j, e);
    var dr: nat, out: seq<Held> :| EnvAt(j, e, [], session, |s|, dr, out);
    assert dr == |s|;
    assert s[dr..] == [];
    EmptyStream(j.w.zstd, j.nOf);
    assert out + [] == out;
    StreamMatchesSerial(j.w, j.files, j.route, e, j.nOf);
  }

  // ---------------------------------------------------------------------
  // One rank
  // ---------------------------------------------------------------------

  /** The replicated plan is the plan of this job. */
  ghost predicate PlanFor(j: Job, pl: Plan)
    requires JobOk(j)
  {
    && pl.items == Items(j.files, j.route, j.size)
    && PlanEncodes(j.w, pl) && DedupOk(pl) && RanksInRange(pl, j.size)
  }

  ghost function ArrivedCount(j: Job, pl: Plan, e: u32, hi: nat): nat
    requires hi <= |pl.items|
  {
    |Arrived(j.w, pl.items, e, hi)|
  }

  /** Every environment the rank is to write is open. */
  predicate Opened(files: seq<File>, route: Route, size: nat, d: nat, sessions: map<u32, Store>)
    requires RouteOk(route) && size > 0
  {
    forall i :: 0 <= i < |files| && DestOf(route, size, files[i].traj).owner == d
      ==> DestOf(route, size, files[i].traj).env in sessions
  }

  ghost predicate RankOk(j: Job, pl: Plan, d: nat, st: Rank, hi: nat)
    requires JobOk(j) && hi <= |pl.items|
  {
    && st.bufs.Keys <= st.sessions.Keys
    && Opened(j.files, j.route, j.size, d, st.sessions)
    && forall e <- st.sessions ::
        OwnerOf(j.route, j.size, e) == d && EnvOk(j, e, BufOf(st.bufs, e), st.sessions[e], ArrivedCount(j, pl, e, hi))
  }

  /** A frame's environment decides its owner. */
  lemma EnvDecidesOwner(j: Job, pl: Plan, g: nat) returns (f: nat)
    requires JobOk(j) && PlanFor(j, pl) && g < |pl.items|
    ensures f < |j.files| && pl.items[g].dest == DestOf(j.route, j.size, j.files[f].traj)
    ensures Owner(pl, g) == OwnerOf(j.route, j.size, pl.items[g].dest.env)
  {
    hide FileOf, Items, G0, PlanEncodes, DedupOk, RanksInRange;
    FileOfFinds(j.files, j.route, j.size, g);
    f := FileOf(j.files, g);
  }

  lemma ArrivedInStream(j: Job, pl: Plan, e: u32, lo: nat, hi: nat)
    requires JobOk(j) && PlanFor(j, pl) && lo <= hi <= |pl.items|
    ensures ArrivedCount(j, pl, e, lo) <= ArrivedCount(j, pl, e, hi) <= |StreamIn(j, e)|
    ensures Arrived(j.w, pl.items, e, hi) == StreamIn(j, e)[..ArrivedCount(j, pl, e, hi)]
    ensures hi == |pl.items| ==> ArrivedCount(j, pl, e, hi) == |StreamIn(j, e)|
  {
    hide Arrived, FileStream, Items, PlanEncodes, DedupOk, RanksInRange;
    AllArrived(j.w, j.files, j.route, j.size, e);
    ArrivedGrows(j.w, pl.items, e, lo, hi);
    ArrivedGrows(j.w, pl.items, e, hi, |pl.items|);
  }

  ghost predicate Pushed(bufs0: map<u32, seq<Held>>, bufs: map<u32, seq<Held>>, rows: seq<(u32, Held)>) {
    && (forall e: u32 :: BufOf(bufs, e) == BufOf(bufs0, e) + EnvRows(rows, e))
    && (forall e <- bufs :: e in bufs0 || exists i :: 0 <= i < |rows| && rows[i].0 == e)
  }

  lemma PushStep(bufs0: map<u32, seq<Held>>, bufs: map<u32, seq<Held>>, rows: seq<(u32, Held)>, row: (u32, Held))
    requires Pushed(bufs0, bufs, rows)
    ensures Pushed(bufs0, bufs[row.0 := BufOf(bufs, row.0) + [row.1]], rows + [row])
  {
    var next := bufs[row.0 := BufOf(bufs, row.0) + [row.1]];
    forall e: u32 ensures BufOf(next, e) == BufOf(bufs0, e) + EnvRows(rows + [row], e) {
      EnvRowsPush(rows, row, e);
    }
    forall e | e in next ensures e in bufs0 || exists i :: 0 <= i < |rows + [row]| && (rows + [row])[i].0 == e {
      if e == row.0 {
        assert (rows + [row])[|rows|].0 == e;
      } else if e !in bufs0 {
        var i :| 0 <= i < |rows| && rows[i].0 == e;
        assert (rows + [row])[i].0 == e;
      }
    }
  }

  /** `bufs.entry(id).or_default().push(held)` for every decoded row. */
  method PushRows(bufs0: map<u32, seq<Held>>, rows: seq<(u32, Held)>) returns (bufs: map<u32, seq<Held>>)
    ensures Pushed(bufs0, bufs, rows)
  {
    bufs := bufs0;
    assert rows[..0] == [];
    assert Pushed(bufs0, bufs, []) by {
      assert forall e: u32 :: BufOf(bufs0, e) + [] == BufOf(bufs0, e);
    }
    hide Pushed;
    for i := 0 to |rows|
      invariant Pushed(bufs0, bufs, rows[..i])
    {
      assert rows[..i + 1] == rows[..i] + [rows[i]];
      PushStep(bufs0, bufs, rows[..i], rows[i]);
      bufs := bufs[rows[i].0 := BufOf(bufs, rows[i].0) + [rows[i].1]];
    }
    assert rows[..|rows|] == rows;
  }

  lemma EnvPushed(j: Job, pl: Plan, d: nat, e: u32, buf: seq<Held>, session: Store, b0: nat, b1: nat, more: seq<Held>)
    requires JobOk(j) && PlanFor(j, pl) && b0 <= b1 <= |pl.items| && OwnerOf(j.route, j.size, e) == d
    requires EnvOk(j, e, buf, session, ArrivedCount(j, pl, e, b0))
    requires more == EnvRows(Rows(pl, d, b0, b1), e)
    ensures EnvOk(j, e, buf + more, session, ArrivedCount(j, pl, e, b1))
  {
    hide *;
    NextPiece(j, pl, d, e, b0, b1, ArrivedCount(j, pl, e, b0), more);
    BufferGrows(j, e, buf, more, session, ArrivedCount(j, pl, e, b0));
  }

  lemma KeysPushed(j: Job, pl: Plan, d: nat, st: Rank, bufs: map<u32, seq<Held>>, b0: nat, b1: nat)
    requires JobOk(j) && PlanFor(j, pl) && b0 <= b1 <= |pl.items|
    requires Opened(j.files, j.route, j.size, d, st.sessions) && st.bufs.Keys <= st.sessions.Keys
    requires Pushed(st.bufs, bufs, Rows(pl, d, b0, b1))
    ensures bufs.Keys <= st.sessions.Keys
  {
    var rows := Rows(pl, d, b0, b1);
    hide Rows, EnvRows, JobOk, PlanFor, DestOf;
    forall e | e in bufs ensures e in st.sessions {
      if e !in st.bufs {
        var i :| 0 <= i < |rows| && rows[i].0 == e;
        RowIsOpened(j, pl, d, st.sessions, b0, b1, i);
      }
    }
  }

  lemma RowsPushed(j: Job, pl: Plan, d: nat, st: Rank, bufs: map<u32, seq<Held>>, b0: nat, b1: nat)
    requires JobOk(j) && PlanFor(j, pl) && b0 <= b1 <= |pl.items| && RankOk(j, pl, d, st, b0)
    requires Pushed(st.bufs, bufs, Rows(pl, d, b0, b1))
    ensures RankOk(j, pl, d, Rank(bufs, st.sessions), b1)
  {
    var rows := Rows(pl, d, b0, b1);
    hide EnvOk, Rows, EnvRows, JobOk, PlanFor, OwnerOf, ArrivedCount, Opened, BufOf;
    KeysPushed(j, pl, d, st, bufs, b0, b1);
    forall e | e in st.sessions
      ensures EnvOk(j, e, BufOf(bufs, e), st.sessions[e], ArrivedCount(j, pl, e, b1))
    {
      EnvPushed(j, pl, d, e, BufOf(st.bufs, e), st.sessions[e], b0, b1, EnvRows(rows, e));
    }
  }

  lemma RowIsOpened(j: Job, pl: Plan, d: nat, sessions: map<u32, Store>, b0: nat, b1: nat, i: nat)
    requires JobOk(j) && PlanFor(j, pl) && b0 <= b1 <= |pl.items| && i < |Rows(pl, d, b0, b1)|
    requires Opened(j.files, j.route, j.size, d, sessions)
    ensures Rows(pl, d, b0, b1)[i].0 in sessions
  {
    assert PlanOk(pl);
    hide Rows, Items, DestOf, PlanEncodes, PlanOk;
    var g := RowOwned(pl, d, b0, b1, i);
    var f := EnvDecidesOwner(j, pl, g);
  }

  /** What a batch brings an owned environment is the next piece of its stream. */
  lemma NextPiece(j: Job, pl: Plan, d: nat, e: u32, b0: nat, b1: nat, k: nat, more: seq<Held>)
    requires JobOk(j) && PlanFor(j, pl) && b0 <= b1 <= |pl.items| && OwnerOf(j.route, j.size, e) == d
    requires k == ArrivedCount(j, pl, e, b0) && more == EnvRows(Rows(pl, d, b0, b1), e)
    ensures ArrivedCount(j, pl, e, b1) == k + |more| <= |StreamIn(j, e)|
    ensures more == StreamIn(j, e)[k..k + |more|]
  {
    hide Arrived, EnvRows, Rows, FileStream, Items, StreamIn, OwnerOf;
    forall g | 0 <= g < |pl.items| && pl.items[g].dest.env == e ensures Owner(pl, g) == d {
      var f := EnvDecidesOwner(j, pl, g);
    }
    BatchArrives(j.w, pl, d, e, b0, b1);
    ArrivedInStream(j, pl, e, b0, b1);
    assert Arrived(j.w, pl.items, e, b1)[k..k + |more|] == more;
  }

  lemma FlushKeeps(j: Job, pl: Plan, d: nat, st: Rank, id: u32, buf: seq<Held>, session: Store, hi: nat)
    requires JobOk(j) && hi <= |pl.items| && RankOk(j, pl, d, st, hi) && id in st.bufs
    requires EnvOk(j, id, buf, session, ArrivedCount(j, pl, id, hi))
    ensures RankOk(j, pl, d, Rank(st.bufs[id := buf], st.sessions[id := session]), hi)
  {
    hide EnvOk, JobOk, OwnerOf, ArrivedCount, DestOf;
  }

  /** Serial ingest cannot group the frames of some environment: a frame of a run is longer than `u32`. */
  predicate Refused(j: Job)
    requires Counted(j.files) && RouteOk(j.route)
  {
    !forall i :: 0 <= i < |j.files| ==> SerialPuts(j.w, j.files[i]).Ok?
  }

  lemma RefusedIs(j: Job, e: u32)
    requires JobOk(j) && EnvPuts(j.w, j.files, j.route, e).Err?
    ensures Refused(j)
  {
    hide SerialPuts, FC.Lawful, EnvPuts;
    if !Refused(j) {
      AllPutsOk(j.w, j.files, j.route, e);
    }
  }

  lemma {:induction false} AllPutsOk(w: World, files: seq<File>, route: Route, e: u32)
    requires Counted(files) && RouteOk(route)
    requires forall i :: 0 <= i < |files| ==> SerialPuts(w, files[i]).Ok?
    ensures EnvPuts(w, files, route, e).Ok?
  {
    hide SerialPuts, EnvOf;
    if files != [] {
      AllPutsOk(w, files[..|files| - 1], route, e);
    }
  }

  /** `flush_ready` for every buffered environment of the rank. */
  method FlushAll(j: Job, ghost pl: Plan, ghost d: nat, st0: Rank, ghost hi: nat) returns (r: Result<Rank>)
    requires JobOk(j) && hi <= |pl.items| && RankOk(j, pl, d, st0, hi)
    ensures r.Ok? ==> RankOk(j, pl, d, r.value, hi)
    ensures r.Ok? && NoWrap(j.nOf) && PlanFor(j, pl) && hi == |pl.items| ==> forall e <- r.value.bufs :: r.value.bufs[e] == []
    ensures r.Err? && AllEncode(j.w, j.files) ==> Refused(j)
  {
    hide *;
    JobParts(j);
    ghost var whole := NoWrap(j.nOf) && PlanFor(j, pl) && hi == |pl.items|;
    var st := st0;
    var ids := st.bufs.Keys;
    while ids != {}
      invariant ids <= st.bufs.Keys
      invariant RankOk(j, pl, d, st, hi)
      invariant whole ==> forall e <- st.bufs.Keys - ids :: st.bufs[e] == []
    {
      var id :| id in ids;
      RankEnv(j, pl, d, st, id, hi);
      var flushed := FlushReady(j, id, st.bufs[id], st.sessions[id], ArrivedCount(j, pl, id, hi));
      if flushed.Err? {
        if AllEncode(j.w, j.files) {
          RefusedIs(j, id);
        }
        return Err(flushed.error);
      }
      if whole {
        ArrivedInStream(j, pl, id, hi, hi);
        NoWrapShort(j, id);
        ShortIs(j, id);
      }
      FlushKeeps(j, pl, d, st, id, flushed.value.0, flushed.value.1, hi);
      st := Rank(st.bufs[id := flushed.value.0], st.sessions[id := flushed.value.1]);
      ids := ids - {id};
    }
    r := Ok(st);
  }

  lemma ShortIs(j: Job, e: u32)
    requires JobOk(j)
    ensures Short(j, e) <==> Unwrapped(StreamIn(j, e), 0, |StreamIn(j, e)|)
  {}

  lemma RankEnv(j: Job, pl: Plan, d: nat, st: Rank, id: u32, hi: nat)
    requires JobOk(j) && hi <= |pl.items| && RankOk(j, pl, d, st, hi) && id in st.bufs
    ensures id in st.sessions && EnvOk(j, id, st.bufs[id], st.sessions[id], ArrivedCount(j, pl, id, hi))
  {
    hide EnvOk, JobOk, ArrivedCount, OwnerOf, Opened;
  }

  /** One rank's share of a batch: decode its buffer, queue the rows, stage what is complete. */
  method BatchRank(j: Job, pl: Plan, d: nat, st: Rank, recv: Bytes, b0: nat, b1: nat) returns (r: Result<Rank>)
    requires JobOk(j) && PlanFor(j, pl) && b0 <= b1 <= |pl.items| && RankOk(j, pl, d, st, b0)
    requires recv == Msg(pl, d, b0, b0, b1)
    ensures r.Ok? ==> RankOk(j, pl, d, r.value, b1)
    ensures r.Err? && AllEncode(j.w, j.files) ==> Refused(j)
  {
    assert PlanOk(pl) && DedupOk(pl) && pl.items == Items(j.files, j.route, j.size);
    assert Counted(j.files) && RouteOk(j.route) && j.size > 0;
    hide JobOk, PlanFor, RankOk, Msg, Rows, PlanOk, DedupOk, Items, Counted, Pushed, AllEncode, Refused;
    var rows := DecodeBatch(recv, b0, b1, d, pl, j.files, j.route, j.size);
    var bufs := PushRows(st.bufs, rows);
    RowsPushed(j, pl, d, st, bufs, b0, b1);
    r := FlushAll(j, pl, d, Rank(bufs, st.sessions), b1);
  }

  // ---------------------------------------------------------------------
  // Before and after the batches
  // ---------------------------------------------------------------------

  /** No metadata and no frame record of this trajectory is stored. */
  predicate Unclaimed(s: Store, traj: u64) {
    traj !in s.meta && forall fk <- s.frames :: fk.traj != traj
  }

  predicate AllUnclaimed(files: seq<File>, route: Route, envs: map<u32, Store>)
    requires RouteOk(route)
  {
    forall i :: 0 <= i < |files| ==> Unclaimed(EnvIn(envs, EnvOf(route, files[i].traj)), files[i].traj)
  }

  predicate OwnedUnclaimed(files: seq<File>, route: Route, size: nat, envs: map<u32, Store>, d: nat, n: nat)
    requires RouteOk(route) && size > 0 && n <= |files|
  {
    forall i :: 0 <= i < n && DestOf(route, size, files[i].traj).owner == d
      ==> Unclaimed(EnvIn(envs, EnvOf(route, files[i].traj)), files[i].traj)
  }

  /** Open a session on every environment the rank owns and claim its trajectories inside it. */
  method BeginRank(files: seq<File>, route: Route, size: nat, envs: map<u32, Store>, d: nat)
    returns (r: Result<map<u32, Store>>)
    requires RouteOk(route) && size > 0
    ensures r.Ok? ==>
      && Opened(files, route, size, d, r.value)
      && (forall e <- r.value :: OwnerOf(route, size, e) == d && r.value[e] == EnvIn(envs, e))
      && OwnedUnclaimed(files, route, size, envs, d, |files|)
    ensures r.Err? ==> !AllUnclaimed(files, route, envs)
  {
    hide EnvOf, OwnerOf, EnvIn, Unclaimed;
    var sessions: map<u32, Store> := map[];
    for i := 0 to |files|
      invariant Opened(files[..i], route, size, d, sessions)
      invariant forall e <- sessions :: OwnerOf(route, size, e) == d && sessions[e] == EnvIn(envs, e)
    {
      var dest := DestOf(route, size, files[i].traj);
      if dest.owner == d && dest.env !in sessions {
        sessions := sessions[dest.env := EnvIn(envs, dest.env)];
      }
    }
    assert files[..|files|] == files;
    for i := 0 to |files|
      invariant OwnedUnclaimed(files, route, size, envs, d, i)
    {
      var dest := DestOf(route, size, files[i].traj);
      if dest.owner == d {
        if !Unclaimed(sessions[dest.env], files[i].traj) {
          return Err(Message("trajectory already stored"));
        }
      }
    }
    r := Ok(sessions);
  }

  lemma BegunRankOk(j: Job, pl: Plan, d: nat, sessions: map<u32, Store>)
    requires JobOk(j)
    requires Opened(j.files, j.route, j.size, d, sessions)
    requires forall e <- sessions :: OwnerOf(j.route, j.size, e) == d && sessions[e] == EnvIn(j.prior, e)
    ensures RankOk(j, pl, d, Rank(map[], sessions), 0)
  {
    hide JobOk, EnvOk, Opened, OwnerOf, EnvIn;
    forall e | e in sessions ensures EnvOk(j, e, [], sessions[e], ArrivedCount(j, pl, e, 0)) {
      FreshSession(j, e);
    }
  }

  /** Stage the metadata of the rank's trajectories, in file order. */
  method PutMetas(files: seq<File>, route: Route, size: nat, d: nat, sessions0: map<u32, Store>)
    returns (sessions: map<u32, Store>)
    requires Counted(files) && RouteOk(route) && size > 0
    requires Opened(files, route, size, d, sessions0)
    requires forall e <- sessions0 :: OwnerOf(route, size, e) == d
    ensures sessions.Keys == sessions0.Keys
    ensures forall e <- sessions :: sessions[e] == EnvMetas(sessions0[e], files, route, e)
  {
    sessions := sessions0;
    assert files[..0] == [];
    hide OwnerOf, EnvOf, PutMeta;
    for i := 0 to |files|
      invariant sessions.Keys == sessions0.Keys
      invariant forall e <- sessions :: sessions[e] == EnvMetas(sessions0[e], files[..i], route, e)
    {
      var dest := DestOf(route, size, files[i].traj);
      assert files[..i + 1][..i] == files[..i];
      if dest.owner == d {
        sessions := sessions[dest.env := PutMeta(sessions[dest.env], files[i].traj, MetaOf(files[i]))];
      }
    }
    assert files[..|files|] == files;
  }

  /** Every environment of the rank holds what serial ingest would leave in it. */
  predicate RankDone(j: Job, d: nat, sessions: map<u32, Store>)
    requires Counted(j.files) && RouteOk(j.route) && j.size > 0
  {
    && Opened(j.files, j.route, j.size, d, sessions)
    && forall e <- sessions ::
        OwnerOf(j.route, j.size, e) == d && sessions[e] == SerialEnv(j.w, j.prior, j.files, j.route, e)
  }

  /** The tail and metadata phases of one rank; a buffer that is not empty is an error. */
  method FinishRank(j: Job, ghost pl: Plan, d: nat, st0: Rank) returns (r: Result<map<u32, Store>>)
    requires JobOk(j) && PlanFor(j, pl) && AllEncode(j.w, j.files)
    requires RankOk(j, pl, d, st0, |pl.items|)
    ensures r.Ok? ==> RankDone(j, d, r.value)
    ensures r.Ok? ==> forall e <- r.value :: EnvPuts(j.w, j.files, j.route, e).Ok? && Short(j, e)
    ensures r.Err? ==> Refused(j) || !NoWrap(j.nOf)
  {
    hide *;
    var flushed := FlushAll(j, pl, d, st0, |pl.items|);
    if flushed.Err? {
      return Err(flushed.error);
    }
    var st := flushed.value;
    if exists e <- st.bufs :: st.bufs[e] != [] {
      return Err(Message("MPI ingest left an unfinished frame group"));
    }
    var files, route := j.files, j.route;
    ReadyForMetas(j, pl, d, st);
    var sessions := PutMetas(files, route, j.size, d, st.sessions);
    MetasFinish(j, pl, d, st, sessions);
    r := Ok(sessions);
  }

  lemma ReadyForMetas(j: Job, pl: Plan, d: nat, st: Rank)
    requires JobOk(j) && RankOk(j, pl, d, st, |pl.items|)
    ensures Counted(j.files) && RouteOk(j.route) && j.size > 0
    ensures Opened(j.files, j.route, j.size, d, st.sessions)
    ensures forall e <- st.sessions :: OwnerOf(j.route, j.size, e) == d
  {
    hide EnvOk, Opened, OwnerOf;
  }

  lemma DrainedEnv(j: Job, pl: Plan, d: nat, st: Rank, e: u32)
    requires JobOk(j) && PlanFor(j, pl) && AllEncode(j.w, j.files)
    requires RankOk(j, pl, d, st, |pl.items|) && e in st.sessions
    requires forall e <- st.bufs :: st.bufs[e] == []
    ensures EnvPuts(j.w, j.files, j.route, e).Ok? && Short(j, e)
    ensures st.sessions[e] == PutAll(EnvIn(j.prior, e), EnvPuts(j.w, j.files, j.route, e).value)
  {
    hide EnvOk, JobOk, Opened, OwnerOf, PlanFor, AllEncode, EnvPuts, StreamIn, ArrivedCount, PutAll, Short;
    assert BufOf(st.bufs, e) == [];
    ArrivedInStream(j, pl, e, |pl.items|, |pl.items|);
    Drained(j, e, st.sessions[e]);
  }

  lemma MetasFinish(j: Job, pl: Plan, d: nat, st: Rank, sessions: map<u32, Store>)
    requires JobOk(j) && PlanFor(j, pl) && AllEncode(j.w, j.files)
    requires RankOk(j, pl, d, st, |pl.items|)
    requires forall e <- st.bufs :: st.bufs[e] == []
    requires sessions.Keys == st.sessions.Keys
    requires forall e <- sessions :: sessions[e] == EnvMetas(st.sessions[e], j.files, j.route, e)
    ensures RankDone(j, d, sessions)
    ensures forall e <- sessions :: EnvPuts(j.w, j.files, j.route, e).Ok? && Short(j, e)
  {
    hide JobOk, RankOk, OwnerOf, PlanFor, AllEncode, EnvPuts, PutAll, EnvMetas, DestOf, Short;
    ReadyForMetas(j, pl, d, st);
    forall e | e in sessions
      ensures EnvPuts(j.w, j.files, j.route, e).Ok? && Short(j, e)
      ensures sessions[e] == SerialEnv(j.w, j.prior, j.files, j.route, e)
    {
      DrainedEnv(j, pl, d, st, e);
    }
  }

  // ---------------------------------------------------------------------
  // The plan
  // ---------------------------------------------------------------------

  /** All ranks parse their blocks. `encs` is what they hold together; a rank reads only its own part. */
  method ParseAll(w: World, files: seq<File>, route: Route, size: nat)
    returns (r: Result<(seq<Local>, seq<Enc>)>)
    requires Counted(files) && RouteOk(route) && size > 0
    ensures r.Ok? ==> var (locals, encs) := r.value;
      |locals| == size && EncodedAs(w, Items(files, route, size), encs) && LocalsOk(locals, encs)
    ensures r.Err? ==> exists g :: 0 <= g < Total(files) && Fails(w, Items(files, route, size)[g])
  {
    hide BlockStart, Items, EncodeItem, Fails, Counted, DestOf;
    ghost var items := Items(files, route, size);
    var n := Total(files);
    var locals: seq<Local> := [];
    var encs: seq<Enc> := [];
    BlocksTile(n, size, 0);
    for rank := 0 to size
      invariant |locals| == rank
      invariant |encs| == BlockStart(n, size, rank) <= n
      invariant forall g :: 0 <= g < |encs| ==> EncodeItem(w, items[g].fk, items[g].text) == Ok(encs[g])
      invariant forall k :: 0 <= k < rank ==> LocalIn(locals[k], k, n, size, encs)
    {
      BlocksTile(n, size, rank);
      BlocksOrdered(n, size, rank + 1);
      var (lo, hi) := BlockRange(n, size, rank);
      var local := ParseLocal(w, files, route, size, lo, hi);
      if local.Err? {
        return Err(local.error);
      }
      LocalsGrow(locals, n, size, encs, local.value.encs);
      locals := locals + [local.value];
      encs := encs + local.value.encs;
      assert LocalIn(locals[rank], rank, n, size, encs);
    }
    BlocksTile(n, size, 0);
    assert LocalsOk(locals, encs) by { LocalsComplete(locals, n, size, encs); }
    r := Ok((locals, encs));
  }

  predicate LocalIn(local: Local, r: nat, n: nat, size: nat, encs: seq<Enc>)
    requires r < size
  {
    var (lo, hi) := BlockRange(n, size, r);
    lo <= hi <= |encs| && local.first == lo && local.encs == encs[lo..hi]
  }

  lemma LocalsGrow(locals: seq<Local>, n: nat, size: nat, encs: seq<Enc>, more: seq<Enc>)
    requires |locals| <= size
    requires forall k :: 0 <= k < |locals| ==> LocalIn(locals[k], k, n, size, encs)
    ensures forall k :: 0 <= k < |locals| ==> LocalIn(locals[k], k, n, size, encs + more)
  {
    hide BlockRange;
    forall k | 0 <= k < |locals| ensures LocalIn(locals[k], k, n, size, encs + more) {
      assert LocalIn(locals[k], k, n, size, encs);
      var (lo, hi) := BlockRange(n, size, k);
      assert (encs + more)[lo..hi] == encs[lo..hi];
    }
  }

  lemma LocalsComplete(locals: seq<Local>, n: nat, size: nat, encs: seq<Enc>)
    requires 0 < |locals| == size && |encs| == n
    requires forall k :: 0 <= k < size ==> LocalIn(locals[k], k, n, size, encs)
    ensures LocalsOk(locals, encs)
  {
    hide BlockRange;
    forall r | 0 <= r < size ensures LocalOk(locals[r], r, size, encs) {
      assert LocalIn(locals[r], r, n, size, encs);
    }
  }

  /** Buffers longer than `usize` do not exist. */
  predicate Representable(encs: seq<Enc>) {
    |encs| <= USIZE_MAX && forall g :: 0 <= g < |encs| ==> |encs[g].keys| <= USIZE_MAX && |encs[g].stored| <= USIZE_MAX
  }

  lemma PlanReady(j: Job, pl: Plan)
    requires JobOk(j) && pl.items == Items(j.files, j.route, j.size)
    requires EncodedAs(j.w, pl.items, pl.encs) && Representable(pl.encs)
    requires Winners(pl.items, HashesOf(pl.encs), pl.first) && CollisionFree(j.w, pl.items)
    ensures PlanFor(j, pl)
  {
    hide Items, CollisionFree, OwnerOf, EnvOf, EncodeItem, WinnerOf;
    forall g | 0 <= g < |pl.items|
      ensures Owner(pl, g) == OwnerOf(j.route, j.size, pl.items[g].dest.env) && Owner(pl, g) < j.size
    {
      ItemOwner(j, pl.items, g);
    }
    forall g | 0 <= g < |pl.items|
      ensures pl.first[g] <= g && pl.first[pl.first[g]] == pl.first[g]
      ensures pl.items[pl.first[g]].dest.env == pl.items[g].dest.env
      ensures pl.encs[pl.first[g]].stored == pl.encs[g].stored
    {
      WinnerBytes(j.w, pl.items, pl.encs, pl.first, g);
    }
  }

  lemma ItemOwner(j: Job, items: seq<Item>, g: nat)
    requires JobOk(j) && items == Items(j.files, j.route, j.size) && g < |items|
    ensures items[g].dest.owner == OwnerOf(j.route, j.size, items[g].dest.env) < j.size
  {
    hide FileOf, Items, G0;
    FileOfFinds(j.files, j.route, j.size, g);
  }

  /** Every frame of every file encoded. */
  lemma EncodedFiles(w: World, files: seq<File>, route: Route, size: nat, encs: seq<Enc>)
    requires Counted(files) && RouteOk(route) && size > 0
    requires EncodedAs(w, Items(files, route, size), encs)
    ensures AllEncode(w, files)
  {
    hide Items, EncodeItem, DestOf, G0;
    forall f, i | 0 <= f < |files| && 0 <= i < |files[f].spans|
      ensures EncodeItem(w, FrameKey(files[f].traj, i), files[f].spans[i]).Ok?
    {
      ItemAt(files, route, size, f, i);
    }
  }

  // ---------------------------------------------------------------------
  // All ranks together
  // ---------------------------------------------------------------------

  ghost predicate RanksOk(j: Job, pl: Plan, ranks: seq<Rank>, hi: nat)
    requires JobOk(j) && hi <= |pl.items|
  {
    |ranks| == j.size && forall d :: 0 <= d < j.size ==> RankOk(j, pl, d, ranks[d], hi)
  }

  /** Sessions on every rank, or an error on all of them. */
  method BeginAll(files: seq<File>, route: Route, size: nat, envs: map<u32, Store>) returns (r: Result<seq<map<u32, Store>>>)
    requires RouteOk(route) && size > 0
    ensures r.Ok? <==> AllUnclaimed(files, route, envs)
    ensures r.Ok? ==> |r.value| == size
    ensures r.Ok? ==> forall d :: 0 <= d < size ==> Begun(files, route, size, envs, d, r.value[d])
  {
    var all: seq<map<u32, Store>> := [];
    hide OwnerOf, EnvOf, EnvIn, Unclaimed, Opened, Begun;
    for d := 0 to size
      invariant |all| == d
      invariant forall k :: 0 <= k < d ==> Begun(files, route, size, envs, k, all[k])
      invariant forall k :: 0 <= k < d ==> OwnedUnclaimed(files, route, size, envs, k, |files|)
    {
      var sessions := BeginRank(files, route, size, envs, d);
      if sessions.Err? {
        return Err(sessions.error);
      }
      assert Begun(files, route, size, envs, d, sessions.value) by {
        BegunIs(files, route, size, envs, d, sessions.value);
      }
      all := all + [sessions.value];
    }
    forall i | 0 <= i < |files| ensures Unclaimed(EnvIn(envs, EnvOf(route, files[i].traj)), files[i].traj) {
      assert OwnedUnclaimed(files, route, size, envs, DestOf(route, size, files[i].traj).owner, |files|);
    }
    r := Ok(all);
  }

  predicate Begun(files: seq<File>, route: Route, size: nat, envs: map<u32, Store>, d: nat, sessions: map<u32, Store>)
    requires RouteOk(route) && size > 0
  {
    && Opened(files, route, size, d, sessions)
    && forall e <- sessions :: OwnerOf(route, size, e) == d && sessions[e] == EnvIn(envs, e)
  }

  lemma BegunIs(files: seq<File>, route: Route, size: nat, envs: map<u32, Store>, d: nat, sessions: map<u32, Store>)
    requires RouteOk(route) && size > 0 && Opened(files, route, size, d, sessions)
    requires forall e <- sessions :: OwnerOf(route, size, e) == d && sessions[e] == EnvIn(envs, e)
    ensures Begun(files, route, size, envs, d, sessions)
  {}

  method StartRanks(j: Job, ghost pl: Plan, sessions: seq<map<u32, Store>>) returns (ranks: seq<Rank>)
    requires JobOk(j) && |sessions| == j.size
    requires forall d :: 0 <= d < j.size ==> Begun(j.files, j.route, j.size, j.prior, d, sessions[d])
    ensures RanksOk(j, pl, ranks, 0)
  {
    hide JobOk, RankOk, Begun;
    ranks := [];
    for d := 0 to j.size
      invariant |ranks| == d
      invariant forall k :: 0 <= k < d ==> RankOk(j, pl, k, ranks[k], 0)
    {
      BegunStarts(j, pl, d, sessions[d]);
      ranks := ranks + [Rank(map[], sessions[d])];
    }
  }

  lemma BegunStarts(j: Job, pl: Plan, d: nat, sessions: map<u32, Store>)
    requires JobOk(j) && Begun(j.files, j.route, j.size, j.prior, d, sessions)
    ensures RankOk(j, pl, d, Rank(map[], sessions), 0)
  {
    hide JobOk, RankOk, Opened, OwnerOf, EnvIn;
    BegunRankOk(j, pl, d, sessions);
  }

  /** One exchanged batch on every rank. */
  method BatchAll(j: Job, pl: Plan, ranks0: seq<Rank>, recv: seq<Bytes>, b0: nat, b1: nat) returns (r: Result<seq<Rank>>)
    requires JobOk(j) && PlanFor(j, pl) && PlanOk(pl) && b0 <= b1 <= |pl.items| && RanksOk(j, pl, ranks0, b0)
    requires |recv| == j.size && forall d :: 0 <= d < j.size ==> DeliveredTo(pl, b0, b1, d, recv[d])
    ensures r.Ok? ==> RanksOk(j, pl, r.value, b1)
    ensures r.Err? && AllEncode(j.w, j.files) ==> Refused(j)
  {
    hide JobOk, PlanFor, RankOk, Msg, PlanOk, AllEncode, Refused;
    var ranks: seq<Rank> := [];
    for d := 0 to j.size
      invariant |ranks| == d
      invariant forall k :: 0 <= k < d ==> RankOk(j, pl, k, ranks[k], b1)
    {
      assert DeliveredTo(pl, b0, b1, d, recv[d]);
      var next := BatchRank(j, pl, d, ranks0[d], recv[d], b0, b1);
      if next.Err? {
        return Err(next.error);
      }
      ranks := ranks + [next.value];
    }
    r := Ok(ranks);
  }

  /** Every record fits one collective, its payload included. */
  predicate Narrow(pl: Plan)
    requires PlanOk(pl)
  {
    forall g :: 0 <= g < |pl.items| ==> FullBytes(pl.encs[g]) <= I32_MAX
  }

  /** The record of a frame that carries its payload. */
  function FullBytes(enc: Enc): nat {
    RecordBytes(|enc.keys|, |enc.stored|, true)
  }

  function EncBytes(encs: seq<Enc>): nat {
    if encs == [] then 0 else EncBytes(encs[..|encs| - 1]) + FullBytes(encs[|encs| - 1])
  }

  lemma {:induction false} BatchBytes(pl: Plan, b0: nat, lo: nat, hi: nat)
    requires PlanOk(pl) && lo <= hi <= |pl.items|
    ensures SumLen(pl, b0, lo, hi) <= EncBytes(pl.encs[..hi])
    decreases hi
  {
    hide PlanOk, RecOf;
    if lo < hi {
      BatchBytes(pl, b0, lo, hi - 1);
      RecordWithin(pl, b0, hi - 1);
      assert pl.encs[..hi][..hi - 1] == pl.encs[..hi - 1];
    }
  }

  lemma RecordWithin(pl: Plan, b0: nat, g: nat)
    requires PlanOk(pl) && g < |pl.items|
    ensures |pl.encs| == |pl.items| && |RecOf(pl, b0, g)| <= FullBytes(pl.encs[g])
    ensures pl.first[g] == g || pl.first[g] < b0 ==> |RecOf(pl, b0, g)| == FullBytes(pl.encs[g])
  {
    RecLength(pl, b0, g);
  }

  lemma NarrowExchanges(pl: Plan, b0: nat)
    requires PlanOk(pl) && Narrow(pl) && b0 < |pl.items| && EncBytes(pl.encs) <= U64_MAX
    ensures SumLen(pl, b0, b0, |pl.items|) <= U64_MAX && |RecOf(pl, b0, b0)| <= I32_MAX
  {
    hide RecOf, SumLen, EncBytes;
    BatchBytes(pl, b0, b0, |pl.items|);
    assert pl.encs[..|pl.items|] == pl.encs;
    RecordWithin(pl, b0, b0);
  }

  /** The winners among the first `b0` frames fit: each was in a batch that was exchanged, payload and all. */
  predicate WinnersNarrow(pl: Plan, b0: nat)
    requires PlanOk(pl) && b0 <= |pl.items|
  {
    forall g :: 0 <= g < b0 && pl.first[g] == g ==> FullBytes(pl.encs[g]) <= I32_MAX
  }

  lemma BatchNarrow(pl: Plan, size: nat, b0: nat, b1: nat, recv: seq<Bytes>)
    requires PlanOk(pl) && RanksInRange(pl, size) && b0 <= b1 <= |pl.items| && WinnersNarrow(pl, b0)
    requires |recv| == size && forall d :: 0 <= d < size ==> DeliveredTo(pl, b0, b1, d, recv[d])
    ensures WinnersNarrow(pl, b1)
  {
    hide DeliveredTo, RecOf;
    forall g | b0 <= g < b1 && pl.first[g] == g ensures FullBytes(pl.encs[g]) <= I32_MAX {
      DeliveredNarrow(pl, b0, b1, Owner(pl, g), recv[Owner(pl, g)], g);
      RecordWithin(pl, b0, g);
    }
  }

  lemma NoneNarrow(pl: Plan)
    requires PlanOk(pl)
    ensures WinnersNarrow(pl, 0)
  {}

  /** A duplicate's record is as long as its winner's. */
  lemma AllNarrow(j: Job, pl: Plan)
    requires JobOk(j) && PlanOk(pl) && pl.items == Items(j.files, j.route, j.size)
    requires EncodedAs(j.w, pl.items, pl.encs) && CollisionFree(j.w, pl.items)
    requires Winners(pl.items, HashesOf(pl.encs), pl.first) && WinnersNarrow(pl, |pl.items|)
    ensures Narrow(pl) && WireNarrow(j.w, Items(j.files, j.route, j.size))
  {
    hide Items, CollisionFree, EncodeItem, WinnerOf, FullBytes, FC.Lawful, CountsEach;
    forall g | 0 <= g < |pl.items| ensures FullBytes(pl.encs[g]) <= I32_MAX {
      WinnerBytes(j.w, pl.items, pl.encs, pl.first, g);
      SameBytes(pl.encs[pl.first[g]], pl.encs[g]);
    }
    forall g | 0 <= g < |pl.items| ensures ItemNarrow(j.w, pl.items[g]) {
      assert EncodeItem(j.w, pl.items[g].fk, pl.items[g].text) == Ok(pl.encs[g]);
    }
  }

  lemma SameBytes(a: Enc, b: Enc)
    requires |a.keys| == |b.keys| && a.stored == b.stored
    ensures FullBytes(a) == FullBytes(b)
  {}

  /** The batch loop: exchange, decode, regroup and stage until every frame has arrived. */
  method Batches(j: Job, locals: seq<Local>, pl: Plan, ranks0: seq<Rank>, batch: nat, healthy: bool)
    returns (r: Result<seq<Rank>>)
    requires JobOk(j) && PlanFor(j, pl) && PlanOk(pl) && RanksInRange(pl, j.size)
    requires |locals| == j.size && LocalsOk(locals, pl.encs) && |pl.items| == |pl.encs| <= USIZE_MAX
    requires RanksOk(j, pl, ranks0, 0)
    ensures r.Ok? ==> RanksOk(j, pl, r.value, |pl.items|) && WinnersNarrow(pl, |pl.items|)
    ensures r.Err? && healthy && AllEncode(j.w, j.files) && EncBytes(pl.encs) <= U64_MAX ==> Refused(j) || !Narrow(pl)
  {
    hide *;
    NoneNarrow(pl);
    var ranks := ranks0;
    var b0 := 0;
    while b0 < |pl.items|
      invariant 0 <= b0 <= |pl.items|
      invariant RanksOk(j, pl, ranks, b0) && WinnersNarrow(pl, b0)
      decreases |pl.items| - b0
    {
      var exchanged := ExchangeBatch(locals, pl, b0, batch);
      if exchanged.Err? {
        if Narrow(pl) && EncBytes(pl.encs) <= U64_MAX {
          NarrowExchanges(pl, b0);
        }
        return Err(exchanged.error);
      }
      var b1, recv := exchanged.value.0, exchanged.value.1;
      SizeOk();
      BatchAdvances(b0, batch, |pl.items|);
      BatchNarrow(pl, j.size, b0, b1, recv);
      var next := BatchAll(j, pl, ranks, recv, b0, b1);
      var faulty := *;
      if (faulty && !healthy) || next.Err? {
        return Err(Message("MPI ingest failed on a rank"));
      }
      ranks := next.value;
      b0 := b1;
    }
    r := Ok(ranks);
  }

  lemma SizeOk()
    ensures USIZE_MAX == 0xFFFF_FFFF_FFFF_FFFF
  {}

  method FinishAll(j: Job, ghost pl: Plan, ranks: seq<Rank>) returns (r: Result<seq<map<u32, Store>>>)
    requires JobOk(j) && PlanFor(j, pl) && AllEncode(j.w, j.files) && RanksOk(j, pl, ranks, |pl.items|)
    ensures r.Ok? ==> |r.value| == j.size && AllDone(j, r.value)
    ensures r.Err? ==> Refused(j) || !NoWrap(j.nOf)
    ensures r.Ok? ==> forall d, e: u32 :: 0 <= d < j.size && e in r.value[d] ==> EnvPuts(j.w, j.files, j.route, e).Ok? && Short(j, e)
  {
    hide FC.Lawful, Counted, CountsEach, PlanFor, RankOk, AllEncode, RankDone, EnvPuts, Refused, NoWrap, Short;
    var done: seq<map<u32, Store>> := [];
    for d := 0 to j.size
      invariant |done| == d
      invariant forall k :: 0 <= k < d ==> RankDone(j, k, done[k])
      invariant forall k, e: u32 :: 0 <= k < d && e in done[k] ==> EnvPuts(j.w, j.files, j.route, e).Ok? && Short(j, e)
    {
      var sessions := FinishRank(j, pl, d, ranks[d]);
      if sessions.Err? {
        return Err(sessions.error);
      }
      done := done + [sessions.value];
    }
    r := Ok(done);
  }

  predicate AllDone(j: Job, done: seq<map<u32, Store>>)
    requires Counted(j.files) && RouteOk(j.route) && j.size > 0
  {
    |done| == j.size && forall d :: 0 <= d < j.size ==> RankDone(j, d, done[d])
  }

  // ---------------------------------------------------------------------
  // Commit
  // ---------------------------------------------------------------------

  /** The durable environments. A session's transaction becomes visible here, whole, when it commits. */
  class Disk {
    var envs: map<u32, Store>

    constructor (envs: map<u32, Store>)
      ensures this.envs == envs
    {
      this.envs := envs;
    }
  }

  /** Commit one rank's sessions, each whole or not at all; a failed commit drops the rest. */
  method CommitRank(disk: Disk, sessions: map<u32, Store>, healthy: bool) returns (ok: bool)
    modifies disk
    ensures forall e: u32 :: EnvIn(disk.envs, e) == old(EnvIn(disk.envs, e)) || (e in sessions && EnvIn(disk.envs, e) == sessions[e])
    ensures ok ==> forall e <- sessions :: EnvIn(disk.envs, e) == sessions[e]
    ensures healthy ==> ok
  {
    var ids := sessions.Keys;
    while ids != {}
      invariant ids <= sessions.Keys
      invariant forall e <- sessions.Keys - ids :: EnvIn(disk.envs, e) == sessions[e]
      invariant forall e: u32 :: e !in sessions.Keys - ids ==> EnvIn(disk.envs, e) == old(EnvIn(disk.envs, e))
    {
      var id :| id in ids;
      var fails := *;
      if fails && !healthy {
        return false;
      }
      disk.envs := disk.envs[id := sessions[id]];
      ids := ids - {id};
    }
    ok := true;
  }

  /** Each environment is as before the ingest or as serial ingest leaves it. */
  predicate EnvSettled(j: Job, envs: map<u32, Store>, e: u32)
    requires Counted(j.files) && RouteOk(j.route)
  {
    EnvIn(envs, e) == EnvIn(j.prior, e) || EnvIn(envs, e) == SerialEnv(j.w, j.prior, j.files, j.route, e)
  }

  method CommitAll(disk: Disk, j: Job, done: seq<map<u32, Store>>, healthy: bool) returns (ok: bool)
    requires Counted(j.files) && RouteOk(j.route) && j.size > 0
    requires disk.envs == j.prior && AllDone(j, done)
    modifies disk
    ensures forall e: u32 :: EnvSettled(j, disk.envs, e)
    ensures ok ==> forall e: u32 :: EnvIn(disk.envs, e) == SerialEnv(j.w, j.prior, j.files, j.route, e)
    ensures healthy ==> ok
  {
    hide Counted, RouteOk, SerialEnv, Opened, OwnerOf;
    ok := true;
    for d := 0 to j.size
      invariant forall e: u32 :: EnvSettled(j, disk.envs, e)
      invariant healthy ==> ok
      invariant ok ==> forall k, e: u32 :: 0 <= k < d && e in done[k] ==> EnvIn(disk.envs, e) == done[k][e]
    {
      assert RankDone(j, d, done[d]);
      ghost var before := disk.envs;
      var committed := CommitRank(disk, done[d], healthy);
      forall e: u32 ensures EnvSettled(j, disk.envs, e) {
        assert EnvSettled(j, before, e);
      }
      if ok && committed {
        forall k, e: u32 | 0 <= k <= d && e in done[k] ensures EnvIn(disk.envs, e) == done[k][e] {
          assert RankDone(j, k, done[k]);
        }
      }
      ok := ok && committed;
    }
    if ok {
      forall e: u32 ensures EnvIn(disk.envs, e) == SerialEnv(j.w, j.prior, j.files, j.route, e) {
        CommittedEnv(j, disk.envs, done, e);
      }
    }
  }

  lemma {:induction false} UnroutedEnv(j: Job, files: seq<File>, s: Store, e: u32)
    requires Counted(files) && RouteOk(j.route)
    requires forall i :: 0 <= i < |files| ==> EnvOf(j.route, files[i].traj) != e
    ensures EnvPuts(j.w, files, j.route, e) == Ok([])
    ensures EnvMetas(s, files, j.route, e) == s
  {
    hide EnvOf;
    if files != [] {
      UnroutedEnv(j, files[..|files| - 1], s, e);
    }
  }

  lemma CommittedEnv(j: Job, envs: map<u32, Store>, done: seq<map<u32, Store>>, e: u32)
    requires Counted(j.files) && RouteOk(j.route) && j.size > 0 && AllDone(j, done)
    requires forall e: u32 :: EnvSettled(j, envs, e)
    requires forall k, e: u32 :: 0 <= k < j.size && e in done[k] ==> EnvIn(envs, e) == done[k][e]
    ensures EnvIn(envs, e) == SerialEnv(j.w, j.prior, j.files, j.route, e)
  {
    hide EnvPuts, EnvMetas, EnvOf, OwnerOf, PutAll;
    if i :| 0 <= i < |j.files| && EnvOf(j.route, j.files[i].traj) == e {
      var d := DestOf(j.route, j.size, j.files[i].traj).owner;
      assert RankDone(j, d, done[d]);
      assert e in done[d];
    } else {
      assert EnvSettled(j, envs, e);
      UnroutedEnv(j, j.files, EnvIn(j.prior, e), e);
      PutNothing(EnvIn(j.prior, e));
    }
  }

  // ---------------------------------------------------------------------
  // The collective ingest
  // ---------------------------------------------------------------------

  method CountFiles(files: seq<File>) returns (nOf: map<u64, u32>, counts: seq<u32>)
    requires Counted(files) && DistinctTrajs(files)
    ensures CountsEach(files, nOf) && CountsOnly(files, nOf)
    ensures |counts| == |files| && forall i :: 0 <= i < |files| ==> counts[i] == |files[i].spans|
  {
    nOf, counts := map[], [];
    for i := 0 to |files|
      invariant |counts| == i && forall k :: 0 <= k < i ==> counts[k] == |files[k].spans|
      invariant CountsEach(files[..i], nOf)
      invariant forall t <- nOf :: exists k :: 0 <= k < i && files[k].traj == t
    {
      nOf := nOf[files[i].traj := |files[i].spans|];
      counts := counts + [|files[i].spans|];
    }
    assert files[..|files|] == files;
  }

  /** Serial ingest in closed form, for a job whose environments all regrouped and were all unclaimed. */
  lemma SerialSucceeds(j: Job, done: seq<map<u32, Store>>)
    requires Counted(j.files) && RouteOk(j.route) && j.size > 0 && DistinctTrajs(j.files)
    requires AllDone(j, done) && AllUnclaimed(j.files, j.route, j.prior)
    requires forall d <- done, e <- d :: EnvPuts(j.w, j.files, j.route, e).Ok?
    ensures SerialAll(j.w, j.prior, j.files, j.route).Ok?
    ensures forall e: u32 :: EnvIn(SerialAll(j.w, j.prior, j.files, j.route).value, e)
                         == SerialEnv(j.w, j.prior, j.files, j.route, e)
  {
    hide SerialAll, SerialEnv, EnvPuts, SerialPuts, EnvIn, EnvOf, OwnerOf;
    forall i | 0 <= i < |j.files|
      ensures SerialPuts(j.w, j.files[i]).Ok? && FreshIn(j.prior, j.route, j.files[i].traj)
    {
      var dest := DestOf(j.route, j.size, j.files[i].traj);
      assert RankDone(j, dest.owner, done[dest.owner]);
      assert dest.env in done[dest.owner];
      PutsOfFile(j.w, j.files, j.route, i);
      assert Unclaimed(EnvIn(j.prior, EnvOf(j.route, j.files[i].traj)), j.files[i].traj);
    }
    SerialInClosedForm(j.w, j.prior, j.files, j.route);
  }

  lemma {:induction false} PutsOfFile(w: World, files: seq<File>, route: Route, i: nat)
    requires Counted(files) && RouteOk(route) && i < |files|
    requires EnvPuts(w, files, route, EnvOf(route, files[i].traj)).Ok?
    ensures SerialPuts(w, files[i]).Ok?
  {
    hide SerialPuts, EnvOf;
    if i < |files| - 1 {
      PutsOfFile(w, files[..|files| - 1], route, i);
    }
  }

  /** The checks every rank makes alike before any collective touches an environment. */
  method Admit(files: seq<File>) returns (ok: bool)
    ensures ok <==> DistinctTrajs(files) && Counted(files) && Total(files) <= USIZE_MAX
  {
    var seen: set<u64> := {};
    ok := true;
    var n := 0;
    assert files[..0] == [];
    for i := 0 to |files|
      invariant n == Total(files[..i])
      invariant seen == set k | 0 <= k < i :: files[k].traj
      invariant ok <==> DistinctTrajs(files[..i]) && Counted(files[..i])
    {
      ok := ok && files[i].traj !in seen && |files[i].spans| <= U32_MAX;
      seen := seen + {files[i].traj};
      G0Next(files, i);
      n := n + |files[i].spans|;
    }
    assert files[..|files|] == files;
    ok := ok && n <= USIZE_MAX;
  }

  /** No trajectory reaches the last aligned group of the u32 index range, whose end wraps. */
  predicate ShortFiles(files: seq<File>) {
    forall i :: 0 <= i < |files| ==> |files[i].spans| <= 0xFFFF_FFC0
  }

  /** `n_of` holds the input files' counts and nothing else. */
  predicate CountsOnly(files: seq<File>, nOf: map<u64, u32>) {
    forall t <- nOf :: exists i :: 0 <= i < |files| && files[i].traj == t
  }

  lemma ShortCounts(files: seq<File>, nOf: map<u64, u32>)
    requires ShortFiles(files) && CountsEach(files, nOf) && CountsOnly(files, nOf)
    ensures NoWrap(nOf)
  {}

  /**
   * What a collective ingest needs to succeed, and needs no more than when nothing fails locally: unclaimed
   * trajectories, frames that encode and group, none in the wrapping group, and records that each fit a collective.
   */
  predicate Ingestible(j: Job)
    requires Counted(j.files) && RouteOk(j.route) && j.size > 0
  {
    && AllUnclaimed(j.files, j.route, j.prior)
    && !Refused(j)
    && ShortFiles(j.files)
    && WireNarrow(j.w, Items(j.files, j.route, j.size))
  }

  predicate WireNarrow(w: World, items: seq<Item>) {
    forall g :: 0 <= g < |items| ==> ItemNarrow(w, items[g])
  }

  predicate ItemNarrow(w: World, it: Item) {
    var enc := EncodeItem(w, it.fk, it.text);
    enc.Ok? && FullBytes(enc.value) <= I32_MAX
  }

  /** The bytes of all records with their payloads. */
  function WireBytes(w: World, items: seq<Item>): nat {
    if items == [] then 0
    else
      var it := items[|items| - 1];
      var enc := EncodeItem(w, it.fk, it.text);
      WireBytes(w, items[..|items| - 1]) + if enc.Ok? then FullBytes(enc.value) else 24
  }

  lemma {:induction false} WireIs(w: World, items: seq<Item>, encs: seq<Enc>)
    requires EncodedAs(w, items, encs)
    ensures WireBytes(w, items) == EncBytes(encs)
  {
    hide EncodeItem, FullBytes;
    if items != [] {
      WireIs(w, items[..|items| - 1], encs[..|items| - 1]);
    }
  }

  lemma {:induction false} WireCounts(w: World, items: seq<Item>)
    ensures 24 * |items| <= WireBytes(w, items)
  {
    hide EncodeItem;
    if items != [] {
      WireCounts(w, items[..|items| - 1]);
    }
  }

  lemma IngestibleParts(j: Job)
    requires JobOk(j) && CountsOnly(j.files, j.nOf)
    ensures Ingestible(j) ==> AllUnclaimed(j.files, j.route, j.prior) && !Refused(j) && NoWrap(j.nOf)
    ensures Ingestible(j) ==> WireNarrow(j.w, Items(j.files, j.route, j.size))
    ensures Ingestible(j) ==> !exists g :: 0 <= g < Total(j.files) && Fails(j.w, Items(j.files, j.route, j.size)[g])
  {
    hide AllUnclaimed, Refused, NoWrap, Items, FC.Lawful, ShortFiles, CountsOnly;
    if Ingestible(j) {
      ShortCounts(j.files, j.nOf);
      forall g | 0 <= g < Total(j.files) ensures !Fails(j.w, Items(j.files, j.route, j.size)[g]) {
        assert ItemNarrow(j.w, Items(j.files, j.route, j.size)[g]);
      }
    }
  }

  /** Input whose records fit a 64-bit address space together; memory cannot hold more. */
  predicate InMemory(w: World, files: seq<File>, route: Route, size: nat)
    requires RouteOk(route) && size > 0
  {
    Counted(files) ==> WireBytes(w, Items(files, route, size)) <= U64_MAX
  }

  lemma NarrowEncs(j: Job, encs: seq<Enc>)
    requires JobOk(j) && EncodedAs(j.w, Items(j.files, j.route, j.size), encs)
    ensures WireNarrow(j.w, Items(j.files, j.route, j.size)) && InMemory(j.w, j.files, j.route, j.size) ==>
      Representable(encs) && |encs| * 16 <= USIZE_MAX && EncBytes(encs) <= U64_MAX
  {
    hide Items, EncodeItem, FC.Lawful, RouteOk, CountsEach, WireBytes, EncBytes;
    var items := Items(j.files, j.route, j.size);
    WireIs(j.w, items, encs);
    WireCounts(j.w, items);
    if WireNarrow(j.w, items) && InMemory(j.w, j.files, j.route, j.size) {
      forall g | 0 <= g < |encs| ensures |encs[g].keys| <= USIZE_MAX && |encs[g].stored| <= USIZE_MAX {
        assert ItemNarrow(j.w, items[g]);
      }
    }
  }

  lemma NarrowPlan(j: Job, pl: Plan)
    requires JobOk(j) && PlanFor(j, pl)
    ensures PlanOk(pl)
    ensures WireNarrow(j.w, Items(j.files, j.route, j.size)) ==> Narrow(pl)
  {
    hide Items, EncodeItem, FC.Lawful, RouteOk, CountsEach, DedupOk, RanksInRange;
    if WireNarrow(j.w, Items(j.files, j.route, j.size)) {
      forall g | 0 <= g < |pl.items| ensures FullBytes(pl.encs[g]) <= I32_MAX {
        assert ItemNarrow(j.w, pl.items[g]);
      }
    }
  }

  /** Everything before the commit round. It works on sessions only: no durable state is touched. */
  method Stage(j: Job, batch: nat, healthy: bool) returns (r: Result<seq<map<u32, Store>>>)
    requires JobOk(j) && CountsOnly(j.files, j.nOf) && CollisionFree(j.w, Items(j.files, j.route, j.size))
    ensures r.Ok? ==> Staged(j, r.value) && Ingestible(j)
    ensures healthy && InMemory(j.w, j.files, j.route, j.size) && Ingestible(j) ==> r.Ok?
  {
    hide *;
    JobParts(j);
    IngestibleParts(j);
    var faulty := *;
    if faulty && !healthy {
      return Err(Message("MPI ingest failed on a rank"));
    }
    var begun := BeginAll(j.files, j.route, j.size, j.prior);
    if begun.Err? {
      return Err(begun.error);
    }
    var parsed := ParseAll(j.w, j.files, j.route, j.size);
    faulty := *;
    if (faulty && !healthy) || parsed.Err? {
      return Err(ParseError);
    }
    var locals, encs := parsed.value.0, parsed.value.1;
    var representable := Representable(encs);
    NarrowEncs(j, encs);
    if !representable {
      return Err(Message("buffer exceeds usize"));
    }
    var items := Items(j.files, j.route, j.size);
    EncodedSizes(j.w, items, encs);
    var hashes := GatherHashes(locals, encs, |encs|);
    if hashes.Err? {
      return Err(hashes.error);
    }
    var first := FirstOf(items, hashes.value);
    var pl := Plan(items, encs, first);
    PlanReady(j, pl);
    PlanParts(j, pl);
    EncodedFiles(j.w, j.files, j.route, j.size, encs);
    var ranks := StartRanks(j, pl, begun.value);
    NarrowPlan(j, pl);
    var exchanged := Batches(j, locals, pl, ranks, batch, healthy);
    if exchanged.Err? {
      return Err(exchanged.error);
    }
    var finished := FinishAll(j, pl, exchanged.value);
    faulty := *;
    if (faulty && !healthy) || finished.Err? {
      return Err(Message("MPI ingest failed on a rank"));
    }
    StagedIs(j, finished.value);
    AllNarrow(j, pl);
    StagedIngestible(j, finished.value);
    r := Ok(finished.value);
  }

  predicate Staged(j: Job, done: seq<map<u32, Store>>) {
    && Counted(j.files) && RouteOk(j.route) && j.size > 0
    && AllDone(j, done) && AllUnclaimed(j.files, j.route, j.prior)
    && forall d <- done, e <- d :: EnvPuts(j.w, j.files, j.route, e).Ok?
  }

  lemma StagedIs(j: Job, done: seq<map<u32, Store>>)
    requires JobOk(j) && AllDone(j, done) && AllUnclaimed(j.files, j.route, j.prior)
    requires forall d, e: u32 :: 0 <= d < j.size && e in done[d] ==> EnvPuts(j.w, j.files, j.route, e).Ok?
    ensures Staged(j, done)
  {
    hide EnvPuts, RankDone, Unclaimed, FC.Lawful;
  }

  /** A frame of a file is in the stream of its environment. */
  lemma {:induction false} InStream(w: World, files: seq<File>, route: Route, f: nat, i: nat) returns (p: nat)
    requires Counted(files) && RouteOk(route) && f < |files| && i < |files[f].spans|
    ensures var s := FileStream(w, files, route, EnvOf(route, files[f].traj));
      p < |s| && s[p].fk == FrameKey(files[f].traj, i)
  {
    hide EnvOf, FileHelds;
    var n := |files| - 1;
    if f < n {
      p := InStream(w, files[..n], route, f, i);
    } else {
      FileHeldKeys(w, files[n]);
      p := |FileStream(w, files[..n], route, EnvOf(route, files[f].traj))| + i;
    }
  }

  /** A trajectory that reaches the wrapping group leaves its environment's buffer full. */
  lemma ShortEnv(j: Job, f: nat)
    requires JobOk(j) && f < |j.files| && Short(j, EnvOf(j.route, j.files[f].traj))
    ensures |j.files[f].spans| <= 0xFFFF_FFC0
  {
    hide FileStream, EnvOf;
    if |j.files[f].spans| > 0xFFFF_FFC0 {
      var p := InStream(j.w, j.files, j.route, f, 0xFFFF_FFC0);
    }
  }

  lemma StagedIngestible(j: Job, done: seq<map<u32, Store>>)
    requires JobOk(j) && Staged(j, done) && WireNarrow(j.w, Items(j.files, j.route, j.size))
    requires forall d, e: u32 :: 0 <= d < j.size && e in done[d] ==> Short(j, e)
    ensures Ingestible(j)
  {
    hide FC.Lawful, CountsEach, EnvPuts, SerialPuts, Short, AllUnclaimed, WireNarrow, EnvOf, OwnerOf;
    forall i | 0 <= i < |j.files| ensures SerialPuts(j.w, j.files[i]).Ok? && |j.files[i].spans| <= 0xFFFF_FFC0 {
      var dest := DestOf(j.route, j.size, j.files[i].traj);
      assert RankDone(j, dest.owner, done[dest.owner]);
      assert dest.env in done[dest.owner];
      PutsOfFile(j.w, j.files, j.route, i);
      ShortEnv(j, i);
    }
  }

  lemma JobParts(j: Job)
    requires JobOk(j)
    ensures Counted(j.files) && RouteOk(j.route) && j.size > 0
  {}

  lemma EncodedSizes(w: World, items: seq<Item>, encs: seq<Enc>)
    requires EncodedAs(w, items, encs) && Representable(encs)
    ensures |items| == |encs| <= USIZE_MAX
  {}

  lemma PlanParts(j: Job, pl: Plan)
    requires JobOk(j) && PlanFor(j, pl)
    ensures PlanOk(pl) && RanksInRange(pl, j.size)
  {}

  /** What the commit round leaves, in terms of serial ingest. */
  lemma Settle(j: Job, done: seq<map<u32, Store>>, envs: map<u32, Store>)
    requires Staged(j, done) && DistinctTrajs(j.files)
    requires forall e: u32 :: EnvSettled(j, envs, e)
    ensures SerialAll(j.w, j.prior, j.files, j.route).Ok?
    ensures forall e: u32 :: Settled(j, envs, e)
    ensures (forall e: u32 :: EnvIn(envs, e) == SerialEnv(j.w, j.prior, j.files, j.route, e)) ==>
      forall e: u32 :: EnvIn(envs, e) == EnvIn(SerialAll(j.w, j.prior, j.files, j.route).value, e)
  {
    hide SerialAll, SerialEnv, EnvPuts, EnvIn, RankDone, Unclaimed;
    SerialSucceeds(j, done);
    forall e: u32 ensures Settled(j, envs, e) {
      assert EnvSettled(j, envs, e);
    }
  }

  predicate Settled(j: Job, envs: map<u32, Store>, e: u32)
    requires Counted(j.files) && RouteOk(j.route) && SerialAll(j.w, j.prior, j.files, j.route).Ok?
  {
    || EnvIn(envs, e) == EnvIn(j.prior, e)
    || EnvIn(envs, e) == EnvIn(SerialAll(j.w, j.prior, j.files, j.route).value, e)
  }

  /** The same condition on what a caller hands in. */
  predicate CanIngest(w: World, files: seq<File>, route: Route, size: nat, envs: map<u32, Store>)
    requires RouteOk(route) && size > 0
  {
    && DistinctTrajs(files) && ShortFiles(files) && AllUnclaimed(files, route, envs)
    && (forall i :: 0 <= i < |files| ==> SerialPuts(w, files[i]).Ok?)
    && WireNarrow(w, Items(files, route, size))
  }

  lemma CanIngestAdmits(w: World, files: seq<File>, route: Route, size: nat, envs: map<u32, Store>)
    requires RouteOk(route) && size > 0 && CanIngest(w, files, route, size, envs) && InMemory(w, files, route, size)
    ensures DistinctTrajs(files) && Counted(files) && Total(files) <= USIZE_MAX
  {
    hide Items, AllUnclaimed, SerialPuts, WireNarrow, WireBytes;
    WireCounts(w, Items(files, route, size));
  }

  lemma CanIngestIs(j: Job)
    requires JobOk(j) && DistinctTrajs(j.files)
    ensures CanIngest(j.w, j.files, j.route, j.size, j.prior) <==> Ingestible(j)
  {
    hide Items, AllUnclaimed, SerialPuts, WireNarrow, FC.Lawful;
  }

  /**
   * The collective ingest of `files` over `size` ranks. Local failures (`*`) can strike any rank in any
   * phase unless `healthy`. On success every environment is what serial ingest of the same files leaves; on failure
   * before the commit round nothing changed; after it every environment is old or complete. Without local failures
   * it succeeds exactly on input that `CanIngest` admits, and never on any other.
   */
  method Engine(disk: Disk, w: World, files: seq<File>, route: Route, size: nat, batch: nat, healthy: bool)
    returns (r: Result<seq<u32>>, committing: bool)
    requires FC.Lawful(w.zstd) && RouteOk(route) && size > 0
    requires Counted(files) ==> CollisionFree(w, Items(files, route, size))
    modifies disk
    ensures r.Ok? ==> committing
    ensures r.Ok? ==> |r.value| == |files| && forall i :: 0 <= i < |files| ==> r.value[i] == |files[i].spans|
    ensures !committing ==> disk.envs == old(disk.envs)
    ensures committing ==> Counted(files) && SerialAll(w, old(disk.envs), files, route).Ok?
    ensures committing ==> forall e: u32 ::
      || EnvIn(disk.envs, e) == EnvIn(SerialAll(w, old(disk.envs), files, route).value, e)
      || (r.Err? && EnvIn(disk.envs, e) == EnvIn(old(disk.envs), e))
    ensures committing ==> CanIngest(w, files, route, size, old(disk.envs))
    ensures healthy && InMemory(w, files, route, size) ==> (r.Ok? <==> CanIngest(w, files, route, size, old(disk.envs)))
  {
    hide *;
    committing := false;
    var admitted := Admit(files);
    if !admitted {
      if CanIngest(w, files, route, size, disk.envs) && InMemory(w, files, route, size) {
        CanIngestAdmits(w, files, route, size, disk.envs);
      }
      return Err(Message("duplicate traj_id or too many frames")), false;
    }
    var nOf, counts := CountFiles(files);
    var j := Job(w, files, route, size, nOf, disk.envs);
    JobIs(j);
    CanIngestIs(j);
    var staged := Stage(j, batch, healthy);
    if staged.Err? {
      return Err(staged.error), false;
    }
    committing := true;
    StagedParts(j, staged.value);
    var ok := CommitAll(disk, j, staged.value, healthy);
    Settle(j, staged.value, disk.envs);
    assert forall e: u32 :: Settled(j, disk.envs, e);
    SettledMeans(j, disk.envs);
    if !ok {
      return Err(Message("MPI commit failed on a rank")), true;
    }
    r := Ok(counts);
  }

  lemma JobIs(j: Job)
    requires FC.Lawful(j.w.zstd) && Counted(j.files) && RouteOk(j.route) && j.size > 0 && CountsEach(j.files, j.nOf)
    ensures JobOk(j)
  {}

  lemma StagedParts(j: Job, done: seq<map<u32, Store>>)
    requires Staged(j, done)
    ensures Counted(j.files) && RouteOk(j.route) && j.size > 0 && AllDone(j, done)
  {}

  lemma SettledMeans(j: Job, envs: map<u32, Store>)
    requires Counted(j.files) && RouteOk(j.route) && SerialAll(j.w, j.prior, j.files, j.route).Ok?
    requires forall e: u32 :: Settled(j, envs, e)
    ensures forall e: u32 ::
      || EnvIn(envs, e) == EnvIn(SerialAll(j.w, j.prior, j.files, j.route).value, e)
      || EnvIn(envs, e) == EnvIn(j.prior, e)
  {
    hide SerialAll, EnvIn;
    forall e: u32
      ensures EnvIn(envs, e) == EnvIn(SerialAll(j.w, j.prior, j.files, j.route).value, e) || EnvIn(envs, e) == EnvIn(j.prior, e)
    {
      assert Settled(j, envs, e);
    }
  }
}
