/** Parsing, hash gather, batch exchange and batch decode of an MPI ingest. */
module MpiExchange {
  import opened Prelude
  import opened Utf8
  import opened Keys
  import opened Store
  import opened MpiWire
  import opened MpiPlan
  import KeyWire

  /** The encoded frames of one rank's block. */
  datatype Local = Local(first: nat, encs: seq<Enc>)

  predicate Fails(w: World, it: Item) {
    EncodeItem(w, it.fk, it.text).Err?
  }

  /** `parse_local`: file by file, the frames of `[lo, hi)`. */
  method ParseLocal(w: World, files: seq<File>, route: Route, size: nat, lo: nat, hi: nat) returns (r: Result<Local>)
    requires Counted(files) && RouteOk(route) && size > 0
    requires lo <= hi <= Total(files)
    ensures r.Ok? ==> r.value.first == lo && EncodedAs(w, Items(files, route, size)[lo..hi], r.value.encs)
    ensures r.Err? ==> exists g :: lo <= g < hi && Fails(w, Items(files, route, size)[g])
  {
    hide Items, EncodeItem, DestOf, FileOf, G0, Counted;
    ghost var items := Items(files, route, size);
    var out: seq<Enc> := [];
    var g := lo;
    while g < hi
      invariant lo <= g <= hi
      invariant |out| == g - lo
      invariant forall k :: lo <= k < g ==> EncodeItem(w, items[k].fk, items[k].text) == Ok(out[k - lo])
      decreases hi - g
    {
      FileOfFinds(files, route, size, g);
      var f := Bisect(files, g);
      var g0 := G0(files, f);
      var a, b := g - g0, Min(hi - g0, |files[f].spans|);
      for i := a to b
        invariant |out| == g0 + i - lo
        invariant forall k :: lo <= k < g0 + i ==> EncodeItem(w, items[k].fk, items[k].text) == Ok(out[k - lo])
      {
        ItemInFile(files, route, size, f, i);
        var enc := EncodeItem(w, FrameKey(files[f].traj, i), files[f].spans[i]);
        if enc.Err? {
          assert Fails(w, items[g0 + i]);
          return Err(enc.error);
        }
        out := out + [enc.value];
      }
      g := g0 + b;
    }
    r := Ok(Local(lo, out));
  }

  lemma ItemInFile(files: seq<File>, route: Route, size: nat, f: nat, i: nat)
    requires Counted(files) && RouteOk(route) && size > 0
    requires f < |files| && i < |files[f].spans|
    ensures i <= U32_MAX && |files[f].spans| <= U32_MAX
    ensures G0(files, f) + i < Total(files)
    ensures var it := Items(files, route, size)[G0(files, f) + i];
      it.fk == FrameKey(files[f].traj, i) && it.text == files[f].spans[i]
  {
    ItemAt(files, route, size, f, i);
  }

  // ---------------------------------------------------------------------
  // Hash gather
  // ---------------------------------------------------------------------

  /** Rank `r` holds exactly its block of the encoded frames. */
  predicate LocalsOk(locals: seq<Local>, encs: seq<Enc>) {
    |locals| > 0 && forall r :: 0 <= r < |locals| ==> LocalOk(locals[r], r, |locals|, encs)
  }

  predicate LocalOk(local: Local, r: nat, size: nat, encs: seq<Enc>)
    requires r < size
  {
    var (lo, hi) := BlockRange(|encs|, size, r);
    lo <= hi <= |encs| && local.first == lo && local.encs == encs[lo..hi]
  }

  /** `rank_span`: the part of a rank's block inside `[g0, g1)`; empty when the first exceeds the second. */
  function RankSpan(n: nat, size: nat, r: nat, g0: nat, g1: nat): (nat, nat)
    requires r < size
  {
    var (lo, hi) := BlockRange(n, size, r);
    (Max(lo, g0), Min(hi, g1))
  }

  /** Where the walk over the ranks' spans stands inside `[g0, g1)` before rank `r`. */
  function Cut(n: nat, size: nat, r: nat, g0: nat, g1: nat): nat
    requires size > 0
  {
    Clamp(BlockStart(n, size, r), g0, g1)
  }

  /** Walking the ranks in order, each span starts where the clamped cursor stands and moves it to the span's end. */
  lemma SpanStep(n: nat, size: nat, r: nat, g0: nat, g1: nat)
    requires r < size && g0 <= g1 <= n
    ensures var (lo, hi) := RankSpan(n, size, r, g0, g1);
      var (c, d) := (Cut(n, size, r, g0, g1), Cut(n, size, r + 1, g0, g1));
      g0 <= c <= d <= g1 && if lo < hi then lo == c && hi == d else c == d
    ensures Cut(n, size, 0, g0, g1) == g0
    ensures Cut(n, size, size, g0, g1) == g1
  {
    hide BlockStart;
    BlocksTile(n, size, r);
    BlocksTile(n, size, 0);
  }

  lemma SpanInside(locals: seq<Local>, encs: seq<Enc>, r: nat, g0: nat, g1: nat, g: nat)
    requires LocalsOk(locals, encs) && r < |locals| && g0 <= g1 <= |encs|
    requires var (lo, hi) := RankSpan(|encs|, |locals|, r, g0, g1); lo <= g < hi
    ensures g0 <= g < g1 <= |encs|
    ensures 0 <= g - locals[r].first < |locals[r].encs|
    ensures locals[r].encs[g - locals[r].first] == encs[g]
  {
    hide BlockRange;
    assert LocalOk(locals[r], r, |locals|, encs);
  }

  /** `gather_hashes`: chunked all-gathers; no count, displacement or total can leave the `i32` range. */
  method GatherHashes(locals: seq<Local>, ghost encs: seq<Enc>, n: nat) returns (r: Result<seq<Hash>>)
    requires LocalsOk(locals, encs) && n == |encs|
    ensures r.Err? <==> n * 16 > USIZE_MAX
    ensures r.Ok? ==> r.value == HashesOf(encs)
  {
    if n * 16 > USIZE_MAX {
      return Err(Message("hash exchange overflows"));
    }
    var all: seq<Hash> := [];
    var g0 := 0;
    while g0 < n
      invariant 0 <= g0 <= n
      invariant all == HashesOf(encs)[..g0]
      decreases n - g0
    {
      var g1 := Min(g0 + Max(HashGatherChunk(), 1), n);
      var chunk := GatherChunk(locals, encs, n, g0, g1);
      all := all + chunk;
      g0 := g1;
    }
    r := Ok(all);
  }

  method MyHashes(locals: seq<Local>, ghost encs: seq<Enc>, n: nat, rank: nat, g0: nat, g1: nat) returns (my: seq<Hash>)
    requires LocalsOk(locals, encs) && n == |encs| && rank < |locals| && g0 <= g1 <= n
    ensures g0 <= Cut(n, |locals|, rank, g0, g1) <= Cut(n, |locals|, rank + 1, g0, g1) <= g1
    ensures my == HashesOf(encs)[Cut(n, |locals|, rank, g0, g1)..Cut(n, |locals|, rank + 1, g0, g1)]
  {
    hide BlockRange, LocalsOk, Cut;
    SpanStep(n, |locals|, rank, g0, g1);
    var (lo, hi) := RankSpan(n, |locals|, rank, g0, g1);
    my := [];
    for g := lo to Max(lo, hi)
      invariant |my| == g - lo
      invariant forall k :: lo <= k < g ==> k < n && my[k - lo] == encs[k].hash
    {
      SpanInside(locals, encs, rank, g0, g1, g);
      my := my + [locals[rank].encs[g - locals[rank].first].hash];
    }
  }

  method GatherChunk(locals: seq<Local>, ghost encs: seq<Enc>, n: nat, g0: nat, g1: nat) returns (chunk: seq<Hash>)
    requires LocalsOk(locals, encs) && n == |encs|
    requires g0 <= g1 <= n && 16 * (g1 - g0) <= I32_MAX
    ensures chunk == HashesOf(encs)[g0..g1]
  {
    var size := |locals|;
    assert size > 0;
    hide Cut, LocalsOk, HashesOf, RankSpan, Sum, NonNegative, Displacements;
    ghost var cursor := g0;
    var counts: seq<i32> := [];
    chunk := [];
    assert NonNegative([]) && Sum([]) == 0 by { NoCounts(); }
    SpanStep(n, size, 0, g0, g1);
    for rank := 0 to size
      invariant cursor == Cut(n, size, rank, g0, g1)
      invariant g0 <= cursor <= g1
      invariant NonNegative(counts) && Sum(counts) == 16 * (cursor - g0)
      invariant chunk == HashesOf(encs)[g0..cursor]
    {
      var my := MyHashes(locals, encs, n, rank, g0, g1);
      var count := MpiI32(16 * |my|);
      SumPush(counts, count.value);
      SliceJoin(HashesOf(encs), g0, cursor, cursor + |my|);
      counts := counts + [count.value];
      cursor := cursor + |my|;
      chunk := chunk + my;
    }
    assert Fits(counts);
    var displs := PrefixI32(counts);
    assert displs.Ok?;
  }

  lemma SliceJoin<T>(s: seq<T>, a: nat, b: nat, c: nat)
    requires a <= b <= c <= |s|
    ensures s[a..b] + s[b..c] == s[a..c]
  {}

  lemma NoCounts()
    ensures NonNegative([]) && Sum([]) == 0
  {}

  lemma SumPush(counts: seq<int>, c: int)
    ensures Sum(counts + [c]) == Sum(counts) + c
    ensures NonNegative(counts) && c >= 0 ==> NonNegative(counts + [c])
  {
    assert (counts + [c])[..|counts|] == counts;
  }

  // ---------------------------------------------------------------------
  // Batch messages
  // ---------------------------------------------------------------------

  /** The replicated view of the frames being exchanged. */
  datatype Plan = Plan(items: seq<Item>, encs: seq<Enc>, first: seq<nat>)

  predicate PlanOk(pl: Plan) {
    && |pl.items| == |pl.encs| == |pl.first| <= U64_MAX
    && forall g :: 0 <= g < |pl.encs| ==> |pl.encs[g].keys| <= U64_MAX && |pl.encs[g].stored| <= U64_MAX
  }

  /** The record of frame `g` in a batch that starts at `b0`. */
  function RecOf(pl: Plan, b0: nat, g: nat): Bytes
    requires PlanOk(pl) && g < |pl.items|
  {
    Record(g, pl.encs[g].keys, if SendStored(pl.first[g], g, b0) then pl.encs[g].stored else [])
  }

  function Owner(pl: Plan, g: nat): nat
    requires g < |pl.items|
  {
    pl.items[g].dest.owner
  }

  /** Every record of `[lo, hi)` bound for rank `d`, in frame order. */
  function Msg(pl: Plan, d: nat, b0: nat, lo: nat, hi: nat): Bytes
    requires PlanOk(pl) && hi <= |pl.items|
    decreases hi
  {
    if lo >= hi then []
    else Msg(pl, d, b0, lo, hi - 1) + (if Owner(pl, hi - 1) == d then RecOf(pl, b0, hi - 1) else [])
  }

  lemma {:induction false} MsgSplit(pl: Plan, d: nat, b0: nat, lo: nat, mid: nat, hi: nat)
    requires PlanOk(pl) && lo <= mid <= hi <= |pl.items|
    ensures Msg(pl, d, b0, lo, hi) == Msg(pl, d, b0, lo, mid) + Msg(pl, d, b0, mid, hi)
    decreases hi
  {
    hide RecOf, Owner, PlanOk;
    if mid < hi {
      MsgSplit(pl, d, b0, lo, mid, hi - 1);
    }
  }

  /** `out` holds, for every destination, the records of `[lo, g)`. */
  predicate BuiltTo(pl: Plan, size: nat, b0: nat, lo: nat, g: nat, out: seq<Bytes>)
    requires PlanOk(pl)
  {
    lo <= g <= |pl.items| && |out| == size && forall d :: 0 <= d < size ==> out[d] == Msg(pl, d, b0, lo, g)
  }

  lemma BuiltStep(pl: Plan, size: nat, b0: nat, lo: nat, g: nat, out: seq<Bytes>)
    requires PlanOk(pl) && g < |pl.items| && BuiltTo(pl, size, b0, lo, g, out) && Owner(pl, g) < size
    ensures BuiltTo(pl, size, b0, lo, g + 1, out[Owner(pl, g) := out[Owner(pl, g)] + RecOf(pl, b0, g)])
  {
    hide RecOf, PlanOk, Owner;
  }

  lemma BuiltStart(pl: Plan, size: nat, b0: nat, lo: nat)
    requires PlanOk(pl) && lo <= |pl.items|
    ensures BuiltTo(pl, size, b0, lo, lo, seq(size, _ => []))
  {}

  lemma BuiltRow(pl: Plan, size: nat, b0: nat, b1: nat, rank: nat, out: seq<Bytes>)
    requires PlanOk(pl) && rank < size && b0 <= b1 <= |pl.items|
    requires var (lo, hi) := RankSpan(|pl.items|, size, rank, b0, b1); BuiltTo(pl, size, b0, lo, Max(lo, hi), out)
    ensures RowOk(pl, size, b0, b1, rank, out)
  {
    hide PlanOk, RankSpan, Cut;
    SpanStep(|pl.items|, size, rank, b0, b1);
  }

  lemma SpanBounds(n: nat, size: nat, rank: nat, b0: nat, b1: nat)
    requires rank < size && b0 <= b1 <= n
    ensures var (lo, hi) := RankSpan(n, size, rank, b0, b1); lo <= n && hi <= n
  {
    hide BlockStart;
    BlocksOrdered(n, size, rank);
  }

  /** `build_messages`: one buffer per destination, filled in frame order. */
  method BuildMessages(locals: seq<Local>, rank: nat, pl: Plan, b0: nat, b1: nat) returns (out: seq<Bytes>)
    requires PlanOk(pl) && LocalsOk(locals, pl.encs) && rank < |locals| && b0 <= b1 <= |pl.items| == |pl.encs|
    requires RanksInRange(pl, |locals|)
    ensures RowOk(pl, |locals|, b0, b1, rank, out)
  {
    hide *;
    SpanBounds(|pl.items|, |locals|, rank, b0, b1);
    var (lo, hi) := RankSpan(|pl.items|, |locals|, rank, b0, b1);
    out := seq(|locals|, _ => []);
    BuiltStart(pl, |locals|, b0, lo);
    var end := if lo < hi then hi else lo;
    for g := lo to end
      invariant |out| == |locals|
      invariant BuiltTo(pl, |locals|, b0, lo, g, out)
    {
      var record := RecordOf(locals, rank, pl, b0, b1, g);
      OwnerInRange(pl, |locals|, g);
      BuiltStep(pl, |locals|, b0, lo, g, out);
      var dest := Owner(pl, g);
      out := out[dest := out[dest] + record];
    }
    assert BuiltTo(pl, |locals|, b0, lo, Max(lo, hi), out) by { MaxIs(lo, hi); }
    BuiltRow(pl, |locals|, b0, b1, rank, out);
  }

  lemma MaxIs(lo: nat, hi: nat)
    ensures Max(lo, hi) == if lo < hi then hi else lo
  {}

  lemma OwnerInRange(pl: Plan, size: nat, g: nat)
    requires RanksInRange(pl, size) && g < |pl.items|
    ensures Owner(pl, g) < size
  {}

  method RecordOf(locals: seq<Local>, rank: nat, pl: Plan, b0: nat, b1: nat, g: nat) returns (record: Bytes)
    requires PlanOk(pl) && LocalsOk(locals, pl.encs) && rank < |locals| && b0 <= b1 <= |pl.items| == |pl.encs|
    requires var (lo, hi) := RankSpan(|pl.items|, |locals|, rank, b0, b1); lo <= g < hi
    ensures g < |pl.items| && record == RecOf(pl, b0, g)
  {
    hide LocalsOk, Record, SendStored, RankSpan;
    SpanInside(locals, pl.encs, rank, b0, b1, g);
    var enc := locals[rank].encs[g - locals[rank].first];
    var blob := if SendStored(pl.first[g], g, b0) then enc.stored else [];
    record := Record(g, enc.keys, blob);
  }

  /** `counts` holds, for every destination, the bytes of the records of `[lo, g)`. */
  predicate PlannedTo(pl: Plan, size: nat, b0: nat, lo: nat, g: nat, counts: seq<u64>)
    requires PlanOk(pl)
  {
    lo <= g <= |pl.items| && |counts| == size && forall d :: 0 <= d < size ==> counts[d] == |Msg(pl, d, b0, lo, g)|
  }

  lemma PlannedStep(pl: Plan, size: nat, b0: nat, lo: nat, g: nat, counts: seq<u64>)
    requires PlanOk(pl) && g < |pl.items| && PlannedTo(pl, size, b0, lo, g, counts) && Owner(pl, g) < size
    requires counts[Owner(pl, g)] + |RecOf(pl, b0, g)| <= U64_MAX
    ensures PlannedTo(pl, size, b0, lo, g + 1, counts[Owner(pl, g) := counts[Owner(pl, g)] + |RecOf(pl, b0, g)|])
  {
    hide RecOf, PlanOk, Owner;
  }

  lemma PlannedStart(pl: Plan, size: nat, b0: nat, lo: nat)
    requires PlanOk(pl) && lo <= |pl.items|
    ensures PlannedTo(pl, size, b0, lo, lo, seq(size, _ => 0))
  {}

  lemma PlannedRow(pl: Plan, size: nat, b0: nat, b1: nat, rank: nat, counts: seq<u64>)
    requires PlanOk(pl) && rank < size && b0 <= b1 <= |pl.items|
    requires var (lo, hi) := RankSpan(|pl.items|, size, rank, b0, b1); PlannedTo(pl, size, b0, lo, Max(lo, hi), counts)
    ensures PlanRowOk(pl, size, b0, b1, rank, counts)
  {
    hide PlanOk, RankSpan, Cut;
    SpanStep(|pl.items|, size, rank, b0, b1);
  }

  lemma PlannedTooWide(pl: Plan, size: nat, b0: nat, b1: nat, rank: nat, g: nat, counts: seq<u64>)
    requires PlanOk(pl) && rank < size && b0 <= b1 <= |pl.items|
    requires var (lo, hi) := RankSpan(|pl.items|, size, rank, b0, b1); lo <= g < hi && PlannedTo(pl, size, b0, lo, g, counts)
    requires g < |pl.items| && Owner(pl, g) < size && counts[Owner(pl, g)] + |RecOf(pl, b0, g)| > U64_MAX
    ensures TooWide(pl, size, b0, b1, rank, Owner(pl, g))
  {
    hide PlanOk, RankSpan, Cut, RecOf;
    SpanStep(|pl.items|, size, rank, b0, b1);
    var (lo, hi) := RankSpan(|pl.items|, size, rank, b0, b1);
    MsgGrows(pl, Owner(pl, g), b0, lo, g, hi);
  }

  /** `plan_counts`: the bytes of every message before any is built. */
  method PlanCounts(locals: seq<Local>, rank: nat, pl: Plan, b0: nat, b1: nat) returns (r: Result<seq<u64>>)
    requires PlanOk(pl) && LocalsOk(locals, pl.encs) && rank < |locals| && b0 <= b1 <= |pl.items| == |pl.encs|
    requires RanksInRange(pl, |locals|)
    ensures r.Ok? ==> PlanRowOk(pl, |locals|, b0, b1, rank, r.value)
    ensures r.Err? ==> exists d :: 0 <= d < |locals| && TooWide(pl, |locals|, b0, b1, rank, d)
  {
    hide *;
    SpanBounds(|pl.items|, |locals|, rank, b0, b1);
    var (lo, hi) := RankSpan(|pl.items|, |locals|, rank, b0, b1);
    var counts: seq<u64> := seq(|locals|, _ => 0);
    PlannedStart(pl, |locals|, b0, lo);
    var end := if lo < hi then hi else lo;
    for g := lo to end
      invariant |counts| == |locals|
      invariant PlannedTo(pl, |locals|, b0, lo, g, counts)
    {
      var n := RecordLen(locals, rank, pl, b0, b1, g);
      OwnerInRange(pl, |locals|, g);
      var dest := Owner(pl, g);
      if counts[dest] + n > 0xFFFF_FFFF_FFFF_FFFF {
        TopOfU64();
        PlannedTooWide(pl, |locals|, b0, b1, rank, g, counts);
        return Err(Message("MPI message length overflows u64"));
      }
      TopOfU64();
      PlannedStep(pl, |locals|, b0, lo, g, counts);
      counts := counts[dest := counts[dest] + n];
    }
    assert PlannedTo(pl, |locals|, b0, lo, Max(lo, hi), counts) by { MaxIs(lo, hi); }
    PlannedRow(pl, |locals|, b0, b1, rank, counts);
    r := Ok(counts);
  }

  lemma TopOfU64()
    ensures U64_MAX == 0xFFFF_FFFF_FFFF_FFFF
  {}

  method RecordLen(locals: seq<Local>, rank: nat, pl: Plan, b0: nat, b1: nat, g: nat) returns (n: nat)
    requires PlanOk(pl) && LocalsOk(locals, pl.encs) && rank < |locals| && b0 <= b1 <= |pl.items| == |pl.encs|
    requires var (lo, hi) := RankSpan(|pl.items|, |locals|, rank, b0, b1); lo <= g < hi
    ensures g < |pl.items| && n == |RecOf(pl, b0, g)|
  {
    hide LocalsOk, RecordBytes, SendStored, RankSpan, RecOf;
    SpanInside(locals, pl.encs, rank, b0, b1, g);
    RecLength(pl, b0, g);
    var enc := locals[rank].encs[g - locals[rank].first];
    n := RecordBytes(|enc.keys|, |enc.stored|, SendStored(pl.first[g], g, b0));
  }

  /** A frame's bytes travel with it, except when an earlier frame of the batch already brings them. */
  lemma PayloadSent(pl: Plan, b0: nat, g: nat)
    requires PlanOk(pl) && b0 <= g < |pl.items| && pl.first[g] <= g
    ensures |RecOf(pl, b0, g)| ==
      24 + |pl.encs[g].keys| + if b0 <= pl.first[g] < g then 0 else |pl.encs[g].stored|
  {
    hide RecOf;
    RecLength(pl, b0, g);
  }

  lemma MsgGrows(pl: Plan, d: nat, b0: nat, lo: nat, g: nat, hi: nat)
    requires PlanOk(pl) && lo <= g < hi <= |pl.items| && Owner(pl, g) == d
    ensures |Msg(pl, d, b0, lo, g)| + |RecOf(pl, b0, g)| <= |Msg(pl, d, b0, lo, hi)|
  {
    hide RecOf;
    MsgSplit(pl, d, b0, lo, g + 1, hi);
  }

  lemma RecLength(pl: Plan, b0: nat, g: nat)
    requires PlanOk(pl) && g < |pl.items|
    ensures |RecOf(pl, b0, g)| == RecordBytes(|pl.encs[g].keys|, |pl.encs[g].stored|, SendStored(pl.first[g], g, b0))
  {
    RecordLength(g, pl.encs[g].keys, pl.encs[g].stored, SendStored(pl.first[g], g, b0));
  }

  // ---------------------------------------------------------------------
  // The exchange
  // ---------------------------------------------------------------------

  /** Column `d` of the send matrix: what `MPI_Alltoallv` lays into rank `d`'s receive buffer. */
  function Received(sends: seq<seq<Bytes>>, d: nat): Bytes
    requires forall s :: 0 <= s < |sends| ==> d < |sends[s]|
  {
    if sends == [] then []
    else Received(sends[..|sends| - 1], d) + sends[|sends| - 1][d]
  }

  /** Row `s` is what `BuildMessages` gives rank `s`. */
  predicate SendsOk(pl: Plan, size: nat, b0: nat, b1: nat, sends: seq<seq<Bytes>>)
    requires PlanOk(pl) && size > 0 && b0 <= b1 <= |pl.items|
  {
    && |sends| <= size
    && forall s :: 0 <= s < |sends| ==> RowOk(pl, size, b0, b1, s, sends[s])
  }

  predicate RowOk(pl: Plan, size: nat, b0: nat, b1: nat, s: nat, row: seq<Bytes>)
    requires PlanOk(pl) && s < size && b0 <= b1 <= |pl.items|
  {
    var (lo, hi) := (Cut(|pl.items|, size, s, b0, b1), Cut(|pl.items|, size, s + 1, b0, b1));
    |row| == size && forall d :: 0 <= d < size ==> row[d] == Msg(pl, d, b0, lo, hi)
  }

  /** Source rank order is global frame order: the receive buffer is the batch's records for this rank, ascending. */
  lemma {:induction false} ReceivedInOrder(pl: Plan, size: nat, b0: nat, b1: nat, sends: seq<seq<Bytes>>, d: nat)
    requires PlanOk(pl) && size > 0 && b0 <= b1 <= |pl.items| && d < size
    requires SendsOk(pl, size, b0, b1, sends)
    ensures Received(sends, d) == Msg(pl, d, b0, b0, Cut(|pl.items|, size, |sends|, b0, b1))
  {
    hide Cut, PlanOk, Owner, RecOf;
    SpanStep(|pl.items|, size, 0, b0, b1);
    if sends != [] {
      var s := |sends| - 1;
      ReceivedInOrder(pl, size, b0, b1, sends[..s], d);
      SpanStep(|pl.items|, size, s, b0, b1);
      assert RowOk(pl, size, b0, b1, s, sends[s]);
      MsgSplit(pl, d, b0, b0, Cut(|pl.items|, size, s, b0, b1), Cut(|pl.items|, size, s + 1, b0, b1));
    }
  }

  /** The counts each rank plans against each destination, as one matrix. */
  predicate PlansOk(pl: Plan, size: nat, b0: nat, b1: nat, plans: seq<seq<u64>>)
    requires PlanOk(pl) && size > 0 && b0 <= b1 <= |pl.items|
  {
    && |plans| <= size
    && forall s :: 0 <= s < |plans| ==> PlanRowOk(pl, size, b0, b1, s, plans[s])
  }

  predicate PlanRowOk(pl: Plan, size: nat, b0: nat, b1: nat, s: nat, row: seq<u64>)
    requires PlanOk(pl) && s < size && b0 <= b1 <= |pl.items|
  {
    var (lo, hi) := (Cut(|pl.items|, size, s, b0, b1), Cut(|pl.items|, size, s + 1, b0, b1));
    |row| == size && forall d :: 0 <= d < size ==> row[d] == |Msg(pl, d, b0, lo, hi)|
  }

  /** Column `d`: what `MPI_Alltoall` of the counts tells rank `d` to expect from each source. */
  function Column(plans: seq<seq<u64>>, d: nat): (c: seq<u64>)
    requires forall s :: 0 <= s < |plans| ==> d < |plans[s]|
    ensures |c| == |plans|
    ensures forall s :: 0 <= s < |plans| ==> c[s] == plans[s][d]
  {
    seq(|plans|, s requires 0 <= s < |plans| => plans[s][d])
  }

  predicate RanksInRange(pl: Plan, size: nat) {
    forall g :: 0 <= g < |pl.items| ==> Owner(pl, g) < size
  }

  method PlanAll(locals: seq<Local>, pl: Plan, b0: nat, b1: nat) returns (r: Result<seq<seq<u64>>>)
    requires PlanOk(pl) && LocalsOk(locals, pl.encs) && b0 <= b1 <= |pl.items|
    requires RanksInRange(pl, |locals|) && |pl.items| == |pl.encs|
    ensures r.Ok? ==> |r.value| == |locals| && PlansOk(pl, |locals|, b0, b1, r.value)
    ensures r.Err? ==> exists s, d :: 0 <= s < |locals| && 0 <= d < |locals| && TooWide(pl, |locals|, b0, b1, s, d)
  {
    var plans: seq<seq<u64>> := [];
    for s := 0 to |locals|
      invariant |plans| == s
      invariant PlansOk(pl, |locals|, b0, b1, plans)
    {
      hide LocalsOk, PlanRowOk, RowOk, TooWide, RanksInRange;
      var row := PlanCounts(locals, s, pl, b0, b1);
      if row.Err? {
        return Err(row.error);
      }
      plans := plans + [row.value];
    }
    r := Ok(plans);
  }

  /** Rank `s` would send more than `u64::MAX` bytes to rank `d`. */
  predicate TooWide(pl: Plan, size: nat, b0: nat, b1: nat, s: nat, d: nat)
    requires PlanOk(pl) && s < size && b0 <= b1 <= |pl.items|
  {
    |Msg(pl, d, b0, Cut(|pl.items|, size, s, b0, b1), Cut(|pl.items|, size, s + 1, b0, b1))| > U64_MAX
  }

  /** Every send and every receive of every rank fits one classic collective. */
  predicate AllFit(plans: seq<seq<u64>>)
    requires forall s :: 0 <= s < |plans| ==> |plans[s]| == |plans|
  {
    forall r :: 0 <= r < |plans| ==> Fits(plans[r]) && Fits(Column(plans, r))
  }

  method FitAll(plans: seq<seq<u64>>) returns (ok: bool)
    requires forall s :: 0 <= s < |plans| ==> |plans[s]| == |plans|
    ensures ok <==> AllFit(plans)
  {
    hide Fits;
    ok := true;
    for r := 0 to |plans|
      invariant ok <==> forall k :: 0 <= k < r ==> Fits(plans[k]) && Fits(Column(plans, k))
    {
      var row := FitsI32(plans[r]);
      var column := FitsI32(Column(plans, r));
      ok := ok && row && column;
    }
  }

  method BuildAll(locals: seq<Local>, pl: Plan, b0: nat, b1: nat) returns (sends: seq<seq<Bytes>>)
    requires PlanOk(pl) && LocalsOk(locals, pl.encs) && b0 <= b1 <= |pl.items|
    requires RanksInRange(pl, |locals|) && |pl.items| == |pl.encs|
    ensures |sends| == |locals| && SendsOk(pl, |locals|, b0, b1, sends)
  {
    sends := [];
    for s := 0 to |locals|
      invariant |sends| == s
      invariant SendsOk(pl, |locals|, b0, b1, sends)
    {
      hide LocalsOk, PlanRowOk, RowOk, TooWide, RanksInRange;
      var row := BuildMessages(locals, s, pl, b0, b1);
      sends := sends + [row];
    }
  }

  /** Planned counts are the lengths of the built messages: the length re-check cannot fail. */
  lemma PlannedEqualsBuilt(pl: Plan, size: nat, b0: nat, b1: nat, plans: seq<seq<u64>>, sends: seq<seq<Bytes>>, s: nat, d: nat)
    requires PlanOk(pl) && b0 <= b1 <= |pl.items| && s < size && d < size
    requires |plans| == size == |sends|
    requires PlansOk(pl, size, b0, b1, plans) && SendsOk(pl, size, b0, b1, sends)
    ensures |plans[s]| == size == |sends[s]| && plans[s][d] == |sends[s][d]|
  {
    hide Cut, Msg, PlanOk;
    assert PlanRowOk(pl, size, b0, b1, s, plans[s]) && RowOk(pl, size, b0, b1, s, sends[s]);
  }

  lemma {:induction false} ReceivedLength(plans: seq<seq<u64>>, sends: seq<seq<Bytes>>, d: nat)
    requires |plans| == |sends|
    requires forall s :: 0 <= s < |sends| ==> d < |sends[s]| && d < |plans[s]| && plans[s][d] == |sends[s][d]|
    ensures |Received(sends, d)| == Sum(Column(plans, d))
  {
    if sends != [] {
      var n := |sends| - 1;
      ReceivedLength(plans[..n], sends[..n], d);
      assert Column(plans, d)[..n] == Column(plans[..n], d);
    }
  }

  function SumLen(pl: Plan, b0: nat, lo: nat, hi: nat): nat
    requires PlanOk(pl) && hi <= |pl.items|
    decreases hi
  {
    if lo >= hi then 0 else SumLen(pl, b0, lo, hi - 1) + |RecOf(pl, b0, hi - 1)|
  }

  /** The bytes of one rank's messages over all destinations. */
  function RowOf(pl: Plan, size: nat, b0: nat, lo: nat, hi: nat): (row: seq<nat>)
    requires PlanOk(pl) && hi <= |pl.items|
    ensures |row| == size
    ensures forall d :: 0 <= d < size ==> row[d] == |Msg(pl, d, b0, lo, hi)|
  {
    seq(size, d requires 0 <= d < size => |Msg(pl, d, b0, lo, hi)|)
  }

  lemma {:induction false} SumUpdate(s: seq<int>, i: nat, c: int)
    requires i < |s|
    ensures Sum(s[i := s[i] + c]) == Sum(s) + c
  {
    var n := |s| - 1;
    if i < n {
      SumUpdate(s[..n], i, c);
      assert s[i := s[i] + c][..n] == s[..n][i := s[i] + c];
    } else {
      assert s[i := s[i] + c][..n] == s[..n];
    }
  }

  lemma {:induction false} SumZero(s: seq<int>)
    requires forall i :: 0 <= i < |s| ==> s[i] == 0
    ensures Sum(s) == 0
  {
    if s != [] {
      SumZero(s[..|s| - 1]);
    }
  }

  /** A rank sends exactly the records of its span: the row total is their total length. */
  lemma {:induction false} RowTotal(pl: Plan, size: nat, b0: nat, lo: nat, hi: nat)
    requires PlanOk(pl) && hi <= |pl.items| && RanksInRange(pl, size)
    ensures Sum(RowOf(pl, size, b0, lo, hi)) == SumLen(pl, b0, lo, hi)
    decreases hi
  {
    hide RecOf, PlanOk, Sum, RowOf, Msg, RanksInRange;
    if lo >= hi {
      assert Sum(RowOf(pl, size, b0, lo, hi)) == 0 by {
        RowEmpty(pl, size, b0, lo, hi);
      }
    } else {
      RowTotal(pl, size, b0, lo, hi - 1);
      RowStep(pl, size, b0, lo, hi);
    }
  }

  lemma RowEmpty(pl: Plan, size: nat, b0: nat, lo: nat, hi: nat)
    requires PlanOk(pl) && hi <= |pl.items| && lo >= hi
    ensures Sum(RowOf(pl, size, b0, lo, hi)) == 0
  {
    hide RecOf, PlanOk, Sum;
    SumZero(RowOf(pl, size, b0, lo, hi));
  }

  lemma RowStep(pl: Plan, size: nat, b0: nat, lo: nat, hi: nat)
    requires PlanOk(pl) && lo < hi <= |pl.items| && RanksInRange(pl, size)
    ensures Sum(RowOf(pl, size, b0, lo, hi)) == Sum(RowOf(pl, size, b0, lo, hi - 1)) + |RecOf(pl, b0, hi - 1)|
  {
    hide RecOf, PlanOk, Sum;
    var (before, d, c) := (RowOf(pl, size, b0, lo, hi - 1), Owner(pl, hi - 1), |RecOf(pl, b0, hi - 1)|);
    assert d < size;
    SumUpdate(before, d, c);
    assert RowOf(pl, size, b0, lo, hi) == before[d := before[d] + c];
  }

  lemma {:induction false} SumLenSplit(pl: Plan, b0: nat, lo: nat, mid: nat, hi: nat)
    requires PlanOk(pl) && lo <= mid <= hi <= |pl.items|
    ensures SumLen(pl, b0, lo, hi) == SumLen(pl, b0, lo, mid) + SumLen(pl, b0, mid, hi)
    decreases hi
  {
    if mid < hi {
      SumLenSplit(pl, b0, lo, mid, hi - 1);
    }
  }

  lemma {:induction false} MsgWithin(pl: Plan, d: nat, b0: nat, lo: nat, hi: nat)
    requires PlanOk(pl) && hi <= |pl.items|
    ensures |Msg(pl, d, b0, lo, hi)| <= SumLen(pl, b0, lo, hi)
    decreases hi
  {
    hide RecOf, PlanOk;
    if lo < hi {
      MsgWithin(pl, d, b0, lo, hi - 1);
    }
  }

  lemma RowFits(pl: Plan, size: nat, b0: nat, b1: nat, plans: seq<seq<u64>>, s: nat)
    requires PlanOk(pl) && b0 <= b1 <= |pl.items| && s < size == |plans|
    requires PlansOk(pl, size, b0, b1, plans) && RanksInRange(pl, size)
    ensures NonNegative(plans[s]) && Sum(plans[s]) <= SumLen(pl, b0, b0, b1)
  {
    hide Cut, PlanOk, Owner, Sum;
    SpanStep(|pl.items|, size, s, b0, b1);
    var (c, d) := (Cut(|pl.items|, size, s, b0, b1), Cut(|pl.items|, size, s + 1, b0, b1));
    assert PlanRowOk(pl, size, b0, b1, s, plans[s]);
    assert plans[s] == RowOf(pl, size, b0, c, d);
    RowTotal(pl, size, b0, c, d);
    SumLenSplit(pl, b0, b0, c, b1);
    SumLenSplit(pl, b0, c, d, b1);
  }

  lemma ColumnFits(pl: Plan, size: nat, b0: nat, b1: nat, plans: seq<seq<u64>>, sends: seq<seq<Bytes>>, d: nat)
    requires PlanOk(pl) && b0 <= b1 <= |pl.items| && d < size == |plans| == |sends|
    requires PlansOk(pl, size, b0, b1, plans) && SendsOk(pl, size, b0, b1, sends)
    ensures forall s :: 0 <= s < size ==> |plans[s]| == size == |sends[s]|
    ensures Received(sends, d) == Msg(pl, d, b0, b0, b1)
    ensures Sum(Column(plans, d)) == |Msg(pl, d, b0, b0, b1)| <= SumLen(pl, b0, b0, b1)
  {
    hide Cut, PlanOk, PlansOk, SendsOk, Sum, Received;
    forall s | 0 <= s < size ensures |plans[s]| == size == |sends[s]| && plans[s][d] == |sends[s][d]| {
      PlannedEqualsBuilt(pl, size, b0, b1, plans, sends, s, d);
    }
    ReceivedLength(plans, sends, d);
    ReceivedInOrder(pl, size, b0, b1, sends, d);
    SpanStep(|pl.items|, size, 0, b0, b1);
    MsgWithin(pl, d, b0, b0, b1);
  }

  /** A batch whose records fit one collective together passes the width agreement on every rank. */
  lemma SmallBatchFits(pl: Plan, size: nat, b0: nat, b1: nat, plans: seq<seq<u64>>, sends: seq<seq<Bytes>>)
    requires PlanOk(pl) && b0 <= b1 <= |pl.items| && size == |plans| == |sends| > 0
    requires PlansOk(pl, size, b0, b1, plans) && SendsOk(pl, size, b0, b1, sends) && RanksInRange(pl, size)
    requires SumLen(pl, b0, b0, b1) <= I32_MAX
    ensures forall s :: 0 <= s < size ==> |plans[s]| == size
    ensures AllFit(plans)
  {
    hide PlansOk, SendsOk, RanksInRange, PlanOk, Sum;
    ColumnFits(pl, size, b0, b1, plans, sends, 0);
    forall s | 0 <= s < size ensures Fits(plans[s]) && Fits(Column(plans, s)) {
      RowFits(pl, size, b0, b1, plans, s);
      ColumnFits(pl, size, b0, b1, plans, sends, s);
    }
  }

  /** Every message of a batch, row by source rank. */
  function SendMatrix(pl: Plan, size: nat, b0: nat, b1: nat): (sends: seq<seq<Bytes>>)
    requires PlanOk(pl) && size > 0 && b0 <= b1 <= |pl.items|
    ensures |sends| == size && SendsOk(pl, size, b0, b1, sends)
  {
    seq(size, s requires 0 <= s < size =>
      seq(size, d requires 0 <= d < size =>
        Msg(pl, d, b0, Cut(|pl.items|, size, s, b0, b1), Cut(|pl.items|, size, s + 1, b0, b1))))
  }

  lemma PlansSquare(pl: Plan, size: nat, b0: nat, b1: nat, plans: seq<seq<u64>>)
    requires PlanOk(pl) && b0 <= b1 <= |pl.items| && size == |plans| > 0
    requires PlansOk(pl, size, b0, b1, plans)
    ensures forall s :: 0 <= s < size ==> |plans[s]| == size
  {
    forall s | 0 <= s < size ensures |plans[s]| == size {
      assert PlanRowOk(pl, size, b0, b1, s, plans[s]);
    }
  }

  lemma PlanTooWide(pl: Plan, size: nat, b0: nat, b1: nat)
    requires PlanOk(pl) && b0 <= b1 <= |pl.items| && size > 0
    requires exists s, d :: 0 <= s < size && 0 <= d < size && TooWide(pl, size, b0, b1, s, d)
    ensures SumLen(pl, b0, b0, |pl.items|) > U64_MAX
  {
    hide PlanOk, Cut, Msg, SumLen;
    var s, d :| 0 <= s < size && 0 <= d < size && TooWide(pl, size, b0, b1, s, d);
    var lo, hi := Cut(|pl.items|, size, s, b0, b1), Cut(|pl.items|, size, s + 1, b0, b1);
    SpanStep(|pl.items|, size, s, b0, b1);
    MsgWithin(pl, d, b0, lo, hi);
    SumLenSplit(pl, b0, b0, lo, |pl.items|);
    SumLenSplit(pl, b0, lo, hi, |pl.items|);
  }

  /** The only batch that is refused for its width holds one frame whose own record is too long. */
  lemma OneFrameTooWide(pl: Plan, size: nat, b0: nat, plans: seq<seq<u64>>)
    requires PlanOk(pl) && b0 < |pl.items| && size == |plans| > 0 && RanksInRange(pl, size)
    requires PlansOk(pl, size, b0, b0 + 1, plans)
    requires forall s :: 0 <= s < size ==> |plans[s]| == size
    requires !AllFit(plans)
    ensures |RecOf(pl, b0, b0)| > I32_MAX
  {
    hide PlansOk, SendsOk, RanksInRange, PlanOk, AllFit, RecOf;
    assert SumLen(pl, b0, b0, b0) == 0;
    assert SumLen(pl, b0, b0, b0 + 1) == |RecOf(pl, b0, b0)|;
    if |RecOf(pl, b0, b0)| <= I32_MAX {
      SmallBatchFits(pl, size, b0, b0 + 1, plans, SendMatrix(pl, size, b0, b0 + 1));
    }
  }

  /** Counts narrowed to `i32` with their displacements: what one side of the exchange is laid out by. */
  method Layout(counts: seq<u64>) returns (r: Result<(seq<i32>, seq<int>)>)
    ensures r.Ok? <==> Fits(counts)
    ensures r.Ok? ==> r.value == (counts, Displacements(counts))
  {
    var narrow: seq<i32> := [];
    for i := 0 to |counts|
      invariant narrow == counts[..i]
    {
      hide Sum;
      var n := MpiI32(counts[i]);
      if n.Err? {
        if Fits(counts) {
          FitsEach(counts, i);
        }
        return Err(n.error);
      }
      narrow := narrow + [n.value];
    }
    assert counts[..|counts|] == counts;
    var displs :- PrefixI32(narrow);
    r := Ok((narrow, displs));
  }

  /** Rank `d`'s receive buffer: its records of the batch in frame order, within one `i32` count. */
  predicate DeliveredTo(pl: Plan, b0: nat, b1: nat, d: nat, buf: Bytes)
    requires PlanOk(pl) && b0 <= b1 <= |pl.items|
  {
    buf == Msg(pl, d, b0, b0, b1) && |buf| <= I32_MAX
  }

  lemma {:induction false} MsgHolds(pl: Plan, d: nat, b0: nat, lo: nat, hi: nat, g: nat)
    requires PlanOk(pl) && lo <= g < hi <= |pl.items| && Owner(pl, g) == d
    ensures |RecOf(pl, b0, g)| <= |Msg(pl, d, b0, lo, hi)|
    decreases hi
  {
    hide PlanOk, RecOf;
    if g < hi - 1 {
      MsgHolds(pl, d, b0, lo, hi - 1, g);
    }
  }

  /** A delivered batch holds no record wider than a collective. */
  lemma DeliveredNarrow(pl: Plan, b0: nat, b1: nat, d: nat, buf: Bytes, g: nat)
    requires PlanOk(pl) && b0 <= g < b1 <= |pl.items| && Owner(pl, g) == d && DeliveredTo(pl, b0, b1, d, buf)
    ensures |RecOf(pl, b0, g)| <= I32_MAX
  {
    hide PlanOk, RecOf;
    MsgHolds(pl, d, b0, b0, b1, g);
  }

  lemma ReceiverGets(pl: Plan, size: nat, b0: nat, b1: nat, plans: seq<seq<u64>>, sends: seq<seq<Bytes>>, d: nat)
    requires PlanOk(pl) && b0 <= b1 <= |pl.items| && d < size == |plans| == |sends|
    requires PlansOk(pl, size, b0, b1, plans) && SendsOk(pl, size, b0, b1, sends)
    requires forall s :: 0 <= s < size ==> |plans[s]| == size == |sends[s]|
    requires Fits(Column(plans, d))
    ensures DeliveredTo(pl, b0, b1, d, Received(sends, d))
  {
    hide PlanOk, PlansOk, SendsOk, Received, Msg, Sum;
    ColumnFits(pl, size, b0, b1, plans, sends, d);
  }

  /** Build the messages, re-check every width, and transpose them into the receive buffers. */
  method Deliver(locals: seq<Local>, pl: Plan, b0: nat, b1: nat, plans: seq<seq<u64>>) returns (recv: seq<Bytes>)
    requires PlanOk(pl) && LocalsOk(locals, pl.encs) && RanksInRange(pl, |locals|) && b0 <= b1 <= |pl.items| == |pl.encs|
    requires |plans| == |locals| && PlansOk(pl, |locals|, b0, b1, plans)
    requires forall s :: 0 <= s < |plans| ==> |plans[s]| == |plans|
    requires AllFit(plans)
    ensures |recv| == |locals|
    ensures forall d :: 0 <= d < |recv| ==> DeliveredTo(pl, b0, b1, d, recv[d])
  {
    hide LocalsOk, RanksInRange, PlanOk, PlansOk, SendsOk, Received, DeliveredTo, Fits, Displacements;
    var sends := BuildAll(locals, pl, b0, b1);
    recv := [];
    for d := 0 to |locals|
      invariant |recv| == d
      invariant forall k :: 0 <= k < d ==> DeliveredTo(pl, b0, b1, k, recv[k])
    {
      ColumnFits(pl, |locals|, b0, b1, plans, sends, d);
      assert Fits(Column(plans, d)) && Fits(plans[d]);
      var sendLayout := Layout(plans[d]);
      var recvLayout := Layout(Column(plans, d));
      assert sendLayout.Ok? && recvLayout.Ok?;
      assert DeliveredTo(pl, b0, b1, d, Received(sends, d)) by {
        ReceiverGets(pl, |locals|, b0, b1, plans, sends, d);
      }
      recv := recv + [Received(sends, d)];
    }
  }

  /**
   * `exchange_batch`: plan, agree on the width, halve the batch until it fits, build, re-check,
   * and exchange. All ranks take the same steps; `recv[d]` is rank `d`'s receive buffer.
   */
  method ExchangeBatch(locals: seq<Local>, pl: Plan, b0: nat, batch: nat) returns (r: Result<(nat, seq<Bytes>)>)
    requires PlanOk(pl) && LocalsOk(locals, pl.encs) && RanksInRange(pl, |locals|)
    requires b0 < |pl.items| == |pl.encs| <= USIZE_MAX
    ensures r.Ok? ==>
      var (b1, recv) := r.value;
      && b0 < b1 <= BatchEnd(b0, batch, |pl.items|)
      && |recv| == |locals|
      && forall d :: 0 <= d < |recv| ==> DeliveredTo(pl, b0, b1, d, recv[d])
    ensures r.Err? ==> SumLen(pl, b0, b0, |pl.items|) > U64_MAX || |RecOf(pl, b0, b0)| > I32_MAX
  {
    var size := |locals|;
    BatchAdvances(b0, batch, |pl.items|);
    var b1 := BatchEnd(b0, batch, |pl.items|);
    hide BatchEnd, ShrinkBatchEnd, LocalsOk, RanksInRange, PlanOk, PlansOk, SendsOk, RecOf, AllFit, Msg;
    while true
      invariant b0 < b1 <= BatchEnd(b0, batch, |pl.items|) <= |pl.items|
      decreases b1
    {
      var planned := PlanAll(locals, pl, b0, b1);
      if planned.Err? {
        PlanTooWide(pl, size, b0, b1);
        return Err(planned.error);
      }
      var plans := planned.value;
      PlansSquare(pl, size, b0, b1, plans);
      var fit := FitAll(plans);
      if !fit {
        var shrunk := ShrinkBatchEnd(b0, b1);
        ShrinkStops(b0, b1);
        if shrunk.None? {
          OneFrameTooWide(pl, size, b0, plans);
          return Err(Message("MPI message exceeds i32::MAX"));
        }
        b1 := shrunk.value;
      } else {
        var recv := Deliver(locals, pl, b0, b1, plans);
        return Ok((b1, recv));
      }
    }
  }
}
