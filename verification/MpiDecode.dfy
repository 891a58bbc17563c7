/** Reading a receive buffer back into rows, with duplicate payloads restored from the same batch. */
module MpiDecode {
  import opened Prelude
  import opened Utf8
  import opened Keys
  import opened Store
  import opened MpiWire
  import opened MpiPlan
  import opened MpiExchange

  /** A received frame waiting for its aligned group. */
  datatype Held = Held(fk: FrameKey, keys: Bytes, stored: Bytes)

  function HeldOf(pl: Plan, g: nat): Held
    requires PlanOk(pl) && g < |pl.items|
  {
    Held(pl.items[g].fk, pl.encs[g].keys, pl.encs[g].stored)
  }

  /** The rows rank `d` owns in `[lo, hi)`, in frame order, each with its environment. */
  function Rows(pl: Plan, d: nat, lo: nat, hi: nat): seq<(u32, Held)>
    requires PlanOk(pl) && hi <= |pl.items|
    decreases hi
  {
    if lo >= hi then [] else Rows(pl, d, lo, hi - 1) + RowOfFrame(pl, d, hi - 1)
  }

  function RowOfFrame(pl: Plan, d: nat, g: nat): seq<(u32, Held)>
    requires PlanOk(pl) && g < |pl.items|
  {
    if Owner(pl, g) == d then [(pl.items[g].dest.env, HeldOf(pl, g))] else []
  }

  /** What deduplication rests on: a winner is an earlier frame of the same environment with the same stored bytes. */
  predicate DedupOk(pl: Plan)
    requires PlanOk(pl)
  {
    forall g :: 0 <= g < |pl.items| ==>
      && pl.first[g] <= g
      && pl.first[pl.first[g]] == pl.first[g]
      && Owner(pl, pl.first[g]) == Owner(pl, g)
      && pl.encs[pl.first[g]].stored == pl.encs[g].stored
  }

  /** The first frame of `[c, hi)` that rank `d` owns; everything before it contributes no bytes and no rows. */
  lemma {:induction false} NextOwned(pl: Plan, d: nat, b0: nat, lo: nat, c: nat, hi: nat) returns (g: nat)
    requires PlanOk(pl) && lo <= c <= hi <= |pl.items|
    requires Msg(pl, d, b0, c, hi) != []
    ensures c <= g < hi && Owner(pl, g) == d
    ensures Msg(pl, d, b0, c, hi) == RecOf(pl, b0, g) + Msg(pl, d, b0, g + 1, hi)
    ensures Rows(pl, d, lo, g) == Rows(pl, d, lo, c)
    ensures forall k :: c <= k < g ==> Owner(pl, k) != d
    decreases hi - c
  {
    hide RecOf, Owner, PlanOk, HeldOf;
    MsgSplit(pl, d, b0, c, c + 1, hi);
    assert Msg(pl, d, b0, c, c) == [];
    if Owner(pl, c) == d {
      g := c;
    } else {
      g := NextOwned(pl, d, b0, lo, c + 1, hi);
    }
  }

  lemma {:induction false} MsgEmpty(pl: Plan, d: nat, b0: nat, lo: nat, c: nat, hi: nat)
    requires PlanOk(pl) && lo <= c <= hi <= |pl.items|
    requires Msg(pl, d, b0, c, hi) == []
    ensures Rows(pl, d, lo, hi) == Rows(pl, d, lo, c)
    decreases hi - c
  {
    hide PlanOk, HeldOf;
    if c < hi {
      MsgEmpty(pl, d, b0, lo, c, hi - 1);
      RecLength(pl, b0, hi - 1);
    }
  }

  /** The winners a batch needs again. */
  method Reused(first: seq<nat>, b0: nat, b1: nat) returns (reuse: set<nat>)
    requires b0 <= b1 <= |first|
    ensures forall w :: w in reuse <==> exists g :: b0 <= g < b1 && NeedsWinner(first, b0, g) && first[g] == w
  {
    reuse := {};
    for g := b0 to b1
      invariant forall w :: w in reuse <==> exists k :: b0 <= k < g && NeedsWinner(first, b0, k) && first[k] == w
    {
      if NeedsWinner(first, b0, g) {
        reuse := reuse + {first[g]};
      }
    }
  }

  predicate NeedsWinner(first: seq<nat>, b0: nat, g: nat)
    requires g < |first|
  {
    first[g] != g && first[g] >= b0
  }

  /** The kept payloads cover every winner behind the cursor that a later frame of the batch reuses. */
  predicate KeptOk(pl: Plan, d: nat, b0: nat, c: nat, reuse: set<nat>, kept: map<nat, Bytes>)
    requires PlanOk(pl) && c <= |pl.items|
  {
    forall w :: b0 <= w < c && Owner(pl, w) == d && w in reuse && pl.first[w] == w ==>
      w in kept && kept[w] == pl.encs[w].stored
  }

  /** `file_of` turned into the row's key. */
  method KeyOf(files: seq<File>, ghost route: Route, ghost size: nat, g: nat) returns (fk: FrameKey)
    requires Counted(files) && RouteOk(route) && size > 0 && g < Total(files)
    ensures fk == Items(files, route, size)[g].fk
  {
    hide Items, FileOf, G0;
    FileOfFinds(files, route, size, g);
    var f := Bisect(files, g);
    ItemInFile(files, route, size, f, g - G0(files, f));
    fk := FrameKey(files[f].traj, g - G0(files, f));
  }

  lemma NothingYet(pl: Plan, d: nat, b0: nat, reuse: set<nat>)
    requires PlanOk(pl) && b0 <= |pl.items|
    ensures Rows(pl, d, b0, b0) == []
    ensures KeptOk(pl, d, b0, b0, reuse, map[])
  {}

  function Raw(pl: Plan, b0: nat, g: nat): Bytes
    requires PlanOk(pl) && g < |pl.items|
  {
    if SendStored(pl.first[g], g, b0) then pl.encs[g].stored else []
  }

  lemma RecordArrives(pl: Plan, d: nat, b0: nat, g: nat, hi: nat)
    requires PlanOk(pl) && g < hi <= |pl.items|
    ensures ReadRecord(RecOf(pl, b0, g) + Msg(pl, d, b0, g + 1, hi))
         == Ok((Rec(g, pl.encs[g].keys, Raw(pl, b0, g)), Msg(pl, d, b0, g + 1, hi)))
  {
    hide Msg, ReadRecord, Record;
    RecordReads(g, pl.encs[g].keys, Raw(pl, b0, g), Msg(pl, d, b0, g + 1, hi));
  }

  predicate ReuseOk(pl: Plan, b0: nat, b1: nat, reuse: set<nat>)
    requires b1 <= |pl.first|
  {
    forall g :: b0 <= g < b1 && NeedsWinner(pl.first, b0, g) ==> pl.first[g] in reuse
  }

  /** Wherever the bytes of frame `g` come from (its record or a kept winner), they are its own. */
  lemma StoredArrives(pl: Plan, d: nat, b0: nat, c: nat, b1: nat, g: nat, reuse: set<nat>, kept: map<nat, Bytes>)
    requires PlanOk(pl) && DedupOk(pl) && b0 <= c <= g < b1 <= |pl.items| && Owner(pl, g) == d
    requires forall k :: c <= k < g ==> Owner(pl, k) != d
    requires ReuseOk(pl, b0, b1, reuse)
    requires KeptOk(pl, d, b0, c, reuse, kept)
    ensures pl.first[g] == g || pl.first[g] < b0 ==> Raw(pl, b0, g) == pl.encs[g].stored
    ensures b0 <= pl.first[g] != g ==> pl.first[g] in kept && kept[pl.first[g]] == pl.encs[g].stored
  {
    var w := pl.first[g];
    hide PlanOk;
    if b0 <= w != g {
      assert NeedsWinner(pl.first, b0, g);
      assert Owner(pl, w) == d;
    }
  }

  lemma KeptStep(pl: Plan, d: nat, b0: nat, c: nat, g: nat, reuse: set<nat>, kept: map<nat, Bytes>)
    requires PlanOk(pl) && b0 <= c <= g < |pl.items|
    requires forall k :: c <= k < g ==> Owner(pl, k) != d
    requires KeptOk(pl, d, b0, c, reuse, kept)
    ensures KeptOk(pl, d, b0, g + 1, reuse, kept[g := pl.encs[g].stored])
    ensures pl.first[g] != g || g !in reuse ==> KeptOk(pl, d, b0, g + 1, reuse, kept)
  {}

  lemma RowArrives(pl: Plan, d: nat, lo: nat, g: nat)
    requires PlanOk(pl) && lo <= g < |pl.items| && Owner(pl, g) == d
    ensures Rows(pl, d, lo, g + 1) == Rows(pl, d, lo, g) + [(pl.items[g].dest.env, HeldOf(pl, g))]
  {}

  lemma ReuseHolds(pl: Plan, b0: nat, b1: nat, reuse: set<nat>)
    requires b1 <= |pl.first|
    requires forall w :: w in reuse <==> exists k :: b0 <= k < b1 && NeedsWinner(pl.first, b0, k) && pl.first[k] == w
    ensures ReuseOk(pl, b0, b1, reuse)
  {}

  /** One record off the buffer: which frame it is, where its bytes come from, and what the cursor leaves behind. */
  lemma DecodeStep(pl: Plan, d: nat, b0: nat, c: nat, b1: nat, reuse: set<nat>, kept: map<nat, Bytes>, p: Bytes)
    returns (g: nat)
    requires PlanOk(pl) && DedupOk(pl) && b0 <= c <= b1 <= |pl.items|
    requires ReuseOk(pl, b0, b1, reuse) && KeptOk(pl, d, b0, c, reuse, kept)
    requires p == Msg(pl, d, b0, c, b1) && p != []
    ensures c <= g < b1
    ensures ReadRecord(p) == Ok((Rec(g, pl.encs[g].keys, Raw(pl, b0, g)), Msg(pl, d, b0, g + 1, b1)))
    ensures Rows(pl, d, b0, g + 1) == Rows(pl, d, b0, c) + [(pl.items[g].dest.env, HeldOf(pl, g))]
    ensures pl.first[g] == g || pl.first[g] < b0 ==> Raw(pl, b0, g) == pl.encs[g].stored
    ensures b0 <= pl.first[g] != g ==> pl.first[g] in kept && kept[pl.first[g]] == pl.encs[g].stored
    ensures KeptOk(pl, d, b0, g + 1, reuse, kept[g := pl.encs[g].stored])
    ensures pl.first[g] != g || g !in reuse ==> KeptOk(pl, d, b0, g + 1, reuse, kept)
  {
    hide Msg, Rows, PlanOk, ReadRecord, RecOf, HeldOf, KeptOk, DedupOk;
    g := NextOwned(pl, d, b0, b0, c, b1);
    RecordArrives(pl, d, b0, g, b1);
    StoredArrives(pl, d, b0, c, b1, g, reuse, kept);
    KeptStep(pl, d, b0, c, g, reuse, kept);
    RowArrives(pl, d, b0, g);
  }

  /** One turn of the decode loop. */
  method DecodeOne(p: Bytes, b0: nat, pl: Plan, files: seq<File>, reuse: set<nat>, kept0: map<nat, Bytes>,
                   ghost route: Route, ghost size: nat, ghost d: nat, ghost c: nat, ghost b1: nat)
    returns (row: (u32, Held), rest: Bytes, kept: map<nat, Bytes>, ghost next: nat)
    requires PlanOk(pl) && DedupOk(pl) && b0 <= c <= b1 <= |pl.items|
    requires Counted(files) && RouteOk(route) && size > 0 && pl.items == Items(files, route, size)
    requires ReuseOk(pl, b0, b1, reuse) && KeptOk(pl, d, b0, c, reuse, kept0)
    requires p == Msg(pl, d, b0, c, b1) && p != []
    ensures c < next <= b1 && |rest| < |p|
    ensures rest == Msg(pl, d, b0, next, b1)
    ensures Rows(pl, d, b0, next) == Rows(pl, d, b0, c) + [row]
    ensures KeptOk(pl, d, b0, next, reuse, kept)
  {
    assert |pl.first| == |pl.items| == |pl.encs|;
    hide Msg, Rows, PlanOk, RecOf, Items, Counted, ReadRecord, Owner, KeptOk, DedupOk, Raw, ReuseOk;
    ghost var g0 := DecodeStep(pl, d, b0, c, b1, reuse, kept0, p);
    var rec := ReadRecord(p).value.0;
    rest := ReadRecord(p).value.1;
    var g: nat := rec.frame;
    var winner := pl.first[g];
    var stored := rec.raw;
    kept := kept0;
    if winner == g {
      if g in reuse {
        kept := kept[g := stored];
      }
    } else if winner >= b0 {
      stored := kept[winner];
    }
    var fk := KeyOf(files, route, size, g);
    row := (pl.items[g].dest.env, Held(fk, rec.enc, stored));
    next := g0 + 1;
  }

  /**
   * `decode_batch`: exactly the rank's rows of the batch, ascending, each with its own bytes.
   * It never fails: in particular no payload is missing.
   */
  method DecodeBatch(recv: Bytes, b0: nat, b1: nat, d: nat, pl: Plan, files: seq<File>,
                     ghost route: Route, ghost size: nat)
    returns (rows: seq<(u32, Held)>)
    requires PlanOk(pl) && DedupOk(pl) && b0 <= b1 <= |pl.items|
    requires Counted(files) && RouteOk(route) && size > 0 && pl.items == Items(files, route, size)
    requires recv == Msg(pl, d, b0, b0, b1)
    ensures rows == Rows(pl, d, b0, b1)
  {
    assert |pl.first| == |pl.items|;
    hide Msg, Rows, PlanOk, Items, Counted, KeptOk, DedupOk, ReuseOk;
    var reuse := Reused(pl.first, b0, b1);
    var kept: map<nat, Bytes> := map[];
    rows := [];
    var p := recv;
    ghost var c: nat := b0;
    ReuseHolds(pl, b0, b1, reuse);
    NothingYet(pl, d, b0, reuse);
    while p != []
      invariant b0 <= c <= b1
      invariant p == Msg(pl, d, b0, c, b1)
      invariant rows == Rows(pl, d, b0, c)
      invariant KeptOk(pl, d, b0, c, reuse, kept)
      decreases |p|
    {
      var row;
      row, p, kept, c := DecodeOne(p, b0, pl, files, reuse, kept, route, size, d, c, b1);
      rows := rows + [row];
    }
    MsgEmpty(pl, d, b0, b0, c, b1);
  }
}
