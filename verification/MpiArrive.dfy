/** Frames arrive at an environment's owner in exactly the order of the environment's stream. */
module MpiArrive {
  import opened Prelude
  import opened Utf8
  import opened Keys
  import opened Store
  import opened MpiPlan
  import opened MpiExchange
  import opened MpiDecode
  import opened MpiRegroup
  import opened MpiStream
  import opened MpiSerial

  /** The rows of environment `e` among the first `hi` frames. */
  function Arrived(w: World, items: seq<Item>, e: u32, hi: nat): seq<Held>
    requires hi <= |items|
  {
    if hi == 0 then []
    else Arrived(w, items, e, hi - 1) + ArrivedOne(w, items[hi - 1], e)
  }

  function ArrivedOne(w: World, it: Item, e: u32): seq<Held> {
    if it.dest.env == e then [HeldFor(w, it.fk, it.text)] else []
  }

  lemma {:induction false} ArrivedPrefix(w: World, a: seq<Item>, all: seq<Item>, e: u32, hi: nat)
    requires hi <= |a| && a <= all
    ensures Arrived(w, all, e, hi) == Arrived(w, a, e, hi)
  {
    hide ArrivedOne;
    if hi > 0 {
      ArrivedPrefix(w, a, all, e, hi - 1);
    }
  }

  lemma {:induction false} ArrivedAppend(w: World, a: seq<Item>, b: seq<Item>, e: u32, i: nat)
    requires i <= |b|
    ensures |a| + i <= |a + b|
    ensures Arrived(w, a + b, e, |a| + i) == Arrived(w, a, e, |a|) + Arrived(w, b, e, i)
  {
    hide ArrivedOne;
    if i == 0 {
      ArrivedPrefix(w, a, a + b, e, |a|);
    } else {
      ArrivedAppend(w, a, b, e, i - 1);
      calc {
        Arrived(w, a + b, e, |a| + i);
        { assert (a + b)[|a| + i - 1] == b[i - 1]; }
        Arrived(w, a + b, e, |a| + i - 1) + ArrivedOne(w, b[i - 1], e);
        Arrived(w, a, e, |a|) + Arrived(w, b, e, i - 1) + ArrivedOne(w, b[i - 1], e);
        Arrived(w, a, e, |a|) + (Arrived(w, b, e, i - 1) + ArrivedOne(w, b[i - 1], e));
        Arrived(w, a, e, |a|) + Arrived(w, b, e, i);
      }
    }
  }

  lemma ArrivedNone(w: World, items: seq<Item>, e: u32)
    ensures Arrived(w, items, e, 0) == []
  {}

  lemma ArrivedNext(w: World, items: seq<Item>, e: u32, i: nat)
    requires i < |items|
    ensures Arrived(w, items, e, i + 1) == Arrived(w, items, e, i) + ArrivedOne(w, items[i], e)
  {
    hide ArrivedOne;
  }

  lemma {:induction false} FileArrives(w: World, f: File, dest: Dest, e: u32, i: nat)
    requires |f.spans| <= U32_MAX && i <= |f.spans|
    ensures Arrived(w, FileItems(f, dest), e, i) == if dest.env == e then FileHelds(w, f)[..i] else []
  {
    hide *;
    if i == 0 {
      ArrivedNone(w, FileItems(f, dest), e);
    } else {
      FileArrives(w, f, dest, e, i - 1);
      ArrivedNext(w, FileItems(f, dest), e, i - 1);
      FileRow(w, f, dest, e, i - 1);
      TakeNext(FileHelds(w, f), i);
    }
  }

  lemma TakeNext<T>(s: seq<T>, i: nat)
    requires 0 < i <= |s|
    ensures s[..i] == s[..i - 1] + [s[i - 1]]
  {}

  lemma FileRow(w: World, f: File, dest: Dest, e: u32, i: nat)
    requires |f.spans| <= U32_MAX && i < |f.spans|
    ensures ArrivedOne(w, FileItems(f, dest)[i], e) == if dest.env == e then [FileHelds(w, f)[i]] else []
  {
    hide HeldFor;
  }

  /** Once every frame has arrived, an environment has received its whole stream. */
  lemma {:induction false} AllArrived(w: World, files: seq<File>, route: Route, size: nat, e: u32)
    requires Counted(files) && RouteOk(route) && size > 0
    ensures Arrived(w, Items(files, route, size), e, Total(files)) == FileStream(w, files, route, e)
  {
    hide FileItems, FileHelds, EnvOf, OwnerOf, Arrived, HeldFor;
    if files == [] {
      NothingArrived(w, e);
    } else {
      var n := |files| - 1;
      var f := files[n];
      var dest := DestOf(route, size, f.traj);
      AllArrived(w, files[..n], route, size, e);
      ArrivedAppend(w, Items(files[..n], route, size), FileItems(f, dest), e, |f.spans|);
      FileArrives(w, f, dest, e, |f.spans|);
      assert FileHelds(w, f)[..|f.spans|] == FileHelds(w, f);
    }
  }

  lemma NothingArrived(w: World, e: u32)
    ensures Arrived(w, [], e, 0) == []
  {}

  lemma {:induction false} ArrivedGrows(w: World, items: seq<Item>, e: u32, lo: nat, hi: nat)
    requires lo <= hi <= |items|
    ensures Arrived(w, items, e, lo) <= Arrived(w, items, e, hi)
  {
    hide ArrivedOne;
    if lo < hi {
      ArrivedGrows(w, items, e, lo, hi - 1);
    }
  }

  /** The rows of environment `e` in a decoded batch. */
  function EnvRows(rows: seq<(u32, Held)>, e: u32): seq<Held> {
    if rows == [] then []
    else
      var n := |rows| - 1;
      EnvRows(rows[..n], e) + (if rows[n].0 == e then [rows[n].1] else [])
  }

  /** The plan's rows are the frames' rows. */
  predicate PlanEncodes(w: World, pl: Plan) {
    PlanOk(pl) && EncodedAs(w, pl.items, pl.encs)
  }

  /** The owner of `e` receives the next piece of its stream with every batch; nobody else receives any of it. */
  lemma {:induction false} BatchArrives(w: World, pl: Plan, d: nat, e: u32, lo: nat, hi: nat)
    requires PlanEncodes(w, pl) && lo <= hi <= |pl.items|
    requires forall g :: 0 <= g < |pl.items| && pl.items[g].dest.env == e ==> Owner(pl, g) == d
    ensures Arrived(w, pl.items, e, hi) == Arrived(w, pl.items, e, lo) + EnvRows(Rows(pl, d, lo, hi), e)
    decreases hi
  {
    hide ArrivedOne, EnvRows, Rows, PlanOk, EncodedAs;
    if lo < hi {
      BatchArrives(w, pl, d, e, lo, hi - 1);
      FrameArrives(w, pl, d, e, lo, hi);
      var (x, y, z) := (Arrived(w, pl.items, e, lo), EnvRows(Rows(pl, d, lo, hi - 1), e), ArrivedOne(w, pl.items[hi - 1], e));
      assert x + y + z == x + (y + z);
    } else {
      NoRowsYet(pl, d, e, lo);
    }
  }

  lemma NoRowsYet(pl: Plan, d: nat, e: u32, lo: nat)
    requires PlanOk(pl) && lo <= |pl.items|
    ensures EnvRows(Rows(pl, d, lo, lo), e) == []
  {}

  lemma FrameArrives(w: World, pl: Plan, d: nat, e: u32, lo: nat, hi: nat)
    requires PlanEncodes(w, pl) && lo < hi <= |pl.items|
    requires pl.items[hi - 1].dest.env == e ==> Owner(pl, hi - 1) == d
    ensures EnvRows(Rows(pl, d, lo, hi), e) == EnvRows(Rows(pl, d, lo, hi - 1), e) + ArrivedOne(w, pl.items[hi - 1], e)
  {
    hide HeldFor, HeldOf, PlanOk, EncodedAs, EnvRows;
    HeldAgrees(w, pl, hi - 1);
    if Owner(pl, hi - 1) == d {
      EnvRowsPush(Rows(pl, d, lo, hi - 1), (pl.items[hi - 1].dest.env, HeldOf(pl, hi - 1)), e);
    } else {
      assert Rows(pl, d, lo, hi) == Rows(pl, d, lo, hi - 1);
    }
  }

  lemma EnvRowsPush(rows: seq<(u32, Held)>, row: (u32, Held), e: u32)
    ensures EnvRows(rows + [row], e) == EnvRows(rows, e) + (if row.0 == e then [row.1] else [])
  {
    assert (rows + [row])[..|rows|] == rows;
  }

  lemma HeldAgrees(w: World, pl: Plan, g: nat)
    requires PlanEncodes(w, pl) && g < |pl.items|
    ensures HeldOf(pl, g) == HeldFor(w, pl.items[g].fk, pl.items[g].text)
  {
    hide EncodeItem;
    assert EncodeItem(w, pl.items[g].fk, pl.items[g].text) == Ok(pl.encs[g]);
  }

  /** Every row comes from a frame of the batch that the rank owns. */
  lemma {:induction false} RowOwned(pl: Plan, d: nat, lo: nat, hi: nat, i: nat) returns (g: nat)
    requires PlanOk(pl) && lo <= hi <= |pl.items| && i < |Rows(pl, d, lo, hi)|
    ensures lo <= g < hi && Owner(pl, g) == d && pl.items[g].dest.env == Rows(pl, d, lo, hi)[i].0
    decreases hi
  {
    hide PlanOk, HeldOf;
    g := hi - 1;
    if i < |Rows(pl, d, lo, hi - 1)| {
      g := RowOwned(pl, d, lo, hi - 1, i);
    }
  }
}
