/**
 * Directory ingest: worker threads claim chunks of the sorted file list and fill the slots of their files;
 * one thread then commits the slots in order.
 */
module DirectoryIngest {
  import opened Prelude
  import opened Utf8
  import opened Store
  import opened Ingest
  import opened Corpus
  import opened CorpusGrow
  import FC = FrameCodec

  // ---------------------------------------------------------------------
  // Chunks
  // ---------------------------------------------------------------------

  /** The chunks cut `0 .. n` into non-empty consecutive pieces. */
  predicate Tiles(bounds: seq<(nat, nat)>, n: nat) {
    && (bounds == [] <==> n == 0)
    && (forall c :: 0 <= c < |bounds| ==> bounds[c].0 < bounds[c].1 <= n)
    && (bounds != [] ==> bounds[0].0 == 0 && bounds[|bounds| - 1].1 == n)
    && forall c :: 0 < c < |bounds| ==> bounds[c].0 == bounds[c - 1].1
  }

  lemma TilesSnoc(bounds: seq<(nat, nat)>, i: nat, j: nat)
    requires Tiles(bounds, i) && i < j
    ensures Tiles(bounds + [(i, j)], j)
  {}

  /** Every piece but the last has `chunk` files, and the last has no more. */
  predicate Even(bounds: seq<(nat, nat)>, chunk: nat) {
    forall c :: 0 <= c < |bounds| ==>
      bounds[c].1 <= bounds[c].0 + chunk && (c + 1 < |bounds| ==> bounds[c].1 == bounds[c].0 + chunk)
  }

  /** That leaves one choice: the pieces depend on the number of files and nothing else. */
  lemma {:induction false} EvenOnce(a: seq<(nat, nat)>, b: seq<(nat, nat)>, n: nat, chunk: nat, k: nat)
    requires Tiles(a, n) && Tiles(b, n) && Even(a, chunk) && Even(b, chunk)
    requires k <= |a|
    ensures k <= |b| && a[..k] == b[..k]
    ensures k == |a| ==> a == b
  {
    if k > 0 {
      EvenOnce(a, b, n, chunk, k - 1);
      if k == 1 {
        assert b != [];
      } else {
        assert a[k - 2] == a[..k - 1][k - 2] == b[..k - 1][k - 2] == b[k - 2];
        assert k - 1 < |b|;
      }
      assert a[k - 1] == b[k - 1];
      assert a[..k] == a[..k - 1] + [a[k - 1]] && b[..k] == b[..k - 1] + [b[k - 1]];
    }
    if k == |a| && k > 0 {
      assert a[k - 1] == a[..k][k - 1] == b[..k][k - 1] == b[k - 1];
      if k < |b| {
        MoreToCome(b, n, k);
      }
    }
  }

  lemma MoreToCome(b: seq<(nat, nat)>, n: nat, k: nat)
    requires Tiles(b, n) && 0 < k < |b|
    ensures b[k - 1].1 < n
  {
    assert b[k].0 == b[k - 1].1;
  }

  predicate AllFull(bounds: seq<(nat, nat)>, chunk: nat) {
    forall c :: 0 <= c < |bounds| ==> bounds[c].1 == bounds[c].0 + chunk
  }

  lemma EvenSnoc(bounds: seq<(nat, nat)>, i: nat, j: nat, chunk: nat)
    requires AllFull(bounds, chunk) && j <= i + chunk
    ensures Even(bounds + [(i, j)], chunk)
    ensures j == i + chunk ==> AllFull(bounds + [(i, j)], chunk)
  {}

  /** `ingest_chunk_bounds`: a function of the file count only. */
  method ChunkBounds(n: nat) returns (bounds: seq<(nat, nat)>)
    ensures Tiles(bounds, n) && Even(bounds, Max(n / 8, 1))
  {
    if n == 0 {
      return [];
    }
    var chunk := Max(n / 8, 1);
    bounds := [];
    var i := 0;
    while i < n
      invariant 0 <= i <= n && Tiles(bounds, i) && Even(bounds, chunk)
      invariant i < n ==> AllFull(bounds, chunk)
    {
      var j := Min(i + chunk, n);
      TilesSnoc(bounds, i, j);
      EvenSnoc(bounds, i, j, chunk);
      bounds := bounds + [(i, j)];
      i := j;
    }
  }

  /** The pieces come in order, so an index lies in one of them at most. */
  lemma {:induction false} TilesAscend(bounds: seq<(nat, nat)>, n: nat, c: nat, d: nat)
    requires Tiles(bounds, n) && c < d < |bounds|
    ensures bounds[c].1 <= bounds[d].0
  {
    if c + 1 < d {
      TilesAscend(bounds, n, c, d - 1);
    }
  }

  /** Every index lies in a piece. */
  lemma {:induction false} TilesCover(bounds: seq<(nat, nat)>, n: nat, i: nat, d: nat) returns (c: nat)
    requires Tiles(bounds, n) && d < |bounds| && i < bounds[d].1
    ensures c < |bounds| && bounds[c].0 <= i < bounds[c].1
  {
    if bounds[d].0 <= i {
      c := d;
    } else {
      c := TilesCover(bounds, n, i, d - 1);
    }
  }

  // ---------------------------------------------------------------------
  // Workers
  // ---------------------------------------------------------------------

  datatype Worker = Fetching | Working(chunk: nat, at: nat) | Finished

  /** The shared counter, the slots, how often each was filled, and the workers. */
  datatype Sys<T> = Sys(next: nat, slots: seq<Option<T>>, fills: seq<nat>, workers: seq<Worker>)

  function StartWith<T>(n: nat, threads: nat): Sys<T> {
    Sys(0, seq(n, _ => None), seq(n, _ => 0), seq(threads, _ => Fetching))
  }

  /** One step of worker `k`: claim the next chunk, or prepare the next file of the chunk it has. */
  function Step<T>(sys: Sys<T>, bounds: seq<(nat, nat)>, Prepared: nat -> T, k: nat): Sys<T>
    requires k < |sys.workers| && |sys.fills| == |sys.slots|
    requires sys.workers[k].Working? ==> sys.workers[k].chunk < |bounds| && sys.workers[k].at < |sys.slots|
  {
    match sys.workers[k]
    case Fetching =>
      var chunk := sys.next;
      var w := if chunk < |bounds| then Working(chunk, bounds[chunk].0) else Finished;
      sys.(next := chunk + 1, workers := sys.workers[k := w])
    case Working(c, i) =>
      var w := if i + 1 < bounds[c].1 then Working(c, i + 1) else Fetching;
      Sys(sys.next, sys.slots[i := Some(Prepared(i))], sys.fills[i := sys.fills[i] + 1], sys.workers[k := w])
    case Finished => sys
  }

  /** Some worker is at file `at` of chunk `c`. */
  predicate At(workers: seq<Worker>, c: nat, at: nat) {
    exists k :: 0 <= k < |workers| && workers[k] == Working(c, at)
  }

  /** File `i` of chunk `c` is prepared: the chunk is claimed, and its worker, if still at it, is past the file. */
  ghost predicate Past<T>(sys: Sys<T>, c: nat, i: nat) {
    c < sys.next && forall at :: At(sys.workers, c, at) ==> i < at
  }

  ghost predicate SlotOk<T>(sys: Sys<T>, Prepared: nat -> T, c: nat, i: nat)
    requires i < |sys.slots| == |sys.fills|
  {
    if Past(sys, c, i) then sys.fills[i] == 1 && sys.slots[i] == Some(Prepared(i))
    else sys.fills[i] == 0 && sys.slots[i] == None
  }

  ghost predicate Inv<T>(sys: Sys<T>, bounds: seq<(nat, nat)>, Prepared: nat -> T, n: nat) {
    && Tiles(bounds, n) && |sys.slots| == |sys.fills| == n
    && (forall k :: 0 <= k < |sys.workers| && sys.workers[k].Working? ==>
      sys.workers[k].chunk < |bounds| && sys.workers[k].chunk < sys.next
      && bounds[sys.workers[k].chunk].0 <= sys.workers[k].at < bounds[sys.workers[k].chunk].1)
    && (forall j, k :: 0 <= j < k < |sys.workers| && sys.workers[j].Working? && sys.workers[k].Working? ==>
      sys.workers[j].chunk != sys.workers[k].chunk)
    && (forall k :: 0 <= k < |sys.workers| && sys.workers[k].Finished? ==> sys.next >= |bounds|)
    && forall c, i :: 0 <= c < |bounds| && bounds[c].0 <= i < bounds[c].1 ==> SlotOk(sys, Prepared, c, i)
  }

  lemma StartsOk<T>(bounds: seq<(nat, nat)>, Prepared: nat -> T, n: nat, threads: nat)
    requires Tiles(bounds, n)
    ensures Inv(StartWith<T>(n, threads), bounds, Prepared, n)
  {}

  /** Claiming a chunk changes no slot: nothing of that chunk is prepared yet. */
  lemma FetchKeeps<T>(sys: Sys<T>, bounds: seq<(nat, nat)>, Prepared: nat -> T, n: nat, k: nat)
    requires Inv(sys, bounds, Prepared, n) && k < |sys.workers| && sys.workers[k].Fetching?
    ensures Inv(Step(sys, bounds, Prepared, k), bounds, Prepared, n)
  {
    var next := Step(sys, bounds, Prepared, k);
    forall c, i | 0 <= c < |bounds| && bounds[c].0 <= i < bounds[c].1 ensures SlotOk(next, Prepared, c, i) {
      assert SlotOk(sys, Prepared, c, i);
      if c == sys.next {
        assert next.workers[k] == Working(c, bounds[c].0);
        assert At(next.workers, c, bounds[c].0);
      } else {
        SameAt(sys.workers, next.workers, k, c);
      }
    }
  }

  /** Only worker `k` moved, and not within chunk `c`. */
  lemma SameAt(before: seq<Worker>, after: seq<Worker>, k: nat, c: nat)
    requires k < |before| && |after| == |before|
    requires forall j :: 0 <= j < |before| && j != k ==> after[j] == before[j]
    requires before[k].Working? ==> before[k].chunk != c
    requires after[k].Working? ==> after[k].chunk != c
    ensures forall at :: At(before, c, at) <==> At(after, c, at)
  {
    forall at ensures At(before, c, at) <==> At(after, c, at) {
      if j :| 0 <= j < |before| && before[j] == Working(c, at) {
        assert after[j] == Working(c, at);
      }
      if j :| 0 <= j < |after| && after[j] == Working(c, at) {
        assert before[j] == Working(c, at);
      }
    }
  }

  /** A worker has its chunk to itself. */
  lemma OnlyAt<T>(sys: Sys<T>, bounds: seq<(nat, nat)>, Prepared: nat -> T, n: nat, k: nat)
    requires Inv(sys, bounds, Prepared, n) && k < |sys.workers| && sys.workers[k].Working?
    ensures forall at :: At(sys.workers, sys.workers[k].chunk, at) <==> at == sys.workers[k].at
  {
    hide SlotOk;
    var c := sys.workers[k].chunk;
    forall at ensures At(sys.workers, c, at) <==> at == sys.workers[k].at {
      if j :| 0 <= j < |sys.workers| && sys.workers[j] == Working(c, at) {
        assert j == k;
      }
    }
  }

  lemma WorkKeeps<T>(sys: Sys<T>, bounds: seq<(nat, nat)>, Prepared: nat -> T, n: nat, k: nat)
    requires Inv(sys, bounds, Prepared, n) && k < |sys.workers| && sys.workers[k].Working?
    ensures Inv(Step(sys, bounds, Prepared, k), bounds, Prepared, n)
  {
    hide SlotOk;
    var next := Step(sys, bounds, Prepared, k);
    forall c, i | 0 <= c < |bounds| && bounds[c].0 <= i < bounds[c].1 ensures SlotOk(next, Prepared, c, i) {
      WorkSlot(sys, bounds, Prepared, n, k, c, i);
    }
  }

  lemma WorkSlot<T>(sys: Sys<T>, bounds: seq<(nat, nat)>, Prepared: nat -> T, n: nat, k: nat, c: nat, i: nat)
    requires Inv(sys, bounds, Prepared, n) && k < |sys.workers| && sys.workers[k].Working?
    requires c < |bounds| && bounds[c].0 <= i < bounds[c].1
    ensures SlotOk(Step(sys, bounds, Prepared, k), Prepared, c, i)
  {
    var next := Step(sys, bounds, Prepared, k);
    var d, at := sys.workers[k].chunk, sys.workers[k].at;
    assert SlotOk(sys, Prepared, c, i);
    OnlyAt(sys, bounds, Prepared, n, k);
    if c != d {
      SameAt(sys.workers, next.workers, k, c);
      if c < d {
        TilesAscend(bounds, n, c, d);
      } else {
        TilesAscend(bounds, n, d, c);
      }
    } else {
      forall a ensures At(next.workers, c, a) <==> next.workers[k] == Working(c, a) {
        if j :| 0 <= j < |next.workers| && next.workers[j] == Working(c, a) {
          assert j != k ==> At(sys.workers, c, a);
        }
      }
      assert At(sys.workers, c, at);
      assert Past(sys, c, i) <==> i < at;
      if at + 1 < bounds[c].1 {
        assert At(next.workers, c, at + 1);
      }
      assert Past(next, c, i) <==> i <= at;
    }
  }

  lemma StepKeeps<T>(sys: Sys<T>, bounds: seq<(nat, nat)>, Prepared: nat -> T, n: nat, k: nat)
    requires Inv(sys, bounds, Prepared, n) && k < |sys.workers|
    ensures Inv(Step(sys, bounds, Prepared, k), bounds, Prepared, n)
    ensures |Step(sys, bounds, Prepared, k).workers| == |sys.workers|
  {
    hide Inv;
    match sys.workers[k] {
      case Fetching => FetchKeeps(sys, bounds, Prepared, n, k);
      case Working(_, _) => WorkKeeps(sys, bounds, Prepared, n, k);
      case Finished =>
    }
  }

  // ---------------------------------------------------------------------
  // Schedules
  // ---------------------------------------------------------------------

  function Run<T>(sys: Sys<T>, bounds: seq<(nat, nat)>, Prepared: nat -> T, schedule: seq<nat>): Sys<T>
    decreases |schedule|
  {
    if schedule == [] then sys
    else
      var before := Run(sys, bounds, Prepared, schedule[..|schedule| - 1]);
      var k := schedule[|schedule| - 1];
      if k < |before.workers| && |before.fills| == |before.slots|
         && (before.workers[k].Working? ==> before.workers[k].chunk < |bounds| && before.workers[k].at < |before.slots|)
      then Step(before, bounds, Prepared, k) else before
  }

  lemma {:induction false} RunKeeps<T>(sys: Sys<T>, bounds: seq<(nat, nat)>, Prepared: nat -> T, n: nat, schedule: seq<nat>)
    requires Inv(sys, bounds, Prepared, n)
    ensures Inv(Run(sys, bounds, Prepared, schedule), bounds, Prepared, n)
    ensures |Run(sys, bounds, Prepared, schedule).workers| == |sys.workers|
    decreases |schedule|
  {
    hide Inv, Step;
    if schedule != [] {
      var before, k := Run(sys, bounds, Prepared, schedule[..|schedule| - 1]), schedule[|schedule| - 1];
      RunKeeps(sys, bounds, Prepared, n, schedule[..|schedule| - 1]);
      if k < |before.workers| {
        StepKeeps(before, bounds, Prepared, n, k);
      }
    }
  }

  /**
   * Under every schedule and worker count, once the workers are done each file was prepared exactly once and
   * every slot holds its own file's result.
   */
  lemma EveryFileOnce<T>(bounds: seq<(nat, nat)>, Prepared: nat -> T, n: nat, threads: nat, schedule: seq<nat>)
    requires Tiles(bounds, n) && threads > 0
    requires var end := Run(StartWith<T>(n, threads), bounds, Prepared, schedule);
      forall k :: 0 <= k < |end.workers| ==> end.workers[k].Finished?
    ensures var end := Run(StartWith<T>(n, threads), bounds, Prepared, schedule);
      |end.slots| == |end.fills| == n
      && forall i :: 0 <= i < n ==> end.fills[i] == 1 && end.slots[i] == Some(Prepared(i))
  {
    hide Run;
    StartsOk(bounds, Prepared, n, threads);
    RunKeeps(StartWith<T>(n, threads), bounds, Prepared, n, schedule);
    var end := Run(StartWith<T>(n, threads), bounds, Prepared, schedule);
    assert end.workers[0].Finished?;
    forall i | 0 <= i < n ensures end.fills[i] == 1 && end.slots[i] == Some(Prepared(i)) {
      var c := TilesCover(bounds, n, i, |bounds| - 1);
      assert SlotOk(end, Prepared, c, i);
    }
  }

  // ---------------------------------------------------------------------
  // Progress
  // ---------------------------------------------------------------------

  function WorkLeft(w: Worker, bounds: seq<(nat, nat)>): nat {
    match w
    case Fetching => 1
    case Working(c, at) => if c < |bounds| && at < bounds[c].1 then bounds[c].1 - at + 1 else 1
    case Finished => 0
  }

  function WorkersLeft(ws: seq<Worker>, bounds: seq<(nat, nat)>): nat {
    if ws == [] then 0 else WorkLeft(ws[0], bounds) + WorkersLeft(ws[1..], bounds)
  }

  /** Steps still to come: what the workers hold, and the chunks nobody claimed. */
  function Remaining<T>(sys: Sys<T>, bounds: seq<(nat, nat)>, n: nat): nat {
    WorkersLeft(sys.workers, bounds) + (if sys.next < |bounds| then (|bounds| - sys.next) * (n + 1) else 0)
  }

  lemma {:induction false} OneWorker(ws: seq<Worker>, k: nat, w: Worker, bounds: seq<(nat, nat)>)
    requires k < |ws|
    ensures WorkersLeft(ws[k := w], bounds) == WorkersLeft(ws, bounds) - WorkLeft(ws[k], bounds) + WorkLeft(w, bounds)
  {
    if k > 0 {
      OneWorker(ws[1..], k - 1, w, bounds);
      assert ws[k := w][1..] == ws[1..][k - 1 := w];
    } else {
      assert ws[k := w][1..] == ws[1..];
    }
  }

  /** Every step of a worker that is not finished brings the end nearer, so all schedules that keep going end. */
  lemma StepShrinks<T>(sys: Sys<T>, bounds: seq<(nat, nat)>, Prepared: nat -> T, n: nat, k: nat)
    requires Inv(sys, bounds, Prepared, n) && k < |sys.workers| && !sys.workers[k].Finished?
    ensures Remaining(Step(sys, bounds, Prepared, k), bounds, n) < Remaining(sys, bounds, n)
  {
    hide SlotOk, WorkersLeft;
    var next := Step(sys, bounds, Prepared, k);
    OneWorker(sys.workers, k, next.workers[k], bounds);
    if sys.workers[k].Fetching? && sys.next < |bounds| {
      assert (|bounds| - sys.next) * (n + 1) == (|bounds| - (sys.next + 1)) * (n + 1) + (n + 1);
    }
  }

  // ---------------------------------------------------------------------
  // Commits
  // ---------------------------------------------------------------------

  datatype Input = Input(spans: seq<Text>, source: string)

  predicate InputsOk(inputs: seq<Input>, start: u64) {
    && start + |inputs| <= U64_MAX
    && forall i :: 0 <= i < |inputs| ==> Counted(inputs[i].spans)
  }

  /** What a worker makes of file `i`. */
  function PreparedOf(w: World, inputs: seq<Input>, start: u64, compress: bool, i: nat): Result<seq<Prepared>>
    requires InputsOk(inputs, start)
  {
    if i < |inputs| then Prepare(w, start + i, 0, inputs[i].spans, compress) else Err(Truncated)
  }

  /** Serial ingest of the files one by one: the first failure stops it, what was committed stays. */
  function AppendEach(w: World, s: Store, inputs: seq<Input>, start: u64, compress: bool, k: nat): (Store, Result<seq<(u64, u32, string)>>)
    requires InputsOk(inputs, start) && k <= |inputs|
  {
    if k == 0 then (s, Ok([]))
    else
      var (s1, out) := AppendEach(w, s, inputs, start, compress, k - 1);
      if out.Err? then (s1, out)
      else
        match Append(w, s1, start + (k - 1), inputs[k - 1].spans, inputs[k - 1].source, compress)
        case Err(e) => (s1, Err(e))
        case Ok(s2) => (s2, Ok(out.value + [(start + (k - 1), |inputs[k - 1].spans|, inputs[k - 1].source)]))
  }

  lemma {:induction false} AppendStops(w: World, s: Store, inputs: seq<Input>, start: u64, compress: bool, k: nat, m: nat)
    requires InputsOk(inputs, start) && k <= m <= |inputs|
    requires AppendEach(w, s, inputs, start, compress, k).1.Err?
    ensures AppendEach(w, s, inputs, start, compress, m) == AppendEach(w, s, inputs, start, compress, k)
    decreases m - k
  {
    hide Append;
    if k < m {
      AppendStops(w, s, inputs, start, compress, k + 1, m);
    }
  }

  /**
   * The commit loop over the filled slots: whatever the threads did, the commits, the result, the first error and
   * the prefix it leaves are those of appending the files one by one.
   */
  method CommitSlots(w: World, s: Store, inputs: seq<Input>, start: u64, compress: bool, slots: seq<Option<Result<seq<Prepared>>>>)
    returns (end: Store, r: Result<seq<(u64, u32, string)>>)
    requires InputsOk(inputs, start) && |slots| == |inputs|
    requires forall i :: 0 <= i < |inputs| ==> slots[i] == Some(PreparedOf(w, inputs, start, compress, i))
    ensures (end, r) == AppendEach(w, s, inputs, start, compress, |inputs|)
  {
    hide Prepare, Grouped, Commit, Append;
    end := s;
    var out: seq<(u64, u32, string)> := [];
    for i := 0 to |inputs|
      invariant (end, Ok(out)) == AppendEach(w, s, inputs, start, compress, i)
    {
      var row := slots[i].value;
      var ps := if row.Ok? then Grouped(w, row.value, compress) else Err(row.error);
      CommitIs(w, end, inputs, start, compress, i, row, ps);
      if ps.Err? {
        AppendStops(w, s, inputs, start, compress, i + 1, |inputs|);
        return end, Err(ps.error);
      }
      var done := Commit(end, start + i, ps.value, inputs[i].source);
      if done.Err? {
        AppendStops(w, s, inputs, start, compress, i + 1, |inputs|);
        return end, Err(done.error);
      }
      end := done.value;
      out := out + [(start + i, |inputs[i].spans|, inputs[i].source)];
    }
    r := Ok(out);
  }

  /** One commit of prepared puts is the append of the file they were prepared from. */
  lemma CommitIs(w: World, s: Store, inputs: seq<Input>, start: u64, compress: bool, i: nat,
      row: Result<seq<Prepared>>, ps: Result<seq<Prepared>>)
    requires InputsOk(inputs, start) && i < |inputs| && row == PreparedOf(w, inputs, start, compress, i)
    requires ps == if row.Ok? then Grouped(w, row.value, compress) else Err(row.error)
    ensures ps.Ok? ==> forall j :: 0 <= j < |ps.value| ==> ps.value[j].fk.idx < U32_MAX
    ensures Append(w, s, start + i, inputs[i].spans, inputs[i].source, compress) ==
      if ps.Err? then Err(ps.error) else Commit(s, start + i, ps.value, inputs[i].source)
  {
    hide Prepare, GroupPrepared, Commit;
    if ps.Ok? {
      IndexesFit(w, start + i, 0, inputs[i].spans, row.value, ps.value, compress);
    }
  }

  // ---------------------------------------------------------------------
  // What the commits leave
  // ---------------------------------------------------------------------

  /** File `i` can be appended: its trajectory is new, its texts parse and, compressing, group. */
  predicate CanAppend(w: World, s: Store, inputs: seq<Input>, start: u64, compress: bool, i: nat)
    requires InputsOk(inputs, start) && i < |inputs|
  {
    && start + i !in s.meta
    && (forall k :: 0 <= k < |inputs[i].spans| ==> w.Parse(inputs[i].spans[k]).Some?)
    && (compress ==> FC.Groupable(FramesFrom(0, inputs[i].spans)))
  }

  /** How many files lead before the first one that cannot be appended. */
  function Leading(w: World, s: Store, inputs: seq<Input>, start: u64, compress: bool, k: nat): (n: nat)
    requires InputsOk(inputs, start) && k <= |inputs|
    ensures n <= k
    ensures forall i :: 0 <= i < n ==> CanAppend(w, s, inputs, start, compress, i)
    ensures n < k ==> !CanAppend(w, s, inputs, start, compress, n)
  {
    if k == 0 then 0
    else
      var n := Leading(w, s, inputs, start, compress, k - 1);
      if n < k - 1 then n else if CanAppend(w, s, inputs, start, compress, k - 1) then k else k - 1
  }

  /** The texts with the first `k` files in. */
  function WithInputs(texts: Texts, inputs: seq<Input>, start: u64, k: nat): Texts
    requires InputsOk(inputs, start) && k <= |inputs|
  {
    if k == 0 then texts
    else WithSpan(WithInputs(texts, inputs, start, k - 1), start + (k - 1), 0, inputs[k - 1].spans)
  }

  /** The first `n` trajectories of the run are recorded, and nothing else is new. */
  predicate Recorded(before: Store, after: Store, start: u64, n: nat) {
    forall t: u64 :: t in after.meta <==> t in before.meta || start <= t < start + n
  }

  /**
   * Directory ingest commits exactly the files in front of the first one that cannot be appended, and they stay
   * when that one fails it; it succeeds exactly when there is none.
   */
  lemma {:induction false} LeadingCommitted(w: World, s: Store, texts: Texts, inputs: seq<Input>, start: u64, compress: bool, k: nat)
    requires FC.Lawful(w.zstd) && Coherent(w, s, texts) && InputsOk(inputs, start) && k <= |inputs|
    ensures var (end, out) := AppendEach(w, s, inputs, start, compress, k);
      var n := Leading(w, s, inputs, start, compress, k);
      Coherent(w, end, WithInputs(texts, inputs, start, n)) && (out.Ok? <==> n == k) && Recorded(s, end, start, n)
  {
    hide Coherent, Append, CanAppend, FC.Lawful, WithInputs, InputsOk, Recorded;
    if k == 0 {
      NothingRecorded(w, s, texts, inputs, start);
    } else {
      LeadingCommitted(w, s, texts, inputs, start, compress, k - 1);
      var (end, out) := AppendEach(w, s, inputs, start, compress, k - 1);
      if out.Ok? {
        NextCommitted(w, s, end, texts, inputs, start, compress, k - 1);
      }
    }
  }

  lemma NothingRecorded(w: World, s: Store, texts: Texts, inputs: seq<Input>, start: u64)
    requires InputsOk(inputs, start)
    ensures WithInputs(texts, inputs, start, 0) == texts && Recorded(s, s, start, 0)
  {}

  lemma NextCommitted(w: World, s: Store, end: Store, texts: Texts, inputs: seq<Input>, start: u64, compress: bool, i: nat)
    requires FC.Lawful(w.zstd) && InputsOk(inputs, start) && i < |inputs|
    requires Coherent(w, end, WithInputs(texts, inputs, start, i)) && Recorded(s, end, start, i)
    ensures start + i <= U64_MAX && Counted(inputs[i].spans)
    ensures var r := Append(w, end, start + i, inputs[i].spans, inputs[i].source, compress);
      && (r.Ok? <==> CanAppend(w, s, inputs, start, compress, i))
      && (r.Ok? ==> Coherent(w, r.value, WithInputs(texts, inputs, start, i + 1)) && Recorded(s, r.value, start, i + 1))
  {
    hide Coherent, Append, FC.Lawful, WithSpan, FC.Groupable;
    AppendSucceeds(w, end, start + i, inputs[i].spans, inputs[i].source, compress);
    AppendCoherent(w, end, WithInputs(texts, inputs, start, i), start + i, inputs[i].spans, inputs[i].source, compress);
  }

  /** A successful ingest reports every file with its trajectory id, frame count and source. */
  lemma {:induction false} EachReported(w: World, s: Store, inputs: seq<Input>, start: u64, compress: bool, k: nat)
    requires InputsOk(inputs, start) && k <= |inputs|
    ensures var out := AppendEach(w, s, inputs, start, compress, k).1;
      out.Ok? ==> (
        && |out.value| == k
        && forall i :: 0 <= i < k ==> out.value[i] == (start + i, |inputs[i].spans|, inputs[i].source))
  {
    hide Append;
    if k > 0 {
      EachReported(w, s, inputs, start, compress, k - 1);
    }
  }
}
