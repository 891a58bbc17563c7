/**
 * The transaction gate: readers share it, a writer, a reserver and an ingest session hold it alone, and
 * the LMDB map is resized only behind it. Any number of threads, scheduled one step at a time.
 */
module TxnGate {
  import opened Prelude

  const MAP_GROW_RETRIES: nat := 8

  // ---------------------------------------------------------------------
  // Map sizes
  // ---------------------------------------------------------------------

  /** Round up to whole MiB, saturating. */
  function AlignMap(n: nat): (r: nat)
    requires n <= USIZE_MAX
    ensures n <= r <= USIZE_MAX && r < n + 0x10_0000
    ensures r % 0x10_0000 == 0 || r == USIZE_MAX
  {
    Min(((n + 0xF_FFFF) / 0x10_0000) * 0x10_0000, USIZE_MAX)
  }

  /** The size `with_write` asks for before its transaction when the payload clearly cannot fit. */
  function PreGrowTo(cur: nat, used: nat, input: nat): Option<nat>
    requires cur <= USIZE_MAX && used <= USIZE_MAX && input <= USIZE_MAX
  {
    var need := SatAdd(used, SatMul(input, 2));
    if need > cur then Some(AlignMap(Max(need, SatMul(cur, 2)))) else None
  }

  /** `grow_after_map_full`. */
  function GrowTo(cur: nat, used: nat, input: nat): nat
    requires cur <= USIZE_MAX && used <= USIZE_MAX && input <= USIZE_MAX
  {
    var want := AlignMap(Max(SatMul(cur, 2), SatAdd(used, input)));
    if want <= cur then AlignMap(SatAdd(cur, 0x10_0000)) else want
  }

  /** Every growth at least doubles the map, is strict, and stops only at the largest address. */
  lemma GrowDoubles(cur: nat, used: nat, input: nat)
    requires cur <= USIZE_MAX && used <= USIZE_MAX && input <= USIZE_MAX
    ensures Min(2 * cur, USIZE_MAX) <= GrowTo(cur, used, input) <= USIZE_MAX
    ensures GrowTo(cur, used, input) > cur || cur == USIZE_MAX
  {}

  function ReserveTo(used: nat, extra: nat): nat
    requires used <= USIZE_MAX && extra <= USIZE_MAX
  {
    AlignMap(SatAdd(used, extra))
  }

  function Doubled(size: nat, k: nat): nat {
    if k == 0 then size else 2 * Doubled(size, k - 1)
  }

  // ---------------------------------------------------------------------
  // Threads
  // ---------------------------------------------------------------------

  /** What a thread came for. A write body is a function of the store it finds. */
  datatype Job<!S> =
    | Read
    | Write(input: u64, Body: S -> Result<S>)
    | Reserve(extra: u64)
    | Session

  datatype Pc<!S> =
    | Idle
    | ReadGuard
    | ReadOpen
    | Gated(job: Job<S>)
    | Ready(job: Job<S>, tries: nat)
    | Open(job: Job<S>, tries: nat)
    | Applied(job: Job<S>, tries: nat, work: S)
    | MustGrow(job: Job<S>, tries: nat)
    | SessionOpen(work: S)
    | Leaving(job: Job<S>, ok: bool)

  /** `pre` and `size0` record what the thread found when it passed the gate. */
  datatype Thread<!S> = Thread(pc: Pc<S>, pre: S, size0: nat)

  datatype Sys<!S> = Sys(threads: seq<Thread<S>>, size: nat, store: S)

  /** What LMDB answers. */
  datatype Outcome = Fine | Full | Broken

  datatype Act<!S> =
    | Acquire(wanted: Job<S>)
    | OpenRead(fine: bool)
    | CloseRead
    | Release
    | Resize(used: u64, fine: bool)
    | Begin(outcome: Outcome)
    | RunBody(outcome: Outcome)
    | Stage(next: S)
    | Commit(outcome: Outcome)
    | Leave

  predicate HoldsWrite<S>(pc: Pc<S>) {
    pc.Gated? || pc.Ready? || pc.Open? || pc.Applied? || pc.MustGrow? || pc.SessionOpen? || pc.Leaving?
  }

  predicate HoldsRead<S>(pc: Pc<S>) {
    pc.ReadGuard? || pc.ReadOpen?
  }

  /** A transaction of this process is open. */
  predicate TxnOpen<S>(pc: Pc<S>) {
    pc.ReadOpen? || pc.Open? || pc.Applied? || pc.SessionOpen?
  }

  predicate GateFree<S>(sys: Sys<S>, alone: bool) {
    forall j :: 0 <= j < |sys.threads| ==> !HoldsWrite(sys.threads[j].pc) && (alone ==> !HoldsRead(sys.threads[j].pc))
  }

  predicate Enabled<S>(sys: Sys<S>, i: nat, a: Act<S>)
    requires i < |sys.threads|
  {
    var pc := sys.threads[i].pc;
    match a
    case Acquire(job) => pc.Idle? && GateFree(sys, !job.Read?)
    case OpenRead(_) => pc.ReadGuard?
    case CloseRead => pc.ReadOpen?
    case Release => pc.ReadGuard?
    case Resize(_, _) => (pc.Gated? && (pc.job.Write? || pc.job.Reserve?)) || (pc.MustGrow? && pc.job.Write?)
    case Begin(_) => pc.Ready? || (pc.Gated? && pc.job.Session?)
    case RunBody(_) => pc.Open? && pc.job.Write?
    case Stage(_) => pc.SessionOpen?
    case Commit(_) => pc.Applied? || pc.SessionOpen?
    case Leave => pc.Leaving?
  }

  /** The thread after one step, with the map and store it leaves. */
  function StepOne<S>(t: Thread<S>, size: nat, store: S, a: Act<S>): (Thread<S>, nat, S)
    requires size <= USIZE_MAX
    requires Enabled(Sys([t], size, store), 0, a)
  {
    match a
    case Acquire(job) => (Thread(if job.Read? then ReadGuard else Gated(job), store, size), size, store)
    case OpenRead(fine) => (if fine then Thread(ReadOpen, store, size) else t, size, store)
    case CloseRead => (t.(pc := ReadGuard), size, store)
    case Release => (t.(pc := Idle), size, store)
    case Resize(used, fine) =>
      if t.pc.MustGrow? then
        if fine then (t.(pc := Ready(t.pc.job, t.pc.tries + 1)), GrowTo(size, used, t.pc.job.input), store)
        else (t.(pc := Leaving(t.pc.job, false)), size, store)
      else if t.pc.job.Reserve? then
        var want := ReserveTo(used, t.pc.job.extra);
        (t.(pc := Leaving(t.pc.job, fine)), if want > size && fine then want else size, store)
      else
        var want := PreGrowTo(size, used, t.pc.job.input);
        if want.None? then (Thread(Ready(t.pc.job, 0), t.pre, size), size, store)
        else if fine then (Thread(Ready(t.pc.job, 0), t.pre, want.value), want.value, store)
        else (t.(pc := Leaving(t.pc.job, false)), size, store)
    case Begin(outcome) =>
      if t.pc.Gated? then
        (t.(pc := if outcome.Fine? then SessionOpen(store) else Leaving(t.pc.job, false)), size, store)
      else if t.pc.tries == MAP_GROW_RETRIES then (t.(pc := Leaving(t.pc.job, false)), size, store)
      else
        var pc := match outcome {
          case Fine => Open(t.pc.job, t.pc.tries)
          case Full => MustGrow(t.pc.job, t.pc.tries)
          case Broken => Leaving(t.pc.job, false)
        };
        (t.(pc := pc), size, store)
    case RunBody(outcome) =>
      var done := t.pc.job.Body(store);
      var pc :=
        if outcome.Full? then MustGrow(t.pc.job, t.pc.tries)
        else if outcome.Broken? || done.Err? then Leaving(t.pc.job, false)
        else Applied(t.pc.job, t.pc.tries, done.value);
      (t.(pc := pc), size, store)
    case Stage(next) => (t.(pc := SessionOpen(next)), size, store)
    case Commit(outcome) =>
      if t.pc.SessionOpen? then
        (t.(pc := Leaving(Session, outcome.Fine?)), size, if outcome.Fine? then t.pc.work else store)
      else
        match outcome {
          case Fine => (t.(pc := Leaving(t.pc.job, true)), size, t.pc.work)
          case Full => (t.(pc := MustGrow(t.pc.job, t.pc.tries)), size, store)
          case Broken => (t.(pc := Leaving(t.pc.job, false)), size, store)
        }
    case Leave => (t.(pc := Idle), size, store)
  }

  lemma EnabledAlone<S>(sys: Sys<S>, i: nat, a: Act<S>)
    requires i < |sys.threads| && Enabled(sys, i, a)
    ensures Enabled(Sys([sys.threads[i]], sys.size, sys.store), 0, a)
  {}

  function Step<S>(sys: Sys<S>, i: nat, a: Act<S>): Sys<S>
    requires i < |sys.threads| && sys.size <= USIZE_MAX && Enabled(sys, i, a)
  {
    EnabledAlone(sys, i, a);
    var (t, size, store) := StepOne(sys.threads[i], sys.size, sys.store, a);
    Sys(sys.threads[i := t], size, store)
  }

  // ---------------------------------------------------------------------
  // The invariant
  // ---------------------------------------------------------------------

  /** The write side is held alone. */
  predicate Exclusive<S>(threads: seq<Thread<S>>) {
    forall i, j :: 0 <= i < |threads| && 0 <= j < |threads| && i != j && HoldsWrite(threads[i].pc) ==> threads[j].pc.Idle?
  }

  /** What a thread may rely on, given the map and the store of this moment. */
  ghost predicate ThreadOk<S>(t: Thread<S>, size: nat, store: S) {
    match t.pc
    case Idle => true
    case ReadGuard => true
    case ReadOpen => store == t.pre
    case Gated(job) => store == t.pre && size == t.size0 && !job.Read?
    case Ready(job, tries) => store == t.pre && job.Write? && GrownBy(t, size, tries)
    case Open(job, tries) => store == t.pre && job.Write? && tries < MAP_GROW_RETRIES && GrownBy(t, size, tries)
    case Applied(job, tries, work) =>
      store == t.pre && job.Write? && job.Body(t.pre) == Ok(work) && tries < MAP_GROW_RETRIES && GrownBy(t, size, tries)
    case MustGrow(job, tries) => store == t.pre && job.Write? && tries < MAP_GROW_RETRIES && GrownBy(t, size, tries)
    case SessionOpen(_) => store == t.pre
    case Leaving(job, ok) =>
      if job.Write? && ok then job.Body(t.pre) == Ok(store)
      else (job.Session? && ok) || store == t.pre
  }

  /** After `tries` growths the map is at least that many doublings, or as large as it can be. */
  predicate GrownBy<S>(t: Thread<S>, size: nat, tries: nat) {
    tries <= MAP_GROW_RETRIES && size >= Min(Doubled(t.size0, tries), USIZE_MAX)
  }

  ghost predicate Inv<S>(sys: Sys<S>) {
    && sys.size <= USIZE_MAX && Exclusive(sys.threads)
    && forall i :: 0 <= i < |sys.threads| ==> ThreadOk(sys.threads[i], sys.size, sys.store)
  }

  lemma MoveKeepsExclusive<S>(sys: Sys<S>, i: nat, a: Act<S>)
    requires i < |sys.threads| && Inv(sys) && Enabled(sys, i, a)
    ensures Exclusive(Step(sys, i, a).threads)
  {
    hide ThreadOk, GrowTo, PreGrowTo, ReserveTo;
    EnabledAlone(sys, i, a);
    var t := StepOne(sys.threads[i], sys.size, sys.store, a).0;
    HoldsOnly(sys.threads[i], sys.size, sys.store, a);
    if HoldsWrite(t.pc) && !HoldsWrite(sys.threads[i].pc) {
      assert a.Acquire? && GateFree(sys, true);
    }
  }

  /** A thread gains the gate only by acquiring it, and only then leaves the idle state. */
  lemma HoldsOnly<S>(t: Thread<S>, size: nat, store: S, a: Act<S>)
    requires size <= USIZE_MAX && Enabled(Sys([t], size, store), 0, a)
    ensures var t1 := StepOne(t, size, store, a).0;
      && (HoldsWrite(t1.pc) && !HoldsWrite(t.pc) ==> a.Acquire? && !a.wanted.Read?)
      && (!t1.pc.Idle? && t.pc.Idle? ==> a.Acquire?)
  {
    hide GrowTo, PreGrowTo, ReserveTo;
  }

  lemma OwnStepOk<S>(t: Thread<S>, size: nat, store: S, a: Act<S>)
    requires size <= USIZE_MAX && Enabled(Sys([t], size, store), 0, a) && ThreadOk(t, size, store)
    ensures var (t1, size1, store1) := StepOne(t, size, store, a);
      size1 <= USIZE_MAX && size1 >= size && ThreadOk(t1, size1, store1)
  {
    if a.Resize? {
      if t.pc.MustGrow? {
        GrowDoubles(size, a.used, t.pc.job.input);
      }
    }
  }

  /** Only a thread that holds the write side changes the map or the store. */
  lemma OthersSee<S>(t: Thread<S>, size: nat, store: S, a: Act<S>)
    requires size <= USIZE_MAX && Enabled(Sys([t], size, store), 0, a)
    ensures var (t1, size1, store1) := StepOne(t, size, store, a);
      && (size1 != size || store1 != store ==> HoldsWrite(t.pc))
      && (size1 != size ==> !TxnOpen(t.pc) && !TxnOpen(t1.pc) && store1 == store)
  {
    hide GrowTo, PreGrowTo, ReserveTo;
  }

  /** Every step of every thread keeps the invariant. */
  lemma StepKeeps<S>(sys: Sys<S>, i: nat, a: Act<S>)
    requires i < |sys.threads| && Inv(sys) && Enabled(sys, i, a)
    ensures Inv(Step(sys, i, a))
  {
    hide StepOne, ThreadOk, Enabled;
    MoveKeepsExclusive(sys, i, a);
    EnabledAlone(sys, i, a);
    OwnStepOk(sys.threads[i], sys.size, sys.store, a);
    OthersSee(sys.threads[i], sys.size, sys.store, a);
    var next := Step(sys, i, a);
    forall j | 0 <= j < |next.threads| ensures ThreadOk(next.threads[j], next.size, next.store) {
      if j != i && HoldsWrite(sys.threads[i].pc) {
        assert sys.threads[j].pc.Idle?;
        IdleOk(sys.threads[j], next.size, next.store);
      }
    }
  }

  lemma IdleOk<S>(t: Thread<S>, size: nat, store: S)
    requires t.pc.Idle?
    ensures ThreadOk(t, size, store)
  {}

  /** The map never shrinks, and when it changes no transaction of the process is open, before or after. */
  lemma ResizeAlone<S>(sys: Sys<S>, i: nat, a: Act<S>)
    requires i < |sys.threads| && Inv(sys) && Enabled(sys, i, a)
    ensures Step(sys, i, a).size >= sys.size
    ensures Step(sys, i, a).size != sys.size ==> forall j :: 0 <= j < |sys.threads| ==>
      !TxnOpen(sys.threads[j].pc) && !TxnOpen(Step(sys, i, a).threads[j].pc)
  {
    hide StepOne, ThreadOk, Enabled;
    EnabledAlone(sys, i, a);
    OwnStepOk(sys.threads[i], sys.size, sys.store, a);
    OthersSee(sys.threads[i], sys.size, sys.store, a);
  }

  // ---------------------------------------------------------------------
  // Runs
  // ---------------------------------------------------------------------

  datatype Move<!S> = Move(who: nat, act: Act<S>)

  /** The state after a schedule; a move that is not enabled does not happen. */
  function Run<S>(sys: Sys<S>, schedule: seq<Move<S>>): Sys<S>
    requires sys.size <= USIZE_MAX
    decreases |schedule|
  {
    if schedule == [] then sys
    else
      var before := Run(sys, schedule[..|schedule| - 1]);
      var m := schedule[|schedule| - 1];
      if before.size <= USIZE_MAX && m.who < |before.threads| && Enabled(before, m.who, m.act)
      then Step(before, m.who, m.act) else before
  }

  lemma {:induction false} RunKeeps<S>(sys: Sys<S>, schedule: seq<Move<S>>)
    requires Inv(sys)
    ensures Inv(Run(sys, schedule)) && |Run(sys, schedule).threads| == |sys.threads|
    decreases |schedule|
  {
    hide Inv, Enabled, Step;
    InvMap(sys);
    if schedule != [] {
      RunKeeps(sys, schedule[..|schedule| - 1]);
      var before, m := Run(sys, schedule[..|schedule| - 1]), schedule[|schedule| - 1];
      InvMap(before);
      if m.who < |before.threads| && Enabled(before, m.who, m.act) {
        StepKeeps(before, m.who, m.act);
        SameThreads(before, m.who, m.act);
      }
    }
  }

  lemma InvMap<S>(sys: Sys<S>)
    requires Inv(sys)
    ensures sys.size <= USIZE_MAX
  {}

  lemma SameThreads<S>(sys: Sys<S>, i: nat, a: Act<S>)
    requires i < |sys.threads| && sys.size <= USIZE_MAX && Enabled(sys, i, a)
    ensures |Step(sys, i, a).threads| == |sys.threads|
  {
    hide StepOne;
  }

  /**
   * In every schedule, when `with_write` is about to return: on success its body was applied once to the store
   * it found behind the gate, on failure the store is the one it found.
   */
  lemma WriteIsAtomic<S>(sys: Sys<S>, schedule: seq<Move<S>>, i: nat)
    requires Inv(sys) && i < |sys.threads|
    ensures var end := Run(sys, schedule);
      |end.threads| == |sys.threads| &&
      var t := end.threads[i];
      t.pc.Leaving? && t.pc.job.Write? ==>
        if t.pc.ok then t.pc.job.Body(t.pre) == Ok(end.store) else end.store == t.pre
  {
    hide Run;
    RunKeeps(sys, schedule);
    var end := Run(sys, schedule);
    assert ThreadOk(end.threads[i], end.size, end.store);
  }

  /** `sys` with thread `i` at `pc`. */
  function At<S>(sys: Sys<S>, i: nat, pc: Pc<S>): Sys<S>
    requires i < |sys.threads|
  {
    sys.(threads := sys.threads[i := sys.threads[i].(pc := pc)])
  }

  lemma BeginOpens<S>(sys: Sys<S>, i: nat)
    requires i < |sys.threads| && sys.size <= USIZE_MAX
    requires sys.threads[i].pc.Ready? && sys.threads[i].pc.tries < MAP_GROW_RETRIES
    ensures Enabled(sys, i, Begin(Fine))
    ensures Step(sys, i, Begin(Fine)) == At(sys, i, Open(sys.threads[i].pc.job, sys.threads[i].pc.tries))
  {
    EnabledAlone(sys, i, Act<S>.Begin(Fine));
  }

  lemma BodyApplies<S>(sys: Sys<S>, i: nat)
    requires i < |sys.threads| && sys.size <= USIZE_MAX && sys.threads[i].pc.Open?
    requires sys.threads[i].pc.job.Write? && sys.threads[i].pc.job.Body(sys.store).Ok?
    ensures Enabled(sys, i, RunBody(Fine))
    ensures var pc := sys.threads[i].pc;
      Step(sys, i, RunBody(Fine)) == At(sys, i, Applied(pc.job, pc.tries, pc.job.Body(sys.store).value))
  {
    EnabledAlone(sys, i, Act<S>.RunBody(Fine));
  }

  lemma CommitInstalls<S>(sys: Sys<S>, i: nat)
    requires i < |sys.threads| && sys.size <= USIZE_MAX && sys.threads[i].pc.Applied?
    ensures Enabled(sys, i, Commit(Fine))
    ensures var pc := sys.threads[i].pc;
      Step(sys, i, Commit(Fine)) == At(sys, i, Leaving(pc.job, true)).(store := pc.work)
  {
    EnabledAlone(sys, i, Act<S>.Commit(Fine));
  }

  /** A free gate lets a thread in: alone for a writer, beside other readers for a reader. */
  lemma GateOpens<S>(sys: Sys<S>, i: nat, job: Job<S>)
    requires i < |sys.threads| && sys.threads[i].pc.Idle?
    ensures Enabled(sys, i, Acquire(job)) <==>
      forall j :: 0 <= j < |sys.threads| ==> sys.threads[j].pc.Idle? || (job.Read? && HoldsRead(sys.threads[j].pc))
    ensures sys.size <= USIZE_MAX && Enabled(sys, i, Acquire(job)) ==>
      Step(sys, i, Acquire(job)) == sys.(threads := sys.threads[i := Thread(if job.Read? then ReadGuard else Gated(job), sys.store, sys.size)])
  {
    if Enabled(sys, i, Acquire(job)) {
      EnabledAlone(sys, i, Acquire(job));
    }
  }

  /** Who is past the gate always has a next step, so the gate is given back. */
  lemma NeverStuck<S>(sys: Sys<S>, i: nat, used: u64) returns (a: Act<S>)
    requires Inv(sys) && i < |sys.threads| && !sys.threads[i].pc.Idle?
    ensures Enabled(sys, i, a)
  {
    a := match sys.threads[i].pc {
      case ReadGuard => Release
      case ReadOpen => CloseRead
      case Gated(job) => if job.Session? then Begin(Fine) else Resize(used, true)
      case Ready(_, _) => Begin(Fine)
      case Open(_, _) => RunBody(Fine)
      case Applied(_, _, _) => Commit(Fine)
      case MustGrow(_, _) => Resize(used, true)
      case SessionOpen(_) => Commit(Fine)
      case Leaving(_, _) => Leave
      case Idle => Leave
    };
    assert ThreadOk(sys.threads[i], sys.size, sys.store);
  }

  /** How many more steps a write can take before it is back at the gate's door. */
  function Ahead<S>(pc: Pc<S>): int {
    match pc
    case Gated(_) => 38
    case Ready(_, tries) => 4 * (8 - tries) + 5
    case Open(_, tries) => 4 * (8 - tries) + 4
    case Applied(_, tries, _) => 4 * (8 - tries) + 3
    case MustGrow(_, tries) => 4 * (8 - tries) + 2
    case Leaving(_, _) => 1
    case _ => 0
  }

  /** A write behind the gate ends: each of its steps brings it nearer, however often the map is full. */
  lemma WriteEnds<S>(sys: Sys<S>, i: nat, a: Act<S>)
    requires Inv(sys) && i < |sys.threads| && Enabled(sys, i, a)
    requires HoldsWrite(sys.threads[i].pc) && !sys.threads[i].pc.SessionOpen? && sys.threads[i].pc.job.Write?
    ensures var was, next := sys.threads[i].pc, Step(sys, i, a).threads[i].pc;
      && 0 <= Ahead(next) < Ahead(was) <= 38
      && (next.Idle? || (HoldsWrite(next) && !next.SessionOpen? && next.job == was.job))
      && (next.Idle? ==> was.Leaving?)
  {
    hide GrowTo, PreGrowTo, ReserveTo, AlignMap;
    assert ThreadOk(sys.threads[i], sys.size, sys.store);
    EnabledAlone(sys, i, a);
  }

  /** A growth that the map accepts leaves the room asked for; one that it refuses ends the call in failure. */
  lemma ResizeReports<S>(sys: Sys<S>, i: nat, used: u64, fine: bool)
    requires Inv(sys) && i < |sys.threads| && Enabled(sys, i, Resize(used, fine))
    ensures var pc, end := sys.threads[i].pc, Step(sys, i, Resize(used, fine));
      match pc.job {
        case Reserve(extra) =>
          && end.threads[i].pc == Leaving(pc.job, fine)
          && (fine ==> end.size >= Min(used + extra, USIZE_MAX)) && (end.size != sys.size ==> fine)
        case Write(input, _) =>
          var room := Min(used + if pc.Gated? then 2 * input else input, USIZE_MAX);
          && (end.threads[i].pc.Ready? || end.threads[i].pc == Leaving(pc.job, false))
          && (end.threads[i].pc.Ready? ==> end.size >= room && end.threads[i].pc.job == pc.job)
          && (end.threads[i].pc.Ready? <==> fine || (pc.Gated? && sys.size >= room))
          && (pc.MustGrow? && fine ==> end.size >= Min(2 * sys.size, USIZE_MAX))
        case _ => false
      }
  {
    hide GrowTo, PreGrowTo, ReserveTo, AlignMap;
    EnabledAlone(sys, i, Resize(used, fine));
    var pc := sys.threads[i].pc;
    if pc.job.Write? {
      SizesSuffice(sys.size, used, pc.job.input);
      if pc.MustGrow? {
        GrowDoubles(sys.size, used, pc.job.input);
      }
    } else {
      SizesSuffice(sys.size, used, pc.job.extra);
    }
  }

  /** A write whose transaction opens, whose body succeeds and whose commit succeeds returns success, its work installed. */
  lemma WriteSucceeds<S>(sys: Sys<S>, i: nat)
    requires Inv(sys) && i < |sys.threads| && sys.threads[i].pc.Ready? && sys.threads[i].pc.tries < 8
    requires sys.threads[i].pc.job.Write? && sys.threads[i].pc.job.Body(sys.store).Ok?
    ensures sys.size <= USIZE_MAX && Enabled(sys, i, Begin(Fine))
    ensures var begun := Step(sys, i, Begin(Fine));
      begun.size <= USIZE_MAX && i < |begun.threads| && Enabled(begun, i, RunBody(Fine)) && (
        var applied := Step(begun, i, RunBody(Fine));
        applied.size <= USIZE_MAX && i < |applied.threads| && Enabled(applied, i, Commit(Fine)) && (
          var job, end := sys.threads[i].pc.job, Step(applied, i, Commit(Fine));
          end == At(sys, i, Leaving(job, true)).(store := job.Body(sys.store).value)))
  {
    hide Inv, Step, Enabled;
    InvMap(sys);
    BeginOpens(sys, i);
    var begun := Step(sys, i, Act<S>.Begin(Fine));
    BodyApplies(begun, i);
    CommitInstalls(Step(begun, i, Act<S>.RunBody(Fine)), i);
  }

  /** A write that reports failure after its body ran, or that must retry, has installed nothing. */
  lemma CommitReports<S>(sys: Sys<S>, i: nat, outcome: Outcome)
    requires Inv(sys) && i < |sys.threads| && sys.threads[i].pc.Applied?
    ensures Enabled(sys, i, Commit(outcome))
    ensures var t, end := sys.threads[i], Step(sys, i, Commit(outcome));
      match end.threads[i].pc {
        case Leaving(_, ok) => (ok <==> outcome.Fine?) && end.store == if ok then t.pc.work else t.pre
        case MustGrow(_, tries) => outcome.Full? && tries == t.pc.tries && end.store == t.pre
        case _ => false
      }
  {
    assert ThreadOk(sys.threads[i], sys.size, sys.store);
    EnabledAlone(sys, i, Commit(outcome));
  }

  /** What the gate asks of the map: room for what is used and twice the input, or all there is. */
  lemma SizesSuffice(cur: nat, used: nat, input: nat)
    requires cur <= USIZE_MAX && used <= USIZE_MAX && input <= USIZE_MAX
    ensures var want := PreGrowTo(cur, used, input);
      && (want.Some? <==> Min(used + 2 * input, USIZE_MAX) > cur)
      && (want.Some? ==> want.value >= Min(used + 2 * input, USIZE_MAX) && want.value >= Min(2 * cur, USIZE_MAX))
    ensures GrowTo(cur, used, input) >= Min(used + input, USIZE_MAX)
    ensures ReserveTo(used, input) >= Min(used + input, USIZE_MAX)
  {}

  /** A read transaction sees one store from its first step to its last. */
  lemma ReadIsStable<S>(sys: Sys<S>, schedule: seq<Move<S>>, i: nat)
    requires Inv(sys) && i < |sys.threads|
    ensures var end := Run(sys, schedule);
      |end.threads| == |sys.threads| && (end.threads[i].pc.ReadOpen? ==> end.store == end.threads[i].pre)
  {
    hide Run;
    RunKeeps(sys, schedule);
    var end := Run(sys, schedule);
    assert ThreadOk(end.threads[i], end.size, end.store);
  }
}
