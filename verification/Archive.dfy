/**
 * The observation archive: callers send rows down a channel and count them afterwards, one worker commits them,
 * and readers get rows back in the caller's atom order.
 */
module Archive {
  import opened Prelude
  import opened Keys

  // ---------------------------------------------------------------------
  // The writer
  // ---------------------------------------------------------------------

  /** A flush remembers its sender and how many rows had been sent before it. */
  datatype Msg<R> = Row(row: R) | Flush(who: nat, need: nat)

  datatype Caller = Idle | Sent | Waiting(need: nat) | Acked(need: nat)

  /** What the worker is in the middle of. */
  datatype Worker<R> = Receiving | Committing(row: R) | Storing(traj: nat, row: R)

  /**
   * `rows[i]` is what trajectory `i` of the corpus holds. `base` is what it held when the archive was opened and
   * `settled` what the worker has finished with since then, in queue order, with the outcome.
   */
  datatype Sys<R> = Sys(
    queue: seq<Msg<R>>,
    callers: seq<Caller>,
    worker: Worker<R>,
    appended: nat,
    committed: nat,
    dropped: nat,
    rows: seq<R>,
    base: seq<R>,
    settled: seq<(R, bool)>,
    sent: seq<R>)

  datatype Act<R> =
    | Send(who: nat, row: R)
    | Count(who: nat)
    | SendFlush(who: nat)
    | Return(who: nat)
    | Receive
    | CommitRow(ok: bool)
    | StoreCount
    | Reopen

  function OpenArchive<R>(rows: seq<R>, callers: nat): Sys<R> {
    Sys([], seq(callers, _ => Idle), Receiving, |rows|, |rows|, 0, rows, rows, [], [])
  }

  predicate AllIdle(callers: seq<Caller>) {
    forall k :: 0 <= k < |callers| ==> callers[k].Idle?
  }

  predicate Enabled<R>(sys: Sys<R>, a: Act<R>) {
    match a
    case Send(who, _) => who < |sys.callers| && sys.callers[who].Idle?
    case Count(who) => who < |sys.callers| && sys.callers[who].Sent?
    case SendFlush(who) => who < |sys.callers| && sys.callers[who].Idle?
    case Return(who) => who < |sys.callers| && sys.callers[who].Acked?
    case Receive => sys.worker.Receiving? && sys.queue != []
    case CommitRow(_) => sys.worker.Committing?
    case StoreCount => sys.worker.Storing?
    case Reopen => sys.worker.Receiving? && sys.queue == [] && AllIdle(sys.callers)
  }

  /** `append` sends before it counts; the worker loads its counter, commits, then stores the counter. */
  function Step<R>(sys: Sys<R>, a: Act<R>): Sys<R>
    requires Enabled(sys, a)
  {
    match a
    case Send(who, row) =>
      sys.(queue := sys.queue + [Row(row)], callers := sys.callers[who := Sent], sent := sys.sent + [row])
    case Count(who) => sys.(appended := sys.appended + 1, callers := sys.callers[who := Idle])
    case SendFlush(who) =>
      sys.(queue := sys.queue + [Flush(who, |sys.sent|)], callers := sys.callers[who := Waiting(|sys.sent|)])
    case Return(who) => sys.(callers := sys.callers[who := Idle])
    case Receive =>
      (match sys.queue[0]
       case Row(row) => sys.(queue := sys.queue[1..], worker := Committing(row))
       case Flush(who, need) =>
         sys.(queue := sys.queue[1..], callers := if who < |sys.callers| then sys.callers[who := Acked(need)] else sys.callers))
    case CommitRow(ok) =>
      var traj, row := sys.committed, sys.worker.row;
      if ok && traj == |sys.rows| then sys.(rows := sys.rows + [row], worker := Storing(traj, row))
      else sys.(dropped := sys.dropped + 1, settled := sys.settled + [(row, false)], worker := Receiving)
    case StoreCount =>
      sys.(committed := sys.worker.traj + 1, settled := sys.settled + [(sys.worker.row, true)], worker := Receiving)
    case Reopen => OpenArchive(sys.rows, |sys.callers|)
  }

  // ---------------------------------------------------------------------
  // What holds after every step
  // ---------------------------------------------------------------------

  function RowsOf<R>(queue: seq<Msg<R>>): seq<R> {
    if queue == [] then []
    else RowsOf(queue[..|queue| - 1]) + if queue[|queue| - 1].Row? then [queue[|queue| - 1].row] else []
  }

  function Held<R>(w: Worker<R>): seq<R> {
    match w
    case Receiving => []
    case Committing(row) => [row]
    case Storing(_, row) => [row]
  }

  function First<R>(settled: seq<(R, bool)>): (rs: seq<R>)
    ensures |rs| == |settled|
  {
    seq(|settled|, i requires 0 <= i < |settled| => settled[i].0)
  }

  /** The rows that were persisted, in the order they were settled. */
  function Kept<R>(settled: seq<(R, bool)>): seq<R> {
    if settled == [] then []
    else
      var n := |settled| - 1;
      Kept(settled[..n]) + if settled[n].1 then [settled[n].0] else []
  }

  function InFlight(callers: seq<Caller>): nat {
    if callers == [] then 0 else (if callers[0].Sent? then 1 else 0) + InFlight(callers[1..])
  }

  lemma {:induction false} InFlightAt(callers: seq<Caller>, k: nat, c: Caller)
    requires k < |callers|
    ensures InFlight(callers[k := c]) ==
      InFlight(callers) - (if callers[k].Sent? then 1 else 0) + (if c.Sent? then 1 else 0)
  {
    if k > 0 {
      InFlightAt(callers[1..], k - 1, c);
      assert callers[k := c][1..] == callers[1..][k - 1 := c];
    } else {
      assert callers[k := c][1..] == callers[1..];
    }
  }

  lemma {:induction false} NoneInFlight(callers: seq<Caller>)
    requires AllIdle(callers)
    ensures InFlight(callers) == 0
  {
    if callers != [] {
      assert callers[0].Idle?;
      assert forall k :: 0 <= k < |callers[1..]| ==> callers[1..][k] == callers[k + 1];
      NoneInFlight(callers[1..]);
    }
  }

  lemma {:induction false} RowsHead<R>(queue: seq<Msg<R>>)
    requires queue != []
    ensures RowsOf(queue) == (if queue[0].Row? then [queue[0].row] else []) + RowsOf(queue[1..])
  {
    var n := |queue| - 1;
    if n > 0 {
      RowsHead(queue[..n]);
      assert queue[..n][1..] == queue[1..][..n - 1];
      assert queue[1..][n - 1] == queue[n];
    }
  }

  /** Counters: every row that was sent is counted or in flight, and is settled, held or queued. */
  ghost predicate Counted<R>(sys: Sys<R>) {
    && sys.appended + InFlight(sys.callers) == |sys.base| + |sys.sent|
    && |sys.base| + |Kept(sys.settled)| == sys.committed
    && sys.dropped + |Kept(sys.settled)| == |sys.settled|
  }

  /** Order: nothing is lost, repeated or overtaken between `append` and the corpus. */
  ghost predicate Ordered<R>(sys: Sys<R>) {
    && sys.sent == First(sys.settled) + Held(sys.worker) + RowsOf(sys.queue)
    && sys.rows == sys.base + Kept(sys.settled) + (if sys.worker.Storing? then [sys.worker.row] else [])
    && (sys.worker.Storing? ==> sys.worker.traj == sys.committed)
  }

  /** A queued flush belongs to one waiting caller. */
  ghost predicate Waiters<R>(sys: Sys<R>) {
    && (forall p :: 0 <= p < |sys.queue| && sys.queue[p].Flush? ==>
      sys.queue[p].who < |sys.callers| && sys.callers[sys.queue[p].who] == Waiting(sys.queue[p].need))
    && forall p, q :: 0 <= p < q < |sys.queue| && sys.queue[p].Flush? && sys.queue[q].Flush? ==>
      sys.queue[p].who != sys.queue[q].who
  }

  /** A queued flush has in front of it, settled, held or queued, exactly the rows sent before it. */
  ghost predicate FlushesOk<R>(sys: Sys<R>) {
    && (forall p :: 0 <= p < |sys.queue| && sys.queue[p].Flush? ==>
      sys.queue[p].need == |sys.settled| + |Held(sys.worker)| + |RowsOf(sys.queue[..p])|)
    && forall k :: 0 <= k < |sys.callers| && sys.callers[k].Acked? ==> sys.callers[k].need <= |sys.settled|
  }

  ghost predicate Inv<R>(sys: Sys<R>) {
    Counted(sys) && Ordered(sys) && Waiters(sys) && FlushesOk(sys)
  }

  lemma OpensOk<R>(rows: seq<R>, callers: nat)
    ensures Inv(OpenArchive(rows, callers))
  {
    var sys := OpenArchive(rows, callers);
    NoneInFlight(sys.callers);
    assert sys.base + Kept(sys.settled) + [] == sys.rows;
  }

  lemma CountedStays<R>(sys: Sys<R>, a: Act<R>)
    requires Inv(sys) && Enabled(sys, a)
    ensures Counted(Step(sys, a))
  {
    hide RowsOf, First;
    match a {
      case Send(who, row) => InFlightAt(sys.callers, who, Sent);
      case Count(who) => InFlightAt(sys.callers, who, Idle);
      case SendFlush(who) => InFlightAt(sys.callers, who, Waiting(|sys.sent|));
      case Return(who) => InFlightAt(sys.callers, who, Idle);
      case Receive =>
        if sys.queue[0].Flush? {
          InFlightAt(sys.callers, sys.queue[0].who, Acked(sys.queue[0].need));
        }
      case CommitRow(_) =>
      case StoreCount =>
      case Reopen => OpensOk(sys.rows, |sys.callers|);
    }
  }

  lemma FirstSnoc<R>(settled: seq<(R, bool)>, x: (R, bool))
    ensures First(settled + [x]) == First(settled) + [x.0]
    ensures Kept(settled + [x]) == Kept(settled) + if x.1 then [x.0] else []
  {
    assert (settled + [x])[..|settled|] == settled;
  }

  lemma RowsSnoc<R>(queue: seq<Msg<R>>, m: Msg<R>)
    ensures RowsOf(queue + [m]) == RowsOf(queue) + if m.Row? then [m.row] else []
  {
    assert (queue + [m])[..|queue|] == queue;
  }

  lemma OrderedStays<R>(sys: Sys<R>, a: Act<R>)
    requires Inv(sys) && Enabled(sys, a)
    ensures Ordered(Step(sys, a))
  {
    hide RowsOf, First, Kept, InFlight;
    var next := Step(sys, a);
    match a {
      case Send(who, row) => RowsSnoc(sys.queue, Msg.Row(row));
      case SendFlush(who) => RowsSnoc(sys.queue, Msg<R>.Flush(who, |sys.sent|));
      case Receive => RowsHead(sys.queue);
      case CommitRow(ok) => FirstSnoc(sys.settled, (sys.worker.row, false));
      case StoreCount =>
        FirstSnoc(sys.settled, (sys.worker.row, true));
      case Reopen => OpensOk(sys.rows, |sys.callers|);
      case _ =>
    }
  }

  lemma WaitersStay<R>(sys: Sys<R>, a: Act<R>)
    requires Inv(sys) && Enabled(sys, a)
    ensures Waiters(Step(sys, a))
  {
    hide RowsOf, First, Kept, InFlight;
  }

  lemma FlushesStay<R>(sys: Sys<R>, a: Act<R>)
    requires Inv(sys) && Enabled(sys, a)
    ensures FlushesOk(Step(sys, a))
  {
    hide RowsOf, First, Kept, InFlight;
    var next := Step(sys, a);
    if a.Reopen? {
      OpensOk(sys.rows, |sys.callers|);
    } else {
      forall p | 0 <= p < |next.queue| && next.queue[p].Flush?
        ensures next.queue[p].need == |next.settled| + |Held(next.worker)| + |RowsOf(next.queue[..p])|
      {
        if a.Receive? {
          RowsHead(sys.queue[..p + 1]);
          assert sys.queue[..p + 1][1..] == next.queue[..p];
          assert next.queue[p] == sys.queue[p + 1];
        } else if p < |sys.queue| {
          assert next.queue[..p] == sys.queue[..p];
        } else {
          assert next.queue[..p] == sys.queue;
          FirstLength(sys);
        }
      }
      if a.Receive? && sys.queue[0].Flush? {
        NoRows<R>();
        assert sys.queue[..0] == [];
      }
    }
  }

  lemma NoRows<R>()
    ensures RowsOf<R>([]) == []
  {}

  lemma FirstLength<R>(sys: Sys<R>)
    requires Ordered(sys)
    ensures |sys.sent| == |sys.settled| + |Held(sys.worker)| + |RowsOf(sys.queue)|
  {}

  lemma StepKeeps<R>(sys: Sys<R>, a: Act<R>)
    requires Inv(sys) && Enabled(sys, a)
    ensures Inv(Step(sys, a))
  {
    hide Step, Counted, Ordered, Waiters, FlushesOk, Enabled;
    CountedStays(sys, a);
    OrderedStays(sys, a);
    WaitersStay(sys, a);
    FlushesStay(sys, a);
  }

  // ---------------------------------------------------------------------
  // Runs
  // ---------------------------------------------------------------------

  function Run<R>(sys: Sys<R>, acts: seq<Act<R>>): Sys<R>
    decreases |acts|
  {
    if acts == [] then sys
    else
      var before := Run(sys, acts[..|acts| - 1]);
      if Enabled(before, acts[|acts| - 1]) then Step(before, acts[|acts| - 1]) else before
  }

  lemma {:induction false} RunKeeps<R>(sys: Sys<R>, acts: seq<Act<R>>)
    requires Inv(sys)
    ensures Inv(Run(sys, acts))
    decreases |acts|
  {
    hide Inv, Step, Enabled;
    if acts != [] {
      RunKeeps(sys, acts[..|acts| - 1]);
      var before := Run(sys, acts[..|acts| - 1]);
      if Enabled(before, acts[|acts| - 1]) {
        StepKeeps(before, acts[|acts| - 1]);
      }
    }
  }

  /** The balance of the three counters at any moment of any run, restarts included. */
  lemma CountersBalance<R>(rows: seq<R>, callers: nat, acts: seq<Act<R>>)
    ensures var sys := Run(OpenArchive(rows, callers), acts);
      sys.appended + InFlight(sys.callers) ==
        sys.committed + sys.dropped + |Held(sys.worker)| + |RowsOf(sys.queue)|
  {
    hide Run, OpenArchive, InFlight, RowsOf, Kept;
    OpensOk(rows, callers);
    RunKeeps(OpenArchive(rows, callers), acts);
    FirstLength(Run(OpenArchive(rows, callers), acts));
  }

  /** Committed trajectories never change, and new ones are the surviving rows in the order they were sent. */
  lemma CommittedAre<R>(rows: seq<R>, callers: nat, acts: seq<Act<R>>)
    ensures var sys := Run(OpenArchive(rows, callers), acts);
      && sys.committed <= |sys.rows| && sys.rows[..sys.committed] == sys.base + Kept(sys.settled)
      && First(sys.settled) <= sys.sent
  {
    hide Run, OpenArchive, InFlight, RowsOf, Kept;
    OpensOk(rows, callers);
    RunKeeps(OpenArchive(rows, callers), acts);
  }

  /** When `flush` returns, every row sent before it is committed or counted as dropped. */
  lemma FlushSettles<R>(rows: seq<R>, callers: nat, acts: seq<Act<R>>, who: nat)
    ensures var sys := Run(OpenArchive(rows, callers), acts);
      who < |sys.callers| && sys.callers[who].Acked? ==> sys.callers[who].need <= |sys.settled|
  {
    hide Run, OpenArchive, InFlight, RowsOf, Kept;
    OpensOk(rows, callers);
    RunKeeps(OpenArchive(rows, callers), acts);
  }

  /** The trajectory id the worker loads is always the next free one, in this run and after any restart. */
  lemma NextIsFree<R>(sys: Sys<R>)
    requires Inv(sys) && sys.worker.Committing?
    ensures sys.committed == |sys.rows|
  {
    hide RowsOf, InFlight, First;
  }

  // ---------------------------------------------------------------------
  // What the commits said
  // ---------------------------------------------------------------------

  /** What `commit_row` answered, call after call, since the archive was last opened. */
  function Answers<R>(rows: seq<R>, callers: nat, acts: seq<Act<R>>): seq<bool>
    decreases |acts|
  {
    if acts == [] then []
    else
      var n := |acts| - 1;
      var said := Answers(rows, callers, acts[..n]);
      if !Enabled(Run(OpenArchive(rows, callers), acts[..n]), acts[n]) then said
      else
        match acts[n]
        case CommitRow(ok) => said + [ok]
        case Reopen => []
        case _ => said
  }

  /** The rows handed to `append` since the archive was last opened. */
  function Appends<R>(rows: seq<R>, callers: nat, acts: seq<Act<R>>): seq<R>
    decreases |acts|
  {
    if acts == [] then []
    else
      var n := |acts| - 1;
      var given := Appends(rows, callers, acts[..n]);
      if !Enabled(Run(OpenArchive(rows, callers), acts[..n]), acts[n]) then given
      else
        match acts[n]
        case Send(_, row) => given + [row]
        case Reopen => []
        case _ => given
  }

  /** The rows of the theorems are those the callers appended, none lost and in the order of their sends. */
  lemma {:induction false} SentAre<R>(rows: seq<R>, callers: nat, acts: seq<Act<R>>)
    ensures Run(OpenArchive(rows, callers), acts).sent == Appends(rows, callers, acts)
    decreases |acts|
  {
    hide Enabled;
    if acts != [] {
      SentAre(rows, callers, acts[..|acts| - 1]);
    }
  }

  function Outcomes<R>(settled: seq<(R, bool)>): (r: seq<bool>)
    ensures |r| == |settled| && forall i :: 0 <= i < |settled| ==> r[i] == settled[i].1
  {
    seq(|settled|, i requires 0 <= i < |settled| => settled[i].1)
  }

  /** The answers as the state records them; a row being stored has been answered already. */
  function Told<R>(sys: Sys<R>): seq<bool> {
    Outcomes(sys.settled) + if sys.worker.Storing? then [true] else []
  }

  lemma ToldStep<R>(sys: Sys<R>, a: Act<R>)
    requires Inv(sys) && Enabled(sys, a)
    ensures Told(Step(sys, a)) ==
      match a {
        case CommitRow(ok) => Told(sys) + [ok]
        case Reopen => []
        case _ => Told(sys)
      }
  {
    hide RowsOf, InFlight, First, Kept;
    if a.CommitRow? {
      NextIsFree(sys);
      assert Outcomes(sys.settled + [(sys.worker.row, false)]) == Outcomes(sys.settled) + [false];
    } else if a.StoreCount? {
      assert Outcomes(sys.settled + [(sys.worker.row, true)]) == Outcomes(sys.settled) + [true];
    }
  }

  lemma {:induction false} AnswersTold<R>(rows: seq<R>, callers: nat, acts: seq<Act<R>>)
    ensures Told(Run(OpenArchive(rows, callers), acts)) == Answers(rows, callers, acts)
    decreases |acts|
  {
    hide Step, Enabled, OpenArchive, Told;
    OpensOk(rows, callers);
    if acts == [] {
      NothingTold(rows, callers);
    } else {
      var n := |acts| - 1;
      AnswersTold(rows, callers, acts[..n]);
      RunKeeps(OpenArchive(rows, callers), acts[..n]);
      var before := Run(OpenArchive(rows, callers), acts[..n]);
      if Enabled(before, acts[n]) {
        ToldStep(before, acts[n]);
      }
    }
  }

  lemma NothingTold<R>(rows: seq<R>, callers: nat)
    ensures Told(OpenArchive(rows, callers)) == []
  {}

  function Count(said: seq<bool>, b: bool): nat {
    if said == [] then 0 else Count(said[..|said| - 1], b) + if said[|said| - 1] == b then 1 else 0
  }

  /** The rows for which the answer was yes, in order. */
  function Chosen<R>(rs: seq<R>, said: seq<bool>): seq<R>
    requires |rs| == |said|
  {
    if said == [] then []
    else
      var n := |said| - 1;
      Chosen(rs[..n], said[..n]) + if said[n] then [rs[n]] else []
  }

  lemma {:induction false} KeptChosen<R>(settled: seq<(R, bool)>)
    ensures Kept(settled) == Chosen(First(settled), Outcomes(settled))
    ensures |Kept(settled)| == Count(Outcomes(settled), true)
    ensures |settled| == Count(Outcomes(settled), true) + Count(Outcomes(settled), false)
  {
    if settled != [] {
      var n := |settled| - 1;
      KeptChosen(settled[..n]);
      assert First(settled)[..n] == First(settled[..n]);
      assert Outcomes(settled)[..n] == Outcomes(settled[..n]);
    }
  }

  lemma CountSnoc(said: seq<bool>, b: bool, c: bool)
    ensures Count(said + [c], b) == Count(said, b) + if c == b then 1 else 0
  {
    assert (said + [c])[..|said|] == said;
  }

  lemma ChosenSnoc<R>(rs: seq<R>, said: seq<bool>, r: R)
    requires |rs| == |said|
    ensures Chosen(rs + [r], said + [true]) == Chosen(rs, said) + [r]
  {
    assert (rs + [r])[..|rs|] == rs && (said + [true])[..|said|] == said;
  }

  /**
   * A row is in the corpus exactly when its commit succeeded: the corpus holds what it held when it was opened and
   * then the rows, in the order they were sent, that were answered yes; every other answered row is counted dropped.
   */
  lemma CommittedExactly<R>(rows: seq<R>, callers: nat, acts: seq<Act<R>>)
    ensures var sys, said := Run(OpenArchive(rows, callers), acts), Answers(rows, callers, acts);
      && |said| <= |sys.sent|
      && sys.rows == sys.base + Chosen(sys.sent[..|said|], said)
      && sys.dropped == Count(said, false)
  {
    hide Run, OpenArchive, Answers, InFlight, RowsOf, Kept, Chosen, Count;
    OpensOk(rows, callers);
    RunKeeps(OpenArchive(rows, callers), acts);
    AnswersTold(rows, callers, acts);
    ToldRows(Run(OpenArchive(rows, callers), acts));
  }

  lemma ToldRows<R>(sys: Sys<R>)
    requires Inv(sys)
    ensures |Told(sys)| <= |sys.sent|
    ensures sys.rows == sys.base + Chosen(sys.sent[..|Told(sys)|], Told(sys)) && sys.dropped == Count(Told(sys), false)
  {
    hide InFlight, RowsOf, Kept, Chosen, Count;
    KeptChosen(sys.settled);
    var n := |sys.settled|;
    assert sys.sent[..n] == First(sys.settled);
    if sys.worker.Storing? {
      assert sys.sent[..n + 1] == First(sys.settled) + [sys.worker.row];
      ChosenSnoc(First(sys.settled), Outcomes(sys.settled), sys.worker.row);
      CountSnoc(Outcomes(sys.settled), false, true);
      assert sys.base + (Kept(sys.settled) + [sys.worker.row]) == sys.base + Kept(sys.settled) + [sys.worker.row];
    } else {
      assert Told(sys) == Outcomes(sys.settled);
      assert sys.base + Kept(sys.settled) + [] == sys.base + Kept(sys.settled);
    }
  }

  lemma {:induction false} AllChosen<R>(rs: seq<R>, said: seq<bool>)
    requires |rs| == |said| && forall i :: 0 <= i < |said| ==> said[i]
    ensures Chosen(rs, said) == rs && Count(said, false) == 0
  {
    if said != [] {
      var n := |said| - 1;
      AllChosen(rs[..n], said[..n]);
      assert rs == rs[..n] + [rs[n]];
    }
  }

  predicate Flushing(c: Caller, n: nat) {
    c == Waiting(n) || c == Acked(n)
  }

  lemma FlushingStep<R>(sys: Sys<R>, a: Act<R>, who: nat, n: nat)
    requires Inv(sys) && Enabled(sys, a) && a != Act<R>.Return(who)
    requires who < |sys.callers| && Flushing(sys.callers[who], n)
    ensures who < |Step(sys, a).callers| && Flushing(Step(sys, a).callers[who], n)
  {
    hide InFlight, RowsOf, Kept, First;
  }

  lemma {:induction false} FlushingStays<R>(sys: Sys<R>, acts: seq<Act<R>>, who: nat, n: nat)
    requires Inv(sys) && who < |sys.callers| && Flushing(sys.callers[who], n)
    requires forall i :: 0 <= i < |acts| ==> acts[i] != Act<R>.Return(who)
    ensures Inv(Run(sys, acts)) && who < |Run(sys, acts).callers| && Flushing(Run(sys, acts).callers[who], n)
    decreases |acts|
  {
    hide Inv, Step, Enabled, Flushing;
    RunKeeps(sys, acts);
    if acts != [] {
      var m := |acts| - 1;
      FlushingStays(sys, acts[..m], who, n);
      var before := Run(sys, acts[..m]);
      if Enabled(before, acts[m]) {
        FlushingStep(before, acts[m], who, n);
      }
    }
  }

  /**
   * A flush waits for everything sent before it was called: from the moment it is sent until it returns, whatever the
   * other callers and the worker do in between, an acknowledgement means that all those rows are settled.
   */
  lemma FlushCovers<R>(sys: Sys<R>, who: nat, acts: seq<Act<R>>)
    requires Inv(sys) && Enabled(sys, Act<R>.SendFlush(who))
    requires forall i :: 0 <= i < |acts| ==> acts[i] != Act<R>.Return(who)
    ensures var later := Run(Step(sys, Act<R>.SendFlush(who)), acts);
      && who < |later.callers| && Flushing(later.callers[who], |sys.sent|)
      && (later.callers[who].Acked? ==> |later.settled| >= |sys.sent|)
  {
    hide Run, InFlight, RowsOf, Kept, First;
    StepKeeps(sys, Act<R>.SendFlush(who));
    FlushingStays(Step(sys, Act<R>.SendFlush(who)), acts, who, |sys.sent|);
  }

  /** When no commit failed and a flush has been acknowledged, nothing was dropped and every row sent before it is stored. */
  lemma FlushStores<R>(rows: seq<R>, callers: nat, acts: seq<Act<R>>, k: nat)
    requires forall i :: 0 <= i < |Answers(rows, callers, acts)| ==> Answers(rows, callers, acts)[i]
    requires var sys := Run(OpenArchive(rows, callers), acts); k < |sys.callers| && sys.callers[k].Acked?
    ensures var sys := Run(OpenArchive(rows, callers), acts);
      && sys.dropped == 0 && sys.callers[k].need <= |sys.sent|
      && forall i :: 0 <= i < sys.callers[k].need ==> |sys.base| + i < |sys.rows| && sys.rows[|sys.base| + i] == sys.sent[i]
  {
    hide Run, OpenArchive, Answers, InFlight, RowsOf, Kept, Chosen, Count;
    OpensOk(rows, callers);
    RunKeeps(OpenArchive(rows, callers), acts);
    CommittedExactly(rows, callers, acts);
    AnswersTold(rows, callers, acts);
    var sys, said := Run(OpenArchive(rows, callers), acts), Answers(rows, callers, acts);
    AllChosen(sys.sent[..|said|], said);
  }

  lemma RowsOnlyGrow<R>(sys: Sys<R>, a: Act<R>)
    requires Enabled(sys, a)
    ensures sys.rows <= Step(sys, a).rows
  {}

  /** A row that is in the corpus keeps its place and content in every run, restarts included. */
  lemma {:induction false} RowsStay<R>(sys: Sys<R>, acts: seq<Act<R>>)
    ensures sys.rows <= Run(sys, acts).rows
    decreases |acts|
  {
    hide Step, Enabled;
    if acts != [] {
      RowsStay(sys, acts[..|acts| - 1]);
      var before, a := Run(sys, acts[..|acts| - 1]), acts[|acts| - 1];
      if Enabled(before, a) {
        RowsOnlyGrow(before, a);
      }
    }
  }

  // ---------------------------------------------------------------------
  // Reading back
  // ---------------------------------------------------------------------

  type Vec3 = (F64, F64, F64)

  /** Row `k` of a flat buffer. */
  predicate At(f: seq<F64>, k: nat, v: Vec3) {
    3 * k + 2 < |f| && f[3 * k] == v.0 && f[3 * k + 1] == v.1 && f[3 * k + 2] == v.2
  }

  /** Flat `3 * n` buffer of per-atom vectors. */
  function Flat(rows: seq<Vec3>): (f: seq<F64>)
    ensures |f| == 3 * |rows|
    ensures forall k :: 0 <= k < |rows| ==> At(f, k, rows[k])
  {
    if rows == [] then []
    else
      var last := rows[|rows| - 1];
      var before := Flat(rows[..|rows| - 1]);
      assert forall k :: 0 <= k < |rows| - 1 ==> At(before, k, rows[k]);
      before + [last.0, last.1, last.2]
  }

  predicate Distinct(ids: seq<nat>) {
    forall j, k :: 0 <= j < k < |ids| ==> ids[j] != ids[k]
  }

  /** The scatter loop of `fetch`: stored row `k` goes to the place its atom id names. */
  method Scatter(n: nat, ids: seq<nat>, rows: seq<Vec3>) returns (r: Result<seq<F64>>)
    ensures r.Ok? <==> |ids| == n == |rows| && forall k :: 0 <= k < |ids| ==> ids[k] < n
    ensures r.Ok? ==> |r.value| == 3 * n
    ensures r.Ok? && Distinct(ids) ==> forall k :: 0 <= k < n ==> At(r.value, ids[k], rows[k])
  {
    if |ids| != n || |rows| != n {
      return Err(Message("unexpected number of atoms"));
    }
    var out := new F64[3 * n](_ => 0);
    for k := 0 to n
      invariant forall j :: 0 <= j < k ==> ids[j] < n
      invariant Distinct(ids) ==> forall j :: 0 <= j < k ==> At(out[..], ids[j], rows[j])
    {
      var orig := ids[k];
      if orig >= n {
        return Err(Message("atom id out of range"));
      }
      ghost var before := out[..];
      out[3 * orig] := rows[k].0;
      out[3 * orig + 1] := rows[k].1;
      out[3 * orig + 2] := rows[k].2;
      if Distinct(ids) {
        forall j | 0 <= j < k + 1 ensures At(out[..], ids[j], rows[j]) {
          if j < k {
            assert At(before, ids[j], rows[j]);
            assert ids[j] != orig;
          }
        }
      }
    }
    r := Ok(out[..]);
  }

  function Below(n: nat): (r: set<nat>)
    ensures |r| == n && forall j: nat :: j in r <==> j < n
  {
    if n == 0 then {} else Below(n - 1) + {n - 1}
  }

  /** Distinct ids below `n`, `n` of them, name every atom. */
  lemma AllNamed(ids: seq<nat>, n: nat, i: nat) returns (k: nat)
    requires Distinct(ids) && |ids| == n && i < n && forall j :: 0 <= j < n ==> ids[j] < n
    ensures k < n && ids[k] == i
  {
    var named := set j | 0 <= j < n :: ids[j];
    DistinctSize(ids, named);
    SameSize(named, Below(n));
    assert i in named;
    k :| 0 <= k < n && ids[k] == i;
  }

  lemma {:induction false} DistinctSize(ids: seq<nat>, named: set<nat>)
    requires Distinct(ids) && named == set j | 0 <= j < |ids| :: ids[j]
    ensures |named| == |ids|
  {
    if ids == [] {
      assert named == {};
    } else {
      var n := |ids| - 1;
      var rest := set j | 0 <= j < n :: ids[..n][j];
      DistinctSize(ids[..n], rest);
      forall x ensures x in named <==> x in rest + {ids[n]} {
        if x in named {
          var j :| 0 <= j < |ids| && ids[j] == x;
          assert j < n ==> ids[..n][j] == x;
        }
        if x in rest {
          var j :| 0 <= j < n && ids[..n][j] == x;
          assert ids[j] == x;
        }
      }
      assert named == rest + {ids[n]};
      assert ids[n] !in rest;
    }
  }

  /** A frame as the builder stores it: the caller's atoms in some order, each with its original index as id. */
  predicate Permuted(orig: seq<Vec3>, ids: seq<nat>, rows: seq<Vec3>) {
    && |ids| == |rows| == |orig| && Distinct(ids)
    && forall k :: 0 <= k < |ids| ==> ids[k] < |orig| && rows[k] == orig[ids[k]]
  }

  /** Whatever permutation the frame was stored in, what is scattered back is the caller's own buffer. */
  lemma ScatterInverts(orig: seq<Vec3>, ids: seq<nat>, rows: seq<Vec3>, out: seq<F64>)
    requires Permuted(orig, ids, rows) && |out| == 3 * |orig|
    requires forall k :: 0 <= k < |ids| ==> At(out, ids[k], rows[k])
    ensures out == Flat(orig)
  {
    forall i | 0 <= i < |orig| ensures At(out, i, orig[i]) {
      var k := AllNamed(ids, |orig|, i);
      assert At(out, ids[k], rows[k]);
    }
    forall x | 0 <= x < |out| ensures out[x] == Flat(orig)[x] {
      SamePoint(orig, out, x / 3, x % 3);
    }
  }

  lemma SamePoint(orig: seq<Vec3>, out: seq<F64>, i: nat, d: nat)
    requires i < |orig| && d < 3 && At(out, i, orig[i])
    ensures 3 * i + d < |out| && out[3 * i + d] == Flat(orig)[3 * i + d]
  {
    hide Flat;
    assert At(Flat(orig), i, orig[i]);
    assert d == 0 || d == 1 || d == 2;
  }

  /** A parsed archive frame. */
  datatype Stored = Stored(ids: seq<nat>, positions: seq<Vec3>, forces: seq<Vec3>, energy: Option<F64>)

  /** The frame stores these positions and forces in one and the same order. */
  predicate Holding(frame: Stored, pos: seq<Vec3>, forces: seq<Vec3>) {
    Permuted(pos, frame.ids, frame.positions) && Permuted(forces, frame.ids, frame.forces)
  }

  /** `fetch`: a frame that holds the caller's row in any atom order comes back as the caller's row. */
  method Fetch(n: nat, frame: Stored) returns (r: Result<(seq<F64>, seq<F64>, F64)>)
    ensures r.Ok? <==> (
      && |frame.ids| == n == |frame.positions| == |frame.forces| && frame.energy.Some?
      && forall k :: 0 <= k < |frame.ids| ==> frame.ids[k] < n)
    ensures forall pos, forces :: frame.energy.Some? && |pos| == n && Holding(frame, pos, forces) ==>
      r == Ok((Flat(pos), Flat(forces), frame.energy.value))
  {
    var p := Scatter(n, frame.ids, frame.positions);
    var f := Scatter(n, frame.ids, frame.forces);
    forall pos, forces | |pos| == n && Holding(frame, pos, forces)
      ensures p == Ok(Flat(pos)) && f == Ok(Flat(forces))
    {
      ScatterInverts(pos, frame.ids, frame.positions, p.value);
      ScatterInverts(forces, frame.ids, frame.forces, f.value);
    }
    if p.Err? || f.Err? {
      return Err(ParseError);
    }
    if frame.energy.None? {
      return Err(Message("archive row has no energy"));
    }
    r := Ok((p.value, f.value, frame.energy.value));
  }

  // ---------------------------------------------------------------------
  // Progress
  // ---------------------------------------------------------------------

  predicate InQueue<R>(queue: seq<Msg<R>>, who: nat) {
    exists p :: 0 <= p < |queue| && queue[p].Flush? && queue[p].who == who
  }

  /** Whoever waits for a flush has it in the queue. */
  predicate Awaited<R>(sys: Sys<R>) {
    forall k :: 0 <= k < |sys.callers| && sys.callers[k].Waiting? ==> InQueue(sys.queue, k)
  }

  lemma QueuedBehind<R>(queue: seq<Msg<R>>, m: Msg<R>, who: nat)
    requires InQueue(queue, who) || (m.Flush? && m.who == who)
    ensures InQueue(queue + [m], who)
  {
    if InQueue(queue, who) {
      var p :| 0 <= p < |queue| && queue[p].Flush? && queue[p].who == who;
      assert (queue + [m])[p] == queue[p];
    } else {
      assert (queue + [m])[|queue|] == m;
    }
  }

  lemma QueuedAhead<R>(queue: seq<Msg<R>>, who: nat)
    requires InQueue(queue, who) && !(queue[0].Flush? && queue[0].who == who)
    ensures InQueue(queue[1..], who)
  {
    var p :| 0 <= p < |queue| && queue[p].Flush? && queue[p].who == who;
    assert queue[1..][p - 1] == queue[p];
  }

  lemma AwaitedStays<R>(sys: Sys<R>, a: Act<R>)
    requires Awaited(sys) && Enabled(sys, a)
    ensures Awaited(Step(sys, a))
  {
    hide InQueue;
    var next := Step(sys, a);
    forall k | 0 <= k < |next.callers| && next.callers[k].Waiting? ensures InQueue(next.queue, k) {
      match a {
        case Send(who, row) => QueuedBehind(sys.queue, Msg<R>.Row(row), k);
        case SendFlush(who) => QueuedBehind(sys.queue, Msg<R>.Flush(who, |sys.sent|), k);
        case Receive => QueuedAhead(sys.queue, k);
        case _ =>
      }
    }
  }

  lemma {:induction false} RunAwaits<R>(rows: seq<R>, callers: nat, acts: seq<Act<R>>)
    ensures Awaited(Run(OpenArchive(rows, callers), acts))
    decreases |acts|
  {
    hide Step, Enabled, Awaited;
    if acts == [] {
      OpenAwaits(rows, callers);
    } else {
      var n := |acts| - 1;
      RunAwaits(rows, callers, acts[..n]);
      var before := Run(OpenArchive(rows, callers), acts[..n]);
      if Enabled(before, acts[n]) {
        AwaitedStays(before, acts[n]);
      }
    }
  }

  lemma OpenAwaits<R>(rows: seq<R>, callers: nat)
    ensures Awaited(OpenArchive(rows, callers))
  {}

  /** How many steps the worker has before it. */
  function Pending<R>(sys: Sys<R>): nat {
    3 * |sys.queue| + if sys.worker.Committing? then 2 else if sys.worker.Storing? then 1 else 0
  }

  /** The worker never stops while there is work: it has a next step, and each of its steps leaves less, however commits end. */
  lemma WorkerEnds<R>(sys: Sys<R>)
    ensures Pending(sys) > 0 <==> Enabled(sys, Act<R>.Receive) || Enabled(sys, Act<R>.StoreCount) || Enabled(sys, Act<R>.CommitRow(true))
    ensures forall ok :: Enabled(sys, Act<R>.CommitRow(ok)) <==> sys.worker.Committing?
    ensures forall a: Act<R> :: (a.Receive? || a.CommitRow? || a.StoreCount?) && Enabled(sys, a) ==> Pending(Step(sys, a)) < Pending(sys)
  {}

  /** So every flush returns: once the worker has caught up nobody is waiting, and who was waiting has been acknowledged. */
  lemma NoneWaits<R>(rows: seq<R>, callers: nat, acts: seq<Act<R>>, who: nat)
    requires var sys := Run(OpenArchive(rows, callers), acts); Pending(sys) == 0 && who < |sys.callers|
    ensures !Run(OpenArchive(rows, callers), acts).callers[who].Waiting?
  {
    hide Run, OpenArchive;
    RunAwaits(rows, callers, acts);
  }
}
