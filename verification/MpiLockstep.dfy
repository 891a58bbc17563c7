/**
 * The control flow of one rank between collectives. Each rank runs this by itself: it knows its own
 * local results and what the collectives answer, and nothing else. The theorems say the ranks stay
 * matched in every run, whatever fails locally.
 */
module MpiLockstep {
  import opened Prelude
  import opened MpiWire

  datatype Op = Bcast | AllReduce | AllGatherv | AllToAll | AllToAllv

  /** The agreements a rank passes outside the batch loop, in order. */
  datatype Stage = Counts | Opened | Measured | Grown | Begun | Parsed

  /** Where a rank stands: the collective it enters next, with the replicated cursors it needs. */
  datatype Phase =
    | ScanLen
    | ScanData
    | Agree(stage: Stage)
    | Gather(g0: nat)
    | Gathered(ok: bool)
    | PlanAgree(b0: nat, b1: nat)
    | CountsExchange(b0: nat, b1: nat)
    | FitAgree(b0: nat, b1: nat)
    | LensAgree(b0: nat, b1: nat)
    | LayoutAgree(b0: nat, b1: nat)
    | DataExchange(b0: nat, b1: nat)
    | Exchanged(b0: nat, b1: nat, ok: bool)
    | Decoded(b1: nat)
    | Put(b1: nat)
    | Tail
    | MetaPut
    | Committed
    | Done(ok: bool)
    | Panicked

  /** The inputs every rank has alike: frame count and requested batch. */
  datatype Inputs = Inputs(n: nat, batch: nat)

  datatype Rank = Rank(phase: Phase, trace: seq<Op>, wrote: bool)

  function OpOf(p: Phase): Op
    requires !p.Done? && !p.Panicked?
  {
    match p
    case ScanLen | ScanData => Bcast
    case Gather(_) => AllGatherv
    case CountsExchange(_, _) => AllToAll
    case DataExchange(_, _) => AllToAllv
    case _ => AllReduce
  }

  /** `collective`: continue only when the local result is good and the agreement says all are. */
  function Collective(own: bool, all: bool, next: Phase): Phase {
    if own && all then next else Done(false)
  }

  /** The same test followed by `expect`, which panics on a local error the agreement missed. */
  function AgreeOrErr(own: bool, all: bool, next: Phase, failed: Phase): Phase {
    if !all then failed else if own then next else Panicked
  }

  function NextStage(stage: Stage): Phase {
    match stage
    case Counts => Agree(Opened)
    case Opened => Agree(Measured)
    case Measured => Agree(Grown)
    case Grown => Agree(Begun)
    case Begun => Agree(Parsed)
    case Parsed => Gathered(true)
  }

  function AfterParse(inp: Inputs): Phase {
    if inp.n == 0 then Gathered(true)
    else if inp.n * 16 > USIZE_MAX then Gathered(false)
    else Gather(0)
  }

  function LoopHead(inp: Inputs, b0: nat): Phase {
    if b0 < inp.n then PlanAgree(b0, BatchEnd(b0, inp.batch, inp.n)) else Tail
  }

  function ShrinkOrErr(b0: nat, b1: nat): Phase {
    match ShrinkBatchEnd(b0, b1)
    case Some(s) => PlanAgree(b0, s)
    case None => Exchanged(b0, b1, false)
  }

  /** What a rank does with the answer of the collective it was in, up to the next one. */
  function Resume(inp: Inputs, p: Phase, own: bool, all: bool): Phase
    requires !p.Done? && !p.Panicked?
  {
    match p
    case ScanLen => ScanData
    case ScanData => if all then Agree(Counts) else Done(false)
    case Agree(Parsed) => Collective(own, all, AfterParse(inp))
    case Agree(stage) => Collective(own, all, NextStage(stage))
    case Gather(g0) =>
      var g1 := Min(g0 + Max(HashGatherChunk(), 1), inp.n);
      if g1 < inp.n then Gather(g1) else Gathered(true)
    case Gathered(_) => Collective(own, all, LoopHead(inp, 0))
    case PlanAgree(b0, b1) => AgreeOrErr(own, all, CountsExchange(b0, b1), Exchanged(b0, b1, false))
    case CountsExchange(b0, b1) => FitAgree(b0, b1)
    case FitAgree(b0, b1) => if all then LensAgree(b0, b1) else ShrinkOrErr(b0, b1)
    case LensAgree(b0, b1) => if all then LayoutAgree(b0, b1) else Exchanged(b0, b1, false)
    case LayoutAgree(b0, b1) => AgreeOrErr(own, all, DataExchange(b0, b1), Exchanged(b0, b1, false))
    case DataExchange(b0, b1) => Exchanged(b0, b1, true)
    case Exchanged(_, b1, _) => Collective(own, all, Decoded(b1))
    case Decoded(b1) => Collective(own, all, Put(b1))
    case Put(b1) => Collective(own, all, LoopHead(inp, b1))
    case Tail => Collective(own, all, MetaPut)
    case MetaPut => Collective(own, all, Committed)
    case Committed => Collective(own, all, Done(true))
  }

  /** The outcome of the exchange or the gather is fixed before its agreement; other local results are free. */
  function Vote(p: Phase, raw: bool): bool {
    match p
    case Exchanged(_, _, ok) => ok
    case Gathered(ok) => ok
    case _ => raw
  }

  /** Sessions are committed on the way into the last agreement, and only there. */
  function Advance(inp: Inputs, r: Rank, own: bool, all: bool): Rank
    requires !r.phase.Done? && !r.phase.Panicked?
  {
    var next := Resume(inp, r.phase, own, all);
    Rank(next, r.trace + [OpOf(r.phase)], r.wrote || next.Committed?)
  }

  // ---------------------------------------------------------------------
  // The system of ranks
  // ---------------------------------------------------------------------

  predicate Running(p: Phase) {
    !p.Done? && !p.Panicked?
  }

  /** Every rank is about to enter the same collective; anything else deadlocks or mixes messages. */
  predicate Matched(sys: seq<Rank>) {
    && (forall r :: 0 <= r < |sys| ==> Running(sys[r].phase))
    && forall r, s :: 0 <= r < |sys| && 0 <= s < |sys| ==> OpOf(sys[r].phase) == OpOf(sys[s].phase)
  }

  /** The minimum of the votes; a broadcast gives rank 0's word. */
  function Answer(sys: seq<Rank>, votes: seq<bool>): bool
    requires |votes| == |sys| > 0
  {
    if sys[0].phase.ScanData? then votes[0] else forall r :: 0 <= r < |votes| ==> votes[r]
  }

  /** The votes of all ranks under their raw local results. */
  function Votes(sys: seq<Rank>, raw: nat -> bool): (votes: seq<bool>)
    ensures |votes| == |sys|
    ensures forall r :: 0 <= r < |sys| ==> votes[r] == Vote(sys[r].phase, raw(r))
  {
    seq(|sys|, r requires 0 <= r < |sys| => Vote(sys[r].phase, raw(r)))
  }

  function Step(inp: Inputs, sys: seq<Rank>, votes: seq<bool>): (next: seq<Rank>)
    requires |sys| > 0 && Matched(sys) && |votes| == |sys|
    ensures |next| == |sys|
    ensures forall r :: 0 <= r < |sys| ==> next[r] == Advance(inp, sys[r], votes[r], Answer(sys, votes))
  {
    seq(|sys|, r requires 0 <= r < |sys| => Advance(inp, sys[r], votes[r], Answer(sys, votes)))
  }

  function Start(size: nat): (sys: seq<Rank>)
    ensures |sys| == size
    ensures forall r :: 0 <= r < size ==> sys[r] == Rank(ScanLen, [], false)
  {
    seq(size, _ => Rank(ScanLen, [], false))
  }

  /** All ranks are in the same place with the same history. */
  predicate Lockstep(sys: seq<Rank>) {
    forall r :: 0 <= r < |sys| ==> sys[r] == sys[0]
  }

  /** The cursors a phase carries are those of a proper batch. */
  predicate PhaseOk(inp: Inputs, p: Phase) {
    inp.n <= USIZE_MAX &&
    match p
    case Gather(g0) => g0 < inp.n && inp.n * 16 <= USIZE_MAX
    case PlanAgree(b0, b1) => b0 < b1 <= inp.n
    case CountsExchange(b0, b1) => b0 < b1 <= inp.n
    case FitAgree(b0, b1) => b0 < b1 <= inp.n
    case LensAgree(b0, b1) => b0 < b1 <= inp.n
    case LayoutAgree(b0, b1) => b0 < b1 <= inp.n
    case DataExchange(b0, b1) => b0 < b1 <= inp.n
    case Exchanged(b0, b1, _) => b0 < b1 <= inp.n
    case Decoded(b1) => b1 <= inp.n
    case Put(b1) => b1 <= inp.n
    case _ => true
  }

  lemma ResumeOk(inp: Inputs, p: Phase, own: bool, all: bool)
    requires Running(p) && PhaseOk(inp, p)
    requires p.ScanLen? || p.ScanData? || !OpOf(p).AllReduce? || (all ==> own)
    ensures PhaseOk(inp, Resume(inp, p, own, all)) && !Resume(inp, p, own, all).Panicked?
  {
    match p {
      case FitAgree(b0, b1) => ShrinkStops(b0, b1);
      case Put(b1) => if b1 < inp.n { BatchAdvances(b1, inp.batch, inp.n); }
      case Gathered(_) => if 0 < inp.n { BatchAdvances(0, inp.batch, inp.n); }
      case _ =>
    }
  }

  /** An agreement or broadcast gives every rank the same answer, so the next phase is the same everywhere. */
  lemma ResumeAlike(inp: Inputs, p: Phase, own1: bool, own2: bool, all: bool)
    requires Running(p)
    requires OpOf(p).AllReduce? ==> (all ==> own1 && own2)
    ensures Resume(inp, p, own1, all) == Resume(inp, p, own2, all)
  {}

  /** One collective keeps the ranks in lockstep, whatever the local results are. */
  lemma StepLockstep(inp: Inputs, sys: seq<Rank>, votes: seq<bool>)
    requires |sys| > 0 && Lockstep(sys) && Running(sys[0].phase) && PhaseOk(inp, sys[0].phase)
    requires |votes| == |sys|
    ensures Matched(sys)
    ensures Lockstep(Step(inp, sys, votes)) && PhaseOk(inp, Step(inp, sys, votes)[0].phase)
    ensures !Step(inp, sys, votes)[0].phase.Panicked?
  {
    hide Resume;
    var all := Answer(sys, votes);
    var next := Step(inp, sys, votes);
    forall r | 0 <= r < |sys| ensures next[r] == next[0] {
      ResumeAlike(inp, sys[0].phase, votes[r], votes[0], all);
    }
    ResumeOk(inp, sys[0].phase, votes[0], all);
  }

  // ---------------------------------------------------------------------
  // Runs
  // ---------------------------------------------------------------------

  /** What is left of a run, most significant part first. */
  datatype Left = Left(part: nat, stage: nat, loop: nat, width: nat)

  function StageLeft(stage: Stage): nat {
    match stage
    case Counts => 7
    case Opened => 6
    case Measured => 5
    case Grown => 4
    case Begun => 3
    case Parsed => 2
  }

  function InBatch(inp: Inputs, b0: nat, b1: nat, k: nat): Left
    requires b0 < b1 <= inp.n && k < 8
  {
    Left(1, inp.n - b0, 0, 8 * (b1 - b0) + k)
  }

  function LeftOf(inp: Inputs, p: Phase): Left
    requires PhaseOk(inp, p)
  {
    match p
    case ScanLen => Left(2, 9, 0, 0)
    case ScanData => Left(2, 8, 0, 0)
    case Agree(stage) => Left(2, StageLeft(stage), 0, 0)
    case Gather(g0) => Left(2, 1, inp.n - g0, 0)
    case Gathered(_) => Left(2, 0, 0, 0)
    case PlanAgree(b0, b1) => InBatch(inp, b0, b1, 6)
    case CountsExchange(b0, b1) => InBatch(inp, b0, b1, 5)
    case FitAgree(b0, b1) => InBatch(inp, b0, b1, 4)
    case LensAgree(b0, b1) => InBatch(inp, b0, b1, 3)
    case LayoutAgree(b0, b1) => InBatch(inp, b0, b1, 2)
    case DataExchange(b0, b1) => InBatch(inp, b0, b1, 1)
    case Exchanged(b0, b1, _) => InBatch(inp, b0, b1, 0)
    case Decoded(b1) => Left(1, inp.n - b1, 2, 0)
    case Put(b1) => Left(1, inp.n - b1, 1, 0)
    case Tail => Left(0, 3, 0, 0)
    case MetaPut => Left(0, 2, 0, 0)
    case Committed => Left(0, 1, 0, 0)
    case Done(_) => Left(0, 0, 0, 0)
    case Panicked => Left(0, 0, 0, 0)
  }

  predicate Less(a: Left, b: Left) {
    || a.part < b.part
    || (a.part == b.part && (
      || a.stage < b.stage
      || (a.stage == b.stage && (a.loop < b.loop || (a.loop == b.loop && a.width < b.width)))))
  }

  predicate Batching(p: Phase) {
    p.PlanAgree? || p.CountsExchange? || p.FitAgree? || p.LensAgree? || p.LayoutAgree? || p.DataExchange?
  }

  lemma BatchShrinks(inp: Inputs, p: Phase, own: bool, all: bool)
    requires Batching(p) && PhaseOk(inp, p) && PhaseOk(inp, Resume(inp, p, own, all))
    ensures Less(LeftOf(inp, Resume(inp, p, own, all)), LeftOf(inp, p))
  {
    if p.FitAgree? {
      ShrinkStops(p.b0, p.b1);
    }
  }

  lemma PhaseShrinks(inp: Inputs, p: Phase, own: bool, all: bool)
    requires Running(p) && !Batching(p) && PhaseOk(inp, p) && PhaseOk(inp, Resume(inp, p, own, all))
    ensures Less(LeftOf(inp, Resume(inp, p, own, all)), LeftOf(inp, p))
  {}

  /** Every collective brings the run nearer to its end, the split loop included. */
  lemma ResumeShrinks(inp: Inputs, p: Phase, own: bool, all: bool)
    requires Running(p) && PhaseOk(inp, p) && PhaseOk(inp, Resume(inp, p, own, all))
    ensures Less(LeftOf(inp, Resume(inp, p, own, all)), LeftOf(inp, p))
  {
    hide PhaseOk, Resume, Less, LeftOf;
    if Batching(p) {
      BatchShrinks(inp, p, own, all);
    } else {
      PhaseShrinks(inp, p, own, all);
    }
  }

  /** One synchronous step under the raw local results of step `i`. */
  function Next(inp: Inputs, sys: seq<Rank>, raw: nat -> bool): (next: seq<Rank>)
    requires |sys| > 0 && Lockstep(sys) && Running(sys[0].phase) && PhaseOk(inp, sys[0].phase)
    ensures |next| == |sys| && Lockstep(next) && PhaseOk(inp, next[0].phase)
    ensures !next[0].phase.Panicked?
  {
    StepLockstep(inp, sys, Votes(sys, raw));
    Step(inp, sys, Votes(sys, raw))
  }

  lemma NextShrinks(inp: Inputs, sys: seq<Rank>, raw: nat -> bool)
    requires |sys| > 0 && Lockstep(sys) && Running(sys[0].phase) && PhaseOk(inp, sys[0].phase)
    ensures Less(LeftOf(inp, Next(inp, sys, raw)[0].phase), LeftOf(inp, sys[0].phase))
  {
    hide LeftOf, Less, Resume, PhaseOk;
    var votes := Votes(sys, raw);
    assert Next(inp, sys, raw)[0].phase == Resume(inp, sys[0].phase, votes[0], Answer(sys, votes));
    ResumeShrinks(inp, sys[0].phase, votes[0], Answer(sys, votes));
  }

  /**
   * The run from step `i` on, under any stream of local results (`fails(i)(r)` is what rank `r`
   * finds at step `i`). Whatever fails, it ends, on all ranks together, without a panic.
   */
  function Finish(inp: Inputs, sys: seq<Rank>, results: nat -> nat -> bool, i: nat): (end: seq<Rank>)
    requires |sys| > 0 && Lockstep(sys) && PhaseOk(inp, sys[0].phase) && !sys[0].phase.Panicked?
    ensures |end| == |sys| && Lockstep(end) && end[0].phase.Done?
    decreases LeftOf(inp, sys[0].phase).part, LeftOf(inp, sys[0].phase).stage,
              LeftOf(inp, sys[0].phase).loop, LeftOf(inp, sys[0].phase).width
  {
    if sys[0].phase.Done? then sys
    else
      NextShrinks(inp, sys, results(i));
      Finish(inp, Next(inp, sys, results(i)), results, i + 1)
  }

  // ---------------------------------------------------------------------
  // Outcomes
  // ---------------------------------------------------------------------

  /** A local failure that must fail the ingest; a batch that is too wide is only split. */
  predicate Fails(p: Phase, r: nat, vote: bool)
    requires Running(p)
  {
    !vote && !p.FitAgree? && if p.ScanData? then r == 0 else OpOf(p).AllReduce?
  }

  /** No way to succeed is left. */
  predicate Doomed(p: Phase) {
    p == Done(false) || (p.Exchanged? && !p.ok) || p == Gathered(false)
  }

  lemma FailureDooms(inp: Inputs, sys: seq<Rank>, raw: nat -> bool, r: nat)
    requires |sys| > 0 && Lockstep(sys) && Running(sys[0].phase) && PhaseOk(inp, sys[0].phase)
    requires r < |sys| && Fails(sys[0].phase, r, Votes(sys, raw)[r])
    ensures Doomed(Next(inp, sys, raw)[0].phase)
    ensures Next(inp, sys, raw)[0].wrote == sys[0].wrote
  {
    hide PhaseOk;
    var votes := Votes(sys, raw);
    assert !Answer(sys, votes);
    assert Next(inp, sys, raw)[0] == Advance(inp, sys[0], votes[0], false);
  }

  lemma DoomedStays(inp: Inputs, sys: seq<Rank>, raw: nat -> bool)
    requires |sys| > 0 && Lockstep(sys) && Running(sys[0].phase) && PhaseOk(inp, sys[0].phase)
    requires Doomed(sys[0].phase)
    ensures Doomed(Next(inp, sys, raw)[0].phase)
    ensures Next(inp, sys, raw)[0].wrote == sys[0].wrote
  {
    hide PhaseOk;
    var votes := Votes(sys, raw);
    assert votes[0] == false;
    assert Next(inp, sys, raw)[0] == Advance(inp, sys[0], false, Answer(sys, votes));
  }

  lemma {:induction false} DoomedFinish(inp: Inputs, sys: seq<Rank>, results: nat -> nat -> bool, i: nat)
    requires |sys| > 0 && Lockstep(sys) && PhaseOk(inp, sys[0].phase) && !sys[0].phase.Panicked?
    requires Doomed(sys[0].phase)
    ensures Finish(inp, sys, results, i)[0].phase == Done(false)
    ensures Finish(inp, sys, results, i)[0].wrote == sys[0].wrote
    decreases LeftOf(inp, sys[0].phase).part, LeftOf(inp, sys[0].phase).stage,
              LeftOf(inp, sys[0].phase).loop, LeftOf(inp, sys[0].phase).width
  {
    hide PhaseOk, LeftOf, Next;
    if !sys[0].phase.Done? {
      NextShrinks(inp, sys, results(i));
      DoomedStays(inp, sys, results(i));
      DoomedFinish(inp, Next(inp, sys, results(i)), results, i + 1);
    }
  }

  /** A failure on any rank ends the ingest with an error on every rank, and no rank commits because of it. */
  lemma FailureEndsAll(inp: Inputs, sys: seq<Rank>, results: nat -> nat -> bool, i: nat, r: nat)
    requires |sys| > 0 && Lockstep(sys) && Running(sys[0].phase) && PhaseOk(inp, sys[0].phase)
    requires r < |sys| && Fails(sys[0].phase, r, Votes(sys, results(i))[r])
    ensures var end := Finish(inp, sys, results, i);
      |end| == |sys| && forall q :: 0 <= q < |end| ==> end[q].phase == Done(false) && end[q].wrote == sys[0].wrote
  {
    hide PhaseOk, LeftOf, Next, Fails, Doomed;
    FailureDooms(inp, sys, results(i), r);
    NextShrinks(inp, sys, results(i));
    DoomedFinish(inp, Next(inp, sys, results(i)), results, i + 1);
    assert Finish(inp, sys, results, i) == Finish(inp, Next(inp, sys, results(i)), results, i + 1);
  }

  /** Sessions are committed on the way into the last agreement, exactly then, and success means they were. */
  predicate WroteOk(r: Rank) {
    && (r.wrote ==> r.phase.Committed? || r.phase.Done?)
    && (r.phase.Committed? || r.phase == Done(true) ==> r.wrote)
  }

  lemma WroteStays(inp: Inputs, sys: seq<Rank>, raw: nat -> bool)
    requires |sys| > 0 && Lockstep(sys) && Running(sys[0].phase) && PhaseOk(inp, sys[0].phase)
    requires WroteOk(sys[0])
    ensures WroteOk(Next(inp, sys, raw)[0])
    ensures !sys[0].wrote && Next(inp, sys, raw)[0].wrote ==>
      sys[0].phase.MetaPut? && forall r :: 0 <= r < |sys| ==> Votes(sys, raw)[r]
  {
    hide PhaseOk;
    var votes := Votes(sys, raw);
    assert Next(inp, sys, raw)[0] == Advance(inp, sys[0], votes[0], Answer(sys, votes));
  }

  lemma {:induction false} WroteAtEnd(inp: Inputs, sys: seq<Rank>, results: nat -> nat -> bool, i: nat)
    requires |sys| > 0 && Lockstep(sys) && PhaseOk(inp, sys[0].phase) && !sys[0].phase.Panicked?
    requires WroteOk(sys[0])
    ensures WroteOk(Finish(inp, sys, results, i)[0])
    decreases LeftOf(inp, sys[0].phase).part, LeftOf(inp, sys[0].phase).stage,
              LeftOf(inp, sys[0].phase).loop, LeftOf(inp, sys[0].phase).width
  {
    hide PhaseOk, LeftOf, Next;
    if !sys[0].phase.Done? {
      NextShrinks(inp, sys, results(i));
      WroteStays(inp, sys, results(i));
      WroteAtEnd(inp, Next(inp, sys, results(i)), results, i + 1);
    }
  }

  /**
   * Every ingest on any number of ranks, under any local results: all ranks return, with the same outcome after
   * the same collectives, and a rank that reports success has committed.
   */
  lemma AllReturnAlike(inp: Inputs, size: nat, results: nat -> nat -> bool)
    requires size > 0 && inp.n <= USIZE_MAX
    ensures Lockstep(Start(size)) && PhaseOk(inp, Start(size)[0].phase)
    ensures var end := Finish(inp, Start(size), results, 0);
      && |end| == size
      && (forall r :: 0 <= r < size ==> end[r].phase.Done? && end[r].phase == end[0].phase && end[r].trace == end[0].trace)
      && forall r :: 0 <= r < size && end[r].phase == Done(true) ==> end[r].wrote
  {
    hide Finish;
    WroteAtEnd(inp, Start(size), results, 0);
  }

  /** With no local failure at all the ingest succeeds. */
  lemma {:induction false} HealthySucceeds(inp: Inputs, sys: seq<Rank>, results: nat -> nat -> bool, i: nat)
    requires |sys| > 0 && Lockstep(sys) && PhaseOk(inp, sys[0].phase) && !sys[0].phase.Panicked?
    requires inp.n * 16 <= USIZE_MAX && !Doomed(sys[0].phase)
    requires forall j, r :: results(j)(r)
    ensures Finish(inp, sys, results, i)[0].phase == Done(true)
    decreases LeftOf(inp, sys[0].phase).part, LeftOf(inp, sys[0].phase).stage,
              LeftOf(inp, sys[0].phase).loop, LeftOf(inp, sys[0].phase).width
  {
    hide PhaseOk, LeftOf, Next;
    if !sys[0].phase.Done? {
      NextShrinks(inp, sys, results(i));
      HealthyStep(inp, sys, results(i));
      HealthySucceeds(inp, Next(inp, sys, results(i)), results, i + 1);
    }
  }

  lemma HealthyStep(inp: Inputs, sys: seq<Rank>, raw: nat -> bool)
    requires |sys| > 0 && Lockstep(sys) && Running(sys[0].phase) && PhaseOk(inp, sys[0].phase)
    requires inp.n * 16 <= USIZE_MAX && !Doomed(sys[0].phase)
    requires forall r :: raw(r)
    ensures !Doomed(Next(inp, sys, raw)[0].phase)
  {
    hide PhaseOk;
    var votes := Votes(sys, raw);
    forall r | 0 <= r < |sys| ensures votes[r] {
      assert sys[r] == sys[0];
      assert raw(r);
    }
    assert Next(inp, sys, raw)[0] == Advance(inp, sys[0], votes[0], true);
  }
}
