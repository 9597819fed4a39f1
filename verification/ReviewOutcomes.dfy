/**
  What `process` answers: the row and the outcome of a worker whose steps run without other moves in
  between, and what a report tells about the execution in every run.
 */
module ReviewOutcomes {
  import opened Utf16
  import L = ReviewLog
  import opened ReviewProcessing

  // ---------------------------------------------------------------- steps of one worker

  datatype Act = Act(part: Part, fault: Fault)

  /** The steps of one worker with nothing in between. */
  function Alone(row: Row, w: Worker, acts: seq<Act>): (Row, Worker)
    decreases |acts|
  {
    if acts == [] then (row, w)
    else var (after, next) := StepWorker(row, w, acts[0].part, acts[0].fault); Alone(after, next, acts[1..])
  }

  function MovesOf(w: nat, acts: seq<Act>): seq<Move> {
    if acts == [] then [] else [Step(w, acts[0].part, acts[0].fault)] + MovesOf(w, acts[1..])
  }

  function NextAll(s: State, moves: seq<Move>): State
    decreases |moves|
  {
    if moves == [] then s else NextAll(Next(s, moves[0]), moves[1..])
  }

  lemma {:induction false} RunConcat(moves: seq<Move>, more: seq<Move>)
    ensures Run(moves + more) == NextAll(Run(moves), more)
    decreases |more|
  {
    if more == [] {
      assert moves + more == moves;
    } else {
      RunAppends(moves, more[0]);
      RunConcat(moves + [more[0]], more[1..]);
      assert moves + more == moves + [more[0]] + more[1..];
    }
  }

  lemma NextOfOne(s: State, w: nat, act: Act, after: Row, next: Worker)
    requires w in s.workers && StepWorker(s.row, s.workers[w], act.part, act.fault) == (after, next)
    ensures Next(s, Step(w, act.part, act.fault)) == State(after, s.workers[w := next])
  {
  }

  lemma {:induction false} AloneStep(row: Row, w: Worker, acts: seq<Act>, after: Row, next: Worker)
    requires acts != [] && StepWorker(row, w, acts[0].part, acts[0].fault) == (after, next)
    ensures Alone(row, w, acts) == Alone(after, next, acts[1..])
  {
  }

  lemma {:induction false} MovesStep(s: State, w: nat, acts: seq<Act>, t: State)
    requires acts != [] && Next(s, Step(w, acts[0].part, acts[0].fault)) == t
    ensures NextAll(s, MovesOf(w, acts)) == NextAll(t, MovesOf(w, acts[1..]))
  {
    assert MovesOf(w, acts)[1..] == MovesOf(w, acts[1..]);
  }

  lemma {:induction false} AloneIsNextAll(s: State, w: nat, acts: seq<Act>)
    requires w in s.workers
    ensures NextAll(s, MovesOf(w, acts)) ==
      State(Alone(s.row, s.workers[w], acts).0, s.workers[w := Alone(s.row, s.workers[w], acts).1])
    decreases |acts|
  {
    if acts == [] {
      assert s.workers[w := s.workers[w]] == s.workers;
    } else {
      var (after, next) := StepWorker(s.row, s.workers[w], acts[0].part, acts[0].fault);
      var t := State(after, s.workers[w := next]);
      NextOfOne(s, w, acts[0], after, next);
      AloneStep(s.row, s.workers[w], acts, after, next);
      MovesStep(s, w, acts, t);
      AloneIsNextAll(t, w, acts[1..]);
    }
  }

  lemma {:induction false} AloneIsRun(moves: seq<Move>, w: nat, acts: seq<Act>)
    requires w in Run(moves).workers
    ensures var (s, r) := (Run(moves), Alone(Run(moves).row, Run(moves).workers[w], acts));
      Run(moves + MovesOf(w, acts)) == State(r.0, s.workers[w := r.1])
  {
    RunConcat(moves, MovesOf(w, acts));
    AloneIsNextAll(Run(moves), w, acts);
  }

  lemma {:induction false} AloneConcat(row: Row, w: Worker, a: seq<Act>, b: seq<Act>)
    ensures Alone(row, w, a + b) == Alone(Alone(row, w, a).0, Alone(row, w, a).1, b)
    decreases |a|
  {
    if a == [] {
      assert a + b == b;
    } else {
      var (after, next) := StepWorker(row, w, a[0].part, a[0].fault);
      assert (a + b)[1..] == a[1..] + b;
      AloneConcat(after, next, a[1..], b);
    }
  }

  lemma {:induction false} OneAct(row: Row, w: Worker, act: Act)
    ensures Alone(row, w, [act]) == StepWorker(row, w, act.part, act.fault)
  {
    assert [act][1..] == [];
  }

  lemma {:induction false} TwoActs(row: Row, w: Worker, a: Act, b: Act)
    ensures var (after, next) := StepWorker(row, w, a.part, a.fault);
      Alone(row, w, [a, b]) == StepWorker(after, next, b.part, b.fault)
  {
    assert [a, b] == [a] + [b];
    AloneConcat(row, w, [a], [b]);
    OneAct(row, w, a);
    OneAct(StepWorker(row, w, a.part, a.fault).0, StepWorker(row, w, a.part, a.fault).1, b);
  }

  lemma {:induction false} ThreeActs(row: Row, w: Worker, a: Act, b: Act, c: Act)
    ensures var (after, next) := Alone(row, w, [a, b]);
      Alone(row, w, [a, b, c]) == StepWorker(after, next, c.part, c.fault)
  {
    assert [a, b, c] == [a, b] + [c];
    AloneConcat(row, w, [a, b], [c]);
    OneAct(Alone(row, w, [a, b]).0, Alone(row, w, [a, b]).1, c);
  }

  // ---------------------------------------------------------------- entering

  function Proceed(choice: Choice): Act {
    Act(Main(choice), NoFault)
  }

  /** Up to the claim: the review is found, the lock acquired, the conditional update run. */
  const ENTERING := [Proceed(Acquired), Proceed(Acquired), Proceed(Acquired)]

  const LOCKED_OUT := [Proceed(Acquired), Proceed(NotAcquired), Proceed(Acquired)]

  function Claimant(claim: Claim): Worker {
    NEW_WORKER.(pc := Executing, claim := Some(claim))
  }

  /** A pending review is claimed under the next generation. */
  lemma {:induction false} ClaimsPending(row: Row)
    requires row.status == L.PENDING && !row.deleted
    requires row.generation < L.MAX_GENERATION && row.sequence < L.MAX_EVENT_SEQUENCE
    ensures Alone(row, NEW_WORKER, ENTERING) ==
      (Row(L.PROCESSING, row.generation + 1, row.sequence + 1, false),
       Claimant(Claim(row.generation + 1, row.sequence + 1)))
  {
    TwoActs(row, NEW_WORKER, Proceed(Acquired), Proceed(Acquired));
    ThreeActs(row, NEW_WORKER, Proceed(Acquired), Proceed(Acquired), Proceed(Acquired));
  }

  /** Any other review is left alone and reported by its status. */
  predicate Skips(row: Row, after: Row, w: Worker, kind: Kind) {
    after == row && w.pc == Finished(Returned(Report(kind, row.status, row.generation)))
  }

  lemma {:induction false} SkipsUnclaimable(row: Row)
    requires !row.deleted && row.status != L.PENDING
    ensures var (after, w) := Alone(row, NEW_WORKER, ENTERING + [Proceed(Acquired)]);
      && (row.status == L.PROCESSING ==> Skips(row, after, w, AlreadyProcessing))
      && (row.status == L.COMPLETED ==> Skips(row, after, w, AlreadyCompleted))
      && (row.status in {L.FAILED, L.CANCELLED} ==> Skips(row, after, w, RetryRequired))
  {
    TwoActs(row, NEW_WORKER, Proceed(Acquired), Proceed(Acquired));
    ThreeActs(row, NEW_WORKER, Proceed(Acquired), Proceed(Acquired), Proceed(Acquired));
    AloneConcat(row, NEW_WORKER, ENTERING, [Proceed(Acquired)]);
    OneAct(row, NEW_WORKER.(pc := ClaimReading), Proceed(Acquired));
  }

  /** Without the lock only a review that is completed or being processed is reported. */
  lemma {:induction false} SkipsLocked(row: Row)
    requires !row.deleted
    ensures var (after, w) := Alone(row, NEW_WORKER, LOCKED_OUT);
      && (row.status == L.PROCESSING ==> Skips(row, after, w, AlreadyProcessing))
      && (row.status == L.COMPLETED ==> Skips(row, after, w, AlreadyCompleted))
      && (row.status !in {L.PROCESSING, L.COMPLETED} ==> after == row && w.pc == Finished(Threw))
  {
    TwoActs(row, NEW_WORKER, Proceed(Acquired), Proceed(NotAcquired));
    ThreeActs(row, NEW_WORKER, Proceed(Acquired), Proceed(NotAcquired), Proceed(Acquired));
  }

  /** A review that is gone is refused at every read before the claim, and so is a claim under a lost lease. */
  lemma GoneIsRefused(row: Row, w: Worker, fault: Fault, choice: Choice)
    ensures row.deleted && w.pc in {Entering, Contended, ClaimReading} ==>
      StepWorker(row, w, Main(choice), fault) == (row, w.(pc := Finished(Threw)))
    ensures w.pc == Claiming && w.lost && !w.aborted ==>
      StepWorker(row, w, Main(choice), fault) == (row, w.(pc := Finished(Threw)))
    ensures fault == FailsBefore && w.pc in {Entering, Locking, Contended, Claiming, ClaimReading} ==>
      StepWorker(row, w, Main(choice), fault) == (row, w.(pc := Finished(Threw)))
  {
  }

  // ---------------------------------------------------------------- from the claim to the outcome

  /** The worker holds its claim and waits for the execution, undisturbed so far. */
  predicate Holds(row: Row, w: Worker) {
    && !row.deleted && row.status == L.PROCESSING && row.sequence < L.MAX_EVENT_SEQUENCE
    && w.claim.Some? && w.claim.value.generation == row.generation
    && w.pc == Executing && !w.lost && !w.aborted && w.leaseFence == Idle && w.flight == NoFlight
  }

  /** The row moved to its end, and the worker reports it. */
  predicate EndsAs(row: Row, after: Row, w: Worker, status: Status, kind: Kind) {
    && after == Row(status, row.generation, row.sequence + 1, false)
    && w.pc == Finished(Returned(Report(kind, status, row.generation)))
  }

  function Finishing(choice: Choice): seq<Act> {
    [Proceed(choice), Act(Finalizer, NoFault), Proceed(Acquired)]
  }

  /** An answered execution completes the review, a failed one fails it, a cancelled one cancels it. */
  lemma {:induction false} ExecutionIsAnswered(row: Row, w: Worker, choice: Choice)
    requires Holds(row, w)
    ensures var (after, next) := Alone(row, w, Finishing(choice));
      && (choice == Executed ==> EndsAs(row, after, next, L.COMPLETED, Completed))
      && (choice == ExecutionFailed ==> EndsAs(row, after, next, L.FAILED, Failed))
      && (choice == ExecutionCancelled ==> EndsAs(row, after, next, L.CANCELLED, Cancelled))
  {
    TwoActs(row, w, Proceed(choice), Act(Finalizer, NoFault));
    ThreeActs(row, w, Proceed(choice), Act(Finalizer, NoFault), Proceed(Acquired));
  }

  function Whole(choice: Choice): seq<Act> {
    ENTERING + Finishing(choice)
  }

  predicate WholeEndsAs(row: Row, after: Row, w: Worker, status: Status, kind: Kind) {
    && after == Row(status, row.generation + 1, row.sequence + 2, false)
    && w.pc == Finished(Returned(Report(kind, status, row.generation + 1)))
  }

  lemma {:induction false} PendingIsAnswered(row: Row, choice: Choice)
    requires row.status == L.PENDING && !row.deleted && row.generation < L.MAX_GENERATION
    requires row.sequence + 2 <= L.MAX_EVENT_SEQUENCE
    ensures var (after, next) := Alone(row, NEW_WORKER, Whole(choice));
      && (choice == Executed ==> WholeEndsAs(row, after, next, L.COMPLETED, Completed))
      && (choice == ExecutionFailed ==> WholeEndsAs(row, after, next, L.FAILED, Failed))
      && (choice == ExecutionCancelled ==> WholeEndsAs(row, after, next, L.CANCELLED, Cancelled))
  {
    AloneConcat(row, NEW_WORKER, ENTERING, Finishing(choice));
    ClaimsPending(row);
    ExecutionIsAnswered(Alone(row, NEW_WORKER, ENTERING).0, Alone(row, NEW_WORKER, ENTERING).1, choice);
  }

  /** A worker left alone with a pending review claims it and ends it as its execution settled. */
  lemma {:induction false} UndisturbedProcessIsAnswered(moves: seq<Move>, w: nat, choice: Choice)
    requires w !in Run(moves).workers
    requires var row := Run(moves).row;
      && row.status == L.PENDING && !row.deleted && row.generation < L.MAX_GENERATION
      && row.sequence + 2 <= L.MAX_EVENT_SEQUENCE
    ensures var (row, t) := (Run(moves).row, Run(moves + [Begin(w)] + MovesOf(w, Whole(choice))));
      && w in t.workers
      && (choice == Executed ==> WholeEndsAs(row, t.row, t.workers[w], L.COMPLETED, Completed))
      && (choice == ExecutionFailed ==> WholeEndsAs(row, t.row, t.workers[w], L.FAILED, Failed))
      && (choice == ExecutionCancelled ==> WholeEndsAs(row, t.row, t.workers[w], L.CANCELLED, Cancelled))
  {
    RunAppends(moves, Begin(w));
    AloneIsRun(moves + [Begin(w)], w, Whole(choice));
    PendingIsAnswered(Run(moves).row, choice);
  }

  // ---------------------------------------------------------------- cancellation and lost leases

  /** The caller's signal cancels the claimed review. */
  lemma {:induction false} AbortCancels(row: Row, w: Worker, choice: Choice)
    requires Holds(row, w)
    ensures var (after, next) := Alone(row, w, [Act(Abort, NoFault), Proceed(choice), Proceed(choice)]);
      EndsAs(row, after, next, L.CANCELLED, Cancelled)
  {
    TwoActs(row, w, Act(Abort, NoFault), Proceed(choice));
    ThreeActs(row, w, Act(Abort, NoFault), Proceed(choice), Proceed(choice));
  }

  /** A lost lease is fenced durably, and the fenced row is the outcome. */
  lemma {:induction false} LostLeaseCancels(row: Row, w: Worker, choice: Choice)
    requires Holds(row, w)
    ensures var (after, next) :=
        Alone(row, w, [Act(Lose, NoFault), Act(Fence, NoFault), Proceed(choice)] + [Proceed(choice)]);
      EndsAs(row, after, next, L.CANCELLED, Cancelled)
  {
    TwoActs(row, w, Act(Lose, NoFault), Act(Fence, NoFault));
    ThreeActs(row, w, Act(Lose, NoFault), Act(Fence, NoFault), Proceed(choice));
    var acts := [Act(Lose, NoFault), Act(Fence, NoFault), Proceed(choice)];
    AloneConcat(row, w, acts, [Proceed(choice)]);
    OneAct(Alone(row, w, acts).0, Alone(row, w, acts).1, Proceed(choice));
  }

  /** When the fence fails, the fallback still cancels the review, but the caller gets the fence's error. */
  lemma {:induction false} FailedFenceCancels(row: Row, w: Worker, choice: Choice)
    requires Holds(row, w)
    ensures var acts := [Act(Lose, NoFault), Act(Fence, FailsBefore), Proceed(choice)];
      var (after, next) := Alone(row, w, acts + [Proceed(choice), Proceed(choice)]);
      after == Row(L.CANCELLED, row.generation, row.sequence + 1, false) && next.pc == Finished(Threw)
  {
    TwoActs(row, w, Act(Lose, NoFault), Act(Fence, FailsBefore));
    ThreeActs(row, w, Act(Lose, NoFault), Act(Fence, FailsBefore), Proceed(choice));
    var acts := [Act(Lose, NoFault), Act(Fence, FailsBefore), Proceed(choice)];
    AloneConcat(row, w, acts, [Proceed(choice), Proceed(choice)]);
    TwoActs(Alone(row, w, acts).0, Alone(row, w, acts).1, Proceed(choice), Proceed(choice));
  }

  // ---------------------------------------------------------------- lost writes

  /** The worker's claim is gone: its conditional writes match nothing. */
  predicate Outrun(row: Row, w: Worker) {
    && w.claim.Some? && (row.deleted || row.status != L.PROCESSING || row.generation != w.claim.value.generation)
  }

  predicate Reports(row: Row, after: Row, w: Worker, kind: Kind) {
    after == row && w.pc == Finished(Returned(Report(kind, row.status, row.generation)))
  }

  /** A finalization that lost its row reports what it finds. */
  lemma {:induction false} LostWriteIsAnswered(row: Row, w: Worker, complete: bool)
    requires Outrun(row, w) && w.pc == Racing && !w.lost && !w.aborted && w.flight == Writing(complete)
    ensures var (after, next) := Alone(row, w, [Act(Finalizer, NoFault), Act(Finalizer, NoFault), Proceed(Acquired)]);
      && after == row
      && (row.deleted || row.status == L.PENDING ==> next.pc == Finished(Threw))
      && (!row.deleted ==>
            && (row.status == L.COMPLETED ==> Reports(row, after, next, AlreadyCompleted))
            && (row.status == L.CANCELLED ==> Reports(row, after, next, Cancelled))
            && (row.status == L.FAILED ==> Reports(row, after, next, if complete then RetryRequired else Failed))
            && (row.status == L.PROCESSING ==> Reports(row, after, next, StaleClaim)))
  {
    TwoActs(row, w, Act(Finalizer, NoFault), Act(Finalizer, NoFault));
    ThreeActs(row, w, Act(Finalizer, NoFault), Act(Finalizer, NoFault), Proceed(Acquired));
  }

  /** So does a cancellation that lost its row. */
  lemma {:induction false} LostCancelIsAnswered(row: Row, w: Worker, choice: Choice)
    requires Outrun(row, w) && w.pc == Cancelling(false)
    ensures var (after, next) := Alone(row, w, [Proceed(choice), Proceed(choice)]);
      && after == row
      && (row.deleted || row.status == L.PENDING ==> next.pc == Finished(Threw))
      && (!row.deleted ==>
            && (row.status == L.COMPLETED ==> Reports(row, after, next, AlreadyCompleted))
            && (row.status == L.CANCELLED ==> Reports(row, after, next, Cancelled))
            && (row.status == L.FAILED ==> Reports(row, after, next, RetryRequired))
            && (row.status == L.PROCESSING ==> Reports(row, after, next, StaleClaim)))
  {
    TwoActs(row, w, Proceed(choice), Proceed(choice));
  }

  // ---------------------------------------------------------------- reports tell the execution

  predicate Tells(kind: Kind, execution: Option<Choice>) {
    && (kind == Completed ==> execution == Some(Executed))
    && (kind == Failed ==> execution == Some(ExecutionFailed))
  }

  predicate Faithful(w: Worker) {
    && (w.pc == Executing || (BeforeClaim(w.pc) && !w.pc.Finished?) ==> w.flight == NoFlight)
    && (w.flight.Writing? ==> w.execution == Some(if w.flight.complete then Executed else ExecutionFailed))
    && (w.flight.Reading? ==> w.execution == Some(if w.flight.complete then Executed else ExecutionFailed))
    && (w.flight.Landed? ==> Tells(w.flight.report.kind, w.execution))
    && (w.pc.Finished? && w.pc.outcome.Returned? ==> Tells(w.pc.outcome.report.kind, w.execution))
  }

  lemma ExecutingStaysFaithful(row: Row, w: Worker, fault: Fault, choice: Choice)
    requires Faithful(w) && w.pc == Executing
    ensures Faithful(StepWorker(row, w, Main(choice), fault).1)
  {
  }

  lemma ClaimingStaysFaithful(row: Row, w: Worker, fault: Fault)
    requires Faithful(w) && w.pc == Claiming
    ensures Faithful(StepClaiming(row, w, fault).1)
  {
  }

  lemma MainStaysFaithful(row: Row, w: Worker, fault: Fault, choice: Choice)
    requires Faithful(w) && w.pc != Executing
    ensures Faithful(StepMain(row, w, fault, choice).1)
  {
    match w.pc
    case Claiming => ClaimingStaysFaithful(row, w, fault);
    case Racing => assert Faithful(StepRacing(w));
    case Cancelling(_) => if w.claim.Some? { CancellingStaysFaithful(row, w, fault); }
    case CancelReading(_) => assert Faithful(StepCancelReading(row, w, fault));
    case _ =>
  }

  lemma CancellingStaysFaithful(row: Row, w: Worker, fault: Fault)
    requires Faithful(w) && w.pc.Cancelling? && w.claim.Some?
    ensures Faithful(StepCancelling(row, w, fault).1)
  {
  }

  lemma FlightStaysFaithful(row: Row, w: Worker, fault: Fault)
    requires Faithful(w)
    ensures Faithful(StepFlight(row, w, fault).1)
  {
  }

  lemma StepStaysFaithful(row: Row, w: Worker, part: Part, fault: Fault)
    requires Faithful(w)
    ensures Faithful(StepWorker(row, w, part, fault).1)
  {
    match part
    case Main(choice) =>
      if w.pc == Executing {
        ExecutingStaysFaithful(row, w, fault, choice);
      } else {
        MainStaysFaithful(row, w, fault, choice);
      }
    case Finalizer => FlightStaysFaithful(row, w, fault);
    case _ =>
  }

  /**
    In every run, a worker that reports COMPLETED had its execution answered, and one that reports
    FAILED had it fail.
   */
  lemma {:induction false} ReportsTellExecution(moves: seq<Move>, w: nat)
    requires w in Run(moves).workers
    ensures Faithful(Run(moves).workers[w])
    ensures var worker := Run(moves).workers[w];
      worker.pc.Finished? && worker.pc.outcome.Returned? ==>
        && (worker.pc.outcome.report.kind == Completed ==> worker.execution == Some(Executed))
        && (worker.pc.outcome.report.kind == Failed ==> worker.execution == Some(ExecutionFailed))
  {
    if moves != [] {
      var (s, move) := (Run(moves[..|moves| - 1]), moves[|moves| - 1]);
      if w in s.workers {
        ReportsTellExecution(moves[..|moves| - 1], w);
        if move.Step? && move.w == w {
          StepStaysFaithful(s.row, s.workers[w], move.part, move.fault);
        }
      }
    }
  }

  // ---------------------------------------------------------------- late answers and the user's moves

  /** A finalization that lands after the lease was lost or the caller aborted does not decide the answer. */
  lemma LateLandingIsAbandoned(row: Row, w: Worker, fault: Fault, choice: Choice)
    requires w.pc == Racing && (w.flight.Landed? || w.flight == Broken)
    ensures var (after, next) := StepWorker(row, w, Main(choice), fault);
      && after == row
      && (w.lost ==> next == w.(pc := AwaitingFence))
      && (!w.lost && w.aborted ==> next == w.(pc := Cancelling(false)))
      && (!w.lost && !w.aborted && w.flight.Landed? ==> next.pc == Finished(Returned(w.flight.report)))
      && (!w.lost && !w.aborted && w.flight == Broken ==> next.pc == Finished(Threw))
  {
  }

  /** The user's cancel, retry and delete succeed exactly from the statuses the policy allows. */
  lemma UserMovesAreAnswered(s: State)
    ensures var t := Next(s, UserCancel);
      && t.workers == s.workers
      && t.row == if s.row.status in {L.PENDING, L.PROCESSING} && !s.row.deleted &&
        s.row.sequence < L.MAX_EVENT_SEQUENCE
                  then Row(L.CANCELLED, s.row.generation, s.row.sequence + 1, false) else s.row
    ensures var t := Next(s, UserRetry);
      && t.workers == s.workers
      && t.row == if s.row.status in {L.FAILED, L.CANCELLED} && !s.row.deleted && s.row.sequence < L.MAX_EVENT_SEQUENCE
                  then Row(L.PENDING, s.row.generation, s.row.sequence + 1, false) else s.row
    ensures Next(s, UserDelete) == State(Row(s.row.status, s.row.generation, s.row.sequence, true), s.workers)
  {
    L.PolicyTable();
  }
}
