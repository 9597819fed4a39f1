/**
  Workers processing one review, after
  apps/api/src/modules/review/processing/review-processing.service.ts over the conditional
  updates of apps/api/src/modules/review/prisma-review.repository.ts.
  Any number of workers, their in-flight finalizers and lease fences, and the user's cancel, retry
  and delete interleave at single durable effects; a durable effect can fail before or after it
  happened. A crashed worker is one that is never scheduled again.
 */
module ReviewProcessing {
  import opened Utf16
  import L = ReviewLog

  type Status = L.Status

  // ---------------------------------------------------------------- the durable row

  datatype Row = Row(status: Status, generation: nat, sequence: nat, deleted: bool)

  const CREATED := Row(L.PENDING, 0, 1, false)

  /** updateMany of transitionForUser: no row when the condition fails or the event sequence is exhausted. */
  function RowTransition(row: Row, from: set<Status>, to: Status, expected: Option<nat>): Option<Row> {
    if to == L.COMPLETED || row.deleted || row.status !in from || row.sequence >= L.MAX_EVENT_SEQUENCE
       || (expected.Some? && expected.value != row.generation)
       || (to == L.PROCESSING && row.generation >= L.MAX_GENERATION)
    then None
    else Some(Row(to, if to == L.PROCESSING then row.generation + 1 else row.generation, row.sequence + 1, false))
  }

  /** updateMany of finalizeForUser and fenceProcessingForUser. */
  function RowEnd(row: Row, to: Status, expected: nat): Option<Row> {
    if row.deleted || row.status != L.PROCESSING || row.generation != expected || row.sequence >= L.MAX_EVENT_SEQUENCE
      then None
    else Some(Row(to, row.generation, row.sequence + 1, false))
  }

  function RowOf(s: L.Slot): Row {
    Row(s.review.status, s.review.generation, s.sequence, s.review.deleted)
  }

  predicate RepliesAgree(row: Row, update: Option<Row>, after: L.Slot, reply: L.Reply) {
    && (update.Some? <==> reply.Returned?)
    && RowOf(after) == if update.Some? then update.value else row
  }

  /**
    On the owner's requests both repositories make the same changes; the one difference is that an
    exhausted event sequence is a null reply here and an exception in the in-memory repository.
   */
  lemma RepositoriesAgree(id: L.ReviewId, s: L.Slot, t: L.Request, result: L.ResultRecord, now: int, expected: nat)
    ensures RepliesAgree(RowOf(s), RowTransition(RowOf(s), t.from, t.to, t.expected),
                         L.Transition(id, s, s.review.user, t).0, L.Transition(id, s, s.review.user, t).1)
    ensures RepliesAgree(RowOf(s), RowEnd(RowOf(s), L.COMPLETED, expected),
                         L.Finalize(id, s, s.review.user, Some(result), now, expected).0,
                         L.Finalize(id, s, s.review.user, Some(result), now, expected).1)
    ensures RepliesAgree(RowOf(s), RowEnd(RowOf(s), L.CANCELLED, expected),
                         L.Fence(id, s, s.review.user, now, expected).0, L.Fence(id, s, s.review.user, now, expected).1)
  {
  }

  // ---------------------------------------------------------------- workers

  datatype Kind = Completed | Failed | Cancelled | AlreadyCompleted | AlreadyProcessing | RetryRequired | StaleClaim

  datatype Report = Report(kind: Kind, status: Status, generation: nat)

  datatype Outcome = Returned(report: Report) | Threw

  /** The generation a worker claimed, and the event sequence its claim was recorded at. */
  datatype Claim = Claim(generation: nat, sequence: nat)

  /** ReviewProcessingLeaseFence.fencePromise. */
  datatype LeaseFence = Idle | Issued | Settled(fenced: Option<Row>) | Rejected

  /** The finalization promise: `complete` or `fail`, at its write or at the read after a lost write. */
  datatype Flight = NoFlight | Writing(complete: bool) | Reading(complete: bool) | Landed(report: Report) | Broken

  datatype Pc =
    | Entering
    | Locking
    | Contended
    | Claiming
    | ClaimReading
    | Executing
    | Racing
    | AwaitingFence
    | Cancelling(fenceFailed: bool)
    | CancelReading(fenceFailed: bool)
    | Finished(outcome: Outcome)

  /** `execution` is history: how the AI execution settled, if the worker was still waiting for it. */
  datatype Worker = Worker(pc: Pc, claim: Option<Claim>, lost: bool, aborted: bool, leaseFence: LeaseFence,
    flight: Flight, execution: Option<Choice>)

  const NEW_WORKER := Worker(Entering, None, false, false, Idle, NoFlight, None)

  datatype Fault = NoFault | FailsBefore | FailsAfter

  /** What a worker's environment decides at a step: lock acquisition and the AI execution. */
  datatype Choice = Acquired | NotAcquired | Executed | ExecutionFailed | ExecutionCancelled

  function Finish(w: Worker, outcome: Outcome): Worker {
    w.(pc := Finished(outcome))
  }

  function Throw(w: Worker): Worker {
    Finish(w, Threw)
  }

  function Return(w: Worker, kind: Kind, row: Row): Worker {
    Finish(w, Returned(Report(kind, row.status, row.generation)))
  }

  /** ReviewProcessingLeaseFence.startIfNeeded. */
  function StartFence(w: Worker): Worker {
    if w.lost && w.claim.Some? && w.leaseFence == Idle then w.(leaseFence := Issued) else w
  }

  /** ReviewProcessingLeaseFence: `issued` is the generation its one durable fence was started for. */
  class ReviewProcessingLeaseFence {
    var claimedGeneration: Option<nat>
    var lost: bool
    var issued: Option<nat>

    constructor ()
      ensures claimedGeneration == None && !lost && issued == None
    {
      claimedGeneration, lost, issued := None, false, None;
    }

    /** The object stands for a worker's part of the protocol. */
    ghost predicate StandsFor(w: Worker)
      reads this
    {
      && lost == w.lost && claimedGeneration == (if w.claim.Some? then Some(w.claim.value.generation) else None)
      && issued == if w.leaseFence == Idle then None else claimedGeneration
    }

    method SetClaimedGeneration(generation: nat, ghost w: Worker, ghost claim: Claim)
      requires StandsFor(w) && w.claim.None? && w.leaseFence == Idle && claim.generation == generation
      modifies this
      ensures StandsFor(StartFence(w.(claim := Some(claim))))
    {
      claimedGeneration := Some(generation);
      StartIfNeeded();
    }

    method MarkLost(ghost w: Worker)
      requires StandsFor(w)
      modifies this
      ensures StandsFor(StartFence(w.(lost := true)))
    {
      lost := true;
      StartIfNeeded();
    }

    method StartIfNeeded()
      modifies this`issued
      ensures issued == if lost && claimedGeneration.Some? && old(issued).None? then claimedGeneration else old(issued)
    {
      if !lost || claimedGeneration.None? || issued.Some? {
        return;
      }
      issued := claimedGeneration;
    }
  }

  /** Leaving the execution or the finalization race because of the caller's signal or the lease. */
  function Abandon(w: Worker): Worker {
    w.(pc := if w.lost then AwaitingFence else Cancelling(false))
  }

  function StepEntering(row: Row, w: Worker, fault: Fault): Worker {
    if fault != NoFault || row.deleted then Throw(w) else w.(pc := Locking)
  }

  function StepLocking(w: Worker, fault: Fault, choice: Choice): Worker {
    if fault != NoFault then Throw(w)
    else if choice == Acquired then w.(pc := Claiming)
    else w.(pc := Contended)
  }

  function StepContended(row: Row, w: Worker, fault: Fault): Worker {
    if fault != NoFault || row.deleted then Throw(w)
    else match row.status
      case COMPLETED => Return(w, AlreadyCompleted, row)
      case PROCESSING => Return(w, AlreadyProcessing, row)
      case _ => Throw(w)
  }

  function StepClaiming(row: Row, w: Worker, fault: Fault): (Row, Worker) {
    if (w.lost && !w.aborted) || fault == FailsBefore then (row, Throw(w))
    else
      match RowTransition(row, {L.PENDING}, L.PROCESSING, None)
      case None => (row, if fault == NoFault then w.(pc := ClaimReading) else Throw(w))
      case Some(claimed) =>
        (claimed,
         if fault != NoFault then Throw(w)
         else
           var holder := StartFence(w.(claim := Some(Claim(claimed.generation, claimed.sequence))));
           holder.(pc := if w.lost then AwaitingFence else Executing))
  }

  function StepClaimReading(row: Row, w: Worker, fault: Fault): Worker {
    if fault != NoFault || row.deleted || row.status == L.PENDING || (w.lost && !w.aborted) then Throw(w)
    else Return(w, if row.status == L.PROCESSING then AlreadyProcessing
                   else if row.status == L.COMPLETED then AlreadyCompleted else RetryRequired, row)
  }

  /** The AI execution settles, or the lease-loss promise wins the race. */
  function StepExecuting(w: Worker, choice: Choice): Worker {
    if w.lost || w.aborted then Abandon(w)
    else match choice
      case Executed => w.(pc := Racing, flight := Writing(true))
      case ExecutionFailed => w.(pc := Racing, flight := Writing(false))
      case ExecutionCancelled => w.(pc := Cancelling(false))
      case _ => w
  }

  /** The race between the finalization promise and the lease-loss promise. */
  function StepRacing(w: Worker): Worker {
    if w.flight.Landed? then
      if w.aborted || w.lost then Abandon(w) else Finish(w, Returned(w.flight.report))
    else if w.flight == Broken then
      if w.aborted || w.lost then Abandon(w) else Throw(w)
    else if w.lost then Abandon(w)
    else w
  }

  /** cancelAfterLeaseLoss up to its fallback. */
  function StepAwaitingFence(w: Worker): Worker {
    match w.leaseFence
    case Issued => w
    case Settled(Some(fenced)) => Return(w, Cancelled, fenced)
    case Settled(None) => w.(pc := Cancelling(false))
    case Rejected => w.(pc := Cancelling(true))
    case Idle => w.(pc := Cancelling(false))
  }

  function StepCancelling(row: Row, w: Worker, fault: Fault): (Row, Worker)
    requires w.pc.Cancelling? && w.claim.Some?
  {
    if fault == FailsBefore then (row, Throw(w))
    else
      match RowTransition(row, {L.PROCESSING}, L.CANCELLED, Some(w.claim.value.generation))
      case None => (row, if fault == NoFault then w.(pc := CancelReading(w.pc.fenceFailed)) else Throw(w))
      case Some(cancelled) =>
        (cancelled, if fault != NoFault || w.pc.fenceFailed then Throw(w) else Return(w, Cancelled, cancelled))
  }

  function StepCancelReading(row: Row, w: Worker, fault: Fault): Worker
    requires w.pc.CancelReading?
  {
    if fault != NoFault || row.deleted || row.status == L.PENDING then Throw(w)
    else match row.status
      case CANCELLED => if w.pc.fenceFailed then Throw(w) else Return(w, Cancelled, row)
      case COMPLETED => Return(w, AlreadyCompleted, row)
      case FAILED => Return(w, RetryRequired, row)
      case _ => Return(w, StaleClaim, row)
  }

  /** One step of `process` itself. */
  function StepMain(row: Row, w: Worker, fault: Fault, choice: Choice): (Row, Worker) {
    match w.pc
    case Entering => (row, StepEntering(row, w, fault))
    case Locking => (row, StepLocking(w, fault, choice))
    case Contended => (row, StepContended(row, w, fault))
    case Claiming => StepClaiming(row, w, fault)
    case ClaimReading => (row, StepClaimReading(row, w, fault))
    case Executing => (row, StepExecuting(w, choice))
    case Racing => (row, StepRacing(w))
    case AwaitingFence => (row, StepAwaitingFence(w))
    case Cancelling(_) => if w.claim.Some? then StepCancelling(row, w, fault) else (row, w)
    case CancelReading(_) => (row, StepCancelReading(row, w, fault))
    case Finished(_) => (row, w)
  }

  /** How `complete` and `fail` report the row found after their own write matched nothing. */
  function FlightReport(row: Row, complete: bool): Flight {
    if row.deleted || row.status == L.PENDING then Broken
    else
      var kind := match row.status
        case COMPLETED => AlreadyCompleted
        case CANCELLED => Cancelled
        case FAILED => if complete then RetryRequired else Failed
        case _ => StaleClaim;
      Landed(Report(kind, row.status, row.generation))
  }

  /** One step of the finalization promise; it goes on even after `process` has returned. */
  function StepFlight(row: Row, w: Worker, fault: Fault): (Row, Worker) {
    match w.flight
    case Writing(complete) =>
      if fault == FailsBefore || w.claim.None? then (row, w.(flight := Broken))
      else
        var update := if complete then RowEnd(row, L.COMPLETED, w.claim.value.generation)
                      else RowTransition(row, {L.PROCESSING}, L.FAILED, Some(w.claim.value.generation));
        var written := if update.Some? then update.value else row;
        (written, w.(flight :=
           if fault != NoFault then Broken
           else if update.None? then Reading(complete)
           else Landed(Report(if complete then Completed else Failed, written.status, written.generation))))
    case Reading(complete) => (row, w.(flight := if fault != NoFault then Broken else FlightReport(row, complete)))
    case _ => (row, w)
  }

  /** The lease fence's conditional write. */
  function StepFence(row: Row, w: Worker, fault: Fault): (Row, Worker) {
    if w.leaseFence != Issued || w.claim.None? then (row, w)
    else if fault == FailsBefore then (row, w.(leaseFence := Rejected))
    else
      var fenced := RowEnd(row, L.CANCELLED, w.claim.value.generation);
      (if fenced.Some? then fenced.value else row,
        w.(leaseFence := if fault == NoFault then Settled(fenced) else Rejected))
  }

  datatype Part = Main(choice: Choice) | Finalizer | Fence | Lose | Abort

  /** The execution settles while the worker waits for it. */
  predicate Settles(w: Worker, choice: Choice) {
    w.pc == Executing && !w.lost && !w.aborted && choice in {Executed, ExecutionFailed, ExecutionCancelled}
  }

  function StepWorker(row: Row, w: Worker, part: Part, fault: Fault): (Row, Worker) {
    match part
    case Main(choice) =>
      var (after, next) := StepMain(row, w, fault, choice);
      (after, if Settles(w, choice) then next.(execution := Some(choice)) else next)
    case Finalizer => StepFlight(row, w, fault)
    case Fence => StepFence(row, w, fault)
    case Lose => (row, if w.pc.Finished? then w else StartFence(w.(lost := true)))
    case Abort => (row, w.(aborted := true))
  }

  // ---------------------------------------------------------------- runs

  datatype State = State(row: Row, workers: map<nat, Worker>)

  datatype Move = Begin(w: nat) | Step(w: nat, part: Part, fault: Fault) | UserCancel | UserRetry | UserDelete

  function Keep(update: Option<Row>, row: Row): Row {
    if update.Some? then update.value else row
  }

  function Next(s: State, move: Move): State {
    match move
    case Begin(w) => if w in s.workers then s else s.(workers := s.workers[w := NEW_WORKER])
    case Step(w, part, fault) =>
      if w !in s.workers then s
      else
        var (row, worker) := StepWorker(s.row, s.workers[w], part, fault);
        State(row, s.workers[w := worker])
    case UserCancel => s.(row := Keep(RowTransition(s.row, L.AllowedSources(L.CANCELLED), L.CANCELLED, None), s.row))
    case UserRetry => s.(row := Keep(RowTransition(s.row, L.AllowedSources(L.PENDING), L.PENDING, None), s.row))
    case UserDelete => s.(row := s.row.(deleted := true))
  }

  function Run(moves: seq<Move>): State {
    if moves == [] then State(CREATED, map[]) else Next(Run(moves[..|moves| - 1]), moves[|moves| - 1])
  }

  // ---------------------------------------------------------------- invariant

  predicate Held(row: Row, g: nat) {
    row.status == L.PROCESSING && row.generation == g
  }

  /** Generation g was claimed and is not processing; by `Evolves` it never will be again. */
  predicate Resolved(row: Row, g: nat) {
    row.generation >= g && !Held(row, g)
  }

  /** How the row may change in any number of steps. */
  predicate Evolves(a: Row, b: Row) {
    && b.generation >= a.generation && a.sequence <= b.sequence <= L.MAX_EVENT_SEQUENCE
    && (b.status == L.PROCESSING && b.generation == a.generation ==>
      a.status == L.PROCESSING && b.sequence == a.sequence)
    && (a.deleted ==> b == a)
    && (a.sequence == L.MAX_EVENT_SEQUENCE ==> b == a.(deleted := b.deleted))
    && (a.status == L.COMPLETED ==> b.status == L.COMPLETED && b.generation == a.generation)
  }

  /** A held claim still has the event sequence it was recorded at; the last sequence number holds it forever. */
  predicate ClaimOk(row: Row, c: Claim) {
    && 1 <= c.generation <= row.generation && c.sequence <= L.MAX_EVENT_SEQUENCE
    && (Held(row, c.generation) ==> row.sequence == c.sequence)
    && (c.sequence == L.MAX_EVENT_SEQUENCE ==> Held(row, c.generation))
  }

  predicate Unheld(row: Row, c: Claim) {
    Resolved(row, c.generation) || c.sequence == L.MAX_EVENT_SEQUENCE || row.deleted
  }

  predicate ReportOk(row: Row, c: Claim, r: Report) {
    && (c.sequence < L.MAX_EVENT_SEQUENCE ==> Resolved(row, c.generation))
    && (r.kind == StaleClaim ==> (r.generation > c.generation <==> c.sequence < L.MAX_EVENT_SEQUENCE))
    && (r.kind == Completed ==> row.status == L.COMPLETED && row.generation == c.generation)
    && r.kind != AlreadyProcessing && c.generation <= r.generation <= row.generation
  }

  predicate FlightOk(row: Row, c: Claim, flight: Flight) {
    match flight
    case Reading(_) => Unheld(row, c)
    case Landed(report) => ReportOk(row, c, report)
    case _ => true
  }

  predicate PcOk(row: Row, c: Claim, pc: Pc) {
    match pc
    case CancelReading(_) => Unheld(row, c)
    case Finished(Returned(report)) => ReportOk(row, c, report)
    case _ => true
  }

  predicate BeforeClaim(pc: Pc) {
    pc.Entering? || pc.Locking? || pc.Contended? || pc.Claiming? || pc.ClaimReading? || pc.Finished?
  }

  predicate WorkerOk(row: Row, w: Worker) {
    if w.claim.None? then BeforeClaim(w.pc) && w.leaseFence == Idle && w.flight == NoFlight
    else
      var c := w.claim.value;
      && (BeforeClaim(w.pc) ==> w.pc.Finished?)
      && ClaimOk(row, c) && FlightOk(row, c, w.flight) && PcOk(row, c, w.pc)
      && (w.leaseFence.Settled? && w.leaseFence.fenced.Some? ==>
            Resolved(row, c.generation) && w.leaseFence.fenced.value.generation == c.generation &&
              c.sequence < L.MAX_EVENT_SEQUENCE)
      && (w.lost && !w.pc.Finished? ==> w.leaseFence != Idle)
  }

  lemma EvolvesTransitive(a: Row, b: Row, c: Row)
    requires Evolves(a, b) && Evolves(b, c)
    ensures Evolves(a, c)
  {
  }

  lemma WorkerOkPersists(a: Row, b: Row, w: Worker)
    requires WorkerOk(a, w) && Evolves(a, b)
    ensures WorkerOk(b, w)
  {
  }

  predicate FreshClaim(before: Row, w: Worker, after: Worker) {
    after.claim == w.claim || (after.claim.Some? && after.claim.value.generation > before.generation)
  }

  /** What every step of a worker establishes. */
  predicate Kept(row: Row, w: Worker, after: (Row, Worker)) {
    Evolves(row, after.0) && WorkerOk(after.0, after.1) && FreshClaim(row, w, after.1) &&
      (w.pc.Finished? ==> after.1.pc == w.pc && after.1.claim == w.claim)
  }

  lemma ClaimingKeeps(row: Row, w: Worker, fault: Fault)
    requires WorkerOk(row, w) && row.sequence <= L.MAX_EVENT_SEQUENCE && w.pc == Claiming
    ensures Kept(row, w, StepClaiming(row, w, fault))
  {
  }

  lemma CancellingKeeps(row: Row, w: Worker, fault: Fault)
    requires WorkerOk(row, w) && row.sequence <= L.MAX_EVENT_SEQUENCE && w.pc.Cancelling?
    ensures w.claim.Some? && Kept(row, w, StepCancelling(row, w, fault))
  {
  }

  lemma CancelReadingKeeps(row: Row, w: Worker, fault: Fault)
    requires WorkerOk(row, w) && row.sequence <= L.MAX_EVENT_SEQUENCE && w.pc.CancelReading?
    ensures Kept(row, w, (row, StepCancelReading(row, w, fault)))
  {
  }

  lemma RacingKeeps(row: Row, w: Worker)
    requires WorkerOk(row, w) && row.sequence <= L.MAX_EVENT_SEQUENCE
    ensures w.pc == Racing ==> Kept(row, w, (row, StepRacing(w)))
    ensures w.pc == AwaitingFence ==> Kept(row, w, (row, StepAwaitingFence(w)))
  {
  }

  lemma MainKeeps(row: Row, w: Worker, fault: Fault, choice: Choice)
    requires WorkerOk(row, w) && row.sequence <= L.MAX_EVENT_SEQUENCE
    ensures Kept(row, w, StepMain(row, w, fault, choice))
  {
    match w.pc
    case Claiming => ClaimingKeeps(row, w, fault);
    case Racing => RacingKeeps(row, w);
    case AwaitingFence => RacingKeeps(row, w);
    case Cancelling(_) => CancellingKeeps(row, w, fault);
    case CancelReading(_) => CancelReadingKeeps(row, w, fault);
    case _ => QuietMainKeeps(row, w, fault, choice);
  }

  lemma QuietMainKeeps(row: Row, w: Worker, fault: Fault, choice: Choice)
    requires WorkerOk(row, w) && row.sequence <= L.MAX_EVENT_SEQUENCE
    requires w.pc in {Entering, Locking, Contended, ClaimReading, Executing} || w.pc.Finished?
    ensures Kept(row, w, StepMain(row, w, fault, choice))
  {
  }

  lemma FlightKeeps(row: Row, w: Worker, fault: Fault)
    requires WorkerOk(row, w) && row.sequence <= L.MAX_EVENT_SEQUENCE
    ensures Kept(row, w, StepFlight(row, w, fault))
  {
    if w.flight.Reading? {
      FlightReadingKeeps(row, w, fault);
    } else {
      FlightWritingKeeps(row, w, fault);
    }
  }

  lemma FlightReadingKeeps(row: Row, w: Worker, fault: Fault)
    requires WorkerOk(row, w) && row.sequence <= L.MAX_EVENT_SEQUENCE && w.flight.Reading?
    ensures Kept(row, w, StepFlight(row, w, fault))
  {
  }

  lemma FlightWritingKeeps(row: Row, w: Worker, fault: Fault)
    requires WorkerOk(row, w) && row.sequence <= L.MAX_EVENT_SEQUENCE && !w.flight.Reading?
    ensures Kept(row, w, StepFlight(row, w, fault))
  {
  }

  lemma FenceKeeps(row: Row, w: Worker, fault: Fault)
    requires WorkerOk(row, w) && row.sequence <= L.MAX_EVENT_SEQUENCE
    ensures Kept(row, w, StepFence(row, w, fault))
  {
  }

  lemma StepWorkerKeeps(row: Row, w: Worker, part: Part, fault: Fault)
    requires WorkerOk(row, w) && row.sequence <= L.MAX_EVENT_SEQUENCE
    ensures Kept(row, w, StepWorker(row, w, part, fault))
  {
    match part
    case Main(choice) =>
      MainKeeps(row, w, fault, choice);
      var (after, next) := StepMain(row, w, fault, choice);
      HistoryIsIrrelevant(after, next, Some(choice));
    case Finalizer => FlightKeeps(row, w, fault);
    case Fence => FenceKeeps(row, w, fault);
    case _ =>
  }

  lemma HistoryIsIrrelevant(row: Row, w: Worker, execution: Option<Choice>)
    ensures WorkerOk(row, w.(execution := execution)) <==> WorkerOk(row, w)
  {
  }

  ghost predicate DistinctClaims(s: State) {
    forall v, w :: v in s.workers && w in s.workers && v != w && s.workers[v].claim.Some? && s.workers[w].claim.Some?
      ==> s.workers[v].claim.value.generation != s.workers[w].claim.value.generation
  }

  ghost predicate WorkersOk(row: Row, workers: map<nat, Worker>) {
    forall w :: w in workers ==> WorkerOk(row, workers[w])
  }

  ghost predicate Inv(s: State) {
    s.row.sequence <= L.MAX_EVENT_SEQUENCE && WorkersOk(s.row, s.workers) && DistinctClaims(s)
  }

  lemma WorkersPersist(a: Row, b: Row, workers: map<nat, Worker>)
    requires WorkersOk(a, workers) && Evolves(a, b)
    ensures WorkersOk(b, workers)
  {
    forall w | w in workers ensures WorkerOk(b, workers[w]) {
      WorkerOkPersists(a, b, workers[w]);
    }
  }

  lemma UserMoveEvolves(row: Row, move: Move)
    requires row.sequence <= L.MAX_EVENT_SEQUENCE && (move.UserCancel? || move.UserRetry? || move.UserDelete?)
    ensures Evolves(row, Next(State(row, map[]), move).row)
  {
  }

  lemma StepInv(s: State, w: nat, part: Part, fault: Fault)
    requires Inv(s) && w in s.workers
    ensures Inv(Next(s, Step(w, part, fault))) && Evolves(s.row, Next(s, Step(w, part, fault)).row)
  {
    StepWorkerKeeps(s.row, s.workers[w], part, fault);
    var t := Next(s, Step(w, part, fault));
    WorkersPersist(s.row, t.row, s.workers);
    forall v | v in s.workers && v != w && s.workers[v].claim.Some? && t.workers[w].claim.Some?
      ensures s.workers[v].claim.value.generation != t.workers[w].claim.value.generation
    {
      assert ClaimOk(s.row, s.workers[v].claim.value);
    }
  }

  lemma NextKeepsInv(s: State, move: Move)
    requires Inv(s)
    ensures Inv(Next(s, move)) && Evolves(s.row, Next(s, move).row)
    ensures forall w :: w in s.workers && s.workers[w].pc.Finished? ==>
      w in Next(s, move).workers && Next(s, move).workers[w].pc == s.workers[w].pc &&
        Next(s, move).workers[w].claim == s.workers[w].claim
  {
    match move
    case Begin(w) =>
    case Step(w, part, fault) =>
      if w in s.workers {
        StepInv(s, w, part, fault);
        StepWorkerKeeps(s.row, s.workers[w], part, fault);
      }
    case _ =>
      UserMoveEvolves(s.row, move);
      WorkersPersist(s.row, Next(s, move).row, s.workers);
  }

  lemma {:induction false} EveryRunSatisfiesInv(moves: seq<Move>)
    ensures Inv(Run(moves))
  {
    if moves != [] {
      EveryRunSatisfiesInv(moves[..|moves| - 1]);
      NextKeepsInv(Run(moves[..|moves| - 1]), moves[|moves| - 1]);
    }
  }

  /** From any point of a run on, the row evolves and finished workers stay as they finished. */
  lemma {:induction false} RunsEvolve(moves: seq<Move>, i: nat)
    requires i <= |moves|
    ensures Evolves(Run(moves[..i]).row, Run(moves).row)
    ensures forall w :: w in Run(moves[..i]).workers && Run(moves[..i]).workers[w].pc.Finished? ==>
      && w in Run(moves).workers && Run(moves).workers[w].pc == Run(moves[..i]).workers[w].pc
      && Run(moves).workers[w].claim == Run(moves[..i]).workers[w].claim
    decreases |moves|
  {
    EveryRunSatisfiesInv(moves);
    if i == |moves| {
      assert moves[..i] == moves;
    } else {
      var shorter := moves[..|moves| - 1];
      assert shorter[..i] == moves[..i];
      RunsEvolve(shorter, i);
      EveryRunSatisfiesInv(shorter);
      NextKeepsInv(Run(shorter), moves[|moves| - 1]);
      EvolvesTransitive(Run(moves[..i]).row, Run(shorter).row, Run(moves).row);
    }
  }

  // ---------------------------------------------------------------- theorems

  /** `process` of worker w returned normally, having claimed the review. */
  predicate ReturnedAfterClaim(s: State, w: nat) {
    w in s.workers && s.workers[w].claim.Some? && s.workers[w].pc.Finished? && s.workers[w].pc.outcome.Returned?
  }

  /**
    When `process` has returned normally after claiming generation g, the review is not PROCESSING
    at g, now or at any later point, whatever is still in flight: exactly when its claim was not
    recorded with the last event sequence number.
   */
  lemma {:induction false} ReturnResolvesClaim(moves: seq<Move>, i: nat, w: nat)
    requires i <= |moves| && ReturnedAfterClaim(Run(moves[..i]), w)
    ensures var claim := Run(moves[..i]).workers[w].claim.value;
      Resolved(Run(moves).row, claim.generation) <==> claim.sequence < L.MAX_EVENT_SEQUENCE
  {
    RunsEvolve(moves, i);
    EveryRunSatisfiesInv(moves);
    assert WorkerOk(Run(moves).row, Run(moves).workers[w]);
  }

  /** A STALE_CLAIM outcome carries a later generation than the claim, under the same condition and no other. */
  lemma {:induction false} StaleClaimIsNewer(moves: seq<Move>, w: nat)
    requires ReturnedAfterClaim(Run(moves), w) && Run(moves).workers[w].pc.outcome.report.kind == StaleClaim
    ensures var (claim, report) := (Run(moves).workers[w].claim.value, Run(moves).workers[w].pc.outcome.report);
      report.generation > claim.generation <==> claim.sequence < L.MAX_EVENT_SEQUENCE
  {
    EveryRunSatisfiesInv(moves);
    assert WorkerOk(Run(moves).row, Run(moves).workers[w]);
  }

  /** Two workers never hold the same generation, and at most one worker ever reports its own completion. */
  lemma {:induction false} CompletionIsReportedOnce(moves: seq<Move>, v: nat, w: nat)
    requires v != w && ReturnedAfterClaim(Run(moves), v) && ReturnedAfterClaim(Run(moves), w)
    ensures Run(moves).workers[v].claim.value.generation != Run(moves).workers[w].claim.value.generation
    ensures Run(moves).workers[v].pc.outcome.report.kind == Completed ==>
      && Run(moves).row.status == L.COMPLETED &&
        Run(moves).row.generation == Run(moves).workers[v].claim.value.generation
      && Run(moves).workers[w].pc.outcome.report.kind != Completed
  {
    EveryRunSatisfiesInv(moves);
    assert WorkerOk(Run(moves).row, Run(moves).workers[v]);
    assert WorkerOk(Run(moves).row, Run(moves).workers[w]);
  }

  // ---------------------------------------------------------------- the exhausted sequence is reachable

  /** k rounds of the user cancelling and retrying. */
  function Churn(k: nat): seq<Move> {
    if k == 0 then [] else Churn(k - 1) + [UserCancel, UserRetry]
  }

  lemma {:induction false} RunAppends(moves: seq<Move>, move: Move)
    ensures Run(moves + [move]) == Next(Run(moves), move)
  {
    assert (moves + [move])[..|moves|] == moves;
  }

  lemma {:induction false} ChurnCounts(k: nat)
    requires 1 + 2 * k <= L.MAX_EVENT_SEQUENCE
    ensures Run(Churn(k)) == State(Row(L.PENDING, 0, 1 + 2 * k, false), map[])
  {
    if k > 0 {
      ChurnCounts(k - 1);
      RunAppends(Churn(k - 1), UserCancel);
      RunAppends(Churn(k - 1) + [UserCancel], UserRetry);
      assert Churn(k - 1) + [UserCancel] + [UserRetry] == Churn(k);
    }
  }

  function Advance(choice: Choice): Move {
    Step(0, Main(choice), NoFault)
  }

  function OneWorker(row: Row, w: Worker): State {
    State(row, map[0 := w])
  }

  const LAST_ROW := Row(L.PROCESSING, 1, L.MAX_EVENT_SEQUENCE, false)
  const LAST_WORKER := NEW_WORKER.(claim := Some(Claim(1, L.MAX_EVENT_SEQUENCE)))

  lemma ReachesClaiming(moves: seq<Move>, row: Row) returns (more: seq<Move>)
    requires Run(moves) == State(row, map[]) && !row.deleted
    ensures Run(more) == OneWorker(row, NEW_WORKER.(pc := Claiming))
  {
    RunAppends(moves, Begin(0));
    RunAppends(moves + [Begin(0)], Advance(Acquired));
    RunAppends(moves + [Begin(0)] + [Advance(Acquired)], Advance(Acquired));
    more := moves + [Begin(0)] + [Advance(Acquired)] + [Advance(Acquired)];
  }

  lemma TakesLastSequence(moves: seq<Move>) returns (more: seq<Move>)
    requires Run(moves) == OneWorker(Row(L.PENDING, 0, L.MAX_EVENT_SEQUENCE - 1, false), NEW_WORKER.(pc := Claiming))
    ensures Run(more)
      == OneWorker(LAST_ROW, LAST_WORKER.(pc := Cancelling(false), execution := Some(ExecutionCancelled)))
  {
    RunAppends(moves, Advance(Acquired));
    RunAppends(moves + [Advance(Acquired)], Advance(ExecutionCancelled));
    more := moves + [Advance(Acquired)] + [Advance(ExecutionCancelled)];
  }

  predicate StuckReturn(s: State) {
    && ReturnedAfterClaim(s, 0) && s.workers[0].claim.value == Claim(1, L.MAX_EVENT_SEQUENCE) && Held(s.row, 1)
    && s.workers[0].pc.outcome.report == Report(StaleClaim, L.PROCESSING, 1)
  }

  lemma ReturnsStuck(moves: seq<Move>) returns (more: seq<Move>)
    requires Run(moves) ==
      OneWorker(LAST_ROW, LAST_WORKER.(pc := Cancelling(false), execution := Some(ExecutionCancelled)))
    ensures StuckReturn(Run(more))
  {
    RunAppends(moves, Advance(Acquired));
    RunAppends(moves + [Advance(Acquired)], Advance(Acquired));
    more := moves + [Advance(Acquired)] + [Advance(Acquired)];
  }

  /** A claim recorded with the last sequence number does occur; it returns STALE_CLAIM with its own generation. */
  lemma ExhaustedClaimReturnsUnresolved()
    ensures exists moves :: StuckReturn(Run(moves))
  {
    var rounds := (L.MAX_EVENT_SEQUENCE - 2) / 2;
    ChurnCounts(rounds);
    var claiming := ReachesClaiming(Churn(rounds), Row(L.PENDING, 0, L.MAX_EVENT_SEQUENCE - 1, false));
    var cancelling := TakesLastSequence(claiming);
    var returned := ReturnsStuck(cancelling);
  }
}
