/**
  Authenticated quota admission as a protocol: concurrent `admit` calls, the Redis keys, the
  durable admission table and the review table. Every effect is one step; a step can succeed,
  fail without its effect, or fail after its effect; a call can crash between any two steps.
 */
module QuotaAdmission {
  import opened Utf16
  import opened UtcDay
  import R = RedisAdmission

  type Id = R.AdmissionId

  datatype Mode = QUICK | STANDARD | DEEP

  datatype Status = PENDING | RESERVED | ADMITTED | DENIED | INDETERMINATE | RECONCILE_REQUIRED

  /** QUOTA_ADMISSION_TRANSITIONS: the statuses a row may have before it becomes `to`. */
  function AllowedSources(to: Status): set<Status> {
    match to
    case PENDING => {}
    case ADMITTED => {}
    case DENIED => {PENDING, RECONCILE_REQUIRED}
    case INDETERMINATE => {PENDING, RESERVED}
    case RECONCILE_REQUIRED => {PENDING, INDETERMINATE, RESERVED}
    case RESERVED => {PENDING, INDETERMINATE, RECONCILE_REQUIRED}
  }

  datatype Config = Config(codec: R.Codec, quick: nat, standard: nat, deep: nat, maxTtlSeconds: nat)

  function Limit(cfg: Config, mode: Mode): nat {
    match mode case QUICK => cfg.quick case STANDARD => cfg.standard case DEEP => cfg.deep
  }

  ghost predicate ValidConfig(cfg: Config) {
    R.Faithful(cfg.codec) && cfg.quick <= 100_000 && cfg.standard <= 100_000 && cfg.deep <= 100_000
    && 1 <= cfg.maxTtlSeconds <= 86_400
  }

  // ---------------------------------------------------------------- state

  /** Owner and idempotency key hash, unique in the admission table. */
  datatype OwnerKey = OwnerKey(user: nat, keyHash: nat)

  datatype QuotaKey = QuotaKey(user: nat, mode: Mode, day: int)

  datatype Row = Row(owner: OwnerKey, fingerprint: nat, reviewId: nat, mode: Mode, day: int, status: Status)

  datatype Review = Review(user: nat, mode: Mode, createdAt: int, deleted: bool)

  datatype Outcome = Success(created: bool, reviewId: nat) | Conflict | RateLimited | Unavailable | NotFound | Crashed

  /** Where a call stands; `rec` is its local copy of the admission record. */
  datatype Pc =
    | Finding
    | Creating
    | RaceFinding
    | Rereading(id: Id, rec: Row)
    | Reserving(id: Id, rec: Row)
    | Persisting(id: Id, rec: Row, target: Status)
    | RaceRereading(id: Id, rec: Row, target: Status)
    | Finalizing(id: Id, rec: Row)
    | Marking(id: Id, preferred: Status, fallback: bool)
    | Done(outcome: Outcome)

  datatype Call = Call(owner: OwnerKey, fingerprint: nat, mode: Mode, now: int, candidate: Id, candidateReview: nat,
    pc: Pc)

  /** `granted` is history: the ids for which a script run returned RESERVED. */
  datatype State = State(
    clock: int,
    stores: map<QuotaKey, R.Store>,
    granted: map<QuotaKey, set<Id>>,
    rows: map<Id, Row>,
    byOwner: map<OwnerKey, Id>,
    byReview: map<nat, Id>,
    reviews: map<nat, Review>,
    calls: map<nat, Call>)

  function Init(clock: int): State {
    State(clock, map[], map[], map[], map[], map[], map[], map[])
  }

  function KeyOf(row: Row): QuotaKey {
    QuotaKey(row.owner.user, row.mode, row.day)
  }

  function StoreAt(s: State, k: QuotaKey): R.Store {
    if k in s.stores then s.stores[k] else R.EMPTY
  }

  function GrantedAt(granted: map<QuotaKey, set<Id>>, k: QuotaKey): set<Id> {
    if k in granted then granted[k] else {}
  }

  function Goto(s: State, c: nat, pc: Pc): State
    requires c in s.calls
  {
    s.(calls := s.calls[c := s.calls[c].(pc := pc)])
  }

  // ---------------------------------------------------------------- durable operations

  /** The insert of createOrGet; the caller has checked the three unique constraints. */
  function Insert(s: State, id: Id, row: Row): State {
    s.(rows := s.rows[id := row], byOwner := s.byOwner[row.owner := id], byReview := s.byReview[row.reviewId := id])
  }

  predicate UniqueViolation(s: State, id: Id, row: Row) {
    id in s.rows || row.owner in s.byOwner || row.reviewId in s.byReview
  }

  datatype TransitionReply = Updated(row: Row) | Missing | Refused

  /** transitionForOwner as one transaction. */
  function Transition(s: State, user: nat, id: Id, to: Status): (State, TransitionReply) {
    if id !in s.rows || s.rows[id].owner.user != user then (s, Missing)
    else if s.rows[id].status in AllowedSources(to) then
      var row := s.rows[id].(status := to);
      (s.(rows := s.rows[id := row]), Updated(row))
    else if s.rows[id].status == to then (s, Updated(s.rows[id]))
    else (s, Refused)
  }

  datatype FinalizeReply = Finalized | Replayed | FinalizeConflict | FinalizeMissing | FinalizeIndeterminate

  /** The finalizer transaction: review row, first event and ADMITTED together, or nothing. */
  function Finalize(s: State, call: Call, id: Id, rec: Row): (State, FinalizeReply) {
    if id !in s.rows || s.rows[id].owner.user != rec.owner.user then (s, FinalizeMissing)
    else
      var row := s.rows[id];
      if row.reviewId != rec.reviewId || row.mode != rec.mode || row.fingerprint != call.fingerprint
        then (s, FinalizeConflict)
      else if row.status == ADMITTED then
        if row.reviewId !in s.reviews || s.reviews[row.reviewId].deleted ||
          s.reviews[row.reviewId].user != rec.owner.user
        then (s, FinalizeIndeterminate)
        else if s.reviews[row.reviewId].mode != row.mode then (s, FinalizeConflict)
        else (s, Replayed)
      else if row.status != RESERVED || row.reviewId in s.reviews then (s, FinalizeConflict)
      else
        (s.(reviews := s.reviews[row.reviewId := Review(rec.owner.user, row.mode, call.now, false)],
            rows := s.rows[id := row.(status := ADMITTED)]),
         Finalized)
  }

  /** One run of the reservation script for a record. */
  function RunScript(cfg: Config, s: State, call: Call, id: Id, rec: Row): (State, R.Reply) {
    var k := KeyOf(rec);
    var (store, reply) :=
      R.Reserve(cfg.codec, StoreAt(s, k), Limit(cfg, rec.mode), TtlSeconds(call.now) * 1000, id, s.clock);
    var returned := reply.Tuple? && |reply.values| == 5 && reply.values[0] == R.RESERVED;
    (s.(stores := s.stores[k := store],
        granted := s.granted[k := GrantedAt(s.granted, k) + if returned then {id} else {}]),
     reply)
  }

  // ---------------------------------------------------------------- steps of one call

  datatype Fault = NoFault | FailsBefore | FailsAfter

  /** createIntent's comparison and the branch admit takes on the record. */
  function AfterIntent(call: Call, id: Id, row: Row): Pc {
    if row.fingerprint != call.fingerprint then Done(Conflict)
    else if row.mode != call.mode || row.day != DayOf(call.now) then Done(Conflict)
    else Rereading(id, row)
  }

  function Route(id: Id, row: Row): Pc {
    match row.status
    case PENDING => Reserving(id, row)
    case DENIED => Done(RateLimited)
    case RESERVED => Finalizing(id, row)
    case ADMITTED => Finalizing(id, row)
    case INDETERMINATE => Done(Unavailable)
    case RECONCILE_REQUIRED => Done(Unavailable)
  }

  function StepFinding(s: State, c: nat, call: Call, fault: Fault): State
    requires c in s.calls
  {
    if fault != NoFault then Goto(s, c, Marking(call.candidate, RECONCILE_REQUIRED, false))
    else if call.owner in s.byOwner && s.byOwner[call.owner] in s.rows then
      Goto(s, c, AfterIntent(call, s.byOwner[call.owner], s.rows[s.byOwner[call.owner]]))
    else Goto(s, c, Creating)
  }

  function NewRow(call: Call): Row {
    Row(call.owner, call.fingerprint, call.candidateReview, call.mode, DayOf(call.now), PENDING)
  }

  function StepCreating(s: State, c: nat, call: Call, fault: Fault): State
    requires c in s.calls
  {
    var row := NewRow(call);
    if fault == FailsBefore then Goto(s, c, Marking(call.candidate, RECONCILE_REQUIRED, false))
    else if UniqueViolation(s, call.candidate, row) then
      Goto(s, c, if fault == NoFault then RaceFinding else Marking(call.candidate, RECONCILE_REQUIRED, false))
    else
      Goto(Insert(s, call.candidate, row), c,
           if fault == NoFault then Reserving(call.candidate, row)
           else Marking(call.candidate, RECONCILE_REQUIRED, false))
  }

  function StepRaceFinding(s: State, c: nat, call: Call, fault: Fault): State
    requires c in s.calls
  {
    if fault != NoFault then Goto(s, c, Marking(call.candidate, RECONCILE_REQUIRED, false))
    else if call.owner in s.byOwner && s.byOwner[call.owner] in s.rows then
      Goto(s, c, AfterIntent(call, s.byOwner[call.owner], s.rows[s.byOwner[call.owner]]))
    else Goto(s, c, Done(Conflict))
  }

  function StepRereading(s: State, c: nat, call: Call, fault: Fault): State
    requires c in s.calls && call.pc.Rereading?
  {
    var id := call.pc.id;
    if fault != NoFault || id !in s.rows || s.rows[id].owner.user != call.owner.user
    then Goto(s, c, Marking(id, RECONCILE_REQUIRED, false))
    else Goto(s, c, Route(id, s.rows[id]))
  }

  function AfterScript(cfg: Config, id: Id, rec: Row, reply: R.Reply): Pc {
    match R.ParseReservation(reply, Limit(cfg, rec.mode), cfg.maxTtlSeconds)
    case None => Marking(id, INDETERMINATE, false)
    case Some(result) =>
      if result.outcome == R.RESERVED then Persisting(id, rec, RESERVED)
      else if result.outcome == R.DENIED then Persisting(id, rec, DENIED)
      else Marking(id, RECONCILE_REQUIRED, false)
  }

  /** getAdmissionParameters rejects a day that is not the caller's, and a TTL above the configured maximum. */
  predicate ParametersAccepted(cfg: Config, call: Call, rec: Row) {
    rec.day == DayOf(call.now) && TtlSeconds(call.now) <= cfg.maxTtlSeconds
  }

  /** The script runs, if it does, on the UTC day the call captured. */
  function StepReserving(cfg: Config, s: State, c: nat, call: Call, fault: Fault): State
    requires c in s.calls && call.pc.Reserving?
  {
    var (id, rec) := (call.pc.id, call.pc.rec);
    if fault == FailsBefore || !ParametersAccepted(cfg, call, rec) then Goto(s, c, Marking(id, INDETERMINATE, false))
    else if DayOf(s.clock) != DayOf(call.now) then s
    else
      var (s', reply) := RunScript(cfg, s, call, id, rec);
      Goto(s', c, if fault == NoFault then AfterScript(cfg, id, rec, reply) else Marking(id, INDETERMINATE, false))
  }

  /** What reservePending does with a persisted decision. */
  function AfterDecision(id: Id, row: Row, target: Status): Pc {
    if target == DENIED then Done(if row.status == DENIED then RateLimited else Unavailable) else Finalizing(id, row)
  }

  function StepPersisting(s: State, c: nat, call: Call, fault: Fault): State
    requires c in s.calls && call.pc.Persisting?
  {
    var (id, rec, target) := (call.pc.id, call.pc.rec, call.pc.target);
    if fault == FailsBefore then Goto(s, c, RaceRereading(id, rec, target))
    else
      var (s', reply) := Transition(s, call.owner.user, id, target);
      Goto(s', c, if fault == NoFault && reply.Updated? then AfterDecision(id, reply.row, target)
        else RaceRereading(id, rec, target))
  }

  function StepRaceRereading(s: State, c: nat, call: Call, fault: Fault): State
    requires c in s.calls && call.pc.RaceRereading?
  {
    var (id, target) := (call.pc.id, call.pc.target);
    if fault == NoFault && id in s.rows && s.rows[id].owner.user == call.owner.user
       && (s.rows[id].status == target || (target == RESERVED && s.rows[id].status == ADMITTED))
    then Goto(s, c, AfterDecision(id, s.rows[id], target))
    else Goto(s, c, Marking(id, RECONCILE_REQUIRED, false))
  }

  function AfterFinalize(id: Id, rec: Row, reply: FinalizeReply): Pc {
    match reply
    case Finalized => Done(Success(true, rec.reviewId))
    case Replayed => Done(Success(false, rec.reviewId))
    case FinalizeConflict => Done(Conflict)
    case FinalizeMissing => Done(NotFound)
    case FinalizeIndeterminate => Marking(id, RECONCILE_REQUIRED, false)
  }

  function StepFinalizing(s: State, c: nat, call: Call, fault: Fault): State
    requires c in s.calls && call.pc.Finalizing?
  {
    var (id, rec) := (call.pc.id, call.pc.rec);
    if fault == FailsBefore then Goto(s, c, Marking(id, RECONCILE_REQUIRED, false))
    else
      var (s', reply) := Finalize(s, call, id, rec);
      Goto(s', c, if fault == NoFault then AfterFinalize(id, rec, reply) else Marking(id, RECONCILE_REQUIRED, false))
  }

  /** markSafeStatus: the preferred status, then the other one, then give up; the caller sees Unavailable. */
  function StepMarking(s: State, c: nat, call: Call, fault: Fault): State
    requires c in s.calls && call.pc.Marking?
  {
    var Marking(id, preferred, fallback) := call.pc;
    var (s', reply) := if fault == FailsBefore then (s, Refused) else Transition(s, call.owner.user, id, preferred);
    if fallback || (fault == NoFault && reply.Updated?) then Goto(s', c, Done(Unavailable))
    else Goto(s', c, Marking(id, if preferred == INDETERMINATE then RECONCILE_REQUIRED else INDETERMINATE, true))
  }

  function StepCall(cfg: Config, s: State, c: nat, fault: Fault): State
    requires c in s.calls
  {
    var call := s.calls[c];
    match call.pc
    case Finding => StepFinding(s, c, call, fault)
    case Creating => StepCreating(s, c, call, fault)
    case RaceFinding => StepRaceFinding(s, c, call, fault)
    case Rereading(_, _) => StepRereading(s, c, call, fault)
    case Reserving(_, _) => StepReserving(cfg, s, c, call, fault)
    case Persisting(_, _, _) => StepPersisting(s, c, call, fault)
    case RaceRereading(_, _, _) => StepRaceRereading(s, c, call, fault)
    case Finalizing(_, _) => StepFinalizing(s, c, call, fault)
    case Marking(_, _, _) => StepMarking(s, c, call, fault)
    case Done(_) => s
  }

  // ---------------------------------------------------------------- runs

  datatype Move =
    | Tick(to: int)
    | Start(c: nat, owner: OwnerKey, fingerprint: nat, mode: Mode, candidate: Id, candidateReview: nat)
    | Advance(c: nat, fault: Fault)
    | Crash(c: nat)
    | DeleteReview(reviewId: nat)

  /** Candidate ids are freshly drawn, so they differ from everything drawn before. */
  predicate FreshCandidates(s: State, candidate: Id, candidateReview: nat) {
    && R.SafeId(candidate) && candidate !in s.rows && candidateReview !in s.byReview
    && forall c :: c in s.calls ==> s.calls[c].candidate != candidate && s.calls[c].candidateReview != candidateReview
  }

  /** One step; a step that is not possible in a state leaves it as it is. */
  function Step(cfg: Config, s: State, move: Move): State {
    match move
    case Tick(to) => if to >= s.clock then s.(clock := to) else s
    case Start(c, owner, fingerprint, mode, candidate, candidateReview) =>
      if c in s.calls || !FreshCandidates(s, candidate, candidateReview) then s
      else s.(calls := s.calls[c := Call(owner, fingerprint, mode, s.clock, candidate, candidateReview, Finding)])
    case Advance(c, fault) => if c in s.calls then StepCall(cfg, s, c, fault) else s
    case Crash(c) => if c in s.calls && !s.calls[c].pc.Done? then Goto(s, c, Done(Crashed)) else s
    case DeleteReview(r) => if r in s.reviews then s.(reviews := s.reviews[r := s.reviews[r].(deleted := true)]) else s
  }

  function Run(cfg: Config, clock: int, moves: seq<Move>): State {
    if moves == [] then Init(clock)
    else Step(cfg, Run(cfg, clock, moves[..|moves| - 1]), moves[|moves| - 1])
  }
}
