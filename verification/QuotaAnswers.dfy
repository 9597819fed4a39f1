/**
  What `admit` answers: the outcome and the rows of a call that runs without faults and without
  other moves in between, for every reachable state it can start from.
 */
module QuotaAnswers {
  import opened Utf16
  import opened UtcDay
  import opened QuotaAdmission
  import opened QuotaInvariant
  import opened QuotaSafety
  import R = RedisAdmission

  // ---------------------------------------------------------------- whose ids are where

  /**
    Markers belong to admission rows and record a decision; candidate review ids are drawn once and used
    by their own row.
   */
  ghost predicate Provenance(cfg: Config, s: State) {
    MarkersOwned(cfg, s.stores, s.rows) && ReviewIdsDrawnOnce(s.calls) && CandidatesOwn(s.calls, s.byReview)
  }

  ghost predicate MarkersOwned(cfg: Config, stores: map<QuotaKey, R.Store>, rows: map<Id, Row>) {
    forall k :: k in stores ==> StoreOwned(cfg, stores[k], rows)
  }

  ghost predicate StoreOwned(cfg: Config, store: R.Store, rows: map<Id, Row>) {
    forall id :: id in store.markers ==> id in rows && DecidedMarker(cfg, store.markers[id])
  }

  predicate DecidedMarker(cfg: Config, e: R.MarkerKey) {
    cfg.codec.parse(e.text).Some? && cfg.codec.parse(e.text).value.outcome in {R.RESERVED, R.DENIED}
  }

  ghost predicate ReviewIdsDrawnOnce(calls: map<nat, Call>) {
    forall c, d :: c in calls && d in calls && c != d ==> calls[c].candidateReview != calls[d].candidateReview
  }

  ghost predicate CandidatesOwn(calls: map<nat, Call>, byReview: map<nat, Id>) {
    forall c :: c in calls && calls[c].candidateReview in byReview ==>
      byReview[calls[c].candidateReview] == calls[c].candidate
  }

  lemma ReserveKeepsOwned(cfg: Config, store: R.Store, rows: map<Id, Row>, limit: nat, ttlMs: nat, id: Id, now: int)
    requires ValidConfig(cfg) && StoreOwned(cfg, store, rows) && id in rows && R.SafeId(id)
    ensures StoreOwned(cfg, R.Reserve(cfg.codec, store, limit, ttlMs, id, now).0, rows)
  {
    var m := R.ReservationMarker(store, limit, ttlMs, id, now);
    assert cfg.codec.parse(cfg.codec.format(m)) == Some(m);
  }

  lemma OneStoreOwned(cfg: Config, stores: map<QuotaKey, R.Store>, rows: map<Id, Row>, k: QuotaKey, store: R.Store)
    requires MarkersOwned(cfg, stores, rows) && StoreOwned(cfg, store, rows)
    ensures MarkersOwned(cfg, stores[k := store], rows)
  {
  }

  lemma ScriptKeepsMarkersOwned(cfg: Config, s: State, call: Call, id: Id, rec: Row)
    requires ValidConfig(cfg) && MarkersOwned(cfg, s.stores, s.rows) && id in s.rows && R.SafeId(id)
    ensures var t := RunScript(cfg, s, call, id, rec).0; MarkersOwned(cfg, t.stores, s.rows)
  {
    var (k, ttlMs) := (KeyOf(rec), TtlSeconds(call.now) * 1000);
    assert StoreOwned(cfg, StoreAt(s, k), s.rows);
    ReserveKeepsOwned(cfg, StoreAt(s, k), s.rows, Limit(cfg, rec.mode), ttlMs, id, s.clock);
    var store := R.Reserve(cfg.codec, StoreAt(s, k), Limit(cfg, rec.mode), ttlMs, id, s.clock).0;
    OneStoreOwned(cfg, s.stores, s.rows, k, store);
  }

  /** A step moves one call on, adds rows and at most its own review id, and leaves the Redis keys. */
  ghost predicate Moves(s: State, t: State, c: nat) {
    && c in s.calls && c in t.calls && t.calls == s.calls[c := s.calls[c].(pc := t.calls[c].pc)] &&
      s.rows.Keys <= t.rows.Keys
    && (t.byReview == s.byReview || t.byReview == s.byReview[s.calls[c].candidateReview := s.calls[c].candidate])
  }

  lemma GotoMoves(s: State, t: State, c: nat, pc: Pc)
    requires c in s.calls && t.calls == s.calls && s.rows.Keys <= t.rows.Keys
    requires t.byReview == s.byReview || t.byReview == s.byReview[s.calls[c].candidateReview := s.calls[c].candidate]
    ensures Moves(s, Goto(t, c, pc), c) && Goto(t, c, pc).stores == t.stores
  {
  }

  lemma FindMoves(s: State, c: nat, fault: Fault)
    requires c in s.calls
    ensures var t := StepFinding(s, c, s.calls[c], fault); Moves(s, t, c) && t.stores == s.stores
    ensures var t := StepRaceFinding(s, c, s.calls[c], fault); Moves(s, t, c) && t.stores == s.stores
  {
    GotoMoves(s, s, c, StepFinding(s, c, s.calls[c], fault).calls[c].pc);
    GotoMoves(s, s, c, StepRaceFinding(s, c, s.calls[c], fault).calls[c].pc);
  }

  lemma CreateMoves(s: State, c: nat, fault: Fault)
    requires c in s.calls
    ensures var t := StepCreating(s, c, s.calls[c], fault); Moves(s, t, c) && t.stores == s.stores
  {
    var t := StepCreating(s, c, s.calls[c], fault);
    GotoMoves(s, s, c, t.calls[c].pc);
    GotoMoves(s, Insert(s, s.calls[c].candidate, NewRow(s.calls[c])), c, t.calls[c].pc);
  }

  lemma RereadMoves(s: State, c: nat, fault: Fault)
    requires c in s.calls && s.calls[c].pc.Rereading?
    ensures var t := StepRereading(s, c, s.calls[c], fault); Moves(s, t, c) && t.stores == s.stores
  {
    GotoMoves(s, s, c, StepRereading(s, c, s.calls[c], fault).calls[c].pc);
  }

  lemma RaceRereadMoves(s: State, c: nat, fault: Fault)
    requires c in s.calls && s.calls[c].pc.RaceRereading?
    ensures var t := StepRaceRereading(s, c, s.calls[c], fault); Moves(s, t, c) && t.stores == s.stores
  {
    GotoMoves(s, s, c, StepRaceRereading(s, c, s.calls[c], fault).calls[c].pc);
  }

  lemma TransitionMoves(s: State, user: nat, id: Id, to: Status)
    ensures var t := Transition(s, user, id, to).0; t == s.(rows := t.rows) && t.rows.Keys == s.rows.Keys
  {
  }

  lemma PersistMoves(s: State, c: nat, fault: Fault)
    requires c in s.calls && s.calls[c].pc.Persisting?
    ensures var t := StepPersisting(s, c, s.calls[c], fault); Moves(s, t, c) && t.stores == s.stores
  {
    var t := StepPersisting(s, c, s.calls[c], fault);
    TransitionMoves(s, s.calls[c].owner.user, s.calls[c].pc.id, s.calls[c].pc.target);
    GotoMoves(s, s, c, t.calls[c].pc);
    GotoMoves(s, Transition(s, s.calls[c].owner.user, s.calls[c].pc.id, s.calls[c].pc.target).0, c, t.calls[c].pc);
  }

  lemma MarkMoves(s: State, c: nat, fault: Fault)
    requires c in s.calls && s.calls[c].pc.Marking?
    ensures var t := StepMarking(s, c, s.calls[c], fault); Moves(s, t, c) && t.stores == s.stores
  {
    var t := StepMarking(s, c, s.calls[c], fault);
    TransitionMoves(s, s.calls[c].owner.user, s.calls[c].pc.id, s.calls[c].pc.preferred);
    GotoMoves(s, s, c, t.calls[c].pc);
    GotoMoves(s, Transition(s, s.calls[c].owner.user, s.calls[c].pc.id, s.calls[c].pc.preferred).0, c, t.calls[c].pc);
  }

  lemma FinalizeMovesRows(s: State, call: Call, id: Id, rec: Row)
    ensures var t := Finalize(s, call, id, rec).0;
      t == s.(rows := t.rows, reviews := t.reviews) && t.rows.Keys == s.rows.Keys
  {
  }

  lemma FinalizeMoves(s: State, c: nat, fault: Fault)
    requires c in s.calls && s.calls[c].pc.Finalizing?
    ensures var t := StepFinalizing(s, c, s.calls[c], fault); Moves(s, t, c) && t.stores == s.stores
  {
    var t := StepFinalizing(s, c, s.calls[c], fault);
    FinalizeMovesRows(s, s.calls[c], s.calls[c].pc.id, s.calls[c].pc.rec);
    GotoMoves(s, s, c, t.calls[c].pc);
    GotoMoves(s, Finalize(s, s.calls[c], s.calls[c].pc.id, s.calls[c].pc.rec).0, c, t.calls[c].pc);
  }

  lemma ScriptMoves(cfg: Config, s: State, c: nat, fault: Fault)
    requires ValidConfig(cfg) && MarkersOwned(cfg, s.stores, s.rows) && c in s.calls && CallOk(s, s.calls[c])
    requires Indexed(s.rows, s.byOwner, s.byReview) && s.calls[c].pc.Reserving?
    ensures var t := StepReserving(cfg, s, c, s.calls[c], fault); Moves(s, t, c) && MarkersOwned(cfg, t.stores, t.rows)
  {
    var (call, t) := (s.calls[c], StepReserving(cfg, s, c, s.calls[c], fault));
    if fault == FailsBefore || !ParametersAccepted(cfg, call, call.pc.rec) || DayOf(s.clock) != DayOf(call.now) {
      GotoMoves(s, s, c, t.calls[c].pc);
    } else {
      ScriptKeepsMarkersOwned(cfg, s, call, call.pc.id, call.pc.rec);
      ScriptKeepsRows(cfg, s, call, call.pc.id, call.pc.rec);
      GotoMoves(s, RunScript(cfg, s, call, call.pc.id, call.pc.rec).0, c, t.calls[c].pc);
    }
  }

  lemma ScriptKeepsRows(cfg: Config, s: State, call: Call, id: Id, rec: Row)
    ensures var t := RunScript(cfg, s, call, id, rec).0; t == s.(stores := t.stores, granted := t.granted)
  {
  }

  lemma OtherMoves(cfg: Config, s: State, c: nat, fault: Fault)
    requires c in s.calls && !s.calls[c].pc.Reserving?
    ensures var t := StepCall(cfg, s, c, fault); Moves(s, t, c) && t.stores == s.stores
  {
    match s.calls[c].pc
    case Finding => FindMoves(s, c, fault);
    case Creating => CreateMoves(s, c, fault);
    case RaceFinding => FindMoves(s, c, fault);
    case Rereading(_, _) => RereadMoves(s, c, fault);
    case Persisting(_, _, _) => PersistMoves(s, c, fault);
    case RaceRereading(_, _, _) => RaceRereadMoves(s, c, fault);
    case Finalizing(_, _) => FinalizeMoves(s, c, fault);
    case Marking(_, _, _) => MarkMoves(s, c, fault);
    case Done(_) =>
  }

  lemma MovesKeepProvenance(cfg: Config, s: State, t: State, c: nat)
    requires Provenance(cfg, s) && Moves(s, t, c) && MarkersOwned(cfg, t.stores, t.rows)
    ensures Provenance(cfg, t)
  {
  }

  lemma MoreRowsOwn(cfg: Config, stores: map<QuotaKey, R.Store>, rows: map<Id, Row>, more: map<Id, Row>)
    requires MarkersOwned(cfg, stores, rows) && rows.Keys <= more.Keys
    ensures MarkersOwned(cfg, stores, more)
  {
  }

  lemma AdvanceKeepsProvenance(cfg: Config, s: State, c: nat, fault: Fault)
    requires ValidConfig(cfg) && Inv(cfg, s) && Provenance(cfg, s) && c in s.calls
    ensures Provenance(cfg, StepCall(cfg, s, c, fault))
  {
    var t := StepCall(cfg, s, c, fault);
    if s.calls[c].pc.Reserving? {
      ScriptMoves(cfg, s, c, fault);
    } else {
      OtherMoves(cfg, s, c, fault);
      MoreRowsOwn(cfg, s.stores, s.rows, t.rows);
    }
    MovesKeepProvenance(cfg, s, t, c);
  }

  lemma StepKeepsProvenance(cfg: Config, s: State, move: Move)
    requires ValidConfig(cfg) && Inv(cfg, s) && Provenance(cfg, s)
    ensures Provenance(cfg, Step(cfg, s, move))
  {
    match move
    case Advance(c, fault) => if c in s.calls { AdvanceKeepsProvenance(cfg, s, c, fault); }
    case Start(c, _, _, _, _, _) => StartKeepsProvenance(cfg, s, move);
    case Crash(c) => if c in s.calls { GotoKeepsProvenance(cfg, s, c, Done(Crashed)); }
    case _ =>
  }

  lemma GotoKeepsProvenance(cfg: Config, s: State, c: nat, pc: Pc)
    requires Provenance(cfg, s) && c in s.calls
    ensures Provenance(cfg, Goto(s, c, pc))
  {
    GotoMoves(s, s, c, pc);
    MovesKeepProvenance(cfg, s, Goto(s, c, pc), c);
  }

  lemma StartKeepsProvenance(cfg: Config, s: State, move: Move)
    requires Provenance(cfg, s) && move.Start?
    ensures Provenance(cfg, Step(cfg, s, move))
  {
    var Start(c, owner, fingerprint, mode, candidate, review) := move;
    if c !in s.calls && FreshCandidates(s, candidate, review) {
      NewCallDraws(s, c, Call(owner, fingerprint, mode, s.clock, candidate, review, Finding));
    }
  }

  lemma NewCallDraws(s: State, c: nat, call: Call)
    requires ReviewIdsDrawnOnce(s.calls) && CandidatesOwn(s.calls, s.byReview) && c !in s.calls
    requires FreshCandidates(s, call.candidate, call.candidateReview)
    ensures ReviewIdsDrawnOnce(s.calls[c := call]) && CandidatesOwn(s.calls[c := call], s.byReview)
  {
  }

  lemma {:induction false} EveryRunHasProvenance(cfg: Config, clock: int, moves: seq<Move>)
    requires ValidConfig(cfg)
    ensures Inv(cfg, Run(cfg, clock, moves)) && Provenance(cfg, Run(cfg, clock, moves))
  {
    EveryRunSatisfiesInv(cfg, clock, moves);
    if moves != [] {
      EveryRunHasProvenance(cfg, clock, moves[..|moves| - 1]);
      StepKeepsProvenance(cfg, Run(cfg, clock, moves[..|moves| - 1]), moves[|moves| - 1]);
    }
  }

  // ---------------------------------------------------------------- undisturbed steps

  function StepAll(cfg: Config, s: State, moves: seq<Move>): State
    decreases |moves|
  {
    if moves == [] then s else StepAll(cfg, Step(cfg, s, moves[0]), moves[1..])
  }

  lemma {:induction false} RunAppends(cfg: Config, clock: int, moves: seq<Move>, move: Move)
    ensures Run(cfg, clock, moves + [move]) == Step(cfg, Run(cfg, clock, moves), move)
  {
    assert (moves + [move])[..|moves|] == moves;
  }

  lemma {:induction false} RunConcat(cfg: Config, clock: int, moves: seq<Move>, more: seq<Move>)
    ensures Run(cfg, clock, moves + more) == StepAll(cfg, Run(cfg, clock, moves), more)
    decreases |more|
  {
    if more == [] {
      assert moves + more == moves;
    } else {
      RunAppends(cfg, clock, moves, more[0]);
      RunConcat(cfg, clock, moves + [more[0]], more[1..]);
      assert moves + more == moves + [more[0]] + more[1..];
    }
  }

  function Advances(c: nat, n: nat): seq<Move> {
    if n == 0 then [] else [Advance(c, NoFault)] + Advances(c, n - 1)
  }

  /** A call advanced n times without faults and without other moves. */
  function After(cfg: Config, s: State, c: nat, n: nat): State {
    StepAll(cfg, s, Advances(c, n))
  }

  lemma {:induction false} AfterFirst(cfg: Config, s: State, c: nat, n: nat, t: State)
    requires n > 0 && t == Step(cfg, s, Advance(c, NoFault))
    ensures After(cfg, s, c, n) == After(cfg, t, c, n - 1)
  {
    assert Advances(c, n)[1..] == Advances(c, n - 1);
  }

  lemma {:induction false} AfterNone(cfg: Config, s: State, c: nat)
    ensures After(cfg, s, c, 0) == s
  {
  }

  lemma {:induction false} DoneStays(cfg: Config, s: State, c: nat, n: nat)
    requires c in s.calls && s.calls[c].pc.Done?
    ensures After(cfg, s, c, n) == s
    decreases n
  {
    if n > 0 {
      DoneStays(cfg, s, c, n - 1);
      AfterFirst(cfg, s, c, n, s);
    }
  }

  lemma {:induction false} OneMore(cfg: Config, s: State, c: nat, n: nat)
    requires n > 0 && c in s.calls
    ensures After(cfg, s, c, n) == After(cfg, StepCall(cfg, s, c, NoFault), c, n - 1)
    ensures After(cfg, s, c, 1) == StepCall(cfg, s, c, NoFault)
  {
    AfterFirst(cfg, s, c, n, StepCall(cfg, s, c, NoFault));
    AfterFirst(cfg, s, c, 1, StepCall(cfg, s, c, NoFault));
    AfterNone(cfg, StepCall(cfg, s, c, NoFault), c);
  }

  /** One undisturbed step keeps all that is known. */
  lemma {:induction false} StepOn(cfg: Config, s: State, c: nat, n: nat) returns (t: State)
    requires ValidConfig(cfg) && Inv(cfg, s) && Provenance(cfg, s) && c in s.calls && n > 0
    ensures t == StepCall(cfg, s, c, NoFault) && Inv(cfg, t) && Provenance(cfg, t)
    ensures After(cfg, s, c, n) == After(cfg, t, c, n - 1)
  {
    t := Step(cfg, s, Advance(c, NoFault));
    StepKeepsInv(cfg, s, Advance(c, NoFault));
    StepKeepsProvenance(cfg, s, Advance(c, NoFault));
    OneMore(cfg, s, c, n);
  }

  // ---------------------------------------------------------------- the possible answers

  /** The call reports CREATED, and its review is stored as it asked. */
  predicate CreatesReview(t: State, c: nat, call: Call, id: Id, reviewId: nat) {
    && c in t.calls && t.calls[c].pc == Done(Success(true, reviewId))
    && reviewId in t.reviews && t.reviews[reviewId] == Review(call.owner.user, call.mode, call.now, false)
    && id in t.rows && t.rows[id].status == ADMITTED && t.rows[id].reviewId == reviewId
  }

  predicate Denies(t: State, c: nat, id: Id) {
    && c in t.calls && t.calls[c].pc == Done(RateLimited) && id in t.rows && t.rows[id].status == DENIED
  }

  /** The call answers and changes nothing but its own place. */
  predicate JustAnswers(s: State, t: State, c: nat, outcome: Outcome) {
    c in t.calls && t.calls[c].pc == Done(outcome) && t == s.(calls := t.calls)
  }

  /** The daily limit of a mode. */
  predicate IsLimit(cfg: Config, mode: Mode, limit: nat) {
    && (mode == QUICK ==> limit == cfg.quick)
    && (mode == STANDARD ==> limit == cfg.standard)
    && (mode == DEEP ==> limit == cfg.deep)
  }

  /** The transaction on a row that the call holds. */
  lemma FinalizeAnswers(s: State, call: Call, id: Id, rec: Row)
    requires Accounted(s.rows, s.reviews, s.byReview) && Indexed(s.rows, s.byOwner, s.byReview)
    requires HoldsRecord(s.rows, call, id, rec)
    ensures s.rows[id].status == RESERVED ==>
      var (t, reply) := Finalize(s, call, id, rec);
      && reply == Finalized && t.calls == s.calls && rec.reviewId in t.reviews
      && t.reviews[rec.reviewId] == Review(call.owner.user, call.mode, call.now, false)
      && id in t.rows && t.rows[id] == s.rows[id].(status := ADMITTED)
    ensures s.rows[id].status == ADMITTED ==>
      && rec.reviewId in s.reviews
      && Finalize(s, call, id, rec) ==
        (s, if s.reviews[rec.reviewId].deleted then FinalizeIndeterminate else Replayed)
  {
  }

  lemma FinalizingStep(cfg: Config, s: State, c: nat, t: State, reply: FinalizeReply)
    requires c in s.calls && s.calls[c].pc.Finalizing? && c in t.calls
    requires Finalize(s, s.calls[c], s.calls[c].pc.id, s.calls[c].pc.rec) == (t, reply)
    ensures StepCall(cfg, s, c, NoFault) == Goto(t, c, AfterFinalize(s.calls[c].pc.id, s.calls[c].pc.rec, reply))
  {
  }

  /** What a call needs to know for its transaction. */
  ghost predicate ReadyToFinalize(s: State, c: nat) {
    && c in s.calls && s.calls[c].pc.Finalizing?
    && Accounted(s.rows, s.reviews, s.byReview) && Indexed(s.rows, s.byOwner, s.byReview)
    && HoldsRecord(s.rows, s.calls[c], s.calls[c].pc.id, s.calls[c].pc.rec)
  }

  lemma FinalizingIsReady(cfg: Config, s: State, c: nat)
    requires Inv(cfg, s) && c in s.calls && s.calls[c].pc.Finalizing?
    ensures ReadyToFinalize(s, c)
  {
    assert CallOk(s, s.calls[c]);
  }

  lemma FinalizesReserved(cfg: Config, s: State, c: nat)
    requires ReadyToFinalize(s, c) && s.rows[s.calls[c].pc.id].status == RESERVED
    ensures CreatesReview(StepCall(cfg, s, c, NoFault), c, s.calls[c], s.calls[c].pc.id, s.calls[c].pc.rec.reviewId)
  {
    var (call, id, rec) := (s.calls[c], s.calls[c].pc.id, s.calls[c].pc.rec);
    FinalizeAnswers(s, call, id, rec);
    FinalizingStep(cfg, s, c, Finalize(s, call, id, rec).0, Finalized);
  }

  lemma FinalizesAdmitted(cfg: Config, s: State, c: nat)
    requires ReadyToFinalize(s, c) && s.rows[s.calls[c].pc.id].status == ADMITTED
    ensures var (id, reviewId) := (s.calls[c].pc.id, s.calls[c].pc.rec.reviewId);
      && reviewId in s.reviews
      && StepCall(cfg, s, c, NoFault) ==
        Goto(s, c, if s.reviews[reviewId].deleted then Marking(id, RECONCILE_REQUIRED, false)
          else Done(Success(false, reviewId)))
  {
    var (call, id, rec) := (s.calls[c], s.calls[c].pc.id, s.calls[c].pc.rec);
    FinalizeAnswers(s, call, id, rec);
    FinalizingStep(cfg, s, c, s, Finalize(s, call, id, rec).1);
  }

  /** The durable write of a decision, and what follows it. */
  lemma PersistsPending(cfg: Config, s: State, c: nat)
    requires Inv(cfg, s) && c in s.calls && s.calls[c].pc.Persisting?
    requires s.calls[c].pc.id in s.rows && s.rows[s.calls[c].pc.id].status == PENDING
    ensures var (id, rec, target, t) :=
        (s.calls[c].pc.id, s.calls[c].pc.rec, s.calls[c].pc.target, StepCall(cfg, s, c, NoFault));
      && c in t.calls && t.calls[c] == s.calls[c].(pc := t.calls[c].pc)
      && id in t.rows && t.rows[id] == s.rows[id].(status := target)
      && (target == DENIED ==> Denies(t, c, id))
      && (target == RESERVED ==> t.calls[c].pc == Finalizing(id, t.rows[id]) && t.rows[id].reviewId == rec.reviewId)
  {
    assert CallOk(s, s.calls[c]);
  }

  lemma {:induction false} DecisionIsAnswered(cfg: Config, s: State, c: nat)
    requires ValidConfig(cfg) && Inv(cfg, s) && c in s.calls && s.calls[c].pc.Persisting?
    requires s.calls[c].pc.id in s.rows && s.rows[s.calls[c].pc.id].status == PENDING
    ensures var (id, rec, target, t) :=
      (s.calls[c].pc.id, s.calls[c].pc.rec, s.calls[c].pc.target, After(cfg, s, c, 2));
      && (target == RESERVED ==> CreatesReview(t, c, s.calls[c], id, rec.reviewId))
      && (target == DENIED ==> Denies(t, c, id))
  {
    var t := StepCall(cfg, s, c, NoFault);
    assert t == Step(cfg, s, Advance(c, NoFault));
    StepKeepsInv(cfg, s, Advance(c, NoFault));
    PersistsPending(cfg, s, c);
    OneMore(cfg, s, c, 2);
    if s.calls[c].pc.target == RESERVED {
      FinalizingIsReady(cfg, t, c);
      FinalizesReserved(cfg, t, c);
      OneMore(cfg, t, c, 1);
    } else if s.calls[c].pc.target == DENIED {
      DoneStays(cfg, t, c, 1);
    }
  }

  /** The script grants an id it has granted before, or a new one below the limit. */
  predicate Grants(s: State, k: QuotaKey, id: Id, limit: nat) {
    id in GrantedAt(s.granted, k) || (id !in StoreAt(s, k).markers && |GrantedAt(s.granted, k)| < limit)
  }

  /** The reply passes the result checks and says RESERVED or DENIED. */
  predicate Decides(reply: R.Reply, limit: nat, maxTtlSeconds: nat, granted: bool) {
    var parsed := R.ParseReservation(reply, limit, maxTtlSeconds);
    parsed.Some? && parsed.value.outcome == if granted then R.RESERVED else R.DENIED
  }

  lemma DecidedNext(cfg: Config, id: Id, rec: Row, reply: R.Reply, granted: bool)
    requires Decides(reply, Limit(cfg, rec.mode), cfg.maxTtlSeconds, granted)
    ensures AfterScript(cfg, id, rec, reply) == Persisting(id, rec, if granted then RESERVED else DENIED)
  {
  }

  lemma ScriptDecides(cfg: Config, s: State, call: Call, id: Id, rec: Row, limit: nat)
    requires ValidConfig(cfg) && Inv(cfg, s) && Provenance(cfg, s) && HoldsRecord(s.rows, call, id, rec)
    requires ParametersAccepted(cfg, call, rec) && call.now <= s.clock && DayOf(s.clock) == DayOf(call.now)
    requires IsLimit(cfg, rec.mode, limit)
    ensures Decides(RunScript(cfg, s, call, id, rec).1, Limit(cfg, rec.mode), cfg.maxTtlSeconds,
                    Grants(s, KeyOf(rec), id, limit))
  {
    var k := KeyOf(rec);
    var store := StoreAt(s, k);
    KeySoundHere(cfg, s, k);
    TtlReachesMidnight(call.now, s.clock);
    KeyDecides(cfg, s, k, store, GrantedAt(s.granted, k), id, TtlSeconds(call.now));
    assert Limit(cfg, rec.mode) == limit;
  }

  lemma KeyDecides(cfg: Config, s: State, k: QuotaKey, store: R.Store, granted: set<Id>, id: Id, ttlSeconds: nat)
    requires ValidConfig(cfg) && KeySound(cfg, s.clock, k, store, granted) && StoreOwned(cfg, store, s.rows)
    requires R.SafeId(id) && 1 <= ttlSeconds <= cfg.maxTtlSeconds && s.clock < Midnight(k.day)
    ensures var limit := Limit(cfg, k.mode);
      Decides(R.Reserve(cfg.codec, store, limit, ttlSeconds * 1000, id, s.clock).1, limit, cfg.maxTtlSeconds,
              id in granted || (id !in store.markers && |granted| < limit))
  {
    LiveGrantsAreAll(cfg.codec, store, Midnight(k.day), s.clock);
    if R.MarkerLive(store, id, s.clock) {
      ReplayDecides(cfg, store, Limit(cfg, k.mode), ttlSeconds * 1000, id, s.clock);
    } else {
      DeadIsAbsent(store, id, s.clock, Midnight(k.day));
      FreshDecides(cfg, store, Limit(cfg, k.mode), ttlSeconds, id, s.clock);
    }
  }

  /** A live marker is replayed. */
  lemma ReplayDecides(cfg: Config, store: R.Store, limit: nat, ttlMs: nat, id: Id, now: int)
    requires R.Coherent(cfg.codec, store, limit, cfg.maxTtlSeconds, now) && limit <= 100_000
    requires ValidConfig(cfg) && R.MarkerLive(store, id, now) && DecidedMarker(cfg, store.markers[id])
    ensures Decides(R.Reserve(cfg.codec, store, limit, ttlMs, id, now).1, limit, cfg.maxTtlSeconds,
                    id in Marked(cfg.codec, store))
  {
    assert R.SoundMarker(cfg.codec, id, store.markers[id], limit, cfg.maxTtlSeconds, now);
    R.MarkerReplyAccepted(cfg.codec.parse(store.markers[id].text).value, limit, cfg.maxTtlSeconds, 1);
  }

  /** A new id is granted below the limit. */
  lemma FreshDecides(cfg: Config, store: R.Store, limit: nat, ttlSeconds: nat, id: Id, now: int)
    requires ValidConfig(cfg) && R.SafeId(id) && !R.MarkerLive(store, id, now) && limit <= 100_000
    requires R.Coherent(cfg.codec, store, limit, cfg.maxTtlSeconds, now) && 1 <= ttlSeconds <= cfg.maxTtlSeconds
    ensures Decides(R.Reserve(cfg.codec, store, limit, ttlSeconds * 1000, id, now).1, limit, cfg.maxTtlSeconds,
                    |R.Granted(cfg.codec, store, now)| < limit)
  {
    R.ReservationFigures(cfg.codec, store, limit, cfg.maxTtlSeconds, ttlSeconds, id, now);
    R.MarkerReplyAccepted(R.ReservationMarker(store, limit, ttlSeconds * 1000, id, now), limit, cfg.maxTtlSeconds, 0);
  }

  lemma PendingIsDecided(cfg: Config, s: State, c: nat, limit: nat)
    requires ValidConfig(cfg) && Inv(cfg, s) && Provenance(cfg, s) && c in s.calls && s.calls[c].pc.Reserving?
    requires DayOf(s.clock) == DayOf(s.calls[c].now) && TtlSeconds(s.calls[c].now) <= cfg.maxTtlSeconds
    requires IsLimit(cfg, s.calls[c].mode, limit)
    ensures var (id, rec, t) := (s.calls[c].pc.id, s.calls[c].pc.rec, StepCall(cfg, s, c, NoFault));
      && c in t.calls && t.rows == s.rows
      && t.calls[c] ==
           s.calls[c].(pc := Persisting(id, rec, if Grants(s, KeyOf(rec), id, limit) then RESERVED else DENIED))
  {
    var (call, id, rec) := (s.calls[c], s.calls[c].pc.id, s.calls[c].pc.rec);
    assert CallOk(s, call);
    ScriptDecides(cfg, s, call, id, rec, limit);
    DecidedNext(cfg, id, rec, RunScript(cfg, s, call, id, rec).1, Grants(s, KeyOf(rec), id, limit));
    ReservingStep(cfg, s, c);
  }

  lemma {:induction false} PendingIsAnswered(cfg: Config, s: State, c: nat, limit: nat)
    requires ValidConfig(cfg) && Inv(cfg, s) && Provenance(cfg, s) && c in s.calls && s.calls[c].pc.Reserving?
    requires s.calls[c].pc.id in s.rows && s.rows[s.calls[c].pc.id].status == PENDING
    requires DayOf(s.clock) == DayOf(s.calls[c].now) && TtlSeconds(s.calls[c].now) <= cfg.maxTtlSeconds
    requires IsLimit(cfg, s.calls[c].mode, limit)
    ensures var (call, id, rec, t) := (s.calls[c], s.calls[c].pc.id, s.calls[c].pc.rec, After(cfg, s, c, 3));
      if Grants(s, KeyOf(rec), id, limit) then CreatesReview(t, c, call, id, rec.reviewId) else Denies(t, c, id)
  {
    PendingIsDecided(cfg, s, c, limit);
    var t := StepOn(cfg, s, c, 3);
    DecisionIsAnswered(cfg, t, c);
  }

  lemma ReservingStep(cfg: Config, s: State, c: nat)
    requires c in s.calls && s.calls[c].pc.Reserving? && DayOf(s.clock) == DayOf(s.calls[c].now)
    requires ParametersAccepted(cfg, s.calls[c], s.calls[c].pc.rec)
    ensures var (call, id, rec) := (s.calls[c], s.calls[c].pc.id, s.calls[c].pc.rec);
      var (t, reply) := RunScript(cfg, s, call, id, rec);
      && c in t.calls && t == s.(stores := t.stores, granted := t.granted)
      && StepCall(cfg, s, c, NoFault) == Goto(t, c, AfterScript(cfg, id, rec, reply))
  {
  }

  // ---------------------------------------------------------------- a new idempotency key

  lemma FreshIdsAreUnused(cfg: Config, s: State, c: nat)
    requires Inv(cfg, s) && Provenance(cfg, s) && c in s.calls && s.calls[c].owner !in s.byOwner
    ensures !UniqueViolation(s, s.calls[c].candidate, NewRow(s.calls[c]))
  {
    assert CallOk(s, s.calls[c]);
  }

  lemma CreatingStep(cfg: Config, s: State, c: nat)
    requires c in s.calls && s.calls[c].pc == Creating
    requires !UniqueViolation(s, s.calls[c].candidate, NewRow(s.calls[c]))
    ensures var (call, row) := (s.calls[c], NewRow(s.calls[c]));
      StepCall(cfg, s, c, NoFault) == Goto(Insert(s, call.candidate, row), c, Reserving(call.candidate, row))
  {
  }

  /** A new id has no marker, so only the count decides. */
  lemma NewIdGrants(cfg: Config, s: State, k: QuotaKey, id: Id, limit: nat)
    requires ValidConfig(cfg) && Inv(cfg, s) && Provenance(cfg, s) && id !in s.rows && DayOf(s.clock) == k.day
    ensures Grants(s, k, id, limit) <==> R.CounterValue(StoreAt(s, k), s.clock) < limit
  {
    KeySoundHere(cfg, s, k);
    DayBounds(s.clock);
    LiveGrantsAreAll(cfg.codec, StoreAt(s, k), Midnight(k.day), s.clock);
    assert StoreOwned(cfg, StoreAt(s, k), s.rows);
  }

  lemma {:induction false} NewKeyIsAnswered(cfg: Config, s: State, c: nat, limit: nat)
    requires ValidConfig(cfg) && Inv(cfg, s) && Provenance(cfg, s) && c in s.calls && s.calls[c].pc == Creating
    requires s.calls[c].owner !in s.byOwner && IsLimit(cfg, s.calls[c].mode, limit)
    requires DayOf(s.clock) == DayOf(s.calls[c].now) && TtlSeconds(s.calls[c].now) <= cfg.maxTtlSeconds
    ensures FirstIsAnswered(s, After(cfg, s, c, 4), c, limit)
  {
    var (call, row) := (s.calls[c], NewRow(s.calls[c]));
    FreshIdsAreUnused(cfg, s, c);
    CreatingStep(cfg, s, c);
    NewIdGrants(cfg, s, KeyOf(row), call.candidate, limit);
    var t := StepOn(cfg, s, c, 4);
    PendingIsAnswered(cfg, t, c, limit);
    SameGrants(s, t, KeyOf(row), call.candidate, limit);
  }

  lemma SameGrants(s: State, t: State, k: QuotaKey, id: Id, limit: nat)
    requires t.stores == s.stores && t.granted == s.granted
    ensures Grants(t, k, id, limit) == Grants(s, k, id, limit)
  {
  }

  /** A first request: created while the day's live counter is below the limit, and denied at the limit. */
  predicate FirstIsAnswered(s: State, t: State, c: nat, limit: nat)
    requires c in s.calls
  {
    var call := s.calls[c];
    var used := R.CounterValue(StoreAt(s, QuotaKey(call.owner.user, call.mode, DayOf(call.now))), s.clock);
    if used < limit then CreatesReview(t, c, call, call.candidate, call.candidateReview)
    else Denies(t, c, call.candidate)
  }

  // ---------------------------------------------------------------- a known idempotency key

  /** What the reread record decides. */
  predicate RowIsAnswered(s: State, t: State, c: nat, id: Id, limit: nat)
    requires c in s.calls && id in s.rows
  {
    var (call, row) := (s.calls[c], s.rows[id]);
    match row.status
    case PENDING =>
      if Grants(s, KeyOf(row), id, limit) then CreatesReview(t, c, call, id, row.reviewId) else Denies(t, c, id)
    case RESERVED => CreatesReview(t, c, call, id, row.reviewId)
    case ADMITTED =>
      && row.reviewId in s.reviews
      && JustAnswers(s, t, c, if s.reviews[row.reviewId].deleted then Unavailable else Success(false, row.reviewId))
    case DENIED => JustAnswers(s, t, c, RateLimited)
    case _ => JustAnswers(s, t, c, Unavailable)
  }

  /** A repeated request is answered from its row, and one that differs conflicts. */
  predicate RepeatIsAnswered(s: State, t: State, c: nat, limit: nat)
    requires c in s.calls && s.calls[c].owner in s.byOwner && s.byOwner[s.calls[c].owner] in s.rows
  {
    var (call, id) := (s.calls[c], s.byOwner[s.calls[c].owner]);
    var row := s.rows[id];
    if row.fingerprint != call.fingerprint || row.mode != call.mode || row.day != DayOf(call.now)
    then JustAnswers(s, t, c, Conflict)
    else RowIsAnswered(s, t, c, id, limit)
  }

  lemma JustMoved(s: State, c: nat, pc: Pc, t: State, outcome: Outcome)
    requires c in s.calls && JustAnswers(Goto(s, c, pc), t, c, outcome)
    ensures JustAnswers(s, t, c, outcome)
  {
  }

  lemma RefusedMark(cfg: Config, s: State, c: nat)
    requires c in s.calls && s.calls[c].pc.Marking? && s.calls[c].pc.preferred in {INDETERMINATE, RECONCILE_REQUIRED}
    requires s.calls[c].pc.id in s.rows && s.rows[s.calls[c].pc.id].status == ADMITTED
    ensures var Marking(id, preferred, fallback) := s.calls[c].pc;
      StepCall(cfg, s, c, NoFault) == Goto(s, c, if fallback then Done(Unavailable)
        else Marking(id, if preferred == INDETERMINATE then RECONCILE_REQUIRED else INDETERMINATE, true))
  {
  }

  /** An ADMITTED row whose review is gone keeps its status: both safe statuses are refused. */
  lemma {:induction false} RefusedMarksEnd(cfg: Config, s: State, c: nat)
    requires c in s.calls && s.calls[c].pc.Marking? && s.calls[c].pc.preferred == RECONCILE_REQUIRED
    requires !s.calls[c].pc.fallback && s.calls[c].pc.id in s.rows && s.rows[s.calls[c].pc.id].status == ADMITTED
    ensures JustAnswers(s, After(cfg, s, c, 2), c, Unavailable)
  {
    RefusedMark(cfg, s, c);
    OneMore(cfg, s, c, 2);
    var t := StepCall(cfg, s, c, NoFault);
    RefusedMark(cfg, t, c);
    OneMore(cfg, t, c, 1);
  }

  lemma {:induction false} AdmittedIsAnswered(cfg: Config, s: State, c: nat)
    requires ReadyToFinalize(s, c) && s.rows[s.calls[c].pc.id].status == ADMITTED
    ensures var reviewId := s.calls[c].pc.rec.reviewId;
      && reviewId in s.reviews
      && JustAnswers(s, After(cfg, s, c, 3), c,
                     if s.reviews[reviewId].deleted then Unavailable else Success(false, reviewId))
  {
    FinalizesAdmitted(cfg, s, c);
    OneMore(cfg, s, c, 3);
    var t := StepCall(cfg, s, c, NoFault);
    if t.calls[c].pc.Marking? {
      RefusedMarksEnd(cfg, t, c);
      JustMoved(s, c, t.calls[c].pc, After(cfg, t, c, 2), Unavailable);
    } else {
      DoneStays(cfg, t, c, 2);
    }
  }

  lemma {:induction false} ReservedIsAnswered(cfg: Config, s: State, c: nat)
    requires ReadyToFinalize(s, c) && s.rows[s.calls[c].pc.id].status == RESERVED
    ensures CreatesReview(After(cfg, s, c, 3), c, s.calls[c], s.calls[c].pc.id, s.calls[c].pc.rec.reviewId)
  {
    FinalizesReserved(cfg, s, c);
    OneMore(cfg, s, c, 3);
    DoneStays(cfg, StepCall(cfg, s, c, NoFault), c, 2);
  }

  lemma RereadingStep(cfg: Config, s: State, c: nat)
    requires c in s.calls && s.calls[c].pc.Rereading? && CallOk(s, s.calls[c])
    ensures s.calls[c].pc.id in s.rows
    ensures StepCall(cfg, s, c, NoFault) == Goto(s, c, Route(s.calls[c].pc.id, s.rows[s.calls[c].pc.id]))
  {
  }

  lemma {:induction false} RoutedIsAnswered(cfg: Config, s: State, c: nat, id: Id, limit: nat)
    requires ValidConfig(cfg) && Inv(cfg, s) && Provenance(cfg, s) && c in s.calls && id in s.rows
    requires s.calls[c].pc == Route(id, s.rows[id]) && IsLimit(cfg, s.calls[c].mode, limit)
    requires DayOf(s.clock) == DayOf(s.calls[c].now) && TtlSeconds(s.calls[c].now) <= cfg.maxTtlSeconds
    ensures RowIsAnswered(s, After(cfg, s, c, 3), c, id, limit)
  {
    match s.rows[id].status
    case PENDING => PendingIsAnswered(cfg, s, c, limit);
    case RESERVED =>
      FinalizingIsReady(cfg, s, c);
      ReservedIsAnswered(cfg, s, c);
    case ADMITTED =>
      FinalizingIsReady(cfg, s, c);
      AdmittedIsAnswered(cfg, s, c);
    case _ => DoneStays(cfg, s, c, 3);
  }

  lemma AnswersCarryOver(s: State, c: nat, pc: Pc, t: State, id: Id, limit: nat)
    requires c in s.calls && id in s.rows && RowIsAnswered(Goto(s, c, pc), t, c, id, limit)
    ensures RowIsAnswered(s, t, c, id, limit)
  {
    var u := Goto(s, c, pc);
    assert Grants(u, KeyOf(s.rows[id]), id, limit) == Grants(s, KeyOf(s.rows[id]), id, limit);
  }

  lemma {:induction false} RereadIsAnswered(cfg: Config, s: State, c: nat, limit: nat)
    requires ValidConfig(cfg) && Inv(cfg, s) && Provenance(cfg, s) && c in s.calls && s.calls[c].pc.Rereading?
    requires IsLimit(cfg, s.calls[c].mode, limit)
    requires DayOf(s.clock) == DayOf(s.calls[c].now) && TtlSeconds(s.calls[c].now) <= cfg.maxTtlSeconds
    ensures s.calls[c].pc.id in s.rows && RowIsAnswered(s, After(cfg, s, c, 4), c, s.calls[c].pc.id, limit)
  {
    var id := s.calls[c].pc.id;
    RereadingStep(cfg, s, c);
    var t := StepOn(cfg, s, c, 4);
    RoutedIsAnswered(cfg, t, c, id, limit);
    AnswersCarryOver(s, c, t.calls[c].pc, After(cfg, t, c, 3), id, limit);
  }

  lemma FindingStep(cfg: Config, s: State, c: nat)
    requires c in s.calls && s.calls[c].pc == Finding && Indexed(s.rows, s.byOwner, s.byReview)
    ensures StepCall(cfg, s, c, NoFault) == Goto(s, c,
      if s.calls[c].owner in s.byOwner
      then AfterIntent(s.calls[c], s.byOwner[s.calls[c].owner], s.rows[s.byOwner[s.calls[c].owner]])
      else Creating)
  {
  }

  lemma {:induction false} UnknownKeyIsAnswered(cfg: Config, s: State, c: nat, limit: nat)
    requires ValidConfig(cfg) && Inv(cfg, s) && Provenance(cfg, s) && c in s.calls && s.calls[c].pc == Finding
    requires s.calls[c].owner !in s.byOwner && IsLimit(cfg, s.calls[c].mode, limit)
    requires DayOf(s.clock) == DayOf(s.calls[c].now) && TtlSeconds(s.calls[c].now) <= cfg.maxTtlSeconds
    ensures FirstIsAnswered(s, After(cfg, s, c, 5), c, limit)
  {
    FindingStep(cfg, s, c);
    var t := StepOn(cfg, s, c, 5);
    NewKeyIsAnswered(cfg, t, c, limit);
  }

  lemma {:induction false} KnownKeyIsAnswered(cfg: Config, s: State, c: nat, limit: nat)
    requires ValidConfig(cfg) && Inv(cfg, s) && Provenance(cfg, s) && c in s.calls && s.calls[c].pc == Finding
    requires s.calls[c].owner in s.byOwner && IsLimit(cfg, s.calls[c].mode, limit)
    requires DayOf(s.clock) == DayOf(s.calls[c].now) && TtlSeconds(s.calls[c].now) <= cfg.maxTtlSeconds
    ensures s.byOwner[s.calls[c].owner] in s.rows && RepeatIsAnswered(s, After(cfg, s, c, 5), c, limit)
  {
    FindingStep(cfg, s, c);
    var t := StepOn(cfg, s, c, 5);
    if t.calls[c].pc.Done? {
      DoneStays(cfg, t, c, 4);
    } else {
      RereadIsAnswered(cfg, t, c, limit);
      AnswersCarryOver(s, c, t.calls[c].pc, After(cfg, t, c, 4), s.byOwner[s.calls[c].owner], limit);
    }
  }

  /**
    From any reachable state, a call that is left alone on its UTC day answers in five steps: a
    first request is created below the limit of its mode and denied at it, and a repeat is answered
    from the row of its key.
   */
  lemma {:induction false} UndisturbedAdmitIsAnswered(cfg: Config, clock: int, moves: seq<Move>, c: nat, limit: nat)
    requires ValidConfig(cfg) && c in Run(cfg, clock, moves).calls && Run(cfg, clock, moves).calls[c].pc == Finding
    requires IsLimit(cfg, Run(cfg, clock, moves).calls[c].mode, limit)
    requires DayOf(Run(cfg, clock, moves).clock) == DayOf(Run(cfg, clock, moves).calls[c].now)
    requires TtlSeconds(Run(cfg, clock, moves).calls[c].now) <= cfg.maxTtlSeconds
    ensures var (s, t) := (Run(cfg, clock, moves), Run(cfg, clock, moves + Advances(c, 5)));
      && (s.calls[c].owner !in s.byOwner ==> FirstIsAnswered(s, t, c, limit))
      && (s.calls[c].owner in s.byOwner ==>
            s.byOwner[s.calls[c].owner] in s.rows && RepeatIsAnswered(s, t, c, limit))
  {
    EveryRunHasProvenance(cfg, clock, moves);
    RunConcat(cfg, clock, moves, Advances(c, 5));
    var s := Run(cfg, clock, moves);
    if s.calls[c].owner in s.byOwner {
      KnownKeyIsAnswered(cfg, s, c, limit);
    } else {
      UnknownKeyIsAnswered(cfg, s, c, limit);
    }
  }

  /** A request with fresh ids starts as a call at the current time; a crash ends one, and time only grows. */
  lemma MovesAreTaken(cfg: Config, s: State, c: nat, owner: OwnerKey, fingerprint: nat, mode: Mode, candidate: Id,
      review: nat)
    ensures c !in s.calls && FreshCandidates(s, candidate, review) ==>
      Step(cfg, s, Start(c, owner, fingerprint, mode, candidate, review)) ==
        s.(calls := s.calls[c := Call(owner, fingerprint, mode, s.clock, candidate, review, Finding)])
    ensures c in s.calls && !s.calls[c].pc.Done? ==> Step(cfg, s, Crash(c)) == Goto(s, c, Done(Crashed))
    ensures forall to :: Step(cfg, s, Tick(to)) == s.(clock := if to >= s.clock then to else s.clock)
    ensures review in s.reviews ==>
      Step(cfg, s, DeleteReview(review)) == s.(reviews := s.reviews[review := s.reviews[review].(deleted := true)])
  {
  }

  /**
    From the request on: below the limit of its mode a request under a new key creates its own review
    and answers CREATED, and at the limit it is denied.
   */
  lemma {:induction false} NewRequestIsAnswered(cfg: Config, clock: int, moves: seq<Move>, c: nat, owner: OwnerKey,
      fingerprint: nat, mode: Mode, candidate: Id, review: nat, limit: nat)
    requires ValidConfig(cfg) && IsLimit(cfg, mode, limit)
    requires c !in Run(cfg, clock, moves).calls && FreshCandidates(Run(cfg, clock, moves), candidate, review)
    requires owner !in Run(cfg, clock, moves).byOwner && TtlSeconds(Run(cfg, clock, moves).clock) <= cfg.maxTtlSeconds
    ensures var (s, k) := (Run(cfg, clock, moves), QuotaKey(owner.user, mode, DayOf(Run(cfg, clock, moves).clock)));
      var t := Run(cfg, clock, moves + [Start(c, owner, fingerprint, mode, candidate, review)] + Advances(c, 5));
      var call := Call(owner, fingerprint, mode, s.clock, candidate, review, Finding);
      if R.CounterValue(StoreAt(s, k), s.clock) < limit then CreatesReview(t, c, call, candidate, review)
      else Denies(t, c, candidate)
  {
    var next := moves + [Start(c, owner, fingerprint, mode, candidate, review)];
    RunAppends(cfg, clock, moves, Start(c, owner, fingerprint, mode, candidate, review));
    MovesAreTaken(cfg, Run(cfg, clock, moves), c, owner, fingerprint, mode, candidate, review);
    UndisturbedAdmitIsAnswered(cfg, clock, next, c, limit);
  }

  // ---------------------------------------------------------------- lost races and faults

  /** Losing the insert to a racing request is answered as if the row had been found at once. */
  lemma {:induction false} LostInsertFindsRow(cfg: Config, s: State, c: nat)
    requires Indexed(s.rows, s.byOwner, s.byReview) && c in s.calls && s.calls[c].pc == Creating
    requires s.calls[c].owner in s.byOwner
    ensures After(cfg, s, c, 2) == After(cfg, Goto(s, c, Finding), c, 1)
  {
    var t := Goto(s, c, RaceFinding);
    assert StepCall(cfg, s, c, NoFault) == t;
    OneMore(cfg, s, c, 2);
    OneMore(cfg, t, c, 1);
    OneMore(cfg, Goto(s, c, Finding), c, 1);
  }

  /** A decision that a racing request has persisted already is taken over. */
  lemma LostDecisionIsTaken(cfg: Config, s: State, c: nat)
    requires c in s.calls && s.calls[c].pc.Persisting? && PcOk(s, s.calls[c], s.calls[c].pc)
    requires s.rows[s.calls[c].pc.id].status == s.calls[c].pc.target
    ensures var (id, target) := (s.calls[c].pc.id, s.calls[c].pc.target);
      StepCall(cfg, s, c, NoFault) ==
        Goto(s, c, if target == RESERVED then Finalizing(id, s.rows[id]) else Done(RateLimited))
  {
  }

  /** So is a row that a racing request has already admitted. */
  lemma {:induction false} LostAdmissionIsTaken(cfg: Config, s: State, c: nat)
    requires c in s.calls && s.calls[c].pc.Persisting? && PcOk(s, s.calls[c], s.calls[c].pc)
    requires s.calls[c].pc.target == RESERVED && s.rows[s.calls[c].pc.id].status == ADMITTED
    ensures After(cfg, s, c, 2) == Goto(s, c, Finalizing(s.calls[c].pc.id, s.rows[s.calls[c].pc.id]))
  {
    RefusedDecision(cfg, s, c);
    var t := StepCall(cfg, s, c, NoFault);
    OneMore(cfg, s, c, 2);
    OneMore(cfg, t, c, 1);
  }

  lemma RefusedDecision(cfg: Config, s: State, c: nat)
    requires c in s.calls && s.calls[c].pc.Persisting? && PcOk(s, s.calls[c], s.calls[c].pc)
    requires s.calls[c].pc.target == RESERVED && s.rows[s.calls[c].pc.id].status == ADMITTED
    ensures StepCall(cfg, s, c, NoFault) == Goto(s, c, RaceRereading(s.calls[c].pc.id, s.calls[c].pc.rec, RESERVED))
  {
  }

  /** A failed read sends the call to a safe status. */
  lemma FaultyFindIsMarked(s: State, c: nat, fault: Fault)
    requires c in s.calls && fault != NoFault
    ensures var t := Goto(s, c, Marking(s.calls[c].candidate, RECONCILE_REQUIRED, false));
      StepFinding(s, c, s.calls[c], fault) == t == StepRaceFinding(s, c, s.calls[c], fault)
  {
  }

  lemma FaultyRereadIsMarked(s: State, c: nat, fault: Fault)
    requires c in s.calls && fault != NoFault
    ensures s.calls[c].pc.Rereading? ==>
      StepRereading(s, c, s.calls[c], fault) == Goto(s, c, Marking(s.calls[c].pc.id, RECONCILE_REQUIRED, false))
    ensures s.calls[c].pc.RaceRereading? ==>
      StepRaceRereading(s, c, s.calls[c], fault) == Goto(s, c, Marking(s.calls[c].pc.id, RECONCILE_REQUIRED, false))
  {
  }

  /** So does a failed insert, script or transaction; a failed decision write is reread first. */
  lemma FaultyCreateIsMarked(s: State, c: nat, fault: Fault)
    requires c in s.calls && fault != NoFault
    ensures var t := StepCreating(s, c, s.calls[c], fault);
      c in t.calls && t.calls[c].pc == Marking(s.calls[c].candidate, RECONCILE_REQUIRED, false)
  {
  }

  lemma FaultyScriptIsMarked(cfg: Config, s: State, c: nat, fault: Fault)
    requires c in s.calls && fault != NoFault && s.calls[c].pc.Reserving?
    requires fault == FailsBefore || DayOf(s.clock) == DayOf(s.calls[c].now)
    ensures var t := StepReserving(cfg, s, c, s.calls[c], fault);
      c in t.calls && t.calls[c].pc == Marking(s.calls[c].pc.id, INDETERMINATE, false)
  {
    ScriptKeepsRows(cfg, s, s.calls[c], s.calls[c].pc.id, s.calls[c].pc.rec);
  }

  lemma FaultyPersistIsReread(s: State, c: nat, fault: Fault)
    requires c in s.calls && fault != NoFault && s.calls[c].pc.Persisting?
    ensures var (pc, t) := (s.calls[c].pc, StepPersisting(s, c, s.calls[c], fault));
      c in t.calls && t.calls[c].pc == RaceRereading(pc.id, pc.rec, pc.target)
  {
    TransitionMoves(s, s.calls[c].owner.user, s.calls[c].pc.id, s.calls[c].pc.target);
  }

  lemma FaultyFinalizeIsMarked(s: State, c: nat, fault: Fault)
    requires c in s.calls && fault != NoFault && s.calls[c].pc.Finalizing?
    ensures var t := StepFinalizing(s, c, s.calls[c], fault);
      c in t.calls && t.calls[c].pc == Marking(s.calls[c].pc.id, RECONCILE_REQUIRED, false)
  {
    FinalizeMovesRows(s, s.calls[c], s.calls[c].pc.id, s.calls[c].pc.rec);
  }

  /** Marking tries the other status once, and then ends with Unavailable, whatever fails. */
  lemma MarkingStep(cfg: Config, s: State, c: nat, fault: Fault)
    requires c in s.calls && s.calls[c].pc.Marking?
    ensures var (Marking(id, preferred, fallback), t) := (s.calls[c].pc, StepCall(cfg, s, c, fault));
      && c in t.calls
      && (t.calls[c].pc == Done(Unavailable) || (!fallback && t.calls[c].pc.Marking? && t.calls[c].pc.fallback))
  {
    TransitionMoves(s, s.calls[c].owner.user, s.calls[c].pc.id, s.calls[c].pc.preferred);
  }

  lemma MarkingEnds(cfg: Config, s: State, c: nat, f: Fault, g: Fault)
    requires c in s.calls && s.calls[c].pc.Marking?
    ensures var t := StepCall(cfg, s, c, f);
      && c in t.calls && c in StepCall(cfg, t, c, g).calls && StepCall(cfg, t, c, g).calls[c].pc == Done(Unavailable)
  {
    MarkingStep(cfg, s, c, f);
    var t := StepCall(cfg, s, c, f);
    if t.calls[c].pc.Marking? {
      MarkingStep(cfg, t, c, g);
    }
  }

  /** The preferred status is stored when the row allows it. */
  lemma PreferredIsStored(cfg: Config, s: State, c: nat)
    requires c in s.calls && s.calls[c].pc.Marking? && s.calls[c].pc.id in s.rows
    requires s.rows[s.calls[c].pc.id].owner.user == s.calls[c].owner.user
    requires s.rows[s.calls[c].pc.id].status in AllowedSources(s.calls[c].pc.preferred)
    ensures var (Marking(id, preferred, _), t) := (s.calls[c].pc, StepCall(cfg, s, c, NoFault));
      c in t.calls && t.calls[c].pc == Done(Unavailable) && t.rows == s.rows[id := s.rows[id].(status := preferred)]
  {
  }
}
