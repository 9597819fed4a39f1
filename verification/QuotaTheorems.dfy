/**
  The promises of quota admission, for every run: any number of concurrent calls, any
  interleaving, faults and crashes anywhere, and reviews deleted at any time.
 */
module QuotaTheorems {
  import opened Utf16
  import opened UtcDay
  import opened QuotaAdmission
  import opened QuotaInvariant
  import opened QuotaSafety
  import R = RedisAdmission

  /** All reviews ever created for a user, mode and UTC day; deletion keeps the row. */
  function ReviewsOf(s: State, k: QuotaKey): set<nat> {
    set r | r in s.reviews && ReviewKey(s.reviews[r]) == k
  }

  lemma {:induction false} InjectionBounds(keys: set<nat>, f: map<nat, Id>, target: set<Id>)
    requires forall r :: r in keys ==> r in f && f[r] in target
    requires forall q, r :: q in keys && r in keys && f[q] == f[r] ==> q == r
    ensures |keys| <= |target|
  {
    if keys != {} {
      var r :| r in keys;
      InjectionBounds(keys - {r}, f, target - {f[r]});
    }
  }

  /** The quota: no interleaving, fault or crash creates more reviews than the limit. */
  lemma {:induction false} ReviewsNeverExceedLimit(cfg: Config, clock: int, moves: seq<Move>, k: QuotaKey)
    requires ValidConfig(cfg)
    ensures |ReviewsOf(Run(cfg, clock, moves), k)| <=
      match k.mode case QUICK => cfg.quick case STANDARD => cfg.standard case DEEP => cfg.deep
  {
    EveryRunSatisfiesInv(cfg, clock, moves);
    var s := Run(cfg, clock, moves);
    KeySoundHere(cfg, s, k);
    AdmittedOnly(s, k);
    InjectionBounds(ReviewsOf(s, k), s.byReview, GrantedAt(s.granted, k));
  }

  lemma AdmittedOnly(s: State, k: QuotaKey)
    requires Indexed(s.rows, s.byOwner, s.byReview) && Accounted(s.rows, s.reviews, s.byReview) &&
      Backed(s.rows, s.granted)
    ensures forall r :: r in ReviewsOf(s, k) ==> r in s.byReview && s.byReview[r] in GrantedAt(s.granted, k)
    ensures forall q, r :: q in ReviewsOf(s, k) && r in ReviewsOf(s, k) && s.byReview[q] == s.byReview[r] ==> q == r
  {
  }

  /** An admission is ADMITTED exactly when its review row exists, and then the script once returned RESERVED for it. */
  lemma {:induction false} AdmittedIffReviewed(cfg: Config, clock: int, moves: seq<Move>, id: Id)
    requires ValidConfig(cfg) && id in Run(cfg, clock, moves).rows
    ensures var s := Run(cfg, clock, moves);
      var row := s.rows[id];
      && (row.status == ADMITTED <==> row.reviewId in s.reviews)
      && (row.status == ADMITTED ==>
        id in GrantedAt(s.granted, KeyOf(row)) && ReviewKey(s.reviews[row.reviewId]) == KeyOf(row))
  {
    EveryRunSatisfiesInv(cfg, clock, moves);
  }

  ghost predicate Succeeded(s: State, c: nat) {
    c in s.calls && s.calls[c].pc.Done? && s.calls[c].pc.outcome.Success?
  }

  lemma SameKeySameReview(s: State, c: nat, d: nat)
    requires Succeeded(s, c) && Succeeded(s, d) && s.calls[c].owner == s.calls[d].owner
    requires PcOk(s, s.calls[c], s.calls[c].pc) && PcOk(s, s.calls[d], s.calls[d].pc)
    requires Indexed(s.rows, s.byOwner, s.byReview) && Accounted(s.rows, s.reviews, s.byReview) && CreatedOnce(s.calls)
    ensures s.calls[c].pc.outcome.reviewId == s.calls[d].pc.outcome.reviewId
    ensures s.calls[c].fingerprint == s.calls[d].fingerprint
    ensures s.calls[c].pc.outcome.reviewId in s.reviews
    ensures c != d ==> !(s.calls[c].pc.outcome.created && s.calls[d].pc.outcome.created)
  {
    var r := s.calls[c].pc.outcome.reviewId;
    assert s.calls[c].pc.outcome.created ==> ReportsCreated(s.calls[c], r);
    assert s.calls[d].pc.outcome.created ==> ReportsCreated(s.calls[d], s.calls[d].pc.outcome.reviewId);
  }

  /** All successful calls for one user and idempotency key name one review, and at most one reports CREATED. */
  lemma {:induction false} SuccessIsIdempotent(cfg: Config, clock: int, moves: seq<Move>, c: nat, d: nat)
    requires ValidConfig(cfg)
    requires Succeeded(Run(cfg, clock, moves), c) && Succeeded(Run(cfg, clock, moves), d)
    requires Run(cfg, clock, moves).calls[c].owner == Run(cfg, clock, moves).calls[d].owner
    ensures var s := Run(cfg, clock, moves);
      && s.calls[c].pc.outcome.reviewId == s.calls[d].pc.outcome.reviewId
      && s.calls[c].fingerprint == s.calls[d].fingerprint
      && s.calls[c].pc.outcome.reviewId in s.reviews
      && (c != d ==> !(s.calls[c].pc.outcome.created && s.calls[d].pc.outcome.created))
  {
    EveryRunSatisfiesInv(cfg, clock, moves);
    var s := Run(cfg, clock, moves);
    assert CallOk(s, s.calls[c]) && CallOk(s, s.calls[d]);
    SameKeySameReview(s, c, d);
  }

  /** Another request already owns this call's key with a different fingerprint. */
  ghost predicate KeyTaken(s: State, call: Call) {
    call.owner in s.byOwner && s.byOwner[call.owner] in s.rows &&
      s.rows[s.byOwner[call.owner]].fingerprint != call.fingerprint
  }

  /** Such a call can only be before the insert, in a fallback for a row it never created, or finished. */
  lemma TakenKeyPc(s: State, call: Call)
    requires CallOk(s, call) && Indexed(s.rows, s.byOwner, s.byReview) && KeyTaken(s, call)
    ensures call.pc.Finding? || call.pc.Creating? || call.pc.RaceFinding?
         || (call.pc.Marking? && call.pc.id !in s.rows) || (call.pc.Done? && !call.pc.outcome.Success?)
  {
  }

  lemma TakenKeyStep(cfg: Config, s: State, c: nat, fault: Fault)
    requires Indexed(s.rows, s.byOwner, s.byReview) && c in s.calls && CallOk(s, s.calls[c]) && KeyTaken(s, s.calls[c])
    ensures var t := StepCall(cfg, s, c, fault);
      && t == s.(calls := t.calls) && c in t.calls
      && !(t.calls[c].pc.Done? && t.calls[c].pc.outcome.Success?)
      && (s.calls[c].pc == Finding && fault == NoFault ==> t.calls[c].pc == Done(Conflict))
  {
    TakenKeyPc(s, s.calls[c]);
    match s.calls[c].pc
    case Finding => TakenKeyIsFound(s, c, fault);
    case RaceFinding => TakenKeyIsFound(s, c, fault);
    case Creating => TakenKeyBlocksInsert(s, c, fault);
    case Marking(_, _, _) => MissingRowIsNotMarked(s, c, fault);
    case Done(_) => assert s == s.(calls := s.calls);
  }

  /** The step leaves everything but the call's place as it was, and does not succeed. */
  ghost predicate Inert(s: State, t: State, c: nat) {
    t == s.(calls := t.calls) && c in t.calls && !(t.calls[c].pc.Done? && t.calls[c].pc.outcome.Success?)
  }

  lemma TakenKeyIsFound(s: State, c: nat, fault: Fault)
    requires c in s.calls && KeyTaken(s, s.calls[c])
    ensures Inert(s, StepFinding(s, c, s.calls[c], fault), c) && Inert(s, StepRaceFinding(s, c, s.calls[c], fault), c)
    ensures fault == NoFault ==> StepFinding(s, c, s.calls[c], fault).calls[c].pc == Done(Conflict)
  {
  }

  lemma TakenKeyBlocksInsert(s: State, c: nat, fault: Fault)
    requires c in s.calls && KeyTaken(s, s.calls[c])
    ensures Inert(s, StepCreating(s, c, s.calls[c], fault), c)
  {
  }

  lemma MissingRowIsNotMarked(s: State, c: nat, fault: Fault)
    requires c in s.calls && s.calls[c].pc.Marking? && s.calls[c].pc.id !in s.rows
    ensures Inert(s, StepMarking(s, c, s.calls[c], fault), c)
  {
  }

  /**
    A call whose key belongs to a different request never changes anything, whatever faults it meets,
    and never succeeds.
   */
  lemma {:induction false} ForeignFingerprintIsInert(cfg: Config, clock: int, moves: seq<Move>, c: nat, fault: Fault)
    requires ValidConfig(cfg)
    requires c in Run(cfg, clock, moves).calls && KeyTaken(Run(cfg, clock, moves), Run(cfg, clock, moves).calls[c])
    ensures var s := Run(cfg, clock, moves);
      var t := Step(cfg, s, Advance(c, fault));
      && t == s.(calls := t.calls) && c in t.calls
      && !(t.calls[c].pc.Done? && t.calls[c].pc.outcome.Success?)
      && (s.calls[c].pc == Finding && fault == NoFault ==> t.calls[c].pc == Done(Conflict))
  {
    EveryRunSatisfiesInv(cfg, clock, moves);
    var s := Run(cfg, clock, moves);
    assert CallOk(s, s.calls[c]);
    TakenKeyStep(cfg, s, c, fault);
  }

  // ---------------------------------------------------------------- how runs evolve

  lemma ExtendsTransitive(s: State, t: State, u: State)
    requires Extends(s, t) && Extends(t, u)
    ensures Extends(s, u)
  {
    assert RowsEvolve(s.rows, u.rows);
    forall k ensures GrantedAt(s.granted, k) <= GrantedAt(u.granted, k) {
      assert GrantedAt(s.granted, k) <= GrantedAt(t.granted, k) <= GrantedAt(u.granted, k);
    }
  }

  lemma QuietExtends(s: State, t: State)
    requires s.clock <= t.clock && t == s.(clock := t.clock, calls := t.calls)
    ensures Extends(s, t)
  {
  }

  lemma CreateStepExtends(s: State, c: nat, fault: Fault)
    requires c in s.calls
    ensures Extends(s, StepCreating(s, c, s.calls[c], fault))
  {
    var call := s.calls[c];
    if fault == FailsBefore || UniqueViolation(s, call.candidate, NewRow(call)) {
      QuietExtends(s, StepCreating(s, c, call, fault));
    } else {
      InsertExtends(s, call.candidate, NewRow(call));
    }
  }

  lemma FinalizeStepExtends(s: State, c: nat, fault: Fault)
    requires c in s.calls && s.calls[c].pc.Finalizing?
    ensures Extends(s, StepFinalizing(s, c, s.calls[c], fault))
  {
    var call := s.calls[c];
    if fault == FailsBefore {
      QuietExtends(s, StepFinalizing(s, c, call, fault));
    } else {
      FinalizeExtends(s, call, call.pc.id, call.pc.rec);
    }
  }

  lemma PersistStepExtends(s: State, c: nat, fault: Fault)
    requires c in s.calls && s.calls[c].pc.Persisting? && PcOk(s, s.calls[c], s.calls[c].pc)
    ensures Extends(s, StepPersisting(s, c, s.calls[c], fault))
  {
    var (user, id, target) := (s.calls[c].owner.user, s.calls[c].pc.id, s.calls[c].pc.target);
    var after := StepPersisting(s, c, s.calls[c], fault);
    if fault == FailsBefore {
      QuietExtends(s, after);
    } else {
      TransitionExtends(s, user, id, target);
      SameButCalls(s, Transition(s, user, id, target).0, after);
    }
  }

  lemma MarkStepExtends(s: State, c: nat, fault: Fault)
    requires c in s.calls && s.calls[c].pc.Marking? && PcOk(s, s.calls[c], s.calls[c].pc)
    ensures Extends(s, StepMarking(s, c, s.calls[c], fault))
  {
    var (user, id, preferred) := (s.calls[c].owner.user, s.calls[c].pc.id, s.calls[c].pc.preferred);
    var after := StepMarking(s, c, s.calls[c], fault);
    if fault == FailsBefore {
      QuietExtends(s, after);
    } else {
      TransitionExtends(s, user, id, preferred);
      SameButCalls(s, Transition(s, user, id, preferred).0, after);
    }
  }

  lemma ScriptStepExtends(cfg: Config, s: State, c: nat, fault: Fault)
    requires ValidConfig(cfg) && Durable(cfg, s) && c in s.calls && CallOk(s, s.calls[c]) && s.calls[c].pc.Reserving?
    ensures Extends(s, StepReserving(cfg, s, c, s.calls[c], fault))
  {
    var call := s.calls[c];
    var (id, rec) := (call.pc.id, call.pc.rec);
    var after := StepReserving(cfg, s, c, call, fault);
    if fault == FailsBefore || !ParametersAccepted(cfg, call, rec) || DayOf(s.clock) != DayOf(call.now) {
      QuietExtends(s, after);
    } else {
      ScriptSound(cfg, s, call, id, rec);
      SameButCalls(s, RunScript(cfg, s, call, id, rec).0, after);
    }
  }

  lemma SameButCalls(s: State, t: State, u: State)
    requires Extends(s, t) && u == t.(calls := u.calls)
    ensures Extends(s, u)
  {
  }

  lemma QuietStepExtends(cfg: Config, s: State, c: nat, fault: Fault)
    requires c in s.calls
    requires var pc := s.calls[c].pc;
      pc.Finding? || pc.RaceFinding? || pc.Rereading? || pc.RaceRereading? || pc.Done?
    ensures Extends(s, StepCall(cfg, s, c, fault))
  {
    match s.calls[c].pc
    case Finding => FindStepExtends(s, c, fault);
    case RaceFinding => FindStepExtends(s, c, fault);
    case Rereading(_, _) => RereadStepExtends(s, c, fault);
    case RaceRereading(_, _, _) => RaceRereadStepExtends(s, c, fault);
    case Done(_) => QuietExtends(s, s);
  }

  lemma FindStepExtends(s: State, c: nat, fault: Fault)
    requires c in s.calls
    ensures Extends(s, StepFinding(s, c, s.calls[c], fault)) && Extends(s, StepRaceFinding(s, c, s.calls[c], fault))
  {
    QuietExtends(s, StepFinding(s, c, s.calls[c], fault));
    QuietExtends(s, StepRaceFinding(s, c, s.calls[c], fault));
  }

  lemma RereadStepExtends(s: State, c: nat, fault: Fault)
    requires c in s.calls && s.calls[c].pc.Rereading?
    ensures Extends(s, StepRereading(s, c, s.calls[c], fault))
  {
    QuietExtends(s, StepRereading(s, c, s.calls[c], fault));
  }

  lemma RaceRereadStepExtends(s: State, c: nat, fault: Fault)
    requires c in s.calls && s.calls[c].pc.RaceRereading?
    ensures Extends(s, StepRaceRereading(s, c, s.calls[c], fault))
  {
    QuietExtends(s, StepRaceRereading(s, c, s.calls[c], fault));
  }

  lemma CallStepExtends(cfg: Config, s: State, c: nat, fault: Fault)
    requires ValidConfig(cfg) && Durable(cfg, s) && c in s.calls && CallOk(s, s.calls[c])
    ensures Extends(s, StepCall(cfg, s, c, fault))
  {
    var pc := s.calls[c].pc;
    if pc.Reserving? {
      ScriptStepExtends(cfg, s, c, fault);
    } else {
      WriteStepExtends(cfg, s, c, fault);
    }
  }

  lemma WriteStepExtends(cfg: Config, s: State, c: nat, fault: Fault)
    requires c in s.calls && PcOk(s, s.calls[c], s.calls[c].pc) && !s.calls[c].pc.Reserving?
    ensures Extends(s, StepCall(cfg, s, c, fault))
  {
    match s.calls[c].pc
    case Creating => CreateStepExtends(s, c, fault);
    case Finalizing(_, _) => FinalizeStepExtends(s, c, fault);
    case Persisting(_, _, _) => PersistStepExtends(s, c, fault);
    case Marking(_, _, _) => MarkStepExtends(s, c, fault);
    case _ => QuietStepExtends(cfg, s, c, fault);
  }

  lemma DeleteExtends(s: State, r: nat)
    requires r in s.reviews
    ensures Extends(s, s.(reviews := s.reviews[r := s.reviews[r].(deleted := true)]))
  {
    assert ReviewsEvolve(s.reviews, s.reviews[r := s.reviews[r].(deleted := true)]);
    QuietExtends(s, s);
  }

  lemma StepExtends(cfg: Config, s: State, move: Move)
    requires ValidConfig(cfg) && Durable(cfg, s) && CallsOk(s)
    ensures Extends(s, Step(cfg, s, move))
  {
    if move.Advance? && move.c in s.calls {
      CallStepExtends(cfg, s, move.c, move.fault);
    } else if move.DeleteReview? && move.reviewId in s.reviews {
      DeleteExtends(s, move.reviewId);
    } else {
      QuietExtends(s, Step(cfg, s, move));
    }
  }

  lemma {:induction false} RunsExtend(cfg: Config, clock: int, moves: seq<Move>, i: nat)
    requires ValidConfig(cfg) && i <= |moves|
    ensures Extends(Run(cfg, clock, moves[..i]), Run(cfg, clock, moves))
    decreases |moves|
  {
    var n := |moves|;
    if i == n {
      assert moves[..i] == moves;
    } else {
      assert moves[..n - 1][..i] == moves[..i];
      RunsExtend(cfg, clock, moves[..n - 1], i);
      LastStepExtends(cfg, clock, moves);
      ExtendsTransitive(Run(cfg, clock, moves[..i]), Run(cfg, clock, moves[..n - 1]), Run(cfg, clock, moves));
    }
  }

  lemma {:induction false} LastStepExtends(cfg: Config, clock: int, moves: seq<Move>)
    requires ValidConfig(cfg) && moves != []
    ensures Extends(Run(cfg, clock, moves[..|moves| - 1]), Run(cfg, clock, moves))
  {
    EveryRunSatisfiesInv(cfg, clock, moves[..|moves| - 1]);
    StepExtends(cfg, Run(cfg, clock, moves[..|moves| - 1]), moves[|moves| - 1]);
  }

  /** ADMITTED and DENIED are absorbing, and a row never changes owner, key, fingerprint, review, mode or day. */
  lemma {:induction false} DecisionsAreFinal(cfg: Config, clock: int, moves: seq<Move>, i: nat, id: Id)
    requires ValidConfig(cfg) && i <= |moves| && id in Run(cfg, clock, moves[..i]).rows
    ensures var (before, after) := (Run(cfg, clock, moves[..i]).rows[id], Run(cfg, clock, moves));
      && id in after.rows && SameIdentity(before, after.rows[id])
      && (before.status in {ADMITTED, DENIED} ==> after.rows[id].status == before.status)
  {
    RunsExtend(cfg, clock, moves, i);
  }
}
