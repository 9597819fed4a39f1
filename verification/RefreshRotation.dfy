/**
  Refresh-token rotation: the atomic repository of
  apps/api/src/modules/auth/in-memory-auth.repository.ts and the separate conditional updates of
  apps/api/src/modules/auth/prisma-auth.repository.ts, which interleave with each other and with
  logouts and password changes. Token hashes are drawn fresh.
 */
module RefreshRotation {
  import opened Utf16

  type SessionId = nat
  type UserId = nat
  type Hash = nat

  datatype Status = ACTIVE | REVOKED

  datatype Reason = LOGOUT | LOGOUT_ALL | REFRESH_REUSE | EXPIRED | ADMIN

  datatype Session = Session(
    user: UserId, hash: Hash, issuedAt: int, expiresAt: int, lastUsedAt: Option<int>,
    status: Status, revokedAt: Option<int>, reason: Option<Reason>)

  datatype User = User(passwordHash: Hash, active: bool)

  type Sessions = map<SessionId, Session>

  datatype Input = Input(session: SessionId, expected: Hash, next: Hash, issuedAt: int, expiresAt: int, now: int)

  datatype Outcome = Rotated | ReuseDetected | NotActive

  // ---------------------------------------------------------------- effects

  function Rotation(s: Session, i: Input): Session {
    s.(lastUsedAt := Some(i.now), expiresAt := i.expiresAt, hash := i.next, issuedAt := i.issuedAt)
  }

  function Revocation(s: Session, reason: Reason, now: int): Session {
    s.(status := REVOKED, revokedAt := Some(now), reason := Some(reason))
  }

  /** Revoke one session if it is active. */
  function RevokeOne(sessions: Sessions, id: SessionId, reason: Reason, now: int): Sessions {
    if id in sessions && sessions[id].status == ACTIVE then sessions[id := Revocation(sessions[id], reason, now)]
    else sessions
  }

  /** Revoke every active session of a user. */
  function RevokeAll(sessions: Sessions, user: UserId, reason: Reason, now: int): (r: Sessions)
    ensures r.Keys == sessions.Keys
  {
    map id | id in sessions ::
      if sessions[id].user == user && sessions[id].status == ACTIVE then Revocation(sessions[id], reason, now)
      else sessions[id]
  }

  function CreatedSession(user: UserId, hash: Hash, issuedAt: int, expiresAt: int): Session {
    Session(user, hash, issuedAt, expiresAt, None, ACTIVE, None, None)
  }

  /** rotateRefreshToken as one atomic step. */
  function AtomicRotate(sessions: Sessions, i: Input): (Sessions, Outcome) {
    if i.session !in sessions || sessions[i.session].status != ACTIVE then (sessions, NotActive)
    else if sessions[i.session].hash != i.expected
      then (RevokeOne(sessions, i.session, REFRESH_REUSE, i.now), ReuseDetected)
    else (sessions[i.session := Rotation(sessions[i.session], i)], Rotated)
  }

  /**
    What a rotation answers: exactly an active session that still holds the presented hash gets the
    drawn hash, the new issue and expiry times and the time of use, and keeps everything else; an
    active session with another hash is revoked for reuse; anything else is left alone.
   */
  lemma RotationIsAnswered(sessions: Sessions, i: Input)
    ensures var (after, outcome) := AtomicRotate(sessions, i);
      && (outcome == NotActive <==> i.session !in sessions || sessions[i.session].status != ACTIVE)
      && (outcome == Rotated ==>
            && sessions[i.session].hash == i.expected
            && var s := sessions[i.session];
               after == sessions[i.session :=
                 Session(s.user, i.next, i.issuedAt, i.expiresAt, Some(i.now), ACTIVE, s.revokedAt, s.reason)])
      && (outcome == ReuseDetected ==>
            && sessions[i.session].hash != i.expected
            && var s := sessions[i.session];
               after == sessions[i.session :=
                 Session(s.user, s.hash, s.issuedAt, s.expiresAt, s.lastUsedAt, REVOKED, Some(i.now),
                         Some(REFRESH_REUSE))])
      && (outcome == NotActive ==> after == sessions)
  {
  }

  function ActiveOf(sessions: Sessions, user: UserId): set<SessionId> {
    set id | id in sessions && sessions[id].user == user && sessions[id].status == ACTIVE
  }

  /** Part of the way through a walk over the sessions: those in `rest` are still as they were. */
  function Walked(sessions: Sessions, rest: set<SessionId>, user: UserId, reason: Reason, now: int): Sessions {
    map id | id in sessions ::
      if id !in rest && id in ActiveOf(sessions, user) then Revocation(sessions[id], reason, now) else sessions[id]
  }

  lemma WalkOne(sessions: Sessions, rest: set<SessionId>, id: SessionId, user: UserId, reason: Reason, now: int)
    requires id in rest && rest <= sessions.Keys
    ensures Walked(sessions, rest - {id}, user, reason, now) ==
      if id in ActiveOf(sessions, user)
        then Walked(sessions, rest, user, reason, now)[id := Revocation(sessions[id], reason, now)]
      else Walked(sessions, rest, user, reason, now)
    ensures ActiveOf(sessions, user) - (rest - {id}) ==
      (ActiveOf(sessions, user) - rest) + if id in ActiveOf(sessions, user) then {id} else {}
  {
  }

  lemma WalkEnds(sessions: Sessions, user: UserId, reason: Reason, now: int)
    ensures Walked(sessions, sessions.Keys, user, reason, now) == sessions
    ensures Walked(sessions, {}, user, reason, now) == RevokeAll(sessions, user, reason, now)
    ensures ActiveOf(sessions, user) - sessions.Keys == {} && ActiveOf(sessions, user) - {} == ActiveOf(sessions, user)
  {
  }

  // ---------------------------------------------------------------- the atomic repository

  class InMemoryAuthRepository {
    var sessions: Sessions
    var users: map<UserId, User>

    constructor ()
      ensures sessions == map[] && users == map[]
    {
      sessions, users := map[], map[];
    }

    method CreateSession(id: SessionId, user: UserId, hash: Hash, issuedAt: int,
        expiresAt: int) returns (conflict: bool)
      modifies this`sessions
      ensures conflict <==> id in old(sessions)
      ensures sessions == if conflict then old(sessions)
        else old(sessions)[id := CreatedSession(user, hash, issuedAt, expiresAt)]
    {
      if id in sessions {
        return true;
      }
      sessions := sessions[id := Session(user, hash, issuedAt, expiresAt, None, ACTIVE, None, None)];
      conflict := false;
    }

    method RotateRefreshToken(i: Input) returns (outcome: Outcome)
      modifies this`sessions
      ensures (sessions, outcome) == AtomicRotate(old(sessions), i)
    {
      if i.session !in sessions || sessions[i.session].status != ACTIVE {
        return NotActive;
      }
      var session := sessions[i.session];
      if session.hash != i.expected {
        sessions := sessions[i.session :=
          session.(status := REVOKED, revokedAt := Some(i.now), reason := Some(REFRESH_REUSE))];
        return ReuseDetected;
      }
      sessions := sessions[i.session :=
        session.(lastUsedAt := Some(i.now), expiresAt := i.expiresAt, hash := i.next, issuedAt := i.issuedAt)];
      outcome := Rotated;
    }

    method RevokeSession(id: SessionId, reason: Reason, now: int)
      modifies this`sessions
      ensures sessions == RevokeOne(old(sessions), id, reason, now)
    {
      if id in sessions && sessions[id].status == ACTIVE {
        sessions := sessions[id := Revocation(sessions[id], reason, now)];
      }
    }

    /** Whatever the order in which the map is walked. */
    method RevokeAllUserSessions(user: UserId, reason: Reason, now: int) returns (count: nat)
      modifies this`sessions
      ensures sessions == RevokeAll(old(sessions), user, reason, now)
      ensures count == |ActiveOf(old(sessions), user)|
    {
      count := 0;
      var rest := sessions.Keys;
      WalkEnds(sessions, user, reason, now);
      while rest != {}
        invariant rest <= old(sessions).Keys
        invariant sessions == Walked(old(sessions), rest, user, reason, now)
        invariant count == |ActiveOf(old(sessions), user) - rest|
        decreases |rest|
      {
        var id :| id in rest;
        WalkOne(old(sessions), rest, id, user, reason, now);
        if sessions[id].user == user && sessions[id].status == ACTIVE {
          sessions := sessions[id := Revocation(sessions[id], reason, now)];
          count := count + 1;
        }
        rest := rest - {id};
      }
    }

    method ChangePassword(user: UserId, expected: Hash, next: Hash, now: int) returns (changed: bool)
      modifies this
      ensures changed <==> user in old(users) && old(users)[user].active && old(users)[user].passwordHash == expected
      ensures users == if changed then old(users)[user := User(next, true)] else old(users)
      ensures sessions == if changed then RevokeAll(old(sessions), user, LOGOUT_ALL, now) else old(sessions)
    {
      if user !in users || !users[user].active || users[user].passwordHash != expected {
        return false;
      }
      users := users[user := users[user].(passwordHash := next)];
      var count := RevokeAllUserSessions(user, LOGOUT_ALL, now);
      changed := true;
    }
  }

  // ---------------------------------------------------------------- the stepwise repository

  /** Where a rotation stands: the conditional update, the read after it, the status read, the revocation. */
  datatype Pc = Updating | Finding | Checking | Revoking | Done(outcome: Outcome) | Failed

  /** `won` is history: the call's conditional update matched. */
  datatype Call = Call(input: Input, pc: Pc, won: bool)

  datatype Fault = NoFault | FailsBefore | FailsAfter

  /** `seen` holds every hash that was stored, drawn or presented. */
  datatype State = State(sessions: Sessions, users: map<UserId, User>, calls: map<nat, Call>, seen: set<Hash>)

  const INIT := State(map[], map[], map[], {})

  predicate UpdateMatches(sessions: Sessions, i: Input) {
    i.session in sessions && sessions[i.session].hash == i.expected && sessions[i.session].status == ACTIVE
  }

  /** One step of rotateRefreshToken; each is one statement on the database. */
  function StepCall(sessions: Sessions, c: Call, fault: Fault): (Sessions, Call) {
    if c.pc.Done? || c.pc.Failed? then (sessions, c)
    else if fault == FailsBefore then (sessions, c.(pc := Failed))
    else
      var (after, next) :=
        match c.pc
        case Updating =>
          if UpdateMatches(sessions, c.input)
          then (sessions[c.input.session := Rotation(sessions[c.input.session], c.input)],
            c.(pc := Finding, won := true))
          else (sessions, c.(pc := Checking))
        case Finding => (sessions, c.(pc := if c.input.session in sessions then Done(Rotated) else Checking))
        case Checking =>
          (sessions, c.(pc := if c.input.session in sessions && sessions[c.input.session].status == ACTIVE then Revoking
            else Done(NotActive)))
        case _ => (RevokeOne(sessions, c.input.session, REFRESH_REUSE, c.input.now), c.(pc := Done(ReuseDetected)));
      (after, if fault == NoFault then next else next.(pc := Failed))
  }

  datatype Move =
    | AddUser(user: UserId, passwordHash: Hash)
    | Login(id: SessionId, user: UserId, hash: Hash, issuedAt: int, expiresAt: int)
    | Begin(c: nat, input: Input)
    | Step(c: nat, fault: Fault)
    | Logout(id: SessionId, reason: Reason, now: int)
    | LogoutAll(user: UserId, reason: Reason, now: int)
    | ChangePassword(user: UserId, expected: Hash, next: Hash, now: int)

  /** A drawn hash is new; a hash that is drawn but not yet stored cannot be presented. */
  predicate FreshHashes(s: State, i: Input) {
    && i.next !in s.seen && i.next != i.expected
    && forall c :: c in s.calls && s.calls[c].pc == Updating ==> s.calls[c].input.next != i.expected
  }

  function Next(s: State, move: Move): State {
    match move
    case AddUser(user, passwordHash) =>
      if user in s.users then s else s.(users := s.users[user := User(passwordHash, true)])
    case Login(id, user, hash, issuedAt, expiresAt) =>
      if id in s.sessions || hash in s.seen then s
      else s.(sessions := s.sessions[id := CreatedSession(user, hash, issuedAt, expiresAt)], seen := s.seen + {hash})
    case Begin(c, input) =>
      if c in s.calls || !FreshHashes(s, input) then s
      else s.(calls := s.calls[c := Call(input, Updating, false)], seen := s.seen + {input.expected, input.next})
    case Step(c, fault) =>
      if c !in s.calls then s
      else var (sessions, call) := StepCall(s.sessions, s.calls[c], fault);
        s.(sessions := sessions, calls := s.calls[c := call])
    case Logout(id, reason, now) => s.(sessions := RevokeOne(s.sessions, id, reason, now))
    case LogoutAll(user, reason, now) => s.(sessions := RevokeAll(s.sessions, user, reason, now))
    case ChangePassword(user, expected, next, now) =>
      if user in s.users && s.users[user].active && s.users[user].passwordHash == expected
      then s.(users := s.users[user := s.users[user].(passwordHash := next)],
        sessions := RevokeAll(s.sessions, user, LOGOUT_ALL, now))
      else s
  }

  function Run(moves: seq<Move>): State {
    if moves == [] then INIT else Next(Run(moves[..|moves| - 1]), moves[|moves| - 1])
  }

  // ---------------------------------------------------------------- how sessions evolve

  /**
    Sessions are never deleted or given to another user, and REVOKED is absorbing: nothing of a revoked
    session changes.
   */
  ghost predicate SessionsEvolve(a: Sessions, b: Sessions) {
    forall id :: id in a ==> id in b && b[id].user == a[id].user && (a[id].status == REVOKED ==> b[id] == a[id])
  }

  lemma StepCallEvolves(sessions: Sessions, c: Call, fault: Fault)
    ensures SessionsEvolve(sessions, StepCall(sessions, c, fault).0)
  {
  }

  lemma NextEvolves(s: State, move: Move)
    ensures SessionsEvolve(s.sessions, Next(s, move).sessions)
  {
    match move
    case Step(c, fault) => if c in s.calls { StepCallEvolves(s.sessions, s.calls[c], fault); }
    case _ =>
  }

  lemma {:induction false} RunsEvolve(moves: seq<Move>, i: nat)
    requires i <= |moves|
    ensures SessionsEvolve(Run(moves[..i]).sessions, Run(moves).sessions)
    decreases |moves|
  {
    if i == |moves| {
      assert moves[..i] == moves;
    } else {
      var shorter := moves[..|moves| - 1];
      assert shorter[..i] == moves[..i];
      RunsEvolve(shorter, i);
      NextEvolves(Run(shorter), moves[|moves| - 1]);
    }
  }

  // ---------------------------------------------------------------- invariant

  predicate IsRevoked(sessions: Sessions, id: SessionId) {
    id in sessions && sessions[id].status == REVOKED
  }

  ghost predicate HashesOk(sessions: Sessions, calls: map<nat, Call>, seen: set<Hash>) {
    && (forall id :: id in sessions ==> sessions[id].hash in seen)
    && (forall a, b :: a in sessions && b in sessions && a != b ==> sessions[a].hash != sessions[b].hash)
    && (forall c :: c in calls ==> calls[c].input.expected in seen && calls[c].input.next in seen)
  }

  /** The hash a pending call will store is stored nowhere and presented by nobody. */
  ghost predicate PendingOk(sessions: Sessions, calls: map<nat, Call>) {
    && (forall c, id :: c in calls && calls[c].pc == Updating && id in sessions ==>
      sessions[id].hash != calls[c].input.next)
    && (forall c, d :: c in calls && d in calls && calls[c].pc == Updating ==>
      calls[d].input.expected != calls[c].input.next)
    && (forall c, d :: c in calls && d in calls && c != d && calls[c].pc == Updating ==>
      calls[d].input.next != calls[c].input.next)
  }

  /** A hash that won a rotation is stored nowhere any more. */
  ghost predicate WonOk(sessions: Sessions, calls: map<nat, Call>) {
    && (forall c, id :: c in calls && calls[c].won && id in sessions ==> sessions[id].hash != calls[c].input.expected)
    && (forall c, d :: c in calls && d in calls && c != d && calls[c].won && calls[d].won ==>
      calls[c].input.expected != calls[d].input.expected)
    && (forall c :: c in calls && calls[c].won ==> calls[c].pc != Updating)
  }

  /** What a call knows about its session. */
  predicate CallOk(sessions: Sessions, c: Call) {
    match c.pc
    case Updating => !c.won
    case Finding => c.won && c.input.session in sessions
    case Checking => !c.won &&
      (c.input.session in sessions ==>
      sessions[c.input.session].hash != c.input.expected || IsRevoked(sessions, c.input.session))
    case Revoking =>
      && !c.won && c.input.session in sessions
      && (sessions[c.input.session].hash != c.input.expected || IsRevoked(sessions, c.input.session))
    case Done(Rotated) => c.won
    case Done(ReuseDetected) => !c.won && IsRevoked(sessions, c.input.session)
    case Done(NotActive) => !c.won
    case Failed => true
  }

  ghost predicate Inv(s: State) {
    && HashesOk(s.sessions, s.calls, s.seen) && PendingOk(s.sessions, s.calls) && WonOk(s.sessions, s.calls)
    && forall c :: c in s.calls ==> CallOk(s.sessions, s.calls[c])
  }

  ghost predicate CallsOk(sessions: Sessions, calls: map<nat, Call>) {
    forall c :: c in calls ==> CallOk(sessions, calls[c])
  }

  /** The same sessions with the same hashes; some may have been revoked. */
  ghost predicate OnlyRevokes(a: Sessions, b: Sessions) {
    a.Keys == b.Keys && forall id :: id in a ==>
      b[id].hash == a[id].hash && (a[id].status == REVOKED ==> b[id].status == REVOKED)
  }

  lemma RevokingKeeps(a: Sessions, b: Sessions, calls: map<nat, Call>, seen: set<Hash>)
    requires OnlyRevokes(a, b) && HashesOk(a, calls, seen) && PendingOk(a, calls) && WonOk(a, calls) &&
      CallsOk(a, calls)
    ensures HashesOk(b, calls, seen) && PendingOk(b, calls) && WonOk(b, calls) && CallsOk(b, calls)
  {
    forall c | c in calls ensures CallOk(b, calls[c]) {
      assert CallOk(a, calls[c]);
    }
  }

  /** A call moves on without winning. */
  lemma MoveKeeps(sessions: Sessions, calls: map<nat, Call>, seen: set<Hash>, c: nat, pc: Pc)
    requires HashesOk(sessions, calls, seen) && PendingOk(sessions, calls) && WonOk(sessions, calls) &&
      CallsOk(sessions, calls)
    requires c in calls && pc != Updating && CallOk(sessions, calls[c].(pc := pc))
    ensures var after := calls[c := calls[c].(pc := pc)];
      HashesOk(sessions, after, seen) && PendingOk(sessions, after) && WonOk(sessions, after) &&
        CallsOk(sessions, after)
  {
  }

  lemma WinKeepsHashes(sessions: Sessions, calls: map<nat, Call>, seen: set<Hash>, id: SessionId, s: Session, c: nat,
      won: Call)
    requires HashesOk(sessions, calls, seen) && PendingOk(sessions, calls) && c in calls && calls[c].pc == Updating &&
      id in sessions
    requires s.hash == calls[c].input.next && won.input == calls[c].input && won.pc != Updating
    ensures HashesOk(sessions[id := s], calls[c := won], seen)
  {
  }

  lemma WinKeepsPending(sessions: Sessions, calls: map<nat, Call>, id: SessionId, s: Session, c: nat, won: Call)
    requires PendingOk(sessions, calls) && c in calls && calls[c].pc == Updating
    requires s.hash == calls[c].input.next && won.input == calls[c].input && won.pc != Updating
    ensures PendingOk(sessions[id := s], calls[c := won])
  {
  }

  lemma WinKeepsWon(sessions: Sessions, calls: map<nat, Call>, seen: set<Hash>, id: SessionId, s: Session, c: nat,
      won: Call)
    requires HashesOk(sessions, calls, seen) && PendingOk(sessions, calls) && WonOk(sessions, calls)
    requires c in calls && calls[c].pc == Updating && id in sessions && sessions[id].hash == calls[c].input.expected
    requires s.hash == calls[c].input.next && won.input == calls[c].input && won.pc != Updating && won.won
    ensures WonOk(sessions[id := s], calls[c := won])
  {
    assert calls[c].input.expected != calls[c].input.next;
  }

  lemma WinKeepsCalls(sessions: Sessions, calls: map<nat, Call>, id: SessionId, s: Session, c: nat, won: Call)
    requires PendingOk(sessions, calls) && CallsOk(sessions, calls) && c in calls && calls[c].pc == Updating
    requires id in sessions && sessions[id].status == ACTIVE && s.hash == calls[c].input.next &&
      CallOk(sessions[id := s], won)
    ensures CallsOk(sessions[id := s], calls[c := won])
  {
    forall d | d in calls && d != c ensures CallOk(sessions[id := s], calls[d]) {
      assert CallOk(sessions, calls[d]) && calls[d].input.expected != calls[c].input.next;
    }
  }

  lemma WinKeepsInv(s: State, c: nat, pc: Pc)
    requires Inv(s) && c in s.calls && s.calls[c].pc == Updating && UpdateMatches(s.sessions, s.calls[c].input)
    requires pc == Finding || pc == Failed
    ensures var i := s.calls[c].input;
      Inv(s.(sessions := s.sessions[i.session := Rotation(s.sessions[i.session], i)],
        calls := s.calls[c := Call(i, pc, true)]))
  {
    var i := s.calls[c].input;
    var (rotated, won) := (Rotation(s.sessions[i.session], i), Call(i, pc, true));
    WinKeepsHashes(s.sessions, s.calls, s.seen, i.session, rotated, c, won);
    WinKeepsPending(s.sessions, s.calls, i.session, rotated, c, won);
    WinKeepsWon(s.sessions, s.calls, s.seen, i.session, rotated, c, won);
    WinKeepsCalls(s.sessions, s.calls, i.session, rotated, c, won);
  }

  lemma RevokesOnly(sessions: Sessions, id: SessionId, user: UserId, reason: Reason, now: int)
    ensures OnlyRevokes(sessions, RevokeOne(sessions, id, reason, now))
    ensures OnlyRevokes(sessions, RevokeAll(sessions, user, reason, now))
  {
  }

  /** Any step but a winning update only revokes and moves the call on. */
  lemma OtherStep(s: State, c: nat, fault: Fault)
    requires Inv(s) && c in s.calls &&
      !(s.calls[c].pc == Updating && fault != FailsBefore && UpdateMatches(s.sessions, s.calls[c].input))
    requires !s.calls[c].pc.Done? && !s.calls[c].pc.Failed?
    ensures var (sessions, call) := StepCall(s.sessions, s.calls[c], fault);
      && OnlyRevokes(s.sessions, sessions) && call == s.calls[c].(pc := call.pc) && call.pc != Updating &&
        CallOk(sessions, call)
  {
    RevokesOnly(s.sessions, s.calls[c].input.session, 0, REFRESH_REUSE, s.calls[c].input.now);
    assert CallOk(s.sessions, s.calls[c]);
  }

  lemma StepKeepsInv(s: State, c: nat, fault: Fault)
    requires Inv(s) && c in s.calls
    ensures Inv(Next(s, Step(c, fault)))
  {
    var (sessions, call) := StepCall(s.sessions, s.calls[c], fault);
    if s.calls[c].pc.Done? || s.calls[c].pc.Failed? {
      assert s.calls[c := call] == s.calls;
    } else if s.calls[c].pc == Updating && fault != FailsBefore && UpdateMatches(s.sessions, s.calls[c].input) {
      WinKeepsInv(s, c, call.pc);
    } else {
      OtherStep(s, c, fault);
      RevokingKeeps(s.sessions, sessions, s.calls, s.seen);
      MoveKeeps(sessions, s.calls, s.seen, c, call.pc);
    }
  }

  lemma LoginKeepsInv(s: State, id: SessionId, session: Session)
    requires Inv(s) && id !in s.sessions && session.hash !in s.seen
    ensures Inv(s.(sessions := s.sessions[id := session], seen := s.seen + {session.hash}))
  {
    forall c | c in s.calls ensures CallOk(s.sessions[id := session], s.calls[c]) {
      assert CallOk(s.sessions, s.calls[c]);
      assert s.calls[c].input.expected in s.seen;
    }
  }

  lemma BeginKeepsInv(s: State, c: nat, i: Input)
    requires Inv(s) && c !in s.calls && FreshHashes(s, i)
    ensures Inv(s.(calls := s.calls[c := Call(i, Updating, false)], seen := s.seen + {i.expected, i.next}))
  {
  }

  lemma NextKeepsInv(s: State, move: Move)
    requires Inv(s)
    ensures Inv(Next(s, move))
  {
    match move
    case AddUser(_, _) =>
    case Login(id, user, hash, issuedAt, expiresAt) =>
      if id !in s.sessions && hash !in s.seen {
        LoginKeepsInv(s, id, CreatedSession(user, hash, issuedAt, expiresAt));
      }
    case Begin(c, input) =>
      if c !in s.calls && FreshHashes(s, input) {
        BeginKeepsInv(s, c, input);
      }
    case Step(c, fault) =>
      if c in s.calls {
        StepKeepsInv(s, c, fault);
      }
    case Logout(id, reason, now) =>
      RevokesOnly(s.sessions, id, 0, reason, now);
      RevokingKeeps(s.sessions, RevokeOne(s.sessions, id, reason, now), s.calls, s.seen);
    case LogoutAll(user, reason, now) =>
      RevokesOnly(s.sessions, 0, user, reason, now);
      RevokingKeeps(s.sessions, RevokeAll(s.sessions, user, reason, now), s.calls, s.seen);
    case ChangePassword(user, expected, next, now) =>
      RevokesOnly(s.sessions, 0, user, LOGOUT_ALL, now);
      RevokingKeeps(s.sessions, RevokeAll(s.sessions, user, LOGOUT_ALL, now), s.calls, s.seen);
  }

  lemma {:induction false} EveryRunSatisfiesInv(moves: seq<Move>)
    ensures Inv(Run(moves))
  {
    if moves != [] {
      EveryRunSatisfiesInv(moves[..|moves| - 1]);
      NextKeepsInv(Run(moves[..|moves| - 1]), moves[|moves| - 1]);
    }
  }

  // ---------------------------------------------------------------- theorems

  /** A session once REVOKED never changes again, in any run. */
  lemma {:induction false} RevokedIsForever(moves: seq<Move>, i: nat, id: SessionId)
    requires i <= |moves| && IsRevoked(Run(moves[..i]).sessions, id)
    ensures id in Run(moves).sessions && Run(moves).sessions[id] == Run(moves[..i]).sessions[id]
  {
    RunsEvolve(moves, i);
  }

  /** Each refresh hash wins a rotation at most once, and winning calls are exactly those that report ROTATED. */
  lemma {:induction false} HashWinsOnce(moves: seq<Move>, c: nat, d: nat)
    requires c in Run(moves).calls && d in Run(moves).calls
    ensures var (a, b) := (Run(moves).calls[c], Run(moves).calls[d]);
      && (a.pc.Done? ==> (a.pc.outcome == Rotated <==> a.won))
      && (c != d && a.won && b.won ==> a.input.expected != b.input.expected)
  {
    EveryRunSatisfiesInv(moves);
    assert CallOk(Run(moves).sessions, Run(moves).calls[c]);
  }

  /** Once a call has reported REUSE_DETECTED, its session never changes again: nothing rotates it. */
  lemma {:induction false} NothingRotatesAfterReuse(moves: seq<Move>, i: nat, c: nat)
    requires i <= |moves| && c in Run(moves[..i]).calls && Run(moves[..i]).calls[c].pc == Done(ReuseDetected)
    ensures var id := Run(moves[..i]).calls[c].input.session;
      IsRevoked(Run(moves[..i]).sessions, id) && id in Run(moves).sessions &&
        Run(moves).sessions[id] == Run(moves[..i]).sessions[id]
  {
    EveryRunSatisfiesInv(moves[..i]);
    assert CallOk(Run(moves[..i]).sessions, Run(moves[..i]).calls[c]);
    RevokedIsForever(moves, i, Run(moves[..i]).calls[c].input.session);
  }

  /** A password change ends every session the user had: none of them is ever rotated or active again. */
  lemma {:induction false} PasswordChangeEndsSessions(moves: seq<Move>, i: nat, id: SessionId)
    requires i < |moves| && moves[i].ChangePassword? && id in Run(moves[..i]).sessions
    requires Run(moves[..i]).sessions[id].user == moves[i].user && moves[i].user in Run(moves[..i]).users
    requires Run(moves[..i]).users[moves[i].user] == User(moves[i].expected, true)
    ensures IsRevoked(Run(moves).sessions, id) && Run(moves).sessions[id].hash == Run(moves[..i]).sessions[id].hash
  {
    assert moves[..i + 1][..i] == moves[..i];
    RevokedIsForever(moves, i + 1, id);
  }

  /** A password changes exactly when the current one is presented for an active user; otherwise nothing does. */
  lemma PasswordChangeIsAnswered(s: State, user: UserId, expected: Hash, next: Hash, now: int)
    ensures var t := Next(s, ChangePassword(user, expected, next, now));
      if user in s.users && s.users[user] == User(expected, true) then
        && t.users == s.users[user := User(next, true)]
        && t.sessions.Keys == s.sessions.Keys
        && forall id :: id in s.sessions ==>
             if s.sessions[id].user == user && s.sessions[id].status == ACTIVE
             then t.sessions[id] ==
                    s.sessions[id].(status := REVOKED, revokedAt := Some(now), reason := Some(LOGOUT_ALL))
             else t.sessions[id] == s.sessions[id]
      else t == s
  {
  }

  /**
    Logging in with a new hash opens an active session; logging out revokes exactly one, logging out
    everywhere all of a user's.
   */
  lemma SessionsAreAnswered(s: State, id: SessionId, user: UserId, hash: Hash, reason: Reason, now: int)
    ensures id !in s.sessions && hash !in s.seen ==>
      Next(s, Login(id, user, hash, now, now)).sessions ==
        s.sessions[id := Session(user, hash, now, now, None, ACTIVE, None, None)]
    ensures id in s.sessions && s.sessions[id].status == ACTIVE ==>
      Next(s, Logout(id, reason, now)).sessions ==
        s.sessions[id := s.sessions[id].(status := REVOKED, revokedAt := Some(now), reason := Some(reason))]
    ensures !(id in s.sessions && s.sessions[id].status == ACTIVE) ==> Next(s, Logout(id, reason, now)) == s
    ensures var t := Next(s, LogoutAll(user, reason, now)).sessions;
      && t.Keys == s.sessions.Keys
      && forall i :: i in s.sessions ==>
           if s.sessions[i].user == user && s.sessions[i].status == ACTIVE
           then t[i] == s.sessions[i].(status := REVOKED, revokedAt := Some(now), reason := Some(reason))
           else t[i] == s.sessions[i]
  {
  }

  // ---------------------------------------------------------------- the stepwise form and the atomic one

  /** Steps of one call with nothing in between. */
  function Alone(sessions: Sessions, c: Call, steps: nat): (Sessions, Call) {
    if steps == 0 then (sessions, c)
    else var (s, d) := Alone(sessions, c, steps - 1); StepCall(s, d, NoFault)
  }

  /** Undisturbed, the steps have the atomic version's effect and outcome. */
  lemma {:induction false} AloneIsAtomic(sessions: Sessions, i: Input)
    ensures var (after, c) := Alone(sessions, Call(i, Updating, false), 3);
      c.pc.Done? && (after, c.pc.outcome) == AtomicRotate(sessions, i)
  {
    var c0 := Call(i, Updating, false);
    var (s1, c1) := StepCall(sessions, c0, NoFault);
    var (s2, c2) := StepCall(s1, c1, NoFault);
    assert Alone(sessions, c0, 1) == (s1, c1);
    assert Alone(sessions, c0, 2) == (s2, c2);
  }

  /** At some moment while the call was running, the atomic version would have had this outcome. */
  ghost predicate Justified(moves: seq<Move>, c: nat, outcome: Outcome) {
    exists j: nat :: j < |moves| && AtomicAt(Run(moves[..j]), c, outcome)
  }

  predicate AtomicAt(s: State, c: nat, outcome: Outcome) {
    c in s.calls && !s.calls[c].pc.Done? && !s.calls[c].pc.Failed? &&
      AtomicRotate(s.sessions, s.calls[c].input).1 == outcome
  }

  ghost predicate Explains(moves: seq<Move>, c: nat, pc: Pc) {
    match pc
    case Finding => Justified(moves, c, Rotated)
    case Revoking => Justified(moves, c, ReuseDetected)
    case Done(outcome) => Justified(moves, c, outcome)
    case _ => true
  }

  lemma JustifiedLater(moves: seq<Move>, c: nat, outcome: Outcome)
    requires moves != [] && Justified(moves[..|moves| - 1], c, outcome)
    ensures Justified(moves, c, outcome)
  {
    var shorter := moves[..|moves| - 1];
    var j: nat :| j < |shorter| && AtomicAt(Run(shorter[..j]), c, outcome);
    assert shorter[..j] == moves[..j];
  }

  lemma JustifiedNow(moves: seq<Move>, c: nat, outcome: Outcome)
    requires moves != [] && AtomicAt(Run(moves[..|moves| - 1]), c, outcome)
    ensures Justified(moves, c, outcome)
  {
  }

  lemma StepExplains(s: State, c: nat, fault: Fault)
    requires Inv(s) && c in s.calls
    ensures var (before, pc) := (s.calls[c].pc, StepCall(s.sessions, s.calls[c], fault).1.pc);
      && (pc == Finding && before != Finding ==> AtomicAt(s, c, Rotated))
      && (pc == Revoking && before != Revoking ==> AtomicAt(s, c, ReuseDetected))
      && (pc == Done(Rotated) && before != pc ==> before == Finding)
      && (pc == Done(ReuseDetected) && before != pc ==> before == Revoking)
      && (pc == Done(NotActive) && before != pc ==> AtomicAt(s, c, NotActive))
  {
    assert CallOk(s.sessions, s.calls[c]);
  }

  /**
    Every outcome a call reports is one the atomic version would have given at some moment while the
    call was running.
   */
  lemma {:induction false} OutcomesAreJustified(moves: seq<Move>, c: nat)
    requires c in Run(moves).calls
    ensures Explains(moves, c, Run(moves).calls[c].pc)
  {
    if moves != [] {
      var shorter := moves[..|moves| - 1];
      var (s, move) := (Run(shorter), moves[|moves| - 1]);
      if c in s.calls {
        OutcomesAreJustified(shorter, c);
        EveryRunSatisfiesInv(shorter);
        if move.Step? && move.c == c {
          StepExplains(s, c, move.fault);
        }
        ExplainedStep(moves, c, s.calls[c].pc, Run(moves).calls[c].pc);
      }
    }
  }

  lemma ExplainedStep(moves: seq<Move>, c: nat, before: Pc, after: Pc)
    requires moves != [] && Explains(moves[..|moves| - 1], c, before)
    requires var s := Run(moves[..|moves| - 1]);
      after == before ||
        ((after == Finding ==> AtomicAt(s, c, Rotated)) && (after == Revoking ==> AtomicAt(s, c, ReuseDetected))
        && (after == Done(Rotated) ==> before == Finding) && (after == Done(ReuseDetected) ==> before == Revoking)
        && (after == Done(NotActive) ==> AtomicAt(s, c, NotActive)))
    ensures Explains(moves, c, after)
  {
    var shorter := moves[..|moves| - 1];
    if after == before {
      match after
      case Finding => JustifiedLater(moves, c, Rotated);
      case Revoking => JustifiedLater(moves, c, ReuseDetected);
      case Done(outcome) => JustifiedLater(moves, c, outcome);
      case _ =>
    } else {
      match after
      case Finding => JustifiedNow(moves, c, Rotated);
      case Revoking => JustifiedNow(moves, c, ReuseDetected);
      case Done(NotActive) => JustifiedNow(moves, c, NotActive);
      case Done(outcome) => JustifiedLater(moves, c, outcome);
      case _ =>
    }
  }

  // ---------------------------------------------------------------- what the atomic version keeps and the steps do not

  /** The same moves with every rotation carried out at once, as it begins. */
  function AtomicNext(s: State, move: Move): State {
    match move
    case Begin(c, input) =>
      if c in s.calls then s
      else
        var (sessions, outcome) := AtomicRotate(s.sessions, input);
        s.(sessions := sessions, calls := s.calls[c := Call(input, Done(outcome), outcome == Rotated)])
    case Step(_, _) => s
    case _ => Next(s, move)
  }

  function AtomicRun(moves: seq<Move>): State {
    if moves == [] then INIT else AtomicNext(AtomicRun(moves[..|moves| - 1]), moves[|moves| - 1])
  }

  /** The call has reported that its session's token was reused. */
  predicate ReportsReuse(s: State, c: nat) {
    c in s.calls && s.calls[c].pc == Done(ReuseDetected)
  }

  /** Reuse is reported once for a session, which is revoked from then on. */
  ghost predicate ReportedOnce(s: State) {
    && (forall c :: ReportsReuse(s, c) ==> IsRevoked(s.sessions, s.calls[c].input.session))
    && (forall c, d ::
          ReportsReuse(s, c) && ReportsReuse(s, d) && s.calls[c].input.session == s.calls[d].input.session ==> c == d)
  }

  lemma AtomicNextReportsOnce(s: State, move: Move)
    requires ReportedOnce(s)
    ensures ReportedOnce(AtomicNext(s, move))
  {
    var t := AtomicNext(s, move);
    if !move.Begin? && !move.Step? {
      NextEvolves(s, move);
      assert t.calls == s.calls;
      assert forall c :: ReportsReuse(t, c) ==> ReportsReuse(s, c);
    } else if move.Begin? && move.c !in s.calls {
      assert forall c :: ReportsReuse(t, c) && c != move.c ==> ReportsReuse(s, c);
    }
  }

  /** In any run of atomic rotations, at most one of them reports REUSE_DETECTED for a session. */
  lemma {:induction false} AtomicReuseIsReportedOnce(moves: seq<Move>)
    ensures ReportedOnce(AtomicRun(moves))
  {
    if moves != [] {
      AtomicReuseIsReportedOnce(moves[..|moves| - 1]);
      AtomicNextReportsOnce(AtomicRun(moves[..|moves| - 1]), moves[|moves| - 1]);
    }
  }

  /**
    The last step of a detected reuse has the atomic effect; it reports what the atomic version would
    exactly when its conditional update still finds the session ACTIVE.
   */
  lemma {:induction false} RevokingStepIsAtomicIff(moves: seq<Move>, c: nat)
    requires c in Run(moves).calls && Run(moves).calls[c].pc == Revoking
    ensures var (sessions, call) := (Run(moves).sessions, Run(moves).calls[c]);
      var (after, next) := StepCall(sessions, call, NoFault);
      && call.input.session in sessions
      && next.pc == Done(ReuseDetected) && after == AtomicRotate(sessions, call.input).0
      && (next.pc.outcome == AtomicRotate(sessions, call.input).1 <==> sessions[call.input.session].status == ACTIVE)
  {
    EveryRunSatisfiesInv(moves);
    assert CallOk(Run(moves).sessions, Run(moves).calls[c]);
  }

  predicate BothAt(s: State, c: nat, d: nat, pc: Pc) {
    c in s.calls && d in s.calls && s.calls[c].pc == pc && s.calls[d].pc == pc
  }

  /** At some moment both calls had found the session active and neither had revoked it. */
  ghost predicate RaceToRevoke(moves: seq<Move>, c: nat, d: nat) {
    exists j: nat :: j <= |moves| && BothAt(Run(moves[..j]), c, d, Revoking)
  }

  lemma RaceLater(moves: seq<Move>, c: nat, d: nat)
    requires moves != [] && RaceToRevoke(moves[..|moves| - 1], c, d)
    ensures RaceToRevoke(moves, c, d)
  {
    var shorter := moves[..|moves| - 1];
    var j: nat :| j <= |shorter| && BothAt(Run(shorter[..j]), c, d, Revoking);
    assert shorter[..j] == moves[..j];
  }

  /** The call has found a reused token, and perhaps reported it. */
  predicate FoundReuse(s: State, c: nat) {
    c in s.calls && (s.calls[c].pc == Revoking || s.calls[c].pc == Done(ReuseDetected))
  }

  /** A call finds reuse by its status read alone, when the session is active. */
  lemma FindsReuse(s: State, move: Move, c: nat)
    requires FoundReuse(Next(s, move), c)
    ensures c in s.calls && Next(s, move).calls[c].input == s.calls[c].input
    ensures !FoundReuse(s, c) ==>
      && move.Step? && move.c == c && Next(s, move).sessions == s.sessions && Next(s, move).calls[c].pc == Revoking
      && !IsRevoked(s.sessions, s.calls[c].input.session)
  {
  }

  /** Beside a reported reuse, no other call on the session finds reuse any more. */
  lemma NobodyFindsReuse(s: State, move: Move, c: nat, d: nat)
    requires Inv(s) && c != d && FoundReuse(Next(s, move), c) && FoundReuse(Next(s, move), d)
    requires Next(s, move).calls[c].input.session == Next(s, move).calls[d].input.session
    requires !BothAt(Next(s, move), c, d, Revoking)
    ensures FoundReuse(s, c) && FoundReuse(s, d) && s.calls[c].input.session == s.calls[d].input.session
  {
    NextKeepsInv(s, move);
    FindsReuse(s, move, c);
    FindsReuse(s, move, d);
    if ReportsReuse(Next(s, move), c) {
      ReportRevoked(Next(s, move), c);
    }
    if ReportsReuse(Next(s, move), d) {
      ReportRevoked(Next(s, move), d);
    }
  }

  lemma ReportRevoked(s: State, c: nat)
    requires Inv(s) && ReportsReuse(s, c)
    ensures IsRevoked(s.sessions, s.calls[c].input.session)
  {
    assert CallOk(s.sessions, s.calls[c]);
  }

  lemma {:induction false} ReportsNeedRace(moves: seq<Move>, c: nat, d: nat)
    requires c != d && FoundReuse(Run(moves), c) && FoundReuse(Run(moves), d)
    requires Run(moves).calls[c].input.session == Run(moves).calls[d].input.session
    ensures RaceToRevoke(moves, c, d)
  {
    if BothAt(Run(moves), c, d, Revoking) {
      assert moves[..|moves|] == moves;
    } else {
      var shorter := moves[..|moves| - 1];
      EveryRunSatisfiesInv(shorter);
      NobodyFindsReuse(Run(shorter), moves[|moves| - 1], c, d);
      ReportsNeedRace(shorter, c, d);
      RaceLater(moves, c, d);
    }
  }

  /** A call that stood at its last step can only report REUSE_DETECTED, or fail. */
  lemma {:induction false} RevokingEnds(moves: seq<Move>, j: nat, c: nat)
    requires j <= |moves| && c in Run(moves[..j]).calls && Run(moves[..j]).calls[c].pc == Revoking
    ensures c in Run(moves).calls && (FoundReuse(Run(moves), c) || Run(moves).calls[c].pc == Failed)
    decreases |moves|
  {
    if j == |moves| {
      assert moves[..j] == moves;
    } else {
      var shorter := moves[..|moves| - 1];
      assert shorter[..j] == moves[..j];
      RevokingEnds(shorter, j, c);
      FoundReuseStays(Run(shorter), moves[|moves| - 1], c);
    }
  }

  lemma FoundReuseStays(s: State, move: Move, c: nat)
    requires c in s.calls && (FoundReuse(s, c) || s.calls[c].pc == Failed)
    ensures c in Next(s, move).calls && (FoundReuse(Next(s, move), c) || Next(s, move).calls[c].pc == Failed)
  {
  }

  /**
    Of the finished calls on one session, two report REUSE_DETECTED exactly when at some moment both
    had found it active with another hash and neither had revoked it.
   */
  lemma {:induction false} ReuseReportedTwiceIff(moves: seq<Move>, c: nat, d: nat)
    requires c in Run(moves).calls && d in Run(moves).calls && c != d
    requires Run(moves).calls[c].input.session == Run(moves).calls[d].input.session
    requires Run(moves).calls[c].pc.Done? && Run(moves).calls[d].pc.Done?
    ensures ReportsReuse(Run(moves), c) && ReportsReuse(Run(moves), d) <==> RaceToRevoke(moves, c, d)
  {
    if ReportsReuse(Run(moves), c) && ReportsReuse(Run(moves), d) {
      ReportsNeedRace(moves, c, d);
    }
    if RaceToRevoke(moves, c, d) {
      var j: nat :| j <= |moves| && BothAt(Run(moves[..j]), c, d, Revoking);
      RevokingEnds(moves, j, c);
      RevokingEnds(moves, j, d);
    }
  }

  const REPLAY_0 := Input(0, 7, 11, 0, 0, 0)
  const REPLAY_1 := Input(0, 7, 12, 0, 0, 0)

  /** One session, two replays of an old token. */
  predicate Replaying(s: State, session: Session, first: Pc, second: Pc) {
    s.sessions == map[0 := session] &&
      s.calls == map[0 := Call(REPLAY_0, first, false), 1 := Call(REPLAY_1, second, false)]
  }

  lemma {:induction false} RunAppends(moves: seq<Move>, move: Move)
    ensures Run(moves + [move]) == Next(Run(moves), move)
  {
    assert (moves + [move])[..|moves|] == moves;
  }

  lemma StepBoth(moves: seq<Move>, session: Session, pc: Pc, next: Pc) returns (more: seq<Move>)
    requires Replaying(Run(moves), session, pc, pc)
    requires forall i | i in {REPLAY_0, REPLAY_1} ::
      StepCall(map[0 := session], Call(i, pc, false), NoFault) == (map[0 := session], Call(i, next, false))
    ensures Replaying(Run(more), session, next, next)
  {
    RunAppends(moves, Step(0, NoFault));
    RunAppends(moves + [Step(0, NoFault)], Step(1, NoFault));
    more := moves + [Step(0, NoFault)] + [Step(1, NoFault)];
  }

  lemma BothBegin() returns (moves: seq<Move>)
    ensures Replaying(Run(moves), CreatedSession(0, 5, 0, 0), Updating, Updating)
  {
    var none: seq<Move> := [];
    RunAppends(none, Login(0, 0, 5, 0, 0));
    var one := none + [Login(0, 0, 5, 0, 0)];
    RunAppends(one, Begin(0, REPLAY_0));
    RunAppends(one + [Begin(0, REPLAY_0)], Begin(1, REPLAY_1));
    moves := one + [Begin(0, REPLAY_0)] + [Begin(1, REPLAY_1)];
  }

  lemma BothRevoke(moves: seq<Move>) returns (more: seq<Move>)
    requires Replaying(Run(moves), CreatedSession(0, 5, 0, 0), Revoking, Revoking)
    ensures Replaying(Run(more), Revocation(CreatedSession(0, 5, 0, 0), REFRESH_REUSE, 0), Done(ReuseDetected),
      Done(ReuseDetected))
  {
    RunAppends(moves, Step(0, NoFault));
    RunAppends(moves + [Step(0, NoFault)], Step(1, NoFault));
    more := moves + [Step(0, NoFault)] + [Step(1, NoFault)];
  }

  predicate BothReported(s: State) {
    && 0 in s.calls && 1 in s.calls && s.calls[0].input.session == s.calls[1].input.session
    && s.calls[0].pc == Done(ReuseDetected) && s.calls[1].pc == Done(ReuseDetected)
  }

  /** In steps, two replays that both check before either revokes report REUSE_DETECTED twice. */
  lemma ReuseCanBeReportedTwice()
    ensures exists moves :: BothReported(Run(moves))
  {
    var updating := BothBegin();
    var checking := StepBoth(updating, CreatedSession(0, 5, 0, 0), Updating, Checking);
    var revoking := StepBoth(checking, CreatedSession(0, 5, 0, 0), Checking, Revoking);
    var done := BothRevoke(revoking);
    assert BothReported(Run(done));
  }
}
