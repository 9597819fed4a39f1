/**
  The review lock and its keepalive: the scripts of apps/api/src/modules/redis/redis.lock.ts and
  ReviewLockKeepalive of apps/api/src/modules/review/processing/review-processing.service.ts.
  Time is real-valued and shared; timers fire at or after their deadline, never before it.
 */
module LockKeepalive {
  import opened Utf16

  // ---------------------------------------------------------------- the lock key

  type Token = nat

  datatype Lock = Lock(token: Token, expiresAt: real)

  predicate Live(lock: Option<Lock>, now: real) {
    lock.Some? && now < lock.value.expiresAt
  }

  predicate HeldBy(lock: Option<Lock>, token: Token, now: real) {
    Live(lock, now) && lock.value.token == token
  }

  /** SET NX PX. */
  function AcquireLock(lock: Option<Lock>, token: Token, ttl: real, now: real): (Option<Lock>, bool) {
    if Live(lock, now) then (lock, false) else (Some(Lock(token, now + ttl)), true)
  }

  /** RENEW_LOCK_SCRIPT. */
  function RenewLock(lock: Option<Lock>, token: Token, ttl: real, now: real): (Option<Lock>, bool) {
    if HeldBy(lock, token, now) then (Some(Lock(token, now + ttl)), true) else (lock, false)
  }

  /** RELEASE_LOCK_SCRIPT. */
  function ReleaseLock(lock: Option<Lock>, token: Token, now: real): (Option<Lock>, bool) {
    if HeldBy(lock, token, now) then (None, true) else (lock, false)
  }

  /** The lock key itself; each method is one Redis command or script. */
  class LockKey {
    var lock: Option<Lock>

    constructor ()
      ensures lock == None
    {
      lock := None;
    }

    /** GET of a key that may have expired. */
    method Get(now: real) returns (token: Option<Token>)
      ensures token == if Live(lock, now) then Some(lock.value.token) else None
    {
      token := if Live(lock, now) then Some(lock.value.token) else None;
    }

    method Acquire(token: Token, ttl: real, now: real) returns (acquired: bool)
      modifies this
      ensures acquired <==> old(lock).None? || old(lock).value.expiresAt <= now
      ensures lock == if acquired then Some(Lock(token, now + ttl)) else old(lock)
      ensures (lock, acquired) == AcquireLock(old(lock), token, ttl, now)
    {
      var holder := Get(now);
      if holder.Some? {
        return false;
      }
      lock := Some(Lock(token, now + ttl));
      acquired := true;
    }

    method Renew(token: Token, ttl: real, now: real) returns (renewed: bool)
      modifies this
      ensures renewed <==> old(lock).Some? && now < old(lock).value.expiresAt && old(lock).value.token == token
      ensures lock == if renewed then Some(Lock(token, now + ttl)) else old(lock)
      ensures (lock, renewed) == RenewLock(old(lock), token, ttl, now)
    {
      var holder := Get(now);
      if holder != Some(token) {
        return false;
      }
      lock := Some(Lock(token, now + ttl));
      renewed := true;
    }

    method Release(token: Token, now: real) returns (released: bool)
      modifies this
      ensures released <==> old(lock).Some? && now < old(lock).value.expiresAt && old(lock).value.token == token
      ensures lock == if released then None else old(lock)
      ensures (lock, released) == ReleaseLock(old(lock), token, now)
    {
      var holder := Get(now);
      if holder != Some(token) {
        return false;
      }
      lock := None;
      released := true;
    }
  }

  // ---------------------------------------------------------------- the keepalive

  /** A pending timer and what its callback closed over. */
  datatype Timer = Timer(deadline: real, cycle: nat, watchdogDeadline: real)

  /** `notices` counts the onLost calls. */
  datatype Keepalive = Keepalive(
    cycle: nat, renewal: Option<Timer>, watchdog: Option<Timer>, inFlight: bool, stopped: bool, lost: bool,
      notices: nat)

  const IDLE := Keepalive(0, None, None, false, false, false, 0)

  function Scheduled(k: Keepalive, lease: real, startedAt: real): Keepalive {
    var cycle := k.cycle + 1;
    var watchdog := startedAt + lease * 2.0 / 3.0;
    k.(cycle := cycle, renewal := Some(Timer(startedAt + lease / 3.0, cycle, watchdog)),
      watchdog := Some(Timer(watchdog, cycle, watchdog)))
  }

  function Stopped(k: Keepalive): Keepalive {
    k.(stopped := true, renewal := None, watchdog := None)
  }

  function Loss(k: Keepalive): Keepalive {
    if k.stopped || k.lost then k else k.(lost := true, notices := k.notices + 1)
  }

  /** The renewal callback up to the request it issues, if it issues one. */
  function RenewalFired(k: Keepalive, t: Timer, now: real): (Keepalive, bool) {
    if k.cycle != t.cycle then (k, false)
    else
      var fired := k.(renewal := None);
      if k.stopped || k.lost then (fired, false)
      else if now >= t.watchdogDeadline || k.inFlight then (Loss(fired), false)
      else (fired.(inFlight := true), true)
  }

  /** The reply to a renewal request; `renewed` is absent when the request was rejected. */
  function RenewalSettled(k: Keepalive, lease: real, t: Timer, renewed: Option<bool>, now: real): Keepalive {
    var settled := k.(inFlight := false);
    if renewed.None? then Loss(settled)
    else if k.stopped || k.lost || k.cycle != t.cycle then settled
    else if !renewed.value || now >= t.watchdogDeadline then Loss(settled)
    else Scheduled(settled.(watchdog := None), lease, now)
  }

  function WatchdogFired(k: Keepalive, t: Timer): Keepalive {
    if k.cycle != t.cycle then k else Loss(k.(watchdog := None))
  }

  class ReviewLockKeepalive {
    const leaseMs: real
    var cycleSequence: nat
    var renewalTimer: Option<Timer>
    var watchdogTimer: Option<Timer>
    var renewalInFlight: bool
    var stopped: bool
    var lost: bool
    var lossNotices: nat

    ghost function Contents(): Keepalive
      reads this
    {
      Keepalive(cycleSequence, renewalTimer, watchdogTimer, renewalInFlight, stopped, lost, lossNotices)
    }

    constructor (leaseMs: real)
      ensures Contents() == IDLE && this.leaseMs == leaseMs
    {
      this.leaseMs := leaseMs;
      cycleSequence, renewalTimer, watchdogTimer := 0, None, None;
      renewalInFlight, stopped, lost, lossNotices := false, false, false, 0;
    }

    method Start(now: real)
      modifies this
      ensures Contents() == Scheduled(old(Contents()), leaseMs, now)
    {
      ScheduleCycle(now);
    }

    method Stop()
      modifies this
      ensures Contents() == Stopped(old(Contents()))
    {
      stopped := true;
      renewalTimer := None;
      watchdogTimer := None;
    }

    method ScheduleCycle(startedAt: real)
      modifies this
      ensures Contents() == Scheduled(old(Contents()), leaseMs, startedAt)
    {
      cycleSequence := cycleSequence + 1;
      var renewalDeadline := startedAt + leaseMs / 3.0;
      var watchdogDeadline := startedAt + leaseMs * 2.0 / 3.0;
      renewalTimer := Some(Timer(renewalDeadline, cycleSequence, watchdogDeadline));
      watchdogTimer := Some(Timer(watchdogDeadline, cycleSequence, watchdogDeadline));
    }

    method OnRenewalTimer(t: Timer, now: real) returns (issued: bool)
      modifies this
      ensures (Contents(), issued) == RenewalFired(old(Contents()), t, now)
    {
      if cycleSequence != t.cycle {
        return false;
      }
      renewalTimer := None;
      if stopped || lost {
        return false;
      }
      if now >= t.watchdogDeadline || renewalInFlight {
        Lose();
        return false;
      }
      renewalInFlight := true;
      issued := true;
    }

    method OnRenewalReply(t: Timer, renewed: Option<bool>, now: real)
      modifies this
      ensures Contents() == RenewalSettled(old(Contents()), leaseMs, t, renewed, now)
    {
      renewalInFlight := false;
      if renewed.None? {
        Lose();
        return;
      }
      if stopped || lost {
        return;
      }
      if cycleSequence != t.cycle {
        return;
      }
      if !renewed.value || now >= t.watchdogDeadline {
        Lose();
        return;
      }
      watchdogTimer := None;
      ScheduleCycle(now);
    }

    method OnWatchdogTimer(t: Timer)
      modifies this
      ensures Contents() == WatchdogFired(old(Contents()), t)
    {
      if cycleSequence != t.cycle {
        return;
      }
      watchdogTimer := None;
      if stopped || lost {
        return;
      }
      Lose();
    }

    method Lose()
      modifies this
      ensures Contents() == Loss(old(Contents()))
    {
      if stopped || lost {
        return;
      }
      lost := true;
      lossNotices := lossNotices + 1;
    }
  }

  // ---------------------------------------------------------------- workers around one lock

  /** A renewal request on its way to Redis, or executed there with its reply on the way back. */
  datatype Renewal = NoRenewal | Sent(timer: Timer) | Executed(timer: Timer, renewed: bool)

  /**
    `acquiredAt` is the instant Redis accepted the lock; the keepalive has not started yet when it is
    present alone.
   */
  datatype Worker = Worker(acquiredAt: real, started: bool, keepalive: Keepalive, renewal: Renewal)

  datatype State = State(clock: real, lock: Option<Lock>, workers: map<Token, Worker>)

  datatype Move =
    | Tick(to: real)
    | Acquire(token: Token)
    | Start(token: Token)
    | FireRenewal(token: Token)
    | FireWatchdog(token: Token)
    | ExecuteRenewal(token: Token)
    | DeliverReply(token: Token)
    | RejectRenewal(token: Token)
    | StrayRenewal(token: Token)
    | Stop(token: Token)
    | Release(token: Token)

  /** One step of a worker and the lock; a step that is not possible changes nothing. */
  function StepWorker(lease: real, clock: real, lock: Option<Lock>, token: Token, w: Worker, move: Move
  ): (Option<Lock>, Worker) {
    match move
    case Start(_) =>
      // The source starts the keepalive as soon as the acquisition reply arrives; here, within a third of the lease.
      if !w.started && clock <= w.acquiredAt + lease / 3.0
      then (lock, w.(started := true, keepalive := Scheduled(w.keepalive, lease, clock))) else (lock, w)
    case FireRenewal(_) =>
      if w.keepalive.renewal.None? || clock < w.keepalive.renewal.value.deadline then (lock, w)
      else
        var t := w.keepalive.renewal.value;
        var (keepalive, issued) := RenewalFired(w.keepalive, t, clock);
        (lock, w.(keepalive := keepalive, renewal := if issued then Sent(t) else w.renewal))
    case FireWatchdog(_) =>
      if w.keepalive.watchdog.None? || clock < w.keepalive.watchdog.value.deadline then (lock, w)
      else (lock, w.(keepalive := WatchdogFired(w.keepalive, w.keepalive.watchdog.value)))
    case ExecuteRenewal(_) =>
      if !w.renewal.Sent? then (lock, w)
      else
        var (renewedLock, renewed) := RenewLock(lock, token, lease, clock);
        (renewedLock, w.(renewal := Executed(w.renewal.timer, renewed)))
    case DeliverReply(_) =>
      if !w.renewal.Executed? then (lock, w)
      else (lock, w.(renewal := NoRenewal,
                     keepalive := RenewalSettled(w.keepalive, lease, w.renewal.timer, Some(w.renewal.renewed), clock)))
    case RejectRenewal(_) =>
      if w.renewal == NoRenewal then (lock, w)
      else (lock, w.(renewal := NoRenewal,
        keepalive := RenewalSettled(w.keepalive, lease, w.renewal.timer, None, clock)))
    case StrayRenewal(_) => (RenewLock(lock, token, lease, clock).0, w)
    case Stop(_) => (lock, w.(keepalive := Stopped(w.keepalive)))
    case Release(_) => if w.keepalive.stopped then (ReleaseLock(lock, token, clock).0, w) else (lock, w)
    case _ => (lock, w)
  }

  function Step(lease: real, s: State, move: Move): State {
    match move
    case Tick(to) => if to >= s.clock then s.(clock := to) else s
    case Acquire(token) =>
      if token in s.workers then s
      else
        var (lock, acquired) := AcquireLock(s.lock, token, lease, s.clock);
        if acquired then s.(lock := lock, workers := s.workers[token := Worker(s.clock, false, IDLE, NoRenewal)]) else s
    case _ =>
      if move.token !in s.workers then s
      else
        var (lock, w) := StepWorker(lease, s.clock, s.lock, move.token, s.workers[move.token], move);
        s.(lock := lock, workers := s.workers[move.token := w])
  }

  function Run(lease: real, clock: real, moves: seq<Move>): State {
    if moves == [] then State(clock, None, map[])
    else Step(lease, Run(lease, clock, moves[..|moves| - 1]), moves[|moves| - 1])
  }

  // ---------------------------------------------------------------- invariant

  /** The keepalive is running and believes in its lease until its watchdog deadline. */
  predicate Running(w: Worker) {
    w.started && !w.keepalive.lost && !w.keepalive.stopped
  }

  /** Until `until`, the lock key holds this token and does not expire before that. */
  predicate Covers(lock: Option<Lock>, token: Token, clock: real, until: real) {
    clock < until ==> lock.Some? && lock.value.token == token && until <= lock.value.expiresAt
  }

  predicate TimersOk(lease: real, clock: real, k: Keepalive) {
    && k.watchdog.Some? && k.watchdog.value.deadline <= clock + lease * 2.0 / 3.0
    && k.watchdog.value.cycle == k.cycle && k.watchdog.value.deadline == k.watchdog.value.watchdogDeadline
    && (k.renewal.Some? ==>
      k.renewal.value == Timer(k.watchdog.value.deadline - lease / 3.0, k.cycle, k.watchdog.value.deadline))
  }

  /** A request of the current cycle was issued after the renewal deadline, and executed no earlier than that. */
  predicate RenewalOk(lease: real, clock: real, lock: Option<Lock>, token: Token, w: Worker) {
    var k := w.keepalive;
    && k.watchdog.Some? && (w.renewal != NoRenewal ==> k.inFlight && k.renewal.None?)
    && (w.renewal != NoRenewal ==>
      w.renewal.timer == Timer(k.watchdog.value.deadline - lease / 3.0, k.cycle, k.watchdog.value.deadline))
    && (w.renewal != NoRenewal ==> w.renewal.timer.deadline <= clock)
    && (w.renewal.Executed? && w.renewal.renewed ==> Covers(lock, token, clock, w.renewal.timer.deadline + lease))
  }

  predicate WorkerOk(lease: real, clock: real, lock: Option<Lock>, token: Token, w: Worker) {
    && w.acquiredAt <= clock
    && w.keepalive.notices == (if w.keepalive.lost then 1 else 0)
    && (!w.started ==> w.keepalive in {IDLE, Stopped(IDLE)} && w.renewal == NoRenewal)
    && (!w.started && !w.keepalive.stopped ==> Covers(lock, token, clock, w.acquiredAt + lease))
    && (Running(w) ==>
          TimersOk(lease, clock, w.keepalive) && Covers(lock, token, clock, w.keepalive.watchdog.value.deadline)
          && RenewalOk(lease, clock, lock, token, w))
  }

  ghost predicate Inv(lease: real, s: State) {
    forall token :: token in s.workers ==> WorkerOk(lease, s.clock, s.lock, token, s.workers[token])
  }

  lemma WorkerLetsOthersBe(lease: real, clock: real, lock: Option<Lock>, token: Token, w: Worker, other: Token,
      v: Worker, move: Move)
    requires lease > 0.0 && other != token && WorkerOk(lease, clock, lock, other, v)
    ensures WorkerOk(lease, clock, StepWorker(lease, clock, lock, token, w, move).0, other, v)
  {
    var after := StepWorker(lease, clock, lock, token, w, move).0;
    assert after == lock || after == RenewLock(lock, token, lease, clock).0 ||
      after == ReleaseLock(lock, token, clock).0;
    LockChangeKeeps(lease, clock, lock, token, other, v, after);
  }

  lemma LockChangeKeeps(lease: real, clock: real, lock: Option<Lock>, token: Token, other: Token, v: Worker,
      after: Option<Lock>)
    requires other != token && WorkerOk(lease, clock, lock, other, v)
    requires after == lock || after == AcquireLock(lock, token, lease, clock).0
          || after == RenewLock(lock, token, lease, clock).0 || after == ReleaseLock(lock, token, clock).0
    ensures WorkerOk(lease, clock, after, other, v)
  {
  }

  lemma OwnStepKeeps(lease: real, clock: real, lock: Option<Lock>, token: Token, w: Worker, move: Move)
    requires lease > 0.0 && WorkerOk(lease, clock, lock, token, w)
    ensures var (after, w') := StepWorker(lease, clock, lock, token, w, move);
      WorkerOk(lease, clock, after, token, w')
  {
  }

  lemma StepKeepsInv(lease: real, s: State, move: Move)
    requires lease > 0.0 && Inv(lease, s)
    ensures Inv(lease, Step(lease, s, move))
  {
    match move
    case Tick(to) =>
    case Acquire(token) =>
      forall other | other in s.workers && other != token
        ensures WorkerOk(lease, s.clock, AcquireLock(s.lock, token, lease, s.clock).0, other, s.workers[other])
      {
        LockChangeKeeps(lease, s.clock, s.lock, token, other, s.workers[other],
          AcquireLock(s.lock, token, lease, s.clock).0);
      }
    case _ =>
      if move.token in s.workers {
        OwnStepKeeps(lease, s.clock, s.lock, move.token, s.workers[move.token], move);
        forall other | other in s.workers && other != move.token
          ensures WorkerOk(lease, s.clock,
            StepWorker(lease, s.clock, s.lock, move.token, s.workers[move.token], move).0, other, s.workers[other])
        {
          WorkerLetsOthersBe(lease, s.clock, s.lock, move.token, s.workers[move.token], other, s.workers[other], move);
        }
      }
  }

  lemma {:induction false} EveryRunSatisfiesInv(lease: real, clock: real, moves: seq<Move>)
    requires lease > 0.0
    ensures Inv(lease, Run(lease, clock, moves))
  {
    if moves != [] {
      EveryRunSatisfiesInv(lease, clock, moves[..|moves| - 1]);
      StepKeepsInv(lease, Run(lease, clock, moves[..|moves| - 1]), moves[|moves| - 1]);
    }
  }

  // ---------------------------------------------------------------- theorems

  /** An un-lost, running keepalive whose watchdog deadline has not passed. */
  predicate Believes(s: State, token: Token) {
    && token in s.workers && Running(s.workers[token]) && s.workers[token].keepalive.watchdog.Some?
    && s.clock < s.workers[token].keepalive.watchdog.value.deadline
  }

  /**
    After any number of renewal cycles, a running keepalive has a watchdog deadline, and until it
    passes the lock key holds the worker's token with an expiry no earlier than the deadline.
   */
  lemma {:induction false} WatchdogWithinLease(lease: real, clock: real, moves: seq<Move>, token: Token)
    requires lease > 0.0
    requires token in Run(lease, clock, moves).workers && Running(Run(lease, clock, moves).workers[token])
    ensures var s := Run(lease, clock, moves);
      var watchdog := s.workers[token].keepalive.watchdog;
      && watchdog.Some?
      && (s.clock < watchdog.value.deadline ==>
            s.lock.Some? && s.lock.value.token == token && watchdog.value.deadline <= s.lock.value.expiresAt)
  {
    EveryRunSatisfiesInv(lease, clock, moves);
  }

  /** Two workers never both believe they hold the lock. */
  lemma {:induction false} BeliefsExclude(lease: real, clock: real, moves: seq<Move>, v: Token, w: Token)
    requires lease > 0.0 && Believes(Run(lease, clock, moves), v) && Believes(Run(lease, clock, moves), w)
    ensures v == w
  {
    WatchdogWithinLease(lease, clock, moves, v);
    WatchdogWithinLease(lease, clock, moves, w);
  }

  /** onLost is called at most once per keepalive, and exactly when it is lost. */
  lemma {:induction false} LossIsNotifiedOnce(lease: real, clock: real, moves: seq<Move>, token: Token)
    requires lease > 0.0 && token in Run(lease, clock, moves).workers
    ensures var k := Run(lease, clock, moves).workers[token].keepalive;
      k.notices <= 1 && (k.notices == 1 <==> k.lost)
  {
    EveryRunSatisfiesInv(lease, clock, moves);
  }

  /**
    A first cycle started at `at` is covered by the acquisition's lease exactly when it starts within a
    third of it.
   */
  lemma StartWithinThird(lease: real, acquiredAt: real, at: real)
    requires lease > 0.0
    ensures Scheduled(IDLE, lease, at).watchdog.value.deadline <= acquiredAt + lease <==> at <= acquiredAt + lease / 3.0
  {
  }

  // ---------------------------------------------------------------- liveness of the lease

  /**
    What the three scripts answer: the key is given to a new token exactly when no live key is
    there, and a holder renews and releases exactly a live key that holds its token.
   */
  lemma ScriptsAnswer(lock: Option<Lock>, token: Token, ttl: real, now: real)
    ensures lock.None? || lock.value.expiresAt <= now ==>
      && AcquireLock(lock, token, ttl, now) == (Some(Lock(token, now + ttl)), true)
      && RenewLock(lock, token, ttl, now) == (lock, false) && ReleaseLock(lock, token, now) == (lock, false)
    ensures lock.Some? && now < lock.value.expiresAt ==>
      && AcquireLock(lock, token, ttl, now) == (lock, false)
      && RenewLock(lock, token, ttl, now) ==
           (if lock.value.token == token then (Some(Lock(token, now + ttl)), true) else (lock, false))
      && ReleaseLock(lock, token, now) == (if lock.value.token == token then (None, true) else (lock, false))
  {
  }

  /** The current cycle of a started keepalive is still before its watchdog deadline. */
  predicate InTime(s: State, token: Token) {
    token in s.workers && s.workers[token].started && s.workers[token].keepalive.watchdog.Some? ==>
      s.clock < s.workers[token].keepalive.watchdog.value.deadline
  }

  /**
    Every cycle is renewed in time: at no moment of the run has the current watchdog deadline
    passed, no renewal was rejected, and the worker has not stopped.
   */
  predicate Punctual(lease: real, clock: real, moves: seq<Move>, token: Token) {
    moves != [] ==>
      && Punctual(lease, clock, moves[..|moves| - 1], token)
      && moves[|moves| - 1] !in {Stop(token), RejectRenewal(token)} && InTime(Run(lease, clock, moves), token)
  }

  /** A running cycle waits for its renewal timer or for its one request, which has not been refused. */
  predicate Steady(w: Worker) {
    && !w.keepalive.stopped && !w.keepalive.lost
    && (w.started ==>
          && (w.keepalive.renewal.Some? <==> w.renewal == NoRenewal)
          && (w.keepalive.inFlight <==> w.renewal != NoRenewal)
          && (w.renewal.Executed? ==> w.renewal.renewed))
  }

  lemma SteadyStep(lease: real, clock: real, lock: Option<Lock>, token: Token, w: Worker, move: Move)
    requires lease > 0.0 && WorkerOk(lease, clock, lock, token, w) && Steady(w)
    requires w.started && w.keepalive.watchdog.Some? ==> clock < w.keepalive.watchdog.value.deadline
    requires move !in {Stop(token), RejectRenewal(token)} && !move.Stop? && !move.RejectRenewal?
    ensures Steady(StepWorker(lease, clock, lock, token, w, move).1)
  {
  }

  lemma SteadyMove(lease: real, s: State, move: Move, token: Token)
    requires lease > 0.0 && Inv(lease, s) && InTime(s, token) && move !in {Stop(token), RejectRenewal(token)}
    requires token in s.workers ==> Steady(s.workers[token])
    ensures token in Step(lease, s, move).workers ==> Steady(Step(lease, s, move).workers[token])
  {
    if token in s.workers && !move.Tick? && !move.Acquire? && move.token == token {
      SteadyStep(lease, s.clock, s.lock, token, s.workers[token], move);
    }
  }

  lemma {:induction false} PunctualRunsAreSteady(lease: real, clock: real, moves: seq<Move>, token: Token)
    requires lease > 0.0 && Punctual(lease, clock, moves, token)
    ensures InTime(Run(lease, clock, moves), token)
    ensures token in Run(lease, clock, moves).workers ==> Steady(Run(lease, clock, moves).workers[token])
  {
    if moves != [] {
      var before := moves[..|moves| - 1];
      PunctualRunsAreSteady(lease, clock, before, token);
      EveryRunSatisfiesInv(lease, clock, before);
      SteadyMove(lease, Run(lease, clock, before), moves[|moves| - 1], token);
    }
  }

  /**
    A started keepalive whose renewals are answered in time and never rejected is not lost and its
    key never lapses, for any number of cycles and whatever the other workers do.
   */
  lemma {:induction false} PunctualLeaseIsKept(lease: real, clock: real, moves: seq<Move>, token: Token)
    requires lease > 0.0 && Punctual(lease, clock, moves, token)
    requires token in Run(lease, clock, moves).workers && Run(lease, clock, moves).workers[token].started
    ensures var s := Run(lease, clock, moves);
      && !s.workers[token].keepalive.lost
      && s.lock.Some? && s.lock.value.token == token && s.clock < s.lock.value.expiresAt
  {
    PunctualRunsAreSteady(lease, clock, moves, token);
    EveryRunSatisfiesInv(lease, clock, moves);
    assert WorkerOk(lease, Run(lease, clock, moves).clock, Run(lease, clock, moves).lock, token,
                    Run(lease, clock, moves).workers[token]);
  }

  /** One whole renewal, answered at once: the key and both timers move on from that instant. */
  lemma CycleRenews(lease: real, s: State, token: Token)
    requires lease > 0.0 && Inv(lease, s) && token in s.workers && s.workers[token].started
    requires Steady(s.workers[token]) && InTime(s, token) && s.workers[token].renewal == NoRenewal
    requires s.workers[token].keepalive.renewal.Some? && s.workers[token].keepalive.renewal.value.deadline <= s.clock
    ensures var fired := Step(lease, s, FireRenewal(token));
      var t := Step(lease, Step(lease, fired, ExecuteRenewal(token)), DeliverReply(token));
      var (k, cycle) := (t.workers[token].keepalive, s.workers[token].keepalive.cycle + 1);
      && t.lock == Some(Lock(token, s.clock + lease)) && k.cycle == cycle && !k.lost
      && k.renewal == Some(Timer(s.clock + lease / 3.0, cycle, s.clock + lease * 2.0 / 3.0))
      && k.watchdog == Some(Timer(s.clock + lease * 2.0 / 3.0, cycle, s.clock + lease * 2.0 / 3.0))
  {
    assert WorkerOk(lease, s.clock, s.lock, token, s.workers[token]);
  }

  /** A worker that finds no live key takes it, and starts its keepalive with both deadlines ahead. */
  lemma AcquiredLeaseStarts(lease: real, s: State, token: Token)
    requires lease > 0.0 && token !in s.workers && (s.lock.None? || s.lock.value.expiresAt <= s.clock)
    ensures var taken := Step(lease, s, Acquire(token));
      var t := Step(lease, taken, Start(token));
      && taken.lock == Some(Lock(token, s.clock + lease)) && token in t.workers && t.lock == taken.lock
      && t.workers[token].started && Running(t.workers[token]) && t.workers[token].renewal == NoRenewal
      && t.workers[token].keepalive.renewal == Some(Timer(s.clock + lease / 3.0, 1, s.clock + lease * 2.0 / 3.0))
      && t.workers[token].keepalive.watchdog == Some(Timer(s.clock + lease * 2.0 / 3.0, 1, s.clock + lease * 2.0 / 3.0))
  {
  }

  /** What loses a running lease: a passed watchdog deadline, a rejected request, or a refused one. */
  lemma LateCycleIsLost(lease: real, s: State, token: Token)
    requires lease > 0.0 && Inv(lease, s) && token in s.workers && Running(s.workers[token])
    ensures var (w, k) := (s.workers[token], s.workers[token].keepalive);
      && k.watchdog.Some?
      && (k.watchdog.value.deadline <= s.clock ==> Step(lease, s, FireWatchdog(token)).workers[token].keepalive.lost)
      && (k.watchdog.value.deadline <= s.clock && k.renewal.Some? ==>
            Step(lease, s, FireRenewal(token)).workers[token].keepalive.lost)
      && (w.renewal.Executed? && (!w.renewal.renewed || k.watchdog.value.deadline <= s.clock) ==>
            Step(lease, s, DeliverReply(token)).workers[token].keepalive.lost)
      && (w.renewal != NoRenewal ==> Step(lease, s, RejectRenewal(token)).workers[token].keepalive.lost)
  {
    assert WorkerOk(lease, s.clock, s.lock, token, s.workers[token]);
  }

  /** A stopped keepalive has no timers, issues no request and is never lost, whatever callbacks still arrive. */
  lemma StoppedIsQuiet(k: Keepalive, lease: real, t: Timer, renewed: Option<bool>, now: real)
    ensures Stopped(k).stopped && Stopped(k).renewal.None? && Stopped(k).watchdog.None? && Stopped(k).lost == k.lost
    ensures k.stopped ==>
      && !RenewalFired(k, t, now).1 && RenewalFired(k, t, now).0.lost == k.lost
      && RenewalSettled(k, lease, t, renewed, now) == k.(inFlight := false)
      && WatchdogFired(k, t).lost == k.lost && Loss(k) == k
  {
  }
}
