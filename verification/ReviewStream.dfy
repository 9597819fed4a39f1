/**
  The server side of a review's event stream:
  apps/api/src/modules/review/review-events.service.ts. Every repository read sees the review as it
  is at that moment; the log may have grown, or the review may be gone, between two reads.
 */
module ReviewStream {
  import opened Utf16
  import L = ReviewLog
  import opened ReviewEvents
  import W = SseWire

  const MAX_REPLAY := 64

  // ---------------------------------------------------------------- the cursor

  datatype Cursor = Absent | InvalidCursor | Valid(sequence: nat)

  function ParseCursor(value: Option<Text>): Cursor {
    if value.None? || Trim(value.value) == [] then Absent
    else
      var normalized := Trim(value.value);
      if !IsEventId(normalized) then InvalidCursor
      else if 0 < NumberOf(normalized) <= L.MAX_EVENT_SEQUENCE then Valid(NumberOf(normalized)) else InvalidCursor
  }

  predicate IsContiguous(events: seq<L.Event>, first: nat) {
    forall i :: 0 <= i < |events| ==> events[i].sequence == first + i
  }

  // ---------------------------------------------------------------- opening a connection

  /** Who is reading which review. */
  datatype Reader = Reader(user: nat, name: Text)

  datatype Delivery = Delivery(delivered: nat, events: seq<ReviewEvent>)

  /** `events.map(toEvent)`; absent when one of them throws. */
  function ToEvents(name: Text, records: seq<L.Event>): Option<seq<ReviewEvent>> {
    if records == [] then Some([])
    else match (ToEvent(name, records[0]), ToEvents(name, records[1..]))
      case (Some(e), Some(es)) => Some([e] + es)
      case _ => None
  }

  function ResetTo(r: Reader, latest: L.Event): Option<Delivery> {
    match ToResetSnapshot(r.name, latest)
    case None => None
    case Some(e) => Some(Delivery(latest.sequence, [e]))
  }

  function ReplayOrReset(r: Reader, events: seq<L.Event>, from: nat, latest: L.Event): Option<Delivery> {
    if events == [] || |events| > MAX_REPLAY || !IsContiguous(events, from + 1) then ResetTo(r, latest)
    else Replayed(ToEvents(r.name, events), events[|events| - 1].sequence)
  }

  function Replayed(wire: Option<seq<ReviewEvent>>, last: nat): Option<Delivery> {
    match wire
    case None => None
    case Some(es) => Some(Delivery(last, es))
  }

  /** resolveInitialDelivery; `early` and `late` are the review at its first and its second list read. */
  function ResolveInitialDelivery(r: Reader, cursor: Cursor, latest: L.Event, early: L.Slot,
      late: L.Slot): Option<Delivery> {
    match cursor
    case InvalidCursor => ResetTo(r, latest)
    case Absent => ReplayOrReset(r, L.ListEvents(early, r.user, 0, MAX_REPLAY + 1), 0, latest)
    case Valid(c) =>
      if c > latest.sequence then ResetTo(r, latest)
      else if c == latest.sequence then Some(Delivery(c, []))
      else
        var first := L.ListEvents(early, r.user, 0, 1);
        if first == [] || c < first[0].sequence - 1 then ResetTo(r, latest)
        else ReplayOrReset(r, L.ListEvents(late, r.user, c, MAX_REPLAY + 1), c, latest)
  }

  // ---------------------------------------------------------------- polling

  /** A connection: what it has delivered, whether it is over, and everything written to the response. */
  datatype Connection = Connection(delivered: nat, finished: bool, written: seq<ReviewEvent>)

  /** writeEvent of an event that may have failed its schema: absent stands for an exception. */
  function Writing(e: Option<ReviewEvent>): Option<ReviewEvent> {
    if e.Some? && W.WriteEvent(e.value).Some? then e else None
  }

  /** The loop over a poll's pending events. */
  function DeliverAll(name: Text, k: Connection, records: seq<L.Event>): Connection
    decreases |records|
  {
    if records == [] then k
    else match Writing(ToEvent(name, records[0]))
      case None => k.(finished := true)
      case Some(e) =>
        var next := k.(delivered := records[0].sequence, written := k.written + [e]);
        if L.Terminal(records[0].status) then next.(finished := true) else DeliverAll(name, next, records[1..])
  }

  lemma {:induction false} DeliverFirst(name: Text, k: Connection, records: seq<L.Event>, e: Option<ReviewEvent>)
    requires records != [] && Writing(ToEvent(name, records[0])) == e
    ensures DeliverAll(name, k, records) ==
      if e.None? then k.(finished := true)
      else
        var next := Connection(records[0].sequence, k.finished, k.written + [e.value]);
        if L.Terminal(records[0].status) then next.(finished := true) else DeliverAll(name, next, records[1..])
  {
  }

  /** What one poll meets: the session check, the list read, the latest read, and whether a heartbeat is due. */
  datatype Reading = Reading(active: bool, listed: L.Slot, latest: L.Slot, heartbeatDue: bool)

  function Poll(r: Reader, k: Connection, p: Reading): Connection {
    if k.finished then k
    else if !p.active then k.(finished := true)
    else
      var events := L.ListEvents(p.listed, r.user, k.delivered, MAX_REPLAY + 1);
      var latest := L.LatestEvent(p.latest, r.user);
      if |events| > MAX_REPLAY || (events != [] && !IsContiguous(events, k.delivered + 1)) then
        if latest.None? then k.(finished := true)
        else match Writing(ToResetSnapshot(r.name, latest.value))
          case None => k.(finished := true)
          case Some(e) => Connection(latest.value.sequence, L.Terminal(latest.value.status), k.written + [e])
      else if events != [] then DeliverAll(r.name, k, events)
      else IdlePoll(r.name, k, latest, p.heartbeatDue)
  }

  /** A poll with nothing pending. */
  function IdlePoll(name: Text, k: Connection, latest: Option<L.Event>, heartbeatDue: bool): Connection {
    if latest.None? || L.Terminal(latest.value.status) then k.(finished := true)
    else if !heartbeatDue then k
    else match Writing(ToHeartbeat(name, latest.value))
      case None => k.(finished := true)
      case Some(e) => k.(written := k.written + [e])
  }

  class EventStream {
    const reader: Reader
    var deliveredSequence: nat
    var finished: bool
    var written: seq<ReviewEvent>

    ghost function Contents(): Connection
      reads this
    {
      Connection(deliveredSequence, finished, written)
    }

    /** The first deliveries; the connection is over at once when the latest event was terminal. */
    constructor (reader: Reader, initial: Delivery, latest: L.Event)
      ensures this.reader == reader
      ensures (forall e :: e in initial.events ==> Writing(Some(e)).Some?) ==>
        Contents() == Connection(initial.delivered, L.Terminal(latest.status), initial.events)
    {
      this.reader := reader;
      deliveredSequence := initial.delivered;
      finished := false;
      written := [];
      new;
      var i := 0;
      while i < |initial.events|
        invariant 0 <= i <= |initial.events|
        invariant (forall e :: e in initial.events ==> Writing(Some(e)).Some?) ==>
          !finished && deliveredSequence == initial.delivered && written == initial.events[..i]
      {
        var ok := Write(Some(initial.events[i]));
        if !ok {
          finished := true;
          return;
        }
        i := i + 1;
      }
      if L.Terminal(latest.status) {
        finished := true;
      }
    }

    method Write(e: Option<ReviewEvent>) returns (ok: bool)
      modifies this`written
      ensures ok <==> Writing(e).Some?
      ensures written == if ok then old(written) + [e.value] else old(written)
    {
      if e.None? || W.WriteEvent(e.value).None? {
        return false;
      }
      written := written + [e.value];
      ok := true;
    }

    method PollOnce(p: Reading)
      modifies this
      ensures Contents() == Poll(reader, old(Contents()), p)
    {
      if finished {
        return;
      }
      if !p.active {
        finished := true;
        return;
      }
      var events := L.ListEvents(p.listed, reader.user, deliveredSequence, MAX_REPLAY + 1);
      if |events| > MAX_REPLAY || (|events| > 0 && !IsContiguous(events, deliveredSequence + 1)) {
        ResetToLatest(p.latest);
      } else if |events| > 0 {
        DeliverPending(events);
      } else {
        Idle(p);
      }
    }

    method ResetToLatest(slot: L.Slot)
      requires !finished
      modifies this
      ensures var latest := L.LatestEvent(slot, reader.user);
        Contents() ==
          if latest.None? || Writing(ToResetSnapshot(reader.name, latest.value)).None?
            then old(Contents()).(finished := true)
          else Connection(latest.value.sequence, L.Terminal(latest.value.status),
                          old(written) + [Writing(ToResetSnapshot(reader.name, latest.value)).value])
    {
      var current := L.LatestEvent(slot, reader.user);
      if current.None? {
        finished := true;
        return;
      }
      var ok := Write(ToResetSnapshot(reader.name, current.value));
      if !ok {
        finished := true;
        return;
      }
      deliveredSequence := current.value.sequence;
      if L.Terminal(current.value.status) {
        finished := true;
      }
    }

    method DeliverPending(events: seq<L.Event>)
      requires !finished
      modifies this
      ensures Contents() == DeliverAll(reader.name, old(Contents()), events)
    {
      var i := 0;
      while i < |events|
        invariant 0 <= i <= |events| && !finished
        invariant DeliverAll(reader.name, old(Contents()), events) == DeliverAll(reader.name, Contents(), events[i..])
      {
        ghost var before := Contents();
        assert events[i..][1..] == events[i + 1..];
        var e := ToEvent(reader.name, events[i]);
        var ok := Write(e);
        DeliverFirst(reader.name, before, events[i..], Writing(e));
        if !ok {
          finished := true;
          return;
        }
        deliveredSequence := events[i].sequence;
        if L.Terminal(events[i].status) {
          finished := true;
          return;
        }
        i := i + 1;
      }
    }

    method Idle(p: Reading)
      requires !finished
      modifies this
      ensures Contents() == IdlePoll(reader.name, old(Contents()), L.LatestEvent(p.latest, reader.user), p.heartbeatDue)
    {
      var current := L.LatestEvent(p.latest, reader.user);
      if current.None? || L.Terminal(current.value.status) {
        finished := true;
        return;
      }
      if p.heartbeatDue {
        var ok := Write(ToHeartbeat(reader.name, current.value));
        if !ok {
          finished := true;
        }
      }
    }

    /** The client went away, or the connection reached its maximal lifetime. */
    method Close()
      modifies this`finished
      ensures Contents() == old(Contents()).(finished := true)
    {
      finished := true;
    }
  }

  // ---------------------------------------------------------------- what a reader sees

  predicate IsReset(e: ReviewEvent) {
    e.body.Snapshot? && e.body.replay == Reset
  }

  function IdNumber(e: ReviewEvent): nat {
    if AllDigits(e.id) then NumberOf(e.id) else 0
  }

  /** The client accepts the event, and it repeats what the log records under its sequence number. */
  predicate FromLog(e: ReviewEvent, log: seq<L.Event>) {
    ClientAccepts(e) && 1 <= IdNumber(e) <= |log| && Describes(e, log[IdNumber(e) - 1])
  }

  ghost predicate AllFromLog(es: seq<ReviewEvent>, log: seq<L.Event>) {
    forall i :: 0 <= i < |es| ==> FromLog(es[i], log)
  }

  /**
    Where a reader at sequence number `from` stands after some written events: heartbeats change
    nothing, a reset snapshot never goes back, every other event is the exact successor.
    Absent when an event breaks these rules.
   */
  function Follow(from: nat, es: seq<ReviewEvent>): Option<nat> {
    if es == [] then Some(from) else Advance(Follow(from, es[..|es| - 1]), es[|es| - 1])
  }

  function Advance(reached: Option<nat>, e: ReviewEvent): Option<nat> {
    match reached
    case None => None
    case Some(at) =>
      if e.body == Heartbeat then Some(at)
      else if IsReset(e) then (if IdNumber(e) >= at then Some(IdNumber(e)) else None)
      else if IdNumber(e) == at + 1 then Some(at + 1) else None
  }

  lemma {:induction false} FollowNeverGoesBack(from: nat, es: seq<ReviewEvent>)
    requires Follow(from, es).Some?
    ensures from <= Follow(from, es).value
  {
    if es != [] {
      FollowNeverGoesBack(from, es[..|es| - 1]);
    }
  }

  lemma {:induction false} FollowConcat(from: nat, a: seq<ReviewEvent>, b: seq<ReviewEvent>)
    requires Follow(from, a).Some?
    ensures Follow(from, a + b) == Follow(Follow(from, a).value, b)
    decreases |b|
  {
    if b == [] {
      assert a + b == a;
    } else {
      var (before, e) := (b[..|b| - 1], b[|b| - 1]);
      FollowConcat(from, a, before);
      FollowOne(from, a + before, e);
      FollowOne(Follow(from, a).value, before, e);
      assert b == before + [e];
      assert a + b == a + before + [e];
    }
  }

  lemma {:induction false} FollowOne(from: nat, es: seq<ReviewEvent>, e: ReviewEvent)
    ensures Follow(from, es + [e]) == Advance(Follow(from, es), e)
  {
    assert (es + [e])[..|es + [e]| - 1] == es;
  }

  // ---------------------------------------------------------------- logs that grow

  ghost predicate Grows(id: L.ReviewId, a: L.Slot, b: L.Slot) {
    && L.Faithful(id, b) && a.events <= b.events && a.review.user == b.review.user
    && (a.review.deleted ==> b.review.deleted)
  }

  lemma ApplyGrows(id: L.ReviewId, s: L.Slot, op: L.Op)
    ensures var t := L.Apply(id, s, op).0;
      s.events <= t.events && s.review.user == t.review.user && (s.review.deleted ==> t.review.deleted)
  {
  }

  /** Lawful operations make a faithful review grow. */
  lemma {:induction false} RunsGrow(id: L.ReviewId, s: L.Slot, ops: seq<L.Op>)
    requires L.Faithful(id, s) && forall i :: 0 <= i < |ops| ==> L.Lawful(ops[i])
    ensures Grows(id, s, L.Run(id, s, ops))
  {
    if ops != [] {
      RunsGrow(id, s, ops[..|ops| - 1]);
      L.ApplyKeepsFaithful(id, L.Run(id, s, ops[..|ops| - 1]), ops[|ops| - 1]);
      ApplyGrows(id, L.Run(id, s, ops[..|ops| - 1]), ops[|ops| - 1]);
    }
  }

  /** A visible faithful review lists exactly the events after a cursor, up to the limit, without a gap. */
  lemma ListedEvents(id: L.ReviewId, s: L.Slot, user: nat, after: nat, limit: nat)
    requires L.FaithfulLog(id, s.events) && L.Visible(s, user)
    ensures L.ListEvents(s, user, after, limit) == Window(s.events, after, limit)
  {
    L.NewerIsSuffix(id, s.events, after);
  }

  /** The events with sequence numbers after `after`, at most `limit` of them. */
  function Window(log: seq<L.Event>, after: nat, limit: nat): seq<L.Event> {
    if after >= |log| then [] else if limit < |log| - after then log[after..after + limit] else log[after..]
  }

  lemma BacklogIsLong(id: L.ReviewId, s: L.Slot, user: nat, after: nat)
    requires L.FaithfulLog(id, s.events) && L.Visible(s, user) && |s.events| - after > MAX_REPLAY
    ensures |L.ListEvents(s, user, after, MAX_REPLAY + 1)| > MAX_REPLAY
  {
    ListedEvents(id, s, user, after, MAX_REPLAY + 1);
  }

  lemma NothingListed(id: L.ReviewId, s: L.Slot, user: nat, after: nat)
    requires L.FaithfulLog(id, s.events) && (s.review.deleted || |s.events| == after)
    ensures L.ListEvents(s, user, after, MAX_REPLAY + 1) == []
  {
    if L.Visible(s, user) {
      ListedEvents(id, s, user, after, MAX_REPLAY + 1);
    }
  }

  lemma NewestEvent(id: L.ReviewId, s: L.Slot, user: nat)
    requires L.Faithful(id, s) && user == s.review.user
    ensures L.LatestEvent(s, user) == if s.review.deleted then None else Some(s.events[|s.events| - 1])
    ensures s.events[|s.events| - 1].sequence == |s.events| && s.events[|s.events| - 1].status == s.review.status
  {
  }

  lemma WindowIsContiguous(id: L.ReviewId, log: seq<L.Event>, after: nat, limit: nat)
    requires L.FaithfulLog(id, log)
    ensures IsContiguous(Window(log, after, limit), after + 1)
  {
  }

  lemma TailIsContiguous(id: L.ReviewId, log: seq<L.Event>, after: nat)
    requires L.FaithfulLog(id, log) && after < |log|
    ensures IsContiguous(log[after..], after + 1)
  {
  }

  lemma RecordOfFaithful(id: L.ReviewId, s: L.Slot, i: nat)
    requires L.Faithful(id, s) && i < |s.events|
    ensures RecordOk(s.events[i]) && s.events[i].sequence == i + 1
  {
    FaithfulRecordsAreOk(id, s.events, i);
  }

  /** A lifecycle event with this sequence number, neither a heartbeat nor a reset snapshot. */
  predicate Ordinary(e: ReviewEvent, n: nat) {
    IdNumber(e) == n && e.body != Heartbeat && !IsReset(e)
  }

  lemma AcceptedIsWritten(e: Option<ReviewEvent>)
    requires e.Some? && ClientAccepts(e.value)
    ensures Writing(e) == e
  {
    W.AcceptedEventsAreWritable(e.value);
  }

  lemma DescribedIsFromLog(e: ReviewEvent, log: seq<L.Event>, i: nat)
    requires i < |log| && log[i].sequence == i + 1 && ClientAccepts(e) && Describes(e, log[i])
    ensures FromLog(e, log) && IdNumber(e) == i + 1
  {
  }

  lemma DeliveredIsWritten(o: Option<ReviewEvent>, log: seq<L.Event>, i: nat) returns (e: ReviewEvent)
    requires i < |log| && log[i].sequence == i + 1 && Delivers(o, log[i])
    ensures Writing(o) == Some(e) == o && FromLog(e, log) && IdNumber(e) == i + 1
  {
    e := o.value;
    AcceptedIsWritten(o);
    DescribedIsFromLog(e, log, i);
  }

  /** Writing a record's ordinary event succeeds, and what is written is from the log. */
  lemma OrdinaryIsWritten(id: L.ReviewId, s: L.Slot, name: Text, i: nat) returns (e: ReviewEvent)
    requires L.Faithful(id, s) && i < |s.events| && NameOk(name)
    ensures Writing(ToEvent(name, s.events[i])) == Some(e) == ToEvent(name, s.events[i])
    ensures FromLog(e, s.events) && Ordinary(e, i + 1)
  {
    RecordOfFaithful(id, s, i);
    RecordsAreDelivered(name, s.events[i]);
    e := DeliveredIsWritten(ToEvent(name, s.events[i]), s.events, i);
  }

  /** So does writing its reset snapshot. */
  lemma ResetIsWritten(id: L.ReviewId, s: L.Slot, name: Text, i: nat) returns (e: ReviewEvent)
    requires L.Faithful(id, s) && i < |s.events| && NameOk(name)
    ensures Writing(ToResetSnapshot(name, s.events[i])) == Some(e) == ToResetSnapshot(name, s.events[i])
    ensures FromLog(e, s.events) && IdNumber(e) == i + 1 && IsReset(e)
  {
    RecordOfFaithful(id, s, i);
    ResetsAndHeartbeatsAreDelivered(name, s.events[i]);
    e := DeliveredIsWritten(ToResetSnapshot(name, s.events[i]), s.events, i);
  }

  /** And its heartbeat, while its status is not terminal. */
  lemma HeartbeatIsWritten(id: L.ReviewId, s: L.Slot, name: Text, i: nat) returns (e: ReviewEvent)
    requires L.Faithful(id, s) && i < |s.events| && NameOk(name) && !L.Terminal(s.events[i].status)
    ensures Writing(ToHeartbeat(name, s.events[i])) == Some(e) == ToHeartbeat(name, s.events[i])
    ensures FromLog(e, s.events) && IdNumber(e) == i + 1 && e.body == Heartbeat
  {
    RecordOfFaithful(id, s, i);
    ResetsAndHeartbeatsAreDelivered(name, s.events[i]);
    e := DeliveredIsWritten(ToHeartbeat(name, s.events[i]), s.events, i);
  }

  // ---------------------------------------------------------------- one poll

  /** A connection whose deliveries so far are explained by a log. */
  ghost predicate Explained(from: nat, k: Connection, log: seq<L.Event>) {
    Follow(from, k.written) == Some(k.delivered) && AllFromLog(k.written, log) && k.delivered <= |log|
  }

  lemma ExplainedLonger(from: nat, k: Connection, log: seq<L.Event>, longer: seq<L.Event>)
    requires Explained(from, k, log) && log <= longer
    ensures Explained(from, k, longer)
  {
    forall i | 0 <= i < |k.written| ensures FromLog(k.written[i], longer) {
      assert FromLog(k.written[i], log);
    }
  }

  lemma AllFromLogOne(es: seq<ReviewEvent>, e: ReviewEvent, log: seq<L.Event>)
    requires AllFromLog(es, log) && FromLog(e, log)
    ensures AllFromLog(es + [e], log)
  {
    forall i | 0 <= i < |es + [e]| ensures FromLog((es + [e])[i], log) {
      if i < |es| {
        assert FromLog(es[i], log);
      }
    }
  }

  lemma WroteOne(from: nat, k: Connection, e: ReviewEvent, n: nat, after: Connection, log: seq<L.Event>)
    requires Explained(from, k, log) && FromLog(e, log) && n == IdNumber(e) <= |log|
    requires after.written == k.written + [e]
    requires after.delivered == if e.body == Heartbeat then k.delivered else n
    requires e.body == Heartbeat || (if IsReset(e) then n >= k.delivered else n == k.delivered + 1)
    ensures Explained(from, after, log)
  {
    FollowOne(from, k.written, e);
    AllFromLogOne(k.written, e, log);
  }

  /** Where the delivery loop stops: after the first terminal event past `i`, or at the end of the log. */
  function StopAt(log: seq<L.Event>, i: nat): (j: nat)
    requires i <= |log|
    ensures i <= j <= |log|
    decreases |log| - i
  {
    if i == |log| then i else if L.Terminal(log[i].status) then i + 1 else StopAt(log, i + 1)
  }

  /** One pending event delivered: the connection after it, explained by the log. */
  lemma DeliversOne(id: L.ReviewId, s: L.Slot, name: Text, from: nat, k: Connection) returns (next: Connection)
    requires L.Faithful(id, s) && NameOk(name) && Explained(from, k, s.events) && !k.finished &&
      k.delivered < |s.events|
    ensures next.delivered == k.delivered + 1 && |next.written| == |k.written| + 1 && k.written <= next.written
    ensures Ordinary(next.written[|k.written|], k.delivered + 1)
    ensures Explained(from, next, s.events)
    ensures next.finished <==> L.Terminal(s.events[k.delivered].status)
    ensures DeliverAll(name, k, s.events[k.delivered..]) == if next.finished then next
      else DeliverAll(name, next, s.events[k.delivered + 1..])
  {
    var e := OrdinaryIsWritten(id, s, name, k.delivered);
    RecordOfFaithful(id, s, k.delivered);
    next := Connection(k.delivered + 1, L.Terminal(s.events[k.delivered].status), k.written + [e]);
    DeliverNext(name, s.events, k, e, next);
    WroteOne(from, k, e, k.delivered + 1, next, s.events);
  }

  lemma {:induction false} DeliverNext(name: Text, log: seq<L.Event>, k: Connection, e: ReviewEvent, next: Connection)
    requires k.delivered < |log| && log[k.delivered].sequence == k.delivered + 1 && !k.finished
    requires Writing(ToEvent(name, log[k.delivered])) == Some(e)
    requires next == Connection(k.delivered + 1, L.Terminal(log[k.delivered].status), k.written + [e])
    ensures DeliverAll(name, k, log[k.delivered..]) ==
      if next.finished then next else DeliverAll(name, next, log[k.delivered + 1..])
  {
    DeliverFirst(name, k, log[k.delivered..], Some(e));
    assert log[k.delivered..][1..] == log[k.delivered + 1..];
  }

  /** Everything pending at k is delivered in order, one event each, up to the first terminal one. */
  predicate DeliveredPending(log: seq<L.Event>, k: Connection, after: Connection) {
    && k.delivered <= |log| && after.delivered == StopAt(log, k.delivered)
    && |after.written| == |k.written| + (after.delivered - k.delivered) && k.written <= after.written
    && (after.finished <==> after.delivered > k.delivered && L.Terminal(log[after.delivered - 1].status))
    && forall i :: |k.written| <= i < |after.written| ==> Ordinary(after.written[i], k.delivered + 1 + i - |k.written|)
  }

  lemma DeliveredOneMore(log: seq<L.Event>, k: Connection, next: Connection, after: Connection)
    requires k.delivered < |log| && next.delivered == k.delivered + 1
    requires |next.written| == |k.written| + 1 && k.written <= next.written &&
      Ordinary(next.written[|k.written|], k.delivered + 1)
    requires next.finished <==> L.Terminal(log[k.delivered].status)
    requires if next.finished then after == next else DeliveredPending(log, next, after)
    ensures DeliveredPending(log, k, after)
  {
  }

  lemma {:induction false} DeliversPending(id: L.ReviewId, s: L.Slot, name: Text, from: nat, k: Connection)
    requires L.Faithful(id, s) && NameOk(name) && Explained(from, k, s.events) && !k.finished
    ensures Explained(from, DeliverAll(name, k, s.events[k.delivered..]), s.events)
    ensures DeliveredPending(s.events, k, DeliverAll(name, k, s.events[k.delivered..]))
    decreases |s.events| - k.delivered
  {
    if k.delivered < |s.events| {
      var next := DeliversOne(id, s, name, from, k);
      if !next.finished {
        DeliversPending(id, s, name, from, next);
      }
      DeliveredOneMore(s.events, k, next, DeliverAll(name, k, s.events[k.delivered..]));
    }
  }

  // ---------------------------------------------------------------- one poll

  predicate Owns(r: Reader, s: L.Slot) {
    r.user == s.review.user && NameOk(r.name)
  }

  lemma PollWritesReset(r: Reader, k: Connection, p: Reading, latest: L.Event, e: ReviewEvent)
    requires p.active && !k.finished && |L.ListEvents(p.listed, r.user, k.delivered, MAX_REPLAY + 1)| > MAX_REPLAY
    requires L.LatestEvent(p.latest, r.user) == Some(latest) && Writing(ToResetSnapshot(r.name, latest)) == Some(e)
    ensures Poll(r, k, p) == Connection(latest.sequence, L.Terminal(latest.status), k.written + [e])
  {
  }

  /** The jump is forward to the newest event, as a reset snapshot. */
  predicate JumpsTo(newest: nat, k: Connection, after: Connection) {
    && after.delivered == newest >= k.delivered && |after.written| == |k.written| + 1 && k.written <= after.written
    && IsReset(after.written[|k.written|]) && IdNumber(after.written[|k.written|]) == newest
  }

  lemma PollResetEvent(id: L.ReviewId, r: Reader, k: Connection, p: Reading) returns (e: ReviewEvent)
    requires p.active && !k.finished && Owns(r, p.listed) && L.FaithfulLog(id, p.listed.events)
    requires Owns(r, p.latest) && L.Faithful(id, p.latest) && !p.listed.review.deleted && !p.latest.review.deleted
    requires |p.listed.events| - k.delivered > MAX_REPLAY
    ensures FromLog(e, p.latest.events) && IsReset(e) && IdNumber(e) == |p.latest.events|
    ensures Poll(r, k, p) == Connection(|p.latest.events|, L.Terminal(p.latest.review.status), k.written + [e])
  {
    BacklogIsLong(id, p.listed, r.user, k.delivered);
    NewestEvent(id, p.latest, r.user);
    var newest := |p.latest.events|;
    e := ResetIsWritten(id, p.latest, r.name, newest - 1);
    PollWritesReset(r, k, p, p.latest.events[newest - 1], e);
  }

  lemma PollLosesReview(id: L.ReviewId, r: Reader, k: Connection, p: Reading)
    requires p.active && !k.finished && p.latest.review.deleted && Owns(r, p.listed) &&
      L.FaithfulLog(id, p.listed.events)
    requires !p.listed.review.deleted && |p.listed.events| - k.delivered > MAX_REPLAY
    ensures Poll(r, k, p) == k.(finished := true)
  {
    ListedEvents(id, p.listed, r.user, k.delivered, MAX_REPLAY + 1);
  }

  /** More than the replay limit pending: the poll jumps to the newest event, as a reset snapshot. */
  lemma PollResets(id: L.ReviewId, r: Reader, from: nat, k: Connection, p: Reading)
    requires p.active && !k.finished && Owns(r, p.listed) && Explained(from, k, p.listed.events)
    requires L.Faithful(id, p.listed) && Grows(id, p.listed, p.latest)
    requires !p.listed.review.deleted && |p.listed.events| - k.delivered > 64
    ensures p.latest.review.deleted ==> Poll(r, k, p) == k.(finished := true)
    ensures !p.latest.review.deleted ==>
      && JumpsTo(|p.latest.events|, k, Poll(r, k, p)) && Explained(from, Poll(r, k, p), p.latest.events)
      && Poll(r, k, p).finished == L.Terminal(p.latest.review.status)
  {
    if p.latest.review.deleted {
      PollLosesReview(id, r, k, p);
    } else {
      var e := PollResetEvent(id, r, k, p);
      JumpExplained(from, k, p.listed.events, p.latest.events, e, Poll(r, k, p));
    }
  }

  lemma JumpExplained(from: nat, k: Connection, log: seq<L.Event>, longer: seq<L.Event>, e: ReviewEvent,
      after: Connection)
    requires Explained(from, k, log) && log <= longer && FromLog(e, longer) && IsReset(e) && IdNumber(e) == |longer|
    requires after.delivered == |longer| && after.written == k.written + [e]
    ensures Explained(from, after, longer) && JumpsTo(|longer|, k, after)
  {
    ExplainedLonger(from, k, log, longer);
    WroteOne(from, k, e, |longer|, after, longer);
  }

  /** Up to the replay limit pending: the poll delivers exactly the successors, one by one. */
  lemma PollDelivers(id: L.ReviewId, r: Reader, from: nat, k: Connection, p: Reading)
    requires p.active && !k.finished && Owns(r, p.listed) && Explained(from, k, p.listed.events)
    requires L.Faithful(id, p.listed) && !p.listed.review.deleted && 0 < |p.listed.events| - k.delivered <= 64
    ensures Explained(from, Poll(r, k, p), p.listed.events) && DeliveredPending(p.listed.events, k, Poll(r, k, p))
  {
    ListedEvents(id, p.listed, r.user, k.delivered, MAX_REPLAY + 1);
    WindowIsContiguous(id, p.listed.events, k.delivered, MAX_REPLAY + 1);
    DeliversPending(id, p.listed, r.name, from, k);
  }

  lemma PollFindsNothing(r: Reader, k: Connection, p: Reading)
    requires p.active && !k.finished && L.ListEvents(p.listed, r.user, k.delivered, MAX_REPLAY + 1) == []
    ensures Poll(r, k, p) == IdlePoll(r.name, k, L.LatestEvent(p.latest, r.user), p.heartbeatDue)
  {
  }

  /** Nothing new: one heartbeat, or nothing. */
  predicate Idles(newest: nat, k: Connection, after: Connection, beats: bool) {
    && after.delivered == k.delivered && k.written <= after.written
    && |after.written| == |k.written| + (if beats then 1 else 0)
    && (beats ==> after.written[|k.written|].body == Heartbeat && IdNumber(after.written[|k.written|]) == newest)
  }

  /**
    Nothing pending: a heartbeat with the newest event's sequence number is written exactly when it
    is due and the review is there and not terminal, and nothing else is.
   */
  lemma PollIdles(id: L.ReviewId, r: Reader, from: nat, k: Connection, p: Reading)
    requires p.active && !k.finished && Owns(r, p.listed) && Explained(from, k, p.listed.events)
    requires L.Faithful(id, p.listed) && Grows(id, p.listed, p.latest)
    requires p.listed.review.deleted || |p.listed.events| == k.delivered
    ensures Explained(from, Poll(r, k, p), p.latest.events)
    ensures Idles(|p.latest.events|, k, Poll(r, k, p),
                  p.heartbeatDue && !p.latest.review.deleted && !L.Terminal(p.latest.review.status))
    ensures Poll(r, k, p).finished <==> p.latest.review.deleted || L.Terminal(p.latest.review.status)
  {
    NothingListed(id, p.listed, r.user, k.delivered);
    PollFindsNothing(r, k, p);
    ExplainedLonger(from, k, p.listed.events, p.latest.events);
    var after := IdleExplained(id, p.latest, r, from, k, p.heartbeatDue);
  }

  lemma IdleExplained(id: L.ReviewId, s: L.Slot, r: Reader, from: nat, k: Connection,
      heartbeatDue: bool) returns (after: Connection)
    requires L.Faithful(id, s) && Owns(r, s) && Explained(from, k, s.events) && !k.finished
    ensures after == IdlePoll(r.name, k, L.LatestEvent(s, r.user), heartbeatDue)
    ensures Explained(from, after, s.events)
    ensures Idles(|s.events|, k, after, heartbeatDue && !s.review.deleted && !L.Terminal(s.review.status))
    ensures after.finished <==> s.review.deleted || L.Terminal(s.review.status)
  {
    NewestEvent(id, s, r.user);
    if s.review.deleted || L.Terminal(s.review.status) {
      after := k.(finished := true);
    } else if !heartbeatDue {
      after := k;
    } else {
      after := IdleBeats(id, s, r.name, from, k);
    }
  }

  lemma IdleBeats(id: L.ReviewId, s: L.Slot, name: Text, from: nat, k: Connection) returns (after: Connection)
    requires L.Faithful(id, s) && NameOk(name) && Explained(from, k, s.events) &&
      !L.Terminal(s.events[|s.events| - 1].status)
    ensures after == IdlePoll(name, k, Some(s.events[|s.events| - 1]), true) && after.finished == k.finished
    ensures Explained(from, after, s.events) && Idles(|s.events|, k, after, true)
  {
    var e := HeartbeatIsWritten(id, s, name, |s.events| - 1);
    after := k.(written := k.written + [e]);
    BeatExplained(from, k, e, s.events);
  }

  lemma BeatExplained(from: nat, k: Connection, e: ReviewEvent, log: seq<L.Event>)
    requires Explained(from, k, log) && FromLog(e, log) && e.body == Heartbeat && IdNumber(e) == |log|
    ensures Explained(from, k.(written := k.written + [e]), log) &&
      Idles(|log|, k, k.(written := k.written + [e]), true)
  {
    WroteOne(from, k, e, |log|, k.(written := k.written + [e]), log);
  }

  /** A finished connection stays as it is, and an inactive session ends it without another event. */
  lemma PollEnds(r: Reader, k: Connection, p: Reading)
    ensures k.finished ==> Poll(r, k, p) == k
    ensures !k.finished && !p.active ==> Poll(r, k, p) == Connection(k.delivered, true, k.written)
  {
  }

  /** Any poll keeps a connection explained by the log it read last, and never moves it back. */
  lemma PollKeepsExplained(id: L.ReviewId, r: Reader, from: nat, k: Connection, p: Reading)
    requires Owns(r, p.listed) && Explained(from, k, p.listed.events)
    requires L.Faithful(id, p.listed) && Grows(id, p.listed, p.latest)
    ensures Explained(from, Poll(r, k, p), p.latest.events) && Poll(r, k, p).delivered >= k.delivered
  {
    if k.finished || !p.active {
      ExplainedLonger(from, k, p.listed.events, p.latest.events);
    } else if p.listed.review.deleted || |p.listed.events| == k.delivered {
      PollIdles(id, r, from, k, p);
    } else if |p.listed.events| - k.delivered > MAX_REPLAY {
      PollResets(id, r, from, k, p);
      ExplainedLonger(from, k, p.listed.events, p.latest.events);
    } else {
      PollDelivers(id, r, from, k, p);
      ExplainedLonger(from, Poll(r, k, p), p.listed.events, p.latest.events);
    }
  }

  // ---------------------------------------------------------------- whole connections

  function Polls(r: Reader, k: Connection, ps: seq<Reading>): Connection {
    if ps == [] then k else Poll(r, Polls(r, k, ps[..|ps| - 1]), ps[|ps| - 1])
  }

  /** The reads of a run of polls see one growing review. */
  ghost predicate InOrder(id: L.ReviewId, start: L.Slot, ps: seq<Reading>) {
    ps == [] ||
      var last := ps[|ps| - 1];
      && InOrder(id, start, ps[..|ps| - 1])
      && Grows(id, LastRead(start, ps[..|ps| - 1]), last.listed) && Grows(id, last.listed, last.latest)
  }

  function LastRead(start: L.Slot, ps: seq<Reading>): L.Slot {
    if ps == [] then start else ps[|ps| - 1].latest
  }

  /**
    Over a whole connection the delivered sequence number never decreases, every ordinary event is
    the exact successor of the one before, every jump is a reset snapshot forward, and everything
    written is what the log records.
   */
  lemma {:induction false} ConnectionIsExplained(id: L.ReviewId, r: Reader, from: nat, k: Connection, start: L.Slot,
      ps: seq<Reading>)
    requires Owns(r, start) && L.Faithful(id, start) && Explained(from, k, start.events) && InOrder(id, start, ps)
    ensures Explained(from, Polls(r, k, ps), LastRead(start, ps).events)
    ensures L.Faithful(id, LastRead(start, ps)) && LastRead(start, ps).review.user == start.review.user
    ensures Polls(r, k, ps).delivered >= k.delivered
  {
    if ps != [] {
      var before := ps[..|ps| - 1];
      var p := ps[|ps| - 1];
      ConnectionIsExplained(id, r, from, k, start, before);
      ExplainedLonger(from, Polls(r, k, before), LastRead(start, before).events, p.listed.events);
      PollKeepsExplained(id, r, from, Polls(r, k, before), p);
    }
  }

  lemma AllFromLogAccepted(es: seq<ReviewEvent>, log: seq<L.Event>)
    requires AllFromLog(es, log)
    ensures W.AllAccepted(es)
  {
    forall i | 0 <= i < |es| ensures ClientAccepts(es[i]) {
      assert FromLog(es[i], log);
    }
  }

  /**
    End to end: whatever a connection wrote reaches the client as written, up to the first terminal
    event, however the network cuts it, unless a chunk overflows the client's buffer.
   */
  lemma {:induction false} ConnectionReachesClient(id: L.ReviewId, r: Reader, from: nat, k: Connection, start: L.Slot,
      ps: seq<Reading>, chunks: seq<Text>)
    requires Owns(r, start) && L.Faithful(id, start) && Explained(from, k, start.events) && InOrder(id, start, ps)
    requires W.Concat(chunks) == W.WriteAll(Polls(r, k, ps).written)
    ensures W.Fits([], chunks) ==> W.Consume([], chunks) == W.UpToTerminal(Polls(r, k, ps).written)
    ensures (forall i :: 0 <= i < |chunks| ==> |chunks[i]| <= 14_083) ==> W.Fits([], chunks)
  {
    ConnectionIsExplained(id, r, from, k, start, ps);
    AllFromLogAccepted(Polls(r, k, ps).written, LastRead(start, ps).events);
    W.PrintedEventsArrive(Polls(r, k, ps).written, chunks);
  }

  // ---------------------------------------------------------------- opening and reconnecting

  /** The sequence number a cursor resumes from; a cursor the log does not reach resumes from nothing. */
  function ResumesFrom(cursor: Cursor, latest: L.Event): nat {
    if cursor.Valid? && cursor.sequence <= latest.sequence then cursor.sequence else 0
  }

  /** Exactly the ordinary events after `from`, in order. */
  predicate ExactlyAfter(from: nat, es: seq<ReviewEvent>, to: nat) {
    from + |es| == to && forall i :: 0 <= i < |es| ==> Ordinary(es[i], from + 1 + i)
  }

  lemma {:induction false} ToEventsOne(name: Text, records: seq<L.Event>, e: ReviewEvent, es: seq<ReviewEvent>)
    requires records != [] && ToEvent(name, records[0]) == Some(e) && ToEvents(name, records[1..]) == Some(es)
    ensures ToEvents(name, records) == Some([e] + es)
  {
  }

  lemma {:induction false} WireForms(id: L.ReviewId, s: L.Slot, name: Text, from: nat,
      to: nat) returns (es: seq<ReviewEvent>)
    requires L.Faithful(id, s) && NameOk(name) && from <= to <= |s.events|
    ensures ToEvents(name, s.events[from..to]) == Some(es)
    ensures ExactlyAfter(from, es, to) && AllFromLog(es, s.events)
    decreases |s.events| - from
  {
    if from == to {
      es := [];
    } else {
      var e := OrdinaryIsWritten(id, s, name, from);
      var rest := WireForms(id, s, name, from + 1, to);
      assert s.events[from..to][1..] == s.events[from + 1..to];
      ToEventsOne(name, s.events[from..to], e, rest);
      es := [e] + rest;
      ExactlyOneMore(from, e, rest, to);
      AllFromLogCons(e, rest, s.events);
    }
  }

  lemma ExactlyOneMore(from: nat, e: ReviewEvent, rest: seq<ReviewEvent>, to: nat)
    requires Ordinary(e, from + 1) && ExactlyAfter(from + 1, rest, to)
    ensures ExactlyAfter(from, [e] + rest, to)
  {
  }

  lemma AllFromLogCons(e: ReviewEvent, rest: seq<ReviewEvent>, log: seq<L.Event>)
    requires AllFromLog(rest, log) && FromLog(e, log)
    ensures AllFromLog([e] + rest, log)
  {
    forall i | 0 <= i < |[e] + rest| ensures FromLog(([e] + rest)[i], log) {
      if i > 0 {
        assert FromLog(rest[i - 1], log);
      }
    }
  }

  lemma {:induction false} ExactlyAfterFollows(from: nat, es: seq<ReviewEvent>, to: nat)
    requires ExactlyAfter(from, es, to)
    ensures Follow(from, es) == Some(to)
    decreases |es|
  {
    if es != [] {
      var before := es[..|es| - 1];
      assert from + |before| == to - 1;
      ExactlyAfterFollows(from, before, from + |before|);
      assert Ordinary(es[|es| - 1], to);
    }
  }

  /** A replay from a cursor the log reaches: everything after it, or one reset snapshot when that is too much. */
  ghost predicate Replays(from: nat, d: Delivery, log: seq<L.Event>, latest: nat) {
    AllFromLog(d.events, log) &&
    if |log| - from <= 64 then d.delivered == |log| && ExactlyAfter(from, d.events, |log|)
    else d.delivered == latest && |d.events| == 1 && IsReset(d.events[0]) && IdNumber(d.events[0]) == latest
  }

  lemma ReplaysAll(id: L.ReviewId, r: Reader, s: L.Slot, from: nat, latest: L.Event) returns (es: seq<ReviewEvent>)
    requires L.Faithful(id, s) && NameOk(r.name) && from < |s.events| <= from + MAX_REPLAY
    ensures ReplayOrReset(r, s.events[from..], from, latest) == Some(Delivery(|s.events|, es))
    ensures ExactlyAfter(from, es, |s.events|) && AllFromLog(es, s.events)
  {
    assert s.events[from..] == s.events[from..|s.events|];
    es := WireForms(id, s, r.name, from, |s.events|);
    TailIsContiguous(id, s.events, from);
    ReplaysWhole(r, s.events[from..], from, latest, es);
  }

  lemma {:induction false} ReplaysWhole(r: Reader, events: seq<L.Event>, from: nat, latest: L.Event,
      es: seq<ReviewEvent>)
    requires 0 < |events| <= MAX_REPLAY && IsContiguous(events, from + 1) && ToEvents(r.name, events) == Some(es)
    ensures ReplayOrReset(r, events, from, latest) == Some(Delivery(from + |events|, es))
  {
    assert events[|events| - 1].sequence == from + |events|;
    WholeIsReplayed(r, events, from, latest);
  }

  lemma {:induction false} WholeIsReplayed(r: Reader, events: seq<L.Event>, from: nat, latest: L.Event)
    requires 0 < |events| <= MAX_REPLAY && IsContiguous(events, from + 1)
    ensures ReplayOrReset(r, events, from, latest) == Replayed(ToEvents(r.name, events), events[|events| - 1].sequence)
  {
  }

  lemma ReplaysOrResets(id: L.ReviewId, r: Reader, s: L.Slot, from: nat, latest: L.Event)
    requires L.Faithful(id, s) && Owns(r, s) && !s.review.deleted && from < |s.events|
    requires 1 <= latest.sequence <= |s.events| && latest == s.events[latest.sequence - 1]
    ensures var d := ReplayOrReset(r, L.ListEvents(s, r.user, from, MAX_REPLAY + 1), from, latest);
      d.Some? && Replays(from, d.value, s.events, latest.sequence)
  {
    ListedEvents(id, s, r.user, from, MAX_REPLAY + 1);
    if |s.events| - from <= MAX_REPLAY {
      var es := ReplaysAll(id, r, s, from, latest);
    } else {
      LongBacklogResets(r, Window(s.events, from, MAX_REPLAY + 1), from, latest);
      ResetsToLatest(id, r, s, latest);
    }
  }

  lemma LongBacklogResets(r: Reader, events: seq<L.Event>, from: nat, latest: L.Event)
    requires |events| > MAX_REPLAY
    ensures ReplayOrReset(r, events, from, latest) == ResetTo(r, latest)
  {
  }

  lemma ReplaysExplained(from: nat, d: Delivery, log: seq<L.Event>, latest: nat)
    requires Replays(from, d, log, latest) && from <= latest <= |log|
    ensures Explained(from, Connection(d.delivered, false, d.events), log)
  {
    if |log| - from <= MAX_REPLAY {
      ExactlyAfterFollows(from, d.events, |log|);
    } else {
      ResetFollows(from, d.events, latest);
    }
  }

  lemma {:induction false} ResetFollows(from: nat, es: seq<ReviewEvent>, latest: nat)
    requires |es| == 1 && IsReset(es[0]) && IdNumber(es[0]) == latest >= from
    ensures Follow(from, es) == Some(latest)
  {
    FollowOne(from, [], es[0]);
    assert [] + [es[0]] == es;
  }

  /** One reset snapshot of the latest event and nothing else. */
  ghost predicate JustResets(d: Option<Delivery>, log: seq<L.Event>, latest: nat) {
    && d.Some? && d.value.delivered == latest && |d.value.events| == 1 && AllFromLog(d.value.events, log)
    && IsReset(d.value.events[0]) && IdNumber(d.value.events[0]) == latest
  }

  lemma ResetsToLatest(id: L.ReviewId, r: Reader, s: L.Slot, latest: L.Event)
    requires L.Faithful(id, s) && NameOk(r.name) && 1 <= latest.sequence <= |s.events| &&
      latest == s.events[latest.sequence - 1]
    ensures JustResets(ResetTo(r, latest), s.events, latest.sequence)
  {
    var e := ResetIsWritten(id, s, r.name, latest.sequence - 1);
    AllFromLogCons(e, [], s.events);
    assert [e] + [] == [e];
  }

  /** The three reads of a connection being opened: the latest event, then the two possible list reads. */
  datatype Opening = Opening(newest: L.Slot, early: L.Slot, late: L.Slot)

  ghost predicate OpeningOk(id: L.ReviewId, r: Reader, o: Opening) {
    && L.Faithful(id, o.newest) && !o.newest.review.deleted && Owns(r, o.newest)
    && Grows(id, o.newest, o.early) && Grows(id, o.early, o.late)
  }

  function LatestOf(o: Opening): L.Event
    requires o.newest.events != []
  {
    o.newest.events[|o.newest.events| - 1]
  }

  lemma LatestInLaterLogs(id: L.ReviewId, r: Reader, o: Opening)
    requires OpeningOk(id, r, o)
    ensures var latest := LatestOf(o);
      && latest.sequence == |o.newest.events| <= |o.early.events| <= |o.late.events|
      && o.early.events[latest.sequence - 1] == latest == o.late.events[latest.sequence - 1]
  {
  }

  /**
    A cursor the log does not reach, or that is no cursor, gets one reset snapshot; no cursor at all
    gets the log from its start.
   */
  lemma OpensWithoutCursor(id: L.ReviewId, r: Reader, cursor: Cursor, o: Opening)
    requires OpeningOk(id, r, o)
    ensures var latest := LatestOf(o);
      var d := ResolveInitialDelivery(r, cursor, latest, o.early, o.late);
      && (cursor == InvalidCursor || (cursor.Valid? && cursor.sequence > latest.sequence) ==>
        JustResets(d, o.late.events, latest.sequence))
      && (cursor == Absent && !o.early.review.deleted ==>
        d.Some? && Replays(0, d.value, o.early.events, latest.sequence))
  {
    LatestInLaterLogs(id, r, o);
    ResetsToLatest(id, r, o.late, LatestOf(o));
    if cursor == Absent && !o.early.review.deleted {
      ReplaysOrResets(id, r, o.early, 0, LatestOf(o));
    }
  }

  /**
    A cursor inside the log resumes exactly after it while at most 64 events are pending, and otherwise
    gets one reset snapshot.
   */
  lemma OpensAtCursor(id: L.ReviewId, r: Reader, c: nat, latest: L.Event, early: L.Slot, late: L.Slot)
    requires L.FaithfulLog(id, early.events) && L.Visible(early, r.user)
    requires L.Faithful(id, late) && Owns(r, late) && !late.review.deleted
    requires 1 <= c < latest.sequence <= |late.events| && late.events[latest.sequence - 1] == latest
    ensures var d := ResolveInitialDelivery(r, Valid(c), latest, early, late);
      d.Some? && Replays(c, d.value, late.events, latest.sequence)
  {
    FirstIsListed(id, early, r.user);
    ResolvesInside(r, c, latest, early, late);
    ReplaysOrResets(id, r, late, c, latest);
  }

  lemma LaterReads(id: L.ReviewId, r: Reader, o: Opening)
    requires OpeningOk(id, r, o) && !o.late.review.deleted
    ensures L.FaithfulLog(id, o.early.events) && L.Visible(o.early, r.user)
    ensures L.Faithful(id, o.late) && Owns(r, o.late)
    ensures LatestOf(o).sequence == |o.newest.events| <= |o.late.events|
    ensures o.late.events[LatestOf(o).sequence - 1] == LatestOf(o)
  {
    LatestInLaterLogs(id, r, o);
  }

  /** A cursor at the latest event has nothing to replay. */
  lemma OpensAtLatest(r: Reader, latest: L.Event, early: L.Slot, late: L.Slot)
    ensures ResolveInitialDelivery(r, Valid(latest.sequence), latest, early, late)
      == Some(Delivery(latest.sequence, []))
  {
  }

  lemma ResolvesInside(r: Reader, c: nat, latest: L.Event, early: L.Slot, late: L.Slot)
    requires 1 <= c < latest.sequence
    requires L.ListEvents(early, r.user, 0, 1) != [] && L.ListEvents(early, r.user, 0, 1)[0].sequence == 1
    ensures ResolveInitialDelivery(r, Valid(c), latest, early, late)
         == ReplayOrReset(r, L.ListEvents(late, r.user, c, MAX_REPLAY + 1), c, latest)
  {
  }

  lemma FirstIsListed(id: L.ReviewId, s: L.Slot, user: nat)
    requires L.FaithfulLog(id, s.events) && L.Visible(s, user)
    ensures L.ListEvents(s, user, 0, 1) != [] && L.ListEvents(s, user, 0, 1)[0].sequence == 1
  {
    ListedEvents(id, s, user, 0, 1);
  }

  /** A cursor names a sequence number exactly when it is that number's numeral, blanks around it aside. */
  lemma {:induction false} CursorIsNumeralIff(t: Text, n: nat)
    ensures ParseCursor(Some(t)) == Valid(n) <==> 1 <= n <= L.MAX_EVENT_SEQUENCE && Trim(t) == Digits(n)
    ensures ParseCursor(Some(t)) == Absent <==> Trim(t) == []
    ensures ParseCursor(None) == Absent
  {
    if IsEventId(Trim(t)) {
      NumeralRoundTrip(Trim(t));
      DigitsRoundTrip(n);
    }
    if 1 <= n <= L.MAX_EVENT_SEQUENCE {
      SequenceIdIsValid(n);
    }
  }

  lemma {:induction false} CursorRoundTrip(n: nat)
    requires 1 <= n <= L.MAX_EVENT_SEQUENCE
    ensures ParseCursor(Some(Digits(n))) == Valid(n)
  {
    SequenceIdIsValid(n);
    TrimTrims(Digits(n));
  }

  /**
    A client that reconnects with the last id it has seen continues with no gap and no duplicate
    while at most 64 events are pending: the two connections together are one unbroken history.
   */
  lemma {:induction false} ReconnectContinues(id: L.ReviewId, r: Reader, from: nat, seen: seq<ReviewEvent>, n: nat,
      o: Opening)
    requires OpeningOk(id, r, o) && !o.late.review.deleted
    requires Follow(from, seen) == Some(n) && 1 <= n <= |o.newest.events| && |o.late.events| - n <= 64
    ensures var d := ResolveInitialDelivery(r, ParseCursor(Some(Digits(n))), LatestOf(o), o.early, o.late);
      && d.Some? && ExactlyAfter(n, d.value.events, d.value.delivered)
      && d.value.delivered == (if n == |o.newest.events| then n else |o.late.events|)
      && Follow(from, seen + d.value.events) == Some(d.value.delivered)
  {
    CursorRoundTrip(n);
    LaterReads(id, r, o);
    ContinuesAt(id, r, n, LatestOf(o), o.early, o.late);
    var d := ResolveInitialDelivery(r, ParseCursor(Some(Digits(n))), LatestOf(o), o.early, o.late);
    FollowConcat(from, seen, d.value.events);
    ExactlyAfterFollows(n, d.value.events, d.value.delivered);
  }

  lemma ContinuesAt(id: L.ReviewId, r: Reader, n: nat, latest: L.Event, early: L.Slot, late: L.Slot)
    requires L.FaithfulLog(id, early.events) && L.Visible(early, r.user)
    requires L.Faithful(id, late) && Owns(r, late) && !late.review.deleted
    requires 1 <= n <= latest.sequence <= |late.events| <= n + MAX_REPLAY
    requires late.events[latest.sequence - 1] == latest
    ensures var d := ResolveInitialDelivery(r, Valid(n), latest, early, late);
      && d.Some? && ExactlyAfter(n, d.value.events, d.value.delivered)
      && d.value.delivered == if n == latest.sequence then n else |late.events|
  {
    if n < latest.sequence {
      OpensAtCursor(id, r, n, latest, early, late);
    } else {
      OpensAtLatest(r, latest, early, late);
    }
  }

  ghost predicate DeliveryExplained(from: nat, d: Option<Delivery>, log: seq<L.Event>) {
    d.Some? && Explained(from, Connection(d.value.delivered, false, d.value.events), log)
  }

  /** A review that was deleted before a list read lists nothing, so the opening falls back to a reset snapshot. */
  lemma GoneResets(r: Reader, c: nat, latest: L.Event, early: L.Slot, late: L.Slot)
    requires early.review.deleted ==> late.review.deleted
    ensures early.review.deleted ==> ResolveInitialDelivery(r, Absent, latest, early, late) == ResetTo(r, latest)
    ensures late.review.deleted && c < latest.sequence ==>
      ResolveInitialDelivery(r, Valid(c), latest, early, late) == ResetTo(r, latest)
  {
  }

  lemma ResetIsExplained(id: L.ReviewId, r: Reader, from: nat, o: Opening)
    requires OpeningOk(id, r, o) && from <= |o.newest.events|
    ensures DeliveryExplained(from, ResetTo(r, LatestOf(o)), o.late.events)
  {
    LatestInLaterLogs(id, r, o);
    ResetsToLatest(id, r, o.late, LatestOf(o));
    ResetFollows(from, ResetTo(r, LatestOf(o)).value.events, |o.newest.events|);
  }

  lemma AbsentIsExplained(id: L.ReviewId, r: Reader, o: Opening)
    requires OpeningOk(id, r, o)
    ensures DeliveryExplained(0, ResolveInitialDelivery(r, Absent, LatestOf(o), o.early, o.late), o.late.events)
  {
    if o.early.review.deleted {
      GoneResets(r, 0, LatestOf(o), o.early, o.late);
      ResetIsExplained(id, r, 0, o);
    } else {
      LatestInLaterLogs(id, r, o);
      OpensWithoutCursor(id, r, Absent, o);
      var d := ResolveInitialDelivery(r, Absent, LatestOf(o), o.early, o.late);
      ReplaysExplained(0, d.value, o.early.events, |o.newest.events|);
      ExplainedLonger(0, Connection(d.value.delivered, false, d.value.events), o.early.events, o.late.events);
    }
  }

  lemma InsideExplained(id: L.ReviewId, r: Reader, c: nat, latest: L.Event, early: L.Slot, late: L.Slot)
    requires L.FaithfulLog(id, early.events) && L.Visible(early, r.user)
    requires L.Faithful(id, late) && Owns(r, late) && !late.review.deleted
    requires 1 <= c < latest.sequence <= |late.events| && late.events[latest.sequence - 1] == latest
    ensures DeliveryExplained(c, ResolveInitialDelivery(r, Valid(c), latest, early, late), late.events)
  {
    OpensAtCursor(id, r, c, latest, early, late);
    var d := ResolveInitialDelivery(r, Valid(c), latest, early, late);
    ReplaysExplained(c, d.value, late.events, latest.sequence);
  }

  lemma AtLatestExplained(r: Reader, latest: L.Event, early: L.Slot, late: L.Slot)
    requires latest.sequence <= |late.events|
    ensures DeliveryExplained(latest.sequence, ResolveInitialDelivery(r, Valid(latest.sequence), latest, early, late),
                              late.events)
  {
    OpensAtLatest(r, latest, early, late);
  }

  lemma GoneIsExplained(id: L.ReviewId, r: Reader, c: nat, o: Opening)
    requires OpeningOk(id, r, o) && o.late.review.deleted && c < |o.newest.events|
    ensures DeliveryExplained(c, ResolveInitialDelivery(r, Valid(c), LatestOf(o), o.early, o.late), o.late.events)
  {
    LatestInLaterLogs(id, r, o);
    GoneResets(r, c, LatestOf(o), o.early, o.late);
    ResetIsExplained(id, r, c, o);
  }

  lemma InsideIsExplained(id: L.ReviewId, r: Reader, c: nat, o: Opening)
    requires OpeningOk(id, r, o) && 1 <= c <= |o.newest.events|
    ensures DeliveryExplained(c, ResolveInitialDelivery(r, Valid(c), LatestOf(o), o.early, o.late), o.late.events)
  {
    LatestInLaterLogs(id, r, o);
    if c == |o.newest.events| {
      AtLatestExplained(r, LatestOf(o), o.early, o.late);
    } else if o.late.review.deleted {
      GoneIsExplained(id, r, c, o);
    } else {
      LaterReads(id, r, o);
      InsideExplained(id, r, c, LatestOf(o), o.early, o.late);
    }
  }

  lemma OutsideIsExplained(id: L.ReviewId, r: Reader, cursor: Cursor, o: Opening)
    requires OpeningOk(id, r, o) && (cursor == InvalidCursor || (cursor.Valid? && cursor.sequence > |o.newest.events|))
    ensures DeliveryExplained(0, ResolveInitialDelivery(r, cursor, LatestOf(o), o.early, o.late), o.late.events)
  {
    LatestInLaterLogs(id, r, o);
    OpensWithoutCursor(id, r, cursor, o);
    ResetFollows(0, ResolveInitialDelivery(r, cursor, LatestOf(o), o.early, o.late).value.events, |o.newest.events|);
  }

  /** Whatever the cursor, the first deliveries are explained by the log from where the cursor resumes. */
  lemma OpeningIsExplained(id: L.ReviewId, r: Reader, cursor: Cursor, o: Opening)
    requires OpeningOk(id, r, o) && (cursor.Valid? ==> cursor.sequence >= 1)
    ensures DeliveryExplained(ResumesFrom(cursor, LatestOf(o)),
      ResolveInitialDelivery(r, cursor, LatestOf(o), o.early, o.late), o.late.events)
  {
    LatestInLaterLogs(id, r, o);
    if cursor == Absent {
      AbsentIsExplained(id, r, o);
    } else if cursor.Valid? && cursor.sequence <= |o.newest.events| {
      InsideIsExplained(id, r, cursor.sequence, o);
    } else {
      OutsideIsExplained(id, r, cursor, o);
    }
  }

  // ---------------------------------------------------------------- whole connections over a run of the repository

  /** A review created by its owner, with the operations on it so far. */
  datatype Timeline = Timeline(id: L.ReviewId, user: nat, createdAt: int, ops: seq<L.Op>)

  /** The review after the first n operations. */
  function At(w: Timeline, n: nat): L.Slot
    requires n <= |w.ops|
  {
    L.Run(w.id, L.Created(w.id, w.user, w.createdAt, None), w.ops[..n])
  }

  /** The moments of an opening's three reads and of each poll's two, as numbers of operations so far. */
  datatype OpeningTimes = OpeningTimes(newest: nat, early: nat, late: nat)

  datatype PollTimes = PollTimes(active: bool, listed: nat, latest: nat, heartbeatDue: bool)

  function LastTime(late: nat, ps: seq<PollTimes>): nat {
    if ps == [] then late else ps[|ps| - 1].latest
  }

  /** Reads happen one after another. */
  predicate Ordered(late: nat, ps: seq<PollTimes>, end: nat) {
    && late <= end
    && (ps != [] ==>
          var (before, last) := (ps[..|ps| - 1], ps[|ps| - 1]);
          Ordered(late, before, end) && LastTime(late, before) <= last.listed <= last.latest <= end)
  }

  function ReadingsAt(w: Timeline, late: nat, ps: seq<PollTimes>): seq<Reading>
    requires Ordered(late, ps, |w.ops|)
  {
    if ps == [] then []
    else
      var last := ps[|ps| - 1];
      ReadingsAt(w, late, ps[..|ps| - 1])
        + [Reading(last.active, At(w, last.listed), At(w, last.latest), last.heartbeatDue)]
  }

  ghost predicate LawfulTimeline(w: Timeline) {
    forall i :: 0 <= i < |w.ops| ==> L.Lawful(w.ops[i])
  }

  lemma TimelineGrows(w: Timeline, m: nat, n: nat)
    requires LawfulTimeline(w) && m <= n <= |w.ops|
    ensures L.Faithful(w.id, At(w, m)) && Grows(w.id, At(w, m), At(w, n)) && At(w, n).review.user == w.user
  {
    var start := L.Created(w.id, w.user, w.createdAt, None);
    L.EveryRunIsFaithful(w.id, w.user, w.createdAt, w.ops[..m]);
    L.RunSplits(w.id, start, w.ops[..n], m);
    assert w.ops[..n][..m] == w.ops[..m];
    RunsGrow(w.id, At(w, m), w.ops[..n][m..]);
    L.CreatedIsFaithful(w.id, w.user, w.createdAt, None);
    RunsGrow(w.id, start, w.ops[..n]);
  }

  lemma {:induction false} ReadingsAreInOrder(w: Timeline, late: nat, ps: seq<PollTimes>)
    requires LawfulTimeline(w) && Ordered(late, ps, |w.ops|)
    ensures var readings := ReadingsAt(w, late, ps);
      && InOrder(w.id, At(w, late), readings) && LastTime(late, ps) <= |w.ops|
      && LastRead(At(w, late), readings) == At(w, LastTime(late, ps))
  {
    if ps != [] {
      var (before, last) := (ps[..|ps| - 1], ps[|ps| - 1]);
      ReadingsAreInOrder(w, late, before);
      var readings := ReadingsAt(w, late, ps);
      assert readings[..|readings| - 1] == ReadingsAt(w, late, before);
      TimelineGrows(w, LastTime(late, before), last.listed);
      TimelineGrows(w, last.listed, last.latest);
    }
  }

  /** The opening as it reads the timeline. */
  function OpeningAt(w: Timeline, o: OpeningTimes): Opening
    requires o.newest <= o.early <= o.late <= |w.ops|
  {
    Opening(At(w, o.newest), At(w, o.early), At(w, o.late))
  }

  /** The connection once its first deliveries are written. */
  function Opened(r: Reader, cursor: Cursor, o: Opening): Option<Connection>
    requires o.newest.events != []
  {
    match ResolveInitialDelivery(r, cursor, LatestOf(o), o.early, o.late)
    case None => None
    case Some(d) => Some(Connection(d.delivered, L.Terminal(LatestOf(o).status), d.events))
  }

  lemma OpeningAtIsOk(w: Timeline, r: Reader, o: OpeningTimes)
    requires LawfulTimeline(w) && r.user == w.user && NameOk(r.name) && o.newest <= o.early <= o.late <= |w.ops|
    requires !At(w, o.newest).review.deleted
    ensures OpeningOk(w.id, r, OpeningAt(w, o))
  {
    TimelineGrows(w, o.newest, o.early);
    TimelineGrows(w, o.early, o.late);
    TimelineGrows(w, o.newest, o.newest);
  }

  lemma OpenedIsExplained(w: Timeline, r: Reader, value: Option<Text>, o: OpeningTimes)
    requires LawfulTimeline(w) && r.user == w.user && NameOk(r.name) && o.newest <= o.early <= o.late <= |w.ops|
    requires !At(w, o.newest).review.deleted
    ensures var opening := OpeningAt(w, o);
      && opening.newest.events != []
      && Opened(r, ParseCursor(value), opening).Some?
      && Explained(ResumesFrom(ParseCursor(value), LatestOf(opening)), Opened(r, ParseCursor(value), opening).value,
        opening.late.events)
  {
    OpeningAtIsOk(w, r, o);
    OpeningIsExplained(w.id, r, ParseCursor(value), OpeningAt(w, o));
  }

  /**
    The whole path: whatever lawful operations run while an owner's connection is opened with any
    cursor and polled, its deliveries are explained by the log from where the cursor resumes, and
    they reach the client as written, up to the first terminal event, however they are cut.
   */
  lemma {:induction false} EveryConnectionIsExplained(w: Timeline, r: Reader, value: Option<Text>, o: OpeningTimes,
      ps: seq<PollTimes>,
      chunks: seq<Text>)
    requires LawfulTimeline(w) && r.user == w.user && NameOk(r.name)
    requires o.newest <= o.early <= o.late && Ordered(o.late, ps, |w.ops|) && !At(w, o.newest).review.deleted
    ensures var opening := OpeningAt(w, o);
      && opening.newest.events != []
      && Opened(r, ParseCursor(value), opening).Some?
      && LastTime(o.late, ps) <= |w.ops|
      && var from := ResumesFrom(ParseCursor(value), LatestOf(opening));
         var k := Polls(r, Opened(r, ParseCursor(value), opening).value, ReadingsAt(w, o.late, ps));
         && Explained(from, k, At(w, LastTime(o.late, ps)).events) && from <= k.delivered
         && (W.Concat(chunks) == W.WriteAll(k.written) && W.Fits([], chunks) ==>
           W.Consume([], chunks) == W.UpToTerminal(k.written))
         && (W.Concat(chunks) == W.WriteAll(k.written) && (forall i :: 0 <= i < |chunks| ==> |chunks[i]| <= 14_083) ==>
           W.Fits([], chunks))
  {
    var opening := OpeningAt(w, o);
    OpenedIsExplained(w, r, value, o);
    var from := ResumesFrom(ParseCursor(value), LatestOf(opening));
    var first := Opened(r, ParseCursor(value), opening).value;
    var readings := ReadingsAt(w, o.late, ps);
    TimelineGrows(w, o.late, o.late);
    ReadingsAreInOrder(w, o.late, ps);
    ConnectionIsExplained(w.id, r, from, first, At(w, o.late), readings);
    FollowNeverGoesBack(from, Polls(r, first, readings).written);
    if W.Concat(chunks) == W.WriteAll(Polls(r, first, readings).written) {
      ConnectionReachesClient(w.id, r, from, first, At(w, o.late), readings, chunks);
    }
  }
}
