/**
  Reviews, their append-only event logs and their results, as kept by
  apps/api/src/modules/review/in-memory-review.repository.ts under the status policy of
  apps/api/src/modules/review/review.policy.ts.
 */
module ReviewLog {
  import opened Utf16

  datatype Status = PENDING | PROCESSING | COMPLETED | FAILED | CANCELLED

  /** ALLOWED_TRANSITIONS. */
  function Targets(from: Status): set<Status> {
    match from
    case CANCELLED => {PENDING}
    case COMPLETED => {}
    case FAILED => {PENDING}
    case PENDING => {PROCESSING, CANCELLED}
    case PROCESSING => {COMPLETED, FAILED, CANCELLED}
  }

  function AllowedSources(to: Status): set<Status> {
    set from: Status | from in {PENDING, PROCESSING, COMPLETED, FAILED, CANCELLED} && to in Targets(from)
  }

  predicate Terminal(status: Status) {
    status == COMPLETED || status == FAILED || status == CANCELLED
  }

  const MAX_EVENT_SEQUENCE: nat := 2_147_483_646
  const MAX_GENERATION: nat := 2_147_483_646

  type ReviewId = nat

  datatype Review = Review(user: nat, generation: nat, status: Status, deleted: bool, updatedAt: int)

  datatype EventType = SnapshotType | CompletedType | FailedType | CancelledType

  datatype Event = Event(
    reviewId: ReviewId, sequence: nat, eventType: EventType, status: Status, generation: nat,
    resultAvailable: bool, retryable: Option<bool>, createdAt: int)

  /** A persisted result; only its identity matters here. */
  datatype ResultRecord = ResultRecord(execution: nat, createdAt: int)

  function TypeFor(status: Status): EventType {
    match status
    case COMPLETED => CompletedType
    case FAILED => FailedType
    case CANCELLED => CancelledType
    case _ => SnapshotType
  }

  function EventFor(id: ReviewId, row: Review, sequence: nat, retryable: Option<bool>): Event {
    Event(id, sequence, TypeFor(row.status), row.status, row.generation, row.status == COMPLETED,
          if row.status == FAILED then Some(retryable.Some? && retryable.value) else None, row.updatedAt)
  }

  // ---------------------------------------------------------------- one review

  /** Everything the repository keeps for one review. */
  datatype Slot = Slot(review: Review, events: seq<Event>, sequence: nat, result: Option<ResultRecord>)

  datatype Reply = Null | Returned(review: Review) | Thrown

  /** A status change request; `expected` is the fencing generation, when the caller gives one. */
  datatype Request = Request(from: set<Status>, to: Status, expected: Option<nat>, retryable: Option<bool>, now: int)

  function Created(id: ReviewId, user: nat, now: int, result: Option<ResultRecord>): Slot {
    var row := Review(user, 0, PENDING, false, now);
    Slot(row, [EventFor(id, row, 1, None)], 1, result)
  }

  predicate Visible(s: Slot, user: nat) {
    s.review.user == user && !s.review.deleted
  }

  /** The event is appended before the row is replaced; an exhausted sequence throws before either. */
  function Append(id: ReviewId, s: Slot, row: Review, retryable: Option<bool>, result: Option<ResultRecord>
  ): (Slot, Reply) {
    if s.sequence + 1 > MAX_EVENT_SEQUENCE then (s, Thrown)
    else (Slot(row, s.events + [EventFor(id, row, s.sequence + 1, retryable)], s.sequence + 1, result), Returned(row))
  }

  predicate TransitionApplies(s: Slot, user: nat, t: Request) {
    && Visible(s, user) && t.to != COMPLETED
    && (t.expected.Some? ==> t.expected.value == s.review.generation)
    && (t.to == PROCESSING ==> s.review.generation < MAX_GENERATION)
    && s.review.status in t.from
  }

  function Transitioned(row: Review, t: Request): Review {
    row.(generation := if t.to == PROCESSING then row.generation + 1 else row.generation, status := t.to,
      updatedAt := t.now)
  }

  function Transition(id: ReviewId, s: Slot, user: nat, t: Request): (Slot, Reply) {
    if TransitionApplies(s, user, t) then Append(id, s, Transitioned(s.review, t), t.retryable, s.result) else (s, Null)
  }

  predicate HoldsClaim(s: Slot, user: nat, expected: nat) {
    Visible(s, user) && s.review.status == PROCESSING && s.review.generation == expected
  }

  /** `result` is absent when the execution does not pass validation, which throws. */
  function Finalize(id: ReviewId, s: Slot, user: nat, result: Option<ResultRecord>, now: int, expected: nat
  ): (Slot, Reply) {
    if !HoldsClaim(s, user, expected) then (s, Null)
    else if result.None? then (s, Thrown)
    else Append(id, s, s.review.(status := COMPLETED, updatedAt := now), None, result)
  }

  function Fence(id: ReviewId, s: Slot, user: nat, now: int, expected: nat): (Slot, Reply) {
    if HoldsClaim(s, user, expected)
      then Append(id, s, s.review.(status := CANCELLED, updatedAt := now), None, s.result) else (s, Null)
  }

  function SoftDelete(s: Slot, user: nat, now: int): (Slot, bool) {
    if Visible(s, user) then (s.(review := s.review.(deleted := true, updatedAt := now)), true) else (s, false)
  }

  /** The stored events above a cursor, oldest first. */
  function Newer(events: seq<Event>, after: int): seq<Event> {
    if events == [] then []
    else (if events[0].sequence > after then [events[0]] else []) + Newer(events[1..], after)
  }

  lemma {:induction false} NewerStep(events: seq<Event>, i: nat, after: int, before: seq<Event>)
    requires i < |events|
    ensures before + Newer(events[i..], after) ==
      (if events[i].sequence > after then before + [events[i]] else before) + Newer(events[i + 1..], after)
  {
    assert events[i..][1..] == events[i + 1..];
  }

  function ListEvents(s: Slot, user: nat, after: int, limit: int): seq<Event> {
    if !Visible(s, user) then []
    else
      var newer := Newer(s.events, after);
      if limit <= 0 then [] else if limit < |newer| then newer[..limit] else newer
  }

  function LatestEvent(s: Slot, user: nat): Option<Event> {
    if !Visible(s, user) || s.events == [] then None else Some(s.events[|s.events| - 1])
  }

  // ---------------------------------------------------------------- the repository

  /** The four maps of the in-memory repository. */
  datatype Tables = Tables(reviews: map<ReviewId, Review>, results: map<ReviewId, ResultRecord>,
                           events: map<ReviewId, seq<Event>>, sequences: map<ReviewId, nat>)

  predicate Aligned(t: Tables) {
    t.reviews.Keys == t.events.Keys == t.sequences.Keys && t.results.Keys <= t.reviews.Keys
  }

  function SlotIn(t: Tables, id: ReviewId): Slot
    requires Aligned(t) && id in t.reviews
  {
    Slot(t.reviews[id], t.events[id], t.sequences[id], if id in t.results then Some(t.results[id]) else None)
  }

  function Put(t: Tables, id: ReviewId, s: Slot): Tables {
    Tables(t.reviews[id := s.review], if s.result.Some? then t.results[id := s.result.value] else t.results,
           t.events[id := s.events], t.sequences[id := s.sequence])
  }

  lemma PutIsLocal(t: Tables, id: ReviewId, s: Slot, other: ReviewId)
    requires Aligned(t) && (s.result.None? ==> id !in t.results)
    ensures Aligned(Put(t, id, s)) && SlotIn(Put(t, id, s), id) == s
    ensures other != id ==> (other in Put(t, id, s).reviews <==> other in t.reviews)
    ensures other != id && other in t.reviews ==> SlotIn(Put(t, id, s), other) == SlotIn(t, other)
  {
  }

  /** What an operation on one review does to the tables: nothing, unless it returns the new row. */
  function Stored(t: Tables, id: ReviewId, o: (Slot, Reply)): (Tables, Reply) {
    (if o.1.Returned? then Put(t, id, o.0) else t, o.1)
  }

  function TransitionIn(t: Tables, id: ReviewId, user: nat, r: Request): (Tables, Reply)
    requires Aligned(t)
  {
    if id !in t.reviews then (t, Null) else Stored(t, id, Transition(id, SlotIn(t, id), user, r))
  }

  function FinalizeIn(t: Tables, id: ReviewId, user: nat, result: Option<ResultRecord>, now: int,
      expected: nat): (Tables, Reply)
    requires Aligned(t)
  {
    if id !in t.reviews then (t, Null) else Stored(t, id, Finalize(id, SlotIn(t, id), user, result, now, expected))
  }

  function FenceIn(t: Tables, id: ReviewId, user: nat, now: int, expected: nat): (Tables, Reply)
    requires Aligned(t)
  {
    if id !in t.reviews then (t, Null) else Stored(t, id, Fence(id, SlotIn(t, id), user, now, expected))
  }

  /** The tables after one more event, a replaced row and, if given, a result. */
  function Appended(t: Tables, id: ReviewId, row: Review, retryable: Option<bool>, result: Option<ResultRecord>): Tables
    requires Aligned(t) && id in t.reviews
  {
    var sequence := t.sequences[id] + 1;
    Tables(t.reviews[id := row], if result.Some? then t.results[id := result.value] else t.results,
           t.events[id := t.events[id] + [EventFor(id, row, sequence, retryable)]], t.sequences[id := sequence])
  }

  lemma AppendStores(t: Tables, id: ReviewId, row: Review, retryable: Option<bool>, result: Option<ResultRecord>)
    requires Aligned(t) && id in t.reviews
    ensures var s := SlotIn(t, id);
      Stored(t, id, Append(id, s, row, retryable, if result.Some? then result else s.result)) ==
      if t.sequences[id] + 1 > MAX_EVENT_SEQUENCE then (t, Thrown)
      else (Appended(t, id, row, retryable, result), Returned(row))
  {
    RewritingOneResult(t.results, id);
  }

  lemma TransitionStores(t: Tables, id: ReviewId, user: nat, r: Request)
    requires Aligned(t)
    ensures TransitionIn(t, id, user, r) ==
      if id !in t.reviews || !TransitionApplies(SlotIn(t, id), user, r) then (t, Null)
      else
        var row := Transitioned(t.reviews[id], r);
        if t.sequences[id] + 1 > MAX_EVENT_SEQUENCE then (t, Thrown)
        else (Appended(t, id, row, r.retryable, None), Returned(row))
  {
    if id in t.reviews {
      AppendStores(t, id, Transitioned(t.reviews[id], r), r.retryable, None);
    }
  }

  lemma FinalizeStores(t: Tables, id: ReviewId, user: nat, result: Option<ResultRecord>, now: int, expected: nat)
    requires Aligned(t)
    ensures FinalizeIn(t, id, user, result, now, expected) ==
      if id !in t.reviews || !HoldsClaim(SlotIn(t, id), user, expected) then (t, Null)
      else
        var row := t.reviews[id].(status := COMPLETED, updatedAt := now);
        if result.None? || t.sequences[id] + 1 > MAX_EVENT_SEQUENCE then (t, Thrown)
        else (Appended(t, id, row, None, result), Returned(row))
  {
    if id in t.reviews {
      AppendStores(t, id, t.reviews[id].(status := COMPLETED, updatedAt := now), None, result);
    }
  }

  lemma FenceStores(t: Tables, id: ReviewId, user: nat, now: int, expected: nat)
    requires Aligned(t)
    ensures FenceIn(t, id, user, now, expected) ==
      if id !in t.reviews || !HoldsClaim(SlotIn(t, id), user, expected) then (t, Null)
      else
        var row := t.reviews[id].(status := CANCELLED, updatedAt := now);
        if t.sequences[id] + 1 > MAX_EVENT_SEQUENCE then (t, Thrown)
        else (Appended(t, id, row, None, None), Returned(row))
  {
    if id in t.reviews {
      AppendStores(t, id, t.reviews[id].(status := CANCELLED, updatedAt := now), None, None);
    }
  }

  lemma RewritingOneResult(results: map<ReviewId, ResultRecord>, id: ReviewId)
    ensures id in results ==> results[id := results[id]] == results
  {
  }

  class InMemoryReviewRepository {
    var reviews: map<ReviewId, Review>
    var results: map<ReviewId, ResultRecord>
    var events: map<ReviewId, seq<Event>>
    var eventSequences: map<ReviewId, nat>

    ghost function Contents(): Tables
      reads this
    {
      Tables(reviews, results, events, eventSequences)
    }

    ghost predicate Valid()
      reads this
    {
      Aligned(Contents())
    }

    constructor ()
      ensures Valid() && Contents() == Tables(map[], map[], map[], map[])
    {
      reviews, results, events, eventSequences := map[], map[], map[], map[];
    }

    method Create(id: ReviewId, user: nat, now: int) returns (review: Review)
      requires Valid()
      modifies this
      ensures Valid()
      ensures var kept := if id in old(results) then Some(old(results)[id]) else None;
        Contents() == Put(old(Contents()), id, Created(id, user, now, kept)) &&
          review == Created(id, user, now, kept).review
    {
      review := Review(user, 0, PENDING, false, now);
      reviews := reviews[id := review];
      eventSequences := eventSequences[id := 1];
      events := events[id := [Event(id, 1, SnapshotType, review.status, review.generation, false, None, now)]];
      RewritingOneResult(results, id);
    }

    method AppendEvent(id: ReviewId, review: Review, retryable: Option<bool>) returns (thrown: bool)
      requires Valid() && id in reviews
      modifies this`events, this`eventSequences
      ensures Valid()
      ensures thrown <==> old(eventSequences)[id] + 1 > MAX_EVENT_SEQUENCE
      ensures thrown ==> events == old(events) && eventSequences == old(eventSequences)
      ensures !thrown ==>
        && eventSequences == old(eventSequences)[id := old(eventSequences)[id] + 1]
        && events == old(events)[id := old(events)[id] + [EventFor(id, review, old(eventSequences)[id] + 1, retryable)]]
    {
      var sequence := eventSequences[id] + 1;
      if sequence > MAX_EVENT_SEQUENCE {
        return true;
      }
      var flag := None;
      if review.status == FAILED {
        flag := Some(retryable.Some? && retryable.value);
      }
      var event := Event(id, sequence, TypeFor(review.status), review.status, review.generation,
                         review.status == COMPLETED, flag, review.updatedAt);
      eventSequences := eventSequences[id := sequence];
      events := events[id := events[id] + [event]];
      thrown := false;
    }

    method TransitionForUser(user: nat, id: ReviewId, t: Request) returns (reply: Reply)
      requires Valid()
      modifies this
      ensures Valid()
      ensures (Contents(), reply) == TransitionIn(old(Contents()), id, user, t)
    {
      TransitionStores(Contents(), id, user, t);
      if id !in reviews || !(reviews[id].user == user && !reviews[id].deleted) || t.to == COMPLETED
         || (t.expected.Some? && t.expected.value != reviews[id].generation)
         || (t.to == PROCESSING && reviews[id].generation >= MAX_GENERATION)
         || reviews[id].status !in t.from
      {
        return Null;
      }
      var generation := reviews[id].generation;
      if t.to == PROCESSING {
        generation := generation + 1;
      }
      var transitioned := reviews[id].(generation := generation, status := t.to, updatedAt := t.now);
      var thrown := AppendEvent(id, transitioned, t.retryable);
      if thrown {
        return Thrown;
      }
      reviews := reviews[id := transitioned];
      reply := Returned(transitioned);
    }

    method FinalizeForUser(user: nat, id: ReviewId, result: Option<ResultRecord>, now: int,
        expected: nat) returns (reply: Reply)
      requires Valid()
      modifies this
      ensures Valid()
      ensures (Contents(), reply) == FinalizeIn(old(Contents()), id, user, result, now, expected)
    {
      FinalizeStores(Contents(), id, user, result, now, expected);
      if id !in reviews || !(reviews[id].user == user && !reviews[id].deleted)
         || reviews[id].status != PROCESSING || reviews[id].generation != expected
      {
        return Null;
      }
      if result.None? {
        return Thrown;
      }
      var completed := reviews[id].(status := COMPLETED, updatedAt := now);
      var thrown := AppendEvent(id, completed, None);
      if thrown {
        return Thrown;
      }
      results := results[id := result.value];
      reviews := reviews[id := completed];
      reply := Returned(completed);
    }

    method FenceProcessingForUser(user: nat, id: ReviewId, now: int, expected: nat) returns (reply: Reply)
      requires Valid()
      modifies this
      ensures Valid()
      ensures (Contents(), reply) == FenceIn(old(Contents()), id, user, now, expected)
    {
      FenceStores(Contents(), id, user, now, expected);
      if id !in reviews || !(reviews[id].user == user && !reviews[id].deleted)
         || reviews[id].status != PROCESSING || reviews[id].generation != expected
      {
        return Null;
      }
      var fenced := reviews[id].(status := CANCELLED, updatedAt := now);
      var thrown := AppendEvent(id, fenced, None);
      if thrown {
        return Thrown;
      }
      reviews := reviews[id := fenced];
      reply := Returned(fenced);
    }

    method SoftDeleteForUser(user: nat, id: ReviewId, now: int) returns (deleted: bool)
      requires Valid()
      modifies this`reviews
      ensures Valid()
      ensures deleted <==> id in old(reviews) && Visible(SlotIn(old(Contents()), id), user)
      ensures !deleted ==> Contents() == old(Contents())
      ensures deleted ==>
        Contents() == old(Contents()).(reviews :=
          old(reviews)[id := SoftDelete(SlotIn(old(Contents()), id), user, now).0.review])
    {
      if id !in reviews || reviews[id].user != user || reviews[id].deleted {
        return false;
      }
      reviews := reviews[id := reviews[id].(deleted := true, updatedAt := now)];
      deleted := true;
    }

    method ListEventsForUser(user: nat, id: ReviewId, after: int, limit: int) returns (listed: seq<Event>)
      requires Valid()
      ensures listed == if id in reviews then ListEvents(SlotIn(Contents(), id), user, after, limit) else []
    {
      if id !in reviews || reviews[id].user != user || reviews[id].deleted {
        return [];
      }
      var log := events[id];
      listed := [];
      var i := 0;
      while i < |log|
        invariant 0 <= i <= |log|
        invariant Newer(log, after) == listed + Newer(log[i..], after)
      {
        NewerStep(log, i, after, listed);
        if log[i].sequence > after {
          listed := listed + [log[i]];
        }
        i := i + 1;
      }
      assert listed + Newer([], after) == listed;
      var bound := if limit < 0 then 0 else limit;
      if bound < |listed| {
        listed := listed[..bound];
      }
    }
  }

  // ---------------------------------------------------------------- the log is a faithful history

  /** How many claims a log records. */
  function Claims(events: seq<Event>): nat {
    if events == [] then 0
    else Claims(events[..|events| - 1]) + if events[|events| - 1].status == PROCESSING then 1 else 0
  }

  predicate FieldsMatchStatus(e: Event) {
    && e.eventType == TypeFor(e.status)
    && (e.resultAvailable <==> e.status == COMPLETED)
    && (e.retryable.Some? <==> e.status == FAILED)
  }

  ghost predicate Numbered(id: ReviewId, events: seq<Event>) {
    forall i :: 0 <= i < |events| ==>
      events[i].reviewId == id && events[i].sequence == i + 1 && FieldsMatchStatus(events[i])
  }

  ghost predicate FollowsPolicy(events: seq<Event>) {
    forall i, j :: 0 <= i < |events| && j == i + 1 < |events| ==> events[j].status in Targets(events[i].status)
  }

  predicate CountedAt(events: seq<Event>, i: nat)
    requires i < |events|
  {
    events[i].generation == Claims(events[..i + 1])
  }

  ghost predicate CountsClaims(events: seq<Event>) {
    forall i :: 0 <= i < |events| ==> CountedAt(events, i)
  }

  /** Sequences are 1..n, statuses follow the policy, and generations count the claims so far. */
  ghost predicate FaithfulLog(id: ReviewId, events: seq<Event>) {
    events != [] && events[0].status == PENDING && Numbered(id, events) && FollowsPolicy(events) && CountsClaims(events)
  }

  ghost predicate Faithful(id: ReviewId, s: Slot) {
    && FaithfulLog(id, s.events)
    && s.sequence == |s.events| <= MAX_EVENT_SEQUENCE
    && s.review.status == s.events[s.sequence - 1].status
    && s.review.generation == s.events[s.sequence - 1].generation <= MAX_GENERATION
    && (!s.review.deleted ==> s.review.updatedAt == s.events[s.sequence - 1].createdAt)
    && (s.result.Some? <==> s.review.status == COMPLETED)
  }

  lemma AppendFollowsPolicy(events: seq<Event>, e: Event)
    requires events != [] && FollowsPolicy(events)
    ensures FollowsPolicy(events + [e]) <==> e.status in Targets(events[|events| - 1].status)
  {
    var longer := events + [e];
    assert longer[|events|] == e && longer[|events| - 1] == events[|events| - 1];
    if e.status in Targets(events[|events| - 1].status) {
      forall i, j | 0 <= i < |longer| && j == i + 1 < |longer| ensures longer[j].status in Targets(longer[i].status) {
        assert longer[i] == events[i];
        if j < |events| {
          assert longer[j] == events[j];
        }
      }
    } else {
      assert longer[|events|].status !in Targets(longer[|events| - 1].status);
    }
  }

  lemma {:induction false} ClaimsAfterOne(events: seq<Event>, e: Event)
    ensures Claims(events + [e]) == Claims(events) + if e.status == PROCESSING then 1 else 0
  {
    assert (events + [e])[..|events|] == events;
  }

  lemma {:induction false} AppendCountsClaims(events: seq<Event>, e: Event)
    requires CountsClaims(events) && e.generation == Claims(events) + if e.status == PROCESSING then 1 else 0
    ensures CountsClaims(events + [e])
  {
    var longer := events + [e];
    ClaimsAfterOne(events, e);
    forall i | 0 <= i < |longer| ensures CountedAt(longer, i) {
      if i < |events| {
        assert CountedAt(events, i) && longer[..i + 1] == events[..i + 1];
      } else {
        assert longer[..i + 1] == longer;
      }
    }
  }

  /** Appending one event keeps a log faithful exactly when the policy allows its status. */
  lemma {:induction false} AppendKeepsLog(id: ReviewId, events: seq<Event>, e: Event)
    requires FaithfulLog(id, events) && e.reviewId == id && e.sequence == |events| + 1 && FieldsMatchStatus(e)
    requires e.generation == Claims(events) + if e.status == PROCESSING then 1 else 0
    ensures FaithfulLog(id, events + [e]) <==> e.status in Targets(events[|events| - 1].status)
  {
    AppendFollowsPolicy(events, e);
    AppendCountsClaims(events, e);
  }

  lemma {:induction false} LastGeneration(id: ReviewId, events: seq<Event>)
    requires FaithfulLog(id, events)
    ensures events[|events| - 1].generation == Claims(events)
  {
    assert CountedAt(events, |events| - 1) && events[..|events|] == events;
  }

  /** A successful append leaves a faithful slot exactly when the policy allows the new status. */
  lemma AppendFaithful(id: ReviewId, s: Slot, row: Review, retryable: Option<bool>, result: Option<ResultRecord>)
    requires Faithful(id, s) && s.sequence < MAX_EVENT_SEQUENCE && row.generation <= MAX_GENERATION
    requires row.generation == s.review.generation + if row.status == PROCESSING then 1 else 0
    requires row.status in Targets(s.review.status) ==> (result.Some? <==> row.status == COMPLETED)
    ensures Faithful(id, Append(id, s, row, retryable, result).0) <==> row.status in Targets(s.review.status)
  {
    LastGeneration(id, s.events);
    AppendKeepsLog(id, s.events, EventFor(id, row, s.sequence + 1, retryable));
  }

  lemma CreatedIsFaithful(id: ReviewId, user: nat, now: int, result: Option<ResultRecord>)
    ensures Faithful(id, Created(id, user, now, result)) <==> result.None?
  {
    var s := Created(id, user, now, result);
    assert s.events[..0 + 1] == s.events && s.events[..0] == [];
    assert Claims(s.events) == 0;
  }

  /** A status change keeps the history faithful exactly when the policy allows it from the current status. */
  lemma TransitionFaithfulIff(id: ReviewId, s: Slot, user: nat, t: Request)
    requires Faithful(id, s)
    ensures var (after, reply) := Transition(id, s, user, t);
      Faithful(id, after) <==> (reply.Returned? ==> t.to in Targets(s.review.status))
  {
    if TransitionApplies(s, user, t) && s.sequence < MAX_EVENT_SEQUENCE {
      AppendFaithful(id, s, Transitioned(s.review, t), t.retryable, s.result);
    }
  }

  lemma FinalizeKeepsFaithful(id: ReviewId, s: Slot, user: nat, result: Option<ResultRecord>, now: int, expected: nat)
    requires Faithful(id, s)
    ensures Faithful(id, Finalize(id, s, user, result, now, expected).0)
  {
    if HoldsClaim(s, user, expected) && result.Some? && s.sequence < MAX_EVENT_SEQUENCE {
      AppendFaithful(id, s, s.review.(status := COMPLETED, updatedAt := now), None, result);
    }
  }

  lemma FenceKeepsFaithful(id: ReviewId, s: Slot, user: nat, now: int, expected: nat)
    requires Faithful(id, s)
    ensures Faithful(id, Fence(id, s, user, now, expected).0)
  {
    if HoldsClaim(s, user, expected) && s.sequence < MAX_EVENT_SEQUENCE {
      AppendFaithful(id, s, s.review.(status := CANCELLED, updatedAt := now), None, s.result);
    }
  }

  // ---------------------------------------------------------------- runs of one review

  datatype Op =
    | DoTransition(user: nat, request: Request)
    | DoFinalize(user: nat, result: Option<ResultRecord>, now: int, expected: nat)
    | DoFence(user: nat, now: int, expected: nat)
    | DoDelete(user: nat, now: int)

  function Apply(id: ReviewId, s: Slot, op: Op): (Slot, Reply) {
    match op
    case DoTransition(user, t) => Transition(id, s, user, t)
    case DoFinalize(user, result, now, expected) => Finalize(id, s, user, result, now, expected)
    case DoFence(user, now, expected) => Fence(id, s, user, now, expected)
    case DoDelete(user, now) => (SoftDelete(s, user, now).0, Null)
  }

  /** Requests name only source statuses from which the policy allows the target. */
  predicate Lawful(op: Op) {
    op.DoTransition? ==> op.request.from <= AllowedSources(op.request.to)
  }

  datatype Rule = Claim | Complete | Fail | Cancel

  /** REVIEW_PROCESSING_TRANSITIONS through createProcessingTransition. */
  function ProcessingRequest(rule: Rule, now: int, expected: Option<nat>, retryable: Option<bool>): Request {
    match rule
    case Cancel => Request({PROCESSING}, CANCELLED, expected, retryable, now)
    case Claim => Request({PENDING}, PROCESSING, expected, retryable, now)
    case Complete => Request({PROCESSING}, COMPLETED, expected, retryable, now)
    case Fail => Request({PROCESSING}, FAILED, expected, retryable, now)
  }

  /** Every request the services build is lawful: the processing rules, and the user's retry and cancel. */
  lemma CallersAreLawful(user: nat, rule: Rule, to: Status, now: int, expected: Option<nat>, retryable: Option<bool>)
    ensures Lawful(DoTransition(user, ProcessingRequest(rule, now, expected, retryable)))
    ensures Lawful(DoTransition(user, Request(AllowedSources(to), to, expected, retryable, now)))
    ensures AllowedSources(PENDING) == {FAILED, CANCELLED} && AllowedSources(CANCELLED) == {PENDING, PROCESSING}
  {
  }

  /** The policy, status by status; COMPLETED is never left. */
  lemma PolicyTable()
    ensures AllowedSources(PENDING) == {FAILED, CANCELLED} && AllowedSources(PROCESSING) == {PENDING}
    ensures AllowedSources(COMPLETED) == {PROCESSING} && AllowedSources(FAILED) == {PROCESSING}
    ensures AllowedSources(CANCELLED) == {PENDING, PROCESSING}
  {
  }

  function Run(id: ReviewId, s: Slot, ops: seq<Op>): Slot {
    if ops == [] then s else Apply(id, Run(id, s, ops[..|ops| - 1]), ops[|ops| - 1]).0
  }

  lemma ApplyKeepsFaithful(id: ReviewId, s: Slot, op: Op)
    requires Faithful(id, s) && Lawful(op)
    ensures Faithful(id, Apply(id, s, op).0)
  {
    match op
    case DoTransition(user, t) =>
      TransitionFaithfulIff(id, s, user, t);
      assert TransitionApplies(s, user, t) ==> s.review.status in AllowedSources(t.to);
    case DoFinalize(user, result, now, expected) => FinalizeKeepsFaithful(id, s, user, result, now, expected);
    case DoFence(user, now, expected) => FenceKeepsFaithful(id, s, user, now, expected);
    case DoDelete(user, now) =>
  }

  lemma {:induction false} EveryRunIsFaithful(id: ReviewId, user: nat, now: int, ops: seq<Op>)
    requires forall i :: 0 <= i < |ops| ==> Lawful(ops[i])
    ensures Faithful(id, Run(id, Created(id, user, now, None), ops))
  {
    if ops == [] {
      CreatedIsFaithful(id, user, now, None);
    } else {
      EveryRunIsFaithful(id, user, now, ops[..|ops| - 1]);
      ApplyKeepsFaithful(id, Run(id, Created(id, user, now, None), ops[..|ops| - 1]), ops[|ops| - 1]);
    }
  }

  // ---------------------------------------------------------------- runs of the whole repository

  const NO_REVIEWS := Tables(map[], map[], map[], map[])

  datatype TablesOp = CreateAt(id: ReviewId, user: nat, now: int) | ApplyAt(id: ReviewId, op: Op)

  /** The review a creation makes; a result stored under its id stays. */
  function CreatedIn(t: Tables, id: ReviewId, user: nat, now: int): Slot {
    Created(id, user, now, if id in t.results then Some(t.results[id]) else None)
  }

  function TablesNext(t: Tables, op: TablesOp): (after: Tables)
    requires Aligned(t)
    ensures Aligned(after)
  {
    match op
    case CreateAt(id, user, now) => Put(t, id, CreatedIn(t, id, user, now))
    case ApplyAt(id, o) => if id in t.reviews then Put(t, id, Apply(id, SlotIn(t, id), o).0) else t
  }

  /** The moves of a run are what the methods do. */
  lemma NextIsMethods(t: Tables, id: ReviewId, user: nat, r: Request, result: Option<ResultRecord>, now: int,
      expected: nat)
    requires Aligned(t)
    ensures TablesNext(t, ApplyAt(id, DoTransition(user, r))) == TransitionIn(t, id, user, r).0
    ensures TablesNext(t, ApplyAt(id, DoFinalize(user, result, now, expected)))
      == FinalizeIn(t, id, user, result, now, expected).0
    ensures TablesNext(t, ApplyAt(id, DoFence(user, now, expected))) == FenceIn(t, id, user, now, expected).0
  {
    if id in t.reviews {
      RewritingOneResult(t.results, id);
      assert Put(t, id, SlotIn(t, id)) == t;
    }
  }

  function TablesRun(ops: seq<TablesOp>): (t: Tables)
    ensures Aligned(t)
  {
    if ops == [] then NO_REVIEWS else TablesNext(TablesRun(ops[..|ops| - 1]), ops[|ops| - 1])
  }

  ghost predicate AllFaithful(t: Tables)
    requires Aligned(t)
  {
    forall id :: id in t.reviews ==> Faithful(id, SlotIn(t, id))
  }

  predicate LawfulAt(op: TablesOp) {
    op.ApplyAt? ==> Lawful(op.op)
  }

  /** A creation under the id of a review that has a result. */
  predicate Recreates(t: Tables, op: TablesOp) {
    op.CreateAt? && op.id in t.results
  }

  lemma PutFaithful(t: Tables, id: ReviewId, s: Slot)
    requires Aligned(t) && AllFaithful(t) && (s.result.None? ==> id !in t.results)
    ensures AllFaithful(Put(t, id, s)) <==> Faithful(id, s)
  {
    PutIsLocal(t, id, s, id);
    forall other | other in t.reviews && other != id ensures Faithful(other, SlotIn(Put(t, id, s), other)) {
      PutIsLocal(t, id, s, other);
    }
  }

  lemma ApplyKeepsResult(id: ReviewId, s: Slot, op: Op)
    requires s.result.Some?
    ensures Apply(id, s, op).0.result.Some?
  {
  }

  lemma CreationFaithfulIff(t: Tables, id: ReviewId, user: nat, now: int)
    requires Aligned(t) && AllFaithful(t)
    ensures AllFaithful(Put(t, id, CreatedIn(t, id, user, now))) <==> id !in t.results
  {
    var s := CreatedIn(t, id, user, now);
    CreatedIsFaithful(id, user, now, s.result);
    PutFaithful(t, id, s);
  }

  lemma ApplicationFaithful(t: Tables, id: ReviewId, op: Op)
    requires Aligned(t) && AllFaithful(t) && Lawful(op) && id in t.reviews
    ensures AllFaithful(Put(t, id, Apply(id, SlotIn(t, id), op).0))
  {
    var s := SlotIn(t, id);
    assert Faithful(id, s);
    ApplyKeepsFaithful(id, s, op);
    if s.result.Some? {
      ApplyKeepsResult(id, s, op);
    }
    PutFaithful(t, id, Apply(id, s, op).0);
  }

  lemma NextFaithfulIff(t: Tables, op: TablesOp)
    requires Aligned(t) && AllFaithful(t) && LawfulAt(op)
    ensures AllFaithful(TablesNext(t, op)) <==> !Recreates(t, op)
  {
    match op
    case CreateAt(id, user, now) => CreationFaithfulIff(t, id, user, now);
    case ApplyAt(id, o) =>
      if id in t.reviews {
        ApplicationFaithful(t, id, o);
      }
  }

  /** All histories are faithful after every prefix of the run. */
  ghost predicate AlwaysFaithful(ops: seq<TablesOp>) {
    AllFaithful(TablesRun(ops)) && (ops != [] ==> AlwaysFaithful(ops[..|ops| - 1]))
  }

  /** No creation of the run reuses the id of a review with a result. */
  predicate NeverRecreates(ops: seq<TablesOp>) {
    ops != [] ==> NeverRecreates(ops[..|ops| - 1]) && !Recreates(TablesRun(ops[..|ops| - 1]), ops[|ops| - 1])
  }

  /**
    Every history of the repository stays faithful exactly when no creation reuses the id of a review
    with a result.
   */
  lemma {:induction false} HistoriesAreFaithfulIff(ops: seq<TablesOp>)
    requires forall i :: 0 <= i < |ops| ==> LawfulAt(ops[i])
    ensures AlwaysFaithful(ops) <==> NeverRecreates(ops)
  {
    if ops != [] {
      var before := ops[..|ops| - 1];
      HistoriesAreFaithfulIff(before);
      if AllFaithful(TablesRun(before)) {
        NextFaithfulIff(TablesRun(before), ops[|ops| - 1]);
      }
    }
  }

  /** A review created, claimed and completed. */
  function Completing(id: ReviewId, user: nat, result: ResultRecord): seq<TablesOp> {
    [CreateAt(id, user, 0), ApplyAt(id, DoTransition(user, ProcessingRequest(Claim, 1, None, None))),
     ApplyAt(id, DoFinalize(user, Some(result), 2, 1))]
  }

  lemma CompletingStoresResult(id: ReviewId, user: nat, result: ResultRecord)
    ensures var t := TablesRun(Completing(id, user, result)); id in t.results && t.results[id] == result
    ensures forall i :: 0 <= i < |Completing(id, user, result)| ==> LawfulAt(Completing(id, user, result)[i])
  {
    var ops := Completing(id, user, result);
    var created := Created(id, user, 0, None);
    CompletesInTwo(id, user, result);
    assert ops[..1] == [ops[0]] && ops[..1][..0] == [] && ops[..2][..1] == ops[..1] && ops[..3] == ops;
    PutIsLocal(NO_REVIEWS, id, created, id);
    AppliedTo(ops[..2], id, ops[1].op, created);
    AppliedTo(ops, id, ops[2].op, Apply(id, created, ops[1].op).0);
  }

  /** Creating a completed review again leaves a PENDING review with a result. */
  lemma RecreationBreaksHistory(id: ReviewId, user: nat, result: ResultRecord)
    ensures var ops := Completing(id, user, result) + [CreateAt(id, user, 3)];
      && !NeverRecreates(ops) && id in TablesRun(ops).reviews
      && SlotIn(TablesRun(ops), id) == Created(id, user, 3, Some(result))
  {
    CompletingStoresResult(id, user, result);
    var before := Completing(id, user, result);
    assert (before + [CreateAt(id, user, 3)])[..|before|] == before;
    PutIsLocal(TablesRun(before), id, Created(id, user, 3, Some(result)), id);
  }

  /** The slot after a run that ends with an operation on it. */
  lemma {:induction false} AppliedTo(ops: seq<TablesOp>, id: ReviewId, op: Op, s: Slot)
    requires ops != [] && ops[|ops| - 1] == ApplyAt(id, op)
    requires var t := TablesRun(ops[..|ops| - 1]); id in t.reviews && SlotIn(t, id) == s
    ensures id in TablesRun(ops).reviews && SlotIn(TablesRun(ops), id) == Apply(id, s, op).0
  {
    if s.result.Some? {
      ApplyKeepsResult(id, s, op);
    }
    PutIsLocal(TablesRun(ops[..|ops| - 1]), id, Apply(id, s, op).0, id);
  }

  lemma CompletesInTwo(id: ReviewId, user: nat, result: ResultRecord)
    ensures var claimed :=
      Apply(id, Created(id, user, 0, None), DoTransition(user, ProcessingRequest(Claim, 1, None, None))).0;
      Apply(id, claimed, DoFinalize(user, Some(result), 2, 1)).0.result == Some(result)
  {
  }

  /** An operation that throws or returns null leaves the row, the log and the result as they were. */
  lemma RefusalChangesNothing(id: ReviewId, s: Slot, op: Op)
    requires Faithful(id, s)
    ensures Apply(id, s, op).1.Thrown? ==> Apply(id, s, op).0 == s
    ensures Apply(id, s, op).1.Null? && !op.DoDelete? ==> Apply(id, s, op).0 == s
    ensures Apply(id, s, op).1.Returned? ==>
      |Apply(id, s, op).0.events| == |s.events| + 1 && s.events < Apply(id, s, op).0.events
    ensures Apply(id, s, op).1.Thrown? <==>
      || (op.DoTransition? && TransitionApplies(s, op.user, op.request) && s.sequence == MAX_EVENT_SEQUENCE)
      || (op.DoFinalize? && HoldsClaim(s, op.user, op.expected) &&
        (op.result.None? || s.sequence == MAX_EVENT_SEQUENCE))
      || (op.DoFence? && HoldsClaim(s, op.user, op.expected) && s.sequence == MAX_EVENT_SEQUENCE)
  {
  }

  /** Another user, or anyone once the review is deleted, reads nothing and changes nothing. */
  lemma OthersSeeNothing(id: ReviewId, s: Slot, op: Op, after: int, limit: int)
    requires s.review.deleted || op.user != s.review.user
    ensures Apply(id, s, op) == (s, Null)
    ensures ListEvents(s, op.user, after, limit) == [] && LatestEvent(s, op.user) == None
    ensures !SoftDelete(s, op.user, after).1
  {
  }

  /** The owner's deletion keeps everything but hides it from everyone. */
  lemma DeletionHides(id: ReviewId, s: Slot, now: int, user: nat, after: int, limit: int)
    requires !s.review.deleted
    ensures var (t, deleted) := SoftDelete(s, s.review.user, now);
      && deleted && t == s.(review := s.review.(deleted := true, updatedAt := now))
      && ListEvents(t, user, after, limit) == [] && LatestEvent(t, user) == None
      && Apply(id, s, DoDelete(s.review.user, now)).0 == t
  {
  }

  /** The owner of a review that is not deleted. */
  predicate IsOwner(s: Slot, user: nat) {
    user == s.review.user && !s.review.deleted
  }

  /**
    What the owner's operations answer. A status change succeeds exactly from a requested status, at
    the expected generation if one is given, below the generation and sequence limits, and never to
    COMPLETED; the new row and event carry the request's time and flag.
   */
  lemma OwnersAreAnswered(id: ReviewId, s: Slot, user: nat, t: Request)
    requires Faithful(id, s) && IsOwner(s, user)
    ensures var (after, reply) := Transition(id, s, user, t);
      && (reply.Returned? <==>
            && s.review.status in t.from && t.to != COMPLETED && s.sequence < MAX_EVENT_SEQUENCE
            && (t.expected == None || t.expected == Some(s.review.generation))
            && (t.to == PROCESSING ==> s.review.generation < MAX_GENERATION))
      && (reply.Returned? ==>
            && after.review.status == t.to && after.review.updatedAt == t.now
            && after.review.generation == s.review.generation + (if t.to == PROCESSING then 1 else 0)
            && reply.review == after.review && after.result == s.result && |after.events| == |s.events| + 1
            && after.events[|s.events|].createdAt == t.now
            && (t.to == FAILED ==> after.events[|s.events|].retryable == Some(t.retryable == Some(true))))
  {
  }

  /** Completing and fencing succeed exactly at the claimed generation, below the sequence limit. */
  lemma ClaimHoldersAreAnswered(id: ReviewId, s: Slot, user: nat, result: ResultRecord, now: int, expected: nat)
    requires Faithful(id, s) && IsOwner(s, user)
    ensures var (after, reply) := Finalize(id, s, user, Some(result), now, expected);
      && (reply.Returned? <==>
            s.review.status == PROCESSING && s.review.generation == expected && s.sequence < MAX_EVENT_SEQUENCE)
      && (reply.Returned? ==>
            after.review == s.review.(status := COMPLETED, updatedAt := now) && after.result == Some(result))
    ensures var (after, reply) := Fence(id, s, user, now, expected);
      && (reply.Returned? <==>
            s.review.status == PROCESSING && s.review.generation == expected && s.sequence < MAX_EVENT_SEQUENCE)
      && (reply.Returned? ==>
            after.review == s.review.(status := CANCELLED, updatedAt := now) && after.result == s.result)
  {
  }

  // ---------------------------------------------------------------- fencing

  predicate Claimed(s: Slot, g: nat) {
    s.review.status == PROCESSING && s.review.generation == g
  }

  /** The claim of generation g has been taken and given up. */
  predicate Past(s: Slot, g: nat) {
    s.review.generation >= g && !Claimed(s, g)
  }

  /** Generations move only by a claim, one at a time, and a claim that was left is never re-entered. */
  lemma ApplyFences(id: ReviewId, s: Slot, op: Op, g: nat)
    requires Lawful(op)
    ensures var t := Apply(id, s, op).0;
      && t.review.generation == s.review.generation + (if Claimed(t, s.review.generation + 1) then 1 else 0)
      && (t.review.generation > s.review.generation ==>
        op.DoTransition? && op.request.to == PROCESSING && s.review.status == PENDING)
      && (Past(s, g) ==> Past(t, g))
      && (s.review.status == COMPLETED ==>
        t.review.(deleted := s.review.deleted, updatedAt := s.review.updatedAt) == s.review
                                           && t.events == s.events && t.result == s.result)
  {
    assert op.DoTransition? ==> op.request.from <= AllowedSources(op.request.to);
  }

  lemma {:induction false} PastIsForever(id: ReviewId, s: Slot, ops: seq<Op>, g: nat)
    requires forall i :: 0 <= i < |ops| ==> Lawful(ops[i])
    requires Past(s, g)
    ensures Past(Run(id, s, ops), g)
  {
    if ops != [] {
      PastIsForever(id, s, ops[..|ops| - 1], g);
      ApplyFences(id, Run(id, s, ops[..|ops| - 1]), ops[|ops| - 1], g);
    }
  }

  /** A completed review keeps its status, generation, log and result through any later operations. */
  lemma {:induction false} CompletedIsForever(id: ReviewId, s: Slot, ops: seq<Op>)
    requires forall i :: 0 <= i < |ops| ==> Lawful(ops[i])
    requires s.review.status == COMPLETED
    ensures var t := Run(id, s, ops);
      t.review.status == COMPLETED && t.review.generation == s.review.generation && t.events == s.events &&
        t.result == s.result
  {
    if ops != [] {
      CompletedIsForever(id, s, ops[..|ops| - 1]);
      ApplyFences(id, Run(id, s, ops[..|ops| - 1]), ops[|ops| - 1], 0);
    }
  }

  /** The operation ends the claim of generation g. */
  predicate Ends(id: ReviewId, s: Slot, op: Op, g: nat) {
    Claimed(s, g) && !Claimed(Apply(id, s, op).0, g)
  }

  /** A successful finalize, fence, fail or cancel fenced at g is an end of claim g. */
  lemma FencedSuccessEnds(id: ReviewId, s: Slot, op: Op, g: nat)
    requires Apply(id, s, op).1.Returned?
    requires (op.DoFinalize? && op.expected == g) || (op.DoFence? && op.expected == g)
          || (op.DoTransition? && op.request.expected == Some(g) && op.request.from == {PROCESSING} &&
            op.request.to in {FAILED, CANCELLED})
    ensures Ends(id, s, op, g)
  {
  }

  /** Of all operations in a run, at most one ends the claim of a given generation. */
  lemma {:induction false} ClaimEndsOnce(id: ReviewId, s: Slot, ops: seq<Op>, i: nat, j: nat, g: nat)
    requires forall k :: 0 <= k < |ops| ==> Lawful(ops[k])
    requires i < j < |ops| && Ends(id, Run(id, s, ops[..i]), ops[i], g)
    ensures !Ends(id, Run(id, s, ops[..j]), ops[j], g)
  {
    var mid := Run(id, s, ops[..i + 1]);
    assert ops[..i + 1][..i] == ops[..i];
    ApplyFences(id, Run(id, s, ops[..i]), ops[i], g);
    RunSplits(id, s, ops[..j], i + 1);
    assert ops[..j][..i + 1] == ops[..i + 1];
    PastIsForever(id, mid, ops[..j][i + 1..], g);
  }

  lemma {:induction false} RunSplits(id: ReviewId, s: Slot, ops: seq<Op>, k: nat)
    requires k <= |ops|
    ensures Run(id, s, ops) == Run(id, Run(id, s, ops[..k]), ops[k..])
    decreases |ops|
  {
    if k == |ops| {
      assert ops[..k] == ops && ops[k..] == [];
    } else {
      var shorter := ops[..|ops| - 1];
      RunSplits(id, s, shorter, k);
      assert shorter[..k] == ops[..k];
      assert ops[k..][..|ops[k..]| - 1] == shorter[k..];
    }
  }

  // ---------------------------------------------------------------- reading the log

  /** In a faithful log a cursor read is the suffix after it. */
  lemma {:induction false} NewerIsSuffix(id: ReviewId, events: seq<Event>, after: nat)
    requires FaithfulLog(id, events)
    ensures Newer(events, after) == if after < |events| then events[after..] else []
  {
    NewerFrom(events, 0, after);
  }

  lemma {:induction false} NewerFrom(events: seq<Event>, from: nat, after: nat)
    requires forall i :: 0 <= i < |events| ==> events[i].sequence == from + i + 1
    ensures Newer(events, after) == if after <= from then events else if after - from < |events|
      then events[after - from..] else []
  {
    if events != [] {
      NewerFrom(events[1..], from + 1, after);
    }
  }

  /** COMPLETED can only be the last event, and each generation is claimed by exactly one event. */
  lemma FaithfulLogShape(id: ReviewId, events: seq<Event>, i: nat, j: nat)
    requires FaithfulLog(id, events) && i < j < |events|
    ensures events[i].status != COMPLETED
    ensures events[i].generation <= events[j].generation
    ensures events[j].status == PROCESSING ==> events[i].generation < events[j].generation
  {
    assert events[i + 1].status in Targets(events[i].status);
    assert CountedAt(events, i) && CountedAt(events, j);
    ClaimsGrow(events, i + 1, j);
    assert events[..j + 1][..j] == events[..j];
  }

  lemma {:induction false} ClaimsGrow(events: seq<Event>, i: nat, j: nat)
    requires i <= j <= |events|
    ensures Claims(events[..i]) <= Claims(events[..j])
    decreases j
  {
    if i < j {
      assert events[..j][..j - 1] == events[..j - 1];
      ClaimsGrow(events, i, j - 1);
    }
  }
}
