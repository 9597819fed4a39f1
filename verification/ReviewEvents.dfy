/**
  Review lifecycle events on the wire: the contract of packages/contracts/src/review.ts, the
  server's mapping from log records (apps/api/src/modules/review/review-events.service.ts) and the
  client's validator (apps/web/features/review/api/reviewApi.ts).
 */
module ReviewEvents {
  import opened Utf16
  import J = Json
  import L = ReviewLog

  datatype Replay = Current | Reset

  datatype Body = Snapshot(replay: Replay,
    retryable: Option<bool>) | Completed | Failed(again: bool) | Cancelled | Heartbeat

  datatype ReviewEvent = ReviewEvent(
    generation: nat, id: Text, resultAvailable: bool, reviewId: Text, status: L.Status, body: Body)

  const MAX_ID_LENGTH := 10
  const MAX_REVIEW_ID_LENGTH := 25

  /** `^[1-9][0-9]{0,9}$`. */
  predicate IsEventId(t: Text) {
    1 <= |t| <= MAX_ID_LENGTH && AllDigits(t) && t[0] != 48
  }

  predicate IsReviewId(t: Text) {
    1 <= |t| <= MAX_REVIEW_ID_LENGTH && Trimmed(t)
  }

  predicate BodyFits(e: ReviewEvent) {
    match e.body
    case Snapshot(_, _) => true
    case Completed => e.resultAvailable && e.status == L.COMPLETED
    case Failed(_) => !e.resultAvailable && e.status == L.FAILED
    case Cancelled => !e.resultAvailable && e.status == L.CANCELLED
    case Heartbeat => true
  }

  /** reviewEventSchema; its review id has been trimmed. */
  predicate InContract(e: ReviewEvent) {
    e.generation <= L.MAX_GENERATION && IsEventId(e.id) && IsReviewId(e.reviewId) && BodyFits(e)
  }

  /** reviewEventSchema.parse, absent when it throws. */
  function Parsed(e: ReviewEvent): Option<ReviewEvent> {
    var trimmed := e.(reviewId := Trim(e.reviewId));
    if InContract(trimmed) then Some(trimmed) else None
  }

  /** What isReviewLifecycleEvent accepts of the contract: heartbeats never carry a terminal status. */
  predicate ClientAccepts(e: ReviewEvent) {
    InContract(e) && (e.body == Heartbeat ==> !L.Terminal(e.status))
  }

  // ---------------------------------------------------------------- from log records

  function BaseEvent(name: Text, record: L.Event, body: Body): ReviewEvent {
    ReviewEvent(record.generation, Digits(record.sequence), record.resultAvailable, name, record.status, body)
  }

  function ToEvent(name: Text, record: L.Event): Option<ReviewEvent> {
    match record.eventType
    case CompletedType => Parsed(BaseEvent(name, record, Completed).(resultAvailable := true))
    case FailedType =>
      Parsed(BaseEvent(name, record,
      Failed(record.retryable.Some? && record.retryable.value)).(resultAvailable := false))
    case CancelledType => Parsed(BaseEvent(name, record, Cancelled).(resultAvailable := false))
    case SnapshotType => Parsed(BaseEvent(name, record, Snapshot(Current, record.retryable)))
  }

  function ToResetSnapshot(name: Text, record: L.Event): Option<ReviewEvent> {
    Parsed(BaseEvent(name, record, Snapshot(Reset, record.retryable)))
  }

  function ToHeartbeat(name: Text, record: L.Event): Option<ReviewEvent> {
    Parsed(BaseEvent(name, record, Heartbeat))
  }

  predicate RecordOk(record: L.Event) {
    1 <= record.sequence <= L.MAX_EVENT_SEQUENCE && record.generation <= L.MAX_GENERATION && L.FieldsMatchStatus(record)
  }

  predicate NameOk(name: Text) {
    1 <= |Trim(name)| <= MAX_REVIEW_ID_LENGTH
  }

  /** The event names the record's sequence and repeats its status, generation and result flag. */
  predicate Describes(e: ReviewEvent, record: L.Event) {
    && IsEventId(e.id) && NumberOf(e.id) == record.sequence
    && e.status == record.status && e.generation == record.generation && e.resultAvailable == record.resultAvailable
  }

  lemma {:induction false} SequenceIdIsValid(sequence: nat)
    requires 1 <= sequence <= L.MAX_EVENT_SEQUENCE
    ensures IsEventId(Digits(sequence)) && NumberOf(Digits(sequence)) == sequence
  {
    DigitsRoundTrip(sequence);
    assert Power10(10) == 10_000_000_000 by {
      assert Power10(5) == 100_000 by { assert Power10(2) == 100; }
      assert Power10(8) == 100_000_000;
    }
    DigitsLength(sequence, 10);
  }

  lemma WireFormExists(name: Text, record: L.Event, e: ReviewEvent)
    requires RecordOk(record) && NameOk(name)
    requires e.generation == record.generation && e.id == Digits(record.sequence) && e.reviewId == name && BodyFits(e)
    requires e.status == record.status && e.resultAvailable == record.resultAvailable
    ensures Parsed(e).Some? && InContract(Parsed(e).value) && Describes(Parsed(e).value, record) &&
      Parsed(e).value.body == e.body
  {
    SequenceIdIsValid(record.sequence);
    TrimTrims(name);
  }

  /** The event is accepted by the client and describes the record. */
  predicate Delivers(e: Option<ReviewEvent>, record: L.Event) {
    e.Some? && ClientAccepts(e.value) && Describes(e.value, record)
  }

  /** The kind of the event says the record's status, and a failure carries its retryable flag. */
  predicate BodyRepeats(body: Body, record: L.Event) {
    match record.status
    case COMPLETED => body == Completed
    case FAILED => record.retryable.Some? && body == Failed(record.retryable.value)
    case CANCELLED => body == Cancelled
    case _ => body == Snapshot(Current, None)
  }

  /** Every record of a faithful log has an ordinary wire form; no validation on either side can reject it. */
  lemma RecordsAreDelivered(name: Text, record: L.Event)
    requires RecordOk(record) && NameOk(name)
    ensures Delivers(ToEvent(name, record), record) && BodyRepeats(ToEvent(name, record).value.body, record)
  {
    match record.eventType
    case CompletedType => WireFormExists(name, record, BaseEvent(name, record, Completed));
    case FailedType =>
      WireFormExists(name, record, BaseEvent(name, record, Failed(record.retryable.Some? && record.retryable.value)));
    case CancelledType => WireFormExists(name, record, BaseEvent(name, record, Cancelled));
    case SnapshotType => WireFormExists(name, record, BaseEvent(name, record, Snapshot(Current, record.retryable)));
  }

  /** So does its reset snapshot; its heartbeat does exactly while the status is not terminal. */
  lemma ResetsAndHeartbeatsAreDelivered(name: Text, record: L.Event)
    requires RecordOk(record) && NameOk(name)
    ensures Delivers(ToResetSnapshot(name, record), record)
    ensures ToResetSnapshot(name, record).value.body == Snapshot(Reset, record.retryable)
    ensures ToHeartbeat(name, record).Some? && ToHeartbeat(name, record).value.body == Heartbeat
    ensures Delivers(ToHeartbeat(name, record), record) <==> !L.Terminal(record.status)
  {
    WireFormExists(name, record, BaseEvent(name, record, Snapshot(Reset, record.retryable)));
    WireFormExists(name, record, BaseEvent(name, record, Heartbeat));
  }

  lemma FaithfulRecordsAreOk(id: L.ReviewId, events: seq<L.Event>, i: nat)
    requires L.FaithfulLog(id, events) && i < |events| <= L.MAX_EVENT_SEQUENCE &&
      events[|events| - 1].generation <= L.MAX_GENERATION
    ensures RecordOk(events[i]) && events[i].sequence == i + 1
  {
    if i < |events| - 1 {
      L.FaithfulLogShape(id, events, i, |events| - 1);
    }
  }

  // ---------------------------------------------------------------- as JSON members

  datatype Field =
    | FGeneration | FId | FResultAvailable | FReviewId | FSchemaVersion | FStatus | FReplay | FRetryable | FType

  function KeyText(f: Field): Text {
    match f
    case FGeneration => Ascii("generation")
    case FId => Ascii("id")
    case FResultAvailable => Ascii("resultAvailable")
    case FReviewId => Ascii("reviewId")
    case FSchemaVersion => Ascii("schemaVersion")
    case FStatus => Ascii("status")
    case FReplay => Ascii("replay")
    case FRetryable => Ascii("retryable")
    case FType => Ascii("type")
  }

  function FieldOf(key: Text): Option<Field> {
    if key == KeyText(FGeneration) then Some(FGeneration)
    else if key == KeyText(FId) then Some(FId)
    else if key == KeyText(FResultAvailable) then Some(FResultAvailable)
    else if key == KeyText(FReviewId) then Some(FReviewId)
    else if key == KeyText(FSchemaVersion) then Some(FSchemaVersion)
    else if key == KeyText(FStatus) then Some(FStatus)
    else if key == KeyText(FReplay) then Some(FReplay)
    else if key == KeyText(FRetryable) then Some(FRetryable)
    else if key == KeyText(FType) then Some(FType)
    else None
  }

  lemma KeyIsItsField(f: Field)
    ensures FieldOf(KeyText(f)) == Some(f) && |KeyText(f)| <= 15
  {
    assert KeyText(FStatus)[0] == 115 && KeyText(FReplay)[0] == 114;
  }

  function StatusText(s: L.Status): Text {
    match s
    case PENDING => Ascii("PENDING")
    case PROCESSING => Ascii("PROCESSING")
    case COMPLETED => Ascii("COMPLETED")
    case FAILED => Ascii("FAILED")
    case CANCELLED => Ascii("CANCELLED")
  }

  function StatusOf(t: Text): Option<L.Status> {
    if t == StatusText(L.PENDING) then Some(L.PENDING)
    else if t == StatusText(L.PROCESSING) then Some(L.PROCESSING)
    else if t == StatusText(L.COMPLETED) then Some(L.COMPLETED)
    else if t == StatusText(L.FAILED) then Some(L.FAILED)
    else if t == StatusText(L.CANCELLED) then Some(L.CANCELLED)
    else None
  }

  lemma StatusTextRoundTrip(s: L.Status)
    ensures StatusOf(StatusText(s)) == Some(s) && |StatusText(s)| <= 10
  {
    assert StatusText(L.COMPLETED)[1] == 79 && StatusText(L.CANCELLED)[1] == 65;
  }

  datatype Type = TSnapshot | TCompleted | TFailed | TCancelled | THeartbeat

  function TypeOf(body: Body): Type {
    match body
    case Snapshot(_, _) => TSnapshot
    case Completed => TCompleted
    case Failed(_) => TFailed
    case Cancelled => TCancelled
    case Heartbeat => THeartbeat
  }

  function TypeText(t: Type): Text {
    match t
    case TSnapshot => Ascii("snapshot")
    case TCompleted => Ascii("completed")
    case TFailed => Ascii("failed")
    case TCancelled => Ascii("cancelled")
    case THeartbeat => Ascii("heartbeat")
  }

  function TypeFrom(t: Text): Option<Type> {
    if t == TypeText(TSnapshot) then Some(TSnapshot)
    else if t == TypeText(TCompleted) then Some(TCompleted)
    else if t == TypeText(TFailed) then Some(TFailed)
    else if t == TypeText(TCancelled) then Some(TCancelled)
    else if t == TypeText(THeartbeat) then Some(THeartbeat)
    else None
  }

  lemma TypeTextRoundTrip(t: Type)
    ensures TypeFrom(TypeText(t)) == Some(t) && 1 <= |TypeText(t)| <= 9 && Trimmed(TypeText(t)) &&
      J.Printable(TypeText(t))
  {
    assert TypeText(TCompleted)[1] == 111 && TypeText(TCancelled)[1] == 97 && TypeText(THeartbeat)[1] == 101;
    assert TypeText(TSnapshot)[7] == 116 && TypeText(TCompleted)[8] == 100 && TypeText(TFailed)[5] == 100
        && TypeText(TCancelled)[8] == 100 && TypeText(THeartbeat)[8] == 116;
    assert TypeText(TSnapshot)[0] == 115 && TypeText(TCompleted)[0] == 99 && TypeText(TFailed)[0] == 102
        && TypeText(TCancelled)[0] == 99 && TypeText(THeartbeat)[0] == 104;
  }

  const VERSION: Text := [118, 49]
  const CURRENT: Text := [99, 117, 114, 114, 101, 110, 116]
  const RESET: Text := [114, 101, 115, 101, 116]

  datatype Entry = Entry(field: Field, value: J.Value)

  function Optional(retryable: Option<bool>): seq<Entry> {
    if retryable.None? then [] else [Entry(FRetryable, J.Bool(retryable.value))]
  }

  function BodyEntries(body: Body): seq<Entry> {
    match body
    case Snapshot(replay, retryable) =>
      [Entry(FReplay, J.Str(if replay == Current then CURRENT else RESET))] + Optional(retryable)
    case Failed(retryable) => [Entry(FRetryable, J.Bool(retryable))]
    case _ => []
  }

  /** The own properties of a parsed event, in the order the schemas declare them. */
  function Entries(e: ReviewEvent): seq<Entry> {
    [Entry(FGeneration, J.Num(e.generation)), Entry(FId, J.Str(e.id)),
      Entry(FResultAvailable, J.Bool(e.resultAvailable)),
     Entry(FReviewId, J.Str(e.reviewId)), Entry(FSchemaVersion, J.Str(VERSION)),
       Entry(FStatus, J.Str(StatusText(e.status)))]
    + BodyEntries(e.body) + [Entry(FType, J.Str(TypeText(TypeOf(e.body))))]
  }

  function Members(entries: seq<Entry>): seq<J.Member> {
    if entries == [] then []
    else
      var last := entries[|entries| - 1];
      Members(entries[..|entries| - 1]) + [J.Member(KeyText(last.field), last.value)]
  }

  /** The event object a client sees after JSON.parse: a later property replaces an earlier one of the same name. */
  datatype Raw = Raw(
    generation: Option<J.Value>, id: Option<J.Value>, resultAvailable: Option<J.Value>, reviewId: Option<J.Value>,
    schemaVersion: Option<J.Value>, status: Option<J.Value>, replay: Option<J.Value>, retryable: Option<J.Value>,
    typ: Option<J.Value>, unknown: bool)

  const EMPTY_RAW := Raw(None, None, None, None, None, None, None, None, None, false)

  function With(r: Raw, f: Option<Field>, v: J.Value): Raw {
    match f
    case None => r.(unknown := true)
    case Some(FGeneration) => r.(generation := Some(v))
    case Some(FId) => r.(id := Some(v))
    case Some(FResultAvailable) => r.(resultAvailable := Some(v))
    case Some(FReviewId) => r.(reviewId := Some(v))
    case Some(FSchemaVersion) => r.(schemaVersion := Some(v))
    case Some(FStatus) => r.(status := Some(v))
    case Some(FReplay) => r.(replay := Some(v))
    case Some(FRetryable) => r.(retryable := Some(v))
    case Some(FType) => r.(typ := Some(v))
  }

  function Collect(ms: seq<J.Member>): Raw {
    if ms == [] then EMPTY_RAW
    else With(Collect(ms[..|ms| - 1]), FieldOf(ms[|ms| - 1].key), ms[|ms| - 1].value)
  }

  predicate IsStr(v: Option<J.Value>) {
    v.Some? && v.value.Str?
  }

  predicate IsBool(v: Option<J.Value>) {
    v.Some? && v.value.Bool?
  }

  /** isReviewLifecycleBase. */
  predicate BaseOk(r: Raw) {
    && r.generation.Some? && r.generation.value.Num? && r.generation.value.n <= L.MAX_GENERATION
    && IsStr(r.id) && IsEventId(r.id.value.text)
    && IsStr(r.reviewId) && IsReviewId(r.reviewId.value.text)
    && r.schemaVersion == Some(J.Str(VERSION))
    && IsStr(r.status) && StatusOf(r.status.value.text).Some?
    && IsBool(r.resultAvailable)
  }

  function BaseOf(r: Raw, body: Body): ReviewEvent
    requires BaseOk(r)
  {
    ReviewEvent(r.generation.value.n, r.id.value.text, r.resultAvailable.value.b, r.reviewId.value.text,
                StatusOf(r.status.value.text).value, body)
  }

  /** The branch of isReviewLifecycleEvent for the event's type: exactly its keys, and no others. */
  function BodyOf(r: Raw): Option<Body> {
    if r.unknown || !IsStr(r.typ) then None
    else match TypeFrom(r.typ.value.text)
      case Some(TSnapshot) =>
        if IsStr(r.replay) && (r.replay.value.text == CURRENT || r.replay.value.text == RESET) &&
          (r.retryable.None? || IsBool(r.retryable))
        then Some(Snapshot(if r.replay.value.text == CURRENT then Current else Reset,
                           if r.retryable.None? then None else Some(r.retryable.value.b)))
        else None
      case Some(TFailed) => if r.replay.None? && IsBool(r.retryable) then Some(Failed(r.retryable.value.b)) else None
      case Some(TCompleted) => if r.replay.None? && r.retryable.None? then Some(Completed) else None
      case Some(TCancelled) => if r.replay.None? && r.retryable.None? then Some(Cancelled) else None
      case Some(THeartbeat) => if r.replay.None? && r.retryable.None? then Some(Heartbeat) else None
      case None => None
  }

  /** isReviewLifecycleEvent, with the event it then is. */
  function Validate(r: Raw): Option<ReviewEvent> {
    if !BaseOk(r) then None
    else match BodyOf(r)
      case None => None
      case Some(body) => if ClientAccepts(BaseOf(r, body)) then Some(BaseOf(r, body)) else None
  }

  function RawOf(e: ReviewEvent): Raw {
    Raw(Some(J.Num(e.generation)), Some(J.Str(e.id)), Some(J.Bool(e.resultAvailable)), Some(J.Str(e.reviewId)),
        Some(J.Str(VERSION)), Some(J.Str(StatusText(e.status))),
        if e.body.Snapshot? then Some(J.Str(if e.body.replay == Current then CURRENT else RESET)) else None,
        if e.body.Failed? then Some(J.Bool(e.body.again))
        else if e.body.Snapshot? && e.body.retryable.Some? then Some(J.Bool(e.body.retryable.value)) else None,
        Some(J.Str(TypeText(TypeOf(e.body)))), false)
  }

  function CollectEntries(r: Raw, entries: seq<Entry>): Raw
    decreases |entries|
  {
    if entries == [] then r else CollectEntries(With(r, Some(entries[0].field), entries[0].value), entries[1..])
  }

  lemma {:induction false} CollectEntriesSnoc(r: Raw, entries: seq<Entry>, e: Entry)
    ensures CollectEntries(r, entries + [e]) == With(CollectEntries(r, entries), Some(e.field), e.value)
    decreases |entries|
  {
    if entries == [] {
      assert [e][1..] == [];
      assert entries + [e] == [e];
    } else {
      assert (entries + [e])[1..] == entries[1..] + [e];
      CollectEntriesSnoc(With(r, Some(entries[0].field), entries[0].value), entries[1..], e);
    }
  }

  lemma {:induction false} CollectMembers(entries: seq<Entry>)
    ensures Collect(Members(entries)) == CollectEntries(EMPTY_RAW, entries)
  {
    if entries != [] {
      var n := |entries| - 1;
      CollectMembers(entries[..n]);
      KeyIsItsField(entries[n].field);
      CollectEntriesSnoc(EMPTY_RAW, entries[..n], entries[n]);
      assert entries[..n] + [entries[n]] == entries;
      assert Members(entries)[..|Members(entries)| - 1] == Members(entries[..n]);
    }
  }

  lemma {:induction false} CollectStep(r: Raw, e: Entry, rest: seq<Entry>)
    ensures CollectEntries(r, [e] + rest) == CollectEntries(With(r, Some(e.field), e.value), rest)
  {
    assert ([e] + rest)[1..] == rest;
  }

  lemma {:induction false} CollectBody(r: Raw, body: Body, last: Entry)
    ensures CollectEntries(r, BodyEntries(body) + [last]) ==
      With(r.(replay := if body.Snapshot? then Some(J.Str(if body.replay == Current then CURRENT else RESET))
        else r.replay,
              retryable := if body.Failed? then Some(J.Bool(body.again))
                           else if body.Snapshot? && body.retryable.Some? then Some(J.Bool(body.retryable.value))
                             else r.retryable),
           Some(last.field), last.value)
  {
    CollectEntriesSnoc(r, BodyEntries(body), last);
    match body
    case Snapshot(replay, retryable) =>
      var first := Entry(FReplay, J.Str(if replay == Current then CURRENT else RESET));
      CollectStep(r, first, Optional(retryable));
      if retryable.Some? {
        CollectStep(With(r, Some(FReplay), first.value), Entry(FRetryable, J.Bool(retryable.value)), []);
        assert Optional(retryable) == [Entry(FRetryable, J.Bool(retryable.value))] + [];
      }
    case Failed(retryable) =>
      CollectStep(r, Entry(FRetryable, J.Bool(retryable)), []);
      assert BodyEntries(body) == [Entry(FRetryable, J.Bool(retryable))] + [];
    case _ =>
  }

  lemma {:induction false} CollectThree(r: Raw, a: Entry, b: Entry, c: Entry, rest: seq<Entry>)
    ensures CollectEntries(r, [a, b, c] + rest) ==
      CollectEntries(With(With(With(r, Some(a.field), a.value), Some(b.field), b.value), Some(c.field), c.value), rest)
  {
    assert [a, b, c] + rest == [a] + ([b] + ([c] + rest));
    CollectStep(r, a, [b] + ([c] + rest));
    CollectStep(With(r, Some(a.field), a.value), b, [c] + rest);
    CollectStep(With(With(r, Some(a.field), a.value), Some(b.field), b.value), c, rest);
  }

  lemma EntriesCollect(e: ReviewEvent)
    ensures CollectEntries(EMPTY_RAW, Entries(e)) == RawOf(e)
  {
    var last := Entry(FType, J.Str(TypeText(TypeOf(e.body))));
    var tail := BodyEntries(e.body) + [last];
    var e1, e2, e3 := Entry(FGeneration, J.Num(e.generation)), Entry(FId, J.Str(e.id)),
      Entry(FResultAvailable, J.Bool(e.resultAvailable));
    var e4, e5, e6 := Entry(FReviewId, J.Str(e.reviewId)), Entry(FSchemaVersion, J.Str(VERSION)),
      Entry(FStatus, J.Str(StatusText(e.status)));
    assert Entries(e) == [e1, e2, e3] + ([e4, e5, e6] + tail);
    CollectThree(EMPTY_RAW, e1, e2, e3, [e4, e5, e6] + tail);
    var half := EMPTY_RAW.(generation := Some(e1.value), id := Some(e2.value), resultAvailable := Some(e3.value));
    CollectThree(half, e4, e5, e6, tail);
    CollectBody(half.(reviewId := Some(e4.value), schemaVersion := Some(e5.value), status := Some(e6.value)), e.body,
      last);
  }

  lemma BodyRoundTrip(e: ReviewEvent)
    ensures BodyOf(RawOf(e)) == Some(e.body)
  {
    TypeTextRoundTrip(TypeOf(e.body));
  }

  /** The client reads an event's own properties back as that event exactly when it accepts it. */
  lemma EventRoundTrip(e: ReviewEvent)
    ensures Validate(Collect(Members(Entries(e)))) == if ClientAccepts(e) then Some(e) else None
  {
    CollectMembers(Entries(e));
    EntriesCollect(e);
    BodyRoundTrip(e);
    StatusTextRoundTrip(e.status);
  }
}
