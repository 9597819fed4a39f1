/**
  The event stream on the wire: writeEvent of
  apps/api/src/modules/review/review-events.service.ts and the client's incremental reader
  (parseSseFrame and consumeReviewEventStream of apps/web/features/review/api/reviewApi.ts),
  over decoded text.
 */
module SseWire {
  import opened Utf16
  import J = Json
  import L = ReviewLog
  import opened ReviewEvents

  const LF: CodeUnit := 10
  const CR: CodeUnit := 13
  const MAX_BUFFER := 16_384
  const MAX_PAYLOAD_BYTES := 16_384

  const ID_FIELD: Text := [105, 100, 58]
  const EVENT_FIELD: Text := [101, 118, 101, 110, 116, 58]
  const DATA_FIELD: Text := [100, 97, 116, 97, 58]

  // ---------------------------------------------------------------- the server's printer

  function Data(e: ReviewEvent): Text {
    J.PrintObject(Members(Entries(e)))
  }

  /** Buffer.byteLength(text, "utf8"); a lone surrogate is encoded as the replacement character. */
  function Utf8Length(t: Text): nat {
    if t == [] then 0
    else if t[0] < 0x80 then 1 + Utf8Length(t[1..])
    else if t[0] < 0x800 then 2 + Utf8Length(t[1..])
    else if |t| >= 2 && J.IsLead(t[0]) && J.IsTrail(t[1]) then 4 + Utf8Length(t[2..])
    else 3 + Utf8Length(t[1..])
  }

  function IdLine(e: ReviewEvent): Text {
    ID_FIELD + [32] + e.id
  }

  function EventLine(e: ReviewEvent): Text {
    EVENT_FIELD + [32] + TypeText(TypeOf(e.body))
  }

  function DataLine(e: ReviewEvent): Text {
    DATA_FIELD + [32] + Data(e)
  }

  function JoinLines(a: Text, b: Text, c: Text): Text {
    a + [LF] + b + [LF] + c
  }

  function FrameText(e: ReviewEvent): Text {
    JoinLines(IdLine(e), EventLine(e), DataLine(e))
  }

  /** writeEvent; absent when the payload bound makes it throw. */
  function WriteEvent(e: ReviewEvent): Option<Text> {
    if Utf8Length(Data(e)) > MAX_PAYLOAD_BYTES then None else Some(FrameText(e) + [LF, LF])
  }

  predicate Writable(e: ReviewEvent) {
    ClientAccepts(e) && WriteEvent(e).Some?
  }

  function WriteAll(es: seq<ReviewEvent>): Text {
    if es == [] then [] else FrameText(es[0]) + ([LF, LF] + WriteAll(es[1..]))
  }

  // ---------------------------------------------------------------- splitting

  /** Length of a line break at the start of a text: `\r?\n`. */
  function BreakAt(t: Text): (k: nat)
    ensures k <= |t| && k <= 2
  {
    if t != [] && t[0] == LF then 1
    else if |t| >= 2 && t[0] == CR && t[1] == LF then 2
    else 0
  }

  /** Length of a blank-line separator at the start of a text: `\r?\n\r?\n`. */
  function SeparatorAt(t: Text): (k: nat)
    ensures k <= |t| && k <= 4
  {
    var first := BreakAt(t);
    if first > 0 && BreakAt(t[first..]) > 0 then first + BreakAt(t[first..]) else 0
  }

  function PrependTo(t: Text, parts: seq<Text>): (r: seq<Text>)
    requires |parts| >= 1
    ensures |r| == |parts|
  {
    [t + parts[0]] + parts[1..]
  }

  function SplitLines(t: Text): (lines: seq<Text>)
    ensures |lines| >= 1
    decreases |t|
  {
    var k := BreakAt(t);
    if k > 0 then [[]] + SplitLines(t[k..])
    else if t == [] then [[]]
    else PrependTo([t[0]], SplitLines(t[1..]))
  }

  function SplitFrames(t: Text): (frames: seq<Text>)
    ensures |frames| >= 1
    decreases |t|
  {
    var k := SeparatorAt(t);
    if k > 0 then [[]] + SplitFrames(t[k..])
    else if t == [] then [[]]
    else PrependTo([t[0]], SplitFrames(t[1..]))
  }

  // ---------------------------------------------------------------- one frame

  datatype FrameState = FrameState(eventType: Option<Text>, id: Option<Text>, data: seq<Text>)

  /** One line of a frame; absent when the line is not allowed. */
  function ReadLine(st: FrameState, line: Text): Option<FrameState> {
    if line != [] && line[0] == 58 then Some(st)
    else if EVENT_FIELD <= line then Some(st.(eventType := Some(Trim(line[6..]))))
    else if ID_FIELD <= line then Some(st.(id := Some(Trim(line[3..]))))
    else if DATA_FIELD <= line then
      var data := line[5..];
      Some(st.(data := st.data + [if data != [] && data[0] == 32 then data[1..] else data]))
    else if Trim(line) != [] then None
    else Some(st)
  }

  function ReadLines(st: FrameState, lines: seq<Text>): Option<FrameState>
    decreases |lines|
  {
    if lines == [] then Some(st)
    else match ReadLine(st, lines[0])
      case None => None
      case Some(next) => ReadLines(next, lines[1..])
  }

  datatype FrameResult = NoEvent | Event(event: ReviewEvent) | Invalid

  function Conclude(st: FrameState): FrameResult {
    if st.id.None? || st.eventType.None? || st.data == [] then Invalid
    else
      var data := JoinWith(st.data, LF);
      if |data| == 0 || |data| > MAX_BUFFER then Invalid
      else match J.ParseObject(data)
        case None => Invalid
        case Some(ms) =>
          match Validate(Collect(ms))
          case None => Invalid
          case Some(e) => if e.id == st.id.value && TypeText(TypeOf(e.body)) == st.eventType.value then Event(e)
            else Invalid
  }

  const NO_LINES := FrameState(None, None, [])

  function Frame(t: Text): FrameResult {
    if Trim(t) == [] then NoEvent
    else match ReadLines(NO_LINES, SplitLines(t))
      case None => Invalid
      case Some(st) => Conclude(st)
  }

  method ParseSseFrame(frame: Text) returns (r: FrameResult)
    ensures r == Frame(frame)
  {
    if Trim(frame) == [] {
      return NoEvent;
    }
    var lines := SplitLines(frame);
    var st := NO_LINES;
    var i := 0;
    while i < |lines|
      invariant 0 <= i <= |lines|
      invariant ReadLines(NO_LINES, lines) == ReadLines(st, lines[i..])
    {
      assert lines[i..][1..] == lines[i + 1..];
      var next := ReadLine(st, lines[i]);
      if next.None? {
        return Invalid;
      }
      st := next.value;
      i := i + 1;
    }
    r := Conclude(st);
  }

  // ---------------------------------------------------------------- the client's loop

  datatype End = Terminal(event: ReviewEvent) | Disconnected | InvalidEvent | TooLarge

  datatype Outcome = Outcome(events: seq<ReviewEvent>, end: End)

  predicate IsTerminal(e: ReviewEvent) {
    L.Terminal(e.status)
  }

  /** What a batch of complete frames delivers, and the end it brings, if any. */
  datatype Batch = Batch(events: seq<ReviewEvent>, end: Option<End>)

  /** One frame's result before those of the frames after it. */
  function Then(r: FrameResult, rest: Batch): Batch {
    match r
    case NoEvent => rest
    case Invalid => Batch([], Some(InvalidEvent))
    case Event(e) => if IsTerminal(e) then Batch([e], Some(Terminal(e))) else Batch([e] + rest.events, rest.end)
  }

  function Process(frames: seq<Text>): Batch {
    if frames == [] then Batch([], None) else Then(Frame(frames[0]), Process(frames[1..]))
  }

  function Join(a: Batch, b: Batch): Batch {
    if a.end.Some? then a else Batch(a.events + b.events, b.end)
  }

  /** Reading a whole text at once. */
  function ReadWhole(t: Text): Outcome {
    var b := Process(SplitFrames(t));
    Outcome(b.events, if b.end.Some? then b.end.value else Disconnected)
  }

  /** Reading it in chunks: what consumeReviewEventStream does from a buffer on. */
  function Consume(buffer: Text, chunks: seq<Text>): Outcome
    decreases |chunks|, 0
  {
    if chunks == [] then ReadWhole(buffer)
    else if |buffer + chunks[0]| > MAX_BUFFER then Outcome([], TooLarge)
    else ConsumeFrames(SplitFrames(buffer + chunks[0]), chunks[1..])
  }

  /** All frames but the last are complete; the last one is the next buffer. */
  function ConsumeFrames(frames: seq<Text>, chunks: seq<Text>): Outcome
    requires |frames| >= 1
    decreases |chunks|, 1
  {
    var b := Process(Complete(frames));
    if b.end.Some? then Outcome(b.events, b.end.value) else After(b.events, Consume(Last(frames), chunks))
  }

  function Last(frames: seq<Text>): Text
    requires |frames| >= 1
  {
    frames[|frames| - 1]
  }

  function Complete(frames: seq<Text>): seq<Text>
    requires |frames| >= 1
  {
    frames[..|frames| - 1]
  }

  function After(events: seq<ReviewEvent>, o: Outcome): Outcome {
    Outcome(events + o.events, o.end)
  }

  lemma AfterAfter(a: seq<ReviewEvent>, b: seq<ReviewEvent>, o: Outcome)
    ensures After(a, After(b, o)) == After(a + b, o)
  {
    assert a + (b + o.events) == a + b + o.events;
  }

  method ConsumeReviewEventStream(chunks: seq<Text>) returns (events: seq<ReviewEvent>, end: End)
    ensures Outcome(events, end) == Consume([], chunks)
  {
    var buffer: Text := [];
    events := [];
    var i := 0;
    while i < |chunks|
      invariant 0 <= i <= |chunks|
      invariant Consume([], chunks) == After(events, Consume(buffer, chunks[i..]))
    {
      assert chunks[i..][1..] == chunks[i + 1..];
      buffer := buffer + chunks[i];
      if |buffer| > MAX_BUFFER {
        end := TooLarge;
        return;
      }
      var frames := SplitFrames(buffer);
      assert Consume([], chunks) == After(events, ConsumeFrames(frames, chunks[i + 1..]));
      var ended;
      events, ended, buffer := ConsumeBatch(frames, chunks[i + 1..], events);
      if ended.Some? {
        end := ended.value;
        return;
      }
      i := i + 1;
    }
    var last;
    events, last := DeliverFrames(SplitFrames(buffer), events);
    end := if last.Some? then last.value else Disconnected;
  }

  /** The body of the reading loop after splitting. */
  method ConsumeBatch(frames: seq<Text>, ghost chunks: seq<Text>, delivered: seq<ReviewEvent>)
    returns (events: seq<ReviewEvent>, ended: Option<End>, buffer: Text)
    requires |frames| >= 1
    ensures After(delivered, ConsumeFrames(frames, chunks)) ==
      if ended.Some? then Outcome(events, ended.value) else After(events, Consume(buffer, chunks))
  {
    buffer := Last(frames);
    events, ended := DeliverFrames(Complete(frames), delivered);
    AfterAfter(delivered, Process(Complete(frames)).events, Consume(buffer, chunks));
  }

  method DeliverFrames(frames: seq<Text>, delivered: seq<ReviewEvent>) returns (events: seq<ReviewEvent>,
      end: Option<End>)
    ensures events == delivered + Process(frames).events && end == Process(frames).end
  {
    events, end := delivered, None;
    var j := 0;
    while j < |frames|
      invariant 0 <= j <= |frames|
      invariant Process(frames).end == Process(frames[j..]).end
      invariant delivered + Process(frames).events == events + Process(frames[j..]).events
    {
      assert frames[j..][1..] == frames[j + 1..];
      var r := ParseSseFrame(frames[j]);
      match r {
        case NoEvent =>
        case Invalid =>
          end := Some(InvalidEvent);
          return;
        case Event(e) =>
          events := events + [e];
          if IsTerminal(e) {
            end := Some(Terminal(e));
            return;
          }
      }
      j := j + 1;
    }
  }

  // ---------------------------------------------------------------- the cuts do not matter

  function Concat(chunks: seq<Text>): Text {
    if chunks == [] then [] else chunks[0] + Concat(chunks[1..])
  }

  lemma {:induction false} SplitAtSeparator(t: Text, k: nat, rest: Text)
    requires k == SeparatorAt(t) > 0 && t[k..] == rest
    ensures SplitFrames(t) == [[]] + SplitFrames(rest)
  {
  }

  lemma {:induction false} SplitAtUnit(t: Text, rest: Text)
    requires t != [] && SeparatorAt(t) == 0 && t[1..] == rest
    ensures SplitFrames(t) == PrependTo([t[0]], SplitFrames(rest))
  {
  }

  lemma PrependToOne(u: CodeUnit, t: Text)
    requires t != [] && u == t[0]
    ensures PrependTo([u], [t[1..]]) == [t]
  {
    assert [u] + t[1..] == t;
  }

  lemma {:induction false} UnseparatedIsOneFrame(t: Text)
    requires forall i {:trigger t[i..]} :: 0 <= i < |t| ==> SeparatorAt(t[i..]) == 0
    ensures SplitFrames(t) == [t]
    decreases |t|
  {
    if t != [] {
      assert t[0..] == t;
      forall i | 0 <= i < |t[1..]| ensures SeparatorAt(t[1..][i..]) == 0 {
        assert t[1..][i..] == t[i + 1..];
      }
      UnseparatedIsOneFrame(t[1..]);
      SplitAtUnit(t, t[1..]);
      PrependToOne(t[0], t);
    }
  }

  /** If more text completes a separator at the start, what was there before holds none. */
  lemma {:induction false} PartialSeparator(a: Text, b: Text)
    requires SeparatorAt(a) == 0 && SeparatorAt(a + b) > 0
    ensures SplitFrames(a) == [a]
  {
    SeparatorUnits(a + b);
    assert forall i :: 0 <= i < |a| ==> (a + b)[i] == a[i];
    if |a| >= SeparatorAt(a + b) {
      assert false;
    }
    forall i | 0 <= i < |a| ensures SeparatorAt(a[i..]) == 0 {
      SeparatorUnits(a[i..]);
    }
    UnseparatedIsOneFrame(a);
  }

  /** A separator is one of four fixed texts, and only its last unit can follow a line feed of it directly. */
  lemma SeparatorUnits(t: Text)
    ensures var k := SeparatorAt(t);
      && (k == 2 ==> t[0] == LF && t[1] == LF)
      && (k == 3 ==> (t[0] == LF && t[1] == CR && t[2] == LF) || (t[0] == CR && t[1] == LF && t[2] == LF))
      && (k == 4 ==> t[0] == CR && t[1] == LF && t[2] == CR && t[3] == LF)
      && (k == 0 || 2 <= k <= 4)
  {
  }

  /** Splitting a longer text continues from the unfinished frame of the shorter one. */
  lemma {:induction false} SplitContinues(a: Text, b: Text)
    ensures SplitFrames(a + b) == Complete(SplitFrames(a)) + SplitFrames(Last(SplitFrames(a)) + b)
    decreases |a|
  {
    if a == [] {
      assert a + b == b && Last(SplitFrames(a)) + b == b;
    } else if SeparatorAt(a) > 0 {
      SplitContinues(a[SeparatorAt(a)..], b);
      SplitContinuesAfterSeparator(a, b, SeparatorAt(a), a[SeparatorAt(a)..]);
    } else if SeparatorAt(a + b) > 0 {
      PartialSeparator(a, b);
    } else {
      SplitContinues(a[1..], b);
      SplitAtUnit(a, a[1..]);
      if |SplitFrames(a[1..])| == 1 {
        OneFrameContinues(a, b);
      } else {
        SplitContinuesAfterUnit(a, b, a[1..]);
      }
    }
  }

  lemma {:induction false} SplitContinuesAfterSeparator(a: Text, b: Text, k: nat, rest: Text)
    requires k == SeparatorAt(a) > 0 && rest == a[k..]
    requires SplitFrames(rest + b) == Complete(SplitFrames(rest)) + SplitFrames(Last(SplitFrames(rest)) + b)
    ensures SplitFrames(a + b) == Complete(SplitFrames(a)) + SplitFrames(Last(SplitFrames(a)) + b)
  {
    SplitsPastSeparator(a, b, k, rest);
    ConsLast(SplitFrames(rest), SplitFrames(Last(SplitFrames(rest)) + b));
  }

  lemma {:induction false} SplitsPastSeparator(a: Text, b: Text, k: nat, rest: Text)
    requires k == SeparatorAt(a) > 0 && rest == a[k..]
    ensures SplitFrames(a) == [[]] + SplitFrames(rest) && SplitFrames(a + b) == [[]] + SplitFrames(rest + b)
  {
    SeparatorStays(a, b);
    assert (a + b)[k..] == rest + b;
    SplitAtSeparator(a, k, rest);
    SplitAtSeparator(a + b, k, rest + b);
  }

  lemma TailOfSum(a: Text, b: Text)
    requires a != []
    ensures a + b != [] && (a + b)[0] == a[0] && (a + b)[1..] == a[1..] + b
  {
  }

  lemma GlueUnit(u: CodeUnit, rest: seq<Text>, tail: seq<Text>, short: seq<Text>, long: seq<Text>)
    requires |rest| > 1 && short == PrependTo([u], rest) && long == PrependTo([u], Complete(rest) + tail)
    ensures Last(short) == Last(rest) && long == Complete(short) + tail
  {
    PrependContinues(u, rest, tail);
  }

  lemma {:induction false} SplitContinuesAfterUnit(a: Text, b: Text, rest: Text)
    requires a != [] && SeparatorAt(a) == 0 && SeparatorAt(a + b) == 0 && rest == a[1..]
    requires SplitFrames(rest + b) == Complete(SplitFrames(rest)) + SplitFrames(Last(SplitFrames(rest)) + b)
    requires |SplitFrames(rest)| > 1
    ensures SplitFrames(a + b) == Complete(SplitFrames(a)) + SplitFrames(Last(SplitFrames(a)) + b)
  {
    TailOfSum(a, b);
    SplitAtUnit(a, rest);
    SplitAtUnit(a + b, rest + b);
    GlueUnit(a[0], SplitFrames(rest), SplitFrames(Last(SplitFrames(rest)) + b), SplitFrames(a), SplitFrames(a + b));
  }

  lemma {:induction false} OneFrameContinues(a: Text, b: Text)
    requires |SplitFrames(a)| == 1
    ensures SplitFrames(a + b) == Complete(SplitFrames(a)) + SplitFrames(Last(SplitFrames(a)) + b)
  {
    OneFrameIsAll(a);
  }

  lemma ConsLast(frames: seq<Text>, tail: seq<Text>)
    requires |frames| >= 1
    ensures Last([[]] + frames) == Last(frames)
    ensures [[]] + (Complete(frames) + tail) == Complete([[]] + frames) + tail
  {
  }

  lemma PrependContinues(u: CodeUnit, frames: seq<Text>, tail: seq<Text>)
    requires |frames| > 1
    ensures Last(PrependTo([u], frames)) == Last(frames)
    ensures PrependTo([u], Complete(frames) + tail) == Complete(PrependTo([u], frames)) + tail
  {
  }

  lemma SeparatorStays(a: Text, b: Text)
    requires SeparatorAt(a) > 0
    ensures SeparatorAt(a + b) == SeparatorAt(a)
  {
    SeparatorUnits(a);
    assert forall i :: 0 <= i < |a| ==> (a + b)[i] == a[i];
  }

  lemma {:induction false} OneFrameIsAll(t: Text)
    requires |SplitFrames(t)| == 1
    ensures SplitFrames(t) == [t]
    decreases |t|
  {
    if t != [] {
      assert SeparatorAt(t) == 0;
      OneFrameIsAll(t[1..]);
      assert [t[0]] + t[1..] == t;
    }
  }

  lemma {:induction false} ProcessCons(frame: Text, frames: seq<Text>)
    ensures Process([frame] + frames) == Then(Frame(frame), Process(frames))
  {
    assert ([frame] + frames)[1..] == frames;
  }

  lemma ThenJoin(r: FrameResult, a: Batch, b: Batch)
    ensures Then(r, Join(a, b)) == Join(Then(r, a), b)
  {
    if r.Event? {
      assert [r.event] + (a.events + b.events) == [r.event] + a.events + b.events;
    }
  }

  lemma {:induction false} ProcessConcat(a: seq<Text>, b: seq<Text>)
    ensures Process(a + b) == Join(Process(a), Process(b))
  {
    if a == [] {
      assert a + b == b;
      assert [] + Process(b).events == Process(b).events;
    } else {
      assert a == [a[0]] + a[1..] && a + b == [a[0]] + (a[1..] + b);
      ProcessCons(a[0], a[1..]);
      ProcessCons(a[0], a[1..] + b);
      ProcessConcat(a[1..], b);
      ThenJoin(Frame(a[0]), Process(a[1..]), Process(b));
    }
  }

  lemma {:induction false} ReadsInChunks(buffer: Text, chunks: seq<Text>)
    ensures Consume(buffer, chunks).end != TooLarge ==> Consume(buffer, chunks) == ReadWhole(buffer + Concat(chunks))
    ensures Consume(buffer, chunks).events <= ReadWhole(buffer + Concat(chunks)).events
    decreases |chunks|
  {
    if chunks == [] {
      assert buffer + Concat(chunks) == buffer;
    } else {
      var longer := buffer + chunks[0];
      var rest := Concat(chunks[1..]);
      assert buffer + Concat(chunks) == longer + rest;
      if |longer| <= MAX_BUFFER {
        var frames := SplitFrames(longer);
        SplitContinues(longer, rest);
        ReadsInChunks(Last(frames), chunks[1..]);
        ReadWholeContinues(frames, longer + rest, Last(frames) + rest);
      }
    }
  }

  lemma {:induction false} ReadWholeContinues(frames: seq<Text>, whole: Text, rest: Text)
    requires |frames| >= 1 && SplitFrames(whole) == Complete(frames) + SplitFrames(rest)
    ensures var b := Process(Complete(frames));
      ReadWhole(whole) == if b.end.Some? then Outcome(b.events, b.end.value) else After(b.events, ReadWhole(rest))
  {
    ProcessConcat(Complete(frames), SplitFrames(rest));
  }

  lemma {:induction false} ProcessEnds(frames: seq<Text>)
    ensures Process(frames).end != Some(TooLarge)
  {
    if frames != [] {
      ProcessEnds(frames[1..]);
    }
  }

  // ---------------------------------------------------------------- when the buffer overflows

  /** The complete frames of a text, and the unfinished one after them. */
  function Finished(t: Text): seq<Text> {
    Complete(SplitFrames(t))
  }

  function Unfinished(t: Text): Text {
    Last(SplitFrames(t))
  }

  /** Nothing before chunk i ended the stream, and with it the unfinished frame exceeds the buffer bound. */
  predicate OverflowsAt(done: Text, chunks: seq<Text>, i: nat)
    requires i < |chunks|
  {
    var t := done + Concat(chunks[..i]);
    Process(Finished(t)).end.None? && |Unfinished(t)| + |chunks[i]| > MAX_BUFFER
  }

  ghost predicate Fits(done: Text, chunks: seq<Text>) {
    forall i :: 0 <= i < |chunks| ==> !OverflowsAt(done, chunks, i)
  }

  lemma ConcatParts(a: seq<Text>, b: seq<Text>)
    requires |b| >= 1
    ensures Last(a + b) == Last(b) && Complete(a + b) == a + Complete(b)
  {
  }

  lemma {:induction false} FinishedContinues(done: Text, more: Text)
    ensures Finished(done + more) == Finished(done) + Finished(Unfinished(done) + more)
    ensures Unfinished(done + more) == Unfinished(Unfinished(done) + more)
    ensures Process(Finished(done + more)) == Join(Process(Finished(done)), Process(Finished(Unfinished(done) + more)))
  {
    SplitContinues(done, more);
    ConcatParts(Finished(done), SplitFrames(Unfinished(done) + more));
    ProcessConcat(Finished(done), Finished(Unfinished(done) + more));
  }

  lemma {:induction false} ChunksAfterFirst(done: Text, chunks: seq<Text>, i: nat)
    requires 0 < i <= |chunks|
    ensures done + Concat(chunks[..i]) == done + chunks[0] + Concat(chunks[1..][..i - 1])
  {
    assert chunks[..i][1..] == chunks[1..][..i - 1];
    Reassociate(done, chunks[0], Concat(chunks[1..][..i - 1]));
  }

  lemma {:induction false} LaterOverflow(done: Text, chunks: seq<Text>, i: nat)
    requires 0 < i < |chunks|
    ensures OverflowsAt(done, chunks, i) <==> OverflowsAt(done + chunks[0], chunks[1..], i - 1)
  {
    ChunksAfterFirst(done, chunks, i);
  }

  lemma {:induction false} FitsStep(done: Text, chunks: seq<Text>)
    requires chunks != []
    ensures Fits(done, chunks) <==> !OverflowsAt(done, chunks, 0) && Fits(done + chunks[0], chunks[1..])
  {
    forall i: nat | 0 < i < |chunks|
      ensures OverflowsAt(done, chunks, i) <==> OverflowsAt(done + chunks[0], chunks[1..], i - 1)
    {
      LaterOverflow(done, chunks, i);
    }
    if Fits(done, chunks) {
      forall j: nat | j < |chunks[1..]| ensures !OverflowsAt(done + chunks[0], chunks[1..], j) {
        assert !OverflowsAt(done, chunks, j + 1);
      }
    }
  }

  /** Once a frame has ended the stream, no later chunk can overflow the buffer. */
  lemma {:induction false} EndedFits(done: Text, chunks: seq<Text>)
    requires Process(Finished(done)).end.Some?
    ensures Fits(done, chunks)
  {
    forall i: nat | i < |chunks| ensures !OverflowsAt(done, chunks, i) {
      FinishedContinues(done, Concat(chunks[..i]));
    }
  }

  lemma {:induction false} NothingOverflowsYet(done: Text, chunks: seq<Text>)
    requires chunks != [] && Process(Finished(done)).end.None?
    ensures OverflowsAt(done, chunks, 0) <==> |Unfinished(done) + chunks[0]| > MAX_BUFFER
  {
    assert done + Concat(chunks[..0]) == done;
  }

  /** The reader gives up on a frame for its size exactly when some chunk overflows the buffer. */
  lemma {:induction false} TooLargeIff(done: Text, chunks: seq<Text>)
    requires Process(Finished(done)).end.None?
    ensures Consume(Unfinished(done), chunks).end != TooLarge <==> Fits(done, chunks)
    decreases |chunks|
  {
    if chunks == [] {
      ProcessEnds(SplitFrames(Unfinished(done)));
    } else {
      NothingOverflowsYet(done, chunks);
      FitsStep(done, chunks);
      if |Unfinished(done) + chunks[0]| <= MAX_BUFFER {
        var frames := SplitFrames(Unfinished(done) + chunks[0]);
        FinishedContinues(done, chunks[0]);
        ProcessEnds(Complete(frames));
        if Process(Complete(frames)).end.Some? {
          EndedFits(done + chunks[0], chunks[1..]);
        } else {
          TooLargeIff(done + chunks[0], chunks[1..]);
        }
      }
    }
  }

  /**
    The chunk boundaries do not matter: unless a chunk overflows the buffer, reading any text in
    any chunks delivers the same events and ends the same way as reading it whole; and even then
    what was delivered is a prefix.
   */
  lemma {:induction false} CutsDoNotMatter(chunks: seq<Text>)
    ensures Consume([], chunks).end == TooLarge <==> !Fits([], chunks)
    ensures Fits([], chunks) ==> Consume([], chunks) == ReadWhole(Concat(chunks))
    ensures Consume([], chunks).events <= ReadWhole(Concat(chunks)).events
  {
    var none: Text := [];
    assert SplitFrames(none) == [none] && Finished(none) == [];
    TooLargeIff(none, chunks);
    ReadsInChunks(none, chunks);
    assert none + Concat(chunks) == Concat(chunks);
  }

  // ---------------------------------------------------------------- what the server prints is what the client reads

  lemma {:induction false} LineUnit(u: CodeUnit, rest: Text)
    requires u >= 32
    ensures SplitLines([u] + rest) == PrependTo([u], SplitLines(rest))
  {
    assert ([u] + rest)[1..] == rest;
  }

  lemma {:induction false} LineBreak(rest: Text)
    ensures SplitLines([LF] + rest) == [[]] + SplitLines(rest)
  {
    assert ([LF] + rest)[1..] == rest;
  }

  lemma PrependLine(u: CodeUnit, line: Text, lines: seq<Text>)
    requires line != [] && u == line[0]
    ensures PrependTo([u], [line[1..]] + lines) == [line] + lines
  {
    assert ([line[1..]] + lines)[1..] == lines;
    assert [u] + line[1..] == line;
  }

  lemma {:induction false} PrintableLine(line: Text, rest: Text)
    requires J.Printable(line)
    ensures SplitLines(line + ([LF] + rest)) == [line] + SplitLines(rest)
  {
    if line == [] {
      assert line + ([LF] + rest) == [LF] + rest;
      LineBreak(rest);
    } else {
      PrintableLine(line[1..], rest);
      Uncons(line, [LF] + rest);
      LineUnit(line[0], line[1..] + ([LF] + rest));
      PrependLine(line[0], line, SplitLines(rest));
    }
  }

  lemma {:induction false} LastLine(line: Text)
    requires J.Printable(line)
    ensures SplitLines(line) == [line]
  {
    if line != [] {
      LastLine(line[1..]);
      Uncons(line, []);
      assert line[1..] + [] == line[1..] && line + [] == line;
      LineUnit(line[0], line[1..]);
      PrependLine(line[0], line, []);
      assert [line[1..]] + [] == [line[1..]] && [line] + [] == [line];
    }
  }

  lemma PrintableConcat(a: Text, b: Text)
    requires J.Printable(a) && J.Printable(b)
    ensures J.Printable(a + [32] + b)
  {
  }

  lemma FieldNamesArePrintable()
    ensures J.Printable(ID_FIELD) && J.Printable(EVENT_FIELD) && J.Printable(DATA_FIELD)
  {
  }

  lemma LinesArePrintable(e: ReviewEvent)
    requires IsEventId(e.id)
    ensures J.Printable(IdLine(e)) && J.Printable(EventLine(e)) && J.Printable(DataLine(e))
  {
    FieldNamesArePrintable();
    DigitsArePrintable(e.id);
    PrintableConcat(ID_FIELD, e.id);
    TypeTextRoundTrip(TypeOf(e.body));
    PrintableConcat(EVENT_FIELD, TypeText(TypeOf(e.body)));
    J.ObjectIsPrintable(Members(Entries(e)));
    PrintableConcat(DATA_FIELD, Data(e));
  }

  lemma DigitsArePrintable(t: Text)
    requires AllDigits(t)
    ensures J.Printable(t)
  {
  }

  lemma FrameLines(e: ReviewEvent)
    requires IsEventId(e.id)
    ensures SplitLines(FrameText(e)) == [IdLine(e), EventLine(e), DataLine(e)]
  {
    LinesArePrintable(e);
    ThreeLines(IdLine(e), EventLine(e), DataLine(e));
  }

  lemma ThreeLines(a: Text, b: Text, c: Text)
    requires J.Printable(a) && J.Printable(b) && J.Printable(c)
    ensures SplitLines(JoinLines(a, b, c)) == [a, b, c]
  {
    assert a + [LF] + b + [LF] + c == a + ([LF] + (b + ([LF] + c)));
    PrintableLine(a, b + ([LF] + c));
    PrintableLine(b, c);
    LastLine(c);
    assert [a] + ([b] + [c]) == [a, b, c];
  }

  lemma TrimSpaced(t: Text)
    requires t != [] && Trimmed(t)
    ensures Trim([32] + t) == t
  {
    TrimTrims(t);
    assert ([32] + t)[1..] == t;
  }

  lemma ReadsIdLine(st: FrameState, e: ReviewEvent)
    requires IsEventId(e.id)
    ensures ReadLine(st, IdLine(e)) == Some(st.(id := Some(e.id)))
  {
    var line := IdLine(e);
    assert line[0] == 105;
    assert !(EVENT_FIELD <= line) by { assert EVENT_FIELD[0] == 101; }
    assert line[..3] == ID_FIELD && line[3..] == [32] + e.id;
    TrimSpaced(e.id);
  }

  lemma ReadsEventLine(st: FrameState, e: ReviewEvent)
    ensures ReadLine(st, EventLine(e)) == Some(st.(eventType := Some(TypeText(TypeOf(e.body)))))
  {
    var line := EventLine(e);
    TypeTextRoundTrip(TypeOf(e.body));
    assert line[0] == 101;
    assert line[..6] == EVENT_FIELD && line[6..] == [32] + TypeText(TypeOf(e.body));
    TrimSpaced(TypeText(TypeOf(e.body)));
  }

  lemma ReadsDataLine(st: FrameState, e: ReviewEvent)
    ensures ReadLine(st, DataLine(e)) == Some(st.(data := st.data + [Data(e)]))
  {
    assert DATA_FIELD + [32] + Data(e) == DataLine(e);
    ReadsData(st, DataLine(e), Data(e));
  }

  lemma ReadsData(st: FrameState, line: Text, data: Text)
    requires line == DATA_FIELD + [32] + data
    ensures ReadLine(st, line) == Some(st.(data := st.data + [data]))
  {
    assert line[0] == 100;
    assert !(EVENT_FIELD <= line) by { assert EVENT_FIELD[0] == 101; }
    assert !(ID_FIELD <= line) by { assert ID_FIELD[0] == 105; }
    assert line[..5] == DATA_FIELD && line[5..] == [32] + data;
    assert ([32] + data)[1..] == data;
  }

  lemma {:induction false} ReadsThreeLines(st: FrameState, e: ReviewEvent)
    requires IsEventId(e.id)
    ensures ReadLines(st, [IdLine(e), EventLine(e), DataLine(e)])
         == Some(FrameState(Some(TypeText(TypeOf(e.body))), Some(e.id), st.data + [Data(e)]))
  {
    var (a, b, c) := (IdLine(e), EventLine(e), DataLine(e));
    ReadsIdLine(st, e);
    var st1 := st.(id := Some(e.id));
    ReadsEventLine(st1, e);
    var st2 := st1.(eventType := Some(TypeText(TypeOf(e.body))));
    ReadsDataLine(st2, e);
    assert [a, b, c][1..] == [b, c] && [b, c][1..] == [c] && [c][1..] == [];
    assert ReadLines(st2, [c]) == Some(st2.(data := st.data + [Data(e)]));
    assert ReadLines(st1, [b, c]) == ReadLines(st2, [c]);
  }

  lemma ConcludesEvent(e: ReviewEvent)
    requires ClientAccepts(e) && |Data(e)| <= MAX_BUFFER
    ensures Conclude(FrameState(Some(TypeText(TypeOf(e.body))), Some(e.id), [Data(e)])) == Event(e)
  {
    J.ObjectRoundTrip(Members(Entries(e)));
    EventRoundTrip(e);
    assert JoinWith([Data(e)], LF) == Data(e);
  }

  lemma {:induction false} UnitsWithinBytes(t: Text)
    ensures |t| <= Utf8Length(t)
  {
    if t != [] {
      UnitsWithinBytes(t[1..]);
      if |t| >= 2 {
        UnitsWithinBytes(t[2..]);
      }
    }
  }

  lemma {:induction false} NotBlank(t: Text, i: nat)
    requires i < |t| && !IsBlank(t[i])
    ensures Trim(t) != []
  {
    TrimTrims(t);
    if !IsBlank(t[0]) {
      TrimEndKeeps(t, 0);
    } else {
      NotBlank(t[1..], i - 1);
    }
  }

  lemma {:induction false} TrimEndKeeps(t: Text, i: nat)
    requires i < |t| && !IsBlank(t[i])
    ensures TrimEnd(t) != []
  {
    if IsBlank(t[|t| - 1]) {
      TrimEndKeeps(t[..|t| - 1], i);
    }
  }

  /** A printed frame is read as the event it was printed from. */
  lemma FrameRoundTrip(e: ReviewEvent)
    requires Writable(e)
    ensures Frame(FrameText(e)) == Event(e)
  {
    UnitsWithinBytes(Data(e));
    assert FrameText(e)[0] == 105;
    NotBlank(FrameText(e), 0);
    FrameLines(e);
    ReadsThreeLines(NO_LINES, e);
    ConcludesEvent(e);
    assert NO_LINES.data + [Data(e)] == [Data(e)];
  }

  lemma PrependTwice(a: Text, b: Text, parts: seq<Text>)
    requires |parts| >= 1
    ensures PrependTo(a, PrependTo(b, parts)) == PrependTo(a + b, parts)
  {
    assert a + (b + parts[0]) == a + b + parts[0];
  }

  lemma {:induction false} PrintableUnit(u: CodeUnit, rest: Text)
    requires u >= 32
    ensures SplitFrames([u] + rest) == PrependTo([u], SplitFrames(rest))
  {
    SplitAtUnit([u] + rest, rest);
  }

  lemma Uncons(line: Text, rest: Text)
    requires line != []
    ensures line + rest == [line[0]] + (line[1..] + rest) && [line[0]] + line[1..] == line
  {
  }

  lemma PrependNothing(parts: seq<Text>)
    requires |parts| >= 1
    ensures PrependTo([], parts) == parts
  {
    assert [] + parts[0] == parts[0];
  }

  lemma {:induction false} PrintableRun(line: Text, rest: Text, parts: seq<Text>)
    requires J.Printable(line) && parts == SplitFrames(rest)
    ensures SplitFrames(line + rest) == PrependTo(line, parts)
  {
    if line == [] {
      assert line + rest == rest;
      PrependNothing(parts);
    } else {
      Uncons(line, rest);
      PrintableRun(line[1..], rest, parts);
      PrintableUnit(line[0], line[1..] + rest);
      PrependTwice([line[0]], line[1..], parts);
    }
  }

  /** A printable line that another line follows stays in the same frame. */
  lemma {:induction false} LineInFrame(line: Text, rest: Text)
    requires J.Printable(line) && rest != [] && rest[0] >= 32
    ensures SplitFrames(line + [LF] + rest) == PrependTo(line + [LF], SplitFrames(rest))
  {
    assert line + [LF] + rest == line + ([LF] + rest);
    PrintableRun(line, [LF] + rest, SplitFrames([LF] + rest));
    SplitAtUnit([LF] + rest, rest);
    PrependTwice(line, [LF], SplitFrames(rest));
  }

  /** A printable line that a blank line follows ends the frame. */
  lemma {:induction false} LineEndsFrame(line: Text, rest: Text)
    requires J.Printable(line)
    ensures SplitFrames(line + ([LF, LF] + rest)) == [line] + SplitFrames(rest)
  {
    EmptyLineSplits(rest);
    PrintableRun(line, [LF, LF] + rest, [[]] + SplitFrames(rest));
    PrependToEmpty(line, SplitFrames(rest));
  }

  lemma {:induction false} EmptyLineSplits(rest: Text)
    ensures SplitFrames([LF, LF] + rest) == [[]] + SplitFrames(rest)
  {
    assert ([LF, LF] + rest)[2..] == rest;
    SplitAtSeparator([LF, LF] + rest, 2, rest);
  }

  lemma PrependToEmpty(line: Text, parts: seq<Text>)
    ensures PrependTo(line, [[]] + parts) == [line] + parts
  {
    assert line + [] == line;
  }

  lemma {:induction false} SplitsPrintedFrame(e: ReviewEvent, rest: Text)
    requires IsEventId(e.id)
    ensures SplitFrames(FrameText(e) + ([LF, LF] + rest)) == [FrameText(e)] + SplitFrames(rest)
  {
    LinesArePrintable(e);
    ThreeLinesSplit(IdLine(e), EventLine(e), DataLine(e), rest);
  }

  lemma RegroupLines(a: Text, b: Text, c: Text, d: Text)
    ensures a + [LF] + b + [LF] + c + d == a + [LF] + (b + [LF] + (c + d))
    ensures a + [LF] + (b + [LF] + c) == a + [LF] + b + [LF] + c
  {
  }

  /** Two lines prepended to the frame the third one ends. */
  lemma PrependLines(a: Text, b: Text, c: Text, frames: seq<Text>)
    ensures PrependTo(a + [LF], PrependTo(b + [LF], [c] + frames)) == [JoinLines(a, b, c)] + frames
  {
    PrependTwice(a + [LF], b + [LF], [c] + frames);
    PrependOne(a + [LF] + (b + [LF]), c, frames);
    assert a + [LF] + (b + [LF]) + c == a + [LF] + b + [LF] + c;
  }

  lemma {:induction false} ThreeLinesSplit(a: Text, b: Text, c: Text, rest: Text)
    requires J.Printable(a) && J.Printable(b) && J.Printable(c) && b != [] && c != []
    ensures SplitFrames(JoinLines(a, b, c) + ([LF, LF] + rest)) == [JoinLines(a, b, c)] + SplitFrames(rest)
  {
    var s3 := c + ([LF, LF] + rest);
    var s2 := b + [LF] + s3;
    RegroupLines(a, b, c, [LF, LF] + rest);
    LineEndsFrame(c, rest);
    LineInFrame(b, s3);
    LineInFrame(a, s2);
    PrependLines(a, b, c, SplitFrames(rest));
  }

  lemma PrependOne(t: Text, first: Text, others: seq<Text>)
    ensures PrependTo(t, [first] + others) == [t + first] + others
  {
    assert ([first] + others)[1..] == others;
  }

  /** The events a client delivers: all of them up to and including the first terminal one. */
  function UpToTerminal(es: seq<ReviewEvent>): Outcome {
    if es == [] then Outcome([], Disconnected)
    else if IsTerminal(es[0]) then Outcome([es[0]], Terminal(es[0]))
    else After([es[0]], UpToTerminal(es[1..]))
  }

  lemma {:induction false} ReadsWhatWasWritten(es: seq<ReviewEvent>)
    requires forall i :: 0 <= i < |es| ==> Writable(es[i])
    ensures ReadWhole(WriteAll(es)) == UpToTerminal(es)
  {
    if es == [] {
      assert Trim([]) == [];
      var frames := SplitFrames([]);
      assert frames == [[]] && frames[1..] == [];
    } else {
      FrameRoundTrip(es[0]);
      SplitsPrintedFrame(es[0], WriteAll(es[1..]));
      ReadsWhatWasWritten(es[1..]);
      ProcessCons(FrameText(es[0]), SplitFrames(WriteAll(es[1..])));
    }
  }

  // ---------------------------------------------------------------- frames are small

  predicate SmallMember(m: J.Member) {
    |m.key| <= 15 &&
    match m.value
    case Str(text) => |text| <= 25
    case Num(n) => n <= L.MAX_GENERATION
    case Bool(_) => true
  }

  lemma SmallMemberLength(m: J.Member)
    requires SmallMember(m)
    ensures |J.PrintMember(m)| <= 246
  {
    J.EscapeIsPrintable(m.key);
    match m.value
    case Str(text) => J.EscapeIsPrintable(text);
    case Num(n) => SmallNumberLength(n);
    case Bool(_) =>
  }

  lemma {:induction false} SmallNumberLength(n: nat)
    requires n <= L.MAX_GENERATION
    ensures |Digits(n)| <= 10
  {
    assert Power10(10) == 10_000_000_000 by {
      assert Power10(5) == 100_000 by { assert Power10(2) == 100; }
      assert Power10(8) == 100_000_000;
    }
    DigitsLength(n, 10);
  }

  lemma {:induction false} SmallMembersLength(ms: seq<J.Member>)
    requires forall i :: 0 <= i < |ms| ==> SmallMember(ms[i])
    ensures |J.PrintMembers(ms)| <= 247 * |ms|
  {
    if ms != [] {
      SmallMemberLength(ms[0]);
      SmallMembersLength(ms[1..]);
    }
  }

  lemma {:induction false} MembersAt(entries: seq<Entry>)
    ensures |Members(entries)| == |entries|
    ensures forall i :: 0 <= i < |entries| ==>
      Members(entries)[i] == J.Member(KeyText(entries[i].field), entries[i].value)
  {
    if entries != [] {
      MembersAt(entries[..|entries| - 1]);
    }
  }

  lemma EntriesAreSmall(e: ReviewEvent)
    requires InContract(e)
    ensures |Entries(e)| <= 9
    ensures forall i :: 0 <= i < |Entries(e)| ==>
      SmallMember(J.Member(KeyText(Entries(e)[i].field), Entries(e)[i].value))
  {
    forall i | 0 <= i < |Entries(e)| ensures SmallMember(J.Member(KeyText(Entries(e)[i].field), Entries(e)[i].value)) {
      KeyIsItsField(Entries(e)[i].field);
      StatusTextRoundTrip(e.status);
      TypeTextRoundTrip(TypeOf(e.body));
    }
  }

  const MAX_FRAME := 2_300

  lemma {:induction false} BytesWithinTriple(t: Text)
    ensures Utf8Length(t) <= 3 * |t|
  {
    if t != [] {
      BytesWithinTriple(t[1..]);
      if |t| >= 2 {
        BytesWithinTriple(t[2..]);
      }
    }
  }

  /** Every event the client accepts fits the server's payload bound, in a frame far below the client's buffer bound. */
  lemma AcceptedEventsAreWritable(e: ReviewEvent)
    requires ClientAccepts(e)
    ensures WriteEvent(e) == Some(FrameText(e) + [LF, LF]) && |FrameText(e)| <= MAX_FRAME
  {
    EntriesAreSmall(e);
    MembersAt(Entries(e));
    SmallMembersLength(Members(Entries(e)));
    BytesWithinTriple(Data(e));
    TypeTextRoundTrip(TypeOf(e.body));
  }

  lemma LastOfMore(first: Text, frames: seq<Text>)
    requires |frames| >= 1
    ensures Last([first] + frames) == Last(frames)
  {
  }

  lemma LastOfPrepended(u: CodeUnit, frames: seq<Text>)
    requires |frames| >= 1
    ensures |Last(PrependTo([u], frames))| <= |Last(frames)| + 1
  {
  }

  lemma {:induction false} LastIsShort(t: Text)
    ensures |Last(SplitFrames(t))| <= |t|
    decreases |t|
  {
    var k := SeparatorAt(t);
    if k > 0 {
      SplitAtSeparator(t, k, t[k..]);
      LastIsShort(t[k..]);
      LastOfMore([], SplitFrames(t[k..]));
    } else if t != [] {
      SplitAtUnit(t, t[1..]);
      LastIsShort(t[1..]);
      LastOfPrepended(t[0], SplitFrames(t[1..]));
    }
  }

  lemma Reassociate(a: Text, b: Text, c: Text)
    ensures a + b + c == a + (b + c)
  {
  }

  lemma CutAfterFirst(first: Text, others: Text, t: Text, rest: Text)
    requires t + rest == first + others && |t| >= |first|
    ensures t == first + t[|first|..] && t[|first|..] + rest == others
  {
    assert (t + rest)[..|first|] == first;
    assert (t + rest)[|first|..] == t[|first|..] + rest;
  }

  /** Of any prefix of a printed stream, the unfinished part is at most one frame. */
  lemma {:induction false} UnfinishedIsOneFrame(es: seq<ReviewEvent>, t: Text, rest: Text)
    requires AllAccepted(es) && t + rest == WriteAll(es)
    ensures |Last(SplitFrames(t))| <= MAX_FRAME + 1
  {
    if es == [] {
      LastIsShort(t);
    } else {
      AcceptedEventsAreWritable(es[0]);
      var first := FrameText(es[0]) + [LF, LF];
      if |t| >= |first| {
        Reassociate(FrameText(es[0]), [LF, LF], WriteAll(es[1..]));
        CutAfterFirst(first, WriteAll(es[1..]), t, rest);
        var more := t[|first|..];
        Reassociate(FrameText(es[0]), [LF, LF], more);
        UnfinishedIsOneFrame(es[1..], more, rest);
        SplitsPrintedFrame(es[0], more);
        LastOfMore(FrameText(es[0]), SplitFrames(more));
      } else {
        LastIsShort(t);
      }
    }
  }

  predicate AllAccepted(es: seq<ReviewEvent>) {
    forall i :: 0 <= i < |es| ==> ClientAccepts(es[i])
  }

  lemma {:induction false} ConcatSplits(chunks: seq<Text>, i: nat)
    requires i <= |chunks|
    ensures Concat(chunks[..i]) + Concat(chunks[i..]) == Concat(chunks)
  {
    if i == 0 {
      assert chunks[0..] == chunks;
    } else {
      ConcatSplits(chunks[1..], i - 1);
      assert chunks[1..][i - 1..] == chunks[i..];
      assert chunks[..i][1..] == chunks[1..][..i - 1];
      Reassociate(chunks[0], Concat(chunks[1..][..i - 1]), Concat(chunks[i..]));
    }
  }

  lemma {:induction false} BoundedChunksFit(es: seq<ReviewEvent>, chunks: seq<Text>)
    requires AllAccepted(es) && Concat(chunks) == WriteAll(es)
    requires forall i :: 0 <= i < |chunks| ==> |chunks[i]| <= MAX_BUFFER - MAX_FRAME - 1
    ensures Fits([], chunks)
  {
    var none: Text := [];
    forall i: nat | i < |chunks| ensures !OverflowsAt(none, chunks, i) {
      ConcatSplits(chunks, i);
      assert none + Concat(chunks[..i]) == Concat(chunks[..i]);
      UnfinishedIsOneFrame(es, Concat(chunks[..i]), Concat(chunks[i..]));
    }
  }

  /**
    Events printed by the server and cut into chunks anywhere are delivered to the client exactly
    as printed, up to the first terminal one, unless a chunk overflows the client's buffer; chunks
    of up to 14 083 units never do.
   */
  lemma {:induction false} PrintedEventsArrive(es: seq<ReviewEvent>, chunks: seq<Text>)
    requires AllAccepted(es) && Concat(chunks) == WriteAll(es)
    ensures Fits([], chunks) ==> Consume([], chunks) == UpToTerminal(es)
    ensures Consume([], chunks).events <= UpToTerminal(es).events
    ensures (forall i :: 0 <= i < |chunks| ==> |chunks[i]| <= 14_083) ==> Fits([], chunks)
  {
    forall i | 0 <= i < |es| ensures Writable(es[i]) {
      AcceptedEventsAreWritable(es[i]);
    }
    CutsDoNotMatter(chunks);
    ReadsWhatWasWritten(es);
    if forall i :: 0 <= i < |chunks| ==> |chunks[i]| <= 14_083 {
      BoundedChunksFit(es, chunks);
    }
  }

  // ---------------------------------------------------------------- nothing unchecked is delivered

  /** A frame's event passes the validator and carries the id and the type of its own lines. */
  lemma {:induction false} FrameIsChecked(t: Text)
    ensures Frame(t).Event? ==>
      && ClientAccepts(Frame(t).event) && ReadLines(NO_LINES, SplitLines(t)).Some?
      && ReadLines(NO_LINES, SplitLines(t)).value.id == Some(Frame(t).event.id)
      && ReadLines(NO_LINES, SplitLines(t)).value.eventType == Some(TypeText(TypeOf(Frame(t).event.body)))
  {
  }

  /** Comments, blank lines and the three fields. */
  predicate KnownLine(line: Text)
    requires line != []
  {
    Trim(line) == [] || line[0] == 58 || EVENT_FIELD <= line || ID_FIELD <= line || DATA_FIELD <= line
  }

  lemma {:induction false} UnknownLineStops(st: FrameState, lines: seq<Text>)
    ensures ReadLines(st, lines).Some? <==> forall i :: 0 <= i < |lines| ==> lines[i] == [] || KnownLine(lines[i])
    decreases |lines|
  {
    if lines != [] {
      assert lines == [lines[0]] + lines[1..];
      var next := ReadLine(st, lines[0]);
      if next.Some? {
        UnknownLineStops(next.value, lines[1..]);
      }
    }
  }

  /** A frame with a line of any other kind is invalid. */
  lemma {:induction false} UnknownLineIsInvalid(t: Text, i: nat)
    requires Trim(t) != [] && i < |SplitLines(t)| && SplitLines(t)[i] != [] && !KnownLine(SplitLines(t)[i])
    ensures Frame(t) == Invalid
  {
    UnknownLineStops(NO_LINES, SplitLines(t));
  }

  lemma {:induction false} ProcessedIsAccepted(frames: seq<Text>)
    ensures AllAccepted(Process(frames).events)
  {
    if frames != [] {
      FrameIsChecked(frames[0]);
      ProcessedIsAccepted(frames[1..]);
    }
  }

  /** Whatever arrives, every event the client delivers passes its validator. */
  lemma {:induction false} DeliveredIsAccepted(chunks: seq<Text>)
    ensures AllAccepted(Consume([], chunks).events)
  {
    CutsDoNotMatter(chunks);
    ProcessedIsAccepted(SplitFrames(Concat(chunks)));
    var (part, whole) := (Consume([], chunks).events, ReadWhole(Concat(chunks)).events);
    forall i | 0 <= i < |part| ensures ClientAccepts(part[i]) {
      assert part[i] == whole[i];
    }
  }
}
