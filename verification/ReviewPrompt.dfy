/**
  The user prompt of apps/api/src/modules/ai/review-prompt.builder.ts: untrusted text is serialized
  as JSON with its angle brackets escaped, between framing markers.
 */
module ReviewPrompt {
  import opened Utf16
  import J = Json

  const LF: CodeUnit := 10
  const LESS: CodeUnit := 60
  const GREATER: CodeUnit := 62

  /** `\u003C` and `\u003E`. */
  const LESS_ESCAPE: Text := [92, 117, 48, 48, 51, 67]
  const GREATER_ESCAPE: Text := [92, 117, 48, 48, 51, 69]

  function EscapeAngles(t: Text): Text {
    ReplaceAll(ReplaceAll(t, LESS, LESS_ESCAPE), GREATER, GREATER_ESCAPE)
  }

  function SerializeUntrustedSource(source: Text): Text {
    EscapeAngles(J.Quote(source))
  }

  datatype Level = BEGINNER | INTERMEDIATE | ADVANCED

  function LevelText(l: Level): Text {
    match l case BEGINNER => Ascii("BEGINNER") case INTERMEDIATE => Ascii("INTERMEDIATE") case ADVANCED =>
      Ascii("ADVANCED")
  }

  function OptionalMember(key: Text, value: Option<Text>): seq<J.Member> {
    if value.None? then [] else [J.Member(key, J.Str(value.value))]
  }

  function MetadataMembers(level: Text, title: Option<Text>, context: Option<Text>): seq<J.Member> {
    [J.Member(Ascii("learnerLevel"), J.Str(level))] + OptionalMember(Ascii("title"), title)
      + OptionalMember(Ascii("context"), context)
  }

  function SerializeUntrustedMetadata(level: Text, title: Option<Text>, context: Option<Text>): Text {
    EscapeAngles(J.PrintObject(MetadataMembers(level, title, context)))
  }

  // ---------------------------------------------------------------- the prompt

  datatype Mode = QUICK | STANDARD | DEEP

  function ModeText(m: Mode): Text {
    match m case QUICK => Ascii("QUICK") case STANDARD => Ascii("STANDARD") case DEEP => Ascii("DEEP")
  }

  datatype Request = Request(
    source: Text, language: Text, mode: Mode, level: Level, title: Option<Text>, context: Option<Text>)

  datatype Block = SourceBlock | MetadataBlock

  function BlockName(b: Block): Text {
    match b case SourceBlock => Ascii("SOURCE_V1") case MetadataBlock => Ascii("REVIEW_METADATA_V1")
  }

  const OPENING: Text := [LESS, LESS, LESS]
  const CLOSING: Text := [GREATER, GREATER, GREATER]

  /** `<<<REPOMENTOR_UNTRUSTED_…>>>` and `<<<END_REPOMENTOR_UNTRUSTED_…>>>`. */
  function MarkerName(b: Block, end: bool): Text {
    (if end then Ascii("END_") else []) + Ascii("REPOMENTOR_UNTRUSTED_") + BlockName(b)
  }

  function Marker(b: Block, end: bool): Text {
    OPENING + MarkerName(b, end) + CLOSING
  }

  /** No angle bracket and no control character. */
  predicate Plain(t: Text) {
    forall i :: 0 <= i < |t| ==> t[i] >= 32 && t[i] != LESS && t[i] != GREATER
  }

  type PlainText = t: Text | Plain(t) witness []

  /** The fixed sentences of the prompt; that they are plain lines is all that matters. */
  datatype Prose = Prose(
    introduction: PlainText, languageLabel: PlainText, modeLabel: PlainText, metadataNote: PlainText,
    labelsNote: PlainText, sourceNote: PlainText, closing: PlainText)

  /** The thirteen lines around the two serialized blocks. */
  function LinesOf(p: Prose, language: Text, mode: Text, metadata: Text, source: Text): (lines: seq<Text>)
    ensures |lines| == 13
  {
    [p.introduction, p.languageLabel + language, p.modeLabel + mode, p.metadataNote, p.labelsNote,
     Marker(MetadataBlock, false), metadata, Marker(MetadataBlock, true),
     p.sourceNote, Marker(SourceBlock, false), source, Marker(SourceBlock, true), p.closing]
  }

  /** What stands between a block's two markers. */
  function BlockText(r: Request, b: Block): Text {
    match b case SourceBlock => SerializeUntrustedSource(r.source)
            case MetadataBlock => SerializeUntrustedMetadata(LevelText(r.level), r.title, r.context)
  }

  function Lines(p: Prose, r: Request): (lines: seq<Text>)
    ensures |lines| == 13
  {
    LinesOf(p, r.language, ModeText(r.mode), BlockText(r, MetadataBlock), BlockText(r, SourceBlock))
  }

  /** The user part of the prompt. */
  function UserPrompt(p: Prose, r: Request): Text {
    JoinWith(Lines(p, r), LF)
  }

  /** The request schema's language pattern `^[a-z0-9#+._-]+$`. */
  predicate IsLanguage(t: Text) {
    t != [] && forall i :: 0 <= i < |t| ==>
      97 <= t[i] <= 122 || IsDigit(t[i]) || t[i] == 35 || t[i] == 43 || t[i] == 46 || t[i] == 95 || t[i] == 45
  }

  // ---------------------------------------------------------------- escaped text

  lemma EscapeAnglesConcat(a: Text, b: Text)
    ensures EscapeAngles(a + b) == EscapeAngles(a) + EscapeAngles(b)
  {
    ReplaceAllConcat(a, b, LESS, LESS_ESCAPE);
    ReplaceAllConcat(ReplaceAll(a, LESS, LESS_ESCAPE), ReplaceAll(b, LESS, LESS_ESCAPE), GREATER, GREATER_ESCAPE);
  }

  lemma PlainIsUnchanged(t: Text)
    requires LESS !in t && GREATER !in t
    ensures EscapeAngles(t) == t
  {
    ReplaceAllAbsent(t, LESS, LESS_ESCAPE);
    ReplaceAllAbsent(t, GREATER, GREATER_ESCAPE);
  }

  lemma AngleEscapes()
    ensures EscapeAngles([LESS]) == LESS_ESCAPE && EscapeAngles([GREATER]) == GREATER_ESCAPE
  {
    ReplaceOne(LESS, LESS, LESS_ESCAPE);
    ReplaceAllAbsent(LESS_ESCAPE, GREATER, GREATER_ESCAPE);
    ReplaceOne(GREATER, LESS, LESS_ESCAPE);
    ReplaceOne(GREATER, GREATER, GREATER_ESCAPE);
  }

  /** Escaping leaves no angle bracket and adds no control character. */
  lemma {:induction false} EscapedIsPlain(t: Text)
    requires J.Printable(t)
    ensures Plain(EscapeAngles(t))
  {
    if t != [] {
      EscapedIsPlain(t[1..]);
      assert t == [t[0]] + t[1..];
      EscapeAnglesConcat([t[0]], t[1..]);
      AngleEscapes();
      if t[0] != LESS && t[0] != GREATER {
        PlainIsUnchanged([t[0]]);
      }
    }
  }

  /** An escaped unit still reads as itself after its angle brackets have been escaped. */
  lemma {:induction false} ReadsEscapedUnit(u: CodeUnit, s: Text)
    ensures J.ReadString(EscapeAngles(J.EscapeUnit(u)) + s) == J.Prepend(u, J.ReadString(s))
  {
    AngleEscapes();
    if u == LESS {
      assert (LESS_ESCAPE + s)[6..] == s;
    } else if u == GREATER {
      assert (GREATER_ESCAPE + s)[6..] == s;
    } else {
      EscapeUnitHasNoAngle(u);
      PlainIsUnchanged(J.EscapeUnit(u));
      J.ReadEscapedUnit(u, s);
    }
  }

  lemma EscapeUnitHasNoAngle(u: CodeUnit)
    requires u != LESS && u != GREATER
    ensures LESS !in J.EscapeUnit(u) && GREATER !in J.EscapeUnit(u)
  {
  }

  lemma {:induction false} EscapedPair(lead: CodeUnit, trail: CodeUnit, escaped: Text, rest: Text)
    requires J.IsLead(lead) && J.IsTrail(trail)
    ensures J.ReadString(EscapeAngles([lead, trail] + escaped) + rest)
         == J.Prepend(lead, J.Prepend(trail, J.ReadString(EscapeAngles(escaped) + rest)))
  {
    var tail := EscapeAngles(escaped) + rest;
    EscapeAnglesConcat([lead, trail], escaped);
    PlainIsUnchanged([lead, trail]);
    assert EscapeAngles([lead, trail] + escaped) + rest == [lead] + ([trail] + tail);
    J.ReadRawUnit(trail, tail);
    J.ReadRawUnit(lead, [trail] + tail);
  }

  lemma {:induction false} EscapedSingle(u: CodeUnit, escaped: Text, rest: Text)
    ensures J.ReadString(EscapeAngles(J.EscapeUnit(u) + escaped) + rest)
      == J.Prepend(u, J.ReadString(EscapeAngles(escaped) + rest))
  {
    EscapeAnglesConcat(J.EscapeUnit(u), escaped);
    assert EscapeAngles(J.EscapeUnit(u)) + EscapeAngles(escaped) + rest
      == EscapeAngles(J.EscapeUnit(u)) + (EscapeAngles(escaped) + rest);
    ReadsEscapedUnit(u, EscapeAngles(escaped) + rest);
  }

  lemma PrependTo(u: CodeUnit, r: J.Read<Text>, t: Text, rest: Text)
    requires r == J.Got(t, rest)
    ensures J.Prepend(u, r) == J.Got([u] + t, rest)
  {
  }

  lemma TextOfPair(t: Text)
    requires |t| >= 2
    ensures t == [t[0]] + ([t[1]] + t[2..]) == [t[0]] + t[1..]
  {
  }

  lemma {:induction false} EscapeOfPair(t: Text)
    requires |t| >= 2 && J.IsLead(t[0]) && J.IsTrail(t[1])
    ensures J.Escape(t) == [t[0], t[1]] + J.Escape(t[2..])
  {
  }

  lemma {:induction false} EscapeOfSingle(t: Text)
    requires t != [] && !(|t| >= 2 && J.IsLead(t[0]) && J.IsTrail(t[1]))
    ensures J.Escape(t) == J.EscapeUnit(t[0]) + J.Escape(t[1..])
  {
  }

  lemma {:induction false} EscapedEmpty(rest: Text)
    ensures J.ReadString(EscapeAngles(J.Escape([])) + ([J.QUOTE] + rest)) == J.Got([], rest)
  {
    assert EscapeAngles(J.Escape([])) + ([J.QUOTE] + rest) == [J.QUOTE] + rest;
    assert ([J.QUOTE] + rest)[1..] == rest;
  }

  lemma {:induction false} EscapedStringRoundTrip(t: Text, rest: Text)
    ensures J.ReadString(EscapeAngles(J.Escape(t)) + ([J.QUOTE] + rest)) == J.Got(t, rest)
  {
    if t == [] {
      EscapedEmpty(rest);
    } else if |t| >= 2 && J.IsLead(t[0]) && J.IsTrail(t[1]) {
      TextOfPair(t);
      EscapeOfPair(t);
      EscapedPair(t[0], t[1], J.Escape(t[2..]), [J.QUOTE] + rest);
      EscapedStringRoundTrip(t[2..], rest);
      var inner := J.ReadString(EscapeAngles(J.Escape(t[2..])) + ([J.QUOTE] + rest));
      PrependTo(t[1], inner, t[2..], rest);
      PrependTo(t[0], J.Prepend(t[1], inner), [t[1]] + t[2..], rest);
    } else {
      assert t == [t[0]] + t[1..];
      EscapeOfSingle(t);
      EscapedSingle(t[0], J.Escape(t[1..]), [J.QUOTE] + rest);
      EscapedStringRoundTrip(t[1..], rest);
      PrependTo(t[0], J.ReadString(EscapeAngles(J.Escape(t[1..])) + ([J.QUOTE] + rest)), t[1..], rest);
    }
  }

  lemma {:induction false} EscapedQuote(t: Text)
    ensures EscapeAngles(J.Quote(t)) == [J.QUOTE] + EscapeAngles(J.Escape(t)) + [J.QUOTE]
  {
    PlainIsUnchanged([J.QUOTE]);
    EscapeAnglesConcat([J.QUOTE] + J.Escape(t), [J.QUOTE]);
    EscapeAnglesConcat([J.QUOTE], J.Escape(t));
  }

  /** Reads a serialized source back. */
  function DecodeSource(t: Text): Option<Text> {
    if t == [] || t[0] != J.QUOTE then None
    else match J.ReadString(t[1..]) case Failed => None case Got(s, rest) => if rest == [] then Some(s) else None
  }

  /** For every source: one line, no angle bracket, and it decodes to the source. */
  lemma SourceRoundTrip(source: Text)
    ensures Plain(SerializeUntrustedSource(source)) && DecodeSource(SerializeUntrustedSource(source)) == Some(source)
  {
    J.EscapeIsPrintable(source);
    EscapedIsPlain(J.Quote(source));
    EscapedQuote(source);
    var t := SerializeUntrustedSource(source);
    assert t[1..] == EscapeAngles(J.Escape(source)) + ([J.QUOTE] + []);
    EscapedStringRoundTrip(source, []);
  }

  // ---------------------------------------------------------------- escaped metadata

  /** A quoted text with its angle brackets escaped. */
  function SafeQuote(t: Text): Text {
    [J.QUOTE] + EscapeAngles(J.Escape(t)) + [J.QUOTE]
  }

  lemma EscapedMember(m: J.Member)
    requires m.value.Str?
    ensures EscapeAngles(J.PrintMember(m)) == SafeQuote(m.key) + [58] + SafeQuote(m.value.text)
  {
    EscapedQuote(m.key);
    EscapedQuote(m.value.text);
    EscapeAnglesConcat(J.Quote(m.key) + [58], J.Quote(m.value.text));
    EscapeAnglesConcat(J.Quote(m.key), [58]);
    PlainIsUnchanged([58]);
  }

  lemma ReadsSafeQuote(t: Text, rest: Text)
    ensures SafeQuote(t) + rest != [] && (SafeQuote(t) + rest)[0] == J.QUOTE
    ensures J.ReadString((SafeQuote(t) + rest)[1..]) == J.Got(t, rest)
    ensures J.ReadValue(SafeQuote(t) + rest) == J.Got(J.Str(t), rest)
  {
    assert (SafeQuote(t) + rest)[1..] == EscapeAngles(J.Escape(t)) + ([J.QUOTE] + rest);
    EscapedStringRoundTrip(t, rest);
  }

  lemma EscapedMemberSplits(m: J.Member, rest: Text)
    requires m.value.Str?
    ensures EscapeAngles(J.PrintMember(m)) + rest == SafeQuote(m.key) + ([58] + (SafeQuote(m.value.text) + rest))
  {
    EscapedMember(m);
  }

  lemma EscapedMemberRoundTrip(m: J.Member, rest: Text)
    requires m.value.Str?
    ensures J.ReadMember(EscapeAngles(J.PrintMember(m)) + rest) == J.Got(m, rest)
  {
    var afterColon := SafeQuote(m.value.text) + rest;
    var s := SafeQuote(m.key) + ([58] + afterColon);
    EscapedMemberSplits(m, rest);
    ReadsSafeQuote(m.key, [58] + afterColon);
    ReadsSafeQuote(m.value.text, rest);
    J.ReadsMemberFromParts(s, m.key, afterColon, m.value, rest);
  }

  lemma {:induction false} EscapedMembersSplit(ms: seq<J.Member>, rest: Text)
    requires |ms| > 1
    ensures EscapeAngles(J.PrintMembers(ms)) + [125] + rest ==
      EscapeAngles(J.PrintMember(ms[0])) + ([44] + (EscapeAngles(J.PrintMembers(ms[1..])) + [125] + rest))
  {
    var others := J.PrintMembers(ms[1..]);
    EscapeAnglesConcat(J.PrintMember(ms[0]), [44] + others);
    EscapeAnglesConcat([44], others);
    PlainIsUnchanged([44]);
    J.Regroup(EscapeAngles(J.PrintMember(ms[0])), [44], EscapeAngles(others), [125], rest);
  }

  lemma {:induction false} EscapedMembersRoundTrip(ms: seq<J.Member>, rest: Text)
    requires ms != [] && forall i :: 0 <= i < |ms| ==> ms[i].value.Str?
    ensures J.ReadMembers(EscapeAngles(J.PrintMembers(ms)) + [125] + rest) == J.Got(ms, rest)
  {
    var s := EscapeAngles(J.PrintMembers(ms)) + [125] + rest;
    if |ms| == 1 {
      assert J.PrintMembers(ms) == J.PrintMember(ms[0]);
      assert s == EscapeAngles(J.PrintMember(ms[0])) + ([125] + rest);
      EscapedMemberRoundTrip(ms[0], [125] + rest);
      J.ReadsLastMember(s, ms[0], rest);
      assert [ms[0]] == ms;
    } else {
      EscapedMembersRoundTrip(ms[1..], rest);
      MoreEscapedMembers(ms, rest);
    }
  }

  lemma {:induction false} MoreEscapedMembers(ms: seq<J.Member>, rest: Text)
    requires |ms| > 1 && ms[0].value.Str?
    requires J.ReadMembers(EscapeAngles(J.PrintMembers(ms[1..])) + [125] + rest) == J.Got(ms[1..], rest)
    ensures J.ReadMembers(EscapeAngles(J.PrintMembers(ms)) + [125] + rest) == J.Got(ms, rest)
  {
    var more := EscapeAngles(J.PrintMembers(ms[1..])) + [125] + rest;
    EscapedMembersSplit(ms, rest);
    EscapedMemberRoundTrip(ms[0], [44] + more);
    J.ReadsOneMember(EscapeAngles(J.PrintMembers(ms)) + [125] + rest, ms[0], more, ms[1..], rest);
    assert [ms[0]] + ms[1..] == ms;
  }

  lemma {:induction false} EscapedObject(ms: seq<J.Member>)
    ensures EscapeAngles(J.PrintObject(ms)) == [123] + (EscapeAngles(J.PrintMembers(ms)) + [125])
  {
    EscapeAnglesConcat([123] + J.PrintMembers(ms), [125]);
    EscapeAnglesConcat([123], J.PrintMembers(ms));
    PlainIsUnchanged([123]);
    PlainIsUnchanged([125]);
  }

  lemma EscapedObjectRoundTrip(ms: seq<J.Member>)
    requires ms != [] && forall i :: 0 <= i < |ms| ==> ms[i].value.Str?
    ensures J.ParseObject(EscapeAngles(J.PrintObject(ms))) == Some(ms)
  {
    var body := EscapeAngles(J.PrintMembers(ms));
    EscapedObject(ms);
    EscapedMembersRoundTrip(ms, []);
    StartsWithQuote(ms);
    assert body + [125] + [] == body + [125];
    J.ParsesObjectFromParts(EscapeAngles(J.PrintObject(ms)), body + [125], ms);
  }

  lemma {:induction false} StartsWithQuote(ms: seq<J.Member>)
    requires ms != [] && ms[0].value.Str?
    ensures EscapeAngles(J.PrintMembers(ms)) != [] && EscapeAngles(J.PrintMembers(ms))[0] == J.QUOTE
  {
    EscapedMember(ms[0]);
    EscapeAnglesConcat(J.PrintMember(ms[0]), if |ms| == 1 then [] else [44] + J.PrintMembers(ms[1..]));
  }

  /** For every title and context: one line, no angle bracket, and it parses to exactly the members given. */
  lemma MetadataRoundTrip(level: Text, title: Option<Text>, context: Option<Text>)
    ensures var t := SerializeUntrustedMetadata(level, title, context);
      Plain(t) && J.ParseObject(t) == Some(MetadataMembers(level, title, context))
  {
    var ms := MetadataMembers(level, title, context);
    J.ObjectIsPrintable(ms);
    EscapedIsPlain(J.PrintObject(ms));
    EscapedObjectRoundTrip(ms);
  }

  // ---------------------------------------------------------------- framing

  predicate OccursAt(t: Text, m: Text, p: nat) {
    p + |m| <= |t| && t[p..p + |m|] == m
  }

  /** Three opening brackets, a name without brackets, three closing brackets. */
  predicate IsMarker(m: Text) {
    && |m| >= 7 && m[0] == LESS && m[1] == LESS && m[2] == LESS
    && m[|m| - 3] == GREATER && m[|m| - 2] == GREATER && m[|m| - 1] == GREATER
    && forall i :: 3 <= i < |m| - 3 ==> m[i] != LESS && m[i] != GREATER && m[i] >= 32
  }

  /** A marker occurs in another one only if they are the same, and then only at its start. */
  lemma MarkerInMarker(outer: Text, m: Text, p: nat)
    requires IsMarker(outer) && IsMarker(m) && OccursAt(outer, m, p)
    ensures outer == m && p == 0
  {
    assert outer[p + 0] == m[0] && outer[p + 1] == m[1] && outer[p + 2] == m[2];
    assert outer[p + |m| - 1] == m[|m| - 1] && outer[p + |m| - 3] == m[|m| - 3] && outer[p + |m| - 4] == m[|m| - 4];
    assert p == 0 && |m| == |outer|;
    assert outer[..|outer|] == outer;
  }

  lemma MarkerInPlain(line: Text, m: Text, p: nat)
    requires Plain(line) && IsMarker(m)
    ensures !OccursAt(line, m, p)
  {
    assert p + |m| <= |line| ==> line[p..p + |m|][0] == line[p];
  }

  /** Where a line starts in the joined text. */
  function LineStart(lines: seq<Text>, i: nat): nat
    requires i < |lines|
  {
    if i == 0 then 0 else |lines[0]| + 1 + LineStart(lines[1..], i - 1)
  }

  lemma StraddleHasBreak(t: Text, m: Text, p: nat, n: nat)
    requires OccursAt(t, m, p) && n < |t| && t[n] == LF
    ensures p <= n < p + |m| ==> LF in m
  {
    if p <= n < p + |m| {
      assert t[p..p + |m|][n - p] == t[n];
    }
  }

  /** A text without line feeds occurs in a joined text only inside one of the lines. */
  lemma {:induction false} OccursInOneLine(lines: seq<Text>, m: Text, p: nat) returns (i: nat, r: nat)
    requires lines != [] && m != [] && LF !in m && OccursAt(JoinWith(lines, LF), m, p)
    ensures i < |lines| && OccursAt(lines[i], m, r) && p == LineStart(lines, i) + r
  {
    var t := JoinWith(lines, LF);
    if |lines| == 1 {
      i, r := 0, p;
    } else {
      var rest := JoinWith(lines[1..], LF);
      var n := |lines[0]|;
      assert t[n] == LF;
      StraddleHasBreak(t, m, p, n);
      if p + |m| <= n {
        assert t[p..p + |m|] == lines[0][p..p + |m|];
        i, r := 0, p;
      } else {
        assert t[p..p + |m|] == rest[p - n - 1..p - n - 1 + |m|];
        var j;
        j, r := OccursInOneLine(lines[1..], m, p - n - 1);
        i := j + 1;
        assert lines[1..][j] == lines[i];
      }
    }
  }

  lemma {:induction false} LineOccurs(lines: seq<Text>, i: nat)
    requires i < |lines|
    ensures OccursAt(JoinWith(lines, LF), lines[i], LineStart(lines, i))
  {
    var t := JoinWith(lines, LF);
    if |lines| == 1 {
      assert t[0..0 + |t|] == t;
    } else if i == 0 {
      assert t[..|lines[0]|] == lines[0];
    } else {
      LineOccurs(lines[1..], i - 1);
      var rest := JoinWith(lines[1..], LF);
      var p := LineStart(lines[1..], i - 1);
      var n := |lines[0]| + 1;
      assert t[n..] == rest;
      assert t[n + p..n + p + |lines[i]|] == rest[p..p + |lines[i]|];
    }
  }

  /** Lines of which exactly the marker lines carry brackets, each marker once. */
  predicate Framed(lines: seq<Text>, k: nat) {
    && k < |lines| && IsMarker(lines[k])
    && forall i :: 0 <= i < |lines| && i != k ==> Plain(lines[i]) || (IsMarker(lines[i]) && lines[i] != lines[k])
  }

  /** A framing marker occurs in the joined text exactly once: as its own line. */
  lemma {:induction false} MarkerOccursOnce(lines: seq<Text>, k: nat, p: nat)
    requires Framed(lines, k)
    ensures OccursAt(JoinWith(lines, LF), lines[k], p) <==> p == LineStart(lines, k)
  {
    LineOccurs(lines, k);
    if OccursAt(JoinWith(lines, LF), lines[k], p) {
      MarkerHasNoBreak(lines[k]);
      var i, r := OccursInOneLine(lines, lines[k], p);
      if Plain(lines[i]) {
        MarkerInPlain(lines[i], lines[k], r);
      } else {
        MarkerInMarker(lines[i], lines[k], r);
      }
    }
  }

  lemma MarkerHasNoBreak(m: Text)
    requires IsMarker(m)
    ensures LF !in m
  {
    forall i | 0 <= i < |m| ensures m[i] != LF {
    }
  }

  lemma NamesArePlain(b: Block)
    ensures Plain(BlockName(b)) && Plain(Ascii("REPOMENTOR_UNTRUSTED_")) && Plain(Ascii("END_"))
  {
  }

  lemma MarkersAreMarkers(b: Block, end: bool)
    ensures IsMarker(Marker(b, end))
  {
    NamesArePlain(b);
    NameIsMarker(MarkerName(b, end));
  }

  lemma NameIsMarker(name: Text)
    requires Plain(name) && |name| > 0
    ensures IsMarker(OPENING + name + CLOSING)
  {
  }

  lemma MarkersDiffer(b: Block, end: bool, c: Block, end': bool)
    requires b != c || end != end'
    ensures Marker(b, end) != Marker(c, end')
  {
    assert |Marker(b, end)| != |Marker(c, end')|;
  }

  /** The line a marker stands on. */
  function MarkerLine(b: Block, end: bool): (k: nat)
    ensures k < 13
  {
    match b case MetadataBlock => if end then 7 else 5 case SourceBlock => if end then 11 else 9
  }

  lemma LabelsArePlain(p: Prose, r: Request)
    requires IsLanguage(r.language)
    ensures Plain(p.languageLabel + r.language) && Plain(p.modeLabel + ModeText(r.mode))
  {
    assert Plain(ModeText(r.mode));
  }

  lemma PlainLines(p: Prose, language: Text, mode: Text, metadata: Text, source: Text, i: nat)
    requires Plain(p.languageLabel + language) && Plain(p.modeLabel + mode) && Plain(metadata) && Plain(source)
    requires i < 13 && i != 5 && i != 7 && i != 9 && i != 11
    ensures Plain(LinesOf(p, language, mode, metadata, source)[i])
  {
  }

  lemma MarkerLines(p: Prose, language: Text, mode: Text, metadata: Text, source: Text, b: Block, end: bool)
    ensures LinesOf(p, language, mode, metadata, source)[MarkerLine(b, end)] == Marker(b, end)
  {
  }

  /** The marker that stands on one of the other lines. */
  lemma OtherLine(lines: seq<Text>, i: nat, b: Block, end: bool, c: Block, end': bool)
    requires |lines| == 13 && i == MarkerLine(c, end') != MarkerLine(b, end) && lines[i] == Marker(c, end')
    ensures IsMarker(lines[i]) && lines[i] != Marker(b, end)
  {
    MarkersAreMarkers(c, end');
    MarkersDiffer(c, end', b, end);
  }

  lemma LinesAreFramed(p: Prose, language: Text, mode: Text, metadata: Text, source: Text, b: Block, end: bool)
    requires Plain(p.languageLabel + language) && Plain(p.modeLabel + mode) && Plain(metadata) && Plain(source)
    ensures var lines := LinesOf(p, language, mode, metadata, source);
      Framed(lines, MarkerLine(b, end)) && lines[MarkerLine(b, end)] == Marker(b, end)
  {
    var lines := LinesOf(p, language, mode, metadata, source);
    MarkerLines(p, language, mode, metadata, source, b, end);
    MarkersAreMarkers(b, end);
    forall i | 0 <= i < |lines| && i != MarkerLine(b, end)
      ensures Plain(lines[i]) || (IsMarker(lines[i]) && lines[i] != Marker(b, end))
    {
      if i == 5 || i == 7 || i == 9 || i == 11 {
        var c := if i < 9 then MetadataBlock else SourceBlock;
        MarkerLines(p, language, mode, metadata, source, c, i == 7 || i == 11);
        OtherLine(lines, i, b, end, c, i == 7 || i == 11);
      } else {
        PlainLines(p, language, mode, metadata, source, i);
      }
    }
  }

  lemma BlocksArePlain(r: Request, b: Block)
    ensures Plain(BlockText(r, b))
  {
    MetadataRoundTrip(LevelText(r.level), r.title, r.context);
    SourceRoundTrip(r.source);
  }

  lemma PromptIsFramed(p: Prose, r: Request, b: Block, end: bool)
    requires IsLanguage(r.language)
    ensures Framed(Lines(p, r), MarkerLine(b, end)) && Lines(p, r)[MarkerLine(b, end)] == Marker(b, end)
  {
    LabelsArePlain(p, r);
    BlocksArePlain(r, MetadataBlock);
    BlocksArePlain(r, SourceBlock);
    LinesAreFramed(p, r.language, ModeText(r.mode), BlockText(r, MetadataBlock), BlockText(r, SourceBlock), b, end);
  }

  /** Whatever the source, title and context, each framing marker occurs in the user prompt exactly once. */
  lemma EachMarkerOccursOnce(p: Prose, r: Request, b: Block, end: bool, at: nat)
    requires IsLanguage(r.language)
    ensures OccursAt(UserPrompt(p, r), Marker(b, end), at) <==> at == LineStart(Lines(p, r), MarkerLine(b, end))
  {
    PromptIsFramed(p, r, b, end);
    MarkerOccursOnce(Lines(p, r), MarkerLine(b, end), at);
  }

  lemma Occurrence(t: Text, before: Text, m: Text, after: Text)
    requires t == before + m + after
    ensures OccursAt(t, m, |before|)
  {
    assert (before + m + after)[|before|..|before| + |m|] == m;
  }

  lemma Regroup(a: Text, b: Text, c: Text, d: Text, e: Text)
    ensures a + b + c + d + e == a + b + (c + d + e) == a + b + c + (d + e)
  {
  }

  lemma {:induction false} LineNext(lines: seq<Text>, k: nat)
    requires k + 1 < |lines|
    ensures LineStart(lines, k + 1) == LineStart(lines, k) + |lines[k]| + 1
  {
    if k > 0 {
      LineNext(lines[1..], k - 1);
    }
  }

  /** Two consecutive lines before a third: where the middle one sits. */
  lemma MiddleSits(lines: seq<Text>, k: nat)
    requires k + 2 < |lines|
    ensures var (t, n, line) := (JoinWith(lines, LF), LineStart(lines, k) + |lines[k]|, lines[k + 1]);
      && LineStart(lines, k + 2) == n + |line| + 2
      && OccursAt(t, line, n + 1) && n + 1 + |line| < |t| && t[n] == LF && t[n + 1 + |line|] == LF
  {
    LineNext(lines, k);
    LineNext(lines, k + 1);
    LineSits(lines, k);
    LineSits(lines, k + 1);
  }

  lemma BlockLines(p: Prose, language: Text, mode: Text, metadata: Text, source: Text, b: Block)
    ensures var k := MarkerLine(b, false);
      MarkerLine(b, true) == k + 2
      && LinesOf(p, language, mode, metadata, source)[k + 1] == if b == SourceBlock then source else metadata
  {
  }

  /** The start of the two markers fixes what is between them. */
  lemma BetweenFixed(t: Text, lines: seq<Text>, k: nat, before: Text, between: Text, after: Text)
    requires k + 2 < |lines| && t == JoinWith(lines, LF) == before + lines[k] + between + (lines[k + 2] + after)
    requires |before| == LineStart(lines, k) && |before + lines[k] + between| == LineStart(lines, k + 2)
    ensures between == [LF] + lines[k + 1] + [LF]
  {
    MiddleSits(lines, k);
    BetweenIs(t, before, lines[k], between, lines[k + 2] + after, lines[k + 1]);
  }

  /** Between two marker lines with one line in the middle, however the joined text is split at the two markers. */
  lemma {:induction false} FramedBlock(lines: seq<Text>, k: nat, before: Text, between: Text, after: Text)
    requires k + 2 < |lines| && Framed(lines, k) && Framed(lines, k + 2)
    requires JoinWith(lines, LF) == before + lines[k] + between + lines[k + 2] + after
    ensures between == [LF] + lines[k + 1] + [LF]
  {
    var t := JoinWith(lines, LF);
    Regroup(before, lines[k], between, lines[k + 2], after);
    MarkerPlace(lines, k, t, before, between + lines[k + 2] + after);
    MarkerPlace(lines, k + 2, t, before + lines[k] + between, after);
    BetweenFixed(t, lines, k, before, between, after);
  }

  lemma {:induction false} MarkerPlace(lines: seq<Text>, k: nat, t: Text, before: Text, after: Text)
    requires k < |lines| && Framed(lines, k) && t == JoinWith(lines, LF) == before + lines[k] + after
    ensures |before| == LineStart(lines, k)
  {
    Occurrence(t, before, lines[k], after);
    MarkerOccursOnce(lines, k, |before|);
  }

  /** However the prompt is split at a block's two markers, the piece between them is the block on a line of its own. */
  lemma BlockBetweenMarkers(p: Prose, r: Request, b: Block, before: Text, between: Text, after: Text)
    requires IsLanguage(r.language)
    requires UserPrompt(p, r) == before + Marker(b, false) + between + Marker(b, true) + after
    ensures between == [LF] + BlockText(r, b) + [LF]
  {
    PromptIsFramed(p, r, b, false);
    PromptIsFramed(p, r, b, true);
    BlockLines(p, r.language, ModeText(r.mode), BlockText(r, MetadataBlock), BlockText(r, SourceBlock), b);
    FramedBlock(Lines(p, r), MarkerLine(b, false), before, between, after);
  }

  lemma BetweenIs(t: Text, before: Text, first: Text, between: Text, rest: Text, line: Text)
    requires t == before + first + between + rest && |between| == |line| + 2
    requires OccursAt(t, line, |before| + |first| + 1)
    requires t[|before| + |first|] == LF && t[|before| + |first| + 1 + |line|] == LF
    ensures between == [LF] + line + [LF]
  {
    var n := |before| + |first|;
    assert t[n..n + |between|] == between;
    assert between[0] == t[n] && between[1 + |line|] == t[n + 1 + |line|];
    assert between[1..1 + |line|] == t[n + 1..n + 1 + |line|];
    assert between == [between[0]] + between[1..1 + |line|] + [between[1 + |line|]];
  }

  /** A line that is not the last one is followed by a line feed. */
  lemma {:induction false} LineSits(lines: seq<Text>, k: nat)
    requires k + 1 < |lines|
    ensures OccursAt(JoinWith(lines, LF), lines[k], LineStart(lines, k))
    ensures LineStart(lines, k) + |lines[k]| < |JoinWith(lines, LF)|
    ensures JoinWith(lines, LF)[LineStart(lines, k) + |lines[k]|] == LF
  {
    LineOccurs(lines, k);
    if k > 0 {
      LineSits(lines[1..], k - 1);
      var n := |lines[0]| + 1;
      assert JoinWith(lines, LF)[n..] == JoinWith(lines[1..], LF);
    }
  }

  /** So the untrusted inputs are recovered from the prompt by splitting and decoding, whatever they contain. */
  lemma PromptRecoversInput(p: Prose, r: Request, b: Block, before: Text, between: Text, after: Text)
    requires IsLanguage(r.language)
    requires UserPrompt(p, r) == before + Marker(b, false) + between + Marker(b, true) + after
    ensures |between| >= 2
    ensures b == SourceBlock ==> DecodeSource(between[1..|between| - 1]) == Some(r.source)
    ensures b == MetadataBlock ==>
      J.ParseObject(between[1..|between| - 1]) == Some(MetadataMembers(LevelText(r.level), r.title, r.context))
  {
    BlockBetweenMarkers(p, r, b, before, between, after);
    assert between[1..|between| - 1] == BlockText(r, b);
    SourceRoundTrip(r.source);
    MetadataRoundTrip(LevelText(r.level), r.title, r.context);
  }
}
