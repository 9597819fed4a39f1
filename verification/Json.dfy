/**
  JSON text over UTF-16 code units: string literals as JSON.stringify writes them, and a reader
  for strings and for flat objects whose values are strings, natural numbers and booleans
  (section 7 of RFC 8259; QuoteJSONString of ECMA-262).
 */
module Json {
  import opened Utf16

  const QUOTE: CodeUnit := 34
  const BACKSLASH: CodeUnit := 92

  predicate IsLead(u: CodeUnit) {
    0xD800 <= u <= 0xDBFF
  }

  predicate IsTrail(u: CodeUnit) {
    0xDC00 <= u <= 0xDFFF
  }

  // ---------------------------------------------------------------- hexadecimal escapes

  function HexDigit(n: nat): (u: CodeUnit)
    requires n < 16
  {
    if n < 10 then (48 + n) as CodeUnit else (87 + n) as CodeUnit
  }

  function HexValue(u: CodeUnit): Option<nat> {
    if 48 <= u <= 57 then Some(u as nat - 48)
    else if 97 <= u <= 102 then Some(u as nat - 87)
    else if 65 <= u <= 70 then Some(u as nat - 55)
    else None
  }

  /** `\uXXXX` with lower-case digits. */
  function HexEscape(u: CodeUnit): (t: Text)
    ensures |t| == 6
  {
    var n := u as nat;
    [BACKSLASH, 117, HexDigit(n / 4096), HexDigit(n / 256 % 16), HexDigit(n / 16 % 16), HexDigit(n % 16)]
  }

  function ReadHex(a: CodeUnit, b: CodeUnit, c: CodeUnit, d: CodeUnit): Option<CodeUnit> {
    match (HexValue(a), HexValue(b), HexValue(c), HexValue(d))
    case (Some(w), Some(x), Some(y), Some(z)) =>
      if w < 16 && x < 16 && y < 16 && z < 16 then Some((w * 4096 + x * 256 + y * 16 + z) as CodeUnit) else None
    case _ => None
  }

  lemma HexDigitRoundTrip(n: nat)
    requires n < 16
    ensures HexValue(HexDigit(n)) == Some(n)
  {
  }

  lemma HexDigitsDenote(n: nat)
    requires n < 0x1_0000
    ensures n / 4096 * 4096 + n / 256 % 16 * 256 + n / 16 % 16 * 16 + n % 16 == n
  {
    assert n / 16 == n / 256 * 16 + n / 16 % 16;
    assert n / 256 == n / 4096 * 16 + n / 256 % 16;
  }

  lemma ReadHexOf(a: CodeUnit, b: CodeUnit, c: CodeUnit, d: CodeUnit, w: nat, x: nat, y: nat, z: nat)
    requires HexValue(a) == Some(w) && HexValue(b) == Some(x) && HexValue(c) == Some(y) && HexValue(d) == Some(z)
    requires w < 16 && x < 16 && y < 16 && z < 16
    ensures ReadHex(a, b, c, d) == Some((w * 4096 + x * 256 + y * 16 + z) as CodeUnit)
  {
  }

  lemma HexRoundTrip(u: CodeUnit)
    ensures var t := HexEscape(u); ReadHex(t[2], t[3], t[4], t[5]) == Some(u)
  {
    var n := u as nat;
    HexDigitRoundTrip(n / 4096);
    HexDigitRoundTrip(n / 256 % 16);
    HexDigitRoundTrip(n / 16 % 16);
    HexDigitRoundTrip(n % 16);
    ReadHexOf(HexDigit(n / 4096), HexDigit(n / 256 % 16), HexDigit(n / 16 % 16), HexDigit(n % 16),
              n / 4096, n / 256 % 16, n / 16 % 16, n % 16);
    HexDigitsDenote(n);
  }

  // ---------------------------------------------------------------- string literals

  /** One unit that is not part of a surrogate pair. */
  function EscapeUnit(u: CodeUnit): (t: Text)
    ensures 1 <= |t| <= 6
  {
    if u == QUOTE || u == BACKSLASH then [BACKSLASH, u]
    else if u == 8 then [BACKSLASH, 98]
    else if u == 9 then [BACKSLASH, 116]
    else if u == 10 then [BACKSLASH, 110]
    else if u == 12 then [BACKSLASH, 102]
    else if u == 13 then [BACKSLASH, 114]
    else if u < 32 || IsLead(u) || IsTrail(u) then HexEscape(u)
    else [u]
  }

  /**
    A unit is written as itself, as a two-unit escape or as a hexadecimal one, whichever is the shortest
    JSON has for it.
   */
  lemma EscapesAreShortest(u: CodeUnit)
    ensures |EscapeUnit(u)| == 1 <==> u >= 32 && u != QUOTE && u != BACKSLASH && !IsLead(u) && !IsTrail(u)
    ensures |EscapeUnit(u)| == 2 <==> u in {QUOTE, BACKSLASH, 8, 9, 10, 12, 13}
    ensures |EscapeUnit(u)| != 1 ==> EscapeUnit(u)[0] == BACKSLASH
  {
  }

  function Escape(t: Text): Text {
    if t == [] then []
    else if |t| >= 2 && IsLead(t[0]) && IsTrail(t[1]) then [t[0], t[1]] + Escape(t[2..])
    else EscapeUnit(t[0]) + Escape(t[1..])
  }

  /** JSON.stringify of a string. */
  function Quote(t: Text): Text {
    [QUOTE] + Escape(t) + [QUOTE]
  }

  /** A value read from a text, and what remains after it. */
  datatype Read<+T> = Failed | Got(value: T, rest: Text)

  function Prepend(u: CodeUnit, r: Read<Text>): Read<Text> {
    match r case Failed => Failed case Got(t, rest) => Got([u] + t, rest)
  }

  function SimpleEscape(u: CodeUnit): Option<CodeUnit> {
    if u == QUOTE || u == BACKSLASH || u == 47 then Some(u)
    else if u == 98 then Some(8)
    else if u == 102 then Some(12)
    else if u == 110 then Some(10)
    else if u == 114 then Some(13)
    else if u == 116 then Some(9)
    else None
  }

  /** Reads a string literal after its opening quote. */
  function ReadString(s: Text): (r: Read<Text>)
    ensures r.Got? ==> |r.rest| < |s|
  {
    if s == [] || s[0] < 32 then Failed
    else if s[0] == QUOTE then Got([], s[1..])
    else if s[0] != BACKSLASH then Prepend(s[0], ReadString(s[1..]))
    else if |s| < 2 then Failed
    else if s[1] == 117 then
      if |s| < 6 then Failed
      else match ReadHex(s[2], s[3], s[4], s[5])
        case None => Failed
        case Some(u) => Prepend(u, ReadString(s[6..]))
    else match SimpleEscape(s[1])
      case None => Failed
      case Some(u) => Prepend(u, ReadString(s[2..]))
  }

  /** An escaped unit is read back as that unit. */
  lemma {:induction false} ReadEscapedUnit(u: CodeUnit, s: Text)
    ensures ReadString(EscapeUnit(u) + s) == Prepend(u, ReadString(s))
  {
    var t := EscapeUnit(u) + s;
    if |EscapeUnit(u)| == 6 {
      HexRoundTrip(u);
      assert t[6..] == s;
    } else if |EscapeUnit(u)| == 2 {
      assert t[2..] == s;
    } else {
      assert t[1..] == s;
    }
  }

  lemma {:induction false} ReadRawUnit(u: CodeUnit, s: Text)
    requires u >= 32 && u != QUOTE && u != BACKSLASH
    ensures ReadString([u] + s) == Prepend(u, ReadString(s))
  {
    assert ([u] + s)[1..] == s;
  }

  /** Reading a quoted string gives the string back, with whatever follows the closing quote. */
  lemma {:induction false} StringRoundTrip(t: Text, rest: Text)
    ensures ReadString(Escape(t) + [QUOTE] + rest) == Got(t, rest)
  {
    if t == [] {
      assert Escape(t) + [QUOTE] + rest == [QUOTE] + rest;
      assert ([QUOTE] + rest)[1..] == rest;
    } else if |t| >= 2 && IsLead(t[0]) && IsTrail(t[1]) {
      StringRoundTrip(t[2..], rest);
      PairRoundTrip(t, rest);
    } else {
      StringRoundTrip(t[1..], rest);
      UnitRoundTrip(t, rest);
    }
  }

  lemma {:induction false} PairRoundTrip(t: Text, rest: Text)
    requires |t| >= 2 && IsLead(t[0]) && IsTrail(t[1])
    requires ReadString(Escape(t[2..]) + [QUOTE] + rest) == Got(t[2..], rest)
    ensures ReadString(Escape(t) + [QUOTE] + rest) == Got(t, rest)
  {
    var tail := Escape(t[2..]) + [QUOTE] + rest;
    assert Escape(t) + [QUOTE] + rest == [t[0]] + ([t[1]] + tail);
    ReadRawUnit(t[1], tail);
    ReadRawUnit(t[0], [t[1]] + tail);
    assert [t[0]] + ([t[1]] + t[2..]) == t;
  }

  lemma {:induction false} UnitRoundTrip(t: Text, rest: Text)
    requires t != [] && !(|t| >= 2 && IsLead(t[0]) && IsTrail(t[1]))
    requires ReadString(Escape(t[1..]) + [QUOTE] + rest) == Got(t[1..], rest)
    ensures ReadString(Escape(t) + [QUOTE] + rest) == Got(t, rest)
  {
    assert Escape(t) + [QUOTE] + rest == EscapeUnit(t[0]) + (Escape(t[1..]) + [QUOTE] + rest);
    ReadEscapedUnit(t[0], Escape(t[1..]) + [QUOTE] + rest);
    assert [t[0]] + t[1..] == t;
  }

  /**
    Escaped text contains no control character and no bare quote, so it cannot break a line or close the
    literal early.
   */
  lemma {:induction false} EscapeIsPrintable(t: Text)
    ensures forall i :: 0 <= i < |Escape(t)| ==> Escape(t)[i] >= 32
    ensures |Escape(t)| <= 6 * |t|
  {
    if t == [] {
    } else if |t| >= 2 && IsLead(t[0]) && IsTrail(t[1]) {
      EscapeIsPrintable(t[2..]);
    } else {
      EscapeIsPrintable(t[1..]);
    }
  }

  // ---------------------------------------------------------------- flat objects

  datatype Value = Str(text: Text) | Num(n: nat) | Bool(b: bool)

  datatype Member = Member(key: Text, value: Value)

  const TRUE: Text := [116, 114, 117, 101]
  const FALSE: Text := [102, 97, 108, 115, 101]

  function PrintValue(v: Value): (t: Text)
    ensures t != []
  {
    match v
    case Str(text) => Quote(text)
    case Num(n) => Digits(n)
    case Bool(b) => if b then TRUE else FALSE
  }

  function PrintMember(m: Member): Text {
    Quote(m.key) + [58] + PrintValue(m.value)
  }

  function PrintMembers(ms: seq<Member>): Text {
    if ms == [] then []
    else PrintMember(ms[0]) + (if |ms| == 1 then [] else [44] + PrintMembers(ms[1..]))
  }

  /** JSON.stringify of an object with these own properties, in this order. */
  function PrintObject(ms: seq<Member>): Text {
    [123] + PrintMembers(ms) + [125]
  }

  predicate IsSpace(u: CodeUnit) {
    u == 32 || u == 9 || u == 10 || u == 13
  }

  function Skip(s: Text): (r: Text)
    ensures |r| <= |s|
    ensures s != [] && !IsSpace(s[0]) ==> r == s
  {
    if s != [] && IsSpace(s[0]) then Skip(s[1..]) else s
  }

  function TakeDigits(s: Text): (k: nat)
    ensures k <= |s| && AllDigits(s[..k])
  {
    if s == [] || !IsDigit(s[0]) then 0 else 1 + TakeDigits(s[1..])
  }

  function ReadValue(s: Text): (r: Read<Value>)
    ensures r.Got? ==> |r.rest| < |s|
  {
    if s == [] then Failed
    else if s[0] == QUOTE then
      match ReadString(s[1..]) case Failed => Failed case Got(t, rest) => Got(Str(t), rest)
    else if IsDigit(s[0]) then
      var k := if s[0] == 48 then 1 else TakeDigits(s);
      if k == 0 then Failed else Got(Num(NumberOf(s[..k])), s[k..])
    else if TRUE <= s then Got(Bool(true), s[4..])
    else if FALSE <= s then Got(Bool(false), s[5..])
    else Failed
  }

  function ReadMember(s: Text): (r: Read<Member>)
    ensures r.Got? ==> |r.rest| < |s|
  {
    var opening := Skip(s);
    if opening == [] || opening[0] != QUOTE then Failed
    else
      match ReadString(opening[1..])
      case Failed => Failed
      case Got(key, afterKey) =>
        var colon := Skip(afterKey);
        if colon == [] || colon[0] != 58 then Failed
        else match ReadValue(Skip(colon[1..]))
          case Failed => Failed
          case Got(v, rest) => Got(Member(key, v), rest)
  }

  /** Members up to the closing brace. */
  function ReadMembers(s: Text): (r: Read<seq<Member>>)
    ensures r.Got? ==> |r.rest| < |s|
    decreases |s|
  {
    match ReadMember(s)
    case Failed => Failed
    case Got(m, afterMember) =>
      var next := Skip(afterMember);
      if next == [] then Failed
      else if next[0] == 125 then Got([m], next[1..])
      else if next[0] != 44 then Failed
      else match ReadMembers(next[1..])
        case Failed => Failed
        case Got(ms, rest) => Got([m] + ms, rest)
  }

  /** JSON.parse, where the text is a flat object. */
  function ParseObject(s: Text): Option<seq<Member>> {
    var opening := Skip(s);
    if opening == [] || opening[0] != 123 then None
    else
      var inside := Skip(opening[1..]);
      if inside != [] && inside[0] == 125 then (if Skip(inside[1..]) == [] then Some([]) else None)
      else match ReadMembers(inside)
        case Failed => None
        case Got(ms, rest) => if Skip(rest) == [] then Some(ms) else None
  }

  lemma {:induction false} TakesAllDigits(d: Text, rest: Text)
    requires AllDigits(d) && (rest == [] || !IsDigit(rest[0]))
    ensures TakeDigits(d + rest) == |d|
  {
    if d == [] {
      assert d + rest == rest;
    } else {
      assert (d + rest)[1..] == d[1..] + rest;
      TakesAllDigits(d[1..], rest);
    }
  }

  predicate EndsValue(rest: Text) {
    rest != [] && !IsDigit(rest[0])
  }

  lemma {:induction false} NumberRoundTrip(n: nat, rest: Text)
    requires EndsValue(rest)
    ensures ReadValue(Digits(n) + rest) == Got(Num(n), rest)
  {
    var d := Digits(n);
    TakesAllDigits(d, rest);
    DigitsRoundTrip(n);
    assert (d + rest)[..|d|] == d && (d + rest)[|d|..] == rest;
  }

  lemma QuotedRoundTrip(text: Text, rest: Text)
    ensures ReadValue(Quote(text) + rest) == Got(Str(text), rest)
  {
    StringRoundTrip(text, rest);
    assert (Quote(text) + rest)[1..] == Escape(text) + [QUOTE] + rest;
  }

  lemma BoolRoundTrip(b: bool, rest: Text)
    ensures ReadValue(PrintValue(Bool(b)) + rest) == Got(Bool(b), rest)
  {
    if b {
      assert (TRUE + rest)[4..] == rest;
    } else {
      assert (FALSE + rest)[0] == 102;
      assert (FALSE + rest)[5..] == rest;
    }
  }

  lemma ValueRoundTrip(v: Value, rest: Text)
    requires EndsValue(rest)
    ensures ReadValue(PrintValue(v) + rest) == Got(v, rest)
    ensures !IsSpace(PrintValue(v)[0])
  {
    match v
    case Str(text) => QuotedRoundTrip(text, rest);
    case Num(n) => NumberRoundTrip(n, rest);
    case Bool(b) => BoolRoundTrip(b, rest);
  }

  lemma ReadsMemberFromParts(s: Text, key: Text, afterColon: Text, v: Value, rest: Text)
    requires s != [] && s[0] == QUOTE && ReadString(s[1..]) == Got(key, [58] + afterColon)
    requires afterColon != [] && !IsSpace(afterColon[0]) && ReadValue(afterColon) == Got(v, rest)
    ensures ReadMember(s) == Got(Member(key, v), rest)
  {
    assert ([58] + afterColon)[1..] == afterColon;
  }

  lemma ReadsQuotedKey(key: Text, rest: Text)
    ensures Quote(key) + rest != [] && (Quote(key) + rest)[0] == QUOTE
    ensures ReadString((Quote(key) + rest)[1..]) == Got(key, rest)
  {
    assert (Quote(key) + rest)[1..] == Escape(key) + [QUOTE] + rest;
    StringRoundTrip(key, rest);
  }

  lemma MemberRoundTrip(m: Member, rest: Text)
    requires EndsValue(rest)
    ensures ReadMember(PrintMember(m) + rest) == Got(m, rest)
  {
    var afterColon := PrintValue(m.value) + rest;
    assert PrintMember(m) + rest == Quote(m.key) + ([58] + afterColon);
    ReadsQuotedKey(m.key, [58] + afterColon);
    ValueRoundTrip(m.value, rest);
    ReadsMemberFromParts(Quote(m.key) + ([58] + afterColon), m.key, afterColon, m.value, rest);
  }

  lemma {:induction false} ReadsLastMember(s: Text, m: Member, rest: Text)
    requires ReadMember(s) == Got(m, [125] + rest)
    ensures ReadMembers(s) == Got([m], rest)
  {
    assert ([125] + rest)[1..] == rest;
  }

  lemma {:induction false} ReadsOneMember(s: Text, m: Member, more: Text, ms: seq<Member>, rest: Text)
    requires ReadMember(s) == Got(m, [44] + more) && ReadMembers(more) == Got(ms, rest)
    ensures ReadMembers(s) == Got([m] + ms, rest)
  {
    var next := [44] + more;
    assert next[1..] == more && Skip(next) == next;
  }

  lemma Regroup(a: Text, b: Text, c: Text, d: Text, e: Text)
    ensures a + (b + c) + d + e == a + (b + (c + d + e))
  {
  }

  lemma {:induction false} PrintedMembersSplit(ms: seq<Member>, rest: Text)
    requires |ms| > 1
    ensures PrintMembers(ms) + [125] + rest == PrintMember(ms[0]) + ([44] + (PrintMembers(ms[1..]) + [125] + rest))
  {
    Regroup(PrintMember(ms[0]), [44], PrintMembers(ms[1..]), [125], rest);
  }

  lemma {:induction false} MembersRoundTrip(ms: seq<Member>, rest: Text)
    requires ms != []
    ensures ReadMembers(PrintMembers(ms) + [125] + rest) == Got(ms, rest)
  {
    if |ms| == 1 {
      OneMemberRoundTrip(ms, rest);
    } else {
      MembersRoundTrip(ms[1..], rest);
      MoreMembersRoundTrip(ms, rest);
    }
  }

  lemma {:induction false} MoreMembersRoundTrip(ms: seq<Member>, rest: Text)
    requires |ms| > 1 && ReadMembers(PrintMembers(ms[1..]) + [125] + rest) == Got(ms[1..], rest)
    ensures ReadMembers(PrintMembers(ms) + [125] + rest) == Got(ms, rest)
  {
    var more := PrintMembers(ms[1..]) + [125] + rest;
    PrintedMembersSplit(ms, rest);
    MemberRoundTrip(ms[0], [44] + more);
    ReadsOneMember(PrintMembers(ms) + [125] + rest, ms[0], more, ms[1..], rest);
    assert [ms[0]] + ms[1..] == ms;
  }

  lemma {:induction false} OneMemberRoundTrip(ms: seq<Member>, rest: Text)
    requires |ms| == 1
    ensures ReadMembers(PrintMembers(ms) + [125] + rest) == Got(ms, rest)
  {
    var s := PrintMembers(ms) + [125] + rest;
    assert s == PrintMember(ms[0]) + ([125] + rest);
    MemberRoundTrip(ms[0], [125] + rest);
    ReadsLastMember(s, ms[0], rest);
    assert [ms[0]] == ms;
  }

  lemma {:induction false} ParsesObjectFromParts(s: Text, inside: Text, ms: seq<Member>)
    requires s == [123] + inside && inside != [] && inside[0] == QUOTE && ReadMembers(inside) == Got(ms, [])
    ensures ParseObject(s) == Some(ms)
  {
    assert s[1..] == inside;
  }

  lemma {:induction false} MembersStartQuoted(ms: seq<Member>)
    requires ms != []
    ensures PrintMembers(ms) != [] && PrintMembers(ms)[0] == QUOTE
  {
    assert PrintMember(ms[0])[0] == QUOTE;
  }

  /** Parsing a printed flat object gives its members back. */
  lemma ObjectRoundTrip(ms: seq<Member>)
    requires ms != []
    ensures ParseObject(PrintObject(ms)) == Some(ms)
  {
    MembersRoundTrip(ms, []);
    MembersStartQuoted(ms);
    assert PrintMembers(ms) + [125] + [] == PrintMembers(ms) + [125];
    assert PrintObject(ms) == [123] + (PrintMembers(ms) + [125]);
    ParsesObjectFromParts(PrintObject(ms), PrintMembers(ms) + [125], ms);
  }

  /** No control character, so no line break. */
  predicate Printable(t: Text) {
    forall i :: 0 <= i < |t| ==> t[i] >= 32
  }

  lemma MemberIsPrintable(m: Member)
    ensures Printable(PrintMember(m))
  {
    EscapeIsPrintable(m.key);
    if m.value.Str? {
      EscapeIsPrintable(m.value.text);
    }
    assert Printable(Quote(m.key)) && Printable(PrintValue(m.value));
  }

  lemma {:induction false} MembersArePrintable(ms: seq<Member>)
    ensures Printable(PrintMembers(ms))
  {
    if ms != [] {
      MemberIsPrintable(ms[0]);
      MembersArePrintable(ms[1..]);
    }
  }

  lemma ObjectIsPrintable(ms: seq<Member>)
    ensures Printable(PrintObject(ms))
  {
    MembersArePrintable(ms);
  }
}
