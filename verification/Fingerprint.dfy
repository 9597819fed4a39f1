/**
  The message that is hashed into a quota admission fingerprint:
  apps/api/src/modules/usage/quota-admission.fingerprint.ts, on bytes.
 */
module Fingerprint {
  import opened Utf16

  newtype Byte = x: int | 0 <= x < 256

  type Bytes = seq<Byte>

  const MAX_LENGTH := 0xffff_ffff

  datatype Mode = QUICK | STANDARD | DEEP

  datatype Level = BEGINNER | INTERMEDIATE | ADVANCED

  /** A validated request: source, language, title and context as UTF-8 bytes. */
  datatype Request = Request(
    version: nat, source: Bytes, language: Bytes, mode: Mode, level: Level, title: Option<Bytes>,
      context: Option<Bytes>)

  /** The bytes of an ASCII literal. */
  function Literal(s: string): (b: Bytes)
    requires forall i :: 0 <= i < |s| ==> s[i] < 128 as char
    ensures |b| == |s|
  {
    seq(|s|, i requires 0 <= i < |s| => s[i] as int as Byte)
  }

  const DOMAIN: Bytes := Literal("repomentor:usage:quota-admission:fingerprint")

  function ModeBytes(m: Mode): Bytes {
    match m case QUICK => Literal("QUICK") case STANDARD => Literal("STANDARD") case DEEP => Literal("DEEP")
  }

  function LevelBytes(l: Level): Bytes {
    match l case BEGINNER => Literal("BEGINNER") case INTERMEDIATE => Literal("INTERMEDIATE") case ADVANCED =>
      Literal("ADVANCED")
  }

  // ---------------------------------------------------------------- encoding

  /** writeUInt32BE. */
  function U32(n: nat): (b: Bytes)
    requires n <= MAX_LENGTH
    ensures |b| == 4
  {
    [(n / 0x100_0000) as Byte, (n / 0x1_0000 % 256) as Byte, (n / 256 % 256) as Byte, (n % 256) as Byte]
  }

  function LengthPrefixed(v: Bytes): (b: Bytes)
    requires |v| <= MAX_LENGTH
  {
    U32(|v|) + v
  }

  function OptionalLengthPrefixed(v: Option<Bytes>): Bytes
    requires v.Some? ==> |v.value| <= MAX_LENGTH
  {
    match v case None => [0] case Some(b) => [1] + LengthPrefixed(b)
  }

  /** encodeLengthPrefixed: fills a buffer of the final size; absent when the value is too long. */
  method EncodeLengthPrefixed(v: Bytes) returns (encoded: Option<Bytes>)
    ensures encoded == if |v| > MAX_LENGTH then None else Some(LengthPrefixed(v))
  {
    if |v| > MAX_LENGTH {
      return None;
    }
    var buffer := new Byte[4 + |v|];
    WriteUInt32BE(buffer, |v|);
    var i := 0;
    while i < |v|
      invariant 0 <= i <= |v|
      invariant buffer[..4] == U32(|v|)
      invariant buffer[4..4 + i] == v[..i]
    {
      buffer[4 + i] := v[i];
      assert buffer[4..4 + i + 1] == buffer[4..4 + i] + [v[i]];
      i := i + 1;
    }
    assert v[..i] == v;
    assert buffer[..] == buffer[..4] + buffer[4..4 + i];
    encoded := Some(buffer[..]);
  }

  method WriteUInt32BE(buffer: array<Byte>, n: nat)
    requires buffer.Length >= 4 && n <= MAX_LENGTH
    modifies buffer
    ensures buffer[..4] == U32(n)
    ensures buffer[4..] == old(buffer[4..])
  {
    buffer[0] := (n / 0x100_0000) as Byte;
    buffer[1] := (n / 0x1_0000 % 256) as Byte;
    buffer[2] := (n / 256 % 256) as Byte;
    buffer[3] := (n % 256) as Byte;
  }

  predicate Encodable(r: Request) {
    && r.version <= MAX_LENGTH && |r.source| <= MAX_LENGTH && |r.language| <= MAX_LENGTH
    && (r.title.Some? ==> |r.title.value| <= MAX_LENGTH) && (r.context.Some? ==> |r.context.value| <= MAX_LENGTH)
  }

  /** buildFingerprintMessage. */
  function Message(r: Request): Bytes
    requires Encodable(r)
  {
    LengthPrefixed(DOMAIN)
    + (LengthPrefixed(U32(r.version))
       + (LengthPrefixed(r.source)
          + (LengthPrefixed(r.language)
             + (LengthPrefixed(ModeBytes(r.mode))
                + (LengthPrefixed(LevelBytes(r.level))
                   + (OptionalLengthPrefixed(r.title)
                      + OptionalLengthPrefixed(r.context)))))))
  }

  // ---------------------------------------------------------------- decoding

  datatype Read<T> = Failed | Got(value: T, rest: Bytes)

  function ReadU32(b: Bytes): nat
    requires |b| == 4
  {
    b[0] as nat * 0x100_0000 + b[1] as nat * 0x1_0000 + b[2] as nat * 256 + b[3] as nat
  }

  function ReadPrefixed(b: Bytes): Read<Bytes> {
    if |b| < 4 || |b| < 4 + ReadU32(b[..4]) then Failed
    else Got(b[4..4 + ReadU32(b[..4])], b[4 + ReadU32(b[..4])..])
  }

  function ReadOptional(b: Bytes): Read<Option<Bytes>> {
    if b == [] then Failed
    else if b[0] == 0 then Got(None, b[1..])
    else if b[0] != 1 then Failed
    else match ReadPrefixed(b[1..])
      case Failed => Failed
      case Got(v, rest) => Got(Some(v), rest)
  }

  function ModeOf(b: Bytes): Option<Mode> {
    if b == ModeBytes(QUICK) then Some(QUICK)
    else if b == ModeBytes(STANDARD) then Some(STANDARD)
    else if b == ModeBytes(DEEP) then Some(DEEP)
    else None
  }

  function LevelOf(b: Bytes): Option<Level> {
    if b == LevelBytes(BEGINNER) then Some(BEGINNER)
    else if b == LevelBytes(INTERMEDIATE) then Some(INTERMEDIATE)
    else if b == LevelBytes(ADVANCED) then Some(ADVANCED)
    else None
  }

  /** The six length-prefixed fields, in order. */
  datatype Fields = Fields(domain: Bytes, version: Bytes, source: Bytes, language: Bytes, mode: Bytes, level: Bytes)

  function ReadFields(b: Bytes): Read<Fields> {
    match ReadPrefixed(b) case Failed => Failed case Got(domain, b1) =>
    match ReadPrefixed(b1) case Failed => Failed case Got(version, b2) =>
    match ReadPrefixed(b2) case Failed => Failed case Got(source, b3) =>
    match ReadPrefixed(b3) case Failed => Failed case Got(language, b4) =>
    match ReadPrefixed(b4) case Failed => Failed case Got(mode, b5) =>
    match ReadPrefixed(b5) case Failed => Failed case Got(level, b6) =>
      Got(Fields(domain, version, source, language, mode, level), b6)
  }

  /** Recovers the request a message was built from. */
  function Decode(b: Bytes): Option<Request> {
    match ReadFields(b)
    case Failed => None
    case Got(f, rest) =>
      match ReadOptional(rest) case Failed => None case Got(title, afterTitle) =>
      match ReadOptional(afterTitle) case Failed => None case Got(context, end) =>
        if end != [] || f.domain != DOMAIN || |f.version| != 4 || ModeOf(f.mode).None? || LevelOf(f.level).None?
          then None
        else Some(Request(ReadU32(f.version), f.source, f.language, ModeOf(f.mode).value, LevelOf(f.level).value, title,
          context))
  }

  lemma U32RoundTrip(n: nat)
    requires n <= MAX_LENGTH
    ensures ReadU32(U32(n)) == n
  {
    assert n == n / 256 * 256 + n % 256;
    assert n / 256 == n / 0x1_0000 * 256 + n / 256 % 256;
    assert n / 0x1_0000 == n / 0x100_0000 * 256 + n / 0x1_0000 % 256;
  }

  lemma PrefixedRoundTrip(v: Bytes, rest: Bytes)
    requires |v| <= MAX_LENGTH
    ensures ReadPrefixed(LengthPrefixed(v) + rest) == Got(v, rest)
  {
    var b := LengthPrefixed(v) + rest;
    U32RoundTrip(|v|);
    assert b[..4] == U32(|v|);
    assert b[4..4 + |v|] == v && b[4 + |v|..] == rest;
  }

  lemma OptionalRoundTrip(v: Option<Bytes>, rest: Bytes)
    requires v.Some? ==> |v.value| <= MAX_LENGTH
    ensures ReadOptional(OptionalLengthPrefixed(v) + rest) == Got(v, rest)
  {
    match v
    case None => assert ([0] + rest)[1..] == rest;
    case Some(b) =>
      PrefixedRoundTrip(b, rest);
      assert (OptionalLengthPrefixed(v) + rest)[1..] == LengthPrefixed(b) + rest;
  }

  lemma NamesRoundTrip(m: Mode, l: Level)
    ensures ModeOf(ModeBytes(m)) == Some(m) && |ModeBytes(m)| <= 8
    ensures LevelOf(LevelBytes(l)) == Some(l) && |LevelBytes(l)| <= 12
  {
    assert LevelBytes(BEGINNER)[0] == 66 && LevelBytes(ADVANCED)[0] == 65;
  }

  lemma FieldsRoundTrip(f: Fields, rest: Bytes)
    requires |f.domain| <= MAX_LENGTH && |f.version| <= MAX_LENGTH && |f.source| <= MAX_LENGTH
    requires |f.language| <= MAX_LENGTH && |f.mode| <= MAX_LENGTH && |f.level| <= MAX_LENGTH
    ensures var b6 := rest;
      var b5 := LengthPrefixed(f.level) + b6;
      var b4 := LengthPrefixed(f.mode) + b5;
      var b3 := LengthPrefixed(f.language) + b4;
      var b2 := LengthPrefixed(f.source) + b3;
      var b1 := LengthPrefixed(f.version) + b2;
      ReadFields(LengthPrefixed(f.domain) + b1) == Got(f, rest)
  {
    var b5 := LengthPrefixed(f.level) + rest;
    var b4 := LengthPrefixed(f.mode) + b5;
    var b3 := LengthPrefixed(f.language) + b4;
    var b2 := LengthPrefixed(f.source) + b3;
    var b1 := LengthPrefixed(f.version) + b2;
    PrefixedRoundTrip(f.domain, b1);
    PrefixedRoundTrip(f.version, b2);
    PrefixedRoundTrip(f.source, b3);
    PrefixedRoundTrip(f.language, b4);
    PrefixedRoundTrip(f.mode, b5);
    PrefixedRoundTrip(f.level, rest);
  }

  function FieldsOf(r: Request): Fields
    requires Encodable(r)
  {
    Fields(DOMAIN, U32(r.version), r.source, r.language, ModeBytes(r.mode), LevelBytes(r.level))
  }

  function Trailer(r: Request, more: Bytes): Bytes
    requires Encodable(r)
  {
    OptionalLengthPrefixed(r.title) + (OptionalLengthPrefixed(r.context) + more)
  }

  lemma MessageFields(r: Request, more: Bytes)
    requires Encodable(r)
    ensures ReadFields(Message(r) + more) == Got(FieldsOf(r), Trailer(r, more))
  {
    NamesRoundTrip(r.mode, r.level);
    FieldsRoundTrip(FieldsOf(r), Trailer(r, more));
    Regroup(LengthPrefixed(DOMAIN), LengthPrefixed(U32(r.version)), LengthPrefixed(r.source),
      LengthPrefixed(r.language),
            LengthPrefixed(ModeBytes(r.mode)), LengthPrefixed(LevelBytes(r.level)), OptionalLengthPrefixed(r.title),
            OptionalLengthPrefixed(r.context), more);
  }

  lemma Regroup(a: Bytes, b: Bytes, c: Bytes, d: Bytes, e: Bytes, f: Bytes, g: Bytes, h: Bytes, more: Bytes)
    ensures a + (b + (c + (d + (e + (f + (g + h)))))) + more == a + (b + (c + (d + (e + (f + (g + (h + more)))))))
  {
    assert f + (g + h) + more == f + (g + (h + more));
    assert d + (e + (f + (g + h))) + more == d + (e + (f + (g + h) + more));
    assert b + (c + (d + (e + (f + (g + h))))) + more == b + (c + (d + (e + (f + (g + h))) + more));
  }

  lemma DecodesFields(b: Bytes, r: Request, more: Bytes)
    requires Encodable(r) && ReadFields(b) == Got(FieldsOf(r), Trailer(r, more))
    ensures Decode(b) == if more == [] then Some(r) else None
  {
    NamesRoundTrip(r.mode, r.level);
    U32RoundTrip(r.version);
    OptionalRoundTrip(r.title, OptionalLengthPrefixed(r.context) + more);
    OptionalRoundTrip(r.context, more);
  }

  /** The message has a left inverse, which refuses a message that anything follows. */
  lemma MessageRoundTrip(r: Request, more: Bytes)
    requires Encodable(r)
    ensures Decode(Message(r) + more) == if more == [] then Some(r) else None
    ensures Decode(Message(r)) == Some(r)
  {
    MessageFields(r, more);
    DecodesFields(Message(r) + more, r, more);
    MessageFields(r, []);
    DecodesFields(Message(r) + [], r, []);
    assert Message(r) + [] == Message(r);
  }

  /** Distinct canonical requests are hashed from distinct messages, and no message is a proper prefix of another. */
  lemma MessagesAreDistinct(q: Request, r: Request)
    requires Encodable(q) && Encodable(r)
    ensures Message(q) <= Message(r) <==> q == r
  {
    if Message(q) <= Message(r) {
      var more := Message(r)[|Message(q)|..];
      assert Message(q) + more == Message(r);
      MessageRoundTrip(q, more);
      MessageRoundTrip(r, []);
    }
  }
}
