/**
  Text as JavaScript, Lua and SQL strings see it here: a sequence of 16-bit code units.
  Decimal numerals and splitting at one separator are shared by the marker text, the event
  ids and the ISO dates.
 */
module Utf16 {

  datatype Option<+T> = None | Some(value: T)

  newtype CodeUnit = x: int | 0 <= x < 0x1_0000

  type Text = seq<CodeUnit>

  /** An ASCII literal as code units. */
  function Ascii(s: string): (t: Text)
    requires forall i :: 0 <= i < |s| ==> s[i] < 128 as char
    ensures |t| == |s|
    ensures forall i :: 0 <= i < |s| ==> t[i] == s[i] as CodeUnit
  {
    seq(|s|, i requires 0 <= i < |s| => s[i] as CodeUnit)
  }

  predicate IsDigit(u: CodeUnit) {
    48 <= u <= 57
  }

  predicate AllDigits(t: Text) {
    forall i :: 0 <= i < |t| ==> IsDigit(t[i])
  }

  /** The decimal numeral of a natural number, without leading zeros. */
  function Digits(n: nat): (t: Text)
    ensures |t| >= 1 && AllDigits(t)
    ensures t[0] == 48 ==> n == 0 && |t| == 1
  {
    if n < 10 then [(48 + n) as CodeUnit] else Digits(n / 10) + [(48 + n % 10) as CodeUnit]
  }

  /** The number a digit string denotes; leading zeros are allowed. */
  function NumberOf(t: Text): nat
    requires AllDigits(t)
  {
    if t == [] then 0 else NumberOf(t[..|t| - 1]) * 10 + (t[|t| - 1] as int - 48)
  }

  function Power10(k: nat): (p: nat)
    ensures p >= 1
  {
    if k == 0 then 1 else 10 * Power10(k - 1)
  }

  lemma {:induction false} DigitsRoundTrip(n: nat)
    ensures NumberOf(Digits(n)) == n
  {
    if n >= 10 {
      DigitsRoundTrip(n / 10);
      assert Digits(n)[..|Digits(n)| - 1] == Digits(n / 10);
    } else {
      assert Digits(n)[..0] == [];
    }
  }

  /** A digit string without leading zero is the numeral of the number it denotes. */
  lemma {:induction false} NumeralRoundTrip(t: Text)
    requires t != [] && AllDigits(t) && t[0] != 48
    ensures NumberOf(t) >= 1 && Digits(NumberOf(t)) == t
  {
    var (p, d) := (t[..|t| - 1], t[|t| - 1]);
    if p == [] {
      assert NumberOf(p) == 0 && t == [d];
    } else {
      NumeralRoundTrip(p);
      LastDigit(NumberOf(p), d as int - 48);
      assert t == p + [d];
    }
  }

  lemma {:induction false} LastDigit(n: nat, d: int)
    requires n >= 1 && 0 <= d < 10
    ensures Digits(n * 10 + d) == Digits(n) + [(48 + d) as CodeUnit]
  {
  }

  lemma {:induction false} DigitsLength(n: nat, k: nat)
    requires k >= 1 && n < Power10(k)
    ensures |Digits(n)| <= k
  {
    if n >= 10 {
      assert Power10(k) == 10 * Power10(k - 1);
      assert k != 1;
      DigitsLength(n / 10, k - 1);
    }
  }

  /** `String.prototype.split` at a one-unit separator. */
  function SplitAt(t: Text, sep: CodeUnit): (fields: seq<Text>)
    ensures |fields| >= 1
  {
    if t == [] then [[]]
    else
      var rest := SplitAt(t[1..], sep);
      if t[0] == sep then [[]] + rest else [[t[0]] + rest[0]] + rest[1..]
  }

  /** `Array.prototype.join` and Lua's `table.concat` with a one-unit separator. */
  function JoinWith(fields: seq<Text>, sep: CodeUnit): Text
    requires |fields| >= 1
  {
    if |fields| == 1 then fields[0] else fields[0] + [sep] + JoinWith(fields[1..], sep)
  }

  /** Joining and then splitting gives the fields back when none contains the separator. */
  lemma {:induction false} SplitInvertsJoin(fields: seq<Text>, sep: CodeUnit)
    requires |fields| >= 1
    requires forall i :: 0 <= i < |fields| ==> sep !in fields[i]
    ensures SplitAt(JoinWith(fields, sep), sep) == fields
    decreases |fields|, |fields[0]|
  {
    var t := JoinWith(fields, sep);
    if fields[0] == [] {
      if |fields| > 1 {
        SplitInvertsJoin(fields[1..], sep);
        assert t == [sep] + JoinWith(fields[1..], sep);
        assert t[1..] == JoinWith(fields[1..], sep);
      }
    } else {
      var shorter := [fields[0][1..]] + fields[1..];
      SplitInvertsJoin(shorter, sep);
      assert shorter[1..] == fields[1..];
      assert t[1..] == JoinWith(shorter, sep) by {
        if |fields| > 1 {
          assert t == fields[0] + ([sep] + JoinWith(fields[1..], sep));
        }
      }
      assert t[0] != sep && t[0] == fields[0][0] && fields[0] == [t[0]] + shorter[0];
      assert fields == [[t[0]] + shorter[0]] + shorter[1..];
    }
  }

  // ---------------------------------------------------------------- trimming

  /** White space and line terminators as String.prototype.trim sees them. */
  predicate IsBlank(u: CodeUnit) {
    9 <= u <= 13 || u == 32 || u == 160 || u == 0x1680 || 0x2000 <= u <= 0x200A
    || u == 0x2028 || u == 0x2029 || u == 0x202F || u == 0x205F || u == 0x3000 || u == 0xFEFF
  }

  function TrimStart(t: Text): Text {
    if t != [] && IsBlank(t[0]) then TrimStart(t[1..]) else t
  }

  function TrimEnd(t: Text): Text {
    if t != [] && IsBlank(t[|t| - 1]) then TrimEnd(t[..|t| - 1]) else t
  }

  function Trim(t: Text): Text {
    TrimEnd(TrimStart(t))
  }

  predicate Trimmed(t: Text) {
    t == [] || (!IsBlank(t[0]) && !IsBlank(t[|t| - 1]))
  }

  lemma {:induction false} TrimEndTrims(t: Text)
    requires t == [] || !IsBlank(t[0])
    ensures Trimmed(TrimEnd(t)) && TrimEnd(t) <= t
  {
    if t != [] && IsBlank(t[|t| - 1]) {
      TrimEndTrims(t[..|t| - 1]);
    }
  }

  lemma {:induction false} TrimStartTrims(t: Text)
    ensures TrimStart(t) == [] || !IsBlank(TrimStart(t)[0])
  {
    if t != [] && IsBlank(t[0]) {
      TrimStartTrims(t[1..]);
    }
  }

  /** A text is what trimming leaves of it exactly when neither end is blank; trimming leaves such a text. */
  lemma TrimTrims(t: Text)
    ensures Trimmed(Trim(t))
    ensures Trimmed(t) <==> Trim(t) == t
  {
    TrimStartTrims(t);
    TrimEndTrims(TrimStart(t));
  }

  // ---------------------------------------------------------------- replacing

  /** String.prototype.replaceAll of one unit by a text. */
  function ReplaceAll(t: Text, unit: CodeUnit, into: Text): Text {
    if t == [] then [] else (if t[0] == unit then into else [t[0]]) + ReplaceAll(t[1..], unit, into)
  }

  lemma {:induction false} ReplaceAllConcat(a: Text, b: Text, unit: CodeUnit, into: Text)
    ensures ReplaceAll(a + b, unit, into) == ReplaceAll(a, unit, into) + ReplaceAll(b, unit, into)
  {
    if a == [] {
      assert a + b == b;
    } else {
      assert (a + b)[1..] == a[1..] + b;
      ReplaceAllConcat(a[1..], b, unit, into);
    }
  }

  lemma {:induction false} ReplaceAllAbsent(t: Text, unit: CodeUnit, into: Text)
    requires unit !in t
    ensures ReplaceAll(t, unit, into) == t
  {
    if t != [] {
      ReplaceAllAbsent(t[1..], unit, into);
      assert [t[0]] + t[1..] == t;
    }
  }

  lemma {:induction false} ReplaceOne(u: CodeUnit, unit: CodeUnit, into: Text)
    ensures ReplaceAll([u], unit, into) == if u == unit then into else [u]
  {
    assert [u][1..] == [];
  }
}
