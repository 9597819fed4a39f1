/**
  Title search: the LIKE pattern built by apps/api/src/modules/review/prisma-review.repository.ts,
  the substring filter of the in-memory repository, and the id search of
  apps/api/src/modules/usage/prisma-usage.repository.ts.
 */
module LikeSearch {
  import opened Utf16

  const PERCENT: CodeUnit := 37
  const UNDERSCORE: CodeUnit := 95
  const BACKSLASH: CodeUnit := 92

  /** LIKE with backslash as its escape character (section 8.5 of ISO/IEC 9075-2). */
  predicate Like(pattern: Text, s: Text)
    decreases |pattern| + |s|
  {
    if pattern == [] then s == []
    else if pattern[0] == PERCENT then Like(pattern[1..], s) || (s != [] && Like(pattern, s[1..]))
    else if pattern[0] == BACKSLASH then |pattern| >= 2 && s != [] && s[0] == pattern[1] && Like(pattern[2..], s[1..])
    else s != [] && (pattern[0] == UNDERSCORE || s[0] == pattern[0]) && Like(pattern[1..], s[1..])
  }

  ghost predicate Contains(s: Text, t: Text) {
    exists i :: 0 <= i <= |s| && t <= s[i..]
  }

  /** The pattern of a `contains` filter. */
  function ContainsPattern(escaped: Text): Text {
    [PERCENT] + escaped + [PERCENT]
  }

  // ---------------------------------------------------------------- escaping

  /** escapePrismaLikeSearch of the review repository: three replacements, backslash first. */
  function EscapeSearch(t: Text): Text {
    ReplaceAll(ReplaceAll(ReplaceAll(t, BACKSLASH, [BACKSLASH, BACKSLASH]), PERCENT, [BACKSLASH, PERCENT]),
               UNDERSCORE, [BACKSLASH, UNDERSCORE])
  }

  predicate Special(u: CodeUnit) {
    u == BACKSLASH || u == PERCENT || u == UNDERSCORE
  }

  /** A backslash before every special unit. */
  function EscapeEach(t: Text): Text {
    if t == [] then [] else (if Special(t[0]) then [BACKSLASH, t[0]] else [t[0]]) + EscapeEach(t[1..])
  }

  lemma EscapeOne(u: CodeUnit)
    ensures EscapeSearch([u]) == if Special(u) then [BACKSLASH, u] else [u]
  {
    ReplaceOne(u, BACKSLASH, [BACKSLASH, BACKSLASH]);
    if u == BACKSLASH {
      ReplaceAllAbsent([BACKSLASH, BACKSLASH], PERCENT, [BACKSLASH, PERCENT]);
      ReplaceAllAbsent([BACKSLASH, BACKSLASH], UNDERSCORE, [BACKSLASH, UNDERSCORE]);
    } else {
      ReplaceOne(u, PERCENT, [BACKSLASH, PERCENT]);
      ReplaceOne(u, UNDERSCORE, [BACKSLASH, UNDERSCORE]);
      ReplaceAllAbsent([BACKSLASH, PERCENT], UNDERSCORE, [BACKSLASH, UNDERSCORE]);
    }
  }

  /** The three ordered replacements escape every unit exactly once. */
  lemma {:induction false} ThreeReplacementsEscapeOnce(t: Text)
    ensures EscapeSearch(t) == EscapeEach(t)
  {
    if t != [] {
      var (u, rest) := ([t[0]], t[1..]);
      assert t == u + rest;
      ReplaceAllConcat(u, rest, BACKSLASH, [BACKSLASH, BACKSLASH]);
      var (u1, rest1) :=
        (ReplaceAll(u, BACKSLASH, [BACKSLASH, BACKSLASH]), ReplaceAll(rest, BACKSLASH, [BACKSLASH, BACKSLASH]));
      ReplaceAllConcat(u1, rest1, PERCENT, [BACKSLASH, PERCENT]);
      ReplaceAllConcat(ReplaceAll(u1, PERCENT, [BACKSLASH, PERCENT]), ReplaceAll(rest1, PERCENT, [BACKSLASH, PERCENT]),
                       UNDERSCORE, [BACKSLASH, UNDERSCORE]);
      EscapeOne(t[0]);
      ThreeReplacementsEscapeOnce(rest);
    }
  }

  // ---------------------------------------------------------------- matching

  lemma {:induction false} PercentMatchesAll(s: Text)
    ensures Like([PERCENT], s)
  {
    assert [PERCENT][1..] == [];
    if s != [] {
      PercentMatchesAll(s[1..]);
    }
  }

  /** An escaped unit matches exactly itself. */
  lemma {:induction false} LikeEscapedUnit(u: CodeUnit, q: Text, s: Text)
    ensures Like((if Special(u) then [BACKSLASH, u] else [u]) + q, s) <==> s != [] && s[0] == u && Like(q, s[1..])
  {
    if Special(u) {
      assert ([BACKSLASH, u] + q)[2..] == q;
    } else {
      assert ([u] + q)[1..] == q;
    }
  }

  lemma {:induction false} EscapedMatchesPrefix(t: Text, s: Text)
    ensures Like(EscapeEach(t) + [PERCENT], s) <==> t <= s
  {
    if t == [] {
      assert EscapeEach(t) + [PERCENT] == [PERCENT];
      PercentMatchesAll(s);
    } else {
      var q := EscapeEach(t[1..]) + [PERCENT];
      assert EscapeEach(t) + [PERCENT] == (if Special(t[0]) then [BACKSLASH, t[0]] else [t[0]]) + q;
      LikeEscapedUnit(t[0], q, s);
      if s != [] {
        EscapedMatchesPrefix(t[1..], s[1..]);
        assert t <= s <==> t[0] == s[0] && t[1..] <= s[1..];
      }
    }
  }

  lemma {:induction false} PercentSkips(q: Text, s: Text)
    ensures Like([PERCENT] + q, s) <==> exists i :: 0 <= i <= |s| && Like(q, s[i..])
  {
    var pattern := [PERCENT] + q;
    assert pattern[1..] == q && s[0..] == s;
    if s != [] {
      PercentSkips(q, s[1..]);
      assert forall i :: 0 <= i <= |s[1..]| ==> s[1..][i..] == s[i + 1..];
      if exists i :: 0 <= i <= |s| && Like(q, s[i..]) {
        var i :| 0 <= i <= |s| && Like(q, s[i..]);
        if i > 0 {
          assert Like(q, s[1..][i - 1..]);
        }
      }
      if Like(pattern, s[1..]) {
        var j :| 0 <= j <= |s[1..]| && Like(q, s[1..][j..]);
        assert Like(q, s[j + 1..]);
      }
    }
  }

  /** The `contains` filter with the escaped search text matches a title exactly when the title contains the text. */
  lemma {:induction false} LikeIsContains(s: Text, t: Text)
    ensures Like(ContainsPattern(EscapeSearch(t)), s) <==> Contains(s, t)
  {
    ThreeReplacementsEscapeOnce(t);
    var q := EscapeEach(t) + [PERCENT];
    assert ContainsPattern(EscapeSearch(t)) == [PERCENT] + q;
    PercentSkips(q, s);
    forall i | 0 <= i <= |s| ensures Like(q, s[i..]) <==> t <= s[i..] {
      EscapedMatchesPrefix(t, s[i..]);
    }
  }

  // ---------------------------------------------------------------- the two filters

  /** Case folding one unit at a time; it neither moves nor creates a special unit. */
  ghost predicate Folds(fold: CodeUnit -> CodeUnit) {
    forall u :: (Special(u) ==> fold(u) == u) && (Special(fold(u)) ==> fold(u) == u)
  }

  function Folded(fold: CodeUnit -> CodeUnit, t: Text): (r: Text)
    ensures |r| == |t|
  {
    seq(|t|, i requires 0 <= i < |t| => fold(t[i]))
  }

  /** The repository's title condition in the database; an empty search text is no condition. */
  predicate PrismaFilter(fold: CodeUnit -> CodeUnit, title: Option<Text>, search: Option<Text>) {
    search.None? || search.value == [] ||
    (title.Some? && Like(Folded(fold, ContainsPattern(EscapeSearch(search.value))), Folded(fold, title.value)))
  }

  /** The same condition in the in-memory repository. */
  ghost predicate InMemoryFilter(fold: CodeUnit -> CodeUnit, title: Option<Text>, search: Option<Text>) {
    search.None? || (title.Some? && Contains(Folded(fold, title.value), Folded(fold, search.value)))
  }

  lemma {:induction false} FoldedEscape(fold: CodeUnit -> CodeUnit, t: Text)
    requires Folds(fold)
    ensures Folded(fold, EscapeEach(t)) == EscapeEach(Folded(fold, t))
  {
    if t != [] {
      FoldedEscape(fold, t[1..]);
      assert Folded(fold, t)[1..] == Folded(fold, t[1..]);
      assert Special(t[0]) <==> Special(fold(t[0]));
      var head := if Special(t[0]) then [BACKSLASH, t[0]] else [t[0]];
      assert Folded(fold, head + EscapeEach(t[1..])) == Folded(fold, head) + Folded(fold, EscapeEach(t[1..]));
      assert fold(BACKSLASH) == BACKSLASH;
    }
  }

  lemma FoldedPattern(fold: CodeUnit -> CodeUnit, t: Text)
    requires Folds(fold)
    ensures Folded(fold, ContainsPattern(EscapeSearch(t))) == ContainsPattern(EscapeSearch(Folded(fold, t)))
  {
    ThreeReplacementsEscapeOnce(t);
    ThreeReplacementsEscapeOnce(Folded(fold, t));
    FoldedEscape(fold, t);
    assert fold(PERCENT) == PERCENT;
    assert Folded(fold, ContainsPattern(EscapeEach(t))) == ContainsPattern(Folded(fold, EscapeEach(t)));
  }

  /** The two repositories filter alike, except that an empty search text hides untitled reviews only in memory. */
  lemma FiltersAgree(fold: CodeUnit -> CodeUnit, title: Option<Text>, search: Option<Text>)
    requires Folds(fold)
    ensures (PrismaFilter(fold, title, search) <==> InMemoryFilter(fold, title, search)) <==>
      !(search == Some([]) && title.None?)
  {
    if search.Some? && title.Some? {
      var s := Folded(fold, title.value);
      if search.value == [] {
        assert Folded(fold, search.value) <= s[0..];
      } else {
        FoldedPattern(fold, search.value);
        LikeIsContains(s, Folded(fold, search.value));
      }
    }
  }

  // ---------------------------------------------------------------- the usage history's id search

  /** escapePrismaLikeSearch of the usage repository: underscores only. */
  function EscapeUnderscores(t: Text): Text {
    ReplaceAll(t, UNDERSCORE, [BACKSLASH, UNDERSCORE])
  }

  /**
    A text no longer than `t` that the half-escaped pattern matches; it is not `t` when `t` has a
    percent sign or backslash.
   */
  function Mismatch(t: Text): (s: Text)
    ensures |s| <= |t|
    ensures (PERCENT in t || BACKSLASH in t) ==> s != t
  {
    if t == [] then []
    else if t[0] == PERCENT then Mismatch(t[1..])
    else if t[0] != BACKSLASH then [t[0]] + Mismatch(t[1..])
    else if |t| == 1 then [PERCENT]
    else if t[1] == UNDERSCORE then [BACKSLASH, 0] + Mismatch(t[2..])
    else [t[1]] + Mismatch(t[2..])
  }

  lemma {:induction false} PercentMatchesNothing(q: Text, s: Text)
    requires Like(q, s)
    ensures Like([PERCENT] + q, s)
  {
    assert ([PERCENT] + q)[1..] == q;
  }

  lemma UnderscoresOne(t: Text)
    requires t != []
    ensures EscapeUnderscores(t)
      == (if t[0] == UNDERSCORE then [BACKSLASH, UNDERSCORE] else [t[0]]) + EscapeUnderscores(t[1..])
  {
  }

  lemma {:induction false} LikeBackslashPair(u: CodeUnit, q: Text, s: Text)
    requires Like(q, s)
    ensures Like([BACKSLASH, u] + q, [u] + s)
    ensures Like([BACKSLASH, BACKSLASH] + ([UNDERSCORE] + q), [BACKSLASH, u] + s)
  {
    assert ([BACKSLASH, u] + q)[2..] == q && ([u] + s)[1..] == s;
    assert ([UNDERSCORE] + q)[1..] == q;
    assert ([BACKSLASH, BACKSLASH] + ([UNDERSCORE] + q))[2..] == [UNDERSCORE] + q;
    assert ([BACKSLASH, u] + s)[1..] == [u] + s;
  }

  lemma {:induction false} LikeLiteral(u: CodeUnit, q: Text, s: Text)
    requires Like(q, s) && u != PERCENT && u != BACKSLASH
    ensures Like((if u == UNDERSCORE then [BACKSLASH, UNDERSCORE] else [u]) + q, [u] + s)
  {
    LikeEscapedUnit(u, q, [u] + s);
    assert ([u] + s)[1..] == s;
  }

  lemma {:induction false} MismatchMatches(t: Text)
    ensures Like(EscapeUnderscores(t) + [PERCENT], Mismatch(t))
  {
    if t == [] {
      assert EscapeUnderscores(t) + [PERCENT] == [PERCENT];
      PercentMatchesAll([]);
    } else {
      UnderscoresOne(t);
      var q := EscapeUnderscores(t[1..]) + [PERCENT];
      assert EscapeUnderscores(t) + [PERCENT] == (if t[0] == UNDERSCORE then [BACKSLASH, UNDERSCORE] else [t[0]]) + q;
      if t[0] == PERCENT {
        MismatchMatches(t[1..]);
        PercentMatchesNothing(q, Mismatch(t[1..]));
      } else if t[0] != BACKSLASH {
        MismatchMatches(t[1..]);
        LikeLiteral(t[0], q, Mismatch(t[1..]));
      } else {
        if |t| >= 2 {
          MismatchMatches(t[2..]);
        }
        BackslashMismatches(t);
      }
    }
  }

  lemma LoneBackslash()
    ensures Like(EscapeUnderscores([BACKSLASH]) + [PERCENT], [PERCENT])
  {
    ReplaceOne(BACKSLASH, UNDERSCORE, [BACKSLASH, UNDERSCORE]);
    assert Like([], []);
    LikeBackslashPair(PERCENT, [], []);
    assert [BACKSLASH] + [PERCENT] == [BACKSLASH, PERCENT] + [];
    assert [PERCENT] + [] == [PERCENT];
  }

  lemma UnderscoresTwo(u: CodeUnit, rest: Text)
    ensures EscapeUnderscores([BACKSLASH, u] + rest) ==
      (if u == UNDERSCORE then [BACKSLASH, BACKSLASH] + ([UNDERSCORE] + EscapeUnderscores(rest))
        else [BACKSLASH, u] + EscapeUnderscores(rest))
  {
    ReplaceAllConcat([BACKSLASH, u], rest, UNDERSCORE, [BACKSLASH, UNDERSCORE]);
    assert [BACKSLASH, u] == [BACKSLASH] + [u];
    ReplaceAllConcat([BACKSLASH], [u], UNDERSCORE, [BACKSLASH, UNDERSCORE]);
    ReplaceOne(BACKSLASH, UNDERSCORE, [BACKSLASH, UNDERSCORE]);
    ReplaceOne(u, UNDERSCORE, [BACKSLASH, UNDERSCORE]);
  }

  lemma {:induction false} BackslashThenUnderscore(e: Text, s: Text)
    requires Like(e + [PERCENT], s)
    ensures Like([BACKSLASH, BACKSLASH] + ([UNDERSCORE] + e) + [PERCENT], [BACKSLASH, 0] + s)
  {
    PairThenPercent(0, e);
    LikeBackslashPair(0, e + [PERCENT], s);
  }

  lemma {:induction false} BackslashThenOther(u: CodeUnit, e: Text, s: Text)
    requires Like(e + [PERCENT], s)
    ensures Like([BACKSLASH, u] + e + [PERCENT], [u] + s)
  {
    PairThenPercent(u, e);
    LikeBackslashPair(u, e + [PERCENT], s);
  }

  lemma {:induction false} BackslashMismatches(t: Text)
    requires t != [] && t[0] == BACKSLASH
    requires |t| >= 2 ==> Like(EscapeUnderscores(t[2..]) + [PERCENT], Mismatch(t[2..]))
    ensures Like(EscapeUnderscores(t) + [PERCENT], Mismatch(t))
  {
    if |t| == 1 {
      assert t == [BACKSLASH];
      LoneBackslash();
    } else {
      PairAndRest(t);
      UnderscoresTwo(t[1], t[2..]);
      if t[1] == UNDERSCORE {
        BackslashThenUnderscore(EscapeUnderscores(t[2..]), Mismatch(t[2..]));
      } else {
        BackslashThenOther(t[1], EscapeUnderscores(t[2..]), Mismatch(t[2..]));
      }
    }
  }

  lemma PairAndRest(t: Text)
    requires |t| >= 2 && t[0] == BACKSLASH
    ensures t == [BACKSLASH, t[1]] + t[2..]
  {
  }

  lemma PairThenPercent(u: CodeUnit, e: Text)
    ensures [BACKSLASH, BACKSLASH] + ([UNDERSCORE] + e) + [PERCENT]
      == [BACKSLASH, BACKSLASH] + ([UNDERSCORE] + (e + [PERCENT]))
    ensures [BACKSLASH, u] + e + [PERCENT] == [BACKSLASH, u] + (e + [PERCENT])
  {
  }

  lemma ContainedInShorter(s: Text, t: Text)
    requires Contains(s, t) && |s| <= |t|
    ensures s == t
  {
    var i :| 0 <= i <= |s| && t <= s[i..];
    assert i == 0 && s[0..] == s;
  }

  /**
    Escaping underscores alone is enough exactly for search texts without percent signs and
    backslashes, which is what the request validation admits.
   */
  lemma UnderscoresSufficeIff(t: Text)
    ensures (forall s :: Like(ContainsPattern(EscapeUnderscores(t)), s) <==> Contains(s, t)) <==>
      PERCENT !in t && BACKSLASH !in t
  {
    if PERCENT !in t && BACKSLASH !in t {
      ReplaceAllAbsent(t, BACKSLASH, [BACKSLASH, BACKSLASH]);
      ReplaceAllAbsent(t, PERCENT, [BACKSLASH, PERCENT]);
      forall s ensures Like(ContainsPattern(EscapeUnderscores(t)), s) <==> Contains(s, t) {
        LikeIsContains(s, t);
      }
    } else {
      var s := Mismatch(t);
      MismatchMatches(t);
      PercentMatchesNothing(EscapeUnderscores(t) + [PERCENT], s);
      assert ContainsPattern(EscapeUnderscores(t)) == [PERCENT] + (EscapeUnderscores(t) + [PERCENT]);
      assert !Contains(s, t) by {
        if Contains(s, t) {
          ContainedInShorter(s, t);
        }
      }
    }
  }
}
