/** Escaping a search text for SQL LIKE (`internal/memory/store.go`). */
module LikeSearch {
  import opened Text

  const ESC := '\\'

  function EscapeChar(c: char): string {
    if c == ESC then [ESC, ESC] else if c == '%' then [ESC, '%'] else if c == '_' then [ESC, '_'] else [c]
  }

  function EscapeLike(s: string): string {
    if s == "" then "" else EscapeChar(s[0]) + EscapeLike(s[1..])
  }

  /** `s LIKE pattern ESCAPE '\'`, where `fold` says which letters LIKE takes for the same. */
  predicate Like(pattern: string, s: string, fold: char -> char)
    decreases |pattern|, |s|
  {
    if pattern == "" then s == ""
    else if pattern[0] == '%' then
      Like(pattern[1..], s, fold) || (s != "" && Like(pattern, s[1..], fold))
    else if pattern[0] == '_' then
      s != "" && Like(pattern[1..], s[1..], fold)
    else if pattern[0] == ESC then
      |pattern| > 1 && s != "" && fold(s[0]) == fold(pattern[1]) && Like(pattern[2..], s[1..], fold)
    else
      s != "" && fold(s[0]) == fold(pattern[0]) && Like(pattern[1..], s[1..], fold)
  }

  /** The texts agree letter by letter. */
  predicate Same(a: string, b: string, fold: char -> char) {
    |a| == |b| && forall i :: 0 <= i < |a| ==> fold(a[i]) == fold(b[i])
  }

  /** `q` occurs in `s` at position `i`. */
  predicate OccursAt(q: string, s: string, i: nat, fold: char -> char) {
    i + |q| <= |s| && Same(s[i..i + |q|], q, fold)
  }

  lemma {:induction false} PercentMatches(p: string, s: string, fold: char -> char)
    ensures Like("%" + p, s, fold) <==> exists i :: 0 <= i <= |s| && Like(p, s[i..], fold)
    decreases |s|
  {
    var pattern := "%" + p;
    assert pattern[1..] == p;
    assert s[0..] == s;
    if s == "" {
    } else {
      PercentMatches(p, s[1..], fold);
      if i :| 0 <= i <= |s[1..]| && Like(p, s[1..][i..], fold) {
        assert s[1..][i..] == s[i + 1..];
      }
      if i :| 0 < i <= |s| && Like(p, s[i..], fold) {
        assert s[1..][i - 1..] == s[i..];
      }
    }
  }

  lemma EscapedChar(c: char, rest: string, s: string, fold: char -> char)
    ensures Like(EscapeChar(c) + rest, s, fold) <==> s != "" && fold(s[0]) == fold(c) && Like(rest, s[1..], fold)
  {
    var e := EscapeChar(c);
    assert (e + rest)[|e|..] == rest;
  }

  lemma SameStep(q: string, s: string, fold: char -> char)
    requires q != "" && s != "" && |q| <= |s|
    ensures Same(s[..|q|], q, fold) <==> fold(s[0]) == fold(q[0]) && Same(s[1..][..|q| - 1], q[1..], fold)
  {
    var a, b := s[..|q|], s[1..][..|q| - 1];
    assert forall i :: 0 <= i < |b| ==> b[i] == a[i + 1];
    if fold(s[0]) == fold(q[0]) && Same(b, q[1..], fold) {
      forall i | 0 <= i < |q|
        ensures fold(a[i]) == fold(q[i])
      {
        if i > 0 {
          assert a[i] == b[i - 1] && q[i] == q[1..][i - 1];
        }
      }
    }
    if Same(a, q, fold) {
      forall i | 0 <= i < |b|
        ensures fold(b[i]) == fold(q[1..][i])
      {
        assert b[i] == a[i + 1] && q[1..][i] == q[i + 1];
      }
    }
  }

  /** An escaped text in front of a pattern matches itself, letter for letter, and nothing else. */
  lemma {:induction false} EscapedMatchesItself(q: string, p: string, s: string, fold: char -> char)
    ensures Like(EscapeLike(q) + p, s, fold) <==>
      |q| <= |s| && Same(s[..|q|], q, fold) && Like(p, s[|q|..], fold)
    decreases |q|
  {
    if q == "" {
      assert EscapeLike(q) + p == p;
      assert s[0..] == s;
    } else {
      EscapedChar(q[0], EscapeLike(q[1..]) + p, s, fold);
      ConcatAssoc(EscapeChar(q[0]), EscapeLike(q[1..]), p);
      if s != "" {
        EscapedMatchesItself(q[1..], p, s[1..], fold);
        if |q| <= |s| {
          assert s[1..][|q| - 1..] == s[|q|..];
          SameStep(q, s, fold);
        }
      }
    }
  }

  lemma {:induction false} PercentMatchesAll(s: string, fold: char -> char)
    ensures Like("%", s, fold)
    decreases |s|
  {
    if s == "" {
    } else {
      PercentMatchesAll(s[1..], fold);
    }
  }

  /** The pattern SearchTasks builds matches exactly the texts in which the query occurs literally, up to the
      letters LIKE takes for the same; its wildcards and escapes mean nothing special. */
  lemma SearchIsLiteral(q: string, s: string, fold: char -> char)
    ensures Like("%" + EscapeLike(q) + "%", s, fold) <==> exists i: nat :: OccursAt(q, s, i, fold)
  {
    var inner := EscapeLike(q) + "%";
    assert "%" + EscapeLike(q) + "%" == "%" + inner;
    PercentMatches(inner, s, fold);
    forall i: nat | i <= |s|
      ensures Like(inner, s[i..], fold) <==> OccursAt(q, s, i, fold)
    {
      EscapedMatchesItself(q, "%", s[i..], fold);
      if |q| <= |s[i..]| {
        assert s[i..][..|q|] == s[i..i + |q|];
        PercentMatchesAll(s[i..][|q|..], fold);
      }
    }
  }

  /** Nor is the query lost: different queries give different patterns. */
  lemma {:induction false} EscapeIsInjective(a: string, b: string)
    requires EscapeLike(a) == EscapeLike(b)
    ensures a == b
  {
    var id := (c: char) => c;
    assert EscapeLike(a) + "" == EscapeLike(a) && EscapeLike(b) + "" == EscapeLike(b);
    EscapedMatchesItself(a, "", a, id);
    EscapedMatchesItself(b, "", a, id);
    assert a[..|a|] == a;
    assert Same(a[..|b|], b, id);
    assert a[..|b|] == b;
  }
}
