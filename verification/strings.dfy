/** The string operations the plugin relies on: `sep.join(parts)` and ASCII lower-casing. */
module Strings {

  /** Python's `sep.join(parts)`. */
  function Join(sep: string, parts: seq<string>): string
    decreases |parts|
  {
    if |parts| == 0 then ""
    else if |parts| == 1 then parts[0]
    else parts[0] + sep + Join(sep, parts[1..])
  }

  /** `s` occurs as a contiguous piece of `t`. */
  ghost predicate IsInfix(s: string, t: string)
  {
    exists i, j | 0 <= i <= j <= |t| :: t[i..j] == s
  }

  lemma InfixOfExtended(s: string, a: string, t: string, b: string)
    requires IsInfix(s, t)
    ensures IsInfix(s, a + t + b)
  {
    var i, j :| 0 <= i <= j <= |t| && t[i..j] == s;
    assert (a + t + b)[|a| + i..|a| + j] == s;
  }

  /** Every part of a join shows up, unbroken, in the joined string. */
  lemma {:induction false} JoinContainsParts(sep: string, parts: seq<string>, k: int)
    requires 0 <= k < |parts|
    ensures IsInfix(parts[k], Join(sep, parts))
    decreases |parts|
  {
    var joined := Join(sep, parts);
    if |parts| == 1 {
      assert joined[0..|joined|] == parts[0];
    } else if k == 0 {
      assert joined[0..|parts[0]|] == parts[0];
    } else {
      JoinContainsParts(sep, parts[1..], k - 1);
      InfixOfExtended(parts[k], parts[0] + sep, Join(sep, parts[1..]), "");
      assert parts[0] + sep + Join(sep, parts[1..]) + "" == joined;
    }
  }

  /** No part contains the character `c`. */
  ghost predicate Avoids(parts: seq<string>, c: char)
  {
    forall k, i | 0 <= k < |parts| && 0 <= i < |parts[k]| :: parts[k][i] != c
  }

  lemma {:induction false} JoinLongerThanHead(c: char, parts: seq<string>)
    requires |parts| > 1
    ensures |Join([c], parts)| > |parts[0]| && Join([c], parts)[|parts[0]|] == c
  {
  }

  /**
    Joining with a one-character separator loses nothing as long as no part
    contains that character: equal joins of non-empty lists come from equal lists.
   */
  lemma {:induction false} JoinInjective(c: char, a: seq<string>, b: seq<string>)
    requires |a| > 0 && |b| > 0
    requires Avoids(a, c) && Avoids(b, c)
    requires Join([c], a) == Join([c], b)
    ensures a == b
    decreases |a|
  {
    var ja, jb := Join([c], a), Join([c], b);
    if |a| == 1 && |b| == 1 {
    } else if |a| == 1 {
      JoinLongerThanHead(c, b);
      assert false;
    } else if |b| == 1 {
      JoinLongerThanHead(c, a);
      assert false;
    } else {
      JoinLongerThanHead(c, a);
      JoinLongerThanHead(c, b);
      if |a[0]| < |b[0]| {
        assert false;
      } else if |b[0]| < |a[0]| {
        assert false;
      }
      assert a[0] == ja[..|a[0]|] == jb[..|b[0]|] == b[0];
      assert Join([c], a[1..]) == ja[|a[0]| + 1..] == jb[|b[0]| + 1..] == Join([c], b[1..]);
      JoinInjective(c, a[1..], b[1..]);
      assert a == [a[0]] + a[1..] && b == [b[0]] + b[1..];
    }
  }

  /** ASCII lower-casing of one character; every other character is kept. */
  function LowerChar(c: char): char
  {
    if 'A' <= c <= 'Z' then (c as int + 32) as char else c
  }

  /** `s.lower()`, restricted to the ASCII letters. */
  function Lower(s: string): string
  {
    seq(|s|, i requires 0 <= i < |s| => LowerChar(s[i]))
  }
}
