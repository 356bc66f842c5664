/**
 * The string operations the product context relies on: lower-casing character by character,
 * substring search, joining with spaces.
 */
module Text {
  /** What a character becomes in lower case; outside ASCII it may be any text. */
  type Lowering = char -> string

  function AsciiLower(c: char): char {
    if 'A' <= c <= 'Z' then (c as int + 32) as char else c
  }

  /** ASCII characters are lowered as ASCII. */
  ghost predicate LowersAscii(lower: Lowering) {
    forall c: char :: c as int < 128 ==> lower(c) == [AsciiLower(c)]
  }

  function Lower(lower: Lowering, s: string): string {
    if s == "" then "" else lower(s[0]) + Lower(lower, s[1..])
  }

  lemma {:induction false} LowerConcat(lower: Lowering, a: string, b: string)
    ensures Lower(lower, a + b) == Lower(lower, a) + Lower(lower, b)
  {
    if a == "" {
      assert a + b == b;
    } else {
      assert (a + b)[1..] == a[1..] + b;
      LowerConcat(lower, a[1..], b);
    }
  }

  /** `part` starts at position i. */
  predicate Occurs(s: string, part: string, i: int) {
    0 <= i && i + |part| <= |s| && s[i..i + |part|] == part
  }

  predicate Contains(s: string, part: string) {
    exists i :: 0 <= i <= |s| && Occurs(s, part, i)
  }

  function Join(parts: seq<string>): string {
    if parts == [] then ""
    else if |parts| == 1 then parts[0]
    else parts[0] + " " + Join(parts[1..])
  }

  lemma Straddles(a: string, b: string, part: string, i: nat)
    requires Occurs(a + " " + b, part, i) && i <= |a| < i + |part|
    ensures ' ' in part
  {
    var s := a + " " + b;
    assert part[|a| - i] == s[i..i + |part|][|a| - i] == s[|a|] == ' ';
  }

  /** A text with no space cannot straddle one. */
  lemma OccursInOneSide(a: string, b: string, part: string, i: nat)
    requires part != "" && ' ' !in part && Occurs(a + " " + b, part, i)
    ensures Contains(a, part) || Contains(b, part)
  {
    var s, n := a + " " + b, |part|;
    if i <= |a| < i + n { Straddles(a, b, part, i); }
    if i + n <= |a| {
      assert a[i..i + n] == s[i..i + n];
      assert Occurs(a, part, i);
    } else {
      var j := i - |a| - 1;
      assert b[j..j + n] == s[i..i + n];
      assert Occurs(b, part, j);
    }
  }

  lemma ContainsEither(a: string, b: string, part: string)
    requires part != "" && ' ' !in part
    ensures Contains(a + " " + b, part) <==> Contains(a, part) || Contains(b, part)
  {
    var s := a + " " + b;
    if Contains(s, part) {
      var i :| 0 <= i <= |s| && Occurs(s, part, i);
      OccursInOneSide(a, b, part, i);
    }
    if Contains(a, part) {
      var i :| 0 <= i <= |a| && Occurs(a, part, i);
      assert s[i..i + |part|] == a[i..i + |part|];
      assert Occurs(s, part, i);
    }
    if Contains(b, part) {
      var i :| 0 <= i <= |b| && Occurs(b, part, i);
      var j := i + |a| + 1;
      assert s[j..j + |part|] == b[i..i + |part|];
      assert Occurs(s, part, j);
    }
  }

  lemma EmptyContainsNothing(part: string)
    requires part != ""
    ensures !Contains("", part)
  {}

  /** Searching joined parts, once lowered, is searching each part. */
  lemma {:induction false} ContainsJoined(lower: Lowering, parts: seq<string>, part: string)
    requires LowersAscii(lower) && part != "" && ' ' !in part
    ensures Contains(Lower(lower, Join(parts)), part) <==>
      exists k :: 0 <= k < |parts| && Contains(Lower(lower, parts[k]), part)
  {
    if parts == [] {
      EmptyContainsNothing(part);
    } else if |parts| > 1 {
      var rest := parts[1..];
      ContainsJoined(lower, rest, part);
      LowerJoin(lower, parts[0], Join(rest));
      ContainsEither(Lower(lower, parts[0]), Lower(lower, Join(rest)), part);
      if exists k :: 0 <= k < |rest| && Contains(Lower(lower, rest[k]), part) {
        var k :| 0 <= k < |rest| && Contains(Lower(lower, rest[k]), part);
        assert parts[k + 1] == rest[k];
      }
      if exists k :: 0 < k < |parts| && Contains(Lower(lower, parts[k]), part) {
        var k :| 0 < k < |parts| && Contains(Lower(lower, parts[k]), part);
        assert rest[k - 1] == parts[k];
      }
    }
  }

  lemma LowerJoin(lower: Lowering, a: string, b: string)
    requires LowersAscii(lower)
    ensures Lower(lower, a + " " + b) == Lower(lower, a) + " " + Lower(lower, b)
  {
    LowerConcat(lower, a + " ", b);
    LowerConcat(lower, a, " ");
    assert lower(' ') == " ";
    assert Lower(lower, " ") == lower(' ') + Lower(lower, "") == " ";
  }
}
