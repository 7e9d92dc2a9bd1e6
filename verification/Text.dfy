/** Strings as the Go library treats them, restricted to ASCII. */
module Text {

  predicate Prefixed(s: string, prefix: string) {
    |prefix| <= |s| && s[..|prefix|] == prefix
  }

  predicate Suffixed(s: string, suffix: string) {
    |suffix| <= |s| && s[|s| - |suffix|..] == suffix
  }

  lemma NotPrefixed(s: string, prefix: string, i: nat)
    requires i < |s| && i < |prefix| && s[i] != prefix[i]
    ensures !Prefixed(s, prefix)
  {
    if |prefix| <= |s| {
      assert s[..|prefix|][i] == s[i];
    }
  }

  /** strings.ReplaceAll for a pattern that is not empty: matches from the left, none
      overlapping. */
  function ReplaceAll(s: string, pattern: string, replacement: string): string
    requires pattern != ""
  {
    if |s| < |pattern| then s
    else if s[..|pattern|] == pattern then replacement + ReplaceAll(s[|pattern|..], pattern, replacement)
    else [s[0]] + ReplaceAll(s[1..], pattern, replacement)
  }

  /** Text in which the pattern cannot begin is passed over. */
  lemma {:induction false} ReplaceAllSkips(t: string, rest: string, pattern: string, replacement: string)
    requires pattern != ""
    requires forall i :: 0 <= i < |t| ==> t[i] != pattern[0]
    ensures ReplaceAll(t + rest, pattern, replacement) == t + ReplaceAll(rest, pattern, replacement)
    decreases |t|
  {
    var s := t + rest;
    if t == "" {
      assert s == rest;
    } else {
      assert s[1..] == t[1..] + rest;
      ReplaceAllSkips(t[1..], rest, pattern, replacement);
      if |s| < |pattern| {
        ReplaceAllShort(rest, pattern, replacement);
      } else {
        assert s[..|pattern|][0] == t[0];
        assert [t[0]] + (t[1..] + ReplaceAll(rest, pattern, replacement)) == t + ReplaceAll(rest, pattern, replacement);
      }
    }
  }

  lemma ReplaceAllShort(s: string, pattern: string, replacement: string)
    requires pattern != "" && |s| < |pattern|
    ensures ReplaceAll(s, pattern, replacement) == s
  {
  }

  /** One character is passed over where the pattern does not begin. */
  lemma ReplaceAllStep(s: string, pattern: string, replacement: string)
    requires pattern != "" && s != "" && !Prefixed(s, pattern)
    ensures ReplaceAll(s, pattern, replacement) == [s[0]] + ReplaceAll(s[1..], pattern, replacement)
  {
    if |s| < |pattern| {
      ReplaceAllShort(s[1..], pattern, replacement);
    }
  }

  lemma ReplaceAllMatch(rest: string, pattern: string, replacement: string)
    requires pattern != ""
    ensures ReplaceAll(pattern + rest, pattern, replacement) == replacement + ReplaceAll(rest, pattern, replacement)
  {
    var s := pattern + rest;
    assert s[..|pattern|] == pattern && s[|pattern|..] == rest;
  }

  /** strings.ToLower on ASCII letters; other characters stay. */
  function Lower(s: string): (r: string)
    ensures |r| == |s|
  {
    seq(|s|, i requires 0 <= i < |s| => LowerChar(s[i]))
  }

  function LowerChar(c: char): char {
    if 'A' <= c <= 'Z' then (c as int + 32) as char else c
  }

  // ---------- decimal numbers ----------

  predicate IsDigit(c: char) { '0' <= c <= '9' }

  function Digit(d: nat): (c: char)
    requires d < 10
    ensures IsDigit(c)
  {
    ('0' as int + d) as char
  }

  function DigitValue(c: char): (d: nat)
    requires IsDigit(c)
    ensures d < 10
  {
    c as int - '0' as int
  }

  /** %d of a natural number. */
  function Dec(n: nat): (s: string)
    ensures |s| >= 1 && forall i :: 0 <= i < |s| ==> IsDigit(s[i])
  {
    if n < 10 then [Digit(n)] else Dec(n / 10) + [Digit(n % 10)]
  }

  /** The value of a string of digits. */
  function Undec(s: string): nat
    requires forall i :: 0 <= i < |s| ==> IsDigit(s[i])
  {
    if s == "" then 0 else 10 * Undec(s[..|s| - 1]) + DigitValue(s[|s| - 1])
  }

  lemma {:induction false} DecRoundTrip(n: nat)
    ensures Undec(Dec(n)) == n
  {
    var s := Dec(n);
    if n < 10 {
      assert s[..0] == "";
    } else {
      DecRoundTrip(n / 10);
      assert s[..|s| - 1] == Dec(n / 10);
    }
  }

  function DecInt(n: int): string {
    if n < 0 then "-" + Dec(-n) else Dec(n)
  }

  lemma DecInjective(a: nat, b: nat)
    requires Dec(a) == Dec(b)
    ensures a == b
  {
    DecRoundTrip(a);
    DecRoundTrip(b);
  }

  lemma DecIntInjective(a: int, b: int)
    requires DecInt(a) == DecInt(b)
    ensures a == b
  {
    var s, t := DecInt(a), DecInt(b);
    assert s[0] == t[0];
    assert a < 0 ==> s[0] == '-' && s[1..] == Dec(-a);
    assert b < 0 ==> t[0] == '-' && t[1..] == Dec(-b);
    if a < 0 && b < 0 {
      DecInjective(-a, -b);
    } else if a >= 0 && b >= 0 {
      DecInjective(a, b);
    }
  }

  lemma DecIntChars(n: int)
    ensures |DecInt(n)| >= 1
    ensures forall i :: 0 <= i < |DecInt(n)| ==> IsDigit(DecInt(n)[i]) || DecInt(n)[i] == '-'
  {
  }
}
