/** The Python string operations the dashboard relies on: `str.lower`,
    `in` on strings, `str.replace` and `str.strip`. */
module Text {
  import opened Common

  // ---------------------------------------------------------------------
  // Lower-casing
  // ---------------------------------------------------------------------

  function LowerChar(c: char): char {
    if 'A' <= c <= 'Z' then (c as int - 'A' as int + 'a' as int) as char else c
  }

  /** `s.lower()` for ASCII letters; every other character is kept. */
  function Lower(s: string): (r: string)
    ensures |r| == |s|
    ensures forall i :: 0 <= i < |s| ==>
      && !('A' <= r[i] <= 'Z')
      && ('A' <= s[i] <= 'Z' ==> r[i] as int == s[i] as int + 32)
      && (!('A' <= s[i] <= 'Z') ==> r[i] == s[i])
  {
    seq(|s|, i requires 0 <= i < |s| => LowerChar(s[i]))
  }

  /** Lower-casing twice is lower-casing once. */
  lemma LowerIdempotent(s: string)
    ensures Lower(Lower(s)) == Lower(s)
  {
    forall i | 0 <= i < |s|
      ensures Lower(Lower(s))[i] == Lower(s)[i]
    {
      var c := s[i];
      if 'A' <= c <= 'Z' {
        assert LowerChar(c) as int == c as int + 32;
      }
    }
  }

  // ---------------------------------------------------------------------
  // Substring test
  // ---------------------------------------------------------------------

  /** `pat` starts at position `i` of `s`. */
  ghost predicate OccursAt(s: string, pat: string, i: int) {
    0 <= i && i + |pat| <= |s| && s[i..i + |pat|] == pat
  }

  /** The characters of `pat` from index `j` on match `s` from `i + j` on. */
  predicate MatchFrom(s: string, pat: string, i: nat, j: nat)
    requires i + |pat| <= |s|
    decreases |pat| - j
  {
    j >= |pat| || (s[i + j] == pat[j] && MatchFrom(s, pat, i, j + 1))
  }

  /** `pat` starts somewhere at or after position `i` of `s`. */
  predicate ContainsFrom(s: string, pat: string, i: nat)
    decreases |s| - i
  {
    i + |pat| <= |s| && (MatchFrom(s, pat, i, 0) || ContainsFrom(s, pat, i + 1))
  }

  /** `pat in s` for Python strings, tried at every start position from the left. */
  predicate Contains(s: string, pat: string) {
    ContainsFrom(s, pat, 0)
  }

  lemma {:induction false} MatchFromIff(s: string, pat: string, i: nat, j: nat)
    requires i + |pat| <= |s| && j <= |pat|
    ensures MatchFrom(s, pat, i, j) <==> s[i + j..i + |pat|] == pat[j..]
    decreases |pat| - j
  {
    if j < |pat| {
      MatchFromIff(s, pat, i, j + 1);
      assert s[i + j..i + |pat|] == [s[i + j]] + s[i + j + 1..i + |pat|];
      assert pat[j..] == [pat[j]] + pat[j + 1..];
    }
  }

  lemma {:induction false} ContainsFromIff(s: string, pat: string, i: nat)
    ensures ContainsFrom(s, pat, i) <==> exists n :: i <= n && OccursAt(s, pat, n)
    decreases |s| - i
  {
    if i + |pat| <= |s| {
      MatchFromIff(s, pat, i, 0);
      assert pat[0..] == pat;
      assert MatchFrom(s, pat, i, 0) <==> OccursAt(s, pat, i);
      ContainsFromIff(s, pat, i + 1);
      forall n | i <= n && OccursAt(s, pat, n) ensures n == i || (i + 1 <= n && OccursAt(s, pat, n)) {
      }
    }
  }

  /** The scan agrees with the textbook definition of a substring. */
  lemma ContainsIff(s: string, pat: string)
    ensures Contains(s, pat) <==> exists n :: OccursAt(s, pat, n)
  {
    ContainsFromIff(s, pat, 0);
  }

  // ---------------------------------------------------------------------
  // Replacement
  // ---------------------------------------------------------------------

  /** `s.replace(pat, rep)`: every non-overlapping occurrence of `pat`,
      found from left to right, is replaced by `rep`. Every call site in
      the dashboard uses a non-empty literal for `pat`. */
  function ReplaceAll(s: string, pat: string, rep: string): string
    requires pat != []
    decreases |s|
  {
    if |s| < |pat| then s
    else if s[..|pat|] == pat then rep + ReplaceAll(s[|pat|..], pat, rep)
    else [s[0]] + ReplaceAll(s[1..], pat, rep)
  }

  /** Reference definition: `s` without any `c`. */
  function Drop(s: string, c: char): (r: string)
    ensures c !in r
    ensures forall x :: x in r ==> x in s
  {
    if s == [] then [] else (if s[0] == c then [] else [s[0]]) + Drop(s[1..], c)
  }

  /** Reference definition: `s` with every `c` turned into `d`. */
  function Subst(s: string, c: char, d: char): (r: string)
    ensures |r| == |s|
    ensures forall x :: x in r ==> x == d || (x in s && x != c)
  {
    seq(|s|, i requires 0 <= i < |s| => if s[i] == c then d else s[i])
  }

  /** An occurrence past the first position is an occurrence in the tail. */
  lemma OccursInTail(s: string, pat: string, n: int)
    requires |s| > 0 && n >= 1
    ensures OccursAt(s, pat, n) <==> OccursAt(s[1..], pat, n - 1)
  {
    if n + |pat| <= |s| {
      assert s[1..][n - 1..n - 1 + |pat|] == s[n..n + |pat|];
    }
  }

  /** A pattern with a character that `s` lacks does not occur in `s`. */
  lemma AbsentCharNotContained(s: string, pat: string, k: int)
    requires 0 <= k < |pat| && pat[k] !in s
    ensures !Contains(s, pat)
  {
    ContainsIff(s, pat);
    forall n | 0 <= n && n + |pat| <= |s| ensures !OccursAt(s, pat, n) {
      assert s[n..n + |pat|][k] == s[n + k];
    }
  }

  /** Where `pat` does not occur, replacing it changes nothing. */
  lemma {:induction false} ReplaceNothingFound(s: string, pat: string, rep: string)
    requires pat != [] && !Contains(s, pat)
    ensures ReplaceAll(s, pat, rep) == s
    decreases |s|
  {
    ContainsIff(s, pat);
    if |s| >= |pat| {
      assert !OccursAt(s, pat, 0);
      assert s[0..|pat|] == s[..|pat|];
      forall n | 0 <= n ensures !OccursAt(s[1..], pat, n) {
        OccursInTail(s, pat, n + 1);
      }
      ContainsIff(s[1..], pat);
      ReplaceNothingFound(s[1..], pat, rep);
      assert s == [s[0]] + s[1..];
    }
  }

  /** Replacement brings in no character that is in neither `s` nor `rep`. */
  lemma {:induction false} ReplaceKeepsAbsent(s: string, pat: string, rep: string, x: char)
    requires pat != [] && x !in s && x !in rep
    ensures x !in ReplaceAll(s, pat, rep)
    decreases |s|
  {
    if |s| < |pat| {
    } else if s[..|pat|] == pat {
      ReplaceKeepsAbsent(s[|pat|..], pat, rep, x);
    } else {
      ReplaceKeepsAbsent(s[1..], pat, rep, x);
    }
  }

  /** Replacing a single character by nothing is deleting it. */
  lemma {:induction false} ReplaceCharByNothing(s: string, c: char)
    ensures ReplaceAll(s, [c], "") == Drop(s, c)
    decreases |s|
  {
    if s != [] {
      ReplaceCharByNothing(s[1..], c);
      if s[0] == c {
        assert s[..1] == [c];
      }
    }
  }

  /** Replacing one character by one character substitutes it in place. */
  lemma {:induction false} ReplaceCharByChar(s: string, c: char, d: char)
    ensures ReplaceAll(s, [c], [d]) == Subst(s, c, d)
    decreases |s|
  {
    if s != [] {
      ReplaceCharByChar(s[1..], c, d);
      if s[0] == c {
        assert s[..1] == [c];
      }
      assert Subst(s, c, d) == Subst(s[..1], c, d) + Subst(s[1..], c, d);
    }
  }

  // ---------------------------------------------------------------------
  // Whitespace trimming
  // ---------------------------------------------------------------------

  /** The characters for which Python's `str.isspace()` holds. */
  predicate IsSpace(c: char) {
    c == ' ' || ('\t' <= c <= '\r') || ('\U{1C}' <= c <= '\U{1F}')
    || c == '\U{85}' || c == '\U{A0}' || c == '\U{1680}'
    || ('\U{2000}' <= c <= '\U{200A}') || c == '\U{2028}' || c == '\U{2029}'
    || c == '\U{202F}' || c == '\U{205F}' || c == '\U{3000}'
  }

  /** `s.lstrip()`: the suffix left once every leading space is gone. */
  function StripLeft(s: string): (r: string)
    ensures |r| <= |s| && r == s[|s| - |r|..]
    ensures forall i :: 0 <= i < |s| - |r| ==> IsSpace(s[i])
    ensures r == [] || !IsSpace(r[0])
  {
    if s != [] && IsSpace(s[0]) then StripLeft(s[1..]) else s
  }

  /** `s.rstrip()`: the prefix left once every trailing space is gone. */
  function StripRight(s: string): (r: string)
    ensures |r| <= |s| && r == s[..|r|]
    ensures forall i :: |r| <= i < |s| ==> IsSpace(s[i])
    ensures r == [] || !IsSpace(r[|r| - 1])
  {
    if s != [] && IsSpace(s[|s| - 1]) then StripRight(s[..|s| - 1]) else s
  }

  /** `r` is a slice of `s` with nothing but white space cut from either end. */
  ghost predicate TrimmedFrom(r: string, s: string) {
    exists i, j :: 0 <= i <= j <= |s| && r == s[i..j]
                   && (forall k :: 0 <= k < i ==> IsSpace(s[k]))
                   && (forall k :: j <= k < |s| ==> IsSpace(s[k]))
  }

  /** Stripping the left end and then the right end cuts only white space. */
  lemma StripBothTrims(s: string)
    ensures TrimmedFrom(StripRight(StripLeft(s)), s)
  {
    var l := StripLeft(s);
    var r := StripRight(l);
    var i := |s| - |l|;
    var j := i + |r|;
    assert r == s[i..j];
    forall k | j <= k < |s| ensures IsSpace(s[k]) {
      assert s[k] == l[k - i];
    }
  }

  /** `s.strip()`. */
  function Strip(s: string): (r: string)
    ensures r == [] || (!IsSpace(r[0]) && !IsSpace(r[|r| - 1]))
    ensures TrimmedFrom(r, s)
  {
    StripBothTrims(s);
    StripRight(StripLeft(s))
  }

  // ---------------------------------------------------------------------
  // Numbers as text
  // ---------------------------------------------------------------------

  function DigitChar(d: nat): char
    requires d < 10
  {
    ('0' as int + d) as char
  }

  predicate IsDigit(c: char) {
    '0' <= c <= '9'
  }

  /** The number a string of decimal digits denotes, most significant first. */
  function DigitsValue(s: string): nat
    requires forall i :: 0 <= i < |s| ==> IsDigit(s[i])
  {
    if s == [] then 0
    else
      assert IsDigit(s[|s| - 1]);
      DigitsValue(s[..|s| - 1]) * 10 + (s[|s| - 1] as int - '0' as int)
  }

  /** The position of the first `c` in `s`, if any. */
  function IndexOf(s: string, c: char): (k: Option<nat>)
    ensures k.Some? ==> k.value < |s| && s[k.value] == c && c !in s[..k.value]
    ensures k.None? ==> c !in s
  {
    if s == [] then None
    else if s[0] == c then Some(0)
    else match IndexOf(s[1..], c)
      case None => None
      case Some(i) => assert s[..i + 1] == [s[0]] + s[1..][..i]; Some(i + 1)
  }

  /** In digits followed by a point, the first point is the one after the digits. */
  lemma IndexOfPointAfterDigits(ip: string, rest: string)
    requires forall i :: 0 <= i < |ip| ==> IsDigit(ip[i])
    ensures IndexOf(ip + "." + rest, '.') == Some(|ip|)
  {
    var u := ip + "." + rest;
    if ip != [] {
      assert IsDigit(ip[0]);
      assert u[1..] == ip[1..] + "." + rest;
      IndexOfPointAfterDigits(ip[1..], rest);
    }
  }

  /** `str(n)` for a natural number: its decimal digits, read back as `n`,
      with no leading zero. */
  function NatToString(n: nat): (r: string)
    ensures |r| > 0
    ensures forall i :: 0 <= i < |r| ==> IsDigit(r[i])
    ensures DigitsValue(r) == n
    ensures r[0] == '0' ==> r == "0"
  {
    if n < 10 then [DigitChar(n)]
    else
      var p := NatToString(n / 10);
      assert (p + [DigitChar(n % 10)])[..|p|] == p;
      p + [DigitChar(n % 10)]
  }
}
