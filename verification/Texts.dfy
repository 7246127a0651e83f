/** JavaScript's `trim` and `toLowerCase`. */
module Texts {

  /** White space and line terminators, as the language lists them. */
  predicate IsSpace(c: char) {
    c in {' ', '\t', '\n', '\r', '\U{000B}', '\U{000C}', '\U{00A0}', '\U{1680}', '\U{2028}', '\U{2029}',
          '\U{202F}', '\U{205F}', '\U{3000}', '\U{FEFF}'}
    || '\U{2000}' <= c <= '\U{200A}'
  }

  function TrimStart(s: string): (t: string)
    ensures |t| <= |s|
    ensures t == [] || !IsSpace(t[0])
    ensures s == [] || !IsSpace(s[0]) ==> t == s
  {
    if s == [] || !IsSpace(s[0]) then s else TrimStart(s[1..])
  }

  function TrimEnd(s: string): (t: string)
    ensures t <= s
    ensures t == [] || !IsSpace(t[|t| - 1])
    ensures s == [] || !IsSpace(s[|s| - 1]) ==> t == s
  {
    if s == [] || !IsSpace(s[|s| - 1]) then s else TrimEnd(s[..|s| - 1])
  }

  function Trim(s: string): (t: string)
    ensures |t| <= |s|
  {
    TrimEnd(TrimStart(s))
  }

  lemma {:induction false} TrimStartDropsSpaces(s: string) returns (from: nat)
    ensures from <= |s| && TrimStart(s) == s[from..] && forall k :: 0 <= k < from ==> IsSpace(s[k])
  {
    if s == [] || !IsSpace(s[0]) {
      from := 0;
    } else {
      var rest := TrimStartDropsSpaces(s[1..]);
      from := rest + 1;
      assert forall k :: 0 < k < from ==> s[k] == s[1..][k - 1];
    }
  }

  lemma {:induction false} TrimEndDropsSpaces(s: string) returns (until: nat)
    ensures until <= |s| && TrimEnd(s) == s[..until] && forall k :: until <= k < |s| ==> IsSpace(s[k])
  {
    if s == [] || !IsSpace(s[|s| - 1]) {
      until := |s|;
    } else {
      until := TrimEndDropsSpaces(s[..|s| - 1]);
      assert s[..|s| - 1][..until] == s[..until];
      assert forall k :: until <= k < |s| - 1 ==> s[k] == s[..|s| - 1][k];
    }
  }

  /** Trimming drops white space at both ends and nothing else, and all of it. */
  lemma TrimDropsOnlySpaces(s: string) returns (from: nat, until: nat)
    ensures from <= until <= |s| && Trim(s) == s[from..until]
    ensures forall k :: 0 <= k < from || until <= k < |s| ==> IsSpace(s[k])
    ensures from < until ==> !IsSpace(s[from]) && !IsSpace(s[until - 1])
  {
    from := TrimStartDropsSpaces(s);
    var t := s[from..];
    var end := TrimEndDropsSpaces(t);
    until := from + end;
    assert t[..end] == s[from..until];
    assert forall k :: until <= k < |s| ==> s[k] == t[k - from];
    if from < until {
      assert Trim(s)[0] == s[from] && Trim(s)[end - 1] == s[until - 1];
    }
  }

  /** Trimmed text is left alone by a second trim. */
  lemma TrimTwice(s: string)
    ensures Trim(Trim(s)) == Trim(s)
  {
    var t := TrimStart(s);
    if TrimEnd(t) != [] {
      assert TrimEnd(t)[0] == t[0];
    }
  }

  function LowerChar(c: char): char {
    if 'A' <= c <= 'Z' then (c as int + 32) as char else c
  }

  const UPPER := "ABCDEFGHIJKLMNOPQRSTUVWXYZ"
  const LOWER := "abcdefghijklmnopqrstuvwxyz"

  /** Each capital becomes its small letter, and every other character stays. */
  lemma LowersLetters(c: char)
    ensures c !in UPPER ==> LowerChar(c) == c
    ensures forall i :: 0 <= i < 26 && UPPER[i] == c ==> LowerChar(c) == LOWER[i]
  {
    assert forall i :: 0 <= i < 26 ==> UPPER[i] as int == 'A' as int + i && LOWER[i] as int == 'a' as int + i;
    if 'A' <= c <= 'Z' {
      assert UPPER[c as int - 'A' as int] == c;
    }
  }

  /** `toLowerCase`, for the letters addresses are written with. */
  function Lower(s: string): (lower: string)
    ensures |lower| == |s| && forall i :: 0 <= i < |s| ==> lower[i] == LowerChar(s[i])
  {
    seq(|s|, i requires 0 <= i < |s| => LowerChar(s[i]))
  }

  lemma LowerTwice(s: string)
    ensures Lower(Lower(s)) == Lower(s)
  {
    forall i | 0 <= i < |s| ensures Lower(Lower(s))[i] == Lower(s)[i] {}
  }
}
