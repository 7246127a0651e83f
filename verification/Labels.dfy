/** Colon-joined text keys: when splitting them back is unambiguous. */
module Labels {

  predicate ColonFree(s: string) {
    ':' !in s
  }

  /** The part of a key before its first colon is determined by the key. */
  lemma FirstColonSplits(a: string, x: string, b: string, y: string)
    requires ColonFree(a) && ColonFree(b)
    requires a + ":" + x == b + ":" + y
    ensures a == b && x == y
  {
    var key := a + ":" + x;
    assert key[|a|] == ':' && (b + ":" + y)[|b|] == ':';
    assert forall i :: 0 <= i < |a| ==> key[i] == a[i];
    assert forall i :: 0 <= i < |b| ==> (b + ":" + y)[i] == b[i];
    assert |a| == |b|;
    assert a == key[..|a|] && b == key[..|a|];
    assert x == key[|a| + 1..] && y == key[|a| + 1..];
  }

  function Digit(d: nat): (c: char)
    requires d < 10
    ensures '0' <= c <= '9'
  {
    ('0' as int + d) as char
  }

  /** `String(n)` for a count. */
  function Decimal(n: nat): (s: string)
    ensures s != [] && ColonFree(s)
  {
    if n < 10 then [Digit(n)] else Decimal(n / 10) + [Digit(n % 10)]
  }

  lemma {:induction false} DecimalIsInjective(m: nat, n: nat)
    requires Decimal(m) == Decimal(n)
    ensures m == n
  {
    var s, t := Decimal(m), Decimal(n);
    assert s[|s| - 1] == Digit(m % 10) && t[|t| - 1] == Digit(n % 10);
    assert m % 10 == n % 10;
    if 10 <= m && 10 <= n {
      assert Decimal(m / 10) == s[..|s| - 1] && Decimal(n / 10) == t[..|t| - 1];
      DecimalIsInjective(m / 10, n / 10);
    }
  }
}
