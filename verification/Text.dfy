/** Rendering of integers and the splitting facts that colon-separated names rely on. */
module Text {

  function Digit(d: nat): (c: char)
    requires d < 10
    ensures '0' <= c <= '9'
  {
    d as char + '0'
  }

  function Natural(n: nat): string
    decreases n
  {
    if n < 10 then [Digit(n)] else Natural(n / 10) + [Digit(n % 10)]
  }

  /** The text of `str(n)` for a Python int. */
  function Decimal(n: int): string {
    if n < 0 then "-" + Natural(-n) else Natural(n)
  }

  predicate AllDigits(s: string) {
    forall i | 0 <= i < |s| :: '0' <= s[i] <= '9'
  }

  predicate ColonFree(s: string) {
    forall i | 0 <= i < |s| :: s[i] != ':'
  }

  lemma {:induction false} NaturalIsDigits(n: nat)
    ensures |Natural(n)| > 0 && AllDigits(Natural(n))
    decreases n
  {
    if n >= 10 {
      NaturalIsDigits(n / 10);
    }
  }

  lemma {:induction false} NaturalInjective(m: nat, n: nat)
    requires Natural(m) == Natural(n)
    ensures m == n
    decreases m
  {
    NaturalIsDigits(m / 10);
    NaturalIsDigits(n / 10);
    var a, b := Natural(m), Natural(n);
    if m >= 10 && n >= 10 {
      assert a[..|a| - 1] == Natural(m / 10) && b[..|b| - 1] == Natural(n / 10);
      NaturalInjective(m / 10, n / 10);
      assert a[|a| - 1] == Digit(m % 10) && b[|b| - 1] == Digit(n % 10);
    } else {
      assert |a| == 1 || |b| == 1;
      assert a[0] == b[0];
    }
  }

  lemma {:induction false} DecimalColonFree(n: int)
    ensures ColonFree(Decimal(n))
  {
    NaturalIsDigits(if n < 0 then -n else n);
  }

  lemma {:induction false} DecimalSigned(n: int)
    ensures n < 0 ==> Decimal(n)[0] == '-' && Decimal(n)[1..] == Decimal(-n)
    ensures n >= 0 ==> AllDigits(Decimal(n))
  {
    NaturalIsDigits(if n < 0 then -n else n);
    hide Natural;
  }

  lemma {:induction false} DecimalInjective(m: int, n: int)
    requires Decimal(m) == Decimal(n)
    ensures m == n
  {
    var a, b := if m < 0 then -m else m, if n < 0 then -n else n;
    NaturalIsDigits(a);
    NaturalIsDigits(b);
    assert (m < 0) == (n < 0) by {
      assert Decimal(m)[0] == Decimal(n)[0];
    }
    if m < 0 {
      assert Decimal(m)[1..] == Natural(a) && Decimal(n)[1..] == Natural(b);
    }
    NaturalInjective(a, b);
  }

  /** A colon-free head is recovered from the text up to the first colon. */
  lemma {:induction false} SplitAtFirstColon(a: string, x: string, b: string, y: string)
    requires ColonFree(a) && ColonFree(b)
    requires a + ":" + x == b + ":" + y
    ensures a == b && x == y
  {
    var s, t := a + ":" + x, b + ":" + y;
    assert s[|a|] == ':' && t[|b|] == ':';
    assert t[|a|] == ':' && s[|b|] == ':';
    assert |a| == |b|;
    assert a == s[..|a|] && b == t[..|b|];
    assert x == s[|a| + 1..] && y == t[|b| + 1..];
  }

  /** A digit tail is recovered from the text after the last occurrence of a non-digit mark. */
  lemma {:induction false} SplitBeforeDigits(x: string, mark: char, m: nat, y: string, n: nat)
    requires !('0' <= mark <= '9')
    requires x + [mark] + Natural(m) == y + [mark] + Natural(n)
    ensures x == y && m == n
  {
    NaturalIsDigits(m);
    NaturalIsDigits(n);
    var a, b := Natural(m), Natural(n);
    var s, t := x + [mark] + a, y + [mark] + b;
    assert s[|x|] == mark && t[|y|] == mark;
    assert s[|y|] == mark && t[|x|] == mark;
    assert |x| == |y|;
    assert x == s[..|x|] && y == t[..|y|];
    assert a == s[|x| + 1..] && b == t[|y| + 1..];
    NaturalInjective(m, n);
  }
}
