/** `str` and `int` on natural numbers in base ten. */
module Decimal {

  predicate IsDigit(c: char) { '0' <= c <= '9' }

  predicate AllDigits(s: string) { forall i :: 0 <= i < |s| ==> IsDigit(s[i]) }

  function Digit(d: nat): (c: char)
    requires d < 10
    ensures IsDigit(c) && DigitValue(c) == d
  {
    ('0' as int + d) as char
  }

  function DigitValue(c: char): (d: nat)
    requires IsDigit(c)
    ensures d < 10
  {
    c as int - '0' as int
  }

  function Render(n: nat): string {
    if n < 10 then [Digit(n)] else Render(n / 10) + [Digit(n % 10)]
  }

  function Parse(s: string): nat
    requires AllDigits(s)
  {
    if s == [] then 0 else Parse(s[..|s| - 1]) * 10 + DigitValue(s[|s| - 1])
  }

  /** `int(str(n)) == n`. */
  lemma {:induction false} ParseInvertsRender(n: nat)
    ensures Render(n) != [] && AllDigits(Render(n)) && Parse(Render(n)) == n
  {
    if n >= 10 {
      ParseInvertsRender(n / 10);
      assert Render(n)[..|Render(n)| - 1] == Render(n / 10);
    } else {
      assert [Digit(n)][..0] == [];
    }
  }

  function Power10(k: nat): nat {
    if k == 0 then 1 else 10 * Power10(k - 1)
  }

  /** A number has more than k digits exactly when it is at least ten to the k. */
  lemma {:induction false} RenderedLength(n: nat, k: nat)
    requires k >= 1
    ensures |Render(n)| > k <==> n >= Power10(k)
  {
    if k == 1 {
      assert Power10(1) == 10 * Power10(0);
      if n >= 10 {
        ParseInvertsRender(n / 10);
      }
    } else if n >= 10 {
      RenderedLength(n / 10, k - 1);
    } else {
      PowerIsLarge(k);
    }
  }

  lemma {:induction false} PowerIsLarge(k: nat)
    requires k >= 1
    ensures Power10(k) >= 10
  {
    if k > 1 {
      PowerIsLarge(k - 1);
    }
  }

  /** Two texts that end in the same way after their last separator have the same ending. */
  lemma {:induction false} SameEnding(a: string, b: string, c: char, x: string, y: string)
    requires a + [c] + x == b + [c] + y && c !in x && c !in y
    ensures x == y
  {
    var s := a + [c] + x;
    var r := b + [c] + y;
    assert s[|a|] == c && r[|b|] == c;
    assert forall k :: |a| < k < |s| ==> s[k] == x[k - |a| - 1];
    assert forall k :: |b| < k < |r| ==> r[k] == y[k - |b| - 1];
    assert |a| == |b|;
    assert x == s[|a| + 1..] && y == r[|b| + 1..];
  }
}
