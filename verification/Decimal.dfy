/** The decimal text that "%d" prints, and identifiers of the form prefix_number. */
module Decimals {

  function Digit(d: nat): char
    requires d < 10
  {
    '0' + d as char
  }

  function Decimal(n: nat): (s: string)
    ensures s != []
  {
    if n < 10 then [Digit(n)] else Decimal(n / 10) + [Digit(n % 10)]
  }

  lemma {:induction false} DecimalHasNoUnderscore(n: nat)
    ensures '_' !in Decimal(n)
  {
    if n >= 10 {
      DecimalHasNoUnderscore(n / 10);
    }
  }

  lemma {:induction false} DecimalInjective(m: nat, n: nat)
    requires Decimal(m) == Decimal(n)
    ensures m == n
  {
    var s := Decimal(m);
    assert s[|s| - 1] == Digit(m % 10) == Digit(n % 10);
    if m >= 10 && n >= 10 {
      assert Decimal(m / 10) == s[..|s| - 1] == Decimal(n / 10);
      DecimalInjective(m / 10, n / 10);
    } else {
      assert |s| == 1;
    }
  }

  /** What fmt.Sprintf("%s_%d", prefix, n) prints. */
  function Numbered(prefix: string, n: nat): string {
    prefix + "_" + Decimal(n)
  }

  /** The number after the last underscore and the text before it can both be read back. */
  lemma NumberedInjective(p: string, m: nat, q: string, n: nat)
    requires Numbered(p, m) == Numbered(q, n)
    ensures p == q && m == n
  {
    DecimalHasNoUnderscore(m);
    DecimalHasNoUnderscore(n);
    SplitAtLast(p, Decimal(m), q, Decimal(n));
    DecimalInjective(m, n);
  }

  lemma SplitAtLast(p: string, x: string, q: string, y: string)
    requires p + "_" + x == q + "_" + y && '_' !in x && '_' !in y
    ensures p == q && x == y
  {
    var s := p + "_" + x;
    assert s[|p|] == '_' && s[|q|] == '_';
    assert p == s[..|p|] && q == s[..|q|];
    assert x == s[|p| + 1..] && y == s[|q| + 1..];
  }
}
