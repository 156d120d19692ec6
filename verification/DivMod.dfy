/** Division by a variable. */
module DivMod {

  lemma TimesLess(a: int, b: int, d: nat)
    requires a < b
    ensures a * d + d <= b * d
  {
    assert (a + 1) * d == a * d + d;
  }

  lemma Fundamental(b: nat, d: nat)
    requires d >= 1
    ensures b == (b / d) * d + b % d && 0 <= b % d < d
  {
  }

  lemma QuotientUnique(b: nat, q: nat, r: nat, d: nat)
    requires d >= 1 && b == q * d + r && r < d
    ensures b / d == q && b % d == r
  {
    Fundamental(b, d);
    if b / d < q {
      TimesLess(b / d, q, d);
    } else if b / d > q {
      TimesLess(q, b / d, d);
    }
  }

  /** The remainder by repeated subtraction. Specifications use it so that `%` by a variable stays out of them. */
  function Mod(b: nat, d: nat): (r: nat)
    requires d >= 1
    ensures r < d && r <= b
  {
    if b < d then b else Mod(b - d, d)
  }

  lemma {:induction false} ModIsRemainder(b: nat, d: nat)
    requires d >= 1
    ensures Mod(b, d) == b % d
  {
    if b < d {
      QuotientUnique(b, 0, b, d);
    } else {
      ModIsRemainder(b - d, d);
      Fundamental(b - d, d);
      QuotientUnique(b, (b - d) / d + 1, (b - d) % d, d);
    }
  }

  /** Within one stretch of `d` from a multiple on, the remainder is the distance from its start. */
  lemma {:induction false} ModInStretch(start: nat, i: nat, d: nat)
    requires d >= 1 && Mod(start, d) == 0 && i < d
    ensures Mod(start + i, d) == i
  {
    if start >= d {
      ModInStretch(start - d, i, d);
    }
  }
}
