/** Laws of the scalar instructions that fix what they compute. */
module ScalarLaws {
  import opened Isa
  import opened Semantics

  lemma MulSigns(a: int, b: int)
    ensures -a * b == -(a * b) == a * -b && -a * -b == a * b
  {
  }

  /** The quotient and remainder of the absolute values. */
  lemma EuclideanDivision(n: nat, d: nat)
    requires d > 0
    ensures n == n / d * d + n % d && 0 <= n % d < d
  {
  }

  /** Smaller than `y` in absolute value. */
  predicate Below(r: int, y: int) { if y > 0 then -y < r < y else y < r < -y }

  /** A quotient and a remainder of `x` by `y`, the remainder with the sign of `x`. */
  predicate Fits(x: int, y: int, q: int, r: int) {
    x == q * y + r && Below(r, y) && (x >= 0 ==> r >= 0) && (x <= 0 ==> r <= 0)
  }

  lemma TruncationFits(x: int, y: int)
    requires y != 0
    ensures Fits(x, y, TruncDiv(x, y), TruncMod(x, y))
  {
    var n, d := if x >= 0 then x else -x, if y > 0 then y else -y;
    EuclideanDivision(n, d);
    MulSigns(n / d, d);
  }

  /** A multiple of `y` that is smaller than `y` is zero. */
  lemma SmallMultiple(k: int, y: int)
    requires y != 0 && Below(k * y, y)
    ensures k == 0
  {
  }

  /** Division and remainder are the one quotient and remainder that truncation toward zero allows. */
  lemma DivisionTruncates(x: int, y: int, q: int, r: int)
    requires y != 0
    ensures Fits(x, y, q, r) <==> q == Calculate(Div, x, y) && r == Calculate(Mod, x, y)
  {
    hide TruncDiv, TruncMod;
    TruncationFits(x, y);
    var p, s := Calculate(Div, x, y), Calculate(Mod, x, y);
    if Fits(x, y, q, r) {
      assert (q - p) * y == s - r;
      SmallMultiple(q - p, y);
    }
  }

  predicate IsTrit(v: int) { -1 <= v <= 1 }

  /** On trits, TNot turns TAnd into TOr, and TXor is subtraction modulo three. */
  lemma TritLaws(x: int, y: int)
    requires IsTrit(x) && IsTrit(y)
    ensures Moved(TNot, Trit(TAnd, x, y)) == Trit(TOr, Moved(TNot, x), Moved(TNot, y))
    ensures Trit(TAnd, x, y) in {x, y} && Trit(TAnd, x, y) <= x && Trit(TAnd, x, y) <= y
    ensures IsTrit(Trit(TXor, x, y)) && (x - y - Trit(TXor, x, y)) % 3 == 0
  {
  }

  /** The comparisons are one order: the three strict cases exclude each other, and the rest are their negations. */
  lemma ComparisonLaws(x: int, y: int)
    ensures Compare(Less, x, y) <==> Compare(Greater, y, x)
    ensures Compare(Less, x, y) <==> !Compare(GreaterEqual, x, y)
    ensures Compare(Greater, x, y) <==> !Compare(LessEqual, x, y)
    ensures Compare(Equal, x, y) <==> !Compare(NotEqual, x, y)
    ensures Compare(Equal, x, y) <==> Compare(LessEqual, x, y) && Compare(GreaterEqual, x, y)
  {
  }
}
