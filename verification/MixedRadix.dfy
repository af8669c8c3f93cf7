/** Mixed-radix numbers of four digits, the shape that both tensor layouts have. */
module MixedRadix {

  /** Digits from the most to the least significant. */
  datatype Digits = Digits(a: int, b: int, c: int, d: int)

  /** The radices of digits `b`, `c` and `d`; digit `a` is unbounded. */
  datatype Radix = Radix(b: int, c: int, d: int)

  predicate Proper(x: Digits, r: Radix) {
    0 <= x.a && 0 <= x.b < r.b && 0 <= x.c < r.c && 0 <= x.d < r.d
  }

  function Rank(x: Digits, r: Radix): int {
    ((x.a * r.b + x.b) * r.c + x.c) * r.d + x.d
  }

  function Unrank(s: int, r: Radix): Digits
    requires r.b > 0 && r.c > 0 && r.d > 0
  {
    Digits(s / r.d / r.c / r.b, s / r.d / r.c % r.b, s / r.d % r.c, s % r.d)
  }

  predicate LexLess(x: Digits, y: Digits) {
    x.a < y.a || (x.a == y.a && (x.b < y.b || (x.b == y.b && (x.c < y.c || (x.c == y.c && x.d < y.d)))))
  }

  lemma Distribute(a: int, b: int, c: int)
    ensures (a + b) * c == a * c + b * c
  {
  }

  lemma NonNegative(a: int, b: int)
    requires a >= 0 && b >= 0
    ensures a * b >= 0
  {
  }

  /** One digit: splitting off the last digit respects the order. */
  lemma StepOrder(q: int, r: int, q': int, r': int, b: int)
    requires 0 <= r < b && 0 <= r' < b
    ensures q * b + r < q' * b + r' <==> q < q' || (q == q' && r < r')
  {
    if q < q' {
      assert (q + 1) * b <= q' * b;
    } else if q' < q {
      assert (q' + 1) * b <= q * b;
    }
  }

  lemma StepDivMod(q: int, r: int, b: int)
    requires 0 <= r < b
    ensures (q * b + r) / b == q && (q * b + r) % b == r
  {
    var x := q * b + r;
    assert x == (x / b) * b + x % b;
    StepOrder(q, r, x / b, x % b, b);
    StepOrder(x / b, x % b, q, r, b);
  }

  lemma RankOrder(x: Digits, y: Digits, r: Radix)
    requires Proper(x, r) && Proper(y, r)
    ensures Rank(x, r) < Rank(y, r) <==> LexLess(x, y)
    ensures Rank(x, r) == Rank(y, r) <==> x == y
  {
    StepOrder(x.a, x.b, y.a, y.b, r.b);
    StepOrder(y.a, y.b, x.a, x.b, r.b);
    var p, q := x.a * r.b + x.b, y.a * r.b + y.b;
    StepOrder(p, x.c, q, y.c, r.c);
    StepOrder(q, y.c, p, x.c, r.c);
    StepOrder(p * r.c + x.c, x.d, q * r.c + y.c, y.d, r.d);
    StepOrder(q * r.c + y.c, y.d, p * r.c + x.c, x.d, r.d);
  }

  lemma UnrankRank(x: Digits, r: Radix)
    requires Proper(x, r)
    ensures Unrank(Rank(x, r), r) == x
  {
    var p := x.a * r.b + x.b;
    StepDivMod(p * r.c + x.c, x.d, r.d);
    StepDivMod(p, x.c, r.c);
    StepDivMod(x.a, x.b, r.b);
  }

  lemma RankUnrank(s: int, r: Radix)
    requires r.b > 0 && r.c > 0 && r.d > 0 && s >= 0
    ensures Proper(Unrank(s, r), r) && Rank(Unrank(s, r), r) == s
  {
    var x := Unrank(s, r);
    assert s == (s / r.d) * r.d + x.d;
    assert s / r.d == (s / r.d / r.c) * r.c + x.c;
    assert s / r.d / r.c == x.a * r.b + x.b;
  }

  /** A number is below `n` full leading units exactly when its leading digit is below `n`. */
  lemma RankBound(x: Digits, r: Radix, n: int)
    requires Proper(x, r)
    ensures 0 <= Rank(x, r)
    ensures Rank(x, r) < n * r.b * r.c * r.d <==> x.a < n
  {
    var z := Digits(n, 0, 0, 0);
    assert Rank(z, r) == n * r.b * r.c * r.d;
    var p := x.a * r.b + x.b;
    StepOrder(x.a, x.b, n, 0, r.b);
    StepOrder(p, x.c, n * r.b, 0, r.c);
    StepOrder(p * r.c + x.c, x.d, n * r.b * r.c, 0, r.d);
    assert p >= 0 && p * r.c >= 0;
  }
}
