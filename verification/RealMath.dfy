/** Small facts about products and quotients of reals, one step each. */
module RealMath {
  import opened Json

  lemma QuotientIs(a: real, b: real, q: real)
    requires b != 0.0 && a == q * b
    ensures a / b == q
  {
  }

  lemma QuotientTimes(a: real, b: real)
    requires b != 0.0
    ensures (a / b) * b == a
  {
  }

  lemma ProductNonnegative(a: real, b: real)
    requires a >= 0.0 && b >= 0.0
    ensures a * b >= 0.0
  {
  }

  lemma PositiveProduct(a: real, b: real)
    requires a > 0.0 && b > 0.0
    ensures a * b > 0.0
  {
  }

  lemma MulLe(a: real, b: real, k: real)
    requires a <= b && k >= 0.0
    ensures a * k <= b * k
  {
  }

  lemma MulLt(a: real, b: real, k: real)
    requires a < b && k > 0.0
    ensures a * k < b * k
  {
  }

  lemma Distribute(a: real, b: real, k: real)
    ensures (a + b) * k == a * k + b * k
    ensures (a - b) * k == a * k - b * k
  {
  }

  lemma QuotientNonnegative(a: real, n: real)
    requires a >= 0.0 && n > 0.0
    ensures a / n >= 0.0
  {
  }

  lemma SquareNonnegative(x: real)
    ensures x * x >= 0.0
  {
  }

  lemma SquareOfProduct(a: real, b: real)
    ensures (a * b) * (a * b) == (a * a) * (b * b)
  {
    Reassociate(a, b, a * b);
    Reassociate(a, a * b, b);
    Reassociate(a, a, b);
    Reassociate(a * a, b, b);
  }

  lemma Reassociate(a: real, b: real, c: real)
    ensures (a * b) * c == a * (b * c)
    ensures (a * b) * c == (b * a) * c
  {
  }

  /** Comparing non-negative numbers is comparing their squares. */
  lemma SquaresOrder(a: real, b: real)
    requires a >= 0.0 && b >= 0.0
    ensures a <= b <==> a * a <= b * b
  {
    if a <= b {
      ProductNonnegative(b - a, a + b);
    } else {
      PositiveProduct(a - b, a + b);
    }
  }

  lemma SquaresDetermine(a: real, b: real)
    requires a >= 0.0 && b >= 0.0 && a * a == b * b
    ensures a == b
  {
    SquaresOrder(a, b);
    SquaresOrder(b, a);
  }

  lemma AbsOfProduct(a: real, b: real)
    ensures Abs(a * b) == Abs(a) * Abs(b)
  {
    if a >= 0.0 && b >= 0.0 { ProductNonnegative(a, b); }
    else if a >= 0.0 { ProductNonnegative(a, -b); }
    else if b >= 0.0 { ProductNonnegative(-a, b); }
    else { ProductNonnegative(-a, -b); }
  }

  lemma AbsSquared(k: real)
    ensures Abs(k) * Abs(k) == k * k
  {
  }

  lemma AffineQuotient(t: real, s: real, n: real, k: real, c: real)
    requires n != 0.0 && t == k * s + c * n
    ensures t / n == k * (s / n) + c
  {
    var m := s / n;
    QuotientTimes(s, n);
    Reassociate(k, m, n);
    Distribute(k * m, c, n);
    QuotientIs(t, n, k * m + c);
  }

  lemma ScaledQuotient(scaled: real, s: real, n: real, k: real)
    requires n != 0.0 && scaled == k * s
    ensures scaled / n == k * (s / n)
  {
    AffineQuotient(scaled, s, n, k, 0.0);
  }

  lemma PositiveScaling(q: real, t: real, r: real)
    requires r > 0.0
    ensures q <= t <==> q * r <= t * r
  {
    if q <= t {
      MulLe(q, t, r);
    } else {
      MulLt(t, q, r);
    }
  }

  lemma QuotientAtMost(d: real, r: real, t: real)
    requires r > 0.0
    ensures d / r <= t <==> d <= t * r
  {
    QuotientTimes(d, r);
    PositiveScaling(d / r, t, r);
  }

  lemma RelativeWithin(s: real, r: real, t: real)
    requires r > 0.0
    ensures Abs(s - r) <= t * r <==> (1.0 - t) * r <= s <= (1.0 + t) * r
  {
    Distribute(1.0, t, r);
  }

  /** A relative band on a non-negative quantity, read off its square. */
  lemma SquaredBand(s: real, r: real, t: real)
    requires s >= 0.0 && r > 0.0 && t >= 0.0
    ensures Abs(s - r) <= t * r <==>
      && s * s <= ((1.0 + t) * (1.0 + t)) * (r * r)
      && (t <= 1.0 ==> ((1.0 - t) * (1.0 - t)) * (r * r) <= s * s)
  {
    RelativeWithin(s, r, t);
    SquareOfProduct(1.0 + t, r);
    ProductNonnegative(1.0 + t, r);
    SquaresOrder(s, (1.0 + t) * r);
    if t <= 1.0 {
      SquareOfProduct(1.0 - t, r);
      ProductNonnegative(1.0 - t, r);
      SquaresOrder((1.0 - t) * r, s);
    } else {
      MulLe(1.0 - t, 0.0, r);
    }
  }

  lemma RootOfMultiple(s: real, t: real, k: real, kk: real, v: real)
    requires kk == k * k
    requires s >= 0.0 && t >= 0.0 && s * s == v && t * t == kk * v
    ensures t == Abs(k) * s
  {
    AbsSquared(k);
    SquareOfProduct(Abs(k), s);
    ProductNonnegative(Abs(k), s);
    SquaresDetermine(t, Abs(k) * s);
  }

  lemma SquareStep(x: real, mu: real, y: real, nu: real, k: real, kk: real, c: real)
    requires y == k * x + c && nu == k * mu + c && kk == k * k
    ensures (y - nu) * (y - nu) == kk * ((x - mu) * (x - mu))
  {
    Distribute(x, mu, k);
    SquareOfProduct(k, x - mu);
  }
}
