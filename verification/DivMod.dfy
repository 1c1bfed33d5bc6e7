/** Facts about quotients and remainders by a variable divisor. */
module DivMod {

  lemma MulMono(x: int, a: int, b: int)
    requires 0 <= x && a <= b
    ensures x * a <= x * b && a * x <= b * x
  {
    assert x * b == x * a + x * (b - a);
  }

  /** Quotient and remainder are determined by the decomposition. */
  lemma Unique(x: int, g: int, q: int, o: int)
    requires 0 <= o < g && x == q * g + o
    ensures x / g == q && x % g == o
  {
    var a, b := x / g, x % g;
    assert x == a * g + b;
    if a < q {
      MulMono(g, a + 1, q);
    } else if q < a {
      MulMono(g, q + 1, a);
    }
  }

  lemma Compose(x: int, g: int)
    requires 0 < g
    ensures x == x / g * g + x % g && 0 <= x % g < g
  {
  }

  lemma DivBelow(x: int, g: int, q: int)
    requires 0 < g && x < q * g
    ensures x / g < q
  {
    Compose(x, g);
    if q <= x / g {
      MulMono(g, q, x / g);
    }
  }

  lemma DivMono(x: int, y: int, g: int)
    requires 0 < g && x <= y
    ensures x / g <= y / g
  {
    Compose(y, g);
    if y / g < x / g {
      MulMono(g, y / g + 1, x / g);
    }
  }

  lemma NonNegative(x: int, g: int)
    requires 0 < g && 0 <= x
    ensures 0 <= x / g
  {
    DivMono(0, x, g);
  }

  /** A quotient rounds down, and reaches `m` exactly when the dividend reaches `m` divisors. */
  lemma Floor(x: int, g: int, m: int)
    requires 0 < g
    ensures x / g * g <= x < (x / g + 1) * g
    ensures m * g <= x <==> m <= x / g
  {
    Compose(x, g);
    if m <= x / g {
      MulMono(g, m, x / g);
    } else {
      MulMono(g, x / g + 1, m);
    }
  }

  /** Dividing twice is dividing by the product. */
  lemma Twice(x: int, a: int, b: int)
    requires 0 < a && 0 < b
    ensures x / a / b * a * b <= x < (x / a / b + 1) * a * b
  {
    var q := x / a;
    var r := q / b;
    Compose(x, a);
    Compose(q, b);
    Product(r, a, b);
    Product(r + 1, a, b);
    MulMono(a, r * b, q);
    MulMono(a, q + 1, (r + 1) * b);
    assert (q + 1) * a == q * a + a;
    assert (r + 1) * b == r * b + b;
  }

  lemma Assoc(x: int, a: int, b: int)
    ensures x * a * b == x * (a * b)
  {
  }

  /** A quotient is the number of times the divisor fits. */
  lemma Exact(x: int, g: int, q: int)
    requires 0 < g && q * g <= x < (q + 1) * g
    ensures x / g == q
  {
    assert (q + 1) * g == q * g + g;
    Unique(x, g, q, x - q * g);
  }

  lemma Product(r: int, a: int, b: int)
    ensures r * a * b == r * b * a
  {
    assert a * b == b * a;
    assert r * a * b == r * (a * b);
    assert r * b * a == r * (b * a);
  }

  /** `r` is below a quotient by a product exactly when `r + 1` products fit. */
  lemma BelowTwice(x: int, a: int, b: int, r: int)
    requires 0 < a && 0 < b
    ensures r < x / a / b <==> (r + 1) * a * b <= x
  {
    var q := x / a / b;
    Twice(x, a, b);
    if r < q {
      MulMono(a, r + 1, q);
      MulMono(b, (r + 1) * a, q * a);
    } else {
      MulMono(a, q + 1, r + 1);
      MulMono(b, (q + 1) * a, (r + 1) * a);
    }
  }
}
