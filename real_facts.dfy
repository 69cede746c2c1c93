/** Small facts of real arithmetic that the aspect-ratio and scaling proofs
    use; the solver does not find them unaided in larger contexts. */
module RealFacts {

  lemma DivideByRatio(x: real, a: real, b: real)
    requires a > 0.0 && b > 0.0
    ensures x / (a / b) == x * b / a
  {
    var q := a / b;
    assert q * b == a;
    calc {
      x / q;
      == { assert (x / q) * q == x; }
      (x / q) * (q * b) / a;
      ==
      ((x / q) * q) * b / a;
      ==
      x * b / a;
    }
  }

  lemma MultiplyByRatio(x: real, a: real, b: real)
    requires b > 0.0
    ensures x * (a / b) == x * a / b
  {
    assert (a / b) * b == a;
    assert (x * (a / b)) * b == x * a;
  }

  lemma CrossMultiply(a: real, b: real, c: real, e: real)
    requires b > 0.0 && e > 0.0
    ensures a / b > c / e <==> a * e > c * b
  {
    assert (a / b) * (b * e) == a * e;
    assert (c / e) * (b * e) == c * b;
  }

  lemma QuotientAtLeastOne(x: real, y: real)
    requires y > 0.0
    ensures x / y >= 1.0 <==> x >= y
  {
    assert (x / y) * y == x;
  }

  lemma CastProduct(a: int, b: int)
    ensures (a * b) as real == a as real * b as real
  {
  }
}
