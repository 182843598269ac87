/** The host's numeric library, abstracted.
    The visualiser calls the platform's floating-point sine, cosine, square root and
    pi. The model works over exact reals and knows nothing about those four beyond
    the facts written out as predicates below; each lemma requires only the facts
    it uses. */
module Maths {

  /** Sine, cosine, square root and the constant pi, as supplied by the platform. */
  datatype Library = Library(sin: real -> real, cos: real -> real, sqrt: real -> real, pi: real)

  /** Sine and cosine never leave [-1, 1]. */
  ghost predicate TrigBounded(m: Library)
  {
    forall y :: -1.0 <= m.sin(y) <= 1.0 && -1.0 <= m.cos(y) <= 1.0
  }

  /** Sine is an odd function. */
  ghost predicate SinOdd(m: Library)
  {
    forall y :: m.sin(-y) == -m.sin(y)
  }

  /** |sin y| <= |y|, the fact behind sinc(y)^2 <= 1. */
  ghost predicate SinBelowIdentity(m: Library)
  {
    forall y :: Abs(m.sin(y)) <= Abs(y)
  }

  function Abs(x: real): (r: real)
    ensures r >= 0.0 && (r == x || r == -x)
  {
    if x < 0.0 then -x else x
  }

  function Square(x: real): real
  {
    x * x
  }

  /** A square is never negative, and is zero only at zero. */
  lemma SquareSign(x: real)
    ensures Square(x) >= 0.0
    ensures x != 0.0 ==> Square(x) > 0.0
  {
    if x > 0.0 {
      calc { Square(x); x * x; > 0.0 * x; 0.0; }
    } else if x < 0.0 {
      calc { Square(x); x * x; (-x) * (-x); > 0.0 * (-x); 0.0; }
    }
  }

  /** Squaring keeps [-1, 1] inside [0, 1]. */
  lemma SquareAtMostOne(s: real)
    requires -1.0 <= s <= 1.0
    ensures Square(s) <= 1.0
  {
    if s >= 0.0 {
      calc { Square(s); s * s; <= 1.0 * s; <= 1.0; }
    } else {
      calc { Square(s); (-s) * (-s); <= 1.0 * (-s); <= 1.0; }
    }
  }

  /** The platform's round-to-nearest, halves rounded towards positive infinity. */
  function Round(v: real): (n: int)
    ensures n as real - 0.5 <= v < n as real + 0.5
  {
    (v + 0.5).Floor
  }
}
