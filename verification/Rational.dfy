/** Rational frame rates and the integer rounding the tick grid is built on. */
module Rational {

  datatype FpsPair = FpsPair(num: int, den: int)

  /** A normalised rate: an invalid rate is stored as 0/1. */
  type Fps = f: FpsPair | f.num >= 0 && f.den >= 1 witness FpsPair(0, 1)

  predicate IsValid(fps: Fps) {
    fps.num > 0
  }

  /** Division as C++ does it: the quotient is rounded toward zero. */
  function TruncDiv(a: int, b: int): int
    requires b > 0
  {
    if a >= 0 then a / b else -((-a) / b)
  }

  /** FramesFromDurationCeilMs. */
  function FramesCeil(fps: Fps, ms: int): int {
    if IsValid(fps) then TruncDiv(ms * fps.num + fps.den * 1000 - 1, fps.den * 1000) else 0
  }

  lemma QuotientBounds(a: int, b: int)
    requires b > 0
    ensures (a / b) * b <= a < (a / b + 1) * b
  {
    assert a == (a / b) * b + a % b;
  }

  lemma FactorLess(a: int, b: int, c: int)
    requires c > 0 && a * c < b * c
    ensures a < b
  {
  }

  /** A quotient is determined by the two products that bracket the dividend. */
  lemma QuotientUnique(a: int, b: int, q: int)
    requires b > 0 && q * b <= a < (q + 1) * b
    ensures a / b == q
  {
    QuotientBounds(a, b);
    FactorLess(a / b, q + 1, b);
    FactorLess(q, a / b + 1, b);
  }

  /** Adding whole divisors adds them to the quotient. */
  lemma QuotientShift(a: int, b: int, k: int)
    requires b > 0
    ensures (a + k * b) / b == a / b + k
  {
    QuotientBounds(a, b);
    assert (a / b + k) * b == (a / b) * b + k * b;
    assert (a / b + k + 1) * b == (a / b + 1) * b + k * b;
    QuotientUnique(a + k * b, b, a / b + k);
  }

  lemma ProductMonotone(a: int, b: int, c: int)
    requires a <= b && c >= 0
    ensures a * c <= b * c
  {
  }

  /** The frame count is the least whole number of frames that covers the duration. */
  lemma FramesCeilIsLeastCover(fps: Fps, ms: int)
    requires IsValid(fps) && ms >= 0
    ensures (FramesCeil(fps, ms) - 1) * (fps.den * 1000) < ms * fps.num <= FramesCeil(fps, ms) * (fps.den * 1000)
    ensures FramesCeil(fps, ms) >= 0
  {
    var d := fps.den * 1000;
    ProductMonotone(0, ms, fps.num);
    QuotientBounds(ms * fps.num + d - 1, d);
    var q := (ms * fps.num + d - 1) / d;
    assert (q + 1) * d == q * d + d;
    assert (q - 1) * d == q * d - d;
  }

  lemma CoverIsLeast(fps: Fps, ms: int, n: int)
    requires IsValid(fps) && ms >= 0 && ms * fps.num <= n * (fps.den * 1000)
    ensures FramesCeil(fps, ms) <= n
  {
    FramesCeilIsLeastCover(fps, ms);
    FactorLess(FramesCeil(fps, ms) - 1, n, fps.den * 1000);
  }

  lemma FramesCeilPositive(fps: Fps, ms: int)
    requires IsValid(fps)
    ensures FramesCeil(fps, ms) > 0 <==> ms > 0
  {
    var d := fps.den * 1000;
    if ms > 0 {
      FramesCeilIsLeastCover(fps, ms);
      ProductMonotone(1, ms, fps.num);
      FactorLess(0, FramesCeil(fps, ms), d);
    } else {
      ProductMonotone(ms, 0, fps.num);
      TruncNotPositive(ms * fps.num + d - 1, d);
    }
  }

  lemma TruncNotPositive(a: int, b: int)
    requires b > 0 && a < b
    ensures TruncDiv(a, b) <= 0
  {
    if a >= 0 {
      QuotientUnique(a, b, 0);
    } else {
      QuotientBounds(-a, b);
      FactorLess(-1, (-a) / b, b);
    }
  }

  /** Rounding every part up never gives less than rounding the whole up. */
  lemma FramesCeilSuperadditive(fps: Fps, x: int, y: int)
    requires IsValid(fps) && x >= 0 && y >= 0
    ensures FramesCeil(fps, x) + FramesCeil(fps, y) >= FramesCeil(fps, x + y)
  {
    var d := fps.den * 1000;
    FramesCeilIsLeastCover(fps, x);
    FramesCeilIsLeastCover(fps, y);
    var a, b := FramesCeil(fps, x), FramesCeil(fps, y);
    assert (a + b) * d == a * d + b * d;
    assert (x + y) * fps.num == x * fps.num + y * fps.num;
    CoverIsLeast(fps, x + y, a + b);
  }

  lemma FramesCeilMonotone(fps: Fps, x: int, y: int)
    requires IsValid(fps) && 0 <= x <= y
    ensures FramesCeil(fps, x) <= FramesCeil(fps, y)
  {
    FramesCeilIsLeastCover(fps, y);
    ProductMonotone(x, y, fps.num);
    CoverIsLeast(fps, x, FramesCeil(fps, y));
  }
}
