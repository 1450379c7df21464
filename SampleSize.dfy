/** The downsampling divisor `calculateInSampleSize` passes to the decoder. */
module SampleSize {
  import opened KotlinInt

  /** The bound both load paths ask the decoder to respect, in pixels. */
  const TARGET_SIZE: Int32 := 1024

  /** Floor of the rational `a / b`, for a divisor of either sign. */
  function FloorDiv(a: int, b: int): (q: int)
    requires b != 0
    ensures b > 0 ==> q * b <= a < q * b + b
    ensures b < 0 ==> q * b >= a > q * b + b
  {
    if b > 0 then a / b else (-a) / (-b)
  }

  /** `Math.round(n / d)`: the floor of `n / d + 1/2`, which is
      `(2n + d) / (2d)` taken as a rational. */
  function RoundHalfUp(n: int, d: int): int
    requires d != 0
  {
    FloorDiv(2 * n + d, 2 * d)
  }

  /** `q` is the integer nearest to `n / d`, a tie going to the larger one:
      `q - 1/2 <= n / d < q + 1/2`, cleared of the fraction. */
  ghost predicate NearestTiesUp(n: int, d: int, q: int)
    requires d != 0
  {
    if d > 0 then (2 * q - 1) * d <= 2 * n < (2 * q + 1) * d
    else (2 * q - 1) * d >= 2 * n > (2 * q + 1) * d
  }

  /** `RoundHalfUp` picks exactly the nearest integer, ties up, and no other. */
  lemma {:induction false} RoundHalfUpIsNearest(n: int, d: int, q: int)
    requires d != 0
    ensures NearestTiesUp(n, d, q) <==> q == RoundHalfUp(n, d)
  {
    var r := RoundHalfUp(n, d);
    RoundHalfUpIsNear(n, d);
    if NearestTiesUp(n, d, q) {
      NearestIsUnique(n, d, q, r);
    }
  }

  lemma {:induction false} RoundHalfUpIsNear(n: int, d: int)
    requires d != 0
    ensures NearestTiesUp(n, d, RoundHalfUp(n, d))
  {
    var r := RoundHalfUp(n, d);
    assert (2 * r - 1) * d == r * (2 * d) - d;
    assert (2 * r + 1) * d == r * (2 * d) + d;
  }

  lemma {:induction false} NearestIsUnique(n: int, d: int, q: int, r: int)
    requires d != 0
    requires NearestTiesUp(n, d, q) && NearestTiesUp(n, d, r)
    ensures q == r
  {
    if d > 0 {
      MulLess((2 * q - 1), (2 * r + 1), d);
      MulLess((2 * r - 1), (2 * q + 1), d);
    } else {
      var e := -d;
      assert (2 * q - 1) * d == -((2 * q - 1) * e) && (2 * r + 1) * d == -((2 * r + 1) * e);
      assert (2 * r - 1) * d == -((2 * r - 1) * e) && (2 * q + 1) * d == -((2 * q + 1) * e);
      MulLess((2 * q - 1), (2 * r + 1), e);
      MulLess((2 * r - 1), (2 * q + 1), e);
    }
  }

  /** Dividing both sides of `a * d < b * d` by a positive `d`. */
  lemma {:induction false} MulLess(a: int, b: int, d: int)
    requires d > 0
    requires a * d < b * d
    ensures a < b
  {
    assert (b - a) * d == b * d - a * d;
  }

  function Min(a: int, b: int): int { if a <= b then a else b }

  /** `calculateInSampleSize(options, reqWidth, reqHeight)` for the bounds
      `outHeight` x `outWidth` found by the bounds-only decode (both are -1
      when that decode failed). */
  function InSampleSize(outHeight: Int32, outWidth: Int32, reqWidth: Int32, reqHeight: Int32): (r: int)
    ensures r >= 1
    ensures reqWidth == 0 || reqHeight == 0 ==> r == 1
    ensures outHeight <= reqHeight && outWidth <= reqWidth ==> r == 1
  {
    if reqWidth == 0 || reqHeight == 0 then 1
    else
      var inSampleSize :=
        if outHeight > reqHeight || outWidth > reqWidth
        then Min(RoundHalfUp(outHeight, reqHeight), RoundHalfUp(outWidth, reqWidth))
        else 1;
      if inSampleSize > 0 then inSampleSize else 1
  }

  /** When the image exceeds a non-zero bound, the divisor is the smaller of
      the two rounded ratios, clamped to at least 1. */
  lemma {:induction false} InSampleSizeWhenTooLarge(
    outHeight: Int32, outWidth: Int32, reqWidth: Int32, reqHeight: Int32,
    heightRatio: int, widthRatio: int)
    requires reqWidth != 0 && reqHeight != 0
    requires outHeight > reqHeight || outWidth > reqWidth
    requires NearestTiesUp(outHeight, reqHeight, heightRatio)
    requires NearestTiesUp(outWidth, reqWidth, widthRatio)
    ensures InSampleSize(outHeight, outWidth, reqWidth, reqHeight)
            == if Min(heightRatio, widthRatio) > 0 then Min(heightRatio, widthRatio) else 1
  {
    RoundHalfUpIsNearest(outHeight, reqHeight, heightRatio);
    RoundHalfUpIsNearest(outWidth, reqWidth, widthRatio);
  }

  /** Worked cases: a square twice the target, an image within it, a zero
      bound, and a skewed image whose short side rounds to 0. */
  lemma InSampleSizeExamples()
    ensures InSampleSize(2048, 2048, 1024, 1024) == 2
    ensures InSampleSize(500, 500, 1024, 1024) == 1
    ensures InSampleSize(500, 4000, 0, 1024) == 1
    ensures InSampleSize(100, 4000, 1024, 1024) == 1
    ensures InSampleSize(-1, -1, TARGET_SIZE, TARGET_SIZE) == 1
  {
  }
}
