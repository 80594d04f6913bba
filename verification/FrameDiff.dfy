/** The frame difference of daemon/src/capture/frame_diff.cpp, with real numbers for
    doubles and an explicit not-a-number for the empty frame. */
module FrameDiff {
  newtype channel = x: int | 0 <= x < 256

  datatype Pixel = Pixel(alpha: channel, red: channel, green: channel, blue: channel)

  /** `rows[y][x]` is the pixel at column x of row y. */
  datatype Frame = Frame(width: nat, height: nat, rows: seq<seq<Pixel>>)

  ghost predicate Valid(f: Frame) {
    && |f.rows| == f.height
    && forall y :: 0 <= y < f.height ==> |f.rows[y]| == f.width
  }

  /** 255 for each of three channels. */
  const MAX_PER_PIXEL: nat := 765

  datatype Score = NotANumber | Score(value: real)

  function Gap(a: channel, b: channel): nat {
    if a < b then (b - a) as nat else (a - b) as nat
  }

  function PixelDiff(p: Pixel, q: Pixel): nat {
    Gap(p.red, q.red) + Gap(p.green, q.green) + Gap(p.blue, q.blue)
  }

  predicate SameColour(p: Pixel, q: Pixel) {
    p.red == q.red && p.green == q.green && p.blue == q.blue
  }

  /** The first `n` pixels of two rows. */
  function RowDiff(a: seq<Pixel>, b: seq<Pixel>, n: nat): nat
    requires n <= |a| && n <= |b|
  {
    if n == 0 then 0 else RowDiff(a, b, n - 1) + PixelDiff(a[n - 1], b[n - 1])
  }

  /** The first `n` rows of two frames. */
  function FrameSum(f: Frame, g: Frame, n: nat): nat
    requires Valid(f) && Valid(g) && f.width == g.width && n <= f.height && n <= g.height
  {
    if n == 0 then 0 else FrameSum(f, g, n - 1) + RowDiff(f.rows[n - 1], g.rows[n - 1], f.width)
  }

  predicate SameSize(f: Frame, g: Frame) {
    f.width == g.width && f.height == g.height
  }

  function Difference(f: Frame, g: Frame): Score
    requires Valid(f) && Valid(g)
  {
    if !SameSize(f, g) then Score(1.0)
    else if f.width * f.height == 0 then NotANumber
    else Score(FrameSum(f, g, f.height) as real / (f.width * f.height * MAX_PER_PIXEL) as real)
  }

  method CalculateDifference(f: Frame, g: Frame) returns (r: Score)
    requires Valid(f) && Valid(g)
    ensures r == Difference(f, g)
  {
    if f.width != g.width || f.height != g.height {
      return Score(1.0);
    }
    var totalDiff: nat := 0;
    var pixelCount := f.width * f.height;
    for y := 0 to f.height
      invariant totalDiff == FrameSum(f, g, y)
    {
      for x := 0 to f.width
        invariant totalDiff == FrameSum(f, g, y) + RowDiff(f.rows[y], g.rows[y], x)
      {
        var p, q := f.rows[y][x], g.rows[y][x];
        var dr := p.red as int - q.red as int;
        var dg := p.green as int - q.green as int;
        var db := p.blue as int - q.blue as int;
        totalDiff := totalDiff
          + (if dr < 0 then -dr else dr) + (if dg < 0 then -dg else dg) + (if db < 0 then -db else db);
      }
    }
    if pixelCount == 0 {
      return NotANumber;
    }
    return Score(totalDiff as real / (pixelCount * MAX_PER_PIXEL) as real);
  }

  /** A comparison with not-a-number is false. */
  method IsSignificantChange(f: Frame, g: Frame, threshold: real) returns (r: bool)
    requires Valid(f) && Valid(g)
    ensures r <==> Significant(f, g, threshold)
    ensures r <==> Difference(f, g).Score? && Difference(f, g).value > threshold
  {
    var diff := CalculateDifference(f, g);
    r := diff.Score? && diff.value > threshold;
  }

  predicate Significant(f: Frame, g: Frame, threshold: real)
    requires Valid(f) && Valid(g)
  {
    Difference(f, g).Score? && Difference(f, g).value > threshold
  }

  // ---- Sums ----------------------------------------------------------------------

  lemma {:induction false} RowSymmetric(a: seq<Pixel>, b: seq<Pixel>, n: nat)
    requires n <= |a| && n <= |b|
    ensures RowDiff(a, b, n) == RowDiff(b, a, n)
  {
    if n > 0 {
      RowSymmetric(a, b, n - 1);
    }
  }

  lemma {:induction false} RowBounded(a: seq<Pixel>, b: seq<Pixel>, n: nat)
    requires n <= |a| && n <= |b|
    ensures RowDiff(a, b, n) <= n * MAX_PER_PIXEL
  {
    if n > 0 {
      RowBounded(a, b, n - 1);
    }
  }

  lemma PixelTriangle(p: Pixel, q: Pixel, r: Pixel)
    ensures PixelDiff(p, r) <= PixelDiff(p, q) + PixelDiff(q, r)
  {
  }

  lemma {:induction false} RowTriangle(a: seq<Pixel>, b: seq<Pixel>, c: seq<Pixel>, n: nat)
    requires n <= |a| && n <= |b| && n <= |c|
    ensures RowDiff(a, c, n) <= RowDiff(a, b, n) + RowDiff(b, c, n)
  {
    if n > 0 {
      RowTriangle(a, b, c, n - 1);
      PixelTriangle(a[n - 1], b[n - 1], c[n - 1]);
    }
  }

  lemma {:induction false} RowZero(a: seq<Pixel>, b: seq<Pixel>, n: nat)
    requires n <= |a| && n <= |b|
    ensures RowDiff(a, b, n) == 0 <==> forall x :: 0 <= x < n ==> SameColour(a[x], b[x])
  {
    if n > 0 {
      RowZero(a, b, n - 1);
      assert PixelDiff(a[n - 1], b[n - 1]) == 0 <==> SameColour(a[n - 1], b[n - 1]);
    }
  }

  ghost predicate SameColours(f: Frame, g: Frame, n: nat)
    requires Comparable(f, g, n)
  {
    forall y, x :: 0 <= y < n && 0 <= x < f.width ==> SameColour(f.rows[y][x], g.rows[y][x])
  }

  ghost predicate Comparable(f: Frame, g: Frame, n: nat) {
    Valid(f) && Valid(g) && f.width == g.width && n <= f.height && n <= g.height
  }

  lemma {:induction false} SumSymmetric(f: Frame, g: Frame, n: nat)
    requires Comparable(f, g, n)
    ensures FrameSum(f, g, n) == FrameSum(g, f, n)
  {
    if n > 0 {
      SumSymmetric(f, g, n - 1);
      RowSymmetric(f.rows[n - 1], g.rows[n - 1], f.width);
    }
  }

  lemma {:induction false} SumBounded(f: Frame, g: Frame, n: nat)
    requires Comparable(f, g, n)
    ensures FrameSum(f, g, n) <= f.width * n * MAX_PER_PIXEL
  {
    if n > 0 {
      SumBounded(f, g, n - 1);
      RowBounded(f.rows[n - 1], g.rows[n - 1], f.width);
      assert f.width * n == f.width * (n - 1) + f.width;
    }
  }

  lemma {:induction false} SumTriangle(f: Frame, g: Frame, h: Frame, n: nat)
    requires Comparable(f, g, n) && Comparable(g, h, n)
    ensures FrameSum(f, h, n) <= FrameSum(f, g, n) + FrameSum(g, h, n)
  {
    if n > 0 {
      SumTriangle(f, g, h, n - 1);
      RowTriangle(f.rows[n - 1], g.rows[n - 1], h.rows[n - 1], f.width);
    }
  }

  lemma {:induction false} SumZero(f: Frame, g: Frame, n: nat)
    requires Comparable(f, g, n)
    ensures FrameSum(f, g, n) == 0 <==> SameColours(f, g, n)
  {
    if n > 0 {
      SumZero(f, g, n - 1);
      RowZero(f.rows[n - 1], g.rows[n - 1], f.width);
    }
  }

  /** Black against white in every channel. */
  predicate Opposite(p: Pixel, q: Pixel) {
    Gap(p.red, q.red) == 255 && Gap(p.green, q.green) == 255 && Gap(p.blue, q.blue) == 255
  }

  lemma {:induction false} RowFull(a: seq<Pixel>, b: seq<Pixel>, n: nat)
    requires n <= |a| && n <= |b|
    ensures RowDiff(a, b, n) == n * MAX_PER_PIXEL <==> forall x :: 0 <= x < n ==> Opposite(a[x], b[x])
  {
    if n > 0 {
      RowFull(a, b, n - 1);
      RowBounded(a, b, n - 1);
      assert PixelDiff(a[n - 1], b[n - 1]) == MAX_PER_PIXEL <==> Opposite(a[n - 1], b[n - 1]);
    }
  }

  ghost predicate AllOpposite(f: Frame, g: Frame, n: nat)
    requires Comparable(f, g, n)
  {
    forall y, x :: 0 <= y < n && 0 <= x < f.width ==> Opposite(f.rows[y][x], g.rows[y][x])
  }

  lemma {:induction false} SumFull(f: Frame, g: Frame, n: nat)
    requires Comparable(f, g, n)
    ensures FrameSum(f, g, n) == f.width * n * MAX_PER_PIXEL <==> AllOpposite(f, g, n)
  {
    if n > 0 {
      SumFull(f, g, n - 1);
      SumBounded(f, g, n - 1);
      RowFull(f.rows[n - 1], g.rows[n - 1], f.width);
      RowBounded(f.rows[n - 1], g.rows[n - 1], f.width);
      assert f.width * n == f.width * (n - 1) + f.width;
    }
  }

  // ---- A bounded pseudometric ------------------------------------------------------

  ghost predicate NonEmpty(f: Frame) {
    Valid(f) && f.width > 0 && f.height > 0
  }

  lemma Divided(a: int, b: int, c: int, d: int)
    requires d > 0
    ensures a <= b + c ==> a as real / d as real <= b as real / d as real + c as real / d as real
    ensures 0 <= a <= d ==> 0.0 <= a as real / d as real <= 1.0
    ensures a as real / d as real == 0.0 <==> a == 0
  {
  }

  /** The scale of a frame: what its sum is divided by. */
  function Scale(f: Frame): nat {
    f.width * f.height * MAX_PER_PIXEL
  }

  lemma ScalePositive(f: Frame)
    requires NonEmpty(f)
    ensures Scale(f) > 0 && f.width * f.height > 0
  {
  }

  lemma DifferenceIsBounded(f: Frame, g: Frame)
    requires NonEmpty(f) && NonEmpty(g)
    ensures Difference(f, g).Score? && 0.0 <= Difference(f, g).value <= 1.0
  {
    ScalePositive(f);
    if SameSize(f, g) {
      SumBounded(f, g, f.height);
      Divided(FrameSum(f, g, f.height), 0, 0, Scale(f));
    }
  }

  lemma DifferenceIsSymmetric(f: Frame, g: Frame)
    requires Valid(f) && Valid(g)
    ensures Difference(f, g) == Difference(g, f)
  {
    if SameSize(f, g) {
      SumSymmetric(f, g, f.height);
    }
  }

  /** Zero means the same size and the same colours; alpha does not count. */
  lemma DifferenceIsZeroIffSameColours(f: Frame, g: Frame)
    requires NonEmpty(f) && NonEmpty(g)
    ensures Difference(f, g) == Score(0.0) <==> SameSize(f, g) && SameColours(f, g, f.height)
  {
    ScalePositive(f);
    if SameSize(f, g) {
      SumZero(f, g, f.height);
      Divided(FrameSum(f, g, f.height), 0, 0, Scale(f));
    }
  }

  lemma FullShare(a: int, d: int)
    requires d > 0
    ensures a as real / d as real == 1.0 <==> a == d
  {
  }

  /** The score is normalised: one is reached exactly by frames of different sizes and by
      frames that are opposite in every pixel. */
  lemma DifferenceIsOneIffOpposite(f: Frame, g: Frame)
    requires NonEmpty(f) && NonEmpty(g)
    ensures Difference(f, g) == Score(1.0) <==> !SameSize(f, g) || AllOpposite(f, g, f.height)
  {
    ScalePositive(f);
    if SameSize(f, g) {
      SumFull(f, g, f.height);
      FullShare(FrameSum(f, g, f.height), Scale(f));
    }
  }

  /** The triangle inequality, frames of different sizes included. */
  lemma DifferenceObeysTriangle(f: Frame, g: Frame, h: Frame)
    requires NonEmpty(f) && NonEmpty(g) && NonEmpty(h)
    ensures Difference(f, g).Score? && Difference(g, h).Score? && Difference(f, h).Score?
    ensures Difference(f, h).value <= Difference(f, g).value + Difference(g, h).value
  {
    DifferenceIsBounded(f, g);
    DifferenceIsBounded(g, h);
    DifferenceIsBounded(f, h);
    ScalePositive(f);
    if SameSize(f, g) && SameSize(g, h) {
      SumTriangle(f, g, h, f.height);
      Divided(FrameSum(f, h, f.height), FrameSum(f, g, f.height), FrameSum(g, h, f.height), Scale(f));
    }
  }

  /** A significant change cannot hide behind an intermediate frame: one of the two steps
      is significant for its share of the threshold. */
  lemma ChangeShowsInSteps(f: Frame, g: Frame, h: Frame, s: real, t: real)
    requires NonEmpty(f) && NonEmpty(g) && NonEmpty(h)
    requires Significant(f, h, s + t)
    ensures Significant(f, g, s) || Significant(g, h, t)
  {
    DifferenceObeysTriangle(f, g, h);
  }

  /** Without pixels there is no number: two empty frames of one size never differ
      significantly, and every other pair has a score. */
  lemma ScoreExists(f: Frame, g: Frame)
    requires Valid(f) && Valid(g)
    ensures Difference(f, g) == NotANumber <==> SameSize(f, g) && (f.width == 0 || f.height == 0)
  {
  }

  // ---- One pixel -----------------------------------------------------------------

  /** The frame with one pixel replaced. */
  function Replaced(f: Frame, y: nat, x: nat, p: Pixel): Frame
    requires Valid(f) && y < f.height && x < f.width
  {
    f.(rows := f.rows[y := f.rows[y][x := p]])
  }

  lemma {:induction false} RowAfterReplacement(a: seq<Pixel>, b: seq<Pixel>, x: nat, p: Pixel, n: nat)
    requires n <= |a| && n <= |b| && x < |b|
    ensures RowDiff(a, b[x := p], n) ==
            RowDiff(a, b, n) + if x < n then PixelDiff(a[x], p) - PixelDiff(a[x], b[x]) else 0
  {
    if n > 0 {
      RowAfterReplacement(a, b, x, p, n - 1);
    }
  }

  lemma {:induction false} SumAfterReplacement(f: Frame, g: Frame, y: nat, x: nat, p: Pixel, n: nat)
    requires Comparable(f, g, n) && y < g.height && y < f.height && x < g.width
    ensures Comparable(f, Replaced(g, y, x, p), n)
    ensures FrameSum(f, Replaced(g, y, x, p), n) == FrameSum(f, g, n) +
              if y < n then PixelDiff(f.rows[y][x], p) - PixelDiff(f.rows[y][x], g.rows[y][x]) else 0
  {
    var h := Replaced(g, y, x, p);
    if n > 0 {
      SumAfterReplacement(f, g, y, x, p, n - 1);
      if y == n - 1 {
        RowAfterReplacement(f.rows[y], g.rows[y], x, p, f.width);
      }
    }
  }

  lemma {:induction false} RealDivision(a: int, b: int, k: int, d: nat)
    requires a == b + k && d > 0
    ensures a as real / d as real == b as real / d as real + k as real / d as real
  {
  }

  /** Every pixel counts on its own: replacing one changes the score by what that pixel adds,
      whatever the other pixels are. */
  lemma {:induction false} PixelsAddUp(f: Frame, g: Frame, y: nat, x: nat, p: Pixel)
    requires NonEmpty(f) && Valid(g) && SameSize(f, g) && y < f.height && x < f.width
    ensures var a := f.rows[y][x];
            && f.width * f.height * 765 > 0
            && Valid(Replaced(g, y, x, p))
            && Difference(f, g).Score? && Difference(f, Replaced(g, y, x, p)).Score?
            && Difference(f, Replaced(g, y, x, p)).value
               == Difference(f, g).value
                  + (PixelDiff(a, p) - PixelDiff(a, g.rows[y][x])) as real / (f.width * f.height * 765) as real
  {
    var h := Replaced(g, y, x, p);
    ScalePositive(f);
    SumAfterReplacement(f, g, y, x, p, f.height);
    RealDivision(FrameSum(f, h, f.height), FrameSum(f, g, f.height),
                 PixelDiff(f.rows[y][x], p) - PixelDiff(f.rows[y][x], g.rows[y][x]), Scale(f));
  }

  /** A frame whose one changed pixel is off by these amounts in its three channels, up or down,
      scores their sum in shares of 765 per pixel. */
  lemma {:induction false} OnePixelShare(f: Frame, y: nat, x: nat, p: Pixel, dr: nat, dg: nat, db: nat)
    requires NonEmpty(f) && y < f.height && x < f.width
    requires var a := f.rows[y][x];
             && p.red as int in {a.red as int + dr, a.red as int - dr}
             && p.green as int in {a.green as int + dg, a.green as int - dg}
             && p.blue as int in {a.blue as int + db, a.blue as int - db}
    ensures f.width * f.height * 765 > 0 && Valid(Replaced(f, y, x, p))
    ensures Difference(f, Replaced(f, y, x, p)) == Score((dr + dg + db) as real / (f.width * f.height * 765) as real)
  {
    DifferenceIsZeroIffSameColours(f, f);
    PixelsAddUp(f, f, y, x, p);
    assert PixelDiff(f.rows[y][x], p) == dr + dg + db;
  }

  // ---- Thresholds ----------------------------------------------------------------

  /** A change is significant iff its score is above the threshold: frames of the same colours
      never are, opposite frames are for every threshold below one, and a lower threshold never
      hides a change. */
  lemma {:induction false} SignificanceOfExtremes(f: Frame, g: Frame, threshold: real, lower: real)
    requires NonEmpty(f) && NonEmpty(g)
    ensures SameSize(f, g) && SameColours(f, g, f.height) ==> (Significant(f, g, threshold) <==> threshold < 0.0)
    ensures !SameSize(f, g) || AllOpposite(f, g, f.height) ==> (Significant(f, g, threshold) <==> threshold < 1.0)
    ensures lower <= threshold && Significant(f, g, threshold) ==> Significant(f, g, lower)
  {
    DifferenceIsZeroIffSameColours(f, g);
    DifferenceIsOneIffOpposite(f, g);
  }
}
