/**
 * Loudness of a PCM chunk: the root mean square of its little-endian signed
 * 16-bit samples, compared with a fixed threshold. The square root is not
 * computed; the chunk is represented by its exact sum of squares and sample
 * count, and `RmsThreshold` shows that comparing those integers decides the
 * same thing as comparing the square root with the threshold.
 */
module Rms {
  import opened Bytes
  import opened Wrappers

  /** The fixed loudness threshold of `processAudioData`. */
  const THRESHOLD: int := 300

  /** Sum of squares of the chunk's samples, read pairwise from the front. */
  function SumSquares(chunk: seq<Byte>): nat
  {
    if |chunk| < 2 then 0
    else
      var x := ReadInt16LE(chunk, 0);
      Square(x) + SumSquares(chunk[2..])
  }

  function Square(x: int): (r: nat)
  {
    if x < 0 then (-x) * (-x) else x * x
  }

  /** An exact stand-in for `Math.sqrt(sumSquares / sampleCount)`. */
  datatype Rms = Rms(sumSquares: nat, sampleCount: nat)

  /**
   * `rms > 300`. With no samples the source computes 0 / 0, which is NaN, and
   * every comparison with NaN is false.
   */
  predicate AboveThreshold(r: Rms)
  {
    r.sampleCount > 0 && r.sumSquares > THRESHOLD * THRESHOLD * r.sampleCount
  }

  /** The value `calculateRMS` stands for on an even-length chunk. */
  function RmsOf(chunk: seq<Byte>): Rms
  {
    Rms(SumSquares(chunk), |chunk| / 2)
  }

  /** A chunk `processAudioData` treats as sound. */
  predicate Loud(chunk: seq<Byte>)
  {
    |chunk| % 2 == 0 && AboveThreshold(RmsOf(chunk))
  }

  /** A chunk `processAudioData` treats as silence (an odd-length chunk is neither). */
  predicate Quiet(chunk: seq<Byte>)
  {
    |chunk| % 2 == 0 && !AboveThreshold(RmsOf(chunk))
  }

  /**
   * `calculateRMS`: reads a sample at every even offset; on an odd-length
   * chunk the read at the last offset raises a RangeError (None).
   */
  method CalculateRMS(chunk: seq<Byte>) returns (r: Option<Rms>)
    ensures r.None? <==> |chunk| % 2 == 1
    ensures r.Some? ==> r.value.sumSquares == SumSquares(chunk) && r.value.sampleCount * 2 == |chunk|
  {
    var sum := 0;
    var i := 0;
    while i < |chunk|
      invariant 0 <= i <= |chunk| && i % 2 == 0
      invariant sum + SumSquares(chunk[i..]) == SumSquares(chunk)
    {
      if i + 2 > |chunk| {
        return None;
      }
      var x := ReadInt16LE(chunk, i);
      assert chunk[i..][2..] == chunk[i + 2..];
      sum := sum + Square(x);
      i := i + 2;
    }
    r := Some(Rms(sum, |chunk| / 2));
  }

  /**
   * For any non-negative real whose square is the mean square, exceeding the
   * threshold is the integer comparison `AboveThreshold` makes.
   */
  lemma RmsThreshold(r: Rms, rms: real)
    requires r.sampleCount > 0
    requires rms >= 0.0 && rms * rms == r.sumSquares as real / r.sampleCount as real
    ensures rms > THRESHOLD as real <==> AboveThreshold(r)
  {
    RootThreshold(rms, r.sumSquares as real, r.sampleCount as real);
    CastThreshold(r.sumSquares, r.sampleCount);
  }

  /** In the reals: √(total / n) > 300 exactly when total > 90000 · n. */
  lemma RootThreshold(rms: real, total: real, n: real)
    requires n > 0.0 && rms >= 0.0 && rms * rms == total / n
    ensures rms > 300.0 <==> total > 90000.0 * n
  {
    var meanSquare := total / n;
    RootAbove(rms, meanSquare, 300.0);
    ScaleAboveReal(meanSquare, 90000.0, n);
    DivideThenScale(total, n);
  }

  /** The same comparison made on the integers. */
  lemma CastThreshold(sum: nat, count: nat)
    ensures sum as real > 90000.0 * count as real <==> sum > 90000 * count
  {
    CastScale(count);
  }

  lemma DivideThenScale(x: real, n: real)
    requires n > 0.0
    ensures x / n * n == x
  {
  }

  lemma CastScale(count: nat)
    ensures (90000 * count) as real == 90000.0 * count as real
  {
  }

  /** A non-negative root exceeds c exactly when its square exceeds c². */
  lemma RootAbove(x: real, square: real, c: real)
    requires x >= 0.0 && c >= 0.0 && x * x == square
    ensures x > c <==> square > c * c
  {
    if x > c {
      ProductAbove(x, x, c);
    } else {
      ProductAtMost(x, c);
    }
  }

  lemma ProductAbove(x: real, y: real, c: real)
    requires x > c && y > c && c >= 0.0
    ensures x * y > c * c
  {
    assert x * y > c * y;
    assert c * y >= c * c;
  }

  lemma ProductAtMost(x: real, c: real)
    requires 0.0 <= x <= c
    ensures x * x <= c * c
  {
    assert x * x <= c * x;
    assert c * x <= c * c;
  }

  /** Scaling by a positive factor keeps the order. */
  lemma ScaleAboveReal(x: real, y: real, n: real)
    requires n > 0.0
    ensures x > y <==> x * n > y * n
  {
  }

  lemma ScaleAboveInt(x: int, y: int, n: int)
    requires x > y && n > 0
    ensures n * x > n * y
  {
  }

  lemma ScaleAtMost(x: int, y: int, n: int)
    requires x <= y && n >= 0
    ensures n * x <= n * y
  {
  }

  /** Little-endian PCM of a sequence of signed 16-bit samples. */
  function EncodeSamples(xs: seq<int>): (b: seq<Byte>)
    requires forall i | 0 <= i < |xs| :: -0x8000 <= xs[i] < 0x8000
    ensures |b| == 2 * |xs|
  {
    if xs == [] then [] else Int16LE(xs[0]) + EncodeSamples(xs[1..])
  }

  function SquareSum(xs: seq<int>): nat
  {
    if xs == [] then 0 else Square(xs[0]) + SquareSum(xs[1..])
  }

  /** Decoding what was encoded: the chunk's sum of squares is that of its samples. */
  lemma {:induction false} SumSquaresOfEncoded(xs: seq<int>)
    requires forall i | 0 <= i < |xs| :: -0x8000 <= xs[i] < 0x8000
    ensures SumSquares(EncodeSamples(xs)) == SquareSum(xs)
  {
    if xs != [] {
      var b := EncodeSamples(xs);
      Int16RoundTrip(xs[0]);
      assert b[..2] == Int16LE(xs[0]);
      assert ReadInt16LE(b, 0) == ReadInt16LE(b[..2], 0);
      assert b[2..] == EncodeSamples(xs[1..]);
      SumSquaresOfEncoded(xs[1..]);
    }
  }

  lemma {:induction false} SquareSumConstant(xs: seq<int>, a: int)
    requires forall i | 0 <= i < |xs| :: xs[i] == a
    ensures SquareSum(xs) == |xs| * Square(a)
  {
    if xs != [] {
      SquareSumConstant(xs[1..], a);
    }
  }

  /** |a| > 300 exactly when a² > 300². */
  lemma SquareAboveThreshold(a: int)
    ensures Square(a) > THRESHOLD * THRESHOLD <==> a > THRESHOLD || a < -THRESHOLD
  {
    var m := if a < 0 then -a else a;
    assert Square(a) == m * m;
    SquareAbove(m, THRESHOLD);
  }

  /** For naturals, m² > c² exactly when m > c. */
  lemma SquareAbove(m: nat, c: nat)
    ensures m * m > c * c <==> m > c
  {
    if m > c {
      assert m * m > c * m;
      assert c * m >= c * c;
    } else {
      assert m * m <= c * m;
      assert c * m <= c * c;
    }
  }

  /**
   * A chunk of constant amplitude `a` has RMS |a|: it is loud exactly when it
   * has samples and |a| exceeds the threshold.
   */
  lemma ConstantAmplitude(xs: seq<int>, a: int)
    requires -0x8000 <= a < 0x8000
    requires forall i | 0 <= i < |xs| :: xs[i] == a
    ensures RmsOf(EncodeSamples(xs)) == Rms(|xs| * Square(a), |xs|)
    ensures Loud(EncodeSamples(xs)) <==> |xs| > 0 && (a > THRESHOLD || a < -THRESHOLD)
  {
    SumSquaresOfEncoded(xs);
    SquareSumConstant(xs, a);
    SquareAboveThreshold(a);
    var n := |xs|;
    if n > 0 {
      if Square(a) > THRESHOLD * THRESHOLD {
        ScaleAboveInt(Square(a), THRESHOLD * THRESHOLD, n);
      } else {
        ScaleAtMost(Square(a), THRESHOLD * THRESHOLD, n);
      }
    }
  }

  /** Digital silence: a chunk of zero bytes has a zero sum of squares and is never loud. */
  lemma {:induction false} SilenceIsQuiet(chunk: seq<Byte>)
    requires forall i | 0 <= i < |chunk| :: chunk[i] == 0
    ensures SumSquares(chunk) == 0
    ensures !Loud(chunk)
  {
    if |chunk| >= 2 {
      SilenceIsQuiet(chunk[2..]);
    }
  }
}
