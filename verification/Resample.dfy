/** The linear resampler of the speech front end and the capture loop around it.  Positions are
    exact rationals: sample `i` of `outLen` sits at `i * (inLen - 1) / (outLen - 1)` of the input. */
module Resample {
  import opened CArith

  const TARGET_RATE := 16000

  ghost predicate Int16(x: int) {
    -0x8000 <= x < 0x8000
  }

  ghost predicate Int16s(s: seq<int>) {
    forall k | 0 <= k < |s| :: Int16(s[k])
  }

  /** Integer part of output `i`'s position in the input. */
  function Index(n: nat, outLen: nat, i: nat): int
    requires n >= 1 && outLen >= 2
  {
    (i * (n - 1)) / (outLen - 1)
  }

  /** Fractional part of that position, in units of `1 / (outLen - 1)`. */
  function Frac(n: nat, outLen: nat, i: nat): int
    requires n >= 1 && outLen >= 2
  {
    (i * (n - 1)) % (outLen - 1)
  }

  /** The interpolated value between `a` and `b`, `rem / d` of the way, times `d`. */
  function Blend(a: int, b: int, d: int, rem: int): int {
    a * (d - rem) + b * rem
  }

  /** Adding one half to `num / d` and cutting the fraction off toward zero. */
  function Rounded(num: int, d: int): int
    requires d > 0
  {
    TruncDiv(2 * num + d, 2 * d)
  }

  function Sample(inp: seq<int>, outLen: nat, i: nat): int
    requires |inp| >= 1 && outLen >= 2 && i < outLen
  {
    IndexInBounds(|inp|, outLen, i);
    var idx := Index(|inp|, outLen, i);
    if idx >= |inp| - 1 then inp[|inp| - 1]
    else Rounded(Blend(inp[idx], inp[idx + 1], outLen - 1, Frac(|inp|, outLen, i)), outLen - 1)
  }

  function Resampled(inp: seq<int>, outLen: nat): (out: seq<int>)
    ensures |inp| > 0 ==> |out| == outLen
  {
    if |inp| == 0 || outLen == 0 then []
    else if outLen == 1 then [inp[0]]
    else seq(outLen, i requires 0 <= i < outLen => Sample(inp, outLen, i))
  }

  /** `ResampleLinear`.  With `outLen == 1` the source divides by zero after storing the first
      sample; here it returns at that point. */
  method ResampleLinear(input: array<int>, inLen: nat, output: array<int>, outLen: nat)
    requires inLen <= input.Length && outLen <= output.Length && input != output
    modifies output
    ensures inLen > 0 ==> output[..outLen] == Resampled(input[..inLen], outLen)
    ensures inLen == 0 ==> output[..] == old(output[..])
    ensures output[outLen..] == old(output[outLen..])
  {
    if inLen == 0 || outLen == 0 {
      return;
    }
    if inLen == 1 || outLen == 1 {
      output[0] := input[0];
      if outLen == 1 {
        return;
      }
    }
    ghost var inp := input[..inLen];
    var i := 0;
    while i < outLen
      invariant 0 <= i <= outLen
      invariant input[..inLen] == inp
      invariant forall k | 0 <= k < i :: output[k] == Sample(inp, outLen, k)
      invariant output[outLen..] == old(output[outLen..])
    {
      var pos := i * (inLen - 1);
      var idx := pos / (outLen - 1);
      var deci := pos % (outLen - 1);
      IndexInBounds(inLen, outLen, i);
      if idx >= inLen - 1 {
        output[i] := input[inLen - 1];
      } else {
        output[i] := TruncDiv(2 * (input[idx] * (outLen - 1 - deci) + input[idx + 1] * deci) + (outLen - 1),
                              2 * (outLen - 1));
      }
      i := i + 1;
    }
    assert output[..outLen] == Resampled(inp, outLen);
  }

  // -------------------------------------------------------------- positions

  lemma IndexInBounds(n: nat, outLen: nat, i: nat)
    requires n >= 1 && outLen >= 2 && i < outLen
    ensures 0 <= Index(n, outLen, i) <= n - 1 && 0 <= Frac(n, outLen, i) < outLen - 1
    ensures i * (n - 1) == Index(n, outLen, i) * (outLen - 1) + Frac(n, outLen, i)
    ensures Index(n, outLen, i) == n - 1 <==> n == 1 || i == outLen - 1
  {
    PositionBound(n, outLen - 1, i);
    DivFacts(i * (n - 1), outLen - 1);
    QuotientOfPosition(n, outLen - 1, i, Index(n, outLen, i), Frac(n, outLen, i));
  }

  lemma QuotientOfPosition(n: nat, d: nat, i: nat, q: int, r: int)
    requires n >= 1 && d >= 1 && i <= d
    requires 0 <= r < d && q >= 0 && i * (n - 1) == q * d + r
    ensures q <= n - 1
    ensures q == n - 1 <==> n == 1 || i == d
  {
    var pos := i * (n - 1);
    PositionBound(n, d, i);
    QuotientLe(d, q, n - 1, pos);
    if i == d {
      QuotientLe(d, n - 1, q, pos);
    } else if n > 1 {
      Distribute(n - 2, 1, d);
      QuotientLe(d, q, n - 2, pos);
    }
  }

  lemma PositionBound(n: nat, d: nat, i: nat)
    requires n >= 1 && i <= d
    ensures 0 <= i * (n - 1) <= (n - 1) * d
    ensures i == d ==> i * (n - 1) == (n - 1) * d
    ensures i < d ==> i * (n - 1) <= (n - 1) * d - (n - 1)
  {
    MulMonotone(i, d, n - 1);
    if i < d {
      MulMonotone(i + 1, d, n - 1);
    }
  }

  /** The positions read never go backwards. */
  lemma IndexMonotone(n: nat, outLen: nat, i: nat, j: nat)
    requires n >= 1 && outLen >= 2 && i <= j < outLen
    ensures Index(n, outLen, i) <= Index(n, outLen, j)
    ensures Index(n, outLen, i) == Index(n, outLen, j) ==> Frac(n, outLen, i) <= Frac(n, outLen, j)
  {
    MulMonotone(i, j, n - 1);
    PositionBound(n, outLen - 1, i);
    DivMonotone(i * (n - 1), j * (n - 1), outLen - 1);
    IndexInBounds(n, outLen, i);
    IndexInBounds(n, outLen, j);
  }

  // --------------------------------------------------------------- rounding

  lemma RoundedBracket(num: int, d: int)
    requires d > 0
    ensures var a, v := 2 * num + d, Rounded(num, d) * (2 * d);
            && (a >= 0 ==> v <= a < v + 2 * d && Rounded(num, d) >= 0)
            && (a < 0 ==> v - 2 * d < a <= v && Rounded(num, d) <= 0)
  {
    TruncFacts(2 * num + d, 2 * d);
  }

  lemma RoundedError(num: int, d: int)
    requires d > 0
    ensures -d < 2 * (Rounded(num, d) * d - num) < 3 * d
  {
    RoundedBracket(num, d);
    Twice(Rounded(num, d), d);
  }

  /** Between integer bounds the rounded value is at most one above the upper one, and not above
      it at all unless that bound is negative. */
  lemma RoundedBetween(num: int, d: int, lo: int, hi: int)
    requires d > 0 && lo * d <= num <= hi * d
    ensures lo <= Rounded(num, d) <= hi + 1
    ensures hi >= 0 ==> Rounded(num, d) <= hi
  {
    LowerBoundKept(num, d, lo);
    UpperBoundKept(num, d, hi);
  }

  lemma LowerBoundKept(num: int, d: int, lo: int)
    requires d > 0 && lo * d <= num
    ensures lo <= Rounded(num, d)
  {
    var v := Rounded(num, d);
    RoundedBracket(num, d);
    Twice(lo, d);
    if 2 * num + d >= 0 {
      QuotientLe(2 * d, lo, v, 2 * num + d);
    } else {
      QuotientLe(2 * d, lo, v, v * (2 * d));
    }
  }

  lemma UpperBoundKept(num: int, d: int, hi: int)
    requires d > 0 && num <= hi * d
    ensures Rounded(num, d) <= hi + 1
    ensures hi >= 0 ==> Rounded(num, d) <= hi
  {
    var v := Rounded(num, d);
    RoundedBracket(num, d);
    Twice(hi, d);
    if 2 * num + d >= 0 {
      QuotientLe(2 * d, v, hi, 2 * num + d);
    } else {
      assert (hi + 1) * (2 * d) == hi * (2 * d) + 2 * d;
      QuotientLe(2 * d, v, hi + 1, v * (2 * d));
    }
  }

  lemma RoundedMonotone(x: int, y: int, d: int)
    requires d > 0 && x <= y
    ensures Rounded(x, d) <= Rounded(y, d)
  {
    var a, b := 2 * x + d, 2 * y + d;
    if a >= 0 {
      DivMonotone(a, b, 2 * d);
    } else if b < 0 {
      DivMonotone(-b, -a, 2 * d);
    } else {
      RoundedBracket(x, d);
      RoundedBracket(y, d);
    }
  }

  lemma BlendBetween(a: int, b: int, d: int, rem: int, lo: int, hi: int)
    requires 0 <= rem <= d && lo <= a <= hi && lo <= b <= hi
    ensures lo * d <= Blend(a, b, d, rem) <= hi * d
  {
    MulMonotone(lo, a, d - rem);
    MulMonotone(lo, b, rem);
    MulMonotone(a, hi, d - rem);
    MulMonotone(b, hi, rem);
    BlendForm(lo, lo, d, rem);
    BlendForm(hi, hi, d, rem);
  }

  // ---------------------------------------------------------------- accuracy

  /** Output `i` times `outLen - 1`, before rounding; see `ExactIsOnLine`. */
  ghost function Exact(inp: seq<int>, outLen: nat, i: nat): int
    requires |inp| >= 2 && outLen >= 2 && i < outLen - 1
  {
    IndexInBounds(|inp|, outLen, i);
    var idx := Index(|inp|, outLen, i);
    Blend(inp[idx], inp[idx + 1], outLen - 1, Frac(|inp|, outLen, i))
  }

  lemma SampleExact(inp: seq<int>, outLen: nat, i: nat)
    requires |inp| >= 2 && outLen >= 2 && i < outLen - 1
    ensures Sample(inp, outLen, i) == Rounded(Exact(inp, outLen, i), outLen - 1)
  {
    IndexInBounds(|inp|, outLen, i);
  }

  /** The straight line through the inputs, at a real position. */
  ghost function Line(inp: seq<int>, x: real): real
    requires 0.0 <= x && x.Floor < |inp| - 1
  {
    var k := x.Floor;
    inp[k] as real + (inp[k + 1] - inp[k]) as real * (x - k as real)
  }

  lemma FloorOfPosition(q: int, r: int, d: int, x: real)
    requires d > 0 && 0 <= r < d && x == (q * d + r) as real / d as real
    ensures x == q as real + r as real / d as real && x.Floor == q
  {
    assert (q * d + r) as real == q as real * d as real + r as real;
    assert 0.0 <= r as real / d as real < 1.0;
  }

  /** `Exact` over `outLen - 1` is the line's value at `i * (inLen - 1) / (outLen - 1)`. */
  lemma ExactIsOnLine(inp: seq<int>, outLen: nat, i: nat)
    requires |inp| >= 2 && outLen >= 2 && i < outLen - 1
    ensures var x := (i * (|inp| - 1)) as real / (outLen - 1) as real;
            && 0.0 <= x && x.Floor < |inp| - 1
            && Line(inp, x) * (outLen - 1) as real == Exact(inp, outLen, i) as real
  {
    var d := outLen - 1;
    var x := (i * (|inp| - 1)) as real / d as real;
    var k, r := Index(|inp|, outLen, i), Frac(|inp|, outLen, i);
    IndexInBounds(|inp|, outLen, i);
    FloorOfPosition(k, r, d, x);
    BlendForm(inp[k], inp[k + 1], d, r);
    LineTimes(inp[k], inp[k + 1], d, r);
  }

  lemma LineTimes(a: int, b: int, d: int, r: int)
    requires d > 0
    ensures (a as real + (b - a) as real * (r as real / d as real)) * d as real == (a * d + r * (b - a)) as real
  {
    var f := r as real / d as real;
    assert f * d as real == r as real;
    assert ((b - a) as real * f) * d as real == (b - a) as real * (f * d as real);
    assert (r * (b - a)) as real == r as real * (b - a) as real;
    assert (a * d) as real == a as real * d as real;
  }

  /** Every output but the last is within (-1/2, 3/2) of the exact interpolation, lies between its
      two neighbouring inputs or at most one above them, and fits 16 bits; the last is exact. */
  lemma SampleAccuracy(inp: seq<int>, outLen: nat, i: nat)
    requires |inp| >= 2 && outLen >= 2 && i < outLen
    ensures Int16s(inp) ==> Int16(Sample(inp, outLen, i))
    ensures i == outLen - 1 ==> Sample(inp, outLen, i) == inp[|inp| - 1]
    ensures i < outLen - 1 ==>
              var k, v, d := Index(|inp|, outLen, i), Sample(inp, outLen, i), outLen - 1;
              && 0 <= k < |inp| - 1
              && -d < 2 * (v * d - Exact(inp, outLen, i)) < 3 * d
              && Min(inp[k], inp[k + 1]) <= v <= Max(inp[k], inp[k + 1]) + 1
              && (Max(inp[k], inp[k + 1]) >= 0 ==> v <= Max(inp[k], inp[k + 1]))
  {
    IndexInBounds(|inp|, outLen, i);
    if i < outLen - 1 {
      var k, d := Index(|inp|, outLen, i), outLen - 1;
      var lo, hi := Min(inp[k], inp[k + 1]), Max(inp[k], inp[k + 1]);
      SampleExact(inp, outLen, i);
      RoundedError(Exact(inp, outLen, i), d);
      BlendBetween(inp[k], inp[k + 1], d, Frac(|inp|, outLen, i), lo, hi);
      RoundedBetween(Exact(inp, outLen, i), d, lo, hi);
    }
  }

  function Min(a: int, b: int): int { if a <= b then a else b }

  function Max(a: int, b: int): int { if a <= b then b else a }

  /** `out` is the straight line through `inp` read at `|out|` evenly spaced positions from the first
      sample to the last, each value off by less than a half below and one and a half above and
      hardly outside its two neighbours. */
  ghost predicate OnTheLine(inp: seq<int>, out: seq<int>)
    requires |inp| >= 2 && |out| >= 2
  {
    && out[|out| - 1] == inp[|inp| - 1]
    && forall i | 0 <= i < |out| - 1 :: NearLine(inp, (i * (|inp| - 1)) as real / (|out| - 1) as real, out[i])
  }

  ghost predicate NearLine(inp: seq<int>, x: real, v: int) {
    && 0.0 <= x && x.Floor < |inp| - 1
    && -0.5 < v as real - Line(inp, x) < 1.5
    && var lo, hi := Min(inp[x.Floor], inp[x.Floor + 1]), Max(inp[x.Floor], inp[x.Floor + 1]);
       lo <= v <= hi + 1 && (hi >= 0 ==> v <= hi)
  }

  lemma RealMulMonotone(a: real, b: real, r: real)
    requires a <= b && r > 0.0
    ensures a * r <= b * r
  {
    assert (b - a) * r >= 0.0;
  }

  lemma RealProduct(a: int, b: int)
    ensures (a * b) as real == a as real * b as real
  {
  }

  lemma RealDifference(a: real, b: real, r: real)
    ensures (a - b) * r == a * r - b * r
  {
  }

  lemma ScaledBounds(off: real, r: real, p: real)
    requires r > 0.0 && off * r == p && -r < 2.0 * p < 3.0 * r
    ensures -0.5 < off < 1.5
  {
    if off <= -0.5 {
      RealMulMonotone(off, -0.5, r);
    }
    if off >= 1.5 {
      RealMulMonotone(1.5, off, r);
    }
  }

  lemma RealBounds(e: int, d: int)
    requires -d < 2 * e < 3 * d
    ensures -(d as real) < 2.0 * (e as real) < 3.0 * d as real
  {
  }

  lemma OffTimesD(v: int, d: int, exact: int, line: real)
    requires line * d as real == exact as real
    ensures (v as real - line) * d as real == (v * d - exact) as real
  {
    RealProduct(v, d);
    RealDifference(v as real, line, d as real);
  }

  lemma ErrorOverD(v: int, d: int, exact: int, line: real)
    requires d > 0 && line * d as real == exact as real
    requires -d < 2 * (v * d - exact) < 3 * d
    ensures -0.5 < v as real - line < 1.5
  {
    var e := v * d - exact;
    OffTimesD(v, d, exact, line);
    RealBounds(e, d);
    ScaledBounds(v as real - line, d as real, e as real);
  }

  lemma SampleNearLine(inp: seq<int>, outLen: nat, i: nat)
    requires |inp| >= 2 && outLen >= 2 && i < outLen - 1
    ensures NearLine(inp, (i * (|inp| - 1)) as real / (outLen - 1) as real, Sample(inp, outLen, i))
  {
    hide Exact, Sample, Line;
    var d, v := outLen - 1, Sample(inp, outLen, i);
    var x := (i * (|inp| - 1)) as real / d as real;
    SampleAccuracy(inp, outLen, i);
    ExactIsOnLine(inp, outLen, i);
    IndexInBounds(|inp|, outLen, i);
    FloorOfPosition(Index(|inp|, outLen, i), Frac(|inp|, outLen, i), d, x);
    ErrorOverD(v, d, Exact(inp, outLen, i), Line(inp, x));
  }

  /** The whole output, from the inputs alone. */
  lemma ResampledOnTheLine(inp: seq<int>, outLen: nat)
    requires |inp| >= 2 && outLen >= 2
    ensures OnTheLine(inp, Resampled(inp, outLen))
  {
    hide NearLine;
    SampleAccuracy(inp, outLen, outLen - 1);
    forall i | 0 <= i < outLen - 1
      ensures NearLine(inp, (i * (|inp| - 1)) as real / (outLen - 1) as real, Resampled(inp, outLen)[i])
    {
      SampleNearLine(inp, outLen, i);
    }
  }

  // ------------------------------------------------------------------- order

  ghost predicate NonDecreasing(s: seq<int>) {
    forall i, j | 0 <= i <= j < |s| :: s[i] <= s[j]
  }

  ghost predicate NonIncreasing(s: seq<int>) {
    forall i, j | 0 <= i <= j < |s| :: s[i] >= s[j]
  }

  lemma ExactNonDecreasing(inp: seq<int>, outLen: nat, i: nat, j: nat)
    requires |inp| >= 2 && outLen >= 2 && i <= j < outLen - 1 && NonDecreasing(inp)
    ensures Exact(inp, outLen, i) <= Exact(inp, outLen, j) <= inp[|inp| - 1] * (outLen - 1)
  {
    var n, d := |inp|, outLen - 1;
    IndexInBounds(n, outLen, i);
    IndexInBounds(n, outLen, j);
    IndexMonotone(n, outLen, i, j);
    var p, q := Index(n, outLen, i), Index(n, outLen, j);
    BlendBetween(inp[q], inp[q + 1], d, Frac(n, outLen, j), inp[q], inp[n - 1]);
    if p == q {
      BlendMonotone(inp[p], inp[p + 1], d, Frac(n, outLen, i), Frac(n, outLen, j));
    } else {
      BlendBetween(inp[p], inp[p + 1], d, Frac(n, outLen, i), inp[p], inp[p + 1]);
      MulMonotone(inp[p + 1], inp[q], d);
    }
  }

  lemma BlendMonotone(a: int, b: int, d: int, r: int, s: int)
    requires a <= b && r <= s
    ensures Blend(a, b, d, r) <= Blend(a, b, d, s)
  {
    BlendForm(a, b, d, r);
    BlendForm(a, b, d, s);
    MulMonotone(r, s, b - a);
  }

  lemma BlendForm(a: int, b: int, d: int, r: int)
    ensures Blend(a, b, d, r) == a * d + r * (b - a)
  {
  }

  function Negated(s: seq<int>): seq<int> {
    seq(|s|, i requires 0 <= i < |s| => -s[i])
  }

  lemma ExactNonIncreasing(inp: seq<int>, outLen: nat, i: nat, j: nat)
    requires |inp| >= 2 && outLen >= 2 && i <= j < outLen - 1 && NonIncreasing(inp)
    ensures Exact(inp, outLen, i) >= Exact(inp, outLen, j) >= inp[|inp| - 1] * (outLen - 1)
  {
    hide Exact;
    ExactNonDecreasing(Negated(inp), outLen, i, j);
    ExactNegated(inp, outLen, i);
    ExactNegated(inp, outLen, j);
    MulNegated(inp[|inp| - 1], outLen - 1);
  }

  lemma ExactNegated(inp: seq<int>, outLen: nat, i: nat)
    requires |inp| >= 2 && outLen >= 2 && i < outLen - 1
    ensures Exact(Negated(inp), outLen, i) == -Exact(inp, outLen, i)
  {
    IndexInBounds(|inp|, outLen, i);
    var k, d, r := Index(|inp|, outLen, i), outLen - 1, Frac(|inp|, outLen, i);
    MulNegated(inp[k], d - r);
    MulNegated(inp[k + 1], r);
  }

  lemma FallingStaysFalling(inp: seq<int>, outLen: nat)
    requires |inp| >= 2 && outLen >= 2 && NonIncreasing(inp)
    ensures NonIncreasing(Resampled(inp, outLen))
  {
    var out, d := Resampled(inp, outLen), outLen - 1;
    forall i, j | 0 <= i <= j < outLen
      ensures out[i] >= out[j]
    {
      if i < d {
        SampleExact(inp, outLen, i);
        if j < d {
          ExactNonIncreasing(inp, outLen, i, j);
          SampleExact(inp, outLen, j);
          RoundedMonotone(Exact(inp, outLen, j), Exact(inp, outLen, i), d);
        } else {
          IndexInBounds(|inp|, outLen, j);
          ExactNonIncreasing(inp, outLen, i, i);
          LowerBoundKept(Exact(inp, outLen, i), d, inp[|inp| - 1]);
        }
      }
    }
  }

  /** A rising input stays rising up to the last output. */
  lemma RisingStaysRisingButLast(inp: seq<int>, outLen: nat)
    requires |inp| >= 2 && outLen >= 2 && NonDecreasing(inp)
    ensures NonDecreasing(Resampled(inp, outLen)[..outLen - 1])
  {
    var out := Resampled(inp, outLen);
    forall i, j | 0 <= i <= j < outLen - 1
      ensures out[i] <= out[j]
    {
      SampleExact(inp, outLen, i);
      SampleExact(inp, outLen, j);
      ExactNonDecreasing(inp, outLen, i, j);
      RoundedMonotone(Exact(inp, outLen, i), Exact(inp, outLen, j), outLen - 1);
    }
  }

  /** And up to and including the last output exactly when the last input is not negative or the
      value interpolated just before it is at least one half below it: truncating a negative sum
      rounds up, and the last output is not rounded. */
  lemma RisingStaysRisingIff(inp: seq<int>, outLen: nat)
    requires |inp| >= 2 && outLen >= 2 && NonDecreasing(inp)
    ensures NonDecreasing(Resampled(inp, outLen))
            <==> || inp[|inp| - 1] >= 0
                 || 2 * Exact(inp, outLen, outLen - 2) + (outLen - 1) <= 2 * (inp[|inp| - 1] * (outLen - 1))
  {
    var out, d, last := Resampled(inp, outLen), outLen - 1, inp[|inp| - 1];
    var num := Exact(inp, outLen, d - 1);
    RisingStaysRisingButLast(inp, outLen);
    ExactNonDecreasing(inp, outLen, d - 1, d - 1);
    SampleExact(inp, outLen, d - 1);
    IndexInBounds(|inp|, outLen, d);
    assert out[d] == last && out[d - 1] == Rounded(num, d);
    LastStepIff(num, d, last);
    if out[d - 1] <= last {
      forall i, j | 0 <= i <= j < outLen
        ensures out[i] <= out[j]
      {
        assert forall k | 0 <= k < d :: out[..d][k] == out[k];
        assert out[Min(i, d - 1)] <= out[d - 1];
      }
    }
  }

  lemma LastStepIff(num: int, d: int, last: int)
    requires d > 0 && num <= last * d
    ensures Rounded(num, d) <= last <==> last >= 0 || 2 * num + d <= 2 * (last * d)
  {
    var v, a := Rounded(num, d), 2 * num + d;
    UpperBoundKept(num, d, last);
    if last < 0 {
      RoundedBracket(num, d);
      MulMonotone(last, -1, d);
      Twice(last, d);
      if a <= last * (2 * d) {
        assert (last + 1) * (2 * d) == last * (2 * d) + 2 * d;
        QuotientLe(2 * d, v, last, v * (2 * d));
      } else if v <= last {
        MulMonotone(v, last, 2 * d);
      }
    }
  }

  /** The smallest witness: resampling the constant -1 from two samples to three ends with a step down. */
  lemma ConstantMinusOneDips()
    ensures Resampled([-1, -1], 3) == [0, 0, -1]
    ensures NonDecreasing([-1, -1]) && !NonDecreasing(Resampled([-1, -1], 3))
  {
    var out := Resampled([-1, -1], 3);
    assert out[0] == Sample([-1, -1], 3, 0) == 0;
    assert out[1] == Sample([-1, -1], 3, 1) == 0;
    assert out[2] == Sample([-1, -1], 3, 2) == -1;
  }

  // ------------------------------------------------------------ capture loop

  /** One `snd_pcm_readi`: an error, or a chunk together with the verdict of the detector that is
      listening at that moment. */
  datatype Read = Failed | Chunk(samples: seq<int>, detected: bool)

  datatype AppState = Kws | Asr

  /** Frames produced for a chunk: `frames * target / rate` is an integer division, so the added
      one half is cut off again. */
  function OutFrames(frames: nat, rate: nat): nat
    requires rate > 0
  {
    TruncDiv(frames * TARGET_RATE, rate)
  }

  /** What one captured chunk becomes. */
  function Fed(samples: seq<int>, rate: nat): seq<int>
    requires rate > 0
  {
    Resampled(samples, OutFrames(|samples|, rate))
  }

  function Chunks(attempts: seq<Read>): seq<Read> {
    if attempts == [] then []
    else if attempts[|attempts| - 1].Failed? then Chunks(attempts[..|attempts| - 1])
    else Chunks(attempts[..|attempts| - 1]) + [attempts[|attempts| - 1]]
  }

  ghost predicate AllChunks(s: seq<Read>) {
    forall k | 0 <= k < |s| :: s[k].Chunk?
  }

  function FramesIn(chunks: seq<Read>): nat
    requires AllChunks(chunks)
  {
    if chunks == [] then 0
    else FramesIn(chunks[..|chunks| - 1]) + |chunks[|chunks| - 1].samples|
  }

  function TotalLen(outs: seq<seq<int>>): nat {
    if outs == [] then 0 else TotalLen(outs[..|outs| - 1]) + |outs[|outs| - 1]|
  }

  function Detections(chunks: seq<Read>): nat
    requires AllChunks(chunks)
  {
    if chunks == [] then 0
    else Detections(chunks[..|chunks| - 1]) + if chunks[|chunks| - 1].detected then 1 else 0
  }

  /** Each chunk resampled by itself. */
  function FedAll(chunks: seq<Read>, rate: nat): seq<seq<int>>
    requires rate > 0 && AllChunks(chunks)
  {
    if chunks == [] then []
    else FedAll(chunks[..|chunks| - 1], rate) + [Fed(chunks[|chunks| - 1].samples, rate)]
  }

  lemma ChunksStep(attempts: seq<Read>, i: nat)
    requires i < |attempts|
    ensures Chunks(attempts[..i + 1])
            == if attempts[i].Failed? then Chunks(attempts[..i]) else Chunks(attempts[..i]) + [attempts[i]]
  {
    var now := attempts[..i + 1];
    assert now[..i] == attempts[..i] && now[i] == attempts[i];
  }

  lemma ChunkSnoc(chunks: seq<Read>, c: Read, rate: nat)
    requires rate > 0 && c.Chunk? && AllChunks(chunks)
    ensures AllChunks(chunks + [c])
    ensures FedAll(chunks + [c], rate) == FedAll(chunks, rate) + [Fed(c.samples, rate)]
    ensures Detections(chunks + [c]) == Detections(chunks) + if c.detected then 1 else 0
  {
    assert (chunks + [c])[..|chunks|] == chunks;
  }

  lemma NothingCaptured(attempts: seq<Read>, rate: nat)
    requires rate > 0
    ensures Chunks(attempts[..0]) == [] && FedAll([], rate) == [] && Detections([]) == 0
  {
  }

  /** What a detector must be handed for one captured chunk: as many frames as 16 kHz allow, lying on
      the line through the samples; of a single sample, or into a single frame, copies of the first. */
  ghost predicate Interpolates(samples: seq<int>, out: seq<int>, rate: nat) {
    && |out| * rate <= |samples| * 16000 < |out| * rate + rate
    && (|samples| >= 2 && |out| >= 2 ==> OnTheLine(samples, out))
    && (|samples| == 1 || |out| == 1 ==> forall k | 0 <= k < |out| :: samples != [] && out[k] == samples[0])
  }

  lemma FedInterpolates(samples: seq<int>, rate: nat)
    requires rate > 0
    ensures Interpolates(samples, Fed(samples, rate), rate)
  {
    var m := OutFrames(|samples|, rate);
    FedLength(samples, rate);
    OutFramesFacts(|samples|, rate);
    if |samples| >= 2 && m >= 2 {
      ResampledOnTheLine(samples, m);
    } else if |samples| == 1 && m >= 2 {
      forall k | 0 <= k < m
        ensures Fed(samples, rate)[k] == samples[0]
      {
        IndexInBounds(1, m, k);
      }
    }
  }

  lemma {:induction false} FedAllInterpolates(chunks: seq<Read>, rate: nat)
    requires rate > 0 && AllChunks(chunks)
    ensures |FedAll(chunks, rate)| == |chunks|
    ensures forall k | 0 <= k < |chunks| :: Interpolates(chunks[k].samples, FedAll(chunks, rate)[k], rate)
  {
    hide Interpolates;
    if chunks != [] {
      FedAllInterpolates(chunks[..|chunks| - 1], rate);
      FedInterpolates(chunks[|chunks| - 1].samples, rate);
    }
  }

  /** Read by read: the chunks of two runs of reads in a row are those of the first and then those of
      the second, and a single read counts exactly if it did not fail. */
  lemma {:induction false} ChunksReadByRead(a: seq<Read>, b: seq<Read>, r: Read)
    ensures Chunks(a + b) == Chunks(a) + Chunks(b)
    ensures Chunks([r]) == if r.Chunk? then [r] else []
    decreases |b|
  {
    assert [r][..0] == [];
    if b == [] {
      assert a + b == a;
    } else {
      var last := |b| - 1;
      ChunksReadByRead(a, b[..last], r);
      assert (a + b)[..|a| + last] == a + b[..last] && (a + b)[|a| + last] == b[last];
      assert Chunks(a) + (Chunks(b[..last]) + [b[last]]) == (Chunks(a) + Chunks(b[..last])) + [b[last]];
    }
  }

  ghost function DetectedAt(chunks: seq<Read>): set<nat>
    requires AllChunks(chunks)
  {
    set k: nat | k < |chunks| && chunks[k].detected
  }

  lemma {:induction false} DetectionsCount(chunks: seq<Read>)
    requires AllChunks(chunks)
    ensures Detections(chunks) == |DetectedAt(chunks)|
  {
    if chunks != [] {
      var last := |chunks| - 1;
      DetectionsCount(chunks[..last]);
      var before := DetectedAt(chunks[..last]);
      assert last !in before;
      assert DetectedAt(chunks) == if chunks[last].detected then before + {last} else before;
    }
  }

  /** The capture loop over a finite run of reads: failed reads are skipped, every chunk is
      resampled by itself, and each detection hands over to the other detector. */
  method CaptureLoop(attempts: seq<Read>, rate: nat) returns (fed: seq<seq<int>>, state: AppState)
    requires rate > 0
    ensures AllChunks(Chunks(attempts)) && fed == FedAll(Chunks(attempts), rate)
    ensures |fed| == |Chunks(attempts)|
    ensures forall k | 0 <= k < |fed| :: Interpolates(Chunks(attempts)[k].samples, fed[k], rate)
    ensures state == Kws <==> |DetectedAt(Chunks(attempts))| % 2 == 0
  {
    hide Fed, Chunks, FedAll, Detections, Interpolates, DetectedAt;
    fed, state := [], Kws;
    NothingCaptured(attempts, rate);
    ghost var done: seq<Read> := [];
    var i := 0;
    while i < |attempts|
      invariant 0 <= i <= |attempts| && done == Chunks(attempts[..i])
      invariant AllChunks(done) && fed == FedAll(done, rate)
      invariant state == Kws <==> Detections(done) % 2 == 0
    {
      var r := attempts[i];
      ChunksStep(attempts, i);
      i := i + 1;
      if r.Failed? {
        continue;
      }
      var out := ResampleChunk(r.samples, rate);
      ChunkSnoc(done, r, rate);
      fed := fed + [out];
      done := done + [r];
      if state == Asr {
        if r.detected {
          state := Kws;
        }
      } else if r.detected {
        state := Asr;
      }
    }
    assert attempts[..i] == attempts;
    FedAllInterpolates(done, rate);
    DetectionsCount(done);
  }

  /** The loop's buffers for one chunk. */
  method ResampleChunk(samples: seq<int>, rate: nat) returns (out: seq<int>)
    requires rate > 0
    ensures out == Fed(samples, rate)
  {
    var buffer := new int[|samples|](i requires 0 <= i < |samples| => samples[i]);
    var resampleBuffer := new int[OutFrames(|samples|, rate)];
    FedLength(samples, rate);
    ResampleLinear(buffer, |samples|, resampleBuffer, resampleBuffer.Length);
    assert buffer[..|samples|] == samples;
    out := resampleBuffer[..];
    assert out == resampleBuffer[..resampleBuffer.Length];
  }

  lemma OutFramesFacts(frames: nat, rate: nat)
    requires rate > 0
    ensures OutFrames(frames, rate) * rate <= frames * TARGET_RATE < OutFrames(frames, rate) * rate + rate
    ensures frames == 0 ==> OutFrames(frames, rate) == 0
  {
    TruncFacts(frames * TARGET_RATE, rate);
  }

  lemma FedLength(samples: seq<int>, rate: nat)
    requires rate > 0
    ensures |Fed(samples, rate)| == OutFrames(|samples|, rate)
  {
    OutFramesFacts(|samples|, rate);
  }

  /** Resampling chunk by chunk never produces more frames than the exact ratio allows and loses
      less than one frame per chunk. */
  lemma {:induction false} ChunkTotals(chunks: seq<Read>, rate: nat)
    requires rate > 0 && AllChunks(chunks)
    ensures TotalLen(FedAll(chunks, rate)) * rate <= FramesIn(chunks) * 16000
    ensures chunks != [] ==>
              FramesIn(chunks) * 16000 < (TotalLen(FedAll(chunks, rate)) + |chunks|) * rate
  {
    if chunks != [] {
      var m := |chunks| - 1;
      var before, last := TotalLen(FedAll(chunks[..m], rate)), chunks[m].samples;
      ChunkTotals(chunks[..m], rate);
      FedLength(last, rate);
      OutFramesFacts(|last|, rate);
      TotalSnoc(FedAll(chunks[..m], rate), Fed(last, rate));
      Distribute(before, |Fed(last, rate)|, rate);
      Distribute(before + |Fed(last, rate)|, |chunks|, rate);
      Distribute(before, m, rate);
      Distribute(m, 1, rate);
    }
  }

  lemma TotalSnoc(outs: seq<seq<int>>, out: seq<int>)
    ensures TotalLen(outs + [out]) == TotalLen(outs) + |out|
  {
    assert (outs + [out])[..|outs|] == outs;
  }
}
