/** The mixer's percent/raw conversions and the ten-point volume buttons. */
module Volume {
  import opened CArith

  /** `SetVolume`'s raw value for a percentage. */
  function RawOf(minv: int, maxv: int, percent: int): int
  {
    minv + TruncDiv(percent * (maxv - minv), 100)
  }

  /** `GetVolume`'s percentage for a raw value, rounded to the nearest point. */
  function PercentOf(minv: int, maxv: int, raw: int): int
    requires minv < maxv
  {
    TruncDiv((raw - minv) * 100 + TruncDiv(maxv - minv, 2), maxv - minv)
  }

  ghost predicate InRange(minv: int, maxv: int, raw: int) {
    minv <= raw <= maxv
  }

  /** The raw value one press of volume-up leaves: at 90 points or more only a local is changed. */
  function UpStep(minv: int, maxv: int, raw: int): int
    requires minv < maxv
  {
    var v := PercentOf(minv, maxv, raw);
    if v >= 90 then raw else RawOf(minv, maxv, v + 10)
  }

  function DownStep(minv: int, maxv: int, raw: int): int
    requires minv < maxv
  {
    var v := PercentOf(minv, maxv, raw);
    if v <= 10 then raw else RawOf(minv, maxv, v - 10)
  }

  /** Point `g` is nearest to the level `raw`: with `r` steps to the control, the level lies less than
      half a point above it or at most half a point below, `r / 2` being cut to a whole number. */
  ghost predicate Nearest(minv: int, maxv: int, raw: int, g: int) {
    var r := maxv - minv;
    g * r <= (raw - minv) * 100 + r / 2 < g * r + r
  }

  lemma PercentBracket(minv: int, maxv: int, raw: int)
    requires minv < maxv && InRange(minv, maxv, raw)
    ensures 0 <= PercentOf(minv, maxv, raw) && Nearest(minv, maxv, raw, PercentOf(minv, maxv, raw))
  {
    TruncFacts((raw - minv) * 100 + (maxv - minv) / 2, maxv - minv);
  }

  /** There is one nearest point. */
  lemma NearestIsUnique(minv: int, maxv: int, raw: int, g: int, h: int)
    requires minv < maxv && Nearest(minv, maxv, raw, g) && Nearest(minv, maxv, raw, h)
    ensures g == h
  {
    QuotientLe(maxv - minv, g, h, (raw - minv) * 100 + (maxv - minv) / 2);
    QuotientLe(maxv - minv, h, g, (raw - minv) * 100 + (maxv - minv) / 2);
  }

  lemma PercentIsNearest(minv: int, maxv: int, raw: int, g: int)
    requires minv < maxv && InRange(minv, maxv, raw)
    ensures Nearest(minv, maxv, raw, g) <==> g == PercentOf(minv, maxv, raw)
  {
    PercentBracket(minv, maxv, raw);
    if Nearest(minv, maxv, raw, g) {
      NearestIsUnique(minv, maxv, raw, g, PercentOf(minv, maxv, raw));
    }
  }

  class Mixer {
    const minv: int
    const maxv: int
    var raw: int

    ghost predicate Valid()
      reads this
    {
      minv < maxv && InRange(minv, maxv, raw)
    }

    constructor (minv: int, maxv: int, raw: int)
      requires minv < maxv && InRange(minv, maxv, raw)
      ensures Valid() && this.minv == minv && this.maxv == maxv && this.raw == raw
    {
      this.minv, this.maxv, this.raw := minv, maxv, raw;
    }

    /** The percentage point nearest to the level, a level half way between two shown as the upper. */
    method GetVolume() returns (value: int)
      requires Valid()
      ensures 0 <= value <= 100 && Nearest(minv, maxv, raw, value)
    {
      PercentBracket(minv, maxv, raw);
      PercentInRange(minv, maxv, raw);
      value := TruncDiv((raw - minv) * 100 + TruncDiv(maxv - minv, 2), maxv - minv);
    }

    method SetVolume(volume: int)
      requires Valid() && 0 <= volume <= 100
      modifies this
      ensures Valid() && raw == RawOf(minv, maxv, volume)
    {
      RawInRange(minv, maxv, volume);
      raw := minv + TruncDiv(volume * (maxv - minv), 100);
    }

    method UpVolume()
      requires Valid()
      modifies this
      ensures Valid() && raw == UpStep(minv, maxv, old(raw))
    {
      var volume := GetVolume();
      PercentIsNearest(minv, maxv, raw, volume);
      if volume >= 90 {
        volume := 100;
      } else if volume < 90 {
        volume := volume + 10;
        SetVolume(volume);
      }
    }

    method DownVolume()
      requires Valid()
      modifies this
      ensures Valid() && raw == DownStep(minv, maxv, old(raw))
    {
      var volume := GetVolume();
      PercentIsNearest(minv, maxv, raw, volume);
      if volume <= 10 {
        volume := 0;
      } else if volume > 10 {
        volume := volume - 10;
        SetVolume(volume);
      }
    }
  }

  // ---------------------------------------------------------------- ranges

  lemma RawInRange(minv: int, maxv: int, percent: int)
    requires minv < maxv && 0 <= percent <= 100
    ensures InRange(minv, maxv, RawOf(minv, maxv, percent))
  {
    MulMonotone(percent, 100, maxv - minv);
    assert percent * (maxv - minv) >= 0;
  }

  lemma PercentInRange(minv: int, maxv: int, raw: int)
    requires minv < maxv && InRange(minv, maxv, raw)
    ensures 0 <= PercentOf(minv, maxv, raw) <= 100
  {
    var r, h := maxv - minv, TruncDiv(maxv - minv, 2);
    var g := PercentOf(minv, maxv, raw);
    if g >= 101 {
      MulMonotone(101, g, r);
    }
  }

  // ------------------------------------------------------------- read-back

  /** The percentage `g` shown for a raw value that lies `cut` hundredths of a step below `p`
      percent of `r` steps. */
  lemma ReadBackCore(r: int, p: int, cut: int, g: int)
    requires r > 0 && 0 <= cut < 100
    requires g * r <= p * r - cut + r / 2 < g * r + r
    ensures g <= p
    ensures g == p <==> cut <= r / 2
    ensures r >= 66 ==> g >= p - 1
  {
    var n := p * r - cut + r / 2;
    Distribute(p - 1, 1, r);
    QuotientLe(r, g, p, n);
    if r / 2 < cut {
      QuotientLe(r, g, p - 1, n);
    } else {
      QuotientLe(r, p, g, n);
    }
    if r >= 66 {
      QuotientLe(r, p - 1, g, n);
    }
  }

  /** Reading back a set percentage: never above it, exact precisely when the part cut off by
      `SetVolume` is at most the half step `GetVolume` adds. */
  lemma ReadBack(minv: int, maxv: int, p: int)
    requires minv < maxv && 0 <= p <= 100
    ensures PercentOf(minv, maxv, RawOf(minv, maxv, p)) <= p
    ensures PercentOf(minv, maxv, RawOf(minv, maxv, p)) == p
            <==> (p * (maxv - minv)) % 100 <= (maxv - minv) / 2
    ensures maxv - minv >= 66 ==> PercentOf(minv, maxv, RawOf(minv, maxv, p)) >= p - 1
    ensures maxv - minv >= 198 ==> PercentOf(minv, maxv, RawOf(minv, maxv, p)) == p
  {
    var r, raw := maxv - minv, RawOf(minv, maxv, p);
    RawCut(minv, maxv, p);
    RawInRange(minv, maxv, p);
    PercentBracket(minv, maxv, raw);
    ReadBackCore(r, p, (p * r) % 100, PercentOf(minv, maxv, raw));
  }

  lemma RawCut(minv: int, maxv: int, p: int)
    requires minv < maxv && 0 <= p
    ensures (RawOf(minv, maxv, p) - minv) * 100 == p * (maxv - minv) - (p * (maxv - minv)) % 100
  {
    MulMonotone(0, p, maxv - minv);
    DivFacts(p * (maxv - minv), 100);
  }

  // -------------------------------------------------------------- stepping

  /** A press keeps the raw value in range.  In the band at its end, from 90 percent up and from 10
      percent down, it changes nothing; before that it moves strictly, except that on a control with
      fewer than ten raw steps volume-up can be stuck. */
  lemma StepFacts(minv: int, maxv: int, raw: int)
    requires minv < maxv && InRange(minv, maxv, raw)
    ensures InRange(minv, maxv, UpStep(minv, maxv, raw)) && InRange(minv, maxv, DownStep(minv, maxv, raw))
    ensures PercentOf(minv, maxv, raw) >= 90 ==> UpStep(minv, maxv, raw) == raw
    ensures PercentOf(minv, maxv, raw) < 90 && maxv - minv >= 10 ==> UpStep(minv, maxv, raw) > raw
    ensures PercentOf(minv, maxv, raw) <= 10 ==> DownStep(minv, maxv, raw) == raw
    ensures PercentOf(minv, maxv, raw) > 10 ==> DownStep(minv, maxv, raw) < raw
  {
    PercentInRange(minv, maxv, raw);
    var g := PercentOf(minv, maxv, raw);
    if g < 90 {
      RawInRange(minv, maxv, g + 10);
      if maxv - minv >= 10 {
        UpRaises(minv, maxv, raw);
      }
    }
    if g > 10 {
      RawInRange(minv, maxv, g - 10);
      DownLowers(minv, maxv, raw);
    }
  }

  lemma UpRaises(minv: int, maxv: int, raw: int)
    requires maxv - minv >= 10 && InRange(minv, maxv, raw) && PercentOf(minv, maxv, raw) < 90
    ensures UpStep(minv, maxv, raw) > raw
  {
    PercentInRange(minv, maxv, raw);
    var r, a := maxv - minv, raw - minv;
    var h := TruncDiv(r, 2);
    var g := PercentOf(minv, maxv, raw);
    if r == 10 {
      assert g == 10 * a;
    } else {
      assert g * r > 100 * a + h - r;
      assert (g + 10) * r == g * r + 10 * r;
      assert (g + 10) * r >= 100 * (a + 1);
    }
  }

  lemma DownLowers(minv: int, maxv: int, raw: int)
    requires minv < maxv && InRange(minv, maxv, raw) && PercentOf(minv, maxv, raw) > 10
    ensures DownStep(minv, maxv, raw) < raw
  {
    var r, g := maxv - minv, PercentOf(minv, maxv, raw);
    PercentBracket(minv, maxv, raw);
    Distribute(g - 10, 10, r);
    MulMonotone(0, g - 10, r);
    CutBelow((g - 10) * r, raw - minv);
  }

  /** A level whose hundredfold exceeds `n` is above `n / 100`. */
  lemma CutBelow(n: nat, a: int)
    requires n < 100 * a
    ensures TruncDiv(n, 100) < a
  {
  }

  // ------------------------------------------------------------------ runs

  datatype Press = Up | Down

  function Moved(minv: int, maxv: int, raw: int, p: Press): int
    requires minv < maxv
  {
    match p
    case Up => UpStep(minv, maxv, raw)
    case Down => DownStep(minv, maxv, raw)
  }

  function Pressed(minv: int, maxv: int, raw: int, ps: seq<Press>): int
    requires minv < maxv
    decreases |ps|
  {
    if ps == [] then raw
    else
      Pressed(minv, maxv, Moved(minv, maxv, raw, ps[0]), ps[1..])
  }

  lemma {:induction false} AnyPressesStayInRange(minv: int, maxv: int, raw: int, ps: seq<Press>)
    requires minv < maxv && InRange(minv, maxv, raw)
    ensures InRange(minv, maxv, Pressed(minv, maxv, raw, ps))
    decreases |ps|
  {
    if ps != [] {
      StepFacts(minv, maxv, raw);
      AnyPressesStayInRange(minv, maxv,
        Moved(minv, maxv, raw, ps[0]), ps[1..]);
    }
  }

  function Held(minv: int, maxv: int, raw: int, p: Press, n: nat): int
    requires minv < maxv
    decreases n
  {
    if n == 0 then raw
    else Held(minv, maxv, Moved(minv, maxv, raw, p), p, n - 1)
  }

  ghost predicate AtTop(minv: int, maxv: int, raw: int)
    requires minv < maxv
  {
    PercentOf(minv, maxv, raw) >= 90
  }

  ghost predicate AtBottom(minv: int, maxv: int, raw: int)
    requires minv < maxv
  {
    PercentOf(minv, maxv, raw) <= 10
  }

  lemma {:induction false} HeldFixed(minv: int, maxv: int, raw: int, p: Press, n: nat)
    requires minv < maxv
    requires Moved(minv, maxv, raw, p) == raw
    ensures Held(minv, maxv, raw, p, n) == raw
  {
    if n > 0 {
      HeldFixed(minv, maxv, raw, p, n - 1);
    }
  }

  /** Holding volume-up reaches the top band within `maxv - raw` presses, and from the press that
      first gets there on nothing changes. */
  lemma {:induction false} UpReachesTop(minv: int, maxv: int, raw: int) returns (n: nat)
    requires maxv - minv >= 10 && InRange(minv, maxv, raw)
    ensures n <= maxv - raw
    ensures AtTop(minv, maxv, Held(minv, maxv, raw, Up, n))
    ensures forall m: nat | m < n :: !AtTop(minv, maxv, Held(minv, maxv, raw, Up, m))
    ensures forall m: nat | m >= n :: Held(minv, maxv, raw, Up, m) == Held(minv, maxv, raw, Up, n)
    decreases maxv - raw
  {
    if AtTop(minv, maxv, raw) {
      n := 0;
      forall m: nat | m >= n
        ensures Held(minv, maxv, raw, Up, m) == raw
      {
        HeldFixed(minv, maxv, raw, Up, m);
      }
    } else {
      StepFacts(minv, maxv, raw);
      var next := UpStep(minv, maxv, raw);
      var k := UpReachesTop(minv, maxv, next);
      n := k + 1;
      assert Held(minv, maxv, raw, Up, n) == Held(minv, maxv, next, Up, k);
      forall m: nat | m < n
        ensures !AtTop(minv, maxv, Held(minv, maxv, raw, Up, m))
      {
        assert m > 0 ==> Held(minv, maxv, raw, Up, m) == Held(minv, maxv, next, Up, m - 1);
      }
      forall m: nat | m >= n
        ensures Held(minv, maxv, raw, Up, m) == Held(minv, maxv, raw, Up, n)
      {
        assert Held(minv, maxv, raw, Up, m) == Held(minv, maxv, next, Up, m - 1);
      }
    }
  }

  lemma {:induction false} DownReachesBottom(minv: int, maxv: int, raw: int) returns (n: nat)
    requires minv < maxv && InRange(minv, maxv, raw)
    ensures n <= raw - minv
    ensures AtBottom(minv, maxv, Held(minv, maxv, raw, Down, n))
    ensures forall m: nat | m < n :: !AtBottom(minv, maxv, Held(minv, maxv, raw, Down, m))
    ensures forall m: nat | m >= n :: Held(minv, maxv, raw, Down, m) == Held(minv, maxv, raw, Down, n)
    decreases raw - minv
  {
    if AtBottom(minv, maxv, raw) {
      n := 0;
      forall m: nat | m >= n
        ensures Held(minv, maxv, raw, Down, m) == raw
      {
        HeldFixed(minv, maxv, raw, Down, m);
      }
    } else {
      StepFacts(minv, maxv, raw);
      var next := DownStep(minv, maxv, raw);
      var k := DownReachesBottom(minv, maxv, next);
      n := k + 1;
      assert Held(minv, maxv, raw, Down, n) == Held(minv, maxv, next, Down, k);
      forall m: nat | m < n
        ensures !AtBottom(minv, maxv, Held(minv, maxv, raw, Down, m))
      {
        assert m > 0 ==> Held(minv, maxv, raw, Down, m) == Held(minv, maxv, next, Down, m - 1);
      }
      forall m: nat | m >= n
        ensures Held(minv, maxv, raw, Down, m) == Held(minv, maxv, raw, Down, n)
      {
        assert Held(minv, maxv, raw, Down, m) == Held(minv, maxv, next, Down, m - 1);
      }
    }
  }

  ghost predicate UpAlwaysReachesTop(minv: int, maxv: int)
    requires minv < maxv
  {
    forall raw | InRange(minv, maxv, raw) ::
      exists n: nat :: AtTop(minv, maxv, Held(minv, maxv, raw, Up, n))
  }

  /** The exact condition: from every level volume-up gets to the top band if and only if the
      control has at least ten raw steps; with fewer it is stuck at the lowest level. */
  lemma UpWorksIffTenSteps(minv: int, maxv: int)
    requires minv < maxv
    ensures UpAlwaysReachesTop(minv, maxv) <==> maxv - minv >= 10
  {
    if maxv - minv >= 10 {
      forall raw | InRange(minv, maxv, raw)
        ensures exists n: nat :: AtTop(minv, maxv, Held(minv, maxv, raw, Up, n))
      {
        var n := UpReachesTop(minv, maxv, raw);
      }
    } else {
      assert PercentOf(minv, maxv, minv) == 0;
      assert UpStep(minv, maxv, minv) == minv;
      forall n: nat
        ensures !AtTop(minv, maxv, Held(minv, maxv, minv, Up, n))
      {
        HeldFixed(minv, maxv, minv, Up, n);
      }
      assert InRange(minv, maxv, minv);
    }
  }

  lemma DownTakesTen(minv: int, maxv: int, raw: int)
    requires maxv - minv >= 198 && InRange(minv, maxv, raw) && PercentOf(minv, maxv, raw) > 10
    ensures PercentOf(minv, maxv, DownStep(minv, maxv, raw)) == PercentOf(minv, maxv, raw) - 10
  {
    PercentInRange(minv, maxv, raw);
    ReadBack(minv, maxv, PercentOf(minv, maxv, raw) - 10);
  }

  /** On a control fine enough for exact read-back, one press up moves the shown percentage by
      exactly ten points and a press down takes it back, but never below 10. */
  lemma UpThenDown(minv: int, maxv: int, raw: int)
    requires maxv - minv >= 198 && InRange(minv, maxv, raw)
    requires PercentOf(minv, maxv, raw) < 90
    ensures PercentOf(minv, maxv, UpStep(minv, maxv, raw)) == PercentOf(minv, maxv, raw) + 10
    ensures PercentOf(minv, maxv, DownStep(minv, maxv, UpStep(minv, maxv, raw)))
            == if PercentOf(minv, maxv, raw) == 0 then 10 else PercentOf(minv, maxv, raw)
  {
    var g := PercentOf(minv, maxv, raw);
    PercentInRange(minv, maxv, raw);
    ReadBack(minv, maxv, g + 10);
    ReadBack(minv, maxv, g);
  }
}
