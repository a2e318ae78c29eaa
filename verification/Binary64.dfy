/** Binary64 numbers with round to nearest (section 4.3.1 of IEEE 754-2019), and one requirement
    computed with them. The exponent is not bounded. */
module Binary64 {
  import opened JsonMerge
  import opened GpuFit
  import opened GpuRounding

  /** `x` halved `k` times. */
  function Halve(x: real, k: nat): real {
    if k == 0 then x else Halve(x, k - 1) / 2.0
  }

  /** Two to the power of some whole number. */
  ghost predicate IsPower(t: real) {
    t > 0.0 && exists k :: PowerAt(t, k)
  }

  predicate PowerAt(t: real, k: nat) {
    t == Halve(1.0, k) || Halve(t, k) == 1.0
  }

  const MIN_MANTISSA := 4503599627370496
  const MAX_MANTISSA := 9007199254740991

  function Times(m: int, t: real): real {
    m as real * t
  }

  predicate Float(y: real, m: int, t: real) {
    MIN_MANTISSA <= m <= MAX_MANTISSA && y == Times(m, t)
  }

  /** Zero, or a number with a mantissa of 53 bits. */
  ghost predicate Representable(y: real) {
    y == 0.0 || exists m, t :: IsPower(t) && Float(y, m, t)
  }

  function Gap(x: real, y: real): real {
    if x < y then y - x else x - y
  }

  /** `y` is the one binary64 number nearest to `x`, so the rule for ties does not matter. */
  ghost predicate Nearest(x: real, y: real) {
    Representable(y) && forall z | Representable(z) && z != y :: Gap(x, y) < Gap(x, z)
  }

  lemma {:induction false} HalveAdd(x: real, j: nat, k: nat)
    ensures Halve(x, j + k) == Halve(Halve(x, j), k)
    decreases k
  {
    if k > 0 {
      HalveAdd(x, j, k - 1);
    }
  }

  lemma {:induction false} HalveInjective(x: real, y: real, k: nat)
    requires Halve(x, k) == Halve(y, k)
    ensures x == y
  {
    if k > 0 {
      HalveInjective(x, y, k - 1);
    }
  }

  /** One of two powers is the other one halved some times; `k` is negative where `t` is the larger. */
  lemma Comparable(s: real, t: real) returns (k: int)
    requires IsPower(s) && IsPower(t)
    ensures if k >= 0 then t == Halve(s, k) else s == Halve(t, -k)
  {
    var j: nat :| PowerAt(s, j);
    var i: nat :| PowerAt(t, i);
    if s == Halve(1.0, j) && t == Halve(1.0, i) {
      k := i - j;
      if k >= 0 {
        HalveAdd(1.0, j, k);
      } else {
        HalveAdd(1.0, i, -k);
      }
    } else if t == Halve(1.0, i) {
      k := j + i;
      HalveAdd(s, j, i);
    } else if s == Halve(1.0, j) {
      HalveAdd(t, i, j);
      k := -(i + j);
    } else {
      k := BothLarge(s, t, j, i);
    }
  }

  lemma BothLarge(s: real, t: real, j: nat, i: nat) returns (k: int)
    requires Halve(s, j) == Halve(t, i) == 1.0
    ensures if k >= 0 then t == Halve(s, k) else s == Halve(t, -k)
  {
    k := j - i;
    if k >= 0 {
      HalveAdd(s, k, i);
      HalveInjective(Halve(s, k), t, i);
    } else {
      HalveAdd(t, -k, j);
      HalveInjective(Halve(t, -k), s, j);
    }
  }

  function PowerOfTwo(k: nat): (p: int)
    ensures p >= 1
  {
    if k == 0 then 1 else 2 * PowerOfTwo(k - 1)
  }

  lemma TimesHalf(m: int, h: real)
    ensures Times(m, h) == Times(2 * m, h / 2.0)
  {
  }

  /** A multiple of `s` is a multiple of what is left of `s` after halving. */
  lemma {:induction false} TimesHalved(n: int, s: real, k: nat)
    ensures Times(n, s) == Times(n * PowerOfTwo(k), Halve(s, k))
  {
    if k > 0 {
      TimesHalved(n, s, k - 1);
      TimesHalf(n * PowerOfTwo(k - 1), Halve(s, k - 1));
      assert 2 * (n * PowerOfTwo(k - 1)) == n * PowerOfTwo(k);
    }
  }

  /** Two multiples of the spacing `t` are at least the spacing apart. */
  lemma Apart(m: int, n: int, t: real)
    requires t > 0.0 && n < m
    ensures Times(n, t) + t <= Times(m, t)
  {
    var d := m as real - n as real;
    assert d >= 1.0;
    Scale(1.0, d, t);
    assert d * t == m as real * t - n as real * t;
  }

  lemma OtherMultiple(x: real, m: int, n: int, t: real)
    requires t > 0.0 && n != m && 2.0 * Gap(x, Times(m, t)) < t
    ensures Gap(x, Times(m, t)) < Gap(x, Times(n, t))
  {
    if n < m {
      Apart(m, n, t);
    } else {
      Apart(n, m, t);
    }
    Farther(x, Times(m, t), Times(n, t), t);
  }

  lemma Farther(x: real, y: real, z: real, t: real)
    requires 2.0 * Gap(x, y) < t && (y + t <= z || z + t <= y)
    ensures Gap(x, y) < Gap(x, z)
  {
  }

  /** A number below the binade of `x` is farther away as well. */
  lemma BelowBinade(x: real, m: int, z: real, t: real)
    requires t > 0.0 && m >= MIN_MANTISSA && 2.0 * Gap(x, Times(m, t)) < t
    requires z < Times(MIN_MANTISSA, t) <= x
    ensures Gap(x, Times(m, t)) < Gap(x, z)
  {
    if m > MIN_MANTISSA {
      Apart(m, MIN_MANTISSA, t);
      Beyond(x, Times(m, t), Times(MIN_MANTISSA, t), z, t);
    }
  }

  lemma Beyond(x: real, y: real, low: real, z: real, t: real)
    requires z < low <= x && low + t <= y && 2.0 * Gap(x, y) < t
    ensures Gap(x, y) < Gap(x, z)
  {
  }

  /** A number with a spacing at most half of `t` lies below the binade. */
  lemma SmallerNumber(n: int, t: real, k: nat)
    requires MIN_MANTISSA <= n <= MAX_MANTISSA && Halve(t, k) > 0.0 && k > 0
    ensures Times(n, Halve(t, k)) < Times(MIN_MANTISSA, t)
  {
    var p := PowerOfTwo(k);
    TimesHalved(MIN_MANTISSA, t, k);
    assert p == 2 * PowerOfTwo(k - 1);
    Apart(MIN_MANTISSA * p, n, Halve(t, k));
  }

  lemma OtherNumber(x: real, m: int, t: real, n: int, s: real)
    requires IsPower(t) && IsPower(s) && MIN_MANTISSA <= m && MIN_MANTISSA <= n <= MAX_MANTISSA
    requires Times(MIN_MANTISSA, t) <= x && 2.0 * Gap(x, Times(m, t)) < t && Times(n, s) != Times(m, t)
    ensures Gap(x, Times(m, t)) < Gap(x, Times(n, s))
  {
    var k := Comparable(s, t);
    if k >= 0 {
      TimesHalved(n, s, k);
      OtherMultiple(x, m, n * PowerOfTwo(k), t);
    } else {
      SmallerNumber(n, t, -k);
      BelowBinade(x, m, Times(n, s), t);
    }
  }

  /** Within half of the spacing of its binade a number is the nearest. */
  lemma NearestTo(x: real, m: int, t: real)
    requires MIN_MANTISSA <= m <= MAX_MANTISSA && IsPower(t)
    requires Times(MIN_MANTISSA, t) <= x && 2.0 * Gap(x, Times(m, t)) < t
    ensures Nearest(x, Times(m, t))
  {
    var y := Times(m, t);
    assert Float(y, m, t);
    forall z | Representable(z) && z != y
      ensures Gap(x, y) < Gap(x, z)
    {
      if z == 0.0 {
        OtherMultiple(x, m, 0, t);
      } else {
        var n, s :| IsPower(s) && Float(z, n, s);
        OtherNumber(x, m, t, n, s);
      }
    }
  }

  lemma NearestZero()
    ensures Nearest(0.0, 0.0)
  {
    forall z | Representable(z) && z != 0.0
      ensures z > 0.0
    {
      var m, t :| IsPower(t) && Float(z, m, t);
      Positive(m as real, t);
    }
  }

  /** Each operation gives the one binary64 number nearest to its exact result. */
  ghost predicate ComputesNearest(a: Accelerator, t: Trace)
    requires Usable(a) && a.fit.Some?
  {
    var parts, n := a.fit.value.modules, |a.fit.value.modules|;
    && |t.memories| == n && |t.sharded| == |t.replicated| == n + 1
    && t.sharded[0] == t.replicated[0] == 0.0
    && (forall i | 0 <= i < n :: ProblemOf(parts[i]).None? && Nearest(Amount(parts[i].memory), t.memories[i]))
    && (forall i | 0 <= i < n :: if Sharded(parts[i]) then Nearest(t.sharded[i] + t.memories[i], t.sharded[i + 1])
                                 else t.sharded[i + 1] == t.sharded[i])
    && (forall i | 0 <= i < n :: if Sharded(parts[i]) then t.replicated[i + 1] == t.replicated[i]
                                 else Nearest(t.replicated[i] + t.memories[i], t.replicated[i + 1]))
    && Nearest(t.sharded[n] / CountOf(a).value as real, t.perGpu)
    && Nearest(t.perGpu + t.replicated[n], t.sum)
    && Nearest(MarginOf(a.fit.value).value / 100.0, t.ratio)
    && Nearest(1.0 + t.ratio, t.factor)
    && t.product == t.sum * t.factor && Nearest(t.product, t.result)
  }

  const BINARY64 := 1.0 / 9007199254740992.0

  const FIFTY := Accelerator(Absent, Absent, Some(Fit([Part(true, Whole(50), None)], Absent)), None, None)

  lemma FiftyExact()
    ensures Usable(FIFTY) && FitNeed(FIFTY) == 55.0 && RequiredGiB(FIFTY) == Some(55)
  {
    var parts := FIFTY.fit.value.modules;
    assert ProblemOf(parts[0]).None?;
    assert parts[..0] == [];
    assert Total(parts, true) == 0.0 && Total(parts, false) == 50.0;
    assert FitNeed(FIFTY) == (0.0 / 1.0 + 50.0) * (1.0 + 10.0 / 100.0);
  }

  function FiftyTrace(): Trace {
    var ratio := 7205759403792794.0 / 72057594037927936.0;
    var factor := 4953959590107546.0 / 4503599627370496.0;
    Trace([50.0], [0.0, 0.0], [0.0, 50.0], 0.0, 50.0, ratio, factor, 50.0 * factor,
          7740561859543041.0 / 140737488355328.0)
  }

  lemma HalveEight(x: real)
    ensures Halve(x, 8) == x / 256.0
  {
    assert Halve(x, 1) == x / 2.0;
    assert Halve(x, 2) == x / 4.0;
    assert Halve(x, 3) == x / 8.0;
    assert Halve(x, 4) == x / 16.0;
    assert Halve(x, 5) == x / 32.0;
    assert Halve(x, 6) == x / 64.0;
  }

  lemma NextSpacing(k: nat, x: real)
    requires Halve(1.0, k) == x
    ensures Halve(1.0, k + 8) == x / 256.0
  {
    HalveAdd(1.0, k, 8);
    HalveEight(x);
  }

  const SPACING_OF_TENTH := 1.0 / 72057594037927936.0
  const SPACING_OF_FACTOR := 1.0 / 4503599627370496.0
  const SPACING_OF_RESULT := 1.0 / 140737488355328.0

  lemma Spacings()
    ensures IsPower(SPACING_OF_TENTH) && IsPower(SPACING_OF_FACTOR) && IsPower(SPACING_OF_RESULT)
  {
    NextSpacing(0, 1.0);
    NextSpacing(8, 1.0 / 256.0);
    NextSpacing(16, 1.0 / 65536.0);
    NextSpacing(24, 1.0 / 16777216.0);
    NextSpacing(32, 1.0 / 4294967296.0);
    NextSpacing(40, 1.0 / 1099511627776.0);
    NextSpacing(48, 1.0 / 281474976710656.0);
    assert Halve(1.0, 48) == Halve(1.0, 47) / 2.0;
    assert PowerAt(SPACING_OF_RESULT, 47);
    assert Halve(1.0, 50) == Halve(1.0, 48) / 4.0;
    assert Halve(1.0, 52) == Halve(1.0, 50) / 4.0;
    assert PowerAt(SPACING_OF_FACTOR, 52);
    assert PowerAt(SPACING_OF_TENTH, 56);
  }

  lemma FiftyNearest()
    ensures Nearest(50.0, 50.0) && Nearest(10.0 / 100.0, FiftyTrace().ratio)
    ensures Nearest(1.0 + FiftyTrace().ratio, FiftyTrace().factor)
    ensures Nearest(FiftyTrace().product, FiftyTrace().result)
  {
    Spacings();
    NearestTo(50.0, 7036874417766400, SPACING_OF_RESULT);
    NearestTo(10.0 / 100.0, 7205759403792794, SPACING_OF_TENTH);
    NearestTo(1.0 + FiftyTrace().ratio, 4953959590107546, SPACING_OF_FACTOR);
    NearestTo(FiftyTrace().product, 7740561859543041, SPACING_OF_RESULT);
  }

  /** The gap is real: 50 GiB replicated at 10 percent is exactly 55 GiB, and with every operation
      giving its nearest binary64 number the requirement comes out as 56. */
  lemma FiftyComesOutFiftySix()
    ensures Usable(FIFTY) && RequiredGiB(FIFTY) == Some(55)
    ensures ComputesNearest(FIFTY, FiftyTrace()) && Computes(FIFTY, FiftyTrace(), BINARY64)
    ensures ComputedRequirement(FIFTY, FiftyTrace()) == 56
  {
    FiftyExact();
    FiftyNearest();
    NearestZero();
    var t, parts := FiftyTrace(), FIFTY.fit.value.modules;
    assert !Sharded(parts[0]) && !Wide(parts[0].memory);
    assert Rounds(10.0 / 100.0, t.ratio, BINARY64) && Rounds(1.0 + t.ratio, t.factor, BINARY64);
    assert Rounds(t.product, t.result, BINARY64);
    CeilIsLeast(t.result);
  }
}
