/** The requirement computed in floating point, with every operation off by a relative error of
    at most `u` (section 4.3.1 of IEEE 754-2019), against the formula over exact reals. */
module GpuRounding {
  import opened GpuFit

  /** `y` is a result the operation may give when its exact value is `x`. */
  predicate Rounds(x: real, y: real, u: real) {
    x - u * x <= y <= x + u * x
  }

  const EXACT_WHOLE := 9007199254740992

  /** A whole number beyond 2^53 is rounded when it is first added to a float. */
  predicate Wide(f: Field) {
    f.Whole? && f.n > EXACT_WHOLE
  }

  predicate Converts(f: Field, v: real, u: real)
    requires Numeric(f)
  {
    if Wide(f) then Rounds(Amount(f), v, u) else v == Amount(f)
  }

  /** Adding to zero is exact; any other addition rounds. */
  predicate Sums(acc: real, memory: real, next: real, u: real) {
    if acc == 0.0 then next == memory else Rounds(acc + memory, next, u)
  }

  /** The memories as floats. */
  predicate Floats(parts: seq<Part>, memories: seq<real>, u: real)
    requires Sound(parts)
  {
    |memories| == |parts| &&
    forall i | 0 <= i < |parts| :: ProblemOf(parts[i]).None? && Converts(parts[i].memory, memories[i], u)
  }

  /** `totals` are the successive values of one accumulator over the modules. */
  predicate Accumulates(parts: seq<Part>, sharded: bool, memories: seq<real>, totals: seq<real>, u: real)
    requires |memories| == |parts|
  {
    && |totals| == |parts| + 1 && totals[0] == 0.0
    && forall i | 0 <= i < |parts| ::
         if Sharded(parts[i]) == sharded then Sums(totals[i], memories[i], totals[i + 1], u)
         else totals[i + 1] == totals[i]
  }

  /** The intermediate results of one computation; `product` is the last one before it is rounded. */
  datatype Trace = Trace(memories: seq<real>, sharded: seq<real>, replicated: seq<real>, perGpu: real, sum: real,
                         ratio: real, factor: real, product: real, result: real)

  predicate Computes(a: Accelerator, t: Trace, u: real)
    requires Usable(a) && a.fit.Some?
  {
    var parts, n := a.fit.value.modules, |a.fit.value.modules|;
    && Floats(parts, t.memories, u)
    && Accumulates(parts, true, t.memories, t.sharded, u) && Accumulates(parts, false, t.memories, t.replicated, u)
    && Rounds(t.sharded[n] / CountOf(a).value as real, t.perGpu, u)
    && Rounds(t.perGpu + t.replicated[n], t.sum, u)
    && Rounds(MarginOf(a.fit.value).value / 100.0, t.ratio, u)
    && Rounds(1.0 + t.ratio, t.factor, u)
    && Finishes(t, u)
  }

  function ComputedRequirement(a: Accelerator, t: Trace): int
    requires Usable(a)
  {
    if DeclaredOf(a).value > Ceil(t.result) then DeclaredOf(a).value else Ceil(t.result)
  }

  function Power(x: real, k: nat): real {
    if k == 0 then 1.0 else x * Power(x, k - 1)
  }

  lemma Scale(a: real, b: real, c: real)
    requires a <= b && c >= 0.0
    ensures a * c <= b * c && c * a <= c * b
  {
  }

  lemma Regroup(a: real, b: real, c: real)
    ensures (a * b) * c == a * (b * c) == b * (a * c)
  {
  }

  lemma Shuffle(a: real, b: real, c: real, d: real)
    ensures (a * b) * (c * d) == (a * c) * (b * d)
  {
    Regroup(a, b, c * d);
    Regroup(b, c, d);
    Regroup(a, c, b * d);
  }

  lemma {:induction false} PowerAdd(x: real, j: nat, k: nat)
    ensures Power(x, j + k) == Power(x, j) * Power(x, k)
  {
    if j > 0 {
      PowerAdd(x, j - 1, k);
      Regroup(x, Power(x, j - 1), Power(x, k));
    }
  }

  lemma {:induction false} PowerUp(x: real, k: nat)
    requires x >= 1.0
    ensures Power(x, k) >= 1.0
  {
    if k > 0 {
      PowerUp(x, k - 1);
      Scale(1.0, x, Power(x, k - 1));
    }
  }

  lemma {:induction false} PowerDown(x: real, k: nat)
    requires 0.0 < x <= 1.0
    ensures 0.0 < Power(x, k) <= 1.0
  {
    if k > 0 {
      PowerDown(x, k - 1);
      Scale(x, 1.0, Power(x, k - 1));
      Positive(x, Power(x, k - 1));
    }
  }

  lemma Positive(a: real, b: real)
    requires a > 0.0 && b > 0.0
    ensures a * b > 0.0
  {
  }

  predicate Unit(u: real) {
    0.0 <= u < 1.0
  }

  /** `y` lies between two multiples of `x`. */
  predicate Between(x: real, y: real, lo: real, hi: real) {
    0.0 <= x && x * lo <= y <= x * hi
  }

  /** `y` is within `k` roundings of `x`. */
  predicate Near(x: real, y: real, u: real, k: nat) {
    Between(x, y, Power(1.0 - u, k), Power(1.0 + u, k))
  }

  lemma Widen(x: real, y: real, lo: real, hi: real, lower: real, higher: real)
    requires Between(x, y, lo, hi) && lower <= lo && hi <= higher
    ensures Between(x, y, lower, higher)
  {
    Scale(lower, lo, x);
    Scale(hi, higher, x);
  }

  lemma SelfBetween(x: real, lo: real, hi: real)
    requires 0.0 <= x && lo <= 1.0 <= hi
    ensures Between(x, x, lo, hi)
  {
    Scale(lo, 1.0, x);
    Scale(1.0, hi, x);
  }

  lemma LowerRounded(x: real, lo: real, y: real, e: real, z: real)
    requires x * lo <= y && y * e <= z && e >= 0.0
    ensures x * (e * lo) <= z
  {
    Scale(x * lo, y, e);
    Regroup(x, lo, e);
  }

  lemma UpperRounded(x: real, hi: real, y: real, e: real, z: real)
    requires y <= x * hi && z <= y * e && e >= 0.0
    ensures z <= x * (e * hi)
  {
    Scale(y, x * hi, e);
    Regroup(x, hi, e);
  }

  /** One more rounding. */
  lemma RoundedBetween(x: real, y: real, z: real, u: real, lo: real, hi: real, lo1: real, hi1: real)
    requires Unit(u) && Between(x, y, lo, hi) && Rounds(y, z, u)
    requires lo1 == (1.0 - u) * lo && hi1 == (1.0 + u) * hi
    ensures Between(x, z, lo1, hi1)
  {
    LowerRounded(x, lo, y, 1.0 - u, z);
    UpperRounded(x, hi, y, 1.0 + u, z);
  }

  lemma RoundedNear(x: real, y: real, z: real, u: real, k: nat)
    requires Unit(u) && Near(x, y, u, k) && Rounds(y, z, u)
    ensures Near(x, z, u, k + 1)
  {
    RoundedBetween(x, y, z, u, Power(1.0 - u, k), Power(1.0 + u, k), Power(1.0 - u, k + 1), Power(1.0 + u, k + 1));
  }

  lemma WidenNear(x: real, y: real, u: real, k: nat)
    requires Unit(u) && Near(x, y, u, k)
    ensures Near(x, y, u, k + 1)
  {
    PowersWiden(u, k);
    Widen(x, y, Power(1.0 - u, k), Power(1.0 + u, k), Power(1.0 - u, k + 1), Power(1.0 + u, k + 1));
  }

  lemma SelfNear(x: real, u: real, k: nat)
    requires Unit(u) && x >= 0.0
    ensures Near(x, x, u, k)
  {
    PowersWiden(u, k);
    SelfBetween(x, Power(1.0 - u, k), Power(1.0 + u, k));
  }

  lemma SumNear(x: real, y: real, v: real, w: real, u: real, k: nat)
    requires Unit(u) && Near(x, y, u, k) && Near(v, w, u, k)
    ensures Near(x + v, y + w, u, k)
  {
    SumBetween(x, y, v, w, Power(1.0 - u, k), Power(1.0 + u, k));
  }

  lemma QuotientNear(x: real, y: real, u: real, k: nat, c: int)
    requires Unit(u) && Near(x, y, u, k) && c >= 1
    ensures Near(x / c as real, y / c as real, u, k)
  {
    QuotientBetween(x, y, Power(1.0 - u, k), Power(1.0 + u, k), c);
  }

  lemma PowersMultiply(u: real, j: nat, k: nat)
    requires Unit(u)
    ensures Power(1.0 - u, j + k) == Power(1.0 - u, j) * Power(1.0 - u, k)
    ensures Power(1.0 + u, j + k) == Power(1.0 + u, j) * Power(1.0 + u, k)
    ensures Power(1.0 - u, j) > 0.0 && Power(1.0 - u, k) > 0.0
  {
    PowerAdd(1.0 - u, j, k);
    PowerAdd(1.0 + u, j, k);
    PowerDown(1.0 - u, j);
    PowerDown(1.0 - u, k);
  }

  lemma ProductNear(x: real, y: real, j: nat, v: real, w: real, k: nat, u: real)
    requires Unit(u) && Near(x, y, u, j) && Near(v, w, u, k)
    ensures Near(x * v, y * w, u, j + k)
  {
    PowersMultiply(u, j, k);
    ProductBetween(x, y, Power(1.0 - u, j), Power(1.0 + u, j), v, w, Power(1.0 - u, k), Power(1.0 + u, k),
                   Power(1.0 - u, j + k), Power(1.0 + u, j + k));
  }

  lemma SumBetween(x: real, y: real, v: real, w: real, lo: real, hi: real)
    requires Between(x, y, lo, hi) && Between(v, w, lo, hi)
    ensures Between(x + v, y + w, lo, hi)
  {
    assert (x + v) * lo == x * lo + v * lo;
    assert (x + v) * hi == x * hi + v * hi;
  }

  lemma DivideOrder(x: real, y: real, c: int)
    requires x <= y && c >= 1
    ensures x / c as real <= y / c as real
  {
  }

  lemma DivideProduct(x: real, p: real, c: int)
    requires c >= 1
    ensures x * p / c as real == x / c as real * p
  {
    var q := x / c as real;
    assert x == q * c as real;
    Regroup(q, c as real, p);
    Regroup(q, p, c as real);
    assert x * p == q * p * c as real;
  }

  lemma QuotientBetween(x: real, y: real, lo: real, hi: real, c: int)
    requires Between(x, y, lo, hi) && c >= 1
    ensures Between(x / c as real, y / c as real, lo, hi)
  {
    DivideProduct(x, lo, c);
    DivideProduct(x, hi, c);
    DivideOrder(x * lo, y, c);
    DivideOrder(y, x * hi, c);
    DivideOrder(0.0, x, c);
  }

  lemma ProductBetween(x: real, y: real, a: real, c: real, v: real, w: real, b: real, d: real, lo: real, hi: real)
    requires Between(x, y, a, c) && Between(v, w, b, d) && 0.0 <= a && 0.0 <= b && lo == a * b && hi == c * d
    ensures Between(x * v, y * w, lo, hi)
  {
    Scale(0.0, a, x);
    Scale(0.0, b, v);
    Scale(0.0, x, v);
    ProductMonotone(x * a, y, v * b, w);
    ProductMonotone(y, x * c, w, v * d);
    Shuffle(x, a, v, b);
    Shuffle(x, c, v, d);
  }

  lemma PowersWiden(u: real, k: nat)
    requires Unit(u)
    ensures 0.0 < Power(1.0 - u, k + 1) <= Power(1.0 - u, k) <= 1.0 <= Power(1.0 + u, k) <= Power(1.0 + u, k + 1)
  {
    PowerDown(1.0 - u, k);
    PowerDown(1.0 - u, k + 1);
    PowerUp(1.0 + u, k);
    Scale(1.0 - u, 1.0, Power(1.0 - u, k));
    Scale(1.0, 1.0 + u, Power(1.0 + u, k));
  }

  lemma NearZero(x: real, u: real, k: nat)
    requires Unit(u) && Near(x, 0.0, u, k)
    ensures x == 0.0
  {
    PowerDown(1.0 - u, k);
    if x > 0.0 {
      Positive(x, Power(1.0 - u, k));
      assert false;
    }
  }

  lemma {:induction false} WidenTo(x: real, y: real, u: real, j: nat, k: nat)
    requires Unit(u) && Near(x, y, u, j) && j <= k
    ensures Near(x, y, u, k)
    decreases k
  {
    if j < k {
      WidenTo(x, y, u, j, k - 1);
      WidenNear(x, y, u, k - 1);
    }
  }

  /** One more module: its memory `m`, `v` as a float, joins the accumulator. */
  lemma AddNear(exact: real, got: real, m: real, v: real, next: real, u: real, j: nat, k: nat)
    requires Unit(u) && Near(exact, got, u, k) && Near(m, v, u, j) && j <= k && Sums(got, v, next, u)
    ensures Near(exact + m, next, u, k + 1)
  {
    if got == 0.0 {
      NearZero(exact, u, k);
      WidenTo(m, v, u, j, k + 1);
    } else {
      WidenTo(m, v, u, j, k);
      SumNear(exact, got, m, v, u, k);
      RoundedNear(exact + m, got + v, next, u, k);
    }
  }

  /** The roundings on the way from a memory to its float. */
  function Widest(parts: seq<Part>): nat {
    if exists i | 0 <= i < |parts| :: Wide(parts[i].memory) then 1 else 0
  }

  lemma FloatNear(parts: seq<Part>, memories: seq<real>, u: real, i: nat)
    requires Sound(parts) && Unit(u) && Floats(parts, memories, u) && i < |parts|
    ensures ProblemOf(parts[i]).None? && Near(Amount(parts[i].memory), memories[i], u, Widest(parts))
  {
    var x := Amount(parts[i].memory);
    SelfNear(x, u, 0);
    if Wide(parts[i].memory) {
      RoundedNear(x, x, memories[i], u, 0);
    } else {
      SelfNear(x, u, Widest(parts));
    }
  }

  /** An accumulator over `n` modules is within `n - 1` roundings of its exact total, and one more
      where a memory is rounded itself. */
  lemma {:induction false} AccumulatorNear(parts: seq<Part>, sharded: bool, memories: seq<real>, totals: seq<real>,
                                           u: real, n: nat)
    requires Sound(parts) && Unit(u) && Floats(parts, memories, u) && Accumulates(parts, sharded, memories, totals, u)
    requires 1 <= n <= |parts|
    ensures Near(Total(parts[..n], sharded), totals[n], u, n - 1 + Widest(parts))
    decreases n
  {
    var j, last, init := Widest(parts), parts[n - 1], parts[..n - 1];
    assert parts[..n][..n - 1] == init;
    FloatNear(parts, memories, u, n - 1);
    if n == 1 {
      assert Total(init, sharded) == 0.0;
      SelfNear(0.0, u, j);
    } else {
      AccumulatorNear(parts, sharded, memories, totals, u, n - 1);
      AccumulatorStep(Total(init, sharded), totals[n - 1], last, sharded, memories[n - 1], totals[n], u, j, n - 2 + j);
    }
  }

  lemma AccumulatorStep(exact: real, got: real, last: Part, sharded: bool, v: real, next: real, u: real, j: nat, k: nat)
    requires Unit(u) && ProblemOf(last).None? && Near(exact, got, u, k) && j <= k && Near(Amount(last.memory), v, u, j)
    requires if Sharded(last) == sharded then Sums(got, v, next, u) else next == got
    ensures Near(exact + (if Sharded(last) == sharded then Amount(last.memory) else 0.0), next, u, k + 1)
  {
    if Sharded(last) == sharded {
      AddNear(exact, got, Amount(last.memory), v, next, u, j, k);
    } else {
      WidenNear(exact, got, u, k);
    }
  }

  /** The division and the addition. */
  lemma QuotientSumNear(s: real, got: real, r: real, rep: real, c: int, perGpu: real, sum: real, u: real, k: nat)
    requires Unit(u) && Near(s, got, u, k) && Near(r, rep, u, k) && c >= 1
    requires Rounds(got / c as real, perGpu, u) && Rounds(perGpu + rep, sum, u)
    ensures Near(s / c as real + r, sum, u, k + 2)
  {
    QuotientNear(s, got, u, k, c);
    RoundedNear(s / c as real, got / c as real, perGpu, u, k);
    WidenNear(r, rep, u, k);
    SumNear(s / c as real, perGpu, r, rep, u, k + 1);
    RoundedNear(s / c as real + r, perGpu + rep, sum, u, k + 1);
  }

  lemma FactorNear(ratio: real, got: real, factor: real, u: real)
    requires Unit(u) && ratio >= 0.0 && Rounds(ratio, got, u) && Rounds(1.0 + got, factor, u)
    ensures Near(1.0 + ratio, factor, u, 2)
  {
    SelfNear(ratio, u, 0);
    RoundedNear(ratio, ratio, got, u, 0);
    SelfNear(1.0, u, 1);
    SumNear(1.0, 1.0, ratio, got, u, 1);
    RoundedNear(1.0 + ratio, 1.0 + got, factor, u, 1);
  }

  lemma LastNear(x: real, sum: real, f: real, factor: real, y: real, product: real, result: real, u: real, k: nat)
    requires Unit(u) && Near(x, sum, u, k) && Near(f, factor, u, 2)
    requires y == x * f && product == sum * factor && Rounds(product, result, u)
    ensures Near(y, result, u, k + 3)
  {
    ProductNear(x, sum, k, f, factor, 2, u);
    RoundedNear(y, product, result, u, k + 2);
  }

  function PerGpu(a: Accelerator): real
    requires Usable(a) && a.fit.Some?
  {
    Total(a.fit.value.modules, true) / CountOf(a).value as real + Total(a.fit.value.modules, false)
  }

  lemma PerGpuNear(a: Accelerator, t: Trace, u: real)
    requires Usable(a) && a.fit.Some? && Unit(u) && Computes(a, t, u)
    ensures Near(PerGpu(a), t.sum, u, |a.fit.value.modules| + 1 + Widest(a.fit.value.modules))
  {
    var parts, n := a.fit.value.modules, |a.fit.value.modules|;
    AccumulatorNear(parts, true, t.memories, t.sharded, u, n);
    AccumulatorNear(parts, false, t.memories, t.replicated, u, n);
    assert parts[..n] == parts;
    QuotientSumNear(Total(parts, true), t.sharded[n], Total(parts, false), t.replicated[n], CountOf(a).value,
                    t.perGpu, t.sum, u, n - 1 + Widest(parts));
  }

  function Factor(a: Accelerator): real
    requires Usable(a) && a.fit.Some?
  {
    1.0 + MarginOf(a.fit.value).value / 100.0
  }

  lemma FactorNearOf(a: Accelerator, t: Trace, u: real)
    requires Usable(a) && a.fit.Some? && Unit(u) && Computes(a, t, u)
    ensures Near(Factor(a), t.factor, u, 2)
  {
    FactorNear(MarginOf(a.fit.value).value / 100.0, t.ratio, t.factor, u);
  }

  lemma NeedIsProduct(a: Accelerator)
    requires Usable(a) && a.fit.Some?
    ensures FitNeed(a) == PerGpu(a) * Factor(a)
  {
  }

  predicate Finishes(t: Trace, u: real) {
    t.product == t.sum * t.factor && Rounds(t.product, t.result, u)
  }

  lemma FinishNear(x: real, f: real, y: real, t: Trace, u: real, n: nat)
    requires Unit(u) && Near(x, t.sum, u, n + 1) && Near(f, t.factor, u, 2) && y == x * f && Finishes(t, u)
    ensures Near(y, t.result, u, n + 4)
  {
    LastNear(x, t.sum, f, t.factor, y, t.product, t.result, u, n + 1);
  }

  /** The roundings between the formula and the result of a plan of `n` modules: `n + 4`, and one
      more where a whole memory is beyond 2^53. */
  function Roundings(a: Accelerator): nat
    requires a.fit.Some?
  {
    |a.fit.value.modules| + 4 + Widest(a.fit.value.modules)
  }

  /** The whole computation is within that many roundings of the formula. */
  lemma ResultNear(a: Accelerator, t: Trace, u: real)
    requires Usable(a) && a.fit.Some? && Unit(u) && Computes(a, t, u)
    ensures Near(FitNeed(a), t.result, u, Roundings(a))
  {
    PerGpuNear(a, t, u);
    FactorNearOf(a, t, u);
    NeedIsProduct(a);
    FinishNear(PerGpu(a), Factor(a), FitNeed(a), t, u, |a.fit.value.modules| + Widest(a.fit.value.modules));
  }

  lemma {:induction false} PowersSpread(u: real, k: nat)
    requires Unit(u)
    ensures Power(1.0 + u, k) + Power(1.0 - u, k) >= 2.0
  {
    if k > 0 {
      var p, q := Power(1.0 + u, k - 1), Power(1.0 - u, k - 1);
      PowersSpread(u, k - 1);
      PowerUp(1.0 + u, k - 1);
      PowerDown(1.0 - u, k - 1);
      Scale(0.0, u, p - q);
      assert (1.0 + u) * p + (1.0 - u) * q == p + q + u * (p - q);
    }
  }

  /** A result between two multiples of `x` is off by at most `x` times the larger deviation. */
  lemma Distance(x: real, y: real, lo: real, hi: real, drift: real, d: real)
    requires Between(x, y, lo, hi) && hi + lo >= 2.0 && drift == hi - 1.0 && d == x * drift
    ensures x - d <= y <= x + d
  {
    Scale(1.0 - lo, drift, x);
    assert x * (1.0 - lo) == x - x * lo && x * drift == x * hi - x;
  }

  /** How far `k` roundings can carry a value `x`. */
  function Drift(x: real, u: real, k: nat): real {
    x * (Power(1.0 + u, k) - 1.0)
  }

  lemma WithinDrift(x: real, y: real, u: real, k: nat)
    requires Unit(u) && Near(x, y, u, k)
    ensures x - Drift(x, u, k) <= y <= x + Drift(x, u, k)
  {
    PowersSpread(u, k);
    Distance(x, y, Power(1.0 - u, k), Power(1.0 + u, k), Power(1.0 + u, k) - 1.0, Drift(x, u, k));
  }

  lemma CeilClose(x: real, y: real)
    requires x - 1.0 <= y <= x + 1.0
    ensures Ceil(x) - 1 <= Ceil(y) <= Ceil(x) + 1
  {
    CeilIsLeast(x);
    CeilIsLeast(y);
  }

  lemma CeilBetween(y: real, n: int)
    requires (n - 1) as real < y <= n as real
    ensures Ceil(y) == n
  {
    CeilIsLeast(y);
  }

  lemma CeilAtMost(y: real, n: int)
    requires y <= n as real
    ensures Ceil(y) <= n
  {
    CeilIsLeast(y);
  }

  /** As long as the roundings carry the formula's value by at most 1 GiB, the computed requirement
      differs from the exact one by at most 1 GiB. */
  lemma FloatWithinOneGiB(a: Accelerator, t: Trace, u: real)
    requires Usable(a) && a.fit.Some? && Unit(u) && Computes(a, t, u)
    requires Drift(FitNeed(a), u, Roundings(a)) <= 1.0
    ensures RequiredGiB(a).value - 1 <= ComputedRequirement(a, t) <= RequiredGiB(a).value + 1
  {
    ResultNear(a, t, u);
    WithinDrift(FitNeed(a), t.result, u, Roundings(a));
    CeilClose(FitNeed(a), t.result);
  }

  /** No whole number of GiB lies within the drift of the value, on the side that would change its
      ceiling; or the declared floor is beyond it. */
  predicate Clear(a: Accelerator, d: real)
    requires Usable(a) && a.fit.Some?
  {
    var x := FitNeed(a);
    (x + d <= Ceil(x) as real && x - d > (Ceil(x) - 1) as real) || x + d <= DeclaredOf(a).value as real
  }

  /** A plan whose value is clear of whole numbers gets exactly its requirement, however the
      operations round. */
  lemma FloatAgrees(a: Accelerator, t: Trace, u: real)
    requires Usable(a) && a.fit.Some? && Unit(u) && Computes(a, t, u)
    requires Clear(a, Drift(FitNeed(a), u, Roundings(a)))
    ensures ComputedRequirement(a, t) == RequiredGiB(a).value
  {
    var x, d := FitNeed(a), Drift(FitNeed(a), u, Roundings(a));
    ResultNear(a, t, u);
    WithinDrift(x, t.result, u, Roundings(a));
    if x + d <= Ceil(x) as real && x - d > (Ceil(x) - 1) as real {
      CeilBetween(t.result, Ceil(x));
    } else {
      CeilAtMost(t.result, DeclaredOf(a).value);
      CeilAtMost(x, DeclaredOf(a).value);
    }
  }
}
