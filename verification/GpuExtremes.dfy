/** Exactly which plans get their exact requirement however the operations round: the two extreme
    computations, with every rounding down and with every rounding up, decide it. */
module GpuExtremes {
  import opened GpuFit
  import opened GpuRounding

  /** A rounding that multiplies by `e`. */
  function By(x: real, e: real): real {
    x * e
  }

  /** A memory as a float when roundings multiply by `e`. */
  function Memory(f: Field, e: real): real
    requires Numeric(f)
  {
    if Wide(f) then By(Amount(f), e) else Amount(f)
  }

  function Rise(before: real, memory: real, e: real): real {
    if before == 0.0 then memory else By(before + memory, e)
  }

  /** The accumulator after `n` modules. */
  function Accumulated(parts: seq<Part>, sharded: bool, e: real, n: nat): real
    requires Sound(parts) && n <= |parts|
  {
    if n == 0 then 0.0
    else
      var before := Accumulated(parts, sharded, e, n - 1);
      assert ProblemOf(parts[n - 1]).None?;
      if Sharded(parts[n - 1]) == sharded then Rise(before, Memory(parts[n - 1].memory, e), e) else before
  }

  function PerGpuSum(sharded: real, replicated: real, count: int, e: real): real
    requires count >= 1
  {
    By(By(sharded / count as real, e) + replicated, e)
  }

  function MarginFactor(margin: real, e: real): real {
    By(1.0 + By(margin / 100.0, e), e)
  }

  /** From the two accumulators to the result. */
  function Finish(sharded: real, replicated: real, count: int, margin: real, e: real): real
    requires count >= 1
  {
    By(By(PerGpuSum(sharded, replicated, count, e), MarginFactor(margin, e)), e)
  }

  /** The result when every rounding multiplies by `e`. */
  function Extreme(a: Accelerator, e: real): real
    requires Usable(a) && a.fit.Some?
  {
    var parts, n := a.fit.value.modules, |a.fit.value.modules|;
    Finish(Accumulated(parts, true, e, n), Accumulated(parts, false, e, n), CountOf(a).value,
           MarginOf(a.fit.value).value, e)
  }

  function RequirementOf(a: Accelerator, result: real): int
    requires Usable(a)
  {
    if DeclaredOf(a).value > Ceil(result) then DeclaredOf(a).value else Ceil(result)
  }

  // ---------------------------------------------------------------- every computation lies between

  /** The factors of a rounding down and of a rounding up. */
  predicate Factors(u: real, d: real, e: real) {
    Unit(u) && d == 1.0 - u && e == 1.0 + u
  }

  lemma RoundsDown(x: real, y: real, u: real, d: real, lo: real)
    requires Rounds(x, y, u) && d == 1.0 - u && d > 0.0 && 0.0 <= lo <= x
    ensures 0.0 <= By(lo, d) <= y && (lo > 0.0 ==> By(lo, d) > 0.0)
  {
    Scale(lo, x, d);
    if lo > 0.0 {
      Positive(lo, d);
    }
  }

  lemma RoundsUp(x: real, y: real, u: real, e: real, hi: real)
    requires Rounds(x, y, u) && e == 1.0 + u && e > 0.0 && x <= hi
    ensures y <= By(hi, e)
  {
    Scale(x, hi, e);
  }

  lemma RoundsWithin(x: real, y: real, u: real, d: real, e: real, lo: real, hi: real)
    requires Factors(u, d, e) && Rounds(x, y, u) && 0.0 <= lo <= x <= hi
    ensures 0.0 <= By(lo, d) <= y <= By(hi, e) && (lo > 0.0 ==> By(lo, d) > 0.0)
  {
    RoundsDown(x, y, u, d, lo);
    RoundsUp(x, y, u, e, hi);
  }

  /** `y` lies between the two, and all three are zero or none is. */
  predicate Enclosed(lo: real, y: real, hi: real) {
    0.0 <= lo <= y <= hi && (lo == 0.0 <==> hi == 0.0)
  }

  lemma MemoryWithin(f: Field, v: real, u: real, d: real, e: real)
    requires Factors(u, d, e) && Numeric(f) && Amount(f) > 0.0 && Converts(f, v, u)
    ensures 0.0 < Memory(f, d) <= v <= Memory(f, e)
  {
    if Wide(f) {
      RoundsWithin(Amount(f), v, u, d, e, Amount(f), Amount(f));
    }
  }

  lemma RiseWithin(lo: real, got: real, hi: real, low: real, v: real, high: real, next: real, u: real, d: real, e: real)
    requires Factors(u, d, e) && Enclosed(lo, got, hi) && 0.0 < low <= v <= high && Sums(got, v, next, u)
    ensures 0.0 < Rise(lo, low, d) <= next <= Rise(hi, high, e)
  {
    if got != 0.0 {
      assert lo != 0.0 && hi != 0.0;
      RoundsWithin(got + v, next, u, d, e, lo + low, hi + high);
    }
  }

  lemma {:induction false} AccumulatedWithin(parts: seq<Part>, sharded: bool, memories: seq<real>, totals: seq<real>,
                                             u: real, d: real, e: real, n: nat)
    requires Sound(parts) && Factors(u, d, e) && Floats(parts, memories, u)
             && Accumulates(parts, sharded, memories, totals, u)
    requires n <= |parts|
    ensures Enclosed(Accumulated(parts, sharded, d, n), totals[n], Accumulated(parts, sharded, e, n))
  {
    if n > 0 {
      var last := parts[n - 1];
      AccumulatedWithin(parts, sharded, memories, totals, u, d, e, n - 1);
      assert ProblemOf(last).None? && Converts(last.memory, memories[n - 1], u);
      if Sharded(last) == sharded {
        MemoryWithin(last.memory, memories[n - 1], u, d, e);
        RiseWithin(Accumulated(parts, sharded, d, n - 1), totals[n - 1], Accumulated(parts, sharded, e, n - 1),
                   Memory(last.memory, d), memories[n - 1], Memory(last.memory, e), totals[n], u, d, e);
      }
    }
  }

  lemma SumWithin(s: real, r: real, c: int, perGpu: real, sum: real, u: real, d: real, e: real,
                  sLo: real, sHi: real, rLo: real, rHi: real)
    requires Factors(u, d, e) && c >= 1 && 0.0 <= sLo <= s <= sHi && 0.0 <= rLo <= r <= rHi
    requires Rounds(s / c as real, perGpu, u) && Rounds(perGpu + r, sum, u)
    ensures 0.0 <= PerGpuSum(sLo, rLo, c, d) <= sum <= PerGpuSum(sHi, rHi, c, e)
  {
    DivideOrder(sLo, s, c);
    DivideOrder(s, sHi, c);
    DivideOrder(0.0, sLo, c);
    var q, qLo, qHi := s / c as real, sLo / c as real, sHi / c as real;
    RoundsWithin(q, perGpu, u, d, e, qLo, qHi);
    RoundsWithin(perGpu + r, sum, u, d, e, By(qLo, d) + rLo, By(qHi, e) + rHi);
  }

  lemma FactorWithin(x: real, ratio: real, factor: real, u: real, d: real, e: real)
    requires Factors(u, d, e) && x >= 0.0 && Rounds(x, ratio, u) && Rounds(1.0 + ratio, factor, u)
    ensures 0.0 <= By(1.0 + By(x, d), d) <= factor <= By(1.0 + By(x, e), e)
  {
    RoundsWithin(x, ratio, u, d, e, x, x);
    RoundsWithin(1.0 + ratio, factor, u, d, e, 1.0 + By(x, d), 1.0 + By(x, e));
  }

  lemma ProductWithin(t: Trace, u: real, d: real, e: real, sLo: real, sHi: real, fLo: real, fHi: real)
    requires Factors(u, d, e) && Finishes(t, u) && 0.0 <= sLo <= t.sum <= sHi && 0.0 <= fLo <= t.factor <= fHi
    ensures By(By(sLo, fLo), d) <= t.result <= By(By(sHi, fHi), e)
  {
    ProductMonotone(sLo, t.sum, fLo, t.factor);
    ProductMonotone(t.sum, sHi, t.factor, fHi);
    RoundsWithin(t.product, t.result, u, d, e, By(sLo, fLo), By(sHi, fHi));
  }

  /** The operations from the two accumulators to the result. */
  predicate FinishesFrom(t: Trace, s: real, r: real, c: int, m: real, u: real)
    requires c >= 1
  {
    && Rounds(s / c as real, t.perGpu, u) && Rounds(t.perGpu + r, t.sum, u)
    && Rounds(m / 100.0, t.ratio, u) && Rounds(1.0 + t.ratio, t.factor, u) && Finishes(t, u)
  }

  lemma FinishWithin(t: Trace, s: real, r: real, c: int, m: real, u: real, d: real, e: real,
                     sLo: real, sHi: real, rLo: real, rHi: real)
    requires Factors(u, d, e) && c >= 1 && m >= 0.0 && 0.0 <= sLo <= s <= sHi && 0.0 <= rLo <= r <= rHi
    requires FinishesFrom(t, s, r, c, m, u)
    ensures Finish(sLo, rLo, c, m, d) <= t.result <= Finish(sHi, rHi, c, m, e)
  {
    SumWithin(s, r, c, t.perGpu, t.sum, u, d, e, sLo, sHi, rLo, rHi);
    FactorWithin(m / 100.0, t.ratio, t.factor, u, d, e);
    ProductWithin(t, u, d, e, PerGpuSum(sLo, rLo, c, d), PerGpuSum(sHi, rHi, c, e), MarginFactor(m, d),
                  MarginFactor(m, e));
  }

  /** No computation gives less than all roundings down, or more than all roundings up. */
  lemma ResultWithin(a: Accelerator, t: Trace, u: real, d: real, e: real)
    requires Usable(a) && a.fit.Some? && Factors(u, d, e) && Computes(a, t, u)
    ensures Extreme(a, d) <= t.result <= Extreme(a, e)
  {
    var parts, n := a.fit.value.modules, |a.fit.value.modules|;
    AccumulatedWithin(parts, true, t.memories, t.sharded, u, d, e, n);
    AccumulatedWithin(parts, false, t.memories, t.replicated, u, d, e, n);
    FinishWithin(t, t.sharded[n], t.replicated[n], CountOf(a).value, MarginOf(a.fit.value).value, u, d, e,
                 Accumulated(parts, true, d, n), Accumulated(parts, true, e, n),
                 Accumulated(parts, false, d, n), Accumulated(parts, false, e, n));
  }

  // ---------------------------------------------------------------- both extremes are computations

  /** Multiplying by `e` is a rounding the operations may make. */
  predicate Admits(e: real, u: real) {
    1.0 - u <= e <= 1.0 + u
  }

  lemma RoundsBy(x: real, e: real, u: real)
    requires Unit(u) && Admits(e, u) && x >= 0.0
    ensures Rounds(x, By(x, e), u) && By(x, e) >= 0.0 && (x > 0.0 ==> By(x, e) > 0.0)
  {
    Scale(1.0 - u, e, x);
    Scale(e, 1.0 + u, x);
    if x > 0.0 {
      Positive(x, e);
    }
  }

  function Totals(parts: seq<Part>, sharded: bool, e: real): seq<real>
    requires Sound(parts)
  {
    seq(|parts| + 1, i requires 0 <= i <= |parts| => Accumulated(parts, sharded, e, i))
  }

  function Memories(parts: seq<Part>, e: real): seq<real>
    requires Sound(parts)
  {
    seq(|parts|, i requires 0 <= i < |parts| => assert ProblemOf(parts[i]).None?; Memory(parts[i].memory, e))
  }

  lemma RisePositive(before: real, memory: real, e: real)
    requires before >= 0.0 && memory > 0.0 && e > 0.0
    ensures Rise(before, memory, e) > 0.0
  {
    Positive(before + memory, e);
  }

  lemma {:induction false} AccumulatedPositive(parts: seq<Part>, sharded: bool, e: real, n: nat)
    requires Sound(parts) && n <= |parts| && e > 0.0
    ensures Accumulated(parts, sharded, e, n) >= 0.0
  {
    if n > 0 {
      AccumulatedPositive(parts, sharded, e, n - 1);
      assert ProblemOf(parts[n - 1]).None?;
      MemoryPositive(parts[n - 1].memory, e);
      RisePositive(Accumulated(parts, sharded, e, n - 1), Memory(parts[n - 1].memory, e), e);
    }
  }

  lemma ExtremeFloats(parts: seq<Part>, e: real, u: real)
    requires Sound(parts) && Unit(u) && Admits(e, u)
    ensures Floats(parts, Memories(parts, e), u)
  {
    forall i | 0 <= i < |parts|
      ensures ProblemOf(parts[i]).None? && Converts(parts[i].memory, Memories(parts, e)[i], u)
    {
      assert ProblemOf(parts[i]).None?;
      RoundsBy(Amount(parts[i].memory), e, u);
    }
  }

  lemma RiseSums(before: real, memory: real, e: real, u: real)
    requires Unit(u) && Admits(e, u) && before >= 0.0 && memory >= 0.0
    ensures Sums(before, memory, Rise(before, memory, e), u)
  {
    RoundsBy(before + memory, e, u);
  }

  lemma MemoryPositive(f: Field, e: real)
    requires Numeric(f) && Amount(f) > 0.0 && e > 0.0
    ensures Memory(f, e) > 0.0
  {
    Positive(Amount(f), e);
  }

  lemma ExtremeAccumulates(parts: seq<Part>, sharded: bool, e: real, u: real)
    requires Sound(parts) && Unit(u) && Admits(e, u)
    ensures Accumulates(parts, sharded, Memories(parts, e), Totals(parts, sharded, e), u)
  {
    var memories, totals := Memories(parts, e), Totals(parts, sharded, e);
    forall i | 0 <= i < |parts|
      ensures if Sharded(parts[i]) == sharded then Sums(totals[i], memories[i], totals[i + 1], u)
              else totals[i + 1] == totals[i]
    {
      assert ProblemOf(parts[i]).None?;
      AccumulatedPositive(parts, sharded, e, i);
      MemoryPositive(parts[i].memory, e);
      RiseSums(totals[i], memories[i], e, u);
    }
  }

  lemma SumBy(q: real, r: real, e: real, u: real)
    requires Unit(u) && Admits(e, u) && q >= 0.0 && r >= 0.0
    ensures Rounds(q, By(q, e), u) && Rounds(By(q, e) + r, By(By(q, e) + r, e), u) && By(By(q, e) + r, e) >= 0.0
  {
    RoundsBy(q, e, u);
    RoundsBy(By(q, e) + r, e, u);
  }

  lemma OneBy(x: real, e: real, u: real)
    requires Unit(u) && Admits(e, u) && x >= 0.0
    ensures Rounds(x, By(x, e), u) && Rounds(1.0 + By(x, e), By(1.0 + By(x, e), e), u) && By(1.0 + By(x, e), e) >= 0.0
  {
    RoundsBy(x, e, u);
    RoundsBy(1.0 + By(x, e), e, u);
  }

  lemma ProductBy(sum: real, factor: real, e: real, u: real)
    requires Unit(u) && Admits(e, u) && sum >= 0.0 && factor >= 0.0
    ensures Rounds(By(sum, factor), By(By(sum, factor), e), u)
  {
    Scale(0.0, sum, factor);
    RoundsBy(By(sum, factor), e, u);
  }

  /** A computation whose every rounding multiplies by `e`. */
  lemma FinishComputes(memories: seq<real>, sharded: seq<real>, replicated: seq<real>,
                       s: real, r: real, c: int, m: real, e: real, u: real) returns (t: Trace)
    requires Unit(u) && Admits(e, u) && c >= 1 && s >= 0.0 && r >= 0.0 && m >= 0.0
    ensures t.memories == memories && t.sharded == sharded && t.replicated == replicated
    ensures FinishesFrom(t, s, r, c, m, u) && t.result == Finish(s, r, c, m, e)
  {
    DivideOrder(0.0, s, c);
    var q, x := s / c as real, m / 100.0;
    var sum, factor := By(By(q, e) + r, e), By(1.0 + By(x, e), e);
    SumBy(q, r, e, u);
    OneBy(x, e, u);
    ProductBy(sum, factor, e, u);
    t := Trace(memories, sharded, replicated, By(q, e), sum, By(x, e), factor, By(sum, factor), By(By(sum, factor), e));
  }

  lemma ComputesFrom(a: Accelerator, t: Trace, s: real, r: real, u: real)
    requires Usable(a) && a.fit.Some? && Floats(a.fit.value.modules, t.memories, u)
    requires Accumulates(a.fit.value.modules, true, t.memories, t.sharded, u) && t.sharded[|a.fit.value.modules|] == s
    requires Accumulates(a.fit.value.modules, false, t.memories, t.replicated, u)
             && t.replicated[|a.fit.value.modules|] == r
    requires FinishesFrom(t, s, r, CountOf(a).value, MarginOf(a.fit.value).value, u)
    ensures Computes(a, t, u)
  {
  }

  lemma ExtremeTotals(parts: seq<Part>, e: real, u: real)
    requires Sound(parts) && Unit(u) && Admits(e, u)
    ensures Floats(parts, Memories(parts, e), u)
    ensures forall sharded :: Accumulates(parts, sharded, Memories(parts, e), Totals(parts, sharded, e), u)
    ensures forall sharded :: Totals(parts, sharded, e)[|parts|] == Accumulated(parts, sharded, e, |parts|) >= 0.0
  {
    ExtremeFloats(parts, e, u);
    forall sharded
      ensures Accumulates(parts, sharded, Memories(parts, e), Totals(parts, sharded, e), u)
      ensures Totals(parts, sharded, e)[|parts|] == Accumulated(parts, sharded, e, |parts|) >= 0.0
    {
      ExtremeAccumulates(parts, sharded, e, u);
      AccumulatedPositive(parts, sharded, e, |parts|);
    }
  }

  lemma ExtremeComputes(a: Accelerator, e: real, u: real) returns (t: Trace)
    requires Usable(a) && a.fit.Some? && Unit(u) && Admits(e, u)
    ensures Computes(a, t, u) && t.result == Extreme(a, e)
  {
    var parts := a.fit.value.modules;
    var sharded, replicated := Totals(parts, true, e), Totals(parts, false, e);
    var s, r := sharded[|parts|], replicated[|parts|];
    ExtremeTotals(parts, e, u);
    t := FinishComputes(Memories(parts, e), sharded, replicated, s, r, CountOf(a).value, MarginOf(a.fit.value).value,
                        e, u);
    ComputesFrom(a, t, s, r, u);
  }

  // ---------------------------------------------------------------- the exact condition

  lemma Sandwich(a: Accelerator, x: real, y: real, z: real, n: int)
    requires Usable(a) && x <= y <= z && RequirementOf(a, x) == n == RequirementOf(a, z)
    ensures RequirementOf(a, y) == n
  {
    CeilMonotone(x, y);
    CeilMonotone(y, z);
  }

  /** Both extremes give the exact requirement. */
  predicate ExtremesExact(a: Accelerator, d: real, e: real)
    requires Usable(a) && a.fit.Some?
  {
    RequirementOf(a, Extreme(a, d)) == RequiredGiB(a).value == RequirementOf(a, Extreme(a, e))
  }

  lemma ExtremesDecide(a: Accelerator, t: Trace, u: real, d: real, e: real)
    requires Usable(a) && a.fit.Some? && Factors(u, d, e) && Computes(a, t, u) && ExtremesExact(a, d, e)
    ensures ComputedRequirement(a, t) == RequiredGiB(a).value
  {
    ResultWithin(a, t, u, d, e);
    Sandwich(a, Extreme(a, d), t.result, Extreme(a, e), RequiredGiB(a).value);
  }

  /** However the operations round, the computed requirement is the exact one, if and only if it is
      with every rounding down and with every rounding up, which can be computed from the plan. */
  lemma AlwaysExactIff(a: Accelerator, u: real)
    requires Usable(a) && a.fit.Some? && Unit(u)
    ensures (forall t | Computes(a, t, u) :: ComputedRequirement(a, t) == RequiredGiB(a).value)
       <==> ExtremesExact(a, 1.0 - u, 1.0 + u)
  {
    var d, e := 1.0 - u, 1.0 + u;
    var low := ExtremeComputes(a, d, u);
    var high := ExtremeComputes(a, e, u);
    assert ComputedRequirement(a, low) == RequirementOf(a, Extreme(a, d));
    assert ComputedRequirement(a, high) == RequirementOf(a, Extreme(a, e));
    if ExtremesExact(a, d, e) {
      forall t | Computes(a, t, u)
        ensures ComputedRequirement(a, t) == RequiredGiB(a).value
      {
        ExtremesDecide(a, t, u, d, e);
      }
    }
  }
}
