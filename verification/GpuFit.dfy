/** The per-GPU memory requirement of a fit plan and the capacity class it selects, over exact
    reals; GpuRounding bounds what binary floating point makes of it. */
module GpuFit {
  import opened JsonMerge

  /** A field as decoded: Python's integers, its finite floats, and everything a check refuses. */
  datatype Field = Absent | NullField | Whole(n: int) | Fraction(x: real) | NotFinite | OtherType

  /** Why a specification is refused. */
  datatype Problem =
    | BadCount | BadDeclared | NoModules | Unnamed | BadMemory | BadDistribution | BadMargin
    | NeedsRequirement | NotPositive | UnsupportedClass | CannotFit
    | BadGpuRequest | GpuRequestConflict | ClassConflict
    | BadProducts | ProductSelectorConflict | ProductAffinityConflict
    | ReservedEnv | MissingMountPath | MountPathClash

  datatype Result<+T> = Ok(value: T) | Err(problem: Problem)

  datatype Part = Part(named: bool, memory: Field, distribution: Option<string>)

  datatype Fit = Fit(modules: seq<Part>, margin: Field)

  datatype Accelerator = Accelerator(
    count: Field, minimumMemoryGiB: Field, fit: Option<Fit>, class_: Option<string>, products: Option<seq<string>>)

  predicate Numeric(f: Field) {
    f.Whole? || f.Fraction?
  }

  function Amount(f: Field): real
    requires Numeric(f)
  {
    if f.Whole? then f.n as real else f.x
  }

  predicate Sharded(p: Part) {
    p.distribution == Some("sharded")
  }

  function ProblemOf(p: Part): Option<Problem> {
    if !p.named then Some(Unnamed)
    else if !Numeric(p.memory) || Amount(p.memory) <= 0.0 then Some(BadMemory)
    else if p.distribution.Some? && p.distribution.value != "sharded" && p.distribution.value != "replicated"
    then Some(BadDistribution)
    else None
  }

  predicate Sound(parts: seq<Part>) {
    forall i | 0 <= i < |parts| :: ProblemOf(parts[i]).None?
  }

  function FirstProblem(parts: seq<Part>): Option<Problem> {
    if parts == [] then None
    else if ProblemOf(parts[0]).Some? then ProblemOf(parts[0])
    else FirstProblem(parts[1..])
  }

  /** The memory of the sharded, or of the replicated, parts. */
  function Total(parts: seq<Part>, sharded: bool): real
    requires Sound(parts)
  {
    if parts == [] then 0.0
    else Total(parts[..|parts| - 1], sharded)
         + (if Sharded(parts[|parts| - 1]) == sharded then Amount(parts[|parts| - 1].memory) else 0.0)
  }

  function Ceil(x: real): int {
    -((-x).Floor)
  }

  /** The documented formula before rounding up. */
  function Need(sharded: real, replicated: real, count: int, margin: real): real
    requires count >= 1
  {
    (sharded / count as real + replicated) * (1.0 + margin / 100.0)
  }

  function CountOf(a: Accelerator): Option<int> {
    match a.count
    case Absent => Some(1)
    case Whole(n) => if n >= 1 then Some(n) else None
    case _ => None
  }

  /** `None` where the field is refused, `Some(0)` where it is not given. */
  function DeclaredOf(a: Accelerator): Option<int> {
    match a.minimumMemoryGiB
    case Absent => Some(0)
    case NullField => Some(0)
    case Whole(n) => if n >= 1 then Some(n) else None
    case _ => None
  }

  function MarginOf(fit: Fit): Option<real> {
    if fit.margin.Absent? then Some(10.0)
    else if Numeric(fit.margin) && 0.0 <= Amount(fit.margin) <= 100.0 then Some(Amount(fit.margin))
    else None
  }

  /** The plan passes every check. */
  predicate Usable(a: Accelerator) {
    && CountOf(a).Some? && DeclaredOf(a).Some?
    && (a.fit.Some? ==> a.fit.value.modules != [] && Sound(a.fit.value.modules) && MarginOf(a.fit.value).Some?)
  }

  function FitNeed(a: Accelerator): real
    requires Usable(a) && a.fit.Some?
  {
    var parts := a.fit.value.modules;
    Need(Total(parts, true), Total(parts, false), CountOf(a).value, MarginOf(a.fit.value).value)
  }

  /** The requirement of a usable plan, `None` when it states none. */
  function RequiredGiB(a: Accelerator): Option<int>
    requires Usable(a)
  {
    if a.fit.Some? then
      var need := Ceil(FitNeed(a));
      Some(if DeclaredOf(a).value > need then DeclaredOf(a).value else need)
    else if DeclaredOf(a).value == 0 then None
    else DeclaredOf(a)
  }

  /** The first check that fails, in the order of the code. */
  function PlanRefusal(a: Accelerator): Option<Problem> {
    if CountOf(a).None? then Some(BadCount)
    else if DeclaredOf(a).None? then Some(BadDeclared)
    else if a.fit.None? then None
    else if a.fit.value.modules == [] then Some(NoModules)
    else if FirstProblem(a.fit.value.modules).Some? then FirstProblem(a.fit.value.modules)
    else if MarginOf(a.fit.value).None? then Some(BadMargin)
    else None
  }

  lemma {:induction false} FirstProblemSplit(parts: seq<Part>, k: nat)
    requires k < |parts| && Sound(parts[..k])
    ensures ProblemOf(parts[k]).Some? ==> FirstProblem(parts) == ProblemOf(parts[k])
    decreases k
  {
    if k > 0 {
      assert parts[..k][0] == parts[0] && parts[..k][1..] == parts[1..][..k - 1];
      FirstProblemSplit(parts[1..], k - 1);
    }
  }

  lemma {:induction false} FirstProblemNone(parts: seq<Part>)
    ensures FirstProblem(parts).None? <==> Sound(parts)
  {
    if parts != [] {
      FirstProblemNone(parts[1..]);
      assert parts == [parts[0]] + parts[1..];
    }
  }

  /** The accumulation as written: one pass over the modules, stopping at the first bad one. */
  method GpuMemoryRequirement(a: Accelerator) returns (r: Result<Option<int>>)
    ensures r.Ok? <==> Usable(a)
    ensures r.Ok? ==> r.value == RequiredGiB(a)
    ensures r.Err? ==> PlanRefusal(a) == Some(r.problem)
  {
    var count, declared := CountOf(a), DeclaredOf(a);
    if count.None? {
      return Err(BadCount);
    }
    if declared.None? {
      return Err(BadDeclared);
    }
    if a.fit.None? {
      return Ok(if declared.value == 0 then None else declared);
    }
    var parts := a.fit.value.modules;
    if parts == [] {
      return Err(NoModules);
    }
    var shardedGiB, replicatedGiB := 0.0, 0.0;
    FirstProblemNone(parts);
    for i := 0 to |parts|
      invariant Sound(parts[..i])
      invariant shardedGiB == Total(parts[..i], true) && replicatedGiB == Total(parts[..i], false)
    {
      var part := parts[i];
      FirstProblemSplit(parts, i);
      assert parts[..i + 1][..i] == parts[..i];
      if !part.named {
        return Err(Unnamed);
      }
      if !Numeric(part.memory) || Amount(part.memory) <= 0.0 {
        return Err(BadMemory);
      }
      if part.distribution == Some("sharded") {
        shardedGiB := shardedGiB + Amount(part.memory);
      } else if part.distribution.None? || part.distribution == Some("replicated") {
        replicatedGiB := replicatedGiB + Amount(part.memory);
      } else {
        return Err(BadDistribution);
      }
    }
    assert parts[..|parts|] == parts;
    var margin := MarginOf(a.fit.value);
    if margin.None? {
      return Err(BadMargin);
    }
    var calculated := Ceil(Need(shardedGiB, replicatedGiB, count.value, margin.value));
    r := Ok(Some(if declared.value > calculated then declared.value else calculated));
  }

  // ---------------------------------------------------------------- what the number means

  lemma CeilIsLeast(x: real)
    ensures x <= Ceil(x) as real < x + 1.0
  {
  }

  lemma CeilMonotone(x: real, y: real)
    requires x <= y
    ensures Ceil(x) <= Ceil(y)
  {
  }

  lemma {:induction false} TotalBounds(parts: seq<Part>)
    requires Sound(parts)
    ensures Total(parts, true) >= 0.0 && Total(parts, false) >= 0.0
    ensures parts != [] ==> Total(parts, true) + Total(parts, false) > 0.0
  {
    if parts != [] {
      var last := parts[|parts| - 1];
      assert ProblemOf(last).None?;
      TotalBounds(parts[..|parts| - 1]);
    }
  }

  lemma DivideMonotone(s: real, t: real, c: int, d: int)
    requires 0.0 <= s <= t && 1 <= d <= c
    ensures 0.0 <= s / c as real <= t / d as real
  {
    var q := s / c as real;
    assert q * c as real == s;
    assert q >= 0.0;
    assert q * d as real <= s;
    assert q <= s / d as real;
  }

  lemma ProductMonotone(x: real, y: real, m: real, n: real)
    requires 0.0 <= x <= y && 0.0 <= m <= n
    ensures 0.0 <= x * m <= y * n
  {
  }

  /** More memory, a larger margin or fewer GPUs never need less. */
  lemma NeedMonotone(s: real, r: real, c: int, m: real, s': real, r': real, c': int, m': real)
    requires 0.0 <= s && 0.0 <= r && 1 <= c' <= c && 0.0 <= m <= m'
    requires 0.0 <= s' && 0.0 <= r' && s / c as real + r <= s' / c' as real + r'
    ensures 0.0 <= Need(s, r, c, m) <= Need(s', r', c', m')
  {
    DivideMonotone(s, s, c, c);
    ProductMonotone(s / c as real + r, s' / c' as real + r', 1.0 + m / 100.0, 1.0 + m' / 100.0);
  }

  lemma NeedPositive(a: Accelerator)
    requires Usable(a) && a.fit.Some?
    ensures FitNeed(a) > 0.0
  {
    var parts, c := a.fit.value.modules, CountOf(a).value;
    TotalBounds(parts);
    var s, r := Total(parts, true), Total(parts, false);
    var q := s / c as real;
    assert q * c as real == s;
    assert q == 0.0 ==> s == 0.0;
    DivideMonotone(s, s, c, c);
    assert q + r > 0.0;
    var f := 1.0 + MarginOf(a.fit.value).value / 100.0;
    assert f >= 1.0;
    ProductMonotone(q + r, q + r, 1.0, f);
    assert FitNeed(a) == (q + r) * f;
  }

  /** A GPU with `gib` of usable memory meets the declared floor and the documented formula. */
  predicate Covers(a: Accelerator, gib: int)
    requires Usable(a) && a.fit.Some?
  {
    gib >= DeclaredOf(a).value && gib as real >= FitNeed(a)
  }

  /** The requirement is the least whole number of GiB that covers both the declared floor and the
      documented formula, and it is at least 1, so a class can always be found for it. */
  lemma RequirementIsLeastCover(a: Accelerator)
    requires Usable(a) && a.fit.Some?
    ensures var n := RequiredGiB(a).value;
            n >= 1 && Covers(a, n) && forall m | Covers(a, m) :: n <= m
  {
    CeilIsLeast(FitNeed(a));
    NeedPositive(a);
  }

  /** Part by part `q` asks for at least as much as `p`, and may replicate what `p` shards. */
  predicate AtLeast(q: seq<Part>, p: seq<Part>)
    requires Sound(p) && Sound(q)
  {
    && |q| == |p|
    && forall i | 0 <= i < |p| ::
         && Amount(p[i].memory) <= Amount(q[i].memory)
         && (q[i].distribution == Some("sharded") ==> p[i].distribution == Some("sharded"))
  }

  lemma {:induction false} TotalsGrow(p: seq<Part>, q: seq<Part>, c: int, d: int)
    requires Sound(p) && Sound(q) && AtLeast(q, p) && 1 <= d <= c
    ensures Total(p, true) / c as real + Total(p, false) <= Total(q, true) / d as real + Total(q, false)
    decreases |p|
  {
    if p != [] {
      var x, y := p[|p| - 1], q[|q| - 1];
      assert ProblemOf(x).None? && ProblemOf(y).None?;
      TotalsGrow(p[..|p| - 1], q[..|q| - 1], c, d);
      DivideMonotone(Amount(x.memory), Amount(y.memory), c, d);
      DivideMonotone(Amount(x.memory), Amount(y.memory), c, 1);
      SplitQuotient(Total(p[..|p| - 1], true), Amount(x.memory), c);
      SplitQuotient(Total(q[..|q| - 1], true), Amount(y.memory), d);
    }
  }

  lemma SplitQuotient(x: real, y: real, c: int)
    requires c >= 1
    ensures (x + y) / c as real == x / c as real + y / c as real
  {
  }

  /** The requirement grows with every memory, with the margin and with the floor, shrinks with
      more GPUs, and never falls when a sharded module is made replicated. */
  lemma RequirementMonotone(a: Accelerator, b: Accelerator)
    requires Usable(a) && Usable(b) && a.fit.Some? && b.fit.Some?
    requires AtLeast(b.fit.value.modules, a.fit.value.modules)
    requires CountOf(b).value <= CountOf(a).value && DeclaredOf(a).value <= DeclaredOf(b).value
    requires MarginOf(a.fit.value).value <= MarginOf(b.fit.value).value
    ensures RequiredGiB(a).value <= RequiredGiB(b).value
  {
    var p, q := a.fit.value.modules, b.fit.value.modules;
    TotalBounds(p);
    TotalBounds(q);
    TotalsGrow(p, q, CountOf(a).value, CountOf(b).value);
    NeedMonotone(Total(p, true), Total(p, false), CountOf(a).value, MarginOf(a.fit.value).value,
                 Total(q, true), Total(q, false), CountOf(b).value, MarginOf(b.fit.value).value);
    CeilMonotone(FitNeed(a), FitNeed(b));
  }

  lemma {:induction false} TotalConcat(p: seq<Part>, q: seq<Part>, sharded: bool)
    requires Sound(p) && Sound(q)
    ensures Sound(p + q) && Total(p + q, sharded) == Total(p, sharded) + Total(q, sharded)
    decreases |q|
  {
    if q == [] {
      assert p + q == p;
    } else {
      assert (p + q)[..|p + q| - 1] == p + q[..|q| - 1];
      TotalConcat(p, q[..|q| - 1], sharded);
    }
  }

  function Without(q: seq<Part>, k: nat): seq<Part>
    requires k < |q|
  {
    q[..k] + q[k + 1..]
  }

  lemma TotalWithout(q: seq<Part>, k: nat, sharded: bool)
    requires Sound(q) && k < |q|
    ensures Sound(Without(q, k))
    ensures Total(q, sharded) == Total(Without(q, k), sharded) + Total([q[k]], sharded)
  {
    TotalConcat(q[..k], q[k + 1..], sharded);
    TotalConcat([q[k]], q[k + 1..], sharded);
    TotalConcat(q[..k], [q[k]] + q[k + 1..], sharded);
    assert q == q[..k] + ([q[k]] + q[k + 1..]);
  }

  lemma MultisetWithout(q: seq<Part>, k: nat)
    requires k < |q|
    ensures multiset(Without(q, k)) == multiset(q) - multiset{q[k]}
  {
    assert q == q[..k] + [q[k]] + q[k + 1..];
  }

  lemma {:induction false} TotalOfPermutation(p: seq<Part>, q: seq<Part>, sharded: bool)
    requires Sound(p) && Sound(q) && multiset(p) == multiset(q)
    ensures Total(p, sharded) == Total(q, sharded)
    decreases |p|
  {
    assert |p| == |multiset(p)| == |q|;
    if p != [] {
      assert p[0] in multiset(q);
      var k :| 0 <= k < |q| && q[k] == p[0];
      MultisetWithout(p, 0);
      MultisetWithout(q, k);
      TotalWithout(p, 0, sharded);
      TotalWithout(q, k, sharded);
      TotalOfPermutation(Without(p, 0), Without(q, k), sharded);
    }
  }

  lemma SoundOfPermutation(p: seq<Part>, q: seq<Part>)
    requires Sound(p) && multiset(p) == multiset(q)
    ensures Sound(q) && |q| == |p|
  {
    assert |p| == |multiset(p)| == |q|;
    forall i | 0 <= i < |q| ensures ProblemOf(q[i]).None? {
      assert q[i] in multiset(p);
    }
  }

  /** The order in which the modules are listed does not matter. */
  lemma RequirementIgnoresOrder(a: Accelerator, modules: seq<Part>)
    requires Usable(a) && a.fit.Some? && multiset(modules) == multiset(a.fit.value.modules)
    ensures var b := a.(fit := Some(a.fit.value.(modules := modules)));
            Usable(b) && RequiredGiB(b) == RequiredGiB(a)
  {
    SoundOfPermutation(a.fit.value.modules, modules);
    TotalOfPermutation(a.fit.value.modules, modules, true);
    TotalOfPermutation(a.fit.value.modules, modules, false);
  }

  // ---------------------------------------------------------------- the plan in its own words

  predicate PositiveAmount(f: Field) {
    match f
    case Whole(n) => n > 0
    case Fraction(x) => x > 0.0
    case _ => false
  }

  predicate Percentage(f: Field) {
    match f
    case Whole(n) => 0 <= n <= 100
    case Fraction(x) => 0.0 <= x <= 100.0
    case _ => false
  }

  /** Exactly the plans that pass: a positive count, a positive floor, and a fit with modules, each
      of them named, positive, and sharded or replicated, and with a margin from 0 to 100; what is
      not given passes, and so does a null floor. */
  lemma UsableIff(a: Accelerator)
    ensures Usable(a) <==>
      && (a.count.Absent? || (a.count.Whole? && a.count.n > 0))
      && (a.minimumMemoryGiB.Absent? || a.minimumMemoryGiB.NullField?
          || (a.minimumMemoryGiB.Whole? && a.minimumMemoryGiB.n > 0))
      && (a.fit.Some? ==>
            && a.fit.value.modules != [] && (a.fit.value.margin.Absent? || Percentage(a.fit.value.margin))
            && forall i | 0 <= i < |a.fit.value.modules| ::
                 var p := a.fit.value.modules[i];
                 p.named && PositiveAmount(p.memory) && p.distribution in {None, Some("sharded"), Some("replicated")})
  {
    if a.fit.Some? {
      forall i | 0 <= i < |a.fit.value.modules|
        ensures var p := a.fit.value.modules[i];
          ProblemOf(p).None? <==>
            p.named && PositiveAmount(p.memory) && p.distribution in {None, Some("sharded"), Some("replicated")}
      {
      }
    }
  }

  /** Fields that are not given: one GPU, no floor, 10 percent, and the automatic class. */
  lemma Defaults(a: Accelerator)
    requires Usable(a)
    ensures a.count.Absent? ==>
      var b := a.(count := Whole(1)); Usable(b) && RequiredGiB(b) == RequiredGiB(a) && Select(b) == Select(a)
    ensures a.minimumMemoryGiB.Absent? ==>
      var b := a.(minimumMemoryGiB := NullField); Usable(b) && RequiredGiB(b) == RequiredGiB(a)
    ensures a.fit.Some? && a.fit.value.margin.Absent? ==>
      var b := a.(fit := Some(a.fit.value.(margin := Whole(10)))); Usable(b) && RequiredGiB(b) == RequiredGiB(a)
    ensures a.class_.None? ==> Select(a.(class_ := Some("auto"))) == Select(a)
  {
  }

  /** A module that states no distribution is replicated. */
  lemma UnstatedIsReplicated(a: Accelerator, i: nat)
    requires Usable(a) && a.fit.Some? && i < |a.fit.value.modules| && a.fit.value.modules[i].distribution.None?
    ensures var stated := a.fit.value.modules[i].(distribution := Some("replicated"));
      var b := a.(fit := Some(a.fit.value.(modules := a.fit.value.modules[i := stated])));
      Usable(b) && RequiredGiB(b) == RequiredGiB(a)
  {
    var p := a.fit.value.modules;
    var q := p[i := p[i].(distribution := Some("replicated"))];
    assert ProblemOf(q[i]).None?;
    assert Sound(q);
    var b := a.(fit := Some(a.fit.value.(modules := q)));
    RequirementMonotone(a, b);
    RequirementMonotone(b, a);
  }

  /** `n` is the least whole number that is at least `x`. */
  predicate LeastAbove(n: int, x: real) {
    n as real - 1.0 < x <= n as real
  }

  /** The formula, for a sharded module of `x` GiB beside a replicated one of `y` GiB. */
  lemma TwoModules(a: Accelerator, x: real, y: real, c: int, m: real)
    requires a.fit.Some? && x > 0.0 && y > 0.0 && c >= 1 && 0.0 <= m <= 100.0
    requires a.count == Whole(c) && a.minimumMemoryGiB.Absent? && a.fit.value.margin == Fraction(m)
    requires a.fit.value.modules
          == [Part(true, Fraction(x), Some("sharded")), Part(true, Fraction(y), Some("replicated"))]
    ensures Usable(a) && RequiredGiB(a).Some?
    ensures LeastAbove(RequiredGiB(a).value, (x / c as real + y) * (1.0 + m / 100.0))
  {
    var p := a.fit.value.modules;
    assert p[..1][..0] == [] && p[..1] == [p[0]];
    assert Total(p, true) == Total(p[..1], true) == x && Total(p, false) == Total(p[..1], false) + y == y;
    assert FitNeed(a) == (x / c as real + y) * (1.0 + m / 100.0);
    RequirementIsLeastCover(a);
    NeedPositive(a);
    CeilIsLeast(FitNeed(a));
  }

  /** One module alone is divided by the count if it is sharded, and is needed whole otherwise. */
  lemma OneModule(a: Accelerator, x: real, distribution: string, c: int, m: real)
    requires a.fit.Some? && x > 0.0 && c >= 1 && 0.0 <= m <= 100.0 && distribution in {"sharded", "replicated"}
    requires a.count == Whole(c) && a.minimumMemoryGiB.Absent? && a.fit.value.margin == Fraction(m)
    requires a.fit.value.modules == [Part(true, Fraction(x), Some(distribution))]
    ensures Usable(a) && RequiredGiB(a).Some?
    ensures LeastAbove(RequiredGiB(a).value,
                       (if distribution == "sharded" then x / c as real else x) * (1.0 + m / 100.0))
  {
    var p := a.fit.value.modules;
    assert p[..0] == [];
    assert Total(p, true) == (if distribution == "sharded" then x else 0.0);
    assert Total(p, false) == (if distribution == "sharded" then 0.0 else x);
    RequirementIsLeastCover(a);
  }

  /** Two modules of one distribution need what one module of their sum needs; with the order being
      irrelevant every plan comes down to at most one module of each distribution. */
  lemma ModulesAdd(a: Accelerator, rest: seq<Part>, x: real, y: real, distribution: Option<string>)
    requires Usable(a) && a.fit.Some? && x > 0.0 && y > 0.0
    requires a.fit.value.modules
          == rest + [Part(true, Fraction(x), distribution), Part(true, Fraction(y), distribution)]
    ensures var b := a.(fit := Some(a.fit.value.(modules := rest + [Part(true, Fraction(x + y), distribution)])));
      Usable(b) && RequiredGiB(b) == RequiredGiB(a)
  {
    var p, z := a.fit.value.modules, Part(true, Fraction(x + y), distribution);
    assert p[..|p| - 1][..|rest|] == rest && (rest + [z])[..|rest|] == rest;
    assert ProblemOf(p[|rest|]).None?;
    assert ProblemOf(z).None?;
    assert Sound(rest) by {
      assert forall i | 0 <= i < |rest| :: p[i] == rest[i];
    }
    assert Sound(rest + [z]);
    assert p[|p| - 1] == Part(true, Fraction(y), distribution) && p[..|p| - 1][|rest|] == p[|rest|];
    assert forall s :: Total(p, s) == Total(rest + [z], s);
  }

  /** The floor: where a fit plan declares one, the larger of the two is required. */
  lemma FloorRaises(a: Accelerator, floor: int)
    requires Usable(a) && a.fit.Some? && a.minimumMemoryGiB.Absent? && floor > 0
    ensures var b := a.(minimumMemoryGiB := Whole(floor));
      Usable(b) && RequiredGiB(b) == Some(if floor > RequiredGiB(a).value then floor else RequiredGiB(a).value)
  {
    NeedPositive(a);
  }

  /** Without a fit the floor is the requirement. */
  lemma NoFit(a: Accelerator)
    requires Usable(a) && a.fit.None?
    ensures RequiredGiB(a) == if a.minimumMemoryGiB.Whole? then Some(a.minimumMemoryGiB.n) else None
  {
  }

  // ---------------------------------------------------------------- capacity classes

  datatype GpuClass = Gpu24 | Gpu48 | Gpu80 | Gpu80Plus

  const CLASSES: seq<GpuClass> := [Gpu24, Gpu48, Gpu80, Gpu80Plus]

  function ClassName(c: GpuClass): string {
    match c
    case Gpu24 => "gpu-24gb"
    case Gpu48 => "gpu-48gb"
    case Gpu80 => "gpu-80gb"
    case Gpu80Plus => "gpu-80gb-plus"
  }

  function ClassOfName(s: string): Option<GpuClass> {
    if s == "gpu-24gb" then Some(Gpu24)
    else if s == "gpu-48gb" then Some(Gpu48)
    else if s == "gpu-80gb" then Some(Gpu80)
    else if s == "gpu-80gb-plus" then Some(Gpu80Plus)
    else None
  }

  /** The capacity a class promises; the open-ended one promises no bound. */
  function Capacity(c: GpuClass): Option<int> {
    match c
    case Gpu24 => Some(24)
    case Gpu48 => Some(48)
    case Gpu80 => Some(80)
    case Gpu80Plus => None
  }

  predicate Holds(c: GpuClass, gib: int) {
    Capacity(c).Some? ==> gib <= Capacity(c).value
  }

  function Rank(c: GpuClass): nat {
    match c
    case Gpu24 => 0
    case Gpu48 => 1
    case Gpu80 => 2
    case Gpu80Plus => 3
  }

  function AutoClass(gib: int): GpuClass {
    if gib <= 24 then Gpu24 else if gib <= 48 then Gpu48 else if gib <= 80 then Gpu80 else Gpu80Plus
  }

  /** The loop over the bounds, first hit wins; a requirement that is not positive is refused. */
  method SmallestClass(gib: int) returns (r: Result<GpuClass>)
    ensures r.Err? <==> gib <= 0
    ensures r.Ok? ==>
            r.value == AutoClass(gib) && Holds(r.value, gib) && forall d | Holds(d, gib) :: Rank(r.value) <= Rank(d)
  {
    if gib <= 0 {
      return Err(NotPositive);
    }
    for i := 0 to 3
      invariant forall d | Rank(d) < i :: !Holds(d, gib)
      invariant i > 0 ==> gib > 24
      invariant i > 1 ==> gib > 48
    {
      assert Rank(CLASSES[i]) == i;
      if gib <= Capacity(CLASSES[i]).value {
        return Ok(CLASSES[i]);
      }
    }
    assert Rank(Gpu24) == 0 && Rank(Gpu48) == 1 && Rank(Gpu80) == 2;
    return Ok(Gpu80Plus);
  }

  /** The class a usable plan ends up with: the automatic one, or an explicit one that holds the
      requirement. */
  function Select(a: Accelerator): Result<GpuClass>
    requires Usable(a)
  {
    var required, wanted := RequiredGiB(a), if a.class_.Some? then a.class_.value else "auto";
    if wanted == "auto" then (if required.None? then Err(NeedsRequirement) else Ok(AutoClass(required.value)))
    else if ClassOfName(wanted).None? then Err(UnsupportedClass)
    else if required.Some? && !Holds(ClassOfName(wanted).value, required.value) then Err(CannotFit)
    else Ok(ClassOfName(wanted).value)
  }

  /** Automatic selection takes the smallest class that holds the requirement, and an explicit
      class is accepted if and only if it is not below the automatic one. */
  lemma ExplicitClassIff(a: Accelerator, explicit: GpuClass)
    requires Usable(a) && RequiredGiB(a).Some?
    ensures var n := RequiredGiB(a).value;
            && Select(a.(class_ := None)) == Ok(AutoClass(n))
            && Holds(AutoClass(n), n) && (forall d | Holds(d, n) :: Rank(AutoClass(n)) <= Rank(d))
            && (Select(a.(class_ := Some(ClassName(explicit)))) == Ok(explicit)
                <==> Rank(AutoClass(n)) <= Rank(explicit))
            && (Select(a.(class_ := Some(ClassName(explicit)))).Ok? <==> Rank(AutoClass(n)) <= Rank(explicit))
            && ClassName(AutoClass(n)) == if n <= 24 then "gpu-24gb" else if n <= 48 then "gpu-48gb"
                                          else if n <= 80 then "gpu-80gb" else "gpu-80gb-plus"
  {
  }
}
