/** The gauges of a Go worker under any interleaving of the worker loop and the HTTP threads. The
    gauges are allocated on first use, without a lock, and read again when a handler ends. */
module AgentMetrics {
  import opened JsonMerge

  type Thread = nat

  datatype Gauge = Gauge(active: int, completed: nat, failed: nat)

  /** `pool` holds every set of gauges ever allocated, `field` the one the worker points at.
      A thread has seen no gauges, has seen some, has fetched them, or runs its handler; `begun`
      and `panicked` count handlers. */
  datatype State = State(
    field: Option<nat>,
    pool: seq<Gauge>,
    missing: set<Thread>,
    checked: set<Thread>,
    holding: map<Thread, nat>,
    running: set<Thread>,
    begun: nat,
    panicked: nat)

  datatype Step =
    | Look(t: Thread)
    | Install(t: Thread)
    | Fetch(t: Thread)
    | Begin(t: Thread)
    | Finish(t: Thread, error: bool)
    | Panic(t: Thread)

  predicate Busy(s: State, t: Thread) {
    t in s.missing || t in s.checked || t in s.holding || t in s.running
  }

  predicate Enabled(s: State, step: Step) {
    match step
    case Look(t) => !Busy(s, t)
    case Install(t) => t in s.missing
    case Fetch(t) => t in s.checked && s.field.Some?
    case Begin(t) => t in s.holding && s.holding[t] < |s.pool|
    case Finish(t, _) => t in s.running && s.field.Some? && s.field.value < |s.pool|
    case Panic(t) => t in s.running
  }

  function Observed(g: Gauge, error: bool): Gauge {
    Gauge(g.active - 1, g.completed + (if error then 0 else 1), g.failed + (if error then 1 else 0))
  }

  function Next(s: State, step: Step): State
    requires Enabled(s, step)
  {
    match step
    case Look(t) =>
      if s.field.None? then s.(missing := s.missing + {t}) else s.(checked := s.checked + {t})
    case Install(t) =>
      s.(field := Some(|s.pool|), pool := s.pool + [Gauge(0, 0, 0)], missing := s.missing - {t},
         checked := s.checked + {t})
    case Fetch(t) => s.(checked := s.checked - {t}, holding := s.holding[t := s.field.value])
    case Begin(t) =>
      var g := s.holding[t];
      s.(pool := s.pool[g := s.pool[g].(active := s.pool[g].active + 1)],
         holding := s.holding - {t}, running := s.running + {t}, begun := s.begun + 1)
    case Finish(t, error) =>
      s.(pool := s.pool[s.field.value := Observed(s.pool[s.field.value], error)], running := s.running - {t})
    case Panic(t) => s.(running := s.running - {t}, panicked := s.panicked + 1)
  }

  predicate Runs(s: State, steps: seq<Step>)
    decreases |steps|
  {
    steps != [] ==> Enabled(s, steps[0]) && Runs(Next(s, steps[0]), steps[1..])
  }

  function After(s: State, steps: seq<Step>): State
    requires Runs(s, steps)
    decreases |steps|
  {
    if steps == [] then s else After(Next(s, steps[0]), steps[1..])
  }

  /** No thread is busy; the gauges, if they exist already, are at zero. */
  predicate Idle(s: State) {
    && s.missing == {} && s.checked == {} && s.holding == map[] && s.running == {}
    && s.begun == s.panicked == 0
    && (s.field.None? ==> s.pool == [])
    && (s.field.Some? ==> s.field.value < |s.pool| && s.pool[s.field.value] == Gauge(0, 0, 0))
  }

  /** The gauges at `m` account for every handler. */
  predicate Balanced(s: State, m: nat) {
    && m < |s.pool|
    && s.pool[m].active == |s.running| + s.panicked
    && s.begun == s.pool[m].active + s.pool[m].completed + s.pool[m].failed
  }

  predicate Inv(s: State, m: nat) {
    && s.field == Some(m)
    && s.missing == {}
    && (forall t | t in s.holding :: s.holding[t] == m && t !in s.running)
    && (forall t | t in s.checked :: t !in s.holding && t !in s.running)
    && Balanced(s, m)
  }

  lemma {:induction false} RunKeeps(s: State, steps: seq<Step>, m: nat)
    requires Inv(s, m) && Runs(s, steps)
    ensures Inv(After(s, steps), m)
    decreases |steps|
  {
    if steps != [] {
      RunKeeps(Next(s, steps[0]), steps[1..], m);
    }
  }

  lemma First(s: State, step: Step, rest: seq<Step>)
    requires Enabled(s, step) && Runs(Next(s, step), rest)
    ensures Runs(s, [step] + rest) && After(s, [step] + rest) == After(Next(s, step), rest)
  {
    assert ([step] + rest)[1..] == rest;
  }

  /** Two threads both see no gauges; the second allocation replaces the first while a handler
      counted in the first is running, and its end is counted in the second. */
  lemma LostAllocation(s: State) returns (steps: seq<Step>)
    requires Idle(s) && s.field.None?
    ensures Runs(s, steps)
    ensures var t := After(s, steps); t.field == Some(1) && |t.pool| == 2 && t.pool[1].active == -1 && t.running == {}
  {
    var s2 := Next(Next(s, Look(0)), Look(1));
    var s4 := Next(Next(s2, Install(0)), Fetch(0));
    var s6 := Next(Next(s4, Begin(0)), Install(1));
    steps := [Finish(0, false)];
    First(s6, Finish(0, false), []);
    First(Next(s4, Begin(0)), Install(1), steps);
    steps := [Install(1)] + steps;
    First(s4, Begin(0), steps);
    steps := [Begin(0)] + steps;
    First(Next(s2, Install(0)), Fetch(0), steps);
    steps := [Fetch(0)] + steps;
    First(s2, Install(0), steps);
    steps := [Install(0)] + steps;
    First(Next(s, Look(0)), Look(1), steps);
    steps := [Look(1)] + steps;
    First(s, Look(0), steps);
    steps := [Look(0)] + steps;
  }

  /** What the exported gauges promise in one state: none is negative. */
  predicate Sensible(s: State) {
    s.field.Some? ==> s.field.value < |s.pool| && s.pool[s.field.value].active >= 0
  }

  /** The exported gauge is sensible in every run exactly when the gauges exist before any thread
      starts, as they do once the HTTP handler has been built. */
  lemma SensibleIff(s: State)
    requires Idle(s)
    ensures (forall steps | Runs(s, steps) :: Sensible(After(s, steps))) <==> s.field.Some?
  {
    if s.field.Some? {
      forall steps | Runs(s, steps)
        ensures Sensible(After(s, steps))
      {
        RunKeeps(s, steps, s.field.value);
      }
    } else {
      var steps := LostAllocation(s);
      assert Runs(s, steps);
    }
  }

  /** With the gauges in place: in every run the active gauge is the number of handlers in flight
      and of handlers that panicked, and begun = active + completed + failed. */
  lemma GaugesAccountForHandlers(s: State, steps: seq<Step>)
    requires Idle(s) && s.field.Some? && Runs(s, steps)
    ensures Balanced(After(s, steps), s.field.value)
  {
    RunKeeps(s, steps, s.field.value);
  }

  // ---------------------------------------------------------------- racing allocations

  /** Over all gauges ever allocated: handlers they show as active, and handlers they know of. */
  function Active(pool: seq<Gauge>): int {
    if pool == [] then 0 else Active(pool[..|pool| - 1]) + pool[|pool| - 1].active
  }

  function Known(pool: seq<Gauge>): int {
    if pool == [] then 0
    else
      var g := pool[|pool| - 1];
      Known(pool[..|pool| - 1]) + g.active + g.completed + g.failed
  }

  function Failures(pool: seq<Gauge>): int {
    if pool == [] then 0 else Failures(pool[..|pool| - 1]) + pool[|pool| - 1].failed
  }

  /** The handlers that end with an error in a run. */
  function Errors(steps: seq<Step>): nat {
    if steps == [] then 0 else (if steps[0].Finish? && steps[0].error then 1 else 0) + Errors(steps[1..])
  }

  lemma {:induction false} SumsUpdate(pool: seq<Gauge>, i: nat, g: Gauge)
    requires i < |pool|
    ensures Active(pool[i := g]) == Active(pool) - pool[i].active + g.active
    ensures Known(pool[i := g])
         == Known(pool) - pool[i].active - pool[i].completed - pool[i].failed + g.active + g.completed + g.failed
    ensures Failures(pool[i := g]) == Failures(pool) - pool[i].failed + g.failed
    decreases |pool|
  {
    var init := pool[..|pool| - 1];
    if i == |pool| - 1 {
      assert pool[i := g][..|pool| - 1] == init;
    } else {
      assert pool[i := g][..|pool| - 1] == init[i := g];
      SumsUpdate(init, i, g);
    }
  }

  lemma SumsAppend(pool: seq<Gauge>, g: Gauge)
    ensures Active(pool + [g]) == Active(pool) + g.active
    ensures Known(pool + [g]) == Known(pool) + g.active + g.completed + g.failed
    ensures Failures(pool + [g]) == Failures(pool) + g.failed
  {
    assert (pool + [g])[..|pool|] == pool;
  }

  /** A thread is in one place at a time, and points into the pool. */
  predicate Placed(s: State) {
    && (s.field.Some? ==> s.field.value < |s.pool|)
    && (forall t | t in s.missing :: t !in s.checked && t !in s.holding && t !in s.running)
    && (forall t | t in s.checked :: t !in s.holding && t !in s.running)
    && (forall t | t in s.holding :: s.holding[t] < |s.pool| && t !in s.running)
  }

  lemma StepPlaces(s: State, step: Step)
    requires Placed(s) && Enabled(s, step)
    ensures Placed(Next(s, step))
  {
  }

  lemma StepConserves(s: State, step: Step)
    requires Placed(s) && Enabled(s, step)
    ensures Active(Next(s, step).pool) - |Next(s, step).running| - Next(s, step).panicked
         == Active(s.pool) - |s.running| - s.panicked
    ensures Known(Next(s, step).pool) - Next(s, step).begun == Known(s.pool) - s.begun
    ensures Failures(Next(s, step).pool) == Failures(s.pool) + (if step.Finish? && step.error then 1 else 0)
  {
    match step
    case Install(_) => SumsAppend(s.pool, Gauge(0, 0, 0));
    case Begin(t) =>
      SumsUpdate(s.pool, s.holding[t], s.pool[s.holding[t]].(active := s.pool[s.holding[t]].active + 1));
    case Finish(_, error) =>
      SumsUpdate(s.pool, s.field.value, Observed(s.pool[s.field.value], error));
    case _ =>
  }

  lemma {:induction false} RunConserves(s: State, steps: seq<Step>)
    requires Placed(s) && Runs(s, steps)
    ensures var t := After(s, steps);
      && Active(t.pool) - |t.running| - t.panicked == Active(s.pool) - |s.running| - s.panicked
      && Known(t.pool) - t.begun == Known(s.pool) - s.begun
      && Failures(t.pool) == Failures(s.pool) + Errors(steps)
    decreases |steps|
  {
    if steps != [] {
      StepPlaces(s, steps[0]);
      StepConserves(s, steps[0]);
      RunConserves(Next(s, steps[0]), steps[1..]);
    }
  }

  /** Also where allocations race nothing is lost: in every interleaving the gauges that were ever
      allocated show together the handlers in flight and those that panicked, know of every handler
      that has begun, and of every one that ended with an error as failed. What the exported gauges lack,
      replaced ones hold. */
  lemma GaugesConserve(s: State, steps: seq<Step>)
    requires Idle(s) && Runs(s, steps)
    ensures var t := After(s, steps);
      && Active(t.pool) == Active(s.pool) + |t.running| + t.panicked
      && Known(t.pool) == Known(s.pool) + t.begun
      && Failures(t.pool) == Failures(s.pool) + Errors(steps)
  {
    RunConserves(s, steps);
  }
}
