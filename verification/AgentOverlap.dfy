/** The handler of agent registrations under overlap: changes and the timer start it independently,
    so several passes over one registration can each read before any of them patches. */
module AgentOverlap {
  import opened JsonMerge
  import opened AgentScaling

  /** `pending`: handlers that have read an off-target Deployment and are about to scale it. The
      last two count the scale patches of each Deployment, and those of them that raised. */
  datatype State = State(workloads: Workloads, pending: map<nat, string>, patches: map<string, nat>,
                         raised: map<string, nat>)

  datatype Step = Read(h: nat, name: string) | Patch(h: nat, works: bool, tookEffect: bool)

  predicate OffAt(regs: Registrations, workloads: Workloads, d: string) {
    Linked(regs, workloads, d) && workloads[d].replicas != Desired(regs[workloads[d].owner.value])
  }

  /** The Deployment a registration names and may scale. */
  predicate Scales(regs: Registrations, workloads: Workloads, name: string, d: string) {
    Linked(regs, workloads, d) && workloads[d].owner.value == name
  }

  function Waiting(s: State, d: string): set<nat> {
    set h | h in s.pending && s.pending[h] == d
  }

  /** At most `m` handlers run for one registration, and so for one Deployment, at a time. */
  predicate Enabled(regs: Registrations, m: nat, s: State, step: Step) {
    match step
    case Read(h, name) =>
      h !in s.pending && name in regs
        && (regs[name].runtime.Some? ==> |Waiting(s, regs[name].runtime.value.deployment)| < m)
    case Patch(h, _, _) =>
      h in s.pending && Linked(regs, s.workloads, s.pending[h]) && s.pending[h] in s.patches && s.pending[h] in s.raised
  }

  function Next(regs: Registrations, m: nat, s: State, step: Step): State
    requires Enabled(regs, m, s, step)
  {
    match step
    case Read(h, name) =>
      if regs[name].runtime.Some?
         && Scales(regs, s.workloads, name, regs[name].runtime.value.deployment)
         && OffAt(regs, s.workloads, regs[name].runtime.value.deployment)
      then s.(pending := s.pending[h := regs[name].runtime.value.deployment]) else s
    case Patch(h, works, tookEffect) =>
      var d := s.pending[h];
      State(if works || tookEffect
            then s.workloads[d := s.workloads[d].(replicas := Desired(regs[s.workloads[d].owner.value]))]
            else s.workloads,
            s.pending - {h}, s.patches[d := s.patches[d] + 1],
            if works then s.raised else s.raised[d := s.raised[d] + 1])
  }

  /** A handler comes to wait for a Deployment if and only if that is the one its registration names,
      its annotation names the registration, and its replicas are not what is intended: none when
      suspended, else the configured number or 1. */
  lemma ReadWaitsIff(regs: Registrations, m: nat, s: State, h: nat, name: string, d: string)
    requires Enabled(regs, m, s, Read(h, name))
    ensures h in Next(regs, m, s, Read(h, name)).pending && Next(regs, m, s, Read(h, name)).pending[h] == d <==>
      && regs[name].runtime.Some? && regs[name].runtime.value.deployment == d
      && d in s.workloads && s.workloads[d].owner == Some(name)
      && s.workloads[d].replicas != if regs[name].suspend then 0
                                    else match regs[name].runtime.value.activeReplicas case Some(n) => n case None => 1
  {
  }

  /** A patch that took effect leaves the intended replicas, whether it raised or not; nothing else
      changes. */
  lemma PatchSets(regs: Registrations, m: nat, s: State, h: nat, works: bool, tookEffect: bool)
    requires Enabled(regs, m, s, Patch(h, works, tookEffect))
    ensures var d, t := s.pending[h], Next(regs, m, s, Patch(h, works, tookEffect)).workloads;
      var reg := regs[s.workloads[d].owner.value];
      && (!works && !tookEffect ==> t == s.workloads)
      && (works || tookEffect ==>
            t.Keys == s.workloads.Keys
            && t[d].replicas == (if reg.suspend then 0
                                 else match reg.runtime.value.activeReplicas case Some(n) => n case None => 1)
            && t[d].owner == s.workloads[d].owner && forall e | e in t && e != d :: t[e] == s.workloads[e])
  {
  }

  predicate Runs(regs: Registrations, m: nat, s: State, steps: seq<Step>)
    decreases |steps|
  {
    steps != [] ==> Enabled(regs, m, s, steps[0]) && Runs(regs, m, Next(regs, m, s, steps[0]), steps[1..])
  }

  function After(regs: Registrations, m: nat, s: State, steps: seq<Step>): State
    requires Runs(regs, m, s, steps)
    decreases |steps|
  {
    if steps == [] then s else After(regs, m, Next(regs, m, s, steps[0]), steps[1..])
  }

  predicate Fresh(s: State) {
    && s.pending == map[] && s.patches.Keys == s.raised.Keys == s.workloads.Keys
    && forall d | d in s.workloads :: s.patches[d] == s.raised[d] == 0
  }

  /** Scale patches of `d` do not outnumber the `allowed` ones and those that raised, counting the
      handlers that are about to patch; before the first effect every patch has raised. */
  predicate Inv(regs: Registrations, m: nat, s: State, d: string, allowed: nat) {
    && Linked(regs, s.workloads, d) && d in s.patches && d in s.raised
    && (if OffAt(regs, s.workloads, d)
        then allowed == m && s.patches[d] == s.raised[d] && |Waiting(s, d)| <= m
        else s.patches[d] + |Waiting(s, d)| <= allowed + s.raised[d])
  }

  lemma WaitingAdded(s: State, h: nat, d: string, e: string)
    requires h !in s.pending
    ensures |Waiting(s.(pending := s.pending[h := e]), d)| == |Waiting(s, d)| + (if d == e then 1 else 0)
  {
    var t := s.(pending := s.pending[h := e]);
    assert Waiting(t, d) == Waiting(s, d) + (if d == e then {h} else {});
  }

  lemma WaitingRemoved(s: State, t: State, h: nat, d: string)
    requires h in s.pending && t.pending == s.pending - {h}
    ensures |Waiting(t, d)| == |Waiting(s, d)| - (if s.pending[h] == d then 1 else 0)
  {
    assert Waiting(s, d) == Waiting(t, d) + (if s.pending[h] == d then {h} else {});
    assert h !in Waiting(t, d);
  }

  lemma StepKeeps(regs: Registrations, m: nat, s: State, step: Step, d: string, allowed: nat)
    requires Inv(regs, m, s, d, allowed) && Enabled(regs, m, s, step)
    ensures Inv(regs, m, Next(regs, m, s, step), d, allowed)
  {
    var t := Next(regs, m, s, step);
    match step
    case Read(h, name) =>
      if t != s {
        WaitingAdded(s, h, d, regs[name].runtime.value.deployment);
      }
    case Patch(h, works, tookEffect) =>
      WaitingRemoved(s, t, h, d);
      assert OffAt(regs, t.workloads, d) ==> OffAt(regs, s.workloads, d);
  }

  lemma {:induction false} RunKeeps(regs: Registrations, m: nat, s: State, steps: seq<Step>, d: string, allowed: nat)
    requires Inv(regs, m, s, d, allowed) && Runs(regs, m, s, steps)
    ensures Inv(regs, m, After(regs, m, s, steps), d, allowed)
    decreases |steps|
  {
    if steps != [] {
      StepKeeps(regs, m, s, steps[0], d, allowed);
      RunKeeps(regs, m, Next(regs, m, s, steps[0]), steps[1..], d, allowed);
    }
  }

  /** With intents fixed, in every interleaving with at most `m` handlers at a time: a Deployment
      that was on target is never scaled, one that was off target is scaled at most `m` times more
      than its patches raised, and it is on target once one of them has succeeded. */
  lemma OverlapBounded(regs: Registrations, m: nat, s: State, steps: seq<Step>, d: string)
    requires Fresh(s) && Linked(regs, s.workloads, d) && Runs(regs, m, s, steps)
    ensures var t := After(regs, m, s, steps);
      && d in t.patches && d in t.raised && Linked(regs, t.workloads, d)
      && t.patches[d] <= (if OffAt(regs, s.workloads, d) then m else 0) + t.raised[d]
      && (t.patches[d] > t.raised[d] ==> !OffAt(regs, t.workloads, d))
  {
    assert Waiting(s, d) == {};
    RunKeeps(regs, m, s, steps, d, if OffAt(regs, s.workloads, d) then m else 0);
  }

  /** A Deployment on target that no handler is about to patch is never patched again. */
  lemma {:induction false} AtRest(regs: Registrations, m: nat, s: State, steps: seq<Step>, d: string)
    requires Linked(regs, s.workloads, d) && !OffAt(regs, s.workloads, d) && Waiting(s, d) == {}
    requires d in s.patches && Runs(regs, m, s, steps)
    ensures var t := After(regs, m, s, steps);
      && d in t.patches && t.patches[d] == s.patches[d]
      && d in t.workloads && t.workloads[d] == s.workloads[d]
    decreases |steps|
  {
    if steps != [] {
      var step, t := steps[0], Next(regs, m, s, steps[0]);
      if step.Patch? {
        assert step.h !in Waiting(s, d);
      }
      assert Waiting(t, d) == {};
      AtRest(regs, m, t, steps[1..], d);
    }
  }

  lemma First(regs: Registrations, m: nat, s: State, step: Step, rest: seq<Step>)
    requires Enabled(regs, m, s, step) && Runs(regs, m, Next(regs, m, s, step), rest)
    ensures Runs(regs, m, s, [step] + rest)
            && After(regs, m, s, [step] + rest) == After(regs, m, Next(regs, m, s, step), rest)
  {
    assert ([step] + rest)[1..] == rest;
  }

  function UpTo(j: nat): (r: set<nat>)
    ensures forall h: nat :: h in r <==> h < j
  {
    if j == 0 then {} else UpTo(j - 1) + {j - 1}
  }

  /** Handlers `0` to `j - 1` have read `d` off target, and nothing else is going on. */
  predicate Lined(regs: Registrations, s: State, d: string, j: nat, patched: nat) {
    && Linked(regs, s.workloads, d) && d in s.patches && d in s.raised
    && s.patches[d] == patched && s.raised[d] == 0
    && s.pending.Keys == UpTo(j) && (forall h | h in s.pending :: s.pending[h] == d)
  }

  lemma LinedWaiting(regs: Registrations, s: State, d: string, j: nat, patched: nat)
    requires Lined(regs, s, d, j, patched)
    ensures |Waiting(s, d)| == j
  {
    assert Waiting(s, d) == UpTo(j);
    UpToSize(j);
  }

  lemma {:induction false} UpToSize(j: nat)
    ensures |UpTo(j)| == j
  {
    if j > 0 {
      UpToSize(j - 1);
      assert UpTo(j) == UpTo(j - 1) + {j - 1};
    }
  }

  lemma {:induction false} PatchAll(regs: Registrations, m: nat, s: State, d: string, j: nat, patched: nat)
    returns (steps: seq<Step>)
    requires Lined(regs, s, d, j, patched)
    ensures Runs(regs, m, s, steps)
    ensures var t := After(regs, m, s, steps);
      && d in t.patches && d in t.raised && t.patches[d] == patched + j && t.raised[d] == 0
    decreases j
  {
    if j == 0 {
      steps := [];
    } else {
      var step := Patch(j - 1, true, true);
      steps := PatchAll(regs, m, Next(regs, m, s, step), d, j - 1, patched + 1);
      First(regs, m, s, step, steps);
      steps := [step] + steps;
    }
  }

  /** One more handler reads `d` while it is still off target. */
  lemma OneMoreReads(regs: Registrations, m: nat, s: State, d: string, j: nat)
    requires Lined(regs, s, d, j, 0) && OffAt(regs, s.workloads, d) && j < m
    ensures var step := Read(j, s.workloads[d].owner.value);
      && Enabled(regs, m, s, step)
      && Lined(regs, Next(regs, m, s, step), d, j + 1, 0)
      && OffAt(regs, Next(regs, m, s, step).workloads, d)
  {
    LinedWaiting(regs, s, d, j, 0);
    assert UpTo(j + 1) == UpTo(j) + {j};
  }

  lemma {:induction false} ReadThenPatch(regs: Registrations, m: nat, s: State, d: string, j: nat)
    returns (steps: seq<Step>)
    requires Lined(regs, s, d, j, 0) && OffAt(regs, s.workloads, d) && j <= m
    ensures Runs(regs, m, s, steps)
    ensures var t := After(regs, m, s, steps); d in t.patches && d in t.raised && t.patches[d] == m && t.raised[d] == 0
    decreases m - j
  {
    if j == m {
      steps := PatchAll(regs, m, s, d, m, 0);
    } else {
      var step := Read(j, s.workloads[d].owner.value);
      OneMoreReads(regs, m, s, d, j);
      steps := ReadThenPatch(regs, m, Next(regs, m, s, step), d, j + 1);
      First(regs, m, s, step, steps);
      steps := [step] + steps;
    }
  }

  /** The bound is reached for every number of handlers: all of them read before the first one
      patches, and a Deployment off target is patched `m` times without an error. */
  lemma BoundReached(regs: Registrations, m: nat, s: State, d: string) returns (steps: seq<Step>)
    requires Fresh(s) && OffAt(regs, s.workloads, d)
    ensures Runs(regs, m, s, steps)
    ensures var t := After(regs, m, s, steps); d in t.patches && d in t.raised && t.patches[d] == m && t.raised[d] == 0
  {
    steps := ReadThenPatch(regs, m, s, d, 0);
  }
}
