/** The replica intent of managed agents: each registration scales the one Deployment whose
    annotation names it, and any schedule of timer steps comes to rest. */
module AgentScaling {
  import opened JsonMerge

  datatype Runtime = Runtime(deployment: string, activeReplicas: Option<int>)

  datatype Registration = Registration(suspend: bool, runtime: Option<Runtime>)

  datatype Workload = Workload(owner: Option<string>, replicas: int)

  type Registrations = map<string, Registration>

  type Workloads = map<string, Workload>

  datatype Phase = Registered | Missing | Invalid | Suspended | Active | Raised

  function Desired(reg: Registration): int
    requires reg.runtime.Some?
  {
    if reg.suspend then 0
    else if reg.runtime.value.activeReplicas.Some? then reg.runtime.value.activeReplicas.value else 1
  }

  /** Deployment `d` is the managed one of the registration its annotation names. */
  predicate Linked(regs: Registrations, workloads: Workloads, d: string) {
    && d in workloads && workloads[d].owner.Some? && workloads[d].owner.value in regs
    && regs[workloads[d].owner.value].runtime.Some?
    && regs[workloads[d].owner.value].runtime.value.deployment == d
  }

  function OffTarget(regs: Registrations, workloads: Workloads): set<string> {
    set d | d in workloads && Linked(regs, workloads, d)
            && workloads[d].replicas != Desired(regs[workloads[d].owner.value])
  }

  class Namespace {
    const regs: Registrations
    var workloads: Workloads
    /** The scale patches issued so far, and how many of them raised. */
    var patches: nat
    var raised: nat

    constructor (regs: Registrations, workloads: Workloads)
      ensures this.regs == regs && this.workloads == workloads && patches == 0 && raised == 0
    {
      this.regs, this.workloads, this.patches, this.raised := regs, workloads, 0, 0;
    }

    /** One timer step. The only patch it can issue is of an off-target Deployment whose annotation
        names this registration; a patch that succeeds takes exactly that Deployment off the set.
        A patch that raises (`works` false) may have taken effect. */
    method Reconcile(name: string, works: bool, tookEffect: bool) returns (phase: Phase)
      requires name in regs
      modifies this
      ensures patches == old(patches) ==> workloads == old(workloads) && raised == old(raised)
      ensures patches == old(patches) || patches == old(patches) + 1
      ensures patches > old(patches) ==>
                && regs[name].runtime.Some? && regs[name].runtime.value.deployment in old(OffTarget(regs, workloads))
                && old(workloads)[regs[name].runtime.value.deployment].owner == Some(name)
                && raised == old(raised) + (if works then 0 else 1)
                && OffTarget(regs, workloads)
                   == if works || tookEffect
                      then old(OffTarget(regs, workloads)) - {regs[name].runtime.value.deployment}
                      else old(OffTarget(regs, workloads))
      ensures workloads.Keys == old(workloads.Keys)
      ensures forall d | d in workloads :: workloads[d].owner == old(workloads)[d].owner
      ensures forall d | d in workloads && !(regs[name].runtime.Some? && regs[name].runtime.value.deployment == d) ::
                workloads[d] == old(workloads)[d]
      ensures phase.Active? || phase.Suspended? ==>
                regs[name].runtime.Some? && regs[name].runtime.value.deployment !in OffTarget(regs, workloads)
      ensures phase.Suspended? ==>
                && regs[name].suspend && regs[name].runtime.value.deployment in workloads
                && workloads[regs[name].runtime.value.deployment].replicas == 0
      ensures phase.Active? ==>
                && !regs[name].suspend && regs[name].runtime.value.deployment in workloads
                && workloads[regs[name].runtime.value.deployment].replicas
                   == match regs[name].runtime.value.activeReplicas case Some(n) => n case None => 1
      ensures !works && patches > old(patches) <==> phase.Raised?
      ensures phase.Registered? <==> regs[name].runtime.None?
      ensures phase.Missing? <==> regs[name].runtime.Some? && regs[name].runtime.value.deployment !in workloads
      ensures phase.Invalid? <==> regs[name].runtime.Some? && regs[name].runtime.value.deployment in workloads
                                  && workloads[regs[name].runtime.value.deployment].owner != Some(name)
    {
      var reg := regs[name];
      if reg.runtime.None? {
        return Registered;
      }
      var d := reg.runtime.value.deployment;
      if d !in workloads {
        return Missing;
      }
      if workloads[d].owner != Some(name) {
        return Invalid;
      }
      if workloads[d].replicas != Desired(reg) {
        patches := patches + 1;
        if works || tookEffect {
          workloads := workloads[d := workloads[d].(replicas := Desired(reg))];
        }
        if !works {
          raised := raised + 1;
          return Raised;
        }
      }
      phase := if reg.suspend then Suspended else Active;
    }

    /** Any schedule of timer steps, with any failures, issues at most one patch for each Deployment
        that was off target plus one for each patch that raised. */
    method RunSchedule(names: seq<string>, works: seq<bool>, tookEffect: seq<bool>)
      requires |works| == |tookEffect| == |names| && forall n | n in names :: n in regs
      modifies this
      ensures patches - old(patches) + |OffTarget(regs, workloads)|
              <= |old(OffTarget(regs, workloads))| + (raised - old(raised))
      ensures OffTarget(regs, workloads) <= old(OffTarget(regs, workloads))
      ensures raised == old(raised) ==>
                forall d | d in OffTarget(regs, workloads) :: workloads[d].owner.value !in names
    {
      for i := 0 to |names|
        invariant patches - old(patches) + |OffTarget(regs, workloads)|
                  <= |old(OffTarget(regs, workloads))| + (raised - old(raised))
        invariant OffTarget(regs, workloads) <= old(OffTarget(regs, workloads)) && raised >= old(raised)
        invariant raised == old(raised) ==>
                    forall d | d in OffTarget(regs, workloads) :: workloads[d].owner.value !in names[..i]
      {
        ghost var before, failures := OffTarget(regs, workloads), raised;
        var phase := Reconcile(names[i], works[i], tookEffect[i]);
        assert names[..i + 1] == names[..i] + [names[i]];
        if raised == old(raised) {
          forall d | d in OffTarget(regs, workloads) ensures workloads[d].owner.value !in names[..i + 1] {
            assert d in before && failures == old(raised) && !phase.Raised?;
            assert Linked(regs, workloads, d);
          }
        }
      }
      assert names[..|names|] == names;
    }
  }
}
