/** One reconcile pass of an InferenceService: the calls it makes, the pass as an imperative
    sequence that can fail at every call, and what reruns converge to. */
module Reconcile {
  import opened JsonMerge

  datatype ChildKind = Deployment | Service | ScaledObject | HttpRoute

  datatype Child = Child(kind: ChildKind, ns: string, name: string)

  type Store = map<Child, Json>

  datatype Autoscaling = Autoscaling(
    enabled: bool, minReplicas: Option<int>, maxReplicas: Option<int>, triggers: seq<Json>, fallback: Option<Json>)

  datatype Gateway = Gateway(enabled: bool, pathPrefix: Option<string>, parentRef: Json, hostnames: seq<Json>)

  /** An InferenceService; `template` is the pod template the pod builder makes of it, `None`
      where that builder raises InvalidSpec. */
  datatype Inference = Inference(
    ns: string, name: string, modelName: string, image: string, suspend: bool, forceActive: bool,
    replicas: Option<int>, autoscaling: Option<Autoscaling>, gateway: Option<Gateway>, servicePort: Option<int>,
    template: Option<Json>)

  function Or(o: Option<int>, default: int): int {
    if o.Some? then o.value else default
  }

  function Max(a: int, b: int): int {
    if a < b then b else a
  }

  predicate Scales(b: Inference) {
    b.autoscaling.Some? && b.autoscaling.value.enabled && !b.suspend
  }

  predicate Routes(b: Inference) {
    b.gateway.Some? && b.gateway.value.enabled
  }

  function DeploymentReplicas(b: Inference): int {
    var replicas := if b.suspend then 0 else Or(b.replicas, 1);
    if Scales(b) then Max(replicas, Or(b.autoscaling.value.minReplicas, 0)) else replicas
  }

  function Meta(b: Inference): Json {
    Obj(map["name" := Str(b.name), "namespace" := Str(b.ns)])
  }

  function BuildDeployment(b: Inference): Option<Json> {
    if b.modelName == "" || b.image == "" || b.template.None? then None
    else Some(Obj(map["metadata" := Meta(b),
                      "spec" := Obj(map["replicas" := Num(DeploymentReplicas(b)), "template" := b.template.value])]))
  }

  function BuildService(b: Inference): Json {
    Obj(map["metadata" := Meta(b), "spec" := Obj(map["port" := Num(Or(b.servicePort, 80))])])
  }

  function MinReplicaCount(b: Inference): int
    requires b.autoscaling.Some?
  {
    if b.forceActive then 1 else Or(b.autoscaling.value.minReplicas, 0)
  }

  /** Only called where autoscaling is wanted; `None` is the missing-trigger error. */
  function BuildScaledObject(b: Inference): Option<Json>
    requires Scales(b)
  {
    var a := b.autoscaling.value;
    if a.triggers == [] then None
    else
      var spec := map["scaleTargetRef" := Str(b.name), "minReplicaCount" := Num(MinReplicaCount(b)),
                      "maxReplicaCount" := Num(Or(a.maxReplicas, 1)), "triggers" := Arr(a.triggers)];
      Some(Obj(map["metadata" := Meta(b),
                   "spec" := Obj(if a.fallback.Some? then spec["fallback" := a.fallback.value] else spec)]))
  }

  function BuildRoute(b: Inference): Option<Json>
    requires Routes(b)
  {
    var g := b.gateway.value;
    var prefix := if g.pathPrefix.Some? then g.pathPrefix.value else "/";
    if prefix == "" || prefix[0] != '/' then None
    else
      var spec := map["parentRef" := g.parentRef, "pathPrefix" := Str(prefix),
                      "backendPort" := Num(Or(b.servicePort, 80))];
      Some(Obj(map["metadata" := Meta(b),
                   "spec" := Obj(if g.hostnames != [] then spec["hostnames" := Arr(g.hostnames)] else spec)]))
  }

  datatype Call = Upsert(child: Child, wanted: Json) | Delete(child: Child)

  /** The calls of a pass in order; `valid` is false when a builder raises after them. */
  datatype Plan = Plan(calls: seq<Call>, valid: bool)

  function ChildOf(b: Inference, kind: ChildKind): Child {
    Child(kind, b.ns, b.name)
  }

  function PlanOf(b: Inference): Plan {
    if BuildDeployment(b).None? then Plan([], false)
    else
      var first := [Upsert(ChildOf(b, Deployment), BuildDeployment(b).value),
                    Upsert(ChildOf(b, Service), BuildService(b))];
      if Scales(b) && BuildScaledObject(b).None? then Plan(first, false)
      else
        var third := if Scales(b) then Upsert(ChildOf(b, ScaledObject), BuildScaledObject(b).value)
                     else Delete(ChildOf(b, ScaledObject));
        if Routes(b) && BuildRoute(b).None? then Plan(first + [third], false)
        else
          Plan(first + [third] + [if Routes(b) then Upsert(ChildOf(b, HttpRoute), BuildRoute(b).value)
                                  else Delete(ChildOf(b, HttpRoute))], true)
  }

  // ---------------------------------------------------------------- effects of calls

  function Get(store: Store, c: Child): Option<Json> {
    if c in store then Some(store[c]) else None
  }

  /** What a call makes of the child it names. */
  function Effect(call: Call, prior: Option<Json>): Option<Json> {
    match call
    case Delete(_) => None
    case Upsert(_, wanted) => Some(if prior.Some? then MergePatch(prior.value, wanted) else wanted)
  }

  function Put(store: Store, c: Child, j: Option<Json>): Store {
    if j.Some? then store[c := j.value] else store - {c}
  }

  function Done(store: Store, call: Call): Store {
    Put(store, call.child, Effect(call, Get(store, call.child)))
  }

  function Applied(store: Store, calls: seq<Call>): Store
    decreases |calls|
  {
    if calls == [] then store else Applied(Done(store, calls[0]), calls[1..])
  }

  predicate Distinct(calls: seq<Call>) {
    forall i, j | 0 <= i < j < |calls| :: calls[i].child != calls[j].child
  }

  /** What the first call naming `c`, if any, makes of it. */
  function EffectOn(calls: seq<Call>, c: Child, prior: Option<Json>): Option<Json> {
    if calls == [] then prior
    else if calls[0].child == c then Effect(calls[0], prior)
    else EffectOn(calls[1..], c, prior)
  }

  lemma {:induction false} EffectOnAbsent(calls: seq<Call>, c: Child, prior: Option<Json>)
    requires forall i | 0 <= i < |calls| :: calls[i].child != c
    ensures EffectOn(calls, c, prior) == prior
  {
    if calls != [] {
      EffectOnAbsent(calls[1..], c, prior);
    }
  }

  lemma {:induction false} AppliedAt(store: Store, calls: seq<Call>, c: Child)
    requires Distinct(calls)
    ensures Get(Applied(store, calls), c) == EffectOn(calls, c, Get(store, c))
    decreases |calls|
  {
    if calls != [] {
      assert forall i, j | 0 <= i < j < |calls[1..]| :: calls[1..][i].child != calls[1..][j].child;
      AppliedAt(Done(store, calls[0]), calls[1..], c);
      if calls[0].child == c {
        assert forall i | 0 <= i < |calls[1..]| :: calls[1..][i] == calls[i + 1];
        EffectOnAbsent(calls[1..], c, Get(Done(store, calls[0]), c));
      }
    }
  }

  lemma Extensional(s: Store, t: Store)
    requires forall c :: Get(s, c) == Get(t, c)
    ensures s == t
  {
    forall c ensures c in s <==> c in t {
      assert Get(s, c) == Get(t, c);
    }
    forall c | c in s ensures s[c] == t[c] {
      assert Get(s, c) == Get(t, c);
    }
  }

  lemma PlanDistinct(b: Inference)
    ensures Distinct(PlanOf(b).calls)
    ensures forall i | 0 <= i < |PlanOf(b).calls| ::
              PlanOf(b).calls[i].child.ns == b.ns && PlanOf(b).calls[i].child.name == b.name
  {
  }

  /** No built object has a null member. */
  predicate NullFreePlan(calls: seq<Call>) {
    forall i | 0 <= i < |calls| && calls[i].Upsert? :: NullFree(calls[i].wanted)
  }

  lemma EffectTwice(call: Call, prior: Option<Json>)
    requires call.Upsert? ==> NullFree(call.wanted)
    ensures Effect(call, Effect(call, prior)) == Effect(call, prior)
  {
    if call.Upsert? {
      if prior.Some? {
        Idempotent(prior.value, call.wanted);
      } else {
        SelfMergeIff(call.wanted);
      }
    }
  }

  lemma {:induction false} PrefixThenAll(calls: seq<Call>, k: nat, c: Child, prior: Option<Json>)
    requires k <= |calls| && Distinct(calls) && NullFreePlan(calls)
    ensures EffectOn(calls, c, EffectOn(calls[..k], c, prior)) == EffectOn(calls, c, prior)
    decreases |calls|
  {
    if calls != [] && k > 0 {
      assert calls[..k][1..] == calls[1..][..k - 1];
      if calls[0].child == c {
        EffectTwice(calls[0], prior);
      } else {
        assert forall i | 0 <= i < |calls[1..]| :: calls[1..][i] == calls[i + 1];
        PrefixThenAll(calls[1..], k - 1, c, prior);
      }
    }
  }

  /** A pass cut off after `k` calls and rerun from the start ends like one uninterrupted pass. */
  lemma RerunOnce(store: Store, calls: seq<Call>, k: nat)
    requires k <= |calls| && Distinct(calls) && NullFreePlan(calls)
    ensures Applied(Applied(store, calls[..k]), calls) == Applied(store, calls)
  {
    forall c ensures Get(Applied(Applied(store, calls[..k]), calls), c) == Get(Applied(store, calls), c) {
      AppliedAt(Applied(store, calls[..k]), calls, c);
      AppliedAt(store, calls[..k], c);
      AppliedAt(store, calls, c);
      PrefixThenAll(calls, k, c, Get(store, c));
    }
    Extensional(Applied(Applied(store, calls[..k]), calls), Applied(store, calls));
  }

  /** Any number of passes, the i-th one cut off after `cuts[i]` calls. */
  function Interrupted(store: Store, calls: seq<Call>, cuts: seq<nat>): Store
    requires forall i | 0 <= i < |cuts| :: cuts[i] <= |calls|
    decreases |cuts|
  {
    if cuts == [] then store
    else Interrupted(Applied(store, calls[..cuts[0]]), calls, cuts[1..])
  }

  /** Restart convergence: however often and wherever earlier passes over the same body were cut
      off, one full pass ends in the store of a single uninterrupted pass, and a second full pass
      changes nothing. Built objects without null members are the only premise. */
  lemma {:induction false} RestartConverges(store: Store, b: Inference, cuts: seq<nat>)
    requires NullFreePlan(PlanOf(b).calls) && forall i | 0 <= i < |cuts| :: cuts[i] <= |PlanOf(b).calls|
    ensures var calls := PlanOf(b).calls;
            && Applied(Interrupted(store, calls, cuts), calls) == Applied(store, calls)
            && Applied(Applied(store, calls), calls) == Applied(store, calls)
    decreases |cuts|
  {
    var calls := PlanOf(b).calls;
    PlanDistinct(b);
    RerunOnce(store, calls, |calls|);
    assert calls[..|calls|] == calls;
    if cuts != [] {
      assert forall i | 0 <= i < |cuts[1..]| :: cuts[1..][i] == cuts[i + 1];
      RestartConverges(Applied(store, calls[..cuts[0]]), b, cuts[1..]);
      RerunOnce(store, calls, cuts[0]);
    }
  }

  /** The premise is exact: where no child exists yet, a second pass changes nothing if and only
      if no built object has a null member. */
  lemma SecondPassIff(b: Inference)
    ensures var calls := PlanOf(b).calls;
            Applied(Applied(map[], calls), calls) == Applied(map[], calls) <==> NullFreePlan(calls)
  {
    var calls := PlanOf(b).calls;
    PlanDistinct(b);
    if NullFreePlan(calls) {
      RerunOnce(map[], calls, |calls|);
      assert calls[..|calls|] == calls;
    }
    if Applied(Applied(map[], calls), calls) == Applied(map[], calls) {
      forall i | 0 <= i < |calls| && calls[i].Upsert? ensures NullFree(calls[i].wanted) {
        var c := calls[i].child;
        AppliedAt(Applied(map[], calls), calls, c);
        AppliedAt(map[], calls, c);
        EffectOnHit(calls, i, None);
        EffectOnHit(calls, i, Some(calls[i].wanted));
        SelfMergeIff(calls[i].wanted);
      }
    }
  }

  lemma {:induction false} EffectOnHit(calls: seq<Call>, i: nat, prior: Option<Json>)
    requires i < |calls| && Distinct(calls)
    ensures EffectOn(calls, calls[i].child, prior) == Effect(calls[i], prior)
  {
    if i > 0 {
      assert forall j | 0 <= j < |calls[1..]| :: calls[1..][j] == calls[j + 1];
      EffectOnHit(calls[1..], i - 1, prior);
    }
  }

  /** After a full valid pass: the scaler exists iff autoscaling is on and the service is not
      suspended, the route iff the gateway is on, the other two always; every scalar and array of
      every built object is present whatever the children were before; and no child of another
      name has changed. */
  lemma PassEstablishes(store: Store, b: Inference)
    requires PlanOf(b).valid
    ensures var after := Applied(store, PlanOf(b).calls);
            && ChildOf(b, Deployment) in after && ChildOf(b, Service) in after
            && (ChildOf(b, ScaledObject) in after <==>
                  b.autoscaling.Some? && b.autoscaling.value.enabled && !b.suspend)
            && (ChildOf(b, HttpRoute) in after <==> b.gateway.Some? && b.gateway.value.enabled)
            && (forall c: Child | c.ns != b.ns || c.name != b.name :: Get(after, c) == Get(store, c))
    ensures forall i, path | 0 <= i < |PlanOf(b).calls| && PlanOf(b).calls[i].Upsert? ::
              Holds(Applied(store, PlanOf(b).calls), PlanOf(b).calls[i], path)
  {
    var calls := PlanOf(b).calls;
    var after := Applied(store, calls);
    PlanDistinct(b);
    assert calls[0].child == ChildOf(b, Deployment) && calls[1].child == ChildOf(b, Service);
    assert calls[2].child == ChildOf(b, ScaledObject) && calls[3].child == ChildOf(b, HttpRoute);
    forall i | 0 <= i < |calls| ensures Get(after, calls[i].child) == Effect(calls[i], Get(store, calls[i].child)) {
      AppliedAt(store, calls, calls[i].child);
      EffectOnHit(calls, i, Get(store, calls[i].child));
    }
    assert forall i | 0 <= i < |calls| :: calls[i].child in after <==> calls[i].Upsert?;
    forall c: Child | c.ns != b.ns || c.name != b.name ensures Get(after, c) == Get(store, c) {
      AppliedAt(store, calls, c);
      EffectOnAbsent(calls, c, Get(store, c));
    }
    forall i, path | 0 <= i < |calls| && calls[i].Upsert? ensures Holds(after, calls[i], path) {
      var prior, wanted := Get(store, calls[i].child), calls[i].wanted;
      if prior.Some? && Lookup(wanted, path).Some? && !Lookup(wanted, path).value.Obj?
        && !Lookup(wanted, path).value.Null? {
        MergeSets(prior.value, wanted, path);
      }
    }
  }

  /** The leaf of the wanted object at `path`, if there is one, is what the store holds. */
  predicate Holds(store: Store, call: Call, path: seq<string>)
    requires call.Upsert?
  {
    var leaf := Lookup(call.wanted, path);
    leaf.Some? && !leaf.value.Obj? && !leaf.value.Null? ==>
      call.child in store && Lookup(store[call.child], path) == leaf
  }

  /** Presence is all that is promised: a pass leaves exactly the built object behind if and only
      if the child was absent, or had no field the built object drops (and that has no nulls). */
  lemma PassLeavesExactlyIff(store: Store, b: Inference, i: nat)
    requires i < |PlanOf(b).calls| && PlanOf(b).calls[i].Upsert?
    ensures var call := PlanOf(b).calls[i];
            (Get(Applied(store, PlanOf(b).calls), call.child) == Some(call.wanted)
             <==> call.child !in store || (NullFree(call.wanted) && Within(store[call.child], call.wanted)))
  {
    var calls := PlanOf(b).calls;
    PlanDistinct(b);
    AppliedAt(store, calls, calls[i].child);
    EffectOnHit(calls, i, Get(store, calls[i].child));
    if calls[i].child in store {
      MergeIsPatchIff(store[calls[i].child], calls[i].wanted);
    }
  }

  predicate Leaf(j: Json) {
    !j.Obj? && !j.Null?
  }

  /** A leaf of the object built by call `i` is in the store after the pass. */
  lemma LeafAfterPass(store: Store, b: Inference, i: nat, part: string, field: string, leaf: Json)
    requires PlanOf(b).valid && i < |PlanOf(b).calls| && PlanOf(b).calls[i].Upsert? && Leaf(leaf)
    requires var wanted := PlanOf(b).calls[i].wanted;
      wanted.Obj? && part in wanted.fields && wanted.fields[part].Obj?
      && field in wanted.fields[part].fields && wanted.fields[part].fields[field] == leaf
    ensures var after, child := Applied(store, PlanOf(b).calls), PlanOf(b).calls[i].child;
      child in after && Lookup(after[child], [part, field]) == Some(leaf)
  {
    var wanted := PlanOf(b).calls[i].wanted;
    assert [part, field][1..] == [field];
    assert Lookup(wanted.fields[part], [field]) == Some(leaf);
    PassEstablishes(store, b);
    assert Holds(Applied(store, PlanOf(b).calls), PlanOf(b).calls[i], [part, field]);
  }

  /** The floor a pinned service gets: after a full pass the scaler's minimum is 1, also where the
      configured minimum is larger, and the replicas of the Deployment are what they would be
      without the pin, zero included. */
  lemma PinnedFloor(store: Store, b: Inference)
    requires PlanOf(b).valid && Scales(b)
    ensures var after, floor := Applied(store, PlanOf(b).calls), Or(b.autoscaling.value.minReplicas, 0);
      && ChildOf(b, ScaledObject) in after && ChildOf(b, Deployment) in after
      && Lookup(after[ChildOf(b, ScaledObject)], ["spec", "minReplicaCount"])
         == Some(Num(if b.forceActive then 1 else floor))
      && Lookup(after[ChildOf(b, Deployment)], ["spec", "replicas"]) == Some(Num(Max(Or(b.replicas, 1), floor)))
  {
    LeafAfterPass(store, b, 0, "spec", "replicas", Num(DeploymentReplicas(b)));
    LeafAfterPass(store, b, 2, "spec", "minReplicaCount", Num(MinReplicaCount(b)));
  }

  /** The replicas a full valid pass leaves, whatever was there: none for a suspended service; the
      configured number, 1 by default, without autoscaling; and with it the larger of that number
      and the configured minimum, 0 by default. */
  lemma ReplicasAfterPass(store: Store, b: Inference)
    requires PlanOf(b).valid
    ensures ChildOf(b, Deployment) in Applied(store, PlanOf(b).calls)
    ensures var after := Applied(store, PlanOf(b).calls)[ChildOf(b, Deployment)];
      match Lookup(after, ["spec", "replicas"])
      case Some(Num(n)) => ReplicasOf(b, n)
      case _ => false
  {
    LeafAfterPass(store, b, 0, "spec", "replicas", Num(DeploymentReplicas(b)));
  }

  predicate ReplicasOf(b: Inference, n: int) {
    var configured := match b.replicas case Some(k) => k case None => 1;
    if b.suspend then n == 0
    else
      match b.autoscaling
      case None => n == configured
      case Some(a) =>
        if !a.enabled then n == configured
        else
          var floor := match a.minReplicas case Some(k) => k case None => 0;
          n >= configured && n >= floor && (n == configured || n == floor)
  }

  /** The other figures of a full valid pass: the port of the Service, 80 by default, and the
      bounds of the scaler, which is pinned to 1 or starts at the configured minimum, 0 by default,
      and ends at the configured maximum, 1 by default. */
  lemma FiguresAfterPass(store: Store, b: Inference)
    requires PlanOf(b).valid
    ensures ChildOf(b, Service) in Applied(store, PlanOf(b).calls)
    ensures Lookup(Applied(store, PlanOf(b).calls)[ChildOf(b, Service)], ["spec", "port"])
         == Some(Num(match b.servicePort case Some(k) => k case None => 80))
    ensures b.autoscaling.Some? && b.autoscaling.value.enabled && !b.suspend ==>
      var after, a := Applied(store, PlanOf(b).calls), b.autoscaling.value;
      && ChildOf(b, ScaledObject) in after
      && Lookup(after[ChildOf(b, ScaledObject)], ["spec", "minReplicaCount"])
         == Some(Num(if b.forceActive then 1 else match a.minReplicas case Some(k) => k case None => 0))
      && Lookup(after[ChildOf(b, ScaledObject)], ["spec", "maxReplicaCount"])
         == Some(Num(match a.maxReplicas case Some(k) => k case None => 1))
  {
    LeafAfterPass(store, b, 1, "spec", "port", Num(Or(b.servicePort, 80)));
    if Scales(b) {
      LeafAfterPass(store, b, 2, "spec", "minReplicaCount", Num(MinReplicaCount(b)));
      LeafAfterPass(store, b, 2, "spec", "maxReplicaCount", Num(Or(b.autoscaling.value.maxReplicas, 1)));
    }
  }

  /** The prefix of the route, "/" by default, and its port, that of the Service. */
  lemma RouteAfterPass(store: Store, b: Inference)
    requires PlanOf(b).valid && b.gateway.Some? && b.gateway.value.enabled
    ensures var after, g := Applied(store, PlanOf(b).calls), b.gateway.value;
      && ChildOf(b, HttpRoute) in after
      && Lookup(after[ChildOf(b, HttpRoute)], ["spec", "pathPrefix"])
         == Some(Str(match g.pathPrefix case Some(p) => p case None => "/"))
      && Lookup(after[ChildOf(b, HttpRoute)], ["spec", "backendPort"])
         == Some(Num(match b.servicePort case Some(k) => k case None => 80))
  {
    var prefix := if b.gateway.value.pathPrefix.Some? then b.gateway.value.pathPrefix.value else "/";
    LeafAfterPass(store, b, 3, "spec", "pathPrefix", Str(prefix));
    LeafAfterPass(store, b, 3, "spec", "backendPort", Num(Or(b.servicePort, 80)));
  }

  /** The hostnames of the route, where any are given, and the gateway it hangs on. */
  lemma RouteRefersTo(store: Store, b: Inference)
    requires PlanOf(b).valid && b.gateway.Some? && b.gateway.value.enabled
    ensures var after, g := Applied(store, PlanOf(b).calls), b.gateway.value;
      && ChildOf(b, HttpRoute) in after
      && (Leaf(g.parentRef) ==> Lookup(after[ChildOf(b, HttpRoute)], ["spec", "parentRef"]) == Some(g.parentRef))
      && (g.hostnames != [] ==>
            Lookup(after[ChildOf(b, HttpRoute)], ["spec", "hostnames"]) == Some(Arr(g.hostnames)))
      && (g.hostnames == [] && ChildOf(b, HttpRoute) !in store ==>
            Lookup(after[ChildOf(b, HttpRoute)], ["spec", "hostnames"]) == None)
  {
    var g := b.gateway.value;
    if Leaf(g.parentRef) {
      LeafAfterPass(store, b, 3, "spec", "parentRef", g.parentRef);
    }
    if g.hostnames != [] {
      LeafAfterPass(store, b, 3, "spec", "hostnames", Arr(g.hostnames));
    } else if ChildOf(b, HttpRoute) !in store {
      PassLeavesExactlyIff(store, b, 3);
      assert ["spec", "hostnames"][1..] == ["hostnames"];
    }
    PassEstablishes(store, b);
  }

  /** The scaler's target, triggers and fallback. */
  lemma ScalerAfterPass(store: Store, b: Inference)
    requires PlanOf(b).valid && b.autoscaling.Some? && b.autoscaling.value.enabled && !b.suspend
    ensures var after, a := Applied(store, PlanOf(b).calls), b.autoscaling.value;
      && ChildOf(b, ScaledObject) in after
      && Lookup(after[ChildOf(b, ScaledObject)], ["spec", "scaleTargetRef"]) == Some(Str(b.name))
      && Lookup(after[ChildOf(b, ScaledObject)], ["spec", "triggers"]) == Some(Arr(a.triggers))
      && (a.fallback.Some? && Leaf(a.fallback.value) ==>
            Lookup(after[ChildOf(b, ScaledObject)], ["spec", "fallback"]) == a.fallback)
  {
    var a := b.autoscaling.value;
    LeafAfterPass(store, b, 2, "spec", "scaleTargetRef", Str(b.name));
    LeafAfterPass(store, b, 2, "spec", "triggers", Arr(a.triggers));
    if a.fallback.Some? && Leaf(a.fallback.value) {
      LeafAfterPass(store, b, 2, "spec", "fallback", a.fallback.value);
    }
  }

  /** Every child that is there after a full valid pass says whose it is. */
  lemma NamesAfterPass(store: Store, b: Inference, i: nat)
    requires PlanOf(b).valid && i < |PlanOf(b).calls| && PlanOf(b).calls[i].Upsert?
    ensures var after, child := Applied(store, PlanOf(b).calls), PlanOf(b).calls[i].child;
      && child in after && Lookup(after[child], ["metadata", "name"]) == Some(Str(b.name))
      && Lookup(after[child], ["metadata", "namespace"]) == Some(Str(b.ns))
  {
    LeafAfterPass(store, b, i, "metadata", "name", Str(b.name));
    LeafAfterPass(store, b, i, "metadata", "namespace", Str(b.ns));
  }

  /** Every leaf of the pod template is in the Deployment. */
  lemma TemplateAfterPass(store: Store, b: Inference, path: seq<string>, leaf: Json)
    requires PlanOf(b).valid && Leaf(leaf) && Lookup(b.template.value, path) == Some(leaf)
    ensures ChildOf(b, Deployment) in Applied(store, PlanOf(b).calls)
    ensures Lookup(Applied(store, PlanOf(b).calls)[ChildOf(b, Deployment)], ["spec", "template"] + path) == Some(leaf)
  {
    var wanted, whole := BuildDeployment(b).value, ["spec", "template"] + path;
    assert whole[1..] == ["template"] + path && whole[1..][1..] == path;
    assert Lookup(wanted, whole) == Lookup(wanted.fields["spec"], whole[1..]) == Lookup(b.template.value, path);
    PassEstablishes(store, b);
    assert Holds(Applied(store, PlanOf(b).calls), PlanOf(b).calls[0], whole);
  }

  /** Exactly the services whose pass is refused: no model name or image, a pod the builder
      refuses, autoscaling that is on without a trigger, or a route prefix that is given and does not
      start with a slash. */
  lemma RefusedIff(b: Inference)
    ensures !PlanOf(b).valid <==>
      || b.modelName == "" || b.image == "" || b.template.None?
      || (b.autoscaling.Some? && b.autoscaling.value.enabled && !b.suspend && b.autoscaling.value.triggers == [])
      || (b.gateway.Some? && b.gateway.value.enabled && b.gateway.value.pathPrefix.Some?
          && (b.gateway.value.pathPrefix.value == "" || b.gateway.value.pathPrefix.value[0] != '/'))
  {
  }

  // ---------------------------------------------------------------- the pass as written

  /** How one API call may go wrong. A failing read has no effect; a failing write may have. */
  datatype Fault = Fine | Raises(tookEffect: bool)

  datatype Ending = Complete | Invalid | Raised

  class Cluster {
    var store: Store

    /** Read, then create or merge-patch; the two calls may fail. */
    method UpsertChild(child: Child, body: Json, read: Fault, write: Fault) returns (ok: bool)
      modifies this
      ensures ok ==> store == Done(old(store), Upsert(child, body))
      ensures !ok ==>
              (read.Raises? || write.Raises?) && (store == old(store) || store == Done(old(store), Upsert(child, body)))
      ensures read.Fine? && write.Fine? ==> ok
    {
      if read.Raises? {
        return false;
      }
      if write.Fine? || write.tookEffect {
        store := if child !in store then store[child := body] else store[child := MergePatch(store[child], body)];
      }
      return write.Fine?;
    }

    method DeleteChild(child: Child, write: Fault) returns (ok: bool)
      modifies this
      ensures ok ==> store == Done(old(store), Delete(child))
      ensures !ok ==> write.Raises? && (store == old(store) || store == Done(old(store), Delete(child)))
      ensures write.Fine? ==> ok
    {
      if write.Fine? || write.tookEffect {
        store := store - {child};
      }
      return write.Fine?;
    }

    /** The whole pass. `made` calls took effect; they are a prefix of the planned ones. */
    method ReconcileInference(b: Inference, fault: nat -> Fault) returns (ending: Ending, ghost made: nat)
      modifies this
      ensures made <= |PlanOf(b).calls| && store == Applied(old(store), PlanOf(b).calls[..made])
      ensures ending.Complete? ==> PlanOf(b).valid && made == |PlanOf(b).calls|
      ensures ending.Invalid? ==> !PlanOf(b).valid && made == |PlanOf(b).calls|
      ensures ending.Raised? ==> exists n :: fault(n).Raises?
      ensures (forall n :: fault(n).Fine?) ==> ending == if PlanOf(b).valid then Complete else Invalid
    {
      made := 0;
      ghost var start, calls := store, PlanOf(b).calls;
      var deployment := BuildDeployment(b);
      if deployment.None? {
        return Invalid, 0;
      }
      var ok := UpsertChild(ChildOf(b, Deployment), deployment.value, fault(0), fault(1));
      made := Count(start, calls, 0, store, ok);
      if !ok {
        return Raised, made;
      }
      ok := UpsertChild(ChildOf(b, Service), BuildService(b), fault(2), fault(3));
      made := Count(start, calls, 1, store, ok);
      if !ok {
        return Raised, made;
      }
      if Scales(b) {
        var scaled := BuildScaledObject(b);
        if scaled.None? {
          return Invalid, made;
        }
        ok := UpsertChild(ChildOf(b, ScaledObject), scaled.value, fault(4), fault(5));
      } else {
        ok := DeleteChild(ChildOf(b, ScaledObject), fault(5));
      }
      made := Count(start, calls, 2, store, ok);
      if !ok {
        return Raised, made;
      }
      if Routes(b) {
        var route := BuildRoute(b);
        if route.None? {
          return Invalid, made;
        }
        ok := UpsertChild(ChildOf(b, HttpRoute), route.value, fault(6), fault(7));
      } else {
        ok := DeleteChild(ChildOf(b, HttpRoute), fault(7));
      }
      made := Count(start, calls, 3, store, ok);
      ending := if ok then Complete else Raised;
    }
  }

  lemma {:induction false} AppliedSnoc(store: Store, calls: seq<Call>, n: nat)
    requires n < |calls|
    ensures Applied(store, calls[..n + 1]) == Done(Applied(store, calls[..n]), calls[n])
    decreases n
  {
    if n > 0 {
      assert calls[..n + 1][1..] == calls[1..][..n] && calls[..n][1..] == calls[1..][..n - 1];
      AppliedSnoc(Done(store, calls[0]), calls[1..], n - 1);
    } else {
      assert calls[..1][1..] == [];
    }
  }

  /** How many calls took effect once call `n` has returned or raised. */
  lemma Count(start: Store, calls: seq<Call>, n: nat, now: Store, ok: bool) returns (made: nat)
    requires n < |calls|
    requires ok ==> now == Done(Applied(start, calls[..n]), calls[n])
    requires !ok ==> now == Applied(start, calls[..n]) || now == Done(Applied(start, calls[..n]), calls[n])
    ensures n <= made <= n + 1 && now == Applied(start, calls[..made]) && (ok ==> made == n + 1)
  {
    AppliedSnoc(start, calls, n);
    made := if now == Done(Applied(start, calls[..n]), calls[n]) then n + 1 else n;
  }
}
