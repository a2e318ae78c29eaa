/** Suspension under interleaving: commands change the intent at any time, one pass at a time works
    from the body it started with and can stop anywhere, and the autoscaler acts while its object
    exists. */
module Suspension {
  import opened JsonMerge
  import opened Reconcile

  datatype Pass = Pass(body: Inference, next: nat)

  /** `settled` is a history variable: a pass over the present, suspended intent has completed and
      the intent has not been written since. */
  datatype Fleet = Fleet(intent: Inference, store: Store, pass: Option<Pass>, settled: bool)

  datatype Event = SetIntent(body: Inference) | Start | Act | Abort | Scale(replicas: nat)

  function Replicas(store: Store, b: Inference): Option<Json> {
    if ChildOf(b, Deployment) in store then Lookup(store[ChildOf(b, Deployment)], ["spec", "replicas"]) else None
  }

  function ScalePatch(n: nat): Json {
    Obj(map["spec" := Obj(map["replicas" := Num(n)])])
  }

  function ScaledTo(store: Store, b: Inference, n: nat): Store
    requires ChildOf(b, Deployment) in store
  {
    store[ChildOf(b, Deployment) := MergePatch(store[ChildOf(b, Deployment)], ScalePatch(n))]
  }

  predicate SameName(a: Inference, b: Inference) {
    a.ns == b.ns && a.name == b.name
  }

  /** A suspended pass has written the Deployment and not yet removed the scaler. */
  predicate InWindow(f: Fleet) {
    f.pass.Some? && f.pass.value.body.suspend && 1 <= f.pass.value.next <= 2
  }

  predicate Enabled(f: Fleet, e: Event) {
    match e
    case SetIntent(body) => SameName(body, f.intent)
    case Start => f.pass.None?
    case Act => f.pass.Some? && f.pass.value.next < |PlanOf(f.pass.value.body).calls|
    case Abort => f.pass.Some?
    case Scale(_) => ChildOf(f.intent, ScaledObject) in f.store && ChildOf(f.intent, Deployment) in f.store
  }

  function Next(f: Fleet, e: Event): Fleet
    requires Enabled(f, e)
  {
    match e
    case SetIntent(body) => f.(intent := body, settled := false)
    case Start => f.(pass := Some(Pass(f.intent, 0)))
    case Abort => f.(pass := None)
    case Scale(n) => f.(store := ScaledTo(f.store, f.intent, n))
    case Act =>
      var body, next := f.pass.value.body, f.pass.value.next;
      var plan := PlanOf(body);
      var g := f.(store := Done(f.store, plan.calls[next]));
      if next + 1 < |plan.calls| then g.(pass := Some(Pass(body, next + 1)))
      else g.(pass := None, settled := f.settled || (plan.valid && body.suspend && body == f.intent))
  }

  /** All events can happen in turn. */
  predicate Runs(f: Fleet, events: seq<Event>)
    decreases |events|
  {
    events != [] ==> Enabled(f, events[0]) && Runs(Next(f, events[0]), events[1..])
  }

  function After(f: Fleet, events: seq<Event>): Fleet
    requires Runs(f, events)
    decreases |events|
  {
    if events == [] then f else After(Next(f, events[0]), events[1..])
  }

  /** A run in which the autoscaler never acts inside the window. */
  predicate CalmRun(f: Fleet, events: seq<Event>)
    ensures CalmRun(f, events) ==> Runs(f, events)
    decreases |events|
  {
    events != [] ==>
      && Enabled(f, events[0]) && (events[0].Scale? ==> !InWindow(f))
      && CalmRun(Next(f, events[0]), events[1..])
  }

  /** Zero replicas and no scaler. */
  predicate Asleep(store: Store, b: Inference) {
    Replicas(store, b) == Some(Num(0)) && ChildOf(b, ScaledObject) !in store
  }

  predicate Inv(f: Fleet) {
    && (f.settled ==> f.intent.suspend && Asleep(f.store, f.intent))
    && (f.pass.Some? ==>
          var body, next := f.pass.value.body, f.pass.value.next;
          && SameName(body, f.intent)
          && (f.settled ==> body == f.intent)
          && (body.suspend && next >= 1 ==> Replicas(f.store, f.intent) == Some(Num(0)))
          && (body.suspend && next >= 3 ==> ChildOf(f.intent, ScaledObject) !in f.store))
  }

  lemma ReplicasPath(wanted: Json, spec: map<string, Json>, n: int)
    requires wanted.Obj? && "spec" in wanted.fields && wanted.fields["spec"] == Obj(spec)
    requires "replicas" in spec && spec["replicas"] == Num(n)
    ensures Lookup(wanted, ["spec", "replicas"]) == Some(Num(n))
  {
    assert ["spec", "replicas"][1..] == ["replicas"];
    assert Lookup(wanted.fields["spec"], ["replicas"]) == Some(Num(n));
  }

  lemma DeploymentCall(store: Store, b: Inference)
    requires PlanOf(b).calls != []
    ensures Replicas(Done(store, PlanOf(b).calls[0]), b) == Some(Num(DeploymentReplicas(b)))
  {
    var wanted := BuildDeployment(b).value;
    ReplicasPath(wanted, wanted.fields["spec"].fields, DeploymentReplicas(b));
    if ChildOf(b, Deployment) in store {
      MergeSets(store[ChildOf(b, Deployment)], wanted, ["spec", "replicas"]);
    }
  }

  lemma EventKeeps(f: Fleet, e: Event)
    requires Inv(f) && Enabled(f, e) && (e.Scale? ==> !InWindow(f))
    ensures Inv(Next(f, e))
  {
    if e.Act? {
      var body, next := f.pass.value.body, f.pass.value.next;
      PlanDistinct(body);
      if next == 0 {
        DeploymentCall(f.store, body);
      }
    }
  }

  /** Once a pass over a suspended service has completed, the Deployment has zero replicas and
      there is no scaler, and this stays so through every later pass, complete or cut off, until
      the intent is written again. */
  lemma {:induction false} SuspendedStaysAsleep(f: Fleet, events: seq<Event>)
    requires Inv(f) && CalmRun(f, events)
    ensures Inv(After(f, events))
    ensures After(f, events).settled ==>
              After(f, events).intent.suspend && Asleep(After(f, events).store, After(f, events).intent)
    ensures f.settled && (forall i | 0 <= i < |events| :: !events[i].SetIntent?) ==> After(f, events).settled
    decreases |events|
  {
    if events != [] {
      EventKeeps(f, events[0]);
      SuspendedStaysAsleep(Next(f, events[0]), events[1..]);
      assert forall i | 0 <= i < |events[1..]| :: events[1..][i] == events[i + 1];
    }
  }

  lemma {:induction false} FinishPass(f: Fleet) returns (events: seq<Event>)
    requires f.pass.Some? && f.pass.value.next < |PlanOf(f.pass.value.body).calls|
    ensures CalmRun(f, events) && forall e | e in events :: e.Act?
    ensures var g, body := After(f, events), f.pass.value.body;
            && g.pass.None? && g.intent == f.intent
            && g.store == Applied(f.store, PlanOf(body).calls[f.pass.value.next..])
            && (PlanOf(body).valid && body.suspend && body == f.intent ==> g.settled)
    decreases |PlanOf(f.pass.value.body).calls| - f.pass.value.next
  {
    var calls, next := PlanOf(f.pass.value.body).calls, f.pass.value.next;
    assert calls[next..][1..] == calls[next + 1..];
    var g := Next(f, Act);
    var rest := [];
    if next + 1 < |calls| {
      rest := FinishPass(g);
    }
    events := [Act] + rest;
    assert events[1..] == rest;
  }

  /** Completing a pass over the present, suspended intent settles it, from any state without a
      pass, and leaves the store of one uninterrupted pass. */
  lemma CompletionSettles(f: Fleet) returns (events: seq<Event>)
    requires f.intent.suspend && PlanOf(f.intent).valid && f.pass.None?
    ensures CalmRun(f, events) && forall e | e in events :: e.Start? || e.Act?
    ensures var g := After(f, events);
            g.settled && g.pass.None? && g.intent == f.intent && g.store == Applied(f.store, PlanOf(f.intent).calls)
  {
    var rest := FinishPass(Next(f, Start));
    events := [Start] + rest;
    assert events[1..] == rest;
    assert PlanOf(f.intent).calls[0..] == PlanOf(f.intent).calls;
  }

  // ---------------------------------------------------------------- the premise is needed

  /** What the autoscaler writes inside the window, in order. */
  function WindowWrites(f: Fleet, events: seq<Event>): seq<nat>
    requires Runs(f, events)
    decreases |events|
  {
    if events == [] then []
    else (if events[0].Scale? && InWindow(f) then [events[0].replicas] else [])
         + WindowWrites(Next(f, events[0]), events[1..])
  }

  /** No pass begins and none is cut off. */
  predicate OnePass(events: seq<Event>) {
    forall i | 0 <= i < |events| :: !events[i].Start? && !events[i].Abort?
  }

  lemma OnePassRest(events: seq<Event>)
    requires OnePass(events) && events != []
    ensures OnePass(events[1..])
  {
    assert forall i | 0 <= i < |events[1..]| :: events[1..][i] == events[i + 1];
  }

  lemma ScaledReplicas(store: Store, b: Inference, n: nat)
    requires ChildOf(b, Deployment) in store
    ensures Replicas(ScaledTo(store, b, n), b) == Some(Num(n))
  {
    var patch := ScalePatch(n);
    ReplicasPath(patch, patch.fields["spec"].fields, n);
    MergeSets(store[ChildOf(b, Deployment)], patch, ["spec", "replicas"]);
  }

  /** Without a pass and without a scaler nothing is written. */
  lemma {:induction false} NothingWritten(f: Fleet, events: seq<Event>)
    requires Runs(f, events) && OnePass(events) && f.pass.None? && ChildOf(f.intent, ScaledObject) !in f.store
    ensures After(f, events).store == f.store && WindowWrites(f, events) == []
    decreases |events|
  {
    if events != [] {
      OnePassRest(events);
      NothingWritten(Next(f, events[0]), events[1..]);
    }
  }

  /** What the pass has done so far: from the second call on there is a Deployment, from the fourth
      on no scaler. */
  predicate Underway(f: Fleet) {
    f.pass.Some? &&
    var body, next := f.pass.value.body, f.pass.value.next;
    && body.suspend && PlanOf(body).valid && SameName(body, f.intent) && next < |PlanOf(body).calls|
    && (next >= 1 ==> Replicas(f.store, body).Some?)
    && (next >= 3 ==> ChildOf(body, ScaledObject) !in f.store)
  }

  /** Asleep, were the rest of the pass undisturbed. */
  predicate OnCourse(f: Fleet)
    requires f.pass.Some?
  {
    f.pass.value.next == 0 || Replicas(f.store, f.pass.value.body) == Some(Num(0))
  }

  /** The verdict on the rest of a run, given what the window has seen so far. */
  predicate EndsAsleep(writes: seq<nat>, onCourse: bool) {
    if writes == [] then onCourse else writes[|writes| - 1] == 0
  }

  lemma ActKeeps(f: Fleet)
    requires Underway(f)
    ensures var g, body := Next(f, Act), f.pass.value.body;
      && SameName(body, g.intent)
      && (if g.pass.Some? then Underway(g) && g.pass.value.body == body && (OnCourse(g) <==> OnCourse(f))
          else ChildOf(body, ScaledObject) !in g.store && (Asleep(g.store, body) <==> OnCourse(f)))
  {
    var body := f.pass.value.body;
    PlanDistinct(body);
    if f.pass.value.next == 0 {
      DeploymentCall(f.store, body);
    }
  }

  lemma ScaleKeeps(f: Fleet, n: nat)
    requires Underway(f) && Enabled(f, Scale(n))
    ensures var g := Next(f, Scale(n));
      && Underway(g) && g.pass == f.pass && f.pass.value.next <= 2
      && (InWindow(f) <==> f.pass.value.next >= 1) && (InWindow(f) ==> (OnCourse(g) <==> n == 0))
      && (!InWindow(f) ==> OnCourse(g) && OnCourse(f))
  {
    ScaledReplicas(f.store, f.pass.value.body, n);
  }

  lemma EndsAsleepCons(n: nat, writes: seq<nat>, onCourse: bool)
    ensures EndsAsleep([n] + writes, onCourse) <==> EndsAsleep(writes, n == 0)
    ensures [] + writes == writes
  {
  }

  lemma {:induction false} DuringPass(f: Fleet, events: seq<Event>)
    requires Underway(f) && Runs(f, events) && OnePass(events) && After(f, events).pass.None?
    ensures Asleep(After(f, events).store, f.pass.value.body) <==> EndsAsleep(WindowWrites(f, events), OnCourse(f))
    decreases |events|
  {
    var g := Next(f, events[0]);
    OnePassRest(events);
    EndsAsleepCons(if events[0].Scale? then events[0].replicas else 0, WindowWrites(g, events[1..]), OnCourse(f));
    if events[0].Act? {
      ActKeeps(f);
    } else if events[0].Scale? {
      ScaleKeeps(f, events[0].replicas);
    }
    if g.pass.Some? {
      DuringPass(g, events[1..]);
    } else {
      NothingWritten(g, events[1..]);
    }
  }

  /** A pass over a suspended service that runs to its end, with any writes of the autoscaler and any
      new intents in between, leaves it asleep if and only if the autoscaler wrote nothing inside
      the window, as when it has no scaler there, or its last write there was zero. */
  lemma AsleepDespiteDisturbanceIff(f: Fleet, events: seq<Event>)
    requires f.pass.Some? && f.pass.value.next == 0 && f.pass.value.body.suspend && PlanOf(f.pass.value.body).valid
    requires SameName(f.pass.value.body, f.intent)
    requires Runs(f, events) && OnePass(events) && After(f, events).pass.None?
    ensures var writes := WindowWrites(f, events);
      Asleep(After(f, events).store, f.pass.value.body) <==> writes == [] || writes[|writes| - 1] == 0
  {
    DuringPass(f, events);
  }
}
