/** What every run of the delivery machine promises: effects exactly once although delivery is
    at least once, no lost command, bounded duplicates, and exactly which logs can be drained. */
module DeliveryTheorems {
  import opened JsonMerge
  import opened Commands
  import opened Delivery

  lemma {:induction false} ReplayedIntent(start: Json, part: Partition, r: Resource, n: nat)
    requires n <= |part.log|
    requires forall k | k in part.effects && k < |part.log| ::
             part.log[k].Accepted? && Handled(part.log[k].order.command)
    ensures IntentOf(Replayed(start, part, r, n)) == Fold(IntentOf(start), Taken(part, r, n))
  {
    if n > 0 {
      ReplayedIntent(start, part, r, n - 1);
      if Counts(part, r, n - 1) {
        PatchActs(Replayed(start, part, r, n - 1), part.log[n - 1].order, part.effects[n - 1]);
        var before, order := Taken(part, r, n - 1), part.log[n - 1].order;
        assert (before + [order])[..|before + [order]| - 1] == before;
      }
    }
  }

  /** In every reachable state of every run, each object is the in-order replay of the commands
      about it whose patch took effect, each log offset taken once, at the time of its latest
      patch; and its intent is the fold of those commands. */
  lemma ExactlyOnceInEffect(cfg: Config, s: System, steps: seq<Step>, r: Resource)
    requires ValidConfig(cfg) && Initial(cfg, s) && Runs(cfg, s, steps) && r in s.objects
    ensures var t := After(cfg, s, steps);
            Home(cfg, r) < |t.parts| && r in t.objects &&
            var part := t.parts[Home(cfg, r)];
            && t.objects[r] == Replayed(s.objects[r], part, r, |part.log|)
            && IntentOf(t.objects[r]) == Fold(IntentOf(s.objects[r]), Taken(part, r, |part.log|))
  {
    Reachable(cfg, s, steps);
    var t := After(cfg, s, steps);
    var part := t.parts[Home(cfg, r)];
    assert PartInv(cfg, part);
    ReplayedIntent(s.objects[r], part, r, |part.log|);
  }

  /** The step ends the process that serves partition `i`. */
  predicate Stops(cfg: Config, s: System, step: Step, i: nat)
    requires ValidConfig(cfg) && Enabled(cfg, s, step)
  {
    match step
    case Append(_, _) => false
    case Poll(j) => j == i && Head(s.parts[j]).Unsupported?
    case Patch(j, reply, _) => j == i && reply.Died?
    case Publish(j, ack) => j == i && ack.Failed?
    case Commit(j, ack) => j == i && ack.Failed?
    case Crash(j) => j == i
  }

  /** How often the process that serves partition `i` ends during the run. */
  function Ends(cfg: Config, s: System, steps: seq<Step>, i: nat): nat
    requires ValidConfig(cfg) && Runs(cfg, s, steps)
    decreases |steps|
  {
    if steps == [] then 0
    else (if Stops(cfg, s, steps[0], i) then 1 else 0) + Ends(cfg, Next(cfg, s, steps[0]), steps[1..], i)
  }

  lemma StepCountsEnds(cfg: Config, s: System, step: Step, i: nat)
    requires ValidConfig(cfg) && Enabled(cfg, s, step) && i < |s.parts|
    ensures |Next(cfg, s, step).parts| == |s.parts|
    ensures Next(cfg, s, step).parts[i].crashes == s.parts[i].crashes + (if Stops(cfg, s, step, i) then 1 else 0)
  {
  }

  lemma {:induction false} RunCountsEnds(cfg: Config, s: System, steps: seq<Step>, i: nat)
    requires ValidConfig(cfg) && Runs(cfg, s, steps) && i < |s.parts|
    ensures i < |After(cfg, s, steps).parts|
    ensures After(cfg, s, steps).parts[i].crashes == s.parts[i].crashes + Ends(cfg, s, steps, i)
    decreases |steps|
  {
    if steps != [] {
      StepCountsEnds(cfg, s, steps[0], i);
      RunCountsEnds(cfg, Next(cfg, s, steps[0]), steps[1..], i);
    }
  }

  /** No command is lost, an applied event implies an effect, duplicates are bounded by the
      ends of the process, and no committed offset is past a poison message. */
  lemma RecordsAccountForLog(cfg: Config, s: System, steps: seq<Step>, i: nat)
    requires ValidConfig(cfg) && Initial(cfg, s) && Runs(cfg, s, steps) && i < cfg.partitions
    ensures var t := After(cfg, s, steps);
            i < |t.parts| &&
            var part := t.parts[i];
            && part.committed <= |part.log|
            && (forall k | 0 <= k < part.committed :: Recorded(part, k) && !Poison(part.log[k]))
            && (forall j | 0 <= j < |part.records| && part.records[j].outcome.Applied? ::
                part.records[j].offset in part.effects)
            && (forall k | k in part.effects :: k <= part.committed)
            && |part.records| <= part.committed + Ends(cfg, s, steps, i) + 1
  {
    Reachable(cfg, s, steps);
    RunCountsEnds(cfg, s, steps, i);
    var part := After(cfg, s, steps).parts[i];
    assert PartInv(cfg, part);
    forall j | 0 <= j < |part.records| && part.records[j].outcome.Applied?
      ensures part.records[j].offset in part.effects {
      assert RecordInv(part, part.records[j]);
    }
  }

  // ---------------------------------------------------------------- progress

  lemma OneStep(cfg: Config, s: System, step: Step)
    requires ValidConfig(cfg) && Enabled(cfg, s, step)
    ensures Runs(cfg, s, [step]) && After(cfg, s, [step]) == Next(cfg, s, step)
  {
    assert [step][1..] == [];
  }

  lemma OneMore(cfg: Config, s: System, steps: seq<Step>, step: Step)
    requires ValidConfig(cfg) && Runs(cfg, s, steps) && Enabled(cfg, After(cfg, s, steps), step)
    ensures Runs(cfg, s, steps + [step]) && After(cfg, s, steps + [step]) == Next(cfg, After(cfg, s, steps), step)
  {
    OneStep(cfg, After(cfg, s, steps), step);
    RunsConcat(cfg, s, steps, [step]);
  }

  lemma StepExtends(cfg: Config, s: System, step: Step, i: nat)
    requires ValidConfig(cfg) && |s.parts| == cfg.partitions && i < |s.parts| && Enabled(cfg, s, step)
    ensures var t := Next(cfg, s, step);
            |t.parts| == |s.parts| && s.parts[i].log <= t.parts[i].log
  {
  }

  lemma {:induction false} RunExtends(cfg: Config, s: System, steps: seq<Step>, i: nat)
    requires ValidConfig(cfg) && |s.parts| == cfg.partitions && i < |s.parts| && Runs(cfg, s, steps)
    ensures var t := After(cfg, s, steps);
            |t.parts| == |s.parts| && s.parts[i].log <= t.parts[i].log
    decreases |steps|
  {
    if steps != [] {
      StepExtends(cfg, s, steps[0], i);
      RunExtends(cfg, Next(cfg, s, steps[0]), steps[1..], i);
    }
  }

  /** The partition after a complete delivery without any failure. */
  predicate Delivered(before: Partition, after: Partition) {
    && after.log == before.log && after.committed == before.committed + 1
    && after.stage.Idle? && after.crashes == before.crashes
  }

  /** One message that is no poison can be delivered, whether its object exists or not. */
  lemma DeliverOne(cfg: Config, s: System, i: nat) returns (steps: seq<Step>)
    requires ValidConfig(cfg) && i < |s.parts| && s.parts[i].stage.Idle?
    requires s.parts[i].committed < |s.parts[i].log| && !Poison(Head(s.parts[i]))
    ensures Runs(cfg, s, steps)
    ensures var t := After(cfg, s, steps); |t.parts| == |s.parts| && Delivered(s.parts[i], t.parts[i])
  {
    steps := [Poll(i)];
    OneStep(cfg, s, Poll(i));
    if Head(s.parts[i]).Accepted? {
      var reply := if Target(Head(s.parts[i]).order.command) in s.objects then Done else ApiError(404, false);
      OneMore(cfg, s, steps, Patch(i, reply, ""));
      steps := steps + [Patch(i, reply, "")];
    }
    OneMore(cfg, s, steps, Publish(i, Acked));
    steps := steps + [Publish(i, Acked)];
    OneMore(cfg, s, steps, Commit(i, Acked));
    steps := steps + [Commit(i, Acked)];
  }

  lemma {:induction false} DrainFromIdle(cfg: Config, s: System, i: nat) returns (steps: seq<Step>)
    requires ValidConfig(cfg) && i < |s.parts| && s.parts[i].stage.Idle? && s.parts[i].committed <= |s.parts[i].log|
    requires forall k | s.parts[i].committed <= k < |s.parts[i].log| :: !Poison(s.parts[i].log[k])
    ensures Runs(cfg, s, steps)
    ensures var t := After(cfg, s, steps); |t.parts| == |s.parts| && t.parts[i].committed == |s.parts[i].log|
    decreases |s.parts[i].log| - s.parts[i].committed
  {
    if s.parts[i].committed == |s.parts[i].log| {
      steps := [];
    } else {
      var first := DeliverOne(cfg, s, i);
      var rest := DrainFromIdle(cfg, After(cfg, s, first), i);
      RunsConcat(cfg, s, first, rest);
      steps := first + rest;
    }
  }

  /** Some continuation commits everything that is in partition `i` now. */
  ghost predicate Drainable(cfg: Config, s: System, i: nat)
    requires ValidConfig(cfg) && i < |s.parts|
  {
    exists steps :: Runs(cfg, s, steps) && Drains(cfg, s, steps, i)
  }

  ghost predicate Drains(cfg: Config, s: System, steps: seq<Step>, i: nat)
    requires ValidConfig(cfg) && i < |s.parts| && Runs(cfg, s, steps)
  {
    var t := After(cfg, s, steps);
    i < |t.parts| && t.parts[i].committed >= |s.parts[i].log|
  }

  /** From any reachable state a partition can be drained if and only if no message from the
      committed offset on is poison: one such message stops it for ever, and nothing else does. */
  lemma DrainableIff(cfg: Config, start: map<Resource, Json>, s: System, i: nat)
    requires ValidConfig(cfg) && Inv(cfg, start, s) && i < |s.parts|
    ensures Drainable(cfg, s, i)
       <==> forall k | s.parts[i].committed <= k < |s.parts[i].log| :: !Poison(s.parts[i].log[k])
  {
    assert PartInv(cfg, s.parts[i]);
    if Drainable(cfg, s, i) {
      var steps :| Runs(cfg, s, steps) && Drains(cfg, s, steps, i);
      var t := After(cfg, s, steps);
      RunKeeps(cfg, start, s, steps);
      RunExtends(cfg, s, steps, i);
      assert PartInv(cfg, t.parts[i]);
      assert forall k | 0 <= k < |s.parts[i].log| :: t.parts[i].log[k] == s.parts[i].log[k];
    }
    if forall k | s.parts[i].committed <= k < |s.parts[i].log| :: !Poison(s.parts[i].log[k]) {
      OneStep(cfg, s, Crash(i));
      var t := Next(cfg, s, Crash(i));
      var rest := DrainFromIdle(cfg, t, i);
      RunsConcat(cfg, s, [Crash(i)], rest);
      assert Drains(cfg, s, [Crash(i)] + rest, i);
    }
  }

  // ---------------------------------------------------------------- effects without events

  /** The system once the order at the head of partition `i` has taken effect, at the first
      attempt or after one that failed, and has been recorded and committed. */
  function Handed(s: System, i: nat, order: Order, retried: bool, now: string): System
    requires i < |s.parts| && Handled(order.command) && Target(order.command) in s.objects
  {
    var part, r := s.parts[i], Target(order.command);
    System(s.parts[i := part.(committed := part.committed + 1, stage := Idle,
                              effects := part.effects[part.committed := now],
                              records := part.records
                                + [Record(part.committed, if retried then Rejected else Applied)])],
           s.objects[r := MergePatch(s.objects[r], PatchBody(order, now))])
  }

  lemma HandOver(cfg: Config, s: System, i: nat, order: Order, retried: bool, now: string) returns (steps: seq<Step>)
    requires ValidConfig(cfg) && i < |s.parts| && s.parts[i].stage.Idle? && s.parts[i].committed < |s.parts[i].log|
    requires Head(s.parts[i]) == Accepted(order) && Handled(order.command) && Target(order.command) in s.objects
    requires retried ==> MaxAttempts(cfg) >= 2
    ensures Runs(cfg, s, steps) && After(cfg, s, steps) == Handed(s, i, order, retried, now)
  {
    steps := [Poll(i)];
    OneStep(cfg, s, Poll(i));
    if retried {
      OneMore(cfg, s, steps, Patch(i, ApiError(503, false), now));
      steps := steps + [Patch(i, ApiError(503, false), now)];
    }
    OneMore(cfg, s, steps, Patch(i, Done, now));
    steps := steps + [Patch(i, Done, now)];
    OneMore(cfg, s, steps, Publish(i, Acked));
    steps := steps + [Publish(i, Acked)];
    OneMore(cfg, s, steps, Commit(i, Acked));
    steps := steps + [Commit(i, Acked)];
  }

  function Logged(cfg: Config, s: System, order: Order): System
    requires ValidConfig(cfg) && |s.parts| == cfg.partitions
  {
    var i := Home(cfg, Target(order.command));
    s.(parts := s.parts[i := s.parts[i].(log := s.parts[i].log + [Accepted(order)])])
  }

  /** An order is appended and handed over. */
  lemma LogAndHandOver(cfg: Config, s: System, order: Order, retried: bool, now: string) returns (steps: seq<Step>)
    requires ValidConfig(cfg) && |s.parts| == cfg.partitions
    requires var part := s.parts[Home(cfg, Target(order.command))]; part.stage.Idle? && part.committed == |part.log|
    requires Handled(order.command) && Target(order.command) in s.objects && (retried ==> MaxAttempts(cfg) >= 2)
    ensures Runs(cfg, s, steps)
    ensures After(cfg, s, steps) == Handed(Logged(cfg, s, order), Home(cfg, Target(order.command)), order, retried, now)
  {
    var append := Append(WorkloadKey(Target(order.command)), Accepted(order));
    OneStep(cfg, s, append);
    var rest := HandOver(cfg, Logged(cfg, s, order), Home(cfg, Target(order.command)), order, retried, now);
    RunsConcat(cfg, s, [append], rest);
    steps := [append] + rest;
  }

  /** An effect does not imply an applied event: a patch that succeeds on the second attempt is
      dead-lettered, because the first error is never cleared. */
  lemma RetriedSuccessIsDeadLettered(cfg: Config, s: System, order: Order) returns (steps: seq<Step>)
    requires ValidConfig(cfg) && Initial(cfg, s) && MaxAttempts(cfg) >= 2
    requires Handled(order.command) && Target(order.command) in s.objects
    ensures Runs(cfg, s, steps)
    ensures var t, i := After(cfg, s, steps), Home(cfg, Target(order.command));
            i < |t.parts| && t.parts[i].effects.Keys == {0} && t.parts[i].records == [Record(0, Rejected)]
            && t.parts[i].committed == 1
  {
    steps := LogAndHandOver(cfg, s, order, true, "");
  }

  /** Partition `i` has drained its log. */
  predicate Drained(s: System, i: nat) {
    i < |s.parts| && s.parts[i].stage.Idle? && s.parts[i].committed == |s.parts[i].log|
  }

  /** From `s` to `t` one more order about `r` has come, taken effect and been recorded. */
  predicate Took(s: System, t: System, i: nat, r: Resource, order: Order, retried: bool) {
    && Drained(s, i) && Drained(t, i) && |t.parts| == |s.parts| && r in s.objects && r in t.objects
    && t.parts[i].log == s.parts[i].log + [Accepted(order)]
    && t.parts[i].records == s.parts[i].records + [Record(|s.parts[i].log|, if retried then Rejected else Applied)]
    && IntentOf(t.objects[r]) == Act(IntentOf(s.objects[r]), order)
  }

  lemma TakeOne(cfg: Config, s: System, r: Resource, order: Order, retried: bool) returns (steps: seq<Step>)
    requires ValidConfig(cfg) && |s.parts| == cfg.partitions && Drained(s, Home(cfg, r)) && r in s.objects
    requires Target(order.command) == r && Handled(order.command) && (retried ==> MaxAttempts(cfg) >= 2)
    ensures Runs(cfg, s, steps) && Took(s, After(cfg, s, steps), Home(cfg, r), r, order, retried)
  {
    steps := LogAndHandOver(cfg, s, order, retried, "");
    PatchActs(s.objects[r], order, "");
  }

  /** Publishing such a dead letter again, when a later order about the same workload has taken
      effect: the run exists for any two orders, and the replay leaves what the controllers act on
      alone exactly when it overturns no control field, which can be seen before publishing. */
  lemma DeadLetterReplayIff(cfg: Config, s: System, r: Resource, dead: Order, later: Order)
    returns (first: seq<Step>, again: seq<Step>)
    requires ValidConfig(cfg) && Initial(cfg, s) && MaxAttempts(cfg) >= 2 && r in s.objects
    requires Target(dead.command) == Target(later.command) == r && Handled(dead.command) && Handled(later.command)
    ensures Runs(cfg, s, first) && Runs(cfg, After(cfg, s, first), again)
    ensures var t, u, i := After(cfg, s, first), After(cfg, After(cfg, s, first), again), Home(cfg, r);
      && i < |t.parts| && i < |u.parts| && r in t.objects && r in u.objects
      && t.parts[i].log == [Accepted(dead), Accepted(later)] && u.parts[i].log == t.parts[i].log + [Accepted(dead)]
      && t.parts[i].records == [Record(0, Rejected), Record(1, Applied)]
      && (SameControl(IntentOf(u.objects[r]), IntentOf(t.objects[r]))
          <==> forall f | f != LastId :: !Overturns([dead, later], [dead], f))
  {
    var i := Home(cfg, r);
    var one := TakeOne(cfg, s, r, dead, true);
    var s1 := After(cfg, s, one);
    var two := TakeOne(cfg, s1, r, later, false);
    var t := After(cfg, s1, two);
    RunsConcat(cfg, s, one, two);
    first := one + two;
    again := TakeOne(cfg, t, r, dead, false);
    FoldThree(IntentOf(s.objects[r]), dead, later);
    ReplayAfterIff(IntentOf(s.objects[r]), [dead, later], [dead]);
  }

  lemma FoldThree(s: Intent, a: Order, b: Order)
    ensures Fold(s, [a, b]) == Act(Act(s, a), b)
    ensures Fold(s, [a, b] + [a]) == Act(Act(Act(s, a), b), a)
  {
    assert [a][..0] == [];
    assert Fold(s, [a]) == Act(s, a);
    assert [a, b][..1] == [a];
    assert ([a, b] + [a])[..2] == [a, b];
  }

  /** A wake and a later sleep of a service are such a pair: the replay wakes the service. */
  lemma WakeOverturnsSleep(wake: Order, sleep: Order)
    requires wake.command.kind.Inference? && wake.command.verb.Wake? && sleep.command.kind.Inference?
             && sleep.command.verb.Sleep?
    ensures Overturns([wake, sleep], [wake], Suspend) && Overturns([wake, sleep], [wake], ForceActive)
  {
    assert [wake, sleep][..1] == [wake] && [wake][..0] == [];
  }
}
