/** What the pipeline loses without an error: exactly which committed tasks have no result, and
    exactly which routed tasks never reached a worker's partition. */
module AgentLosses {
  import opened AgentPipeline
  import opened AgentPhases

  predicate At(lanes: seq<Lane>, k: int, n: int, id: Id) {
    0 <= k < |lanes| && 0 <= n < |lanes[k].log| && lanes[k].log[n] == id
  }

  ghost predicate Logged(lanes: seq<Lane>, id: Id) {
    exists k, n :: At(lanes, k, n, id)
  }

  /** No task is logged twice. */
  ghost predicate Once(lanes: seq<Lane>) {
    forall k, n, j, i, id :: At(lanes, k, n, id) && At(lanes, j, i, id) ==> k == j && n == i
  }

  /** Where the message of a task is: with the submission, in the producer's queue, in a lane, or
      dropped; and nowhere else at the same time. */
  ghost predicate WhereInv(s: State, id: Id) {
    && (id in s.outbox || Logged(s.lanes, id) || id in s.dropped ==> id in s.created)
    && (id in s.outbox ==> !Logged(s.lanes, id) && id !in s.dropped)
    && (id in s.dropped ==> !Logged(s.lanes, id))
    && (id in s.submits ==> id in s.created)
    && (id in s.submits && s.submits[id].Created? ==> id !in s.outbox && !Logged(s.lanes, id) && id !in s.dropped)
    && (id in s.submits && s.submits[id].Produced? ==> id in s.outbox || Logged(s.lanes, id) || id in s.dropped)
    && (id in s.tasks ==> id in s.created)
    && (id in s.tasks && s.tasks[id] == Routed ==> Logged(s.lanes, id) || id in s.dropped)
  }

  /** An offset has been reached exactly when its task has a result. */
  predicate ReachedInv(lane: Lane, inboxes: seq<Inbox>) {
    && (forall n | n in lane.reached :: n < |lane.log|)
    && forall n | 0 <= n < |lane.log| :: n in lane.reached <==> Replied(inboxes, lane.log[n])
  }

  ghost predicate RepliedLogged(inboxes: seq<Inbox>, lanes: seq<Lane>) {
    forall p, j | 0 <= p < |inboxes| && 0 <= j < |inboxes[p].log| :: Logged(lanes, inboxes[p].log[j].id)
  }

  ghost predicate LossInv(s: State) {
    && Once(s.lanes) && RepliedLogged(s.inboxes, s.lanes)
    && (forall id :: WhereInv(s, id))
    && (forall k | 0 <= k < |s.lanes| :: ReachedInv(s.lanes[k], s.inboxes))
  }

  /** The lanes hold the same tasks. */
  predicate SameLogs(a: seq<Lane>, b: seq<Lane>) {
    |a| == |b| && forall k | 0 <= k < |a| :: a[k].log == b[k].log
  }

  lemma SameLogged(a: seq<Lane>, b: seq<Lane>)
    requires SameLogs(a, b)
    ensures forall id :: Logged(a, id) <==> Logged(b, id)
    ensures Once(a) ==> Once(b)
  {
    assert forall k, n, id :: At(a, k, n, id) <==> At(b, k, n, id);
  }

  lemma RepliedAfterAnswer(s: State, k: nat, p: nat, failed: bool, id: Id)
    requires Enabled(s, Answer(k, p, failed))
    ensures Replied(Next(s, Answer(k, p, failed)).inboxes, id)
       <==> Replied(s.inboxes, id) || id == s.lanes[k].log[s.lanes[k].committed]
  {
    var t, log := Next(s, Answer(k, p, failed)), s.inboxes[p].log;
    assert t.inboxes[p].log[|log|].id == s.lanes[k].log[s.lanes[k].committed];
    if Replied(s.inboxes, id) {
      var i, j :| 0 <= i < |s.inboxes| && 0 <= j < |s.inboxes[i].log| && s.inboxes[i].log[j].id == id;
      assert t.inboxes[i].log[j].id == id;
    }
  }

  lemma AnswerKeeps(s: State, k: nat, p: nat, failed: bool)
    requires LossInv(s) && Enabled(s, Answer(k, p, failed))
    ensures LossInv(Next(s, Answer(k, p, failed)))
  {
    var t, c := Next(s, Answer(k, p, failed)), s.lanes[k].committed;
    SameLogged(s.lanes, t.lanes);
    assert At(s.lanes, k, c, s.lanes[k].log[c]);
    forall id ensures WhereInv(t, id) {
      assert WhereInv(s, id);
    }
    forall j | 0 <= j < |t.lanes|
      ensures ReachedInv(t.lanes[j], t.inboxes)
    {
      assert ReachedInv(s.lanes[j], s.inboxes);
      forall n | 0 <= n < |t.lanes[j].log|
        ensures n in t.lanes[j].reached <==> Replied(t.inboxes, t.lanes[j].log[n])
      {
        assert At(s.lanes, j, n, t.lanes[j].log[n]);
        RepliedAfterAnswer(s, k, p, failed, t.lanes[j].log[n]);
      }
    }
  }

  lemma LoggedMore(s: State, id: Id, other: Id)
    requires Enabled(s, Deliver(id))
    ensures Logged(Next(s, Deliver(id)).lanes, other) <==> Logged(s.lanes, other) || other == id
  {
    var t, k := Next(s, Deliver(id)), s.outbox[id];
    assert At(t.lanes, k, |s.lanes[k].log|, id);
    if Logged(s.lanes, other) {
      var j, n :| At(s.lanes, j, n, other);
      assert At(t.lanes, j, n, other);
    }
    if Logged(t.lanes, other) && other != id {
      var j, n :| At(t.lanes, j, n, other);
      assert At(s.lanes, j, n, other);
    }
  }

  lemma DeliverKeepsOnce(s: State, id: Id)
    requires Once(s.lanes) && !Logged(s.lanes, id) && Enabled(s, Deliver(id))
    ensures Once(Next(s, Deliver(id)).lanes)
  {
    var t, k := Next(s, Deliver(id)), s.outbox[id];
    forall j, n, other | At(t.lanes, j, n, other)
      ensures At(s.lanes, j, n, other) || (j == k && n == |s.lanes[k].log| && other == id)
    {
    }
    forall j, n, i, l, other | At(t.lanes, j, n, other) && At(t.lanes, i, l, other)
      ensures j == i && n == l
    {
      if other == id {
        assert !At(s.lanes, j, n, id) && !At(s.lanes, i, l, id);
      } else {
        assert At(s.lanes, j, n, other) && At(s.lanes, i, l, other);
      }
    }
  }

  lemma DeliverKeeps(s: State, id: Id)
    requires LossInv(s) && Enabled(s, Deliver(id))
    ensures LossInv(Next(s, Deliver(id)))
  {
    var t, k := Next(s, Deliver(id)), s.outbox[id];
    assert WhereInv(s, id);
    DeliverKeepsOnce(s, id);
    forall other ensures WhereInv(t, other) {
      assert WhereInv(s, other);
      LoggedMore(s, id, other);
    }
    forall p, j | 0 <= p < |t.inboxes| && 0 <= j < |t.inboxes[p].log|
      ensures Logged(t.lanes, t.inboxes[p].log[j].id)
    {
      LoggedMore(s, id, t.inboxes[p].log[j].id);
    }
    assert !Replied(s.inboxes, id);
    assert ReachedInv(s.lanes[k], s.inboxes);
  }

  /** A step that logs nothing and answers nothing. */
  lemma QuietKeeps(s: State, step: Step)
    requires LossInv(s) && Enabled(s, step) && !step.Answer? && !step.Deliver?
    ensures LossInv(Next(s, step))
  {
    var t := Next(s, step);
    SameLogged(s.lanes, t.lanes);
    assert forall p | 0 <= p < |t.inboxes| :: t.inboxes[p].log == s.inboxes[p].log;
    assert forall id :: Replied(t.inboxes, id) <==> Replied(s.inboxes, id);
    forall id ensures WhereInv(t, id) {
      assert WhereInv(s, id);
    }
    forall k | 0 <= k < |t.lanes|
      ensures ReachedInv(t.lanes[k], t.inboxes)
    {
      assert ReachedInv(s.lanes[k], s.inboxes);
    }
  }

  lemma {:induction false} RunKeepsLosses(s: State, steps: seq<Step>)
    requires LossInv(s) && Runs(s, steps)
    ensures LossInv(After(s, steps))
    decreases |steps|
  {
    if steps != [] {
      match steps[0]
      case Answer(k, p, failed) =>
        AnswerKeeps(s, k, p, failed);
        RunKeepsLosses(Next(s, steps[0]), steps[1..]);
      case Deliver(id) =>
        DeliverKeeps(s, id);
        RunKeepsLosses(Next(s, steps[0]), steps[1..]);
      case _ =>
        QuietKeeps(s, steps[0]);
        RunKeepsLosses(Next(s, steps[0]), steps[1..]);
    }
  }

  /** The exact account of one lane: a committed task has a result exactly when some answer to it
      reached a result partition, and otherwise an answer to it was dropped without an error. */
  predicate LossesOf(lane: Lane, inboxes: seq<Inbox>) {
    lane.committed <= |lane.log| &&
    forall n | 0 <= n < lane.committed ::
      && (Replied(inboxes, lane.log[n]) <==> n in lane.reached)
      && (n in lane.reached || n in lane.lost)
  }

  /** For every run: which committed tasks have no result, and which tasks marked "routed" are in no
      lane, namely exactly those whose message the producer dropped. */
  lemma LossesAccountedFor(s: State, steps: seq<Step>)
    requires Initial(s) && Runs(s, steps)
    ensures var t := After(s, steps);
      && (forall k | 0 <= k < |t.lanes| :: LossesOf(t.lanes[k], t.inboxes))
      && (forall id | id in t.tasks && t.tasks[id] == Routed :: Logged(t.lanes, id) <==> id !in t.dropped)
  {
    var t := After(s, steps);
    InitialKeeps(s);
    RunKeeps(s, steps);
    RunKeepsLosses(s, steps);
    forall k | 0 <= k < |t.lanes|
      ensures LossesOf(t.lanes[k], t.inboxes)
    {
      assert LaneInv(t.lanes[k], t.created, t.inboxes) && ReachedInv(t.lanes[k], t.inboxes);
    }
    forall id | id in t.tasks && t.tasks[id] == Routed
      ensures Logged(t.lanes, id) <==> id !in t.dropped
    {
      assert WhereInv(t, id);
    }
  }

  // ---------------------------------------------------------------- the histories are those of the run

  /** Restarts of a worker, and offsets of its lane: answers that reached a result partition, and
      answers that were dropped. */
  datatype Account = Account(crashes: nat, reached: set<nat>, lost: set<nat>)

  /** What one step adds to the account of lane `k`. */
  function Adds(s: State, step: Step, k: nat): Account
    requires k < |s.lanes|
  {
    match step
    case CrashWorker(lane) => Account(if lane == k then 1 else 0, {}, {})
    case Answer(lane, _, _) => Account(0, if lane == k then {s.lanes[k].committed} else {}, {})
    case AnswerLost(lane) => Account(0, {}, if lane == k then {s.lanes[k].committed} else {})
    case _ => Account(0, {}, {})
  }

  function Plus(a: Account, b: Account): Account {
    Account(a.crashes + b.crashes, a.reached + b.reached, a.lost + b.lost)
  }

  function AccountOf(lane: Lane): Account {
    Account(lane.crashes, lane.reached, lane.lost)
  }

  lemma StepAdds(s: State, step: Step, k: nat)
    requires Enabled(s, step) && k < |s.lanes|
    ensures k < |Next(s, step).lanes|
    ensures AccountOf(Next(s, step).lanes[k]) == Plus(AccountOf(s.lanes[k]), Adds(s, step, k))
    ensures Next(s, step).dropped == s.dropped + (if step.Drop? then {step.id} else {})
  {
  }

  function AddsOf(s: State, steps: seq<Step>, k: nat): Account
    requires Runs(s, steps) && k < |s.lanes|
    decreases |steps|
  {
    if steps == [] then Account(0, {}, {})
    else
      LanesStay(s, steps[0]);
      Plus(Adds(s, steps[0], k), AddsOf(Next(s, steps[0]), steps[1..], k))
  }

  function DroppedIn(steps: seq<Step>): set<Id> {
    if steps == [] then {} else (if steps[0].Drop? then {steps[0].id} else {}) + DroppedIn(steps[1..])
  }

  lemma LanesStay(s: State, step: Step)
    requires Enabled(s, step)
    ensures |Next(s, step).lanes| == |s.lanes|
  {
  }

  lemma PlusAssociates(a: Account, b: Account, c: Account)
    ensures Plus(Plus(a, b), c) == Plus(a, Plus(b, c))
  {
  }

  /** What a lane remembers is what happened to it in the run, and nothing else. */
  lemma {:induction false} HistoryOfLane(s: State, steps: seq<Step>, k: nat)
    requires Runs(s, steps) && k < |s.lanes|
    ensures k < |After(s, steps).lanes|
    ensures AccountOf(After(s, steps).lanes[k]) == Plus(AccountOf(s.lanes[k]), AddsOf(s, steps, k))
    decreases |steps|
  {
    if steps != [] {
      var next := Next(s, steps[0]);
      StepAdds(s, steps[0], k);
      HistoryOfLane(next, steps[1..], k);
      PlusAssociates(AccountOf(s.lanes[k]), Adds(s, steps[0], k), AddsOf(next, steps[1..], k));
    }
  }

  /** And so are the messages the supervisor's producer gave up on. */
  lemma {:induction false} HistoryOfDrops(s: State, steps: seq<Step>)
    requires Runs(s, steps)
    ensures After(s, steps).dropped == s.dropped + DroppedIn(steps)
    decreases |steps|
  {
    if steps != [] {
      HistoryOfDrops(Next(s, steps[0]), steps[1..]);
    }
  }

  // ---------------------------------------------------------------- both losses happen

  /** The run in which a worker commits a task without a result. */
  lemma CommittedWithoutResult(s: State, id: Id) returns (steps: seq<Step>)
    requires Initial(s) && |s.lanes| > 0
    ensures Runs(s, steps)
    ensures var t := After(s, steps);
      |t.lanes| > 0 && t.lanes[0].log == [id] && t.lanes[0].committed == 1 && !Replied(t.inboxes, id)
  {
    var s1 := Next(s, Create(id, 0));
    var s2 := Next(s1, Produce(id));
    var s3 := Next(s2, Deliver(id));
    var s4 := Next(s3, AnswerLost(0));
    First(s4, CommitTask(0), []);
    First(s3, AnswerLost(0), [CommitTask(0)]);
    steps := [AnswerLost(0), CommitTask(0)];
    First(s2, Deliver(id), steps);
    steps := [Deliver(id)] + steps;
    First(s1, Produce(id), steps);
    steps := [Produce(id)] + steps;
    First(s, Create(id, 0), steps);
    steps := [Create(id, 0)] + steps;
  }

  /** The run in which a submission reports "routed" for a task that was never logged: the phase says
      so for good, and no result will ever come. */
  lemma RoutedNeverLogged(s: State, id: Id) returns (steps: seq<Step>)
    requires Initial(s) && |s.lanes| > 0
    ensures Runs(s, steps)
    ensures var t := After(s, steps);
      && id in t.tasks && t.tasks[id] == Routed && !Logged(t.lanes, id) && id in t.dropped
      && (forall more | Runs(t, more) ::
            !Replied(After(t, more).inboxes, id) && (id in After(t, more).tasks ==> After(t, more).tasks[id] == Routed))
  {
    InitialKeeps(s);
    var s1 := Next(s, Create(id, 0));
    var s2 := Next(s1, Produce(id));
    var s3 := Next(s2, Drop(id));
    var t := Next(s3, Route(id));
    First(s3, Route(id), []);
    First(s2, Drop(id), [Route(id)]);
    steps := [Drop(id), Route(id)];
    First(s1, Produce(id), steps);
    steps := [Produce(id)] + steps;
    First(s, Create(id, 0), steps);
    steps := [Create(id, 0)] + steps;
    RunKeeps(s, steps);
    RunKeepsLosses(s, steps);
    assert !Open(t, id, Routed);
    PhaseIsFinalIff(t, id);
    forall more | Runs(t, more)
      ensures !Replied(After(t, more).inboxes, id)
    {
      DroppedForEver(t, more, id);
    }
  }

  /** The run in which a submission ends between the object and the message: the task has no phase
      and gets none, except by being deleted. */
  lemma AbandonedForGood(s: State, id: Id) returns (steps: seq<Step>)
    requires Initial(s) && |s.lanes| > 0
    ensures Runs(s, steps)
    ensures var t := After(s, steps);
      && id in t.tasks && t.tasks[id] == Unrouted
      && (forall more | Runs(t, more) :: id in After(t, more).tasks ==> After(t, more).tasks[id] == Unrouted)
      && (exists more :: Runs(t, more) && id !in After(t, more).tasks)
  {
    InitialKeeps(s);
    var t := Next(Next(s, Create(id, 0)), Abandon(id));
    First(Next(s, Create(id, 0)), Abandon(id), []);
    assert [Abandon(id)] + [] == [Abandon(id)];
    First(s, Create(id, 0), [Abandon(id)]);
    steps := [Create(id, 0)] + [Abandon(id)];
    RunKeeps(s, steps);
    assert !Open(t, id, Unrouted);
    PhaseIsFinalIff(t, id);
    First(t, Delete(id), []);
    assert Runs(t, [Delete(id)] + []) && id !in After(t, [Delete(id)] + []).tasks;
  }

  lemma DroppedForEver(s: State, steps: seq<Step>, id: Id)
    requires LossInv(s) && id in s.dropped && Runs(s, steps)
    ensures id in After(s, steps).dropped && !Replied(After(s, steps).inboxes, id)
  {
    DroppedStays(s, steps, id);
    RunKeepsLosses(s, steps);
    assert WhereInv(After(s, steps), id);
  }

  lemma {:induction false} DroppedStays(s: State, steps: seq<Step>, id: Id)
    requires id in s.dropped && Runs(s, steps)
    ensures id in After(s, steps).dropped
    decreases |steps|
  {
    if steps != [] {
      DroppedStays(Next(s, steps[0]), steps[1..], id);
    }
  }
}
