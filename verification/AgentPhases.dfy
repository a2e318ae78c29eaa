/** When the phase of an agent task is final: what the pipeline still holds about it. */
module AgentPhases {
  import opened AgentPipeline

  /** A task message waits for its worker to commit it. */
  predicate Waiting(lanes: seq<Lane>, id: Id) {
    exists k, n | 0 <= k < |lanes| && lanes[k].committed <= n < |lanes[k].log| :: lanes[k].log[n] == id
  }

  /** A result with another outcome waits for the consumer to commit it. */
  predicate Contradicted(inboxes: seq<Inbox>, id: Id, phase: Phase) {
    exists p, j | 0 <= p < |inboxes| && inboxes[p].committed <= j < |inboxes[p].log| ::
      inboxes[p].log[j].id == id && PhaseOf(inboxes[p].log[j]) != phase
  }

  /** The submission is still running, its message is still queued or unprocessed, or a result
      that says something else is still unread. */
  predicate Open(s: State, id: Id, phase: Phase) {
    id in s.submits || id in s.outbox || Waiting(s.lanes, id) || Contradicted(s.inboxes, id, phase)
  }

  predicate Closed(s: State, id: Id, phase: Phase) {
    id in s.created && !Open(s, id, phase) && (id in s.tasks ==> s.tasks[id] == phase)
  }

  /** Only a delivery adds a task to a lane. */
  lemma NotWaitingStep(s: State, step: Step, id: Id)
    requires Enabled(s, step) && id !in s.outbox && !Waiting(s.lanes, id)
    ensures !Waiting(Next(s, step).lanes, id)
  {
  }

  /** Only an answer to the task adds a result about it. */
  lemma NotContradictedStep(s: State, step: Step, id: Id, phase: Phase)
    requires Enabled(s, step) && !Waiting(s.lanes, id) && !Contradicted(s.inboxes, id, phase)
    ensures !Contradicted(Next(s, step).inboxes, id, phase)
  {
  }

  lemma PhaseKeptStep(s: State, step: Step, id: Id, phase: Phase)
    requires Closed(s, id, phase) && Enabled(s, step)
    requires step.Apply? ==> s.inboxes[step.inbox].committed < |s.inboxes[step.inbox].log|
    ensures id in Next(s, step).tasks ==> Next(s, step).tasks[id] == phase
  {
  }

  lemma ClosedStep(s: State, step: Step, id: Id, phase: Phase)
    requires Closed(s, id, phase) && Enabled(s, step)
    ensures Closed(Next(s, step), id, phase)
  {
    NotWaitingStep(s, step, id);
    NotContradictedStep(s, step, id, phase);
    PhaseKeptStep(s, step, id, phase);
  }

  lemma {:induction false} ClosedRun(s: State, steps: seq<Step>, id: Id, phase: Phase)
    requires Closed(s, id, phase) && Runs(s, steps)
    ensures Closed(After(s, steps), id, phase)
    decreases |steps|
  {
    if steps != [] {
      ClosedStep(s, steps[0], id, phase);
      ClosedRun(Next(s, steps[0]), steps[1..], id, phase);
    }
  }

  // ---------------------------------------------------------------- runs that change a phase

  lemma First(s: State, step: Step, rest: seq<Step>)
    requires Enabled(s, step) && Runs(Next(s, step), rest)
    ensures Runs(s, [step] + rest) && After(s, [step] + rest) == After(Next(s, step), rest)
  {
    assert ([step] + rest)[1..] == rest;
  }

  /** The consumer of a partition can be brought to any result it has not committed. */
  lemma {:induction false} ReadUpTo(s: State, p: nat, j: nat) returns (steps: seq<Step>)
    requires Inv(s) && p < |s.inboxes| && s.inboxes[p].committed <= j < |s.inboxes[p].log|
    requires s.inboxes[p].log[j].id in s.tasks
    ensures Runs(s, steps)
    ensures var r, t := s.inboxes[p].log[j], After(s, steps); r.id in t.tasks && t.tasks[r.id] == PhaseOf(r)
    decreases j - s.inboxes[p].committed,
      if !s.inboxes[p].applied then 1 else if j == s.inboxes[p].committed then 2 else 0
  {
    var step := if !s.inboxes[p].applied then Apply(p)
                else if j == s.inboxes[p].committed then CrashConsumer(p) else CommitResult(p);
    var t := Next(s, step);
    if step.Apply? && j == s.inboxes[p].committed {
      steps := [];
    } else {
      StepKeeps(s, step);
      steps := ReadUpTo(t, p, j);
    }
    First(s, step, steps);
    steps := [step] + steps;
  }

  /** The worker of a lane can be brought to any task it has not committed, and then answer
      either way; the answer is read. */
  lemma {:induction false} AnswerAndRead(s: State, k: nat, n: nat, failed: bool) returns (steps: seq<Step>)
    requires Inv(s) && k < |s.lanes| && s.lanes[k].committed <= n < |s.lanes[k].log|
    requires s.lanes[k].log[n] in s.tasks
    ensures Runs(s, steps)
    ensures var id, t := s.lanes[k].log[n], After(s, steps);
      id in t.tasks && t.tasks[id] == PhaseOf(Result(id, failed))
    decreases n - s.lanes[k].committed,
      if !s.lanes[k].answered then 1 else if n == s.lanes[k].committed then 2 else 0
  {
    var lane := s.lanes[k];
    var step := if !lane.answered then Answer(k, 0, failed)
                else if n == lane.committed then CrashWorker(k) else CommitTask(k);
    var t := Next(s, step);
    StepKeeps(s, step);
    if step.Answer? && n == lane.committed {
      assert InboxInv(s.inboxes[0], s.created);
      steps := ReadUpTo(t, 0, |s.inboxes[0].log|);
    } else {
      steps := AnswerAndRead(t, k, n, failed);
    }
    First(s, step, steps);
    steps := [step] + steps;
  }

  lemma DeliverAndAnswer(s: State, id: Id, failed: bool) returns (steps: seq<Step>)
    requires Inv(s) && id in s.tasks && id in s.outbox
    ensures Runs(s, steps)
    ensures var t := After(s, steps); id in t.tasks && t.tasks[id] == PhaseOf(Result(id, failed))
  {
    var k := s.outbox[id];
    assert SubmitInv(s.tasks, s.created, s.submits, s.outbox, |s.lanes|, id);
    assert LaneInv(s.lanes[k], s.created, s.inboxes);
    var t := Next(s, Deliver(id));
    StepKeeps(s, Deliver(id));
    steps := AnswerAndRead(t, k, |s.lanes[k].log|, failed);
    First(s, Deliver(id), steps);
    steps := [Deliver(id)] + steps;
  }

  /** A submission that is still running can still set the routed mark, whatever happened to its
      task in the meantime. */
  lemma RouteLate(s: State, id: Id) returns (steps: seq<Step>)
    requires Inv(s) && id in s.tasks && id in s.submits
    ensures Runs(s, steps)
    ensures var t := After(s, steps); id in t.tasks && t.tasks[id] == Routed
    decreases s.submits[id].Created?, id in s.outbox
  {
    var step := if s.submits[id].Created? then Produce(id) else if id in s.outbox then Drop(id) else Route(id);
    var t := Next(s, step);
    StepKeeps(s, step);
    if step.Route? {
      steps := [];
    } else {
      steps := RouteLate(t, id);
    }
    First(s, step, steps);
    steps := [step] + steps;
  }

  lemma ChangePhase(s: State, id: Id) returns (steps: seq<Step>)
    requires Inv(s) && id in s.tasks && Open(s, id, s.tasks[id])
    ensures Runs(s, steps)
    ensures var t := After(s, steps); id in t.tasks && t.tasks[id] != s.tasks[id]
  {
    assert SubmitInv(s.tasks, s.created, s.submits, s.outbox, |s.lanes|, id);
    var failed := s.tasks[id] != Failed;
    if id in s.submits {
      steps := RouteLate(s, id);
    } else if id in s.outbox {
      steps := DeliverAndAnswer(s, id, failed);
    } else if Waiting(s.lanes, id) {
      var k, n :| 0 <= k < |s.lanes| && s.lanes[k].committed <= n < |s.lanes[k].log| && s.lanes[k].log[n] == id;
      steps := AnswerAndRead(s, k, n, failed);
    } else {
      var p, j :| 0 <= p < |s.inboxes| && s.inboxes[p].committed <= j < |s.inboxes[p].log|
        && s.inboxes[p].log[j].id == id && PhaseOf(s.inboxes[p].log[j]) != s.tasks[id];
      steps := ReadUpTo(s, p, j);
    }
  }

  // ---------------------------------------------------------------- theorems

  /** In every reachable state: the phase of a task can never change again exactly when its
      submission has ended, its message is neither queued nor uncommitted, and no uncommitted
      result says otherwise. For a phase that is not terminal this is when the task is stuck. */
  lemma PhaseIsFinalIff(s: State, id: Id)
    requires Inv(s) && id in s.tasks
    ensures (forall steps | Runs(s, steps) ::
               id in After(s, steps).tasks ==> After(s, steps).tasks[id] == s.tasks[id])
       <==> !Open(s, id, s.tasks[id])
  {
    if Open(s, id, s.tasks[id]) {
      var steps := ChangePhase(s, id);
      assert Runs(s, steps);
    } else {
      assert SubmitInv(s.tasks, s.created, s.submits, s.outbox, |s.lanes|, id);
      forall steps | Runs(s, steps)
        ensures id in After(s, steps).tasks ==> After(s, steps).tasks[id] == s.tasks[id]
      {
        ClosedRun(s, steps, id, s.tasks[id]);
      }
    }
  }

  predicate Done(s: State, id: Id) {
    id in s.created && id !in s.submits && (id in s.tasks ==> Terminal(s.tasks[id]))
  }

  lemma {:induction false} DoneRun(s: State, steps: seq<Step>, id: Id)
    requires Done(s, id) && Runs(s, steps)
    ensures Done(After(s, steps), id)
    decreases |steps|
  {
    if steps != [] {
      DoneRun(Next(s, steps[0]), steps[1..], id);
    }
  }

  /** A terminal phase stays terminal under every redelivery and crash exactly when the task's
      submission has ended: the only step that can undo it is the late routed mark. */
  lemma TerminalStaysIff(s: State, id: Id)
    requires Inv(s) && id in s.tasks && Terminal(s.tasks[id])
    ensures (forall steps | Runs(s, steps) ::
               id in After(s, steps).tasks ==> Terminal(After(s, steps).tasks[id]))
       <==> id !in s.submits
  {
    if id in s.submits {
      var steps := RouteLate(s, id);
      assert Runs(s, steps);
    } else {
      assert SubmitInv(s.tasks, s.created, s.submits, s.outbox, |s.lanes|, id);
      forall steps | Runs(s, steps)
        ensures id in After(s, steps).tasks ==> Terminal(After(s, steps).tasks[id])
      {
        DoneRun(s, steps, id);
      }
    }
  }

  /** The task is produced, answered, and its answer applied and committed, all before the
      submission gets to the routed mark. */
  lemma Overtaken(s: State, id: Id) returns (steps: seq<Step>)
    requires Initial(s) && |s.lanes| > 0
    ensures Runs(s, steps)
    ensures var t := After(s, steps);
      && |t.lanes| > 0 && |t.inboxes| > 0 && t.submits == map[id := Produced] && t.outbox == map[] && id in t.tasks
      && t.lanes[0].committed == |t.lanes[0].log| && (forall k | 0 < k < |t.lanes| :: t.lanes[k].log == [])
      && t.inboxes[0] == Inbox([Result(id, false)], 1, false)
      && (forall p | 0 < p < |t.inboxes| :: t.inboxes[p].log == [])
  {
    var s1 := Next(s, Create(id, 0));
    var s3 := Next(Next(s1, Produce(id)), Deliver(id));
    steps := AnsweredAndRead(s3, id);
    First(Next(s1, Produce(id)), Deliver(id), steps);
    steps := [Deliver(id)] + steps;
    First(s1, Produce(id), steps);
    steps := [Produce(id)] + steps;
    First(s, Create(id, 0), steps);
    steps := [Create(id, 0)] + steps;
  }

  lemma AnsweredAndRead(s: State, id: Id) returns (steps: seq<Step>)
    requires |s.lanes| > 0 && |s.inboxes| > 0 && id in s.tasks
    requires s.lanes[0].log == [id] && s.lanes[0].committed == 0 && !s.lanes[0].answered
             && s.inboxes[0] == Inbox([], 0, false)
    ensures Runs(s, steps)
    ensures var t := After(s, steps);
      && |t.lanes| == |s.lanes| && |t.inboxes| == |s.inboxes| && t.submits == s.submits && t.outbox == s.outbox
      && id in t.tasks
      && t.lanes[0].log == [id] && t.lanes[0].committed == 1 && t.lanes[1..] == s.lanes[1..]
      && t.inboxes[0] == Inbox([Result(id, false)], 1, false) && t.inboxes[1..] == s.inboxes[1..]
  {
    var s1 := Next(s, Answer(0, 0, false));
    var s2 := Next(s1, CommitTask(0));
    var s3 := Next(s2, Apply(0));
    steps := [CommitResult(0)];
    First(s3, CommitResult(0), []);
    First(s2, Apply(0), steps);
    steps := [Apply(0)] + steps;
    First(s1, CommitTask(0), steps);
    steps := [CommitTask(0)] + steps;
    First(s, Answer(0, 0, false), steps);
    steps := [Answer(0, 0, false)] + steps;
  }

  lemma {:induction false} Concat(s: State, a: seq<Step>, b: seq<Step>)
    requires Runs(s, a) && Runs(After(s, a), b)
    ensures Runs(s, a + b) && After(s, a + b) == After(After(s, a), b)
    decreases |a|
  {
    if a == [] {
      assert a + b == b;
    } else {
      assert (a + b)[1..] == a[1..] + b;
      Concat(Next(s, a[0]), a[1..], b);
    }
  }

  /** The run in which the worker and the consumer overtake the routed mark: the task was
      answered, the answer was applied and committed, and the object says "routed" for good. */
  lemma LateMarkSticks(s: State, id: Id) returns (steps: seq<Step>)
    requires Initial(s) && |s.lanes| > 0
    ensures Runs(s, steps)
    ensures var t := After(s, steps);
      && id in t.tasks && t.tasks[id] == Routed && RepliedWith(t.inboxes, id, Completed)
      && (forall more | Runs(t, more) :: id in After(t, more).tasks ==> After(t, more).tasks[id] == Routed)
  {
    InitialKeeps(s);
    var before := Overtaken(s, id);
    RunKeeps(s, before);
    var u := After(s, before);
    var t := Next(u, Route(id));
    First(u, Route(id), []);
    Concat(s, before, [Route(id)]);
    steps := before + [Route(id)];
    assert t.inboxes[0].log[0] == Result(id, false);
    StepKeeps(u, Route(id));
    assert !Open(t, id, Routed);
    PhaseIsFinalIff(t, id);
  }
}
