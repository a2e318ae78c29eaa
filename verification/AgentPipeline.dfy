/** The agent task pipeline as a crash-restart step machine: a submission creates a task object,
    publishes the task and marks the object routed; a worker answers on the result topic before
    it commits; a consumer of results marks the object before it commits. Nothing orders the
    routed mark against the marks of the results. */
module AgentPipeline {
  type Id = string

  /** The status phase. A new object has no phase yet: the `pending` of the submitted body is a
      status, and the status subresource drops it on creation. */
  datatype Phase = Unrouted | Routed | Completed | Failed

  datatype Result = Result(id: Id, failed: bool)

  /** A submission in progress: the object exists, or the message has been handed to the
      producer as well. */
  datatype Stage = Created(lane: nat) | Produced

  /** One task partition and its worker. `answered`: the task at the committed offset has been
      answered but not committed. The others are history: the results that reached a result
      partition, restarts, the offsets some answer to which reached one, and those some answer to
      which the producer dropped without an error. */
  datatype Lane = Lane(
    log: seq<Id>, committed: nat, answered: bool, sent: nat, crashes: nat, reached: set<nat>, lost: set<nat>)

  /** One result partition and its consumer. */
  datatype Inbox = Inbox(log: seq<Result>, committed: nat, applied: bool)

  /** `outbox`: messages the supervisor's producer still holds, with the partition they go to;
      `dropped`: those it gave up on, as history. */
  datatype State = State(
    tasks: map<Id, Phase>,
    created: set<Id>,
    submits: map<Id, Stage>,
    outbox: map<Id, nat>,
    dropped: set<Id>,
    lanes: seq<Lane>,
    inboxes: seq<Inbox>)

  datatype Step =
    | Create(id: Id, lane: nat)
    | Produce(id: Id)
    | Deliver(id: Id)
    | Drop(id: Id)
    | Route(id: Id)
    | Abandon(id: Id)
    | Answer(lane: nat, inbox: nat, failed: bool)
    | AnswerLost(lane: nat)
    | CommitTask(lane: nat)
    | CrashWorker(lane: nat)
    | Apply(inbox: nat)
    | CommitResult(inbox: nat)
    | CrashConsumer(inbox: nat)
    | Delete(id: Id)

  predicate Terminal(phase: Phase) {
    phase == Completed || phase == Failed
  }

  function PhaseOf(r: Result): Phase {
    if r.failed then Failed else Completed
  }

  /** A task id is a fresh UUID. The routed mark waits for the producer's queue to empty, which a
      dropped message leaves as well. */
  predicate Enabled(s: State, step: Step) {
    match step
    case Create(id, lane) => id !in s.created && lane < |s.lanes|
    case Produce(id) => id in s.submits && s.submits[id].Created?
    case Deliver(id) => id in s.outbox && s.outbox[id] < |s.lanes|
    case Drop(id) => id in s.outbox
    case Route(id) => id in s.submits && s.submits[id].Produced? && id !in s.outbox
    case Abandon(id) => id in s.submits
    case Answer(lane, inbox, _) =>
      lane < |s.lanes| && inbox < |s.inboxes| && !s.lanes[lane].answered
        && s.lanes[lane].committed < |s.lanes[lane].log|
    case AnswerLost(lane) =>
      lane < |s.lanes| && !s.lanes[lane].answered && s.lanes[lane].committed < |s.lanes[lane].log|
    case CommitTask(lane) => lane < |s.lanes| && s.lanes[lane].answered
    case CrashWorker(lane) => lane < |s.lanes|
    case Apply(inbox) =>
      inbox < |s.inboxes| && !s.inboxes[inbox].applied && s.inboxes[inbox].committed < |s.inboxes[inbox].log|
    case CommitResult(inbox) => inbox < |s.inboxes| && s.inboxes[inbox].applied
    case CrashConsumer(inbox) => inbox < |s.inboxes|
    case Delete(id) => id in s.tasks
  }

  /** A status patch; the API answers 404 for an object that is gone, and nothing changes. */
  function Marked(tasks: map<Id, Phase>, id: Id, phase: Phase): map<Id, Phase> {
    if id in tasks then tasks[id := phase] else tasks
  }

  function Next(s: State, step: Step): State
    requires Enabled(s, step)
  {
    match step
    case Create(id, lane) =>
      s.(tasks := s.tasks[id := Unrouted], created := s.created + {id}, submits := s.submits[id := Created(lane)])
    case Produce(id) =>
      s.(submits := s.submits[id := Produced], outbox := s.outbox[id := s.submits[id].lane])
    case Deliver(id) =>
      var k := s.outbox[id];
      s.(outbox := s.outbox - {id}, lanes := s.lanes[k := s.lanes[k].(log := s.lanes[k].log + [id])])
    case Drop(id) => s.(outbox := s.outbox - {id}, dropped := s.dropped + {id})
    case Route(id) => s.(tasks := Marked(s.tasks, id, Routed), submits := s.submits - {id})
    case Abandon(id) => s.(submits := s.submits - {id})
    case Answer(k, p, failed) =>
      var lane, inbox := s.lanes[k], s.inboxes[p];
      s.(lanes := s.lanes[k := lane.(answered := true, sent := lane.sent + 1,
                                     reached := lane.reached + {lane.committed})],
         inboxes := s.inboxes[p := inbox.(log := inbox.log + [Result(lane.log[lane.committed], failed)])])
    case AnswerLost(k) =>
      var lane := s.lanes[k];
      s.(lanes := s.lanes[k := lane.(answered := true, lost := lane.lost + {lane.committed})])
    case CommitTask(k) =>
      var lane := s.lanes[k];
      s.(lanes := s.lanes[k := lane.(committed := lane.committed + 1, answered := false)])
    case CrashWorker(k) =>
      var lane := s.lanes[k];
      s.(lanes := s.lanes[k := lane.(answered := false, crashes := lane.crashes + 1)])
    case Apply(p) =>
      var inbox := s.inboxes[p];
      var r := inbox.log[inbox.committed];
      s.(tasks := Marked(s.tasks, r.id, PhaseOf(r)), inboxes := s.inboxes[p := inbox.(applied := true)])
    case CommitResult(p) =>
      var inbox := s.inboxes[p];
      s.(inboxes := s.inboxes[p := inbox.(committed := inbox.committed + 1, applied := false)])
    case CrashConsumer(p) => s.(inboxes := s.inboxes[p := s.inboxes[p].(applied := false)])
    case Delete(id) => s.(tasks := s.tasks - {id})
  }

  predicate Runs(s: State, steps: seq<Step>)
    decreases |steps|
  {
    steps != [] ==> Enabled(s, steps[0]) && Runs(Next(s, steps[0]), steps[1..])
  }

  function After(s: State, steps: seq<Step>): State
    requires Runs(s, steps)
    decreases |steps|
  {
    if steps == [] then s else After(Next(s, steps[0]), steps[1..])
  }

  predicate Initial(s: State) {
    && s.tasks == map[] && s.created == {} && s.submits == map[] && s.outbox == map[] && s.dropped == {}
    && |s.inboxes| > 0
    && (forall k | 0 <= k < |s.lanes| :: s.lanes[k] == Lane([], 0, false, 0, 0, {}, {}))
    && (forall p | 0 <= p < |s.inboxes| :: s.inboxes[p] == Inbox([], 0, false))
  }

  // ---------------------------------------------------------------- the invariant

  predicate Replied(inboxes: seq<Inbox>, id: Id) {
    exists p, j | 0 <= p < |inboxes| && 0 <= j < |inboxes[p].log| :: inboxes[p].log[j].id == id
  }

  /** What is done with a lane up to here: the committed tasks, and the answered one. */
  function Answers(lane: Lane): nat {
    lane.committed + (if lane.answered then 1 else 0)
  }

  predicate LaneInv(lane: Lane, created: set<Id>, inboxes: seq<Inbox>) {
    && Answers(lane) <= |lane.log|
    && lane.sent <= Answers(lane) + lane.crashes
    && (forall k | 0 <= k < |lane.log| :: lane.log[k] in created)
    && (forall k | 0 <= k < Answers(lane) :: k in lane.lost || Replied(inboxes, lane.log[k]))
  }

  function Seen(inbox: Inbox): nat {
    inbox.committed + (if inbox.applied then 1 else 0)
  }

  predicate InboxInv(inbox: Inbox, created: set<Id>) {
    && Seen(inbox) <= |inbox.log|
    && (forall j | 0 <= j < |inbox.log| :: inbox.log[j].id in created)
  }

  predicate SubmitInv(tasks: map<Id, Phase>, created: set<Id>, submits: map<Id, Stage>, outbox: map<Id, nat>, n: nat,
                      id: Id) {
    && (id in tasks || id in submits || id in outbox ==> id in created)
    && (id in submits && submits[id].Created? ==> submits[id].lane < n)
    && (id in outbox ==> outbox[id] < n)
    && (id in tasks && tasks[id] == Routed ==> id !in submits)
  }

  ghost predicate SubmitsInv(tasks: map<Id, Phase>, created: set<Id>, submits: map<Id, Stage>, outbox: map<Id, nat>,
                             n: nat) {
    forall id :: SubmitInv(tasks, created, submits, outbox, n, id)
  }

  predicate RepliedWith(inboxes: seq<Inbox>, id: Id, phase: Phase) {
    exists p, j | 0 <= p < |inboxes| && 0 <= j < |inboxes[p].log| ::
      inboxes[p].log[j].id == id && PhaseOf(inboxes[p].log[j]) == phase
  }

  /** A terminal phase is the outcome of a published result. */
  predicate PhasesInv(tasks: map<Id, Phase>, inboxes: seq<Inbox>) {
    forall id | id in tasks && Terminal(tasks[id]) :: RepliedWith(inboxes, id, tasks[id])
  }

  /** A result that has been applied has left its mark. */
  predicate MarksInv(tasks: map<Id, Phase>, inboxes: seq<Inbox>) {
    forall p, j | 0 <= p < |inboxes| && 0 <= j < Seen(inboxes[p]) && j < |inboxes[p].log| ::
      LeftMark(tasks, inboxes[p].log[j].id)
  }

  predicate LeftMark(tasks: map<Id, Phase>, id: Id) {
    id in tasks ==> tasks[id] != Unrouted
  }

  function Sent(lanes: seq<Lane>): nat {
    if lanes == [] then 0 else lanes[0].sent + Sent(lanes[1..])
  }

  function Received(inboxes: seq<Inbox>): nat {
    if inboxes == [] then 0 else |inboxes[0].log| + Received(inboxes[1..])
  }

  ghost predicate Inv(s: State) {
    && |s.inboxes| > 0
    && (forall k | 0 <= k < |s.lanes| :: LaneInv(s.lanes[k], s.created, s.inboxes))
    && (forall p | 0 <= p < |s.inboxes| :: InboxInv(s.inboxes[p], s.created))
    && SubmitsInv(s.tasks, s.created, s.submits, s.outbox, |s.lanes|)
    && PhasesInv(s.tasks, s.inboxes)
    && MarksInv(s.tasks, s.inboxes)
    && Received(s.inboxes) == Sent(s.lanes)
  }

  lemma {:induction false} SentUpdate(lanes: seq<Lane>, k: nat, lane: Lane)
    requires k < |lanes|
    ensures Sent(lanes[k := lane]) == Sent(lanes) - lanes[k].sent + lane.sent
  {
    if k == 0 {
      assert lanes[k := lane][1..] == lanes[1..];
    } else {
      assert lanes[k := lane][1..] == lanes[1..][k - 1 := lane];
      SentUpdate(lanes[1..], k - 1, lane);
    }
  }

  lemma {:induction false} ReceivedUpdate(inboxes: seq<Inbox>, p: nat, inbox: Inbox)
    requires p < |inboxes|
    ensures Received(inboxes[p := inbox]) == Received(inboxes) - |inboxes[p].log| + |inbox.log|
  {
    if p == 0 {
      assert inboxes[p := inbox][1..] == inboxes[1..];
    } else {
      assert inboxes[p := inbox][1..] == inboxes[1..][p - 1 := inbox];
      ReceivedUpdate(inboxes[1..], p - 1, inbox);
    }
  }

  lemma {:induction false} NothingCounted(lanes: seq<Lane>, inboxes: seq<Inbox>)
    requires forall k | 0 <= k < |lanes| :: lanes[k].sent == 0
    requires forall p | 0 <= p < |inboxes| :: inboxes[p].log == []
    ensures Sent(lanes) == Received(inboxes) == 0
    decreases |lanes| + |inboxes|
  {
    if lanes != [] {
      NothingCounted(lanes[1..], inboxes);
    } else if inboxes != [] {
      NothingCounted(lanes, inboxes[1..]);
    }
  }

  /** The result partitions only grow. */
  predicate Grown(a: seq<Inbox>, b: seq<Inbox>) {
    |a| == |b| && forall p | 0 <= p < |a| :: a[p].log <= b[p].log
  }

  lemma LanesKeep(lanes: seq<Lane>, a: set<Id>, b: set<Id>, before: seq<Inbox>, after: seq<Inbox>)
    requires forall k | 0 <= k < |lanes| :: LaneInv(lanes[k], a, before)
    requires a <= b && Grown(before, after)
    ensures forall k | 0 <= k < |lanes| :: LaneInv(lanes[k], b, after)
  {
  }

  lemma PhasesKeep(tasks: map<Id, Phase>, before: seq<Inbox>, after: seq<Inbox>)
    requires PhasesInv(tasks, before) && Grown(before, after)
    ensures PhasesInv(tasks, after)
  {
  }

  lemma AnswerKeeps(s: State, k: nat, p: nat, failed: bool)
    requires Inv(s) && Enabled(s, Answer(k, p, failed))
    ensures Inv(Next(s, Answer(k, p, failed)))
  {
    var t := Next(s, Answer(k, p, failed));
    var lane := s.lanes[k];
    assert LaneInv(lane, s.created, s.inboxes);
    var r := Result(lane.log[lane.committed], failed);
    assert Grown(s.inboxes, t.inboxes);
    LanesKeep(s.lanes, s.created, t.created, s.inboxes, t.inboxes);
    assert LaneInv(t.lanes[k], t.created, t.inboxes) by {
      assert t.inboxes[p].log[|s.inboxes[p].log|] == r;
    }
    assert InboxInv(t.inboxes[p], t.created) by {
      assert InboxInv(s.inboxes[p], s.created);
    }
    PhasesKeep(s.tasks, s.inboxes, t.inboxes);
    assert MarksInv(t.tasks, t.inboxes) by {
      assert InboxInv(s.inboxes[p], s.created);
    }
    SentUpdate(s.lanes, k, t.lanes[k]);
    ReceivedUpdate(s.inboxes, p, t.inboxes[p]);
  }

  /** A step of one worker that publishes nothing. */
  lemma WorkerKeeps(s: State, step: Step)
    requires Inv(s) && Enabled(s, step)
    requires step.AnswerLost? || step.CommitTask? || step.CrashWorker?
    ensures Inv(Next(s, step))
  {
    var t := Next(s, step);
    assert LaneInv(s.lanes[step.lane], s.created, s.inboxes);
    assert LaneInv(t.lanes[step.lane], t.created, t.inboxes);
    SentUpdate(s.lanes, step.lane, t.lanes[step.lane]);
  }

  lemma DeliverKeeps(s: State, id: Id)
    requires Inv(s) && Enabled(s, Deliver(id))
    ensures Inv(Next(s, Deliver(id)))
  {
    var t, k := Next(s, Deliver(id)), s.outbox[id];
    assert LaneInv(t.lanes[k], t.created, t.inboxes) by {
      assert LaneInv(s.lanes[k], s.created, s.inboxes);
      assert SubmitInv(s.tasks, s.created, s.submits, s.outbox, |s.lanes|, id);
    }
    SentUpdate(s.lanes, k, t.lanes[k]);
    SubmitsKeep(s, Deliver(id));
  }

  lemma SubmitsKeep(s: State, step: Step)
    requires Inv(s) && Enabled(s, step)
    ensures var t := Next(s, step); SubmitsInv(t.tasks, t.created, t.submits, t.outbox, |t.lanes|)
  {
    var t := Next(s, step);
    forall id
      ensures SubmitInv(t.tasks, t.created, t.submits, t.outbox, |t.lanes|, id)
    {
      assert SubmitInv(s.tasks, s.created, s.submits, s.outbox, |s.lanes|, id);
    }
  }

  lemma ConsumerKeeps(s: State, step: Step)
    requires Inv(s) && Enabled(s, step)
    requires step.Apply? || step.CommitResult? || step.CrashConsumer?
    ensures Inv(Next(s, step))
  {
    var t, p := Next(s, step), step.inbox;
    assert InboxInv(s.inboxes[p], s.created);
    assert Grown(s.inboxes, t.inboxes);
    LanesKeep(s.lanes, s.created, t.created, s.inboxes, t.inboxes);
    assert InboxInv(t.inboxes[p], t.created);
    ReceivedUpdate(s.inboxes, p, t.inboxes[p]);
    SubmitsKeep(s, step);
    MarkKeeps(s, step);
  }

  lemma MarkKeeps(s: State, step: Step)
    requires Inv(s) && Enabled(s, step)
    requires step.Apply? || step.CommitResult? || step.CrashConsumer?
    ensures var t := Next(s, step); PhasesInv(t.tasks, t.inboxes) && MarksInv(t.tasks, t.inboxes)
  {
    var t, p := Next(s, step), step.inbox;
    assert InboxInv(s.inboxes[p], s.created);
    PhasesKeep(s.tasks, s.inboxes, t.inboxes);
    if step.Apply? {
      var r := t.inboxes[p].log[s.inboxes[p].committed];
      assert RepliedWith(t.inboxes, r.id, PhaseOf(r));
    }
    forall i, j | 0 <= i < |t.inboxes| && 0 <= j < Seen(t.inboxes[i]) && j < |t.inboxes[i].log|
      ensures LeftMark(t.tasks, t.inboxes[i].log[j].id)
    {
      if !(step.Apply? && i == p && j == s.inboxes[p].committed) {
        assert LeftMark(s.tasks, s.inboxes[i].log[j].id);
      }
    }
  }

  lemma SubmissionKeeps(s: State, step: Step)
    requires Inv(s) && Enabled(s, step)
    requires step.Create? || step.Produce? || step.Drop? || step.Route? || step.Abandon? || step.Delete?
    ensures Inv(Next(s, step))
  {
    var t := Next(s, step);
    LanesKeep(s.lanes, s.created, t.created, s.inboxes, t.inboxes);
    forall p | 0 <= p < |t.inboxes|
      ensures InboxInv(t.inboxes[p], t.created)
    {
      assert InboxInv(s.inboxes[p], s.created);
    }
    SubmitsKeep(s, step);
    forall i, j | 0 <= i < |t.inboxes| && 0 <= j < Seen(t.inboxes[i]) && j < |t.inboxes[i].log|
      ensures LeftMark(t.tasks, t.inboxes[i].log[j].id)
    {
      assert InboxInv(s.inboxes[i], s.created);
      assert LeftMark(s.tasks, s.inboxes[i].log[j].id);
    }
  }

  lemma StepKeeps(s: State, step: Step)
    requires Inv(s) && Enabled(s, step)
    ensures Inv(Next(s, step))
  {
    match step
    case Answer(lane, inbox, failed) => AnswerKeeps(s, lane, inbox, failed);
    case AnswerLost(_) => WorkerKeeps(s, step);
    case CommitTask(_) => WorkerKeeps(s, step);
    case CrashWorker(_) => WorkerKeeps(s, step);
    case Deliver(id) => DeliverKeeps(s, id);
    case Apply(_) => ConsumerKeeps(s, step);
    case CommitResult(_) => ConsumerKeeps(s, step);
    case CrashConsumer(_) => ConsumerKeeps(s, step);
    case _ => SubmissionKeeps(s, step);
  }

  lemma {:induction false} RunKeeps(s: State, steps: seq<Step>)
    requires Inv(s) && Runs(s, steps)
    ensures Inv(After(s, steps))
    decreases |steps|
  {
    if steps != [] {
      StepKeeps(s, steps[0]);
      RunKeeps(Next(s, steps[0]), steps[1..]);
    }
  }

  lemma InitialKeeps(s: State)
    requires Initial(s)
    ensures Inv(s)
  {
    NothingCounted(s.lanes, s.inboxes);
  }

  // ---------------------------------------------------------------- accounting over every run

  /** The results every partition may hold. */
  function Allowed(lanes: seq<Lane>): nat {
    if lanes == [] then 0 else Answers(lanes[0]) + lanes[0].crashes + Allowed(lanes[1..])
  }

  lemma {:induction false} SentWithinAllowed(lanes: seq<Lane>)
    requires forall k | 0 <= k < |lanes| :: lanes[k].sent <= Answers(lanes[k]) + lanes[k].crashes
    ensures Sent(lanes) <= Allowed(lanes)
  {
    if lanes != [] {
      SentWithinAllowed(lanes[1..]);
    }
  }

  /** Every committed task has a result, unless an answer to it was dropped without an error. */
  predicate CommittedAnswered(lane: Lane, inboxes: seq<Inbox>) {
    lane.committed <= |lane.log| &&
    forall n | 0 <= n < lane.committed :: n in lane.lost || Replied(inboxes, lane.log[n])
  }

  /** For every run: a result names a task that was created; committed tasks are answered; there
      are at most as many results as committed tasks, restarts, and one more for a worker that has
      answered but not committed; and a terminal phase is the outcome of a published result. */
  lemma ResultsAccountForTasks(s: State, steps: seq<Step>)
    requires Initial(s) && Runs(s, steps)
    ensures var t := After(s, steps);
      && (forall p, j | 0 <= p < |t.inboxes| && 0 <= j < |t.inboxes[p].log| :: t.inboxes[p].log[j].id in t.created)
      && (forall k | 0 <= k < |t.lanes| :: CommittedAnswered(t.lanes[k], t.inboxes))
      && Received(t.inboxes) <= Allowed(t.lanes)
      && (forall id | id in t.tasks && Terminal(t.tasks[id]) :: RepliedWith(t.inboxes, id, t.tasks[id]))
  {
    var t := After(s, steps);
    InitialKeeps(s);
    RunKeeps(s, steps);
    SentWithinAllowed(t.lanes);
    forall p, j | 0 <= p < |t.inboxes| && 0 <= j < |t.inboxes[p].log|
      ensures t.inboxes[p].log[j].id in t.created
    {
      assert InboxInv(t.inboxes[p], t.created);
    }
    forall k | 0 <= k < |t.lanes|
      ensures CommittedAnswered(t.lanes[k], t.inboxes)
    {
      assert LaneInv(t.lanes[k], t.created, t.inboxes);
    }
  }
}
