/** Durable command delivery as a crash-restart step machine: partitions of an ordered command
    log, one active consumer each, the objects they patch, and the event and dead-letter records. */
module Delivery {
  import opened JsonMerge
  import opened Commands

  /** What the decoder makes of a message value: text that is no JSON, or a JSON value. */
  datatype Message = Undecodable | Decoded(payload: Json)

  function VerdictOf(m: Message): Verdict {
    if m.Undecodable? then Malformed else Validate(m.payload)
  }

  /** The three ends of validation over messages. Only a value that is valid JSON and no object
      goes uncaught; what does not decode, and an object that is no envelope, is dead-lettered. */
  lemma VerdictIff(m: Message)
    ensures VerdictOf(m).Unsupported? <==> m.Decoded? && !m.payload.Obj?
    ensures VerdictOf(m).Malformed? <==>
      m.Undecodable? || (m.payload.Obj? && forall o :: Validate(m.payload) != Accepted(o))
  {
    if m.Decoded? && Validate(m.payload).Accepted? {
      assert Validate(m.payload) == Accepted(Validate(m.payload).order);
    }
  }

  /** A message that makes every worker stop before it can commit: valid JSON that is no object,
      or a validated command whose verb has no patch for its kind. */
  predicate Poison(v: Verdict) {
    match v
    case Accepted(order) => !Handled(order.command)
    case Malformed => false
    case Unsupported => true
  }

  /** `Applied` goes to the event topic, the other two to the dead-letter topic. */
  datatype Outcome = Applied | Rejected | Invalid

  datatype Record = Record(offset: nat, outcome: Outcome)

  /** Where the consumer of a partition stands with the message at the committed offset. */
  datatype Stage = Idle | Trying(attempt: nat, failed: bool) | Publishing(outcome: Outcome) | Committing

  /** The log holds each message as the validator sees it: validation is a function of the value.
      `effects` is a history variable: the offsets whose patch has taken effect, each with the
      time stamp of its latest patch. */
  datatype Partition = Partition(
    log: seq<Verdict>,
    committed: nat,
    stage: Stage,
    effects: map<nat, string>,
    records: seq<Record>,
    crashes: nat)

  datatype System = System(parts: seq<Partition>, objects: map<Resource, Json>)

  /** The number of partitions, the broker's partitioner, and the configured attempts. */
  datatype Config = Config(partitions: nat, route: string -> nat, attemptsSetting: int)

  predicate ValidConfig(cfg: Config) {
    cfg.partitions > 0
  }

  function MaxAttempts(cfg: Config): nat {
    if cfg.attemptsSetting < 1 then 1 else cfg.attemptsSetting
  }

  function Home(cfg: Config, r: Resource): nat
    requires ValidConfig(cfg)
    ensures Home(cfg, r) < cfg.partitions
  {
    cfg.route(WorkloadKey(r)) % cfg.partitions
  }

  /** One patch call: it returns, it raises an API error, or it ends the process. The last two
      can happen after the patch took effect. */
  datatype Reply = Done | ApiError(status: int, tookEffect: bool) | Died(tookEffect: bool)

  /** A publication or a commit; a failure ends the process and may come after the effect. */
  datatype Ack = Acked | Failed(tookEffect: bool)

  datatype Step =
    | Append(key: string, verdict: Verdict)
    | Poll(i: nat)
    | Patch(i: nat, reply: Reply, now: string)
    | Publish(i: nat, ack: Ack)
    | Commit(i: nat, ack: Ack)
    | Crash(i: nat)

  predicate TookEffect(reply: Reply) {
    reply.Done? || reply.tookEffect
  }

  /** The statuses that are not retried. */
  predicate Terminal(status: int) {
    status == 400 || status == 403 || status == 404 || status == 422
  }

  function Head(part: Partition): Verdict
    requires part.committed < |part.log|
  {
    part.log[part.committed]
  }

  /** The patch calls that can be answered: a missing object is never patched, and a pair
      without a patch raises before any call. */
  predicate Answers(s: System, order: Order, reply: Reply) {
    && (!Handled(order.command) ==> reply == Died(false))
    && (Target(order.command) !in s.objects ==> !TookEffect(reply))
  }

  predicate Enabled(cfg: Config, s: System, step: Step)
    requires ValidConfig(cfg)
  {
    match step
    case Append(key, verdict) =>
      // Producers key a command by its workload.
      |s.parts| == cfg.partitions &&
      (verdict.Accepted? ==> key == WorkloadKey(Target(verdict.order.command)))
    case Poll(i) =>
      i < |s.parts| && s.parts[i].stage.Idle? && s.parts[i].committed < |s.parts[i].log|
    case Patch(i, reply, now) =>
      i < |s.parts| && s.parts[i].stage.Trying? && s.parts[i].committed < |s.parts[i].log|
      && Head(s.parts[i]).Accepted? && Answers(s, Head(s.parts[i]).order, reply)
    case Publish(i, ack) =>
      i < |s.parts| && s.parts[i].stage.Publishing?
    case Commit(i, ack) =>
      i < |s.parts| && s.parts[i].stage.Committing?
    case Crash(i) =>
      i < |s.parts|
  }

  function Restarted(part: Partition): Partition {
    part.(stage := Idle, crashes := part.crashes + 1)
  }

  function Polled(part: Partition): Partition
    requires part.committed < |part.log|
  {
    match Head(part)
    case Accepted(_) => part.(stage := Trying(1, false))
    case Malformed => part.(stage := Publishing(Invalid))
    case Unsupported => Restarted(part)
  }

  /** The consumer after one patch call. A success does not clear an earlier error, so a
      command that succeeds on a retry is dead-lettered all the same. */
  function Answered(cfg: Config, part: Partition, reply: Reply): Partition
    requires part.stage.Trying?
  {
    match reply
    case Done => part.(stage := Publishing(if part.stage.failed then Rejected else Applied))
    case Died(_) => Restarted(part)
    case ApiError(status, _) =>
      if Terminal(status) || part.stage.attempt >= MaxAttempts(cfg) then part.(stage := Publishing(Rejected))
      else part.(stage := Trying(part.stage.attempt + 1, true))
  }

  function Published(part: Partition, ack: Ack): Partition
    requires part.stage.Publishing?
  {
    var kept := part.(records := part.records + [Record(part.committed, part.stage.outcome)]);
    match ack
    case Acked => kept.(stage := Committing)
    case Failed(tookEffect) => Restarted(if tookEffect then kept else part)
  }

  function Advanced(part: Partition, ack: Ack): Partition {
    var next := part.(committed := part.committed + 1, stage := Idle);
    match ack
    case Acked => next
    case Failed(tookEffect) => Restarted(if tookEffect then next else part)
  }

  function Next(cfg: Config, s: System, step: Step): System
    requires ValidConfig(cfg) && Enabled(cfg, s, step)
  {
    match step
    case Append(key, verdict) =>
      var i := cfg.route(key) % cfg.partitions;
      s.(parts := s.parts[i := s.parts[i].(log := s.parts[i].log + [verdict])])
    case Poll(i) => s.(parts := s.parts[i := Polled(s.parts[i])])
    case Patch(i, reply, now) =>
      var part, order := s.parts[i], Head(s.parts[i]).order;
      if TookEffect(reply) then
        System(s.parts[i := Answered(cfg, part.(effects := part.effects[part.committed := now]), reply)],
               s.objects[Target(order.command) := MergePatch(s.objects[Target(order.command)], PatchBody(order, now))])
      else s.(parts := s.parts[i := Answered(cfg, part, reply)])
    case Publish(i, ack) => s.(parts := s.parts[i := Published(s.parts[i], ack)])
    case Commit(i, ack) => s.(parts := s.parts[i := Advanced(s.parts[i], ack)])
    case Crash(i) => s.(parts := s.parts[i := Restarted(s.parts[i])])
  }

  /** The whole list of steps can be taken from `s`, one after the other. */
  predicate Runs(cfg: Config, s: System, steps: seq<Step>)
    requires ValidConfig(cfg)
    decreases |steps|
  {
    steps != [] ==> Enabled(cfg, s, steps[0]) && Runs(cfg, Next(cfg, s, steps[0]), steps[1..])
  }

  function After(cfg: Config, s: System, steps: seq<Step>): System
    requires ValidConfig(cfg) && Runs(cfg, s, steps)
    decreases |steps|
  {
    if steps == [] then s else After(cfg, Next(cfg, s, steps[0]), steps[1..])
  }

  /** Empty logs over any set of objects. */
  predicate Initial(cfg: Config, s: System) {
    && |s.parts| == cfg.partitions
    && forall i | 0 <= i < |s.parts| :: s.parts[i] == Partition([], 0, Idle, map[], [], 0)
  }

  lemma {:induction false} RunsConcat(cfg: Config, s: System, a: seq<Step>, b: seq<Step>)
    requires ValidConfig(cfg) && Runs(cfg, s, a) && Runs(cfg, After(cfg, s, a), b)
    ensures Runs(cfg, s, a + b) && After(cfg, s, a + b) == After(cfg, After(cfg, s, a), b)
    decreases |a|
  {
    if a == [] {
      assert a + b == b;
    } else {
      assert (a + b)[1..] == a[1..] + b;
      RunsConcat(cfg, Next(cfg, s, a[0]), a[1..], b);
    }
  }

  // ---------------------------------------------------------------- the reference

  /** The orders about `r` among the first `n` messages whose patch took effect, in log order and
      each offset once. */
  function Taken(part: Partition, r: Resource, n: nat): seq<Order>
    requires n <= |part.log|
  {
    if n == 0 then []
    else
      var rest := Taken(part, r, n - 1);
      if n - 1 in part.effects && part.log[n - 1].Accepted?
         && Target(part.log[n - 1].order.command) == r
      then rest + [part.log[n - 1].order] else rest
  }

  predicate Counts(part: Partition, r: Resource, k: nat)
    requires k < |part.log|
  {
    && k in part.effects && part.log[k].Accepted?
    && Handled(part.log[k].order.command) && Target(part.log[k].order.command) == r
  }

  /** The object an in-order replay of the first `n` messages gives: every message that took
      effect is applied once, at the time of its latest patch. */
  function Replayed(start: Json, part: Partition, r: Resource, n: nat): Json
    requires n <= |part.log|
  {
    if n == 0 then start
    else if Counts(part, r, n - 1)
    then MergePatch(Replayed(start, part, r, n - 1), PatchBody(part.log[n - 1].order, part.effects[n - 1]))
    else Replayed(start, part, r, n - 1)
  }

  lemma {:induction false} ReplayedSame(start: Json, p: Partition, q: Partition, r: Resource, n: nat)
    requires n <= |p.log| && n <= |q.log| && p.log[..n] == q.log[..n]
    requires forall k | 0 <= k < n ::
             (k in p.effects <==> k in q.effects) && (k in p.effects ==> p.effects[k] == q.effects[k])
    ensures Replayed(start, p, r, n) == Replayed(start, q, r, n)
  {
    if n > 0 {
      assert p.log[n - 1] == p.log[..n][n - 1] == q.log[n - 1];
      assert p.log[..n - 1] == p.log[..n][..n - 1] == q.log[..n - 1];
      ReplayedSame(start, p, q, r, n - 1);
    }
  }

  /** Messages without an effect do not matter. */
  lemma {:induction false} ReplayedTail(start: Json, p: Partition, r: Resource, m: nat, n: nat)
    requires m <= n <= |p.log| && forall k | m <= k < n :: !Counts(p, r, k)
    ensures Replayed(start, p, r, n) == Replayed(start, p, r, m)
    decreases n
  {
    if m < n {
      ReplayedTail(start, p, r, m, n - 1);
    }
  }

  // ---------------------------------------------------------------- the invariant

  /** What one partition keeps, whatever the others do. */
  predicate PartInv(cfg: Config, part: Partition) {
    && part.committed <= |part.log|
    && (!part.stage.Idle? ==> part.committed < |part.log|)
    && (forall k | k in part.effects :: k <= part.committed && k < |part.log|
          && part.log[k].Accepted? && Handled(part.log[k].order.command))
    && (part.stage.Trying? ==>
          && Head(part).Accepted?
          && 1 <= part.stage.attempt <= MaxAttempts(cfg) && (part.stage.failed <==> part.stage.attempt > 1))
    && (part.stage.Publishing? ==> !Poison(Head(part)))
    && (part.stage == Publishing(Applied) ==> part.committed in part.effects)
    && (part.stage.Publishing? ==> (part.stage.outcome.Invalid? <==> Head(part).Malformed?))
    && (part.stage.Committing? ==> !Poison(Head(part)) && Recorded(part, part.committed))
    && (forall k | 0 <= k < part.committed :: !Poison(part.log[k]) && Recorded(part, k))
    && (forall j | 0 <= j < |part.records| :: RecordInv(part, part.records[j]))
    && |part.records| <= part.committed + part.crashes + (if part.stage.Committing? then 1 else 0)
  }

  predicate Recorded(part: Partition, k: nat) {
    exists j | 0 <= j < |part.records| :: part.records[j].offset == k
  }

  predicate RecordInv(part: Partition, rec: Record) {
    && rec.offset <= part.committed && rec.offset < |part.log|
    && (rec.outcome.Applied? ==> rec.offset in part.effects)
    && (rec.outcome.Invalid? <==> part.log[rec.offset].Malformed?)
  }

  /** Each order sits in the home partition of its workload. */
  predicate Routed(cfg: Config, s: System)
    requires ValidConfig(cfg)
  {
    forall i, k | 0 <= i < |s.parts| && 0 <= k < |s.parts[i].log| && s.parts[i].log[k].Accepted? ::
      Home(cfg, Target(s.parts[i].log[k].order.command)) == i
  }

  predicate ObjectsInv(cfg: Config, start: map<Resource, Json>, s: System)
    requires ValidConfig(cfg) && |s.parts| == cfg.partitions
  {
    && s.objects.Keys == start.Keys
    && forall r | r in start ::
         s.objects[r] == Replayed(start[r], s.parts[Home(cfg, r)], r, |s.parts[Home(cfg, r)].log|)
  }

  predicate Inv(cfg: Config, start: map<Resource, Json>, s: System)
    requires ValidConfig(cfg)
  {
    && |s.parts| == cfg.partitions
    && (forall i | 0 <= i < |s.parts| :: PartInv(cfg, s.parts[i]))
    && Routed(cfg, s)
    && ObjectsInv(cfg, start, s)
  }

  lemma RecordsGrow(part: Partition, rec: Record)
    ensures forall k | Recorded(part, k) :: Recorded(part.(records := part.records + [rec]), k)
    ensures Recorded(part.(records := part.records + [rec]), rec.offset)
  {
    var grown := part.(records := part.records + [rec]);
    assert grown.records[|part.records|] == rec;
    forall k | Recorded(part, k) ensures Recorded(grown, k) {
      var j :| 0 <= j < |part.records| && part.records[j].offset == k;
      assert grown.records[j].offset == k;
    }
  }

  lemma RecordedSame(p: Partition, q: Partition)
    requires p.records == q.records
    ensures forall k: nat :: Recorded(p, k) <==> Recorded(q, k)
  {
  }

  lemma PublishedKeeps(cfg: Config, part: Partition, ack: Ack)
    requires PartInv(cfg, part) && part.stage.Publishing?
    ensures PartInv(cfg, Published(part, ack))
  {
    var rec := Record(part.committed, part.stage.outcome);
    var kept := part.(records := part.records + [rec]);
    RecordsGrow(part, rec);
    assert RecordInv(kept, rec);
    forall j | 0 <= j < |kept.records| ensures RecordInv(kept, kept.records[j]) {
      assert j < |part.records| ==> RecordInv(part, part.records[j]);
    }
    var q := Published(part, ack);
    if ack == Failed(false) {
      RestartedKeeps(cfg, part);
    } else {
      RecordedSame(kept, q);
      forall j | 0 <= j < |q.records| ensures RecordInv(q, q.records[j]) {
        assert RecordInv(kept, kept.records[j]);
      }
    }
  }

  lemma AdvancedKeeps(cfg: Config, part: Partition, ack: Ack)
    requires PartInv(cfg, part) && part.stage.Committing?
    ensures PartInv(cfg, Advanced(part, ack))
  {
  }

  lemma AnsweredKeeps(cfg: Config, part: Partition, effects: map<nat, string>, reply: Reply)
    requires PartInv(cfg, part) && part.stage.Trying?
    requires effects.Keys == part.effects.Keys + (if TookEffect(reply) then {part.committed} else {})
    requires !Handled(Head(part).order.command) ==> reply == Died(false)
    ensures PartInv(cfg, Answered(cfg, part.(effects := effects), reply))
  {
  }

  lemma GrownKeeps(cfg: Config, part: Partition, verdict: Verdict)
    requires PartInv(cfg, part)
    ensures PartInv(cfg, part.(log := part.log + [verdict]))
  {
  }

  lemma RestartedKeeps(cfg: Config, part: Partition)
    requires PartInv(cfg, part)
    ensures PartInv(cfg, Restarted(part))
    ensures part.committed < |part.log| && part.stage.Idle? ==> PartInv(cfg, Polled(part))
  {
  }

  predicate PatchedTo(p: Partition, q: Partition, order: Order, now: string) {
    && p.committed < |p.log| && Head(p) == Accepted(order) && Handled(order.command)
    && q == p.(effects := p.effects[p.committed := now], stage := q.stage, crashes := q.crashes)
  }

  /** The replay of a partition none of whose effects is past offset `c`. */
  lemma ReplayedUpTo(start: Json, p: Partition, r: Resource, c: nat)
    requires c < |p.log| && forall k | k in p.effects :: k <= c
    ensures Counts(p, r, c) ==>
              Replayed(start, p, r, |p.log|)
              == MergePatch(Replayed(start, p, r, c), PatchBody(p.log[c].order, p.effects[c]))
    ensures !Counts(p, r, c) ==> Replayed(start, p, r, |p.log|) == Replayed(start, p, r, c)
  {
    ReplayedTail(start, p, r, c + 1, |p.log|);
  }

  /** A patch of the order at the committed offset turns the in-order replay before it into the
      in-order replay after it, also when the same order had been patched before. */
  lemma EffectReplays(start: Json, p: Partition, q: Partition, order: Order, now: string)
    requires PatchedTo(p, q, order, now)
    requires forall k | k in p.effects :: k <= p.committed
    ensures MergePatch(Replayed(start, p, Target(order.command), |p.log|), PatchBody(order, now))
            == Replayed(start, q, Target(order.command), |q.log|)
  {
    var c, r := p.committed, Target(order.command);
    var before := Replayed(start, p, r, c);
    ReplayedSame(start, p, q, r, c);
    ReplayedUpTo(start, q, r, c);
    ReplayedUpTo(start, p, r, c);
    if c in p.effects {
      PatchAbsorbsRedelivery(before, order, p.effects[c], now);
    }
  }

  /** Swapping one partition for another with the same effects, whose log may have grown. */
  lemma SwapKeeps(cfg: Config, start: map<Resource, Json>, s: System, i: nat, q: Partition)
    requires ValidConfig(cfg) && Inv(cfg, start, s) && i < |s.parts| && PartInv(cfg, q)
    requires q.effects == s.parts[i].effects && s.parts[i].log <= q.log
    requires forall k | |s.parts[i].log| <= k < |q.log| && q.log[k].Accepted? ::
             Home(cfg, Target(q.log[k].order.command)) == i
    ensures Inv(cfg, start, s.(parts := s.parts[i := q]))
  {
    var t := s.(parts := s.parts[i := q]);
    forall r | r in start
      ensures t.objects[r] == Replayed(start[r], t.parts[Home(cfg, r)], r, |t.parts[Home(cfg, r)].log|)
    {
      if Home(cfg, r) == i {
        var p := s.parts[i];
        ReplayedSame(start[r], p, q, r, |p.log|);
        ReplayedTail(start[r], q, r, |p.log|, |q.log|);
      }
    }
  }

  function WithEffect(s: System, i: nat, q: Partition, order: Order, now: string): System
    requires i < |s.parts| && Handled(order.command) && Target(order.command) in s.objects
  {
    var hit := Target(order.command);
    System(s.parts[i := q], s.objects[hit := MergePatch(s.objects[hit], PatchBody(order, now))])
  }

  lemma EffectObjects(cfg: Config, start: map<Resource, Json>, s: System, i: nat, q: Partition, order: Order,
                      now: string)
    requires ValidConfig(cfg) && Inv(cfg, start, s) && i < |s.parts|
    requires PatchedTo(s.parts[i], q, order, now) && Target(order.command) in s.objects
    ensures ObjectsInv(cfg, start, WithEffect(s, i, q, order, now))
  {
    var p, hit := s.parts[i], Target(order.command);
    var t := WithEffect(s, i, q, order, now);
    assert PartInv(cfg, p) && Home(cfg, hit) == i;
    forall r | r in start
      ensures t.objects[r] == Replayed(start[r], t.parts[Home(cfg, r)], r, |t.parts[Home(cfg, r)].log|)
    {
      if r == hit {
        EffectReplays(start[r], p, q, order, now);
      } else if Home(cfg, r) == i {
        OtherWorkload(start[r], p, q, r, |p.log|);
      }
    }
  }

  lemma RoutedKept(cfg: Config, s: System, t: System)
    requires ValidConfig(cfg) && Routed(cfg, s) && |t.parts| == |s.parts|
    requires forall i | 0 <= i < |s.parts| :: t.parts[i].log == s.parts[i].log
    ensures Routed(cfg, t)
  {
  }

  lemma EffectKeeps(cfg: Config, start: map<Resource, Json>, s: System, i: nat, q: Partition, order: Order, now: string)
    requires ValidConfig(cfg) && Inv(cfg, start, s) && i < |s.parts| && PartInv(cfg, q)
    requires PatchedTo(s.parts[i], q, order, now) && Target(order.command) in s.objects
    ensures Inv(cfg, start, WithEffect(s, i, q, order, now))
  {
    EffectObjects(cfg, start, s, i, q, order, now);
    RoutedKept(cfg, s, WithEffect(s, i, q, order, now));
  }

  lemma PatchKeeps(cfg: Config, start: map<Resource, Json>, s: System, i: nat, reply: Reply, now: string)
    requires ValidConfig(cfg) && Inv(cfg, start, s) && Enabled(cfg, s, Patch(i, reply, now))
    ensures Inv(cfg, start, Next(cfg, s, Patch(i, reply, now)))
  {
    var part := s.parts[i];
    if TookEffect(reply) {
      var effects := part.effects[part.committed := now];
      AnsweredKeeps(cfg, part, effects, reply);
      EffectKeeps(cfg, start, s, i, Answered(cfg, part.(effects := effects), reply), Head(part).order, now);
    } else {
      AnsweredKeeps(cfg, part, part.effects, reply);
      assert part.(effects := part.effects) == part;
      SwapKeeps(cfg, start, s, i, Answered(cfg, part, reply));
    }
  }

  /** A new effect at the committed offset is invisible to the other workloads of the partition. */
  lemma {:induction false} OtherWorkload(start: Json, p: Partition, q: Partition, r: Resource, n: nat)
    requires p.committed < |p.log| == |q.log| && p.log == q.log && n <= |p.log|
    requires Head(p).Accepted? && Target(Head(p).order.command) != r
    requires forall k | 0 <= k < |p.log| && k != p.committed ::
      (k in p.effects <==> k in q.effects) && (k in p.effects ==> p.effects[k] == q.effects[k])
    ensures Replayed(start, p, r, n) == Replayed(start, q, r, n)
  {
    if n > 0 {
      OtherWorkload(start, p, q, r, n - 1);
    }
  }

  lemma AppendKeeps(cfg: Config, start: map<Resource, Json>, s: System, key: string, verdict: Verdict)
    requires ValidConfig(cfg) && Inv(cfg, start, s) && Enabled(cfg, s, Append(key, verdict))
    ensures Inv(cfg, start, Next(cfg, s, Append(key, verdict)))
  {
    var i := cfg.route(key) % cfg.partitions;
    var part := s.parts[i];
    assert PartInv(cfg, part);
    GrownKeeps(cfg, part, verdict);
    SwapKeeps(cfg, start, s, i, part.(log := part.log + [verdict]));
  }

  lemma PollKeeps(cfg: Config, start: map<Resource, Json>, s: System, i: nat)
    requires ValidConfig(cfg) && Inv(cfg, start, s) && Enabled(cfg, s, Poll(i))
    ensures Inv(cfg, start, Next(cfg, s, Poll(i)))
  {
    RestartedKeeps(cfg, s.parts[i]);
    SwapKeeps(cfg, start, s, i, Polled(s.parts[i]));
  }

  lemma PublishKeeps(cfg: Config, start: map<Resource, Json>, s: System, i: nat, ack: Ack)
    requires ValidConfig(cfg) && Inv(cfg, start, s) && Enabled(cfg, s, Publish(i, ack))
    ensures Inv(cfg, start, Next(cfg, s, Publish(i, ack)))
  {
    assert PartInv(cfg, s.parts[i]);
    PublishedKeeps(cfg, s.parts[i], ack);
    SwapKeeps(cfg, start, s, i, Published(s.parts[i], ack));
  }

  lemma CommitKeeps(cfg: Config, start: map<Resource, Json>, s: System, i: nat, ack: Ack)
    requires ValidConfig(cfg) && Inv(cfg, start, s) && Enabled(cfg, s, Commit(i, ack))
    ensures Inv(cfg, start, Next(cfg, s, Commit(i, ack)))
  {
    assert PartInv(cfg, s.parts[i]);
    AdvancedKeeps(cfg, s.parts[i], ack);
    SwapKeeps(cfg, start, s, i, Advanced(s.parts[i], ack));
  }

  lemma CrashKeeps(cfg: Config, start: map<Resource, Json>, s: System, i: nat)
    requires ValidConfig(cfg) && Inv(cfg, start, s) && Enabled(cfg, s, Crash(i))
    ensures Inv(cfg, start, Next(cfg, s, Crash(i)))
  {
    assert PartInv(cfg, s.parts[i]);
    RestartedKeeps(cfg, s.parts[i]);
    SwapKeeps(cfg, start, s, i, Restarted(s.parts[i]));
  }

  lemma StepKeeps(cfg: Config, start: map<Resource, Json>, s: System, step: Step)
    requires ValidConfig(cfg) && Inv(cfg, start, s) && Enabled(cfg, s, step)
    ensures Inv(cfg, start, Next(cfg, s, step))
  {
    if step.Append? {
      AppendKeeps(cfg, start, s, step.key, step.verdict);
    } else if step.Poll? {
      PollKeeps(cfg, start, s, step.i);
    } else if step.Patch? {
      PatchKeeps(cfg, start, s, step.i, step.reply, step.now);
    } else if step.Publish? {
      PublishKeeps(cfg, start, s, step.i, step.ack);
    } else if step.Commit? {
      CommitKeeps(cfg, start, s, step.i, step.ack);
    } else {
      CrashKeeps(cfg, start, s, step.i);
    }
  }

  lemma {:induction false} RunKeeps(cfg: Config, start: map<Resource, Json>, s: System, steps: seq<Step>)
    requires ValidConfig(cfg) && Inv(cfg, start, s) && Runs(cfg, s, steps)
    ensures Inv(cfg, start, After(cfg, s, steps))
    decreases |steps|
  {
    if steps != [] {
      StepKeeps(cfg, start, s, steps[0]);
      RunKeeps(cfg, start, Next(cfg, s, steps[0]), steps[1..]);
    }
  }

  lemma Reachable(cfg: Config, s: System, steps: seq<Step>)
    requires ValidConfig(cfg) && Initial(cfg, s) && Runs(cfg, s, steps)
    ensures Inv(cfg, s.objects, After(cfg, s, steps))
  {
    assert Inv(cfg, s.objects, s);
    RunKeeps(cfg, s.objects, s, steps);
  }
}
