/** The worker's loop body in its own imperative form, proved to take only steps of the delivery
    machine, so that every theorem about runs holds of what the loop does. */
module CommandWorker {
  import opened JsonMerge
  import opened Commands
  import opened Delivery
  import opened DeliveryTheorems

  /** The environment's answers to one delivery: the reply and clock of each patch call, the
      jitter drawn after it, and the acknowledgements of the publication and of the commit. */
  datatype Environment = Environment(
    reply: nat -> Reply, now: nat -> string, jitter: nat -> real, publication: Ack, commit: Ack)

  function Verdicts(log: seq<Message>): seq<Verdict> {
    seq(|log|, k requires 0 <= k < |log| => VerdictOf(log[k]))
  }

  /** The records of one topic: applied events, or dead letters. */
  function Topic(records: seq<Record>, events: bool): seq<Record> {
    if records == [] then []
    else
      var last := records[|records| - 1];
      var rest := Topic(records[..|records| - 1], events);
      if last.outcome.Applied? == events then rest + [last] else rest
  }

  function TwoToThe(n: nat): int {
    if n == 0 then 1 else 2 * TwoToThe(n - 1)
  }

  lemma {:induction false} TwoToTheLarge(n: nat)
    ensures TwoToThe(n) > n
  {
    if n > 0 {
      TwoToTheLarge(n - 1);
    }
  }

  const MAX_PAUSE := 30.0

  /** The pause after the failed attempt `n`. */
  function PauseAfter(n: nat, jitter: real): real {
    var pause := TwoToThe(n) as real + jitter;
    if pause < MAX_PAUSE then pause else MAX_PAUSE
  }

  /** The pauses in figures: 2, 4, 8 and 16 seconds and the jitter, then 30 seconds for good. */
  lemma PauseSchedule(n: nat, jitter: real)
    requires n >= 1 && 0.0 <= jitter < 1.0
    ensures PauseAfter(n, jitter) == if n == 1 then 2.0 + jitter else if n == 2 then 4.0 + jitter
                                     else if n == 3 then 8.0 + jitter else if n == 4 then 16.0 + jitter else 30.0
  {
    if n > 4 {
      TwoToTheLarge(n - 4);
      assert TwoToThe(n) == 2 * TwoToThe(n - 1) == 4 * TwoToThe(n - 2) == 8 * TwoToThe(n - 3);
    } else {
      assert TwoToThe(2) == 4;
    }
  }

  /** The pauses before attempt `n`. */
  function Pauses(env: Environment, n: nat): seq<real> {
    if n <= 1 then [] else Pauses(env, n - 1) + [PauseAfter(n - 1, env.jitter(n - 1))]
  }

  /** Pause by pause, in figures. */
  predicate Paused(env: Environment, pauses: seq<real>) {
    forall k | 0 <= k < |pauses| ::
      pauses[k] == if k == 0 then 2.0 + env.jitter(1) else if k == 1 then 4.0 + env.jitter(2)
                   else if k == 2 then 8.0 + env.jitter(3) else if k == 3 then 16.0 + env.jitter(4) else 30.0
  }

  lemma {:induction false} PausesInFigures(env: Environment, n: nat)
    requires forall k :: 0.0 <= env.jitter(k) < 1.0
    ensures |Pauses(env, n)| == (if n == 0 then 0 else n - 1) && Paused(env, Pauses(env, n))
  {
    if n > 1 {
      PausesInFigures(env, n - 1);
      PauseSchedule(n - 1, env.jitter(n - 1));
    }
  }

  /** What one delivery records, if the process survives it. */
  function ExpectedOutcome(verdict: Verdict, env: Environment): Outcome
    requires !Poison(verdict)
  {
    if verdict.Malformed? then Invalid
    else if env.reply(1).Done? then Applied
    else Rejected
  }

  /** The calls end with number `n`: it succeeds, it ends the process, it is refused for good, or
      it is the last one allowed. */
  predicate EndsWith(env: Environment, attemptsSetting: int, n: nat) {
    || env.reply(n).Done? || env.reply(n).Died?
    || env.reply(n).status in {400, 403, 404, 422}
    || n >= attemptsSetting
  }

  /** The first call from number `n` on that ends them. */
  function FirstEnd(env: Environment, attemptsSetting: int, n: nat): (calls: nat)
    ensures calls >= n
    decreases attemptsSetting - n
  {
    if EndsWith(env, attemptsSetting, n) then n else FirstEnd(env, attemptsSetting, n + 1)
  }

  lemma {:induction false} FirstEndIs(env: Environment, attemptsSetting: int, n: nat)
    requires n >= 1
    ensures var calls := FirstEnd(env, attemptsSetting, n);
      && n <= calls <= (if attemptsSetting < n then n else attemptsSetting)
      && EndsWith(env, attemptsSetting, calls)
      && forall k | n <= k < calls :: !EndsWith(env, attemptsSetting, k)
    decreases attemptsSetting - n
  {
    if !EndsWith(env, attemptsSetting, n) {
      FirstEndIs(env, attemptsSetting, n + 1);
    }
  }

  /** The effect of one patch call. */
  function Effected(objects: map<Resource, Json>, order: Order, reply: Reply, now: string): map<Resource, Json>
    requires Handled(order.command)
  {
    var r := Target(order.command);
    if TookEffect(reply) && r in objects then objects[r := MergePatch(objects[r], PatchBody(order, now))] else objects
  }

  /** The last of the first `n` calls that took effect, 0 if none did. */
  function LastEffect(env: Environment, n: nat): nat {
    if n == 0 || TookEffect(env.reply(n)) then n else LastEffect(env, n - 1)
  }

  lemma {:induction false} LastEffectIs(env: Environment, n: nat)
    ensures var k := LastEffect(env, n);
      && k <= n && (k > 0 ==> env.reply(k).Done? || env.reply(k).tookEffect)
      && forall j | k < j <= n :: !env.reply(j).Done? && !env.reply(j).tookEffect
  {
    if n > 0 && !TookEffect(env.reply(n)) {
      LastEffectIs(env, n - 1);
    }
  }

  /** The objects after the first `calls` calls: patched once, at the time of the last call that
      took effect, if any did. */
  function Patched(objects: map<Resource, Json>, order: Order, env: Environment, calls: nat): map<Resource, Json> {
    var k, r := LastEffect(env, calls), Target(order.command);
    if k == 0 || !Handled(order.command) || r !in objects then objects
    else objects[r := MergePatch(objects[r], PatchBody(order, env.now(k)))]
  }

  /** A second effect overwrites the first. */
  lemma PatchedMore(objects: map<Resource, Json>, order: Order, env: Environment, n: nat)
    requires Handled(order.command)
    ensures Target(order.command) in Patched(objects, order, env, n) <==> Target(order.command) in objects
    ensures Patched(objects, order, env, n + 1)
         == Effected(Patched(objects, order, env, n), order, env.reply(n + 1), env.now(n + 1))
  {
    var k, r := LastEffect(env, n), Target(order.command);
    if TookEffect(env.reply(n + 1)) && k > 0 && r in objects {
      PatchAbsorbsRedelivery(objects[r], order, env.now(k), env.now(n + 1));
    }
  }

  /** What one delivery does to the objects, and with how many calls and pauses: nothing for a
      message that is no order or that has no patch. */
  predicate Served(env: Environment, attemptsSetting: int, verdict: Verdict, before: map<Resource, Json>,
                   after: map<Resource, Json>, calls: nat, pauses: seq<real>) {
    if verdict.Accepted? && Handled(verdict.order.command) then
      && calls == FirstEnd(env, attemptsSetting, 1) && pauses == Pauses(env, calls)
      && after == Patched(before, verdict.order, env, calls)
    else
      calls == 0 && pauses == [] && after == before
  }

  /** Calls and pauses in figures: an order with a patch is tried until a call succeeds, ends the
      process, is refused with 400, 403, 404 or 422, or is the last one allowed, and never less
      than once. */
  lemma CallsInFigures(env: Environment, attemptsSetting: int, calls: nat)
    requires calls == FirstEnd(env, attemptsSetting, 1) && forall k :: 0.0 <= env.jitter(k) < 1.0
    ensures 1 <= calls <= (if attemptsSetting < 1 then 1 else attemptsSetting) && EndsWith(env, attemptsSetting, calls)
    ensures forall n | 1 <= n < calls :: !EndsWith(env, attemptsSetting, n)
    ensures |Pauses(env, calls)| == calls - 1 && Paused(env, Pauses(env, calls))
  {
    FirstEndIs(env, attemptsSetting, 1);
    PausesInFigures(env, calls);
  }

  /** The effect in figures: the object is patched if and only if one of the calls took effect, at
      the time of the last such call, and nothing else changes. */
  lemma PatchedInFigures(objects: map<Resource, Json>, order: Order, env: Environment, calls: nat)
    requires Handled(order.command)
    ensures var k, after := LastEffect(env, calls), Patched(objects, order, env, calls);
      && after == (if k == 0 || Target(order.command) !in objects then objects
                   else objects[Target(order.command) :=
                                  MergePatch(objects[Target(order.command)], PatchBody(order, env.now(k)))])
      && k <= calls && (k > 0 ==> env.reply(k).Done? || env.reply(k).tookEffect)
      && forall j | k < j <= calls :: !env.reply(j).Done? && !env.reply(j).tookEffect
  {
    LastEffectIs(env, calls);
  }

  /** The worker's fields show the partition of the machine at this stage. */
  ghost predicate Mirrors(part: Partition, stage: Stage, committed: nat, log: seq<Verdict>,
                          events: seq<Record>, dead: seq<Record>) {
    && part.stage == stage && part.committed == committed <= |part.log| && part.log == log
    && Topic(part.records, true) == events && Topic(part.records, false) == dead
  }

  /** What a publication adds to the event topic, or to the dead letters. */
  function Sent(rec: Record, ack: Ack, events: bool): seq<Record> {
    if (ack.Acked? || ack.tookEffect) && rec.outcome.Applied? == events then [rec] else []
  }

  lemma PublishedMirrors(part: Partition, outcome: Outcome, events: seq<Record>, dead: seq<Record>, ack: Ack)
    requires Mirrors(part, Publishing(outcome), part.committed, part.log, events, dead)
    ensures var rec := Record(part.committed, outcome);
            Mirrors(Published(part, ack), if ack.Acked? then Committing else Idle, part.committed, part.log,
                    events + Sent(rec, ack, true), dead + Sent(rec, ack, false))
  {
  }

  class Worker {
    const cfg: Config
    const index: nat
    var log: seq<Message>
    var committed: nat
    var objects: map<Resource, Json>
    var events: seq<Record>
    var deadLetters: seq<Record>
    ghost var world: System
    ghost var steps: seq<Step>

    /** The worker is at `stage` of the machine state `world`. */
    ghost predicate At(stage: Stage)
      reads this
    {
      && ValidConfig(cfg) && index < |world.parts| == cfg.partitions && world.objects == objects
      && Mirrors(world.parts[index], stage, committed, Verdicts(log), events, deadLetters)
    }

    ghost predicate Valid()
      reads this
    {
      At(Idle)
    }

    /** The steps since `before` are a run that leads to `world`. */
    ghost predicate Since(before: System)
      reads this`world, this`steps
    {
      ValidConfig(cfg) && Runs(cfg, before, steps) && After(cfg, before, steps) == world
    }

    constructor (cfg: Config, index: nat, objects: map<Resource, Json>)
      requires ValidConfig(cfg) && index < cfg.partitions
      ensures Valid() && this.cfg == cfg && this.index == index && Initial(cfg, world) && world.objects == objects
    {
      this.cfg, this.index, this.log, this.committed := cfg, index, [], 0;
      this.objects, this.events, this.deadLetters := objects, [], [];
      this.world := System(seq(cfg.partitions, _ => Partition([], 0, Idle, map[], [], 0)), objects);
      this.steps := [];
    }

    ghost method Take(before: System, step: Step)
      requires Since(before) && Enabled(cfg, world, step)
      modifies this`world, this`steps
      ensures Since(before) && world == Next(cfg, old(world), step)
      ensures |world.parts| == |old(world.parts)|
    {
      OneMore(cfg, before, steps, step);
      steps := steps + [step];
      world := Next(cfg, world, step);
    }

    /** The answers an environment can give: no patch of a missing object takes effect. */
    ghost predicate Admissible(env: Environment)
      requires At(Idle) && committed < |log|
      reads this
    {
      var verdict := Head(world.parts[index]);
      && (forall n :: 0.0 <= env.jitter(n) < 1.0)
      && (verdict.Accepted? && Target(verdict.order.command) !in objects ==> forall n :: !TookEffect(env.reply(n)))
    }

    /** The producer's side: a command that validation refuses is not sent, any other lands at
        the end of its workload's partition and will be read back as the same order. */
    method Enqueue(c: Command, actor: string, eventId: string, at: string) returns (sent: bool)
      requires Valid() && Home(cfg, Target(c)) == index
      modifies this`log, this`world, this`steps
      ensures Valid() && Since(old(world)) && (sent <==> Enqueueable(c, actor, eventId))
      ensures !sent ==> log == old(log)
      ensures sent ==> log == old(log) + [Decoded(NewCommand(c, actor, eventId, at))]
      ensures sent ==> world.parts[index].log
                       == old(world.parts[index].log) + [Accepted(Order(c, Truncate(actor, ACTOR_LIMIT), eventId))]
    {
      steps := [];
      EnvelopeRoundTrip(c, actor, eventId, at);
      var message := Decoded(NewCommand(c, actor, eventId, at));
      var verdict := VerdictOf(message);
      sent := verdict.Accepted?;
      if sent {
        Take(world, Append(WorkloadKey(Target(c)), verdict));
        log := log + [message];
      }
    }

    /** Decode and validate the message at the committed offset. */
    method Receive() returns (verdict: Verdict)
      requires At(Idle) && committed < |log|
      ensures verdict == Head(world.parts[index]) == VerdictOf(log[committed])
    {
      verdict := VerdictOf(log[committed]);
    }

    /** One patch call of an accepted order. */
    method Apply(order: Order, reply: Reply, now: string)
      requires Handled(order.command) && (TookEffect(reply) ==> Target(order.command) in objects)
      modifies this`objects
      ensures objects == Effected(old(objects), order, reply, now)
    {
      if TookEffect(reply) {
        objects := objects[Target(order.command) := MergePatch(objects[Target(order.command)], PatchBody(order, now))];
      }
    }

    ghost method TakePublish(before: System, ack: Ack)
      requires Since(before) && index < |world.parts| && world.parts[index].stage.Publishing?
      modifies this`world, this`steps
      ensures Since(before) && |world.parts| == |old(world.parts)| && world.objects == old(world.objects)
      ensures world.parts[index] == Published(old(world.parts[index]), ack)
    {
      Take(before, Publish(index, ack));
    }

    /** Publish a record to the topic of its outcome; `false` means the publication raised and the
        process ends. */
    method Send(outcome: Outcome, ack: Ack, ghost before: System) returns (ok: bool)
      requires At(Publishing(outcome)) && Since(before)
      modifies this`events, this`deadLetters, this`world, this`steps
      ensures Since(before) && ok == ack.Acked? && At(if ok then Committing else Idle)
      ensures events == old(events) + Sent(Record(committed, outcome), ack, true)
      ensures deadLetters == old(deadLetters) + Sent(Record(committed, outcome), ack, false)
    {
      var rec := Record(committed, outcome);
      PublishedMirrors(world.parts[index], outcome, events, deadLetters, ack);
      TakePublish(before, ack);
      Produce(rec, ack);
      ok := ack.Acked?;
    }

    method Produce(rec: Record, ack: Ack)
      modifies this`events, this`deadLetters
      ensures events == old(events) + Sent(rec, ack, true) && deadLetters == old(deadLetters) + Sent(rec, ack, false)
    {
      if ack.Acked? || ack.tookEffect {
        if rec.outcome.Applied? {
          events := events + [rec];
        } else {
          deadLetters := deadLetters + [rec];
        }
      }
    }

    method CommitOffset(ack: Ack, ghost before: System) returns (ok: bool)
      requires At(Committing) && committed < |log| && Since(before)
      modifies this`committed, this`world, this`steps
      ensures Since(before) && ok == ack.Acked? && Valid()
      ensures committed == old(committed) + (if ok || ack.tookEffect then 1 else 0)
    {
      ok := ack.Acked?;
      if ack.Acked? || ack.tookEffect {
        committed := committed + 1;
      }
      Take(before, Commit(index, ack));
    }

    /** The stage after one patch call. */
    ghost function Answer(attempt: nat, failed: bool, reply: Reply): Stage {
      match reply
      case Done => Publishing(if failed then Rejected else Applied)
      case Died(_) => Idle
      case ApiError(status, _) =>
        if Terminal(status) || attempt >= MaxAttempts(cfg) then Publishing(Rejected) else Trying(attempt + 1, true)
    }

    ghost method TakePatch(order: Order, attempt: nat, failed: bool, reply: Reply, now: string, before: System)
      requires At(Trying(attempt, failed)) && committed < |log| && Head(world.parts[index]) == Accepted(order)
      requires (!Handled(order.command) ==> reply == Died(false))
      requires (Target(order.command) !in objects ==> !TookEffect(reply)) && Since(before)
      modifies this`world, this`steps
      ensures Since(before) && |world.parts| == |old(world.parts)|
      ensures Mirrors(world.parts[index], Answer(attempt, failed, reply), committed, Verdicts(log), events, deadLetters)
      ensures world.objects == if TookEffect(reply)
                               then objects[Target(order.command) :=
                                              MergePatch(objects[Target(order.command)], PatchBody(order, now))]
                               else objects
    {
      Take(before, Patch(index, reply, now));
    }

    /** One patch call and its step of the machine. */
    method TryOnce(order: Order, attempt: nat, failed: bool, reply: Reply, now: string, ghost before: System)
      requires At(Trying(attempt, failed)) && committed < |log| && Head(world.parts[index]) == Accepted(order)
      requires (!Handled(order.command) ==> reply == Died(false))
      requires (Target(order.command) !in objects ==> !TookEffect(reply)) && Since(before)
      modifies this`objects, this`world, this`steps
      ensures Since(before)
      ensures objects == if Handled(order.command) then Effected(old(objects), order, reply, now) else old(objects)
      ensures At(Answer(attempt, failed, reply)) && world.parts[index].log == old(world.parts[index].log)
    {
      TakePatch(order, attempt, failed, reply, now, before);
      if Handled(order.command) {
        Apply(order, reply, now);
      }
    }

    /** One turn of the retry loop; `again` says that another attempt follows. */
    method Turn(order: Order, env: Environment, attempt: nat, failed: bool, ghost before: System)
      returns (again: bool, finished: bool, noted: bool)
      requires At(Trying(attempt, failed)) && committed < |log| && Head(world.parts[index]) == Accepted(order)
      requires Handled(order.command) && Since(before) && 1 <= attempt <= MaxAttempts(cfg)
      requires Target(order.command) !in objects ==> !TookEffect(env.reply(attempt))
      modifies this`objects, this`world, this`steps
      ensures Since(before)
      ensures At(if again then Trying(attempt + 1, true)
                 else if finished then Publishing(if noted then Rejected else Applied) else Idle)
      ensures world.parts[index].log == old(world.parts[index].log)
      ensures objects == Effected(old(objects), order, env.reply(attempt), env.now(attempt))
      ensures again <==> !EndsWith(env, cfg.attemptsSetting, attempt)
      ensures again ==> noted && finished && attempt < MaxAttempts(cfg)
      ensures noted <==> failed || env.reply(attempt).ApiError?
      ensures finished <==> !env.reply(attempt).Died?
    {
      var reply := env.reply(attempt);
      TryOnce(order, attempt, failed, reply, env.now(attempt), before);
      if !reply.ApiError? {
        return false, reply.Done?, failed;
      }
      return !Terminal(reply.status) && attempt != MaxAttempts(cfg), true, true;
    }

    /** The retry loop. `finished` is false when the process ended inside it; `failed` says
        whether an error was noted, which a later success does not clear. */
    method Attempt(order: Order, env: Environment, ghost before: System)
      returns (finished: bool, failed: bool, calls: nat, pauses: seq<real>)
      requires At(Trying(1, false)) && committed < |log| && Head(world.parts[index]) == Accepted(order)
      requires Since(before)
      requires Target(order.command) !in objects ==> forall n :: !TookEffect(env.reply(n))
      modifies this`objects, this`world, this`steps
      ensures Since(before) && At(if finished then Publishing(if failed then Rejected else Applied) else Idle)
      ensures finished ==> Handled(order.command) && (failed <==> !env.reply(1).Done?)
      ensures Handled(order.command) ==>
        && calls == FirstEnd(env, cfg.attemptsSetting, 1) && pauses == Pauses(env, calls)
      ensures !Handled(order.command) ==> calls == 0 && pauses == []
      ensures objects == Patched(old(objects), order, env, calls)
    {
      finished, failed, calls, pauses := false, false, 0, [];
      if !Handled(order.command) {
        TryOnce(order, 1, false, Died(false), env.now(1), before);
        return;
      }
      var attempt := 1;
      ghost var start := objects;
      while attempt <= MaxAttempts(cfg)
        invariant 1 <= attempt <= MaxAttempts(cfg) && calls == attempt - 1 && (failed <==> attempt > 1)
        invariant At(Trying(attempt, failed)) && Head(world.parts[index]) == Accepted(order) && Since(before)
        invariant failed ==> !env.reply(1).Done?
        invariant objects == Patched(start, order, env, calls)
        invariant FirstEnd(env, cfg.attemptsSetting, 1) == FirstEnd(env, cfg.attemptsSetting, attempt)
        invariant pauses == Pauses(env, attempt)
      {
        PatchedMore(start, order, env, calls);
        var again;
        again, finished, failed := Turn(order, env, attempt, failed, before);
        calls := calls + 1;
        if !again {
          return;
        }
        pauses := pauses + [PauseAfter(attempt, env.jitter(attempt))];
        attempt := attempt + 1;
      }
      assert false;
    }

    /** Poll, validate and apply the message at the committed offset, up to its publication. */
    method Handle(env: Environment, ghost before: System)
      returns (finished: bool, outcome: Outcome, calls: nat, pauses: seq<real>)
      requires Valid() && committed < |log| && Admissible(env) && Since(before)
      modifies this`objects, this`world, this`steps
      ensures Since(before) && At(if finished then Publishing(outcome) else Idle)
      ensures var verdict := old(Head(world.parts[index]));
              && (Poison(verdict) ==> !finished && objects == old(objects))
              && (finished ==> !Poison(verdict) && outcome == ExpectedOutcome(verdict, env))
              && Served(env, cfg.attemptsSetting, verdict, old(objects), objects, calls, pauses)
    {
      outcome, calls, pauses := Invalid, 0, [];
      var verdict := Receive();
      ghost var part := world.parts[index];
      Take(before, Poll(index));
      assert world.parts[index] == Polled(part) && world.objects == objects;
      if verdict.Unsupported? {
        return false, outcome, calls, pauses;
      }
      finished := true;
      if verdict.Accepted? {
        var failed;
        finished, failed, calls, pauses := Attempt(verdict.order, env, before);
        outcome := if failed then Rejected else Applied;
      }
    }

    /** One turn of the loop on the message at the committed offset. The steps taken are steps of
        the delivery machine; at most the configured attempts are made and the pauses are bounded;
        and if the process survives, the offset is committed with exactly one new record, which is
        an applied event if and only if the first patch call succeeded. */
    method DeliverNext(env: Environment) returns (alive: bool, calls: nat, pauses: seq<real>)
      requires Valid() && committed < |log| && Admissible(env)
      modifies this
      ensures Valid() && log == old(log) && Since(old(world))
      ensures var verdict := old(Head(world.parts[index]));
              && (Poison(verdict) ==> !alive && committed == old(committed) && objects == old(objects))
              && (alive ==>
                    && committed == old(committed) + 1 && !Poison(verdict)
                    && var rec := Record(old(committed), ExpectedOutcome(verdict, env));
                       && events == old(events) + (if rec.outcome.Applied? then [rec] else [])
                       && deadLetters == old(deadLetters) + (if rec.outcome.Applied? then [] else [rec]))
              && (!alive ==> old(committed) <= committed <= old(committed) + 1)
              && Served(env, cfg.attemptsSetting, verdict, old(objects), objects, calls, pauses)
    {
      ghost var before := world;
      steps := [];
      var outcome;
      alive, outcome, calls, pauses := Handle(env, before);
      if alive {
        alive := Send(outcome, env.publication, before);
      }
      if alive {
        alive := CommitOffset(env.commit, before);
      }
    }
  }
}
