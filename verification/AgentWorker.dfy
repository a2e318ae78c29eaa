/** The Go agent's worker: one task is answered, published and committed at a time, and the
    gauges count the handler that runs in between. */
module AgentWorker {
  import opened JsonMerge

  datatype Task = Task(version: string, id: string, verb: string, skill: Option<string>)

  /** A message as the JSON decoder leaves it: a task, which holds whatever was read before an
      error, and whether there was one. */
  datatype Payload = Payload(task: Task, broken: bool)

  datatype Reply = Reply(id: string, code: Option<int>)

  predicate WellFormed(p: Payload) {
    !p.broken && p.task.version == "2.0" && p.task.verb == "tasks.execute" && p.task.id != ""
  }

  function SkillOf(task: Task): string {
    if task.skill.Some? then task.skill.value else ""
  }

  /** `error` is what the handler of a known skill returns. */
  function ReplyTo(skills: set<string>, p: Payload, error: bool): Reply {
    Reply(p.task.id,
          if !WellFormed(p) then Some(-32600)
          else if SkillOf(p.task) !in skills then Some(-32601)
          else if error then Some(-32000)
          else None)
  }

  /** The code of a reply says which case it was: no valid task, no handler for the skill (a missing
      skill reads as the empty one), an error of the handler, or its success. */
  lemma ReplyCodes(skills: set<string>, p: Payload, error: bool)
    ensures var r := ReplyTo(skills, p, error);
      && r.id == p.task.id
      && (r.code == Some(-32600) <==>
            p.broken || p.task.version != "2.0" || p.task.verb != "tasks.execute" || p.task.id == "")
      && (r.code == Some(-32601) <==>
            r.code != Some(-32600) && (match p.task.skill case Some(s) => s case None => "") !in skills)
      && (r.code == Some(-32000) <==> r.code != Some(-32600) && r.code != Some(-32601) && error)
      && (r.code == None <==> r.code != Some(-32600) && r.code != Some(-32601) && !error)
      && (Runs(skills, p) <==> r.code in {Some(-32000), None})
  {
  }

  predicate Runs(skills: set<string>, p: Payload) {
    WellFormed(p) && SkillOf(p.task) in skills
  }

  class Metrics {
    var active: int
    var completed: nat
    var failed: nat

    constructor ()
      ensures active == completed == failed == 0
    {
      active, completed, failed := 0, 0, 0;
    }

    method Begin()
      modifies this`active
      ensures active == old(active) + 1
    {
      active := active + 1;
    }

    method Observe(error: bool)
      modifies this
      ensures active == old(active) - 1
      ensures completed == old(completed) + (if error then 0 else 1)
      ensures failed == old(failed) + (if error then 1 else 0)
    {
      active := active - 1;
      if error {
        failed := failed + 1;
      } else {
        completed := completed + 1;
      }
    }
  }

  /** A publication or a commit; a failure may come after the effect. */
  datatype Ack = Acked | Refused(tookEffect: bool)

  /** What one round meets: the handler's error, the publication and the commit. */
  datatype Round = Round(error: bool, publish: Ack, commit: Ack)

  predicate Reached(ack: Ack) {
    ack.Acked? || ack.tookEffect
  }

  /** The replies to the messages from offset `first` on, one for each round. */
  function Replies(skills: set<string>, log: seq<Payload>, first: nat, rounds: seq<Round>): (r: seq<Reply>)
    requires first + |rounds| <= |log|
    ensures |r| == |rounds|
  {
    seq(|rounds|, i requires 0 <= i < |rounds| => ReplyTo(skills, log[first + i], rounds[i].error))
  }

  lemma RepliesSnoc(skills: set<string>, log: seq<Payload>, first: nat, rounds: seq<Round>, n: nat)
    requires n < |rounds| && first + n < |log|
    ensures Replies(skills, log, first, rounds[..n + 1])
         == Replies(skills, log, first, rounds[..n]) + [ReplyTo(skills, log[first + n], rounds[n].error)]
  {
  }

  predicate Replied(results: seq<Reply>, id: string) {
    exists j | 0 <= j < |results| :: results[j].id == id
  }

  /** A reply to every one of the first `n` messages has been published. */
  predicate AllReplied(log: seq<Payload>, n: nat, results: seq<Reply>)
    requires n <= |log|
  {
    forall k | 0 <= k < n :: Replied(results, log[k].task.id)
  }

  lemma RepliedMore(log: seq<Payload>, n: nat, results: seq<Reply>, reply: Reply)
    requires n <= |log| && AllReplied(log, n, results)
    ensures AllReplied(log, n, results + [reply])
    ensures n < |log| && reply.id == log[n].task.id ==> AllReplied(log, n + 1, results + [reply])
  {
    var more := results + [reply];
    forall k | 0 <= k < n
      ensures Replied(more, log[k].task.id)
    {
      var j :| 0 <= j < |results| && results[j].id == log[k].task.id;
      assert more[j] == results[j];
    }
    assert more[|results|] == reply;
  }

  class Worker {
    const skills: set<string>
    var metrics: Metrics?

    // the task partition, the committed offset, and the result topic
    var log: seq<Payload>
    var committed: nat
    var results: seq<Reply>

    /** The times the loop has stopped. */
    ghost var stops: nat

    ghost predicate Valid()
      reads this
    {
      && committed <= |log|
      && AllReplied(log, committed, results)
      && |results| <= committed + stops
    }

    constructor (skills: set<string>, log: seq<Payload>)
      ensures Valid() && this.log == log && this.skills == skills && results == [] && committed == 0 && metrics == null
    {
      this.skills, this.log, committed, results, stops, metrics := skills, log, 0, [], 0, null;
    }

    method MetricsOf() returns (m: Metrics)
      modifies this`metrics
      ensures metrics == m
      ensures old(metrics) != null ==> m == old(metrics)
      ensures old(metrics) == null ==> fresh(m) && m.active == m.completed == m.failed == 0
    {
      if metrics == null {
        metrics := new Metrics();
      }
      m := metrics;
    }

    /** The reply carries the id of the message's task; the gauge is back where it was, and
        exactly one of the counters has grown when a handler ran. */
    method Process(p: Payload, error: bool) returns (reply: Reply)
      modifies this`metrics, if metrics == null then {} else {metrics}
      ensures reply == ReplyTo(skills, p, error)
      ensures old(metrics) != null ==> metrics == old(metrics)
      ensures old(metrics) == null && metrics != null ==> fresh(metrics)
      ensures Runs(skills, p) ==> metrics != null
      ensures metrics != null ==>
        && metrics.active == (if old(metrics) == null then 0 else old(metrics.active))
        && metrics.completed == (if old(metrics) == null then 0 else old(metrics.completed))
                                + (if Runs(skills, p) && !error then 1 else 0)
        && metrics.failed == (if old(metrics) == null then 0 else old(metrics.failed))
                             + (if Runs(skills, p) && error then 1 else 0)
    {
      if !WellFormed(p) {
        return Reply(p.task.id, Some(-32600));
      }
      if SkillOf(p.task) !in skills {
        return Reply(p.task.id, Some(-32601));
      }
      var m := MetricsOf();
      m.Begin();
      metrics.Observe(error);
      return Reply(p.task.id, if error then Some(-32000) else None);
    }

    /** One turn of the loop; `more` is false when an error ends it. */
    method Turn(round: Round) returns (more: bool)
      requires Valid() && committed < |log|
      modifies this`metrics, this`results, this`committed, if metrics == null then {} else {metrics}
      ensures log == old(log) && metrics in {old(metrics)} + {metrics}
      ensures metrics != old(metrics) ==> metrics != null && fresh(metrics)
      ensures committed <= |log| && AllReplied(log, committed, results)
      ensures results == old(results) +
                (if round.publish.Acked? || round.publish.tookEffect
                 then [ReplyTo(skills, log[old(committed)], round.error)] else [])
      ensures committed == old(committed)
                           + (if round.publish.Acked? && (round.commit.Acked? || round.commit.tookEffect) then 1 else 0)
      ensures more <==> round.publish.Acked? && round.commit.Acked?
    {
      var reply := Process(log[committed], round.error);
      if Reached(round.publish) {
        RepliedMore(log, committed, results, reply);
        results := results + [reply];
      }
      if !round.publish.Acked? {
        return false;
      }
      if Reached(round.commit) {
        committed := committed + 1;
      }
      more := round.commit.Acked?;
    }

    /** The loop: it ends when a publication or a commit fails, or when there is no message. The
        replies are published in the order of the tasks, every committed task after its reply,
        and at most one published task is left uncommitted. */
    method Run(rounds: seq<Round>) returns (done: nat)
      requires Valid()
      modifies this, if metrics == null then {} else {metrics}
      ensures Valid() && log == old(log) && stops == old(stops) + 1
      ensures done <= |rounds| && old(committed) + done <= |log|
      ensures results == old(results) + Replies(skills, log, old(committed), rounds[..done])
      ensures old(committed) + done - 1 <= committed <= old(committed) + done
      ensures committed < old(committed) + done ==>
                done > 0 && !(rounds[done - 1].publish.Acked? && Reached(rounds[done - 1].commit))
      ensures (forall i | 0 <= i < |rounds| :: rounds[i].publish.Acked? && rounds[i].commit.Acked?)
        ==> (done == |rounds| || committed == |log|) && committed == old(committed) + done
    {
      done := 0;
      var more := true;
      ghost var first, before := committed, results;
      while more && done < |rounds| && committed < |log|
        invariant done <= |rounds| && first + done <= |log|
        invariant log == old(log) && stops == old(stops)
        invariant metrics != old(metrics) ==> metrics != null && fresh(metrics)
        invariant committed <= |log| && AllReplied(log, committed, results)
        invariant results == before + Replies(skills, log, first, rounds[..done])
        invariant first <= committed && first + done - 1 <= committed <= first + done
        invariant more ==> committed == first + done
        invariant !more ==> exists i | 0 <= i < |rounds| :: !(rounds[i].publish.Acked? && rounds[i].commit.Acked?)
        invariant committed < first + done ==>
                  done > 0 && !(rounds[done - 1].publish.Acked? && Reached(rounds[done - 1].commit))
        decreases |rounds| - done, more
      {
        more := Turn(rounds[done]);
        RepliesSnoc(skills, log, first, rounds, done);
        if Reached(rounds[done].publish) {
          done := done + 1;
        }
      }
      stops := stops + 1;
    }
  }
}
