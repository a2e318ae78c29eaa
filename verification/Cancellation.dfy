/** Cancellation of training runs under interleaving: a pass reads the Job and then creates or
    patches it, call by call, while the intent and the Job change in between. */
module Cancellation {
  import opened JsonMerge

  datatype Spec = Spec(cancelled: bool, suspend: bool)

  /** `deleting`: a foreground deletion has been accepted and is not finished. */
  datatype Job = Job(suspended: bool, deleting: bool)

  /** What the read of a pass has said about the Job. */
  datatype Found = Unread | Missing | There

  /** A pass works from the body it started with. */
  datatype Pass = Pass(body: Spec, found: Found)

  /** History: the Jobs created so far, and whether a pass over the cancelled run has completed. */
  datatype State = State(spec: Spec, job: Option<Job>, pass: Option<Pass>, created: nat, ended: bool)

  /** `Gone` is the Job disappearing: its deletion finishes, its time to live is over, or someone
      deletes it. `Cut` is a pass that ends without a write, by an error or a restart. */
  datatype Event =
    | Edit(suspend: bool)
    | Cancel
    | Gone
    | Begin
    | Cut
    | Look
    | Create(tookEffect: bool, ok: bool)
    | Amend(tookEffect: bool, ok: bool)
    | Remove(tookEffect: bool, ok: bool)

  predicate At(s: State, cancelled: bool, found: Found) {
    s.pass.Some? && s.pass.value.body.cancelled == cancelled && s.pass.value.found == found
  }

  /** A creation conflicts with a Job that is there, a patch misses one that is gone, and the
      deletion of a missing Job is a success. */
  predicate Enabled(s: State, e: Event) {
    match e
    case Edit(_) => true
    case Cancel => true
    case Gone => s.job.Some?
    case Begin => s.pass.None?
    case Cut => s.pass.Some?
    case Look => At(s, false, Unread)
    case Create(tookEffect, ok) => At(s, false, Missing) && (ok ==> tookEffect) && (tookEffect ==> s.job.None?)
    case Amend(tookEffect, ok) => At(s, false, There) && (ok ==> tookEffect) && (tookEffect ==> s.job.Some?)
    case Remove(tookEffect, ok) => At(s, true, Unread) && (ok ==> tookEffect || s.job.None?)
  }

  function Next(s: State, e: Event): State
    requires Enabled(s, e)
  {
    match e
    case Edit(suspend) => s.(spec := s.spec.(suspend := suspend))
    case Cancel => s.(spec := s.spec.(cancelled := true))
    case Gone => s.(job := None)
    case Begin => s.(pass := Some(Pass(s.spec, Unread)))
    case Cut => s.(pass := None)
    case Look => s.(pass := Some(s.pass.value.(found := if s.job.Some? then There else Missing)))
    case Create(tookEffect, _) =>
      if tookEffect then s.(job := Some(Job(s.pass.value.body.suspend, false)), pass := None, created := s.created + 1)
      else s.(pass := None)
    case Amend(tookEffect, _) =>
      if tookEffect then s.(job := Some(s.job.value.(suspended := s.pass.value.body.suspend)), pass := None)
      else s.(pass := None)
    case Remove(tookEffect, ok) =>
      State(s.spec, if tookEffect && s.job.Some? then Some(s.job.value.(deleting := true)) else s.job,
            None, s.created, s.ended || ok)
  }

  predicate Runs(s: State, events: seq<Event>)
    decreases |events|
  {
    events != [] ==> Enabled(s, events[0]) && Runs(Next(s, events[0]), events[1..])
  }

  function After(s: State, events: seq<Event>): State
    requires Runs(s, events)
    decreases |events|
  {
    if events == [] then s else After(Next(s, events[0]), events[1..])
  }

  /** No Job can be created any more: the run is cancelled, and a pass that still works from an
      older body has already found the Job, so that it can only patch. */
  predicate Sealed(s: State) {
    s.spec.cancelled && (s.pass.Some? ==> s.pass.value.body.cancelled || s.pass.value.found.There?)
  }

  predicate Inv(s: State) {
    && (s.pass.Some? && s.pass.value.body.cancelled ==> s.spec.cancelled && s.pass.value.found.Unread?)
    && (s.ended ==>
          s.spec.cancelled && (s.job.Some? ==> s.job.value.deleting) && (s.pass.Some? ==> s.pass.value.body.cancelled))
  }

  predicate Fresh(s: State) {
    s.pass.None? && !s.ended
  }

  /** A sealed run stays sealed, and nothing is created. */
  lemma {:induction false} SealedRun(s: State, events: seq<Event>)
    requires Sealed(s) && Runs(s, events)
    ensures Sealed(After(s, events)) && After(s, events).created == s.created
    ensures s.job.None? ==> After(s, events).job.None?
    decreases |events|
  {
    if events != [] {
      SealedRun(Next(s, events[0]), events[1..]);
    }
  }

  /** The shortest way to another Job: finish or drop the pass at hand, begin one, let the Job go. */
  lemma {:induction false} CreateOne(s: State) returns (events: seq<Event>)
    requires Inv(s) && !Sealed(s)
    ensures Runs(s, events) && After(s, events).created == s.created + 1
    ensures After(s, events).job.Some? && !After(s, events).job.value.deleting
    decreases if s.pass.None? then 3
              else if s.pass.value.body.cancelled || s.pass.value.found.There? then 4
              else (if s.job.Some? then 1 else 0) + (if s.pass.value.found.Unread? then 1 else 0)
  {
    var step := if s.pass.None? then Begin
                else if s.pass.value.body.cancelled || s.pass.value.found.There? then Cut
                else if s.job.Some? then Gone
                else if s.pass.value.found.Unread? then Look
                else Create(true, true);
    var rest := [];
    if !step.Create? {
      rest := CreateOne(Next(s, step));
    }
    events := [step] + rest;
    assert events[1..] == rest;
  }

  lemma First(s: State, e: Event, rest: seq<Event>)
    requires Enabled(s, e) && Runs(Next(s, e), rest)
    ensures Runs(s, [e] + rest) && After(s, [e] + rest) == After(Next(s, e), rest)
  {
    assert ([e] + rest)[1..] == rest;
  }

  /** From every state the run can be cancelled and a pass over it can complete, whatever a pass that
      was under way had read. */
  lemma CanBeCancelled(s: State) returns (events: seq<Event>)
    ensures Runs(s, events) && After(s, events).ended && After(s, events).spec.cancelled
    ensures After(s, events).pass.None? && After(s, events).created == s.created
  {
    var s1 := if s.pass.Some? then Next(s, Cut) else s;
    var s2 := Next(s1, Cancel);
    var s3 := Next(s2, Begin);
    First(s3, Remove(true, true), []);
    assert [Remove(true, true)] + [] == [Remove(true, true)];
    First(s2, Begin, [Remove(true, true)]);
    First(s1, Cancel, [Begin] + [Remove(true, true)]);
    events := [Cancel] + ([Begin] + [Remove(true, true)]);
    if s.pass.Some? {
      First(s, Cut, events);
      events := [Cut] + events;
    }
  }

  /** A pass that completes leaves the Job suspended or not as the specification it began with says. */
  lemma PassSetsJob(s: State) returns (events: seq<Event>)
    requires s.pass.None? && !s.spec.cancelled
    ensures Runs(s, events) && After(s, events).job.Some? && After(s, events).job.value.suspended == s.spec.suspend
    ensures After(s, events).pass.None? && After(s, events).spec == s.spec
  {
    var write := if s.job.Some? then Amend(true, true) else Create(true, true);
    First(Next(Next(s, Begin), Look), write, []);
    assert [write] + [] == [write];
    First(Next(s, Begin), Look, [write]);
    First(s, Begin, [Look] + [write]);
    events := [Begin] + ([Look] + [write]);
  }

  /** Exactly when a run is out of danger: no continuation, with errors, restarts and a vanishing Job
      anywhere, ever creates another Job, if and only if the run is sealed. Being cancelled is not
      enough while a pass over the older body may still create. */
  lemma NoMoreJobsIff(s: State)
    requires Inv(s)
    ensures (forall events | Runs(s, events) :: After(s, events).created == s.created) <==> Sealed(s)
  {
    if Sealed(s) {
      forall events | Runs(s, events)
        ensures After(s, events).created == s.created
      {
        SealedRun(s, events);
      }
    } else {
      var events := CreateOne(s);
      assert Runs(s, events);
    }
  }

  lemma {:induction false} RunKeeps(s: State, events: seq<Event>)
    requires Inv(s) && Runs(s, events)
    ensures Inv(After(s, events)) && (s.ended ==> After(s, events).ended)
    decreases |events|
  {
    if events != [] {
      RunKeeps(Next(s, events[0]), events[1..]);
    }
  }

  /** In every run: once a pass over the cancelled run has completed, the run is sealed; its Job is
      gone or being deleted; and whatever follows creates none and keeps it so. */
  lemma CancelledJobStaysGone(s: State, events: seq<Event>, more: seq<Event>)
    requires Fresh(s) && Runs(s, events) && After(s, events).ended && Runs(After(s, events), more)
    ensures var t, u := After(s, events), After(After(s, events), more);
      && Sealed(t) && u.created == t.created
      && (t.job.Some? ==> t.job.value.deleting) && (u.job.Some? ==> u.job.value.deleting)
      && (t.job.None? ==> u.job.None?)
  {
    RunKeeps(s, events);
    RunKeeps(After(s, events), more);
    SealedRun(After(s, events), more);
  }
}
