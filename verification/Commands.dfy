/** Control commands: the JSON-RPC envelope, its validation, and the desired-state patch each
    command stands for. */
module Commands {
  import opened JsonMerge

  datatype Verb = Wake | Auto | Sleep | Pause | Resume | Cancel

  datatype Kind = Agent | Inference | Training

  datatype Command = Command(verb: Verb, kind: Kind, ns: string, name: string, confirmed: bool)

  datatype Resource = Resource(kind: Kind, ns: string, name: string)

  /** A validated command with its audit data. */
  datatype Order = Order(command: Command, actor: string, eventId: string)

  function VerbName(v: Verb): string {
    match v
    case Wake => "wake"
    case Auto => "auto"
    case Sleep => "sleep"
    case Pause => "pause"
    case Resume => "resume"
    case Cancel => "cancel"
  }

  function KindName(k: Kind): string {
    match k
    case Agent => "agent"
    case Inference => "inference"
    case Training => "training"
  }

  function VerbOf(s: string): (r: Option<Verb>)
    ensures r.Some? ==> VerbName(r.value) == s
    ensures forall v :: s == VerbName(v) ==> r == Some(v)
  {
    if s == "wake" then Some(Wake)
    else if s == "auto" then Some(Auto)
    else if s == "sleep" then Some(Sleep)
    else if s == "pause" then Some(Pause)
    else if s == "resume" then Some(Resume)
    else if s == "cancel" then Some(Cancel)
    else None
  }

  function KindOf(s: string): (r: Option<Kind>)
    ensures r.Some? ==> KindName(r.value) == s
    ensures forall k :: s == KindName(k) ==> r == Some(k)
  {
    if s == "agent" then Some(Agent)
    else if s == "inference" then Some(Inference)
    else if s == "training" then Some(Training)
    else None
  }

  predicate Destructive(v: Verb) {
    v.Sleep? || v.Cancel?
  }

  /** The truth value Python gives a decoded JSON value. */
  predicate Truthy(j: Json) {
    match j
    case Null => false
    case Bool(b) => b
    case Num(n) => n != 0
    case Str(s) => s != ""
    case Arr(items) => items != []
    case Obj(fields) => fields != map[]
  }

  const METHOD := "model-fleet.command.requested"
  const EVENT_ID_LENGTH := 32

  /** `Accepted` and `Malformed` are the two ends of validation: a ValueError or TypeError is
      caught by the worker. `Unsupported` is the AttributeError of a payload that is valid
      JSON but no resource, which the worker does not catch. */
  datatype Verdict = Accepted(order: Order) | Malformed | Unsupported

  predicate NonEmptyText(j: Json) {
    j.Str? && j.s != ""
  }

  function Validate(payload: Json): Verdict {
    if !payload.Obj? then Unsupported
    else
      var params := Member(payload, "params");
      var eventId := Member(params, "event_id");
      var verb, kind := Member(params, "verb"), Member(params, "kind");
      if Member(payload, "jsonrpc") != Str("2.0") || Member(payload, "method") != Str(METHOD) then Malformed
      else if !params.Obj? then Malformed
      else if Member(payload, "id") != eventId || !eventId.Str? || |eventId.s| != EVENT_ID_LENGTH then Malformed
      // Python's True equals 1, so both pass for version 1.
      else if Member(params, "schema_version") != Num(1) && Member(params, "schema_version") != Bool(true)
      then Malformed
      else if !verb.Str? || VerbOf(verb.s).None? || !kind.Str? || KindOf(kind.s).None? then Malformed
      else if !NonEmptyText(Member(params, "actor")) || !NonEmptyText(Member(params, "namespace"))
              || !NonEmptyText(Member(params, "name")) then Malformed
      else if Destructive(VerbOf(verb.s).value) && !Truthy(Member(params, "confirmed")) then Malformed
      else
        Accepted(Order(
          Command(VerbOf(verb.s).value, KindOf(kind.s).value, Member(params, "namespace").s,
                  Member(params, "name").s, Truthy(Member(params, "confirmed"))),
          Member(params, "actor").s, eventId.s))
  }

  const ACTOR_LIMIT := 80

  function Truncate(s: string, n: nat): string {
    if |s| <= n then s else s[..n]
  }

  function NewCommand(c: Command, actor: string, eventId: string, createdAt: string): Json {
    Obj(map[
      "jsonrpc" := Str("2.0"),
      "method" := Str(METHOD),
      "id" := Str(eventId),
      "params" := Obj(map[
        "schema_version" := Num(1),
        "event_id" := Str(eventId),
        "created_at" := Str(createdAt),
        "actor" := Str(Truncate(actor, ACTOR_LIMIT)),
        "verb" := Str(VerbName(c.verb)),
        "kind" := Str(KindName(c.kind)),
        "namespace" := Str(c.ns),
        "name" := Str(c.name),
        "confirmed" := Bool(c.confirmed)])])
  }

  /** What `enqueue` demands of its caller, as a condition checked before publication. */
  predicate Enqueueable(c: Command, actor: string, eventId: string) {
    |eventId| == 32 && actor != "" && c.ns != "" && c.name != ""
    && (c.verb == Sleep || c.verb == Cancel ==> c.confirmed)
  }

  /** The envelope round trip: a command survives publication exactly when it was fit to send,
      and then comes back unchanged, the actor cut to 80 characters. */
  lemma EnvelopeRoundTrip(c: Command, actor: string, eventId: string, at: string)
    ensures Validate(NewCommand(c, actor, eventId, at)).Accepted? <==> Enqueueable(c, actor, eventId)
    ensures Enqueueable(c, actor, eventId) ==>
              Validate(NewCommand(c, actor, eventId, at))
              == Accepted(Order(c, if |actor| <= 80 then actor else actor[..80], eventId))
    ensures Says(NewCommand(c, actor, eventId, at), "created_at", Str(at))
  {
    var payload := NewCommand(c, actor, eventId, at);
    var params := Member(payload, "params");
    assert Member(payload, "jsonrpc") == Str("2.0") && Member(payload, "method") == Str(METHOD);
    assert Member(payload, "id") == Str(eventId) == Member(params, "event_id");
    assert Member(params, "verb") == Str(VerbName(c.verb)) && Member(params, "kind") == Str(KindName(c.kind));
    assert Member(params, "namespace") == Str(c.ns) && Member(params, "name") == Str(c.name);
    assert Member(params, "actor") == Str(Truncate(actor, ACTOR_LIMIT));
    assert Member(params, "confirmed") == Bool(c.confirmed) && Member(params, "schema_version") == Num(1);
  }

  /** The value found at a member of the parameters. */
  predicate Says(payload: Json, field: string, value: Json) {
    payload.Obj? && "params" in payload.fields && payload.fields["params"].Obj?
    && field in payload.fields["params"].fields && payload.fields["params"].fields[field] == value
  }

  predicate Heads(payload: Json, field: string, value: string) {
    payload.Obj? && field in payload.fields && payload.fields[field] == Str(value)
  }

  /** The parameters state the order, apart from its confirmation. */
  predicate States(payload: Json, o: Order) {
    && Says(payload, "event_id", Str(o.eventId)) && |o.eventId| == 32
    && Says(payload, "verb", Str(VerbName(o.command.verb))) && Says(payload, "kind", Str(KindName(o.command.kind)))
    && Says(payload, "namespace", Str(o.command.ns)) && Says(payload, "name", Str(o.command.name))
    && Says(payload, "actor", Str(o.actor))
    && o.command.ns != "" && o.command.name != "" && o.actor != ""
  }

  /** A member `confirmed` with a true value, whatever its type. */
  ghost predicate Confirms(payload: Json) {
    exists value :: Says(payload, "confirmed", value) && Truthy(value)
  }

  /** Validation accepts a payload as an order exactly when the payload is an envelope of it:
      every other payload is refused, and no payload is an envelope of two orders. */
  lemma AcceptedIff(payload: Json, o: Order)
    ensures Validate(payload) == Accepted(o) <==>
      && Heads(payload, "jsonrpc", "2.0") && Heads(payload, "method", "model-fleet.command.requested")
      && Heads(payload, "id", o.eventId)
      && (Says(payload, "schema_version", Num(1)) || Says(payload, "schema_version", Bool(true)))
      && States(payload, o) && (o.command.confirmed <==> Confirms(payload))
      && (o.command.verb == Sleep || o.command.verb == Cancel ==> o.command.confirmed)
  {
  }

  /** Which values count as a confirmation: everything but null, false, zero and what is empty. */
  lemma ConfirmsIff(j: Json)
    ensures Truthy(j) <==> j !in {Null, Bool(false), Num(0), Str(""), Arr([]), Obj(map[])}
  {
  }

  function Target(c: Command): Resource {
    Resource(c.kind, c.ns, c.name)
  }

  /** The partition key of a workload. */
  function WorkloadKey(r: Resource): string {
    KindName(r.kind) + "/" + r.ns + "/" + r.name
  }

  function IndexOf(s: string, c: char): (i: nat)
    ensures i <= |s| && (i < |s| ==> s[i] == c) && forall j | 0 <= j < i :: s[j] != c
  {
    if s == "" || s[0] == c then 0 else 1 + IndexOf(s[1..], c)
  }

  lemma SplitAtFirst(a: string, b: string, c: char)
    requires c !in a
    ensures IndexOf(a + [c] + b, c) == |a|
    ensures (a + [c] + b)[..|a|] == a && (a + [c] + b)[|a| + 1..] == b
  {
    var s := a + [c] + b;
    assert s[|a|] == c;
    assert forall j | 0 <= j < |a| :: s[j] == a[j];
  }

  lemma SplitUnique(a: string, b: string, x: string, y: string, c: char)
    requires c !in a && c !in x && a + [c] + b == x + [c] + y
    ensures a == x && b == y
  {
    SplitAtFirst(a, b, c);
    SplitAtFirst(x, y, c);
  }

  /** Two workloads never share a key: the kind and the namespace of a parsed command hold no slash. */
  lemma WorkloadKeyInjective(r: Resource, q: Resource)
    requires '/' !in r.ns && '/' !in q.ns
    ensures WorkloadKey(r) == WorkloadKey(q) ==> r == q
  {
    if WorkloadKey(r) == WorkloadKey(q) {
      var a, b := KindName(r.kind), KindName(q.kind);
      var rest, tail := r.ns + ['/'] + r.name, q.ns + ['/'] + q.name;
      assert WorkloadKey(r) == a + ['/'] + rest && WorkloadKey(q) == b + ['/'] + tail;
      SplitUnique(a, rest, b, tail, '/');
      SplitUnique(r.ns, r.name, q.ns, q.name, '/');
      assert KindOf(a) == Some(r.kind) && KindOf(b) == Some(q.kind);
    }
  }

  /** The pairs the patch table has an entry for; any other pair is a KeyError. */
  predicate Handled(c: Command) {
    match c.kind
    case Training => c.verb.Pause? || c.verb.Resume? || c.verb.Cancel?
    case Agent => true
    case Inference => c.verb.Wake? || c.verb.Auto? || c.verb.Sleep?
  }

  function DesiredFields(c: Command): map<string, Json>
    requires Handled(c)
  {
    match c.kind
    case Training =>
      if c.verb.Cancel? then map["cancelled" := Bool(true)]
      else map["suspend" := Bool(c.verb.Pause?)]
    case Agent =>
      map["suspend" := Bool(c.verb.Sleep?)]
    case Inference =>
      map["suspend" := Bool(c.verb.Sleep?), "forceActive" := Bool(c.verb.Wake?)]
  }

  const USER_KEY := "fleet.sqe.io/last-command-user"
  const TIME_KEY := "fleet.sqe.io/last-command-at"
  const ID_KEY := "fleet.sqe.io/last-command-id"

  function Annotations(o: Order, now: string): map<string, Json> {
    var always := map[USER_KEY := Str(o.actor), TIME_KEY := Str(now)];
    if o.eventId == "" then always else always[ID_KEY := Str(o.eventId)]
  }

  /** The merge patch `apply` sends at time `now`. */
  function PatchBody(o: Order, now: string): Json
    requires Handled(o.command)
  {
    Obj(map["metadata" := Obj(map["annotations" := Obj(Annotations(o, now))]),
            "spec" := Obj(DesiredFields(o.command))])
  }

  /** A redelivered command overwrites what its first delivery wrote, at any two times. */
  lemma PatchAbsorbsRedelivery(target: Json, o: Order, t0: string, t1: string)
    requires Handled(o.command)
    ensures MergePatch(MergePatch(target, PatchBody(o, t0)), PatchBody(o, t1))
            == MergePatch(target, PatchBody(o, t1))
  {
    var p, q := PatchBody(o, t0), PatchBody(o, t1);
    OverwritesSelf(p.fields["spec"]);
    var a, b := Obj(Annotations(o, t0)), Obj(Annotations(o, t1));
    assert Overwrites(a, b);
    assert Overwrites(Obj(map["annotations" := a]), Obj(map["annotations" := b]));
    assert Overwrites(p, q);
    Absorb(target, p, q);
  }

  /** What the controllers read of one resource, and the audit trail. */
  datatype Intent = Intent(suspend: Option<Json>, forceActive: Option<Json>, cancelled: Option<Json>,
                           lastId: Option<Json>)

  function IntentOf(resource: Json): Intent {
    Intent(Lookup(resource, ["spec", "suspend"]), Lookup(resource, ["spec", "forceActive"]),
           Lookup(resource, ["spec", "cancelled"]), Lookup(resource, ["metadata", "annotations", ID_KEY]))
  }

  /** The effect of a command on the intent, read off the command table of the documentation. */
  function Act(i: Intent, o: Order): Intent {
    var seen := if o.eventId == "" then i else i.(lastId := Some(Str(o.eventId)));
    match o.command.verb
    case Wake => if o.command.kind.Inference? then seen.(suspend := Some(Bool(false)), forceActive := Some(Bool(true)))
                 else seen.(suspend := Some(Bool(false)))
    case Auto => if o.command.kind.Inference? then seen.(suspend := Some(Bool(false)), forceActive := Some(Bool(false)))
                 else seen.(suspend := Some(Bool(false)))
    case Sleep => if o.command.kind.Inference? then seen.(suspend := Some(Bool(true)), forceActive := Some(Bool(false)))
                  else seen.(suspend := Some(Bool(true)))
    case Pause => seen.(suspend := Some(Bool(o.command.kind.Training?)))
    case Resume => seen.(suspend := Some(Bool(false)))
    case Cancel => if o.command.kind.Training? then seen.(cancelled := Some(Bool(true)))
                   else seen.(suspend := Some(Bool(false)))
  }

  /** The audit trail: after a patch the object names the actor, the time and the command. */
  lemma PatchRecords(resource: Json, o: Order, now: string)
    requires Handled(o.command)
    ensures var after := MergePatch(resource, PatchBody(o, now));
      && Lookup(after, ["metadata", "annotations", "fleet.sqe.io/last-command-user"]) == Some(Str(o.actor))
      && Lookup(after, ["metadata", "annotations", "fleet.sqe.io/last-command-at"]) == Some(Str(now))
      && Lookup(after, ["metadata", "annotations", "fleet.sqe.io/last-command-id"])
         == if o.eventId == "" then Lookup(resource, ["metadata", "annotations", "fleet.sqe.io/last-command-id"])
            else Some(Str(o.eventId))
  {
    AnnotationAfter(resource, o, now, USER_KEY);
    AnnotationAfter(resource, o, now, TIME_KEY);
    AnnotationAfter(resource, o, now, ID_KEY);
  }

  lemma LookupStep(j: Json, k: string, rest: seq<string>)
    ensures Lookup(j, [k] + rest) == if j.Obj? && k in j.fields then Lookup(j.fields[k], rest) else None
  {
  }

  lemma LookupTwo(j: Json, a: string, b: string)
    ensures Lookup(j, [a, b]) == if j.Obj? && a in j.fields && j.fields[a].Obj? && b in j.fields[a].fields
                                 then Some(j.fields[a].fields[b]) else None
  {
    LookupStep(j, a, [b]);
    assert [a] + [b] == [a, b];
    if j.Obj? && a in j.fields {
      LookupStep(j.fields[a], b, []);
      assert [b] + [] == [b];
    }
  }

  lemma SpecFieldAfter(resource: Json, o: Order, now: string, field: string)
    requires Handled(o.command)
    ensures Lookup(MergePatch(resource, PatchBody(o, now)), ["spec", field])
            == if field in DesiredFields(o.command) then Some(DesiredFields(o.command)[field])
               else Lookup(resource, ["spec", field])
  {
    var p := PatchBody(o, now);
    LookupTwo(p, "spec", field);
    if field in DesiredFields(o.command) {
      MergeSets(resource, p, ["spec", field]);
    } else {
      assert ["spec", field][1..] == [field];
      MergeFrame(resource, p, ["spec", field]);
    }
  }

  lemma AnnotationAfter(resource: Json, o: Order, now: string, key: string)
    requires Handled(o.command)
    ensures Lookup(MergePatch(resource, PatchBody(o, now)), ["metadata", "annotations", key])
            == if key in Annotations(o, now) then Some(Annotations(o, now)[key])
               else Lookup(resource, ["metadata", "annotations", key])
  {
    var p, path := PatchBody(o, now), ["metadata", "annotations", key];
    assert path[1..] == ["annotations", key] && path[1..][1..] == [key];
    if key in Annotations(o, now) {
      LookupTwo(p.fields["metadata"], "annotations", key);
      MergeSets(resource, p, path);
    } else {
      assert !Touches(p.fields["metadata"].fields["annotations"], [key]);
      assert !Touches(p.fields["metadata"], ["annotations", key]);
      MergeFrame(resource, p, path);
    }
  }

  /** On the objects themselves a patch does what the command table promises. */
  lemma PatchActs(resource: Json, o: Order, now: string)
    requires Handled(o.command)
    ensures IntentOf(MergePatch(resource, PatchBody(o, now))) == Act(IntentOf(resource), o)
  {
    SpecFieldAfter(resource, o, now, "suspend");
    SpecFieldAfter(resource, o, now, "forceActive");
    SpecFieldAfter(resource, o, now, "cancelled");
    AnnotationAfter(resource, o, now, ID_KEY);
  }

  /** A patch keeps every other field of the specification. */
  lemma PatchKeepsSpec(resource: Json, o: Order, now: string, field: string)
    requires Handled(o.command) && field !in {"suspend", "forceActive", "cancelled"}
    ensures Lookup(MergePatch(resource, PatchBody(o, now)), ["spec", field]) == Lookup(resource, ["spec", field])
  {
  }

  function Fold(i: Intent, orders: seq<Order>): Intent {
    if orders == [] then i else Act(Fold(i, orders[..|orders| - 1]), orders[|orders| - 1])
  }

  lemma {:induction false} FoldConcat(i: Intent, p: seq<Order>, w: seq<Order>)
    ensures Fold(i, p + w) == Fold(Fold(i, p), w)
    decreases |w|
  {
    if w == [] {
      assert p + w == p;
    } else {
      assert (p + w)[..|p + w| - 1] == p + w[..|w| - 1];
      FoldConcat(i, p, w[..|w| - 1]);
    }
  }

  datatype Field = Suspend | ForceActive | Cancelled | LastId

  function Get(i: Intent, f: Field): Option<Json> {
    match f
    case Suspend => i.suspend
    case ForceActive => i.forceActive
    case Cancelled => i.cancelled
    case LastId => i.lastId
  }

  /** The value a command gives to a field, if it gives any. */
  function Written(o: Order, f: Field): Option<Json> {
    Get(Act(Intent(None, None, None, None), o), f)
  }

  function LastWritten(w: seq<Order>, f: Field): Option<Json> {
    if w == [] then None
    else if Written(w[|w| - 1], f).Some? then Written(w[|w| - 1], f)
    else LastWritten(w[..|w| - 1], f)
  }

  /** Field by field, the last command that writes it wins. */
  lemma {:induction false} LastWriterWins(s: Intent, w: seq<Order>, f: Field)
    ensures Get(Fold(s, w), f) == if LastWritten(w, f).Some? then LastWritten(w, f) else Get(s, f)
    decreases |w|
  {
    if w != [] {
      LastWriterWins(s, w[..|w| - 1], f);
    }
  }

  lemma {:induction false} LastWrittenNone(w: seq<Order>, f: Field)
    ensures LastWritten(w, f).None? <==> forall o | o in w :: Written(o, f).None?
    decreases |w|
  {
    if w != [] {
      LastWrittenNone(w[..|w| - 1], f);
      assert w == w[..|w| - 1] + [w[|w| - 1]];
    }
  }

  lemma LastWrittenMore(w: seq<Order>, o: Order, f: Field)
    ensures LastWritten(w + [o], f) == if Written(o, f).Some? then Written(o, f) else LastWritten(w, f)
  {
    assert (w + [o])[..|w|] == w;
  }

  /** The last value written to the field is the same, or there is none in both. */
  predicate SameLast(a: seq<Order>, b: seq<Order>, f: Field) {
    LastWritten(a, f) == LastWritten(b, f)
  }

  lemma FieldsAgree(s: Intent, a: seq<Order>, b: seq<Order>, f: Field)
    requires LastWritten(a, f).Some? <==> LastWritten(b, f).Some?
    ensures Get(Fold(s, a), f) == Get(Fold(s, b), f) <==> SameLast(a, b, f)
  {
    LastWriterWins(s, a, f);
    LastWriterWins(s, b, f);
  }

  /** Two sequences that write the same fields have the same effect exactly when the last values
      they write are the same. */
  lemma FoldsAgreeIff(s: Intent, a: seq<Order>, b: seq<Order>)
    requires forall f :: LastWritten(a, f).Some? <==> LastWritten(b, f).Some?
    ensures Fold(s, a) == Fold(s, b) <==> forall f :: SameLast(a, b, f)
  {
    forall f ensures Get(Fold(s, a), f) == Get(Fold(s, b), f) <==> SameLast(a, b, f) {
      FieldsAgree(s, a, b, f);
    }
    SameFields(Fold(s, a), Fold(s, b));
  }

  /** Replaying after a rewind is harmless: commands drawn in any order, any number of times,
      from those of `w` leave no trace once `w` itself has been replayed. */
  lemma ReplayHarmless(s: Intent, p: seq<Order>, w: seq<Order>)
    requires forall o | o in p :: o in w
    ensures Fold(s, p + w) == Fold(s, w)
  {
    FoldConcat(s, p, w);
    forall f ensures Get(Fold(s, p + w), f) == Get(Fold(s, w), f) {
      LastWriterWins(Fold(s, p), w, f);
      LastWriterWins(s, w, f);
      LastWriterWins(s, p, f);
      LastWrittenNone(w, f);
      LastWrittenNone(p, f);
    }
    SameFields(Fold(s, p + w), Fold(s, w));
  }

  /** Cancelling a training run cannot be undone by any later command. */
  lemma {:induction false} CancelAbsorbs(s: Intent, w: seq<Order>, k: nat)
    requires k < |w| && w[k].command.kind.Training? && w[k].command.verb.Cancel?
    ensures Fold(s, w).cancelled == Some(Bool(true))
    decreases |w|
  {
    if k < |w| - 1 {
      CancelAbsorbs(s, w[..|w| - 1], k);
    }
  }

  /** The last command of `p` that writes the field gives another value than the last of `w`. */
  predicate Overturns(w: seq<Order>, p: seq<Order>, f: Field) {
    LastWritten(p, f).Some? && LastWritten(p, f) != LastWritten(w, f)
  }

  lemma FieldReplayed(s: Intent, w: seq<Order>, p: seq<Order>, f: Field)
    requires forall o | o in p :: o in w
    ensures Get(Fold(s, w + p), f) == Get(Fold(s, w), f) <==> !Overturns(w, p, f)
  {
    FoldConcat(s, w, p);
    LastWriterWins(Fold(s, w), p, f);
    LastWriterWins(s, w, f);
    LastWrittenNone(p, f);
    LastWrittenNone(w, f);
  }

  /** What the controllers act on. */
  predicate SameControl(a: Intent, b: Intent) {
    a.suspend == b.suspend && a.forceActive == b.forceActive && a.cancelled == b.cancelled
  }

  /** Replaying some commands of `w` after all of `w` changes nothing exactly when it overturns no
      field; and it changes nothing the controllers act on exactly when it overturns none of those. */
  lemma ReplayAfterIff(s: Intent, w: seq<Order>, p: seq<Order>)
    requires forall o | o in p :: o in w
    ensures Fold(s, w + p) == Fold(s, w) <==> forall f :: !Overturns(w, p, f)
    ensures SameControl(Fold(s, w + p), Fold(s, w)) <==> forall f | f != LastId :: !Overturns(w, p, f)
  {
    forall f ensures Get(Fold(s, w + p), f) == Get(Fold(s, w), f) <==> !Overturns(w, p, f) {
      FieldReplayed(s, w, p, f);
    }
    SameFields(Fold(s, w + p), Fold(s, w));
  }

  lemma SameFields(a: Intent, b: Intent)
    ensures a == b <==> forall f :: Get(a, f) == Get(b, f)
    ensures SameControl(a, b) <==> forall f | f != LastId :: Get(a, f) == Get(b, f)
  {
    assert Get(a, Suspend) == a.suspend && Get(a, ForceActive) == a.forceActive;
    assert Get(a, Cancelled) == a.cancelled && Get(a, LastId) == a.lastId;
  }
}
