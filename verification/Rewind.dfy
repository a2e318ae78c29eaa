/** Delivery with offset rewinds: at any time the committed offset of a partition may be set back,
    and the commands from there on are delivered again. */
module Rewind {
  import opened JsonMerge
  import opened Commands
  import opened Delivery

  /** The history of one partition: the offsets whose patch took effect, in the order in which that
      happened; how long that list was at the last rewind; the offsets that had taken effect before
      but were committed again without an effect; and how many offsets were rewound over. */
  datatype Track = Track(taken: seq<nat>, since: nat, missed: set<nat>, rewound: nat)

  datatype World = World(sys: System, tracks: seq<Track>)

  datatype Move = Deliver(step: Step) | Back(i: nat, k: nat)

  predicate CanMove(cfg: Config, w: World, m: Move)
    requires ValidConfig(cfg)
  {
    |w.tracks| == |w.sys.parts| == cfg.partitions &&
    match m
    case Deliver(step) => Enabled(cfg, w.sys, step)
    case Back(i, k) => i < |w.sys.parts| && k <= w.sys.parts[i].committed
  }

  function Patched(track: Track, c: nat): Track {
    track.(taken := track.taken + [c])
  }

  function Passed(track: Track, c: nat): Track
    requires track.since <= |track.taken|
  {
    if c in track.taken && c !in track.taken[track.since..] then track.(missed := track.missed + {c}) else track
  }

  function Rewound(track: Track, c: nat, k: nat): Track
    requires k <= c
  {
    Track(track.taken, |track.taken|, (set o | o in track.missed && o < k), track.rewound + (c - k))
  }

  predicate Coherent(w: World) {
    forall i | 0 <= i < |w.tracks| :: w.tracks[i].since <= |w.tracks[i].taken|
  }

  function TrackAfter(w: World, step: Step): seq<Track>
    requires |w.tracks| == |w.sys.parts| && Coherent(w)
  {
    match step
    case Patch(i, reply, _) =>
      if i < |w.tracks| && TookEffect(reply)
      then w.tracks[i := Patched(w.tracks[i], w.sys.parts[i].committed)] else w.tracks
    case Commit(i, ack) =>
      if i < |w.tracks| && (ack.Acked? || ack.tookEffect)
      then w.tracks[i := Passed(w.tracks[i], w.sys.parts[i].committed)]
      else w.tracks
    case _ => w.tracks
  }

  function Moved(cfg: Config, w: World, m: Move): World
    requires ValidConfig(cfg) && CanMove(cfg, w, m) && Coherent(w)
  {
    match m
    case Deliver(step) => World(Next(cfg, w.sys, step), TrackAfter(w, step))
    case Back(i, k) =>
      World(w.sys.(parts := w.sys.parts[i := Restarted(w.sys.parts[i]).(committed := k)]),
            w.tracks[i := Rewound(w.tracks[i], w.sys.parts[i].committed, k)])
  }

  // ---------------------------------------------------------------- folds along a history

  predicate About(log: seq<Verdict>, o: nat, r: Resource) {
    o < |log| && log[o].Accepted? && Target(log[o].order.command) == r
  }

  /** The orders about `r` in the order in which they took effect, repetitions included. */
  function Orders(log: seq<Verdict>, taken: seq<nat>, r: Resource): seq<Order> {
    if taken == [] then []
    else
      var rest, last := Orders(log, taken[..|taken| - 1], r), taken[|taken| - 1];
      if About(log, last, r) then rest + [log[last].order] else rest
  }

  /** The same orders in log order, each offset once. */
  function InOrder(log: seq<Verdict>, taken: seq<nat>, r: Resource, n: nat): seq<Order> {
    if n == 0 then []
    else
      var rest := InOrder(log, taken, r, n - 1);
      if n - 1 in taken && About(log, n - 1, r) then rest + [log[n - 1].order] else rest
  }

  /** `o` is an order about `r` that writes the field. */
  predicate Writes(log: seq<Verdict>, o: nat, r: Resource, f: Field) {
    About(log, o, r) && Written(log[o].order, f).Some?
  }

  lemma OrdersStep(log: seq<Verdict>, taken: seq<nat>, r: Resource, f: Field)
    requires taken != []
    ensures var init, last := taken[..|taken| - 1], taken[|taken| - 1];
      LastWritten(Orders(log, taken, r), f)
      == if Writes(log, last, r, f) then Written(log[last].order, f) else LastWritten(Orders(log, init, r), f)
  {
    var init, last := taken[..|taken| - 1], taken[|taken| - 1];
    if About(log, last, r) {
      LastWrittenMore(Orders(log, init, r), log[last].order, f);
    }
  }

  lemma InOrderStep(log: seq<Verdict>, taken: seq<nat>, r: Resource, n: nat, f: Field)
    ensures LastWritten(InOrder(log, taken, r, n + 1), f)
         == if n in taken && Writes(log, n, r, f) then Written(log[n].order, f)
            else LastWritten(InOrder(log, taken, r, n), f)
  {
    if n in taken && About(log, n, r) {
      LastWrittenMore(InOrder(log, taken, r, n), log[n].order, f);
    }
  }

  lemma {:induction false} LastOfOrders(log: seq<Verdict>, taken: seq<nat>, r: Resource, f: Field) returns (j: int)
    ensures -1 <= j < |taken| && forall l | j < l < |taken| :: !Writes(log, taken[l], r, f)
    ensures j >= 0 ==>
            Writes(log, taken[j], r, f) && LastWritten(Orders(log, taken, r), f) == Written(log[taken[j]].order, f)
    ensures j < 0 ==> LastWritten(Orders(log, taken, r), f).None?
    decreases |taken|
  {
    if taken == [] {
      j := -1;
    } else {
      var init, last := taken[..|taken| - 1], taken[|taken| - 1];
      j := LastOfOrders(log, init, r, f);
      OrdersStep(log, taken, r, f);
      if Writes(log, last, r, f) {
        j := |init|;
      }
    }
  }

  lemma {:induction false} LastInOrder(log: seq<Verdict>, taken: seq<nat>, r: Resource, n: nat, f: Field)
    returns (o: int)
    ensures -1 <= o < n && forall l: nat | o < l < n && l in taken :: !Writes(log, l, r, f)
    ensures o >= 0 ==> o in taken && Writes(log, o, r, f)
                       && LastWritten(InOrder(log, taken, r, n), f) == Written(log[o].order, f)
    ensures o < 0 ==> LastWritten(InOrder(log, taken, r, n), f).None?
    decreases n
  {
    if n == 0 {
      o := -1;
    } else {
      o := LastInOrder(log, taken, r, n - 1, f);
      InOrderStep(log, taken, r, n - 1, f);
      if n - 1 in taken && Writes(log, n - 1, r, f) {
        o := n - 1;
      }
    }
  }

  predicate Again(taken: seq<nat>, o: nat, j: nat) {
    exists l | j < l < |taken| :: taken[l] == o
  }

  /** Whatever took effect before a smaller offset did, took effect once more after it. */
  predicate Settled(taken: seq<nat>) {
    forall i, j | 0 <= i < j < |taken| && taken[i] > taken[j] :: Again(taken, taken[i], j)
  }

  /** In a settled history the last writer of a field is the one with the largest offset. */
  lemma SameLastWriter(log: seq<Verdict>, taken: seq<nat>, r: Resource, f: Field)
    requires Settled(taken)
    ensures SameLast(Orders(log, taken, r), InOrder(log, taken, r, |log|), f)
  {
    var j := LastOfOrders(log, taken, r, f);
    var o := LastInOrder(log, taken, r, |log|, f);
    LargestWrites(log, taken, r, f, j, o);
  }

  lemma LargestWrites(log: seq<Verdict>, taken: seq<nat>, r: Resource, f: Field, j: int, o: int)
    requires Settled(taken) && -1 <= j < |taken| && -1 <= o < |log|
    requires forall l | j < l < |taken| :: !Writes(log, taken[l], r, f)
    requires forall l: nat | o < l < |log| && l in taken :: !Writes(log, l, r, f)
    requires j >= 0 ==> Writes(log, taken[j], r, f)
    requires o >= 0 ==> o in taken && Writes(log, o, r, f)
    ensures (j < 0 <==> o < 0) && (j >= 0 ==> taken[j] == o)
  {
    if j >= 0 {
      assert taken[j] in taken;
    }
    if o >= 0 {
      var i :| 0 <= i < |taken| && taken[i] == o;
      LastIsLargest(log, taken, r, f, i, j);
    }
  }

  lemma LastIsLargest(log: seq<Verdict>, taken: seq<nat>, r: Resource, f: Field, i: nat, j: int)
    requires Settled(taken) && i < |taken| && -1 <= j < |taken| && Writes(log, taken[i], r, f)
    requires forall l | j < l < |taken| :: !Writes(log, taken[l], r, f)
    ensures i <= j && taken[i] <= taken[j]
  {
  }

  /** A field is written along the history exactly if it is written in log order. */
  lemma SameWritten(log: seq<Verdict>, taken: seq<nat>, r: Resource, f: Field)
    ensures LastWritten(Orders(log, taken, r), f).Some? <==> LastWritten(InOrder(log, taken, r, |log|), f).Some?
  {
    var j := LastOfOrders(log, taken, r, f);
    var o := LastInOrder(log, taken, r, |log|, f);
    if j >= 0 {
      assert taken[j] in taken;
    }
  }

  /** The two folds agree exactly when each field has the same last written value. */
  lemma InOrderIff(s: Intent, log: seq<Verdict>, taken: seq<nat>, r: Resource)
    ensures Fold(s, Orders(log, taken, r)) == Fold(s, InOrder(log, taken, r, |log|))
       <==> forall f :: SameLast(Orders(log, taken, r), InOrder(log, taken, r, |log|), f)
  {
    forall f
      ensures LastWritten(Orders(log, taken, r), f).Some? <==> LastWritten(InOrder(log, taken, r, |log|), f).Some?
    {
      SameWritten(log, taken, r, f);
    }
    FoldsAgreeIff(s, Orders(log, taken, r), InOrder(log, taken, r, |log|));
  }

  // ---------------------------------------------------------------- the invariant

  /** Since the last rewind effects come in log order, up to the committed offset. */
  predicate Advancing(track: Track, committed: nat) {
    && track.since <= |track.taken|
    && (forall i, j | track.since <= i < j < |track.taken| :: track.taken[i] <= track.taken[j])
    && (forall j | track.since <= j < |track.taken| :: track.taken[j] <= committed)
  }

  /** What is out of order is still to be delivered again, or missed its turn. */
  predicate Excused(track: Track, committed: nat) {
    forall i, j | 0 <= i < j < |track.taken| && track.taken[i] > track.taken[j] ::
      Again(track.taken, track.taken[i], j) || track.taken[i] >= committed || track.taken[i] in track.missed
  }

  predicate TrackInv(part: Partition, track: Track) {
    && Advancing(track, part.committed) && Excused(track, part.committed)
    && (forall j | 0 <= j < |track.taken| :: track.taken[j] < |part.log|)
  }


  lemma AgainGrows(taken: seq<nat>, c: nat, o: nat, j: nat)
    requires Again(taken, o, j)
    ensures Again(taken + [c], o, j)
  {
    var l :| j < l < |taken| && taken[l] == o;
    assert (taken + [c])[l] == o;
  }

  lemma PatchedKeeps(track: Track, c: nat)
    requires Advancing(track, c) && Excused(track, c)
    ensures Advancing(Patched(track, c), c) && Excused(Patched(track, c), c)
  {
    var q := Patched(track, c);
    forall i, j | 0 <= i < j < |q.taken| && q.taken[i] > q.taken[j]
      ensures Again(q.taken, q.taken[i], j) || q.taken[i] >= c || q.taken[i] in q.missed
    {
      if j < |track.taken| {
        if Again(track.taken, track.taken[i], j) {
          AgainGrows(track.taken, c, track.taken[i], j);
        }
      }
    }
  }

  /** An offset that took effect since the last rewind did so after every smaller one. */
  lemma TakenSince(track: Track, c: nat, i: nat, j: nat)
    requires Advancing(track, c) && i < j < |track.taken| && track.taken[i] == c > track.taken[j]
    requires c in track.taken[track.since..]
    ensures Again(track.taken, c, j)
  {
    var m :| 0 <= m < |track.taken[track.since..]| && track.taken[track.since..][m] == c;
    assert track.taken[track.since + m] == c;
  }

  lemma PassedKeeps(track: Track, c: nat)
    requires Advancing(track, c) && Excused(track, c)
    ensures Advancing(Passed(track, c), c + 1) && Excused(Passed(track, c), c + 1)
  {
    var q := Passed(track, c);
    forall i, j | 0 <= i < j < |q.taken| && q.taken[i] > q.taken[j]
      ensures Again(q.taken, q.taken[i], j) || q.taken[i] >= c + 1 || q.taken[i] in q.missed
    {
      if q.taken[i] == c && c !in q.missed {
        assert c in track.taken;
        TakenSince(track, c, i, j);
      }
    }
  }

  lemma RewoundKeeps(track: Track, c: nat, k: nat)
    requires Advancing(track, c) && Excused(track, c) && k <= c
    ensures Advancing(Rewound(track, c, k), k) && Excused(Rewound(track, c, k), k)
  {
  }

  predicate PartInv(part: Partition, track: Track) {
    && part.committed <= |part.log| && (!part.stage.Idle? ==> part.committed < |part.log|)
    && TrackInv(part, track)
  }

  predicate IntentInv(cfg: Config, start: map<Resource, Json>, w: World)
    requires ValidConfig(cfg) && |w.sys.parts| == |w.tracks| == cfg.partitions
  {
    && w.sys.objects.Keys == start.Keys
    && forall r | r in start :: FollowsAt(cfg, start[r], w, r)
  }

  predicate FollowsAt(cfg: Config, start: Json, w: World, r: Resource)
    requires ValidConfig(cfg) && |w.sys.parts| == |w.tracks| == cfg.partitions && r in w.sys.objects
  {
    Follows(start, w.sys.objects[r], w.sys.parts[Home(cfg, r)].log, w.tracks[Home(cfg, r)].taken, r)
  }

  /** The intent of the object is that of `start` and the orders of the history about it. */
  predicate Follows(start: Json, now: Json, log: seq<Verdict>, taken: seq<nat>, r: Resource) {
    IntentOf(now) == Fold(IntentOf(start), Orders(log, taken, r))
  }

  predicate Inv(cfg: Config, start: map<Resource, Json>, w: World)
    requires ValidConfig(cfg)
    ensures Inv(cfg, start, w) ==> Coherent(w)
  {
    && |w.sys.parts| == |w.tracks| == cfg.partitions
    && (forall i | 0 <= i < |w.tracks| :: PartInv(w.sys.parts[i], w.tracks[i]))
    && Routed(cfg, w.sys) && IntentInv(cfg, start, w)
  }

  lemma {:induction false} OrdersGrow(log: seq<Verdict>, more: seq<Verdict>, taken: seq<nat>, r: Resource)
    requires log <= more && forall j | 0 <= j < |taken| :: taken[j] < |log|
    ensures Orders(more, taken, r) == Orders(log, taken, r)
    decreases |taken|
  {
    if taken != [] {
      OrdersGrow(log, more, taken[..|taken| - 1], r);
    }
  }

  /** A step that changes no object: one partition may change, and its log may grow. */
  lemma SwapKeeps(cfg: Config, start: map<Resource, Json>, w: World, i: nat, q: Partition, track: Track)
    requires ValidConfig(cfg) && Inv(cfg, start, w) && i < |w.tracks| && PartInv(q, track)
    requires track.taken == w.tracks[i].taken && w.sys.parts[i].log <= q.log
    requires forall k | |w.sys.parts[i].log| <= k < |q.log| && q.log[k].Accepted? ::
               Home(cfg, Target(q.log[k].order.command)) == i
    ensures Inv(cfg, start, World(w.sys.(parts := w.sys.parts[i := q]), w.tracks[i := track]))
  {
    var v := World(w.sys.(parts := w.sys.parts[i := q]), w.tracks[i := track]);
    assert PartInv(w.sys.parts[i], w.tracks[i]);
    forall r | r in start
      ensures FollowsAt(cfg, start[r], v, r)
    {
      assert FollowsAt(cfg, start[r], w, r);
      if Home(cfg, r) == i {
        OrdersGrow(w.sys.parts[i].log, q.log, track.taken, r);
      }
    }
  }

  lemma OrdersMore(log: seq<Verdict>, taken: seq<nat>, c: nat, r: Resource)
    ensures Orders(log, taken + [c], r)
         == if About(log, c, r) then Orders(log, taken, r) + [log[c].order] else Orders(log, taken, r)
  {
    assert (taken + [c])[..|taken|] == taken;
  }

  lemma FoldMore(s: Intent, w: seq<Order>, o: Order)
    ensures Fold(s, w + [o]) == Act(Fold(s, w), o)
  {
    assert (w + [o])[..|w|] == w;
  }

  /** The workload itself when its order at offset `c` takes effect. */
  lemma IntentMore(start: Json, before: Json, log: seq<Verdict>, taken: seq<nat>, c: nat, order: Order, now: string)
    requires c < |log| && log[c] == Accepted(order) && Handled(order.command)
    requires Follows(start, before, log, taken, Target(order.command))
    ensures Follows(start, MergePatch(before, PatchBody(order, now)), log, taken + [c], Target(order.command))
  {
    OrdersMore(log, taken, c, Target(order.command));
    PatchActs(before, order, now);
    FoldMore(IntentOf(start), Orders(log, taken, Target(order.command)), order);
  }

  function Put(w: World, i: nat, q: Partition, hit: Resource, j: Json): World
    requires i < |w.tracks| == |w.sys.parts|
  {
    World(System(w.sys.parts[i := q], w.sys.objects[hit := j]), w.tracks[i := Patched(w.tracks[i], q.committed)])
  }

  lemma OtherFollows(start: Json, now: Json, log: seq<Verdict>, taken: seq<nat>, c: nat, r: Resource)
    requires Follows(start, now, log, taken, r) && !About(log, c, r)
    ensures Follows(start, now, log, taken + [c], r)
  {
    OrdersMore(log, taken, c, r);
  }

  lemma PutElsewhere(cfg: Config, start: Json, w: World, i: nat, q: Partition, hit: Resource, j: Json, r: Resource)
    requires ValidConfig(cfg) && |w.sys.parts| == |w.tracks| == cfg.partitions && r in w.sys.objects && r != hit
    requires i < |w.tracks| && q.log == w.sys.parts[i].log && About(q.log, q.committed, hit)
    requires FollowsAt(cfg, start, w, r)
    ensures FollowsAt(cfg, start, Put(w, i, q, hit, j), r)
  {
    if Home(cfg, r) == i {
      OtherFollows(start, w.sys.objects[r], q.log, w.tracks[i].taken, q.committed, r);
    }
  }

  lemma PutIntents(cfg: Config, start: map<Resource, Json>, w: World, i: nat, q: Partition, hit: Resource, j: Json)
    requires ValidConfig(cfg) && |w.sys.parts| == |w.tracks| == cfg.partitions && IntentInv(cfg, start, w)
    requires i < |w.tracks| && q.log == w.sys.parts[i].log && About(q.log, q.committed, hit) && hit in start
    requires FollowsAt(cfg, start[hit], Put(w, i, q, hit, j), hit)
    ensures IntentInv(cfg, start, Put(w, i, q, hit, j))
  {
    var v := Put(w, i, q, hit, j);
    forall r | r in start && r != hit
      ensures FollowsAt(cfg, start[r], v, r)
    {
      PutElsewhere(cfg, start[r], w, i, q, hit, j, r);
    }
  }

  /** A new object for the order at the committed offset, whose intent is the fold so far and that
      order. */
  lemma PutKeeps(cfg: Config, start: map<Resource, Json>, w: World, i: nat, q: Partition, hit: Resource, j: Json)
    requires ValidConfig(cfg) && Inv(cfg, start, w) && i < |w.tracks|
             && q.committed == w.sys.parts[i].committed < |q.log|
    requires q.log == w.sys.parts[i].log && About(q.log, q.committed, hit)
    requires hit in start && FollowsAt(cfg, start[hit], Put(w, i, q, hit, j), hit)
    ensures Inv(cfg, start, Put(w, i, q, hit, j))
  {
    PutPart(w.sys.parts[i], q, w.tracks[i]);
    RoutedKept(cfg, w.sys, Put(w, i, q, hit, j).sys);
    PutIntents(cfg, start, w, i, q, hit, j);
  }

  lemma PutPart(p: Partition, q: Partition, track: Track)
    requires PartInv(p, track) && q.log == p.log && q.committed == p.committed < |q.log|
    ensures PartInv(q, Patched(track, q.committed))
  {
    PatchedKeeps(track, q.committed);
  }

  function Effected(w: World, i: nat, q: Partition, order: Order, now: string): World
    requires i < |w.tracks| == |w.sys.parts| && Handled(order.command) && Target(order.command) in w.sys.objects
  {
    Put(w, i, q, Target(order.command), MergePatch(w.sys.objects[Target(order.command)], PatchBody(order, now)))
  }

  /** A patch that takes effect adds its order to the history and its action to the intent. */
  lemma EffectedKeeps(cfg: Config, start: map<Resource, Json>, w: World, i: nat, q: Partition, order: Order,
                      now: string)
    requires ValidConfig(cfg) && Inv(cfg, start, w) && i < |w.tracks| && PatchedTo(w.sys.parts[i], q, order, now)
    requires Target(order.command) in w.sys.objects
    ensures Inv(cfg, start, Effected(w, i, q, order, now))
  {
    var hit := Target(order.command);
    assert Home(cfg, hit) == i;
    assert FollowsAt(cfg, start[hit], w, hit);
    IntentMore(start[hit], w.sys.objects[hit], q.log, w.tracks[i].taken, q.committed, order, now);
    PutKeeps(cfg, start, w, i, q, hit, MergePatch(w.sys.objects[hit], PatchBody(order, now)));
  }

  lemma PatchMoves(cfg: Config, w: World, i: nat, reply: Reply, now: string) returns (q: Partition, order: Order)
    requires ValidConfig(cfg) && Coherent(w) && CanMove(cfg, w, Deliver(Patch(i, reply, now))) && TookEffect(reply)
    ensures i < |w.tracks| == |w.sys.parts| && PatchedTo(w.sys.parts[i], q, order, now)
            && Target(order.command) in w.sys.objects
    ensures Moved(cfg, w, Deliver(Patch(i, reply, now))) == Effected(w, i, q, order, now)
  {
    var part := w.sys.parts[i];
    order := Head(part).order;
    q := Answered(cfg, part.(effects := part.effects[part.committed := now]), reply);
  }

  lemma EffectKeeps(cfg: Config, start: map<Resource, Json>, w: World, i: nat, reply: Reply, now: string)
    requires ValidConfig(cfg) && Inv(cfg, start, w)
    requires CanMove(cfg, w, Deliver(Patch(i, reply, now))) && TookEffect(reply)
    ensures Inv(cfg, start, Moved(cfg, w, Deliver(Patch(i, reply, now))))
  {
    var q, order := PatchMoves(cfg, w, i, reply, now);
    EffectedKeeps(cfg, start, w, i, q, order, now);
  }

  lemma QuietKeeps(cfg: Config, start: map<Resource, Json>, w: World, step: Step)
    requires ValidConfig(cfg) && Inv(cfg, start, w) && CanMove(cfg, w, Deliver(step))
    requires !step.Append? && !(step.Patch? && TookEffect(step.reply)) && !step.Commit?
    ensures Inv(cfg, start, Moved(cfg, w, Deliver(step)))
  {
    var v := Moved(cfg, w, Deliver(step));
    assert PartInv(w.sys.parts[step.i], w.tracks[step.i]);
    var q := v.sys.parts[step.i];
    assert q.log == w.sys.parts[step.i].log && q.committed == w.sys.parts[step.i].committed;
    SwapKeeps(cfg, start, w, step.i, q, w.tracks[step.i]);
    assert v == World(w.sys.(parts := w.sys.parts[step.i := q]), w.tracks[step.i := w.tracks[step.i]]);
  }

  lemma AppendKeeps(cfg: Config, start: map<Resource, Json>, w: World, key: string, verdict: Verdict)
    requires ValidConfig(cfg) && Inv(cfg, start, w) && CanMove(cfg, w, Deliver(Append(key, verdict)))
    ensures Inv(cfg, start, Moved(cfg, w, Deliver(Append(key, verdict))))
  {
    var i := cfg.route(key) % cfg.partitions;
    var part := w.sys.parts[i];
    assert PartInv(part, w.tracks[i]);
    SwapKeeps(cfg, start, w, i, part.(log := part.log + [verdict]), w.tracks[i]);
    assert w.tracks[i := w.tracks[i]] == w.tracks;
  }

  lemma CommitKeeps(cfg: Config, start: map<Resource, Json>, w: World, i: nat, ack: Ack)
    requires ValidConfig(cfg) && Inv(cfg, start, w) && CanMove(cfg, w, Deliver(Commit(i, ack)))
    ensures Inv(cfg, start, Moved(cfg, w, Deliver(Commit(i, ack))))
  {
    var v := Moved(cfg, w, Deliver(Commit(i, ack)));
    assert PartInv(w.sys.parts[i], w.tracks[i]);
    PassedKeeps(w.tracks[i], w.sys.parts[i].committed);
    SwapKeeps(cfg, start, w, i, v.sys.parts[i], v.tracks[i]);
    assert v == World(w.sys.(parts := w.sys.parts[i := v.sys.parts[i]]), w.tracks[i := v.tracks[i]]);
  }

  lemma BackKeeps(cfg: Config, start: map<Resource, Json>, w: World, i: nat, k: nat)
    requires ValidConfig(cfg) && Inv(cfg, start, w) && CanMove(cfg, w, Back(i, k))
    ensures Inv(cfg, start, Moved(cfg, w, Back(i, k)))
  {
    assert PartInv(w.sys.parts[i], w.tracks[i]);
    RewoundKeeps(w.tracks[i], w.sys.parts[i].committed, k);
    SwapKeeps(cfg, start, w, i, Restarted(w.sys.parts[i]).(committed := k),
              Rewound(w.tracks[i], w.sys.parts[i].committed, k));
  }

  lemma MoveKeeps(cfg: Config, start: map<Resource, Json>, w: World, m: Move)
    requires ValidConfig(cfg) && Inv(cfg, start, w) && CanMove(cfg, w, m)
    ensures Inv(cfg, start, Moved(cfg, w, m))
  {
    if m.Back? {
      BackKeeps(cfg, start, w, m.i, m.k);
    } else if m.step.Append? {
      AppendKeeps(cfg, start, w, m.step.key, m.step.verdict);
    } else if m.step.Commit? {
      CommitKeeps(cfg, start, w, m.step.i, m.step.ack);
    } else if m.step.Patch? && TookEffect(m.step.reply) {
      EffectKeeps(cfg, start, w, m.step.i, m.step.reply, m.step.now);
    } else {
      QuietKeeps(cfg, start, w, m.step);
    }
  }

  // ---------------------------------------------------------------- runs

  predicate Plays(cfg: Config, w: World, moves: seq<Move>)
    requires ValidConfig(cfg)
    decreases |moves|
  {
    moves != [] ==> Coherent(w) && CanMove(cfg, w, moves[0]) && Plays(cfg, Moved(cfg, w, moves[0]), moves[1..])
  }

  function Played(cfg: Config, w: World, moves: seq<Move>): World
    requires ValidConfig(cfg) && Plays(cfg, w, moves)
    decreases |moves|
  {
    if moves == [] then w else Played(cfg, Moved(cfg, w, moves[0]), moves[1..])
  }

  lemma {:induction false} PlayKeeps(cfg: Config, start: map<Resource, Json>, w: World, moves: seq<Move>)
    requires ValidConfig(cfg) && Inv(cfg, start, w) && Plays(cfg, w, moves)
    ensures Inv(cfg, start, Played(cfg, w, moves))
    decreases |moves|
  {
    if moves != [] {
      MoveKeeps(cfg, start, w, moves[0]);
      PlayKeeps(cfg, start, Moved(cfg, w, moves[0]), moves[1..]);
    }
  }

  predicate Fresh(cfg: Config, w: World) {
    && Initial(cfg, w.sys) && |w.tracks| == cfg.partitions
    && forall i | 0 <= i < |w.tracks| :: w.tracks[i] == Track([], 0, {}, 0)
  }

  /** The partition has come back to where every command that ever took effect has been delivered
      again after the rewinds, and none of them missed its effect. */
  predicate CaughtUp(part: Partition, track: Track) {
    track.missed == {} && forall j | 0 <= j < |track.taken| :: track.taken[j] < part.committed
  }

  /** In every run with rewinds of any partition, to any committed offset, at any time: the intent
      of a workload is the fold of the orders about it in the order in which they took effect. It is
      also their fold in log order, each offset taken once, exactly when every field has the same
      last written value in both; and so it is whenever the partition has caught up. */
  lemma RewindsEndInOrder(cfg: Config, w: World, moves: seq<Move>, r: Resource)
    requires ValidConfig(cfg) && Fresh(cfg, w) && Plays(cfg, w, moves) && r in w.sys.objects
    ensures var v, i := Played(cfg, w, moves), Home(cfg, r);
      i < |v.sys.parts| && i < |v.tracks| && r in v.sys.objects &&
      var log, taken := v.sys.parts[i].log, v.tracks[i].taken;
      && IntentOf(v.sys.objects[r]) == Fold(IntentOf(w.sys.objects[r]), Orders(log, taken, r))
      && (IntentOf(v.sys.objects[r]) == Fold(IntentOf(w.sys.objects[r]), InOrder(log, taken, r, |log|))
          <==> forall f :: SameLast(Orders(log, taken, r), InOrder(log, taken, r, |log|), f))
      && (CaughtUp(v.sys.parts[i], v.tracks[i]) ==>
            IntentOf(v.sys.objects[r]) == Fold(IntentOf(w.sys.objects[r]), InOrder(log, taken, r, |log|)))
  {
    var start, i := w.sys.objects, Home(cfg, r);
    assert Inv(cfg, start, w);
    PlayKeeps(cfg, start, w, moves);
    var v := Played(cfg, w, moves);
    assert PartInv(v.sys.parts[i], v.tracks[i]);
    var log, taken := v.sys.parts[i].log, v.tracks[i].taken;
    InOrderIff(IntentOf(start[r]), log, taken, r);
    if CaughtUp(v.sys.parts[i], v.tracks[i]) {
      assert Settled(taken);
      forall f ensures SameLast(Orders(log, taken, r), InOrder(log, taken, r, |log|), f) {
        SameLastWriter(log, taken, r, f);
      }
    }
  }
}
