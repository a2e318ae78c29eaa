/** The records of delivery with rewinds: nothing is lost, an applied event implies an effect, and
    duplicates are bounded by the restarts and by how far offsets were set back. */
module RewindRecords {
  import opened JsonMerge
  import opened Commands
  import opened Delivery
  import opened Rewind

  predicate RecordsInv(part: Partition, track: Track) {
    && part.committed <= |part.log| && (!part.stage.Idle? ==> part.committed < |part.log|)
    && (part.stage.Publishing? || part.stage.Committing? ==> !Poison(Head(part)))
    && (part.stage == Publishing(Applied) ==> part.committed in track.taken)
    && (part.stage.Committing? ==> Recorded(part, part.committed))
    && (forall n | 0 <= n < part.committed :: Recorded(part, n) && !Poison(part.log[n]))
    && (forall j | 0 <= j < |part.records| && part.records[j].outcome.Applied? :: part.records[j].offset in track.taken)
    && |part.records| <= part.committed + part.crashes + track.rewound + (if part.stage.Committing? then 1 else 0)
  }

  /** A partition that has restarted at `k`, or only gone on or been given more messages. */
  lemma StageKeeps(part: Partition, track: Track, q: Partition, r: Track)
    requires RecordsInv(part, track) && part.log <= q.log && q.records == part.records && q.committed <= part.committed
    requires track.taken <= r.taken && (!q.stage.Idle? ==> q.committed < |q.log|) && part.crashes <= q.crashes
    requires q.stage.Publishing? || q.stage.Committing? ==> !Poison(Head(q))
    requires q.stage == Publishing(Applied) ==> q.committed in r.taken
    requires q.stage.Committing? ==> part.stage.Committing? && q.committed == part.committed
    requires r.rewound == track.rewound + (part.committed - q.committed)
    requires part.stage.Committing? && !q.stage.Committing? ==> q.crashes > part.crashes
    ensures RecordsInv(q, r)
  {
    RecordedSame(part, q);
    forall n | 0 <= n < q.committed
      ensures Recorded(q, n) && !Poison(q.log[n])
    {
      assert Recorded(part, n) && part.log[n] == q.log[n];
    }
    forall j | 0 <= j < |q.records| && q.records[j].outcome.Applied?
      ensures q.records[j].offset in r.taken
    {
      assert part.records[j].offset in track.taken;
    }
  }

  lemma PublishedKeepsRecords(part: Partition, track: Track, ack: Ack)
    requires RecordsInv(part, track) && part.stage.Publishing?
    ensures RecordsInv(Published(part, ack), track)
  {
    var rec := Record(part.committed, part.stage.outcome);
    var kept, q := part.(records := part.records + [rec]), Published(part, ack);
    RecordsGrow(part, rec);
    if ack == Failed(false) {
      StageKeeps(part, track, q, track);
    } else {
      RecordedSame(kept, q);
      forall n | 0 <= n < q.committed
        ensures Recorded(q, n)
      {
        assert Recorded(part, n);
      }
    }
  }

  lemma AdvancedKeepsRecords(part: Partition, track: Track, ack: Ack)
    requires RecordsInv(part, track) && part.stage.Committing? && track.since <= |track.taken|
    ensures RecordsInv(Advanced(part, ack),
                       if ack.Acked? || ack.tookEffect then Passed(track, part.committed) else track)
  {
    var q := Advanced(part, ack);
    RecordedSame(part, q);
    if ack == Failed(false) {
      StageKeeps(part, track, q, track);
    } else {
      forall n | 0 <= n < q.committed
        ensures Recorded(q, n)
      {
        assert Recorded(part, n);
      }
    }
  }

  lemma PatchKeepsRecords(cfg: Config, w: World, i: nat, reply: Reply, now: string)
    requires ValidConfig(cfg) && Coherent(w) && CanMove(cfg, w, Deliver(Patch(i, reply, now)))
    requires RecordsInv(w.sys.parts[i], w.tracks[i])
    ensures var v := Moved(cfg, w, Deliver(Patch(i, reply, now))); RecordsInv(v.sys.parts[i], v.tracks[i])
  {
    var v := Moved(cfg, w, Deliver(Patch(i, reply, now)));
    StageKeeps(w.sys.parts[i], w.tracks[i], v.sys.parts[i], v.tracks[i]);
  }

  ghost predicate AllRecords(cfg: Config, w: World) {
    |w.tracks| == |w.sys.parts| == cfg.partitions
    && forall i | 0 <= i < |w.tracks| :: RecordsInv(w.sys.parts[i], w.tracks[i])
  }

  lemma QuietKeepsRecords(cfg: Config, w: World, step: Step)
    requires ValidConfig(cfg) && Coherent(w) && CanMove(cfg, w, Deliver(step)) && (step.Poll? || step.Crash?)
    requires RecordsInv(w.sys.parts[step.i], w.tracks[step.i])
    ensures var v := Moved(cfg, w, Deliver(step)); RecordsInv(v.sys.parts[step.i], v.tracks[step.i])
  {
    var v := Moved(cfg, w, Deliver(step));
    StageKeeps(w.sys.parts[step.i], w.tracks[step.i], v.sys.parts[step.i], v.tracks[step.i]);
  }

  lemma MoveKeepsRecords(cfg: Config, w: World, m: Move)
    requires ValidConfig(cfg) && Coherent(w) && AllRecords(cfg, w) && CanMove(cfg, w, m)
    ensures AllRecords(cfg, Moved(cfg, w, m))
  {
    if m.Back? {
      var q := Restarted(w.sys.parts[m.i]).(committed := m.k);
      StageKeeps(w.sys.parts[m.i], w.tracks[m.i], q, Rewound(w.tracks[m.i], w.sys.parts[m.i].committed, m.k));
    } else {
      match m.step
      case Append(key, verdict) =>
        var i := cfg.route(key) % cfg.partitions;
        var part := w.sys.parts[i];
        StageKeeps(part, w.tracks[i], part.(log := part.log + [verdict]), w.tracks[i]);
      case Patch(i, reply, now) => PatchKeepsRecords(cfg, w, i, reply, now);
      case Publish(i, ack) => PublishedKeepsRecords(w.sys.parts[i], w.tracks[i], ack);
      case Commit(i, ack) => AdvancedKeepsRecords(w.sys.parts[i], w.tracks[i], ack);
      case _ => QuietKeepsRecords(cfg, w, m.step);
    }
  }

  lemma {:induction false} PlayKeepsRecords(cfg: Config, w: World, moves: seq<Move>)
    requires ValidConfig(cfg) && AllRecords(cfg, w) && Plays(cfg, w, moves)
    ensures AllRecords(cfg, Played(cfg, w, moves))
    decreases |moves|
  {
    if moves != [] {
      MoveKeepsRecords(cfg, w, moves[0]);
      PlayKeepsRecords(cfg, Moved(cfg, w, moves[0]), moves[1..]);
    }
  }

  /** In every run with rewinds of any partition: every offset below the committed one has a record
      and is no poison, an applied event implies an effect, and there are at most as many records
      as committed offsets, restarts, offsets rewound over, and one more. */
  lemma RecordsSurviveRewinds(cfg: Config, w: World, moves: seq<Move>, i: nat)
    requires ValidConfig(cfg) && Fresh(cfg, w) && Plays(cfg, w, moves) && i < cfg.partitions
    ensures var v := Played(cfg, w, moves);
      i < |v.sys.parts| && i < |v.tracks| &&
      var part, track := v.sys.parts[i], v.tracks[i];
      && part.committed <= |part.log|
      && (forall n | 0 <= n < part.committed :: Recorded(part, n) && !Poison(part.log[n]))
      && (forall j | 0 <= j < |part.records| && part.records[j].outcome.Applied? ::
          part.records[j].offset in track.taken)
      && |part.records| <= part.committed + part.crashes + track.rewound + 1
  {
    assert AllRecords(cfg, w);
    PlayKeepsRecords(cfg, w, moves);
    var v := Played(cfg, w, moves);
    assert RecordsInv(v.sys.parts[i], v.tracks[i]);
  }
}
