/**
 The trainer's replay pool against the manifest. The queued trainer commands are exactly what separates
 the pool from the active shards, every retired shard has exactly one removal or report in flight, and
 the pool never outgrows the trainer's shard cache.
 */
module ReplaySync {
  import opened Board
  import opened Manifest
  import opened Coordination
  import opened CoordinationSafety

  // ----- the pool after the queued commands -------------------------------------------------------

  /** `ReplayPool.add` and `ReplayPool.remove`. */
  function Applied(pool: set<nat>, c: TrainerCommand): set<nat> {
    match c
    case AddShard(id) => pool + {id}
    case RemoveShard(id) => pool - {id}
    case _ => pool
  }

  function After(pool: set<nat>, commands: seq<TrainerCommand>): set<nat>
    decreases |commands|
  {
    if commands == [] then pool else After(Applied(pool, commands[0]), commands[1..])
  }

  lemma {:induction false} AfterAppend(pool: set<nat>, a: seq<TrainerCommand>, b: seq<TrainerCommand>)
    ensures After(pool, a + b) == After(After(pool, a), b)
    decreases |a|
  {
    if a == [] {
      assert a + b == b;
    } else {
      assert (a + b)[1..] == a[1..] + b;
      AfterAppend(Applied(pool, a[0]), a[1..], b);
    }
  }

  lemma AfterOne(pool: set<nat>, c: TrainerCommand)
    ensures After(pool, [c]) == Applied(pool, c)
  {
    assert [c][1..] == [];
    assert After(Applied(pool, c), []) == Applied(pool, c);
  }

  /** The removal commands take exactly the retired shards out of the pool. */
  lemma {:induction false} AfterRemovals(pool: set<nat>, before: seq<Shard>, after: seq<Shard>, from: nat)
    requires |before| == |after| && from <= |before|
    ensures After(pool, Removals(before, after, from))
         == pool - (set id | id in RetiredIds(before, after) && from <= id)
    decreases |before| - from
  {
    if from < |before| {
      var gone := set id | id in RetiredIds(before, after) && from <= id;
      var later := set id | id in RetiredIds(before, after) && from + 1 <= id;
      if before[from].active && !after[from].active {
        assert gone == later + {from};
        assert Removals(before, after, from)[1..] == Removals(before, after, from + 1);
        AfterRemovals(pool - {from}, before, after, from + 1);
      } else {
        assert gone == later;
        AfterRemovals(pool, before, after, from + 1);
      }
    }
  }

  // ----- the invariant ----------------------------------------------------------------------------

  /** The shard rows the trainer has been told of: all but one that is just being registered. */
  function Announced(d: Durable, pc: Pc): seq<Shard> {
    if pc.Registering? && d.shards != [] then d.shards[..|d.shards| - 1] else d.shards
  }

  /** The pool and the queued commands together amount to the active shards. */
  predicate Synced(d: Durable, v: Volatile, pc: Pc) {
    && After(v.trainer.pool, v.trainerCommands) == ActiveIds(Announced(d, pc))
    && (pc.Registering? ==> d.shards != [] && d.shards[|d.shards| - 1].active)
  }

  function RemovalCount(commands: seq<TrainerCommand>, id: nat): nat {
    if commands == [] then 0 else One(commands[0] == RemoveShard(id)) + RemovalCount(commands[1..], id)
  }

  function ReportCount(events: seq<TrainerEvent>, id: nat): nat {
    if events == [] then 0 else One(events[0] == ShardRemoved(id)) + ReportCount(events[1..], id)
  }

  /** A file waits for deletion exactly while its removal, or the report of it, is in flight, once. */
  predicate CountedAt(v: Volatile, id: nat) {
    RemovalCount(v.trainerCommands, id) + ReportCount(v.trainerEvents, id) == One(id in v.deletions)
  }

  ghost predicate Counted(v: Volatile) {
    forall id: nat :: CountedAt(v, id)
  }

  ghost predicate Following(config: Config, s: State)
    requires ValidConfig(config)
  {
    Inv(config, s) && (s.phase.Running? ==> Synced(s.d, s.phase.v, s.phase.pc) && Counted(s.phase.v))
  }

  lemma {:induction false} RemovalAppend(a: seq<TrainerCommand>, b: seq<TrainerCommand>, id: nat)
    ensures RemovalCount(a + b, id) == RemovalCount(a, id) + RemovalCount(b, id)
  {
    if a == [] {
      assert a + b == b;
    } else {
      assert (a + b)[1..] == a[1..] + b;
      RemovalAppend(a[1..], b, id);
    }
  }

  lemma RemovalOne(c: TrainerCommand, id: nat)
    ensures RemovalCount([c], id) == One(c == RemoveShard(id))
  {
    assert [c][1..] == [];
  }

  lemma {:induction false} ReportSnoc(events: seq<TrainerEvent>, e: TrainerEvent, id: nat)
    ensures ReportCount(events + [e], id) == ReportCount(events, id) + One(e == ShardRemoved(id))
  {
    if events == [] {
      assert events + [e] == [e];
      assert [e][1..] == [];
    } else {
      assert (events + [e])[1..] == events[1..] + [e];
      ReportSnoc(events[1..], e, id);
    }
  }

  lemma {:induction false} RemovalsOnce(before: seq<Shard>, after: seq<Shard>, from: nat, id: nat)
    requires |before| == |after| && from <= |before|
    ensures RemovalCount(Removals(before, after, from), id) == One(id in RetiredIds(before, after) && from <= id)
    decreases |before| - from
  {
    if from < |before| {
      RemovalsOnce(before, after, from + 1, id);
      if before[from].active && !after[from].active {
        assert Removals(before, after, from)[1..] == Removals(before, after, from + 1);
      }
    }
  }

  // ----- the trainer ------------------------------------------------------------------------------

  lemma TakeSynced(s: State)
    requires TrainerEnabled(s, TrainerTake) && Synced(s.d, s.phase.v, s.phase.pc)
    ensures Synced(s.d, TrainerApply(s, TrainerTake).phase.v, s.phase.pc)
  {
    var v, w := s.phase.v, TrainerApply(s, TrainerTake).phase.v;
    assert w.trainer.pool == Applied(v.trainer.pool, v.trainerCommands[0]);
    assert w.trainerCommands == v.trainerCommands[1..];
  }

  lemma TakeCounted(s: State, id: nat)
    requires TrainerEnabled(s, TrainerTake) && CountedAt(s.phase.v, id)
    ensures CountedAt(TrainerApply(s, TrainerTake).phase.v, id)
  {
    var v := s.phase.v;
    match v.trainerCommands[0] {
      case AddShard(_) =>
      case RemoveShard(k) => ReportSnoc(v.trainerEvents, ShardRemoved(k), id);
      case Decision(_, _) => ReportSnoc(v.trainerEvents, DecisionApplied, id);
      case PendingCommand =>
    }
  }

  lemma TakeFollows(config: Config, s: State)
    requires ValidConfig(config) && Following(config, s) && TrainerEnabled(s, TrainerTake)
    requires Inv(config, TrainerApply(s, TrainerTake))
    ensures Following(config, TrainerApply(s, TrainerTake))
  {
    TakeFrame(s);
    TakeSynced(s);
    forall id: nat ensures CountedAt(TrainerApply(s, TrainerTake).phase.v, id) {
      assert CountedAt(s.phase.v, id);
      TakeCounted(s, id);
    }
  }

  lemma TrainerFollows(config: Config, s: State, a: Action)
    requires ValidConfig(config) && Following(config, s) && TrainerEnabled(s, a)
    ensures Following(config, TrainerApply(s, a))
  {
    TrainerStepValid(config, s, a);
    match a {
      case TrainerTake => TakeFollows(config, s);
      case TrainerSave =>
        forall id: nat ensures CountedAt(TrainerApply(s, a).phase.v, id) {
          assert CountedAt(s.phase.v, id);
        }
      case TrainerPut =>
        forall id: nat ensures CountedAt(TrainerApply(s, a).phase.v, id) {
          assert CountedAt(s.phase.v, id);
          ReportSnoc(s.phase.v.trainerEvents, CandidateEvent, id);
        }
      case _ => assert false;
    }
  }

  lemma ActorFollows(config: Config, s: State, a: Action)
    requires ValidConfig(config) && Following(config, s) && ActorEnabled(s, a)
    ensures Following(config, ActorApply(config, s, a))
  {
    ActorStepValid(config, s, a);
    ActorFrame(config, s, a);
    var t := ActorApply(config, s, a);
    forall id: nat ensures CountedAt(t.phase.v, id) {
      assert CountedAt(s.phase.v, id);
    }
  }

  // ----- the event loop ---------------------------------------------------------------------------

  lemma RetireSynced(d: Durable, v: Volatile, e: Durable, w: Volatile)
    requires Synced(d, v, Registering) && OnlyDeactivates(d.shards, e.shards)
    requires w.trainer == v.trainer
    requires w.trainerCommands == v.trainerCommands + [AddShard(|d.shards| - 1)] + Removals(d.shards, e.shards, 0)
    ensures Synced(e, w, AtLoop)
  {
    var n := |d.shards| - 1;
    var pool := v.trainer.pool;
    var removals := Removals(d.shards, e.shards, 0);
    AfterAppend(pool, v.trainerCommands + [AddShard(n)], removals);
    AfterAppend(pool, v.trainerCommands, [AddShard(n)]);
    AfterOne(After(pool, v.trainerCommands), AddShard(n));
    AfterRemovals(ActiveIds(d.shards[..n]) + {n}, d.shards, e.shards, 0);
    assert ActiveIds(d.shards[..n]) + {n} == ActiveIds(d.shards);
    assert ActiveIds(e.shards)
        == ActiveIds(d.shards) - (set id | id in RetiredIds(d.shards, e.shards) && 0 <= id);
  }

  lemma RetireCounted(d: Durable, v: Volatile, e: Durable, w: Volatile, id: nat)
    requires CountedAt(v, id) && |e.shards| == |d.shards| && d.shards != []
    requires forall k :: k in v.deletions ==> k < |d.shards| && !d.shards[k].active
    requires w.trainerEvents == v.trainerEvents && w.deletions == v.deletions + RetiredIds(d.shards, e.shards)
    requires w.trainerCommands == v.trainerCommands + [AddShard(|d.shards| - 1)] + Removals(d.shards, e.shards, 0)
    ensures CountedAt(w, id)
  {
    var added := AddShard(|d.shards| - 1);
    RemovalAppend(v.trainerCommands + [added], Removals(d.shards, e.shards, 0), id);
    RemovalAppend(v.trainerCommands, [added], id);
    RemovalOne(added, id);
    RemovalsOnce(d.shards, e.shards, 0, id);
  }

  lemma RetireFollows(config: Config, s: State)
    requires ValidConfig(config) && Following(config, s) && LoopEnabled(s, RetireShards)
    ensures Following(config, LoopApply(config, s, RetireShards))
  {
    var t := LoopApply(config, s, RetireShards);
    RetireShardsValid(config, s);
    ShardsRetiredValid(s.d, config.capacity);
    RetireSynced(s.d, s.phase.v, t.d, t.phase.v);
    forall id: nat ensures CountedAt(t.phase.v, id) {
      assert CountedAt(s.phase.v, id);
      RetireCounted(s.d, s.phase.v, t.d, t.phase.v, id);
    }
  }

  lemma RemovedCounted(v: Volatile, w: Volatile, id: nat)
    requires CountedAt(v, id) && v.trainerEvents != [] && v.trainerEvents[0].ShardRemoved?
    requires w == v.(trainerEvents := v.trainerEvents[1..], deletions := v.deletions - {v.trainerEvents[0].id})
    ensures CountedAt(w, id)
  {
  }

  lemma RemovedFollows(config: Config, s: State)
    requires ValidConfig(config) && Following(config, s) && LoopEnabled(s, HandleRemoved)
    ensures Following(config, LoopApply(config, s, HandleRemoved))
  {
    var t := LoopApply(config, s, HandleRemoved);
    HandleRemovedValid(config, s);
    RemovedFrame(config, s);
    forall id: nat ensures CountedAt(t.phase.v, id) {
      assert CountedAt(s.phase.v, id);
      RemovedCounted(s.phase.v, t.phase.v, id);
    }
  }

  lemma InsertFollows(config: Config, s: State)
    requires ValidConfig(config) && Following(config, s) && LoopEnabled(s, HandleShard)
    ensures Following(config, LoopApply(config, s, HandleShard))
  {
    var t := LoopApply(config, s, HandleShard);
    HandleShardValid(config, s);
    assert t.d.shards[..|t.d.shards| - 1] == s.d.shards;
    forall id: nat ensures CountedAt(t.phase.v, id) {
      assert CountedAt(s.phase.v, id);
    }
  }

  lemma SameCounted(v: Volatile, w: Volatile)
    requires Counted(v) && w.trainerCommands == v.trainerCommands && w.deletions == v.deletions
    requires w.trainerEvents == v.trainerEvents
          || (v.trainerEvents != [] && !v.trainerEvents[0].ShardRemoved? && w.trainerEvents == v.trainerEvents[1..])
    ensures Counted(w)
  {
    forall id: nat ensures CountedAt(w, id) {
      assert CountedAt(v, id);
    }
  }

  predicate TellsNothing(a: Action) {
    a.HandleCandidate? || a.AddRow? || a.HandleArena? || a.HandleApplied? || a.HandleReloaded? || a.QueueGeneration?
  }

  /** The steps that neither touch the shards nor tell the trainer of one. */
  lemma OtherFrame(config: Config, s: State, a: Action)
    requires ValidConfig(config) && LoopEnabled(s, a) && TellsNothing(a)
    ensures var t := LoopApply(config, s, a);
            && t.phase.Running? && t.d.shards == s.d.shards && !t.phase.pc.Registering? && !s.phase.pc.Registering?
            && (var v, w := s.phase.v, t.phase.v;
                && w.trainer == v.trainer && w.trainerCommands == v.trainerCommands && w.deletions == v.deletions
                && (w.trainerEvents == v.trainerEvents
                    || (v.trainerEvents != [] && !v.trainerEvents[0].ShardRemoved?
                        && w.trainerEvents == v.trainerEvents[1..])))
  {
  }

  lemma OtherFollows(config: Config, s: State, a: Action)
    requires ValidConfig(config) && Following(config, s) && LoopEnabled(s, a) && TellsNothing(a)
    requires Inv(config, LoopApply(config, s, a))
    ensures Following(config, LoopApply(config, s, a))
  {
    OtherFrame(config, s, a);
    SameCounted(s.phase.v, LoopApply(config, s, a).phase.v);
  }

  lemma DecisionFollows(config: Config, s: State, pruned: set<nat>)
    requires ValidConfig(config) && Following(config, s) && LoopEnabled(s, SendDecision(pruned))
    ensures Following(config, LoopApply(config, s, SendDecision(pruned)))
  {
    var v := s.phase.v;
    var t := LoopApply(config, s, SendDecision(pruned));
    var c := Decision(s.d.champion.value, s.phase.pc.pause);
    SendDecisionValid(config, s, pruned);
    AfterAppend(v.trainer.pool, v.trainerCommands, [c]);
    AfterOne(After(v.trainer.pool, v.trainerCommands), c);
    forall id: nat ensures CountedAt(t.phase.v, id) {
      assert CountedAt(v, id);
      RemovalAppend(v.trainerCommands, [c], id);
      RemovalOne(c, id);
    }
  }

  lemma LaunchFollows(config: Config, s: State)
    requires ValidConfig(config) && Following(config, s) && Enabled(s, Launch)
    ensures Following(config, Apply(config, s, Launch))
  {
    LaunchValid(config, s);
    var t := Apply(config, s, Launch);
    AfterOne(t.phase.v.trainer.pool, PendingCommand);
    forall id: nat ensures CountedAt(t.phase.v, id) {
      RemovalOne(PendingCommand, id);
    }
  }

  lemma LoopFollows(config: Config, s: State, a: Action)
    requires ValidConfig(config) && Following(config, s) && LoopEnabled(s, a)
    requires Inv(config, LoopApply(config, s, a))
    ensures Following(config, LoopApply(config, s, a))
  {
    if a.HandleShard? {
      InsertFollows(config, s);
    } else if a.RetireShards? {
      RetireFollows(config, s);
    } else if a.HandleRemoved? {
      RemovedFollows(config, s);
    } else if a.SendDecision? {
      DecisionFollows(config, s, a.pruned);
    } else {
      OtherFollows(config, s, a);
    }
  }

  lemma StepFollows(config: Config, s: State, a: Action)
    requires ValidConfig(config) && Following(config, s) && Enabled(s, a)
    ensures Following(config, Apply(config, s, a))
  {
    StepValid(config, s, a);
    if a.Launch? {
      LaunchFollows(config, s);
    } else if ActorEnabled(s, a) {
      ActorFollows(config, s, a);
    } else if TrainerEnabled(s, a) {
      TrainerFollows(config, s, a);
    } else if LoopEnabled(s, a) {
      LoopFollows(config, s, a);
    }
  }

  lemma {:induction false} RunFollows(config: Config, s: State, actions: seq<Action>)
    requires ValidConfig(config) && Following(config, s) && Run(config, s, actions).Some?
    ensures Following(config, Run(config, s, actions).value)
    decreases |actions|
  {
    if actions != [] {
      StepFollows(config, s, actions[0]);
      RunFollows(config, Apply(config, s, actions[0]), actions[1..]);
    }
  }

  /**
   In every reachable state the pool, once the trainer has handled its queue, holds exactly the active
   shards of the manifest; and every file that waits for deletion has exactly one removal or report in
   flight, so none is forgotten and none is unlinked twice.
   */
  lemma PoolFollowsManifest(config: Config, actions: seq<Action>)
    requires ValidConfig(config) && Run(config, START, actions).Some?
    ensures var s := Run(config, START, actions).value;
            s.phase.Running? ==>
              && After(s.phase.v.trainer.pool, s.phase.v.trainerCommands) == ActiveIds(Announced(s.d, s.phase.pc))
              && forall id: nat :: CountedAt(s.phase.v, id)
  {
    RunFollows(config, START, actions);
  }
}
