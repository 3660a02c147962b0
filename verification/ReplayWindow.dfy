/**
 The replay window: shards are all of one size, so the capacity in games bounds the shards in the
 trainer's pool, and a launch from within capacity keeps the pool inside the shard cache.
 */
module ReplayWindow {
  import opened Board
  import opened Manifest
  import opened Coordination
  import opened CoordinationSafety
  import opened ReplaySync
  import Rng

  /** The configuration check: a batch is a whole number of shards. */
  predicate WholeShards(config: Config) {
    ValidConfig(config) && config.batch % config.chunk == 0
  }

  /** `cache_limit` of the pool: the capacity in shards, rounded up, and one more. */
  function CacheLimit(config: Config): nat
    requires ValidConfig(config)
  {
    (config.capacity + config.chunk - 1) / config.chunk + 1
  }

  // ----- all shards have one size -----------------------------------------------------------------

  predicate EvenItems(chunk: nat, pipe: seq<Item>) {
    forall i :: 0 <= i < |pipe| && pipe[i].Gen? ==> pipe[i].interval.games == chunk
  }

  predicate EvenShards(chunk: nat, shards: seq<Shard>) {
    forall i :: 0 <= i < |shards| ==> shards[i].interval.games == chunk
  }

  ghost predicate Even(config: Config, s: State)
    requires ValidConfig(config)
  {
    EvenShards(config.chunk, s.d.shards) && (s.phase.Running? ==> EvenItems(config.chunk, Pipe(config, s.phase.v)))
  }

  lemma {:induction false} ChunksEven(champion: nat, first: nat, games: nat, chunk: nat)
    requires chunk > 0 && games % chunk == 0
    ensures EvenItems(chunk, Batch(champion, Chunks(first, games, chunk)))
    decreases games
  {
    if games > 0 {
      var intervals := Chunks(first, games, chunk);
      LeastMultiple(games, chunk);
      if games > chunk {
        assert intervals[1..] == Chunks(first + chunk, games - chunk, chunk);
        ChunksEven(champion, first + chunk, games - chunk, chunk);
      } else {
        assert intervals[1..] == [];
      }
    }
  }

  lemma LeastMultiple(games: nat, chunk: nat)
    requires chunk > 0 && games > 0 && games % chunk == 0
    ensures games >= chunk && (games - chunk) % chunk == 0
  {
    assert games == games / chunk * chunk;
    var k := games / chunk - 1;
    assert games - chunk == k * chunk;
    Rng.MulMod(k, chunk);
  }

  lemma CommandEven(config: Config, commands: seq<ActorCommand>, c: ActorCommand)
    requires WholeShards(config)
    ensures CommandItems(config, commands + [c]) == CommandItems(config, commands) + CommandItem(config, c)
    ensures EvenItems(config.chunk, CommandItem(config, c))
  {
    CommandItemsSnoc(config, commands, c);
    match c {
      case Generate(champion, first) => ChunksEven(champion, first, config.batch, config.chunk);
      case Arena(_) =>
      case Reload =>
    }
  }

  lemma EvenConcat(chunk: nat, a: seq<Item>, b: seq<Item>)
    ensures EvenItems(chunk, a + b) <==> EvenItems(chunk, a) && EvenItems(chunk, b)
  {
    assert forall i :: 0 <= i < |a| ==> (a + b)[i] == a[i];
    assert forall i :: 0 <= i < |b| ==> (a + b)[|a| + i] == b[i];
  }

  lemma Regroup(a: seq<Item>, b: seq<Item>, c: seq<Item>)
    ensures a + (b + c) == (a + b) + c
  {
  }

  /** A command is sent to the actor. */
  lemma SendEven(config: Config, v: Volatile, w: Volatile, c: ActorCommand)
    requires WholeShards(config) && EvenItems(config.chunk, Pipe(config, v))
    requires w.actorEvents == v.actorEvents && w.actor == v.actor && w.actorCommands == v.actorCommands + [c]
    ensures EvenItems(config.chunk, Pipe(config, w))
  {
    CommandEven(config, v.actorCommands, c);
    Regroup(EventItems(v.actorEvents) + ActorItems(v.actor), CommandItems(config, v.actorCommands),
            CommandItem(config, c));
    EvenConcat(config.chunk, Pipe(config, v), CommandItem(config, c));
  }

  /** The coordinator takes an event of the actor. */
  lemma PopEven(config: Config, v: Volatile, w: Volatile)
    requires ValidConfig(config) && EvenItems(config.chunk, Pipe(config, v)) && v.actorEvents != []
    requires w.actorEvents == v.actorEvents[1..] && w.actor == v.actor && w.actorCommands == v.actorCommands
    ensures EvenItems(config.chunk, Pipe(config, w))
    ensures v.actorEvents[0].ShardEvent? ==> v.actorEvents[0].interval.games == config.chunk
  {
    PopEvent(config, v);
    SamePipe(config, v.(actorEvents := v.actorEvents[1..]), w);
    EvenConcat(config.chunk, EventItem(v.actorEvents[0]), Pipe(config, w));
    if v.actorEvents[0].ShardEvent? {
      assert EventItem(v.actorEvents[0])[0].interval == v.actorEvents[0].interval;
    }
  }

  lemma PoppingEven(config: Config, s: State, a: Action)
    requires WholeShards(config) && Even(config, s) && LoopEnabled(s, a)
    requires a.HandleShard? || a.HandleArena? || a.HandleReloaded?
    ensures Even(config, LoopApply(config, s, a))
  {
    PopEven(config, s.phase.v, LoopApply(config, s, a).phase.v);
  }

  lemma SendingEven(config: Config, s: State, a: Action)
    requires WholeShards(config) && Inv(config, s) && Even(config, s) && LoopEnabled(s, a)
    requires a.AddRow? || a.SendDecision? || a.QueueGeneration?
    ensures Even(config, LoopApply(config, s, a))
  {
    var c := if a.AddRow? then Arena(|s.d.attempts|) else if a.SendDecision? then Reload
             else Generate(s.d.champion.value, s.d.nextGame);
    if a.AddRow? {
      NoCandidateAfterStop(config, s);
    }
    SendEven(config, s.phase.v, LoopApply(config, s, a).phase.v, c);
  }

  lemma QuietEven(config: Config, s: State, a: Action)
    requires ValidConfig(config) && Even(config, s) && LoopEnabled(s, a)
    requires a.HandleCandidate? || a.HandleRemoved? || a.HandleApplied?
    ensures Even(config, LoopApply(config, s, a))
  {
    SamePipe(config, s.phase.v, LoopApply(config, s, a).phase.v);
  }

  lemma RetiringEven(config: Config, s: State)
    requires ValidConfig(config) && Inv(config, s) && Even(config, s) && LoopEnabled(s, RetireShards)
    ensures Even(config, LoopApply(config, s, RetireShards))
  {
    ShardsRetiredValid(s.d, config.capacity);
    SamePipe(config, s.phase.v, LoopApply(config, s, RetireShards).phase.v);
  }

  lemma LoopEven(config: Config, s: State, a: Action)
    requires WholeShards(config) && Inv(config, s) && Even(config, s) && LoopEnabled(s, a)
    ensures Even(config, LoopApply(config, s, a))
  {
    if a.HandleShard? || a.HandleArena? || a.HandleReloaded? {
      PoppingEven(config, s, a);
    } else if a.RetireShards? {
      RetiringEven(config, s);
    } else if a.AddRow? || a.SendDecision? || a.QueueGeneration? {
      SendingEven(config, s, a);
    } else {
      QuietEven(config, s, a);
    }
  }

  lemma LaunchEven(config: Config, s: State)
    requires WholeShards(config) && Even(config, s) && Enabled(s, Launch)
    ensures Even(config, Apply(config, s, Launch))
  {
    var v := Apply(config, s, Launch).phase.v;
    var c := v.actorCommands[0];
    CommandEven(config, [], c);
    assert [] + [c] == v.actorCommands;
    assert CommandItems(config, []) == [];
    assert Pipe(config, v) == CommandItem(config, c);
  }

  lemma TrainerEven(config: Config, s: State, a: Action)
    requires ValidConfig(config) && Even(config, s) && TrainerEnabled(s, a)
    ensures Even(config, TrainerApply(s, a))
  {
    match a {
      case TrainerTake => TakeFrame(s);
      case _ =>
    }
    SamePipe(config, s.phase.v, TrainerApply(s, a).phase.v);
  }

  lemma StepEven(config: Config, s: State, a: Action)
    requires WholeShards(config) && Inv(config, s) && Even(config, s) && Enabled(s, a)
    ensures Even(config, Apply(config, s, a))
  {
    if a.Launch? {
      LaunchEven(config, s);
    } else if ActorEnabled(s, a) {
      ActorKeepsPipe(config, s, a);
      ActorFrame(config, s, a);
    } else if TrainerEnabled(s, a) {
      TrainerEven(config, s, a);
    } else if LoopEnabled(s, a) {
      LoopEven(config, s, a);
    }
  }

  // ----- games and shards -------------------------------------------------------------------------

  lemma {:induction false} ActiveGamesAre(chunk: nat, shards: seq<Shard>)
    requires EvenShards(chunk, shards)
    ensures ActiveGames(shards) == chunk * |ActiveIds(shards)|
    decreases |shards|
  {
    if shards == [] {
      assert ActiveIds(shards) == {};
    } else {
      var n := |shards| - 1;
      ActiveGamesAre(chunk, shards[..n]);
      ActiveIdsSnoc(shards);
      assert chunk * (|ActiveIds(shards[..n])| + 1) == chunk * |ActiveIds(shards[..n])| + chunk;
    }
  }

  lemma ActiveIdsSnoc(shards: seq<Shard>)
    requires shards != []
    ensures var n := |shards| - 1;
            && n !in ActiveIds(shards[..n])
            && ActiveIds(shards) == if shards[n].active then ActiveIds(shards[..n]) + {n} else ActiveIds(shards[..n])
  {
  }

  lemma ShardsWithin(config: Config, shards: seq<Shard>)
    requires ValidConfig(config) && EvenShards(config.chunk, shards) && ActiveGames(shards) <= config.capacity
    ensures |ActiveIds(shards)| <= CacheLimit(config) - 1
  {
    ActiveGamesAre(config.chunk, shards);
    RoundUp(config.capacity, config.chunk, |ActiveIds(shards)|);
  }

  lemma RoundUp(capacity: nat, chunk: nat, count: nat)
    requires chunk > 0 && chunk * count <= capacity
    ensures count <= (capacity + chunk - 1) / chunk
  {
    var top := (capacity + chunk - 1) / chunk;
    assert capacity + chunk - 1 < (top + 1) * chunk;
    if count > top {
      Rng.MulAtLeast(count - top, chunk);
    }
  }

  /** The limit is one more than the fewest shards that hold the capacity. */
  lemma CacheLimitIsCeiling(config: Config, count: nat)
    requires ValidConfig(config)
    ensures CacheLimit(config) <= count + 1 <==> config.capacity <= count * config.chunk
  {
    var top, chunk := (config.capacity + config.chunk - 1) / config.chunk, config.chunk;
    assert config.capacity + chunk - 1 < (top + 1) * chunk && top * chunk <= config.capacity + chunk - 1;
    if top <= count {
      assert (count - top) * chunk >= 0;
    } else {
      assert (top - 1 - count) * chunk >= 0;
    }
  }

  // ----- the pool stays inside the cache ------------------------------------------------------------

  /** The pool never has more than `bound` shards while the commands are handled one by one. */
  predicate Fits(bound: nat, pool: set<nat>, commands: seq<TrainerCommand>)
    decreases |commands|
  {
    |pool| <= bound && (commands == [] || Fits(bound, Applied(pool, commands[0]), commands[1..]))
  }

  lemma {:induction false} FitsAppend(bound: nat, pool: set<nat>, a: seq<TrainerCommand>, b: seq<TrainerCommand>)
    requires Fits(bound, pool, a) && Fits(bound, After(pool, a), b)
    ensures Fits(bound, pool, a + b)
    decreases |a|
  {
    if a == [] {
      assert a + b == b;
    } else {
      assert (a + b)[1..] == a[1..] + b;
      FitsAppend(bound, Applied(pool, a[0]), a[1..], b);
    }
  }

  lemma FitsOne(bound: nat, pool: set<nat>, c: TrainerCommand)
    requires |pool| <= bound && |Applied(pool, c)| <= bound
    ensures Fits(bound, pool, [c])
  {
    assert [c][1..] == [];
    assert Fits(bound, Applied(pool, c), []);
  }

  lemma Smaller(pool: set<nat>, id: nat)
    ensures |pool - {id}| <= |pool|
  {
    if id in pool {
      assert pool == (pool - {id}) + {id};
    } else {
      assert pool - {id} == pool;
    }
  }

  lemma {:induction false} FitsRemovals(bound: nat, pool: set<nat>, before: seq<Shard>, after: seq<Shard>, from: nat)
    requires |before| == |after| && from <= |before| && |pool| <= bound
    ensures Fits(bound, pool, Removals(before, after, from))
    decreases |before| - from
  {
    if from < |before| {
      if before[from].active && !after[from].active {
        Smaller(pool, from);
        FitsRemovals(bound, pool - {from}, before, after, from + 1);
        assert Removals(before, after, from)[1..] == Removals(before, after, from + 1);
      } else {
        FitsRemovals(bound, pool, before, after, from + 1);
      }
    }
  }

  /** Room for the next shard, and none of the queued commands overfills the pool. */
  ghost predicate InWindow(config: Config, s: State)
    requires ValidConfig(config)
  {
    s.phase.Running? ==>
      && |ActiveIds(Announced(s.d, s.phase.pc))| < CacheLimit(config)
      && Fits(CacheLimit(config), s.phase.v.trainer.pool, s.phase.v.trainerCommands)
  }

  ghost predicate Windowed(config: Config, s: State)
    requires ValidConfig(config)
  {
    Following(config, s) && Even(config, s) && InWindow(config, s)
  }

  lemma RetireFits(limit: nat, pool: set<nat>, commands: seq<TrainerCommand>, shards: seq<Shard>, after: seq<Shard>)
    requires shards != [] && |shards| == |after| && Fits(limit, pool, commands)
    requires After(pool, commands) == ActiveIds(shards[..|shards| - 1]) && |After(pool, commands)| < limit
    ensures Fits(limit, pool, commands + [AddShard(|shards| - 1)] + Removals(shards, after, 0))
  {
    var n := |shards| - 1;
    var known := After(pool, commands);
    FitsOne(limit, known, AddShard(n));
    FitsAppend(limit, pool, commands, [AddShard(n)]);
    AfterAppend(pool, commands, [AddShard(n)]);
    AfterOne(known, AddShard(n));
    FitsRemovals(limit, known + {n}, shards, after, 0);
    FitsAppend(limit, pool, commands + [AddShard(n)], Removals(shards, after, 0));
  }

  lemma RetiredWithinWindow(config: Config, d: Durable)
    requires ValidConfig(config) && DurableValid(d) && EvenShards(config.chunk, d.shards)
    ensures |ActiveIds(ShardsRetired(d, config.capacity).shards)| < CacheLimit(config)
  {
    var e := ShardsRetired(d, config.capacity);
    ShardsRetiredValid(d, config.capacity);
    ShardsWithin(config, e.shards);
  }

  lemma RetireWindow(config: Config, s: State)
    requires ValidConfig(config) && Windowed(config, s) && LoopEnabled(s, RetireShards)
    ensures InWindow(config, LoopApply(config, s, RetireShards))
  {
    var v := s.phase.v;
    RetiredWithinWindow(config, s.d);
    RetireFits(CacheLimit(config), v.trainer.pool, v.trainerCommands, s.d.shards,
               ShardsRetired(s.d, config.capacity).shards);
  }

  lemma DecisionWindow(config: Config, s: State, pruned: set<nat>)
    requires ValidConfig(config) && Windowed(config, s) && LoopEnabled(s, SendDecision(pruned))
    ensures InWindow(config, LoopApply(config, s, SendDecision(pruned)))
  {
    var v := s.phase.v;
    var c := Decision(s.d.champion.value, s.phase.pc.pause);
    FitsOne(CacheLimit(config), After(v.trainer.pool, v.trainerCommands), c);
    FitsAppend(CacheLimit(config), v.trainer.pool, v.trainerCommands, [c]);
  }

  lemma InsertWindow(config: Config, s: State)
    requires ValidConfig(config) && Windowed(config, s) && LoopEnabled(s, HandleShard)
    ensures InWindow(config, LoopApply(config, s, HandleShard))
  {
    var t := LoopApply(config, s, HandleShard);
    assert t.d.shards[..|t.d.shards| - 1] == s.d.shards;
  }

  lemma ActorWindow(config: Config, s: State, a: Action)
    requires ValidConfig(config) && InWindow(config, s) && ActorEnabled(s, a)
    ensures InWindow(config, ActorApply(config, s, a))
  {
    ActorFrame(config, s, a);
  }

  lemma TakeWindow(config: Config, s: State)
    requires ValidConfig(config) && InWindow(config, s) && TrainerEnabled(s, TrainerTake)
    ensures InWindow(config, TrainerApply(s, TrainerTake))
  {
    var v, w := s.phase.v, TrainerApply(s, TrainerTake).phase.v;
    TakeFrame(s);
    assert w.trainer.pool == Applied(v.trainer.pool, v.trainerCommands[0]);
    assert w.trainerCommands == v.trainerCommands[1..];
  }

  lemma TrainerWindow(config: Config, s: State, a: Action)
    requires ValidConfig(config) && InWindow(config, s) && TrainerEnabled(s, a)
    ensures InWindow(config, TrainerApply(s, a))
  {
    match a {
      case TrainerTake => TakeWindow(config, s);
      case _ =>
    }
  }

  lemma LoopWindow(config: Config, s: State, a: Action)
    requires ValidConfig(config) && Windowed(config, s) && LoopEnabled(s, a)
    ensures InWindow(config, LoopApply(config, s, a))
  {
    if a.HandleShard? {
      InsertWindow(config, s);
    } else if a.RetireShards? {
      RetireWindow(config, s);
    } else if a.SendDecision? {
      DecisionWindow(config, s, a.pruned);
    } else if a.HandleRemoved? {
      RemovedFrame(config, s);
    } else {
      OtherFrame(config, s, a);
    }
  }

  lemma StepWindow(config: Config, s: State, a: Action)
    requires WholeShards(config) && Windowed(config, s) && Enabled(s, a) && a != Launch
    ensures Windowed(config, Apply(config, s, a))
  {
    StepFollows(config, s, a);
    StepEven(config, s, a);
    if ActorEnabled(s, a) {
      ActorWindow(config, s, a);
    } else if TrainerEnabled(s, a) {
      TrainerWindow(config, s, a);
    } else if LoopEnabled(s, a) {
      LoopWindow(config, s, a);
    }
  }

  lemma {:induction false} RunWindow(config: Config, s: State, actions: seq<Action>)
    requires WholeShards(config) && Windowed(config, s) && Run(config, s, actions).Some?
    requires forall i :: 0 <= i < |actions| ==> actions[i] != Launch
    ensures Windowed(config, Run(config, s, actions).value)
    decreases |actions|
  {
    if actions != [] {
      StepWindow(config, s, actions[0]);
      RunWindow(config, Apply(config, s, actions[0]), actions[1..]);
    }
  }

  lemma {:induction false} RunEven(config: Config, s: State, actions: seq<Action>)
    requires WholeShards(config) && Inv(config, s) && Even(config, s) && Run(config, s, actions).Some?
    ensures Even(config, Run(config, s, actions).value)
    decreases |actions|
  {
    if actions != [] {
      StepValid(config, s, actions[0]);
      StepEven(config, s, actions[0]);
      RunEven(config, Apply(config, s, actions[0]), actions[1..]);
    }
  }

  lemma LaunchWindow(config: Config, s: State)
    requires WholeShards(config) && Following(config, s) && Even(config, s) && Enabled(s, Launch)
    requires |ActiveIds(s.d.shards)| < CacheLimit(config)
    ensures Windowed(config, Apply(config, s, Launch))
  {
    LaunchFollows(config, s);
    LaunchEven(config, s);
    FitsOne(CacheLimit(config), ActiveIds(s.d.shards), PendingCommand);
  }

  /** Sufficient: a launch with fewer active shards than the cache holds keeps the pool inside the cache. */
  lemma PoolFitsCache(config: Config, before: seq<Action>, actions: seq<Action>)
    requires WholeShards(config) && Run(config, START, before).Some?
    requires var s := Run(config, START, before).value;
             && Enabled(s, Launch) && |ActiveIds(s.d.shards)| < CacheLimit(config)
             && Run(config, Apply(config, s, Launch), actions).Some?
    requires forall i :: 0 <= i < |actions| ==> actions[i] != Launch
    ensures var s := Run(config, START, before).value;
            var t := Run(config, Apply(config, s, Launch), actions).value;
            t.phase.Running? ==> |t.phase.v.trainer.pool| <= CacheLimit(config)
  {
    var s := Run(config, START, before).value;
    RunFollows(config, START, before);
    RunEven(config, START, before);
    LaunchWindow(config, s);
    RunWindow(config, Apply(config, s, Launch), actions);
  }

  /** A launch within the capacity in games has fewer active shards than the cache holds. */
  lemma WithinCapacityFits(config: Config, before: seq<Action>)
    requires WholeShards(config) && Run(config, START, before).Some?
    requires ActiveGames(Run(config, START, before).value.d.shards) <= config.capacity
    ensures |ActiveIds(Run(config, START, before).value.d.shards)| < CacheLimit(config)
  {
    RunEven(config, START, before);
    ShardsWithin(config, Run(config, START, before).value.d.shards);
  }
}
