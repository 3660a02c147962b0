/**
 When the trainer's shard cache is too small: exactly after a launch with at least as many active shards
 as the cache holds, and crashes in the middle of registrations make such launches of any size.
 */
module ReplayOverflow {
  import opened Board
  import opened Manifest
  import opened Coordination
  import opened CoordinationSafety
  import opened ReplaySync
  import opened ReplayWindow

  // ----- runs ---------------------------------------------------------------------------------------

  function Writes(n: nat): seq<Action> {
    seq(n, _ => ActorWrite)
  }

  lemma {:induction false} RunAppend(config: Config, s: State, a: seq<Action>, b: seq<Action>)
    requires ValidConfig(config) && Run(config, s, a).Some?
    ensures Run(config, s, a + b) == Run(config, Run(config, s, a).value, b)
    decreases |a|
  {
    if a == [] {
      assert a + b == b;
    } else {
      assert (a + b)[1..] == a[1..] + b;
      RunAppend(config, Apply(config, s, a[0]), a[1..], b);
    }
  }

  /** The actor writes every shard of its batch. */
  lemma {:induction false} WriteAll(config: Config, s: State)
    requires ValidConfig(config) && s.phase.Running? && s.phase.v.actor.Writing?
    ensures var r := Run(config, s, Writes(|s.phase.v.actor.todo|));
            var actor := s.phase.v.actor;
            && r.Some? && r.value.d == s.d.(shardFiles := r.value.d.shardFiles)
            && r.value.phase
            == s.phase.(v := s.phase.v.(actor := Writing(actor.champion, actor.written + actor.todo, [])))
    decreases |s.phase.v.actor.todo|
  {
    var actor := s.phase.v.actor;
    var n := |actor.todo|;
    if n == 0 {
      assert actor.written + actor.todo == actor.written;
    } else {
      var t := Apply(config, s, ActorWrite);
      assert Writes(n)[1..] == Writes(n - 1);
      assert (actor.written + [actor.todo[0]]) + actor.todo[1..] == actor.written + actor.todo;
      WriteAll(config, t);
    }
  }

  /** A written batch is announced. */
  lemma AnnounceFirst(config: Config, s: State)
    requires ValidConfig(config) && s.phase.Running? && s.phase.v.actor.Writing?
    requires s.phase.v.actor.written != [] && s.phase.v.actor.todo == [] && s.phase.v.actorEvents == []
    ensures var r := Run(config, s, [ActorWritten, ActorSend]);
            && r.Some? && r.value.d == s.d && r.value.phase.Running?
            && (var v, w := s.phase.v, r.value.phase.v;
                && r.value.phase == s.phase.(v := w)
                && w == v.(actor := w.actor, actorEvents := w.actorEvents)
                && w.actorEvents != [] && w.actorEvents[0].ShardEvent?)
  {
    RunTwo(config, s, ActorWritten, ActorSend);
  }

  /** An announced shard is registered, and the trainer takes it into its pool. */
  lemma RegisterFirst(config: Config, s: State)
    requires ValidConfig(config) && InLoop(s) && s.phase.v.actorEvents != [] && s.phase.v.actorEvents[0].ShardEvent?
    requires s.phase.v.trainerCommands == [] && !s.phase.v.trainer.unsent
    ensures var r := Run(config, s, [HandleShard, RetireShards]);
            && r.Some? && r.value.phase.Running? && r.value.phase.v.trainer == s.phase.v.trainer
            && r.value.phase.v.trainerCommands != []
            && r.value.phase.v.trainerCommands[0] == AddShard(|s.d.shards|)
  {
    RunTwo(config, s, HandleShard, RetireShards);
  }

  const DELIVERY: seq<Action> := [ActorWritten, ActorSend] + ([HandleShard, RetireShards] + [TrainerTake])

  /** The first shard of a written batch reaches the trainer's pool. */
  lemma DeliverFirst(config: Config, s: State)
    requires ValidConfig(config) && InLoop(s)
    requires s.phase.v.actor.Writing? && s.phase.v.actor.written != [] && s.phase.v.actor.todo == []
    requires s.phase.v.actorEvents == [] && s.phase.v.trainerCommands == [] && !s.phase.v.trainer.unsent
    ensures var r := Run(config, s, DELIVERY);
            && r.Some? && r.value.phase.Running?
            && r.value.phase.v.trainer.pool == s.phase.v.trainer.pool + {|s.d.shards|}
  {
    AnnounceFirst(config, s);
    var sent := Run(config, s, [ActorWritten, ActorSend]).value;
    RegisterFirst(config, sent);
    var known := Run(config, sent, [HandleShard, RetireShards]).value;
    RunOne(config, known, TrainerTake);
    RunAppend(config, sent, [HandleShard, RetireShards], [TrainerTake]);
    RunAppend(config, s, [ActorWritten, ActorSend], [HandleShard, RetireShards] + [TrainerTake]);
  }

  // ----- from a launch to a batch -------------------------------------------------------------------

  /** The actor is writing a batch, nothing else is in flight, and the trainer's pool is `pool`. */
  predicate BatchBegun(u: State, shards: seq<Shard>, pool: set<nat>) {
    && u.phase.Running? && u.phase.pc.AtLoop? && !u.phase.stopping && u.d.shards == shards
    && var v := u.phase.v;
       && v.actor.Writing? && v.actor.written + v.actor.todo != []
       && v.actorEvents == [] && v.trainerCommands == [] && !v.trainer.unsent && v.trainer.pool == pool
  }

  lemma RunCons(config: Config, s: State, a: Action, rest: seq<Action>)
    requires ValidConfig(config) && Enabled(s, a)
    ensures Run(config, s, [a] + rest) == Run(config, Apply(config, s, a), rest)
  {
    assert ([a] + rest)[1..] == rest;
  }

  /** A launch without a pending attempt begins a batch. */
  lemma LaunchBegins(config: Config, s: State)
    requires ValidConfig(config) && Enabled(s, Launch) && PendingAttempt(s.d.attempts).None?
    ensures var r := Run(config, Apply(config, s, Launch), [ActorTake]);
            r.Some? && BatchBegun(r.value, s.d.shards, ActiveIds(s.d.shards)) && r.value.d == s.d
  {
    RunOne(config, Apply(config, s, Launch), ActorTake);
  }

  /** A state of the event loop in which nothing but the given queues is in flight. */
  predicate Resting(s: State, d: Durable, champion: nat, v: Volatile) {
    s.d.champion == Some(champion) && s.d.shards == d.shards && s.phase == Running(v, AtLoop, false)
  }

  /** The volatile state around an arena that is resumed: its stages, the last one at rest. */
  function Resumed(d: Durable, champion: nat): Volatile {
    Volatile([], ActorIdle, [], [], Trainer(champion, true, false, ActiveIds(d.shards)), [],
             true, true, false, false, {}, false)
  }

  function Informed(d: Durable, champion: nat): Volatile {
    Resumed(d, champion).(actorCommands := [Reload], trainerCommands := [Decision(champion, false)], actorBusy := false,
                          arenaWaiting := false, waitActor := true, waitTrainer := true)
  }

  function Answered(d: Durable, champion: nat): Volatile {
    Rested(d, champion).(actorEvents := [Reloaded], trainerEvents := [DecisionApplied],
                         waitActor := true, waitTrainer := true)
  }

  function Rested(d: Durable, champion: nat): Volatile {
    Resumed(d, champion).(trainer := Trainer(champion, false, false, ActiveIds(d.shards)),
                          actorBusy := false, arenaWaiting := false)
  }

  /** A pending attempt is played first. */
  lemma ArenaResumes(config: Config, s: State, n: nat)
    requires ValidConfig(config) && Enabled(s, Launch) && PendingAttempt(s.d.attempts) == Some(n)
    ensures var r := Run(config, Apply(config, s, Launch), [TrainerTake] + ([ActorTake] + [ActorPlayed]));
            && r.Some? && r.value.d == s.d
            && r.value.phase
            == Running(Resumed(s.d, s.d.champion.value).(actorEvents := [ArenaEvent(n)]), AtLoop, false)
  {
    var s0 := Apply(config, s, Launch);
    var s1 := Apply(config, s0, TrainerTake);
    var s2 := Apply(config, s1, ActorTake);
    RunCons(config, s0, TrainerTake, [ActorTake] + [ActorPlayed]);
    RunCons(config, s1, ActorTake, [ActorPlayed]);
    RunOne(config, s2, ActorPlayed);
  }

  /** The candidate is rejected, and both processes are told. */
  lemma ArenaDecided(config: Config, s: State, n: nat)
    requires ValidConfig(config) && s.d.champion.Some? && PendingAttempt(s.d.attempts) == Some(n)
    requires s.phase == Running(Resumed(s.d, s.d.champion.value).(actorEvents := [ArenaEvent(n)]), AtLoop, false)
    ensures var r := Run(config, s, [HandleArena(false, false), SendDecision({})]);
            var c := s.d.champion.value;
            r.Some? && Resting(r.value, s.d, c, Informed(s.d, c))
  {
    RunTwo(config, s, HandleArena(false, false), SendDecision({}));
  }

  /** Both processes acknowledge. */
  lemma BothAnswer(config: Config, s: State, d: Durable, c: nat)
    requires ValidConfig(config) && Resting(s, d, c, Informed(d, c))
    ensures var r := Run(config, s, [TrainerTake, ActorTake]);
            r.Some? && Resting(r.value, d, c, Answered(d, c))
  {
    RunTwo(config, s, TrainerTake, ActorTake);
  }

  lemma AnswersRead(config: Config, s: State, d: Durable, c: nat)
    requires ValidConfig(config) && Resting(s, d, c, Answered(d, c))
    ensures var r := Run(config, s, [HandleApplied, HandleReloaded]);
            r.Some? && Resting(r.value, d, c, Rested(d, c))
  {
    RunTwo(config, s, HandleApplied, HandleReloaded);
  }

  lemma DecisionHandled(config: Config, s: State, d: Durable, c: nat)
    requires ValidConfig(config) && Resting(s, d, c, Informed(d, c))
    ensures var r := Run(config, s, HANDLED);
            r.Some? && Resting(r.value, d, c, Rested(d, c))
  {
    BothAnswer(config, s, d, c);
    AnswersRead(config, Run(config, s, [TrainerTake, ActorTake]).value, d, c);
    RunAppend(config, s, [TrainerTake, ActorTake], [HandleApplied, HandleReloaded]);
  }

  /** And the next batch begins. */
  lemma GenerationBegins(config: Config, s: State, d: Durable, c: nat)
    requires ValidConfig(config) && Resting(s, d, c, Rested(d, c))
    ensures var r := Run(config, s, [QueueGeneration, ActorTake]);
            r.Some? && BatchBegun(r.value, d.shards, ActiveIds(d.shards))
  {
    RunTwo(config, s, QueueGeneration, ActorTake);
  }

  const RESUMED: seq<Action> := [TrainerTake] + ([ActorTake] + [ActorPlayed])
  const DECIDED: seq<Action> := [HandleArena(false, false), SendDecision({})]
  const HANDLED: seq<Action> := [TrainerTake, ActorTake] + [HandleApplied, HandleReloaded]

  lemma ResumedLaunchBegins(config: Config, s: State)
    requires ValidConfig(config) && Enabled(s, Launch) && PendingAttempt(s.d.attempts).Some?
    ensures var r := Run(config, Apply(config, s, Launch),
                         RESUMED + (DECIDED + (HANDLED + [QueueGeneration, ActorTake])));
            r.Some? && BatchBegun(r.value, s.d.shards, ActiveIds(s.d.shards))
  {
    var n, c := PendingAttempt(s.d.attempts).value, s.d.champion.value;
    var s0 := Apply(config, s, Launch);
    ArenaResumes(config, s, n);
    var s1 := Run(config, s0, RESUMED).value;
    ArenaDecided(config, s1, n);
    var s2 := Run(config, s1, DECIDED).value;
    DecisionHandled(config, s2, s.d, c);
    var s3 := Run(config, s2, HANDLED).value;
    GenerationBegins(config, s3, s.d, c);
    RunAppend(config, s0, RESUMED, DECIDED + (HANDLED + [QueueGeneration, ActorTake]));
    RunAppend(config, s1, DECIDED, HANDLED + [QueueGeneration, ActorTake]);
    RunAppend(config, s2, HANDLED, [QueueGeneration, ActorTake]);
  }

  /** Some actions, none of them a launch. */
  predicate WithinLaunch(actions: seq<Action>) {
    forall i :: 0 <= i < |actions| ==> actions[i] != Launch
  }

  /** Every launch, with or without an arena to resume, can get to its first batch. */
  lemma EveryLaunchBegins(config: Config, s: State) returns (actions: seq<Action>)
    requires ValidConfig(config) && Enabled(s, Launch)
    ensures WithinLaunch(actions)
    ensures var r := Run(config, Apply(config, s, Launch), actions);
            r.Some? && BatchBegun(r.value, s.d.shards, ActiveIds(s.d.shards))
  {
    if PendingAttempt(s.d.attempts).None? {
      LaunchBegins(config, s);
      actions := [ActorTake];
    } else {
      ResumedLaunchBegins(config, s);
      actions := RESUMED + (DECIDED + (HANDLED + [QueueGeneration, ActorTake]));
    }
  }

  lemma BatchDelivered(config: Config, u: State) returns (actions: seq<Action>)
    requires ValidConfig(config) && u.phase.Running? && BatchBegun(u, u.d.shards, u.phase.v.trainer.pool)
    ensures WithinLaunch(actions)
    ensures var r := Run(config, u, actions);
            && r.Some? && r.value.phase.Running?
            && r.value.phase.v.trainer.pool == u.phase.v.trainer.pool + {|u.d.shards|}
  {
    var writes := Writes(|u.phase.v.actor.todo|);
    WriteAll(config, u);
    var w := Run(config, u, writes).value;
    assert w.d.shards == u.d.shards;
    DeliverFirst(config, w);
    RunAppend(config, u, writes, DELIVERY);
    actions := writes + DELIVERY;
  }

  /** Necessary: a launch with at least as many active shards as the cache holds can outgrow it. */
  lemma OverfullLaunch(config: Config, s: State) returns (actions: seq<Action>)
    requires ValidConfig(config) && Enabled(s, Launch) && |ActiveIds(s.d.shards)| >= CacheLimit(config)
    ensures WithinLaunch(actions)
    ensures var r := Run(config, Apply(config, s, Launch), actions);
            r.Some? && r.value.phase.Running? && |r.value.phase.v.trainer.pool| > CacheLimit(config)
  {
    var begin := EveryLaunchBegins(config, s);
    var u := Run(config, Apply(config, s, Launch), begin).value;
    var deliver := BatchDelivered(config, u);
    RunAppend(config, Apply(config, s, Launch), begin, deliver);
    actions := begin + deliver;
    assert |s.d.shards| !in ActiveIds(s.d.shards);
  }

  /** Until the next launch, whatever happens, the pool stays inside the cache. */
  ghost predicate AlwaysFits(config: Config, s: State)
    requires ValidConfig(config) && Enabled(s, Launch)
  {
    forall actions :: WithinLaunch(actions) ==> FitsAfter(config, Apply(config, s, Launch), actions)
  }

  predicate FitsAfter(config: Config, s: State, actions: seq<Action>)
    requires ValidConfig(config)
  {
    var r := Run(config, s, actions);
    r.Some? && r.value.phase.Running? ==> |r.value.phase.v.trainer.pool| <= CacheLimit(config)
  }

  /**
   Exactly: after a launch of a reachable state the pool stays inside the shard cache, whatever happens
   until the next launch, if and only if the launch has fewer active shards than the cache holds.
   */
  lemma PoolFitsExactly(config: Config, before: seq<Action>)
    requires WholeShards(config) && Run(config, START, before).Some?
    requires Enabled(Run(config, START, before).value, Launch)
    ensures var s := Run(config, START, before).value;
            AlwaysFits(config, s) <==> |ActiveIds(s.d.shards)| < CacheLimit(config)
  {
    var s := Run(config, START, before).value;
    if |ActiveIds(s.d.shards)| < CacheLimit(config) {
      forall actions | WithinLaunch(actions) ensures FitsAfter(config, Apply(config, s, Launch), actions) {
        if Run(config, Apply(config, s, Launch), actions).Some? {
          PoolFitsCache(config, before, actions);
        }
      }
    } else {
      var actions := OverfullLaunch(config, s);
      assert !FitsAfter(config, Apply(config, s, Launch), actions);
    }
  }

  // ----- launches of every size ---------------------------------------------------------------------

  /** A crash between the two transactions of a registration leaves one shard more than before it. */
  lemma CrashWhileRegistering(config: Config, s: State)
    requires ValidConfig(config) && Following(config, s) && s.phase.Running? && s.phase.pc.Registering?
    ensures Enabled(s, Crash)
    ensures |ActiveIds(Apply(config, s, Crash).d.shards)| == |ActiveIds(Announced(s.d, s.phase.pc))| + 1
  {
    ActiveIdsSnoc(s.d.shards);
  }

  /** Ready for a launch, with no arena to resume and `n` active shards. */
  predicate Ready(s: State, n: nat) {
    RecoveryDone(s) && PendingAttempt(s.d.attempts).None? && |ActiveIds(s.d.shards)| == n
  }

  /** An announced shard is inserted, and the program crashes before anything is retired. */
  lemma InsertAndCrash(config: Config, s: State, n: nat)
    requires ValidConfig(config) && InLoop(s) && s.phase.v.actorEvents != [] && s.phase.v.actorEvents[0].ShardEvent?
    requires Ready(State(s.d, Starting), n)
    ensures var r := Run(config, s, [HandleShard] + ([Crash] + [Boot]));
            r.Some? && Ready(r.value, n + 1)
  {
    var s1 := Apply(config, s, HandleShard);
    var s2 := Apply(config, s1, Crash);
    RunCons(config, s, HandleShard, [Crash] + [Boot]);
    RunCons(config, s1, Crash, [Boot]);
    RunOne(config, s2, Boot);
    assert s1.d.shards[..|s1.d.shards| - 1] == s.d.shards;
    ActiveIdsSnoc(s1.d.shards);
  }

  /** One launch that ends so: the next one has one active shard more. */
  lemma OneMore(config: Config, s: State, n: nat) returns (actions: seq<Action>)
    requires ValidConfig(config) && Ready(s, n)
    ensures var r := Run(config, s, actions);
            r.Some? && Ready(r.value, n + 1)
  {
    LaunchBegins(config, s);
    var t := Apply(config, s, Launch);
    var u := Run(config, t, [ActorTake]).value;
    var writes := Writes(|u.phase.v.actor.todo|);
    WriteAll(config, u);
    var w := Run(config, u, writes).value;
    AnnounceFirst(config, w);
    var x := Run(config, w, [ActorWritten, ActorSend]).value;
    var ending := [HandleShard] + ([Crash] + [Boot]);
    InsertAndCrash(config, x, n);
    RunAppend(config, w, [ActorWritten, ActorSend], ending);
    RunAppend(config, u, writes, [ActorWritten, ActorSend] + ending);
    RunAppend(config, t, [ActorTake], writes + ([ActorWritten, ActorSend] + ending));
    actions := [Launch] + ([ActorTake] + (writes + ([ActorWritten, ActorSend] + ending)));
    RunCons(config, s, Launch, [ActorTake] + (writes + ([ActorWritten, ActorSend] + ending)));
  }

  /**
   Launches with any number of active shards are reachable: a launch retires nothing, and each crash in
   the middle of a registration adds a shard. No fixed cache size is enough.
   */
  lemma {:induction false} EveryLaunchSize(config: Config, n: nat) returns (actions: seq<Action>)
    requires ValidConfig(config)
    ensures var r := Run(config, START, actions);
            r.Some? && Enabled(r.value, Launch) && Ready(r.value, n)
  {
    if n == 0 {
      var s1 := Apply(config, START, Boot);
      RunCons(config, START, Boot, [WriteRoot, AddRootRow]);
      RunTwo(config, s1, WriteRoot, AddRootRow);
      actions := [Boot] + [WriteRoot, AddRootRow];
    } else {
      var before := EveryLaunchSize(config, n - 1);
      var s := Run(config, START, before).value;
      var more := OneMore(config, s, n - 1);
      RunAppend(config, START, before, more);
      actions := before + more;
    }
  }
}
