/**
 The training coordinator of `src/c4a0/training_v2.py` as a state machine: coordinator, actor and
 trainer talk over first-in first-out queues and share the durable state of Manifest.dfy. Each action
 is one durable or visible step, and a crash may come between any two of them: it drops everything
 but the durable state. Which branch the training mathematics, the clock or the user takes is left
 open, so every run of the program is a run here.
 */
module Coordination {
  import opened Board
  import opened Manifest

  /** Games per generation, games per shard, and the replay capacity in games. */
  datatype Config = Config(batch: nat, chunk: nat, capacity: nat)

  predicate ValidConfig(config: Config) {
    config.batch > 0 && config.chunk > 0
  }

  datatype ActorCommand = Generate(champion: nat, first: nat) | Arena(attempt: nat) | Reload

  /** The actor writes all shard files of a batch before it sends the first event. */
  datatype Actor =
    | ActorIdle
    | Writing(champion: nat, written: seq<Interval>, todo: seq<Interval>)
    | Sending(champion: nat, rest: seq<Interval>)
    | Playing(attempt: nat)

  datatype ActorEvent = ShardEvent(interval: Interval, champion: nat, final: bool) | ArenaEvent(attempt: nat) | Reloaded

  datatype TrainerCommand =
    | AddShard(id: nat) | RemoveShard(id: nat) | Decision(champion: nat, pause: bool) | PendingCommand

  /** `unsent`: the candidate file is written but its event is not yet in the queue. */
  datatype Trainer = Trainer(champion: nat, pending: bool, unsent: bool, pool: set<nat>)

  datatype TrainerEvent = CandidateEvent | ShardRemoved(id: nat) | DecisionApplied

  datatype Volatile = Volatile(
    actorCommands: seq<ActorCommand>, actor: Actor, actorEvents: seq<ActorEvent>,
    trainerCommands: seq<TrainerCommand>, trainer: Trainer, trainerEvents: seq<TrainerEvent>,
    actorBusy: bool, arenaWaiting: bool, waitActor: bool, waitTrainer: bool,
    deletions: set<nat>, stop: bool)

  /** Where the coordinator is inside its handlers: between two durable steps. */
  datatype Pc = AtLoop | Moved | Registering | Deciding(pause: bool)

  datatype Phase =
    | Down
    | Starting
    | Running(v: Volatile, pc: Pc, stopping: bool)
    | Closing
    | ClosingMoved

  datatype State = State(d: Durable, phase: Phase)

  // ----- generations ----------------------------------------------------------------------------

  /** `split_games` on the consecutive ids of one batch: the games come sorted by id. */
  function Chunks(first: nat, games: nat, chunk: nat): (r: seq<Interval>)
    requires chunk > 0
    ensures r == [] <==> games == 0
    decreases games
  {
    if games == 0 then []
    else if games <= chunk then [Interval(first, games)]
    else [Interval(first, chunk)] + Chunks(first + chunk, games - chunk, chunk)
  }

  /**
   A batch is split without gap or overlap: the shards start where the batch starts, each starts where the
   one before ends, all but the last have the full size, and the last ends with the batch.
   */
  lemma {:induction false} ChunksCover(first: nat, games: nat, chunk: nat)
    requires chunk > 0
    ensures var r := Chunks(first, games, chunk);
            && (forall i :: 0 <= i < |r| ==> 0 < r[i].games <= chunk)
            && (forall i :: 0 <= i < |r| - 1 ==> r[i].games == chunk && r[i + 1].first == r[i].first + chunk)
            && (r != [] ==> r[0].first == first && r[|r| - 1].first + r[|r| - 1].games == first + games)
    decreases games
  {
    if games > chunk {
      var rest := Chunks(first + chunk, games - chunk, chunk);
      var r := Chunks(first, games, chunk);
      ChunksCover(first + chunk, games - chunk, chunk);
      assert r == [Interval(first, chunk)] + rest;
      assert r[0] == Interval(first, chunk);
      forall i | 0 < i < |r| ensures r[i] == rest[i - 1] {
      }
    }
  }

  // ----- actions --------------------------------------------------------------------------------

  datatype Action =
    // start-up and recovery
    | Boot | WriteRoot | AddRootRow | MoveOrphan | RecoverOrphan | EarlyReturn | Launch
    // any moment
    | Crash
    // the actor process
    | ActorTake | ActorWrite | ActorWritten | ActorSend | ActorPlayed
    // the trainer process
    | TrainerTake | TrainerSave | TrainerPut
    // the coordinator's event loop
    | HandleShard | RetireShards | HandleCandidate | AddRow | HandleArena(accepted: bool, pause: bool)
    | SendDecision(pruned: set<nat>) | HandleRemoved | HandleApplied | HandleReloaded | QueueGeneration
    // leaving the loop
    | BeginStop | KillChildren | FinallyMove | FinallyRow | FinallyDone

  predicate InLoop(s: State) {
    s.phase.Running? && !s.phase.stopping && s.phase.pc.AtLoop?
  }

  predicate At(s: State, pc: Pc) {
    s.phase.Running? && !s.phase.stopping && s.phase.pc == pc
  }

  predicate Recoverable(d: Durable) {
    d.champion.Some? && |d.attempts| in d.files
  }

  /** The root exists and no checkpoint file waits for its row. */
  predicate RecoveryDone(s: State) {
    s.phase.Starting? && s.d.champion.Some? && !Recoverable(s.d) && s.d.candidate.None?
  }

  predicate ActorEnabled(s: State, a: Action) {
    s.phase.Running? &&
    var v := s.phase.v;
    match a
    case ActorTake => v.actor.ActorIdle? && v.actorCommands != []
    case ActorWrite => v.actor.Writing? && v.actor.todo != []
    case ActorWritten => v.actor.Writing? && v.actor.todo == []
    case ActorSend => v.actor.Sending? && v.actor.rest != []
    case ActorPlayed => v.actor.Playing?
    case _ => false
  }

  predicate TrainerEnabled(s: State, a: Action) {
    s.phase.Running? &&
    var v := s.phase.v;
    match a
    case TrainerTake => !v.trainer.unsent && v.trainerCommands != []
    case TrainerSave => !v.trainer.unsent && !v.trainer.pending
    case TrainerPut => v.trainer.unsent
    case _ => false
  }

  predicate LoopEnabled(s: State, a: Action) {
    s.phase.Running? && !s.phase.stopping &&
    var v := s.phase.v;
    match a
    case HandleShard => InLoop(s) && v.actorEvents != [] && v.actorEvents[0].ShardEvent?
    case RetireShards => At(s, Registering)
    case HandleCandidate =>
      InLoop(s) && v.trainerEvents != [] && v.trainerEvents[0].CandidateEvent? && s.d.candidate.Some?
    case AddRow => At(s, Moved) && s.d.champion.Some?
    case HandleArena(_, _) => InLoop(s) && v.actorEvents != [] && v.actorEvents[0].ArenaEvent?
    case SendDecision(pruned) =>
      s.phase.pc.Deciding? && s.d.champion.Some?
      && forall n :: n in pruned ==> n < |s.d.attempts| && s.d.attempts[n].status == Rejected
    case HandleRemoved => InLoop(s) && v.trainerEvents != [] && v.trainerEvents[0].ShardRemoved?
    case HandleApplied => InLoop(s) && v.trainerEvents != [] && v.trainerEvents[0].DecisionApplied?
    case HandleReloaded => InLoop(s) && v.actorEvents != [] && v.actorEvents[0].Reloaded?
    case QueueGeneration =>
      InLoop(s) && s.d.champion.Some? && !v.actorBusy && !v.arenaWaiting && !v.waitActor && !v.waitTrainer && !v.stop
    case _ => false
  }

  predicate Enabled(s: State, a: Action) {
    match a
    case Boot => s.phase.Down?
    case WriteRoot => s.phase.Starting? && s.d.champion.None?
    case AddRootRow => s.phase.Starting? && s.d.champion.None? && 0 in s.d.files
    case RecoverOrphan => s.phase.Starting? && Recoverable(s.d)
    case MoveOrphan => s.phase.Starting? && s.d.champion.Some? && !Recoverable(s.d) && s.d.candidate.Some?
    case Launch => RecoveryDone(s)
    case EarlyReturn => RecoveryDone(s) && PendingAttempt(s.d.attempts).None?
    case Crash => !s.phase.Down?
    case BeginStop => s.phase.Running? && !s.phase.stopping
    case KillChildren => s.phase.Running? && s.phase.stopping
    case FinallyMove => s.phase.Closing? && s.d.candidate.Some? && PendingAttempt(s.d.attempts).None?
    case FinallyRow => s.phase.ClosingMoved? && s.d.champion.Some?
    case FinallyDone => s.phase.Closing? && !(s.d.candidate.Some? && PendingAttempt(s.d.attempts).None?)
    case _ => ActorEnabled(s, a) || TrainerEnabled(s, a) || LoopEnabled(s, a)
  }

  function WithV(s: State, v: Volatile): State
    requires s.phase.Running?
  {
    s.(phase := s.phase.(v := v))
  }

  function WithPc(s: State, d: Durable, v: Volatile, pc: Pc): State
    requires s.phase.Running?
  {
    State(d, Running(v, pc, s.phase.stopping))
  }

  function ActiveIds(shards: seq<Shard>): set<nat> {
    set id: nat | id < |shards| && shards[id].active
  }

  /** The processes and queues of a fresh start: an arena resumes, or a generation begins. */
  function Launched(d: Durable): Volatile
    requires d.champion.Some?
  {
    var pending := PendingAttempt(d.attempts);
    var commands := match pending
      case Some(n) => [Arena(n)]
      case None => [Generate(d.champion.value, d.nextGame)];
    Volatile(commands, ActorIdle, [],
             if pending.Some? then [PendingCommand] else [],
             Trainer(d.champion.value, pending.Some?, false, ActiveIds(d.shards)), [],
             true, pending.Some?, false, false, {}, false)
  }

  function ActorApply(config: Config, s: State, a: Action): State
    requires ValidConfig(config) && ActorEnabled(s, a)
  {
    var v := s.phase.v;
    match a
    case ActorTake =>
      var rest := v.(actorCommands := v.actorCommands[1..]);
      (match v.actorCommands[0]
       case Generate(champion, first) =>
         WithV(s, rest.(actor := Writing(champion, [], Chunks(first, config.batch, config.chunk))))
       case Arena(attempt) => WithV(s, rest.(actor := Playing(attempt)))
       case Reload => WithV(s, rest.(actorEvents := v.actorEvents + [Reloaded])))
    case ActorWrite =>
      var next := v.actor.todo[0];
      WithV(s, v.(actor := Writing(v.actor.champion, v.actor.written + [next], v.actor.todo[1..])))
        .(d := s.d.(shardFiles := s.d.shardFiles + {next.first}))
    case ActorWritten => WithV(s, v.(actor := Sending(v.actor.champion, v.actor.written)))
    case ActorSend =>
      var rest := v.actor.rest;
      WithV(s, v.(
        actor := if |rest| == 1 then ActorIdle else Sending(v.actor.champion, rest[1..]),
        actorEvents := v.actorEvents + [ShardEvent(rest[0], v.actor.champion, |rest| == 1)]))
    case ActorPlayed =>
      WithV(s, v.(actor := ActorIdle, actorEvents := v.actorEvents + [ArenaEvent(v.actor.attempt)]))
  }

  function TrainerApply(s: State, a: Action): State
    requires TrainerEnabled(s, a)
  {
    var v := s.phase.v;
    var t := v.trainer;
    match a
    case TrainerTake =>
      var rest := v.(trainerCommands := v.trainerCommands[1..]);
      (match v.trainerCommands[0]
       case AddShard(id) => WithV(s, rest.(trainer := t.(pool := t.pool + {id})))
       case RemoveShard(id) =>
         WithV(s, rest.(trainer := t.(pool := t.pool - {id}), trainerEvents := v.trainerEvents + [ShardRemoved(id)]))
       case Decision(champion, pause) =>
         WithV(s, rest.(trainer := t.(champion := champion, pending := pause),
                        trainerEvents := v.trainerEvents + [DecisionApplied]))
       case PendingCommand => WithV(s, rest.(trainer := t.(pending := true))))
    case TrainerSave =>
      WithV(s, v.(trainer := t.(unsent := true))).(d := s.d.(candidate := Some(t.champion)))
    case TrainerPut =>
      WithV(s, v.(trainer := t.(unsent := false, pending := true), trainerEvents := v.trainerEvents + [CandidateEvent]))
  }

  /** The retired ids in the order of the retirement loop, as removal commands. */
  function Removals(before: seq<Shard>, after: seq<Shard>, from: nat): seq<TrainerCommand>
    requires |before| == |after| && from <= |before|
    decreases |before| - from
  {
    if from == |before| then []
    else if before[from].active && !after[from].active then [RemoveShard(from)] + Removals(before, after, from + 1)
    else Removals(before, after, from + 1)
  }

  function LoopApply(config: Config, s: State, a: Action): State
    requires LoopEnabled(s, a)
  {
    var v := s.phase.v;
    match a
    case HandleShard =>
      var e := v.actorEvents[0];
      WithPc(s, ShardInserted(s.d, e.interval, e.champion),
             v.(actorEvents := v.actorEvents[1..], actorBusy := !e.final), Registering)
    case RetireShards =>
      var d := ShardsRetired(s.d, config.capacity);
      var retired := RetiredIds(s.d.shards, d.shards);
      var added := if s.d.shards == [] then [] else [AddShard(|s.d.shards| - 1)];
      WithPc(s, d, v.(trainerCommands := v.trainerCommands + added + Removals(s.d.shards, d.shards, 0),
                      deletions := v.deletions + retired), AtLoop)
    case HandleCandidate => WithPc(s, CandidateMoved(s.d), v.(trainerEvents := v.trainerEvents[1..]), Moved)
    case AddRow =>
      var n := |s.d.attempts|;
      if v.stop then WithPc(s, RowAdded(s.d, Interrupted, s.d.champion.value), v, AtLoop)
      else WithPc(s, RowAdded(s.d, Pending, s.d.champion.value),
                  v.(arenaWaiting := true, actorCommands := v.actorCommands + [Arena(n)]), AtLoop)
    case HandleArena(accepted, pause) =>
      var n := v.actorEvents[0].attempt;
      var w := v.(actorEvents := v.actorEvents[1..], actorBusy := false, arenaWaiting := false);
      // A result for anything but the pending attempt is an error.
      if PendingAttempt(s.d.attempts) != Some(n) then State(s.d, Running(w, AtLoop, true))
      else WithPc(s, Decided(s.d, n, accepted), w.(stop := pause), Deciding(pause))
    case SendDecision(pruned) =>
      WithPc(s, s.d.(files := s.d.files - pruned),
             v.(trainerCommands := v.trainerCommands + [Decision(s.d.champion.value, s.phase.pc.pause)],
                actorCommands := v.actorCommands + [Reload], waitActor := true, waitTrainer := true), AtLoop)
    case HandleRemoved =>
      var id := v.trainerEvents[0].id;
      var unlink := id in v.deletions && id < |s.d.shards|;
      WithPc(s, if unlink then s.d.(shardFiles := s.d.shardFiles - {s.d.shards[id].interval.first}) else s.d,
             v.(trainerEvents := v.trainerEvents[1..], deletions := v.deletions - {id}), AtLoop)
    case HandleApplied => WithV(s, v.(trainerEvents := v.trainerEvents[1..], waitTrainer := false))
    case HandleReloaded => WithV(s, v.(actorEvents := v.actorEvents[1..], waitActor := false))
    case QueueGeneration =>
      WithV(s, v.(actorCommands := v.actorCommands + [Generate(s.d.champion.value, s.d.nextGame)], actorBusy := true))
  }

  function Apply(config: Config, s: State, a: Action): State
    requires ValidConfig(config) && Enabled(s, a)
  {
    match a
    case Boot => s.(phase := Starting)
    case WriteRoot => s.(d := RootWritten(s.d))
    case AddRootRow => s.(d := RootAdded(s.d))
    case RecoverOrphan => s.(d := Recovered(s.d))
    case MoveOrphan => s.(d := CandidateMoved(s.d))
    case Launch => s.(phase := Running(Launched(s.d), AtLoop, false))
    case EarlyReturn => s.(phase := Down)
    case Crash => s.(phase := Down)
    case BeginStop => s.(phase := s.phase.(stopping := true))
    case KillChildren => s.(phase := Closing)
    case FinallyMove => State(CandidateMoved(s.d), ClosingMoved)
    case FinallyRow => State(RowAdded(s.d, Interrupted, s.d.champion.value), Down)
    case FinallyDone => s.(phase := Down)
    case _ =>
      if ActorEnabled(s, a) then ActorApply(config, s, a)
      else if TrainerEnabled(s, a) then TrainerApply(s, a)
      else LoopApply(config, s, a)
  }
}
