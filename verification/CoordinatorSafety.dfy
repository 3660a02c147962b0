/**
 Safety of the coordinator over all runs, with crashes between any two steps. The actor's events, its
 current work and its commands form one pipeline that the actor only moves along; a single token is
 the right to change the champion.
 */
module CoordinationSafety {
  import opened Board
  import opened Manifest
  import opened Coordination

  // ----- the actor's pipeline -------------------------------------------------------------------

  /** What the actor will still deliver: a shard, or the result of an arena. */
  datatype Item = Gen(interval: Interval, champion: nat, final: bool) | Match(attempt: nat)

  /** The shards of one batch; the last one is final. */
  function Batch(champion: nat, intervals: seq<Interval>): seq<Item> {
    if intervals == [] then []
    else [Gen(intervals[0], champion, |intervals| == 1)] + Batch(champion, intervals[1..])
  }

  function CommandItem(config: Config, c: ActorCommand): seq<Item>
    requires ValidConfig(config)
  {
    match c
    case Generate(champion, first) => Batch(champion, Chunks(first, config.batch, config.chunk))
    case Arena(attempt) => [Match(attempt)]
    case Reload => []
  }

  function CommandItems(config: Config, commands: seq<ActorCommand>): seq<Item>
    requires ValidConfig(config)
  {
    if commands == [] then [] else CommandItem(config, commands[0]) + CommandItems(config, commands[1..])
  }

  function ActorItems(actor: Actor): seq<Item> {
    match actor
    case ActorIdle => []
    case Writing(champion, written, todo) => Batch(champion, written + todo)
    case Sending(champion, rest) => Batch(champion, rest)
    case Playing(attempt) => [Match(attempt)]
  }

  function EventItem(e: ActorEvent): seq<Item> {
    match e
    case ShardEvent(interval, champion, final) => [Gen(interval, champion, final)]
    case ArenaEvent(attempt) => [Match(attempt)]
    case Reloaded => []
  }

  function EventItems(events: seq<ActorEvent>): seq<Item> {
    if events == [] then [] else EventItem(events[0]) + EventItems(events[1..])
  }

  function Pipe(config: Config, v: Volatile): seq<Item>
    requires ValidConfig(config)
  {
    EventItems(v.actorEvents) + ActorItems(v.actor) + CommandItems(config, v.actorCommands)
  }

  lemma {:induction false} EventItemsSnoc(events: seq<ActorEvent>, e: ActorEvent)
    ensures EventItems(events + [e]) == EventItems(events) + EventItem(e)
  {
    if events == [] {
      assert events + [e] == [e];
      assert EventItems([e]) == EventItem(e) + EventItems([]);
    } else {
      assert (events + [e])[1..] == events[1..] + [e];
      EventItemsSnoc(events[1..], e);
    }
  }

  lemma {:induction false} CommandItemsSnoc(config: Config, commands: seq<ActorCommand>, c: ActorCommand)
    requires ValidConfig(config)
    ensures CommandItems(config, commands + [c]) == CommandItems(config, commands) + CommandItem(config, c)
  {
    if commands == [] {
      assert commands + [c] == [c];
      assert CommandItems(config, [c]) == CommandItem(config, c) + CommandItems(config, []);
    } else {
      assert (commands + [c])[1..] == commands[1..] + [c];
      CommandItemsSnoc(config, commands[1..], c);
    }
  }

  lemma MoveHead(e: seq<Item>, x: seq<Item>, rest: seq<Item>, tail: seq<Item>)
    ensures e + (x + rest) + tail == (e + x) + rest + tail
    ensures e + [] + (x + tail) == e + x + tail
    ensures (e + x) + [] + tail == e + x + tail
    ensures e + [] == e
  {
  }

  lemma TakeKeepsPipe(config: Config, s: State)
    requires ValidConfig(config) && ActorEnabled(s, ActorTake)
    ensures Pipe(config, ActorApply(config, s, ActorTake).phase.v) == Pipe(config, s.phase.v)
  {
    var v := s.phase.v;
    var c := v.actorCommands[0];
    var e := EventItems(v.actorEvents);
    var tail := CommandItems(config, v.actorCommands[1..]);
    MoveHead(e, CommandItem(config, c), [], tail);
    match c {
      case Generate(champion, first) =>
        assert [] + Chunks(first, config.batch, config.chunk) == Chunks(first, config.batch, config.chunk);
      case Arena(_) =>
      case Reload => EventItemsSnoc(v.actorEvents, Reloaded);
    }
  }

  lemma SendKeepsPipe(config: Config, s: State)
    requires ValidConfig(config) && ActorEnabled(s, ActorSend)
    ensures Pipe(config, ActorApply(config, s, ActorSend).phase.v) == Pipe(config, s.phase.v)
  {
    var v := s.phase.v;
    var rest := v.actor.rest;
    var event := ShardEvent(rest[0], v.actor.champion, |rest| == 1);
    EventItemsSnoc(v.actorEvents, event);
    MoveHead(EventItems(v.actorEvents), EventItem(event), Batch(v.actor.champion, rest[1..]),
             CommandItems(config, v.actorCommands));
    assert |rest| == 1 ==> rest[1..] == [];
  }

  lemma PlayedKeepsPipe(config: Config, s: State)
    requires ValidConfig(config) && ActorEnabled(s, ActorPlayed)
    ensures Pipe(config, ActorApply(config, s, ActorPlayed).phase.v) == Pipe(config, s.phase.v)
  {
    var v := s.phase.v;
    var event := ArenaEvent(v.actor.attempt);
    EventItemsSnoc(v.actorEvents, event);
    MoveHead(EventItems(v.actorEvents), EventItem(event), [], CommandItems(config, v.actorCommands));
  }

  /** Whatever the actor does, the pipeline stays the same. */
  lemma ActorKeepsPipe(config: Config, s: State, a: Action)
    requires ValidConfig(config) && ActorEnabled(s, a)
    ensures ActorApply(config, s, a).phase.Running?
    ensures Pipe(config, ActorApply(config, s, a).phase.v) == Pipe(config, s.phase.v)
  {
    var v := s.phase.v;
    match a {
      case ActorTake => TakeKeepsPipe(config, s);
      case ActorWrite =>
        assert (v.actor.written + [v.actor.todo[0]]) + v.actor.todo[1..] == v.actor.written + v.actor.todo;
      case ActorWritten => assert v.actor.written + [] == v.actor.written;
      case ActorSend => SendKeepsPipe(config, s);
      case ActorPlayed => PlayedKeepsPipe(config, s);
    }
  }

  /**
   A good pipeline: shards of the current champion covering consecutive games from `next`, exactly the
   last one final, and an arena, for the pending attempt, only at the very end.
   */
  predicate PipeValid(pipe: seq<Item>, next: nat, champion: nat, pending: Option<nat>)
    decreases |pipe|
  {
    pipe == [] ||
    match pipe[0]
    case Gen(interval, c, final) =>
      && interval.first == next && interval.games > 0 && c == champion
      && (final <==> |pipe| == 1 || pipe[1].Match?)
      && PipeValid(pipe[1..], interval.first + interval.games, champion, pending)
    case Match(attempt) => |pipe| == 1 && pending == Some(attempt)
  }

  predicate HasMatch(pipe: seq<Item>) {
    pipe != [] && pipe[|pipe| - 1].Match?
  }

  predicate HasGen(pipe: seq<Item>) {
    pipe != [] && pipe[0].Gen?
  }

  lemma {:induction false} PipeAppendMatch(pipe: seq<Item>, next: nat, champion: nat, attempt: nat)
    requires PipeValid(pipe, next, champion, None) && !HasMatch(pipe)
    ensures PipeValid(pipe + [Match(attempt)], next, champion, Some(attempt))
  {
    var longer := pipe + [Match(attempt)];
    if pipe != [] {
      assert longer[1..] == pipe[1..] + [Match(attempt)];
      if |pipe| > 1 {
        assert pipe[1..][|pipe| - 2] == pipe[|pipe| - 1];
        assert longer[1] == pipe[1];
      }
      if pipe[0].Gen? {
        PipeAppendMatch(pipe[1..], pipe[0].interval.first + pipe[0].interval.games, champion, attempt);
      }
    }
  }

  lemma {:induction false} BatchValid(champion: nat, first: nat, games: nat, chunk: nat, pending: Option<nat>)
    requires chunk > 0
    ensures PipeValid(Batch(champion, Chunks(first, games, chunk)), first, champion, pending)
    ensures !HasMatch(Batch(champion, Chunks(first, games, chunk)))
    decreases games
  {
    var chunks := Chunks(first, games, chunk);
    if games > chunk {
      BatchValid(champion, first + chunk, games - chunk, chunk, pending);
      assert chunks[1..] == Chunks(first + chunk, games - chunk, chunk);
      var rest := Batch(champion, chunks[1..]);
      assert Batch(champion, chunks) == [Gen(chunks[0], champion, false)] + rest;
      assert Batch(champion, chunks)[1..] == rest;
      assert rest[0].Gen?;
    } else if games > 0 {
      assert chunks[1..] == [];
      assert Batch(champion, chunks) == [Gen(chunks[0], champion, true)];
    }
  }

  /** Nothing in the pipeline is about games already registered. */
  lemma {:induction false} PipeAhead(pipe: seq<Item>, next: nat, champion: nat, pending: Option<nat>, k: nat)
    requires PipeValid(pipe, next, champion, pending) && k < |pipe| && pipe[k].Gen?
    ensures pipe[k].interval.first >= next && pipe[k].champion == champion
    decreases |pipe|
  {
    if k > 0 {
      PipeAhead(pipe[1..], pipe[0].interval.first + pipe[0].interval.games, champion, pending, k - 1);
    }
  }

  lemma {:induction false} PipePending(pipe: seq<Item>, next: nat, champion: nat, pending: Option<nat>,
                                       other: Option<nat>)
    requires PipeValid(pipe, next, champion, pending) && !HasMatch(pipe)
    ensures PipeValid(pipe, next, champion, other)
    decreases |pipe|
  {
    if pipe != [] && pipe[0].Gen? {
      if |pipe| > 1 {
        assert pipe[1..][|pipe| - 2] == pipe[|pipe| - 1];
      }
      PipePending(pipe[1..], pipe[0].interval.first + pipe[0].interval.games, champion, pending, other);
    }
  }

  // ----- files of shards in flight --------------------------------------------------------------

  predicate AllWritten(intervals: seq<Interval>, files: set<nat>) {
    forall i :: 0 <= i < |intervals| ==> intervals[i].first in files
  }

  /** Every shard that has been announced or is about to be has its file. */
  predicate Written(v: Volatile, files: set<nat>) {
    && (forall i :: 0 <= i < |v.actorEvents| && v.actorEvents[i].ShardEvent? ==>
          v.actorEvents[i].interval.first in files)
    && (v.actor.Writing? ==> AllWritten(v.actor.written, files))
    && (v.actor.Sending? ==> AllWritten(v.actor.rest, files) && v.actor.rest != [])
    && (v.actor.Writing? ==> v.actor.written + v.actor.todo != [])
  }

  // ----- the token ------------------------------------------------------------------------------

  function One(b: bool): nat {
    if b then 1 else 0
  }

  function Candidates(events: seq<TrainerEvent>): nat {
    if events == [] then 0 else One(events[0].CandidateEvent?) + Candidates(events[1..])
  }

  function Decisions(commands: seq<TrainerCommand>): nat {
    if commands == [] then 0 else One(commands[0].Decision?) + Decisions(commands[1..])
  }

  /** The trainer may still produce a candidate. */
  predicate Training(t: Trainer) {
    !t.pending && !t.unsent
  }

  /** Every place from which a champion change can start or is under way. */
  function Tokens(pipe: seq<Item>, v: Volatile, pc: Pc): nat {
    One(Training(v.trainer)) + One(v.trainer.unsent) + Candidates(v.trainerEvents) + One(pc.Moved?)
    + One(HasMatch(pipe)) + One(pc.Deciding?) + Decisions(v.trainerCommands)
  }

  lemma {:induction false} CandidatesSnoc(events: seq<TrainerEvent>, e: TrainerEvent)
    ensures Candidates(events + [e]) == Candidates(events) + One(e.CandidateEvent?)
  {
    if events == [] {
      assert events + [e] == [e];
    } else {
      assert (events + [e])[1..] == events[1..] + [e];
      CandidatesSnoc(events[1..], e);
    }
  }

  lemma {:induction false} DecisionsAppend(commands: seq<TrainerCommand>, more: seq<TrainerCommand>)
    ensures Decisions(commands + more) == Decisions(commands) + Decisions(more)
  {
    if commands == [] {
      assert commands + more == more;
    } else {
      assert (commands + more)[1..] == commands[1..] + more;
      DecisionsAppend(commands[1..], more);
    }
  }

  /** Once a stop is requested the trainer stays paused: no candidate is produced any more. */
  predicate StopValid(pipe: seq<Item>, v: Volatile, pc: Pc) {
    v.stop ==>
      && !Training(v.trainer) && !v.trainer.unsent && Candidates(v.trainerEvents) == 0 && !pc.Moved? && !HasMatch(pipe)
      && (pc.Deciding? ==> pc.pause)
      && forall i :: 0 <= i < |v.trainerCommands| && v.trainerCommands[i].Decision? ==> v.trainerCommands[i].pause
  }

  ghost predicate TokenValid(pipe: seq<Item>, d: Durable, v: Volatile, pc: Pc)
    requires d.champion.Some?
  {
    && Tokens(pipe, v, pc) <= 1
    && StopValid(pipe, v, pc)
    && (Training(v.trainer) || v.trainer.unsent ==> v.trainer.champion == d.champion.value)
    && (d.candidate.Some? <==> v.trainer.unsent || Candidates(v.trainerEvents) > 0)
    && (d.candidate.Some? ==> d.candidate == d.champion)
    && (pc.Moved? <==> |d.attempts| in d.files)
    && (pc.Moved? ==> Some(d.files[|d.attempts|]) == d.champion)
    && (forall i :: 0 <= i < |v.trainerCommands| && v.trainerCommands[i].Decision? ==>
          v.trainerCommands[i].champion == d.champion.value)
  }

  ghost predicate PipelineValid(pipe: seq<Item>, d: Durable, v: Volatile)
    requires d.champion.Some?
  {
    && PipeValid(pipe, d.nextGame, d.champion.value, PendingAttempt(d.attempts))
    && (HasMatch(pipe) <==> PendingAttempt(d.attempts).Some?)
    && (HasGen(pipe) ==> v.actorBusy)
    && (v.arenaWaiting <==> HasMatch(pipe))
    && Written(v, d.shardFiles)
  }

  // ----- the trainer's pool ---------------------------------------------------------------------

  predicate Readable(d: Durable, id: nat) {
    id < |d.shards| && d.shards[id].interval.first in d.shardFiles
  }

  /** The shards the trainer side may know: all but one that is just being registered. */
  function Known(d: Durable, pc: Pc): int {
    |d.shards| - if pc.Registering? then 1 else 0
  }

  ghost predicate PoolValid(d: Durable, v: Volatile, pc: Pc) {
    && (pc.Registering? ==> d.shards != [] && d.shards[|d.shards| - 1].interval.first in d.shardFiles)
    && (forall id :: id in v.trainer.pool ==> Readable(d, id) && id < Known(d, pc))
    && (forall i :: 0 <= i < |v.trainerCommands| ==> CommandValid(d, v, pc, i))
    && (forall i :: 0 <= i < |v.trainerEvents| ==> RemovedValid(d, v, pc, v.trainerEvents[i]))
    && (forall id :: id in v.deletions ==> id < Known(d, pc) && !d.shards[id].active)
  }

  predicate CommandValid(d: Durable, v: Volatile, pc: Pc, i: nat)
    requires i < |v.trainerCommands|
  {
    match v.trainerCommands[i]
    case AddShard(id) => Readable(d, id) && id < Known(d, pc)
    case RemoveShard(id) =>
      id < Known(d, pc) && forall j :: i < j < |v.trainerCommands| ==> v.trainerCommands[j] != AddShard(id)
    case _ => true
  }

  /** A shard reported as removed is gone from the pool and will not come back. */
  predicate RemovedValid(d: Durable, v: Volatile, pc: Pc, e: TrainerEvent) {
    e.ShardRemoved? ==>
      && e.id < Known(d, pc) && e.id !in v.trainer.pool
      && forall j :: 0 <= j < |v.trainerCommands| ==> v.trainerCommands[j] != AddShard(e.id)
  }

  ghost predicate RunningValid(config: Config, d: Durable, v: Volatile, pc: Pc)
    requires ValidConfig(config)
  {
    && d.champion.Some?
    && PipelineValid(Pipe(config, v), d, v)
    && TokenValid(Pipe(config, v), d, v, pc)
    && PoolValid(d, v, pc)
  }

  ghost predicate Inv(config: Config, s: State)
    requires ValidConfig(config)
  {
    && DurableValid(s.d)
    && match s.phase
       case Down => true
       case Starting => true
       case Running(v, pc, _) => RunningValid(config, s.d, v, pc)
       case Closing => s.d.champion.Some? && (s.d.candidate.Some? ==> s.d.candidate == s.d.champion)
       case ClosingMoved =>
         s.d.champion.Some? && |s.d.attempts| in s.d.files && Some(s.d.files[|s.d.attempts|]) == s.d.champion
  }

  // ----- start-up -------------------------------------------------------------------------------

  lemma LaunchedPipe(config: Config, d: Durable)
    requires ValidConfig(config) && DurableValid(d) && d.champion.Some?
    ensures PipelineValid(Pipe(config, Launched(d)), d, Launched(d))
    ensures HasMatch(Pipe(config, Launched(d))) <==> PendingAttempt(d.attempts).Some?
  {
    var v := Launched(d);
    var c := v.actorCommands[0];
    assert v.actorCommands[1..] == [];
    assert CommandItems(config, v.actorCommands) == CommandItem(config, c) + CommandItems(config, []);
    assert Pipe(config, v) == CommandItem(config, c);
    match PendingAttempt(d.attempts) {
      case Some(n) =>
      case None => BatchValid(d.champion.value, d.nextGame, config.batch, config.chunk, None);
    }
  }

  lemma LaunchValid(config: Config, s: State)
    requires ValidConfig(config) && Inv(config, s) && Enabled(s, Launch)
    ensures Inv(config, Apply(config, s, Launch))
  {
    LaunchedPipe(config, s.d);
    assert Decisions([PendingCommand]) == 0 by {
      assert [PendingCommand][1..] == [];
    }
  }

  lemma StartingValid(config: Config, s: State, a: Action)
    requires ValidConfig(config) && Inv(config, s) && Enabled(s, a)
    requires a.WriteRoot? || a.AddRootRow? || a.RecoverOrphan? || a.MoveOrphan?
    ensures Inv(config, Apply(config, s, a))
  {
    match a {
      case WriteRoot => RootWrittenValid(s.d);
      case AddRootRow => RootAddedValid(s.d);
      case RecoverOrphan => RecoveredValid(s.d);
      case MoveOrphan => CandidateMovedValid(s.d);
    }
  }

  lemma ClosingValid(config: Config, s: State, a: Action)
    requires ValidConfig(config) && Inv(config, s) && Enabled(s, a)
    requires a.FinallyMove? || a.FinallyRow?
    ensures Inv(config, Apply(config, s, a))
  {
    match a {
      case FinallyMove => CandidateMovedValid(s.d);
      case FinallyRow => RowAddedValid(s.d, Interrupted);
    }
  }

  // ----- the actor ------------------------------------------------------------------------------

  /** A new replay file disturbs nothing. */
  lemma MoreFilesValid(d: Durable, v: Volatile, pc: Pc, first: nat)
    requires DurableValid(d) && PoolValid(d, v, pc)
    ensures var e := d.(shardFiles := d.shardFiles + {first});
            DurableValid(e) && PoolValid(e, v, pc)
  {
    var e := d.(shardFiles := d.shardFiles + {first});
    forall i | 0 <= i < |v.trainerCommands| ensures CommandValid(e, v, pc, i) {
      assert CommandValid(d, v, pc, i);
    }
    forall i | 0 <= i < |v.trainerEvents| ensures RemovedValid(e, v, pc, v.trainerEvents[i]) {
      assert RemovedValid(d, v, pc, v.trainerEvents[i]);
    }
  }

  /** The pool facts only depend on the trainer's side. */
  lemma SamePool(d: Durable, v: Volatile, w: Volatile, pc: Pc)
    requires PoolValid(d, v, pc)
    requires w.trainer.pool == v.trainer.pool && w.trainerCommands == v.trainerCommands
    requires w.trainerEvents == v.trainerEvents && w.deletions == v.deletions
    ensures PoolValid(d, w, pc)
  {
    forall i | 0 <= i < |w.trainerCommands| ensures CommandValid(d, w, pc, i) {
      assert CommandValid(d, v, pc, i);
    }
    forall i | 0 <= i < |w.trainerEvents| ensures RemovedValid(d, w, pc, w.trainerEvents[i]) {
      assert RemovedValid(d, v, pc, v.trainerEvents[i]);
    }
  }

  /** The token facts only depend on the trainer's side, the attempts and the checkpoints. */
  lemma SameToken(pipe: seq<Item>, d: Durable, v: Volatile, pc: Pc, e: Durable, w: Volatile)
    requires d.champion.Some? && TokenValid(pipe, d, v, pc)
    requires e.champion == d.champion && e.candidate == d.candidate && e.files == d.files && e.attempts == d.attempts
    requires w.trainer == v.trainer && w.trainerCommands == v.trainerCommands && w.trainerEvents == v.trainerEvents
    requires w.stop == v.stop
    ensures TokenValid(pipe, e, w, pc)
  {
  }

  lemma SamePipeline(pipe: seq<Item>, d: Durable, v: Volatile, e: Durable, w: Volatile)
    requires d.champion.Some? && PipelineValid(pipe, d, v)
    requires e.champion == d.champion && e.nextGame == d.nextGame && e.attempts == d.attempts
    requires w.actorBusy == v.actorBusy && w.arenaWaiting == v.arenaWaiting && Written(w, e.shardFiles)
    ensures PipelineValid(pipe, e, w)
  {
  }

  lemma ActorWritesWritten(config: Config, s: State, a: Action)
    requires ValidConfig(config) && ActorEnabled(s, a) && Written(s.phase.v, s.d.shardFiles)
    ensures Written(ActorApply(config, s, a).phase.v, ActorApply(config, s, a).d.shardFiles)
  {
    var v := s.phase.v;
    match a {
      case ActorTake =>
        var c := v.actorCommands[0];
        if c.Generate? {
          assert [] + Chunks(c.first, config.batch, config.chunk) == Chunks(c.first, config.batch, config.chunk);
        }
      case ActorWrite =>
        assert (v.actor.written + [v.actor.todo[0]]) + v.actor.todo[1..] == v.actor.written + v.actor.todo;
      case ActorWritten => assert v.actor.written + [] == v.actor.written;
      case _ =>
    }
  }

  /** The actor touches its own side and the replay files only. */
  lemma ActorFrame(config: Config, s: State, a: Action)
    requires ValidConfig(config) && ActorEnabled(s, a)
    ensures var t := ActorApply(config, s, a);
            && t.phase.Running? && t.phase.pc == s.phase.pc && t.phase.stopping == s.phase.stopping
            && (var v, w := s.phase.v, t.phase.v;
                w == v.(actorCommands := w.actorCommands, actor := w.actor, actorEvents := w.actorEvents))
            && t.d == s.d.(shardFiles :=
                 if a.ActorWrite? then s.d.shardFiles + {s.phase.v.actor.todo[0].first} else s.d.shardFiles)
  {
  }

  lemma ActorKeepsStore(config: Config, s: State, a: Action)
    requires ValidConfig(config) && ActorEnabled(s, a) && DurableValid(s.d) && PoolValid(s.d, s.phase.v, s.phase.pc)
    ensures var t := ActorApply(config, s, a);
            t.phase.Running? && DurableValid(t.d) && PoolValid(t.d, t.phase.v, s.phase.pc)
  {
    var v, pc := s.phase.v, s.phase.pc;
    var t := ActorApply(config, s, a);
    ActorFrame(config, s, a);
    if a.ActorWrite? {
      MoreFilesValid(s.d, v, pc, v.actor.todo[0].first);
    } else {
      assert t.d == s.d;
    }
    SamePool(t.d, v, t.phase.v, pc);
  }

  lemma ActorKeepsRunning(config: Config, s: State, a: Action)
    requires ValidConfig(config) && ActorEnabled(s, a) && s.d.champion.Some?
    requires PipelineValid(Pipe(config, s.phase.v), s.d, s.phase.v)
    requires TokenValid(Pipe(config, s.phase.v), s.d, s.phase.v, s.phase.pc)
    ensures var t := ActorApply(config, s, a);
            && t.phase.Running? && t.phase.pc == s.phase.pc && t.d.champion.Some?
            && PipelineValid(Pipe(config, t.phase.v), t.d, t.phase.v)
            && TokenValid(Pipe(config, t.phase.v), t.d, t.phase.v, t.phase.pc)
  {
    var v := s.phase.v;
    var t := ActorApply(config, s, a);
    var pipe := Pipe(config, v);
    ActorKeepsPipe(config, s, a);
    ActorWritesWritten(config, s, a);
    ActorFrame(config, s, a);
    SamePipeline(pipe, s.d, v, t.d, t.phase.v);
    SameToken(pipe, s.d, v, s.phase.pc, t.d, t.phase.v);
  }

  lemma ActorStepValid(config: Config, s: State, a: Action)
    requires ValidConfig(config) && Inv(config, s) && ActorEnabled(s, a)
    ensures Inv(config, ActorApply(config, s, a))
  {
    ActorKeepsStore(config, s, a);
    ActorKeepsRunning(config, s, a);
  }

  // ----- the trainer ----------------------------------------------------------------------------

  lemma SamePipe(config: Config, v: Volatile, w: Volatile)
    requires ValidConfig(config) && w.actorEvents == v.actorEvents && w.actor == v.actor
    requires w.actorCommands == v.actorCommands
    ensures Pipe(config, w) == Pipe(config, v)
  {
  }

  lemma TakePool(d: Durable, v: Volatile, pc: Pc)
    requires PoolValid(d, v, pc) && v.trainerCommands != []
    ensures var rest := v.(trainerCommands := v.trainerCommands[1..]);
            match v.trainerCommands[0]
            case AddShard(id) => PoolValid(d, rest.(trainer := v.trainer.(pool := v.trainer.pool + {id})), pc)
            case RemoveShard(id) =>
              PoolValid(d, rest.(trainer := v.trainer.(pool := v.trainer.pool - {id}),
                                 trainerEvents := v.trainerEvents + [ShardRemoved(id)]), pc)
            case Decision(_, _) => PoolValid(d, rest.(trainerEvents := v.trainerEvents + [DecisionApplied]), pc)
            case PendingCommand => PoolValid(d, rest, pc)
  {
    assert CommandValid(d, v, pc, 0);
    var rest := v.(trainerCommands := v.trainerCommands[1..]);
    var w := match v.trainerCommands[0]
      case AddShard(id) => rest.(trainer := v.trainer.(pool := v.trainer.pool + {id}))
      case RemoveShard(id) => rest.(trainer := v.trainer.(pool := v.trainer.pool - {id}),
                                    trainerEvents := v.trainerEvents + [ShardRemoved(id)])
      case Decision(_, _) => rest.(trainerEvents := v.trainerEvents + [DecisionApplied])
      case PendingCommand => rest;
    forall i | 0 <= i < |w.trainerCommands| ensures CommandValid(d, w, pc, i) {
      assert CommandValid(d, v, pc, i + 1);
      assert w.trainerCommands[i] == v.trainerCommands[i + 1];
    }
    forall i | 0 <= i < |w.trainerEvents| ensures RemovedValid(d, w, pc, w.trainerEvents[i]) {
      if i < |v.trainerEvents| {
        assert RemovedValid(d, v, pc, v.trainerEvents[i]);
      }
    }
  }

  lemma DecisionsHead(commands: seq<TrainerCommand>)
    requires commands != []
    ensures Decisions(commands) == One(commands[0].Decision?) + Decisions(commands[1..])
  {
  }

  lemma TakeToken(pipe: seq<Item>, s: State)
    requires TrainerEnabled(s, TrainerTake) && s.d.champion.Some?
    requires TokenValid(pipe, s.d, s.phase.v, s.phase.pc)
    ensures TokenValid(pipe, s.d, TrainerApply(s, TrainerTake).phase.v, s.phase.pc)
  {
    var v := s.phase.v;
    DecisionsHead(v.trainerCommands);
    match v.trainerCommands[0] {
      case AddShard(_) =>
      case RemoveShard(id) => CandidatesSnoc(v.trainerEvents, ShardRemoved(id));
      case Decision(_, _) => CandidatesSnoc(v.trainerEvents, DecisionApplied);
      case PendingCommand =>
    }
  }

  lemma TakeKeepsPool(s: State)
    requires TrainerEnabled(s, TrainerTake) && PoolValid(s.d, s.phase.v, s.phase.pc)
    ensures PoolValid(s.d, TrainerApply(s, TrainerTake).phase.v, s.phase.pc)
  {
    var v, pc := s.phase.v, s.phase.pc;
    TakePool(s.d, v, pc);
    var rest := v.(trainerCommands := v.trainerCommands[1..]);
    match v.trainerCommands[0] {
      case AddShard(_) =>
      case RemoveShard(_) =>
      case Decision(_, _) =>
        SamePool(s.d, rest.(trainerEvents := v.trainerEvents + [DecisionApplied]),
                 TrainerApply(s, TrainerTake).phase.v, pc);
      case PendingCommand => SamePool(s.d, rest, TrainerApply(s, TrainerTake).phase.v, pc);
    }
  }

  lemma TakeFrame(s: State)
    requires TrainerEnabled(s, TrainerTake)
    ensures var t := TrainerApply(s, TrainerTake);
            && t.d == s.d && t.phase == s.phase.(v := t.phase.v)
            && t.phase.v == s.phase.v.(trainer := t.phase.v.trainer, trainerCommands := t.phase.v.trainerCommands,
                                      trainerEvents := t.phase.v.trainerEvents)
  {
  }

  lemma TakeKeepsPipeline(config: Config, s: State)
    requires ValidConfig(config) && TrainerEnabled(s, TrainerTake) && s.d.champion.Some?
    requires PipelineValid(Pipe(config, s.phase.v), s.d, s.phase.v)
    ensures var w := TrainerApply(s, TrainerTake).phase.v;
            Pipe(config, w) == Pipe(config, s.phase.v) && PipelineValid(Pipe(config, w), s.d, w)
  {
    var v := s.phase.v;
    var w := TrainerApply(s, TrainerTake).phase.v;
    TakeFrame(s);
    SamePipe(config, v, w);
    SamePipeline(Pipe(config, v), s.d, v, s.d, w);
  }

  lemma TrainerTakeValid(config: Config, s: State)
    requires ValidConfig(config) && Inv(config, s) && TrainerEnabled(s, TrainerTake)
    ensures Inv(config, TrainerApply(s, TrainerTake))
  {
    TakeFrame(s);
    TakeKeepsPool(s);
    TakeToken(Pipe(config, s.phase.v), s);
    TakeKeepsPipeline(config, s);
  }

  lemma TrainerSaveValid(config: Config, s: State)
    requires ValidConfig(config) && Inv(config, s) && TrainerEnabled(s, TrainerSave)
    ensures Inv(config, TrainerApply(s, TrainerSave))
  {
    var v, pc := s.phase.v, s.phase.pc;
    var t := TrainerApply(s, TrainerSave);
    SamePipe(config, v, t.phase.v);
    SaveKeepsPool(s.d, v, pc, t.d, t.phase.v);
    SamePipeline(Pipe(config, v), s.d, v, t.d, t.phase.v);
  }

  lemma PutKeepsPool(d: Durable, v: Volatile, w: Volatile, pc: Pc)
    requires PoolValid(d, v, pc)
    requires w.trainer.pool == v.trainer.pool && w.trainerCommands == v.trainerCommands
    requires w.trainerEvents == v.trainerEvents + [CandidateEvent] && w.deletions == v.deletions
    ensures PoolValid(d, w, pc)
  {
    forall i | 0 <= i < |w.trainerCommands| ensures CommandValid(d, w, pc, i) {
      assert CommandValid(d, v, pc, i);
    }
    forall i | 0 <= i < |w.trainerEvents| ensures RemovedValid(d, w, pc, w.trainerEvents[i]) {
      if i < |v.trainerEvents| {
        assert RemovedValid(d, v, pc, v.trainerEvents[i]);
      }
    }
  }

  lemma TrainerPutValid(config: Config, s: State)
    requires ValidConfig(config) && Inv(config, s) && TrainerEnabled(s, TrainerPut)
    ensures Inv(config, TrainerApply(s, TrainerPut))
  {
    var v, pc := s.phase.v, s.phase.pc;
    var t := TrainerApply(s, TrainerPut);
    SamePipe(config, v, t.phase.v);
    CandidatesSnoc(v.trainerEvents, CandidateEvent);
    PutKeepsPool(s.d, v, t.phase.v, pc);
    SamePipeline(Pipe(config, v), s.d, v, t.d, t.phase.v);
  }

  lemma TrainerStepValid(config: Config, s: State, a: Action)
    requires ValidConfig(config) && Inv(config, s) && TrainerEnabled(s, a)
    ensures Inv(config, TrainerApply(s, a))
  {
    if a.TrainerTake? {
      TrainerTakeValid(config, s);
    } else if a.TrainerSave? {
      TrainerSaveValid(config, s);
    } else {
      TrainerPutValid(config, s);
    }
  }

  lemma SaveKeepsPool(d: Durable, v: Volatile, pc: Pc, e: Durable, w: Volatile)
    requires PoolValid(d, v, pc)
    requires e.shards == d.shards && e.shardFiles == d.shardFiles
    requires w.trainer.pool == v.trainer.pool && w.trainerCommands == v.trainerCommands
    requires w.trainerEvents == v.trainerEvents && w.deletions == v.deletions
    ensures PoolValid(e, w, pc)
  {
    forall i | 0 <= i < |w.trainerCommands| ensures CommandValid(e, w, pc, i) {
      assert CommandValid(d, v, pc, i);
    }
    forall i | 0 <= i < |w.trainerEvents| ensures RemovedValid(e, w, pc, w.trainerEvents[i]) {
      assert RemovedValid(d, v, pc, v.trainerEvents[i]);
    }
  }

  // ----- the event loop -------------------------------------------------------------------------

  /** Taking the first event takes its item off the pipeline. */
  lemma PopEvent(config: Config, v: Volatile)
    requires ValidConfig(config) && v.actorEvents != []
    ensures var w := v.(actorEvents := v.actorEvents[1..]);
            Pipe(config, v) == EventItem(v.actorEvents[0]) + Pipe(config, w)
  {
  }

  lemma PopWritten(v: Volatile, files: set<nat>)
    requires v.actorEvents != [] && Written(v, files)
    ensures Written(v.(actorEvents := v.actorEvents[1..]), files)
  {
    var rest := v.actorEvents[1..];
    forall i | 0 <= i < |rest| && rest[i].ShardEvent? ensures rest[i].interval.first in files {
      assert rest[i] == v.actorEvents[i + 1];
    }
  }

  lemma PopShard(pipe: seq<Item>, rest: seq<Item>, next: nat, champion: nat, pending: Option<nat>, interval: Interval,
                 c: nat, final: bool)
    requires pipe == [Gen(interval, c, final)] + rest && PipeValid(pipe, next, champion, pending)
    ensures interval.first == next && interval.games > 0 && c == champion
    ensures PipeValid(rest, interval.first + interval.games, champion, pending)
    ensures HasMatch(rest) <==> HasMatch(pipe)
    ensures HasGen(rest) ==> !final
  {
    assert pipe[1..] == rest;
    if rest != [] {
      assert pipe[|pipe| - 1] == rest[|rest| - 1];
      assert pipe[1] == rest[0];
    }
  }

  /**
   Each shard is registered while the champion that generated it is still champion, and continues the
   game ids exactly where the registered ones end.
   */
  lemma ShardMatchesChampion(config: Config, s: State)
    requires ValidConfig(config) && Inv(config, s) && LoopEnabled(s, HandleShard)
    ensures var e := s.phase.v.actorEvents[0];
            && Some(e.champion) == s.d.champion
            && e.interval.first == s.d.nextGame && e.interval.games > 0 && e.interval.first in s.d.shardFiles
  {
    var v := s.phase.v;
    var e := v.actorEvents[0];
    PopEvent(config, v);
    PopShard(Pipe(config, v), Pipe(config, v.(actorEvents := v.actorEvents[1..])), s.d.nextGame, s.d.champion.value,
             PendingAttempt(s.d.attempts), e.interval, e.champion, e.final);
  }

  lemma InsertKeepsPool(d: Durable, v: Volatile, w: Volatile, interval: Interval, champion: nat)
    requires PoolValid(d, v, AtLoop) && interval.first in d.shardFiles
    requires w.trainer.pool == v.trainer.pool && w.trainerCommands == v.trainerCommands
    requires w.trainerEvents == v.trainerEvents && w.deletions == v.deletions
    ensures PoolValid(ShardInserted(d, interval, champion), w, Registering)
  {
    var e := ShardInserted(d, interval, champion);
    assert Known(e, Registering) == Known(d, AtLoop);
    forall i | 0 <= i < |w.trainerCommands| ensures CommandValid(e, w, Registering, i) {
      assert CommandValid(d, v, AtLoop, i);
    }
    forall i | 0 <= i < |w.trainerEvents| ensures RemovedValid(e, w, Registering, w.trainerEvents[i]) {
      assert RemovedValid(d, v, AtLoop, v.trainerEvents[i]);
    }
  }

  lemma HandleShardValid(config: Config, s: State)
    requires ValidConfig(config) && Inv(config, s) && LoopEnabled(s, HandleShard)
    ensures Inv(config, LoopApply(config, s, HandleShard))
  {
    var v := s.phase.v;
    var e := v.actorEvents[0];
    var t := LoopApply(config, s, HandleShard);
    var w := v.(actorEvents := v.actorEvents[1..]);
    PopEvent(config, v);
    PopWritten(v, s.d.shardFiles);
    PopShard(Pipe(config, v), Pipe(config, w), s.d.nextGame, s.d.champion.value,
             PendingAttempt(s.d.attempts), e.interval, e.champion, e.final);
    ShardInsertedValid(s.d, e.interval, e.champion);
    InsertKeepsPool(s.d, v, t.phase.v, e.interval, e.champion);
    SamePipe(config, w, t.phase.v);
  }

  // ----- retirement -----------------------------------------------------------------------------

  lemma {:induction false} RemovalsMeaning(before: seq<Shard>, after: seq<Shard>, from: nat)
    requires |before| == |after| && from <= |before|
    ensures forall i :: 0 <= i < |Removals(before, after, from)| ==>
      Removals(before, after, from)[i].RemoveShard? && Removals(before, after, from)[i].id in RetiredIds(before, after)
    ensures Decisions(Removals(before, after, from)) == 0
    decreases |before| - from
  {
    if from < |before| {
      RemovalsMeaning(before, after, from + 1);
      if before[from].active && !after[from].active {
        DecisionsAppend([RemoveShard(from)], Removals(before, after, from + 1));
        assert Decisions([RemoveShard(from)]) == 0 by {
          assert [RemoveShard(from)][1..] == [];
        }
      }
    }
  }

  lemma RetireKeepsPool(d: Durable, v: Volatile, e: Durable, w: Volatile, removals: seq<TrainerCommand>)
    requires PoolValid(d, v, Registering) && OnlyDeactivates(d.shards, e.shards) && e.shardFiles == d.shardFiles
    requires forall i :: 0 <= i < |removals| ==>
      removals[i].RemoveShard? && removals[i].id in RetiredIds(d.shards, e.shards)
    requires w.trainer.pool == v.trainer.pool && w.trainerEvents == v.trainerEvents
    requires w.trainerCommands == v.trainerCommands + [AddShard(|d.shards| - 1)] + removals
    requires w.deletions == v.deletions + RetiredIds(d.shards, e.shards)
    ensures PoolValid(e, w, AtLoop)
  {
    var n := |v.trainerCommands|;
    forall i | 0 <= i < |w.trainerCommands| ensures CommandValid(e, w, AtLoop, i) {
      if i < n {
        assert CommandValid(d, v, Registering, i);
        assert w.trainerCommands[i] == v.trainerCommands[i];
        RetireKeepsCommand(d, v, e, w, removals, i);
      }
    }
    forall i | 0 <= i < |w.trainerEvents| ensures RemovedValid(e, w, AtLoop, w.trainerEvents[i]) {
      assert RemovedValid(d, v, Registering, v.trainerEvents[i]);
    }
  }

  lemma RetireKeepsCommand(d: Durable, v: Volatile, e: Durable, w: Volatile, removals: seq<TrainerCommand>, i: nat)
    requires i < |v.trainerCommands| && CommandValid(d, v, Registering, i) && d.shards != []
    requires OnlyDeactivates(d.shards, e.shards) && e.shardFiles == d.shardFiles
    requires forall k :: 0 <= k < |removals| ==> removals[k].RemoveShard?
    requires w.trainerCommands == v.trainerCommands + [AddShard(|d.shards| - 1)] + removals
    ensures CommandValid(e, w, AtLoop, i)
  {
    if v.trainerCommands[i].RemoveShard? {
      var id := v.trainerCommands[i].id;
      forall j | i < j < |w.trainerCommands| ensures w.trainerCommands[j] != AddShard(id) {
        if j < |v.trainerCommands| {
          assert w.trainerCommands[j] == v.trainerCommands[j];
        }
      }
    }
  }

  lemma RetireKeepsToken(pipe: seq<Item>, d: Durable, v: Volatile, e: Durable, w: Volatile,
                         removals: seq<TrainerCommand>)
    requires d.champion.Some? && TokenValid(pipe, d, v, Registering) && d.shards != []
    requires e.champion == d.champion && e.candidate == d.candidate && e.files == d.files && e.attempts == d.attempts
    requires Decisions(removals) == 0 && (forall i :: 0 <= i < |removals| ==> removals[i].RemoveShard?)
    requires w.trainer == v.trainer && w.trainerEvents == v.trainerEvents && w.stop == v.stop
    requires w.trainerCommands == v.trainerCommands + [AddShard(|d.shards| - 1)] + removals
    ensures TokenValid(pipe, e, w, AtLoop)
  {
    var added := [AddShard(|d.shards| - 1)];
    assert Decisions(added) == 0 by {
      assert added[1..] == [];
    }
    DecisionsAppend(v.trainerCommands, added);
    DecisionsAppend(v.trainerCommands + added, removals);
  }

  lemma RetireShardsValid(config: Config, s: State)
    requires ValidConfig(config) && Inv(config, s) && LoopEnabled(s, RetireShards)
    ensures Inv(config, LoopApply(config, s, RetireShards))
    ensures ActiveGames(LoopApply(config, s, RetireShards).d.shards) <= config.capacity
  {
    var v := s.phase.v;
    var t := LoopApply(config, s, RetireShards);
    ShardsRetiredValid(s.d, config.capacity);
    var removals := Removals(s.d.shards, t.d.shards, 0);
    RemovalsMeaning(s.d.shards, t.d.shards, 0);
    SamePipe(config, v, t.phase.v);
    RetireKeepsPool(s.d, v, t.d, t.phase.v, removals);
    RetireKeepsToken(Pipe(config, v), s.d, v, t.d, t.phase.v, removals);
    SamePipeline(Pipe(config, v), s.d, v, t.d, t.phase.v);
  }

  // ----- candidates and arenas ------------------------------------------------------------------

  lemma PopTrainerEvent(d: Durable, v: Volatile, e: Durable, w: Volatile, pc: Pc, to: Pc)
    requires PoolValid(d, v, pc) && v.trainerEvents != []
    requires e.shards == d.shards && e.shardFiles == d.shardFiles && pc.Registering? == to.Registering?
    requires w.trainer.pool == v.trainer.pool && w.trainerCommands == v.trainerCommands
    requires w.trainerEvents == v.trainerEvents[1..] && w.deletions == v.deletions
    ensures PoolValid(e, w, to)
  {
    forall i | 0 <= i < |w.trainerCommands| ensures CommandValid(e, w, to, i) {
      assert CommandValid(d, v, pc, i);
    }
    forall i | 0 <= i < |w.trainerEvents| ensures RemovedValid(e, w, to, w.trainerEvents[i]) {
      assert RemovedValid(d, v, pc, v.trainerEvents[i + 1]);
      assert w.trainerEvents[i] == v.trainerEvents[i + 1];
    }
  }

  lemma CandidatesHead(events: seq<TrainerEvent>)
    requires events != []
    ensures Candidates(events) == One(events[0].CandidateEvent?) + Candidates(events[1..])
  {
  }

  lemma HandleCandidateValid(config: Config, s: State)
    requires ValidConfig(config) && Inv(config, s) && LoopEnabled(s, HandleCandidate)
    ensures Inv(config, LoopApply(config, s, HandleCandidate))
  {
    var v := s.phase.v;
    var t := LoopApply(config, s, HandleCandidate);
    SamePipe(config, v, t.phase.v);
    CandidatesHead(v.trainerEvents);
    CandidateMovedValid(s.d);
    PopTrainerEvent(s.d, v, t.d, t.phase.v, AtLoop, Moved);
    SamePipeline(Pipe(config, v), s.d, v, t.d, t.phase.v);
  }

  /**
   The number given to a candidate is free: no row has it, every row number is below it, and the rename
   overwrites no checkpoint. So it is in the event loop, in recovery and on the way out.
   */
  lemma CandidateOverwritesNothing(config: Config, s: State, a: Action)
    requires ValidConfig(config) && Inv(config, s) && Enabled(s, a)
    requires a.HandleCandidate? || a.MoveOrphan? || a.FinallyMove?
    ensures var n := |s.d.attempts|;
            var t := Apply(config, s, a);
            && n !in s.d.files && n in t.d.files && t.d.attempts == s.d.attempts && s.d.candidate == Some(t.d.files[n])
            && forall k :: k in s.d.files ==> k < n && k in t.d.files && t.d.files[k] == s.d.files[k]
  {
    assert FilesValid(s.d);
  }

  /** A candidate event always finds the candidate file in place. */
  lemma CandidateFileThere(config: Config, s: State)
    requires ValidConfig(config) && Inv(config, s) && InLoop(s)
    requires s.phase.v.trainerEvents != [] && s.phase.v.trainerEvents[0].CandidateEvent?
    ensures LoopEnabled(s, HandleCandidate)
  {
    CandidatesHead(s.phase.v.trainerEvents);
  }

  lemma SameStore(d: Durable, v: Volatile, e: Durable, w: Volatile, pc: Pc, to: Pc)
    requires PoolValid(d, v, pc) && pc.Registering? == to.Registering?
    requires e.shards == d.shards && e.shardFiles == d.shardFiles
    requires w.trainer.pool == v.trainer.pool && w.trainerCommands == v.trainerCommands
    requires w.trainerEvents == v.trainerEvents && w.deletions == v.deletions
    ensures PoolValid(e, w, to)
  {
    forall i | 0 <= i < |w.trainerCommands| ensures CommandValid(e, w, to, i) {
      assert CommandValid(d, v, pc, i);
    }
    forall i | 0 <= i < |w.trainerEvents| ensures RemovedValid(e, w, to, w.trainerEvents[i]) {
      assert RemovedValid(d, v, pc, v.trainerEvents[i]);
    }
  }

  lemma PendingSnoc(attempts: seq<Attempt>, row: Attempt)
    requires row.status == Interrupted || (row.status == Pending && PendingAttempt(attempts).None?)
    ensures PendingAttempt(attempts + [row])
         == if row.status == Pending then Some(|attempts|) else PendingAttempt(attempts)
  {
    var more := attempts + [row];
    var p, q := PendingAttempt(more), PendingAttempt(attempts);
    assert p.Some? ==> IsPending(attempts, p.value) || (row.status == Pending && p.value == |attempts|);
    if row.status == Pending {
      assert IsPending(more, |attempts|);
    } else if q.Some? {
      assert IsPending(more, q.value);
    }
  }

  /** The branch that records a candidate as interrupted after a stop request is never taken. */
  lemma NoCandidateAfterStop(config: Config, s: State)
    requires ValidConfig(config) && Inv(config, s) && LoopEnabled(s, AddRow)
    ensures !s.phase.v.stop
  {
  }

  lemma AppendArena(config: Config, d: Durable, v: Volatile, n: nat)
    requires ValidConfig(config) && d.champion.Some? && PipelineValid(Pipe(config, v), d, v)
    requires !HasMatch(Pipe(config, v)) && n == |d.attempts|
    ensures var e := RowAdded(d, Pending, d.champion.value);
            var w := v.(arenaWaiting := true, actorCommands := v.actorCommands + [Arena(n)]);
            && PipelineValid(Pipe(config, w), e, w) && Pipe(config, w) == Pipe(config, v) + [Match(n)]
  {
    var pipe := Pipe(config, v);
    var w := v.(arenaWaiting := true, actorCommands := v.actorCommands + [Arena(n)]);
    PendingSnoc(d.attempts, Attempt(Pending, d.champion));
    CommandItemsSnoc(config, v.actorCommands, Arena(n));
    assert Pipe(config, w) == pipe + [Match(n)];
    PipeAppendMatch(pipe, d.nextGame, d.champion.value, n);
    assert HasGen(pipe + [Match(n)]) ==> HasGen(pipe);
  }

  lemma AddPendingValid(config: Config, s: State)
    requires ValidConfig(config) && Inv(config, s) && LoopEnabled(s, AddRow)
    ensures Inv(config, LoopApply(config, s, AddRow))
  {
    var v := s.phase.v;
    var t := LoopApply(config, s, AddRow);
    RowAddedValid(s.d, Pending);
    AppendArena(config, s.d, v, |s.d.attempts|);
    SameStore(s.d, v, t.d, t.phase.v, Moved, AtLoop);
  }

  /** The recorded parent is the champion the trainer held: the one named in the candidate's file. */
  lemma RecordedParent(config: Config, s: State)
    requires ValidConfig(config) && Inv(config, s) && LoopEnabled(s, AddRow)
    ensures var n := |s.d.attempts|;
            var row := LoopApply(config, s, AddRow).d.attempts[n];
            n in s.d.files && row.parent == Some(s.d.files[n]) && row.parent == s.d.champion
  {
  }

  lemma {:induction false} NoDecision(commands: seq<TrainerCommand>)
    requires Decisions(commands) == 0
    ensures forall i :: 0 <= i < |commands| ==> !commands[i].Decision?
  {
    if commands != [] {
      NoDecision(commands[1..]);
      forall i | 0 <= i < |commands| ensures !commands[i].Decision? {
        if i > 0 {
          assert commands[i] == commands[1..][i - 1];
        }
      }
    }
  }

  /** Every arena result is for the pending attempt, and nothing else is left in the pipeline. */
  lemma ArenaMatchesPending(config: Config, s: State, accepted: bool, pause: bool)
    requires ValidConfig(config) && Inv(config, s) && LoopEnabled(s, HandleArena(accepted, pause))
    ensures PendingAttempt(s.d.attempts) == Some(s.phase.v.actorEvents[0].attempt)
    ensures Pipe(config, s.phase.v.(actorEvents := s.phase.v.actorEvents[1..])) == []
  {
    PopEvent(config, s.phase.v);
  }

  lemma HandleArenaValid(config: Config, s: State, accepted: bool, pause: bool)
    requires ValidConfig(config) && Inv(config, s) && LoopEnabled(s, HandleArena(accepted, pause))
    ensures Inv(config, LoopApply(config, s, HandleArena(accepted, pause)))
  {
    var v := s.phase.v;
    var t := LoopApply(config, s, HandleArena(accepted, pause));
    var w := v.(actorEvents := v.actorEvents[1..]);
    ArenaMatchesPending(config, s, accepted, pause);
    PopEvent(config, v);
    PopWritten(v, s.d.shardFiles);
    DecidedValid(s.d, v.actorEvents[0].attempt, accepted);
    SamePipe(config, w, t.phase.v);
    NoDecision(v.trainerCommands);
    SameStore(s.d, v, t.d, t.phase.v, AtLoop, t.phase.pc);
  }

  lemma PrunedValid(d: Durable, pruned: set<nat>)
    requires DurableValid(d) && forall n :: n in pruned ==> n < |d.attempts|
    ensures DurableValid(d.(files := d.files - pruned))
  {
  }

  lemma AppendDecisionPool(d: Durable, v: Volatile, e: Durable, w: Volatile, pc: Pc, to: Pc, c: TrainerCommand)
    requires PoolValid(d, v, pc) && c.Decision? && pc.Registering? == to.Registering?
    requires e.shards == d.shards && e.shardFiles == d.shardFiles
    requires w.trainer.pool == v.trainer.pool && w.trainerCommands == v.trainerCommands + [c]
    requires w.trainerEvents == v.trainerEvents && w.deletions == v.deletions
    ensures PoolValid(e, w, to)
  {
    forall i | 0 <= i < |w.trainerCommands| ensures CommandValid(e, w, to, i) {
      if i < |v.trainerCommands| {
        assert CommandValid(d, v, pc, i);
        assert w.trainerCommands[i] == v.trainerCommands[i];
      }
    }
    forall i | 0 <= i < |w.trainerEvents| ensures RemovedValid(e, w, to, w.trainerEvents[i]) {
      assert RemovedValid(d, v, pc, v.trainerEvents[i]);
    }
  }

  lemma SendDecisionToken(pipe: seq<Item>, d: Durable, v: Volatile, pause: bool, pruned: set<nat>, w: Volatile)
    requires d.champion.Some? && TokenValid(pipe, d, v, Deciding(pause))
    requires forall n :: n in pruned ==> n < |d.attempts|
    requires w.trainer == v.trainer && w.trainerEvents == v.trainerEvents && w.stop == v.stop
    requires w.trainerCommands == v.trainerCommands + [Decision(d.champion.value, pause)]
    ensures TokenValid(pipe, d.(files := d.files - pruned), w, AtLoop)
  {
    var c := Decision(d.champion.value, pause);
    DecisionsAppend(v.trainerCommands, [c]);
    assert Decisions([c]) == 1 by {
      assert [c][1..] == [];
    }
  }

  lemma SendDecisionValid(config: Config, s: State, pruned: set<nat>)
    requires ValidConfig(config) && Inv(config, s) && LoopEnabled(s, SendDecision(pruned))
    ensures Inv(config, LoopApply(config, s, SendDecision(pruned)))
  {
    var v, pc := s.phase.v, s.phase.pc;
    var t := LoopApply(config, s, SendDecision(pruned));
    CommandItemsSnoc(config, v.actorCommands, Reload);
    assert CommandItems(config, v.actorCommands) + [] == CommandItems(config, v.actorCommands);
    assert Pipe(config, t.phase.v) == Pipe(config, v);
    PrunedValid(s.d, pruned);
    AppendDecisionPool(s.d, v, t.d, t.phase.v, pc, AtLoop, Decision(s.d.champion.value, pc.pause));
    SendDecisionToken(Pipe(config, v), s.d, v, pc.pause, pruned, t.phase.v);
    SamePipeline(Pipe(config, v), s.d, v, t.d, t.phase.v);
  }

  // ----- removal, acknowledgements, generation --------------------------------------------------

  lemma {:induction false} EventInPipe(events: seq<ActorEvent>, i: nat)
    requires i < |events| && events[i].ShardEvent?
    ensures Gen(events[i].interval, events[i].champion, events[i].final) in EventItems(events)
  {
    if i > 0 {
      EventInPipe(events[1..], i - 1);
    }
  }

  lemma {:induction false} IntervalInBatch(champion: nat, intervals: seq<Interval>, i: nat)
    requires i < |intervals|
    ensures exists final :: Gen(intervals[i], champion, final) in Batch(champion, intervals)
  {
    if i == 0 {
      assert Batch(champion, intervals)[0] == Gen(intervals[0], champion, |intervals| == 1);
    } else {
      IntervalInBatch(champion, intervals[1..], i - 1);
      var final :| Gen(intervals[i], champion, final) in Batch(champion, intervals[1..]);
      assert Gen(intervals[i], champion, final) in Batch(champion, intervals);
    }
  }

  lemma ItemAhead(pipe: seq<Item>, next: nat, champion: nat, pending: Option<nat>, item: Item)
    requires PipeValid(pipe, next, champion, pending) && item in pipe && item.Gen?
    ensures item.interval.first >= next
  {
    var k :| 0 <= k < |pipe| && pipe[k] == item;
    PipeAhead(pipe, next, champion, pending, k);
  }

  /** No shard in flight uses a file below the next game id. */
  lemma UnlinkKeepsWritten(config: Config, d: Durable, v: Volatile, first: nat)
    requires ValidConfig(config) && d.champion.Some? && PipelineValid(Pipe(config, v), d, v) && first < d.nextGame
    ensures Written(v, d.shardFiles - {first})
  {
    var pipe := Pipe(config, v);
    var next, champion, pending := d.nextGame, d.champion.value, PendingAttempt(d.attempts);
    forall i | 0 <= i < |v.actorEvents| && v.actorEvents[i].ShardEvent?
      ensures v.actorEvents[i].interval.first != first
    {
      var e := v.actorEvents[i];
      EventInPipe(v.actorEvents, i);
      ItemAhead(pipe, next, champion, pending, Gen(e.interval, e.champion, e.final));
    }
    if v.actor.Writing? {
      forall i | 0 <= i < |v.actor.written| ensures v.actor.written[i].first != first {
        var all := v.actor.written + v.actor.todo;
        IntervalInBatch(v.actor.champion, all, i);
        var final :| Gen(all[i], v.actor.champion, final) in Batch(v.actor.champion, all);
        ItemAhead(pipe, next, champion, pending, Gen(all[i], v.actor.champion, final));
      }
    }
    if v.actor.Sending? {
      forall i | 0 <= i < |v.actor.rest| ensures v.actor.rest[i].first != first {
        IntervalInBatch(v.actor.champion, v.actor.rest, i);
        var final :| Gen(v.actor.rest[i], v.actor.champion, final) in Batch(v.actor.champion, v.actor.rest);
        ItemAhead(pipe, next, champion, pending, Gen(v.actor.rest[i], v.actor.champion, final));
      }
    }
  }

  /** Unlinking the file of a removed shard leaves every other shard readable. */
  lemma UnlinkKeepsPool(d: Durable, v: Volatile, e: Durable, w: Volatile)
    requires DurableValid(d) && PoolValid(d, v, AtLoop) && v.trainerEvents != [] && v.trainerEvents[0].ShardRemoved?
    requires v.trainerEvents[0].id in v.deletions && v.trainerEvents[0].id < |d.shards|
    requires e == d.(shardFiles := d.shardFiles - {d.shards[v.trainerEvents[0].id].interval.first})
    requires w == v.(trainerEvents := v.trainerEvents[1..], deletions := v.deletions - {v.trainerEvents[0].id})
    ensures DurableValid(e) && PoolValid(e, w, AtLoop)
  {
    var id := v.trainerEvents[0].id;
    assert RemovedValid(d, v, AtLoop, v.trainerEvents[0]);
    forall i: nat | i < |d.shards| && i != id ensures d.shards[i].interval.first != d.shards[id].interval.first {
      ShardFilesDistinct(d, i, id);
    }
    forall i | 0 <= i < |w.trainerCommands| ensures CommandValid(e, w, AtLoop, i) {
      assert CommandValid(d, v, AtLoop, i);
    }
    forall i | 0 <= i < |w.trainerEvents| ensures RemovedValid(e, w, AtLoop, w.trainerEvents[i]) {
      assert RemovedValid(d, v, AtLoop, v.trainerEvents[i + 1]);
    }
  }

  /** The two cases of a removal report: a retired shard's file goes, or nothing happens. */
  predicate Unlinks(s: State) {
    s.phase.Running? && s.phase.v.trainerEvents != [] && s.phase.v.trainerEvents[0].ShardRemoved?
    && s.phase.v.trainerEvents[0].id in s.phase.v.deletions && s.phase.v.trainerEvents[0].id < |s.d.shards|
  }

  lemma RemovedFrame(config: Config, s: State)
    requires LoopEnabled(s, HandleRemoved)
    ensures var t := LoopApply(config, s, HandleRemoved);
            var v, id := s.phase.v, s.phase.v.trainerEvents[0].id;
            && t.phase == Running(v.(trainerEvents := v.trainerEvents[1..], deletions := v.deletions - {id}),
                                  AtLoop, s.phase.stopping)
            && t.d == if Unlinks(s) then s.d.(shardFiles := s.d.shardFiles - {s.d.shards[id].interval.first}) else s.d
  {
  }

  lemma UnlinkValid(config: Config, s: State)
    requires ValidConfig(config) && Inv(config, s) && LoopEnabled(s, HandleRemoved)
    ensures var t := LoopApply(config, s, HandleRemoved);
            && t.phase.Running? && DurableValid(t.d) && PoolValid(t.d, t.phase.v, AtLoop)
            && Written(t.phase.v, t.d.shardFiles)
  {
    var v := s.phase.v;
    var t := LoopApply(config, s, HandleRemoved);
    var id := v.trainerEvents[0].id;
    RemovedFrame(config, s);
    if Unlinks(s) {
      UnlinkKeepsPool(s.d, v, t.d, t.phase.v);
      ConsecutiveBelow(s.d.shards, s.d.nextGame, id);
      UnlinkKeepsWritten(config, s.d, v, s.d.shards[id].interval.first);
    } else {
      DropReport(s.d, v, t.phase.v);
    }
  }

  lemma DropReport(d: Durable, v: Volatile, w: Volatile)
    requires PoolValid(d, v, AtLoop) && v.trainerEvents != [] && v.trainerEvents[0].ShardRemoved?
    requires w == v.(trainerEvents := v.trainerEvents[1..], deletions := v.deletions - {v.trainerEvents[0].id})
    ensures PoolValid(d, w, AtLoop)
  {
    var u := v.(trainerEvents := v.trainerEvents[1..]);
    PopTrainerEvent(d, v, d, u, AtLoop, AtLoop);
    ForgetDeletion(d, u, w);
  }

  lemma PopToken(pipe: seq<Item>, d: Durable, v: Volatile, e: Durable, w: Volatile)
    requires d.champion.Some? && TokenValid(pipe, d, v, AtLoop) && v.trainerEvents != []
    requires !v.trainerEvents[0].CandidateEvent?
    requires e.champion == d.champion && e.candidate == d.candidate && e.files == d.files && e.attempts == d.attempts
    requires w.trainer == v.trainer && w.trainerCommands == v.trainerCommands && w.trainerEvents == v.trainerEvents[1..]
    requires w.stop == v.stop
    ensures TokenValid(pipe, e, w, AtLoop)
  {
    CandidatesHead(v.trainerEvents);
  }

  lemma HandleRemovedValid(config: Config, s: State)
    requires ValidConfig(config) && Inv(config, s) && LoopEnabled(s, HandleRemoved)
    ensures Inv(config, LoopApply(config, s, HandleRemoved))
  {
    var v := s.phase.v;
    var t := LoopApply(config, s, HandleRemoved);
    UnlinkValid(config, s);
    RemovedFrame(config, s);
    SamePipe(config, v, t.phase.v);
    PopToken(Pipe(config, v), s.d, v, t.d, t.phase.v);
    SamePipeline(Pipe(config, v), s.d, v, t.d, t.phase.v);
  }

  lemma ForgetDeletion(d: Durable, v: Volatile, w: Volatile)
    requires PoolValid(d, v, AtLoop) && w == v.(deletions := w.deletions) && w.deletions <= v.deletions
    ensures PoolValid(d, w, AtLoop)
  {
    forall i | 0 <= i < |w.trainerCommands| ensures CommandValid(d, w, AtLoop, i) {
      assert CommandValid(d, v, AtLoop, i);
    }
    forall i | 0 <= i < |w.trainerEvents| ensures RemovedValid(d, w, AtLoop, w.trainerEvents[i]) {
      assert RemovedValid(d, v, AtLoop, v.trainerEvents[i]);
    }
  }

  lemma AcknowledgedValid(config: Config, s: State, a: Action)
    requires ValidConfig(config) && Inv(config, s) && LoopEnabled(s, a) && (a.HandleApplied? || a.HandleReloaded?)
    ensures Inv(config, LoopApply(config, s, a))
  {
    var v := s.phase.v;
    var t := LoopApply(config, s, a);
    if a.HandleApplied? {
      SamePipe(config, v, t.phase.v);
      CandidatesHead(v.trainerEvents);
      PopTrainerEvent(s.d, v, s.d, t.phase.v, AtLoop, AtLoop);
    } else {
      PopEvent(config, v);
      PopWritten(v, s.d.shardFiles);
      SamePipe(config, v.(actorEvents := v.actorEvents[1..]), t.phase.v);
      assert [] + Pipe(config, t.phase.v) == Pipe(config, t.phase.v);
      SamePool(s.d, v, t.phase.v, AtLoop);
    }
    SamePipeline(Pipe(config, v), s.d, v, t.d, t.phase.v);
  }

  lemma QueueGenerationValid(config: Config, s: State)
    requires ValidConfig(config) && Inv(config, s) && LoopEnabled(s, QueueGeneration)
    ensures Inv(config, LoopApply(config, s, QueueGeneration))
  {
    var v := s.phase.v;
    var t := LoopApply(config, s, QueueGeneration);
    var c := Generate(s.d.champion.value, s.d.nextGame);
    assert Pipe(config, v) == [];
    CommandItemsSnoc(config, v.actorCommands, c);
    assert Pipe(config, t.phase.v) == Pipe(config, v) + CommandItem(config, c) == CommandItem(config, c);
    BatchValid(s.d.champion.value, s.d.nextGame, config.batch, config.chunk, PendingAttempt(s.d.attempts));
    SamePool(s.d, v, t.phase.v, AtLoop);
  }

  // ----- all steps, all runs --------------------------------------------------------------------

  lemma LoopStepValid(config: Config, s: State, a: Action)
    requires ValidConfig(config) && Inv(config, s) && LoopEnabled(s, a)
    ensures Inv(config, LoopApply(config, s, a))
  {
    match a {
      case HandleShard => HandleShardValid(config, s);
      case RetireShards => RetireShardsValid(config, s);
      case HandleCandidate => HandleCandidateValid(config, s);
      case AddRow => AddPendingValid(config, s);
      case HandleArena(accepted, pause) => HandleArenaValid(config, s, accepted, pause);
      case SendDecision(pruned) => SendDecisionValid(config, s, pruned);
      case HandleRemoved => HandleRemovedValid(config, s);
      case HandleApplied => AcknowledgedValid(config, s, a);
      case HandleReloaded => AcknowledgedValid(config, s, a);
      case QueueGeneration => QueueGenerationValid(config, s);
    }
  }

  lemma StepValid(config: Config, s: State, a: Action)
    requires ValidConfig(config) && Inv(config, s) && Enabled(s, a)
    ensures Inv(config, Apply(config, s, a))
  {
    if a.WriteRoot? || a.AddRootRow? || a.RecoverOrphan? || a.MoveOrphan? {
      StartingValid(config, s, a);
    } else if a.Launch? {
      LaunchValid(config, s);
    } else if a.FinallyMove? || a.FinallyRow? {
      ClosingValid(config, s, a);
    } else if a.Boot? || a.EarlyReturn? || a.Crash? || a.BeginStop? || a.KillChildren? || a.FinallyDone? {
    } else if ActorEnabled(s, a) {
      ActorStepValid(config, s, a);
    } else if TrainerEnabled(s, a) {
      TrainerStepValid(config, s, a);
    } else {
      LoopStepValid(config, s, a);
    }
  }

  /** The state after a run, or `None` when some action was not enabled. */
  function Run(config: Config, s: State, actions: seq<Action>): Option<State>
    requires ValidConfig(config)
    decreases |actions|
  {
    if actions == [] then Some(s)
    else if Enabled(s, actions[0]) then Run(config, Apply(config, s, actions[0]), actions[1..])
    else None
  }

  const START := State(EMPTY_RUN, Down)

  lemma {:induction false} RunValid(config: Config, s: State, actions: seq<Action>)
    requires ValidConfig(config) && Inv(config, s) && Run(config, s, actions).Some?
    ensures Inv(config, Run(config, s, actions).value)
    decreases |actions|
  {
    if actions != [] {
      StepValid(config, s, actions[0]);
      RunValid(config, Apply(config, s, actions[0]), actions[1..]);
    }
  }

  /** At most one candidate is written, announced, being recorded, in the arena or being decided. */
  predicate OneCandidate(config: Config, s: State)
    requires ValidConfig(config) && s.phase.Running?
  {
    var v := s.phase.v;
    One(v.trainer.unsent) + Candidates(v.trainerEvents) + One(s.phase.pc.Moved?)
    + One(HasMatch(Pipe(config, v))) + One(s.phase.pc.Deciding?) + Decisions(v.trainerCommands) <= 1
  }

  /** What the event at the head of each queue may be relied on for. */
  ghost predicate HeadsSafe(config: Config, s: State)
    requires ValidConfig(config) && s.phase.Running?
  {
    var v := s.phase.v;
    && (v.actorEvents != [] && v.actorEvents[0].ArenaEvent? ==>
          PendingAttempt(s.d.attempts) == Some(v.actorEvents[0].attempt))
    && (v.actorEvents != [] && v.actorEvents[0].ShardEvent? ==>
          Some(v.actorEvents[0].champion) == s.d.champion && v.actorEvents[0].interval.first == s.d.nextGame)
    && (v.trainerEvents != [] && v.trainerEvents[0].CandidateEvent? ==>
          s.d.candidate.Some? && s.d.candidate == s.d.champion)
    && (v.trainerEvents != [] && v.trainerEvents[0].ShardRemoved? ==> v.trainerEvents[0].id !in v.trainer.pool)
  }

  /** Every shard the trainer samples from can be read. */
  predicate PoolReadable(s: State)
    requires s.phase.Running?
  {
    forall id :: id in s.phase.v.trainer.pool ==> Readable(s.d, id)
  }

  lemma HeadsAreSafe(config: Config, s: State)
    requires ValidConfig(config) && Inv(config, s) && s.phase.Running?
    ensures HeadsSafe(config, s)
  {
    var v := s.phase.v;
    if v.actorEvents != [] {
      PopEvent(config, v);
    }
    if v.trainerEvents != [] {
      CandidatesHead(v.trainerEvents);
      assert RemovedValid(s.d, v, s.phase.pc, v.trainerEvents[0]);
    }
  }

  /**
   Coordinator safety: in every reachable state, whatever crashes came before, at most one candidate is
   in flight or pending; an arena result at the head matches the pending attempt; a shard at the head
   comes from the current champion and continues the game ids; a candidate was trained from the current
   champion; a removed shard has left the pool; and every pooled shard is readable.
   */
  lemma CoordinatorSafe(config: Config, actions: seq<Action>)
    requires ValidConfig(config) && Run(config, START, actions).Some?
    ensures var s := Run(config, START, actions).value;
            && DurableValid(s.d)
            && (s.phase.Running? ==> OneCandidate(config, s) && HeadsSafe(config, s) && PoolReadable(s))
  {
    RunValid(config, START, actions);
    var s := Run(config, START, actions).value;
    if s.phase.Running? {
      HeadsAreSafe(config, s);
    }
  }

  // ----- crash consistency ----------------------------------------------------------------------

  /** What recovery leaves behind before anything is started. */
  ghost predicate Consistent(d: Durable) {
    && (forall i: nat, j: nat :: IsPending(d.attempts, i) && IsPending(d.attempts, j) ==> i == j)
    && d.champion.Some? && d.champion.value < |d.attempts| && d.attempts[d.champion.value].status == Accepted
    && d.acceptedCount == AcceptedRows(d.attempts)
    && d.candidate.None?
    && (forall n :: n in d.files ==> n < |d.attempts|)
    && (forall n :: n in d.files && n > 0 ==> d.attempts[n].parent == Some(d.files[n]))
  }

  /** Recovery keeps every row and every checkpoint, and files a waiting candidate under a new number. */
  predicate Preserved(d: Durable, r: Durable) {
    && d.attempts <= r.attempts
    && (forall n :: n in d.files ==> n in r.files && (n > 0 ==> r.files[n] == d.files[n]))
    && (d.candidate.Some? ==> Filed(r, |d.attempts|, d.candidate.value))
  }

  /** Row `n` exists, and its checkpoint names `parent`. */
  predicate Filed(r: Durable, n: nat, parent: nat) {
    n < |r.attempts| && n in r.files && r.files[n] == parent && r.attempts[n].parent == Some(parent)
  }

  /** The recovery steps from a durable state. */
  function RecoverySchedule(d: Durable): seq<Action> {
    if d.champion.None? then [WriteRoot, AddRootRow]
    else if Recoverable(d) then [RecoverOrphan]
    else if d.candidate.Some? then [MoveOrphan, RecoverOrphan]
    else []
  }

  lemma RunTwo(config: Config, s: State, a: Action, b: Action)
    requires ValidConfig(config) && Enabled(s, a) && Enabled(Apply(config, s, a), b)
    ensures Run(config, s, [a, b]) == Some(Apply(config, Apply(config, s, a), b))
  {
    assert [a, b][1..] == [b];
    assert [b][1..] == [];
    assert Run(config, Apply(config, Apply(config, s, a), b), []) == Some(Apply(config, Apply(config, s, a), b));
  }

  lemma RunOne(config: Config, s: State, a: Action)
    requires ValidConfig(config) && Enabled(s, a)
    ensures Run(config, s, [a]) == Some(Apply(config, s, a))
  {
    assert [a][1..] == [];
  }

  lemma OrphanPreserved(d: Durable)
    requires DurableValid(d) && Recoverable(d)
    ensures Preserved(d, Recovered(d))
  {
  }

  lemma CandidatePreserved(d: Durable)
    requires DurableValid(d) && d.candidate.Some?
    ensures Preserved(d, Recovered(CandidateMoved(d)))
  {
  }

  /**
   Crash consistency: from the durable state at any moment of any run, recovery comes to an end, and then
   there is at most one pending attempt, the champion pointer names an accepted row, the count is the
   number of accepted rows, and every checkpoint file has exactly its row, with the parent it names. No row
   and no checkpoint is lost, and a fully written candidate gets a row of its own.
   */
  lemma RecoveryConsistent(config: Config, actions: seq<Action>)
    requires ValidConfig(config) && Run(config, START, actions).Some?
    ensures var d := Run(config, START, actions).value.d;
            var r := Run(config, State(d, Starting), RecoverySchedule(d));
            && r.Some? && RecoveryDone(r.value) && Consistent(r.value.d)
            && Preserved(d, r.value.d)
  {
    RunValid(config, START, actions);
    var d := Run(config, START, actions).value.d;
    var s := State(d, Starting);
    if d.champion.None? {
      RunTwo(config, s, WriteRoot, AddRootRow);
      StepValid(config, s, WriteRoot);
      StepValid(config, Apply(config, s, WriteRoot), AddRootRow);
    } else if Recoverable(d) {
      RunOne(config, s, RecoverOrphan);
      RecoveredValid(d);
      OrphanPreserved(d);
    } else if d.candidate.Some? {
      CandidateMovedValid(d);
      RunTwo(config, s, MoveOrphan, RecoverOrphan);
      RecoveredValid(CandidateMoved(d));
      CandidatePreserved(d);
    }
  }

  // ----- replay lifecycle -----------------------------------------------------------------------

  /** In every reachable state, across any crashes, each registered game id lies in exactly one shard row. */
  lemma RegisteredGamesPartitioned(config: Config, actions: seq<Action>, id: nat)
    requires ValidConfig(config) && Run(config, START, actions).Some?
    requires 1 <= id < Run(config, START, actions).value.d.nextGame
    ensures var shards := Run(config, START, actions).value.d.shards;
            exists i: nat :: InShard(shards, i, id) && forall j: nat :: InShard(shards, j, id) ==> j == i
  {
    RunValid(config, START, actions);
    var d := Run(config, START, actions).value.d;
    var i := ConsecutiveCover(d.shards, d.nextGame, id);
    assert InShard(d.shards, i, id);
    forall j: nat | InShard(d.shards, j, id) ensures j == i {
      if i < j {
        ConsecutiveDisjoint(d.shards, d.nextGame, i, j);
      } else if j < i {
        ConsecutiveDisjoint(d.shards, d.nextGame, j, i);
      }
    }
  }

  predicate InShard(shards: seq<Shard>, i: nat, id: nat) {
    i < |shards| && shards[i].interval.first <= id < shards[i].interval.first + shards[i].interval.games
  }

  /** A completed registration leaves the active games within capacity, in any run. */
  lemma RegistrationWithinCapacity(config: Config, actions: seq<Action>)
    requires ValidConfig(config) && Run(config, START, actions).Some?
    requires LoopEnabled(Run(config, START, actions).value, RetireShards)
    ensures var t := LoopApply(config, Run(config, START, actions).value, RetireShards);
            ActiveGames(t.d.shards) <= config.capacity && ActiveSuffix(t.d.shards)
  {
    RunValid(config, START, actions);
    RetireShardsValid(config, Run(config, START, actions).value);
  }

  /** A replay file is unlinked only after the pool has dropped its shard, and the shard never returns. */
  lemma UnlinkAfterDrop(config: Config, s: State, id: nat)
    requires ValidConfig(config) && Inv(config, s) && LoopEnabled(s, HandleRemoved) && id < |s.d.shards|
    requires s.d.shards[id].interval.first in s.d.shardFiles
    requires s.d.shards[id].interval.first !in LoopApply(config, s, HandleRemoved).d.shardFiles
    ensures id !in s.phase.v.trainer.pool && !s.d.shards[id].active
    ensures forall j :: 0 <= j < |s.phase.v.trainerCommands| ==> s.phase.v.trainerCommands[j] != AddShard(id)
  {
    var e := s.phase.v.trainerEvents[0];
    assert RemovedValid(s.d, s.phase.v, s.phase.pc, e);
    if e.id != id {
      ShardFilesDistinct(s.d, e.id, id);
    }
  }
}
