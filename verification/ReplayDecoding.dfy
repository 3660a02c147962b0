/**
 The trainer's replay pool run along with the coordinator: the pool object follows the queued commands,
 and files are loaded in any order between them. From a launch with fewer active shards than the cache
 holds, and from no other, every shard file is decoded at most once until the next launch.
 */
module ReplayDecoding {
  import opened Board
  import opened Manifest
  import opened Coordination
  import opened CoordinationSafety
  import opened ReplaySync
  import opened ReplayWindow
  import opened ReplayOverflow
  import P = ReplayPools

  /** A step of the coordinator and its processes, or the trainer loading the file of a pooled shard. */
  datatype Event = Acts(action: Action) | Loads(path: nat)

  datatype Twin<T> = Twin(s: State, pool: P.Pool<T>)

  // ----- the pool object --------------------------------------------------------------------------

  /** The files of shard rows. */
  function Files(shards: seq<Shard>): seq<nat> {
    seq(|shards|, i requires 0 <= i < |shards| => shards[i].interval.first)
  }

  /** What a command does to the pool; a shard's row comes with the command. */
  function Obeyed<T>(files: seq<nat>, c: TrainerCommand, pool: P.Pool<T>): P.Pool<T> {
    match c
    case AddShard(id) => P.AddedTo(pool, P.Pooled(id, if id < |files| then files[id] else 0))
    case RemoveShard(id) => P.RemovedFrom(pool, id)
    case _ => pool
  }

  function Followed<T>(s: State, a: Action, pool: P.Pool<T>): P.Pool<T> {
    if a.TrainerTake? && TrainerEnabled(s, a) then Obeyed(Files(s.d.shards), s.phase.v.trainerCommands[0], pool)
    else pool
  }

  /** `_load`; a file that cannot be read leaves the pool alone. */
  function Loaded<T>(read: nat -> Option<T>, limit: nat, pool: P.Pool<T>, path: nat): P.Pool<T> {
    match read(path)
    case None => pool
    case Some(value) => P.LoadedFrom(pool, limit, path, value)
  }

  predicate Possible<T>(t: Twin<T>, e: Event) {
    match e
    case Acts(a) => Enabled(t.s, a)
    case Loads(path) => t.s.phase.Running? && P.Holds(t.pool.shards, path)
  }

  function Next<T>(config: Config, read: nat -> Option<T>, t: Twin<T>, e: Event): Twin<T>
    requires ValidConfig(config) && Possible(t, e)
  {
    match e
    case Acts(a) => Twin(Apply(config, t.s, a), Followed(t.s, a, t.pool))
    case Loads(path) => t.(pool := Loaded(read, CacheLimit(config), t.pool, path))
  }

  function Course<T>(config: Config, read: nat -> Option<T>, t: Twin<T>, events: seq<Event>): Option<Twin<T>>
    requires ValidConfig(config)
    decreases |events|
  {
    if events == [] then Some(t)
    else if Possible(t, events[0]) then Course(config, read, Next(config, read, t, events[0]), events[1..])
    else None
  }

  /** A new trainer's pool: the active shards and an empty cache. */
  function Rows(shards: seq<Shard>): seq<P.Pooled> {
    if shards == [] then []
    else
      var n := |shards| - 1;
      Rows(shards[..n]) + if shards[n].active then [P.Pooled(n, shards[n].interval.first)] else []
  }

  function LaunchTwin<T>(config: Config, s: State): Twin<T>
    requires ValidConfig(config) && Enabled(s, Launch)
  {
    Twin(Apply(config, s, Launch), P.Pool(Rows(s.d.shards), [], []))
  }

  // ----- the pool object is the trainer's pool ------------------------------------------------------

  function Ids(shards: seq<P.Pooled>): set<nat> {
    set i | 0 <= i < |shards| :: shards[i].id
  }

  /** The list holds the shards of these ids, once each, with their files. */
  predicate Mirrors(files: seq<nat>, ids: set<nat>, shards: seq<P.Pooled>) {
    && Ids(shards) == ids && P.DistinctPaths(shards)
    && forall i :: 0 <= i < |shards| ==> shards[i].id < |files| && shards[i].path == files[shards[i].id]
  }

  predicate DistinctFiles(files: seq<nat>) {
    forall i, j :: 0 <= i < j < |files| ==> files[i] != files[j]
  }

  function AddCount(commands: seq<TrainerCommand>, id: nat): nat {
    if commands == [] then 0 else One(commands[0] == AddShard(id)) + AddCount(commands[1..], id)
  }

  /** A shard is added once, and only after it was announced. */
  predicate AddedOnce(known: nat, ids: set<nat>, commands: seq<TrainerCommand>, id: nat) {
    AddCount(commands, id) + One(id in ids) <= One(id < known)
  }

  ghost predicate Coupled(files: seq<nat>, ids: set<nat>, commands: seq<TrainerCommand>, shards: seq<P.Pooled>) {
    && DistinctFiles(files) && Mirrors(files, ids, shards)
    && forall id: nat :: AddedOnce(|files|, ids, commands, id)
  }

  lemma {:induction false} AddAppend(a: seq<TrainerCommand>, b: seq<TrainerCommand>, id: nat)
    ensures AddCount(a + b, id) == AddCount(a, id) + AddCount(b, id)
  {
    if a == [] {
      assert a + b == b;
    } else {
      assert (a + b)[1..] == a[1..] + b;
      AddAppend(a[1..], b, id);
    }
  }

  lemma AddOne(c: TrainerCommand, id: nat)
    ensures AddCount([c], id) == One(c == AddShard(id))
  {
    assert [c][1..] == [];
  }

  lemma {:induction false} RemovalsAddNothing(before: seq<Shard>, after: seq<Shard>, from: nat, id: nat)
    requires |before| == |after| && from <= |before|
    ensures AddCount(Removals(before, after, from), id) == 0
    decreases |before| - from
  {
    if from < |before| {
      RemovalsAddNothing(before, after, from + 1, id);
      if before[from].active && !after[from].active {
        assert Removals(before, after, from)[1..] == Removals(before, after, from + 1);
      }
    }
  }

  lemma FileOfId(files: seq<nat>, ids: set<nat>, shards: seq<P.Pooled>, id: nat)
    requires DistinctFiles(files) && Mirrors(files, ids, shards) && id < |files|
    ensures P.Holds(shards, files[id]) <==> id in ids
  {
    if id in ids {
      var i :| 0 <= i < |shards| && shards[i].id == id;
      assert shards[i].path == files[id];
    }
  }

  lemma MirrorsAdd(files: seq<nat>, ids: set<nat>, shards: seq<P.Pooled>, id: nat)
    requires DistinctFiles(files) && Mirrors(files, ids, shards) && id < |files| && id !in ids
    ensures Mirrors(files, ids + {id}, shards + [P.Pooled(id, files[id])])
  {
    var more := shards + [P.Pooled(id, files[id])];
    FileOfId(files, ids, shards, id);
    assert more[|shards|].id == id;
    forall k | k in ids ensures k in Ids(more) {
      var i :| 0 <= i < |shards| && shards[i].id == k;
      assert more[i].id == k;
    }
  }

  lemma MirrorsRemove(files: seq<nat>, ids: set<nat>, shards: seq<P.Pooled>, id: nat)
    requires Mirrors(files, ids, shards)
    ensures Mirrors(files, ids - {id}, P.Kept(shards, id))
  {
    var fewer := P.Kept(shards, id);
    P.KeptMeaning(shards, id);
    forall i | 0 <= i < |fewer| ensures fewer[i] in shards && fewer[i].id != id {
      assert fewer[i] in fewer;
    }
    forall k | k in ids && k != id ensures k in Ids(fewer) {
      var i :| 0 <= i < |shards| && shards[i].id == k;
      assert shards[i] in fewer;
      var j :| 0 <= j < |fewer| && fewer[j] == shards[i];
    }
  }

  /** The trainer takes a command: the object does what the set of ids does. */
  lemma CoupledTake<T>(files: seq<nat>, ids: set<nat>, commands: seq<TrainerCommand>, pool: P.Pool<T>)
    requires Coupled(files, ids, commands, pool.shards) && commands != []
    ensures Coupled(files, Applied(ids, commands[0]), commands[1..], Obeyed(files, commands[0], pool).shards)
  {
    var c := commands[0];
    forall id: nat ensures AddedOnce(|files|, Applied(ids, c), commands[1..], id) {
      assert AddedOnce(|files|, ids, commands, id);
    }
    match c {
      case AddShard(id) =>
        assert AddedOnce(|files|, ids, commands, id);
        MirrorsAdd(files, ids, pool.shards, id);
      case RemoveShard(id) => MirrorsRemove(files, ids, pool.shards, id);
      case _ =>
    }
  }

  lemma {:induction false} RowsMirror(shards: seq<Shard>)
    requires DistinctFiles(Files(shards))
    ensures Mirrors(Files(shards), ActiveIds(shards), Rows(shards))
    decreases |shards|
  {
    if shards != [] {
      var n := |shards| - 1;
      var files := Files(shards);
      assert Files(shards[..n]) == files[..n];
      RowsMirror(shards[..n]);
      ActiveIdsSnoc(shards);
      assert Mirrors(files, ActiveIds(shards[..n]), Rows(shards[..n]));
      if shards[n].active {
        MirrorsAdd(files, ActiveIds(shards[..n]), Rows(shards[..n]), n);
      } else {
        assert Rows(shards) == Rows(shards[..n]);
      }
    }
  }

  lemma {:induction false} MirrorSize(files: seq<nat>, ids: set<nat>, shards: seq<P.Pooled>)
    requires Mirrors(files, ids, shards)
    ensures |shards| == |ids|
    decreases |shards|
  {
    if shards != [] {
      var n := |shards| - 1;
      var id := shards[n].id;
      forall i | 0 <= i < n ensures shards[i].id != id {
        assert shards[i].path != shards[n].path;
      }
      assert Ids(shards[..n]) == ids - {id} by {
        forall k | k in ids && k != id ensures k in Ids(shards[..n]) {
          var i :| 0 <= i < |shards| && shards[i].id == k;
          assert shards[..n][i].id == k;
        }
      }
      MirrorSize(files, ids - {id}, shards[..n]);
    }
  }

  // ----- coordinator steps and the pool object --------------------------------------------------------

  /** The files announced to the trainer. */
  function Told(s: State): seq<nat>
    requires s.phase.Running?
  {
    Files(Announced(s.d, s.phase.pc))
  }

  /** Every newly announced shard gets one command, and no other shard is added again. */
  ghost predicate Announces(files: seq<nat>, commands: seq<TrainerCommand>, more: seq<nat>,
                            longer: seq<TrainerCommand>) {
    && files <= more && DistinctFiles(more)
    && forall id: nat :: AnnouncedAt(|files|, commands, |more|, longer, id)
  }

  predicate AnnouncedAt(known: nat, commands: seq<TrainerCommand>, now: nat, longer: seq<TrainerCommand>, id: nat) {
    AddCount(longer, id) == AddCount(commands, id) + One(known <= id < now)
  }

  ghost predicate TwinCoupled<T>(t: Twin<T>) {
    t.s.phase.Running? ==>
      Coupled(Told(t.s), t.s.phase.v.trainer.pool, t.s.phase.v.trainerCommands, t.pool.shards)
  }

  lemma FilesDistinct(d: Durable, shards: seq<Shard>)
    requires DurableValid(d) && |shards| <= |d.shards| && Files(shards) <= Files(d.shards)
    ensures DistinctFiles(Files(shards))
  {
    forall i, j | 0 <= i < j < |shards| ensures Files(shards)[i] != Files(shards)[j] {
      assert Files(shards)[i] == Files(d.shards)[i] && Files(shards)[j] == Files(d.shards)[j];
      ShardFilesDistinct(d, i, j);
    }
  }

  lemma ToldDistinct(config: Config, s: State)
    requires ValidConfig(config) && Following(config, s) && s.phase.Running?
    ensures Told(s) <= Files(s.d.shards) && DistinctFiles(Told(s))
  {
    FilesDistinct(s.d, Announced(s.d, s.phase.pc));
  }

  lemma SameCommands(files: seq<nat>, commands: seq<TrainerCommand>)
    requires DistinctFiles(files)
    ensures Announces(files, commands, files, commands)
  {
  }

  lemma RetireAdds(commands: seq<TrainerCommand>, n: nat, before: seq<Shard>, after: seq<Shard>, id: nat)
    requires |before| == |after|
    ensures AddCount(commands + [AddShard(n)] + Removals(before, after, 0), id) == AddCount(commands, id) + One(id == n)
  {
    AddAppend(commands + [AddShard(n)], Removals(before, after, 0), id);
    AddAppend(commands, [AddShard(n)], id);
    AddOne(AddShard(n), id);
    RemovalsAddNothing(before, after, 0, id);
  }

  lemma RetireAnnounces(config: Config, s: State)
    requires ValidConfig(config) && Following(config, s) && LoopEnabled(s, RetireShards)
    requires Following(config, LoopApply(config, s, RetireShards))
    ensures var t := LoopApply(config, s, RetireShards);
            Announces(Told(s), s.phase.v.trainerCommands, Told(t), t.phase.v.trainerCommands)
  {
    var t := LoopApply(config, s, RetireShards);
    var commands, n := s.phase.v.trainerCommands, |s.d.shards| - 1;
    ShardsRetiredValid(s.d, config.capacity);
    ToldDistinct(config, t);
    forall id: nat ensures AnnouncedAt(|Told(s)|, commands, |Told(t)|, t.phase.v.trainerCommands, id) {
      RetireAdds(commands, n, s.d.shards, t.d.shards, id);
    }
  }

  lemma DecisionAnnounces(config: Config, s: State, pruned: set<nat>)
    requires ValidConfig(config) && Following(config, s) && LoopEnabled(s, SendDecision(pruned))
    ensures var t := LoopApply(config, s, SendDecision(pruned));
            Announces(Told(s), s.phase.v.trainerCommands, Told(t), t.phase.v.trainerCommands)
  {
    var c := Decision(s.d.champion.value, s.phase.pc.pause);
    ToldDistinct(config, s);
    var commands := s.phase.v.trainerCommands;
    forall id: nat ensures AnnouncedAt(|Told(s)|, commands, |Told(s)|, commands + [c], id) {
      AddAppend(commands, [c], id);
      AddOne(c, id);
    }
  }

  lemma LoopAnnounces(config: Config, s: State, a: Action)
    requires ValidConfig(config) && Following(config, s) && LoopEnabled(s, a)
    requires Following(config, LoopApply(config, s, a)) && LoopApply(config, s, a).phase.Running?
    ensures var t := LoopApply(config, s, a);
            && t.phase.v.trainer.pool == s.phase.v.trainer.pool
            && Announces(Told(s), s.phase.v.trainerCommands, Told(t), t.phase.v.trainerCommands)
  {
    var t := LoopApply(config, s, a);
    ToldDistinct(config, s);
    SameCommands(Told(s), s.phase.v.trainerCommands);
    if a.HandleShard? {
      assert t.d.shards[..|t.d.shards| - 1] == s.d.shards;
    } else if a.RetireShards? {
      RetireAnnounces(config, s);
    } else if a.SendDecision? {
      DecisionAnnounces(config, s, a.pruned);
    } else if a.HandleRemoved? {
      RemovedFrame(config, s);
    } else {
      OtherFrame(config, s, a);
    }
  }

  lemma QuietTold(config: Config, s: State, a: Action)
    requires ValidConfig(config) && Enabled(s, a) && a != Launch && a != TrainerTake && !LoopEnabled(s, a)
    requires Apply(config, s, a).phase.Running?
    ensures s.phase.Running?
    ensures var t := Apply(config, s, a);
            && t.phase.v.trainer.pool == s.phase.v.trainer.pool && Told(t) == Told(s)
            && t.phase.v.trainerCommands == s.phase.v.trainerCommands
  {
    if ActorEnabled(s, a) {
      ActorFrame(config, s, a);
    }
  }

  /** A step other than the trainer's taking of a command. */
  lemma QuietStep(config: Config, s: State, a: Action)
    requires ValidConfig(config) && Following(config, s) && Enabled(s, a) && a != Launch && a != TrainerTake
    requires Apply(config, s, a).phase.Running?
    ensures s.phase.Running?
    ensures var t := Apply(config, s, a);
            && t.phase.v.trainer.pool == s.phase.v.trainer.pool
            && Announces(Told(s), s.phase.v.trainerCommands, Told(t), t.phase.v.trainerCommands)
  {
    if LoopEnabled(s, a) {
      StepFollows(config, s, a);
      LoopAnnounces(config, s, a);
    } else {
      QuietTold(config, s, a);
      ToldDistinct(config, s);
      SameCommands(Told(s), s.phase.v.trainerCommands);
    }
  }

  lemma CoupledAnnounce(files: seq<nat>, ids: set<nat>, commands: seq<TrainerCommand>, more: seq<nat>,
                        longer: seq<TrainerCommand>, shards: seq<P.Pooled>)
    requires Coupled(files, ids, commands, shards) && Announces(files, commands, more, longer)
    ensures Coupled(more, ids, longer, shards)
  {
    forall id: nat ensures AddedOnce(|more|, ids, longer, id) {
      assert AddedOnce(|files|, ids, commands, id);
      assert AnnouncedAt(|files|, commands, |more|, longer, id);
    }
  }

  lemma TakeIs(config: Config, s: State)
    requires ValidConfig(config) && TrainerEnabled(s, TrainerTake)
    ensures var t := Apply(config, s, TrainerTake);
            && t == TrainerApply(s, TrainerTake)
            && t.phase.Running? && Told(t) == Told(s) && t.phase.v.trainerCommands == s.phase.v.trainerCommands[1..]
            && t.phase.v.trainer.pool == Applied(s.phase.v.trainer.pool, s.phase.v.trainerCommands[0])
  {
    TakeFrame(s);
  }

  lemma ObeyedIs<T>(files: seq<nat>, ids: set<nat>, commands: seq<TrainerCommand>, rows: seq<nat>, pool: P.Pool<T>)
    requires Coupled(files, ids, commands, pool.shards) && commands != [] && files <= rows
    ensures Obeyed(rows, commands[0], pool) == Obeyed(files, commands[0], pool)
  {
    if commands[0].AddShard? {
      assert AddedOnce(|files|, ids, commands, commands[0].id);
    }
  }

  lemma FollowedIs<T>(config: Config, s: State, pool: P.Pool<T>)
    requires ValidConfig(config) && Following(config, s) && TrainerEnabled(s, TrainerTake) && TwinCoupled(Twin(s, pool))
    ensures Followed(s, TrainerTake, pool) == Obeyed(Told(s), s.phase.v.trainerCommands[0], pool)
  {
    ToldDistinct(config, s);
    ObeyedIs(Told(s), s.phase.v.trainer.pool, s.phase.v.trainerCommands, Files(s.d.shards), pool);
  }

  lemma StepCoupled<T>(config: Config, read: nat -> Option<T>, t: Twin<T>, e: Event)
    requires ValidConfig(config) && Following(config, t.s) && TwinCoupled(t) && Possible(t, e) && e != Acts(Launch)
    ensures Following(config, Next(config, read, t, e).s) && TwinCoupled(Next(config, read, t, e))
  {
    var n := Next(config, read, t, e);
    if e.Acts? {
      StepFollows(config, t.s, e.action);
      if e.action.TrainerTake? {
        var v := t.s.phase.v;
        TakeIs(config, t.s);
        FollowedIs(config, t.s, t.pool);
        CoupledTake(Told(t.s), v.trainer.pool, v.trainerCommands, t.pool);
      } else if n.s.phase.Running? {
        QuietStep(config, t.s, e.action);
        CoupledAnnounce(Told(t.s), t.s.phase.v.trainer.pool, t.s.phase.v.trainerCommands, Told(n.s),
                        n.s.phase.v.trainerCommands, t.pool.shards);
      }
    }
  }

  lemma LaunchCoupled<T>(config: Config, s: State)
    requires ValidConfig(config) && Following(config, s) && Enabled(s, Launch)
    ensures TwinCoupled(LaunchTwin<T>(config, s))
  {
    var t := LaunchTwin<T>(config, s);
    FilesDistinct(s.d, s.d.shards);
    RowsMirror(s.d.shards);
    forall id: nat ensures AddedOnce(|s.d.shards|, ActiveIds(s.d.shards), t.s.phase.v.trainerCommands, id) {
      AddOne(PendingCommand, id);
    }
  }

  // ----- what was decoded ---------------------------------------------------------------------------

  ghost predicate SpentAt<T>(files: seq<nat>, commands: seq<TrainerCommand>, pool: P.Pool<T>, id: nat) {
    id < |files| ==>
      P.Decodings(pool.decoded, files[id]) + P.Owed(pool, files[id]) + AddCount(commands, id) <= 1
  }

  /** Decoded, due to be decoded, or still to be added: at most one of these, once, for every file. */
  ghost predicate Ledger<T(!new)>(read: nat -> Option<T>, limit: nat, files: seq<nat>, commands: seq<TrainerCommand>,
                                  pool: P.Pool<T>) {
    && P.PoolValid(read, limit, pool) && P.Tidy(pool)
    && (forall path :: path in pool.decoded ==> path in files)
    && forall id: nat :: SpentAt(files, commands, pool, id)
  }

  predicate OnceEach<T>(pool: P.Pool<T>, path: nat) {
    P.Decodings(pool.decoded, path) <= 1
  }

  lemma LedgerOnce<T(!new)>(read: nat -> Option<T>, limit: nat, files: seq<nat>, commands: seq<TrainerCommand>,
                            pool: P.Pool<T>, path: nat)
    requires Ledger(read, limit, files, commands, pool)
    ensures OnceEach(pool, path)
  {
    if path in pool.decoded {
      var id: nat :| id < |files| && files[id] == path;
      assert SpentAt(files, commands, pool, id);
    }
  }

  lemma LedgerTake<T(!new)>(read: nat -> Option<T>, limit: nat, files: seq<nat>, ids: set<nat>,
                            commands: seq<TrainerCommand>, pool: P.Pool<T>)
    requires Coupled(files, ids, commands, pool.shards) && commands != [] && |pool.shards| <= limit
    requires Ledger(read, limit, files, commands, pool)
    ensures Ledger(read, limit, files, commands[1..], Obeyed(files, commands[0], pool))
  {
    match commands[0] {
      case AddShard(k) =>
        assert AddedOnce(|files|, ids, commands, k);
        FileOfId(files, ids, pool.shards, k);
        LedgerOp(read, limit, files, commands, pool, P.AddOp(P.Pooled(k, files[k])));
      case RemoveShard(k) =>
        LedgerOp(read, limit, files, commands, pool, P.RemoveOp(k));
      case _ =>
        forall id: nat ensures SpentAt(files, commands[1..], pool, id) {
          assert SpentAt(files, commands, pool, id);
        }
    }
  }

  lemma LedgerOp<T(!new)>(read: nat -> Option<T>, limit: nat, files: seq<nat>, commands: seq<TrainerCommand>,
                          pool: P.Pool<T>, op: P.Op)
    requires DistinctFiles(files) && commands != [] && |pool.shards| <= limit && P.Permitted(read, pool, op)
    requires op.RemoveOp? || (op.AddOp? && op.shard.id < |files| && op.shard.path == files[op.shard.id]
                              && commands[0] == AddShard(op.shard.id))
    requires Ledger(read, limit, files, commands, pool)
    ensures Ledger(read, limit, files, commands[1..], P.Step(read, limit, pool, op))
  {
    P.StepTidy(read, limit, pool, op);
    assert [op][1..] == [];
    forall id: nat ensures SpentAt(files, commands[1..], P.Step(read, limit, pool, op), id) {
      assert SpentAt(files, commands, pool, id);
      if id < |files| {
        P.StepOwed(read, limit, pool, op, files[id]);
      }
    }
  }

  lemma LedgerLoad<T(!new)>(read: nat -> Option<T>, limit: nat, files: seq<nat>, ids: set<nat>,
                            commands: seq<TrainerCommand>, pool: P.Pool<T>, path: nat)
    requires Coupled(files, ids, commands, pool.shards) && |pool.shards| <= limit && P.Holds(pool.shards, path)
    requires Ledger(read, limit, files, commands, pool)
    ensures Ledger(read, limit, files, commands, Loaded(read, limit, pool, path))
  {
    if read(path).Some? {
      var op := P.LoadOp(path);
      P.StepTidy(read, limit, pool, op);
      assert [op][1..] == [];
      forall id: nat ensures SpentAt(files, commands, Loaded(read, limit, pool, path), id) {
        assert SpentAt(files, commands, pool, id);
        if id < |files| {
          P.StepOwed(read, limit, pool, op, files[id]);
        }
      }
    }
  }

  lemma LedgerAnnounce<T(!new)>(read: nat -> Option<T>, limit: nat, files: seq<nat>, ids: set<nat>,
                                commands: seq<TrainerCommand>, more: seq<nat>, longer: seq<TrainerCommand>,
                                pool: P.Pool<T>)
    requires Coupled(files, ids, commands, pool.shards) && Announces(files, commands, more, longer)
    requires Ledger(read, limit, files, commands, pool)
    ensures Ledger(read, limit, more, longer, pool)
  {
    forall id: nat ensures SpentAt(more, longer, pool, id) {
      assert SpentAt(files, commands, pool, id);
      assert AddedOnce(|files|, ids, commands, id);
      assert AnnouncedAt(|files|, commands, |more|, longer, id);
      if |files| <= id < |more| {
        assert forall k :: 0 <= k < |files| ==> files[k] == more[k];
        assert more[id] !in files;
        assert !P.Holds(pool.shards, more[id]);
      }
    }
  }

  // ----- at most one decoding -----------------------------------------------------------------------

  ghost predicate TwinValid<T(!new)>(config: Config, read: nat -> Option<T>, t: Twin<T>)
    requires ValidConfig(config)
  {
    && Windowed(config, t.s) && TwinCoupled(t)
    && (forall path: nat :: OnceEach(t.pool, path))
    && (t.s.phase.Running? ==>
          Ledger(read, CacheLimit(config), Told(t.s), t.s.phase.v.trainerCommands, t.pool))
  }

  lemma PoolSize<T>(config: Config, t: Twin<T>)
    requires ValidConfig(config) && TwinCoupled(t) && t.s.phase.Running?
    ensures |t.pool.shards| == |t.s.phase.v.trainer.pool|
  {
    MirrorSize(Told(t.s), t.s.phase.v.trainer.pool, t.pool.shards);
  }

  lemma ActLedger<T(!new)>(config: Config, read: nat -> Option<T>, t: Twin<T>, a: Action)
    requires WholeShards(config) && TwinValid(config, read, t) && Enabled(t.s, a) && a != Launch
    requires Apply(config, t.s, a).phase.Running?
    ensures var n := Next(config, read, t, Acts(a));
            Ledger(read, CacheLimit(config), Told(n.s), n.s.phase.v.trainerCommands, n.pool)
  {
    var limit, n := CacheLimit(config), Next(config, read, t, Acts(a));
    if a.TrainerTake? {
      var v := t.s.phase.v;
      PoolSize(config, t);
      TakeIs(config, t.s);
      FollowedIs(config, t.s, t.pool);
      LedgerTake(read, limit, Told(t.s), v.trainer.pool, v.trainerCommands, t.pool);
    } else {
      QuietStep(config, t.s, a);
      LedgerAnnounce(read, limit, Told(t.s), t.s.phase.v.trainer.pool, t.s.phase.v.trainerCommands, Told(n.s),
                     n.s.phase.v.trainerCommands, t.pool);
    }
  }

  lemma NextValid<T(!new)>(config: Config, read: nat -> Option<T>, t: Twin<T>, e: Event)
    requires WholeShards(config) && TwinValid(config, read, t) && Possible(t, e) && e != Acts(Launch)
    ensures TwinValid(config, read, Next(config, read, t, e))
  {
    var limit, n := CacheLimit(config), Next(config, read, t, e);
    StepCoupled(config, read, t, e);
    match e {
      case Acts(a) =>
        StepWindow(config, t.s, a);
        if n.s.phase.Running? {
          ActLedger(config, read, t, a);
        }
      case Loads(path) =>
        var v := t.s.phase.v;
        PoolSize(config, t);
        LedgerLoad(read, limit, Told(t.s), v.trainer.pool, v.trainerCommands, t.pool, path);
    }
    if n.s.phase.Running? {
      forall path: nat ensures OnceEach(n.pool, path) {
        LedgerOnce(read, limit, Told(n.s), n.s.phase.v.trainerCommands, n.pool, path);
      }
    }
  }

  /** No other launch among the events. */
  predicate OneLaunch(events: seq<Event>) {
    forall i :: 0 <= i < |events| ==> events[i] != Acts(Launch)
  }

  lemma {:induction false} CourseValid<T(!new)>(config: Config, read: nat -> Option<T>, t: Twin<T>, events: seq<Event>)
    requires WholeShards(config) && TwinValid(config, read, t) && OneLaunch(events)
    requires Course(config, read, t, events).Some?
    ensures TwinValid(config, read, Course(config, read, t, events).value)
    decreases |events|
  {
    if events != [] {
      NextValid(config, read, t, events[0]);
      CourseValid(config, read, Next(config, read, t, events[0]), events[1..]);
    }
  }

  lemma LaunchTwinValid<T(!new)>(config: Config, read: nat -> Option<T>, s: State)
    requires WholeShards(config) && Following(config, s) && Even(config, s) && Enabled(s, Launch)
    requires |ActiveIds(s.d.shards)| < CacheLimit(config)
    ensures TwinValid(config, read, LaunchTwin<T>(config, s))
  {
    LaunchWindow(config, s);
    LaunchCoupled<T>(config, s);
    LaunchLedger(config, read, s);
  }

  lemma LaunchLedger<T(!new)>(config: Config, read: nat -> Option<T>, s: State)
    requires ValidConfig(config) && Enabled(s, Launch) && TwinCoupled(LaunchTwin<T>(config, s))
    ensures var t := LaunchTwin<T>(config, s);
            Ledger(read, CacheLimit(config), Told(t.s), t.s.phase.v.trainerCommands, t.pool)
  {
    var t := LaunchTwin<T>(config, s);
    forall id: nat ensures SpentAt(Told(t.s), t.s.phase.v.trainerCommands, t.pool, id) {
      AddOne(PendingCommand, id);
    }
  }

  /**
   Sufficient: from a reachable launch with fewer active shards than the cache holds, whatever the processes
   do and whatever files are sampled, no shard file is decoded twice before the next launch; and the pool
   object holds exactly the trainer's shards.
   */
  lemma DecodedOncePerLaunch<T(!new)>(config: Config, read: nat -> Option<T>, before: seq<Action>, events: seq<Event>,
                                      path: nat)
    requires WholeShards(config) && Run(config, START, before).Some? && OneLaunch(events)
    requires var s := Run(config, START, before).value;
             && Enabled(s, Launch) && |ActiveIds(s.d.shards)| < CacheLimit(config)
             && Course(config, read, LaunchTwin<T>(config, s), events).Some?
    ensures var t := Course(config, read, LaunchTwin<T>(config, Run(config, START, before).value), events).value;
            && P.Decodings(t.pool.decoded, path) <= 1
            && (t.s.phase.Running? ==> Mirrors(Told(t.s), t.s.phase.v.trainer.pool, t.pool.shards))
  {
    var s := Run(config, START, before).value;
    RunFollows(config, START, before);
    RunEven(config, START, before);
    LaunchTwinValid(config, read, s);
    CourseValid(config, read, LaunchTwin<T>(config, s), events);
    assert OnceEach(Course(config, read, LaunchTwin<T>(config, s), events).value.pool, path);
  }

  // ----- a pool that does not fit the cache -----------------------------------------------------------

  function Actions(actions: seq<Action>): seq<Event> {
    seq(|actions|, i requires 0 <= i < |actions| => Acts(actions[i]))
  }

  function Loading(paths: seq<nat>): seq<Event> {
    seq(|paths|, i requires 0 <= i < |paths| => Loads(paths[i]))
  }

  lemma {:induction false} CourseAppend<T(!new)>(config: Config, read: nat -> Option<T>, t: Twin<T>, a: seq<Event>,
                                                 b: seq<Event>)
    requires ValidConfig(config) && Course(config, read, t, a).Some?
    ensures Course(config, read, t, a + b) == Course(config, read, Course(config, read, t, a).value, b)
    decreases |a|
  {
    if a == [] {
      assert a + b == b;
    } else {
      assert (a + b)[1..] == a[1..] + b;
      CourseAppend(config, read, Next(config, read, t, a[0]), a[1..], b);
    }
  }

  lemma {:induction false} NothingDropped<T(!new)>(shards: seq<P.Pooled>, id: nat)
    ensures P.Dropped<T>([], shards, id) == []
    decreases |shards|
  {
    if shards != [] {
      NothingDropped<T>(shards[1..], id);
    }
  }

  predicate Untouched<T(==)>(pool: P.Pool<T>) {
    pool.cache == [] && pool.decoded == []
  }

  lemma FollowedUntouched<T(!new)>(s: State, a: Action, pool: P.Pool<T>)
    requires Untouched(pool)
    ensures Untouched(Followed(s, a, pool))
  {
    if a.TrainerTake? && TrainerEnabled(s, a) && s.phase.v.trainerCommands[0].RemoveShard? {
      NothingDropped<T>(pool.shards, s.phase.v.trainerCommands[0].id);
    }
  }

  /** Without a load nothing is cached or decoded, and the coordinator goes its own way. */
  lemma {:induction false} ActionsCourse<T(!new)>(config: Config, read: nat -> Option<T>, t: Twin<T>,
                                                  actions: seq<Action>)
    requires ValidConfig(config) && Following(config, t.s) && TwinCoupled(t) && WithinLaunch(actions)
    requires Untouched(t.pool) && Run(config, t.s, actions).Some?
    ensures var r := Course(config, read, t, Actions(actions));
            && r.Some? && r.value.s == Run(config, t.s, actions).value && TwinCoupled(r.value)
            && Untouched(r.value.pool)
    decreases |actions|
  {
    if actions != [] {
      var e := Acts(actions[0]);
      StepCoupled(config, read, t, e);
      FollowedUntouched(t.s, actions[0], t.pool);
      assert Actions(actions)[1..] == Actions(actions[1..]);
      ActionsCourse(config, read, Next(config, read, t, e), actions[1..]);
    }
  }

  function Entries<T>(read: nat -> Option<T>, paths: seq<nat>): seq<P.Entry<T>>
    requires forall path: nat :: read(path).Some?
  {
    seq(|paths|, i requires 0 <= i < |paths| => P.Entry(paths[i], read(paths[i]).value))
  }

  lemma OneLoad<T(!new)>(config: Config, read: nat -> Option<T>, t: Twin<T>, path: nat)
    requires ValidConfig(config) && Possible(t, Loads(path)) && read(path).Some? && !P.Cached(t.pool.cache, path)
    ensures Course(config, read, t, [Loads(path)])
         == Some(t.(pool := P.Pool(t.pool.shards,
                                   P.Trimmed(t.pool.cache + [P.Entry(path, read(path).value)], CacheLimit(config)),
                                   t.pool.decoded + [path])))
  {
    P.MissIs(CacheLimit(config), t.pool, path, read(path).value);
    assert [Loads(path)][1..] == [];
  }

  lemma LastEntries<T(!new)>(read: nat -> Option<T>, limit: nat, paths: seq<nat>)
    requires paths != [] && limit > 0 && forall path: nat :: read(path).Some?
    ensures var n := |paths| - 1;
            var cache := P.Trimmed(Entries(read, paths[..n]), limit);
            P.Trimmed(cache + [P.Entry(paths[n], read(paths[n]).value)], limit)
            == P.Trimmed(Entries(read, paths), limit)
  {
    var n := |paths| - 1;
    assert Entries(read, paths) == Entries(read, paths[..n]) + [P.Entry(paths[n], read(paths[n]).value)];
  }

  predicate AllHeld(shards: seq<P.Pooled>, paths: seq<nat>) {
    forall i :: 0 <= i < |paths| ==> P.Holds(shards, paths[i])
  }

  /** After loading different files in order the cache holds the last of them. */
  function AfterLoads<T>(read: nat -> Option<T>, limit: nat, t: Twin<T>, paths: seq<nat>): Twin<T>
    requires forall path: nat :: read(path).Some?
  {
    t.(pool := P.Pool(t.pool.shards, P.Trimmed(Entries(read, paths), limit), paths))
  }

  lemma NotYetCached<T(!new)>(read: nat -> Option<T>, limit: nat, paths: seq<nat>)
    requires paths != [] && DistinctFiles(paths) && forall path: nat :: read(path).Some?
    ensures !P.Cached(P.Trimmed(Entries(read, paths[..|paths| - 1]), limit), paths[|paths| - 1])
  {
  }

  lemma LoadNext<T(!new)>(config: Config, read: nat -> Option<T>, t: Twin<T>, paths: seq<nat>)
    requires ValidConfig(config) && t.s.phase.Running? && paths != [] && P.Holds(t.pool.shards, paths[|paths| - 1])
    requires DistinctFiles(paths) && forall path: nat :: read(path).Some?
    ensures var n, limit := |paths| - 1, CacheLimit(config);
            Course(config, read, AfterLoads(read, limit, t, paths[..n]), [Loads(paths[n])])
            == Some(AfterLoads(read, limit, t, paths))
  {
    var n, limit := |paths| - 1, CacheLimit(config);
    NotYetCached(read, limit, paths);
    OneLoad(config, read, AfterLoads(read, limit, t, paths[..n]), paths[n]);
    LastEntries(read, limit, paths);
    assert paths == paths[..n] + [paths[n]];
  }

  lemma {:induction false} LoadingCourse<T(!new)>(config: Config, read: nat -> Option<T>, t: Twin<T>, paths: seq<nat>)
    requires ValidConfig(config) && t.s.phase.Running? && Untouched(t.pool)
    requires AllHeld(t.pool.shards, paths) && DistinctFiles(paths) && forall path: nat :: read(path).Some?
    ensures Course(config, read, t, Loading(paths)) == Some(AfterLoads(read, CacheLimit(config), t, paths))
    decreases |paths|
  {
    if paths == [] {
      assert Entries(read, paths) == [];
    } else {
      var n := |paths| - 1;
      LoadingCourse(config, read, t, paths[..n]);
      LoadNext(config, read, t, paths);
      assert Loading(paths) == Loading(paths[..n]) + [Loads(paths[n])];
      CourseAppend(config, read, t, Loading(paths[..n]), [Loads(paths[n])]);
    }
  }

  /** One file more than the cache holds, and the first of them again. */
  function AndAgain(paths: seq<nat>): seq<Event>
    requires paths != []
  {
    Loading(paths) + [Loads(paths[0])]
  }

  lemma DecodedTwice<T(!new)>(config: Config, read: nat -> Option<T>, t: Twin<T>, paths: seq<nat>)
    requires ValidConfig(config) && t.s.phase.Running? && Untouched(t.pool) && |paths| == CacheLimit(config) + 1
    requires AllHeld(t.pool.shards, paths) && DistinctFiles(paths) && forall path: nat :: read(path).Some?
    ensures var r := Course(config, read, t, AndAgain(paths));
            r.Some? && P.Decodings(r.value.pool.decoded, paths[0]) == 2
  {
    LoadingCourse(config, read, t, paths);
    var u := Course(config, read, t, Loading(paths)).value;
    assert !P.Cached(u.pool.cache, paths[0]);
    OneLoad(config, read, u, paths[0]);
    CourseAppend(config, read, t, Loading(paths), [Loads(paths[0])]);
    assert paths == [paths[0]] + paths[1..] && paths[0] !in paths[1..];
  }

  lemma SomePaths(files: seq<nat>, ids: set<nat>, shards: seq<P.Pooled>, n: nat) returns (paths: seq<nat>)
    requires Mirrors(files, ids, shards) && n <= |ids|
    ensures |paths| == n && AllHeld(shards, paths) && DistinctFiles(paths)
  {
    MirrorSize(files, ids, shards);
    paths := seq(n, i requires 0 <= i < n => shards[i].path);
  }

  /** Necessary: any other launch has a course that decodes some file twice. */
  lemma OverfullDecodesTwice<T(!new)>(config: Config, read: nat -> Option<T>, s: State)
    returns (events: seq<Event>, path: nat)
    requires ValidConfig(config) && Following(config, s) && Enabled(s, Launch)
    requires |ActiveIds(s.d.shards)| >= CacheLimit(config) && forall path: nat :: read(path).Some?
    ensures OneLaunch(events)
    ensures var r := Course(config, read, LaunchTwin<T>(config, s), events);
            r.Some? && P.Decodings(r.value.pool.decoded, path) == 2
  {
    var t := LaunchTwin<T>(config, s);
    var actions := OverfullLaunch(config, s);
    LaunchFollows(config, s);
    LaunchCoupled<T>(config, s);
    ActionsCourse(config, read, t, actions);
    var u := Course(config, read, t, Actions(actions)).value;
    var paths := SomePaths(Told(u.s), u.s.phase.v.trainer.pool, u.pool.shards, CacheLimit(config) + 1);
    DecodedTwice(config, read, u, paths);
    CourseAppend(config, read, t, Actions(actions), AndAgain(paths));
    events, path := Actions(actions) + AndAgain(paths), paths[0];
  }

  /** Until the next launch no course decodes a file twice. */
  ghost predicate NeverTwice<T(!new)>(config: Config, read: nat -> Option<T>, s: State)
    requires ValidConfig(config) && Enabled(s, Launch)
  {
    forall events, path: nat :: OneLaunch(events) ==> OnceAfter(config, read, LaunchTwin<T>(config, s), events, path)
  }

  predicate OnceAfter<T>(config: Config, read: nat -> Option<T>, t: Twin<T>, events: seq<Event>, path: nat)
    requires ValidConfig(config)
  {
    var r := Course(config, read, t, events);
    r.Some? ==> OnceEach(r.value.pool, path)
  }

  /**
   Exactly: after a launch of a reachable state no course decodes a shard file twice before the next launch,
   if and only if the launch has fewer active shards than the cache holds.
   */
  lemma DecodedOnceExactly<T(!new)>(config: Config, read: nat -> Option<T>, before: seq<Action>)
    requires WholeShards(config) && Run(config, START, before).Some? && forall path: nat :: read(path).Some?
    requires Enabled(Run(config, START, before).value, Launch)
    ensures var s := Run(config, START, before).value;
            NeverTwice(config, read, s) <==> |ActiveIds(s.d.shards)| < CacheLimit(config)
  {
    var s := Run(config, START, before).value;
    var t := LaunchTwin<T>(config, s);
    if |ActiveIds(s.d.shards)| < CacheLimit(config) {
      forall events, path: nat | OneLaunch(events) ensures OnceAfter(config, read, t, events, path) {
        if Course(config, read, t, events).Some? {
          DecodedOncePerLaunch(config, read, before, events, path);
        }
      }
    } else {
      RunFollows(config, START, before);
      var events, path := OverfullDecodesTwice(config, read, s);
      assert !OnceAfter(config, read, t, events, path);
    }
  }
}
