/**
 What an arena verdict does to the run: an accepted candidate becomes the champion and nothing else does, the
 champion is always the last accepted attempt, accepted attempts descend from one another, and the trainer
 is told of every change.
 */
module Promotion {
  import opened Board
  import opened Manifest
  import opened Coordination
  import opened CoordinationSafety

  predicate IsAccepted(attempts: seq<Attempt>, n: nat) {
    n < |attempts| && attempts[n].status == Accepted
  }

  /** `n` is the last accepted attempt before `end`. */
  ghost predicate LastAccepted(attempts: seq<Attempt>, end: nat, n: nat) {
    IsAccepted(attempts, n) && n < end && forall k: nat :: n < k < end ==> !IsAccepted(attempts, k)
  }

  /** An accepted attempt was trained from the last attempt accepted before it. */
  ghost predicate Descends(attempts: seq<Attempt>, n: nat) {
    IsAccepted(attempts, n) && n > 0 ==>
      attempts[n].parent.Some? && LastAccepted(attempts, n, attempts[n].parent.value)
  }

  /** The champion is the last accepted attempt, and a pending attempt was trained from it. */
  ghost predicate Lineage(d: Durable) {
    && (d.champion.Some? ==> LastAccepted(d.attempts, |d.attempts|, d.champion.value))
    && (forall n: nat :: IsPending(d.attempts, n) ==>
          d.champion.Some? && d.champion.value < n && d.attempts[n].parent == d.champion)
    && (forall n: nat :: Descends(d.attempts, n))
    && (d.champion.None? ==> d.attempts == [])
  }

  // ----- the transactions ---------------------------------------------------------------------------

  lemma SameDescent(attempts: seq<Attempt>, after: seq<Attempt>, n: nat, end: nat)
    requires end <= |attempts| && end <= |after| && n < end && Descends(attempts, n)
    requires forall k: nat :: k < end ==> (IsAccepted(after, k) <==> IsAccepted(attempts, k))
    requires after[n].parent == attempts[n].parent
    ensures Descends(after, n)
  {
    if IsAccepted(after, n) && n > 0 {
      var p := attempts[n].parent.value;
      assert LastAccepted(attempts, n, p);
      forall k: nat | p < k < n ensures !IsAccepted(after, k) {
        assert !IsAccepted(attempts, k);
      }
    }
  }

  /** A verdict on the pending attempt keeps the lineage. */
  lemma DecidedLineage(d: Durable, n: nat, accepted: bool)
    requires DurableValid(d) && Lineage(d) && IsPending(d.attempts, n)
    ensures Lineage(Decided(d, n, accepted))
  {
    var e := Decided(d, n, accepted);
    var c := d.champion.value;
    DecidedRecords(d, n, accepted);
    assert forall k: nat :: k != n ==> (IsAccepted(e.attempts, k) <==> IsAccepted(d.attempts, k));
    forall k: nat ensures Descends(e.attempts, k) {
      assert Descends(d.attempts, k);
      if k < n {
        SameDescent(d.attempts, e.attempts, k, n);
      } else if k == n {
        assert forall j: nat :: c < j < n ==> !IsAccepted(d.attempts, j);
      } else {
        assert !IsAccepted(d.attempts, k);
      }
    }
    forall k: nat | IsPending(e.attempts, k) ensures false {
      assert IsPending(d.attempts, k);
    }
  }

  /** A new row keeps the lineage if it is pending only below the champion. */
  lemma RowAddedLineage(d: Durable, status: Status, parent: nat)
    requires Lineage(d) && d.champion.Some? && status != Accepted
    requires status == Pending ==> d.champion == Some(parent)
    ensures Lineage(RowAdded(d, status, parent))
  {
    var e := RowAdded(d, status, parent);
    var n := |d.attempts|;
    assert forall k: nat :: k < n ==> e.attempts[k] == d.attempts[k];
    assert forall k: nat :: IsAccepted(e.attempts, k) <==> IsAccepted(d.attempts, k);
    forall k: nat ensures Descends(e.attempts, k) {
      assert Descends(d.attempts, k);
      if k < n {
        SameDescent(d.attempts, e.attempts, k, n);
      }
    }
    forall k: nat | IsPending(e.attempts, k)
      ensures e.champion.value < k && e.attempts[k].parent == e.champion
    {
      if k < n {
        assert IsPending(d.attempts, k);
      }
    }
  }

  lemma RootAddedLineage(d: Durable)
    requires Lineage(d)
    ensures Lineage(RootAdded(d))
  {
    if d.attempts == [] {
      var e := RootAdded(d);
      assert LastAccepted(e.attempts, 1, 0);
      forall n: nat ensures !IsPending(e.attempts, n) && Descends(e.attempts, n) {
      }
    }
  }

  /** A recovered checkpoint is pending exactly when nothing else is and it was trained from the champion. */
  lemma RecoveredLineage(d: Durable)
    requires Lineage(d) && d.champion.Some? && |d.attempts| in d.files
    ensures Lineage(Recovered(d))
    ensures var e := Recovered(d);
            && |e.attempts| == |d.attempts| + 1 && e.attempts[|d.attempts|].parent == Some(d.files[|d.attempts|])
            && (e.attempts[|d.attempts|].status == Pending
                <==> (forall k: nat :: !IsPending(d.attempts, k)) && d.champion == Some(d.files[|d.attempts|]))
            && (e.attempts[|d.attempts|].status != Pending ==> e.attempts[|d.attempts|].status == Interrupted)
  {
    var parent := d.files[|d.attempts|];
    var pending := PendingAttempt(d.attempts).None? && d.champion == Some(parent);
    RowAddedLineage(d, if pending then Pending else Interrupted, parent);
  }

  lemma SameTables(d: Durable, e: Durable)
    requires Lineage(d) && e.attempts == d.attempts && e.champion == d.champion
    ensures Lineage(e)
  {
    forall n: nat ensures Descends(e.attempts, n) {
      assert Descends(d.attempts, n);
    }
  }

  // ----- runs -----------------------------------------------------------------------------------------

  /** The steps that write rows or the champion. */
  predicate WritesTables(a: Action) {
    a.AddRootRow? || a.RecoverOrphan? || a.AddRow? || a.HandleArena? || a.FinallyRow?
  }

  lemma OtherTables(config: Config, s: State, a: Action)
    requires ValidConfig(config) && Enabled(s, a) && !WritesTables(a)
    ensures Apply(config, s, a).d.attempts == s.d.attempts && Apply(config, s, a).d.champion == s.d.champion
  {
    if ActorEnabled(s, a) {
      ActorFrame(config, s, a);
    } else if TrainerEnabled(s, a) {
      match a {
        case TrainerTake => TakeFrame(s);
        case _ =>
      }
    }
  }

  lemma StepLineage(config: Config, s: State, a: Action)
    requires ValidConfig(config) && Inv(config, s) && Lineage(s.d) && Enabled(s, a)
    ensures Lineage(Apply(config, s, a).d)
  {
    if WritesTables(a) {
      match a {
        case AddRootRow => RootAddedLineage(s.d);
        case RecoverOrphan => RecoveredLineage(s.d);
        case AddRow =>
          RowAddedLineage(s.d, if s.phase.v.stop then Interrupted else Pending, s.d.champion.value);
        case HandleArena(accepted, pause) =>
          var n := s.phase.v.actorEvents[0].attempt;
          if PendingAttempt(s.d.attempts) == Some(n) {
            DecidedLineage(s.d, n, accepted);
          }
        case FinallyRow => RowAddedLineage(s.d, Interrupted, s.d.champion.value);
      }
    } else {
      OtherTables(config, s, a);
      SameTables(s.d, Apply(config, s, a).d);
    }
  }

  lemma {:induction false} RunLineage(config: Config, s: State, actions: seq<Action>)
    requires ValidConfig(config) && Inv(config, s) && Lineage(s.d) && Run(config, s, actions).Some?
    ensures Lineage(Run(config, s, actions).value.d)
    decreases |actions|
  {
    if actions != [] {
      StepValid(config, s, actions[0]);
      StepLineage(config, s, actions[0]);
      RunLineage(config, Apply(config, s, actions[0]), actions[1..]);
    }
  }

  lemma StartLineage()
    ensures Lineage(EMPTY_RUN)
  {
    forall n: nat ensures Descends(EMPTY_RUN.attempts, n) && !IsPending(EMPTY_RUN.attempts, n) {
    }
  }

  /**
   In every reachable state, across any crashes: the champion is the last accepted attempt, and every accepted
   attempt but the root was trained from the one accepted before it.
   */
  lemma ChampionIsLastAccepted(config: Config, actions: seq<Action>)
    requires ValidConfig(config) && Run(config, START, actions).Some?
    ensures var d := Run(config, START, actions).value.d;
            && (d.champion.Some? ==> LastAccepted(d.attempts, |d.attempts|, d.champion.value))
            && forall n: nat :: Descends(d.attempts, n)
  {
    StartLineage();
    RunLineage(config, START, actions);
  }

  /**
   An arena verdict in a reachable state: the row of the pending attempt gets it, and the champion changes
   exactly on acceptance.
   */
  lemma ArenaPromotes(config: Config, actions: seq<Action>, accepted: bool, pause: bool)
    requires ValidConfig(config) && Run(config, START, actions).Some?
    requires LoopEnabled(Run(config, START, actions).value, HandleArena(accepted, pause))
    ensures var s := Run(config, START, actions).value;
            var t := LoopApply(config, s, HandleArena(accepted, pause));
            var n := s.phase.v.actorEvents[0].attempt;
            && IsPending(s.d.attempts, n) && VerdictRecorded(s.d, t.d, n, accepted)
            && t.phase.Running? && !t.phase.stopping && t.phase.pc == Deciding(pause)
  {
    var s := Run(config, START, actions).value;
    RunValid(config, START, actions);
    ArenaMatchesPending(config, s, accepted, pause);
    DecidedRecords(s.d, s.phase.v.actorEvents[0].attempt, accepted);
  }

  // ----- the trainer learns of it ---------------------------------------------------------------------

  /** The champion the trainer holds once it has handled these commands. */
  function Held(champion: nat, commands: seq<TrainerCommand>): nat
    decreases |commands|
  {
    if commands == [] then champion
    else Held(if commands[0].Decision? then commands[0].champion else champion, commands[1..])
  }

  lemma {:induction false} HeldAppend(champion: nat, a: seq<TrainerCommand>, b: seq<TrainerCommand>)
    ensures Held(champion, a + b) == Held(Held(champion, a), b)
    decreases |a|
  {
    if a == [] {
      assert a + b == b;
    } else {
      assert (a + b)[1..] == a[1..] + b;
      HeldAppend(if a[0].Decision? then a[0].champion else champion, a[1..], b);
    }
  }

  lemma HeldOne(champion: nat, c: TrainerCommand)
    ensures Held(champion, [c]) == if c.Decision? then c.champion else champion
  {
    assert [c][1..] == [];
  }

  lemma {:induction false} RemovalsDecideNothing(champion: nat, before: seq<Shard>, after: seq<Shard>, from: nat)
    requires |before| == |after| && from <= |before|
    ensures Held(champion, Removals(before, after, from)) == champion
    decreases |before| - from
  {
    if from < |before| {
      RemovalsDecideNothing(champion, before, after, from + 1);
      if before[from].active && !after[from].active {
        assert Removals(before, after, from)[1..] == Removals(before, after, from + 1);
      }
    }
  }

  function HeldBy(v: Volatile): nat {
    Held(v.trainer.champion, v.trainerCommands)
  }

  /** Unless a verdict was just recorded, the trainer holds the champion or has a command on its way that names it. */
  predicate Informed(s: State) {
    s.phase.Running? && !s.phase.pc.Deciding? ==> s.d.champion == Some(HeldBy(s.phase.v))
  }

  lemma TakeHeld(s: State)
    requires TrainerEnabled(s, TrainerTake)
    ensures HeldBy(TrainerApply(s, TrainerTake).phase.v) == HeldBy(s.phase.v)
  {
  }

  lemma RetireHeld(config: Config, s: State)
    requires ValidConfig(config) && LoopEnabled(s, RetireShards)
    ensures HeldBy(LoopApply(config, s, RetireShards).phase.v) == HeldBy(s.phase.v)
  {
    var v, d := s.phase.v, ShardsRetired(s.d, config.capacity);
    var added := if s.d.shards == [] then [] else [AddShard(|s.d.shards| - 1)];
    HeldAppend(v.trainer.champion, v.trainerCommands + added, Removals(s.d.shards, d.shards, 0));
    HeldAppend(v.trainer.champion, v.trainerCommands, added);
    if s.d.shards != [] {
      HeldOne(HeldBy(v), AddShard(|s.d.shards| - 1));
    }
    RemovalsDecideNothing(HeldBy(v), s.d.shards, d.shards, 0);
  }

  lemma DecisionHeld(config: Config, s: State, pruned: set<nat>)
    requires ValidConfig(config) && LoopEnabled(s, SendDecision(pruned))
    ensures s.d.champion == Some(HeldBy(LoopApply(config, s, SendDecision(pruned)).phase.v))
  {
    var c := Decision(s.d.champion.value, s.phase.pc.pause);
    HeldAppend(s.phase.v.trainer.champion, s.phase.v.trainerCommands, [c]);
    HeldOne(HeldBy(s.phase.v), c);
  }

  lemma LoopInformed(config: Config, s: State, a: Action)
    requires ValidConfig(config) && Inv(config, s) && Informed(s) && LoopEnabled(s, a)
    ensures Informed(LoopApply(config, s, a))
  {
    match a {
      case RetireShards => RetireHeld(config, s);
      case SendDecision(pruned) => DecisionHeld(config, s, pruned);
      case HandleArena(accepted, pause) => ArenaMatchesPending(config, s, accepted, pause);
      case _ =>
    }
  }

  lemma StepInformed(config: Config, s: State, a: Action)
    requires ValidConfig(config) && Inv(config, s) && Informed(s) && Enabled(s, a)
    ensures Informed(Apply(config, s, a))
  {
    if ActorEnabled(s, a) {
      ActorFrame(config, s, a);
    } else if TrainerEnabled(s, a) {
      match a {
        case TrainerTake =>
          TakeFrame(s);
          TakeHeld(s);
        case _ =>
      }
    } else if LoopEnabled(s, a) {
      LoopInformed(config, s, a);
    } else if a.Launch? {
      HeldOne(s.d.champion.value, PendingCommand);
    }
  }

  lemma {:induction false} RunInformed(config: Config, s: State, actions: seq<Action>)
    requires ValidConfig(config) && Inv(config, s) && Informed(s) && Run(config, s, actions).Some?
    ensures Informed(Run(config, s, actions).value)
    decreases |actions|
  {
    if actions != [] {
      StepValid(config, s, actions[0]);
      StepInformed(config, s, actions[0]);
      RunInformed(config, Apply(config, s, actions[0]), actions[1..]);
    }
  }

  /**
   In every reachable state the trainer, once it has handled its queue, holds the last accepted attempt; only
   between a verdict and the command that reports it may it still hold the one before.
   */
  lemma TrainerHoldsLastAccepted(config: Config, actions: seq<Action>)
    requires ValidConfig(config) && Run(config, START, actions).Some?
    ensures var s := Run(config, START, actions).value;
            s.phase.Running? && !s.phase.pc.Deciding? ==>
              LastAccepted(s.d.attempts, |s.d.attempts|, HeldBy(s.phase.v))
  {
    ChampionIsLastAccepted(config, actions);
    RunInformed(config, START, actions);
  }

  /** After the verdict on attempt `n` the next command the trainer is sent names `n` exactly if it was accepted. */
  lemma VerdictIsSent(config: Config, actions: seq<Action>, accepted: bool, pause: bool, pruned: set<nat>)
    requires ValidConfig(config) && Run(config, START, actions).Some?
    requires LoopEnabled(Run(config, START, actions).value, HandleArena(accepted, pause))
    requires LoopEnabled(LoopApply(config, Run(config, START, actions).value, HandleArena(accepted, pause)),
                         SendDecision(pruned))
    ensures var s := Run(config, START, actions).value;
            var n := s.phase.v.actorEvents[0].attempt;
            var u := LoopApply(config, LoopApply(config, s, HandleArena(accepted, pause)), SendDecision(pruned));
            && s.d.champion.Some? && s.d.champion.value < n
            && u.phase.v.trainerCommands
               == s.phase.v.trainerCommands + [Decision(if accepted then n else s.d.champion.value, pause)]
  {
    ArenaPromotes(config, actions, accepted, pause);
    StartLineage();
    RunLineage(config, START, actions);
  }

  /**
   A registered shard, in a reachable state: its row has the ids of the announced interval, which begins at the next
   game, and names the present champion, which generated it; it is active, and no other row changes.
   */
  lemma ShardRowNamesChampion(config: Config, actions: seq<Action>)
    requires ValidConfig(config) && Run(config, START, actions).Some?
    requires LoopEnabled(Run(config, START, actions).value, HandleShard)
    ensures var s := Run(config, START, actions).value;
            var e, t := s.phase.v.actorEvents[0], LoopApply(config, s, HandleShard);
            && s.d.champion == Some(e.champion) && e.interval.first == s.d.nextGame
            && |t.d.shards| == |s.d.shards| + 1 && t.d.shards[..|s.d.shards|] == s.d.shards
            && t.d.shards[|s.d.shards|].interval == e.interval
            && Some(t.d.shards[|s.d.shards|].champion) == s.d.champion && t.d.shards[|s.d.shards|].active
            && t.d.nextGame == s.d.nextGame + e.interval.games && t.d.attempts == s.d.attempts
  {
    RunValid(config, START, actions);
    ShardMatchesChampion(config, Run(config, START, actions).value);
  }
}
