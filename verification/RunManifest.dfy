/**
 The manifest object of `src/c4a0/training_v2.py`: its methods write the tables, one committed
 transaction after another, and are proved to be the durable steps of Manifest.dfy.
 */
module RunManifests {
  import opened Board
  import opened Manifest

  class RunManifest {
    const capacity: nat
    var attempts: seq<Attempt>
    var results: map<nat, bool>
    var championAttempt: Option<nat>
    var acceptedCount: nat
    var nextGameId: nat
    var shards: seq<Shard>

    /** The tables, together with the files beside them. */
    function Tables(files: map<nat, nat>, candidate: Option<nat>, shardFiles: set<nat>): Durable
      reads this
    {
      Durable(attempts, results, championAttempt, acceptedCount, nextGameId, shards, files, candidate, shardFiles)
    }

    /** The tables of an empty directory. */
    constructor (capacity: nat)
      ensures this.capacity == capacity
      ensures Tables(map[], None, {}) == EMPTY_RUN
    {
      this.capacity := capacity;
      attempts, results, championAttempt, acceptedCount, nextGameId, shards := [], map[], None, 0, 1, [];
    }

    method AddRoot()
      modifies this`attempts, this`championAttempt
      ensures forall files, shardFiles ::
        Tables(files, None, shardFiles) == RootAdded(old(Tables(files, None, shardFiles)))
    {
      if attempts != [] {
        return;
      }
      attempts := [Attempt(Accepted, None)];
      championAttempt := Some(0);
    }

    /** `next_attempt`: the smallest number above every row's number, and no row has it. */
    method NextAttempt() returns (n: nat)
      ensures !IsRow(attempts, n) && forall k: nat :: IsRow(attempts, k) <==> k < n
    {
      n := |attempts|;
    }

    /** `pending_attempt`: the first pending row. */
    method PendingRow() returns (row: Option<nat>)
      ensures row == PendingAttempt(attempts)
    {
      for n := 0 to |attempts|
        invariant forall k: nat :: k < n ==> !IsPending(attempts, k)
        invariant PendingFrom(attempts, 0) == PendingFrom(attempts, n)
      {
        if attempts[n].status == Pending {
          return Some(n);
        }
      }
      row := None;
    }

    /** The inserts of pending and interrupted rows, at the number the caller got from `next_attempt`. */
    method AddAttempt(n: nat, status: Status, parent: nat)
      requires n == |attempts|
      modifies this`attempts
      ensures forall files, candidate, shardFiles ::
        Tables(files, candidate, shardFiles) == RowAdded(old(Tables(files, candidate, shardFiles)), status, parent)
    {
      attempts := attempts + [Attempt(status, Some(parent))];
    }

    /** `register` of the recovery, for the checkpoint of attempt `n` that names `parent`. */
    method RegisterOrphan(n: nat, parent: nat)
      requires n == |attempts|
      modifies this`attempts
      ensures forall files: map<nat, nat>, candidate, shardFiles :: n in files && files[n] == parent ==>
        Tables(files, candidate, shardFiles) == Recovered(old(Tables(files, candidate, shardFiles)))
    {
      var pending := PendingRow();
      if pending.None? && championAttempt == Some(parent) {
        AddAttempt(n, Pending, parent);
      } else {
        AddAttempt(n, Interrupted, parent);
      }
    }

    /** `decide_attempt`: status, result, champion and count in one transaction. */
    method DecideAttempt(n: nat, decision: bool) returns (accepted: bool)
      requires n < |attempts|
      modifies this`attempts, this`results, this`championAttempt, this`acceptedCount
      ensures accepted == decision && |attempts| == |old(attempts)|
      ensures (attempts[n].status == Accepted <==> decision) && (attempts[n].status == Rejected <==> !decision)
      ensures n in results && results[n] == decision
      ensures decision ==> championAttempt == Some(n) && acceptedCount == old(acceptedCount) + 1
      ensures !decision ==> championAttempt == old(championAttempt) && acceptedCount == old(acceptedCount)
      ensures forall files, candidate, shardFiles ::
        Tables(files, candidate, shardFiles) == Decided(old(Tables(files, candidate, shardFiles)), n, decision)
    {
      attempts := attempts[n := attempts[n].(status := if decision then Accepted else Rejected)];
      results := results[n := decision];
      if decision {
        championAttempt := Some(n);
        acceptedCount := acceptedCount + 1;
      }
      accepted := decision;
    }

    /** The rows of `_prune_rejected`, newest first; the first `retention` of them are retained. */
    method PruneRejected(retention: nat, preserve: Option<nat>) returns (pruned: set<nat>)
      ensures pruned == Pruned(attempts, retention, preserve)
    {
      var seen := 0;
      pruned := {};
      for n := |attempts| downto 0
        invariant seen == RejectedFrom(attempts, n)
        invariant forall k: nat :: k in pruned <==> n <= k && IsPruned(attempts, retention, preserve, k)
      {
        if attempts[n].status == Rejected {
          if seen >= retention && preserve != Some(n) {
            pruned := pruned + {n};
          }
          seen := seen + 1;
        }
      }
    }

    /** The sum over the active rows. */
    method ActiveTotal() returns (total: nat)
      ensures total == ActiveGames(shards)
    {
      total := 0;
      for id := 0 to |shards|
        invariant total == ActiveGames(shards[..id])
      {
        assert shards[..id + 1][..id] == shards[..id];
        if shards[id].active {
          total := total + shards[id].interval.games;
        }
      }
      assert shards[..|shards|] == shards;
    }

    /** The retirement loop: the oldest active shards go while the total is above the capacity. */
    method RetireOldest() returns (retired: seq<nat>)
      modifies this`shards
      ensures shards == Retired(old(shards), capacity, 0)
      ensures forall id: nat :: id in retired <==> id in RetiredIds(old(shards), shards)
      ensures forall i, j :: 0 <= i < j < |retired| ==> retired[i] < retired[j]
    {
      ghost var before := shards;
      var total := ActiveTotal();
      retired := [];
      var count := |shards|;
      for id := 0 to count
        invariant total == ActiveGames(shards) && |shards| == |before|
        invariant Retired(before, capacity, 0) == Retired(shards, capacity, id)
        invariant forall k :: id <= k < |before| ==> shards[k] == before[k]
        invariant forall k: nat :: k in retired <==> k < |before| && before[k].active && !shards[k].active
        invariant forall i, j :: 0 <= i < j < |retired| ==> retired[i] < retired[j]
        invariant forall i :: 0 <= i < |retired| ==> retired[i] < id
      {
        if total <= capacity {
          break;
        }
        if shards[id].active {
          DeactivatedGames(shards, id);
          total := total - shards[id].interval.games;
          shards := Deactivated(shards, id);
          retired := retired + [id];
        }
      }
    }

    /**
     `register_shard`: two transactions, the insert and the retirement. Afterwards the active games are
     within the capacity.
     */
    method RegisterShard(interval: Interval, champion: nat) returns (id: nat, retired: seq<nat>)
      requires ActiveSuffix(shards)
      modifies this`shards, this`nextGameId
      ensures id == |old(shards)|
      ensures forall files, candidate, shardFiles ::
        Tables(files, candidate, shardFiles)
        == ShardsRetired(ShardInserted(old(Tables(files, candidate, shardFiles)), interval, champion), capacity)
      ensures ActiveGames(shards) <= capacity && ActiveSuffix(shards)
      ensures forall k: nat :: k in retired <==>
        k in RetiredIds(old(shards) + [Shard(interval, champion, true)], shards)
    {
      id := |shards|;
      shards := shards + [Shard(interval, champion, true)];
      nextGameId := interval.first + interval.games;
      RetiredWithinCapacity(shards, capacity, 0);
      RetiredOldest(shards, capacity, 0);
      retired := RetireOldest();
    }
  }
}
