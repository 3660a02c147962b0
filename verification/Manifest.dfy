/**
 The transactional manifest of `src/c4a0/training_v2.py` and the files it speaks of. A value of
 `Durable` is everything that survives a crash; each function below is one atomic durable step: a
 committed transaction or a rename.
 */
module Manifest {
  import opened Board

  datatype Status = Pending | Accepted | Rejected | Interrupted

  datatype Attempt = Attempt(status: Status, parent: Option<nat>)

  /** Game ids `first .. first + games`. */
  datatype Interval = Interval(first: nat, games: nat)

  datatype Shard = Shard(interval: Interval, champion: nat, active: bool)

  /**
   The tables and files. Attempt `n` is row `n`: rows are only inserted at `next_attempt`, one past the
   largest number. Shard ids are positions in `shards`. `files` and `candidate` map the written
   checkpoints (`attempts/<n>/model.pt` and `.candidate.pt`) to the champion named in them; `shardFiles`
   are the replay files, named by their first game id.
   */
  datatype Durable = Durable(
    attempts: seq<Attempt>, results: map<nat, bool>, champion: Option<nat>, acceptedCount: nat,
    nextGame: nat, shards: seq<Shard>,
    files: map<nat, nat>, candidate: Option<nat>, shardFiles: set<nat>)

  const EMPTY_RUN := Durable([], map[], None, 0, 1, [], map[], None, {})

  // ----- attempts -------------------------------------------------------------------------------

  /** Some row has number `n`. */
  predicate IsRow(attempts: seq<Attempt>, n: nat) {
    n < |attempts|
  }

  predicate IsPending(attempts: seq<Attempt>, n: nat) {
    n < |attempts| && attempts[n].status == Pending
  }

  /** `pending_attempt`: the smallest pending number. */
  function PendingAttempt(attempts: seq<Attempt>): (r: Option<nat>)
    ensures r.Some? ==> IsPending(attempts, r.value)
    ensures r.None? ==> forall n: nat :: !IsPending(attempts, n)
    ensures r.Some? ==> forall n: nat :: IsPending(attempts, n) ==> r.value <= n
  {
    PendingFrom(attempts, 0)
  }

  function PendingFrom(attempts: seq<Attempt>, from: nat): (r: Option<nat>)
    requires from <= |attempts| && forall n: nat :: n < from ==> !IsPending(attempts, n)
    ensures r.Some? ==> IsPending(attempts, r.value)
    ensures r.None? ==> forall n: nat :: !IsPending(attempts, n)
    ensures r.Some? ==> forall n: nat :: IsPending(attempts, n) ==> r.value <= n
    decreases |attempts| - from
  {
    if from == |attempts| then None
    else if attempts[from].status == Pending then Some(from)
    else PendingFrom(attempts, from + 1)
  }

  function AcceptedRows(attempts: seq<Attempt>): nat {
    if |attempts| <= 1 then 0
    else AcceptedRows(attempts[..|attempts| - 1]) + if attempts[|attempts| - 1].status == Accepted then 1 else 0
  }

  /** Writing the root checkpoint. */
  function RootWritten(d: Durable): Durable {
    d.(files := d.files[0 := 0])
  }

  /** `add_root`: row and champion pointer in one transaction; nothing when a row exists. */
  function RootAdded(d: Durable): Durable {
    if d.attempts != [] then d else d.(attempts := [Attempt(Accepted, None)], champion := Some(0))
  }

  /** The rename of `.candidate.pt` to the next attempt's directory. */
  function CandidateMoved(d: Durable): Durable
    requires d.candidate.Some?
  {
    d.(files := d.files[|d.attempts| := d.candidate.value], candidate := None)
  }

  function RowAdded(d: Durable, status: Status, parent: nat): Durable {
    d.(attempts := d.attempts + [Attempt(status, Some(parent))])
  }

  /** `decide_attempt`. */
  function Decided(d: Durable, n: nat, accepted: bool): Durable
    requires n < |d.attempts|
  {
    var row := d.attempts[n].(status := if accepted then Accepted else Rejected);
    var e := d.(attempts := d.attempts[n := row], results := d.results[n := accepted]);
    if accepted then e.(champion := Some(n), acceptedCount := d.acceptedCount + 1) else e
  }

  /** `register` of the recovery, for the checkpoint file of the next attempt. */
  function Recovered(d: Durable): Durable
    requires |d.attempts| in d.files
  {
    var parent := d.files[|d.attempts|];
    RowAdded(d, if PendingAttempt(d.attempts).None? && d.champion == Some(parent) then Pending else Interrupted, parent)
  }

  // ----- rejected checkpoints -------------------------------------------------------------------

  predicate IsRejected(attempts: seq<Attempt>, n: nat) {
    n < |attempts| && attempts[n].status == Rejected
  }

  /** The number of rejected rows from row `n` on. */
  function RejectedFrom(attempts: seq<Attempt>, n: nat): nat
    requires n <= |attempts|
    decreases |attempts| - n
  {
    if n == |attempts| then 0
    else RejectedFrom(attempts, n + 1) + if attempts[n].status == Rejected then 1 else 0
  }

  /** Row `n` is among the `retention` newest rejected rows. */
  predicate Newest(attempts: seq<Attempt>, retention: nat, n: nat) {
    IsRejected(attempts, n) && RejectedFrom(attempts, n + 1) < retention
  }

  /** `_prune_rejected` deletes the checkpoint of row `n`. */
  predicate IsPruned(attempts: seq<Attempt>, retention: nat, preserve: Option<nat>, n: nat) {
    IsRejected(attempts, n) && !Newest(attempts, retention, n) && preserve != Some(n)
  }

  function Pruned(attempts: seq<Attempt>, retention: nat, preserve: Option<nat>): set<nat> {
    set n: nat | n < |attempts| && IsPruned(attempts, retention, preserve, n)
  }

  /** The number of rows from `n` on that are among the newest rejected ones. */
  function NewestFrom(attempts: seq<Attempt>, retention: nat, n: nat): nat
    requires n <= |attempts|
    decreases |attempts| - n
  {
    if n == |attempts| then 0
    else NewestFrom(attempts, retention, n + 1) + if Newest(attempts, retention, n) then 1 else 0
  }

  /** Exactly `retention` rejected rows count as newest, or all when there are fewer. */
  lemma {:induction false} NewestCount(attempts: seq<Attempt>, retention: nat, n: nat)
    requires n <= |attempts|
    ensures NewestFrom(attempts, retention, n)
         == if RejectedFrom(attempts, n) <= retention then RejectedFrom(attempts, n) else retention
    decreases |attempts| - n
  {
    if n < |attempts| {
      NewestCount(attempts, retention, n + 1);
    }
  }

  lemma {:induction false} FewerLater(attempts: seq<Attempt>, n: nat, k: nat)
    requires n <= k <= |attempts|
    ensures RejectedFrom(attempts, k) <= RejectedFrom(attempts, n)
    decreases k - n
  {
    if n < k {
      FewerLater(attempts, n + 1, k);
    }
  }

  /** No checkpoint is deleted that is newer than one kept for being new. */
  lemma PruningKeepsNewest(attempts: seq<Attempt>, retention: nat, preserve: Option<nat>, n: nat, k: nat)
    requires Newest(attempts, retention, n) && IsPruned(attempts, retention, preserve, k)
    ensures k < n
  {
    if n <= k {
      FewerLater(attempts, n + 1, k + 1);
    }
  }

  /** The rejected rows from row `n` on. */
  function RejectedRows(attempts: seq<Attempt>, n: nat): set<nat> {
    set k: nat | n <= k < |attempts| && attempts[k].status == Rejected
  }

  lemma {:induction false} RejectedCount(attempts: seq<Attempt>, n: nat)
    requires n <= |attempts|
    ensures RejectedFrom(attempts, n) == |RejectedRows(attempts, n)|
    decreases |attempts| - n
  {
    if n == |attempts| {
      assert RejectedRows(attempts, n) == {};
    } else {
      var later := RejectedRows(attempts, n + 1);
      RejectedCount(attempts, n + 1);
      if attempts[n].status == Rejected {
        assert RejectedRows(attempts, n) == later + {n};
      } else {
        assert RejectedRows(attempts, n) == later;
      }
    }
  }

  /** Exactly the rejected rows followed by at least `retention` rejected ones are pruned, but for the preserved one. */
  lemma PrunedExactly(attempts: seq<Attempt>, retention: nat, preserve: Option<nat>, n: nat)
    ensures n in Pruned(attempts, retention, preserve)
       <==> n < |attempts| && attempts[n].status == Rejected && |RejectedRows(attempts, n + 1)| >= retention
            && !(preserve.Some? && preserve.value == n)
  {
    if n < |attempts| {
      RejectedCount(attempts, n + 1);
    }
  }

  // ----- shards ---------------------------------------------------------------------------------

  /** The first transaction of `register_shard`. */
  function ShardInserted(d: Durable, interval: Interval, champion: nat): Durable {
    d.(shards := d.shards + [Shard(interval, champion, true)], nextGame := interval.first + interval.games)
  }

  function ActiveGames(shards: seq<Shard>): nat {
    if shards == [] then 0
    else ActiveGames(shards[..|shards| - 1])
         + if shards[|shards| - 1].active then shards[|shards| - 1].interval.games else 0
  }

  /** Deactivates shard `id`. */
  function Deactivated(shards: seq<Shard>, id: nat): seq<Shard>
    requires id < |shards|
  {
    shards[id := shards[id].(active := false)]
  }

  /** The retirement loop from shard `from` on: deactivate active shards while the total is too large. */
  function Retired(shards: seq<Shard>, capacity: nat, from: nat): (r: seq<Shard>)
    requires from <= |shards|
    ensures |r| == |shards|
    decreases |shards| - from
  {
    if from == |shards| || ActiveGames(shards) <= capacity then shards
    else if shards[from].active then Retired(Deactivated(shards, from), capacity, from + 1)
    else Retired(shards, capacity, from + 1)
  }

  /** The second transaction of `register_shard`. */
  function ShardsRetired(d: Durable, capacity: nat): Durable {
    d.(shards := Retired(d.shards, capacity, 0))
  }

  /** The shards that a registration retires. */
  function RetiredIds(before: seq<Shard>, after: seq<Shard>): set<nat>
    requires |before| == |after|
  {
    set id: nat | id < |before| && before[id].active && !after[id].active
  }

  lemma {:induction false} DeactivatedGames(shards: seq<Shard>, id: nat)
    requires id < |shards| && shards[id].active
    ensures ActiveGames(Deactivated(shards, id)) + shards[id].interval.games == ActiveGames(shards)
  {
    var n := |shards| - 1;
    if id == n {
      assert Deactivated(shards, id)[..n] == shards[..n];
    } else {
      assert Deactivated(shards, id)[..n] == Deactivated(shards[..n], id);
      DeactivatedGames(shards[..n], id);
    }
  }

  lemma {:induction false} NoneActive(shards: seq<Shard>)
    requires forall i :: 0 <= i < |shards| ==> !shards[i].active
    ensures ActiveGames(shards) == 0
  {
    if shards != [] {
      NoneActive(shards[..|shards| - 1]);
    }
  }

  /** Retirement only deactivates: everything else about every shard stays. */
  predicate OnlyDeactivates(before: seq<Shard>, after: seq<Shard>) {
    && |after| == |before|
    && forall i :: 0 <= i < |before| ==>
         after[i] == before[i] || (before[i].active && after[i] == before[i].(active := false))
  }

  lemma {:induction false} RetiredDeactivates(shards: seq<Shard>, capacity: nat, from: nat)
    requires from <= |shards|
    ensures OnlyDeactivates(shards, Retired(shards, capacity, from))
    decreases |shards| - from
  {
    if from < |shards| && ActiveGames(shards) > capacity {
      if shards[from].active {
        RetiredDeactivates(Deactivated(shards, from), capacity, from + 1);
      } else {
        RetiredDeactivates(shards, capacity, from + 1);
      }
    }
  }

  /** A completed registration leaves the active games within capacity. */
  lemma {:induction false} RetiredWithinCapacity(shards: seq<Shard>, capacity: nat, from: nat)
    requires from <= |shards| && forall i :: 0 <= i < from ==> !shards[i].active
    ensures ActiveGames(Retired(shards, capacity, from)) <= capacity
    decreases |shards| - from
  {
    if from == |shards| {
      NoneActive(shards);
    } else if ActiveGames(shards) > capacity {
      var next := if shards[from].active then Deactivated(shards, from) else shards;
      RetiredWithinCapacity(next, capacity, from + 1);
    }
  }

  /** The retired shards are the oldest active ones: whatever is older than an active one is inactive. */
  predicate ActiveSuffix(shards: seq<Shard>) {
    forall i, j :: 0 <= i < j < |shards| && shards[i].active ==> shards[j].active
  }

  lemma {:induction false} RetiredOldest(shards: seq<Shard>, capacity: nat, from: nat)
    requires from <= |shards| && (forall i :: 0 <= i < from ==> !shards[i].active)
    requires forall i, j :: 0 <= i < j < |shards| && shards[i].active ==> shards[j].active
    ensures ActiveSuffix(Retired(shards, capacity, from))
    decreases |shards| - from
  {
    if from < |shards| && ActiveGames(shards) > capacity {
      var next := if shards[from].active then Deactivated(shards, from) else shards;
      RetiredOldest(next, capacity, from + 1);
    }
  }

  /** Minimality: with any retired shard still active the total would be above the capacity. */
  lemma {:induction false} RetiredMinimal(shards: seq<Shard>, capacity: nat, from: nat, id: nat)
    requires from <= |shards| && id < |shards| && forall i :: 0 <= i < from ==> !shards[i].active
    requires shards[id].active && !Retired(shards, capacity, from)[id].active
    ensures ActiveGames(Retired(shards, capacity, from)) + shards[id].interval.games > capacity
         || exists later :: id < later < |shards| && shards[later].active
                                            && !Retired(shards, capacity, from)[later].active
    decreases |shards| - from
  {
    if shards[from].active {
      var next := Deactivated(shards, from);
      DeactivatedGames(shards, from);
      if id == from {
        if ActiveGames(next) > capacity {
          SomethingRetired(next, capacity, from + 1);
        }
      } else {
        RetiredMinimal(next, capacity, from + 1, id);
      }
    } else {
      RetiredMinimal(shards, capacity, from + 1, id);
    }
  }

  lemma {:induction false} SomethingRetired(shards: seq<Shard>, capacity: nat, from: nat)
    requires from <= |shards| && (forall i :: 0 <= i < from ==> !shards[i].active)
    requires ActiveGames(shards) > capacity
    ensures exists later :: from <= later < |shards| && shards[later].active
                                            && !Retired(shards, capacity, from)[later].active
    decreases |shards| - from
  {
    if from == |shards| {
      NoneActive(shards);
    } else if shards[from].active {
      RetiredDeactivates(Deactivated(shards, from), capacity, from + 1);
      assert !Retired(shards, capacity, from)[from].active;
    } else {
      SomethingRetired(shards, capacity, from + 1);
    }
  }

  // ----- what always holds of the durable state -------------------------------------------------

  /** Consecutive, disjoint, non-empty intervals from game 1 up to `end`. */
  predicate Consecutive(shards: seq<Shard>, end: nat) {
    if shards == [] then end == 1
    else
      var last := shards[|shards| - 1].interval;
      last.games > 0 && last.first + last.games == end && Consecutive(shards[..|shards| - 1], last.first)
  }

  lemma {:induction false} ConsecutiveDisjoint(shards: seq<Shard>, end: nat, i: nat, j: nat)
    requires Consecutive(shards, end) && i < j < |shards|
    ensures shards[i].interval.first + shards[i].interval.games <= shards[j].interval.first
    ensures shards[j].interval.first + shards[j].interval.games <= end
  {
    var n := |shards| - 1;
    if j == n {
      ConsecutiveBelow(shards[..n], shards[n].interval.first, i);
    } else {
      ConsecutiveDisjoint(shards[..n], shards[n].interval.first, i, j);
    }
  }

  lemma {:induction false} ConsecutiveBelow(shards: seq<Shard>, end: nat, i: nat)
    requires Consecutive(shards, end) && i < |shards|
    ensures shards[i].interval.first + shards[i].interval.games <= end && shards[i].interval.games > 0
    ensures 1 <= shards[i].interval.first
  {
    var n := |shards| - 1;
    ConsecutiveFromOne(shards[..n], shards[n].interval.first);
    if i < n {
      ConsecutiveBelow(shards[..n], shards[n].interval.first, i);
    }
  }

  lemma {:induction false} ConsecutiveFromOne(shards: seq<Shard>, end: nat)
    requires Consecutive(shards, end)
    ensures end >= 1
  {
    if shards != [] {
      ConsecutiveFromOne(shards[..|shards| - 1], shards[|shards| - 1].interval.first);
    }
  }

  /** Every id below the end is in exactly one shard: the intervals cover all registered games. */
  lemma {:induction false} ConsecutiveCover(shards: seq<Shard>, end: nat, id: nat) returns (i: nat)
    requires Consecutive(shards, end) && 1 <= id < end
    ensures i < |shards| && shards[i].interval.first <= id < shards[i].interval.first + shards[i].interval.games
  {
    var n := |shards| - 1;
    if shards[n].interval.first <= id {
      i := n;
    } else {
      i := ConsecutiveCover(shards[..n], shards[n].interval.first, id);
    }
  }

  lemma {:induction false} SameIntervalsConsecutive(before: seq<Shard>, after: seq<Shard>, end: nat)
    requires OnlyDeactivates(before, after) && Consecutive(before, end)
    ensures Consecutive(after, end)
  {
    if before != [] {
      var n := |before| - 1;
      SameIntervalsConsecutive(before[..n], after[..n], before[n].interval.first);
    }
  }

  /** At most one pending row, results exactly for the decided rows, a valid champion, a true count. */
  ghost predicate TablesValid(d: Durable) {
    && (forall i: nat, j: nat :: IsPending(d.attempts, i) && IsPending(d.attempts, j) ==> i == j)
    && d.acceptedCount == AcceptedRows(d.attempts)
    && (d.attempts != [] ==> d.attempts[0] == Attempt(Accepted, None))
    && (forall n: nat :: n in d.results <==>
          0 < n < |d.attempts| && (d.attempts[n].status == Accepted || d.attempts[n].status == Rejected))
    && (forall n :: n in d.results ==> (d.results[n] <==> n < |d.attempts| && d.attempts[n].status == Accepted))
    && match d.champion
       case None => d.attempts == []
       case Some(c) => c < |d.attempts| && d.attempts[c].status == Accepted
  }

  /** Checkpoint files have a row naming the champion in the file, except one that awaits its row. */
  ghost predicate FilesValid(d: Durable) {
    && (forall n :: n in d.files ==> n <= |d.attempts|)
    && (forall n :: n in d.files && 0 < n < |d.attempts| ==> d.attempts[n].parent == Some(d.files[n]))
    && (d.attempts == [] ==> d.candidate.None?)
    && (d.candidate.Some? ==> |d.attempts| !in d.files && PendingAttempt(d.attempts).None?)
  }

  /** Shard rows cover consecutive disjoint game ids, and every active shard has its file. */
  ghost predicate ShardsValid(d: Durable) {
    && Consecutive(d.shards, d.nextGame)
    && ActiveSuffix(d.shards)
    && (forall i :: 0 <= i < |d.shards| && d.shards[i].active ==> d.shards[i].interval.first in d.shardFiles)
  }

  ghost predicate DurableValid(d: Durable) {
    TablesValid(d) && FilesValid(d) && ShardsValid(d)
  }

  // ----- each durable step keeps it -------------------------------------------------------------

  lemma {:induction false} AcceptedRowsUpdate(attempts: seq<Attempt>, n: nat, row: Attempt)
    requires 0 < n < |attempts|
    ensures AcceptedRows(attempts[n := row]) + (if attempts[n].status == Accepted then 1 else 0)
         == AcceptedRows(attempts) + if row.status == Accepted then 1 else 0
  {
    var k := |attempts| - 1;
    if n == k {
      assert attempts[n := row][..k] == attempts[..k];
    } else {
      assert attempts[n := row][..k] == attempts[..k][n := row];
      AcceptedRowsUpdate(attempts[..k], n, row);
    }
  }

  lemma RootAddedValid(d: Durable)
    requires DurableValid(d) && (d.attempts == [] ==> 0 in d.files)
    ensures DurableValid(RootAdded(d)) && RootAdded(d).champion.Some?
  {
  }

  lemma RootWrittenValid(d: Durable)
    requires DurableValid(d) && d.attempts == []
    ensures DurableValid(RootWritten(d))
  {
  }

  lemma RowAddedTables(d: Durable, status: Status, parent: nat)
    requires TablesValid(d) && d.champion.Some?
    requires status == Interrupted || (status == Pending && PendingAttempt(d.attempts).None?)
    ensures TablesValid(RowAdded(d, status, parent))
  {
    var e := RowAdded(d, status, parent);
    assert e.attempts[..|d.attempts|] == d.attempts;
    forall i: nat | IsPending(e.attempts, i) ensures i < |d.attempts| ==> IsPending(d.attempts, i) {
    }
  }

  /** The row of a file that awaits it, naming the champion in the file. */
  lemma RowAddedValid(d: Durable, status: Status)
    requires DurableValid(d) && d.champion.Some? && |d.attempts| in d.files
    requires status == Interrupted || (status == Pending && PendingAttempt(d.attempts).None?)
    ensures DurableValid(RowAdded(d, status, d.files[|d.attempts|]))
    ensures |d.attempts| + 1 !in RowAdded(d, status, d.files[|d.attempts|]).files
  {
    RowAddedTables(d, status, d.files[|d.attempts|]);
  }

  /** Recovery of the file that awaits its row: at most one attempt is pending afterwards. */
  lemma RecoveredValid(d: Durable)
    requires DurableValid(d) && d.champion.Some? && |d.attempts| in d.files
    ensures DurableValid(Recovered(d)) && |Recovered(d).attempts| !in Recovered(d).files
  {
    if PendingAttempt(d.attempts).None? && d.champion == Some(d.files[|d.attempts|]) {
      RowAddedValid(d, Pending);
    } else {
      RowAddedValid(d, Interrupted);
    }
  }

  lemma CandidateMovedValid(d: Durable)
    requires DurableValid(d) && d.candidate.Some?
    ensures DurableValid(CandidateMoved(d)) && |d.attempts| in CandidateMoved(d).files
    ensures CandidateMoved(d).files[|d.attempts|] == d.candidate.value
  {
  }

  /** What a verdict changes in the tables: the row, its result, and champion and count exactly on acceptance. */
  ghost predicate VerdictRecorded(d: Durable, e: Durable, n: nat, accepted: bool)
    requires n < |d.attempts|
  {
    && |e.attempts| == |d.attempts| && e.attempts[n].parent == d.attempts[n].parent
    && (e.attempts[n].status == Accepted <==> accepted) && (e.attempts[n].status == Rejected <==> !accepted)
    && (forall k: nat :: k < |d.attempts| && k != n ==> e.attempts[k] == d.attempts[k])
    && n in e.results && (e.results[n] <==> accepted)
    && (forall k :: k != n ==> (k in e.results <==> k in d.results))
    && (forall k :: k != n && k in d.results ==> e.results[k] == d.results[k])
    && (accepted ==> e.champion == Some(n) && e.acceptedCount == d.acceptedCount + 1)
    && (!accepted ==> e.champion == d.champion && e.acceptedCount == d.acceptedCount)
    && e.files == d.files && e.candidate == d.candidate && e.shards == d.shards && e.nextGame == d.nextGame
    && e.shardFiles == d.shardFiles
  }

  lemma DecidedRecords(d: Durable, n: nat, accepted: bool)
    requires n < |d.attempts|
    ensures VerdictRecorded(d, Decided(d, n, accepted), n, accepted)
  {
  }

  lemma DecidedValid(d: Durable, n: nat, accepted: bool)
    requires DurableValid(d) && IsPending(d.attempts, n) && d.champion.Some?
    ensures DurableValid(Decided(d, n, accepted)) && VerdictRecorded(d, Decided(d, n, accepted), n, accepted)
    ensures PendingAttempt(Decided(d, n, accepted).attempts).None?
  {
    var row := d.attempts[n].(status := if accepted then Accepted else Rejected);
    AcceptedRowsUpdate(d.attempts, n, row);
    var e := Decided(d, n, accepted);
    forall i: nat ensures !IsPending(e.attempts, i) {
      assert IsPending(e.attempts, i) ==> IsPending(d.attempts, i);
    }
  }

  lemma ShardInsertedValid(d: Durable, interval: Interval, champion: nat)
    requires DurableValid(d) && interval.first == d.nextGame && interval.games > 0 && interval.first in d.shardFiles
    ensures DurableValid(ShardInserted(d, interval, champion))
  {
    assert ShardInserted(d, interval, champion).shards[..|d.shards|] == d.shards;
  }

  lemma ShardsRetiredValid(d: Durable, capacity: nat)
    requires DurableValid(d)
    ensures DurableValid(ShardsRetired(d, capacity))
    ensures ActiveGames(ShardsRetired(d, capacity).shards) <= capacity
    ensures OnlyDeactivates(d.shards, ShardsRetired(d, capacity).shards)
  {
    RetiredDeactivates(d.shards, capacity, 0);
    RetiredWithinCapacity(d.shards, capacity, 0);
    RetiredOldest(d.shards, capacity, 0);
    SameIntervalsConsecutive(d.shards, Retired(d.shards, capacity, 0), d.nextGame);
  }

  /** Two shards never share a file. */
  lemma ShardFilesDistinct(d: Durable, i: nat, j: nat)
    requires DurableValid(d) && i < |d.shards| && j < |d.shards| && i != j
    ensures d.shards[i].interval.first != d.shards[j].interval.first
  {
    if i < j {
      ConsecutiveDisjoint(d.shards, d.nextGame, i, j);
      ConsecutiveBelow(d.shards, d.nextGame, i);
    } else {
      ConsecutiveDisjoint(d.shards, d.nextGame, j, i);
      ConsecutiveBelow(d.shards, d.nextGame, j);
    }
  }
}
