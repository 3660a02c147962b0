/**
 The solver cache of `cpp/src/solver.cpp`: solutions stored as 14 bytes, looked up before the
 external solver runs, and inserted only where absent. The external solver is a function of the
 position that may fail; a database transaction is one atomic assignment to the map.
 */
module Solver {
  import opened Board
  import opened Policies
  import Positions

  type Position = Positions.Position

  const CHUNK_SIZE := 100
  const ENCODED_SIZE := 14

  type Int16 = x: int | -0x8000 <= x < 0x8000
  type Byte = x: int | 0 <= x < 0x100
  type Solution = s: seq<Int16> | |s| == COLS witness [0, 0, 0, 0, 0, 0, 0]

  // ----- the stored form ------------------------------------------------------------------------

  /** `static_cast<uint16_t>`. */
  function ToBits(x: Int16): (bits: nat)
    ensures bits < 0x1_0000
  {
    if x < 0 then x + 0x1_0000 else x
  }

  /** `static_cast<int16_t>`. */
  function FromBits16(bits: nat): Int16
    requires bits < 0x1_0000
  {
    if bits < 0x8000 then bits else bits - 0x1_0000
  }

  function LowByte(bits: nat): Byte {
    bits % 0x100
  }

  function HighByte(bits: nat): Byte
    requires bits < 0x1_0000
  {
    bits / 0x100
  }

  function Joined(low: Byte, high: Byte): (bits: nat)
    ensures bits < 0x1_0000
  {
    (low as int) + 0x100 * (high as int)
  }

  /** Little-endian: byte `2 k` is the low half of entry `k`. */
  function Encoded(solution: Solution): (bytes: seq<Byte>)
    ensures |bytes| == ENCODED_SIZE
  {
    seq(ENCODED_SIZE, k requires 0 <= k < ENCODED_SIZE =>
      if k % 2 == 0 then LowByte(ToBits(solution[k / 2])) else HighByte(ToBits(solution[k / 2])))
  }

  function Decoded(bytes: seq<Byte>): Option<Solution> {
    if |bytes| != ENCODED_SIZE then None
    else Some(seq(COLS, k requires 0 <= k < COLS => FromBits16(Joined(bytes[2 * k], bytes[2 * k + 1]))))
  }

  /** Bytes `2 k` and `2 k + 1`, read as low and high half, are entry `k` modulo 2^16. */
  lemma LowByteFirst(solution: Solution, k: nat)
    requires k < COLS
    ensures var bytes := Encoded(solution);
            (bytes[2 * k] as int) + 256 * (bytes[2 * k + 1] as int)
            == (solution[k] as int) + if solution[k] < 0 then 65536 else 0
  {
    assert (2 * k + 1) / 2 == k && (2 * k + 1) % 2 == 1;
  }

  lemma DecodeEncode(solution: Solution)
    ensures Decoded(Encoded(solution)) == Some(solution)
  {
    var bytes := Encoded(solution);
    forall k | 0 <= k < COLS ensures Decoded(bytes).value[k] == solution[k] {
      assert (2 * k + 1) / 2 == k && (2 * k + 1) % 2 == 1;
      assert bytes[2 * k] == LowByte(ToBits(solution[k]));
      assert bytes[2 * k + 1] == HighByte(ToBits(solution[k]));
    }
    assert Decoded(bytes).value == solution;
  }

  /** Every record of the right size is the encoding of what it decodes to. */
  lemma EncodeDecode(bytes: seq<Byte>)
    requires |bytes| == ENCODED_SIZE
    ensures Encoded(Decoded(bytes).value) == bytes
  {
    var solution := Decoded(bytes).value;
    forall k | 0 <= k < ENCODED_SIZE ensures Encoded(solution)[k] == bytes[k] {
      var bits := Joined(bytes[2 * (k / 2)], bytes[2 * (k / 2) + 1]);
      assert ToBits(solution[k / 2]) == bits;
      assert k == 2 * (k / 2) + k % 2;
      assert LowByte(bits) == bytes[2 * (k / 2)] && HighByte(bits) == bytes[2 * (k / 2) + 1];
    }
  }

  method EncodeSolution(solution: Solution) returns (bytes: seq<Byte>)
    ensures bytes == Encoded(solution)
  {
    bytes := [];
    for index := 0 to COLS
      invariant bytes == Encoded(solution)[..2 * index]
    {
      var bits := ToBits(solution[index]);
      assert (2 * index + 1) / 2 == index && (2 * index + 1) % 2 == 1;
      bytes := bytes + [LowByte(bits), HighByte(bits)];
    }
  }

  /** `None` is the corrupt-record exception. */
  method DecodeSolution(bytes: seq<Byte>) returns (solution: Option<Solution>)
    ensures solution == Decoded(bytes)
  {
    if |bytes| != ENCODED_SIZE {
      return None;
    }
    var entries: seq<Int16> := [];
    for index := 0 to COLS
      invariant entries == Decoded(bytes).value[..index]
    {
      entries := entries + [FromBits16(Joined(bytes[2 * index], bytes[2 * index + 1]))];
    }
    assert entries == Decoded(bytes).value;
    solution := Some(entries);
  }

  // ----- scoring --------------------------------------------------------------------------------

  /** `std::max_element`: the first of the largest entries among `s[..n]`. */
  function FirstMaximum(s: seq<real>, n: nat): (best: nat)
    requires 0 < n <= |s|
    ensures best < n
    ensures forall k :: 0 <= k < n ==> s[k] <= s[best]
    ensures forall k :: 0 <= k < best ==> s[k] < s[best]
  {
    if n == 1 then 0
    else
      var before := FirstMaximum(s, n - 1);
      if s[before] < s[n - 1] then n - 1 else before
  }

  function Best(solution: Solution, n: nat): (best: Int16)
    requires 0 < n <= COLS
    ensures best in solution[..n]
    ensures forall k :: 0 <= k < n ==> solution[k] <= best
  {
    if n == 1 then solution[0]
    else
      var before := Best(solution, n - 1);
      assert solution[..n] == solution[..n - 1] + [solution[n - 1]];
      if before < solution[n - 1] then solution[n - 1] else before
  }

  function ScorePolicy(solution: Solution, policy: Policy): real {
    var selected := FirstMaximum(policy, COLS);
    if solution[selected] == Best(solution, COLS) then 1.0
    else if solution[selected] > 0 then 0.5
    else 0.0
  }

  /**
   Full marks exactly when the policy's choice (the first of its most probable moves) is a best move,
   half marks when it still wins but another move wins sooner, none otherwise.
   */
  lemma ScoreMeaning(solution: Solution, policy: Policy, selected: nat)
    requires selected < COLS
    requires forall k :: 0 <= k < COLS ==> policy[k] <= policy[selected]
    requires forall k :: 0 <= k < selected ==> policy[k] < policy[selected]
    ensures ScorePolicy(solution, policy) == 1.0 <==> forall k :: 0 <= k < COLS ==> solution[k] <= solution[selected]
    ensures ScorePolicy(solution, policy) == 0.5 <==>
      solution[selected] > 0 && exists k :: 0 <= k < COLS && solution[k] > solution[selected]
  {
    var best := Best(solution, COLS);
    assert solution[..COLS] == solution;
    assert FirstMaximum(policy, COLS) == selected;
    var k :| 0 <= k < COLS && solution[k] == best;
    assert solution[selected] <= best;
  }

  // ----- which positions are solved -------------------------------------------------------------

  type Cache = map<Position, seq<Byte>>

  datatype Lookup = Absent | Corrupt | Found(solution: Solution)

  function Fetch(cache: Cache, p: Position): Lookup {
    if p !in cache then Absent
    else match Decoded(cache[p]) case None => Corrupt case Some(solution) => Found(solution)
  }

  /** The uncached positions in order of first occurrence. */
  function Missing(positions: seq<Position>, cached: set<Position>): seq<Position> {
    if positions == [] then []
    else
      var last := positions[|positions| - 1];
      var before := Missing(positions[..|positions| - 1], cached);
      if last in cached || last in before then before else before + [last]
  }

  /** Each uncached requested position once, and nothing else. */
  lemma {:induction false} MissingOnce(positions: seq<Position>, cached: set<Position>)
    ensures forall p :: p in Missing(positions, cached) <==> p in positions && p !in cached
    ensures forall i, j :: 0 <= i < j < |Missing(positions, cached)| ==>
      Missing(positions, cached)[i] != Missing(positions, cached)[j]
  {
    if positions != [] {
      var n := |positions| - 1;
      MissingOnce(positions[..n], cached);
      assert positions == positions[..n] + [positions[n]];
    }
  }

  /** How often a position is handed to the external solver. */
  function Occurrences(positions: seq<Position>, p: Position): nat {
    if positions == [] then 0 else (if positions[0] == p then 1 else 0) + Occurrences(positions[1..], p)
  }

  lemma {:induction false} DistinctOccurrences(positions: seq<Position>, p: Position)
    requires forall i, j :: 0 <= i < j < |positions| ==> positions[i] != positions[j]
    ensures Occurrences(positions, p) == if p in positions then 1 else 0
  {
    if positions != [] {
      DistinctOccurrences(positions[1..], p);
    }
  }

  /** One call solves an uncached requested position exactly once and any other position never. */
  lemma SolvedExactlyOnce(positions: seq<Position>, cached: set<Position>, p: Position)
    ensures Occurrences(Missing(positions, cached), p) == if p in positions && p !in cached then 1 else 0
  {
    MissingOnce(positions, cached);
    DistinctOccurrences(Missing(positions, cached), p);
  }

  datatype Request = Request(position: Position, policy: Policy)

  function PositionsOf(requests: seq<Request>): seq<Position> {
    seq(|requests|, i requires 0 <= i < |requests| => requests[i].position)
  }

  /** Every record holds the true solution of its position. */
  ghost predicate Correct(cache: Cache, solve: Position -> Option<Solution>) {
    forall p :: p in cache ==> Fetch(cache, p).Found? && solve(p) == Some(Fetch(cache, p).solution)
  }

  predicate Unreadable(cache: Cache, requests: seq<Request>) {
    exists i :: 0 <= i < |requests| && Fetch(cache, requests[i].position) == Corrupt
  }

  /** `after` extends `before` with correct records for exactly the new positions. */
  ghost predicate Stored(before: Cache, after: Cache, added: seq<Position>, solve: Position -> Option<Solution>) {
    && (forall p :: p in after <==> p in before || p in added)
    && (forall p :: p in before ==> p in after && after[p] == before[p])
    && (forall p :: p in added && p !in before ==>
          p in after && solve(p).Some? && after[p] == Encoded(solve(p).value))
  }

  /** The policy scores read off a cache. */
  ghost predicate ScoredFrom(cache: Cache, requests: seq<Request>, scores: seq<real>) {
    && |scores| == |requests|
    && forall i :: 0 <= i < |requests| ==>
         && Fetch(cache, requests[i].position).Found?
         && scores[i] == ScorePolicy(Fetch(cache, requests[i].position).solution, requests[i].policy)
  }

  /**
   The main result: on a correct cache every score is the score of the true solution, whatever was
   cached before and however requests repeat.
   */
  lemma CachedScoreIsTrueScore(before: Cache, after: Cache, requests: seq<Request>, scores: seq<real>,
                               solve: Position -> Option<Solution>)
    requires Correct(before, solve)
    requires Stored(before, after, Missing(PositionsOf(requests), before.Keys), solve)
    requires ScoredFrom(after, requests, scores)
    ensures Correct(after, solve)
    ensures |scores| == |requests|
    ensures forall i :: 0 <= i < |requests| ==>
      solve(requests[i].position).Some?
      && scores[i] == ScorePolicy(solve(requests[i].position).value, requests[i].policy)
  {
    StoredIsCorrect(before, after, Missing(PositionsOf(requests), before.Keys), solve);
  }

  lemma StoredIsCorrect(before: Cache, after: Cache, added: seq<Position>, solve: Position -> Option<Solution>)
    requires Correct(before, solve) && Stored(before, after, added, solve)
    ensures Correct(after, solve)
  {
    forall p | p in after ensures Fetch(after, p).Found? && solve(p) == Some(Fetch(after, p).solution) {
      if p !in before {
        DecodeEncode(solve(p).value);
      } else {
        assert Fetch(before, p).Found?;
      }
    }
  }

  // ----- the cache object -----------------------------------------------------------------------

  class CachingSolver {
    const solve: Position -> Option<Solution>
    var cache: Cache
    /** The positions handed to the external solver, in order. */
    ghost var solved: seq<Position>

    constructor (solve: Position -> Option<Solution>, cache: Cache)
      ensures this.solve == solve && this.cache == cache && solved == []
    {
      this.solve, this.cache, this.solved := solve, cache, [];
    }

    method MissingPositions(requests: seq<Request>) returns (missing: Option<seq<Position>>)
      ensures missing.None? <==> Unreadable(cache, requests)
      ensures missing.Some? ==> missing.value == Missing(PositionsOf(requests), cache.Keys)
    {
      var found: seq<Position> := [];
      var seen: set<Position> := {};
      var positions := PositionsOf(requests);
      for i := 0 to |requests|
        invariant !Unreadable(cache, requests[..i])
        invariant found == Missing(positions[..i], cache.Keys)
        invariant forall p :: p in seen <==> p in found
      {
        assert requests[..i + 1][i] == requests[i];
        assert positions[..i + 1][..i] == positions[..i];
        var position := requests[i].position;
        match Fetch(cache, position) {
          case Corrupt => return None;
          case Found(_) =>
          case Absent =>
            if position !in seen {
              seen := seen + {position};
              found := found + [position];
            }
        }
      }
      assert positions[..|requests|] == positions && requests[..|requests|] == requests;
      missing := Some(found);
    }

    /** One subprocess run: a solution for every position of the chunk, or a failure. */
    method RunSolver(chunk: seq<Position>) returns (solutions: Option<seq<Solution>>)
      modifies this`solved
      ensures solved == old(solved) + chunk
      ensures solutions.None? <==> exists i :: 0 <= i < |chunk| && solve(chunk[i]).None?
      ensures solutions.Some? ==>
        |solutions.value| == |chunk| && forall i :: 0 <= i < |chunk| ==> solve(chunk[i]) == Some(solutions.value[i])
    {
      solved := solved + chunk;
      var found: seq<Solution> := [];
      for i := 0 to |chunk|
        invariant |found| == i && forall k :: 0 <= k < i ==> solve(chunk[k]) == Some(found[k])
      {
        match solve(chunk[i]) {
          case None => return None;
          case Some(solution) => found := found + [solution];
        }
      }
      solutions := Some(found);
    }

    /** The chunked runs: at most 100 positions a run, aligned with the positions. */
    method SolveAll(positions: seq<Position>) returns (solutions: Option<seq<Solution>>)
      modifies this`solved
      ensures solutions.None? <==> AnyFails(positions, solve)
      ensures solutions.Some? ==>
        && solved == old(solved) + positions
        && |solutions.value| == |positions|
        && forall i :: 0 <= i < |positions| ==> solve(positions[i]) == Some(solutions.value[i])
      ensures solutions.None? ==>
        exists n :: 0 <= n <= |positions| && solved == old(solved) + positions[..n]
    {
      var found: seq<Solution> := [];
      var offset := 0;
      while offset < |positions|
        invariant 0 <= offset <= |positions| && |found| == offset
        invariant solved == old(solved) + positions[..offset]
        invariant forall i :: 0 <= i < offset ==> solve(positions[i]) == Some(found[i])
      {
        var end := if offset + CHUNK_SIZE < |positions| then offset + CHUNK_SIZE else |positions|;
        var chunk := RunSolver(positions[offset..end]);
        assert positions[..offset] + positions[offset..end] == positions[..end];
        if chunk.None? {
          return None;
        }
        found := found + chunk.value;
        offset := end;
      }
      assert positions[..offset] == positions;
      solutions := Some(found);
    }

    /** `put_all`: one transaction of insert-if-absent statements. */
    method PutAll(positions: seq<Position>, solutions: seq<Solution>)
      requires |positions| == |solutions|
      requires forall i :: 0 <= i < |positions| ==> solve(positions[i]) == Some(solutions[i])
      modifies this`cache
      ensures Stored(old(cache), cache, positions, solve)
    {
      var table := cache;
      for i := 0 to |positions|
        invariant cache == old(cache)
        invariant Stored(cache, table, positions[..i], solve)
      {
        assert positions[..i + 1] == positions[..i] + [positions[i]];
        var bytes := EncodeSolution(solutions[i]);
        if positions[i] !in table {
          table := table[positions[i] := bytes];
        }
      }
      assert positions[..|positions|] == positions;
      cache := table;
    }

    /**
     `score`. `None` stands for the exceptions: a corrupt record, or a failed external run, after
     which the cache is as before.
     */
    method Score(requests: seq<Request>) returns (scores: Option<seq<real>>)
      modifies this
      ensures scores.None? ==> cache == old(cache)
      ensures scores.None? <==> Unreadable(old(cache), requests) || AnyUncachedFails(requests, old(cache), solve)
      ensures scores.Some? ==>
        && solved == old(solved) + Missing(PositionsOf(requests), old(cache).Keys)
        && Stored(old(cache), cache, Missing(PositionsOf(requests), old(cache).Keys), solve)
        && ScoredFrom(cache, requests, scores.value)
    {
      var positions := PositionsOf(requests);
      var missing := MissingPositions(requests);
      if missing.None? {
        return None;
      }
      MissingOnce(positions, cache.Keys);
      MissingFails(requests, cache, solve);
      var solutions := SolveAll(missing.value);
      if solutions.None? {
        return None;
      }
      PutAll(missing.value, solutions.value);
      forall i | 0 <= i < |requests| ensures Fetch(cache, requests[i].position).Found? {
        FetchStored(old(cache), cache, missing.value, positions, solve, i);
      }
      var found := ReadScores(requests);
      scores := Some(found);
    }

    method ReadScores(requests: seq<Request>) returns (scores: seq<real>)
      requires forall i :: 0 <= i < |requests| ==> Fetch(cache, requests[i].position).Found?
      ensures ScoredFrom(cache, requests, scores)
    {
      scores := [];
      for i := 0 to |requests|
        invariant |scores| == i
        invariant forall k :: 0 <= k < i ==>
          scores[k] == ScorePolicy(Fetch(cache, requests[k].position).solution, requests[k].policy)
      {
        scores := scores + [ScorePolicy(Fetch(cache, requests[i].position).solution, requests[i].policy)];
      }
    }
  }

  predicate AnyFails(positions: seq<Position>, solve: Position -> Option<Solution>) {
    exists i :: 0 <= i < |positions| && solve(positions[i]).None?
  }

  predicate AnyUncachedFails(requests: seq<Request>, cache: Cache, solve: Position -> Option<Solution>) {
    exists i :: 0 <= i < |requests| && requests[i].position !in cache && solve(requests[i].position).None?
  }

  /** A run fails exactly when some uncached requested position does. */
  lemma MissingFails(requests: seq<Request>, cache: Cache, solve: Position -> Option<Solution>)
    ensures AnyFails(Missing(PositionsOf(requests), cache.Keys), solve) <==> AnyUncachedFails(requests, cache, solve)
  {
    var positions := PositionsOf(requests);
    var missing := Missing(positions, cache.Keys);
    MissingOnce(positions, cache.Keys);
    if AnyFails(missing, solve) {
      var i :| 0 <= i < |missing| && solve(missing[i]).None?;
      assert missing[i] in positions;
      var j :| 0 <= j < |positions| && positions[j] == missing[i];
      assert requests[j].position == missing[i];
    }
    if AnyUncachedFails(requests, cache, solve) {
      var i :| 0 <= i < |requests| && requests[i].position !in cache && solve(requests[i].position).None?;
      assert positions[i] == requests[i].position;
      assert positions[i] in missing;
      var j :| 0 <= j < |missing| && missing[j] == positions[i];
      assert solve(missing[j]).None?;
    }
  }

  lemma FetchStored(before: Cache, after: Cache, added: seq<Position>, positions: seq<Position>,
                    solve: Position -> Option<Solution>, i: nat)
    requires i < |positions| && Fetch(before, positions[i]) != Corrupt
    requires Stored(before, after, added, solve)
    requires forall p :: p in added <==> p in positions && p !in before
    ensures Fetch(after, positions[i]).Found?
  {
    if positions[i] !in before {
      assert positions[i] in added;
      DecodeEncode(solve(positions[i]).value);
    }
  }
}
