/**
 The trainer's replay pool of `src/c4a0/training_v2.py`: the shards it samples from and a cache of
 decoded shard files that drops the least recently used. While the pool fits the cache, no file is
 decoded twice between entering and leaving the pool.
 */
module ReplayPools {
  import opened Board

  datatype Pooled = Pooled(id: nat, path: nat)

  /** One entry of the ordered dictionary; the least recently used entry comes first. */
  datatype Entry<T> = Entry(path: nat, value: T)

  /** `decoded` lists the files that were read and decoded. */
  datatype Pool<T> = Pool(shards: seq<Pooled>, cache: seq<Entry<T>>, decoded: seq<nat>)

  // ----- operations on values ---------------------------------------------------------------------

  function Without<T>(cache: seq<Entry<T>>, path: nat): seq<Entry<T>> {
    if cache == [] then []
    else if cache[0].path == path then Without(cache[1..], path)
    else [cache[0]] + Without(cache[1..], path)
  }

  function Trimmed<T>(cache: seq<Entry<T>>, limit: nat): seq<Entry<T>> {
    if |cache| <= limit then cache else cache[|cache| - limit..]
  }

  predicate Cached<T>(cache: seq<Entry<T>>, path: nat) {
    exists i :: 0 <= i < |cache| && cache[i].path == path
  }

  function AddedTo<T>(p: Pool<T>, shard: Pooled): Pool<T> {
    p.(shards := p.shards + [shard])
  }

  function Kept(shards: seq<Pooled>, id: nat): seq<Pooled> {
    if shards == [] then [] else (if shards[0].id == id then [] else [shards[0]]) + Kept(shards[1..], id)
  }

  function Dropped<T>(cache: seq<Entry<T>>, shards: seq<Pooled>, id: nat): seq<Entry<T>>
    decreases |shards|
  {
    if shards == [] then cache
    else Dropped(if shards[0].id == id then Without(cache, shards[0].path) else cache, shards[1..], id)
  }

  function RemovedFrom<T>(p: Pool<T>, id: nat): Pool<T> {
    p.(shards := Kept(p.shards, id), cache := Dropped(p.cache, p.shards, id))
  }

  /** `_load` of a file with this content: it becomes the most recently used entry. */
  function LoadedFrom<T>(p: Pool<T>, limit: nat, path: nat, value: T): Pool<T> {
    p.(cache := Trimmed(Without(p.cache, path) + [Entry(path, value)], limit),
       decoded := if Cached(p.cache, path) then p.decoded else p.decoded + [path])
  }

  // ----- well-formed pools ------------------------------------------------------------------------

  predicate DistinctEntries<T>(cache: seq<Entry<T>>) {
    forall i, j :: 0 <= i < j < |cache| ==> cache[i].path != cache[j].path
  }

  predicate Faithful<T(==)>(read: nat -> Option<T>, cache: seq<Entry<T>>) {
    forall i :: 0 <= i < |cache| ==> read(cache[i].path) == Some(cache[i].value)
  }

  predicate PoolValid<T(==)>(read: nat -> Option<T>, limit: nat, p: Pool<T>) {
    limit > 0 && |p.cache| <= limit && DistinctEntries(p.cache) && Faithful(read, p.cache)
  }

  lemma {:induction false} WithoutMeaning<T(!new)>(cache: seq<Entry<T>>, path: nat)
    ensures forall e :: e in Without(cache, path) <==> e in cache && e.path != path
    ensures !Cached(Without(cache, path), path)
    ensures |Without(cache, path)| <= |cache|
    ensures DistinctEntries(cache) ==> DistinctEntries(Without(cache, path))
    ensures DistinctEntries(cache) && Cached(cache, path) ==> |Without(cache, path)| == |cache| - 1
    ensures !Cached(cache, path) ==> Without(cache, path) == cache
  {
    if cache != [] {
      var rest := Without(cache[1..], path);
      WithoutMeaning(cache[1..], path);
      assert cache == [cache[0]] + cache[1..];
      assert DistinctEntries(cache) ==> DistinctEntries(cache[1..]);
      assert Cached(cache, path) <==> cache[0].path == path || Cached(cache[1..], path) by {
        if Cached(cache[1..], path) {
          var i :| 0 <= i < |cache[1..]| && cache[1..][i].path == path;
          assert cache[i + 1].path == path;
        }
        if Cached(cache, path) && cache[0].path != path {
          var i :| 0 <= i < |cache| && cache[i].path == path;
          assert cache[1..][i - 1].path == path;
        }
      }
      if cache[0].path == path {
        FirstOnly(cache);
      } else {
        HeadDistinct(cache[0], cache[1..], rest);
      }
    }
  }

  lemma FirstOnly<T(!new)>(cache: seq<Entry<T>>)
    requires cache != []
    ensures DistinctEntries(cache) ==> !Cached(cache[1..], cache[0].path)
  {
    if DistinctEntries(cache) {
      forall i | 0 <= i < |cache[1..]| ensures cache[1..][i].path != cache[0].path {
        assert cache[1..][i] == cache[i + 1];
      }
    }
  }

  lemma HeadDistinct<T(!new)>(head: Entry<T>, rest: seq<Entry<T>>, fewer: seq<Entry<T>>)
    requires forall e :: e in fewer ==> e in rest
    ensures DistinctEntries([head] + rest) && DistinctEntries(fewer) ==> DistinctEntries([head] + fewer)
  {
    if DistinctEntries([head] + rest) && DistinctEntries(fewer) {
      FirstOnly([head] + rest);
      assert ([head] + rest)[1..] == rest;
      forall j | 0 <= j < |fewer| ensures fewer[j].path != head.path {
        assert fewer[j] in rest;
      }
    }
  }

  lemma WithoutValid<T(!new)>(read: nat -> Option<T>, cache: seq<Entry<T>>, path: nat)
    requires DistinctEntries(cache) && Faithful(read, cache)
    ensures var kept := Without(cache, path);
            && |kept| <= |cache| && DistinctEntries(kept) && Faithful(read, kept)
            && forall i :: 0 <= i < |kept| ==> kept[i].path != path
  {
    var kept := Without(cache, path);
    WithoutMeaning(cache, path);
    forall i | 0 <= i < |kept| ensures read(kept[i].path) == Some(kept[i].value) && kept[i].path != path {
      assert kept[i] in cache;
    }
  }

  lemma TrimmedValid<T(!new)>(read: nat -> Option<T>, limit: nat, cache: seq<Entry<T>>, last: Entry<T>)
    requires limit > 0 && DistinctEntries(cache) && Faithful(read, cache) && read(last.path) == Some(last.value)
    requires forall i :: 0 <= i < |cache| ==> cache[i].path != last.path
    ensures var r := Trimmed(cache + [last], limit);
            |r| <= limit && DistinctEntries(r) && Faithful(read, r) && Cached(r, last.path)
  {
    var r := Trimmed(cache + [last], limit);
    assert r[|r| - 1] == last;
  }

  lemma LoadValid<T(!new)>(read: nat -> Option<T>, limit: nat, p: Pool<T>, path: nat)
    requires PoolValid(read, limit, p) && read(path).Some?
    ensures PoolValid(read, limit, LoadedFrom(p, limit, path, read(path).value))
    ensures Cached(LoadedFrom(p, limit, path, read(path).value).cache, path)
  {
    WithoutValid(read, p.cache, path);
    TrimmedValid(read, limit, Without(p.cache, path), Entry(path, read(path).value));
  }

  lemma HitIs<T(!new)>(read: nat -> Option<T>, limit: nat, p: Pool<T>, path: nat, value: T)
    requires PoolValid(read, limit, p) && Cached(p.cache, path)
    ensures LoadedFrom(p, limit, path, value) == p.(cache := Without(p.cache, path) + [Entry(path, value)])
  {
    WithoutMeaning(p.cache, path);
  }

  lemma MissIs<T(!new)>(limit: nat, p: Pool<T>, path: nat, value: T)
    requires !Cached(p.cache, path)
    ensures LoadedFrom(p, limit, path, value)
         == p.(cache := Trimmed(p.cache + [Entry(path, value)], limit), decoded := p.decoded + [path])
  {
    WithoutMeaning(p.cache, path);
  }

  lemma {:induction false} DropValid<T(!new)>(read: nat -> Option<T>, limit: nat, cache: seq<Entry<T>>,
                                              shards: seq<Pooled>, id: nat)
    requires |cache| <= limit && DistinctEntries(cache) && Faithful(read, cache)
    ensures var r := Dropped(cache, shards, id); |r| <= limit && DistinctEntries(r) && Faithful(read, r)
    decreases |shards|
  {
    if shards != [] {
      var next := if shards[0].id == id then Without(cache, shards[0].path) else cache;
      WithoutValid(read, cache, shards[0].path);
      DropValid(read, limit, next, shards[1..], id);
    }
  }

  // ----- the object -------------------------------------------------------------------------------

  class ReplayPool<T(==, !new)> {
    const read: nat -> Option<T>
    const limit: nat
    var shards: seq<Pooled>
    var cache: seq<Entry<T>>
    var decoded: seq<nat>

    function State(): Pool<T>
      reads this
    {
      Pool(shards, cache, decoded)
    }

    predicate Valid()
      reads this
    {
      PoolValid(read, limit, State())
    }

    constructor (read: nat -> Option<T>, limit: nat, shards: seq<Pooled>)
      requires limit > 0
      ensures Valid() && State() == Pool(shards, [], []) && this.read == read && this.limit == limit
    {
      this.read, this.limit, this.shards := read, limit, shards;
      cache, decoded := [], [];
    }

    method Add(shard: Pooled)
      requires Valid()
      modifies this`shards
      ensures Valid() && State() == AddedTo(old(State()), shard)
    {
      shards := shards + [shard];
    }

    /** Takes the shards with this id out of the list, and their files out of the cache. */
    method Remove(id: nat)
      requires Valid()
      modifies this`shards, this`cache
      ensures Valid() && State() == RemovedFrom(old(State()), id)
    {
      DropValid(read, limit, cache, shards, id);
      var keep: seq<Pooled> := [];
      var i := 0;
      while i < |shards|
        invariant 0 <= i <= |shards| && shards == old(shards)
        invariant keep + Kept(shards[i..], id) == Kept(shards, id)
        invariant Dropped(cache, shards[i..], id) == Dropped(old(cache), shards, id)
      {
        assert shards[i..][1..] == shards[i + 1..];
        if shards[i].id == id {
          cache := Without(cache, shards[i].path);
        } else {
          keep := keep + [shards[i]];
        }
        i := i + 1;
      }
      assert shards[i..] == [];
      shards := keep;
    }

    method Lookup(path: nat) returns (at: Option<nat>)
      ensures at.None? <==> !Cached(cache, path)
      ensures at.Some? ==> at.value < |cache| && cache[at.value].path == path
    {
      for i := 0 to |cache|
        invariant forall k :: 0 <= k < i ==> cache[k].path != path
      {
        if cache[i].path == path {
          return Some(i);
        }
      }
      at := None;
    }

    /** The least recently used entries go while there are too many. */
    method Evict()
      modifies this`cache
      ensures cache == Trimmed(old(cache), limit)
    {
      while |cache| > limit
        invariant Trimmed(cache, limit) == Trimmed(old(cache), limit)
      {
        cache := cache[1..];
      }
    }

    /** The cached value, or the decoded file, as the most recently used entry. */
    method Load(path: nat) returns (value: Option<T>)
      requires Valid()
      modifies this`cache, this`decoded
      ensures Valid() && value == read(path)
      ensures State() == match value case None => old(State()) case Some(x) => LoadedFrom(old(State()), limit, path, x)
    {
      var at := Lookup(path);
      if at.Some? {
        value := Some(cache[at.value].value);
        LoadValid(read, limit, State(), path);
        HitIs(read, limit, State(), path, value.value);
        cache := Without(cache, path) + [Entry(path, value.value)];
      } else {
        value := read(path);
        if value.Some? {
          LoadValid(read, limit, State(), path);
          MissIs(limit, State(), path, value.value);
          cache := cache + [Entry(path, value.value)];
          decoded := decoded + [path];
          Evict();
        }
      }
    }
  }

  // ----- no file is decoded twice -------------------------------------------------------------------

  datatype Op = AddOp(shard: Pooled) | RemoveOp(id: nat) | LoadOp(path: nat)

  predicate Holds(shards: seq<Pooled>, path: nat) {
    exists i :: 0 <= i < |shards| && shards[i].path == path
  }

  /** A new shard has a file of its own, and only files of pooled shards are loaded. */
  predicate Permitted<T>(read: nat -> Option<T>, p: Pool<T>, op: Op) {
    match op
    case AddOp(shard) => !Holds(p.shards, shard.path)
    case RemoveOp(_) => true
    case LoadOp(path) => Holds(p.shards, path) && read(path).Some?
  }

  function Step<T>(read: nat -> Option<T>, limit: nat, p: Pool<T>, op: Op): Pool<T>
    requires Permitted(read, p, op)
  {
    match op
    case AddOp(shard) => AddedTo(p, shard)
    case RemoveOp(id) => RemovedFrom(p, id)
    case LoadOp(path) => LoadedFrom(p, limit, path, read(path).value)
  }

  /** The pool after the operations, or `None` when one was not permitted or overfilled the pool. */
  function Run<T>(read: nat -> Option<T>, limit: nat, p: Pool<T>, ops: seq<Op>): Option<Pool<T>>
    decreases |ops|
  {
    if |p.shards| > limit then None
    else if ops == [] then Some(p)
    else if !Permitted(read, p, ops[0]) then None
    else Run(read, limit, Step(read, limit, p, ops[0]), ops[1..])
  }

  function Decodings(decoded: seq<nat>, path: nat): nat {
    multiset(decoded)[path]
  }

  /** How often a shard with this file entered the pool. */
  function Entered(ops: seq<Op>, path: nat): nat {
    if ops == [] then 0
    else (if ops[0].AddOp? && ops[0].shard.path == path then 1 else 0) + Entered(ops[1..], path)
  }

  predicate DistinctPaths(shards: seq<Pooled>) {
    forall i, j :: 0 <= i < j < |shards| ==> shards[i].path != shards[j].path
  }

  /** Only files of pooled shards are cached. */
  ghost predicate Tidy<T>(p: Pool<T>) {
    && DistinctPaths(p.shards) && DistinctEntries(p.cache)
    && forall path: nat :: Cached(p.cache, path) ==> Holds(p.shards, path)
  }

  /** The decodings still to come before `path` leaves the pool. */
  function Owed<T>(p: Pool<T>, path: nat): nat {
    if Holds(p.shards, path) && !Cached(p.cache, path) then 1 else 0
  }

  lemma {:induction false} KeptMeaning(shards: seq<Pooled>, id: nat)
    ensures forall s :: s in Kept(shards, id) <==> s in shards && s.id != id
    ensures |Kept(shards, id)| <= |shards|
    ensures DistinctPaths(shards) ==> DistinctPaths(Kept(shards, id))
  {
    if shards != [] {
      var rest := Kept(shards[1..], id);
      KeptMeaning(shards[1..], id);
      assert shards == [shards[0]] + shards[1..];
      assert DistinctPaths(shards) ==> DistinctPaths(shards[1..]);
      if DistinctPaths(shards) {
        forall j | 0 <= j < |rest| ensures rest[j].path != shards[0].path {
          assert rest[j] in shards[1..];
          var k :| 0 <= k < |shards[1..]| && shards[1..][k] == rest[j];
          assert shards[k + 1] == rest[j];
        }
      }
    }
  }

  lemma {:induction false} DroppedMeaning<T(!new)>(cache: seq<Entry<T>>, shards: seq<Pooled>, id: nat, e: Entry<T>)
    ensures e in Dropped(cache, shards, id)
       <==> e in cache && forall i :: 0 <= i < |shards| && shards[i].id == id ==> shards[i].path != e.path
    decreases |shards|
  {
    if shards != [] {
      var next := if shards[0].id == id then Without(cache, shards[0].path) else cache;
      WithoutMeaning(cache, shards[0].path);
      DroppedMeaning(next, shards[1..], id, e);
      assert (forall i :: 0 <= i < |shards| && shards[i].id == id ==> shards[i].path != e.path)
        <==> (shards[0].id == id ==> shards[0].path != e.path)
             && forall i :: 0 <= i < |shards[1..]| && shards[1..][i].id == id ==> shards[1..][i].path != e.path by {
        assert forall i :: 0 < i < |shards| ==> shards[i] == shards[1..][i - 1];
      }
    }
  }

  lemma CachedIn<T(!new)>(cache: seq<Entry<T>>, path: nat)
    ensures Cached(cache, path) <==> exists e :: e in cache && e.path == path
  {
  }

  lemma HoldsIn(shards: seq<Pooled>, path: nat)
    ensures Holds(shards, path) <==> exists s :: s in shards && s.path == path
  {
  }

  lemma SamePath(shards: seq<Pooled>, a: Pooled, b: Pooled)
    requires DistinctPaths(shards) && a in shards && b in shards && a.path == b.path
    ensures a == b
  {
  }

  lemma RemoveCached<T(!new)>(p: Pool<T>, id: nat, path: nat)
    requires Tidy(p)
    ensures Cached(RemovedFrom(p, id).cache, path) <==> Cached(p.cache, path) && Holds(RemovedFrom(p, id).shards, path)
  {
    var r := RemovedFrom(p, id);
    KeptMeaning(p.shards, id);
    HoldsIn(r.shards, path);
    HoldsIn(p.shards, path);
    if Cached(r.cache, path) {
      var e :| e in r.cache && e.path == path;
      DroppedMeaning(p.cache, p.shards, id, e);
      assert Cached(p.cache, path);
      var s :| s in p.shards && s.path == path;
      assert s in r.shards;
    }
    if Cached(p.cache, path) && Holds(r.shards, path) {
      var e :| e in p.cache && e.path == path;
      var s :| s in r.shards && s.path == path;
      forall i | 0 <= i < |p.shards| && p.shards[i].id == id ensures p.shards[i].path != e.path {
        assert p.shards[i] != s;
        if p.shards[i].path == path {
          SamePath(p.shards, p.shards[i], s);
        }
      }
      DroppedMeaning(p.cache, p.shards, id, e);
    }
  }

  function CachePaths<T>(cache: seq<Entry<T>>): set<nat> {
    set i | 0 <= i < |cache| :: cache[i].path
  }

  function ShardPaths(shards: seq<Pooled>): set<nat> {
    set i | 0 <= i < |shards| :: shards[i].path
  }

  lemma {:induction false} CachePathCount<T(!new)>(cache: seq<Entry<T>>)
    requires DistinctEntries(cache)
    ensures |CachePaths(cache)| == |cache|
  {
    if cache == [] {
      assert CachePaths(cache) == {};
    } else {
      var n := |cache| - 1;
      CachePathCount(cache[..n]);
      assert CachePaths(cache) == CachePaths(cache[..n]) + {cache[n].path};
    }
  }

  lemma {:induction false} ShardPathCount(shards: seq<Pooled>)
    ensures |ShardPaths(shards)| <= |shards|
  {
    if shards == [] {
      assert ShardPaths(shards) == {};
    } else {
      var n := |shards| - 1;
      ShardPathCount(shards[..n]);
      assert ShardPaths(shards) == ShardPaths(shards[..n]) + {shards[n].path};
    }
  }

  lemma SubsetCount(a: set<nat>, b: set<nat>)
    requires a <= b
    ensures |a| <= |b|
  {
    var rest := b - a;
    assert b == a + rest;
  }

  /** A miss on a pooled file leaves room in the cache. */
  lemma RoomForMiss<T(!new)>(p: Pool<T>, limit: nat, path: nat)
    requires Tidy(p) && |p.shards| <= limit && Holds(p.shards, path) && !Cached(p.cache, path)
    ensures |p.cache| < limit
  {
    CachePathCount(p.cache);
    ShardPathCount(p.shards);
    var i :| 0 <= i < |p.shards| && p.shards[i].path == path;
    assert path in ShardPaths(p.shards) && path !in CachePaths(p.cache);
    forall q | q in CachePaths(p.cache) ensures q in ShardPaths(p.shards) {
      assert Cached(p.cache, q);
      assert Holds(p.shards, q);
    }
    SubsetCount(CachePaths(p.cache) + {path}, ShardPaths(p.shards));
  }

  lemma LoadCached<T(!new)>(p: Pool<T>, limit: nat, path: nat, value: T, q: nat)
    requires Tidy(p) && |p.cache| <= limit && |p.shards| <= limit && Holds(p.shards, path)
    ensures Cached(LoadedFrom(p, limit, path, value).cache, q) <==> Cached(p.cache, q) || q == path
  {
    var kept := Without(p.cache, path);
    var longer := kept + [Entry(path, value)];
    WithoutMeaning(p.cache, path);
    if !Cached(p.cache, path) {
      RoomForMiss(p, limit, path);
    }
    assert LoadedFrom(p, limit, path, value).cache == longer;
    CachedIn(longer, q);
    CachedIn(p.cache, q);
    assert longer[|kept|].path == path;
    if Cached(p.cache, q) && q != path {
      var e :| e in p.cache && e.path == q;
      assert e in kept && e in longer;
    }
  }

  lemma {:induction false} StepTidy<T(!new)>(read: nat -> Option<T>, limit: nat, p: Pool<T>, op: Op)
    requires PoolValid(read, limit, p) && Tidy(p) && |p.shards| <= limit && Permitted(read, p, op)
    ensures PoolValid(read, limit, Step(read, limit, p, op)) && Tidy(Step(read, limit, p, op))
  {
    var r := Step(read, limit, p, op);
    match op {
      case AddOp(shard) =>
        forall path: nat | Cached(p.cache, path) ensures Holds(r.shards, path) {
          var i :| 0 <= i < |p.shards| && p.shards[i].path == path;
          assert r.shards[i].path == path;
        }
      case RemoveOp(id) =>
        KeptMeaning(p.shards, id);
        DropValid(read, limit, p.cache, p.shards, id);
        forall path: nat | Cached(r.cache, path) ensures Holds(r.shards, path) {
          RemoveCached(p, id, path);
        }
      case LoadOp(path) =>
        LoadValid(read, limit, p, path);
        forall q: nat | Cached(r.cache, q) ensures Holds(r.shards, q) {
          LoadCached(p, limit, path, read(path).value, q);
        }
    }
  }

  lemma StepOwed<T(!new)>(read: nat -> Option<T>, limit: nat, p: Pool<T>, op: Op, path: nat)
    requires PoolValid(read, limit, p) && Tidy(p) && |p.shards| <= limit && Permitted(read, p, op)
    ensures var r := Step(read, limit, p, op);
            Decodings(r.decoded, path) + Owed(r, path)
            <= Decodings(p.decoded, path) + Owed(p, path) + Entered([op], path)
  {
    var r := Step(read, limit, p, op);
    assert [op][1..] == [];
    match op {
      case AddOp(shard) =>
        if Holds(r.shards, path) && path != shard.path {
          var i :| 0 <= i < |r.shards| && r.shards[i].path == path;
          assert p.shards[i].path == path;
        }
      case RemoveOp(id) =>
        RemoveCached(p, id, path);
        KeptMeaning(p.shards, id);
        HoldsIn(r.shards, path);
        HoldsIn(p.shards, path);
      case LoadOp(q) =>
        LoadCached(p, limit, q, read(q).value, path);
    }
  }

  lemma EnteredHead(ops: seq<Op>, path: nat)
    requires ops != []
    ensures Entered(ops, path) == Entered([ops[0]], path) + Entered(ops[1..], path)
  {
    assert [ops[0]][1..] == [];
  }

  lemma {:induction false} RunOwed<T(!new)>(read: nat -> Option<T>, limit: nat, p: Pool<T>, ops: seq<Op>, path: nat)
    requires PoolValid(read, limit, p) && Tidy(p) && Run(read, limit, p, ops).Some?
    ensures var r := Run(read, limit, p, ops).value;
            Decodings(r.decoded, path) + Owed(r, path)
            <= Decodings(p.decoded, path) + Owed(p, path) + Entered(ops, path)
    decreases |ops|
  {
    if ops != [] {
      StepTidy(read, limit, p, ops[0]);
      StepOwed(read, limit, p, ops[0], path);
      EnteredHead(ops, path);
      RunOwed(read, limit, Step(read, limit, p, ops[0]), ops[1..], path);
    }
  }

  /**
   While the pool never exceeds the cache limit, a shard file is decoded at most once for each time its
   shard enters the pool, whatever order the files are sampled in.
   */
  lemma DecodedOnce<T(!new)>(read: nat -> Option<T>, limit: nat, shards: seq<Pooled>, ops: seq<Op>, path: nat)
    requires limit > 0 && DistinctPaths(shards) && Run(read, limit, Pool(shards, [], []), ops).Some?
    ensures Decodings(Run(read, limit, Pool(shards, [], []), ops).value.decoded, path)
         <= (if Holds(shards, path) then 1 else 0) + Entered(ops, path)
  {
    RunOwed(read, limit, Pool(shards, [], []), ops, path);
  }
}
