/**
 The sharded cache of folded inodes (server/src/cache.rs): sixteen least-recently-used shards that
 together never hold a value an unbounded map would not hold.
 */
module InodeCache {
  import opened Types
  import opened Wrappers
  import opened DeltaFold

  const NUM_SHARDS := 16

  datatype Item = Item(ino: Ino, value: InodeValue)

  /** One shard, most recently used first. */
  type Shard = seq<Item>

  /** Fibonacci hashing: the top four bits of the wrapped product. */
  function ShardIndex(i: Ino): (s: nat)
    ensures s < NUM_SHARDS
  {
    i * 0x9E37_79B9_7F4A_7C15 % TWO64 / 0x1000_0000_0000_0000
  }

  // ------------------------------------------------------------------ one shard

  function Find(shard: Shard, i: Ino): Option<InodeValue> {
    if shard == [] then None
    else if shard[0].ino == i then Some(shard[0].value)
    else Find(shard[1..], i)
  }

  function Without(shard: Shard, i: Ino): (rest: Shard)
    ensures |rest| <= |shard|
  {
    if shard == [] then []
    else if shard[0].ino == i then Without(shard[1..], i)
    else [shard[0]] + Without(shard[1..], i)
  }

  /** Use or replace an entry; a new one pushes the least recently used out of a full shard. */
  function Used(shard: Shard, cap: nat, i: Ino, v: InodeValue): Shard {
    var rest := Without(shard, i);
    [Item(i, v)] + (if Find(shard, i).None? && 0 < cap <= |rest| then rest[..cap - 1] else rest)
  }

  lemma {:induction false} FindWithout(shard: Shard, i: Ino, j: Ino)
    ensures Find(Without(shard, i), j) == if j == i then None else Find(shard, j)
    ensures Find(shard, i).Some? ==> |Without(shard, i)| < |shard|
  {
    if shard != [] {
      FindWithout(shard[1..], i, j);
      if shard[0].ino != i {
        assert ([shard[0]] + Without(shard[1..], i))[1..] == Without(shard[1..], i);
      }
    }
  }

  /** What a shorter shard still holds, the longer one held too. */
  lemma {:induction false} FindPrefix(shard: Shard, n: nat, j: Ino)
    requires n <= |shard|
    ensures Find(shard[..n], j).Some? ==> Find(shard[..n], j) == Find(shard, j)
  {
    if n > 0 {
      assert shard[..n][1..] == shard[1..][..n - 1];
      FindPrefix(shard[1..], n - 1, j);
    }
  }

  lemma {:induction false} WithoutMembers(shard: Shard, i: Ino)
    ensures forall item :: item in Without(shard, i) <==> item in shard && item.ino != i
  {
    if shard != [] {
      WithoutMembers(shard[1..], i);
      assert shard == [shard[0]] + shard[1..];
    }
  }

  /** Using an entry puts it in front; others keep their values or are dropped. */
  lemma UsedFinds(shard: Shard, cap: nat, i: Ino, v: InodeValue, j: Ino)
    ensures Find(Used(shard, cap, i, v), i) == Some(v)
    ensures j != i && Find(Used(shard, cap, i, v), j).Some? ==> Find(Used(shard, cap, i, v), j) == Find(shard, j)
    ensures j != i && (Find(shard, i).Some? || |Without(shard, i)| < cap) ==>
            Find(Used(shard, cap, i, v), j) == Find(shard, j)
  {
    var rest := Without(shard, i);
    var kept := if Find(shard, i).None? && 0 < cap <= |rest| then rest[..cap - 1] else rest;
    assert ([Item(i, v)] + kept)[1..] == kept;
    FindWithout(shard, i, j);
    if Find(shard, i).None? && 0 < cap <= |rest| {
      FindPrefix(rest, cap - 1, j);
    }
  }

  lemma UsedSize(shard: Shard, cap: nat, i: Ino, v: InodeValue)
    requires 0 < cap && |shard| <= cap
    ensures |Used(shard, cap, i, v)| <= cap
  {
    FindWithout(shard, i, i);
  }

  // ------------------------------------------------------------------ all shards

  datatype Cache = Cache(shards: seq<Shard>, cap: nat)

  datatype CacheOp =
    | Get(i: Ino)
    | PutValue(i: Ino, v: InodeValue)
    | ApplyDeltas(i: Ino, ops: seq<DeltaOp>)
    | Invalidate(i: Ino)

  predicate WellSized(c: Cache) {
    && |c.shards| == NUM_SHARDS && 0 < c.cap
    && forall s :: 0 <= s < NUM_SHARDS ==> |c.shards[s]| <= c.cap
  }

  /** Every inode lives in its own shard. */
  predicate Homed(c: Cache)
    requires |c.shards| == NUM_SHARDS
  {
    forall s, item :: 0 <= s < NUM_SHARDS && item in c.shards[s] ==> ShardIndex(item.ino) == s
  }

  function Lookup(c: Cache, i: Ino): Option<InodeValue>
    requires |c.shards| == NUM_SHARDS
  {
    Find(c.shards[ShardIndex(i)], i)
  }

  function ShardAfter(shard: Shard, cap: nat, op: CacheOp): Shard {
    match op
    case Get(i) => if Find(shard, i).Some? then Used(shard, cap, i, Find(shard, i).value) else shard
    case PutValue(i, v) => Used(shard, cap, i, v)
    case ApplyDeltas(i, ops) =>
      if Find(shard, i).Some? then Used(shard, cap, i, Fold(Find(shard, i).value, ops)) else shard
    case Invalidate(i) => Without(shard, i)
  }

  function Do(c: Cache, op: CacheOp): Cache
    requires |c.shards| == NUM_SHARDS
  {
    var s := ShardIndex(op.i);
    c.(shards := c.shards[s := ShardAfter(c.shards[s], c.cap, op)])
  }

  function NewCache(capacity: nat): Cache {
    Cache(seq(NUM_SHARDS, _ => []), Max(capacity / NUM_SHARDS, 1))
  }

  /** The same operation on a map without bound. */
  function OnMap(m: map<Ino, InodeValue>, op: CacheOp): map<Ino, InodeValue> {
    match op
    case Get(_) => m
    case PutValue(i, v) => m[i := v]
    case ApplyDeltas(i, ops) => if i in m then m[i := Fold(m[i], ops)] else m
    case Invalidate(i) => m - {i}
  }

  /** A hit returns what the map holds. */
  ghost predicate HitsAgree(c: Cache, m: map<Ino, InodeValue>)
    requires |c.shards| == NUM_SHARDS
  {
    forall i: Ino :: Lookup(c, i).Some? ==> i in m && Lookup(c, i).value == m[i]
  }

  lemma StepKeepsSize(c: Cache, op: CacheOp)
    requires WellSized(c)
    ensures WellSized(Do(c, op))
  {
    hide Used, Without, Find, ShardIndex;
    var shard := c.shards[ShardIndex(op.i)];
    forall i, v ensures |Used(shard, c.cap, i, v)| <= c.cap {
      UsedSize(shard, c.cap, i, v);
    }
  }

  lemma StepKeepsHomes(c: Cache, op: CacheOp)
    requires WellSized(c) && Homed(c)
    ensures WellSized(Do(c, op)) && Homed(Do(c, op))
  {
    hide ShardIndex, Find;
    StepKeepsSize(c, op);
    WithoutMembers(c.shards[ShardIndex(op.i)], op.i);
  }

  lemma StepKeepsHits(c: Cache, m: map<Ino, InodeValue>, op: CacheOp)
    requires WellSized(c) && HitsAgree(c, m)
    ensures HitsAgree(Do(c, op), OnMap(m, op))
  {
    hide Used, Without, Find, ShardIndex, Fold;
    var c', m' := Do(c, op), OnMap(m, op);
    var s := ShardIndex(op.i);
    var shard := c.shards[s];
    assert Lookup(c, op.i).Some? ==> op.i in m && Lookup(c, op.i).value == m[op.i];
    forall i: Ino | Lookup(c', i).Some? ensures i in m' && Lookup(c', i).value == m'[i] {
      assert Lookup(c, i).Some? ==> i in m && Lookup(c, i).value == m[i];
      if ShardIndex(i) == s {
        FindWithout(shard, op.i, i);
        var v := match op
          case Get(j) => if Find(shard, j).Some? then Find(shard, j) else None
          case PutValue(_, v) => Some(v)
          case ApplyDeltas(j, ops) => if Find(shard, j).Some? then Some(Fold(Find(shard, j).value, ops)) else None
          case Invalidate(_) => None;
        if v.Some? {
          UsedFinds(shard, c.cap, op.i, v.value, i);
        }
      }
    }
  }

  function Total(shards: seq<Shard>): nat {
    if shards == [] then 0 else Total(shards[..|shards| - 1]) + |shards[|shards| - 1]|
  }

  lemma {:induction false} TotalBound(shards: seq<Shard>, cap: nat)
    requires forall s :: 0 <= s < |shards| ==> |shards[s]| <= cap
    ensures Total(shards) <= |shards| * cap
  {
    if shards != [] {
      TotalBound(shards[..|shards| - 1], cap);
    }
  }

  function DoAll(c: Cache, ops: seq<CacheOp>): (r: Cache)
    requires |c.shards| == NUM_SHARDS
    ensures |r.shards| == NUM_SHARDS && r.cap == c.cap
  {
    if ops == [] then c else Do(DoAll(c, ops[..|ops| - 1]), ops[|ops| - 1])
  }

  function OnMapAll(ops: seq<CacheOp>): map<Ino, InodeValue> {
    if ops == [] then map[] else OnMap(OnMapAll(ops[..|ops| - 1]), ops[|ops| - 1])
  }

  /**
   After any operations on a new cache: a hit is what an unbounded map would answer, every inode
   is in its own shard, and the number of entries is bounded by the capacity.
   */
  lemma {:induction false} CacheRefinesMap(capacity: nat, ops: seq<CacheOp>)
    ensures var c := DoAll(NewCache(capacity), ops);
            && WellSized(c) && Homed(c)
            && HitsAgree(c, OnMapAll(ops))
            && Total(c.shards) <= NUM_SHARDS * Max(1, capacity / NUM_SHARDS)
  {
    hide Do, OnMap, Homed, HitsAgree, Total;
    var z := NewCache(capacity);
    if ops == [] {
      EmptyCache(capacity);
    } else {
      var front, last := ops[..|ops| - 1], ops[|ops| - 1];
      CacheRefinesMap(capacity, front);
      StepKeepsHomes(DoAll(z, front), last);
      StepKeepsHits(DoAll(z, front), OnMapAll(front), last);
    }
    TotalBound(DoAll(z, ops).shards, z.cap);
  }

  lemma EmptyCache(capacity: nat)
    ensures WellSized(NewCache(capacity)) && Homed(NewCache(capacity)) && HitsAgree(NewCache(capacity), map[])
  {
  }

  // ------------------------------------------------------------------ recency

  /** No inode is twice in a shard. */
  predicate Distinct(shard: Shard) {
    forall j, l :: 0 <= j < l < |shard| ==> shard[j].ino != shard[l].ino
  }

  /** The inodes used more recently than `i`. */
  function Ahead(shard: Shard, i: Ino): set<Ino> {
    if shard == [] || shard[0].ino == i then {} else {shard[0].ino} + Ahead(shard[1..], i)
  }

  lemma {:induction false} WithoutDistinct(shard: Shard, i: Ino)
    requires Distinct(shard)
    ensures Distinct(Without(shard, i))
  {
    if shard != [] {
      WithoutDistinct(shard[1..], i);
      WithoutMembers(shard[1..], i);
      assert forall item :: item in shard[1..] ==> item.ino != shard[0].ino;
    }
  }

  lemma UsedDistinct(shard: Shard, cap: nat, i: Ino, v: InodeValue)
    requires Distinct(shard)
    ensures Distinct(Used(shard, cap, i, v))
  {
    WithoutDistinct(shard, i);
    WithoutMembers(shard, i);
    var rest := Without(shard, i);
    assert forall j :: 0 <= j < |rest| ==> rest[j] in rest;
  }

  lemma {:induction false} AheadWithout(shard: Shard, i: Ino, j: Ino)
    requires i != j
    ensures Ahead(Without(shard, j), i) <= Ahead(shard, i)
  {
    if shard != [] && shard[0].ino != i {
      AheadWithout(shard[1..], i, j);
      if shard[0].ino != j {
        assert ([shard[0]] + Without(shard[1..], j))[1..] == Without(shard[1..], j);
      }
    }
  }

  /** Cutting a shard off loses only entries with too many inodes ahead of them. */
  lemma {:induction false} CutKeeps(shard: Shard, n: nat, i: Ino)
    requires Distinct(shard) && n <= |shard| && Find(shard, i).Some? && |Ahead(shard, i)| < n
    ensures Find(shard[..n], i) == Find(shard, i) && Ahead(shard[..n], i) == Ahead(shard, i)
  {
    if shard[0].ino != i {
      var a := Ahead(shard[1..], i);
      assert shard[0].ino !in a by {
        AheadMembers(shard[1..], i);
        assert forall item :: item in shard[1..] ==> item.ino != shard[0].ino;
      }
      assert Ahead(shard, i) - {shard[0].ino} == a;
      assert shard[..n][1..] == shard[1..][..n - 1];
      CutKeeps(shard[1..], n - 1, i);
    }
  }

  lemma {:induction false} AheadMembers(shard: Shard, i: Ino)
    ensures forall j :: j in Ahead(shard, i) ==> exists item :: item in shard && item.ino == j
  {
    if shard != [] && shard[0].ino != i {
      AheadMembers(shard[1..], i);
      assert shard[0] in shard && forall item :: item in shard[1..] ==> item in shard;
    }
  }

  /** Using another inode puts one inode ahead of `i`, and evicts `i` only when the shard's worth is ahead of it. */
  lemma UsedKeeps(shard: Shard, cap: nat, j: Ino, v: InodeValue, i: Ino, users: set<Ino>)
    requires Distinct(shard) && Find(shard, i).Some? && i != j
    requires Ahead(shard, i) <= users && j in users && |users| < cap
    ensures Find(Used(shard, cap, j, v), i).Some? && Ahead(Used(shard, cap, j, v), i) <= users
  {
    var rest := Without(shard, j);
    FindWithout(shard, j, i);
    AheadWithout(shard, i, j);
    WithoutDistinct(shard, j);
    var kept := if Find(shard, j).None? && 0 < cap <= |rest| then rest[..cap - 1] else rest;
    if Find(shard, j).None? && cap <= |rest| {
      assert j !in Ahead(rest, i) by {
        AheadMembers(rest, i);
        WithoutMembers(shard, j);
      }
      assert Ahead(rest, i) <= users - {j};
      Smaller(Ahead(rest, i), users - {j});
      CutKeeps(rest, cap - 1, i);
    }
    assert ([Item(j, v)] + kept)[1..] == kept;
  }

  lemma {:induction false} Smaller(a: set<Ino>, b: set<Ino>)
    requires a <= b
    ensures |a| <= |b|
  {
    if a != {} {
      var x :| x in a;
      Smaller(a - {x}, b - {x});
    }
  }

  /** The other inodes of the same shard that the operations use. */
  function Users(ops: seq<CacheOp>, i: Ino): set<Ino> {
    set op | op in ops && op.i != i && ShardIndex(op.i) == ShardIndex(i) :: op.i
  }

  ghost predicate Tidy(c: Cache) {
    |c.shards| == NUM_SHARDS && forall s :: 0 <= s < NUM_SHARDS ==> Distinct(c.shards[s])
  }

  lemma StepKeepsTidy(c: Cache, op: CacheOp)
    requires Tidy(c)
    ensures Tidy(Do(c, op))
  {
    hide Used, Without, Find, ShardIndex, Distinct, Fold;
    var shard := c.shards[ShardIndex(op.i)];
    assert Distinct(shard);
    WithoutDistinct(shard, op.i);
    forall v ensures Distinct(Used(shard, c.cap, op.i, v)) {
      UsedDistinct(shard, c.cap, op.i, v);
    }
  }

  /** One operation on the shard of `i`, seen from `i`. */
  lemma ShardKeeps(shard: Shard, cap: nat, op: CacheOp, i: Ino, users: set<Ino>)
    requires Distinct(shard) && Find(shard, i).Some? && Ahead(shard, i) <= users
    requires op.i != i ==> op.i in users && |users| < cap
    requires op != Invalidate(i)
    ensures Find(ShardAfter(shard, cap, op), i).Some? && Ahead(ShardAfter(shard, cap, op), i) <= users
  {
    hide Without, Distinct, Fold;
    if op.i == i {
      forall v ensures Find(Used(shard, cap, i, v), i) == Some(v) && Ahead(Used(shard, cap, i, v), i) == {} {
        UsedFinds(shard, cap, i, v, i);
      }
    } else {
      FindWithout(shard, op.i, i);
      AheadWithout(shard, i, op.i);
      forall v ensures Find(Used(shard, cap, op.i, v), i).Some? && Ahead(Used(shard, cap, op.i, v), i) <= users {
        UsedKeeps(shard, cap, op.i, v, i, users);
      }
    }
  }

  /**
   Eviction is least recently used: an inode that was just put survives any operations that use
   fewer than the shard's capacity of other inodes of its shard and do not invalidate it.
   */
  lemma {:induction false} RecentlyUsedStays(c: Cache, i: Ino, v: InodeValue, ops: seq<CacheOp>)
    requires Tidy(c) && 0 < c.cap
    requires |Users(ops, i)| < c.cap && (forall op :: op in ops ==> op != Invalidate(i))
    ensures var c' := DoAll(Do(c, PutValue(i, v)), ops);
            Tidy(c') && Lookup(c', i).Some? && Ahead(c'.shards[ShardIndex(i)], i) <= Users(ops, i)
  {
    hide Ahead, Find, Used, ShardIndex, ShardAfter, Distinct;
    var z := Do(c, PutValue(i, v));
    if ops == [] {
      StepKeepsTidy(c, PutValue(i, v));
      JustPut(c.shards[ShardIndex(i)], c.cap, i, v);
    } else {
      var front, last := ops[..|ops| - 1], ops[|ops| - 1];
      assert last in ops && forall op :: op in front ==> op in ops;
      Smaller(Users(front, i), Users(ops, i));
      RecentlyUsedStays(c, i, v, front);
      var m := DoAll(z, front);
      StepKeepsTidy(m, last);
      if ShardIndex(last.i) == ShardIndex(i) {
        assert last.i != i ==> last.i in Users(ops, i);
        ShardKeeps(m.shards[ShardIndex(i)], m.cap, last, i, Users(ops, i));
      }
    }
  }

  lemma JustPut(shard: Shard, cap: nat, i: Ino, v: InodeValue)
    ensures Find(ShardAfter(shard, cap, PutValue(i, v)), i).Some? &&
            Ahead(ShardAfter(shard, cap, PutValue(i, v)), i) == {}
  {
    UsedFinds(shard, cap, i, v, i);
  }

  // ------------------------------------------------------------------ the cache object

  class InodeFoldedCache {
    const perShard: nat
    var shards: seq<Shard>

    ghost predicate Valid()
      reads this
    {
      WellSized(Contents()) && Homed(Contents())
    }

    ghost function Contents(): Cache
      reads this
    {
      Cache(shards, perShard)
    }

    constructor (capacity: nat)
      requires capacity > 0
      ensures Valid() && Contents() == NewCache(capacity)
    {
      perShard := Max(capacity / NUM_SHARDS, 1);
      shards := seq(NUM_SHARDS, _ => []);
      new;
      EmptyCache(capacity);
    }

    method GetInode(i: Ino) returns (v: Option<InodeValue>)
      requires Valid()
      modifies `shards
      ensures Valid() && Contents() == Do(old(Contents()), Get(i))
      ensures v == Lookup(old(Contents()), i) == Lookup(Contents(), i)
    {
      hide ShardIndex, Without;
      StepKeepsHomes(Contents(), Get(i));
      var s := ShardIndex(i);
      v := Find(shards[s], i);
      if v.Some? {
        UsedFinds(shards[s], perShard, i, v.value, i);
        shards := shards[s := Used(shards[s], perShard, i, v.value)];
      } else {
        assert shards[s := shards[s]] == shards;
      }
    }

    method PutInode(i: Ino, v: InodeValue)
      requires Valid()
      modifies `shards
      ensures Valid() && Contents() == Do(old(Contents()), PutValue(i, v))
      ensures Lookup(Contents(), i) == Some(v)
    {
      hide ShardIndex, Without;
      StepKeepsHomes(Contents(), PutValue(i, v));
      var s := ShardIndex(i);
      UsedFinds(shards[s], perShard, i, v, i);
      shards := shards[s := Used(shards[s], perShard, i, v)];
    }

    /** A value that is present is folded where it lies; one that is absent stays absent. */
    method Apply(i: Ino, ops: seq<DeltaOp>)
      requires Valid()
      modifies `shards
      ensures Valid() && Contents() == Do(old(Contents()), ApplyDeltas(i, ops))
      ensures Lookup(Contents(), i) ==
              if Lookup(old(Contents()), i).Some? then Some(Fold(Lookup(old(Contents()), i).value, ops)) else None
    {
      hide ShardIndex, Without, Fold;
      StepKeepsHomes(Contents(), ApplyDeltas(i, ops));
      var s := ShardIndex(i);
      var found := Find(shards[s], i);
      if found.Some? {
        var v := FoldDeltas(found.value, ops);
        UsedFinds(shards[s], perShard, i, v, i);
        shards := shards[s := Used(shards[s], perShard, i, v)];
      } else {
        assert shards[s := shards[s]] == shards;
      }
    }

    method InvalidateInode(i: Ino)
      requires Valid()
      modifies `shards
      ensures Valid() && Contents() == Do(old(Contents()), Invalidate(i))
      ensures Lookup(Contents(), i) == None
    {
      hide ShardIndex;
      StepKeepsHomes(Contents(), Invalidate(i));
      var s := ShardIndex(i);
      FindWithout(shards[s], i, i);
      shards := shards[s := Without(shards[s], i)];
    }
  }
}
