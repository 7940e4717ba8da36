/**
 The metadata server as an object (server/src/lib.rs, server/src/compaction.rs): each method builds
 its transaction step by step, commits it or finds it refused, and then updates what the server
 keeps in memory. Every method is proved to do what the state machine says.
 */
module ServerLemmas {
  import opened Types
  import opened Wrappers
  import opened DeltaFold
  import opened Server
  import opened Logging

  lemma LogAllSnoc(build: Build, t: Txn, logs: seq<LogItem>, item: LogItem)
    ensures LogAll(build, t, logs + [item]) == LogOne(build, LogAll(build, t, logs), item)
  {
    assert (logs + [item])[..|logs + [item]| - 1] == logs;
  }

  lemma CacheAllSnoc(cache: map<Ino, InodeValue>, logs: seq<LogItem>, item: LogItem)
    ensures CacheAll(cache, logs + [item]) == CacheOne(CacheAll(cache, logs), item)
  {
    assert (logs + [item])[..|logs + [item]| - 1] == logs;
  }

  lemma TouchedSnoc(logs: seq<LogItem>, item: LogItem)
    ensures Touched(logs + [item]) == Touched(logs) + {item.ino}
  {
    assert forall x :: x in logs + [item] <==> x in logs || x == item;
  }

  /** No call, no change; one call, one change. */
  lemma NoLogs(build: Build, t: Txn, cache: map<Ino, InodeValue>)
    ensures LogAll(build, t, []) == t && CacheAll(cache, []) == cache && Touched([]) == {}
  {
  }

  lemma OneLog(build: Build, t: Txn, cache: map<Ino, InodeValue>, item: LogItem)
    ensures LogAll(build, t, [item]) == LogOne(build, t, item)
    ensures CacheAll(cache, [item]) == CacheOne(cache, item)
    ensures Touched([item]) == {item.ino}
  {
    NoLogs(build, t, cache);
    assert [item] == [] + [item];
    LogAllSnoc(build, t, [], item);
    CacheAllSnoc(cache, [], item);
    TouchedSnoc([], item);
  }

  /** The compactions of two sets of inodes, one after the other. */
  lemma CompactMore(s: State, done: set<Ino>, i: Ino)
    requires done <= s.store.inodes.Keys && i in s.store.inodes && i !in done
    ensures var s1 := CompactAll(s, done);
            && i in s1.store.inodes && DeltasOf(s1.store, i) == DeltasOf(s.store, i)
            && Effective(s1.store, i) == Effective(s.store, i)
            && CompactAll(s, done + {i}) ==
               State(s1.store.(inodes := s1.store.inodes[i := Effective(s1.store, i)], deltas := s1.store.deltas - {i}),
                     s1.mem.(cache := s1.mem.cache - {i}))
  {
    hide Fold;
    var s1 := CompactAll(s, done);
    assert DeltasOf(s1.store, i) == DeltasOf(s.store, i);
    var s2 := CompactAll(s, done + {i});
    assert s2.store.inodes == s1.store.inodes[i := Effective(s1.store, i)];
    assert s2.store.deltas == s1.store.deltas - {i};
    assert s2.mem.cache == s1.mem.cache - {i};
  }

  lemma CompactNone(s: State)
    ensures CompactAll(s, {}) == s
  {
    assert CompactAll(s, {}).store.inodes == s.store.inodes;
    assert CompactAll(s, {}).store.deltas == s.store.deltas;
    assert CompactAll(s, {}).mem.cache == s.mem.cache;
  }
}

module MetadataServers {
  import opened Types
  import opened Wrappers
  import opened DeltaFold
  import opened Server
  import opened Logging
  import opened ServerLemmas

  /** Up to this many tries for one call. */
  const TXN_MAX_RETRIES := 3

  /** The attempts of one call: it goes on only while its commits are refused. */
  function Retried(build: Build, s: State, op: Op, refused: seq<bool>): Outcome
    requires |refused| > 0
    decreases |refused|
  {
    var o := Step(build, s, Attempt(op, refused[0]));
    if o.reply == Failure(TransactionConflict) && |refused| > 1 then Retried(build, o.state, op, refused[1..]) else o
  }

  predicate AllRefused(refused: seq<bool>) {
    forall j :: 0 <= j < |refused| ==> refused[j]
  }

  class MetadataServer {
    const build: Build
    var store: Store
    var seqs: map<Ino, nat>
    var cache: map<Ino, InodeValue>
    var handles: map<Ino, nat>
    var pending: set<Ino>
    var dirty: set<Ino>
    var next: Ino

    ghost function Abs(): State
      reads this
    {
      State(store, Mem(seqs, cache, handles, pending, dirty, next))
    }

    /**
     A server over a store: counters are recovered, the rest of the memory is empty, and a missing root
     directory is created. Over an empty store that is a formatted server; over a restarted one, which
     has its root, it is the restart.
     */
    constructor (build: Build, stored: Store, uid: u32, gid: u32, ts: u64)
      ensures this.build == build
      ensures Abs().store == WithRoot(stored, uid, gid, ts)
      ensures forall m: Mem :: ROOT in stored.inodes ==> Abs() == Restart(State(stored, m))
      ensures stored == Store(map[], map[], map[], map[], map[], None) ==> Abs() == Formatted(uid, gid, ts)
    {
      this.build := build;
      store := WithRoot(stored, uid, gid, ts);
      seqs := Recovered(stored);
      cache := map[];
      handles := map[];
      pending := {};
      dirty := {};
      next := GetOr(stored.counter, 2);
    }

    // -- building a transaction

    /** `batch_parent_deltas`, in both builds. */
    method BatchParentDeltas(batch: Store, parent: Ino, ops: seq<DeltaOp>) returns (batch': Store)
      requires ops != []
      modifies `seqs
      ensures Txn(batch', seqs) == LogOne(build, Txn(batch, old(seqs)), LogItem(parent, ops))
    {
      batch' := batch;
      match build {
        case WithDeltas =>
          ghost var first := NextSeq(seqs, parent);
          var l := 0;
          while l < |ops|
            invariant 0 <= l <= |ops|
            invariant l == 0 ==> batch' == batch && seqs == old(seqs)
            invariant l > 0 ==>
                      var ds := DeltasOf(batch, parent) + Numbered(first, ops[..l]);
                      batch' == batch.(deltas := batch.deltas[parent := ds])
            invariant l > 0 ==> seqs == old(seqs)[parent := first + l]
          {
            var num := NextSeq(seqs, parent);
            seqs := seqs[parent := num + 1];
            assert Numbered(first, ops[..l + 1]) == Numbered(first, ops[..l]) + [Delta(num, ops[l])];
            assert DeltasOf(batch', parent) + [Delta(num, ops[l])] ==
              DeltasOf(batch, parent) + Numbered(first, ops[..l + 1]);
            batch' := batch'.(deltas := batch'.deltas[parent := DeltasOf(batch', parent) + [Delta(num, ops[l])]]);
            l := l + 1;
          }
          assert ops[..l] == ops;
        case NoDelta =>
          if parent in batch.inodes {
            var v := FoldDeltas(batch.inodes[parent], ops);
            batch' := batch.(inodes := batch.inodes[parent := v]);
          }
      }
    }

    /** `cache.apply_deltas` and `mark_dirty`, once the transaction is through. */
    method ParentChanged(parent: Ino, ops: seq<DeltaOp>)
      modifies `cache, `dirty
      ensures cache == CacheOne(old(cache), LogItem(parent, ops)) && dirty == old(dirty) + {parent}
    {
      if parent in cache {
        var v := FoldDeltas(cache[parent], ops);
        cache := cache[parent := v];
      }
      dirty := dirty + {parent};
    }

    method ClearDeltas(i: Ino)
      modifies `store, `seqs
      ensures store == WithoutDeltas(old(store), i) && seqs == ClearSeq(old(seqs), i)
    {
      store := store.(deltas := store.deltas - {i});
      if i in seqs {
        seqs := seqs[i := 0];
      }
    }

    // -- create, mkdir, symlink

    method TryAddNode(k: DirKey, make: Ino -> NewNode, conflict: bool) returns (r: Result<Reply, FsError>)
      modifies this
      ensures Outcome(Abs(), r) == AddNode(build, old(Abs()), k, make(old(next)), conflict)
    {
      hide LogAll, CacheAll, LogOne, CacheOne, Touched;
      if |k.name| > NAME_MAX { return Failure(NameTooLong); }
      if k in store.entries { return Failure(AlreadyExists); }
      var i := next;
      next := NextIno(i);
      var n := make(i);
      var ops := n.links + Stamps(n.value.mtime);
      ghost var item := LogItem(k.parent, ops);
      OneLog(build, Txn(store, seqs), cache, item);
      OneLog(build, Txn(NodeStore(store, i, k, n), seqs), cache[i := n.value], item);
      var batch := store.(inodes := store.inodes[i := n.value], entries := store.entries[k := Entry(i, n.value.mode)]);
      if n.location.Some? { batch := batch.(locations := batch.locations[i := n.location.value]); }
      if n.target.Some? { batch := batch.(symlinks := batch.symlinks[i := n.target.value]); }
      if conflict {
        SeqsAlike(build, Txn(batch, seqs), Txn(store, seqs), item);
        batch := BatchParentDeltas(batch, k.parent, ops);
        return Failure(TransactionConflict);
      }
      CounterApart(build, Txn(batch, seqs), item, Persist(batch.counter, next));
      batch := BatchParentDeltas(batch, k.parent, ops);
      store := batch;
      store := store.(counter := Persist(store.counter, next));
      cache := cache[i := n.value];
      ParentChanged(k.parent, ops);
      r := Success(Attr(n.value));
    }

    method TryUnlink(k: DirKey, ts: u64, parentTs: u64, conflict: bool) returns (r: Result<Reply, FsError>)
      modifies this
      ensures Outcome(Abs(), r) == Unlink(build, old(Abs()), k, ts, parentTs, conflict)
    {
      hide LogAll, CacheAll, LogOne, CacheOne, Touched;
      if |k.name| > NAME_MAX { return Failure(NameTooLong); }
      if k !in store.entries { return Failure(NotFound); }
      var e := store.entries[k];
      if IsDir(e.mode) { return Failure(IsADirectory); }
      if e.ino !in store.inodes { return Failure(NotFound); }
      var i := e.ino;
      var child := store.inodes[i];
      child := child.(nlink := if child.nlink == 0 then 0 else child.nlink - 1);
      var batch := store.(entries := store.entries - {k});
      var open := HandleCount(Mem(seqs, cache, handles, pending, dirty, next), i) > 0;
      var dying := child.nlink == 0 && !open;
      child := child.(ctime := ts);
      if dying {
        batch := batch.(inodes := batch.inodes - {i}, locations := batch.locations - {i});
      } else {
        batch := batch.(inodes := batch.inodes[i := child]);
      }
      assert batch == UnlinkStore(store, k, dying, ts);
      ghost var item := LogItem(k.parent, Stamps(parentTs));
      OneLog(build, Txn(store, seqs), cache - {i}, item);
      OneLog(build, Txn(batch, seqs), cache[i := child], item);
      if conflict {
        SeqsAlike(build, Txn(batch, seqs), Txn(store, seqs), item);
        batch := BatchParentDeltas(batch, k.parent, Stamps(parentTs));
        return Failure(TransactionConflict);
      }
      batch := BatchParentDeltas(batch, k.parent, Stamps(parentTs));
      store := batch;
      if dying {
        ClearDeltas(i);
        cache := cache - {i};
      } else {
        cache := cache[i := child];
        if child.nlink == 0 {
          pending := pending + {i};
        }
      }
      ParentChanged(k.parent, Stamps(parentTs));
      r := Success(Purged(if dying then [i] else []));
    }

    method TryRmdir(k: DirKey, ts: u64, conflict: bool) returns (r: Result<Reply, FsError>)
      modifies this
      ensures Outcome(Abs(), r) == Rmdir(build, old(Abs()), k, ts, conflict)
    {
      hide LogAll, CacheAll, LogOne, CacheOne, Touched;
      if |k.name| > NAME_MAX { return Failure(NameTooLong); }
      if k !in store.entries { return Failure(NotFound); }
      var e := store.entries[k];
      if !IsDir(e.mode) { return Failure(NotADirectory); }
      if e.ino !in store.inodes { return Failure(NotFound); }
      if !DirEmpty(store.entries, e.ino) { return Failure(DirectoryNotEmpty); }
      var i := e.ino;
      var batch := store.(entries := store.entries - {k});
      batch := batch.(inodes := batch.inodes - {i});
      var ops := [IncrementNlink(-1)] + Stamps(ts);
      ghost var item := LogItem(k.parent, ops);
      OneLog(build, Txn(store, seqs), cache, item);
      OneLog(build, Txn(batch, seqs), cache - {i}, item);
      if conflict {
        SeqsAlike(build, Txn(batch, seqs), Txn(store, seqs), item);
        batch := BatchParentDeltas(batch, k.parent, ops);
        return Failure(TransactionConflict);
      }
      batch := BatchParentDeltas(batch, k.parent, ops);
      store := batch;
      ClearDeltas(i);
      cache := cache - {i};
      ParentChanged(k.parent, ops);
      r := Success(Done);
    }

    // -- rename

    /** The inodes a rename locks: source, replaced, both parents, ascending and each once. */
    method LockOrder(src: Ino, dst: Option<Ino>, parent: Ino, newParent: Ino) returns (ids: seq<Ino>)
      ensures forall j, l :: 0 <= j < l < |ids| ==> ids[j] < ids[l]
      ensures forall i :: i in ids <==> i == src || dst == Some(i) || i == parent || i == newParent
    {
      var wanted := [src] + (if dst.Some? then [dst.value] else []);
      if parent !in wanted { wanted := wanted + [parent]; }
      if parent != newParent && newParent !in wanted { wanted := wanted + [newParent]; }
      ids := SortedOnce(wanted);
    }

    /** Take the row locks in that order and read the rows that exist. */
    method ReadLocked(ids: seq<Ino>) returns (values: map<Ino, InodeValue>)
      ensures forall i :: i in values <==> i in ids && i in store.inodes
      ensures forall i :: i in values ==> values[i] == store.inodes[i]
    {
      values := map[];
      for j := 0 to |ids|
        invariant forall i :: i in values <==> i in ids[..j] && i in store.inodes
        invariant forall i :: i in values ==> values[i] == store.inodes[i]
      {
        if ids[j] in store.inodes {
          values := values[ids[j] := store.inodes[ids[j]]];
        }
      }
      assert ids[..|ids|] == ids;
    }

    /** The checks and the pushes of a rename up to the parents' deltas; also the inode to delete, if any. */
    method RenameBatch(k: DirKey, k2: DirKey, ts: u64) returns (r: Result<(Store, Option<Ino>), FsError>)
      ensures r.Failure? ==> RenameRefusal(store, k, k2) == Some(r.error)
      ensures r.Success? ==> RenameRefusal(store, k, k2).None? && r.value.0 == RenameStore(store, k, k2, ts)
      ensures r.Success? ==> r.value.1 == if RenameKills(store, k2) then Some(store.entries[k2].ino) else None
    {
      if |k.name| > NAME_MAX || |k2.name| > NAME_MAX { return Failure(NameTooLong); }
      if k !in store.entries { return Failure(NotFound); }
      var src := store.entries[k].ino;
      var dst := if k2 in store.entries then Some(store.entries[k2].ino) else None;
      var ids := LockOrder(src, dst, k.parent, k2.parent);
      var values := ReadLocked(ids);
      if src !in values { return Failure(NotFound); }
      var moved := values[src];
      var srcDir := IsDir(moved.mode);
      var dead: Option<Ino> := None;
      var batch := store;
      if dst.Some? {
        var over := dst.value;
        var dstDir := IsDir(store.entries[k2].mode);
        if srcDir && !dstDir { return Failure(NotADirectory); }
        if !srcDir && dstDir { return Failure(IsADirectory); }
        if dstDir {
          if !DirEmpty(store.entries, over) { return Failure(DirectoryNotEmpty); }
        } else {
          if over !in values { return Failure(NotFound); }
          var v := values[over];
          if v.nlink > 1 {
            batch := batch.(inodes := batch.inodes[over := v.(nlink := v.nlink - 1, ctime := ts)]);
          } else {
            dead := Some(over);
          }
        }
        batch := batch.(entries := batch.entries - {k2});
        if dead.Some? {
          batch := batch.(inodes := batch.inodes - {over}, locations := batch.locations - {over});
        }
      }
      batch := batch.(entries := (batch.entries - {k})[k2 := Entry(src, moved.mode)]);
      batch := batch.(inodes := batch.inodes[src := moved.(ctime := ts)]);
      assert batch.entries == (store.entries - {k2, k})[k2 := Entry(src, moved.mode)];
      r := Success((batch, dead));
    }

    method TryRename(k: DirKey, k2: DirKey, ts: u64, conflict: bool) returns (r: Result<Reply, FsError>)
      modifies this
      ensures Outcome(Abs(), r) == Rename(build, old(Abs()), k, k2, ts, conflict)
    {
      hide LogAll, CacheAll, LogOne, CacheOne, Touched, RenameInodes, RenameLogs;
      var b := RenameBatch(k, k2, ts);
      if b.Failure? { return Failure(b.error); }
      var (batch, dead) := b.value;
      var src := store.entries[k].ino;
      var dst := if k2 in store.entries then Some(store.entries[k2].ino) else None;
      var srcDir := IsDir(store.inodes[src].mode);
      var dstDir := k2 in store.entries && IsDir(store.entries[k2].mode);
      var moved := store.inodes[src].(ctime := ts);
      BurnsAlike(build, Txn(batch, seqs), Txn(store, seqs), RenameLogsOf(store, k, k2, ts));
      batch := RenameParents(batch, k.parent, k2.parent, srcDir, dstDir, ts);
      if conflict { return Failure(TransactionConflict); }
      store := batch;
      if dst.Some? {
        ClearDeltas(dst.value);
        cache := cache - {dst.value};
      }
      cache := cache[src := moved];
      RenameParentsChanged(k.parent, k2.parent, srcDir, dstDir, ts);
      r := Success(Purged(if dead.Some? then [dead.value] else []));
    }

    /** The calls of `batch_parent_deltas` in a rename. */
    method RenameParents(batch: Store, p: Ino, np: Ino, srcDir: bool, dstDir: bool, ts: u64) returns (batch': Store)
      modifies `seqs
      ensures Txn(batch', seqs) == LogAll(build, Txn(batch, old(seqs)), RenameLogs(p, np, srcDir, dstDir, ts))
    {
      hide LogAll, LogOne;
      batch' := batch;
      ghost var t := Txn(batch, seqs);
      ghost var logs: seq<LogItem> := [];
      NoLogs(build, t, map[]);
      if dstDir {
        LogAllSnoc(build, t, logs, LogItem(np, [IncrementNlink(-1)]));
        batch' := BatchParentDeltas(batch', np, [IncrementNlink(-1)]);
        logs := logs + [LogItem(np, [IncrementNlink(-1)])];
      }
      if srcDir && p != np {
        LogAllSnoc(build, t, logs, LogItem(p, [IncrementNlink(-1)]));
        batch' := BatchParentDeltas(batch', p, [IncrementNlink(-1)]);
        logs := logs + [LogItem(p, [IncrementNlink(-1)])];
        LogAllSnoc(build, t, logs, LogItem(np, [IncrementNlink(1)]));
        batch' := BatchParentDeltas(batch', np, [IncrementNlink(1)]);
        logs := logs + [LogItem(np, [IncrementNlink(1)])];
      }
      LogAllSnoc(build, t, logs, LogItem(p, Stamps(ts)));
      batch' := BatchParentDeltas(batch', p, Stamps(ts));
      logs := logs + [LogItem(p, Stamps(ts))];
      if p != np {
        LogAllSnoc(build, t, logs, LogItem(np, Stamps(ts)));
        batch' := BatchParentDeltas(batch', np, Stamps(ts));
        logs := logs + [LogItem(np, Stamps(ts))];
      }
      assert logs == RenameLogs(p, np, srcDir, dstDir, ts);
    }

    /** The cache updates and dirty marks of a rename. */
    method RenameParentsChanged(p: Ino, np: Ino, srcDir: bool, dstDir: bool, ts: u64)
      modifies `cache, `dirty
      ensures cache == CacheAll(old(cache), RenameLogs(p, np, srcDir, dstDir, ts))
      ensures dirty == old(dirty) + Touched(RenameLogs(p, np, srcDir, dstDir, ts))
    {
      hide CacheAll, CacheOne, Touched;
      ghost var c := cache;
      ghost var logs: seq<LogItem> := [];
      NoLogs(build, Txn(store, seqs), c);
      if dstDir {
        CacheAllSnoc(c, logs, LogItem(np, [IncrementNlink(-1)]));
        TouchedSnoc(logs, LogItem(np, [IncrementNlink(-1)]));
        ParentChanged(np, [IncrementNlink(-1)]);
        logs := logs + [LogItem(np, [IncrementNlink(-1)])];
      }
      if srcDir && p != np {
        CacheAllSnoc(c, logs, LogItem(p, [IncrementNlink(-1)]));
        TouchedSnoc(logs, LogItem(p, [IncrementNlink(-1)]));
        ParentChanged(p, [IncrementNlink(-1)]);
        logs := logs + [LogItem(p, [IncrementNlink(-1)])];
        CacheAllSnoc(c, logs, LogItem(np, [IncrementNlink(1)]));
        TouchedSnoc(logs, LogItem(np, [IncrementNlink(1)]));
        ParentChanged(np, [IncrementNlink(1)]);
        logs := logs + [LogItem(np, [IncrementNlink(1)])];
      }
      CacheAllSnoc(c, logs, LogItem(p, Stamps(ts)));
      TouchedSnoc(logs, LogItem(p, Stamps(ts)));
      ParentChanged(p, Stamps(ts));
      logs := logs + [LogItem(p, Stamps(ts))];
      if p != np {
        CacheAllSnoc(c, logs, LogItem(np, Stamps(ts)));
        TouchedSnoc(logs, LogItem(np, Stamps(ts)));
        ParentChanged(np, Stamps(ts));
        logs := logs + [LogItem(np, Stamps(ts))];
      }
      assert logs == RenameLogs(p, np, srcDir, dstDir, ts);
    }

    // -- link, setattr, report_write

    method TryLink(k: DirKey, target: Ino, ts: u64, parentTs: u64, conflict: bool) returns (r: Result<Reply, FsError>)
      modifies this
      ensures Outcome(Abs(), r) == Link(build, old(Abs()), k, target, ts, parentTs, conflict)
    {
      hide LogAll, CacheAll, LogOne, CacheOne, Touched;
      if |k.name| > NAME_MAX { return Failure(NameTooLong); }
      if target !in store.inodes { return Failure(NotFound); }
      var v := store.inodes[target];
      if IsDir(v.mode) { return Failure(PermissionDenied); }
      if k in store.entries { return Failure(AlreadyExists); }
      if k.parent !in store.inodes { return Failure(NotFound); }
      if !IsDir(store.inodes[k.parent].mode) { return Failure(NotADirectory); }
      v := v.(nlink := (v.nlink + 1) % TWO32, ctime := ts);
      var batch := store.(inodes := store.inodes[target := v]);
      batch := batch.(entries := batch.entries[k := Entry(target, v.mode)]);
      ghost var item := LogItem(k.parent, Stamps(parentTs));
      OneLog(build, Txn(store, seqs), cache, item);
      OneLog(build, Txn(batch, seqs), cache[target := v], item);
      SeqsAlike(build, Txn(batch, seqs), Txn(store, seqs), item);
      batch := BatchParentDeltas(batch, k.parent, Stamps(parentTs));
      if conflict { return Failure(TransactionConflict); }
      store := batch;
      cache := cache[target := v];
      ParentChanged(k.parent, Stamps(parentTs));
      r := Success(Attr(v));
    }

    method TrySetAttr(i: Ino, req: SetAttrRequest, ts: u64, conflict: bool) returns (r: Result<Reply, FsError>)
      modifies this
      ensures Outcome(Abs(), r) == SetAttr(old(Abs()), i, req, ts, conflict)
    {
      if i !in store.inodes { return Failure(NotFound); }
      var v := store.inodes[i];
      if req.mode.Some? { v := v.(mode := Chmod(v.mode, req.mode.value)); }
      if req.uid.Some? { v := v.(uid := req.uid.value); }
      if req.gid.Some? { v := v.(gid := req.gid.value); }
      if req.atime.Some? { v := v.(atime := req.atime.value); }
      if req.mtime.Some? { v := v.(mtime := req.mtime.value); }
      var shrinks := false;
      if req.size.Some? && req.size.value != v.size {
        shrinks := req.size.value < v.size;
        v := v.(size := req.size.value, mtime := ts);
      }
      v := v.(ctime := ts);
      if conflict { return Failure(TransactionConflict); }
      assert v == WithAttrs(store.inodes[i], req, ts);
      store := store.(inodes := store.inodes[i := v]);
      cache := cache[i := v];
      r := Success(Updated(v, if shrinks then req.size else None));
    }

    method TryReportWrite(i: Ino, newSize: u64, mtime: u64, conflict: bool) returns (r: Result<Reply, FsError>)
      modifies this
      ensures Outcome(Abs(), r) == ReportWrite(old(Abs()), i, newSize, mtime, conflict)
    {
      if i !in store.inodes { return Failure(NotFound); }
      var v := store.inodes[i];
      if newSize > v.size { v := v.(size := newSize); }
      v := v.(mtime := mtime, ctime := mtime);
      if conflict { return Failure(TransactionConflict); }
      store := store.(inodes := store.inodes[i := v]);
      cache := cache[i := v];
      r := Success(Done);
    }

    // -- load, open, release

    method LoadInode(i: Ino) returns (r: Result<Reply, FsError>)
      modifies `cache
      ensures Outcome(Abs(), r) == Load(old(Abs()), i)
    {
      if i in cache { return Success(Attr(cache[i])); }
      if i !in store.inodes { return Failure(NotFound); }
      var v := FoldDeltas(store.inodes[i], Ops(DeltasOf(store, i)));
      cache := cache[i := v];
      r := Success(Attr(v));
    }

    /** One attempt to cut a file that is being opened. */
    method TryCut(i: Ino, ts: u64, conflict: bool) returns (r: Result<(), FsError>)
      modifies `store, `cache
      ensures r == if i !in old(store.inodes) then Failure(NotFound)
                   else if conflict then Failure(TransactionConflict) else Success(())
      ensures r.Failure? ==> Abs() == old(Abs())
      ensures r.Success? ==> Abs() == PutBase(old(Abs()), i, Truncated(old(store.inodes[i]), ts))
    {
      if i !in store.inodes { return Failure(NotFound); }
      var base := store.inodes[i].(size := 0, mtime := ts, ctime := ts);
      if conflict { return Failure(TransactionConflict); }
      store := store.(inodes := store.inodes[i := base]);
      cache := cache[i := base];
      r := Success(());
    }

    /** `open`: load, cut with up to three attempts if asked to, then count the handle. */
    method OpenFile(i: Ino, truncate: bool, ts: u64, refused: seq<bool>) returns (r: Result<Reply, FsError>)
      requires |refused| == TXN_MAX_RETRIES
      modifies this
      ensures Outcome(Abs(), r) == Open(old(Abs()), i, truncate, ts, AllRefused(refused))
    {
      hide Effective;
      var loaded := LoadInode(i);
      if loaded.Failure? { return loaded; }
      var v := loaded.value.value;
      if IsDir(v.mode) { return Failure(IsADirectory); }
      if truncate && v.size > 0 {
        ghost var before := Abs();
        var attempt := 0;
        while true
          invariant 0 <= attempt < TXN_MAX_RETRIES && AllRefused(refused[..attempt])
          invariant Abs() == before
          decreases TXN_MAX_RETRIES - attempt
        {
          var cut := TryCut(i, ts, refused[attempt]);
          if cut.Success? { break; }
          if cut.error != TransactionConflict || attempt + 1 == TXN_MAX_RETRIES {
            assert cut.error == TransactionConflict ==> AllRefused(refused);
            return Failure(cut.error);
          }
          attempt := attempt + 1;
        }
      }
      handles := handles[i := (if i in handles then handles[i] else 0) + 1];
      r := Success(Opened(if i in store.locations then store.locations[i] else DEFAULT_LOCATION));
    }

    /** `check_and_clear_deferred_delete`: was this the last handle of a file waiting to be deleted? */
    method LastHandleClosed(i: Ino) returns (deferred: bool)
      modifies `handles, `pending
      ensures deferred <==> i in old(handles) && old(handles)[i] <= 1 && i in old(pending)
      ensures i !in old(handles) ==> handles == old(handles) && pending == old(pending)
      ensures i in old(handles) && old(handles)[i] > 1 ==>
              handles == old(handles)[i := old(handles)[i] - 1] && pending == old(pending)
      ensures i in old(handles) && old(handles)[i] <= 1 ==>
              handles == old(handles) - {i} && pending == old(pending) - {i}
    {
      deferred := false;
      if i in handles {
        var count := if handles[i] == 0 then 0 else handles[i] - 1;
        handles := handles[i := count];
        if count == 0 {
          assert handles - {i} == old(handles) - {i};
          handles := handles - {i};
          deferred := i in pending;
          pending := pending - {i};
        }
      }
    }

    /** `release`: close the handle, then delete a pending file with up to three attempts. */
    method ReleaseHandle(i: Ino, refused: seq<bool>) returns (r: Result<Reply, FsError>)
      requires |refused| == TXN_MAX_RETRIES
      modifies this
      ensures Outcome(Abs(), r) == Release(old(Abs()), i, AllRefused(refused))
    {
      var deferred := LastHandleClosed(i);
      if !deferred { return Success(Purged([])); }
      var attempt := 0;
      while refused[attempt]
        invariant 0 <= attempt < TXN_MAX_RETRIES && AllRefused(refused[..attempt])
        decreases TXN_MAX_RETRIES - attempt
      {
        if attempt + 1 == TXN_MAX_RETRIES { return Failure(TransactionConflict); }
        attempt := attempt + 1;
      }
      store := store.(inodes := store.inodes - {i}, locations := store.locations - {i});
      ClearDeltas(i);
      cache := cache - {i};
      r := Success(Purged([i]));
    }

    // -- compaction

    /** `force_compact_inode`: fold what was scanned into the base and delete it. */
    method ForceCompactInode(i: Ino, conflict: bool) returns (done: bool)
      modifies `store, `cache
      ensures done <==> i in Compactable(old(Abs()), {i}, if conflict then {i} else {})
      ensures Abs() == CompactAll(old(Abs()), if done then {i} else {})
    {
      CompactNone(Abs());
      var ds := DeltasOf(store, i);
      if ds == [] { return false; }
      if i !in store.inodes { return false; }
      var base := FoldDeltas(store.inodes[i], Ops(ds));
      if conflict { return false; }
      CompactMore(Abs(), {}, i);
      assert {} + {i} == {i};
      store := store.(inodes := store.inodes[i := base], deltas := store.deltas - {i});
      cache := cache - {i};
      done := true;
    }

    /** `compact_inode`: only from the threshold on. */
    method CompactInode(i: Ino, threshold: nat, conflict: bool) returns (done: bool)
      modifies `store, `cache
      ensures done <==>
              i in Compactable(old(Abs()), {i}, if conflict then {i} else {}) && |DeltasOf(old(store), i)| >= threshold
      ensures Abs() == CompactAll(old(Abs()), if done then {i} else {})
    {
      hide CompactAll;
      if DeltasOf(store, i) == [] || |DeltasOf(store, i)| < threshold {
        CompactNone(Abs());
        return false;
      }
      done := ForceCompactInode(i, conflict);
    }

    /** One inode of a round: compacted, or marked dirty again. */
    method CompactOrRemark(i: Ino, threshold: nat, conflict: bool) returns (done: bool)
      modifies `store, `cache, `dirty
      ensures done <==>
              i in Compactable(old(Abs()), {i}, if conflict then {i} else {}) && |DeltasOf(old(store), i)| >= threshold
      ensures done ==> Abs() == CompactAll(old(Abs()), {i})
      ensures !done ==> Abs() == old(Abs()).(mem := old(Abs()).mem.(dirty := old(dirty) + {i}))
    {
      hide CompactAll;
      CompactNone(Abs());
      done := CompactInode(i, threshold, conflict);
      if !done {
        dirty := dirty + {i};
      }
    }

    /** `compact_dirty`: drain the dirty set in any order and put back what was not compacted. */
    method CompactDirtyInodes(threshold: nat, blocked: set<Ino>) returns (compacted: nat)
      modifies `store, `cache, `dirty
      ensures Abs() == CompactDirty(old(Abs()), threshold, blocked).state
      ensures compacted == |DueForCompaction(old(Abs()), threshold, blocked)|
    {
      hide CompactAll, Progress, DueForCompaction, Compactable, DeltasOf;
      ghost var s := Abs();
      ghost var due := DueForCompaction(s, threshold, blocked);
      ghost var marked := s.mem.dirty - due;
      var todo := dirty;
      dirty := {};
      compacted := 0;
      DueBound(s, threshold, blocked);
      ProgressStarts(s, due);
      while todo != {}
        invariant todo <= s.mem.dirty && compacted == |due - todo|
        invariant Progress(s, due, marked, todo, Abs())
        decreases |todo|
      {
        var i: Ino :| i in todo;
        ghost var before := Abs();
        DueIff(s, threshold, blocked, todo, before, i);
        var done := CompactOrRemark(i, threshold, i in blocked);
        if done {
          compacted := compacted + 1;
        }
        DoneCount(due, todo, i);
        ProgressStep(s, due, marked, todo, before, i, Abs());
        todo := todo - {i};
      }
      ProgressEnds(s, due, marked, todo, Abs());
      assert due - todo == due;
    }

    /** `flush_all`: drain the dirty set and compact everything; what fails is not put back. */
    method FlushAllInodes(blocked: set<Ino>) returns (compacted: nat)
      modifies `store, `cache, `dirty
      ensures Abs() == FlushAll(old(Abs()), blocked).state
      ensures compacted == |Compactable(old(Abs()), old(dirty), blocked)|
    {
      hide CompactAll, Progress, Compactable;
      ghost var s := Abs();
      ghost var due := Compactable(s, s.mem.dirty, blocked);
      var todo := dirty;
      dirty := {};
      compacted := 0;
      CompactableBound(s, s.mem.dirty, blocked);
      ProgressStarts(s, due);
      while todo != {}
        invariant todo <= s.mem.dirty && compacted == |due - todo|
        invariant Progress(s, due, {}, todo, Abs())
        decreases |todo|
      {
        var i: Ino :| i in todo;
        ghost var before := Abs();
        CompactableIff(s, blocked, {}, todo, before, i);
        CompactNone(before);
        var done := ForceCompactInode(i, i in blocked);
        if done {
          compacted := compacted + 1;
        }
        DoneCount(due, todo, i);
        ProgressStep(s, due, {}, todo, before, i, Abs());
        todo := todo - {i};
      }
      ProgressEnds(s, due, {}, todo, Abs());
      assert due - todo == due;
    }

    // -- calls

    /** One run of the closure that a call hands to the retry loop. */
    method TryOnce(op: Op, conflict: bool) returns (r: Result<Reply, FsError>)
      requires op.DoCreate? || op.DoMkdir? || op.DoSymlink? || op.DoUnlink? || op.DoRmdir? || op.DoRename? ||
               op.DoLink? || op.DoSetAttr? || op.DoReportWrite?
      modifies this
      ensures Outcome(Abs(), r) == Step(build, old(Abs()), Attempt(op, conflict))
    {
      hide AddNode, CreateAndOpen, Unlink, Rmdir, Rename, Link, SetAttr, ReportWrite, Load, Open, Release, Compact,
        CompactDirty, FlushAll, Evict;
      match op {
        case DoCreate(k, mode, uid, gid, ts) =>
          r := TryAddNode(k, (i: Ino) => NewFile(i, mode, uid, gid, ts), conflict);
        case DoMkdir(k, mode, uid, gid, ts) => r := TryAddNode(k, (i: Ino) => NewDir(i, mode, uid, gid, ts), conflict);
        case DoSymlink(k, link, uid, gid, ts) =>
          r := TryAddNode(k, (i: Ino) => NewSymlink(i, link, uid, gid, ts), conflict);
        case DoUnlink(k, ts, parentTs) => r := TryUnlink(k, ts, parentTs, conflict);
        case DoRmdir(k, ts) => r := TryRmdir(k, ts, conflict);
        case DoRename(k, k2, ts) => r := TryRename(k, k2, ts, conflict);
        case DoLink(k, target, ts, parentTs) => r := TryLink(k, target, ts, parentTs, conflict);
        case DoSetAttr(i, req, ts) => r := TrySetAttr(i, req, ts, conflict);
        case DoReportWrite(i, newSize, mtime) => r := TryReportWrite(i, newSize, mtime, conflict);
      }
    }

    /** `execute_with_retry`: at most three attempts, the next one only after a refused commit. */
    method ExecuteWithRetry(op: Op, refused: seq<bool>) returns (r: Result<Reply, FsError>)
      requires |refused| == TXN_MAX_RETRIES
      requires op.DoCreate? || op.DoMkdir? || op.DoSymlink? || op.DoUnlink? || op.DoRmdir? || op.DoRename? ||
               op.DoLink? || op.DoSetAttr? || op.DoReportWrite?
      modifies this
      ensures Outcome(Abs(), r) == Retried(build, old(Abs()), op, refused)
    {
      hide Step;
      var attempt := 0;
      while true
        invariant 0 <= attempt < TXN_MAX_RETRIES
        invariant Retried(build, Abs(), op, refused[attempt..]) == Retried(build, old(Abs()), op, refused)
        decreases TXN_MAX_RETRIES - attempt
      {
        assert refused[attempt..][1..] == refused[attempt + 1..];
        r := TryOnce(op, refused[attempt]);
        if r != Failure(TransactionConflict) || attempt + 1 == TXN_MAX_RETRIES { return; }
        attempt := attempt + 1;
      }
    }
  }

  // -- compaction rounds

  /** A round over the dirty set: what was due among the inodes seen is compacted, what is to stay marked is marked. */
  ghost predicate Progress(s: State, due: set<Ino>, marked: set<Ino>, todo: set<Ino>, now: State) {
    && due <= s.store.inodes.Keys
    && now == CompactAll(s, due - todo).(mem := CompactAll(s, due - todo).mem.(dirty := marked - todo))
  }

  lemma ProgressStarts(s: State, due: set<Ino>)
    requires due <= s.mem.dirty && due <= s.store.inodes.Keys
    ensures forall marked: set<Ino> :: marked <= s.mem.dirty ==>
            Progress(s, due, marked, s.mem.dirty, s.(mem := s.mem.(dirty := {})))
  {
    hide CompactAll;
    CompactNone(s);
    assert due - s.mem.dirty == {};
    forall marked: set<Ino> | marked <= s.mem.dirty
      ensures Progress(s, due, marked, s.mem.dirty, s.(mem := s.mem.(dirty := {})))
    {
      assert marked - s.mem.dirty == {};
    }
  }

  lemma ProgressStep(s: State, due: set<Ino>, marked: set<Ino>, todo: set<Ino>, now: State, i: Ino, now': State)
    requires Progress(s, due, marked, todo, now) && i in todo && marked !! due
    requires if i in due then now' == CompactAll(now, {i}) else
             now' == now.(mem := now.mem.(dirty := if i in marked then now.mem.dirty + {i} else now.mem.dirty))
    ensures Progress(s, due, marked, todo - {i}, now')
  {
    hide CompactAll;
    if i in due {
      assert due - (todo - {i}) == (due - todo) + {i} && marked - (todo - {i}) == marked - todo;
      CompactStep(s, due - todo, marked - todo, i);
    } else {
      assert due - (todo - {i}) == due - todo;
      assert marked - (todo - {i}) == if i in marked then (marked - todo) + {i} else marked - todo;
    }
  }

  lemma ProgressEnds(s: State, due: set<Ino>, marked: set<Ino>, todo: set<Ino>, now: State)
    requires Progress(s, due, marked, todo, now) && todo == {}
    ensures due <= s.store.inodes.Keys && now == CompactAll(s, due).(mem := CompactAll(s, due).mem.(dirty := marked))
  {
    hide CompactAll;
    assert due - todo == due && marked - todo == marked;
  }

  lemma CompactableBound(s: State, candidates: set<Ino>, blocked: set<Ino>)
    ensures Compactable(s, candidates, blocked) <= candidates &&
            Compactable(s, candidates, blocked) <= s.store.inodes.Keys
  {
  }

  lemma DoneCount(due: set<Ino>, todo: set<Ino>, i: Ino)
    requires i in todo
    ensures |due - (todo - {i})| == |due - todo| + if i in due then 1 else 0
  {
    assert due - (todo - {i}) == if i in due then (due - todo) + {i} else due - todo;
  }

  lemma DueBound(s: State, threshold: nat, blocked: set<Ino>)
    ensures var due := DueForCompaction(s, threshold, blocked); due <= s.mem.dirty && due <= s.store.inodes.Keys
  {
  }

  /** During the round, an inode that is still to do is due exactly if it was at the start. */
  lemma CompactableIff(s: State, blocked: set<Ino>, marked: set<Ino>, todo: set<Ino>, now: State, i: Ino)
    requires var due := Compactable(s, s.mem.dirty, blocked); Progress(s, due, marked, todo, now)
    requires i in todo && todo <= s.mem.dirty
    ensures i in Compactable(now, {i}, if i in blocked then {i} else {}) <==> i in Compactable(s, s.mem.dirty, blocked)
  {
    hide CompactAll;
    CompactedSoFar(s, Compactable(s, s.mem.dirty, blocked) - todo, i);
  }

  lemma DueIff(s: State, threshold: nat, blocked: set<Ino>, todo: set<Ino>, now: State, i: Ino)
    requires var due := DueForCompaction(s, threshold, blocked); Progress(s, due, s.mem.dirty - due, todo, now)
    requires i in todo && todo <= s.mem.dirty
    ensures (i in Compactable(now, {i}, if i in blocked then {i} else {}) && |DeltasOf(now.store, i)| >= threshold) <==>
            i in DueForCompaction(s, threshold, blocked)
  {
    hide CompactAll;
    CompactedSoFar(s, DueForCompaction(s, threshold, blocked) - todo, i);
  }

  /** The numbers drawn do not depend on the contents of the store. */
  lemma SeqsAlike(build: Build, t: Txn, u: Txn, item: LogItem)
    requires t.seqs == u.seqs
    ensures LogOne(build, t, item).seqs == LogOne(build, u, item).seqs
  {
  }

  /** The counter row is not part of what is logged. */
  lemma CounterApart(build: Build, t: Txn, item: LogItem, c: Option<u64>)
    ensures LogOne(build, t.(store := t.store.(counter := c)), item) ==
            var u := LogOne(build, t, item); u.(store := u.store.(counter := c))
    ensures LogOne(build, t, item).store.counter == t.store.counter
  {
  }

  lemma {:induction false} BurnsAlike(build: Build, t: Txn, u: Txn, logs: seq<LogItem>)
    requires t.seqs == u.seqs
    ensures LogAll(build, t, logs).seqs == LogAll(build, u, logs).seqs
  {
    if logs != [] {
      BurnsAlike(build, t, u, logs[..|logs| - 1]);
      SeqsAlike(build, LogAll(build, t, logs[..|logs| - 1]), LogAll(build, u, logs[..|logs| - 1]), logs[|logs| - 1]);
    }
  }

  method Insert(ids: seq<Ino>, i: Ino) returns (ids': seq<Ino>)
    requires forall j, l :: 0 <= j < l < |ids| ==> ids[j] < ids[l]
    ensures forall j, l :: 0 <= j < l < |ids'| ==> ids'[j] < ids'[l]
    ensures forall x :: x in ids' <==> x in ids || x == i
  {
    var p := 0;
    while p < |ids| && ids[p] < i
      invariant 0 <= p <= |ids|
      invariant forall j :: 0 <= j < p ==> ids[j] < i
    {
      p := p + 1;
    }
    if p < |ids| && ids[p] == i { return ids; }
    ids' := ids[..p] + [i] + ids[p..];
    assert ids == ids[..p] + ids[p..];
  }

  /** Sort ascending and drop duplicates. */
  method SortedOnce(wanted: seq<Ino>) returns (ids: seq<Ino>)
    ensures forall j, l :: 0 <= j < l < |ids| ==> ids[j] < ids[l]
    ensures forall i :: i in ids <==> i in wanted
  {
    ids := [];
    for n := 0 to |wanted|
      invariant forall j, l :: 0 <= j < l < |ids| ==> ids[j] < ids[l]
      invariant forall i :: i in ids <==> i in wanted[..n]
    {
      ids := Insert(ids, wanted[n]);
    }
    assert wanted[..|wanted|] == wanted;
  }

  /** An inode that has not been compacted is as it was. */
  lemma CompactedSoFar(s: State, done: set<Ino>, i: Ino)
    requires done <= s.store.inodes.Keys && i !in done
    ensures var st := CompactAll(s, done).store;
            DeltasOf(st, i) == DeltasOf(s.store, i) && (i in st.inodes <==> i in s.store.inodes)
  {
  }

  lemma CompactStep(s: State, done: set<Ino>, marked: set<Ino>, i: Ino)
    requires done <= s.store.inodes.Keys && i in s.store.inodes && i !in done
    ensures var s1 := CompactAll(s, done);
            var m := s1.(mem := s1.mem.(dirty := marked));
            var s2 := CompactAll(s, done + {i});
            CompactAll(m, {i}) == s2.(mem := s2.mem.(dirty := marked))
  {
    hide Effective;
    var s1 := CompactAll(s, done);
    var m := s1.(mem := s1.mem.(dirty := marked));
    CompactMore(s, done, i);
    CompactMore(m, {}, i);
    CompactNone(m);
    assert {} + {i} == {i};
  }
}
