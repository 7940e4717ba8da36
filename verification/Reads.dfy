/**
 Reads in the two builds: the read-modify-write server always answers from its bases, so wherever the
 delta server's cache is coherent both answer a read of a linked inode alike, directories included.
 */
module Reads {
  import opened Types
  import opened Wrappers
  import opened DeltaFold
  import opened Server
  import opened Logging
  import opened Tree
  import opened Invariants
  import opened Namespace
  import opened CacheCoherence
  import opened Refinement

  /** Every cached value is the stored one. */
  ghost predicate CachesBases(cache: Inodes, I: Inodes) {
    forall i :: i in cache ==> i in I && cache[i] == I[i]
  }

  ghost predicate NoDeltas(st: Store) {
    forall i: Ino :: DeltasOf(st, i) == []
  }

  /** The read-modify-write server has no deltas, and its cache holds bases. */
  ghost predicate Plain(t: State) {
    NoDeltas(t.store) && CachesBases(t.mem.cache, t.store.inodes)
  }

  /** Logging folds a base and its cached copy alike, and possibly drops deltas that are not there. */
  lemma LogIsPlain(st: Store, seqs: map<Ino, nat>, logs: seq<LogItem>, cache: Inodes, gone: Option<Ino>, t: State)
    requires NoDeltas(st) && CachesBases(cache, st.inodes)
    requires PlainLogged(st, seqs, logs, gone, t.store) && t.mem.cache == CacheAll(cache, logs)
    ensures Plain(t)
  {
    hide LogAll, CacheAll, OpsFor, Fold;
    LogAllPlain(Txn(st, seqs), logs);
    CacheAllFolds(cache, logs);
    var u := LogAll(NoDelta, Txn(st, seqs), logs).store;
    assert forall i: Ino :: DeltasOf(u, i) == DeltasOf(st, i);
    forall i: Ino ensures DeltasOf(t.store, i) == [] {
      assert DeltasOf(u, i) == [];
    }
  }

  lemma SameDeltas(st: Store, u: Store)
    requires NoDeltas(st) && u.deltas == st.deltas
    ensures NoDeltas(u)
  {
    assert forall i: Ino :: DeltasOf(u, i) == DeltasOf(st, i);
  }

  lemma AddNodeIsPlain(t: State, k: DirKey, n: NewNode, conflict: bool)
    requires Plain(t)
    ensures Plain(AddNode(NoDelta, t, k, n, conflict).state)
  {
    hide LogAll, CacheAll, NoDeltas;
    if |k.name| <= NAME_MAX && k !in t.store.entries && !conflict {
      var i := t.mem.next;
      var st := NodeStore(t.store, i, k, n);
      SameDeltas(t.store, st);
      LogIsPlain(st, t.mem.seqs, NewLogs(k, n), t.mem.cache[i := n.value], None,
        AddNode(NoDelta, t, k, n, conflict).state);
    }
  }

  lemma UnlinkIsPlain(t: State, k: DirKey, ts: u64, parentTs: u64, conflict: bool)
    requires Plain(t)
    ensures Plain(Unlink(NoDelta, t, k, ts, parentTs, conflict).state)
  {
    hide LogAll, CacheAll, NoDeltas, Touched;
    var o := Unlink(NoDelta, t, k, ts, parentTs, conflict);
    if o.reply.Success? {
      var i, logs := t.store.entries[k].ino, [LogItem(k.parent, Stamps(parentTs))];
      var left := OneLinkLess(t.store.inodes[i], ts);
      var dying := left.nlink == 0 && HandleCount(t.mem, i) == 0;
      var st := UnlinkStore(t.store, k, dying, ts);
      SameDeltas(t.store, st);
      var cache := if dying then t.mem.cache - {i} else t.mem.cache[i := left];
      LogIsPlain(st, t.mem.seqs, logs, cache, if dying then Some(i) else None, o.state);
    }
  }

  lemma RmdirIsPlain(t: State, k: DirKey, ts: u64, conflict: bool)
    requires Plain(t)
    ensures Plain(Rmdir(NoDelta, t, k, ts, conflict).state)
  {
    hide LogAll, CacheAll, NoDeltas, DirEmpty;
    var o := Rmdir(NoDelta, t, k, ts, conflict);
    if o.reply.Success? {
      var i := t.store.entries[k].ino;
      SameDeltas(t.store, RmdirStore(t.store, k));
      LogIsPlain(RmdirStore(t.store, k), t.mem.seqs, RmdirLogs(k, ts), t.mem.cache - {i}, Some(i), o.state);
    }
  }

  lemma RenameIsPlain(t: State, k: DirKey, k2: DirKey, ts: u64, conflict: bool)
    requires Plain(t)
    ensures Plain(Rename(NoDelta, t, k, k2, ts, conflict).state)
  {
    hide LogAll, CacheAll, NoDeltas, DirEmpty, RenameLogsOf;
    var o, st := Rename(NoDelta, t, k, k2, ts, conflict), t.store;
    if o.reply.Success? {
      var src := st.entries[k].ino;
      var gone := if k2 in st.entries then Some(st.entries[k2].ino) else None;
      var kept := if gone.Some? then t.mem.cache - {gone.value} else t.mem.cache;
      SameDeltas(st, RenameStore(st, k, k2, ts));
      LogIsPlain(RenameStore(st, k, k2, ts), t.mem.seqs, RenameLogsOf(st, k, k2, ts),
                 kept[src := st.inodes[src].(ctime := ts)], gone, o.state);
    }
  }

  lemma LinkIsPlain(t: State, k: DirKey, target: Ino, ts: u64, parentTs: u64, conflict: bool)
    requires Plain(t)
    ensures Plain(Link(NoDelta, t, k, target, ts, parentTs, conflict).state)
  {
    hide LogAll, CacheAll, NoDeltas;
    var o := Link(NoDelta, t, k, target, ts, parentTs, conflict);
    if o.reply.Success? {
      var st := LinkStore(t.store, k, target, ts);
      SameDeltas(t.store, st);
      LogIsPlain(st, t.mem.seqs, [LogItem(k.parent, Stamps(parentTs))],
                 t.mem.cache[target := OneLinkMore(t.store.inodes[target], ts)], None, o.state);
    }
  }

  lemma PutIsPlain(t: State, i: Ino, v: InodeValue)
    requires Plain(t)
    ensures Plain(PutBase(t, i, v))
  {
    hide NoDeltas;
    SameDeltas(t.store, PutBase(t, i, v).store);
  }

  lemma LoadIsPlain(t: State, i: Ino)
    requires Plain(t)
    ensures Plain(Load(t, i).state) && Load(t, i).state.store == t.store
    ensures Load(t, i).reply == if i in t.store.inodes then Success(Attr(t.store.inodes[i])) else Failure(NotFound)
  {
    assert DeltasOf(t.store, i) == [] && Ops([]) == [];
  }

  lemma OpenIsPlain(t: State, i: Ino, truncate: bool, ts: u64, conflict: bool)
    requires Plain(t)
    ensures Plain(Open(t, i, truncate, ts, conflict).state)
  {
    hide Plain, Effective;
    LoadIsPlain(t, i);
    var t1 := Load(t, i).state;
    HandlesArePlain(t1, AddHandle(t1.mem, i));
    if i in t.store.inodes {
      var t2 := PutBase(t1, i, Truncated(t.store.inodes[i], ts));
      PutIsPlain(t1, i, Truncated(t.store.inodes[i], ts));
      HandlesArePlain(t2, AddHandle(t2.mem, i));
    }
  }

  lemma HandlesArePlain(t: State, m: Mem)
    requires Plain(t) && m.cache == t.mem.cache
    ensures Plain(t.(mem := m))
  {
  }

  lemma ReleaseIsPlain(t: State, i: Ino, conflict: bool)
    requires Plain(t)
    ensures Plain(Release(t, i, conflict).state)
  {
    var t' := Release(t, i, conflict).state;
    forall j: Ino ensures DeltasOf(t'.store, j) == [] {
      assert DeltasOf(t.store, j) == [];
    }
  }

  /** There is nothing to compact. */
  lemma CompactionIsPlain(t: State, candidates: set<Ino>, blocked: set<Ino>)
    requires Plain(t)
    ensures Compactable(t, candidates, blocked) == {} && CompactAll(t, {}).store == t.store &&
            CompactAll(t, {}).mem == t.mem
  {
    hide Effective;
    var some := Compactable(t, candidates, blocked);
    assert some == set i | i in some && DeltasOf(t.store, i) != [];
    assert CompactAll(t, {}).store.inodes == t.store.inodes && CompactAll(t, {}).store.deltas == t.store.deltas;
    assert CompactAll(t, {}).mem.cache == t.mem.cache;
  }

  /** Every attempt, without any condition on callers. */
  lemma StepIsPlain(t: State, a: Attempt)
    requires Plain(t)
    ensures Plain(Step(NoDelta, t, a).state)
  {
    hide Plain, AddNode, Unlink, Rmdir, Rename, Link, Load, Open, Release, CompactAll, Compactable, WithAttrs;
    match a.op {
      case DoCreate(k, mode, uid, gid, ts) => AddNodeIsPlain(t, k, NewFile(t.mem.next, mode, uid, gid, ts), a.conflict);
      case DoCreateAndOpen(k, mode, uid, gid, ts) =>
        AddNodeIsPlain(t, k, NewFile(t.mem.next, mode, uid, gid, ts), a.conflict);
        var t1 := Create(NoDelta, t, k, mode, uid, gid, ts, a.conflict).state;
        HandlesArePlain(t1, AddHandle(t1.mem, t.mem.next));
      case DoMkdir(k, mode, uid, gid, ts) => AddNodeIsPlain(t, k, NewDir(t.mem.next, mode, uid, gid, ts), a.conflict);
      case DoSymlink(k, link, uid, gid, ts) =>
        AddNodeIsPlain(t, k, NewSymlink(t.mem.next, link, uid, gid, ts), a.conflict);
      case DoUnlink(k, ts, parentTs) => UnlinkIsPlain(t, k, ts, parentTs, a.conflict);
      case DoRmdir(k, ts) => RmdirIsPlain(t, k, ts, a.conflict);
      case DoRename(k, k2, ts) => RenameIsPlain(t, k, k2, ts, a.conflict);
      case DoLink(k, target, ts, parentTs) => LinkIsPlain(t, k, target, ts, parentTs, a.conflict);
      case DoSetAttr(i, req, ts) =>
        if i in t.store.inodes { PutIsPlain(t, i, WithAttrs(t.store.inodes[i], req, ts)); }
      case DoReportWrite(i, newSize, mtime) =>
        if i in t.store.inodes { PutIsPlain(t, i, Written(t.store.inodes[i], newSize, mtime)); }
      case DoLoad(i) => LoadIsPlain(t, i);
      case DoOpen(i, truncate, ts) => OpenIsPlain(t, i, truncate, ts, a.conflict);
      case DoRelease(i) => ReleaseIsPlain(t, i, a.conflict);
      case DoCompact(i) => CompactionIsPlain(t, {i}, if a.conflict then {i} else {});
      case DoCompactDirty(threshold, blocked) =>
        CompactionIsPlain(t, t.mem.dirty, blocked);
        assert DueForCompaction(t, threshold, blocked) == {};
        HandlesArePlain(t, t.mem.(dirty := t.mem.dirty - {}));
      case DoFlushAll(blocked) =>
        CompactionIsPlain(t, t.mem.dirty, blocked);
        HandlesArePlain(t, t.mem.(dirty := {}));
      case DoEvict(i) => EvictIsPlain(t, i);
    }
  }

  lemma EvictIsPlain(t: State, i: Ino)
    requires Plain(t)
    ensures Plain(Evict(t, i).state)
  {
  }

  lemma {:induction false} RunIsPlain(t: State, run: seq<Attempt>)
    requires Plain(t)
    ensures Plain(Run(NoDelta, t, run))
  {
    hide Plain, Step;
    if run != [] {
      RunIsPlain(t, run[..|run| - 1]);
      StepIsPlain(Run(NoDelta, t, run[..|run| - 1]), run[|run| - 1]);
    }
  }

  /**
   After any run that both theorems cover, the two builds answer a read of a linked inode, file or
   directory, with the same type, permissions, owner, size and link count, and with the same times if
   times were respected.
   */
  lemma ReadsAgree(times: bool, uid: u32, gid: u32, ts: u64, run: seq<Attempt>, i: Ino)
    requires var z := Formatted(uid, gid, ts); RefinementRun(times, z, run) && CacheRun(z, run)
    requires var s := Run(WithDeltas, Formatted(uid, gid, ts), run); i in s.store.inodes && Linked(s.store.entries, i)
    ensures var x := Load(Run(WithDeltas, Formatted(uid, gid, ts), run), i).reply;
            var y := Load(Run(NoDelta, Formatted(uid, gid, ts), run), i).reply;
            x.Success? && y.Success? && x.value.Attr? && y.value.Attr? &&
              Agree(times, true, x.value.value, y.value.value)
  {
    hide Run, RefinementRun, CacheRun, Inv, Effective, Plain, Linked, Load, Agree;
    var z := Formatted(uid, gid, ts);
    FormattedInv(uid, gid, ts);
    FormattedIsPlain(uid, gid, ts);
    DeltaBuildRefinesPlain(times, uid, gid, ts, run, i);
    CacheIsTransparent(z, run, i);
    RunIsPlain(z, run);
    LoadIsPlain(Run(NoDelta, z, run), i);
  }

  lemma FormattedIsPlain(uid: u32, gid: u32, ts: u64)
    ensures Plain(Formatted(uid, gid, ts)) && Coherent(map[], Formatted(uid, gid, ts).store)
  {
  }

  /** Under a clock that never goes back the answers are identical. */
  lemma ClockedReadsAgree(uid: u32, gid: u32, ts: u64, run: seq<Attempt>, clock: seq<u64>, i: Ino)
    requires var z := Formatted(uid, gid, ts); ClockedRun(z, run, clock) && CacheRun(z, run)
    requires var s := Run(WithDeltas, Formatted(uid, gid, ts), run); i in s.store.inodes && Linked(s.store.entries, i)
    ensures Load(Run(WithDeltas, Formatted(uid, gid, ts), run), i).reply ==
            Load(Run(NoDelta, Formatted(uid, gid, ts), run), i).reply
  {
    hide Run, ClockedRun, CacheRun, Inv, Effective, Plain, Linked, Load;
    var z := Formatted(uid, gid, ts);
    FormattedInv(uid, gid, ts);
    FormattedIsPlain(uid, gid, ts);
    ClockedBuildsAgree(uid, gid, ts, run, clock, i);
    CacheIsTransparent(z, run, i);
    RunIsPlain(z, run);
    LoadIsPlain(Run(NoDelta, z, run), i);
  }
}
