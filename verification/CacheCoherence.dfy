/**
 The folded-inode cache is transparent: along every run a cached value is the stored base folded
 with its pending deltas, so a read returns the same on a hit and on a miss.
 */
module CacheCoherence {
  import opened Types
  import opened Wrappers
  import opened DeltaFold
  import opened Server
  import opened Logging
  import opened Tree
  import opened Links
  import opened Invariants
  import opened Preservation
  import opened Namespace

  ghost predicate Coherent(cache: Inodes, st: Store) {
    forall i :: i in cache ==> i in st.inodes && cache[i] == Effective(st, i)
  }

  /** Value `v`, written as the base of `i`, is already what its pending deltas make of it. */
  ghost predicate Settled(st: Store, i: Ino, v: InodeValue) {
    Fold(v, Ops(DeltasOf(st, i))) == v
  }

  lemma QuietIsSettled(st: Store, i: Ino, v: InodeValue)
    requires DeltasOf(st, i) == []
    ensures Settled(st, i, v)
  {
    assert Ops([]) == [];
  }

  /**
   setattr, report_write and rename cache the base they have locked, so on a directory they must
   meet no pending delta that would still change it.
   */
  ghost predicate CacheAllowed(s: State, a: Attempt) {
    var st := s.store;
    && Allowed(s, a)
    && (a.op.DoSetAttr? && a.op.i in st.inodes ==>
          Settled(st, a.op.i, WithAttrs(st.inodes[a.op.i], a.op.req, a.op.ts)))
    && (a.op.DoReportWrite? && a.op.i in st.inodes ==>
          Settled(st, a.op.i, Written(st.inodes[a.op.i], a.op.newSize, a.op.mtime)))
    && (a.op.DoRename? && a.op.k in st.entries && st.entries[a.op.k].ino in st.inodes ==>
          Settled(st, st.entries[a.op.k].ino, st.inodes[st.entries[a.op.k].ino].(ctime := a.op.ts)))
  }

  // ------------------------------------------------------------------ shared steps

  /** Logging to the store and to the cache keeps them in step. */
  lemma LogCoherent(st: Store, seqs: map<Ino, nat>, logs: seq<LogItem>, gone: Option<Ino>, u: Store, cache: Inodes)
    requires LoggedStore(st, seqs, logs, gone, u) && Coherent(cache, st)
    requires gone.Some? && gone.value in cache ==> DeltasOf(st, gone.value) == [] && gone.value !in Touched(logs)
    ensures Coherent(CacheAll(cache, logs), u)
  {
    LoggedDeltas(st, seqs, logs, gone, u);
    CacheAllFolds(cache, logs);
    var t := LogAll(WithDeltas, Txn(st, seqs), logs).store;
    LoggedDeltas(st, seqs, logs, None, t);
    forall i | i in cache ensures i in u.inodes && CacheAll(cache, logs)[i] == Effective(u, i) {
      LogAllEffective(Txn(st, seqs), logs, i);
      if gone == Some(i) {
        OpsForUntouched(logs, i);
        assert Numbered(NextSeq(seqs, i), []) == [];
      }
      assert DeltasOf(u, i) == DeltasOf(t, i);
    }
  }

  /** Writing a settled base and caching it. */
  lemma CoherentPut(cache: Inodes, st: Store, i: Ino, v: InodeValue)
    requires Coherent(cache, st) && Settled(st, i, v)
    ensures Coherent(cache[i := v], st.(inodes := st.inodes[i := v]))
  {
    var u := st.(inodes := st.inodes[i := v]);
    forall j: Ino ensures DeltasOf(u, j) == DeltasOf(st, j) {
    }
  }

  // ------------------------------------------------------------------ operations

  lemma AddNodeCoherent(s: State, k: DirKey, n: NewNode, conflict: bool)
    requires Inv(s) && Coherent(s.mem.cache, s.store) && NewNodeAllowed(s, k)
    ensures var s' := AddNode(WithDeltas, s, k, n, conflict).state; Coherent(s'.mem.cache, s'.store)
  {
    hide IsTree, FileLinks, DirLinks, LiveLogs, WellTyped, Deferred, LogAll, CacheAll, LiveDir, Coherent, Settled;
    var i, st := s.mem.next, s.store;
    if k !in st.entries && |k.name| <= NAME_MAX && !conflict {
      UnusedNumber(st, i);
      QuietIsSettled(st, i, n.value);
      CoherentPut(s.mem.cache, st, i, n.value);
      NodeStoreCoherent(s.mem.cache[i := n.value], st, i, k, n);
      LogCoherent(NodeStore(st, i, k, n), s.mem.seqs, NewLogs(k, n), None,
                  AddNode(WithDeltas, s, k, n, conflict).state.store, s.mem.cache[i := n.value]);
    }
  }

  lemma NodeStoreCoherent(cache: Inodes, st: Store, i: Ino, k: DirKey, n: NewNode)
    requires Coherent(cache, st.(inodes := st.inodes[i := n.value]))
    ensures Coherent(cache, NodeStore(st, i, k, n))
  {
    var v, u := st.(inodes := st.inodes[i := n.value]), NodeStore(st, i, k, n);
    forall j: Ino ensures DeltasOf(u, j) == DeltasOf(v, j) {
    }
  }

  lemma UnlinkCoherent(s: State, k: DirKey, ts: u64, parentTs: u64, conflict: bool)
    requires Inv(s) && Coherent(s.mem.cache, s.store)
    ensures var s' := Unlink(WithDeltas, s, k, ts, parentTs, conflict).state; Coherent(s'.mem.cache, s'.store)
  {
    hide IsTree, FileLinks, DirLinks, LiveLogs, WellTyped, Deferred, LogAll, CacheAll, LiveDir, Coherent, CacheTyped,
      IsDir, Settled;
    var o, st := Unlink(WithDeltas, s, k, ts, parentTs, conflict), s.store;
    if o.reply.Success? {
      var i := st.entries[k].ino;
      var left := OneLinkLess(st.inodes[i], ts);
      var dying := left.nlink == 0 && HandleCount(s.mem, i) == 0;
      var st1, logs := UnlinkStore(st, k, dying, ts), [LogItem(k.parent, Stamps(parentTs))];
      EntryTypes(st.inodes, st.entries, k);
      FilesAreQuiet(s.store, i);
      if dying {
        UnlinkStoreCoherent(s.mem.cache - {i}, s.mem.cache, st, st1, i);
        LogCoherent(st1, s.mem.seqs, logs, Some(i), o.state.store, s.mem.cache - {i});
      } else {
        QuietIsSettled(st, i, left);
        CoherentPut(s.mem.cache, st, i, left);
        SameRowsCoherent(s.mem.cache[i := left], st.(inodes := st.inodes[i := left]), st1);
        LogCoherent(st1, s.mem.seqs, logs, None, o.state.store, s.mem.cache[i := left]);
      }
    }
  }

  lemma SameRowsCoherent(cache: Inodes, st: Store, u: Store)
    requires Coherent(cache, st) && u.inodes == st.inodes && u.deltas == st.deltas
    ensures Coherent(cache, u)
  {
    forall j: Ino ensures DeltasOf(u, j) == DeltasOf(st, j) {
    }
  }

  lemma UnlinkStoreCoherent(cache: Inodes, old_: Inodes, st: Store, u: Store, i: Ino)
    requires Coherent(old_, st) && cache == old_ - {i} && u.inodes == st.inodes - {i} && u.deltas == st.deltas
    ensures Coherent(cache, u)
  {
    forall j: Ino ensures DeltasOf(u, j) == DeltasOf(st, j) {
    }
  }

  lemma RmdirCoherent(s: State, k: DirKey, ts: u64, conflict: bool)
    requires Inv(s) && Coherent(s.mem.cache, s.store)
    ensures var s' := Rmdir(WithDeltas, s, k, ts, conflict).state; Coherent(s'.mem.cache, s'.store)
  {
    hide IsTree, FileLinks, DirLinks, LiveLogs, WellTyped, Deferred, LogAll, CacheAll, LiveDir, Coherent, CacheTyped,
      IsDir;
    var o, st := Rmdir(WithDeltas, s, k, ts, conflict), s.store;
    if o.reply.Success? {
      var i := st.entries[k].ino;
      UnlinkStoreCoherent(s.mem.cache - {i}, s.mem.cache, st, RmdirStore(st, k), i);
      LogCoherent(RmdirStore(st, k), s.mem.seqs, RmdirLogs(k, ts), Some(i), o.state.store, s.mem.cache - {i});
    }
  }

  lemma LinkCoherent(s: State, k: DirKey, target: Ino, ts: u64, parentTs: u64, conflict: bool)
    requires Inv(s) && Coherent(s.mem.cache, s.store)
    ensures var s' := Link(WithDeltas, s, k, target, ts, parentTs, conflict).state; Coherent(s'.mem.cache, s'.store)
  {
    hide IsTree, FileLinks, DirLinks, LiveLogs, WellTyped, Deferred, LogAll, CacheAll, LiveDir, Coherent, CacheTyped,
      IsDir, Settled;
    var o, st := Link(WithDeltas, s, k, target, ts, parentTs, conflict), s.store;
    if o.reply.Success? {
      var v, st1 := OneLinkMore(st.inodes[target], ts), LinkStore(st, k, target, ts);
      FilesAreQuiet(s.store, target);
      QuietIsSettled(st, target, v);
      CoherentPut(s.mem.cache, st, target, v);
      SameRowsCoherent(s.mem.cache[target := v], st.(inodes := st.inodes[target := v]), st1);
      LogCoherent(st1, s.mem.seqs, [LogItem(k.parent, Stamps(parentTs))], None, o.state.store,
        s.mem.cache[target := v]);
    }
  }

  /** The rows that a rename has written before it logs, against the cache it leaves. */
  lemma RenameStoreCoherent(s: State, k: DirKey, k2: DirKey, ts: u64)
    requires Coherent(s.mem.cache, s.store) && RenameRefusal(s.store, k, k2).None?
    requires var src := s.store.entries[k].ino; Settled(s.store, src, s.store.inodes[src].(ctime := ts))
    ensures var st := s.store; var src := st.entries[k].ino;
            var c := if k2 in st.entries then s.mem.cache - {st.entries[k2].ino} else s.mem.cache;
            Coherent(c[src := st.inodes[src].(ctime := ts)], RenameStore(st, k, k2, ts))
  {
    hide RenameRefusal;
    var st, u := s.store, RenameStore(s.store, k, k2, ts);
    forall j: Ino ensures DeltasOf(u, j) == DeltasOf(st, j) {
    }
  }

  lemma RenameCoherent(s: State, k: DirKey, k2: DirKey, ts: u64, conflict: bool)
    requires Inv(s) && Coherent(s.mem.cache, s.store) && RenameAllowed(s.store.entries, k, k2)
    requires k in s.store.entries && s.store.entries[k].ino in s.store.inodes ==>
               Settled(s.store, s.store.entries[k].ino, s.store.inodes[s.store.entries[k].ino].(ctime := ts))
    ensures var s' := Rename(WithDeltas, s, k, k2, ts, conflict).state; Coherent(s'.mem.cache, s'.store)
  {
    hide IsTree, FileLinks, DirLinks, LiveLogs, WellTyped, Deferred, LogAll, CacheAll, LiveDir, Coherent, CacheTyped,
      IsDir, RenameLogsOf, RenameStore, RoomForSubdir, Descends, Settled;
    var o, st := Rename(WithDeltas, s, k, k2, ts, conflict), s.store;
    if o.reply.Success? {
      var src := st.entries[k].ino;
      var gone := if k2 in st.entries then Some(st.entries[k2].ino) else None;
      var kept := if k2 in st.entries then s.mem.cache - {st.entries[k2].ino} else s.mem.cache;
      var c := kept[src := st.inodes[src].(ctime := ts)];
      RenameStoreCoherent(s, k, k2, ts);
      if k == k2 {
        InPlaceIsQuiet(s, k, ts);
      }
      LogCoherent(RenameStore(st, k, k2, ts), s.mem.seqs, RenameLogsOf(st, k, k2, ts), gone, o.state.store, c);
    }
  }

  lemma InPlaceIsQuiet(s: State, k: DirKey, ts: u64)
    requires Inv(s) && k in s.store.entries && !IsDir(s.store.entries[k].mode) && RenameRefusal(s.store, k, k).None?
    ensures DeltasOf(RenameStore(s.store, k, k, ts), s.store.entries[k].ino) == []
    ensures s.store.entries[k].ino !in Touched(RenameLogsOf(s.store, k, k, ts))
  {
    hide IsTree, FileLinks, DirLinks, LiveLogs, Deferred, CacheTyped;
    var st, i := s.store, s.store.entries[k].ino;
    EntryTypes(st.inodes, st.entries, k);
    FilesAreQuiet(s.store, i);
    assert i != k.parent;
  }

  lemma ReleaseCoherent(s: State, i: Ino, conflict: bool)
    requires Coherent(s.mem.cache, s.store)
    ensures var s' := Release(s, i, conflict).state; Coherent(s'.mem.cache, s'.store)
  {
    var s' := Release(s, i, conflict).state;
    forall j: Ino | j != i ensures DeltasOf(s'.store, j) == DeltasOf(s.store, j) {
    }
  }

  lemma LoadCoherent(s: State, i: Ino)
    requires Coherent(s.mem.cache, s.store)
    ensures var s' := Load(s, i).state; s'.store == s.store && Coherent(s'.mem.cache, s.store)
  {
  }

  lemma OpenCoherent(s: State, i: Ino, truncate: bool, ts: u64, conflict: bool)
    requires Inv(s) && Coherent(s.mem.cache, s.store)
    ensures var s' := Open(s, i, truncate, ts, conflict).state; Coherent(s'.mem.cache, s'.store)
  {
    hide IsTree, FileLinks, DirLinks, LiveLogs, WellTyped, Deferred, Coherent, Settled;
    LoadCoherent(s, i);
    LoadKeepsInv(s, i);
    var s1 := Load(s, i).state;
    if i in s.store.inodes && !IsDir(s.store.inodes[i].mode) {
      FilesAreQuiet(s.store, i);
      QuietIsSettled(s.store, i, Truncated(s.store.inodes[i], ts));
      CoherentPut(s1.mem.cache, s.store, i, Truncated(s.store.inodes[i], ts));
    }
  }

  lemma CompactCoherent(s: State, chosen: set<Ino>)
    requires Coherent(s.mem.cache, s.store) && chosen <= s.store.inodes.Keys
    ensures var s' := CompactAll(s, chosen); Coherent(s'.mem.cache, s'.store)
  {
    var s' := CompactAll(s, chosen);
    forall i | i in s'.mem.cache ensures i in s'.store.inodes && s'.mem.cache[i] == Effective(s'.store, i) {
      CompactAllEffective(s, chosen, i);
    }
  }

  // ------------------------------------------------------------------ steps and runs

  lemma StepCoherent(s: State, a: Attempt)
    requires Inv(s) && Coherent(s.mem.cache, s.store) && CacheAllowed(s, a)
    ensures var s' := Step(WithDeltas, s, a).state; Coherent(s'.mem.cache, s'.store)
  {
    hide Inv, Coherent, Unlink, Rmdir, Rename, Link, AddNode, Open, Release, CompactAll, WithAttrs, Settled;
    var st := s.store;
    match a.op {
      case DoCreate(k, mode, uid, gid, ts) =>
        AddNodeCoherent(s, k, NewFile(s.mem.next, mode, uid, gid, ts), a.conflict);
      case DoCreateAndOpen(k, mode, uid, gid, ts) =>
        AddNodeCoherent(s, k, NewFile(s.mem.next, mode, uid, gid, ts), a.conflict);
      case DoMkdir(k, mode, uid, gid, ts) => AddNodeCoherent(s, k, NewDir(s.mem.next, mode, uid, gid, ts), a.conflict);
      case DoSymlink(k, link, uid, gid, ts) =>
        AddNodeCoherent(s, k, NewSymlink(s.mem.next, link, uid, gid, ts), a.conflict);
      case DoUnlink(k, ts, parentTs) => UnlinkCoherent(s, k, ts, parentTs, a.conflict);
      case DoRmdir(k, ts) => RmdirCoherent(s, k, ts, a.conflict);
      case DoRename(k, k2, ts) => RenameCoherent(s, k, k2, ts, a.conflict);
      case DoLink(k, target, ts, parentTs) => LinkCoherent(s, k, target, ts, parentTs, a.conflict);
      case DoSetAttr(i, req, ts) =>
        if i in st.inodes { CoherentPut(s.mem.cache, st, i, WithAttrs(st.inodes[i], req, ts)); }
      case DoReportWrite(i, newSize, mtime) =>
        if i in st.inodes { CoherentPut(s.mem.cache, st, i, Written(st.inodes[i], newSize, mtime)); }
      case DoLoad(i) => LoadCoherent(s, i);
      case DoOpen(i, truncate, ts) => OpenCoherent(s, i, truncate, ts, a.conflict);
      case DoRelease(i) => ReleaseCoherent(s, i, a.conflict);
      case DoCompact(i) => CompactCoherent(s, Compactable(s, {i}, if a.conflict then {i} else {}));
      case DoCompactDirty(threshold, blocked) => CompactCoherent(s, DueForCompaction(s, threshold, blocked));
      case DoFlushAll(blocked) => CompactCoherent(s, Compactable(s, s.mem.dirty, blocked));
      case DoEvict(i) => EvictCoherent(s, i);
    }
  }

  lemma EvictCoherent(s: State, i: Ino)
    requires Coherent(s.mem.cache, s.store)
    ensures Coherent(s.mem.cache - {i}, s.store)
  {
  }

  ghost predicate CacheRun(s: State, run: seq<Attempt>) {
    run == [] ||
    var front, last := run[..|run| - 1], run[|run| - 1];
    CacheRun(s, front) && CacheAllowed(Run(WithDeltas, s, front), last)
  }

  lemma {:induction false} RunCoherent(s: State, run: seq<Attempt>)
    requires Inv(s) && Coherent(s.mem.cache, s.store) && CacheRun(s, run)
    ensures var s' := Run(WithDeltas, s, run); Inv(s') && Coherent(s'.mem.cache, s'.store)
  {
    hide Inv, Coherent, Step, Allowed, Settled, WithAttrs, Written;
    if run != [] {
      var front, last := run[..|run| - 1], run[|run| - 1];
      RunCoherent(s, front);
      StepKeepsInv(Run(WithDeltas, s, front), last);
      StepCoherent(Run(WithDeltas, s, front), last);
    }
  }

  /** After any such run a read returns the folded value of a stored inode and fails on any other, hit or miss. */
  lemma CacheIsTransparent(s: State, run: seq<Attempt>, i: Ino)
    requires Inv(s) && Coherent(s.mem.cache, s.store) && CacheRun(s, run)
    ensures var s' := Run(WithDeltas, s, run);
            Load(s', i).reply ==
              if i in s'.store.inodes then Success(Attr(Effective(s'.store, i))) else Failure(NotFound)
  {
    hide Inv, CacheRun;
    RunCoherent(s, run);
  }

  /** A value is settled exactly when the pending link changes cancel out and no pending time is later than its own. */
  lemma SettledIff(st: Store, i: Ino, v: InodeValue)
    requires ExactFold(v.nlink, Ops(DeltasOf(st, i)))
    ensures var ops := Ops(DeltasOf(st, i));
            Settled(st, i, v) <==>
            NetLinks(ops) == 0 && LatestMtime(ops) <= v.mtime && LatestCtime(ops) <= v.ctime &&
              LatestAtime(ops) <= v.atime
  {
    var ops := Ops(DeltasOf(st, i));
    FoldByField(v, ops);
    ExactIsInteger(v.nlink, ops, |ops|);
    assert ops[..|ops|] == ops;
  }

  /** In a reachable state the pending deltas of every stored inode are exact. */
  lemma LogsAreExact(s: State, i: Ino)
    requires Inv(s) && i in s.store.inodes
    ensures ExactFold(s.store.inodes[i].nlink, Ops(DeltasOf(s.store, i)))
  {
    hide IsTree, FileLinks, Deferred, CacheTyped, WellTyped, LiveDir, Subdirs;
    if DeltasOf(s.store, i) != [] {
      assert LiveDir(s.store.entries, i);
      assert ExactLog(s.store, i);
    } else {
      assert Ops([]) == [];
    }
  }

  /**
   Writing a locked base and caching it as it is, which setattr, report_write and rename do, keeps the
   cache coherent exactly when the pending link changes cancel out and no pending time is later.
   */
  lemma PutBaseCoherentIff(s: State, i: Ino, v: InodeValue)
    requires Inv(s) && Coherent(s.mem.cache, s.store) && i in s.store.inodes && v.nlink == s.store.inodes[i].nlink
    ensures var s', ops := PutBase(s, i, v), Ops(DeltasOf(s.store, i));
            Coherent(s'.mem.cache, s'.store) <==>
            NetLinks(ops) == 0 && LatestMtime(ops) <= v.mtime && LatestCtime(ops) <= v.ctime &&
              LatestAtime(ops) <= v.atime
  {
    hide Inv;
    var s' := PutBase(s, i, v);
    LogsAreExact(s, i);
    SettledIff(s.store, i, v);
    forall j: Ino ensures DeltasOf(s'.store, j) == DeltasOf(s.store, j) {
    }
    if Settled(s.store, i, v) {
      CoherentPut(s.mem.cache, s.store, i, v);
    } else {
      assert i in s'.mem.cache && s'.mem.cache[i] == v && s'.store.inodes[i] == v;
    }
  }

  lemma MkdirLog(b: InodeValue, ts: u64)
    requires b.nlink < TWO32 - 1
    ensures Fold(b, [IncrementNlink(1)] + Stamps(ts)).nlink == b.nlink + 1
  {
    FoldConcat(b, [IncrementNlink(1)], Stamps(ts));
    FoldOne(b, IncrementNlink(1));
    TwoSteps(Fold(b, [IncrementNlink(1)]), SetMtime(ts), SetCtime(ts));
  }

  /** The root after a first mkdir in it: the base still says two links and the new link is pending. */
  lemma RootAfterMkdir(uid: u32, gid: u32, ts: u64, k: DirKey, mode: u32, ts1: u64)
    requires k.parent == ROOT && |k.name| <= NAME_MAX
    ensures var s1 := Step(WithDeltas, Formatted(uid, gid, ts), Attempt(DoMkdir(k, mode, uid, gid, ts1), false)).state;
            && ROOT in s1.store.inodes && s1.store.inodes[ROOT].nlink == 2
            && DeltasOf(s1.store, ROOT) == Numbered(0, [IncrementNlink(1)] + Stamps(ts1))
  {
    hide LogAll, CacheAll, Unlink, Rmdir, Rename, Link, ReportWrite, Open, Release, Fold, FileType;
    var z := Formatted(uid, gid, ts);
    var n := NewDir(z.mem.next, mode, uid, gid, ts1);
    var st1 := NodeStore(z.store, z.mem.next, k, n);
    var ops := [IncrementNlink(1)] + Stamps(ts1);
    LogAllDeltas(Txn(st1, z.mem.seqs), NewLogs(k, n));
    OpsForOne(LogItem(ROOT, ops), ROOT);
    assert DeltasOf(st1, ROOT) == [] && [] + Numbered(0, ops) == Numbered(0, ops);
  }

  /**
   A run that serves a stale value: on a new server, make a directory in the root and then set any
   attributes of the root. The base goes into the cache without the pending link, so a read returns
   two links although the root has three.
   */
  lemma SetAttrAfterMkdirIsStale(uid: u32, gid: u32, ts: u64, name: Name, mode: u32, ts1: u64, req: SetAttrRequest,
                                 ts2: u64)
    requires |name| <= NAME_MAX
    ensures var mkdir := Attempt(DoMkdir(DirKey(ROOT, name), mode, uid, gid, ts1), false);
            var s1 := Step(WithDeltas, Formatted(uid, gid, ts), mkdir).state;
            var s2 := Step(WithDeltas, s1, Attempt(DoSetAttr(ROOT, req, ts2), false)).state;
            var read := Load(s2, ROOT).reply;
            && ROOT in s2.store.inodes && Effective(s2.store, ROOT).nlink == 3
            && read.Success? && read.value.Attr? && read.value.value.nlink == 2
  {
    hide AddNode, NewDir, Formatted, Unlink, Rmdir, Rename, Link, ReportWrite, Open, Release, Fold, FileType;
    var z, k := Formatted(uid, gid, ts), DirKey(ROOT, name);
    RootAfterMkdir(uid, gid, ts, k, mode, ts1);
    OpsNumbered(0, [IncrementNlink(1)] + Stamps(ts1));
    var s1 := Step(WithDeltas, z, Attempt(DoMkdir(k, mode, uid, gid, ts1), false)).state;
    var s2 := Step(WithDeltas, s1, Attempt(DoSetAttr(ROOT, req, ts2), false)).state;
    assert DeltasOf(s2.store, ROOT) == DeltasOf(s1.store, ROOT);
    MkdirLog(s2.store.inodes[ROOT], ts1);
  }
}
