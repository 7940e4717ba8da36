/** Every attempt that its caller may make keeps the namespace invariants. */
module Preservation {
  import opened Types
  import opened Wrappers
  import opened DeltaFold
  import opened Server
  import opened Logging
  import opened Tree
  import opened Links
  import opened Invariants

  // ------------------------------------------------------------------ create, mkdir, symlink

  /** The three kinds of new node: a file with one link, or a directory with two that adds one to its parent. */
  predicate GoodNode(n: NewNode) {
    && Storable(n.value.mode)
    && (if IsDir(n.value.mode) then n.value.nlink == 2 && n.links == [IncrementNlink(1)]
        else n.value.nlink == 1 && n.links == [])
  }

  lemma NodesAreGood(i: Ino, mode: u32, target: Name, uid: u32, gid: u32, ts: u64)
    ensures GoodNode(NewFile(i, mode, uid, gid, ts)) && !IsDir(NewFile(i, mode, uid, gid, ts).value.mode)
    ensures GoodNode(NewDir(i, mode, uid, gid, ts)) && IsDir(NewDir(i, mode, uid, gid, ts).value.mode)
    ensures GoodNode(NewSymlink(i, target, uid, gid, ts)) && !IsDir(NewSymlink(i, target, uid, gid, ts).value.mode)
  {
  }

  lemma LinksOfNode(k: DirKey, n: NewNode, i: Ino)
    requires GoodNode(n)
    ensures Added(NewLogs(k, n), i) == One(i == k.parent && IsDir(n.value.mode))
    ensures Removed(NewLogs(k, n), i) == 0
  {
    LinksOfOne(k.parent, n.links, n.value.mtime, i);
    if n.links != [] {
      SummariseOne(IncrementNlink(1));
    }
  }

  lemma AddWellTyped(I: Inodes, E: Entries, k: DirKey, i: Ino, v: InodeValue)
    requires WellTyped(I, E) && i !in I && Storable(v.mode) && LiveDir(E, k.parent)
    ensures WellTyped(I[i := v], E[k := Entry(i, v.mode)])
  {
    LiveDirIsStored(I, E, k.parent);
  }

  lemma AddFileLinks(I: Inodes, E: Entries, k: DirKey, i: Ino, v: InodeValue)
    requires WellTyped(I, E) && FileLinks(I, E) && i !in I && k !in E && (!IsDir(v.mode) ==> v.nlink == 1)
    ensures FileLinks(I[i := v], E[k := Entry(i, v.mode)])
  {
    var J, F := I[i := v], E[k := Entry(i, v.mode)];
    forall j | j in J && !IsDir(J[j].mode) ensures J[j].nlink == |Names(F, j)| {
      NamesAdd(E, k, F[k], j);
      if j == i {
        NoNames(E, i);
      }
    }
  }

  lemma LiveDirMonotone(E: Entries, k: DirKey, e: Entry, i: Ino)
    requires k !in E
    ensures LiveDir(E[k := e], i) <==> LiveDir(E, i) || (e.ino == i && IsDir(e.mode))
  {
    var F := E[k := e];
    assert F[k] == e;
    if LiveDir(E, i) && i != ROOT {
      var kk :| kk in E && E[kk].ino == i && IsDir(E[kk].mode);
      assert kk in F && F[kk] == E[kk];
    }
  }

  /** A number that is not stored has no deltas and no entries. */
  lemma UnusedNumber(st: Store, i: Ino)
    requires WellTyped(st.inodes, st.entries) && LiveLogs(st) && i !in st.inodes
    ensures DeltasOf(st, i) == [] && DirEmpty(st.entries, i) && !LiveDir(st.entries, i)
    ensures forall k :: k in st.entries ==> st.entries[k].ino != i
  {
    if LiveDir(st.entries, i) {
      LiveDirIsStored(st.inodes, st.entries, i);
    }
  }

  lemma AddCountsLand(st: Store, new_: Ino, k: DirKey, n: NewNode)
    requires WellTyped(st.inodes, st.entries) && LiveLogs(st) && DirLinks(st)
    requires GoodNode(n) && new_ !in st.inodes && k !in st.entries
    requires IsDir(n.value.mode) ==> RoomForSubdir(st.entries, k.parent)
    ensures k.parent in st.inodes ==> CountsLand(NodeStore(st, new_, k, n), NewLogs(k, n))
  {
    var u := NodeStore(st, new_, k, n);
    var F := u.entries;
    UnusedNumber(st, new_);
    NoSubdirs(st.entries, new_);
    if k.parent in st.inodes {
      forall i | i in u.inodes && LiveDir(F, i) ensures LinksLandOn(u, NewLogs(k, n), i, 2 + |Subdirs(F, i)|) {
        LinksOfNode(k, n, i);
        SubdirsAdd(st.entries, k, Entry(new_, n.value.mode), i);
        LiveDirMonotone(st.entries, k, F[k], i);
        assert DeltasOf(u, i) == DeltasOf(st, i);
        if i != new_ {
          assert Effective(u, i) == Effective(st, i);
        }
      }
    }
  }

  lemma AddLiveLogs(st: Store, seqs: map<Ino, nat>, new_: Ino, k: DirKey, n: NewNode, u: Store)
    requires LiveLogs(st) && k !in st.entries && LiveDir(st.entries, k.parent)
    requires LoggedStore(NodeStore(st, new_, k, n), seqs, NewLogs(k, n), None, u)
    ensures LiveLogs(u)
  {
    var st1 := NodeStore(st, new_, k, n);
    forall i | LiveDir(st.entries, i) ensures LiveDir(st1.entries, i) {
      LiveDirMonotone(st.entries, k, st1.entries[k], i);
    }
    forall i ensures DeltasOf(st1, i) == DeltasOf(st, i) {
    }
    LogLiveLogs(st1, seqs, NewLogs(k, n), None, u);
  }

  lemma CachePut(I: Inodes, cache: Inodes, i: Ino, v: InodeValue)
    requires CacheTyped(I, cache)
    ensures CacheTyped(I[i := v], cache[i := v])
  {
  }

  lemma AddNodeKeepsInv(s: State, k: DirKey, n: NewNode)
    requires Inv(s) && GoodNode(n) && k !in s.store.entries && NewNodeAllowed(s, k) && |k.name| <= NAME_MAX
    requires IsDir(n.value.mode) ==> RoomForSubdir(s.store.entries, k.parent)
    ensures Inv(AddNode(WithDeltas, s, k, n, false).state)
  {
    hide IsTree, FileLinks, DirLinks, LiveLogs, WellTyped, CacheTyped, LogAll, CacheAll, LiveDir, Descends,
      OpsFor, FileType, Storable, Touched, Fresh, Deferred, Names, Subdirs, Effective, Stamps, LoggedStore;
    AddFresh(s.store.inodes, s.mem, n.value);
    var i, I, E, logs := s.mem.next, s.store.inodes, s.store.entries, NewLogs(k, n);
    var st1 := NodeStore(s.store, i, k, n);
    var s' := AddNode(WithDeltas, s, k, n, false).state;
    var u := s'.store;
    LiveDirIsStored(I, E, k.parent);
    UnusedNumber(s.store, i);
    assert LoggedStore(st1, s.mem.seqs, logs, None, u) by { LoggedNone(st1, s.mem.seqs, logs); }
    LoggedDeltas(st1, s.mem.seqs, logs, None, u);
    assert u.inodes == I[i := n.value] && u.entries == E[k := Entry(i, n.value.mode)];
    AddWellTyped(I, E, k, i, n.value);
    LiveDirDescends(E, k.parent);
    TreeAdd(E, k, Entry(i, n.value.mode));
    AddFileLinks(I, E, k, i, n.value);
    AddCountsLand(s.store, i, k, n);
    LogDirLinks(st1, s.mem.seqs, logs, None, u);
    AddLiveLogs(s.store, s.mem.seqs, i, k, n, u);
    CachePut(I, s.mem.cache, i, n.value);
    ParentTouchesDir(u.inodes, k, n.links + Stamps(n.value.mtime));
    CacheAllTyped(u.inodes, s.mem.cache[i := n.value], logs);
  }

  lemma LoggedNone(st: Store, seqs: map<Ino, nat>, logs: seq<LogItem>)
    ensures LoggedStore(st, seqs, logs, None, LogAll(WithDeltas, Txn(st, seqs), logs).store)
  {
  }

  lemma AddFresh(I: Inodes, m: Mem, v: InodeValue)
    requires Fresh(I, m) && Deferred(I, m) && m.next + 1 < TWO64 && v.nlink > 0
    ensures m.next !in I && m.next != ROOT
    ensures forall m': Mem :: m'.handles == m.handles && m'.pending == m.pending && m'.next == NextIno(m.next) ==>
              Fresh(I[m.next := v], m') && Deferred(I[m.next := v], m')
  {
  }

  lemma ParentTouchesDir(I: Inodes, k: DirKey, ops: seq<DeltaOp>)
    requires k.parent in I ==> IsDir(I[k.parent].mode)
    ensures TouchesDirs(I, [LogItem(k.parent, ops)])
  {
  }

  lemma StoredParentIsDir(I: Inodes, E: Entries, k: DirKey)
    requires WellTyped(I, E) && k in E
    ensures k.parent in I && IsDir(I[k.parent].mode)
  {
  }

  // ------------------------------------------------------------------ unlink

  /** Whether a directory is linked after an entry has gone. */
  lemma LiveDirRemove(E: Entries, k: DirKey, i: Ino)
    requires IsTree(E) && k in E
    ensures LiveDir(E - {k}, i) <==> LiveDir(E, i) && !(IsDir(E[k].mode) && E[k].ino == i)
  {
    var F := E - {k};
    if LiveDir(E, i) && i != ROOT && !(IsDir(E[k].mode) && E[k].ino == i) {
      var kk :| kk in E && E[kk].ino == i && IsDir(E[kk].mode);
      assert kk in F && F[kk] == E[kk];
    }
  }

  /** The inode rows after an unlink. */
  function UnlinkInodes(I: Inodes, i: Ino, dying: bool, ts: u64): Inodes
    requires i in I
  {
    if dying then I - {i} else I[i := OneLinkLess(I[i], ts)]
  }

  lemma NamedFile(I: Inodes, E: Entries, k: DirKey)
    requires WellTyped(I, E) && FileLinks(I, E) && k in E && !IsDir(E[k].mode)
    ensures E[k].ino in I && !IsDir(I[E[k].ino].mode) && I[E[k].ino].nlink > 0
  {
    assert k in Names(E, E[k].ino);
  }

  lemma UnlinkWellTyped(I: Inodes, E: Entries, k: DirKey, dying: bool, ts: u64)
    requires WellTyped(I, E) && FileLinks(I, E) && k in E && !IsDir(E[k].mode)
    requires dying ==> I[E[k].ino].nlink == 1
    ensures WellTyped(UnlinkInodes(I, E[k].ino, dying, ts), E - {k})
  {
    var i := E[k].ino;
    NamedFile(I, E, k);
    CountRemove(E, k, i);
    NoNames(E - {k}, i);
  }

  lemma UnlinkFileLinks(I: Inodes, E: Entries, k: DirKey, dying: bool, ts: u64)
    requires WellTyped(I, E) && FileLinks(I, E) && k in E && !IsDir(E[k].mode)
    ensures FileLinks(UnlinkInodes(I, E[k].ino, dying, ts), E - {k})
  {
    var i := E[k].ino;
    var J, F := UnlinkInodes(I, i, dying, ts), E - {k};
    NamedFile(I, E, k);
    forall j | j in J && !IsDir(J[j].mode) ensures J[j].nlink == |Names(F, j)| {
      CountRemove(E, k, j);
    }
  }

  lemma StampsLinks(p: Ino, ts: u64, i: Ino)
    ensures Added([LogItem(p, Stamps(ts))], i) == 0 && Removed([LogItem(p, Stamps(ts))], i) == 0
  {
    LinksOfOne(p, [], ts, i);
    assert [] + Stamps(ts) == Stamps(ts);
  }

  lemma UnlinkCountsLand(st: Store, k: DirKey, dying: bool, ts: u64, parentTs: u64)
    requires WellTyped(st.inodes, st.entries) && IsTree(st.entries) && DirLinks(st)
    requires k in st.entries && !IsDir(st.entries[k].mode)
    ensures CountsLand(UnlinkStore(st, k, dying, ts), [LogItem(k.parent, Stamps(parentTs))])
  {
    var u := UnlinkStore(st, k, dying, ts);
    var logs := [LogItem(k.parent, Stamps(parentTs))];
    forall i | i in u.inodes && LiveDir(u.entries, i) ensures LinksLandOn(u, logs, i, 2 + |Subdirs(u.entries, i)|) {
      LiveDirRemove(st.entries, k, i);
      LiveDirIsStored(st.inodes, st.entries, i);
      StampsLinks(k.parent, parentTs, i);
      CountRemove(st.entries, k, i);
      assert DeltasOf(u, i) == DeltasOf(st, i);
      assert Effective(u, i) == Effective(st, i);
    }
  }

  /** Logs stay on linked directories when an entry goes, if its directory's own deltas go too. */
  lemma RemoveLiveLogs(st: Store, st1: Store, seqs: map<Ino, nat>, k: DirKey, ops: seq<DeltaOp>, gone: Option<Ino>,
                       u: Store)
    requires LiveLogs(st) && IsTree(st.entries) && k in st.entries
    requires IsDir(st.entries[k].mode) ==> gone == Some(st.entries[k].ino) && k.parent != st.entries[k].ino
    requires st1.entries == st.entries - {k} && st1.deltas == st.deltas
    requires LoggedStore(st1, seqs, [LogItem(k.parent, ops)], gone, u)
    ensures LiveLogs(u)
  {
    forall i | LiveDir(st.entries, i) && (IsDir(st.entries[k].mode) ==> i != st.entries[k].ino)
      ensures LiveDir(st1.entries, i)
    {
      LiveDirRemove(st.entries, k, i);
    }
    ParentIsLiveDir(st.entries, k);
    forall i: Ino ensures DeltasOf(st1, i) == DeltasOf(st, i) {
    }
    LogLiveLogs(st1, seqs, [LogItem(k.parent, ops)], gone, u);
  }

  lemma CacheDrop(I: Inodes, cache: Inodes, i: Ino)
    requires CacheTyped(I, cache)
    ensures CacheTyped(I - {i}, cache - {i})
  {
  }

  /** The pending set of an unlink follows the stored files without links. */
  lemma UnlinkDeferred(s: State, k: DirKey, ts: u64, dying: bool)
    requires Deferred(s.store.inodes, s.mem) && k in s.store.entries && s.store.entries[k].ino in s.store.inodes
    requires var i := s.store.entries[k].ino; var v := s.store.inodes[i];
             !IsDir(v.mode) && v.nlink > 0 && (dying <==> v.nlink == 1 && i !in s.mem.handles)
    ensures var i := s.store.entries[k].ino;
            Deferred(UnlinkInodes(s.store.inodes, i, dying, ts),
                     s.mem.(pending := if s.store.inodes[i].nlink == 1 && !dying then s.mem.pending + {i}
                                       else s.mem.pending))
  {
  }

  lemma DeferredDependsOn(I: Inodes, m: Mem, m': Mem)
    requires Deferred(I, m) && m'.pending == m.pending && m'.handles == m.handles
    ensures Deferred(I, m')
  {
  }

  /** An accepted unlink in terms of the rows it writes. */
  lemma UnlinkOutcome(s: State, k: DirKey, ts: u64, parentTs: u64, conflict: bool)
    requires Inv(s) && Step(WithDeltas, s, Attempt(DoUnlink(k, ts, parentTs), conflict)).reply.Success?
    ensures k in s.store.entries && !IsDir(s.store.entries[k].mode) && s.store.entries[k].ino in s.store.inodes
    ensures var o := Step(WithDeltas, s, Attempt(DoUnlink(k, ts, parentTs), conflict));
            var i, logs := s.store.entries[k].ino, [LogItem(k.parent, Stamps(parentTs))];
            var v := s.store.inodes[i];
            var left, dying := OneLinkLess(v, ts), v.nlink == 1 && i !in s.mem.handles;
            && v.nlink > 0
            && LoggedStore(UnlinkStore(s.store, k, dying, ts), s.mem.seqs, logs, if dying then Some(i) else None,
                           o.state.store)
            && o.reply == Success(Purged(if dying then [i] else []))
            && o.state.mem.cache == CacheAll(if dying then s.mem.cache - {i} else s.mem.cache[i := left], logs)
            && o.state.mem.handles == s.mem.handles && o.state.mem.next == s.mem.next
            && o.state.mem.pending == if v.nlink == 1 && !dying then s.mem.pending + {i} else s.mem.pending
  {
    hide LogAll, CacheAll, IsTree, DirLinks, CacheTyped, LiveDir, LiveLogs, AddNode, Rmdir, Rename, Link, Open, Release,
      CompactAll, WellTyped, FileLinks, IsDir, Touched;
    NamedFile(s.store.inodes, s.store.entries, k);
  }

  lemma UnlinkKeepsInv(s: State, k: DirKey, ts: u64, parentTs: u64)
    requires Inv(s)
    ensures Inv(Unlink(WithDeltas, s, k, ts, parentTs, false).state)
  {
    hide IsTree, FileLinks, DirLinks, LiveLogs, WellTyped, CacheTyped, Deferred, LogAll, CacheAll, LiveDir, Descends,
      OpsFor, FileType, Storable, Unlink, IsDir, CountsLand, TouchesDirs, LoggedStore;
    var o := Unlink(WithDeltas, s, k, ts, parentTs, false);
    assert o == Step(WithDeltas, s, Attempt(DoUnlink(k, ts, parentTs), false));
    var I, E := s.store.inodes, s.store.entries;
    if o.reply.Success? {
      UnlinkOutcome(s, k, ts, parentTs, false);
      var i := E[k].ino;
      NamedFile(I, E, k);
      var dying := I[i].nlink == 1 && i !in s.mem.handles;
      var J := UnlinkInodes(I, i, dying, ts);
      var st1 := UnlinkStore(s.store, k, dying, ts);
      var logs := [LogItem(k.parent, Stamps(parentTs))];
      var gone := if dying then Some(i) else None;
      var u := o.state.store;
      LoggedDeltas(st1, s.mem.seqs, logs, gone, u);
      assert u.inodes == J && u.entries == E - {k};
      UnlinkWellTyped(I, E, k, dying, ts);
      UnlinkFileLinks(I, E, k, dying, ts);
      TreeRemove(E, k);
      UnlinkCountsLand(s.store, k, dying, ts, parentTs);
      LogDirLinks(st1, s.mem.seqs, logs, gone, u);
      RemoveLiveLogs(s.store, st1, s.mem.seqs, k, Stamps(parentTs), gone, u);
      UnlinkMem(s, k, ts, parentTs, o.state.mem);
    } else {
      UnlinkFails(s, k, ts, parentTs);
    }
  }

  lemma UnlinkFails(s: State, k: DirKey, ts: u64, parentTs: u64)
    requires Unlink(WithDeltas, s, k, ts, parentTs, false).reply.Failure?
    ensures Unlink(WithDeltas, s, k, ts, parentTs, false).state == s
  {
    hide LogAll, CacheAll, IsDir;
  }

  /** Cache and pending deletes after an unlink. */
  lemma UnlinkMem(s: State, k: DirKey, ts: u64, parentTs: u64, m: Mem)
    requires Inv(s) && k in s.store.entries && !IsDir(s.store.entries[k].mode)
    requires s.store.entries[k].ino in s.store.inodes
    requires var i := s.store.entries[k].ino;
             var v, logs := s.store.inodes[i], [LogItem(k.parent, Stamps(parentTs))];
             var dying := v.nlink == 1 && i !in s.mem.handles;
             && m.cache == CacheAll(if dying then s.mem.cache - {i} else s.mem.cache[i := OneLinkLess(v, ts)], logs)
             && m.handles == s.mem.handles
             && m.pending == if v.nlink == 1 && !dying then s.mem.pending + {i} else s.mem.pending
    ensures var i := s.store.entries[k].ino;
            var J := UnlinkInodes(s.store.inodes, i, s.store.inodes[i].nlink == 1 && i !in s.mem.handles, ts);
            CacheTyped(J, m.cache) && Deferred(J, m)
  {
    hide IsTree, FileLinks, DirLinks, LiveLogs, WellTyped, CacheTyped, Deferred, CacheAll, LiveDir, FileType, IsDir,
      TouchesDirs;
    var I, E, i := s.store.inodes, s.store.entries, s.store.entries[k].ino;
    NamedFile(I, E, k);
    var dying := I[i].nlink == 1 && i !in s.mem.handles;
    var J, logs := UnlinkInodes(I, i, dying, ts), [LogItem(k.parent, Stamps(parentTs))];
    UnlinkWellTyped(I, E, k, dying, ts);
    UnlinkDeferred(s, k, ts, dying);
    StoredParentIsDir(I, E, k);
    ParentTouchesDir(J, k, Stamps(parentTs));
    if dying {
      CacheDrop(I, s.mem.cache, i);
      CacheAllTyped(J, s.mem.cache - {i}, logs);
      DeferredDependsOn(J, s.mem, m);
    } else {
      CachePut(I, s.mem.cache, i, J[i]);
      CacheAllTyped(J, s.mem.cache[i := J[i]], logs);
      DeferredDependsOn(J, s.mem.(pending := m.pending), m);
    }
  }

  // ------------------------------------------------------------------ rmdir

  lemma RmdirWellTyped(I: Inodes, E: Entries, k: DirKey)
    requires WellTyped(I, E) && IsTree(E) && k in E && IsDir(E[k].mode) && DirEmpty(E, E[k].ino)
    ensures WellTyped(I - {E[k].ino}, E - {k})
  {
  }

  lemma RmdirFileLinks(I: Inodes, E: Entries, k: DirKey)
    requires WellTyped(I, E) && FileLinks(I, E) && k in E && IsDir(E[k].mode)
    ensures FileLinks(I - {E[k].ino}, E - {k})
  {
    var J, F := I - {E[k].ino}, E - {k};
    forall j | j in J && !IsDir(J[j].mode) ensures J[j].nlink == |Names(F, j)| {
      CountRemove(E, k, j);
    }
  }

  lemma LinksOfRmdir(k: DirKey, ts: u64, i: Ino)
    ensures Added(RmdirLogs(k, ts), i) == 0 && Removed(RmdirLogs(k, ts), i) == One(i == k.parent)
  {
    hide Summarise, OpsFor;
    LinksOfOne(k.parent, [IncrementNlink(-1)], ts, i);
    SummariseOne(IncrementNlink(-1));
  }

  lemma RmdirCountsLand(st: Store, k: DirKey, ts: u64)
    requires WellTyped(st.inodes, st.entries) && IsTree(st.entries) && DirLinks(st)
    requires k in st.entries && IsDir(st.entries[k].mode)
    ensures CountsLand(RmdirStore(st, k), RmdirLogs(k, ts))
  {
    var u, logs := RmdirStore(st, k), RmdirLogs(k, ts);
    forall i | i in u.inodes && LiveDir(u.entries, i) ensures LinksLandOn(u, logs, i, 2 + |Subdirs(u.entries, i)|) {
      LiveDirRemove(st.entries, k, i);
      LinksOfRmdir(k, ts, i);
      CountRemove(st.entries, k, i);
      assert DeltasOf(u, i) == DeltasOf(st, i);
      assert Effective(u, i) == Effective(st, i);
    }
  }

  lemma DropDirectory(I: Inodes, m: Mem, i: Ino)
    requires Deferred(I, m) && i in I && IsDir(I[i].mode)
    ensures Deferred(I - {i}, m)
  {
  }

  lemma RmdirKeepsInv(s: State, k: DirKey, ts: u64)
    requires Inv(s)
    ensures Inv(Rmdir(WithDeltas, s, k, ts, false).state)
  {
    hide IsTree, FileLinks, DirLinks, LiveLogs, WellTyped, CacheTyped, Deferred, LogAll, CacheAll, LiveDir, Descends,
      OpsFor, FileType, Storable, Touched;
    var o := Rmdir(WithDeltas, s, k, ts, false);
    var I, E := s.store.inodes, s.store.entries;
    if o.reply.Success? {
      var i, st1, logs, u := E[k].ino, RmdirStore(s.store, k), RmdirLogs(k, ts), o.state.store;
      assert LoggedStore(st1, s.mem.seqs, logs, Some(i), u);
      LoggedDeltas(st1, s.mem.seqs, logs, Some(i), u);
      RmdirWellTyped(I, E, k);
      RmdirFileLinks(I, E, k);
      TreeRemove(E, k);
      RmdirCountsLand(s.store, k, ts);
      LogDirLinks(st1, s.mem.seqs, logs, Some(i), u);
      RemoveLiveLogs(s.store, st1, s.mem.seqs, k, [IncrementNlink(-1)] + Stamps(ts), Some(i), u);
      CacheDrop(I, s.mem.cache, i);
      StoredParentIsDir(I, E, k);
      ParentTouchesDir(u.inodes, k, [IncrementNlink(-1)] + Stamps(ts));
      CacheAllTyped(u.inodes, s.mem.cache - {i}, logs);
      EntryTypes(I, E, k);
      DropDirectory(I, s.mem, i);
      DeferredDependsOn(I - {i}, s.mem, o.state.mem);
    }
  }

  lemma EntryTypes(I: Inodes, E: Entries, k: DirKey)
    requires WellTyped(I, E) && k in E
    ensures E[k].ino in I && (IsDir(E[k].mode) <==> IsDir(I[E[k].ino].mode))
  {
    assert FileType(E[k].mode) == FileType(I[E[k].ino].mode);
  }

  // ------------------------------------------------------------------ link

  lemma LinkWellTyped(I: Inodes, E: Entries, k: DirKey, target: Ino, ts: u64)
    requires WellTyped(I, E) && target in I && LiveDir(E, k.parent)
    ensures WellTyped(I[target := OneLinkMore(I[target], ts)], E[k := Entry(target, I[target].mode)])
  {
    LiveDirIsStored(I, E, k.parent);
  }

  lemma LinkFileLinks(I: Inodes, E: Entries, k: DirKey, target: Ino, ts: u64)
    requires FileLinks(I, E) && k !in E && target in I && !IsDir(I[target].mode) && |Names(E, target)| + 1 < TWO32
    ensures FileLinks(I[target := OneLinkMore(I[target], ts)], E[k := Entry(target, I[target].mode)])
  {
    var J, F := I[target := OneLinkMore(I[target], ts)], E[k := Entry(target, I[target].mode)];
    forall j | j in J && !IsDir(J[j].mode) ensures J[j].nlink == |Names(F, j)| {
      NamesAdd(E, k, F[k], j);
    }
  }

  lemma LinkCountsLand(st: Store, k: DirKey, target: Ino, ts: u64, parentTs: u64)
    requires WellTyped(st.inodes, st.entries) && DirLinks(st)
    requires target in st.inodes && !IsDir(st.inodes[target].mode) && k !in st.entries
    ensures CountsLand(LinkStore(st, k, target, ts), [LogItem(k.parent, Stamps(parentTs))])
  {
    var u := LinkStore(st, k, target, ts);
    var logs := [LogItem(k.parent, Stamps(parentTs))];
    forall i | i in u.inodes && LiveDir(u.entries, i) ensures LinksLandOn(u, logs, i, 2 + |Subdirs(u.entries, i)|) {
      LiveDirMonotone(st.entries, k, u.entries[k], i);
      LiveDirIsStored(st.inodes, st.entries, i);
      StampsLinks(k.parent, parentTs, i);
      SubdirsAdd(st.entries, k, u.entries[k], i);
      assert DeltasOf(u, i) == DeltasOf(st, i);
      assert Effective(u, i) == Effective(st, i);
    }
  }

  lemma LinkLiveLogs(st: Store, seqs: map<Ino, nat>, k: DirKey, target: Ino, ts: u64, parentTs: u64, u: Store)
    requires LiveLogs(st) && k !in st.entries && target in st.inodes && LiveDir(st.entries, k.parent)
    requires LoggedStore(LinkStore(st, k, target, ts), seqs, [LogItem(k.parent, Stamps(parentTs))], None, u)
    ensures LiveLogs(u)
  {
    var st1 := LinkStore(st, k, target, ts);
    forall i | LiveDir(st.entries, i) ensures LiveDir(st1.entries, i) {
      LiveDirMonotone(st.entries, k, st1.entries[k], i);
    }
    forall i: Ino ensures DeltasOf(st1, i) == DeltasOf(st, i) {
    }
    LogLiveLogs(st1, seqs, [LogItem(k.parent, Stamps(parentTs))], None, u);
  }

  lemma OneMoreLinkDeferred(I: Inodes, m: Mem, i: Ino, v: InodeValue)
    requires Deferred(I, m) && i in I && !IsDir(I[i].mode) && v.mode == I[i].mode && I[i].nlink > 0 && v.nlink > 0
    ensures Deferred(I[i := v], m)
  {
  }

  lemma LinkKeepsInv(s: State, k: DirKey, target: Ino, ts: u64, parentTs: u64)
    requires Inv(s) && LinkAllowed(s.store, k, target)
    ensures Inv(Link(WithDeltas, s, k, target, ts, parentTs, false).state)
  {
    hide IsTree, FileLinks, DirLinks, LiveLogs, WellTyped, CacheTyped, Deferred, LogAll, CacheAll, LiveDir, Descends,
      OpsFor, FileType, Storable, Touched;
    var o := Link(WithDeltas, s, k, target, ts, parentTs, false);
    var I, E := s.store.inodes, s.store.entries;
    if o.reply.Success? {
      var logs, st1, u := [LogItem(k.parent, Stamps(parentTs))], LinkStore(s.store, k, target, ts), o.state.store;
      var v := OneLinkMore(I[target], ts);
      assert LoggedStore(st1, s.mem.seqs, logs, None, u);
      LoggedDeltas(st1, s.mem.seqs, logs, None, u);
      LinkWellTyped(I, E, k, target, ts);
      LinkFileLinks(I, E, k, target, ts);
      LinkTree(I, E, k, target);
      LinkCountsLand(s.store, k, target, ts, parentTs);
      LogDirLinks(st1, s.mem.seqs, logs, None, u);
      LinkLiveLogs(s.store, s.mem.seqs, k, target, ts, parentTs, u);
      LinkCount(I, E, target);
      CachePut(I, s.mem.cache, target, v);
      ParentTouchesDir(u.inodes, k, Stamps(parentTs));
      CacheAllTyped(u.inodes, s.mem.cache[target := v], logs);
      OneMoreLinkDeferred(I, s.mem, target, v);
      DeferredDependsOn(u.inodes, s.mem, o.state.mem);
    }
  }

  lemma LinkTree(I: Inodes, E: Entries, k: DirKey, target: Ino)
    requires WellTyped(I, E) && IsTree(E) && k !in E && LiveDir(E, k.parent)
    requires target in I && !IsDir(I[target].mode)
    ensures IsTree(E[k := Entry(target, I[target].mode)])
  {
    LiveDirDescends(E, k.parent);
    forall kk | kk in E && E[kk].ino == target ensures !IsDir(E[kk].mode) {
      EntryTypes(I, E, kk);
    }
    TreeAdd(E, k, Entry(target, I[target].mode));
  }

  lemma LinkCount(I: Inodes, E: Entries, target: Ino)
    requires FileLinks(I, E) && target in I && !IsDir(I[target].mode) && |Names(E, target)| + 1 < TWO32
    ensures (I[target].nlink + 1) % TWO32 == I[target].nlink + 1
  {
  }

  // ------------------------------------------------------------------ setattr, report_write, open, release

  /** A new base value of the same type with the same link count. */
  predicate SameLinks(v: InodeValue, w: InodeValue) {
    FileType(v.mode) == FileType(w.mode) && v.nlink == w.nlink
  }

  lemma PutBaseDirLinks(st: Store, i: Ino, v: InodeValue)
    requires DirLinks(st) && i in st.inodes && SameLinks(st.inodes[i], v)
    ensures DirLinks(st.(inodes := st.inodes[i := v]))
  {
    var u := st.(inodes := st.inodes[i := v]);
    forall j | j in u.inodes && LiveDir(u.entries, j)
      ensures ExactLog(u, j) && Effective(u, j).nlink == 2 + |Subdirs(u.entries, j)|
    {
      if j == i {
        EffectiveNlink(st, i, v);
      } else {
        assert DeltasOf(u, j) == DeltasOf(st, j);
        assert Effective(u, j) == Effective(st, j);
      }
    }
  }

  lemma PutBaseKeepsInv(s: State, i: Ino, v: InodeValue)
    requires Inv(s) && i in s.store.inodes && SameLinks(s.store.inodes[i], v)
    ensures Inv(PutBase(s, i, v))
  {
    hide IsTree, FileLinks, DirLinks, LiveLogs, WellTyped, CacheTyped, Deferred, IsDir;
    var u := PutBase(s, i, v).store;
    PutBaseDirLinks(s.store, i, v);
    assert LiveLogs(u) by {
      PutBaseLiveLogs(s.store, i, v);
    }
    PutBaseTypes(s.store.inodes, s.store.entries, s.mem, i, v);
    CachePut(s.store.inodes, s.mem.cache, i, v);
    DeferredDependsOn(u.inodes, s.mem, PutBase(s, i, v).mem);
  }

  lemma PutBaseLiveLogs(st: Store, i: Ino, v: InodeValue)
    requires LiveLogs(st)
    ensures LiveLogs(st.(inodes := st.inodes[i := v]))
  {
    var u := st.(inodes := st.inodes[i := v]);
    forall j | DeltasOf(u, j) != [] ensures LiveDir(u.entries, j) {
      assert DeltasOf(u, j) == DeltasOf(st, j);
    }
  }

  lemma PutBaseTypes(I: Inodes, E: Entries, m: Mem, i: Ino, v: InodeValue)
    requires i in I && SameLinks(I[i], v)
    ensures WellTyped(I, E) ==> WellTyped(I[i := v], E)
    ensures FileLinks(I, E) ==> FileLinks(I[i := v], E)
    ensures Deferred(I, m) ==> Deferred(I[i := v], m)
  {
  }

  lemma WithAttrsSameLinks(v: InodeValue, req: SetAttrRequest, ts: u64)
    ensures SameLinks(v, WithAttrs(v, req, ts))
  {
  }

  lemma LoadKeepsInv(s: State, i: Ino)
    requires Inv(s)
    ensures var o := Load(s, i);
            && Inv(o.state) && o.state.store == s.store && o.state.mem == s.mem.(cache := o.state.mem.cache)
            && (o.reply.Success? ==>
                 i in s.store.inodes && FileType(o.reply.value.value.mode) == FileType(s.store.inodes[i].mode))
  {
    hide IsTree, FileLinks, DirLinks, LiveLogs, WellTyped, LiveDir;
    if i in s.store.inodes {
      FoldKeepsMode(s.store.inodes[i], Ops(DeltasOf(s.store, i)));
      if !IsDir(s.store.inodes[i].mode) {
        FilesAreQuiet(s.store, i);
      }
    }
  }

  lemma AddHandleKeepsInv(s: State, i: Ino)
    requires Inv(s) && i in s.store.inodes && !IsDir(s.store.inodes[i].mode)
    ensures Inv(s.(mem := AddHandle(s.mem, i)))
  {
    hide IsTree, FileLinks, DirLinks, LiveLogs, WellTyped, LiveDir, CacheTyped, IsDir;
  }

  lemma OpenKeepsInv(s: State, i: Ino, truncate: bool, ts: u64, conflict: bool)
    requires Inv(s)
    ensures Inv(Open(s, i, truncate, ts, conflict).state)
  {
    hide Inv;
    LoadKeepsInv(s, i);
    var o := Open(s, i, truncate, ts, conflict);
    var s1 := Load(s, i).state;
    if o.reply.Success? {
      var v := Truncated(s.store.inodes[i], ts);
      PutBaseKeepsInv(s1, i, v);
      AddHandleKeepsInv(s1, i);
      AddHandleKeepsInv(PutBase(s1, i, v), i);
    }
  }

  lemma UnlinkedDropsOut(I: Inodes, E: Entries, i: Ino)
    requires WellTyped(I, E) && FileLinks(I, E) && i in I && !IsDir(I[i].mode) && I[i].nlink == 0
    ensures WellTyped(I - {i}, E) && FileLinks(I - {i}, E)
  {
    NoNames(E, i);
  }

  lemma DropFileDirLinks(st: Store, i: Ino)
    requires WellTyped(st.inodes, st.entries) && DirLinks(st) && LiveLogs(st)
    requires i in st.inodes && !IsDir(st.inodes[i].mode)
    ensures var u := st.(inodes := st.inodes - {i}, locations := st.locations - {i}, deltas := st.deltas - {i});
            DirLinks(u) && LiveLogs(u)
  {
    var u := st.(inodes := st.inodes - {i}, locations := st.locations - {i}, deltas := st.deltas - {i});
    forall j | j in u.inodes && LiveDir(u.entries, j)
      ensures ExactLog(u, j) && Effective(u, j).nlink == 2 + |Subdirs(u.entries, j)|
    {
      assert DeltasOf(u, j) == DeltasOf(st, j);
      assert Effective(u, j) == Effective(st, j);
    }
    forall j | DeltasOf(u, j) != [] ensures LiveDir(u.entries, j) {
      assert DeltasOf(u, j) == DeltasOf(st, j);
    }
  }

  lemma ReleaseKeepsInv(s: State, i: Ino)
    requires Inv(s)
    ensures Inv(Release(s, i, false).state)
  {
    hide IsTree, FileLinks, DirLinks, LiveLogs, WellTyped, LiveDir, CacheTyped, IsDir, FileType;
    if i in s.mem.pending && i in s.mem.handles && s.mem.handles[i] <= 1 {
      UnlinkedDropsOut(s.store.inodes, s.store.entries, i);
      DropFileDirLinks(s.store, i);
      CacheDrop(s.store.inodes, s.mem.cache, i);
    }
  }

  // ------------------------------------------------------------------ compaction

  /** Compaction leaves every effective value as it was. */
  lemma CompactAllEffective(s: State, chosen: set<Ino>, i: Ino)
    requires chosen <= s.store.inodes.Keys && i in s.store.inodes
    ensures var u := CompactAll(s, chosen).store;
            && i in u.inodes && Effective(u, i) == Effective(s.store, i)
            && (ExactLog(s.store, i) ==> ExactLog(u, i))
  {
    var u := CompactAll(s, chosen).store;
    if i in chosen {
      assert DeltasOf(u, i) == [] && Ops([]) == [];
    } else {
      assert DeltasOf(u, i) == DeltasOf(s.store, i);
    }
  }

  lemma CompactAllTypes(s: State, chosen: set<Ino>)
    requires WellTyped(s.store.inodes, s.store.entries) && LiveLogs(s.store) && chosen <= s.store.inodes.Keys
    ensures var J := CompactAll(s, chosen).store.inodes;
            && J.Keys == s.store.inodes.Keys
            && forall i :: i in J ==>
                 && FileType(J[i].mode) == FileType(s.store.inodes[i].mode)
                 && (!IsDir(J[i].mode) ==> J[i] == s.store.inodes[i])
  {
    var st := s.store;
    var J := CompactAll(s, chosen).store.inodes;
    forall i | i in J
      ensures FileType(J[i].mode) == FileType(st.inodes[i].mode)
      ensures !IsDir(J[i].mode) ==> J[i] == st.inodes[i]
    {
      FoldKeepsMode(st.inodes[i], Ops(DeltasOf(st, i)));
      if DeltasOf(st, i) != [] {
        LiveDirIsStored(st.inodes, st.entries, i);
      } else {
        assert Ops([]) == [];
      }
    }
  }

  /** The parts of the invariant that depend only on keys and types, and on files as they are. */
  lemma SameFilesAndTypes(I: Inodes, J: Inodes, E: Entries, m: Mem, cache: Inodes)
    requires WellTyped(I, E) && FileLinks(I, E) && Fresh(I, m) && Deferred(I, m) && CacheTyped(I, m.cache)
    requires J.Keys == I.Keys && cache.Keys <= m.cache.Keys && (forall i :: i in cache ==> cache[i] == m.cache[i])
    requires forall i :: i in J ==> FileType(J[i].mode) == FileType(I[i].mode) && (!IsDir(J[i].mode) ==> J[i] == I[i])
    ensures WellTyped(J, E) && FileLinks(J, E) && Fresh(J, m) && Deferred(J, m) && CacheTyped(J, cache)
  {
    hide FileType, Names;
    assert forall i :: i in J ==>
      (IsDir(J[i].mode) <==> IsDir(I[i].mode)) && (Storable(J[i].mode) <==> Storable(I[i].mode));
  }

  lemma CompactAllLinks(s: State, chosen: set<Ino>)
    requires DirLinks(s.store) && LiveLogs(s.store) && chosen <= s.store.inodes.Keys
    ensures DirLinks(CompactAll(s, chosen).store) && LiveLogs(CompactAll(s, chosen).store)
  {
    hide LiveDir, Subdirs, Effective, ExactLog;
    var u := CompactAll(s, chosen).store;
    forall i | i in u.inodes && LiveDir(u.entries, i)
      ensures ExactLog(u, i) && Effective(u, i).nlink == 2 + |Subdirs(u.entries, i)|
    {
      CompactAllEffective(s, chosen, i);
    }
    forall i | DeltasOf(u, i) != [] ensures LiveDir(u.entries, i) {
      assert DeltasOf(u, i) == DeltasOf(s.store, i);
    }
  }

  lemma CompactAllKeepsInv(s: State, chosen: set<Ino>)
    requires Inv(s) && chosen <= s.store.inodes.Keys
    ensures Inv(CompactAll(s, chosen))
  {
    hide IsTree, LiveDir, DirLinks, LiveLogs, WellTyped, FileLinks, CacheTyped, Effective, FileType;
    CompactAllTypes(s, chosen);
    CompactAllLinks(s, chosen);
    SameFilesAndTypes(s.store.inodes, CompactAll(s, chosen).store.inodes, s.store.entries, s.mem,
      CompactAll(s, chosen).mem.cache);
  }

  lemma DirtyIsFree(s: State, dirty: set<Ino>)
    requires Inv(s)
    ensures Inv(s.(mem := s.mem.(dirty := dirty)))
  {
    hide IsTree, FileLinks, DirLinks, LiveLogs, WellTyped, CacheTyped;
  }

  lemma EvictKeepsInv(s: State, i: Ino)
    requires Inv(s)
    ensures Inv(Evict(s, i).state)
  {
    hide IsTree, FileLinks, DirLinks, LiveLogs, WellTyped;
  }

  lemma BurnedKeepsInv(s: State, logs: seq<LogItem>, next: Ino)
    requires Inv(s) && next >= s.mem.next
    ensures Inv(Burned(WithDeltas, s, logs, next))
  {
    hide IsTree, FileLinks, DirLinks, LiveLogs, WellTyped, CacheTyped;
  }
}
