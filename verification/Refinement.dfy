/**
 The delta build refines the read-modify-write build: driven by the same attempts, the two servers
 hold the same entries and give the same answers, and each inode's base folded with its pending
 deltas is the other server's base.
 */
module Refinement {
  import opened Types
  import opened Wrappers
  import opened DeltaFold
  import opened Server
  import opened DeltaLog
  import opened Logging
  import opened Tree
  import opened Links
  import opened Invariants
  import opened Preservation
  import opened RenamePreservation
  import opened Namespace

  // ------------------------------------------------------------------ the relation

  /** Attributes agree; link counts too where they count, and times if they are asked for. */
  predicate Agree(times: bool, counted: bool, a: InodeValue, b: InodeValue) {
    && a.version == b.version && a.inode == b.inode && a.size == b.size
    && a.mode == b.mode && a.uid == b.uid && a.gid == b.gid
    && (counted ==> a.nlink == b.nlink)
    && (counted && times ==> a.atime == b.atime && a.mtime == b.mtime && a.ctime == b.ctime)
  }

  /** Files and linked directories; a directory that a rename has replaced keeps a record that nothing reads. */
  ghost predicate Counted(st: Store, i: Ino)
    requires i in st.inodes
  {
    LiveDir(st.entries, i) || !IsDir(st.inodes[i].mode)
  }

  ghost predicate StoresAgree(times: bool, a: Store, b: Store) {
    && b.entries == a.entries && b.locations == a.locations && b.symlinks == a.symlinks && b.counter == a.counter
    && b.inodes.Keys == a.inodes.Keys
    && (forall i: Ino :: DeltasOf(b, i) == [])
    && (forall i :: i in a.inodes ==> Agree(times, Counted(a, i), Effective(a, i), b.inodes[i]))
  }

  ghost predicate Related(times: bool, s: State, t: State) {
    && Inv(s)
    && StoresAgree(times, s.store, t.store)
    && t.mem.handles == s.mem.handles && t.mem.pending == s.mem.pending && t.mem.next == s.mem.next
    && CacheTyped(t.store.inodes, t.mem.cache)
  }

  /** Attributes as a client sees them: the same type, and for files the same attributes but for times. */
  predicate SameAttr(v: InodeValue, w: InodeValue) {
    FileType(v.mode) == FileType(w.mode) && (!IsDir(v.mode) ==> Agree(false, true, v, w))
  }

  /** The same error, or the same attributes and the same instructions to the client. */
  predicate SameAnswer(x: Result<Reply, FsError>, y: Result<Reply, FsError>) {
    match (x, y)
    case (Failure(e), Failure(f)) => e == f
    case (Success(Purged(p)), Success(Purged(q))) => p == q
    case (Success(Updated(v, p)), Success(Updated(w, q))) => p == q && Agree(false, !IsDir(v.mode), v, w)
    case (Success(Opened(p)), Success(Opened(q))) => p == q
    case (Success(Attr(v)), Success(Attr(w))) => SameAttr(v, w)
    case (Success(Done), Success(Done)) => true
    case _ => false
  }

  /**
   What times need: the clock does not run behind pending deltas, and an explicit modification or
   access time is not set below one.
   */
  ghost predicate TimesAllowed(s: State, a: Attempt) {
    var st := s.store;
    match a.op
    case DoSetAttr(i, req, ts) => i in st.inodes ==>
      var ops := Ops(DeltasOf(st, i));
      && ts >= LatestCtime(ops)
      && (Resized(st.inodes[i], req) ==> ts >= LatestMtime(ops))
      && (!Resized(st.inodes[i], req) && req.mtime.Some? ==> req.mtime.value >= LatestMtime(ops))
      && (req.atime.Some? ==> req.atime.value >= LatestAtime(ops))
    case DoReportWrite(i, _, mtime) => i in st.inodes ==>
      mtime >= LatestCtime(Ops(DeltasOf(st, i))) && mtime >= LatestMtime(Ops(DeltasOf(st, i)))
    case DoRename(k, _, ts) => k in st.entries && st.entries[k].ino in st.inodes ==>
      ts >= LatestCtime(Ops(DeltasOf(st, st.entries[k].ino)))
    case _ => true
  }

  // ------------------------------------------------------------------ logging

  lemma FoldAgree(times: bool, counted: bool, a: InodeValue, b: InodeValue, ops: seq<DeltaOp>)
    requires Agree(times, counted, a, b)
    ensures Agree(times, counted, Fold(a, ops), Fold(b, ops))
  {
    FoldByField(a, ops);
    FoldByField(b, ops);
  }

  ghost predicate PlainLogged(b: Store, seqs: map<Ino, nat>, logs: seq<LogItem>, gone: Option<Ino>, w: Store) {
    var t := LogAll(NoDelta, Txn(b, seqs), logs).store;
    w == match gone case None => t case Some(i) => WithoutDeltas(t, i)
  }

  lemma LogRefines(times: bool, a: Store, b: Store, seqs: map<Ino, nat>, seqs': map<Ino, nat>, logs: seq<LogItem>,
                   gone: Option<Ino>, u: Store, w: Store)
    requires StoresAgree(times, a, b)
    requires LoggedStore(a, seqs, logs, gone, u) && PlainLogged(b, seqs', logs, gone, w)
    requires gone.Some? && gone.value in a.inodes && Counted(a, gone.value) ==>
               DeltasOf(a, gone.value) == [] && gone.value !in Touched(logs)
    ensures StoresAgree(times, u, w)
  {
    hide Effective, Agree, Fold, OpsFor, LogAll, Touched, LiveDir, IsDir;
    LoggedDeltas(a, seqs, logs, gone, u);
    LogAllPlain(Txn(b, seqs'), logs);
    assert forall i: Ino :: DeltasOf(w, i) == DeltasOf(b, i);
    forall i | i in u.inodes ensures Agree(times, Counted(u, i), Effective(u, i), w.inodes[i]) {
      var ops := OpsFor(logs, i);
      FoldAgree(times, Counted(a, i), Effective(a, i), b.inodes[i], ops);
      LogOneInode(a, seqs, logs, gone, u, i);
      AgreeUncounted(times, Counted(a, i), Effective(u, i), Fold(Effective(a, i), ops), w.inodes[i]);
    }
  }

  /** Where nothing is counted, link count and times do not matter. */
  lemma AgreeUncounted(times: bool, counted: bool, x: InodeValue, v: InodeValue, w: InodeValue)
    requires Agree(times, counted, v, w) && (counted ==> x == v)
    requires x == v.(nlink := x.nlink, atime := x.atime, mtime := x.mtime, ctime := x.ctime)
    ensures Agree(times, counted, x, w)
  {
  }

  /** The logged store's value of `i`: folded with what was logged, or reset if its deltas were dropped. */
  lemma LogOneInode(a: Store, seqs: map<Ino, nat>, logs: seq<LogItem>, gone: Option<Ino>, u: Store, i: Ino)
    requires LoggedStore(a, seqs, logs, gone, u) && i in a.inodes && u.inodes == a.inodes
    requires gone == Some(i) && Counted(a, i) ==> DeltasOf(a, i) == [] && i !in Touched(logs)
    ensures var v := Fold(Effective(a, i), OpsFor(logs, i));
            && (Counted(a, i) ==> Effective(u, i) == v)
            && Effective(u, i) == v.(nlink := Effective(u, i).nlink, atime := Effective(u, i).atime,
                                     mtime := Effective(u, i).mtime, ctime := Effective(u, i).ctime)
  {
    LoggedDeltas(a, seqs, logs, gone, u);
    var t := LogAll(WithDeltas, Txn(a, seqs), logs).store;
    LoggedDeltas(a, seqs, logs, None, t);
    LogAllEffective(Txn(a, seqs), logs, i);
    FoldByField(a.inodes[i], Ops(DeltasOf(u, i)));
    FoldByField(a.inodes[i], Ops(DeltasOf(a, i)));
    FoldByField(Effective(a, i), OpsFor(logs, i));
    if gone == Some(i) && Counted(a, i) {
      OpsForUntouched(logs, i);
    } else if gone != Some(i) {
      assert DeltasOf(u, i) == DeltasOf(t, i);
    }
  }

  /** The plain server's cache stays typed through logging to directories. */
  lemma PlainCache(b: Store, seqs: map<Ino, nat>, logs: seq<LogItem>, gone: Option<Ino>, w: Store, cache: Inodes)
    requires PlainLogged(b, seqs, logs, gone, w) && CacheTyped(b.inodes, cache) && TouchesDirs(b.inodes, logs)
    ensures CacheTyped(w.inodes, CacheAll(cache, logs))
  {
    CacheAllTyped(b.inodes, cache, logs);
    LogAllPlain(Txn(b, seqs), logs);
    forall i | i in b.inodes
      ensures FileType(w.inodes[i].mode) == FileType(b.inodes[i].mode)
      ensures !IsDir(b.inodes[i].mode) ==> w.inodes[i] == b.inodes[i]
    {
      FoldKeepsMode(b.inodes[i], OpsFor(logs, i));
      if !IsDir(b.inodes[i].mode) {
        OpsForUntouched(logs, i);
      }
    }
  }

  // ------------------------------------------------------------------ rows before logging

  /** Inode `j` is untouched between two stores of one server and does not become counted. */
  lemma UntouchedAgrees(times: bool, a: Store, b: Store, a1: Store, b1: Store, j: Ino)
    requires StoresAgree(times, a, b) && j in a.inodes && j in a1.inodes && j in b1.inodes
    requires a1.inodes[j] == a.inodes[j] && b1.inodes[j] == b.inodes[j] && DeltasOf(a1, j) == DeltasOf(a, j)
    requires Counted(a1, j) ==> Counted(a, j)
    ensures Agree(times, Counted(a1, j), Effective(a1, j), b1.inodes[j])
  {
    assert Effective(a1, j) == Effective(a, j);
  }

  lemma NodeStoresAgree(times: bool, a: Store, b: Store, i: Ino, k: DirKey, n: NewNode)
    requires StoresAgree(times, a, b) && WellTyped(a.inodes, a.entries) && LiveLogs(a) && i !in a.inodes &&
             k !in a.entries
    ensures StoresAgree(times, NodeStore(a, i, k, n), NodeStore(b, i, k, n))
  {
    hide WellTyped, LiveLogs, Agree;
    var a1, b1 := NodeStore(a, i, k, n), NodeStore(b, i, k, n);
    UnusedNumber(a, i);
    assert forall j: Ino :: DeltasOf(a1, j) == DeltasOf(a, j) && DeltasOf(b1, j) == DeltasOf(b, j);
    forall j | j in a1.inodes ensures Agree(times, Counted(a1, j), Effective(a1, j), b1.inodes[j]) {
      if j == i {
        assert Ops([]) == [];
        AgreeRefl(times, n.value);
      } else {
        LiveDirMonotone(a.entries, k, a1.entries[k], j);
        UntouchedAgrees(times, a, b, a1, b1, j);
      }
    }
  }

  lemma AgreeRefl(times: bool, v: InodeValue)
    ensures forall c: bool :: Agree(times, c, v, v)
  {
  }

  lemma FileAgrees(times: bool, a: Store, b: Store, i: Ino)
    requires StoresAgree(times, a, b) && WellTyped(a.inodes, a.entries) && LiveLogs(a)
    requires i in a.inodes && !IsDir(a.inodes[i].mode)
    ensures DeltasOf(a, i) == [] && Agree(times, true, a.inodes[i], b.inodes[i])
  {
    FilesAreQuiet(a, i);
  }

  /** One file row rewritten alike in both servers, or dropped from both. */
  lemma FileRowAgrees(times: bool, a: Store, b: Store, a1: Store, b1: Store, i: Ino)
    requires StoresAgree(times, a, b) && b1.entries == a1.entries && b1.locations == a1.locations
    requires b1.symlinks == a1.symlinks && b1.counter == a1.counter
    requires a1.deltas == a.deltas && b1.deltas == b.deltas && b1.inodes.Keys == a1.inodes.Keys
    requires forall j :: j in a1.inodes && j != i ==>
             j in a.inodes && a1.inodes[j] == a.inodes[j] && b1.inodes[j] == b.inodes[j]
    requires forall j :: LiveDir(a1.entries, j) ==> LiveDir(a.entries, j)
    requires i in a1.inodes ==> DeltasOf(a, i) == [] && Agree(times, true, a1.inodes[i], b1.inodes[i])
    ensures StoresAgree(times, a1, b1)
  {
    assert forall j: Ino :: DeltasOf(a1, j) == DeltasOf(a, j) && DeltasOf(b1, j) == DeltasOf(b, j);
    forall j | j in a1.inodes ensures Agree(times, Counted(a1, j), Effective(a1, j), b1.inodes[j]) {
      if j == i {
        assert Ops([]) == [];
      } else {
        UntouchedAgrees(times, a, b, a1, b1, j);
      }
    }
  }

  // ------------------------------------------------------------------ operations

  /** The two outcomes of one attempt. */
  ghost predicate Matches(times: bool, o: Outcome, p: Outcome) {
    SameAnswer(o.reply, p.reply) && Related(times, o.state, p.state)
  }

  lemma RefusedMatches(times: bool, s: State, t: State, logs: seq<LogItem>, next: Ino, e: FsError)
    requires Related(times, s, t) && Inv(Burned(WithDeltas, s, logs, next))
    ensures Matches(times, Fail(Burned(WithDeltas, s, logs, next), e), Fail(Burned(NoDelta, t, logs, next), e))
  {
    hide Inv, StoresAgree, CacheTyped, LogAll;
  }

  lemma AddNodeMatches(times: bool, s: State, t: State, k: DirKey, n: NewNode, conflict: bool)
    requires Related(times, s, t) && GoodNode(n) && NewNodeAllowed(s, k)
    requires IsDir(n.value.mode) ==> RoomForSubdir(s.store.entries, k.parent)
    ensures Matches(times, AddNode(WithDeltas, s, k, n, conflict), AddNode(NoDelta, t, k, n, conflict))
  {
    hide IsTree, FileLinks, DirLinks, LiveLogs, WellTyped, Deferred, LogAll, CacheAll, LiveDir, CacheTyped, Agree,
      IsDir, Effective;
    NewNodeStep(s, k, n, conflict);
    var i, logs := s.mem.next, NewLogs(k, n);
    if |k.name| <= NAME_MAX && k !in s.store.entries {
      if conflict {
        RefusedMatches(times, s, t, logs, NextIno(i), TransactionConflict);
      } else {
        AgreeRefl(false, n.value);
        var a1, b1 := NodeStore(s.store, i, k, n), NodeStore(t.store, i, k, n);
        var u, w := AddNode(WithDeltas, s, k, n, false).state.store, AddNode(NoDelta, t, k, n, false).state.store;
        NodeStoresAgree(times, s.store, t.store, i, k, n);
        LogRefines(times, a1, b1, s.mem.seqs, t.mem.seqs, logs, None, u, w);
        CachePut(t.store.inodes, t.mem.cache, i, n.value);
        LiveDirIsStored(s.store.inodes, s.store.entries, k.parent);
        ModesAgree(times, s.store, t.store);
        ParentTouchesDir(b1.inodes, k, n.links + Stamps(n.value.mtime));
        PlainCache(b1, t.mem.seqs, logs, None, w, t.mem.cache[i := n.value]);
      }
    }
  }

  lemma ModesAgree(times: bool, a: Store, b: Store)
    requires StoresAgree(times, a, b)
    ensures forall i :: i in a.inodes ==> b.inodes[i].mode == a.inodes[i].mode && b.inodes[i].size == a.inodes[i].size
  {
    forall i | i in a.inodes ensures b.inodes[i].mode == a.inodes[i].mode && b.inodes[i].size == a.inodes[i].size {
      FoldKeepsMode(a.inodes[i], Ops(DeltasOf(a, i)));
    }
  }

  lemma CreateAndOpenMatches(times: bool, s: State, t: State, k: DirKey, mode: u32, uid: u32, gid: u32, ts: u64,
                             conflict: bool)
    requires Related(times, s, t) && NewNodeAllowed(s, k)
    ensures Matches(times, CreateAndOpen(WithDeltas, s, k, mode, uid, gid, ts, conflict),
                    CreateAndOpen(NoDelta, t, k, mode, uid, gid, ts, conflict))
  {
    hide Inv, StoresAgree, CacheTyped, LogAll, CacheAll, AddNode;
    NodesAreGood(s.mem.next, mode, [], uid, gid, ts);
    AddNodeMatches(times, s, t, k, NewFile(s.mem.next, mode, uid, gid, ts), conflict);
    CreateAndOpenStep(s, k, mode, uid, gid, ts, conflict);
  }

  lemma UnlinkMatches(times: bool, s: State, t: State, k: DirKey, ts: u64, parentTs: u64, conflict: bool)
    requires Related(times, s, t)
    ensures Matches(times, Unlink(WithDeltas, s, k, ts, parentTs, conflict),
            Unlink(NoDelta, t, k, ts, parentTs, conflict))
  {
    hide IsTree, FileLinks, DirLinks, LiveLogs, WellTyped, Deferred, LogAll, CacheAll, LiveDir, CacheTyped, IsDir,
      Effective;
    var st, logs := s.store, [LogItem(k.parent, Stamps(parentTs))];
    if k in st.entries && !IsDir(st.entries[k].mode) && |k.name| <= NAME_MAX {
      var i := st.entries[k].ino;
      EntryTypes(st.inodes, st.entries, k);
      FileAgrees(times, st, t.store, i);
      if conflict {
        BurnedKeepsInv(s, logs, s.mem.next);
        RefusedMatches(times, s, t, logs, s.mem.next, TransactionConflict);
      } else {
        UnlinkKeepsInv(s, k, ts, parentTs);
        UnlinkCommitMatches(times, s, t, k, ts, parentTs);
      }
    }
  }

  /** A committed change of the parent `k.parent`, given that the rows agreed before it was logged. */
  lemma CommitMatches(times: bool, o: Outcome, p: Outcome, a1: Store, b1: Store, seqs: map<Ino, nat>,
                      seqs': map<Ino, nat>, k: DirKey, ops: seq<DeltaOp>, gone: Option<Ino>, cache: Inodes)
    requires Inv(o.state) && SameAnswer(o.reply, p.reply) && StoresAgree(times, a1, b1)
    requires LoggedStore(a1, seqs, [LogItem(k.parent, ops)], gone, o.state.store)
    requires PlainLogged(b1, seqs', [LogItem(k.parent, ops)], gone, p.state.store)
    requires gone.Some? && gone.value in a1.inodes && Counted(a1, gone.value) ==>
               DeltasOf(a1, gone.value) == [] && gone.value != k.parent
    requires k.parent in b1.inodes ==> IsDir(b1.inodes[k.parent].mode)
    requires CacheTyped(b1.inodes, cache) && p.state.mem.cache == CacheAll(cache, [LogItem(k.parent, ops)])
    requires p.state.mem.handles == o.state.mem.handles && p.state.mem.pending == o.state.mem.pending
    requires p.state.mem.next == o.state.mem.next
    ensures Matches(times, o, p)
  {
    hide Inv, StoresAgree, CacheTyped, CacheAll, LoggedStore, PlainLogged, IsDir, Counted;
    var logs := [LogItem(k.parent, ops)];
    LogRefines(times, a1, b1, seqs, seqs', logs, gone, o.state.store, p.state.store);
    ParentTouchesDir(b1.inodes, k, ops);
    PlainCache(b1, seqs', logs, gone, p.state.store, cache);
  }

  lemma UnlinkRows(times: bool, a: Store, b: Store, k: DirKey, dying: bool, ts: u64)
    requires StoresAgree(times, a, b) && WellTyped(a.inodes, a.entries) && LiveLogs(a) && IsTree(a.entries)
    requires k in a.entries && !IsDir(a.entries[k].mode) && a.entries[k].ino in a.inodes
    ensures StoresAgree(times, UnlinkStore(a, k, dying, ts), UnlinkStore(b, k, dying, ts))
  {
    hide IsTree, LiveLogs, WellTyped, LiveDir, IsDir, Effective;
    var i := a.entries[k].ino;
    EntryTypes(a.inodes, a.entries, k);
    FileAgrees(times, a, b, i);
    var a1, b1 := UnlinkStore(a, k, dying, ts), UnlinkStore(b, k, dying, ts);
    forall j | LiveDir(a1.entries, j) ensures LiveDir(a.entries, j) {
      LiveDirRemove(a.entries, k, j);
    }
    FileRowAgrees(times, a, b, a1, b1, i);
  }

  /** The file that an unlink names: stored alike in both servers, and not the parent. */
  lemma UnlinkedFile(times: bool, s: State, t: State, k: DirKey)
    requires Related(times, s, t) && k in s.store.entries && !IsDir(s.store.entries[k].mode)
    ensures var i := s.store.entries[k].ino;
            && k in t.store.entries && t.store.entries[k] == s.store.entries[k]
            && i in s.store.inodes && i in t.store.inodes && t.store.inodes[i].nlink == s.store.inodes[i].nlink &&
                 i != k.parent
            && DeltasOf(s.store, i) == []
            && (k.parent in t.store.inodes ==> IsDir(t.store.inodes[k.parent].mode))
  {
    hide Inv, IsTree, LiveLogs, LiveDir, IsDir, Effective, CacheTyped;
    InvImplies(s);
    EntryTypes(s.store.inodes, s.store.entries, k);
    FileAgrees(times, s.store, t.store, s.store.entries[k].ino);
    StoredParentIsDir(s.store.inodes, s.store.entries, k);
    ModesAgree(times, s.store, t.store);
  }

  lemma UnlinkCommitMatches(times: bool, s: State, t: State, k: DirKey, ts: u64, parentTs: u64)
    requires Related(times, s, t) && k in s.store.entries && !IsDir(s.store.entries[k].mode) && |k.name| <= NAME_MAX
    requires Inv(Unlink(WithDeltas, s, k, ts, parentTs, false).state)
    ensures Matches(times, Unlink(WithDeltas, s, k, ts, parentTs, false), Unlink(NoDelta, t, k, ts, parentTs, false))
  {
    hide Inv, LogAll, CacheAll, LiveDir, CacheTyped, StoresAgree, IsDir, Stamps, Touched, Matches, WellTyped,
      LiveLogs, IsTree;
    UnlinkedFile(times, s, t, k);
    InvImplies(s);
    var st, i := s.store, s.store.entries[k].ino;
    var o, p := Unlink(WithDeltas, s, k, ts, parentTs, false), Unlink(NoDelta, t, k, ts, parentTs, false);
    var dying := OneLinkLess(st.inodes[i], ts).nlink == 0 && HandleCount(s.mem, i) == 0;
    var a1, b1 := UnlinkStore(st, k, dying, ts), UnlinkStore(t.store, k, dying, ts);
    UnlinkRows(times, st, t.store, k, dying, ts);
    if dying {
      CacheDrop(t.store.inodes, t.mem.cache, i);
      CommitMatches(times, o, p, a1, b1, s.mem.seqs, t.mem.seqs, k, Stamps(parentTs), Some(i), t.mem.cache - {i});
    } else {
      CachePut(t.store.inodes, t.mem.cache, i, b1.inodes[i]);
      CommitMatches(times, o, p, a1, b1, s.mem.seqs, t.mem.seqs, k, Stamps(parentTs), None,
        t.mem.cache[i := b1.inodes[i]]);
    }
  }

  lemma RmdirMatches(times: bool, s: State, t: State, k: DirKey, ts: u64, conflict: bool)
    requires Related(times, s, t)
    ensures Matches(times, Rmdir(WithDeltas, s, k, ts, conflict), Rmdir(NoDelta, t, k, ts, conflict))
  {
    hide IsTree, FileLinks, DirLinks, LiveLogs, WellTyped, Deferred, LogAll, CacheAll, LiveDir, CacheTyped, IsDir,
      Effective, Agree;
    var o, p := Rmdir(WithDeltas, s, k, ts, conflict), Rmdir(NoDelta, t, k, ts, conflict);
    var st, logs := s.store, RmdirLogs(k, ts);
    if o.reply == Failure(TransactionConflict) {
      BurnedKeepsInv(s, logs, s.mem.next);
      RefusedMatches(times, s, t, logs, s.mem.next, TransactionConflict);
    } else if o.reply.Success? {
      var i := st.entries[k].ino;
      var a1, b1 := RmdirStore(st, k), RmdirStore(t.store, k);
      RmdirKeepsInv(s, k, ts);
      forall j | LiveDir(a1.entries, j) ensures LiveDir(st.entries, j) {
        LiveDirRemove(st.entries, k, j);
      }
      FileRowAgrees(times, st, t.store, a1, b1, i);
      StoredParentIsDir(st.inodes, st.entries, k);
      ModesAgree(times, st, t.store);
      ParentTouchesDir(b1.inodes, k, [IncrementNlink(-1)] + Stamps(ts));
      LogRefines(times, a1, b1, s.mem.seqs, t.mem.seqs, logs, Some(i), o.state.store, p.state.store);
      CacheDrop(t.store.inodes, t.mem.cache, i);
      PlainCache(b1, t.mem.seqs, logs, Some(i), p.state.store, t.mem.cache - {i});
    }
  }

  lemma LinkRows(times: bool, a: Store, b: Store, k: DirKey, target: Ino, ts: u64)
    requires StoresAgree(times, a, b) && WellTyped(a.inodes, a.entries) && LiveLogs(a)
    requires target in a.inodes && !IsDir(a.inodes[target].mode) && k !in a.entries
    ensures target in b.inodes && StoresAgree(times, LinkStore(a, k, target, ts), LinkStore(b, k, target, ts))
    ensures SameAttr(OneLinkMore(a.inodes[target], ts), OneLinkMore(b.inodes[target], ts))
  {
    hide IsTree, LiveLogs, WellTyped, LiveDir, IsDir, Effective;
    FileAgrees(times, a, b, target);
    var a1, b1 := LinkStore(a, k, target, ts), LinkStore(b, k, target, ts);
    forall j | LiveDir(a1.entries, j) ensures LiveDir(a.entries, j) {
      LiveDirMonotone(a.entries, k, a1.entries[k], j);
    }
    FileRowAgrees(times, a, b, a1, b1, target);
  }

  lemma LinkMatches(times: bool, s: State, t: State, k: DirKey, target: Ino, ts: u64, parentTs: u64, conflict: bool)
    requires Related(times, s, t) && LinkAllowed(s.store, k, target)
    ensures Matches(times, Link(WithDeltas, s, k, target, ts, parentTs, conflict),
            Link(NoDelta, t, k, target, ts, parentTs, conflict))
  {
    hide Inv, LogAll, CacheAll, LiveDir, CacheTyped, StoresAgree, IsDir, Stamps, Touched, WellTyped, LiveLogs, Names,
      IsTree;
    var o := Link(WithDeltas, s, k, target, ts, parentTs, conflict);
    var p := Link(NoDelta, t, k, target, ts, parentTs, conflict);
    var st, logs := s.store, [LogItem(k.parent, Stamps(parentTs))];
    InvImplies(s);
    ModesAgree(times, st, t.store);
    SameKeys(times, st, t.store);
    if o.reply == Failure(TransactionConflict) {
      BurnedKeepsInv(s, logs, s.mem.next);
      RefusedMatches(times, s, t, logs, s.mem.next, TransactionConflict);
    } else if o.reply.Success? {
      var a1, b1 := LinkStore(st, k, target, ts), LinkStore(t.store, k, target, ts);
      LinkKeepsInv(s, k, target, ts, parentTs);
      LinkRows(times, st, t.store, k, target, ts);
      CachePut(t.store.inodes, t.mem.cache, target, b1.inodes[target]);
      CommitMatches(times, o, p, a1, b1, s.mem.seqs, t.mem.seqs, k, Stamps(parentTs), None,
        t.mem.cache[target := b1.inodes[target]]);
    }
  }

  lemma SameKeys(times: bool, a: Store, b: Store)
    requires StoresAgree(times, a, b)
    ensures b.entries == a.entries && b.inodes.Keys == a.inodes.Keys
  {
  }

  // ------------------------------------------------------------------ rename

  lemma RefusalSame(times: bool, a: Store, b: Store, k: DirKey, k2: DirKey)
    requires StoresAgree(times, a, b)
    ensures RenameRefusal(b, k, k2) == RenameRefusal(a, k, k2)
    ensures RenameRefusal(a, k, k2).None? ==> forall ts :: RenameLogsOf(b, k, k2, ts) == RenameLogsOf(a, k, k2, ts)
  {
    ModesAgree(times, a, b);
  }

  lemma KillsSame(times: bool, a: Store, b: Store, k2: DirKey)
    requires StoresAgree(times, a, b) && WellTyped(a.inodes, a.entries) && LiveLogs(a)
    ensures RenameKills(b, k2) <==> RenameKills(a, k2)
  {
    if k2 in a.entries && !IsDir(a.entries[k2].mode) {
      EntryTypes(a.inodes, a.entries, k2);
      FileAgrees(times, a, b, a.entries[k2].ino);
    }
  }

  lemma AcceptedRename(st: Store, k: DirKey, k2: DirKey)
    requires RenameRefusal(st, k, k2).None?
    ensures k in st.entries && st.entries[k].ino in st.inodes
    ensures k2 in st.entries ==>
              && (IsDir(st.inodes[st.entries[k].ino].mode) <==> IsDir(st.entries[k2].mode))
              && (!IsDir(st.entries[k2].mode) ==> st.entries[k2].ino in st.inodes)
  {
  }

  lemma MovedLiveDir(E: Entries, k: DirKey, k2: DirKey, mode: u32, i: Ino)
    requires k in E && (IsDir(mode) <==> IsDir(E[k].mode)) && LiveDir(Moved(E, k, k2, mode), i)
    ensures LiveDir(E, i)
  {
    var F := Moved(E, k, k2, mode);
    if i != ROOT {
      var kk :| kk in F && F[kk].ino == i && IsDir(F[kk].mode);
      var old_ := if kk == k2 then k else kk;
      assert old_ in E && E[old_].ino == i && IsDir(E[old_].mode);
    }
  }

  /** The moved inode agrees after its change time has been written below its pending deltas. */
  lemma MovedRowAgrees(times: bool, counted: bool, v: InodeValue, w: InodeValue, ops: seq<DeltaOp>, ts: u64)
    requires Agree(times, counted, Fold(v, ops), w) && (times ==> ts >= LatestCtime(ops))
    ensures Agree(times, counted, Fold(v.(ctime := ts), ops), w.(ctime := ts))
  {
    FoldByField(v, ops);
    FoldByField(v.(ctime := ts), ops);
  }

  lemma RenameRowAgrees(times: bool, a: Store, b: Store, k: DirKey, k2: DirKey, ts: u64, j: Ino)
    requires StoresAgree(times, a, b) && WellTyped(a.inodes, a.entries) && LiveLogs(a)
    requires RenameRefusal(a, k, k2).None? && RenameRefusal(b, k, k2).None? &&
             (RenameKills(b, k2) <==> RenameKills(a, k2))
    requires times ==> ts >= LatestCtime(Ops(DeltasOf(a, a.entries[k].ino)))
    requires j in RenameInodes(a, k, k2, ts)
    ensures var a1, b1 := RenameStore(a, k, k2, ts), RenameStore(b, k, k2, ts);
            j in b1.inodes && Agree(times, Counted(a1, j), Effective(a1, j), b1.inodes[j])
  {
    hide WellTyped, LiveLogs, RenameRefusal, Agree;
    AcceptedRename(a, k, k2);
    var a1, b1, src := RenameStore(a, k, k2, ts), RenameStore(b, k, k2, ts), a.entries[k].ino;
    assert DeltasOf(a1, j) == DeltasOf(a, j);
    EntryTypes(a.inodes, a.entries, k);
    if LiveDir(a1.entries, j) {
      MovedLiveDir(a.entries, k, k2, a.inodes[src].mode, j);
    }
    if j == src {
      AgreeWeaken(times, Counted(a, j), Counted(a1, j), Effective(a, j), b.inodes[j]);
      MovedRowAgrees(times, Counted(a1, j), a.inodes[j], b.inodes[j], Ops(DeltasOf(a, j)), ts);
    } else if k2 in a.entries && !IsDir(a.entries[k2].mode) && j == a.entries[k2].ino {
      EntryTypes(a.inodes, a.entries, k2);
      FileAgrees(times, a, b, j);
      assert Ops([]) == [];
      OneLinkLessAgrees(times, Counted(a1, j), a.inodes[j], b.inodes[j], ts);
    } else {
      UntouchedAgrees(times, a, b, a1, b1, j);
    }
  }

  lemma AgreeWeaken(times: bool, c: bool, d: bool, v: InodeValue, w: InodeValue)
    requires Agree(times, c, v, w) && (d ==> c)
    ensures Agree(times, d, v, w)
  {
  }

  lemma OneLinkLessAgrees(times: bool, c: bool, v: InodeValue, w: InodeValue, ts: u64)
    requires Agree(times, true, v, w)
    ensures Agree(times, c, OneLinkLess(v, ts), OneLinkLess(w, ts))
  {
  }

  lemma RenameStoresAgree(times: bool, a: Store, b: Store, k: DirKey, k2: DirKey, ts: u64)
    requires StoresAgree(times, a, b) && WellTyped(a.inodes, a.entries) && LiveLogs(a)
    requires RenameRefusal(a, k, k2).None? && RenameRefusal(b, k, k2).None?
    requires times ==> ts >= LatestCtime(Ops(DeltasOf(a, a.entries[k].ino)))
    ensures StoresAgree(times, RenameStore(a, k, k2, ts), RenameStore(b, k, k2, ts))
  {
    hide WellTyped, LiveLogs, Agree, RenameRefusal, Effective, Counted;
    AcceptedRename(a, k, k2);
    AcceptedRename(b, k, k2);
    var a1, b1 := RenameStore(a, k, k2, ts), RenameStore(b, k, k2, ts);
    KillsSame(times, a, b, k2);
    ModesAgree(times, a, b);
    assert forall j: Ino :: DeltasOf(b1, j) == DeltasOf(b, j);
    forall j | j in a1.inodes ensures Agree(times, Counted(a1, j), Effective(a1, j), b1.inodes[j]) {
      RenameRowAgrees(times, a, b, k, k2, ts, j);
    }
  }

  /** Whatever loses its deltas in a rename is no longer counted, or had none. */
  lemma ReplacedIsSettled(st: Store, k: DirKey, k2: DirKey, ts: u64)
    requires WellTyped(st.inodes, st.entries) && IsTree(st.entries) && FileLinks(st.inodes, st.entries) && LiveLogs(st)
    requires RenameRefusal(st, k, k2).None? && RenameAllowed(st.entries, k, k2) && k2 in st.entries
    ensures var u, dst := RenameStore(st, k, k2, ts), st.entries[k2].ino;
            dst in u.inodes && Counted(u, dst) ==>
              DeltasOf(u, dst) == [] && dst !in Touched(RenameLogsOf(st, k, k2, ts))
  {
    hide IsTree, FileLinks, LiveLogs, Descends, RoomForSubdir;
    var E, dst := st.entries, st.entries[k2].ino;
    EntryTypes(st.inodes, E, k);
    EntryTypes(st.inodes, E, k2);
    if IsDir(E[k2].mode) {
      RenameLiveDir(st, k, k2, ts, dst);
    } else {
      FilesAreQuiet(st, dst);
      StoredParentIsDir(st.inodes, E, k);
      StoredParentIsDir(st.inodes, E, k2);
      TouchedByRename(k.parent, k2.parent, IsDir(st.inodes[E[k].ino].mode), false, ts);
    }
  }

  lemma RenameLogsTouchDirs(st: Store, k: DirKey, k2: DirKey, ts: u64)
    requires WellTyped(st.inodes, st.entries) && IsTree(st.entries) && FileLinks(st.inodes, st.entries)
    requires RenameRefusal(st, k, k2).None? && RenameAllowed(st.entries, k, k2)
    ensures TouchesDirs(RenameInodes(st, k, k2, ts), RenameLogsOf(st, k, k2, ts))
  {
    hide WellTyped, IsTree, FileLinks, Descends, RenameInodes, RenameRefusal, RenameLogsOf;
    AcceptedRename(st, k, k2);
    if k == k2 {
      InPlaceRows(st, k, ts);
      EntryTypes(st.inodes, st.entries, k);
      StoredParentIsDir(st.inodes, st.entries, k);
      ParentTouchesDir(RenameInodes(st, k, k2, ts), k, Stamps(ts));
    } else {
      RenameTouchesDirs(st, k, k2, ts);
    }
  }

  lemma PlainRenameCache(b: Store, cache: Inodes, k: DirKey, k2: DirKey, ts: u64)
    requires CacheTyped(b.inodes, cache) && RenameRefusal(b, k, k2).None?
    ensures var src := b.entries[k].ino;
            var c := if k2 in b.entries then cache - {b.entries[k2].ino} else cache;
            CacheTyped(RenameInodes(b, k, k2, ts), c[src := b.inodes[src].(ctime := ts)])
  {
  }

  lemma RenameMatches(times: bool, s: State, t: State, k: DirKey, k2: DirKey, ts: u64, conflict: bool)
    requires Related(times, s, t) && RenameAllowed(s.store.entries, k, k2)
    requires times && k in s.store.entries && s.store.entries[k].ino in s.store.inodes ==>
               ts >= LatestCtime(Ops(DeltasOf(s.store, s.store.entries[k].ino)))
    ensures Matches(times, Rename(WithDeltas, s, k, k2, ts, conflict), Rename(NoDelta, t, k, k2, ts, conflict))
  {
    hide IsTree, FileLinks, DirLinks, LiveLogs, WellTyped, Deferred, LogAll, CacheAll, LiveDir, CacheTyped, IsDir,
      Effective, Agree, RenameAllowed, RenameRefusal, RenameLogsOf, RenameStore, RenameKills, StoresAgree;
    RefusalSame(times, s.store, t.store, k, k2);
    if RenameRefusal(s.store, k, k2).None? {
      AcceptedRename(s.store, k, k2);
      if conflict {
        var logs := RenameLogsOf(s.store, k, k2, ts);
        BurnedKeepsInv(s, logs, s.mem.next);
        RefusedMatches(times, s, t, logs, s.mem.next, TransactionConflict);
      } else {
        RenameCommitMatches(times, s, t, k, k2, ts);
      }
    }
  }

  lemma RenameCommitMatches(times: bool, s: State, t: State, k: DirKey, k2: DirKey, ts: u64)
    requires Related(times, s, t) && RenameAllowed(s.store.entries, k, k2) && RenameRefusal(s.store, k, k2).None?
    requires times ==> ts >= LatestCtime(Ops(DeltasOf(s.store, s.store.entries[k].ino)))
    ensures Matches(times, Rename(WithDeltas, s, k, k2, ts, false), Rename(NoDelta, t, k, k2, ts, false))
  {
    hide IsTree, FileLinks, DirLinks, LiveLogs, WellTyped, Deferred, LogAll, CacheAll, LiveDir, CacheTyped, IsDir,
      Effective, Agree, RenameAllowed, RenameRefusal, RenameLogsOf, RenameInodes, RenameKills, Counted, TouchesDirs,
      Touched, Fresh;
    var a, b, E, logs := s.store, t.store, s.store.entries, RenameLogsOf(s.store, k, k2, ts);
    var o, p := Rename(WithDeltas, s, k, k2, ts, false), Rename(NoDelta, t, k, k2, ts, false);
    RefusalSame(times, a, b, k, k2);
    AcceptedRename(a, k, k2);
    KillsSame(times, a, b, k2);
    RenameStep(s, k, k2, ts);
    RenameStoresAgree(times, a, b, k, k2, ts);
    var a1, b1 := RenameStore(a, k, k2, ts), RenameStore(b, k, k2, ts);
    RenameLogsTouchDirs(a, k, k2, ts);
    SameTouchedDirs(times, a1, b1, logs);
    PlainRenameCache(b, t.mem.cache, k, k2, ts);
    var src := E[k].ino;
    var gone := if k2 in E then Some(E[k2].ino) else None;
    var c := (if k2 in E then t.mem.cache - {E[k2].ino} else t.mem.cache)[src := b.inodes[src].(ctime := ts)];
    if k2 in E {
      ReplacedIsSettled(a, k, k2, ts);
    }
    LogRefines(times, a1, b1, s.mem.seqs, t.mem.seqs, logs, gone, o.state.store, p.state.store);
    PlainCache(b1, t.mem.seqs, logs, gone, p.state.store, c);
  }

  lemma SameTouchedDirs(times: bool, a: Store, b: Store, logs: seq<LogItem>)
    requires StoresAgree(times, a, b) && TouchesDirs(a.inodes, logs)
    ensures TouchesDirs(b.inodes, logs)
  {
    ModesAgree(times, a, b);
  }

  // ------------------------------------------------------------------ single rows, handles, compaction

  /** Rewriting the base of one inode in both servers. */
  lemma PutMatches(times: bool, s: State, t: State, i: Ino, v: InodeValue, w: InodeValue)
    requires Related(times, s, t) && i in s.store.inodes && SameLinks(s.store.inodes[i], v)
    requires Agree(times, Counted(s.store, i), Fold(v, Ops(DeltasOf(s.store, i))), w)
    ensures Related(times, PutBase(s, i, v), PutBase(t, i, w))
  {
    hide IsTree, FileLinks, DirLinks, LiveLogs, WellTyped, Deferred, LiveDir, Agree, FileType, CacheTyped, Inv;
    var s', t' := PutBase(s, i, v), PutBase(t, i, w);
    PutBaseKeepsInv(s, i, v);
    CachePut(t.store.inodes, t.mem.cache, i, w);
    assert forall j: Ino :: DeltasOf(s'.store, j) == DeltasOf(s.store, j);
    assert forall j: Ino :: DeltasOf(t'.store, j) == DeltasOf(t.store, j);
    forall j | j in s'.store.inodes
      ensures Agree(times, Counted(s'.store, j), Effective(s'.store, j), t'.store.inodes[j])
    {
      if j != i {
        UntouchedAgrees(times, s.store, t.store, s'.store, t'.store, j);
      } else {
        AgreeWeaken(times, Counted(s.store, i), Counted(s'.store, i), Effective(s'.store, i), w);
      }
    }
  }

  lemma AttrsAgree(times: bool, counted: bool, v: InodeValue, w: InodeValue, ops: seq<DeltaOp>, req: SetAttrRequest,
                   ts: u64)
    requires Agree(times, counted, Fold(v, ops), w)
    requires times ==> && ts >= LatestCtime(ops)
                       && (Resized(v, req) ==> ts >= LatestMtime(ops))
                       && (!Resized(v, req) && req.mtime.Some? ==> req.mtime.value >= LatestMtime(ops))
                       && (req.atime.Some? ==> req.atime.value >= LatestAtime(ops))
    ensures Agree(times, counted, Fold(WithAttrs(v, req, ts), ops), WithAttrs(w, req, ts))
  {
    FoldByField(v, ops);
    FoldByField(WithAttrs(v, req, ts), ops);
  }

  lemma SetAttrMatches(times: bool, s: State, t: State, i: Ino, req: SetAttrRequest, ts: u64, conflict: bool)
    requires Related(times, s, t)
    requires times ==> TimesAllowed(s, Attempt(DoSetAttr(i, req, ts), conflict))
    ensures Matches(times, SetAttr(s, i, req, ts, conflict), SetAttr(t, i, req, ts, conflict))
  {
    hide Inv, CacheTyped, Agree, Counted;
    if i in s.store.inodes && !conflict {
      var v, w := s.store.inodes[i], t.store.inodes[i];
      BasesAgree(times, s, t, i);
      AttrsAnswer(!IsDir(v.mode), v, w, req, ts);
      ModesAgree(times, s.store, t.store);
      AttrsAgree(times, Counted(s.store, i), v, w, Ops(DeltasOf(s.store, i)), req, ts);
      WithAttrsSameLinks(v, req, ts);
      PutMatches(times, s, t, i, WithAttrs(v, req, ts), WithAttrs(w, req, ts));
    }
  }

  /** Base rows: everything but link counts and times, and for files those counts as well. */
  lemma BasesAgree(times: bool, s: State, t: State, i: Ino)
    requires Related(times, s, t) && i in s.store.inodes
    ensures i in t.store.inodes && Agree(false, !IsDir(s.store.inodes[i].mode), s.store.inodes[i], t.store.inodes[i])
  {
    hide Inv, CacheTyped, Counted;
    InvImplies(s);
    FoldByField(s.store.inodes[i], Ops(DeltasOf(s.store, i)));
    if !IsDir(s.store.inodes[i].mode) {
      FileAgrees(times, s.store, t.store, i);
    }
  }

  lemma AttrsAnswer(counted: bool, v: InodeValue, w: InodeValue, req: SetAttrRequest, ts: u64)
    requires Agree(false, counted, v, w)
    ensures Agree(false, counted, WithAttrs(v, req, ts), WithAttrs(w, req, ts))
    ensures IsDir(WithAttrs(v, req, ts).mode) <==> IsDir(v.mode)
  {
  }

  lemma WrittenAgrees(times: bool, counted: bool, v: InodeValue, w: InodeValue, ops: seq<DeltaOp>, newSize: u64,
                      mtime: u64)
    requires Agree(times, counted, Fold(v, ops), w)
    requires times ==> mtime >= LatestCtime(ops) && mtime >= LatestMtime(ops)
    ensures Agree(times, counted, Fold(Written(v, newSize, mtime), ops), Written(w, newSize, mtime))
  {
    FoldByField(v, ops);
    FoldByField(Written(v, newSize, mtime), ops);
  }

  lemma ReportWriteMatches(times: bool, s: State, t: State, i: Ino, newSize: u64, mtime: u64, conflict: bool)
    requires Related(times, s, t)
    requires times ==> TimesAllowed(s, Attempt(DoReportWrite(i, newSize, mtime), conflict))
    ensures Matches(times, ReportWrite(s, i, newSize, mtime, conflict), ReportWrite(t, i, newSize, mtime, conflict))
  {
    hide Inv, CacheTyped, Agree, Counted;
    if i in s.store.inodes && !conflict {
      var v, w := s.store.inodes[i], t.store.inodes[i];
      WrittenAgrees(times, Counted(s.store, i), v, w, Ops(DeltasOf(s.store, i)), newSize, mtime);
      PutMatches(times, s, t, i, Written(v, newSize, mtime), Written(w, newSize, mtime));
    }
  }

  /** A load changes caches only, and answers from either server's. */
  lemma LoadMatches(times: bool, s: State, t: State, i: Ino)
    requires Related(times, s, t)
    ensures Matches(times, Load(s, i), Load(t, i))
    ensures Load(s, i).state.store == s.store && Load(t, i).state.store == t.store
    ensures Load(s, i).reply.Success? ==>
              var v, w := Load(s, i).reply.value.value, Load(t, i).reply.value.value;
              && i in s.store.inodes
              && FileType(v.mode) == FileType(w.mode) == FileType(s.store.inodes[i].mode)
              && (!IsDir(s.store.inodes[i].mode) ==> v.size == w.size)
  {
    hide Inv, LiveDir, Agree, Effective, CacheTyped, StoresAgree, FileType;
    LoadKeepsInv(s, i);
    SameKeys(times, s.store, t.store);
    CacheTypedOf(s);
    if i in s.store.inodes {
      LoadedAlike(times, s.store, t.store, i);
    }
    LoadedCache(t, i, s.store.inodes.Keys);
    CachedAlike(times, s, t, i);
    if i in s.store.inodes && !IsDir(s.store.inodes[i].mode) {
      BasesAgree(times, s, t, i);
      LoadedFile(times, s, t, i);
    }
    SameTypeSameTest();
  }

  lemma SameTypeSameTest()
    ensures forall m: u32, n: u32 :: FileType(m) == FileType(n) ==> (IsDir(m) <==> IsDir(n))
  {
  }

  /** A file is read as it is stored, from the cache and from the store. */
  lemma LoadedFile(times: bool, s: State, t: State, i: Ino)
    requires Related(times, s, t) && i in s.store.inodes && !IsDir(s.store.inodes[i].mode) && i in t.store.inodes
    ensures Load(s, i).reply == Success(Attr(s.store.inodes[i])) && Load(t, i).reply == Success(Attr(t.store.inodes[i]))
  {
    hide Inv, Agree, IsDir;
    InvImplies(s);
    CacheTypedOf(s);
    FilesAreQuiet(s.store, i);
    ModesAgree(times, s.store, t.store);
    assert DeltasOf(t.store, i) == [] && Ops([]) == [];
  }

  lemma CacheTypedOf(s: State)
    requires Inv(s)
    ensures CacheTyped(s.store.inodes, s.mem.cache)
  {
  }

  /** What a miss computes in either server. */
  lemma LoadedAlike(times: bool, a: Store, b: Store, i: Ino)
    requires StoresAgree(times, a, b) && i in a.inodes
    ensures i in b.inodes && Effective(b, i) == b.inodes[i]
    ensures b.inodes[i].mode == a.inodes[i].mode == Effective(a, i).mode
    ensures b.inodes[i].size == a.inodes[i].size == Effective(a, i).size
  {
    hide Agree;
    ModesAgree(times, a, b);
    assert DeltasOf(b, i) == [] && Ops([]) == [];
    FoldKeepsMode(a.inodes[i], Ops(DeltasOf(a, i)));
  }

  lemma LoadedCache(t: State, i: Ino, keys: set<Ino>)
    requires CacheTyped(t.store.inodes, t.mem.cache) && t.store.inodes.Keys == keys
    requires i in t.store.inodes ==> Effective(t.store, i) == t.store.inodes[i]
    ensures CacheTyped(t.store.inodes, Load(t, i).state.mem.cache)
  {
    hide Effective;
  }

  lemma CachedAlike(times: bool, s: State, t: State, i: Ino)
    requires CacheTyped(s.store.inodes, s.mem.cache) && CacheTyped(t.store.inodes, t.mem.cache)
    requires StoresAgree(times, s.store, t.store)
    ensures i in s.mem.cache || i in t.mem.cache ==> i in s.store.inodes && i in t.store.inodes
    ensures i in s.mem.cache ==> FileType(s.mem.cache[i].mode) == FileType(s.store.inodes[i].mode)
    ensures i in t.mem.cache ==> FileType(t.mem.cache[i].mode) == FileType(s.store.inodes[i].mode)
    ensures i in s.mem.cache && !IsDir(s.store.inodes[i].mode) ==> s.mem.cache[i].size == s.store.inodes[i].size
    ensures i in t.mem.cache && !IsDir(s.store.inodes[i].mode) ==> t.mem.cache[i].size == s.store.inodes[i].size
  {
    hide Agree, Effective;
    ModesAgree(times, s.store, t.store);
  }

  lemma OpenMatches(times: bool, s: State, t: State, i: Ino, truncate: bool, ts: u64, conflict: bool)
    requires Related(times, s, t)
    ensures Matches(times, Open(s, i, truncate, ts, conflict), Open(t, i, truncate, ts, conflict))
  {
    hide Inv, CacheTyped, Agree, Effective, StoresAgree, PutBase, AddHandle, FileType;
    LoadMatches(times, s, t, i);
    LocationsAgree(times, s.store, t.store, i);
    var o := Load(s, i);
    if o.reply.Success? && i in s.store.inodes && !IsDir(s.store.inodes[i].mode) {
      var s1, t1 := o.state, Load(t, i).state;
      OpenFileMatches(times, s1, t1, i);
      CutMatches(times, s1, t1, i, ts);
      OpenFileMatches(times, PutBase(s1, i, Truncated(s1.store.inodes[i], ts)),
        PutBase(t1, i, Truncated(t1.store.inodes[i], ts)), i);
    }
  }

  lemma LocationsAgree(times: bool, a: Store, b: Store, i: Ino)
    requires StoresAgree(times, a, b)
    ensures b.locations == a.locations && (i in b.inodes <==> i in a.inodes)
  {
  }

  lemma OpenFileMatches(times: bool, s: State, t: State, i: Ino)
    requires Related(times, s, t) && i in s.store.inodes && !IsDir(s.store.inodes[i].mode)
    ensures Related(times, s.(mem := AddHandle(s.mem, i)), t.(mem := AddHandle(t.mem, i)))
  {
    hide Inv, StoresAgree, CacheTyped;
    AddHandleKeepsInv(s, i);
  }

  lemma CutMatches(times: bool, s: State, t: State, i: Ino, ts: u64)
    requires Related(times, s, t) && i in s.store.inodes && !IsDir(s.store.inodes[i].mode)
    ensures i in t.store.inodes
    ensures var s' := PutBase(s, i, Truncated(s.store.inodes[i], ts));
            var t' := PutBase(t, i, Truncated(t.store.inodes[i], ts));
            Related(times, s', t') && i in s'.store.inodes && !IsDir(s'.store.inodes[i].mode)
  {
    hide Inv, CacheTyped, Agree, Effective;
    InvImplies(s);
    FileAgrees(times, s.store, t.store, i);
    var v, w := Truncated(s.store.inodes[i], ts), Truncated(t.store.inodes[i], ts);
    assert Ops([]) == [];
    TruncatedAgrees(times, s.store.inodes[i], t.store.inodes[i], ts);
    AgreeWeaken(times, true, Counted(s.store, i), v, w);
    PutMatches(times, s, t, i, v, w);
  }

  lemma InvImplies(s: State)
    requires Inv(s)
    ensures WellTyped(s.store.inodes, s.store.entries) && LiveLogs(s.store) && IsTree(s.store.entries)
  {
  }

  lemma TruncatedAgrees(times: bool, v: InodeValue, w: InodeValue, ts: u64)
    requires Agree(times, true, v, w)
    ensures Agree(times, true, Truncated(v, ts), Truncated(w, ts))
  {
  }

  lemma ReleaseMatches(times: bool, s: State, t: State, i: Ino)
    requires Related(times, s, t)
    ensures Matches(times, Release(s, i, false), Release(t, i, false))
  {
    hide Inv, CacheTyped, StoresAgree;
    ReleaseKeepsInv(s, i);
    CacheDrop(t.store.inodes, t.mem.cache, i);
    DropAgrees(times, s.store, t.store, i);
  }

  function Dropped(st: Store, i: Ino): Store {
    st.(inodes := st.inodes - {i}, locations := st.locations - {i}, deltas := st.deltas - {i})
  }

  lemma DropAgrees(times: bool, a: Store, b: Store, i: Ino)
    requires StoresAgree(times, a, b)
    ensures StoresAgree(times, Dropped(a, i), Dropped(b, i))
  {
    hide Agree;
    var a1, b1 := Dropped(a, i), Dropped(b, i);
    assert forall j: Ino :: j != i ==> DeltasOf(a1, j) == DeltasOf(a, j);
    assert forall j: Ino :: j != i ==> DeltasOf(b1, j) == DeltasOf(b, j);
    forall j | j in a1.inodes ensures Agree(times, Counted(a1, j), Effective(a1, j), b1.inodes[j]) {
      UntouchedAgrees(times, a, b, a1, b1, j);
    }
  }

  /** Compaction changes nothing that the other server can see. */
  lemma CompactionMatches(times: bool, s: State, t: State, chosen: set<Ino>, dirty: set<Ino>, dirty': set<Ino>)
    requires Related(times, s, t) && chosen <= s.store.inodes.Keys
    ensures var s' := CompactAll(s, chosen);
            && CompactAll(t, {}) == t
            && Related(times, s'.(mem := s'.mem.(dirty := dirty)), t.(mem := t.mem.(dirty := dirty')))
  {
    hide Inv, StoresAgree, CacheTyped, Effective;
    var s' := CompactAll(s, chosen);
    CompactAllKeepsInv(s, chosen);
    DirtyIsFree(s', dirty);
    CompactionStores(times, s, t.store, chosen);
    assert CompactAll(t, {}).store.inodes == t.store.inodes;
    assert CompactAll(t, {}).store.deltas == t.store.deltas;
  }

  lemma CompactionStores(times: bool, s: State, b: Store, chosen: set<Ino>)
    requires Inv(s) && StoresAgree(times, s.store, b) && chosen <= s.store.inodes.Keys
    ensures StoresAgree(times, CompactAll(s, chosen).store, b)
  {
    hide IsTree, FileLinks, DirLinks, LiveDir, Agree, Deferred, Effective, CacheTyped, WellTyped, LiveLogs;
    var u := CompactAll(s, chosen).store;
    CompactAllTypes(s, chosen);
    forall i | i in u.inodes ensures Agree(times, Counted(u, i), Effective(u, i), b.inodes[i]) {
      CompactAllEffective(s, chosen, i);
    }
  }

  lemma NothingToCompact(times: bool, s: State, t: State, candidates: set<Ino>, blocked: set<Ino>)
    requires Related(times, s, t)
    ensures Compactable(t, candidates, blocked) == {}
  {
    hide Inv, Agree, CacheTyped, Effective;
  }

  lemma EvictMatches(times: bool, s: State, t: State, i: Ino)
    requires Related(times, s, t)
    ensures Matches(times, Evict(s, i), Evict(t, i))
  {
    hide StoresAgree, IsTree, FileLinks, DirLinks, LiveLogs, WellTyped, Deferred, Inv;
    EvictKeepsInv(s, i);
  }

  // ------------------------------------------------------------------ steps and runs

  /** Every allowed attempt takes related servers to related servers and gets the same answer from both. */
  lemma StepMatches(times: bool, s: State, t: State, a: Attempt)
    requires Related(times, s, t) && Allowed(s, a) && (times ==> TimesAllowed(s, a))
    ensures Matches(times, Step(WithDeltas, s, a), Step(NoDelta, t, a))
  {
    hide Related, AddNode, CreateAndOpen, Unlink, Rmdir, Rename, Link, SetAttr, ReportWrite, Load, Open, Release,
      CompactAll, Evict, LiveDir, Descends, Names, Subdirs, RoomForSubdir, RenameAllowed, LinkAllowed, NewNodeAllowed;
    assert t.mem.next == s.mem.next by { RelatedNext(times, s, t); }
    match a.op {
      case DoCreate(k, mode, uid, gid, ts) =>
        NodesAreGood(s.mem.next, mode, [], uid, gid, ts);
        AddNodeMatches(times, s, t, k, NewFile(s.mem.next, mode, uid, gid, ts), a.conflict);
      case DoCreateAndOpen(k, mode, uid, gid, ts) =>
        CreateAndOpenMatches(times, s, t, k, mode, uid, gid, ts, a.conflict);
      case DoMkdir(k, mode, uid, gid, ts) =>
        NodesAreGood(s.mem.next, mode, [], uid, gid, ts);
        AddNodeMatches(times, s, t, k, NewDir(s.mem.next, mode, uid, gid, ts), a.conflict);
      case DoSymlink(k, link, uid, gid, ts) =>
        NodesAreGood(s.mem.next, 0, link, uid, gid, ts);
        AddNodeMatches(times, s, t, k, NewSymlink(s.mem.next, link, uid, gid, ts), a.conflict);
      case DoUnlink(k, ts, parentTs) => UnlinkMatches(times, s, t, k, ts, parentTs, a.conflict);
      case DoRmdir(k, ts) => RmdirMatches(times, s, t, k, ts, a.conflict);
      case DoRename(k, k2, ts) => RenameMatches(times, s, t, k, k2, ts, a.conflict);
      case DoLink(k, target, ts, parentTs) => LinkMatches(times, s, t, k, target, ts, parentTs, a.conflict);
      case DoSetAttr(i, req, ts) => SetAttrMatches(times, s, t, i, req, ts, a.conflict);
      case DoReportWrite(i, newSize, mtime) => ReportWriteMatches(times, s, t, i, newSize, mtime, a.conflict);
      case DoLoad(i) => LoadMatches(times, s, t, i);
      case DoOpen(i, truncate, ts) => OpenMatches(times, s, t, i, truncate, ts, a.conflict);
      case DoRelease(i) => ReleaseMatches(times, s, t, i);
      case DoCompact(i) =>
        var blocked := if a.conflict then {i} else {};
        NothingToCompact(times, s, t, {i}, blocked);
        CompactionMatches(times, s, t, Compactable(s, {i}, blocked), s.mem.dirty, t.mem.dirty);
        CompactKeepsDirty(s, Compactable(s, {i}, blocked));
      case DoCompactDirty(threshold, blocked) =>
        var due := DueForCompaction(s, threshold, blocked);
        NothingToCompact(times, s, t, t.mem.dirty, blocked);
        assert DueForCompaction(t, threshold, blocked) == {};
        CompactionMatches(times, s, t, due, s.mem.dirty - due, t.mem.dirty - {});
      case DoFlushAll(blocked) =>
        NothingToCompact(times, s, t, t.mem.dirty, blocked);
        CompactionMatches(times, s, t, Compactable(s, s.mem.dirty, blocked), {}, {});
      case DoEvict(i) => EvictMatches(times, s, t, i);
    }
  }

  lemma RelatedNext(times: bool, s: State, t: State)
    requires Related(times, s, t)
    ensures t.mem.next == s.mem.next
  {
  }

  lemma CompactKeepsDirty(s: State, chosen: set<Ino>)
    requires chosen <= s.store.inodes.Keys
    ensures CompactAll(s, chosen).mem.dirty == s.mem.dirty
  {
  }

  ghost predicate RefinementRun(times: bool, s: State, run: seq<Attempt>) {
    run == [] ||
    var front, last := run[..|run| - 1], run[|run| - 1];
    var m := Run(WithDeltas, s, front);
    RefinementRun(times, s, front) && Allowed(m, last) && (times ==> TimesAllowed(m, last))
  }

  lemma {:induction false} RunRefines(times: bool, s: State, t: State, run: seq<Attempt>)
    requires Related(times, s, t) && RefinementRun(times, s, run)
    ensures Related(times, Run(WithDeltas, s, run), Run(NoDelta, t, run))
  {
    hide Related, Step, Allowed, TimesAllowed;
    if run != [] {
      var front, last := run[..|run| - 1], run[|run| - 1];
      RunRefines(times, s, t, front);
      StepMatches(times, Run(WithDeltas, s, front), Run(NoDelta, t, front), last);
    }
  }

  /**
   Both builds, formatted alike and driven by the same run: the same entries, and for every file and
   linked directory the same attributes and link count, and the same times if times were respected.
   */
  lemma DeltaBuildRefinesPlain(times: bool, uid: u32, gid: u32, ts: u64, run: seq<Attempt>, i: Ino)
    requires RefinementRun(times, Formatted(uid, gid, ts), run)
    ensures var s, t := Run(WithDeltas, Formatted(uid, gid, ts), run), Run(NoDelta, Formatted(uid, gid, ts), run);
            && t.store.entries == s.store.entries
            && t.mem.pending == s.mem.pending && t.mem.handles == s.mem.handles
            && (i in t.store.inodes <==> i in s.store.inodes)
            && (i in s.store.inodes && Linked(s.store.entries, i) ==>
                  Agree(times, true, Effective(s.store, i), t.store.inodes[i]))
  {
    hide RefinementRun, Run;
    var z := Formatted(uid, gid, ts);
    FormattedRelated(times, uid, gid, ts);
    RunRefines(times, z, z, run);
    var s := Run(WithDeltas, z, run);
    if i in s.store.inodes && Linked(s.store.entries, i) {
      LinkedIsCounted(s.store, i);
    }
  }

  lemma FormattedRelated(times: bool, uid: u32, gid: u32, ts: u64)
    ensures Related(times, Formatted(uid, gid, ts), Formatted(uid, gid, ts))
  {
    var z := Formatted(uid, gid, ts);
    FormattedInv(uid, gid, ts);
    assert DeltasOf(z.store, ROOT) == [] && Ops([]) == [];
    assert Effective(z.store, ROOT) == z.store.inodes[ROOT];
  }

  lemma LinkedIsCounted(st: Store, i: Ino)
    requires WellTyped(st.inodes, st.entries) && i in st.inodes && Linked(st.entries, i)
    ensures Counted(st, i)
  {
    if i != ROOT {
      var k :| k in st.entries && st.entries[k].ino == i;
      EntryTypes(st.inodes, st.entries, k);
    }
  }

  // ------------------------------------------------------------------ when times part

  /** Setting attributes keeps the times of both builds equal exactly when none is set below a pending delta. */
  lemma SetAttrTimesIff(v: InodeValue, w: InodeValue, ops: seq<DeltaOp>, req: SetAttrRequest, ts: u64)
    requires Agree(true, true, Fold(v, ops), w)
    ensures Agree(true, true, Fold(WithAttrs(v, req, ts), ops), WithAttrs(w, req, ts)) <==>
            && ts >= LatestCtime(ops)
            && (Resized(v, req) ==> ts >= LatestMtime(ops))
            && (!Resized(v, req) && req.mtime.Some? ==> req.mtime.value >= LatestMtime(ops))
            && (req.atime.Some? ==> req.atime.value >= LatestAtime(ops))
  {
    FoldByField(v, ops);
    FoldByField(WithAttrs(v, req, ts), ops);
  }

  /** So does report_write, exactly when its time is not earlier than a pending one. */
  lemma ReportWriteTimesIff(v: InodeValue, w: InodeValue, ops: seq<DeltaOp>, newSize: u64, mtime: u64)
    requires Agree(true, true, Fold(v, ops), w)
    ensures Agree(true, true, Fold(Written(v, newSize, mtime), ops), Written(w, newSize, mtime)) <==>
            mtime >= LatestCtime(ops) && mtime >= LatestMtime(ops)
  {
    FoldByField(v, ops);
    FoldByField(Written(v, newSize, mtime), ops);
  }

  /** And rename, which sets the change time of the moved inode. */
  lemma RenameTimesIff(v: InodeValue, w: InodeValue, ops: seq<DeltaOp>, ts: u64)
    requires Agree(true, true, Fold(v, ops), w)
    ensures Agree(true, true, Fold(v.(ctime := ts), ops), w.(ctime := ts)) <==> ts >= LatestCtime(ops)
  {
    FoldByField(v, ops);
    FoldByField(v.(ctime := ts), ops);
  }

  /** The times an attempt reads from the clock lie between `before` and `now`. */
  predicate ReadsBetween(op: Op, before: u64, now: u64) {
    && before <= now
    && StampOf(op) <= now
    && match op
       case DoSetAttr(_, _, ts) => before <= ts <= now
       case DoReportWrite(_, _, mtime) => before <= mtime <= now
       case DoRename(_, _, ts) => before <= ts
       case _ => true
  }

  /** An explicit modification time is not set below a pending one. */
  ghost predicate MtimeKept(s: State, op: Op) {
    op.DoSetAttr? && op.i in s.store.inodes && op.req.mtime.Some? ==>
      op.req.mtime.value >= LatestMtime(Ops(DeltasOf(s.store, op.i)))
  }

  lemma ClockAllowsTimes(s: State, a: Attempt, before: u64, now: u64)
    requires StampedBefore(s.store, before) && ReadsBetween(a.op, before, now) && MtimeKept(s, a.op)
    ensures TimesAllowed(s, a)
  {
    hide OpsBefore;
    forall i: Ino
      ensures var ops := Ops(DeltasOf(s.store, i));
              LatestMtime(ops) <= before && LatestCtime(ops) <= before && LatestAtime(ops) == 0
    {
      assert OpsBefore(Ops(DeltasOf(s.store, i)), before);
      LatestBefore(Ops(DeltasOf(s.store, i)), before);
    }
  }

  /** A run under a clock that never goes back: attempt `j` happens between readings `j` and `j + 1`. */
  ghost predicate ClockedRun(s: State, run: seq<Attempt>, clock: seq<u64>) {
    && |clock| == |run| + 1
    && (run != [] ==>
          var n := |run| - 1;
          var m := Run(WithDeltas, s, run[..n]);
          ClockedRun(s, run[..n], clock[..n + 1]) && Allowed(m, run[n]) &&
          ReadsBetween(run[n].op, clock[n], clock[n + 1]) && MtimeKept(m, run[n].op))
  }

  lemma {:induction false} ClockedRunIsRefined(s: State, run: seq<Attempt>, clock: seq<u64>)
    requires ClockedRun(s, run, clock) && StampedBefore(s.store, clock[0])
    ensures RefinementRun(true, s, run) && StampedBefore(Run(WithDeltas, s, run).store, clock[|run|])
  {
    hide Step, Allowed, TimesAllowed, MtimeKept, StampedBefore, ReadsBetween;
    if run != [] {
      var n := |run| - 1;
      var m := Run(WithDeltas, s, run[..n]);
      ClockedRunIsRefined(s, run[..n], clock[..n + 1]);
      ClockAllowsTimes(m, run[n], clock[n], clock[n + 1]);
      ClockMoves(m.store, run[n].op, clock[n], clock[n + 1]);
      StepStampedBefore(m, run[n], clock[n + 1]);
    }
  }

  lemma ClockMoves(st: Store, op: Op, before: u64, now: u64)
    requires StampedBefore(st, before) && ReadsBetween(op, before, now)
    ensures StampedBefore(st, now) && StampOf(op) <= now
  {
    forall i: Ino ensures OpsBefore(Ops(DeltasOf(st, i)), now) {
      assert OpsBefore(Ops(DeltasOf(st, i)), before);
    }
  }

  lemma ClockedLength(s: State, run: seq<Attempt>, clock: seq<u64>)
    requires ClockedRun(s, run, clock)
    ensures |clock| == |run| + 1
  {
    hide Step, Run, Allowed, ReadsBetween, MtimeKept;
  }

  /** Under such a clock the two builds agree on everything, times included. */
  lemma ClockedBuildsAgree(uid: u32, gid: u32, ts: u64, run: seq<Attempt>, clock: seq<u64>, i: Ino)
    requires ClockedRun(Formatted(uid, gid, ts), run, clock)
    ensures var s, t := Run(WithDeltas, Formatted(uid, gid, ts), run), Run(NoDelta, Formatted(uid, gid, ts), run);
            && t.store.entries == s.store.entries
            && (i in t.store.inodes <==> i in s.store.inodes)
            && (i in s.store.inodes && Linked(s.store.entries, i) ==> Effective(s.store, i) == t.store.inodes[i])
  {
    hide Run, RefinementRun, ClockedRun, Effective;
    var z := Formatted(uid, gid, ts);
    ClockedLength(z, run, clock);
    ClockedRunIsRefined(z, run, clock);
    DeltaBuildRefinesPlain(true, uid, gid, ts, run, i);
  }
}
