/**
 Compaction in two steps inside the server's runs (server/src/compaction.rs): a scan of the deltas and,
 any number of operations later, a commit that folds what was scanned into the base as it is then and
 deletes exactly the scanned rows. The delta build still refines the read-modify-write build.
 */
module SplitCompaction {
  import opened Types
  import opened Wrappers
  import opened DeltaFold
  import opened Server
  import opened Logging
  import opened DeltaLog
  import opened Tree
  import opened Links
  import opened Invariants
  import opened Preservation
  import opened RenamePreservation
  import opened Namespace
  import opened Refinement
  import opened Vfs

  /** The server, and the rows that compactions in flight have scanned, at most one per inode. */
  datatype Split = Split(server: State, scans: map<Ino, seq<Delta>>)

  datatype Move = Tried(a: Attempt) | ScanDeltas(i: Ino) | CommitFold(i: Ino, refused: bool)

  /** The rows that are not among the scanned ones. */
  function Rest(ds: seq<Delta>, scan: seq<Delta>): seq<Delta> {
    if ds == [] then []
    else
      var front, last := Rest(ds[..|ds| - 1], scan), ds[|ds| - 1];
      if exists j :: 0 <= j < |scan| && scan[j].num == last.num then front else front + [last]
  }

  /**
   The commit of `force_compact_inode`: the locked base folded with the scan, the scanned keys
   deleted, the cache entry dropped.
   */
  function FoldScan(s: State, i: Ino, scan: seq<Delta>): State
    requires i in s.store.inodes
  {
    var st := s.store;
    State(st.(inodes := st.inodes[i := Fold(st.inodes[i], Ops(scan))],
              deltas := st.deltas[i := Rest(DeltasOf(st, i), scan)]),
          s.mem.(cache := s.mem.cache - {i}))
  }

  function After(x: Split, m: Move): Split {
    match m
    case Tried(a) => x.(server := Step(WithDeltas, x.server, a).state)
    case ScanDeltas(i) =>
      var ds := DeltasOf(x.server.store, i);
      if i in x.scans || ds == [] then x else x.(scans := x.scans[i := ds])
    case CommitFold(i, refused) =>
      if i !in x.scans then x
      else if refused || i !in x.server.store.inodes then x.(scans := x.scans - {i})
      else Split(FoldScan(x.server, i, x.scans[i]), x.scans - {i})
  }

  function Played(x: Split, moves: seq<Move>): Split {
    if moves == [] then x else After(Played(x, moves[..|moves| - 1]), moves[|moves| - 1])
  }

  /** The other server sees the attempts only. */
  function PlainPlayed(t: State, moves: seq<Move>): State {
    if moves == [] then t
    else
      var front, last := PlainPlayed(t, moves[..|moves| - 1]), moves[|moves| - 1];
      if last.Tried? then Step(NoDelta, front, last.a).state else front
  }

  /** Attempts are allowed as ever, and none compacts an inode whose compaction is in flight. */
  ghost predicate MoveAllowed(times: bool, x: Split, m: Move) {
    m.Tried? ==>
      Allowed(x.server, m.a) && (times ==> TimesAllowed(x.server, m.a)) && Compacts(x.server, m.a) !! x.scans.Keys
  }

  ghost predicate MovesAllowed(times: bool, x: Split, moves: seq<Move>) {
    moves == [] ||
    var front, last := moves[..|moves| - 1], moves[|moves| - 1];
    MovesAllowed(times, x, front) && MoveAllowed(times, Played(x, front), last)
  }

  /**
   A scan belongs to a numbered inode that is no file, and while the directory is linked its rows
   are still in front.
   */
  ghost predicate Held(s: State, i: Ino, scan: seq<Delta>) {
    && i < s.mem.next
    && (i in s.store.inodes ==> IsDir(s.store.inodes[i].mode))
    && (LiveDir(s.store.entries, i) ==> scan <= DeltasOf(s.store, i))
  }

  ghost predicate AllHeld(x: Split) {
    forall i :: i in x.scans ==> Held(x.server, i, x.scans[i])
  }

  // ------------------------------------------------------------------ attempts between scan and commit

  lemma StepTypes(s: State, a: Attempt, i: Ino)
    requires i in Step(WithDeltas, s, a).state.store.inodes && i != s.mem.next
    ensures i in s.store.inodes
    ensures FileType(Step(WithDeltas, s, a).state.store.inodes[i].mode) == FileType(s.store.inodes[i].mode)
  {
    hide AddNode, CreateAndOpen, Unlink, Rmdir, Rename, Link, Release, Compact, CompactDirty, FlushAll, FileType,
      Effective;
    if !a.op.DoSetAttr? && !a.op.DoReportWrite? && !a.op.DoOpen? {
      StepSizes(s, a);
    }
  }

  lemma FewerEntries(E: Entries, k: DirKey, i: Ino)
    requires LiveDir(E - {k}, i)
    ensures LiveDir(E, i)
  {
  }

  lemma RemovalLiveDir(s: State, k: DirKey, ts: u64, parentTs: u64, conflict: bool, i: Ino)
    ensures LiveDir(Unlink(WithDeltas, s, k, ts, parentTs, conflict).state.store.entries, i) ==>
            LiveDir(s.store.entries, i)
    ensures LiveDir(Rmdir(WithDeltas, s, k, ts, conflict).state.store.entries, i) ==> LiveDir(s.store.entries, i)
  {
    hide LogAll, CacheAll, Touched, LiveDir, DirEmpty;
    var st := s.store;
    if k in st.entries && st.entries[k].ino in st.inodes {
      var j := st.entries[k].ino;
      var dying := OneLinkLess(st.inodes[j], ts).nlink == 0 && HandleCount(s.mem, j) == 0;
      LogAllFrame(Txn(UnlinkStore(st, k, dying, ts), s.mem.seqs), [LogItem(k.parent, Stamps(parentTs))]);
      LogAllFrame(Txn(RmdirStore(st, k), s.mem.seqs), RmdirLogs(k, ts));
      if LiveDir(st.entries - {k}, i) {
        FewerEntries(st.entries, k, i);
      }
    }
  }

  lemma NodeLiveDir(s: State, k: DirKey, n: NewNode, conflict: bool, i: Ino)
    requires i != s.mem.next && LiveDir(AddNode(WithDeltas, s, k, n, conflict).state.store.entries, i)
    ensures LiveDir(s.store.entries, i)
  {
    hide LogAll, CacheAll, LiveDir;
    LogAllFrame(Txn(NodeStore(s.store, s.mem.next, k, n), s.mem.seqs), NewLogs(k, n));
    if k !in s.store.entries {
      LiveDirMonotone(s.store.entries, k, Entry(s.mem.next, n.value.mode), i);
    }
  }

  lemma LinkLiveDir(s: State, k: DirKey, target: Ino, ts: u64, parentTs: u64, conflict: bool, i: Ino)
    requires LiveDir(Link(WithDeltas, s, k, target, ts, parentTs, conflict).state.store.entries, i)
    ensures LiveDir(s.store.entries, i)
  {
    hide LogAll, CacheAll, LiveDir;
    if target in s.store.inodes && k !in s.store.entries {
      LogAllFrame(Txn(LinkStore(s.store, k, target, ts), s.mem.seqs), [LogItem(k.parent, Stamps(parentTs))]);
      LiveDirMonotone(s.store.entries, k, Entry(target, s.store.inodes[target].mode), i);
    }
  }

  lemma RenameLiveDirOnly(s: State, k: DirKey, k2: DirKey, ts: u64, conflict: bool, i: Ino)
    requires WellTyped(s.store.inodes, s.store.entries)
    requires LiveDir(Rename(WithDeltas, s, k, k2, ts, conflict).state.store.entries, i)
    ensures LiveDir(s.store.entries, i)
  {
    hide LogAll, CacheAll, LiveDir, WellTyped, RenameInodes, RenameLogsOf, DirEmpty;
    var st := s.store;
    if RenameRefusal(st, k, k2).None? {
      LogAllFrame(Txn(RenameStore(st, k, k2, ts), s.mem.seqs), RenameLogsOf(st, k, k2, ts));
      EntryTypes(st.inodes, st.entries, k);
      if !conflict {
        MovedLiveDir(st.entries, k, k2, st.inodes[st.entries[k].ino].mode, i);
      }
    }
  }

  /** No attempt links a directory that was not linked, but for the one it creates. */
  lemma StepLiveDir(s: State, a: Attempt, i: Ino)
    requires WellTyped(s.store.inodes, s.store.entries) && i != s.mem.next
    requires LiveDir(Step(WithDeltas, s, a).state.store.entries, i)
    ensures LiveDir(s.store.entries, i)
  {
    hide LiveDir, WellTyped, AddNode, Unlink, Rmdir, Rename, Link, Effective;
    match a.op {
      case DoCreate(k, mode, uid, gid, ts) => NodeLiveDir(s, k, NewFile(s.mem.next, mode, uid, gid, ts), a.conflict, i);
      case DoCreateAndOpen(k, mode, uid, gid, ts) =>
        NodeLiveDir(s, k, NewFile(s.mem.next, mode, uid, gid, ts), a.conflict, i);
      case DoMkdir(k, mode, uid, gid, ts) => NodeLiveDir(s, k, NewDir(s.mem.next, mode, uid, gid, ts), a.conflict, i);
      case DoSymlink(k, link, uid, gid, ts) =>
        NodeLiveDir(s, k, NewSymlink(s.mem.next, link, uid, gid, ts), a.conflict, i);
      case DoUnlink(k, ts, parentTs) => RemovalLiveDir(s, k, ts, parentTs, a.conflict, i);
      case DoRmdir(k, ts) => RemovalLiveDir(s, k, ts, ts, a.conflict, i);
      case DoRename(k, k2, ts) => RenameLiveDirOnly(s, k, k2, ts, a.conflict, i);
      case DoLink(k, target, ts, parentTs) => LinkLiveDir(s, k, target, ts, parentTs, a.conflict, i);
      case _ =>
    }
  }

  /** What an attempt clears the deltas of is no linked directory afterwards. */
  lemma ClearedIsDead(s: State, a: Attempt, i: Ino)
    requires Inv(s) && Allowed(s, a) && Clears(s, a, i)
    ensures !LiveDir(Step(WithDeltas, s, a).state.store.entries, i)
  {
    hide Inv, LiveDir, Step;
    StepKeepsInv(s, a);
    var s' := Step(WithDeltas, s, a).state;
    TreePart(s');
    if LiveDir(s'.store.entries, i) {
      LiveDirIsStored(s'.store.inodes, s'.store.entries, i);
      if a.op.DoRename? {
        ReplacedIsDead(s, a, i);
      } else {
        DeletedIsGone(s, a, i);
      }
    }
  }

  lemma DeletedIsGone(s: State, a: Attempt, i: Ino)
    requires Clears(s, a, i) && !a.op.DoRename?
    ensures i !in Step(WithDeltas, s, a).state.store.inodes
  {
    hide LogAll, CacheAll, Touched, DirEmpty, AddNode, CreateAndOpen, Rename, Link, SetAttr, ReportWrite, Load, Open,
      Compact, CompactDirty, FlushAll;
    var st := s.store;
    match a.op {
      case DoUnlink(k, ts, parentTs) =>
        LogKeepsInodes(UnlinkStore(st, k, true, ts), s.mem.seqs, [LogItem(k.parent, Stamps(parentTs))]);
      case DoRmdir(k, ts) => LogKeepsInodes(RmdirStore(st, k), s.mem.seqs, RmdirLogs(k, ts));
      case _ =>
    }
  }

  lemma ReplacedIsDead(s: State, a: Attempt, i: Ino)
    requires Inv(s) && Allowed(s, a) && a.op.DoRename? && Clears(s, a, i)
    ensures !LiveDir(Step(WithDeltas, s, a).state.store.entries, i)
  {
    hide LiveDir, LogAll, CacheAll, IsTree, DirLinks, LiveLogs, Fresh, Deferred, CacheTyped, WellTyped, FileLinks,
      RenameInodes, RenameLogsOf, DirEmpty, AddNode, CreateAndOpen, Unlink, Rmdir, Link, SetAttr, ReportWrite, Load,
      Open, Release, Compact, CompactDirty, FlushAll, Descends, RoomForSubdir;
    var st, k, k2, ts := s.store, a.op.k, a.op.k2, a.op.ts;
    LogAllFrame(Txn(RenameStore(st, k, k2, ts), s.mem.seqs), RenameLogsOf(st, k, k2, ts));
    if k2 != k {
      RenameLiveDir(st, k, k2, ts, i);
    } else {
      EntryTypes(st.inodes, st.entries, k);
      FileIsNoLiveDir(st.inodes, st.entries, k);
      if LiveDir(Moved(st.entries, k, k, st.inodes[i].mode), i) {
        MovedLiveDir(st.entries, k, k, st.inodes[i].mode, i);
      }
    }
  }

  lemma FileIsNoLiveDir(I: Inodes, E: Entries, k: DirKey)
    requires WellTyped(I, E) && IsTree(E) && k in E && !IsDir(E[k].mode)
    ensures !LiveDir(E, E[k].ino)
  {
    EntryTypes(I, E, k);
    if LiveDir(E, E[k].ino) {
      LiveDirIsStored(I, E, E[k].ino);
    }
  }

  /** A scan survives every allowed attempt that does not compact its inode. */
  lemma StepHolds(s: State, a: Attempt, i: Ino, scan: seq<Delta>)
    requires Inv(s) && Allowed(s, a) && Held(s, i, scan) && i !in Compacts(s, a)
    ensures Held(Step(WithDeltas, s, a).state, i, scan)
  {
    hide Inv, Step, LiveDir, Allowed, OpsFor, FileType;
    var s' := Step(WithDeltas, s, a).state;
    NextGrows(s, a);
    if i in s'.store.inodes {
      StepTypes(s, a, i);
      SameTypeSameTest();
    }
    if LiveDir(s'.store.entries, i) {
      TreePart(s);
      StepLiveDir(s, a, i);
      var fp := StepLeaves(s, a);
      if i in fp.cleared {
        ClearedIsDead(s, a, i);
      }
      assert DeltasOf(s'.store, i) == DeltasAfter(s, fp, i);
    }
  }

  lemma NextGrows(s: State, a: Attempt)
    requires Inv(s) && Allowed(s, a)
    ensures s.mem.next <= Step(WithDeltas, s, a).state.mem.next
  {
    hide Inv, AddNode, CreateAndOpen, Unlink, Rmdir, Rename, Link, SetAttr, ReportWrite, Load, Open, Release,
      CompactAll, LiveDir, RoomForSubdir, RenameAllowed, LinkAllowed;
    if a.op.DoSetAttr? || a.op.DoReportWrite? || a.op.DoOpen? {
      QuietNext(s, a);
    } else {
      StepSizes(s, a);
    }
  }

  lemma QuietNext(s: State, a: Attempt)
    requires a.op.DoSetAttr? || a.op.DoReportWrite? || a.op.DoOpen?
    ensures Step(WithDeltas, s, a).state.mem.next == s.mem.next
  {
    hide AddNode, CreateAndOpen, Unlink, Rmdir, Rename, Link, Release, Compact, CompactDirty, FlushAll, Effective,
      WithAttrs;
  }

  // ------------------------------------------------------------------ the commit

  /** Of rows in ascending order, those that are not in the scanned front are what follows it. */
  lemma {:induction false} RestOfPrefix(ds: seq<Delta>, scan: seq<Delta>)
    requires Ascending(ds) && scan <= ds
    ensures Rest(ds, scan) == ds[|scan|..]
  {
    if ds != [] {
      var front, last := ds[..|ds| - 1], ds[|ds| - 1];
      if |scan| == |ds| {
        assert scan == ds;
        RestOfAll(ds, ds);
      } else {
        assert scan <= front;
        RestOfPrefix(front, scan);
        forall j | 0 <= j < |scan| ensures scan[j].num != last.num {
          assert scan[j] == ds[j];
        }
        assert ds[|scan|..] == front[|scan|..] + [last];
      }
    }
  }

  lemma {:induction false} RestOfAll(ds: seq<Delta>, scan: seq<Delta>)
    requires ds <= scan
    ensures Rest(ds, scan) == []
  {
    if ds != [] {
      RestOfAll(ds[..|ds| - 1], scan);
      assert scan[|ds| - 1].num == ds[|ds| - 1].num;
    }
  }

  lemma {:induction false} ExactSplit(n: u32, x: seq<DeltaOp>, y: seq<DeltaOp>)
    requires ExactFold(n, x + y)
    ensures ExactFold(n, x) && ExactFold(FoldNlink(n, x), y)
    ensures FoldNlink(n, x + y) == FoldNlink(FoldNlink(n, x), y)
    decreases |y|
  {
    if y == [] {
      assert x + y == x;
    } else {
      assert (x + y)[..|x + y| - 1] == x + y[..|y| - 1];
      ExactSplit(n, x, y[..|y| - 1]);
    }
  }

  /** Folding the front of the log into the base leaves the effective value, and its exactness, as they were. */
  lemma FoldScanEffective(s: State, i: Ino, scan: seq<Delta>)
    requires i in s.store.inodes && Ascending(DeltasOf(s.store, i)) && scan <= DeltasOf(s.store, i)
    ensures var u := FoldScan(s, i, scan).store;
            Effective(u, i) == Effective(s.store, i) && (ExactLog(s.store, i) ==> ExactLog(u, i))
  {
    hide Fold, ExactFold, Rest;
    var ds, b := DeltasOf(s.store, i), s.store.inodes[i];
    var rest := ds[|scan|..];
    RestOfPrefix(ds, scan);
    assert ds == scan + rest;
    OpsConcat(scan, rest);
    FoldConcat(b, Ops(scan), Ops(rest));
    FoldByField(b, Ops(scan));
    if ExactLog(s.store, i) {
      ExactSplit(b.nlink, Ops(scan), Ops(rest));
    }
  }

  lemma FoldScanElsewhere(s: State, i: Ino, scan: seq<Delta>, j: Ino)
    requires i in s.store.inodes && j in s.store.inodes && j != i
    ensures var u := FoldScan(s, i, scan).store;
            && j in u.inodes && DeltasOf(u, j) == DeltasOf(s.store, j) && Effective(u, j) == Effective(s.store, j)
            && (ExactLog(s.store, j) ==> ExactLog(u, j))
  {
    hide Rest, Fold;
  }

  lemma NoRowsNoRest(ds: seq<Delta>, scan: seq<Delta>)
    requires ds == []
    ensures Rest(ds, scan) == []
  {
  }

  lemma FoldScanLinks(s: State, i: Ino, scan: seq<Delta>)
    requires DirLinks(s.store) && LiveLogs(s.store) && i in s.store.inodes
    requires LiveDir(s.store.entries, i) ==> Ascending(DeltasOf(s.store, i)) && scan <= DeltasOf(s.store, i)
    ensures DirLinks(FoldScan(s, i, scan).store) && LiveLogs(FoldScan(s, i, scan).store)
  {
    hide LiveDir, Subdirs, Effective, ExactLog, Rest, Ascending;
    var st, u := s.store, FoldScan(s, i, scan).store;
    forall j | j in u.inodes && LiveDir(u.entries, j)
      ensures ExactLog(u, j) && Effective(u, j).nlink == 2 + |Subdirs(u.entries, j)|
    {
      if j == i {
        FoldScanEffective(s, i, scan);
      } else {
        FoldScanElsewhere(s, i, scan, j);
      }
    }
    forall j | DeltasOf(u, j) != [] ensures LiveDir(u.entries, j) {
      if j == i && DeltasOf(st, i) == [] {
        NoRowsNoRest(DeltasOf(st, i), scan);
      }
      assert j != i ==> DeltasOf(u, j) == DeltasOf(st, j);
    }
  }

  lemma FoldScanKeepsInv(s: State, i: Ino, scan: seq<Delta>)
    requires Inv(s) && Held(s, i, scan) && i in s.store.inodes && Ascending(DeltasOf(s.store, i))
    ensures Inv(FoldScan(s, i, scan))
  {
    hide IsTree, LiveDir, DirLinks, LiveLogs, WellTyped, FileLinks, CacheTyped, FileType, Rest, Ascending, Fresh,
      Deferred;
    FoldKeepsMode(s.store.inodes[i], Ops(scan));
    FoldScanLinks(s, i, scan);
    var s' := FoldScan(s, i, scan);
    SameFilesAndTypes(s.store.inodes, s'.store.inodes, s.store.entries, s.mem, s'.mem.cache);
    SameNumbers(s'.store.inodes, s.mem, s'.mem);
  }

  lemma SameNumbers(I: Inodes, m: Mem, m': Mem)
    requires Fresh(I, m) && Deferred(I, m) && m'.next == m.next && m'.handles == m.handles && m'.pending == m.pending
    ensures Fresh(I, m') && Deferred(I, m')
  {
  }

  lemma FoldScanAgrees(times: bool, s: State, b: Store, i: Ino, scan: seq<Delta>)
    requires Inv(s) && StoresAgree(times, s.store, b) && Held(s, i, scan) && i in s.store.inodes
    requires Ascending(DeltasOf(s.store, i))
    ensures StoresAgree(times, FoldScan(s, i, scan).store, b)
  {
    hide Inv, LiveDir, Agree, Effective, Rest, Ascending;
    var u := FoldScan(s, i, scan).store;
    FoldByField(s.store.inodes[i], Ops(scan));
    forall j | j in u.inodes ensures Agree(times, Counted(u, j), Effective(u, j), b.inodes[j]) {
      if j != i {
        FoldScanElsewhere(s, i, scan, j);
      } else if LiveDir(s.store.entries, i) {
        FoldScanEffective(s, i, scan);
      } else {
        AgreeBySkeleton(times, s.store, u, b, i);
      }
    }
  }

  /** An uncounted record agrees on everything that no fold touches. */
  lemma AgreeBySkeleton(times: bool, st: Store, u: Store, b: Store, i: Ino)
    requires i in st.inodes && i in u.inodes && i in b.inodes
    requires Agree(times, Counted(st, i), Effective(st, i), b.inodes[i]) && !Counted(u, i)
    requires u.inodes[i] == st.inodes[i].(nlink := u.inodes[i].nlink, atime := u.inodes[i].atime,
                                         mtime := u.inodes[i].mtime, ctime := u.inodes[i].ctime)
    ensures Agree(times, Counted(u, i), Effective(u, i), b.inodes[i])
  {
    hide Counted;
    FoldByField(st.inodes[i], Ops(DeltasOf(st, i)));
    FoldByField(u.inodes[i], Ops(DeltasOf(u, i)));
  }

  lemma CommitRelates(times: bool, s: State, t: State, i: Ino, scan: seq<Delta>)
    requires Related(times, s, t) && Held(s, i, scan) && i in s.store.inodes && Ascending(DeltasOf(s.store, i))
    ensures Related(times, FoldScan(s, i, scan), t)
  {
    hide Inv, StoresAgree, CacheTyped, Held, Ascending, Rest, Fold;
    FoldScanKeepsInv(s, i, scan);
    FoldScanAgrees(times, s, t.store, i, scan);
  }

  /** The commit of one inode leaves the scans of the others alone. */
  lemma CommitHolds(s: State, i: Ino, scan: seq<Delta>, j: Ino, other: seq<Delta>)
    requires i in s.store.inodes && i != j && Held(s, j, other)
    ensures Held(FoldScan(s, i, scan), j, other)
  {
    hide Rest, Fold, LiveDir;
    assert DeltasOf(FoldScan(s, i, scan).store, j) == DeltasOf(s.store, j);
  }

  lemma CommitSeqSafe(s: State, i: Ino, scan: seq<Delta>)
    requires SeqSafe(s.store, s.mem.seqs) && i in s.store.inodes
    ensures SeqSafe(FoldScan(s, i, scan).store, FoldScan(s, i, scan).mem.seqs)
  {
    hide Rest, Fold, Ascending, Below;
    var u := FoldScan(s, i, scan).store;
    forall j: Ino ensures Ascending(DeltasOf(u, j)) && Below(DeltasOf(u, j), NextSeq(s.mem.seqs, j)) {
      assert Ascending(DeltasOf(s.store, j)) && Below(DeltasOf(s.store, j), NextSeq(s.mem.seqs, j));
      if j == i {
        RestAscends(DeltasOf(s.store, i), scan, NextSeq(s.mem.seqs, i));
      } else {
        assert DeltasOf(u, j) == DeltasOf(s.store, j);
      }
    }
  }

  lemma {:induction false} RestAscends(ds: seq<Delta>, scan: seq<Delta>, n: nat)
    requires Ascending(ds) && Below(ds, n)
    ensures Ascending(Rest(ds, scan)) && Below(Rest(ds, scan), n)
    ensures forall d :: d in Rest(ds, scan) ==> d in ds
  {
    if ds != [] {
      var front, last := ds[..|ds| - 1], ds[|ds| - 1];
      RestAscends(front, scan, n);
      forall j | 0 <= j < |Rest(front, scan)| ensures Rest(front, scan)[j].num < last.num {
        assert Rest(front, scan)[j] in front;
      }
    }
  }

  // ------------------------------------------------------------------ runs

  /** What holds along a run: the two servers are related, numbers ascend, and scans are held. */
  ghost predicate Tracking(times: bool, x: Split, t: State) {
    Related(times, x.server, t) && SeqSafe(x.server.store, x.server.mem.seqs) && AllHeld(x)
  }

  lemma AttemptTracks(times: bool, x: Split, t: State, a: Attempt)
    requires Tracking(times, x, t) && MoveAllowed(times, x, Move.Tried(a))
    ensures Tracking(times, After(x, Move.Tried(a)), Step(NoDelta, t, a).state)
  {
    hide Step, SeqSafe, Held, Inv, StoresAgree, Allowed, TimesAllowed;
    StepMatches(times, x.server, t, a);
    StepSeqSafe(x.server, a);
    forall i | i in x.scans ensures Held(Step(WithDeltas, x.server, a).state, i, x.scans[i]) {
      StepHolds(x.server, a, i, x.scans[i]);
    }
  }

  lemma ScanTracks(times: bool, x: Split, t: State, i: Ino)
    requires Tracking(times, x, t)
    ensures Tracking(times, After(x, ScanDeltas(i)), t)
  {
    hide StoresAgree, SeqSafe, CacheTyped;
    if i !in x.scans && DeltasOf(x.server.store, i) != [] {
      ScannedIsHeld(x.server, i);
    }
  }

  lemma ScannedIsHeld(s: State, i: Ino)
    requires Inv(s) && DeltasOf(s.store, i) != []
    ensures Held(s, i, DeltasOf(s.store, i))
  {
    hide IsTree, FileLinks, DirLinks, Deferred, CacheTyped, LiveDir, WellTyped;
    LiveDirIsStored(s.store.inodes, s.store.entries, i);
  }

  lemma FoldTracks(times: bool, x: Split, t: State, i: Ino, refused: bool)
    requires Tracking(times, x, t)
    ensures Tracking(times, After(x, CommitFold(i, refused)), t)
  {
    hide Related, Held, FoldScan;
    if i in x.scans && !refused && i in x.server.store.inodes {
      var s, scan := x.server, x.scans[i];
      assert Ascending(DeltasOf(s.store, i));
      CommitRelates(times, s, t, i, scan);
      CommitSeqSafe(s, i, scan);
      forall j | j in x.scans && j != i ensures Held(FoldScan(s, i, scan), j, x.scans[j]) {
        CommitHolds(s, i, scan, j, x.scans[j]);
      }
    }
  }

  lemma {:induction false} MovesTrack(times: bool, x: Split, t: State, moves: seq<Move>)
    requires Tracking(times, x, t) && MovesAllowed(times, x, moves)
    ensures Tracking(times, Played(x, moves), PlainPlayed(t, moves))
  {
    hide Tracking, After, MoveAllowed, Step;
    if moves != [] {
      var front, last := moves[..|moves| - 1], moves[|moves| - 1];
      MovesTrack(times, x, t, front);
      var y, u := Played(x, front), PlainPlayed(t, front);
      match last {
        case Tried(a) => AttemptTracks(times, y, u, a);
        case ScanDeltas(i) => ScanTracks(times, y, u, i);
        case CommitFold(i, refused) => FoldTracks(times, y, u, i, refused);
      }
    }
  }

  /**
   Over every run in which compactions are a scan and a later commit, with any operations in between:
   the same entries, handles and pending deletes as the read-modify-write server, and for every linked
   inode the folded value agrees with its base.
   */
  lemma SplitCompactionRefinesPlain(times: bool, uid: u32, gid: u32, ts: u64, moves: seq<Move>, i: Ino)
    requires MovesAllowed(times, Split(Formatted(uid, gid, ts), map[]), moves)
    ensures var s := Played(Split(Formatted(uid, gid, ts), map[]), moves).server;
            var t := PlainPlayed(Formatted(uid, gid, ts), moves);
            && Inv(s)
            && t.store.entries == s.store.entries
            && t.mem.pending == s.mem.pending && t.mem.handles == s.mem.handles
            && (i in t.store.inodes <==> i in s.store.inodes)
            && (i in s.store.inodes && Linked(s.store.entries, i) ==>
                  Agree(times, true, Effective(s.store, i), t.store.inodes[i]))
  {
    hide MovesAllowed, Played, PlainPlayed, Inv, Effective, Agree, Linked;
    var z := Formatted(uid, gid, ts);
    FormattedRelated(times, uid, gid, ts);
    assert Tracking(times, Split(z, map[]), z) by { NextSeqIsFresh(uid, gid, ts, []); }
    MovesTrack(times, Split(z, map[]), z, moves);
    var s := Played(Split(z, map[]), moves).server;
    InvImplies(s);
    if i in s.store.inodes && Linked(s.store.entries, i) {
      LinkedIsCounted(s.store, i);
    }
  }

  /** A scan and the commit right after it are the compaction of the state machine. */
  lemma UndisturbedSplitIsCompact(x: Split, i: Ino)
    requires i !in x.scans
    ensures var s := After(After(x, ScanDeltas(i)), CommitFold(i, false)).server;
            var t := Step(WithDeltas, x.server, Attempt(DoCompact(i), false)).state;
            && s.store.inodes == t.store.inodes && s.mem == t.mem
            && (forall j: Ino :: DeltasOf(s.store, j) == DeltasOf(t.store, j))
            && s.store == t.store.(deltas := s.store.deltas)
  {
    hide Fold, AddNode, CreateAndOpen, Unlink, Rmdir, Rename, Link, SetAttr, ReportWrite, Load, Open, Release, Rest;
    var st, ds := x.server.store, DeltasOf(x.server.store, i);
    if ds != [] && i in st.inodes {
      RestOfAll(ds, ds);
      assert Compactable(x.server, {i}, {}) == {i};
    } else {
      assert Compactable(x.server, {i}, {}) == {};
    }
  }
}
