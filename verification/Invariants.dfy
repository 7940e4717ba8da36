/**
 The invariants of the namespace, the conditions on a caller under which every attempt keeps them,
 and the facts about the delta log that all preservation proofs share.
 */
module Invariants {
  import opened Types
  import opened Wrappers
  import opened DeltaFold
  import opened Server
  import opened Logging
  import opened Tree
  import opened Links

  type Inodes = map<Ino, InodeValue>

  /** Entries name stored inodes of their own type and lie in stored directories. */
  ghost predicate WellTyped(I: Inodes, E: Entries) {
    && ROOT in I && IsDir(I[ROOT].mode)
    && (forall i :: i in I ==> Storable(I[i].mode))
    && (forall k :: k in E ==>
          && E[k].ino in I && FileType(E[k].mode) == FileType(I[E[k].ino].mode)
          && k.parent in I && IsDir(I[k.parent].mode))
  }

  /** A stored file's link count is the number of entries that name it. */
  ghost predicate FileLinks(I: Inodes, E: Entries) {
    forall i :: i in I && !IsDir(I[i].mode) ==> I[i].nlink == |Names(E, i)|
  }

  /** A linked directory: the root or the child of a directory entry. */
  ghost predicate LiveDir(E: Entries, i: Ino) {
    i == ROOT || exists k :: k in E && E[k].ino == i && IsDir(E[k].mode)
  }

  /** The pending deltas of `i` fold into its base without clamping or wrapping. */
  ghost predicate ExactLog(st: Store, i: Ino)
    requires i in st.inodes
  {
    ExactFold(st.inodes[i].nlink, Ops(DeltasOf(st, i)))
  }

  /** A linked directory's effective link count is two plus its subdirectories, reached exactly. */
  ghost predicate DirLinks(st: Store) {
    forall i :: i in st.inodes && LiveDir(st.entries, i) ==>
      ExactLog(st, i) && Effective(st, i).nlink == 2 + |Subdirs(st.entries, i)|
  }

  /** Only linked directories have pending deltas. */
  ghost predicate LiveLogs(st: Store) {
    forall i :: DeltasOf(st, i) != [] ==> LiveDir(st.entries, i)
  }

  /** Every inode number in use is below the allocator. */
  ghost predicate Fresh(I: Inodes, m: Mem) {
    && ROOT < m.next
    && (forall i :: i in I ==> i < m.next)
    && (forall i :: i in m.handles ==> i < m.next)
  }

  /** Pending deletes are exactly the stored files without links, and each has a handle. */
  ghost predicate Deferred(I: Inodes, m: Mem) {
    && (forall i :: i in m.pending <==> i in I && !IsDir(I[i].mode) && I[i].nlink == 0)
    && (forall i :: i in m.pending ==> i in m.handles)
    && (forall i :: i in m.handles ==> m.handles[i] > 0)
    && (forall i :: i in m.handles && i in I ==> !IsDir(I[i].mode))
  }

  /** A cached inode is stored, with the same type; a cached file is as stored. */
  ghost predicate CacheTyped(I: Inodes, cache: Inodes) {
    forall i :: i in cache ==>
      i in I && FileType(cache[i].mode) == FileType(I[i].mode) && (!IsDir(I[i].mode) ==> cache[i] == I[i])
  }

  ghost predicate Inv(s: State) {
    && WellTyped(s.store.inodes, s.store.entries)
    && IsTree(s.store.entries)
    && FileLinks(s.store.inodes, s.store.entries)
    && DirLinks(s.store)
    && LiveLogs(s.store)
    && Fresh(s.store.inodes, s.mem)
    && Deferred(s.store.inodes, s.mem)
    && CacheTyped(s.store.inodes, s.mem.cache)
  }

  // ------------------------------------------------------------------ what is asked of callers

  /** Room for one more subdirectory in a 32-bit link count. */
  ghost predicate RoomForSubdir(E: Entries, i: Ino) {
    |Subdirs(E, i)| + 3 < TWO32
  }

  ghost predicate NewNodeAllowed(s: State, k: DirKey) {
    LiveDir(s.store.entries, k.parent) && s.mem.next + 1 < TWO64
  }

  ghost predicate RenameAllowed(E: Entries, k: DirKey, k2: DirKey) {
    k in E ==>
      && LiveDir(E, k2.parent)
      && (k2 in E && E[k2].ino == E[k].ino ==> k2 == k && !IsDir(E[k].mode))
      && (IsDir(E[k].mode) ==> !Descends(E, E[k].ino, k2.parent) && RoomForSubdir(E, k2.parent))
  }

  ghost predicate LinkAllowed(st: Store, k: DirKey, target: Ino) {
    && LiveDir(st.entries, k.parent)
    && (target in st.inodes ==> st.inodes[target].nlink > 0)
    && |Names(st.entries, target)| + 1 < TWO32
  }

  /**
   The conditions that the server does not check: parents of new entries are linked directories, a
   rename does not join two names of one inode and does not move a directory onto or below itself, a
   link target has a link, counters have room, and the deletion that a last release performs is not refused three times.
   */
  ghost predicate Allowed(s: State, a: Attempt) {
    match a.op
    case DoCreate(k, _, _, _, _) => NewNodeAllowed(s, k)
    case DoCreateAndOpen(k, _, _, _, _) => NewNodeAllowed(s, k)
    case DoMkdir(k, _, _, _, _) => NewNodeAllowed(s, k) && RoomForSubdir(s.store.entries, k.parent)
    case DoSymlink(k, _, _, _, _) => NewNodeAllowed(s, k)
    case DoRename(k, k2, _) => RenameAllowed(s.store.entries, k, k2)
    case DoLink(k, target, _, _) => LinkAllowed(s.store, k, target)
    case DoRelease(_) => !a.conflict
    case _ => true
  }

  // ------------------------------------------------------------------ shared facts

  lemma LiveDirIsStored(I: Inodes, E: Entries, i: Ino)
    requires WellTyped(I, E) && LiveDir(E, i)
    ensures i in I && IsDir(I[i].mode)
  {
    if i != ROOT {
      var k :| k in E && E[k].ino == i && IsDir(E[k].mode);
      assert FileType(E[k].mode) == FileType(I[i].mode);
    }
  }

  lemma LiveDirDescends(E: Entries, i: Ino)
    requires IsTree(E) && LiveDir(E, i)
    ensures Descends(E, ROOT, i)
  {
    if i == ROOT {
      RootDescends(E);
    } else {
      var k :| k in E && E[k].ino == i && IsDir(E[k].mode);
      DirectoryIsRooted(E, k);
    }
  }

  lemma DescendsIsLiveDir(E: Entries, i: Ino)
    requires Descends(E, ROOT, i)
    ensures LiveDir(E, i)
  {
    var p :| ChainFromTo(E, p, ROOT, i);
    if |p| > 1 {
      assert Edge(E, p[|p| - 2], p[|p| - 1]);
    }
  }

  lemma ParentIsLiveDir(E: Entries, k: DirKey)
    requires IsTree(E) && k in E
    ensures LiveDir(E, k.parent)
  {
    DescendsIsLiveDir(E, k.parent);
  }

  lemma StampsSummary(ts: u64)
    ensures Summarise(Stamps(ts)) == Summary(0, 0, ts, ts, 0)
  {
    SummariseConcat([SetMtime(ts)], [SetCtime(ts)]);
    assert Stamps(ts) == [SetMtime(ts)] + [SetCtime(ts)];
    SummariseOne(SetMtime(ts));
    SummariseOne(SetCtime(ts));
  }

  lemma SummariseOne(d: DeltaOp)
    ensures Summarise([d]) == SummaryOf(d)
  {
    assert [d][..0] == [];
  }

  /** Links added to and removed from inode `i` by a list of parent changes. */
  ghost function Added(logs: seq<LogItem>, i: Ino): nat {
    Summarise(OpsFor(logs, i)).added
  }

  ghost function Removed(logs: seq<LogItem>, i: Ino): nat {
    Summarise(OpsFor(logs, i)).removed
  }

  lemma LinksOfOne(p: Ino, links: seq<DeltaOp>, ts: u64, i: Ino)
    ensures Added([LogItem(p, links + Stamps(ts))], i) == if i == p then Summarise(links).added else 0
    ensures Removed([LogItem(p, links + Stamps(ts))], i) == if i == p then Summarise(links).removed else 0
  {
    OpsForOne(LogItem(p, links + Stamps(ts)), i);
    SummariseConcat(links, Stamps(ts));
    StampsSummary(ts);
  }

  /** The effective link count of `i` after the logged changes is `target`, and nothing clamps. */
  ghost predicate LinksLandOn(st: Store, logs: seq<LogItem>, i: Ino, target: int)
    requires i in st.inodes
  {
    var n := Effective(st, i).nlink;
    && ExactLog(st, i)
    && Removed(logs, i) <= n && n + Added(logs, i) < TWO32
    && n + Added(logs, i) - Removed(logs, i) == target
  }

  lemma LogLinks(st: Store, seqs: map<Ino, nat>, logs: seq<LogItem>, i: Ino, target: int)
    requires i in st.inodes && LinksLandOn(st, logs, i, target)
    ensures var u := LogAll(WithDeltas, Txn(st, seqs), logs).store;
            i in u.inodes && ExactLog(u, i) && Effective(u, i).nlink == target
  {
    LogAllEffective(Txn(st, seqs), logs, i);
    FoldIsSummary(Effective(st, i), OpsFor(logs, i));
    LogExact(st, seqs, logs, i);
  }

  lemma LogExact(st: Store, seqs: map<Ino, nat>, logs: seq<LogItem>, i: Ino)
    requires i in st.inodes && ExactLog(st, i)
    requires NoClamp(Effective(st, i).nlink, Summarise(OpsFor(logs, i)))
    ensures var u := LogAll(WithDeltas, Txn(st, seqs), logs).store;
            u.inodes == st.inodes && ExactLog(u, i)
  {
    LogAllDeltas(Txn(st, seqs), logs);
    var old_, ops := DeltasOf(st, i), OpsFor(logs, i);
    OpsConcat(old_, Numbered(NextSeq(seqs, i), ops));
    OpsNumbered(NextSeq(seqs, i), ops);
    FoldByField(st.inodes[i], Ops(old_));
    ExactConcat(st.inodes[i].nlink, Ops(old_), ops);
  }

  /** Each linked directory's count lands on two plus its subdirectories. */
  ghost predicate CountsLand(st: Store, logs: seq<LogItem>) {
    forall i :: i in st.inodes && LiveDir(st.entries, i) ==>
      LinksLandOn(st, logs, i, 2 + |Subdirs(st.entries, i)|)
  }

  /** `u` is the logged store, possibly without the deltas of `gone`. */
  ghost predicate LoggedStore(st: Store, seqs: map<Ino, nat>, logs: seq<LogItem>, gone: Option<Ino>, u: Store) {
    var t := LogAll(WithDeltas, Txn(st, seqs), logs).store;
    u == match gone case None => t case Some(i) => WithoutDeltas(t, i)
  }

  lemma LoggedDeltas(st: Store, seqs: map<Ino, nat>, logs: seq<LogItem>, gone: Option<Ino>, u: Store)
    requires LoggedStore(st, seqs, logs, gone, u)
    ensures u == st.(deltas := u.deltas)
    ensures forall i: Ino :: DeltasOf(u, i) ==
              if gone == Some(i) then [] else DeltasOf(st, i) + Numbered(NextSeq(seqs, i), OpsFor(logs, i))
  {
    LogAllDeltas(Txn(st, seqs), logs);
  }

  lemma LogDirLinks(st: Store, seqs: map<Ino, nat>, logs: seq<LogItem>, gone: Option<Ino>, u: Store)
    requires LoggedStore(st, seqs, logs, gone, u) && CountsLand(st, logs)
    requires gone.Some? ==> !LiveDir(st.entries, gone.value) || gone.value !in st.inodes
    ensures DirLinks(u)
  {
    LoggedDeltas(st, seqs, logs, gone, u);
    var t := LogAll(WithDeltas, Txn(st, seqs), logs).store;
    forall i | i in u.inodes && LiveDir(u.entries, i)
      ensures ExactLog(u, i) && Effective(u, i).nlink == 2 + |Subdirs(u.entries, i)|
    {
      LogLinks(st, seqs, logs, i, 2 + |Subdirs(st.entries, i)|);
      LoggedDeltas(st, seqs, logs, None, t);
      assert DeltasOf(u, i) == DeltasOf(t, i);
    }
  }

  lemma LogLiveLogs(st: Store, seqs: map<Ino, nat>, logs: seq<LogItem>, gone: Option<Ino>, u: Store)
    requires LoggedStore(st, seqs, logs, gone, u)
    requires forall i :: i in Touched(logs) ==> LiveDir(st.entries, i)
    requires forall i: Ino :: gone != Some(i) && DeltasOf(st, i) != [] ==> LiveDir(st.entries, i)
    ensures LiveLogs(u)
  {
    LoggedDeltas(st, seqs, logs, gone, u);
    forall i | DeltasOf(u, i) != [] ensures LiveDir(u.entries, i) {
      if i !in Touched(logs) {
        OpsForUntouched(logs, i);
        assert DeltasOf(u, i) == DeltasOf(st, i);
      }
    }
  }

  /** The effective link count depends on the base's link count and the deltas only. */
  lemma EffectiveNlink(st: Store, i: Ino, v: InodeValue)
    requires i in st.inodes && v.nlink == st.inodes[i].nlink
    ensures Effective(st.(inodes := st.inodes[i := v]), i).nlink == Effective(st, i).nlink
  {
    var ops := Ops(DeltasOf(st, i));
    FoldByField(st.inodes[i], ops);
    FoldByField(v, ops);
  }

  lemma FoldKeepsMode(b: InodeValue, ops: seq<DeltaOp>)
    ensures Fold(b, ops).mode == b.mode && Fold(b, ops).size == b.size
  {
    FoldByField(b, ops);
  }

  /** Logging to directories keeps the cache's keys and types, and its files. */
  lemma CacheAllTyped(I: Inodes, cache: Inodes, logs: seq<LogItem>)
    requires CacheTyped(I, cache) && TouchesDirs(I, logs)
    ensures CacheTyped(I, CacheAll(cache, logs))
  {
    CacheAllFolds(cache, logs);
    forall i | i in cache
      ensures CacheAll(cache, logs)[i].mode == cache[i].mode
      ensures !IsDir(I[i].mode) ==> CacheAll(cache, logs)[i] == cache[i]
    {
      FoldKeepsMode(cache[i], OpsFor(logs, i));
      if !IsDir(I[i].mode) {
        OpsForUntouched(logs, i);
      }
    }
  }

  ghost predicate TouchesDirs(I: Inodes, logs: seq<LogItem>) {
    forall i :: i in Touched(logs) && i in I ==> IsDir(I[i].mode)
  }

  lemma TouchesLiveDirs(I: Inodes, E: Entries, logs: seq<LogItem>)
    requires WellTyped(I, E) && forall i :: i in Touched(logs) ==> LiveDir(E, i)
    ensures TouchesDirs(I, logs)
  {
    forall i | i in Touched(logs) ensures IsDir(I[i].mode) {
      LiveDirIsStored(I, E, i);
    }
  }

  lemma FilesAreQuiet(st: Store, i: Ino)
    requires WellTyped(st.inodes, st.entries) && LiveLogs(st) && i in st.inodes && !IsDir(st.inodes[i].mode)
    ensures DeltasOf(st, i) == [] && Effective(st, i) == st.inodes[i]
  {
    if DeltasOf(st, i) != [] {
      LiveDirIsStored(st.inodes, st.entries, i);
    }
    assert Ops([]) == [];
  }
}
