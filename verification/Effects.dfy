/**
 What each accepted operation changes (server/src/lib.rs), field by field and on the values a reader
 sees: a base folded with its pending deltas. Everything that is not mentioned stays as it was.
 */
module Effects {
  import opened Bits
  import opened Types
  import opened Wrappers
  import opened DeltaFold
  import opened Server
  import opened Logging
  import opened Tree
  import opened Links
  import opened Invariants
  import opened Preservation
  import opened RenamePreservation
  import opened Answers

  // ------------------------------------------------------------------ what stays

  /** Location and symlink target stay. */
  ghost predicate SameRows(st: Store, u: Store, i: Ino) {
    && (i in u.locations <==> i in st.locations)
    && (i in st.locations ==> u.locations[i] == st.locations[i])
    && (i in u.symlinks <==> i in st.symlinks)
    && (i in st.symlinks ==> u.symlinks[i] == st.symlinks[i])
  }

  /** Stored or not, an inode reads as before, and so do its location and its symlink target. */
  ghost predicate SameInode(st: Store, u: Store, i: Ino) {
    && SameRows(st, u, i)
    && (i in u.inodes <==> i in st.inodes)
    && (i in st.inodes ==> Effective(u, i) == Effective(st, i))
  }

  ghost predicate OthersSame(st: Store, u: Store, changed: set<Ino>) {
    forall i: Ino :: i !in changed ==> SameInode(st, u, i)
  }

  /** Modification and change time have moved forward to `ts`; but for the link count nothing else differs. */
  predicate MovedOn(v: InodeValue, w: InodeValue, ts: u64) {
    w == v.(nlink := w.nlink, mtime := Max(v.mtime, ts), ctime := Max(v.ctime, ts))
  }

  /** A parent after a change at `ts`. */
  ghost predicate Stamped(st: Store, u: Store, p: Ino, ts: u64) {
    && SameRows(st, u, p)
    && (p in u.inodes <==> p in st.inodes)
    && (p in st.inodes ==> MovedOn(Effective(st, p), Effective(u, p), ts))
  }

  /** The link count has changed by `links` besides, and nothing else has changed. */
  ghost predicate Restamped(st: Store, u: Store, p: Ino, ts: u64, links: int) {
    Stamped(st, u, p, ts) && (p in st.inodes ==> Effective(u, p).nlink == Effective(st, p).nlink + links)
  }

  /** An inode as it is stored, as it is folded, and as the next read returns it. */
  ghost predicate Shows(s: State, i: Ino, v: InodeValue) {
    && i in s.store.inodes && s.store.inodes[i] == v && Effective(s.store, i) == v
    && Load(s, i).reply == Success(Attr(v))
  }

  // ------------------------------------------------------------------ folds of parent changes

  lemma StampsFold(v: InodeValue, ts: u64)
    ensures Fold(v, Stamps(ts)) == v.(mtime := Max(v.mtime, ts), ctime := Max(v.ctime, ts))
  {
    TwoSteps(v, SetMtime(ts), SetCtime(ts));
  }

  /** One link change and the stamps. */
  lemma LinkStampsFold(v: InodeValue, n: i32, ts: u64)
    requires 0 <= v.nlink + n < TWO32
    ensures Fold(v, [IncrementNlink(n)] + Stamps(ts)) ==
            v.(nlink := v.nlink + n, mtime := Max(v.mtime, ts), ctime := Max(v.ctime, ts))
  {
    FoldConcat(v, [IncrementNlink(n)], Stamps(ts));
    FoldOne(v, IncrementNlink(n));
    StampsFold(v.(nlink := v.nlink + n), ts);
  }

  /** A store after logging, possibly without the deltas of `gone`, read at any inode but `gone`. */
  lemma LoggedEffective(st: Store, seqs: map<Ino, nat>, logs: seq<LogItem>, gone: Option<Ino>, u: Store, i: Ino)
    requires LoggedStore(st, seqs, logs, gone, u) && i in st.inodes && gone != Some(i)
    ensures i in u.inodes && Effective(u, i) == Fold(Effective(st, i), OpsFor(logs, i))
  {
    hide LogAll, OpsFor, Fold;
    LoggedDeltas(st, seqs, logs, gone, u);
    LogAllEffective(Txn(st, seqs), logs, i);
    var t := LogAll(WithDeltas, Txn(st, seqs), logs).store;
    LoggedDeltas(st, seqs, logs, None, t);
    assert DeltasOf(u, i) == DeltasOf(t, i);
  }

  /** One logged change: only its inode reads differently. */
  lemma OneLogged(st: Store, seqs: map<Ino, nat>, item: LogItem, gone: Option<Ino>, u: Store)
    requires LoggedStore(st, seqs, [item], gone, u)
    ensures u == st.(deltas := u.deltas)
    ensures forall i :: i in st.inodes && gone != Some(i) ==>
              Effective(u, i) == if i == item.ino then Fold(Effective(st, i), item.ops) else Effective(st, i)
  {
    hide LogAll, OpsFor, LoggedStore;
    LoggedDeltas(st, seqs, [item], gone, u);
    forall i | i in st.inodes && gone != Some(i)
      ensures Effective(u, i) == if i == item.ino then Fold(Effective(st, i), item.ops) else Effective(st, i)
    {
      LoggedEffective(st, seqs, [item], gone, u, i);
      OpsForOne(item, i);
    }
  }

  /** The effective value depends on the row and the deltas only. */
  lemma EffectiveSame(st: Store, u: Store, i: Ino)
    requires i in st.inodes && i in u.inodes && u.inodes[i] == st.inodes[i] && DeltasOf(u, i) == DeltasOf(st, i)
    ensures Effective(u, i) == Effective(st, i)
  {
  }

  lemma QuietValue(st: Store, i: Ino)
    requires i in st.inodes && DeltasOf(st, i) == []
    ensures Effective(st, i) == st.inodes[i]
  {
    assert Ops([]) == [];
  }

  // ------------------------------------------------------------------ create, mkdir, symlink

  /** The new node under the next number. */
  lemma NodeShows(s: State, k: DirKey, n: NewNode)
    requires Inv(s) && AddNode(WithDeltas, s, k, n, false).reply.Success? && k.parent != s.mem.next
    ensures s.mem.next !in s.store.inodes && DeltasOf(s.store, s.mem.next) == []
    ensures AddNode(WithDeltas, s, k, n, false).reply == Success(Attr(n.value))
    ensures Shows(AddNode(WithDeltas, s, k, n, false).state, s.mem.next, n.value)
  {
    hide LogAll, CacheAll, IsTree, FileLinks, LiveLogs, WellTyped, Deferred, CacheTyped, OpsFor, Fold, LiveDir,
      DirLinks, Effective;
    var o := AddNode(WithDeltas, s, k, n, false);
    var i, u := s.mem.next, o.state.store;
    var st1, item := NodeStore(s.store, i, k, n), NewLogs(k, n)[0];
    UnusedNumber(s.store, i);
    LoggedNone(st1, s.mem.seqs, NewLogs(k, n));
    OneLogged(st1, s.mem.seqs, item, None, u);
    QuietValue(st1, i);
    OpsForOne(item, i);
    CacheAllFolds(s.mem.cache[i := n.value], NewLogs(k, n));
    FoldNothing(n.value);
  }

  /** The new entry, the new rows, the stamped parent, and nothing else. */
  lemma NodeEffect(s: State, k: DirKey, n: NewNode)
    requires Inv(s) && AddNode(WithDeltas, s, k, n, false).reply.Success? && k.parent != s.mem.next
    requires n.links == [] || n.links == [IncrementNlink(1)]
    ensures var i, st, u := s.mem.next, s.store, AddNode(WithDeltas, s, k, n, false).state.store;
            && u.entries == st.entries[k := Entry(i, n.value.mode)]
            && u.locations == (if n.location.Some? then st.locations[i := n.location.value] else st.locations)
            && u.symlinks == (if n.target.Some? then st.symlinks[i := n.target.value] else st.symlinks)
            && OthersSame(st, u, {i, k.parent}) && Stamped(st, u, k.parent, n.value.mtime)
            && (n.links == [] || (LiveDir(st.entries, k.parent) && RoomForSubdir(st.entries, k.parent)) ==>
                  Restamped(st, u, k.parent, n.value.mtime, |n.links|))
  {
    hide LogAll, CacheAll, OpsFor, Fold, Effective, Inv, Shows, LiveDir, RoomForSubdir;
    var i, st, u := s.mem.next, s.store, AddNode(WithDeltas, s, k, n, false).state.store;
    var st1 := NodeStore(st, i, k, n);
    NodeShows(s, k, n);
    LoggedNone(st1, s.mem.seqs, NewLogs(k, n));
    OneLogged(st1, s.mem.seqs, NewLogs(k, n)[0], None, u);
    forall j | j in st.inodes ensures Effective(st1, j) == Effective(st, j) {
      EffectiveSame(st, st1, j);
    }
    forall j: Ino | j !in {i, k.parent} ensures SameInode(st, u, j) {
    }
    if k.parent in st.inodes {
      InvDirLinks(s);
      NodeParent(st, k, n);
    }
  }

  lemma InvDirLinks(s: State)
    requires Inv(s)
    ensures DirLinks(s.store)
  {
  }

  lemma NodeParent(st: Store, k: DirKey, n: NewNode)
    requires DirLinks(st) && k.parent in st.inodes
    requires n.links == [] || n.links == [IncrementNlink(1)]
    ensures var v, w := Effective(st, k.parent), Fold(Effective(st, k.parent), NewLogs(k, n)[0].ops);
            && w == v.(nlink := w.nlink, mtime := Max(v.mtime, n.value.mtime), ctime := Max(v.ctime, n.value.mtime))
            && (n.links == [] || (LiveDir(st.entries, k.parent) && RoomForSubdir(st.entries, k.parent)) ==>
                  w.nlink == v.nlink + |n.links|)
  {
    hide Fold, Effective, LiveDir, ExactLog;
    var v, ts := Effective(st, k.parent), n.value.mtime;
    if n.links == [] {
      assert [] + Stamps(ts) == Stamps(ts);
      StampsFold(v, ts);
    } else {
      FoldConcat(v, [IncrementNlink(1)], Stamps(ts));
      FoldOne(v, IncrementNlink(1));
      StampsFold(ApplyDelta(v, IncrementNlink(1)), ts);
    }
  }

  /** create and create_and_open: a regular, empty file with the requested permissions and owner. */
  lemma CreatedFile(s: State, a: Attempt)
    requires Inv(s) && (a.op.DoCreate? || a.op.DoCreateAndOpen?) && a.op.k.parent != s.mem.next
    requires Step(WithDeltas, s, a).reply.Success?
    ensures var o := Step(WithDeltas, s, a);
            var i, k, st, u := s.mem.next, a.op.k, s.store, o.state.store;
            && o.reply.value.Attr?
            && var v := o.reply.value.value;
               && v.version == 1 && v.inode == i && v.size == 0 && v.nlink == 1
               && v.mode == Or(0x8000, And(a.op.mode, 0xFFF)) && v.uid == a.op.uid && v.gid == a.op.gid
               && v.atime == v.mtime == v.ctime == a.op.ts
               && i !in st.inodes && Shows(o.state, i, v)
               && u.entries == st.entries[k := Entry(i, v.mode)]
               && u.locations == st.locations[i := "default"] && u.symlinks == st.symlinks
               && OthersSame(st, u, {i, k.parent}) && Restamped(st, u, k.parent, a.op.ts, 0)
  {
    hide Inv, Shows, OthersSame, Restamped, And, Or, AddNode, Unlink, Rmdir, Rename, Link, Open, Release, CompactAll;
    var n := NewFile(s.mem.next, a.op.mode, a.op.uid, a.op.gid, a.op.ts);
    Accepted(s, a.op.k, n, a.conflict);
    NodeShows(s, a.op.k, n);
    NodeEffect(s, a.op.k, n);
    TypedIsBitwise(S_IFREG, a.op.mode);
    var o := AddNode(WithDeltas, s, a.op.k, n, false);
    ShowsAgain(o.state, Step(WithDeltas, s, a).state, s.mem.next, n.value);
  }

  lemma Accepted(s: State, k: DirKey, n: NewNode, conflict: bool)
    requires AddNode(WithDeltas, s, k, n, conflict).reply.Success?
    ensures !conflict
  {
  }

  /** Handles do not matter to a reader. */
  lemma ShowsAgain(s: State, s': State, i: Ino, v: InodeValue)
    requires Shows(s, i, v) && s'.store == s.store && s'.mem.cache == s.mem.cache
    ensures Shows(s', i, v)
  {
  }

  /** mkdir: an empty directory with the requested permissions and owner; a linked parent gains a link. */
  lemma CreatedDirectory(s: State, k: DirKey, mode: u32, uid: u32, gid: u32, ts: u64, conflict: bool)
    requires Inv(s) && k.parent != s.mem.next
    requires Step(WithDeltas, s, Attempt(DoMkdir(k, mode, uid, gid, ts), conflict)).reply.Success?
    ensures var o := Step(WithDeltas, s, Attempt(DoMkdir(k, mode, uid, gid, ts), conflict));
            var i, st, u := s.mem.next, s.store, o.state.store;
            && o.reply.value.Attr?
            && var v := o.reply.value.value;
               && v.version == 1 && v.inode == i && v.size == 0 && v.nlink == 2
               && v.mode == Or(0x4000, And(mode, 0xFFF)) && v.uid == uid && v.gid == gid
               && v.atime == v.mtime == v.ctime == ts
               && i !in st.inodes && Shows(o.state, i, v)
               && u.entries == st.entries[k := Entry(i, v.mode)]
               && u.locations == st.locations && u.symlinks == st.symlinks
               && OthersSame(st, u, {i, k.parent}) && Stamped(st, u, k.parent, ts)
               && (LiveDir(st.entries, k.parent) && RoomForSubdir(st.entries, k.parent) ==>
                     Restamped(st, u, k.parent, ts, 1))
  {
    hide Inv, Shows, OthersSame, Restamped, Stamped, And, Or, AddNode, Unlink, Rmdir, Rename, Link, Open, Release,
      CompactAll, LiveDir, RoomForSubdir;
    var n := NewDir(s.mem.next, mode, uid, gid, ts);
    Accepted(s, k, n, conflict);
    NodeShows(s, k, n);
    NodeEffect(s, k, n);
    TypedIsBitwise(S_IFDIR, mode);
  }

  lemma LiveDirIsNumbered(s: State, i: Ino)
    requires Inv(s) && LiveDir(s.store.entries, i)
    ensures i in s.store.inodes && i < s.mem.next
  {
    hide IsTree, FileLinks, DirLinks, LiveLogs, Deferred, CacheTyped;
    LiveDirIsStored(s.store.inodes, s.store.entries, i);
  }

  /** symlink: all permissions, the target as it was given and its length as the size. */
  lemma CreatedSymlink(s: State, k: DirKey, target: Name, uid: u32, gid: u32, ts: u64, conflict: bool)
    requires Inv(s) && k.parent != s.mem.next
    requires Step(WithDeltas, s, Attempt(DoSymlink(k, target, uid, gid, ts), conflict)).reply.Success?
    ensures var o := Step(WithDeltas, s, Attempt(DoSymlink(k, target, uid, gid, ts), conflict));
            var i, st, u := s.mem.next, s.store, o.state.store;
            && o.reply.value.Attr?
            && var v := o.reply.value.value;
               && v.version == 1 && v.inode == i && v.size == |target| % 0x1_0000_0000_0000_0000 && v.nlink == 1
               && v.mode == Or(0xA000, 0x1FF) && v.uid == uid && v.gid == gid
               && v.atime == v.mtime == v.ctime == ts
               && i !in st.inodes && Shows(o.state, i, v)
               && u.entries == st.entries[k := Entry(i, v.mode)]
               && u.locations == st.locations && u.symlinks == st.symlinks[i := target]
               && OthersSame(st, u, {i, k.parent}) && Restamped(st, u, k.parent, ts, 0)
  {
    hide Inv, Shows, OthersSame, Restamped, And, Or, AddNode, Unlink, Rmdir, Rename, Link, Open, Release, CompactAll;
    var n := NewSymlink(s.mem.next, target, uid, gid, ts);
    Accepted(s, k, n, conflict);
    NodeShows(s, k, n);
    NodeEffect(s, k, n);
    TypedIsBitwise(S_IFLNK, 0x1FF);
    PermissionMask(0x1FF);
  }

  // ------------------------------------------------------------------ unlink, rmdir

  /**
   unlink takes the name away. The file goes with its last name unless a handle is open; otherwise it
   loses one link and gets the change time, and nothing else of it changes.
   */
  lemma UnlinkEffect(s: State, k: DirKey, ts: u64, parentTs: u64, conflict: bool)
    requires Inv(s) && Step(WithDeltas, s, Attempt(DoUnlink(k, ts, parentTs), conflict)).reply.Success?
    ensures k in s.store.entries && s.store.entries[k].ino in s.store.inodes
    ensures var o := Step(WithDeltas, s, Attempt(DoUnlink(k, ts, parentTs), conflict));
            var st, u, i := s.store, o.state.store, s.store.entries[k].ino;
            var v := st.inodes[i];
            && u.entries == st.entries - {k} && u.symlinks == st.symlinks
            && (v.nlink == 1 && i !in s.mem.handles ==>
                  && i !in u.inodes && u.locations == st.locations - {i}
                  && o.reply == Success(Purged([i])) && o.state.mem.pending == s.mem.pending)
            && (v.nlink != 1 || i in s.mem.handles ==>
                  && i in u.inodes && Shows(o.state, i, u.inodes[i]) && u.inodes[i].nlink == v.nlink - 1
                  && u.inodes[i] == v.(nlink := u.inodes[i].nlink, ctime := ts) && u.locations == st.locations
                  && o.reply == Success(Purged([]))
                  && o.state.mem.pending == if v.nlink == 1 then s.mem.pending + {i} else s.mem.pending)
            && OthersSame(st, u, {i, k.parent}) && Restamped(st, u, k.parent, parentTs, 0)
  {
    hide LogAll, CacheAll, IsTree, DirLinks, CacheTyped, OpsFor, Fold, LiveDir, Effective, Step, LiveLogs, WellTyped,
      FileLinks, LoggedStore, IsDir, Deferred;
    UnlinkOutcome(s, k, ts, parentTs, conflict);
    var o := Step(WithDeltas, s, Attempt(DoUnlink(k, ts, parentTs), conflict));
    var st, u, i := s.store, o.state.store, s.store.entries[k].ino;
    var dying := st.inodes[i].nlink == 1 && i !in s.mem.handles;
    var item := LogItem(k.parent, Stamps(parentTs));
    var st1 := UnlinkStore(st, k, dying, ts);
    OneLogged(st1, s.mem.seqs, item, if dying then Some(i) else None, u);
    EntryTypes(st.inodes, st.entries, k);
    FilesAreQuiet(st, i);
    StoredParentIsDir(st.inodes, st.entries, k);
    forall j | j in st.inodes && j != i ensures Effective(st1, j) == Effective(st, j) {
      EffectiveSame(st, st1, j);
    }
    if !dying {
      QuietValue(st1, i);
      CacheAllFolds(s.mem.cache[i := st1.inodes[i]], [item]);
      OpsForOne(item, i);
      FoldNothing(st1.inodes[i]);
    }
    StampsFold(Effective(st, k.parent), parentTs);
  }

  lemma RmdirOutcome(s: State, k: DirKey, ts: u64, conflict: bool)
    requires Inv(s) && Step(WithDeltas, s, Attempt(DoRmdir(k, ts), conflict)).reply.Success?
    ensures k in s.store.entries && IsDir(s.store.entries[k].mode) && s.store.entries[k].ino != k.parent
    ensures var o := Step(WithDeltas, s, Attempt(DoRmdir(k, ts), conflict));
            && LoggedStore(RmdirStore(s.store, k), s.mem.seqs, RmdirLogs(k, ts), Some(s.store.entries[k].ino),
                           o.state.store)
            && o.reply == Success(Done)
  {
    hide LogAll, CacheAll, IsTree, DirLinks, CacheTyped, LiveDir, LiveLogs, AddNode, Unlink, Rename, Link, Open,
      Release, CompactAll, WellTyped, FileLinks, IsDir, Touched, Deferred;
  }

  /** rmdir takes the directory and its name away, and a link from the parent. */
  lemma RmdirEffect(s: State, k: DirKey, ts: u64, conflict: bool)
    requires Inv(s) && Step(WithDeltas, s, Attempt(DoRmdir(k, ts), conflict)).reply.Success?
    ensures k in s.store.entries
    ensures var st, u := s.store, Step(WithDeltas, s, Attempt(DoRmdir(k, ts), conflict)).state.store;
            var i := st.entries[k].ino;
            && u.entries == st.entries - {k} && u.locations == st.locations && u.symlinks == st.symlinks
            && i !in u.inodes && i != k.parent
            && OthersSame(st, u, {i, k.parent}) && Restamped(st, u, k.parent, ts, -1)
  {
    hide LogAll, CacheAll, CacheTyped, OpsFor, Fold, LiveDir, Effective, Step, LiveLogs, WellTyped, FileLinks,
      LoggedStore, IsDir, Deferred, DirLinks, IsTree;
    RmdirOutcome(s, k, ts, conflict);
    var st, u := s.store, Step(WithDeltas, s, Attempt(DoRmdir(k, ts), conflict)).state.store;
    var i, st1 := st.entries[k].ino, RmdirStore(st, k);
    OneLogged(st1, s.mem.seqs, RmdirLogs(k, ts)[0], Some(i), u);
    StoredParentIsDir(st.inodes, st.entries, k);
    forall j | j in st1.inodes ensures Effective(st1, j) == Effective(st, j) {
      EffectiveSame(st, st1, j);
    }
    SubdirCounted(st, k);
    LinkStampsFold(Effective(st, k.parent), -1, ts);
  }

  /** A directory with a subdirectory has three links at least. */
  lemma SubdirCounted(st: Store, k: DirKey)
    requires WellTyped(st.inodes, st.entries) && IsTree(st.entries) && DirLinks(st)
    requires k in st.entries && IsDir(st.entries[k].mode) && k.parent in st.inodes
    ensures Effective(st, k.parent).nlink >= 3
  {
    hide Effective, ExactLog;
    ParentIsLiveDir(st.entries, k);
    assert k in Subdirs(st.entries, k.parent);
  }

  // ------------------------------------------------------------------ link

  lemma LinkOutcome(s: State, k: DirKey, target: Ino, ts: u64, parentTs: u64, conflict: bool)
    requires Step(WithDeltas, s, Attempt(DoLink(k, target, ts, parentTs), conflict)).reply.Success?
    ensures target in s.store.inodes && !IsDir(s.store.inodes[target].mode)
    ensures k.parent in s.store.inodes && IsDir(s.store.inodes[k.parent].mode)
    ensures var o := Step(WithDeltas, s, Attempt(DoLink(k, target, ts, parentTs), conflict));
            var logs, v := [LogItem(k.parent, Stamps(parentTs))], OneLinkMore(s.store.inodes[target], ts);
            && LoggedStore(LinkStore(s.store, k, target, ts), s.mem.seqs, logs, None, o.state.store)
            && o.state.mem.cache == CacheAll(s.mem.cache[target := v], logs)
            && o.reply == Success(Attr(v))
  {
    hide LogAll, CacheAll, AddNode, Unlink, Rmdir, Rename, Open, Release, CompactAll, IsDir, Touched;
  }

  /** link adds the name and one link, and of the times of the target sets the change time only. */
  lemma LinkEffect(s: State, k: DirKey, target: Ino, ts: u64, parentTs: u64, conflict: bool)
    requires Inv(s) && Step(WithDeltas, s, Attempt(DoLink(k, target, ts, parentTs), conflict)).reply.Success?
    ensures target in s.store.inodes
    ensures var o := Step(WithDeltas, s, Attempt(DoLink(k, target, ts, parentTs), conflict));
            var st, u, v := s.store, o.state.store, s.store.inodes[target];
            && u.entries == st.entries[k := Entry(target, v.mode)]
            && u.locations == st.locations && u.symlinks == st.symlinks
            && target in u.inodes && Shows(o.state, target, u.inodes[target])
            && u.inodes[target] == v.(nlink := (v.nlink + 1) % 0x1_0000_0000, ctime := ts)
            && o.reply == Success(Attr(u.inodes[target]))
            && OthersSame(st, u, {target, k.parent}) && Restamped(st, u, k.parent, parentTs, 0)
  {
    hide LogAll, CacheAll, IsTree, DirLinks, CacheTyped, OpsFor, Fold, LiveDir, Effective, Step, LiveLogs, WellTyped,
      FileLinks, LoggedStore, IsDir, Deferred;
    LinkOutcome(s, k, target, ts, parentTs, conflict);
    var u := Step(WithDeltas, s, Attempt(DoLink(k, target, ts, parentTs), conflict)).state.store;
    var st, item := s.store, LogItem(k.parent, Stamps(parentTs));
    var st1 := LinkStore(st, k, target, ts);
    OneLogged(st1, s.mem.seqs, item, None, u);
    FilesAreQuiet(st, target);
    forall j | j in st.inodes && j != target ensures Effective(st1, j) == Effective(st, j) {
      EffectiveSame(st, st1, j);
    }
    QuietValue(st1, target);
    CacheAllFolds(s.mem.cache[target := st1.inodes[target]], [item]);
    OpsForOne(item, target);
    FoldNothing(st1.inodes[target]);
    StampsFold(Effective(st, k.parent), parentTs);
  }

  // ------------------------------------------------------------------ setattr, report_write

  /** One row is written: nothing else in the store changes, and the next read returns the row. */
  ghost predicate OnlyRow(s: State, s': State, i: Ino, w: InodeValue) {
    && s'.store == s.store.(inodes := s.store.inodes[i := w])
    && s'.mem == s.mem.(cache := s'.mem.cache)
    && Load(s', i).reply == Success(Attr(w))
    && (forall j :: j in s'.mem.cache && j != i ==> j in s.mem.cache && s'.mem.cache[j] == s.mem.cache[j])
  }

  /**
   setattr: a requested field has the requested value, any other its old one; the type stays, a new size
   sets the modification time, and the change time is set. The client is told to truncate on a shrink.
   */
  lemma SetAttrEffect(s: State, i: Ino, req: SetAttrRequest, ts: u64, conflict: bool)
    requires Step(WithDeltas, s, Attempt(DoSetAttr(i, req, ts), conflict)).reply.Success?
    ensures i in s.store.inodes
    ensures var o := Step(WithDeltas, s, Attempt(DoSetAttr(i, req, ts), conflict));
            && o.reply.value.Updated?
            && var v, w := s.store.inodes[i], o.reply.value.value;
               && OnlyRow(s, o.state, i, w)
               && w.mode == (match req.mode
                             case Some(m) => Or(And(v.mode, 0xF000), And(m, 0xFFF))
                             case None => v.mode)
               && w.uid == (match req.uid case Some(x) => x case None => v.uid)
               && w.gid == (match req.gid case Some(x) => x case None => v.gid)
               && w.size == (match req.size case Some(x) => x case None => v.size)
               && w.atime == (match req.atime case Some(x) => x case None => v.atime)
               && (w.size != v.size ==> w.mtime == ts)
               && (w.size == v.size ==> w.mtime == match req.mtime case Some(x) => x case None => v.mtime)
               && w.ctime == ts
               && w.version == v.version && w.inode == v.inode && w.nlink == v.nlink
               && o.reply.value.truncate == if w.size < v.size then Some(w.size) else None
  {
    hide AddNode, Unlink, Rmdir, Rename, Link, Open, Release, CompactAll, And, Or;
    if req.mode.Some? {
      ChmodIsBitwise(s.store.inodes[i].mode, req.mode.value);
    }
  }

  /** report_write: the size only grows, and both times are the reported one. */
  lemma ReportWriteEffect(s: State, i: Ino, newSize: u64, mtime: u64, conflict: bool)
    requires Step(WithDeltas, s, Attempt(DoReportWrite(i, newSize, mtime), conflict)).reply.Success?
    ensures i in s.store.inodes
    ensures var o := Step(WithDeltas, s, Attempt(DoReportWrite(i, newSize, mtime), conflict));
            var v := s.store.inodes[i];
            && i in o.state.store.inodes
            && var w := o.state.store.inodes[i];
               && OnlyRow(s, o.state, i, w) && o.reply == Success(Done)
               && w == v.(size := w.size, mtime := mtime, ctime := mtime)
               && w.size >= v.size && w.size >= newSize && (w.size == v.size || w.size == newSize)
  {
    hide AddNode, Unlink, Rmdir, Rename, Link, Open, Release, CompactAll, SetAttr;
  }

  // ------------------------------------------------------------------ rename

  lemma SummaryConcat(x: seq<LogItem>, y: seq<LogItem>, i: Ino)
    ensures Summarise(OpsFor(x + y, i)) == Join(Summarise(OpsFor(x, i)), Summarise(OpsFor(y, i)))
  {
    OpsForConcat(x, y, i);
    SummariseConcat(OpsFor(x, i), OpsFor(y, i));
  }

  lemma StampsTimes(p: Ino, ts: u64, i: Ino)
    ensures Summarise(OpsFor([LogItem(p, Stamps(ts))], i)) ==
            if i == p then Summary(0, 0, ts, ts, 0) else Summary(0, 0, 0, 0, 0)
  {
    OpsForOne(LogItem(p, Stamps(ts)), i);
    StampsSummary(ts);
  }

  ghost predicate Timeless(logs: seq<LogItem>, i: Ino) {
    var x := Summarise(OpsFor(logs, i));
    x.mtime == 0 && x.ctime == 0 && x.atime == 0
  }

  lemma ChangeIsTimeless(p: Ino, n: i32, i: Ino)
    ensures Timeless([LogItem(p, [IncrementNlink(n)])], i) && Timeless([], i)
  {
    hide Summarise, OpsFor;
    OpsForOne(LogItem(p, [IncrementNlink(n)]), i);
    SummariseOne(IncrementNlink(n));
    NothingLogged(i);
  }

  lemma TimelessConcat(x: seq<LogItem>, y: seq<LogItem>, i: Ino)
    requires Timeless(x, i) && Timeless(y, i)
    ensures Timeless(x + y, i)
  {
    SummaryConcat(x, y, i);
  }

  /** The link changes of a rename set no time. */
  lemma RenameChanges(p: Ino, np: Ino, srcDir: bool, dstDir: bool, i: Ino) returns (x: seq<LogItem>)
    ensures x == (if dstDir then [LogItem(np, [IncrementNlink(-1)])] else []) +
                 if srcDir && p != np then [LogItem(p, [IncrementNlink(-1)]), LogItem(np, [IncrementNlink(1)])] else []
    ensures Timeless(x, i)
  {
    hide Timeless;
    ChangeIsTimeless(np, -1, i);
    ChangeIsTimeless(p, -1, i);
    ChangeIsTimeless(np, 1, i);
    var a := if dstDir then [LogItem(np, [IncrementNlink(-1)])] else [];
    var b0, b1 := [LogItem(p, [IncrementNlink(-1)])], [LogItem(np, [IncrementNlink(1)])];
    TimelessConcat(b0, b1, i);
    var b := if srcDir && p != np then b0 + b1 else [];
    TimelessConcat(a, b, i);
    x := a + b;
  }

  /** Its stamps set the time of both parents. */
  lemma RenameStamps(p: Ino, np: Ino, ts: u64, i: Ino) returns (y: seq<LogItem>)
    requires i == p || i == np
    ensures y == [LogItem(p, Stamps(ts))] + if p != np then [LogItem(np, Stamps(ts))] else []
    ensures Summarise(OpsFor(y, i)) == Summary(0, 0, ts, ts, 0)
  {
    hide Summarise, OpsFor;
    var c, d := [LogItem(p, Stamps(ts))], if p != np then [LogItem(np, Stamps(ts))] else [];
    StampsTimes(p, ts, i);
    StampsTimes(np, ts, i);
    NothingLogged(i);
    SummaryConcat(c, d, i);
    y := c + d;
  }

  /** What a rename logs for one of the parents: its link changes and the time. */
  lemma SummaryOfRename(p: Ino, np: Ino, srcDir: bool, dstDir: bool, ts: u64, i: Ino)
    requires i == p || i == np
    ensures var x := Summarise(OpsFor(RenameLogs(p, np, srcDir, dstDir, ts), i));
            && x.added == One(srcDir && p != np && i == np)
            && x.removed == One(dstDir && i == np) + One(srcDir && p != np && i == p)
            && x.mtime == ts && x.ctime == ts && x.atime == 0
  {
    hide Summarise, OpsFor;
    LinksOfRename(p, np, srcDir, dstDir, ts, i);
    var x := RenameChanges(p, np, srcDir, dstDir, i);
    var y := RenameStamps(p, np, ts, i);
    SummaryConcat(x, y, i);
    assert RenameLogs(p, np, srcDir, dstDir, ts) == x + y;
  }

  lemma RenameOutcome(s: State, k: DirKey, k2: DirKey, ts: u64, conflict: bool)
    requires Step(WithDeltas, s, Attempt(DoRename(k, k2, ts), conflict)).reply.Success?
    ensures RenameRefusal(s.store, k, k2).None? && k in s.store.entries && s.store.entries[k].ino in s.store.inodes
    ensures var o := Step(WithDeltas, s, Attempt(DoRename(k, k2, ts), conflict));
            var st, E, logs := s.store, s.store.entries, RenameLogsOf(s.store, k, k2, ts);
            var c := if k2 in E then s.mem.cache - {E[k2].ino} else s.mem.cache;
            && LoggedStore(RenameStore(st, k, k2, ts), s.mem.seqs, logs, Replaced(E, k2), o.state.store)
            && o.state.mem.cache == CacheAll(c[E[k].ino := st.inodes[E[k].ino].(ctime := ts)], logs)
            && o.state.mem.handles == s.mem.handles && o.state.mem.pending == s.mem.pending
            && o.reply == Success(Purged(if RenameKills(st, k2) then [E[k2].ino] else []))
  {
    hide LogAll, CacheAll, AddNode, Unlink, Rmdir, Link, Open, Release, CompactAll, IsDir, Touched, RenameStore,
      RenameLogsOf;
  }

  /** A moved directory takes its link along, and a replaced one takes its link away. */
  function RenameLinks(E: Entries, k: DirKey, k2: DirKey, i: Ino): int
    requires k in E
  {
    var moves := IsDir(E[k].mode) && k.parent != k2.parent;
    One(moves && i == k2.parent) - One(moves && i == k.parent)
      - One(k2 in E && IsDir(E[k2].mode) && i == k2.parent)
  }

  function Replaced(E: Entries, k2: DirKey): Option<Ino> {
    if k2 in E then Some(E[k2].ino) else None
  }

  /** The store after an accepted rename. */
  ghost predicate RenameLogged(st: Store, seqs: map<Ino, nat>, k: DirKey, k2: DirKey, ts: u64, u: Store) {
    && RenameRefusal(st, k, k2).None?
    && LoggedStore(RenameStore(st, k, k2, ts), seqs, RenameLogsOf(st, k, k2, ts), Replaced(st.entries, k2), u)
  }

  /** The parents of a rename. */
  lemma RenameParent(st: Store, seqs: map<Ino, nat>, k: DirKey, k2: DirKey, ts: u64, u: Store, i: Ino)
    requires GoodRename(st, k, k2) && DirLinks(st) && k in st.entries && (i == k.parent || i == k2.parent)
    requires RenameLogged(st, seqs, k, k2, ts, u)
    ensures i in st.inodes && i in u.inodes && i != st.entries[k].ino
    ensures MovedOn(Effective(st, i), Effective(u, i), ts)
    ensures Effective(u, i).nlink == Effective(st, i).nlink + RenameLinks(st.entries, k, k2, i)
  {
    hide IsTree, FileLinks, DirLinks, WellTyped, LogAll, LiveDir, OpsFor, Fold, IsDir, Descends, RenameAllowed,
      RenameRefusal, RenameLogs, Effective, Summarise, LoggedStore, Subdirs, FileType;
    var E := st.entries;
    RenameTypes(st, k, k2);
    var src, st1, logs := E[k].ino, RenameStore(st, k, k2, ts), RenameLogsOf(st, k, k2, ts);
    EntryTypes(st.inodes, E, k);
    RenameParentsAreApart(st, k, k2);
    ParentIsLiveDir(E, k);
    assert LiveDir(E, i) by { RenamedBelow(E, k, k2); }
    RenameCountLands(st, k, k2, ts, i);
    LiveDirIsStored(st.inodes, E, i);
    SummaryOfRename(k.parent, k2.parent, IsDir(st.inodes[src].mode), k2 in E && IsDir(E[k2].mode), ts, i);
    FoldIsSummary(Effective(st1, i), OpsFor(logs, i));
    LoggedEffective(st1, seqs, logs, Replaced(E, k2), u, i);
    EffectiveSame(st, st1, i);
  }

  lemma RenamedBelow(E: Entries, k: DirKey, k2: DirKey)
    requires RenameAllowed(E, k, k2) && k in E
    ensures LiveDir(E, k2.parent)
  {
  }

  /** Neither parent is the moved inode or the replaced one. */
  lemma RenameParentsAreApart(st: Store, k: DirKey, k2: DirKey)
    requires GoodRename(st, k, k2)
    ensures k in st.entries && k.parent != st.entries[k].ino && k2.parent != st.entries[k].ino
    ensures k2 in st.entries ==> k.parent != st.entries[k2].ino && k2.parent != st.entries[k2].ino
  {
    hide FileLinks;
    ParentsAreNotReplaced(st, k, k2);
    var E, src := st.entries, st.entries[k].ino;
    if IsDir(E[k].mode) {
      assert ChainFromTo(E, [src], src, src);
      MovedIsNotItsParent(st, k);
    } else {
      EntryTypes(st.inodes, E, k);
      RenamedBelow(E, k, k2);
      LiveDirIsStored(st.inodes, E, k2.parent);
    }
  }

  lemma MovedIsNotItsParent(st: Store, k: DirKey)
    requires IsTree(st.entries) && k in st.entries && IsDir(st.entries[k].mode)
    ensures k.parent != st.entries[k].ino
  {
    var E := st.entries;
    var p :| ChainFromTo(E, p, ROOT, k.parent);
    if k.parent == E[k].ino {
      LoopHasOneNode(E, k, p);
    }
  }

  /** A directory that is its own parent is reached from itself only. */
  lemma {:induction false} LoopHasOneNode(E: Entries, k: DirKey, p: seq<Ino>)
    requires IsTree(E) && k in E && IsDir(E[k].mode) && k.parent == E[k].ino
    requires Chain(E, p) && p[|p| - 1] == E[k].ino
    ensures p[0] == E[k].ino
    decreases |p|
  {
    hide Descends;
    if |p| > 1 {
      assert Edge(E, p[|p| - 2], p[|p| - 1]);
      LoopHasOneNode(E, k, p[..|p| - 1]);
    }
  }

  /** The inodes that a rename does not touch, and its source. */
  lemma RenameRest(st: Store, seqs: map<Ino, nat>, k: DirKey, k2: DirKey, ts: u64, u: Store)
    requires GoodRename(st, k, k2) && k in st.entries
    requires RenameLogged(st, seqs, k, k2, ts, u)
    ensures u == RenameStore(st, k, k2, ts).(deltas := u.deltas)
    ensures DeltasOf(u, st.entries[k].ino) == DeltasOf(st, st.entries[k].ino)
    ensures k2 in st.entries ==> DeltasOf(u, st.entries[k2].ino) == []
    ensures forall i: Ino :: i !in {st.entries[k].ino, k.parent, k2.parent} && Replaced(st.entries, k2) != Some(i) ==>
              SameInode(st, u, i)
  {
    hide IsTree, FileLinks, WellTyped, LogAll, LiveDir, OpsFor, Fold, IsDir, Descends, RenameAllowed, RenameRefusal,
      RenameLogs, Effective, LoggedStore, Touched;
    var E := st.entries;
    RenameTypes(st, k, k2);
    RenameParentsAreApart(st, k, k2);
    var st1, logs := RenameStore(st, k, k2, ts), RenameLogsOf(st, k, k2, ts);
    LoggedDeltas(st1, seqs, logs, Replaced(E, k2), u);
    TouchedByRename(k.parent, k2.parent, IsDir(st.inodes[E[k].ino].mode), k2 in E && IsDir(E[k2].mode), ts);
    forall i: Ino | i !in {k.parent, k2.parent} && Replaced(E, k2) != Some(i)
      ensures DeltasOf(u, i) == DeltasOf(st, i)
    {
      OpsForUntouched(logs, i);
      assert DeltasOf(st1, i) == DeltasOf(st, i);
    }
    forall i: Ino | i in st.inodes && i !in {E[k].ino, k.parent, k2.parent} && Replaced(E, k2) != Some(i)
      ensures Effective(u, i) == Effective(st, i)
    {
      EffectiveSame(st, u, i);
    }
  }

  /**
   rename moves the entry and sets the change time of what it moves. A replaced file loses a link, or
   goes with its last one; of a replaced directory the row stays and the pending deltas go.
   */
  lemma RenameEffect(s: State, k: DirKey, k2: DirKey, ts: u64, conflict: bool)
    requires Inv(s) && RenameAllowed(s.store.entries, k, k2) && k != k2
    requires Step(WithDeltas, s, Attempt(DoRename(k, k2, ts), conflict)).reply.Success?
    ensures k in s.store.entries && s.store.entries[k].ino in s.store.inodes
    ensures var o := Step(WithDeltas, s, Attempt(DoRename(k, k2, ts), conflict));
            var st, u, E, src := s.store, o.state.store, s.store.entries, s.store.entries[k].ino;
            && u.entries == (E - {k})[k2 := Entry(src, st.inodes[src].mode)]
            && src in u.inodes && u.inodes[src] == st.inodes[src].(ctime := ts)
            && DeltasOf(u, src) == DeltasOf(st, src) && SameRows(st, u, src)
            && Load(o.state, src).reply == Success(Attr(u.inodes[src]))
            && (forall i: Ino :: i !in {src, k.parent, k2.parent} && (k2 in E ==> i != E[k2].ino) ==>
                  SameInode(st, u, i))
            && Restamped(st, u, k.parent, ts, RenameLinks(E, k, k2, k.parent))
            && Restamped(st, u, k2.parent, ts, RenameLinks(E, k, k2, k2.parent))
            && (k2 !in E ==> o.reply == Success(Purged([])))
  {
    hide IsTree, FileLinks, DirLinks, LiveLogs, WellTyped, CacheTyped, Deferred, LogAll, CacheAll, LiveDir, OpsFor,
      Fold, IsDir, Descends, RenameAllowed, RenameRefusal, RenameLogs, Effective, LoggedStore, Step, Touched,
      RenameLinks;
    RenameOutcome(s, k, k2, ts, conflict);
    var o := Step(WithDeltas, s, Attempt(DoRename(k, k2, ts), conflict));
    var st, u, E, src := s.store, o.state.store, s.store.entries, s.store.entries[k].ino;
    RenameRest(st, s.mem.seqs, k, k2, ts, u);
    RenameTypes(st, k, k2);
    RenameParent(st, s.mem.seqs, k, k2, ts, u, k.parent);
    RenameParent(st, s.mem.seqs, k, k2, ts, u, k2.parent);
    var logs := RenameLogsOf(st, k, k2, ts);
    var c := (if k2 in E then s.mem.cache - {E[k2].ino} else s.mem.cache)[src := u.inodes[src]];
    CacheAllFolds(c, logs);
    TouchedByRename(k.parent, k2.parent, IsDir(st.inodes[src].mode), k2 in E && IsDir(E[k2].mode), ts);
    OpsForUntouched(logs, src);
    FoldNothing(u.inodes[src]);
  }

  /** What happens to the replaced inode. */
  lemma ReplacedEffect(s: State, k: DirKey, k2: DirKey, ts: u64, conflict: bool)
    requires Inv(s) && RenameAllowed(s.store.entries, k, k2) && k != k2 && k2 in s.store.entries
    requires Step(WithDeltas, s, Attempt(DoRename(k, k2, ts), conflict)).reply.Success?
    ensures s.store.entries[k2].ino in s.store.inodes
    ensures var o := Step(WithDeltas, s, Attempt(DoRename(k, k2, ts), conflict));
            var st, u, dst := s.store, o.state.store, s.store.entries[k2].ino;
            var v := st.inodes[dst];
            && (!IsDir(v.mode) && v.nlink == 1 ==>
                  dst !in u.inodes && u.locations == st.locations - {dst} && o.reply == Success(Purged([dst])))
            && (IsDir(v.mode) || v.nlink != 1 ==>
                  && dst in u.inodes && Shows(o.state, dst, u.inodes[dst]) && u.locations == st.locations
                  && o.reply == Success(Purged([])))
            && (IsDir(v.mode) ==> u.inodes[dst] == v)
            && (!IsDir(v.mode) && v.nlink != 1 ==>
                  u.inodes[dst].nlink == v.nlink - 1 && u.inodes[dst] == v.(nlink := u.inodes[dst].nlink, ctime := ts))
            && u.symlinks == st.symlinks
  {
    hide IsTree, FileLinks, DirLinks, LiveLogs, WellTyped, CacheTyped, Deferred, LogAll, CacheAll, LiveDir, OpsFor,
      Fold, IsDir, Descends, RenameAllowed, RenameRefusal, RenameLogs, Effective, LoggedStore, Step, Touched;
    RenameOutcome(s, k, k2, ts, conflict);
    var o := Step(WithDeltas, s, Attempt(DoRename(k, k2, ts), conflict));
    var st, u, E, src, dst := s.store, o.state.store, s.store.entries, s.store.entries[k].ino, s.store.entries[k2].ino;
    RenameRest(st, s.mem.seqs, k, k2, ts, u);
    RenameTypes(st, k, k2);
    if !IsDir(E[k2].mode) {
      NamedFile(st.inodes, E, k2);
    }
    CacheAllFolds((s.mem.cache - {dst})[src := u.inodes[src]], RenameLogsOf(st, k, k2, ts));
    if dst in u.inodes {
      QuietValue(u, dst);
    }
  }

  /** A file renamed onto itself keeps its links, but a single link costs it its location and a purge report. */
  lemma RenameOntoItselfEffect(s: State, k: DirKey, ts: u64, conflict: bool)
    requires Inv(s) && k in s.store.entries && !IsDir(s.store.entries[k].mode)
    requires Step(WithDeltas, s, Attempt(DoRename(k, k, ts), conflict)).reply.Success?
    ensures s.store.entries[k].ino in s.store.inodes
    ensures var o := Step(WithDeltas, s, Attempt(DoRename(k, k, ts), conflict));
            var st, u, i := s.store, o.state.store, s.store.entries[k].ino;
            var v := st.inodes[i];
            && u.entries == st.entries[k := Entry(i, v.mode)] && u.symlinks == st.symlinks
            && Shows(o.state, i, v.(ctime := ts))
            && u.locations == (if v.nlink == 1 then st.locations - {i} else st.locations)
            && o.reply == Success(Purged(if v.nlink == 1 then [i] else []))
            && OthersSame(st, u, {i, k.parent}) && Restamped(st, u, k.parent, ts, 0)
  {
    hide IsTree, FileLinks, DirLinks, LiveLogs, WellTyped, CacheTyped, Deferred, LogAll, CacheAll, LiveDir, OpsFor,
      Fold, IsDir, RenameRefusal, RenameLogs, RenameLogsOf, RenameInodes, Effective, LoggedStore, Step, Touched;
    RenameOutcome(s, k, k, ts, conflict);
    var u := Step(WithDeltas, s, Attempt(DoRename(k, k, ts), conflict)).state.store;
    var st, E, i := s.store, s.store.entries, s.store.entries[k].ino;
    var item, st1 := LogItem(k.parent, Stamps(ts)), RenameStore(st, k, k, ts);
    NamedFile(st.inodes, E, k);
    InPlaceRows(st, k, ts);
    OneLogged(st1, s.mem.seqs, item, Some(i), u);
    LoggedDeltas(st1, s.mem.seqs, [item], Some(i), u);
    StoredParentIsDir(st.inodes, E, k);
    forall j | j in st.inodes && j != i ensures Effective(st1, j) == Effective(st, j) {
      EffectiveSame(st, st1, j);
    }
    QuietValue(u, i);
    CacheAllFolds((s.mem.cache - {i})[i := u.inodes[i]], [item]);
    OpsForOne(item, i);
    FoldNothing(u.inodes[i]);
    StampsFold(Effective(st, k.parent), ts);
  }

  // ------------------------------------------------------------------ open, release

  /** open adds one handle; with truncation a file that has a size loses it, and gets both times. */
  lemma OpenEffect(s: State, i: Ino, truncate: bool, ts: u64, conflict: bool)
    requires Inv(s) && Step(WithDeltas, s, Attempt(DoOpen(i, truncate, ts), conflict)).reply.Success?
    ensures i in s.store.inodes && !IsDir(s.store.inodes[i].mode)
    ensures var s' := Step(WithDeltas, s, Attempt(DoOpen(i, truncate, ts), conflict)).state;
            var v := s.store.inodes[i];
            && i in s'.store.inodes && Shows(s', i, s'.store.inodes[i])
            && s'.store.inodes[i] == (if truncate && v.size > 0 then v.(size := 0, mtime := ts, ctime := ts) else v)
            && s'.store == s.store.(inodes := s.store.inodes[i := s'.store.inodes[i]])
            && HandleCount(s'.mem, i) == HandleCount(s.mem, i) + 1
            && (forall j: Ino :: j != i ==> HandleCount(s'.mem, j) == HandleCount(s.mem, j))
            && s'.mem.pending == s.mem.pending && s'.mem.next == s.mem.next
  {
    hide IsTree, FileLinks, DirLinks, LiveDir, AddNode, Unlink, Rmdir, Rename, Link, Release, CompactAll, SetAttr,
      Effective, WellTyped, LiveLogs, IsDir, FileType, Deferred;
    OpensFile(s, i, truncate, ts, conflict);
    FilesAreQuiet(s.store, i);
    var s' := Step(WithDeltas, s, Attempt(DoOpen(i, truncate, ts), conflict)).state;
    assert s.store.inodes[i := s.store.inodes[i]] == s.store.inodes;
    QuietValue(s'.store, i);
  }

  lemma OpensFile(s: State, i: Ino, truncate: bool, ts: u64, conflict: bool)
    requires Inv(s) && Step(WithDeltas, s, Attempt(DoOpen(i, truncate, ts), conflict)).reply.Success?
    ensures i in s.store.inodes && !IsDir(s.store.inodes[i].mode)
  {
    hide Step, Inv;
    OpenAnswers(WithDeltas, s, i, truncate, ts, conflict);
  }

  /** release takes one handle away, if there is one; the last one of an unlinked file takes the file along. */
  lemma ReleaseEffect(s: State, i: Ino)
    requires Inv(s)
    ensures var s' := Step(WithDeltas, s, Attempt(DoRelease(i), false)).state;
            var last := HandleCount(s.mem, i) == 1 && i in s.store.inodes && s.store.inodes[i].nlink == 0;
            && HandleCount(s'.mem, i) == Max(HandleCount(s.mem, i) - 1, 0)
            && (forall j: Ino :: j != i ==> HandleCount(s'.mem, j) == HandleCount(s.mem, j))
            && (!last ==> s'.store == s.store)
            && (last ==>
                  && s'.store.entries == s.store.entries && i !in s'.store.inodes && i !in s'.store.locations
                  && s'.store.symlinks == s.store.symlinks && OthersSame(s.store, s'.store, {i}))
  {
    hide IsTree, FileLinks, DirLinks, LiveDir, AddNode, Unlink, Rmdir, Rename, Link, Open, CompactAll, SetAttr,
      Effective, WellTyped, LiveLogs, IsDir, FileType, CacheTyped;
    var st, u := s.store, Step(WithDeltas, s, Attempt(DoRelease(i), false)).state.store;
    forall j | j in st.inodes && j in u.inodes && (u == st || j != i) ensures Effective(u, j) == Effective(st, j) {
      EffectiveSame(st, u, j);
    }
    if i in s.mem.handles && i in s.store.inodes {
      HandlesAreFiles(s, i);
    }
  }

  /** A handle on a stored inode is a handle on a file. */
  lemma HandlesAreFiles(s: State, i: Ino)
    requires Inv(s) && i in s.mem.handles && i in s.store.inodes
    ensures !IsDir(s.store.inodes[i].mode)
  {
  }

  // ------------------------------------------------------------------ reads and compaction

  /** A read and an eviction touch the cache only: what was read is cached, what was evicted is not. */
  lemma ReadsChangeNothing(s: State, a: Attempt)
    requires a.op.DoLoad? || a.op.DoEvict?
    ensures var o := Step(WithDeltas, s, a);
            && o.state == s.(mem := s.mem.(cache := o.state.mem.cache))
            && o.state.mem.cache - {a.op.i} == s.mem.cache - {a.op.i}
            && (a.op.DoEvict? ==> a.op.i !in o.state.mem.cache)
            && (a.op.DoLoad? && o.reply.Success? ==>
                  a.op.i in o.state.mem.cache && o.reply == Success(Attr(o.state.mem.cache[a.op.i])))
  {
    hide AddNode, Unlink, Rmdir, Rename, Link, Open, Release, CompactAll, SetAttr, Effective;
  }

  /** Compaction of any kind changes nothing that a reader sees. */
  lemma CompactionEffect(s: State, a: Attempt)
    requires a.op.DoCompact? || a.op.DoCompactDirty? || a.op.DoFlushAll?
    ensures var s' := Step(WithDeltas, s, a).state;
            && s'.store.entries == s.store.entries && OthersSame(s.store, s'.store, {})
            && s'.store.locations == s.store.locations && s'.store.symlinks == s.store.symlinks
            && s'.mem.handles == s.mem.handles && s'.mem.pending == s.mem.pending && s'.mem.next == s.mem.next
            && (forall i :: i in s.mem.cache && DeltasOf(s'.store, i) != DeltasOf(s.store, i) ==> i !in s'.mem.cache)
            && (forall i :: i in s'.mem.cache ==> i in s.mem.cache && s'.mem.cache[i] == s.mem.cache[i])
  {
    hide AddNode, Unlink, Rmdir, Rename, Link, Open, Release, SetAttr, Effective;
    var chosen :=
      if a.op.DoCompact? then Compactable(s, {a.op.i}, if a.conflict then {a.op.i} else {})
      else if a.op.DoCompactDirty? then DueForCompaction(s, a.op.threshold, a.op.blocked)
      else Compactable(s, s.mem.dirty, a.op.blocked);
    forall i | i in s.store.inodes
      ensures Effective(CompactAll(s, chosen).store, i) == Effective(s.store, i)
    {
      CompactAllEffective(s, chosen, i);
    }
  }
}
