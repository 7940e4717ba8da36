/**
 The lock plans against the state machine: every row that an accepted attempt changes is among the rows
 that its plan locks, so that row locks held to the end isolate the writes (server/src/lib.rs,
 `get_for_update_*` before each push).
 */
module LockCoverage {
  import opened Types
  import opened Wrappers
  import opened Server
  import opened Logging
  import opened Locks

  predicate Differs<K, V(==)>(m: map<K, V>, n: map<K, V>, k: K) {
    (k in m <==> k !in n) || (k in m && k in n && m[k] != n[k])
  }

  /** The row differs between two stores; delta rows are appended under numbers that nobody else has. */
  predicate RowDiffers(st: Store, u: Store, r: RowId) {
    match r
    case EntryRow(k) => Differs(st.entries, u.entries, k)
    case InodeRow(i) => Differs(st.inodes, u.inodes, i)
    case LocationRow(i) => Differs(st.locations, u.locations, i)
    case SymlinkRow(i) => Differs(st.symlinks, u.symlinks, i)
    case DeltaRow(_, _) => false
  }

  ghost predicate Covers(l: Locking, st: Store, u: Store) {
    forall r :: RowDiffers(st, u, r) ==> r in LockRows(l)
  }

  /** The plan of an attempt, from the state it finds. */
  ghost predicate Takes(s: State, a: Attempt, l: Locking) {
    var E, next := s.store.entries, s.mem.next;
    match a.op
    case DoCreate(k, _, _, _, _) => l == Creating(k, next, Some(LocationRow(next)))
    case DoCreateAndOpen(k, _, _, _, _) => l == Creating(k, next, Some(LocationRow(next)))
    case DoMkdir(k, _, _, _, _) => l == Creating(k, next, None)
    case DoSymlink(k, _, _, _, _) => l == Creating(k, next, Some(SymlinkRow(next)))
    case DoUnlink(k, _, _) =>
      k in E && E[k].ino in s.store.inodes &&
      l == Unlinking(k, E[k].ino, s.store.inodes[E[k].ino].nlink <= 1 && E[k].ino !in s.mem.handles)
    case DoRmdir(k, _) => k in E && l == RemovingDir(k, E[k].ino)
    case DoRename(k, k2, _) =>
      && k in E && l.Renaming? && l.k == k && l.k2 == k2 && WellFormed(l)
      && E[k].ino in l.ids && k.parent in l.ids && k2.parent in l.ids && (k2 in E ==> E[k2].ino in l.ids)
      && l.dead == if RenameKills(s.store, k2) then Some(E[k2].ino) else None
    case DoLink(k, target, _, _) => l == Linking(k, target)
    case DoSetAttr(i, _, _) => l == Updating(i)
    case DoReportWrite(i, _, _) => l == Updating(i)
    case DoOpen(i, truncate, _) => truncate && l == Updating(i)
    case DoRelease(i) => l == Releasing(i)
    case DoCompact(i) => l.Compacting? && l.i == i
    case _ => false
  }

  lemma CreationCovered(s: State, k: DirKey, n: NewNode, conflict: bool, l: Locking)
    requires AddNode(WithDeltas, s, k, n, conflict).reply.Success? && l.Creating? && l.k == k && l.i == s.mem.next
    requires n.location.Some? ==> l.side == Some(LocationRow(l.i))
    requires n.target.Some? ==> l.side == Some(SymlinkRow(l.i))
    ensures Covers(l, s.store, AddNode(WithDeltas, s, k, n, conflict).state.store)
  {
    hide LogAll, CacheAll;
    LogAllFrame(Txn(NodeStore(s.store, s.mem.next, k, n), s.mem.seqs), NewLogs(k, n));
    PlanRows(l);
  }

  /** The rows of each plan. */
  lemma PlanRows(l: Locking)
    ensures l.Creating? ==> EntryRow(l.k) in LockRows(l) && InodeRow(l.i) in LockRows(l)
    ensures l.Creating? && l.side.Some? ==> l.side.value in LockRows(l)
    ensures l.Unlinking? || l.RemovingDir? ==> EntryRow(l.k) in LockRows(l) && InodeRow(l.child) in LockRows(l)
    ensures l.Unlinking? && l.dying ==> LocationRow(l.child) in LockRows(l)
    ensures l.Renaming? ==> EntryRow(l.k) in LockRows(l) && EntryRow(l.k2) in LockRows(l)
    ensures l.Renaming? ==> forall i :: i in l.ids ==> InodeRow(i) in LockRows(l)
    ensures l.Renaming? && l.dead.Some? ==> LocationRow(l.dead.value) in LockRows(l)
    ensures l.Linking? ==>
              InodeRow(l.target) in LockRows(l) && EntryRow(l.k) in LockRows(l) && InodeRow(l.k.parent) in LockRows(l)
    ensures l.Updating? || l.Releasing? || l.Compacting? ==> InodeRow(l.i) in LockRows(l)
    ensures l.Releasing? ==> LocationRow(l.i) in LockRows(l)
  {
    if l.Renaming? {
      var rows := InodeRows(l.ids);
      forall i | i in l.ids ensures InodeRow(i) in rows {
        var j :| 0 <= j < |l.ids| && l.ids[j] == i;
        assert rows[j] == InodeRow(i);
      }
    }
  }

  lemma UnlinkCovered(s: State, a: Attempt, l: Locking)
    requires a.op.DoUnlink? && Step(WithDeltas, s, a).reply.Success? && Takes(s, a, l)
    requires forall i :: i in s.mem.handles ==> s.mem.handles[i] > 0
    ensures Covers(l, s.store, Step(WithDeltas, s, a).state.store)
  {
    hide LogAll, CacheAll, LockRows, AddNode, Rmdir, Rename, Link, Open, Release, CompactAll, SetAttr, Touched, IsDir;
    var i := s.store.entries[a.op.k].ino;
    LogAllFrame(Txn(UnlinkStore(s.store, a.op.k, l.dying, a.op.ts), s.mem.seqs),
      [LogItem(a.op.k.parent, Stamps(a.op.parentTs))]);
    PlanRows(l);
  }

  lemma RmdirCovered(s: State, a: Attempt, l: Locking)
    requires a.op.DoRmdir? && Step(WithDeltas, s, a).reply.Success? && Takes(s, a, l)
    ensures Covers(l, s.store, Step(WithDeltas, s, a).state.store)
  {
    hide LogAll, CacheAll, AddNode, Unlink, Rename, Link, Open, Release, CompactAll, SetAttr, Touched, IsDir, DirEmpty;
    LogAllFrame(Txn(RmdirStore(s.store, a.op.k), s.mem.seqs), RmdirLogs(a.op.k, a.op.ts));
  }

  lemma RenameCovered(s: State, a: Attempt, l: Locking)
    requires a.op.DoRename? && Step(WithDeltas, s, a).reply.Success? && Takes(s, a, l)
    ensures Covers(l, s.store, Step(WithDeltas, s, a).state.store)
  {
    hide LogAll, CacheAll, LockRows, AddNode, Unlink, Rmdir, Link, Open, Release, CompactAll, SetAttr, Touched, IsDir,
      DirEmpty, RenameLogs, WellFormed;
    var k, k2, ts := a.op.k, a.op.k2, a.op.ts;
    LogAllFrame(Txn(RenameStore(s.store, k, k2, ts), s.mem.seqs), RenameLogsOf(s.store, k, k2, ts));
    PlanRows(l);
  }

  lemma LinkCovered(s: State, a: Attempt, l: Locking)
    requires a.op.DoLink? && Step(WithDeltas, s, a).reply.Success? && Takes(s, a, l)
    ensures Covers(l, s.store, Step(WithDeltas, s, a).state.store)
  {
    hide LogAll, CacheAll, AddNode, Unlink, Rmdir, Rename, Open, Release, CompactAll, SetAttr, Touched, IsDir;
    LogAllFrame(Txn(LinkStore(s.store, a.op.k, a.op.target, a.op.ts), s.mem.seqs),
      [LogItem(a.op.k.parent, Stamps(a.op.parentTs))]);
  }

  lemma UpdateCovered(s: State, a: Attempt, l: Locking)
    requires a.op.DoSetAttr? || a.op.DoReportWrite? || a.op.DoOpen?
    requires Step(WithDeltas, s, a).reply.Success? && Takes(s, a, l)
    ensures Covers(l, s.store, Step(WithDeltas, s, a).state.store)
  {
    hide Step, LockRows, Differs;
    PlanRows(l);
    UpdateTouches(s, a);
    OneRowDiffers(s.store, Step(WithDeltas, s, a).state.store, a.op.i);
  }

  lemma UpdateTouches(s: State, a: Attempt)
    requires a.op.DoSetAttr? || a.op.DoReportWrite? || a.op.DoOpen?
    ensures var st, u := s.store, Step(WithDeltas, s, a).state.store;
            u == st || (a.op.i in u.inodes && u == st.(inodes := st.inodes[a.op.i := u.inodes[a.op.i]]))
  {
    hide AddNode, Unlink, Rmdir, Rename, Link, Release, CompactAll, WithAttrs, Effective, IsDir;
  }

  lemma OneRowDiffers(st: Store, u: Store, i: Ino)
    requires u == st || (i in u.inodes && u == st.(inodes := st.inodes[i := u.inodes[i]]))
    ensures forall r :: RowDiffers(st, u, r) ==> r == InodeRow(i)
  {
  }

  lemma RemovalCovered(s: State, a: Attempt, l: Locking)
    requires a.op.DoRelease? || a.op.DoCompact?
    requires Step(WithDeltas, s, a).reply.Success? && Takes(s, a, l)
    ensures Covers(l, s.store, Step(WithDeltas, s, a).state.store)
  {
    hide AddNode, Unlink, Rmdir, Rename, Link, Load, Open, SetAttr, ReportWrite, Effective, LockRows;
    PlanRows(l);
  }

  /** Every row that an accepted attempt changes is locked by its plan. */
  lemma WritesAreLocked(s: State, a: Attempt, l: Locking)
    requires Step(WithDeltas, s, a).reply.Success? && Takes(s, a, l)
    requires forall i :: i in s.mem.handles ==> s.mem.handles[i] > 0
    ensures Covers(l, s.store, Step(WithDeltas, s, a).state.store)
  {
    hide AddNode, Unlink, Rmdir, Rename, Link, SetAttr, ReportWrite, Load, Open, Release, CompactAll, LockRows, Covers;
    match a.op {
      case DoCreate(k, mode, uid, gid, ts) =>
        CreationCovered(s, k, NewFile(s.mem.next, mode, uid, gid, ts), a.conflict, l);
      case DoCreateAndOpen(k, mode, uid, gid, ts) =>
        CreationCovered(s, k, NewFile(s.mem.next, mode, uid, gid, ts), a.conflict, l);
      case DoMkdir(k, mode, uid, gid, ts) =>
        CreationCovered(s, k, NewDir(s.mem.next, mode, uid, gid, ts), a.conflict, l);
      case DoSymlink(k, link, uid, gid, ts) =>
        CreationCovered(s, k, NewSymlink(s.mem.next, link, uid, gid, ts), a.conflict, l);
      case DoUnlink(_, _, _) => UnlinkCovered(s, a, l);
      case DoRmdir(_, _) => RmdirCovered(s, a, l);
      case DoRename(_, _, _) => RenameCovered(s, a, l);
      case DoLink(_, _, _, _) => LinkCovered(s, a, l);
      case DoRelease(_) => RemovalCovered(s, a, l);
      case DoCompact(_) => RemovalCovered(s, a, l);
      case _ => UpdateCovered(s, a, l);
    }
  }

  // ------------------------------------------------------------------ what an attempt relies on

  ghost predicate AgreeOn(l: Locking, st: Store, u: Store) {
    forall r :: r in LockRows(l) ==> !RowDiffers(st, u, r)
  }

  /** The directory that must have no entries: the removed one, or the one a rename replaces. */
  ghost function MustBeEmpty(s: State, a: Attempt): Option<Ino> {
    var E := s.store.entries;
    match a.op
    case DoRmdir(k, _) => if k in E then Some(E[k].ino) else None
    case DoRename(_, k2, _) => if k2 in E then Some(E[k2].ino) else None
    case _ => None
  }

  lemma SameRow(l: Locking, st: Store, u: Store, r: RowId)
    requires AgreeOn(l, st, u) && r in LockRows(l)
    ensures !RowDiffers(st, u, r)
  {
  }

  lemma SimpleAnswersAreLocked(s: State, s2: State, a: Attempt, l: Locking)
    requires Takes(s, a, l) && AgreeOn(l, s.store, s2.store) && s2.mem == s.mem
    requires !a.op.DoRename? && !a.op.DoRmdir? && !a.op.DoOpen?
    ensures Step(WithDeltas, s2, a).reply == Step(WithDeltas, s, a).reply
  {
    hide LogAll, CacheAll, LockRows, AgreeOn, Rename, Rmdir, Open, CompactAll, Touched, IsDir, WithAttrs, Effective;
    PlanRows(l);
    if a.op.DoLink? {
      SameRow(l, s.store, s2.store, InodeRow(a.op.target));
      SameRow(l, s.store, s2.store, InodeRow(a.op.k.parent));
      SameRow(l, s.store, s2.store, EntryRow(a.op.k));
    } else if l.Updating? {
      SameRow(l, s.store, s2.store, InodeRow(l.i));
    } else if l.Creating? || l.Unlinking? {
      SameRow(l, s.store, s2.store, EntryRow(a.op.k));
      if l.Unlinking? {
        SameRow(l, s.store, s2.store, InodeRow(l.child));
      }
    }
  }

  lemma RenameAnswerIsLocked(s: State, s2: State, a: Attempt, l: Locking)
    requires Takes(s, a, l) && AgreeOn(l, s.store, s2.store) && s2.mem == s.mem && a.op.DoRename?
    requires a.op.k2 in s.store.entries ==>
               var i := s.store.entries[a.op.k2].ino; DirEmpty(s2.store.entries, i) <==> DirEmpty(s.store.entries, i)
    ensures Step(WithDeltas, s2, a).reply == Step(WithDeltas, s, a).reply
  {
    hide LogAll, CacheAll, LockRows, AgreeOn, AddNode, Unlink, Rmdir, Link, Open, CompactAll, Touched, IsDir,
      RenameStore, RenameLogsOf, WellFormed, DirEmpty;
    PlanRows(l);
    SameRow(l, s.store, s2.store, EntryRow(a.op.k));
    SameRow(l, s.store, s2.store, EntryRow(a.op.k2));
    SameRow(l, s.store, s2.store, InodeRow(s.store.entries[a.op.k].ino));
    if a.op.k2 in s.store.entries {
      SameRow(l, s.store, s2.store, InodeRow(s.store.entries[a.op.k2].ino));
    }
  }

  lemma RmdirAnswerIsLocked(s: State, s2: State, a: Attempt, l: Locking)
    requires Takes(s, a, l) && AgreeOn(l, s.store, s2.store) && s2.mem == s.mem && a.op.DoRmdir?
    requires var i := s.store.entries[a.op.k].ino; DirEmpty(s2.store.entries, i) <==> DirEmpty(s.store.entries, i)
    ensures Step(WithDeltas, s2, a).reply == Step(WithDeltas, s, a).reply
  {
    hide LogAll, CacheAll, LockRows, AgreeOn, AddNode, Unlink, Rename, Link, Open, CompactAll, Touched, IsDir, DirEmpty;
    PlanRows(l);
    SameRow(l, s.store, s2.store, EntryRow(a.op.k));
    SameRow(l, s.store, s2.store, InodeRow(l.child));
  }

  /**
   What an attempt answers depends on the rows that its plan locks, and on whether a directory that has
   to be empty is: of two stores that agree on these it sees no difference.
   */
  lemma AnswersDependOnLocks(s: State, s2: State, a: Attempt, l: Locking)
    requires Takes(s, a, l) && AgreeOn(l, s.store, s2.store) && s2.mem == s.mem && !a.op.DoOpen?
    requires var d := MustBeEmpty(s, a);
             d.Some? ==> (DirEmpty(s2.store.entries, d.value) <==> DirEmpty(s.store.entries, d.value))
    ensures Step(WithDeltas, s2, a).reply == Step(WithDeltas, s, a).reply
  {
    hide Step, AgreeOn, DirEmpty;
    if a.op.DoRename? {
      RenameAnswerIsLocked(s, s2, a, l);
    } else if a.op.DoRmdir? {
      RmdirAnswerIsLocked(s, s2, a, l);
    } else {
      SimpleAnswersAreLocked(s, s2, a, l);
    }
  }

  /**
   Emptiness itself is not locked: an entry put into the directory after the check is outside the plan
   of an rmdir and changes its answer.
   */
  lemma EmptinessIsNotLocked(s: State, k: DirKey, ts: u64, name: Name, e: Entry)
    requires Step(WithDeltas, s, Attempt(DoRmdir(k, ts), false)).reply.Success? && k in s.store.entries
    ensures var i := s.store.entries[k].ino;
            var s2 := s.(store := s.store.(entries := s.store.entries[DirKey(i, name) := e]));
            && AgreeOn(RemovingDir(k, i), s.store, s2.store)
            && Step(WithDeltas, s2, Attempt(DoRmdir(k, ts), false)).reply == Failure(DirectoryNotEmpty)
  {
    hide LogAll, CacheAll, AddNode, Unlink, Rename, Link, Open, CompactAll, Touched, IsDir;
    var i := s.store.entries[k].ino;
    var E2 := s.store.entries[DirKey(i, name) := e];
    assert DirKey(i, name) in E2;
  }
}
