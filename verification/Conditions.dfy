/**
 The conditions on callers are exact: an attempt that violates one of them breaks an invariant.
 */
module Conditions {
  import opened Types
  import opened Wrappers
  import opened DeltaFold
  import opened Server
  import opened Logging
  import opened Tree
  import opened Links
  import opened Invariants
  import opened Preservation
  import opened RenamePreservation
  import opened Namespace
  import opened Protocol

  // ------------------------------------------------------------------ new entries

  /** A chain that can only enter its last node from that node itself never came from the root. */
  lemma {:induction false} OnlyEnteredFromItself(F: Entries, q: Ino, p: seq<Ino>)
    requires q != ROOT && (forall a :: Edge(F, a, q) ==> a == q)
    requires Chain(F, p) && p[|p| - 1] == q
    ensures p[0] != ROOT
    decreases |p|
  {
    if |p| > 1 {
      assert Edge(F, p[|p| - 2], p[|p| - 1]);
      var r := p[..|p| - 1];
      forall j | 0 < j < |r| ensures Edge(F, r[j - 1], r[j]) {
        assert Edge(F, p[j - 1], p[j]);
      }
      OnlyEnteredFromItself(F, q, r);
    }
  }

  /** An entry for a new inode keeps the tree exactly when its parent is a linked directory. */
  lemma NewEntryKeepsTreeIff(E: Entries, k: DirKey, e: Entry)
    requires IsTree(E) && k !in E && e.ino != ROOT && forall k2 :: k2 in E ==> E[k2].ino != e.ino
    ensures IsTree(E[k := e]) <==> LiveDir(E, k.parent)
  {
    var F, q := E[k := e], k.parent;
    if LiveDir(E, q) {
      LiveDirDescends(E, q);
      TreeAdd(E, k, e);
    } else if IsTree(F) {
      assert k in F;
      var p :| ChainFromTo(F, p, ROOT, q);
      forall a | Edge(F, a, q) ensures a == q {
        var kk :| kk in F && kk.parent == a && F[kk].ino == q && IsDir(F[kk].mode);
      }
      OnlyEnteredFromItself(F, q, p);
    }
  }

  /** create, mkdir and symlink keep the tree exactly when the parent they are given is a linked directory. */
  lemma AddNodeKeepsTreeIff(s: State, k: DirKey, n: NewNode)
    requires Inv(s) && AddNode(WithDeltas, s, k, n, false).reply.Success?
    ensures IsTree(AddNode(WithDeltas, s, k, n, false).state.store.entries) <==> LiveDir(s.store.entries, k.parent)
  {
    hide IsTree, LiveDir, DirLinks, FileLinks, Deferred, CacheTyped;
    var i := s.mem.next;
    UnusedNumber(s.store, i);
    LogAllDeltas(Txn(NodeStore(s.store, i, k, n), s.mem.seqs), NewLogs(k, n));
    NewEntryKeepsTreeIff(s.store.entries, k, Entry(i, n.value.mode));
  }

  // ------------------------------------------------------------------ rename

  lemma MovedNeedsLiveParent(E: Entries, k: DirKey, k2: DirKey, mode: u32)
    requires IsTree(E) && k in E && (IsDir(mode) <==> IsDir(E[k].mode)) && IsTree(Moved(E, k, k2, mode))
    ensures LiveDir(E, k2.parent)
  {
    var F := Moved(E, k, k2, mode);
    assert k2 in F;
    DescendsIsLiveDir(F, k2.parent);
    if k2.parent != ROOT {
      var kk :| kk in F && F[kk].ino == k2.parent && IsDir(F[kk].mode);
      var old_ := if kk == k2 then k else kk;
      assert old_ in E && E[old_].ino == k2.parent && IsDir(E[old_].mode);
    }
  }

  /** Renaming one name of a file over another of its names loses count of the links. */
  lemma JoiningNamesMiscounts(st: Store, k: DirKey, k2: DirKey, ts: u64)
    requires WellTyped(st.inodes, st.entries) && FileLinks(st.inodes, st.entries) && RenameRefusal(st, k, k2).None?
    requires k2 in st.entries && k2 != k && st.entries[k2].ino == st.entries[k].ino && !IsDir(st.entries[k].mode)
    ensures var u := RenameStore(st, k, k2, ts); !FileLinks(u.inodes, u.entries)
  {
    hide WellTyped, Names, IsDir;
    var u, i := RenameStore(st, k, k2, ts), st.entries[k].ino;
    EntryTypes(st.inodes, st.entries, k);
    CountMove(st.entries, k, k2, st.inodes[i].mode, i);
    assert u.inodes[i].nlink == st.inodes[i].nlink;
  }

  /** Renaming a directory onto itself takes a link from its parent for nothing. */
  lemma DirectoryOntoItselfMiscounts(s: State, k: DirKey, ts: u64)
    requires Inv(s) && RenameRefusal(s.store, k, k).None? && IsDir(s.store.entries[k].mode)
    ensures !DirLinks(Rename(WithDeltas, s, k, k, ts, false).state.store)
  {
    hide Deferred, CacheTyped, Fresh, FileLinks, Subdirs, Names, Added, Removed, LogAll, CacheAll, OpsFor, Fold, LiveLogs,
      Descends, FileType, Touched, WellTyped, IsTree, RenameLogs, LiveDir, RenameKills;
    var st, p, i := s.store, k.parent, s.store.entries[k].ino;
    var st1, logs := RenameStore(st, k, k, ts), RenameLogsOf(st, k, k, ts);
    var u := Rename(WithDeltas, s, k, k, ts, false).state.store;
    EntryTypes(st.inodes, st.entries, k);
    assert LoggedStore(st1, s.mem.seqs, logs, Some(i), u);
    LoggedDeltas(st1, s.mem.seqs, logs, Some(i), u);
    ParentIsLiveDir(st.entries, k);
    LiveDirIsStored(st.inodes, st.entries, p);
    LinksOfRename(p, p, true, true, ts, p);
    var n := Effective(st, p).nlink;
    assert DeltasOf(st1, p) == DeltasOf(st, p) && st1.inodes[p] == st.inodes[p];
    LogLinks(st1, s.mem.seqs, logs, p, n - 1);
    var t := LogAll(WithDeltas, Txn(st1, s.mem.seqs), logs).store;
    LoggedDeltas(st1, s.mem.seqs, logs, None, t);
    assert DeltasOf(u, p) == DeltasOf(t, p);
    SameDirectories(st.entries, k, st.inodes[i].mode, p);
  }

  lemma SameDirectories(E: Entries, k: DirKey, mode: u32, i: Ino)
    requires k in E && (IsDir(mode) <==> IsDir(E[k].mode))
    ensures var F := Moved(E, k, k, mode);
            Subdirs(F, i) == Subdirs(E, i) && (LiveDir(E, i) ==> LiveDir(F, i))
  {
    var F := Moved(E, k, k, mode);
    assert F.Keys == E.Keys;
    if LiveDir(E, i) && i != ROOT {
      var kk :| kk in E && E[kk].ino == i && IsDir(E[kk].mode);
      assert kk in F && F[kk].ino == i && IsDir(F[kk].mode);
    }
  }

  /**
   A rename that the server accepts keeps the invariants exactly when it is given a linked new
   parent, does not join two names of one file, and does not move a directory onto or below itself.
   */
  lemma RenameKeepsInvIff(s: State, k: DirKey, k2: DirKey, ts: u64)
    requires Inv(s) && RenameRefusal(s.store, k, k2).None? && RoomForSubdir(s.store.entries, k2.parent)
    ensures Inv(Rename(WithDeltas, s, k, k2, ts, false).state) <==> RenameAllowed(s.store.entries, k, k2)
  {
    hide Rename, RoomForSubdir;
    if RenameAllowed(s.store.entries, k, k2) {
      RenameStep(s, k, k2, ts);
    } else if Inv(Rename(WithDeltas, s, k, k2, ts, false).state) {
      DisallowedRenameBreaks(s, k, k2, ts);
    }
  }

  lemma DisallowedRenameBreaks(s: State, k: DirKey, k2: DirKey, ts: u64)
    requires Inv(s) && RenameRefusal(s.store, k, k2).None? && RoomForSubdir(s.store.entries, k2.parent)
    requires !RenameAllowed(s.store.entries, k, k2)
    ensures !Inv(Rename(WithDeltas, s, k, k2, ts, false).state)
  {
    hide LiveLogs, Deferred, CacheTyped, Fresh, RoomForSubdir, Subdirs, Names, WellTyped, FileLinks, DirLinks, LiveDir,
      LogAll, CacheAll, RenameLogsOf;
    var st, E := s.store, s.store.entries;
    var s', mode := Rename(WithDeltas, s, k, k2, ts, false).state, st.inodes[E[k].ino].mode;
    LogAllDeltas(Txn(RenameStore(st, k, k2, ts), s.mem.seqs), RenameLogsOf(st, k, k2, ts));
    assert s'.store.entries == Moved(E, k, k2, mode);
    assert s'.store.inodes == RenameStore(st, k, k2, ts).inodes;
    EntryTypes(st.inodes, E, k);
    if IsTree(s'.store.entries) {
      MovedNeedsLiveParent(E, k, k2, mode);
      if k2 in E && E[k2].ino == E[k].ino {
        if k2 == k {
          DirectoryOntoItselfMiscounts(s, k, ts);
        } else {
          JoiningNamesMiscounts(st, k, k2, ts);
        }
      } else {
        LiveDirDescends(E, k2.parent);
        TreeMoveIff(E, k, k2, mode);
      }
    }
  }

  // ------------------------------------------------------------------ link, create, mkdir, symlink

  /** A link that the server accepts leaves stamps on its parent, so the parent must be linked. */
  lemma LinkStampsParent(s: State, k: DirKey, target: Ino, ts: u64, parentTs: u64)
    requires Link(WithDeltas, s, k, target, ts, parentTs, false).reply.Success?
    ensures var s' := Link(WithDeltas, s, k, target, ts, parentTs, false).state;
            LiveLogs(s'.store) ==> LiveDir(s.store.entries, k.parent)
  {
    hide LogAll, CacheAll, LiveDir;
    var st1, item := LinkStore(s.store, k, target, ts), LogItem(k.parent, Stamps(parentTs));
    LogAllDeltas(Txn(st1, s.mem.seqs), [item]);
    OpsForOne(item, k.parent);
    LiveDirMonotone(s.store.entries, k, st1.entries[k], k.parent);
    var s' := Link(WithDeltas, s, k, target, ts, parentTs, false).state;
    assert DeltasOf(s'.store, k.parent) != [];
  }

  /**
   A link that the server accepts keeps the invariants exactly when its parent is linked (a stored
   directory is not enough), its target has a link left, and the link count has room.
   */
  lemma LinkKeepsInvIff(s: State, k: DirKey, target: Ino, ts: u64, parentTs: u64)
    requires Inv(s) && Link(WithDeltas, s, k, target, ts, parentTs, false).reply.Success?
    ensures Inv(Link(WithDeltas, s, k, target, ts, parentTs, false).state) <==> LinkAllowed(s.store, k, target)
  {
    hide Inv, Link, LiveDir, Names;
    if LinkAllowed(s.store, k, target) {
      LinkKeepsInv(s, k, target, ts, parentTs);
    } else if Inv(Link(WithDeltas, s, k, target, ts, parentTs, false).state) {
      LinkNeedsRoom(s, k, target, ts, parentTs);
      InvDetails(Link(WithDeltas, s, k, target, ts, parentTs, false).state);
      LinkKeepsDeferredIff(s, k, target, ts, parentTs);
      LinkStampsParent(s, k, target, ts, parentTs);
    }
  }

  lemma InvDetails(s: State)
    requires Inv(s)
    ensures LiveLogs(s.store) && Deferred(s.store.inodes, s.mem) && Fresh(s.store.inodes, s.mem)
    ensures IsTree(s.store.entries) && DirLinks(s.store) && FileLinks(s.store.inodes, s.store.entries)
  {
  }

  lemma LinkNeedsRoom(s: State, k: DirKey, target: Ino, ts: u64, parentTs: u64)
    requires Inv(s) && Link(WithDeltas, s, k, target, ts, parentTs, false).reply.Success?
    requires Inv(Link(WithDeltas, s, k, target, ts, parentTs, false).state)
    ensures target in s.store.inodes && |Names(s.store.entries, target)| + 1 < TWO32
  {
    hide IsTree, DirLinks, LiveLogs, WellTyped, Deferred, CacheTyped, LogAll, CacheAll, Names;
    var st1 := LinkStore(s.store, k, target, ts);
    LogAllFrame(Txn(st1, s.mem.seqs), [LogItem(k.parent, Stamps(parentTs))]);
    NamesAdd(s.store.entries, k, st1.entries[k], target);
  }

  /**
   create, mkdir and symlink keep the invariants exactly when the parent is a linked directory,
   another inode number is left, and for a directory the parent's link count has room.
   */
  lemma AddNodeKeepsInvIff(s: State, k: DirKey, n: NewNode)
    requires Inv(s) && GoodNode(n) && AddNode(WithDeltas, s, k, n, false).reply.Success?
    ensures Inv(AddNode(WithDeltas, s, k, n, false).state) <==>
            NewNodeAllowed(s, k) && (IsDir(n.value.mode) ==> RoomForSubdir(s.store.entries, k.parent))
  {
    hide Inv, LiveDir, Subdirs, RoomForSubdir, LogAll, CacheAll, IsDir;
    var s' := AddNode(WithDeltas, s, k, n, false).state;
    if Inv(s') {
      InvDetails(s');
      AddNodeKeepsTreeIff(s, k, n);
      if IsDir(n.value.mode) {
        MkdirNeedsRoom(s, k, n);
      }
    } else if NewNodeAllowed(s, k) && (IsDir(n.value.mode) ==> RoomForSubdir(s.store.entries, k.parent)) {
      AddNodeKeepsInv(s, k, n);
    }
  }

  lemma MkdirNeedsRoom(s: State, k: DirKey, n: NewNode)
    requires Inv(s) && AddNode(WithDeltas, s, k, n, false).reply.Success? && IsDir(n.value.mode)
    requires Inv(AddNode(WithDeltas, s, k, n, false).state)
    ensures RoomForSubdir(s.store.entries, k.parent)
  {
    hide IsTree, FileLinks, LiveLogs, Deferred, CacheTyped, LogAll, CacheAll, Subdirs, Effective, IsDir;
    var s', i := AddNode(WithDeltas, s, k, n, false).state, s.mem.next;
    LogAllFrame(Txn(NodeStore(s.store, i, k, n), s.mem.seqs), NewLogs(k, n));
    var F := s'.store.entries;
    assert F == s.store.entries[k := Entry(i, n.value.mode)];
    ParentIsLiveDir(F, k);
    LiveDirIsStored(s'.store.inodes, F, k.parent);
    SubdirsAdd(s.store.entries, k, F[k], k.parent);
  }
}
