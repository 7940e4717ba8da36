/**
 Safety of the namespace over whole runs: from a freshly formatted server, through any sequence of
 allowed attempts, refused commits, compactions and evictions included.
 */
module Namespace {
  import opened Types
  import opened Wrappers
  import opened DeltaFold
  import opened Server
  import opened Logging
  import opened Tree
  import opened Links
  import opened Invariants
  import opened Preservation
  import opened RenamePreservation

  lemma NewNodeStep(s: State, k: DirKey, n: NewNode, conflict: bool)
    requires Inv(s) && GoodNode(n) && NewNodeAllowed(s, k)
    requires IsDir(n.value.mode) ==> RoomForSubdir(s.store.entries, k.parent)
    ensures Inv(AddNode(WithDeltas, s, k, n, conflict).state)
  {
    hide Inv;
    if conflict {
      BurnedKeepsInv(s, NewLogs(k, n), NextIno(s.mem.next));
    } else if k !in s.store.entries && |k.name| <= NAME_MAX {
      AddNodeKeepsInv(s, k, n);
    }
  }

  lemma CreateAndOpenStep(s: State, k: DirKey, mode: u32, uid: u32, gid: u32, ts: u64, conflict: bool)
    requires Inv(s) && NewNodeAllowed(s, k)
    ensures Inv(CreateAndOpen(WithDeltas, s, k, mode, uid, gid, ts, conflict).state)
  {
    hide Inv;
    var i := s.mem.next;
    var n := NewFile(i, mode, uid, gid, ts);
    NodesAreGood(i, mode, [], uid, gid, ts);
    NewNodeStep(s, k, n, conflict);
    var o := Create(WithDeltas, s, k, mode, uid, gid, ts, conflict);
    if o.reply.Success? {
      LogAllDeltas(Txn(NodeStore(s.store, i, k, n), s.mem.seqs), NewLogs(k, n));
      assert o.state.store.inodes == s.store.inodes[i := n.value];
      AddHandleKeepsInv(o.state, i);
    }
  }

  lemma RefusedStep(s: State, a: Attempt)
    requires Inv(s) && a.conflict && (a.op.DoUnlink? || a.op.DoRmdir? || a.op.DoRename? || a.op.DoLink?)
    ensures Inv(Step(WithDeltas, s, a).state)
  {
    hide Inv;
    match a.op {
      case DoUnlink(k, _, parentTs) => BurnedKeepsInv(s, [LogItem(k.parent, Stamps(parentTs))], s.mem.next);
      case DoRmdir(k, ts) => BurnedKeepsInv(s, RmdirLogs(k, ts), s.mem.next);
      case DoRename(k, k2, ts) =>
        if RenameRefusal(s.store, k, k2).None? {
          BurnedKeepsInv(s, RenameLogsOf(s.store, k, k2, ts), s.mem.next);
        }
      case DoLink(k, _, _, parentTs) => BurnedKeepsInv(s, [LogItem(k.parent, Stamps(parentTs))], s.mem.next);
    }
  }

  lemma RenameStep(s: State, k: DirKey, k2: DirKey, ts: u64)
    requires Inv(s) && RenameAllowed(s.store.entries, k, k2)
    ensures Inv(Rename(WithDeltas, s, k, k2, ts, false).state)
  {
    if k2 != k {
      RenameKeepsInv(s, k, k2, ts);
    } else if k in s.store.entries {
      InPlaceKeepsInv(s, k, ts);
    }
  }

  /** Every allowed attempt keeps every namespace invariant. */
  lemma StepKeepsInv(s: State, a: Attempt)
    requires Inv(s) && Allowed(s, a)
    ensures Inv(Step(WithDeltas, s, a).state)
  {
    hide Inv, Unlink, Rmdir, Rename, Link, AddNode, CreateAndOpen, Open, Release;
    match a.op {
      case DoCreate(k, mode, uid, gid, ts) =>
        NodesAreGood(s.mem.next, mode, [], uid, gid, ts);
        NewNodeStep(s, k, NewFile(s.mem.next, mode, uid, gid, ts), a.conflict);
      case DoCreateAndOpen(k, mode, uid, gid, ts) =>
        CreateAndOpenStep(s, k, mode, uid, gid, ts, a.conflict);
      case DoMkdir(k, mode, uid, gid, ts) =>
        NodesAreGood(s.mem.next, mode, [], uid, gid, ts);
        NewNodeStep(s, k, NewDir(s.mem.next, mode, uid, gid, ts), a.conflict);
      case DoSymlink(k, link, uid, gid, ts) =>
        NodesAreGood(s.mem.next, 0, link, uid, gid, ts);
        NewNodeStep(s, k, NewSymlink(s.mem.next, link, uid, gid, ts), a.conflict);
      case DoUnlink(k, ts, parentTs) =>
        if a.conflict { RefusedStep(s, a); } else { UnlinkKeepsInv(s, k, ts, parentTs); }
      case DoRmdir(k, ts) =>
        if a.conflict { RefusedStep(s, a); } else { RmdirKeepsInv(s, k, ts); }
      case DoRename(k, k2, ts) =>
        if a.conflict { RefusedStep(s, a); } else { RenameStep(s, k, k2, ts); }
      case DoLink(k, target, ts, parentTs) =>
        if a.conflict { RefusedStep(s, a); } else { LinkKeepsInv(s, k, target, ts, parentTs); }
      case DoSetAttr(i, req, ts) =>
        if i in s.store.inodes {
          WithAttrsSameLinks(s.store.inodes[i], req, ts);
          PutBaseKeepsInv(s, i, WithAttrs(s.store.inodes[i], req, ts));
        }
      case DoReportWrite(i, newSize, mtime) =>
        if i in s.store.inodes {
          PutBaseKeepsInv(s, i, Written(s.store.inodes[i], newSize, mtime));
        }
      case DoLoad(i) => LoadKeepsInv(s, i);
      case DoOpen(i, truncate, ts) => OpenKeepsInv(s, i, truncate, ts, a.conflict);
      case DoRelease(i) => ReleaseKeepsInv(s, i);
      case DoCompact(i) => CompactAllKeepsInv(s, Compactable(s, {i}, if a.conflict then {i} else {}));
      case DoCompactDirty(threshold, blocked) =>
        var due := DueForCompaction(s, threshold, blocked);
        CompactAllKeepsInv(s, due);
        DirtyIsFree(CompactAll(s, due), s.mem.dirty - due);
      case DoFlushAll(blocked) =>
        var chosen := Compactable(s, s.mem.dirty, blocked);
        CompactAllKeepsInv(s, chosen);
        DirtyIsFree(CompactAll(s, chosen), {});
      case DoEvict(i) => EvictKeepsInv(s, i);
    }
  }

  /** Each attempt of the run is allowed in the state in which it is made. */
  ghost predicate AllowedRun(s: State, run: seq<Attempt>) {
    run == [] ||
    var front, last := run[..|run| - 1], run[|run| - 1];
    AllowedRun(s, front) && Allowed(Run(WithDeltas, s, front), last)
  }

  lemma {:induction false} RunKeepsInv(s: State, run: seq<Attempt>)
    requires Inv(s) && AllowedRun(s, run)
    ensures Inv(Run(WithDeltas, s, run))
  {
    hide Inv, Step, Allowed;
    if run != [] {
      RunKeepsInv(s, run[..|run| - 1]);
      StepKeepsInv(Run(WithDeltas, s, run[..|run| - 1]), run[|run| - 1]);
    }
  }

  lemma FormattedInv(uid: u32, gid: u32, ts: u64)
    ensures Inv(Formatted(uid, gid, ts))
  {
    var st := Formatted(uid, gid, ts).store;
    assert Subdirs(st.entries, ROOT) == {};
    assert DeltasOf(st, ROOT) == [] && Ops([]) == [];
    assert Effective(st, ROOT) == st.inodes[ROOT];
  }

  /** The states that a formatted server can reach. */
  ghost predicate Reachable(s: State) {
    exists uid, gid, ts, run ::
      AllowedRun(Formatted(uid, gid, ts), run) && s == Run(WithDeltas, Formatted(uid, gid, ts), run)
  }

  lemma ReachableInv(s: State)
    requires Reachable(s)
    ensures Inv(s)
  {
    var uid, gid, ts, run :| AllowedRun(Formatted(uid, gid, ts), run) &&
      s == Run(WithDeltas, Formatted(uid, gid, ts), run);
    FormattedInv(uid, gid, ts);
    RunKeepsInv(Formatted(uid, gid, ts), run);
  }

  // ------------------------------------------------------------------ what the invariants say

  /** The directories form a tree: each linked one but the root has one entry, and all have a path from the root. */
  lemma DirectoriesFormATree(s: State, i: Ino)
    requires Reachable(s) && i in s.store.inodes && IsDir(s.store.inodes[i].mode) && Linked(s.store.entries, i)
    ensures Descends(s.store.entries, ROOT, i)
    ensures |Names(s.store.entries, i)| == One(i != ROOT)
  {
    hide Reachable, Inv;
    ReachableInv(s);
    TreePart(s);
    LinkedDirIsRooted(s.store.inodes, s.store.entries, i);
  }

  lemma TreePart(s: State)
    requires Inv(s)
    ensures WellTyped(s.store.inodes, s.store.entries) && IsTree(s.store.entries)
  {
  }

  lemma LinkedDirIsRooted(I: Inodes, E: Entries, i: Ino)
    requires WellTyped(I, E) && IsTree(E) && i in I && IsDir(I[i].mode) && Linked(E, i)
    ensures Descends(E, ROOT, i) && |Names(E, i)| == One(i != ROOT)
  {
    if i == ROOT {
      RootDescends(E);
      NoNames(E, ROOT);
    } else {
      var k :| k in E && E[k].ino == i;
      EntryTypes(I, E, k);
      DirectoryIsRooted(E, k);
      assert Names(E, i) == {k};
    }
  }

  /** A linked directory's link count is exact, and so is every prefix of the fold that computes it. */
  lemma DirectoryLinkCounts(s: State, i: Ino, j: nat)
    requires Reachable(s) && i in s.store.inodes && IsDir(s.store.inodes[i].mode) && Linked(s.store.entries, i)
    requires j <= |DeltasOf(s.store, i)|
    ensures Effective(s.store, i).nlink == 2 + |Subdirs(s.store.entries, i)|
    ensures var n, ops := s.store.inodes[i].nlink, Ops(DeltasOf(s.store, i));
            FoldNlink(n, ops[..j]) == n + NetLinks(ops[..j])
  {
    ReachableInv(s);
    if i != ROOT {
      var k :| k in s.store.entries && s.store.entries[k].ino == i;
      EntryTypes(s.store.inodes, s.store.entries, k);
    }
    assert LiveDir(s.store.entries, i);
    assert ExactLog(s.store, i);
    ExactIsInteger(s.store.inodes[i].nlink, Ops(DeltasOf(s.store, i)), j);
  }

  /** Files: the link count is the number of names. Entries: the type is the inode's. */
  lemma FileLinkCounts(s: State, i: Ino, k: DirKey)
    requires Reachable(s) && i in s.store.inodes && !IsDir(s.store.inodes[i].mode) && k in s.store.entries
    ensures s.store.inodes[i].nlink == |Names(s.store.entries, i)|
    ensures Effective(s.store, i) == s.store.inodes[i]
    ensures s.store.entries[k].ino in s.store.inodes
    ensures FileType(s.store.entries[k].mode) == FileType(s.store.inodes[s.store.entries[k].ino].mode)
    ensures IsDir(s.store.entries[k].mode) <==> IsDirExact(s.store.inodes[s.store.entries[k].ino].mode)
  {
    ReachableInv(s);
    if DeltasOf(s.store, i) != [] {
      LiveDirIsStored(s.store.inodes, s.store.entries, i);
    }
    assert Ops([]) == [];
    DirectoryTestsAgree(s.store.inodes[s.store.entries[k].ino].mode);
  }
}
