/**
 What each attempt answers (server/src/lib.rs), in terms of entries and inodes alone: exactly when it
 succeeds, and with which error it fails otherwise. The conditions of one operation are exclusive and
 cover every case.
 */
module Answers {
  import opened Types
  import opened Wrappers
  import opened Server
  import opened Tree
  import opened Invariants
  import opened Preservation

  /** create, create_and_open, mkdir and symlink look at the name only. */
  lemma CreationAnswers(build: Build, s: State, a: Attempt)
    requires a.op.DoCreate? || a.op.DoCreateAndOpen? || a.op.DoMkdir? || a.op.DoSymlink?
    ensures var E, k, r := s.store.entries, a.op.k, Step(build, s, a).reply;
            && (|k.name| > 255 ==> r == Failure(NameTooLong))
            && (|k.name| <= 255 && k in E ==> r == Failure(AlreadyExists))
            && (|k.name| <= 255 && k !in E ==>
                  if a.conflict then r == Failure(TransactionConflict) else r.Success? && r.value.Attr?)
  {
    hide LogAll, CacheAll;
  }

  lemma UnlinkAnswers(build: Build, s: State, k: DirKey, ts: u64, parentTs: u64, conflict: bool)
    requires WellTyped(s.store.inodes, s.store.entries)
    ensures var E, r := s.store.entries, Step(build, s, Attempt(DoUnlink(k, ts, parentTs), conflict)).reply;
            && (|k.name| > 255 ==> r == Failure(NameTooLong))
            && (|k.name| <= 255 && k !in E ==> r == Failure(NotFound))
            && (|k.name| <= 255 && k in E && IsDir(E[k].mode) ==> r == Failure(IsADirectory))
            && (|k.name| <= 255 && k in E && !IsDir(E[k].mode) ==>
                  if conflict then r == Failure(TransactionConflict) else r.Success? && r.value.Purged?)
  {
    hide LogAll, CacheAll, IsDir;
  }

  lemma RmdirAnswers(build: Build, s: State, k: DirKey, ts: u64, conflict: bool)
    requires WellTyped(s.store.inodes, s.store.entries)
    ensures var E, r := s.store.entries, Step(build, s, Attempt(DoRmdir(k, ts), conflict)).reply;
            && (|k.name| > 255 ==> r == Failure(NameTooLong))
            && (|k.name| <= 255 && k !in E ==> r == Failure(NotFound))
            && (|k.name| <= 255 && k in E && !IsDir(E[k].mode) ==> r == Failure(NotADirectory))
            && (|k.name| <= 255 && k in E && IsDir(E[k].mode) ==>
                  if exists e :: e in E && e.parent == E[k].ino then r == Failure(DirectoryNotEmpty)
                  else if conflict then r == Failure(TransactionConflict)
                  else r == Success(Done))
  {
    hide LogAll, CacheAll, IsDir;
  }

  /**
   rename succeeds exactly when the source exists and the target is free, or is of the same kind and
   not a directory with entries.
   */
  lemma RenameAnswers(build: Build, s: State, k: DirKey, k2: DirKey, ts: u64, conflict: bool)
    requires WellTyped(s.store.inodes, s.store.entries)
    ensures var E, r := s.store.entries, Step(build, s, Attempt(DoRename(k, k2, ts), conflict)).reply;
            var fits := |k.name| <= 255 && |k2.name| <= 255;
            var sameKind := k in E && k2 in E && (IsDir(E[k].mode) <==> IsDir(E[k2].mode));
            var full := k2 in E && IsDir(E[k2].mode) && exists e :: e in E && e.parent == E[k2].ino;
            && (r.Success? <==> fits && k in E && (k2 !in E || (sameKind && !full)) && !conflict)
            && (r.Success? ==> r.value.Purged?)
            && (!fits ==> r == Failure(NameTooLong))
            && (fits && k !in E ==> r == Failure(NotFound))
            && (fits && k in E && k2 in E && !sameKind ==>
                  r == Failure(if IsDir(E[k].mode) then NotADirectory else IsADirectory))
            && (fits && sameKind && full ==> r == Failure(DirectoryNotEmpty))
            && (fits && k in E && (k2 !in E || (sameKind && !full)) && conflict ==> r == Failure(TransactionConflict))
  {
    hide LogAll, CacheAll, IsDir, RenameStore, RenameLogsOf, RenameKills;
    if k in s.store.entries {
      EntryTypes(s.store.inodes, s.store.entries, k);
      if k2 in s.store.entries {
        EntryTypes(s.store.inodes, s.store.entries, k2);
      }
    }
  }

  /** link checks its target, the name and the parent, in this order; no invariant is needed. */
  lemma LinkAnswers(build: Build, s: State, k: DirKey, target: Ino, ts: u64, parentTs: u64, conflict: bool)
    ensures var I, E := s.store.inodes, s.store.entries;
            var r := Step(build, s, Attempt(DoLink(k, target, ts, parentTs), conflict)).reply;
            && (|k.name| > 255 ==> r == Failure(NameTooLong))
            && (|k.name| <= 255 && target !in I ==> r == Failure(NotFound))
            && (|k.name| <= 255 && target in I && IsDir(I[target].mode) ==> r == Failure(PermissionDenied))
            && (|k.name| <= 255 && target in I && !IsDir(I[target].mode) ==>
                  if k in E then r == Failure(AlreadyExists)
                  else if k.parent !in I then r == Failure(NotFound)
                  else if !IsDir(I[k.parent].mode) then r == Failure(NotADirectory)
                  else if conflict then r == Failure(TransactionConflict)
                  else r.Success? && r.value.Attr?)
  {
    hide LogAll, CacheAll, IsDir;
  }

  /** setattr and report_write need the inode only. */
  lemma UpdateAnswers(build: Build, s: State, a: Attempt)
    requires a.op.DoSetAttr? || a.op.DoReportWrite?
    ensures var r := Step(build, s, a).reply;
            if a.op.i !in s.store.inodes then r == Failure(NotFound)
            else if a.conflict then r == Failure(TransactionConflict)
            else r.Success? && r.value.Updated? == a.op.DoSetAttr?
  {
    hide AddNode, Unlink, Rmdir, Rename, Link, Open, Release, CompactAll, WithAttrs;
  }

  /** A read finds exactly the stored inodes, cached or not. */
  lemma LoadAnswers(s: State, i: Ino)
    requires CacheTyped(s.store.inodes, s.mem.cache)
    ensures var r := Load(s, i).reply;
            if i in s.store.inodes then r.Success? && r.value.Attr? else r == Failure(NotFound)
  {
  }

  /** open wants a stored file; only a truncation that has something to cut can be refused. */
  lemma OpenAnswers(build: Build, s: State, i: Ino, truncate: bool, ts: u64, conflict: bool)
    requires Inv(s)
    ensures var I, L := s.store.inodes, s.store.locations;
            var r := Step(build, s, Attempt(DoOpen(i, truncate, ts), conflict)).reply;
            && (i !in I ==> r == Failure(NotFound))
            && (i in I && IsDir(I[i].mode) ==> r == Failure(IsADirectory))
            && (i in I && !IsDir(I[i].mode) ==>
                  if truncate && I[i].size > 0 && conflict then r == Failure(TransactionConflict)
                  else r == Success(Opened(if i in L then L[i] else "default")))
  {
    hide IsTree, FileLinks, DirLinks, LiveDir, AddNode, Unlink, Rmdir, Rename, Link, Release, CompactAll, SetAttr;
    if i in s.store.inodes {
      LoadedAsStored(s, i);
    }
  }

  /** Whatever a read returns has the stored type and size; a file is returned as stored. */
  lemma LoadedAsStored(s: State, i: Ino)
    requires WellTyped(s.store.inodes, s.store.entries) && LiveLogs(s.store)
    requires CacheTyped(s.store.inodes, s.mem.cache) && i in s.store.inodes
    ensures var r := Load(s, i).reply;
            && r.Success? && r.value.Attr?
            && (IsDir(r.value.value.mode) <==> IsDir(s.store.inodes[i].mode))
            && (!IsDir(s.store.inodes[i].mode) ==> r.value.value == s.store.inodes[i])
  {
    hide Effective, LiveDir, WellTyped, LiveLogs;
    if !IsDir(s.store.inodes[i].mode) {
      FilesAreQuiet(s.store, i);
    }
    FoldKeepsMode(s.store.inodes[i], Ops(DeltasOf(s.store, i)));
    EffectiveMode(s.store, i);
  }

  lemma EffectiveMode(st: Store, i: Ino)
    requires i in st.inodes
    ensures Effective(st, i).mode == st.inodes[i].mode
  {
    FoldKeepsMode(st.inodes[i], Ops(DeltasOf(st, i)));
  }

  /** release fails only if it closes the last handle of a file waiting to be deleted and is refused. */
  lemma ReleaseAnswers(build: Build, s: State, i: Ino, conflict: bool)
    ensures var r := Step(build, s, Attempt(DoRelease(i), conflict)).reply;
            var last := i in s.mem.handles && s.mem.handles[i] <= 1 && i in s.mem.pending;
            r == if !last then Success(Purged([])) else if conflict then Failure(TransactionConflict)
                 else Success(Purged([i]))
  {
    hide AddNode, Unlink, Rmdir, Rename, Link, Open, CompactAll, WithAttrs;
  }
}
