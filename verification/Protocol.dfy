/**
 The unlink/open/release protocol over whole runs: open files stay stored, files are reported
 purged exactly when they disappear, and never twice.
 */
module Protocol {
  import opened Types
  import opened Wrappers
  import opened DeltaFold
  import opened Server
  import opened Logging
  import opened Tree
  import opened Links
  import opened Invariants
  import opened Preservation
  import opened RenamePreservation
  import opened Namespace

  ghost predicate HandlesStored(s: State) {
    forall i :: i in s.mem.handles ==> i in s.store.inodes
  }

  /** A rename must not replace the last link of an open file, nor put a file over itself. */
  ghost predicate ReplacesClosedFile(s: State, k: DirKey, k2: DirKey) {
    k in s.store.entries && RenameKills(s.store, k2) ==>
      k2 != k && s.store.entries[k2].ino !in s.mem.handles
  }

  ghost predicate ProtocolAllowed(s: State, a: Attempt) {
    Allowed(s, a) && (a.op.DoRename? ==> ReplacesClosedFile(s, a.op.k, a.op.k2))
  }

  /** The inodes whose data the attempt tells the client to delete. */
  function Purges(s: State, a: Attempt): seq<Ino> {
    match Step(WithDeltas, s, a).reply
    case Success(Purged(inodes)) => inodes
    case _ => []
  }

  /** The files that are stored before and not after. */
  ghost predicate Vanishes(s: State, a: Attempt, i: Ino) {
    i in s.store.inodes && !IsDir(s.store.inodes[i].mode) && i !in Step(WithDeltas, s, a).state.store.inodes
  }

  /** What an attempt does to the set of stored inodes and to the handles. */
  ghost predicate StepIsClean(s: State, a: Attempt) {
    var s' := Step(WithDeltas, s, a).state;
    && (forall i :: i in s'.store.inodes ==> i in s.store.inodes || i == s.mem.next)
    && s.mem.next <= s'.mem.next && (forall i :: i in s'.store.inodes ==> i < s'.mem.next)
    && HandlesStored(s')
    && |Purges(s, a)| <= 1 && (forall i :: i in Purges(s, a) <==> Vanishes(s, a, i))
  }

  lemma NewNodeIsClean(s: State, k: DirKey, n: NewNode, a: Attempt)
    requires Inv(s) && HandlesStored(s) && NewNodeAllowed(s, k)
    requires Step(WithDeltas, s, a) == AddNode(WithDeltas, s, k, n, a.conflict)
    ensures StepIsClean(s, a)
  {
    hide IsTree, FileLinks, DirLinks, LiveLogs, WellTyped, LiveDir, CacheTyped, LogAll, CacheAll, Step, IsDir;
    LogKeepsInodes(NodeStore(s.store, s.mem.next, k, n), s.mem.seqs, NewLogs(k, n));
  }

  lemma CreateAndOpenIsClean(s: State, k: DirKey, mode: u32, uid: u32, gid: u32, ts: u64, a: Attempt)
    requires Inv(s) && HandlesStored(s) && NewNodeAllowed(s, k)
    requires Step(WithDeltas, s, a) == CreateAndOpen(WithDeltas, s, k, mode, uid, gid, ts, a.conflict)
    ensures StepIsClean(s, a)
  {
    hide Step, IsTree, FileLinks, DirLinks, LiveLogs, WellTyped, LiveDir, CacheTyped, LogAll, CacheAll, IsDir;
    var n := NewFile(s.mem.next, mode, uid, gid, ts);
    LogKeepsInodes(NodeStore(s.store, s.mem.next, k, n), s.mem.seqs, NewLogs(k, n));
  }

  lemma UnlinkIsClean(s: State, k: DirKey, ts: u64, parentTs: u64, a: Attempt)
    requires Inv(s) && HandlesStored(s) && Step(WithDeltas, s, a) == Unlink(WithDeltas, s, k, ts, parentTs, a.conflict)
    ensures StepIsClean(s, a)
  {
    hide Step, IsTree, DirLinks, LiveLogs, LiveDir, CacheTyped, LogAll, CacheAll, IsDir, WellTyped, FileLinks;
    if k in s.store.entries && !IsDir(s.store.entries[k].mode) {
      NamedFile(s.store.inodes, s.store.entries, k);
      var i := s.store.entries[k].ino;
      var dying := OneLinkLess(s.store.inodes[i], ts).nlink == 0 && HandleCount(s.mem, i) == 0;
      LogKeepsInodes(UnlinkStore(s.store, k, dying, ts), s.mem.seqs, [LogItem(k.parent, Stamps(parentTs))]);
    }
  }

  lemma RmdirIsClean(s: State, k: DirKey, ts: u64, a: Attempt)
    requires Inv(s) && HandlesStored(s) && Step(WithDeltas, s, a) == Rmdir(WithDeltas, s, k, ts, a.conflict)
    ensures StepIsClean(s, a)
  {
    hide Step, IsTree, DirLinks, LiveLogs, LiveDir, CacheTyped, LogAll, CacheAll, IsDir, WellTyped, FileLinks;
    if k in s.store.entries && s.store.entries[k].ino in s.store.inodes {
      EntryTypes(s.store.inodes, s.store.entries, k);
      LogKeepsInodes(RmdirStore(s.store, k), s.mem.seqs, RmdirLogs(k, ts));
    }
  }

  lemma RenameIsClean(s: State, k: DirKey, k2: DirKey, ts: u64, a: Attempt)
    requires Inv(s) && HandlesStored(s) && RenameAllowed(s.store.entries, k, k2) && ReplacesClosedFile(s, k, k2)
    requires Step(WithDeltas, s, a) == Rename(WithDeltas, s, k, k2, ts, a.conflict)
    ensures StepIsClean(s, a)
  {
    hide Step, IsTree, DirLinks, LiveLogs, LiveDir, CacheTyped, LogAll, CacheAll, WellTyped, FileLinks, RenameLogsOf,
      IsDir, Descends, RoomForSubdir;
    if RenameRefusal(s.store, k, k2).None? {
      LogKeepsInodes(RenameStore(s.store, k, k2, ts), s.mem.seqs, RenameLogsOf(s.store, k, k2, ts));
      if k2 in s.store.entries {
        EntryTypes(s.store.inodes, s.store.entries, k2);
      }
    }
  }

  lemma LinkIsClean(s: State, k: DirKey, target: Ino, ts: u64, parentTs: u64, a: Attempt)
    requires Inv(s) && HandlesStored(s) &&
             Step(WithDeltas, s, a) == Link(WithDeltas, s, k, target, ts, parentTs, a.conflict)
    ensures StepIsClean(s, a)
  {
    hide Step, IsTree, DirLinks, LiveLogs, LiveDir, CacheTyped, LogAll, CacheAll, IsDir, WellTyped, FileLinks;
    if target in s.store.inodes {
      LogKeepsInodes(LinkStore(s.store, k, target, ts), s.mem.seqs, [LogItem(k.parent, Stamps(parentTs))]);
    }
  }

  lemma PutIsClean(s: State, a: Attempt)
    requires Inv(s) && HandlesStored(s)
    requires a.op.DoSetAttr? || a.op.DoReportWrite? || a.op.DoEvict?
    ensures StepIsClean(s, a)
  {
    hide IsTree, DirLinks, LiveLogs, LiveDir, IsDir, WellTyped, FileLinks, WithAttrs, CacheTyped, Deferred;
  }

  lemma ReleaseIsClean(s: State, i: Ino, a: Attempt)
    requires Inv(s) && HandlesStored(s) && Step(WithDeltas, s, a) == Release(s, i, false)
    ensures StepIsClean(s, a)
  {
    hide IsTree, DirLinks, LiveLogs, LiveDir, IsDir, WellTyped, FileLinks, CacheTyped, Step;
  }

  lemma OpenIsClean(s: State, i: Ino, truncate: bool, ts: u64, a: Attempt)
    requires Inv(s) && HandlesStored(s)
    requires Step(WithDeltas, s, a) == Open(s, i, truncate, ts, a.conflict)
    ensures StepIsClean(s, a)
  {
    hide IsTree, DirLinks, LiveLogs, LiveDir, IsDir, WellTyped, FileLinks, Effective, FileType, Deferred, Step;
  }

  lemma LoadIsClean(s: State, i: Ino, a: Attempt)
    requires Inv(s) && HandlesStored(s) && Step(WithDeltas, s, a) == Load(s, i)
    ensures StepIsClean(s, a)
  {
    hide IsTree, DirLinks, LiveLogs, LiveDir, IsDir, WellTyped, FileLinks, Effective, FileType, Deferred, Step;
  }

  lemma CompactionIsClean(s: State, a: Attempt)
    requires Inv(s) && HandlesStored(s)
    requires a.op.DoCompact? || a.op.DoCompactDirty? || a.op.DoFlushAll?
    ensures StepIsClean(s, a)
  {
    hide IsTree, DirLinks, LiveLogs, LiveDir, IsDir, WellTyped, FileLinks, Effective, FileType, Deferred, CacheTyped;
  }

  lemma EveryStepIsClean(s: State, a: Attempt)
    requires Inv(s) && HandlesStored(s) && ProtocolAllowed(s, a)
    ensures StepIsClean(s, a)
  {
    hide Inv, HandlesStored, StepIsClean;
    match a.op {
      case DoCreate(k, mode, uid, gid, ts) => NewNodeIsClean(s, k, NewFile(s.mem.next, mode, uid, gid, ts), a);
      case DoCreateAndOpen(k, mode, uid, gid, ts) => CreateAndOpenIsClean(s, k, mode, uid, gid, ts, a);
      case DoMkdir(k, mode, uid, gid, ts) => NewNodeIsClean(s, k, NewDir(s.mem.next, mode, uid, gid, ts), a);
      case DoSymlink(k, link, uid, gid, ts) => NewNodeIsClean(s, k, NewSymlink(s.mem.next, link, uid, gid, ts), a);
      case DoUnlink(k, ts, parentTs) => UnlinkIsClean(s, k, ts, parentTs, a);
      case DoRmdir(k, ts) => RmdirIsClean(s, k, ts, a);
      case DoRename(k, k2, ts) => RenameIsClean(s, k, k2, ts, a);
      case DoLink(k, target, ts, parentTs) => LinkIsClean(s, k, target, ts, parentTs, a);
      case DoSetAttr(_, _, _) => PutIsClean(s, a);
      case DoReportWrite(_, _, _) => PutIsClean(s, a);
      case DoRelease(i) => ReleaseIsClean(s, i, a);
      case DoEvict(_) => PutIsClean(s, a);
      case DoLoad(i) => LoadIsClean(s, i, a);
      case DoOpen(i, truncate, ts) => OpenIsClean(s, i, truncate, ts, a);
      case DoCompact(_) => CompactionIsClean(s, a);
      case DoCompactDirty(_, _) => CompactionIsClean(s, a);
      case DoFlushAll(_) => CompactionIsClean(s, a);
    }
  }

  // ------------------------------------------------------------------ whole runs

  ghost predicate ProtocolRun(s: State, run: seq<Attempt>) {
    run == [] ||
    var front, last := run[..|run| - 1], run[|run| - 1];
    ProtocolRun(s, front) && ProtocolAllowed(Run(WithDeltas, s, front), last)
  }

  /** All purge reports of a run, in order. */
  function PurgeLog(s: State, run: seq<Attempt>): seq<Ino> {
    if run == [] then []
    else PurgeLog(s, run[..|run| - 1]) + Purges(Run(WithDeltas, s, run[..|run| - 1]), run[|run| - 1])
  }

  /** Reported inodes are gone for good, and none is reported twice. */
  ghost predicate PurgesAreFinal(log: seq<Ino>, s: State) {
    && (forall i :: i in log ==> i < s.mem.next && i !in s.store.inodes)
    && (forall x, y :: 0 <= x < y < |log| ==> log[x] != log[y])
  }

  lemma PurgesStayFinal(log: seq<Ino>, s: State, a: Attempt)
    requires PurgesAreFinal(log, s) && Fresh(s.store.inodes, s.mem) && StepIsClean(s, a)
    ensures PurgesAreFinal(log + Purges(s, a), Step(WithDeltas, s, a).state)
  {
    hide Step, Purges, IsDir;
    var p := Purges(s, a);
    if |p| == 1 {
      assert p[0] in p && Vanishes(s, a, p[0]);
    }
    var all := log + p;
    forall i | i in all
      ensures i < Step(WithDeltas, s, a).state.mem.next && i !in Step(WithDeltas, s, a).state.store.inodes
    {
      if i in p {
        assert Vanishes(s, a, i);
      }
    }
  }

  /**
   Over every run: inodes with open handles are stored, pending deletes are exactly the stored
   files without links (part of `Inv`), and every inode is purged at most once.
   */
  lemma {:induction false} ProtocolSafety(s: State, run: seq<Attempt>)
    requires Inv(s) && HandlesStored(s) && ProtocolRun(s, run)
    ensures var s' := Run(WithDeltas, s, run);
            Inv(s') && HandlesStored(s') && PurgesAreFinal(PurgeLog(s, run), s')
  {
    hide Inv, HandlesStored, Step, Allowed, PurgesAreFinal, Purges, StepIsClean;
    if run == [] {
      NothingPurged(s);
    } else {
      var front, last := run[..|run| - 1], run[|run| - 1];
      ProtocolSafety(s, front);
      var m := Run(WithDeltas, s, front);
      StepKeepsInv(m, last);
      EveryStepIsClean(m, last);
      CleanStepHandles(m, last);
      InvFresh(m);
      PurgesStayFinal(PurgeLog(s, front), m, last);
    }
  }

  lemma NothingPurged(s: State)
    ensures PurgesAreFinal([], s)
  {
  }

  lemma CleanStepHandles(s: State, a: Attempt)
    requires StepIsClean(s, a)
    ensures HandlesStored(Step(WithDeltas, s, a).state)
  {
  }

  lemma InvFresh(s: State)
    requires Inv(s)
    ensures Fresh(s.store.inodes, s.mem)
  {
  }

  /** A file is reported purged exactly when it stops being stored; then it has no name and no handle left. */
  lemma PurgedIffGone(s: State, a: Attempt, i: Ino)
    requires Inv(s) && HandlesStored(s) && ProtocolAllowed(s, a)
    ensures i in Purges(s, a) <==> Vanishes(s, a, i)
    ensures i in Purges(s, a) ==>
              var s' := Step(WithDeltas, s, a).state;
              i !in s'.mem.handles && i !in s'.mem.pending && |Names(s'.store.entries, i)| == 0
  {
    hide Step, IsTree, DirLinks, LiveLogs, FileLinks, CacheTyped;
    EveryStepIsClean(s, a);
    StepKeepsInv(s, a);
    var s' := Step(WithDeltas, s, a).state;
    if i in Purges(s, a) {
      NoNames(s'.store.entries, i);
    }
  }

  // ------------------------------------------------------------------ where the protocol needs its caller

  /** Renaming over a file keeps open files stored exactly when it does not take an open file's last link. */
  lemma RenameKeepsHandlesIff(s: State, k: DirKey, k2: DirKey, ts: u64)
    requires Inv(s) && HandlesStored(s) && RenameRefusal(s.store, k, k2).None?
    ensures HandlesStored(Rename(WithDeltas, s, k, k2, ts, false).state) <==>
            !(RenameKills(s.store, k2) && s.store.entries[k2].ino in s.mem.handles
              && s.store.entries[k2].ino != s.store.entries[k].ino)
  {
    hide IsTree, DirLinks, LiveLogs, LiveDir, CacheTyped, LogAll, CacheAll, WellTyped, FileLinks, RenameLogsOf,
      Deferred;
    LogKeepsInodes(RenameStore(s.store, k, k2, ts), s.mem.seqs, RenameLogsOf(s.store, k, k2, ts));
  }

  /** A rename that puts a singly linked file over itself reports it purged although it is still there. */
  lemma RenameOntoItselfPurgesIff(s: State, k: DirKey, ts: u64)
    requires Inv(s) && k in s.store.entries && !IsDir(s.store.entries[k].mode) && |k.name| <= NAME_MAX
    ensures var a := Attempt(DoRename(k, k, ts), false); var i := s.store.entries[k].ino;
            && i in Step(WithDeltas, s, a).state.store.inodes
            && (i in Purges(s, a) <==> s.store.inodes[i].nlink == 1)
  {
    hide IsTree, DirLinks, LiveLogs, LiveDir, CacheTyped, LogAll, CacheAll, WellTyped, FileLinks, RenameLogsOf,
      Deferred;
    NamedFile(s.store.inodes, s.store.entries, k);
    EntryTypes(s.store.inodes, s.store.entries, k);
    LogKeepsInodes(RenameStore(s.store, k, k, ts), s.mem.seqs, RenameLogsOf(s.store, k, k, ts));
  }

  /** Linking keeps the pending set exact if and only if the target still has a link. */
  lemma LinkKeepsDeferredIff(s: State, k: DirKey, target: Ino, ts: u64, parentTs: u64)
    requires Inv(s) && Link(WithDeltas, s, k, target, ts, parentTs, false).reply.Success?
    requires |Names(s.store.entries, target)| + 1 < TWO32
    ensures var s' := Link(WithDeltas, s, k, target, ts, parentTs, false).state;
            Deferred(s'.store.inodes, s'.mem) <==> s.store.inodes[target].nlink > 0
  {
    hide IsTree, DirLinks, LiveLogs, LiveDir, CacheTyped, LogAll, CacheAll, WellTyped, Names;
    LogKeepsInodes(LinkStore(s.store, k, target, ts), s.mem.seqs, [LogItem(k.parent, Stamps(parentTs))]);
  }

  /** Linking an unlinked open file and then closing it leaves an entry that names nothing. */
  lemma LinkToDeadFileDangles(s: State, k: DirKey, target: Ino, ts: u64, parentTs: u64)
    requires Inv(s) && Link(WithDeltas, s, k, target, ts, parentTs, false).reply.Success?
    requires target in s.mem.pending && s.mem.handles[target] == 1
    ensures var s1 := Link(WithDeltas, s, k, target, ts, parentTs, false).state;
            var o := Release(s1, target, false);
            && o.reply == Success(Purged([target]))
            && k in o.state.store.entries && o.state.store.entries[k].ino == target
            && target !in o.state.store.inodes
  {
    hide IsTree, DirLinks, LiveLogs, LiveDir, CacheTyped, LogAll, CacheAll, WellTyped, Names;
    LogAllDeltas(Txn(LinkStore(s.store, k, target, ts), s.mem.seqs), [LogItem(k.parent, Stamps(parentTs))]);
  }

  /** A last release keeps the pending set exact unless its deletion is refused. */
  lemma ReleaseKeepsDeferredIff(s: State, i: Ino, conflict: bool)
    requires Inv(s)
    ensures var s' := Release(s, i, conflict).state;
            Deferred(s'.store.inodes, s'.mem) <==>
            !(conflict && i in s.mem.pending && s.mem.handles[i] == 1)
  {
    hide IsTree, DirLinks, LiveLogs, LiveDir, CacheTyped, WellTyped, Names, IsDir;
  }

  /**
   A restart closes every handle and forgets which files were waiting for it: the pending deletes stay
   exact if and only if there were none. The files that were waiting are never deleted.
   */
  lemma RestartKeepsDeferredIff(s: State)
    requires Inv(s)
    ensures var r := Restart(s);
            && r.store == s.store && (forall i: Ino :: HandleCount(r.mem, i) == 0)
            && (Deferred(r.store.inodes, r.mem) <==> s.mem.pending == {})
            && (forall i :: i in s.mem.pending ==>
                  i in r.store.inodes && Release(r, i, false).reply == Success(Purged([])) &&
                  Release(r, i, false).state == r)
  {
    hide IsTree, DirLinks, LiveLogs, LiveDir, CacheTyped, WellTyped, FileLinks, IsDir, Recovered;
    if s.mem.pending != {} {
      var i :| i in s.mem.pending;
      assert i in s.store.inodes && !IsDir(s.store.inodes[i].mode) && s.store.inodes[i].nlink == 0;
    } else {
      forall i | i in s.store.inodes ensures IsDir(s.store.inodes[i].mode) || s.store.inodes[i].nlink != 0 {
        assert i !in s.mem.pending;
      }
    }
  }
}
