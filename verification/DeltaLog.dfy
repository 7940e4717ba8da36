/**
 The delta log over time: which delta rows an attempt adds and removes, why a new delta always
 sorts after the live ones, why no inode with deltas is forgotten by the compactor, and how late
 the logged timestamps can be.
 */
module DeltaLog {
  import opened Types
  import opened Wrappers
  import opened DeltaFold
  import opened Server
  import opened Logging

  /**
   What an attempt does to the delta rows: the operations it numbers, whether it committed them, the
   inodes whose deltas it cleared or compacted away, and the inodes it took off the dirty set.
   */
  datatype Footprint = Footprint(
    logs: seq<LogItem>, committed: bool, cleared: set<Ino>, compacted: set<Ino>, forgotten: set<Ino>)

  function Untouched(): Footprint {
    Footprint([], true, {}, {}, {})
  }

  function DeltasAfter(s: State, fp: Footprint, i: Ino): seq<Delta> {
    if i in fp.cleared || i in fp.compacted then []
    else if fp.committed then DeltasOf(s.store, i) + Numbered(NextSeq(s.mem.seqs, i), OpsFor(fp.logs, i))
    else DeltasOf(s.store, i)
  }

  function SeqAfter(s: State, fp: Footprint, i: Ino): nat {
    if i in fp.cleared then 0 else NextSeq(s.mem.seqs, i) + |OpsFor(fp.logs, i)|
  }

  ghost predicate Leaves(s: State, s': State, fp: Footprint) {
    && (forall i: Ino :: DeltasOf(s'.store, i) == DeltasAfter(s, fp, i))
    && (forall i: Ino :: NextSeq(s'.mem.seqs, i) == SeqAfter(s, fp, i))
    && s'.mem.dirty == (s.mem.dirty - fp.forgotten) + (if fp.committed then Touched(fp.logs) else {})
  }

  // ------------------------------------------------------------------ footprints

  lemma UntouchedLeaves(s: State, s': State)
    requires s'.store.deltas == s.store.deltas && s'.mem.seqs == s.mem.seqs && s'.mem.dirty == s.mem.dirty
    ensures Leaves(s, s', Untouched())
  {
    forall i: Ino ensures DeltasOf(s'.store, i) == DeltasAfter(s, Untouched(), i) {
      assert DeltasOf(s.store, i) + Numbered(NextSeq(s.mem.seqs, i), []) == DeltasOf(s.store, i);
    }
  }

  /** An attempt whose commit was refused has spent its sequence numbers and written nothing. */
  lemma BurnedLeaves(s: State, logs: seq<LogItem>, next: Ino)
    ensures Leaves(s, Burned(WithDeltas, s, logs, next), Footprint(logs, false, {}, {}, {}))
  {
    LogAllDeltas(Txn(s.store, s.mem.seqs), logs);
  }

  /** A commit that logs changes and may clear the deltas of one inode. */
  lemma CommitLeaves(s: State, st: Store, logs: seq<LogItem>, gone: set<Ino>, s': State)
    requires st.deltas == s.store.deltas
    requires var t := LogAll(WithDeltas, Txn(st, s.mem.seqs), logs);
             && s'.store.deltas == t.store.deltas - gone
             && (forall i: Ino :: NextSeq(s'.mem.seqs, i) == if i in gone then 0 else NextSeq(t.seqs, i))
    requires s'.mem.dirty == s.mem.dirty + Touched(logs)
    ensures Leaves(s, s', Footprint(logs, true, gone, {}, {}))
  {
    LogAllDeltas(Txn(st, s.mem.seqs), logs);
    assert forall i: Ino :: DeltasOf(st, i) == DeltasOf(s.store, i);
  }

  lemma AddNodeLeaves(s: State, k: DirKey, n: NewNode, conflict: bool) returns (fp: Footprint)
    ensures Leaves(s, AddNode(WithDeltas, s, k, n, conflict).state, fp)
    ensures fp.compacted == fp.forgotten == {} == fp.cleared
    ensures fp.logs == [] || fp.logs == NewLogs(k, n)
  {
    hide Leaves, LogAll, CacheAll;
    var o := AddNode(WithDeltas, s, k, n, conflict);
    if |k.name| > NAME_MAX || k in s.store.entries {
      fp := Untouched();
      UntouchedLeaves(s, o.state);
    } else if conflict {
      fp := Footprint(NewLogs(k, n), false, {}, {}, {});
      BurnedLeaves(s, NewLogs(k, n), NextIno(s.mem.next));
    } else {
      fp := Footprint(NewLogs(k, n), true, {}, {}, {});
      CommitLeaves(s, NodeStore(s.store, s.mem.next, k, n), NewLogs(k, n), {}, o.state);
    }
  }

  lemma UnlinkLeaves(s: State, k: DirKey, ts: u64, parentTs: u64, conflict: bool) returns (fp: Footprint)
    ensures Leaves(s, Unlink(WithDeltas, s, k, ts, parentTs, conflict).state, fp)
    ensures fp.compacted == fp.forgotten == {}
    ensures forall i :: i in fp.cleared ==>
            Unlink(WithDeltas, s, k, ts, parentTs, conflict).reply == Success(Purged([i]))
    ensures fp.logs == [] || fp.logs == [LogItem(k.parent, Stamps(parentTs))]
  {
    hide Leaves, LogAll, CacheAll;
    var st := s.store;
    var o := Unlink(WithDeltas, s, k, ts, parentTs, conflict);
    var logs := [LogItem(k.parent, Stamps(parentTs))];
    if |k.name| > NAME_MAX || k !in st.entries || IsDir(st.entries[k].mode) || st.entries[k].ino !in st.inodes {
      fp := Untouched();
      UntouchedLeaves(s, o.state);
    } else if conflict {
      fp := Footprint(logs, false, {}, {}, {});
      BurnedLeaves(s, logs, s.mem.next);
    } else {
      var i := st.entries[k].ino;
      var dying := OneLinkLess(st.inodes[i], ts).nlink == 0 && HandleCount(s.mem, i) == 0;
      var gone := if dying then {i} else {};
      fp := Footprint(logs, true, gone, {}, {});
      CommitLeaves(s, UnlinkStore(st, k, dying, ts), logs, gone, o.state);
    }
  }

  lemma RmdirLeaves(s: State, k: DirKey, ts: u64, conflict: bool) returns (fp: Footprint)
    ensures Leaves(s, Rmdir(WithDeltas, s, k, ts, conflict).state, fp)
    ensures fp.compacted == fp.forgotten == {}
    ensures forall i :: i in fp.cleared ==>
              Rmdir(WithDeltas, s, k, ts, conflict).reply.Success? && k in s.store.entries &&
                s.store.entries[k].ino == i
    ensures fp.logs == [] || fp.logs == RmdirLogs(k, ts)
  {
    hide Leaves, LogAll, CacheAll, DirEmpty;
    var o := Rmdir(WithDeltas, s, k, ts, conflict);
    if o.reply.Success? {
      var gone := {s.store.entries[k].ino};
      fp := Footprint(RmdirLogs(k, ts), true, gone, {}, {});
      CommitLeaves(s, RmdirStore(s.store, k), RmdirLogs(k, ts), gone, o.state);
    } else if o.reply.error == TransactionConflict {
      fp := Footprint(RmdirLogs(k, ts), false, {}, {}, {});
      BurnedLeaves(s, RmdirLogs(k, ts), s.mem.next);
    } else {
      fp := Untouched();
      UntouchedLeaves(s, o.state);
    }
  }

  lemma RenameLeaves(s: State, k: DirKey, k2: DirKey, ts: u64, conflict: bool) returns (fp: Footprint)
    ensures Leaves(s, Rename(WithDeltas, s, k, k2, ts, conflict).state, fp)
    ensures fp.compacted == fp.forgotten == {}
    ensures forall i :: i in fp.cleared ==>
              Rename(WithDeltas, s, k, k2, ts, conflict).reply.Success? && k2 in s.store.entries &&
                s.store.entries[k2].ino == i
    ensures fp.logs == [] || (RenameRefusal(s.store, k, k2).None? && fp.logs == RenameLogsOf(s.store, k, k2, ts))
  {
    hide Leaves, LogAll, CacheAll, RenameRefusal, RenameLogsOf, RenameInodes;
    var st := s.store;
    var o := Rename(WithDeltas, s, k, k2, ts, conflict);
    if RenameRefusal(st, k, k2).Some? {
      fp := Untouched();
      UntouchedLeaves(s, o.state);
    } else if conflict {
      fp := Footprint(RenameLogsOf(st, k, k2, ts), false, {}, {}, {});
      BurnedLeaves(s, RenameLogsOf(st, k, k2, ts), s.mem.next);
    } else {
      var gone := if k2 in st.entries then {st.entries[k2].ino} else {};
      fp := Footprint(RenameLogsOf(st, k, k2, ts), true, gone, {}, {});
      CommitLeaves(s, RenameStore(st, k, k2, ts), RenameLogsOf(st, k, k2, ts), gone, o.state);
    }
  }

  lemma LinkLeaves(s: State, k: DirKey, target: Ino, ts: u64, parentTs: u64, conflict: bool) returns (fp: Footprint)
    ensures Leaves(s, Link(WithDeltas, s, k, target, ts, parentTs, conflict).state, fp)
    ensures fp.compacted == fp.forgotten == {} == fp.cleared
    ensures fp.logs == [] || fp.logs == [LogItem(k.parent, Stamps(parentTs))]
  {
    hide Leaves, LogAll, CacheAll;
    var o := Link(WithDeltas, s, k, target, ts, parentTs, conflict);
    var logs := [LogItem(k.parent, Stamps(parentTs))];
    if o.reply.Success? {
      fp := Footprint(logs, true, {}, {}, {});
      CommitLeaves(s, LinkStore(s.store, k, target, ts), logs, {}, o.state);
    } else if o.reply.error == TransactionConflict {
      fp := Footprint(logs, false, {}, {}, {});
      BurnedLeaves(s, logs, s.mem.next);
    } else {
      fp := Untouched();
      UntouchedLeaves(s, o.state);
    }
  }

  lemma ReleaseLeaves(s: State, i: Ino, conflict: bool) returns (fp: Footprint)
    ensures Leaves(s, Release(s, i, conflict).state, fp)
    ensures fp.compacted == fp.forgotten == {} && fp.logs == []
    ensures forall j :: j in fp.cleared ==> Release(s, i, conflict).reply == Success(Purged([j]))
  {
    hide Leaves;
    var o := Release(s, i, conflict);
    if o.reply == Success(Purged([i])) {
      fp := Footprint([], true, {i}, {}, {});
      CommitLeaves(s, s.store, [], {i}, o.state);
    } else {
      fp := Untouched();
      UntouchedLeaves(s, o.state);
    }
  }

  lemma CompactLeaves(s: State, chosen: set<Ino>, forgotten: set<Ino>, s': State)
    requires chosen <= s.store.inodes.Keys
    requires s'.store == CompactAll(s, chosen).store && s'.mem.seqs == s.mem.seqs
    requires s'.mem.dirty == s.mem.dirty - forgotten
    ensures Leaves(s, s', Footprint([], true, {}, chosen, forgotten))
  {
    forall i: Ino ensures DeltasOf(s'.store, i) == DeltasAfter(s, Footprint([], true, {}, chosen, forgotten), i) {
      assert DeltasOf(s.store, i) + Numbered(NextSeq(s.mem.seqs, i), []) == DeltasOf(s.store, i);
    }
  }

  /** The latest time with which an attempt stamps the directories it changes. */
  function StampOf(op: Op): u64 {
    match op
    case DoCreate(_, _, _, _, ts) => ts
    case DoCreateAndOpen(_, _, _, _, ts) => ts
    case DoMkdir(_, _, _, _, ts) => ts
    case DoSymlink(_, _, _, _, ts) => ts
    case DoUnlink(_, _, parentTs) => parentTs
    case DoRmdir(_, ts) => ts
    case DoRename(_, _, ts) => ts
    case DoLink(_, _, _, parentTs) => parentTs
    case _ => 0
  }

  /** No operation logs an access time, and none logs a time after `now`. */
  predicate OpsBefore(ops: seq<DeltaOp>, now: u64) {
    forall j :: 0 <= j < |ops| ==> !ops[j].SetAtime? && (ops[j].SetMtime? || ops[j].SetCtime? ==> ops[j].time <= now)
  }

  predicate LogsBefore(logs: seq<LogItem>, now: u64) {
    forall j :: 0 <= j < |logs| ==> OpsBefore(logs[j].ops, now)
  }

  /** The inodes whose deltas an attempt folds into their bases. */
  function Compacts(s: State, a: Attempt): set<Ino> {
    match a.op
    case DoCompact(i) => Compactable(s, {i}, if a.conflict then {i} else {})
    case DoCompactDirty(threshold, blocked) => DueForCompaction(s, threshold, blocked)
    case DoFlushAll(blocked) => Compactable(s, s.mem.dirty, blocked)
    case _ => {}
  }

  /** The inodes whose deltas a committed attempt clears: deleted files and directories, and what a rename replaces. */
  ghost predicate Clears(s: State, a: Attempt, i: Ino) {
    var o := Step(WithDeltas, s, a);
    match a.op
    case DoUnlink(_, _, _) => o.reply == Success(Purged([i]))
    case DoRelease(_) => o.reply == Success(Purged([i]))
    case DoRmdir(k, _) => o.reply.Success? && k in s.store.entries && s.store.entries[k].ino == i
    case DoRename(k, k2, _) => o.reply.Success? && k2 in s.store.entries && s.store.entries[k2].ino == i
    case _ => false
  }

  /** Every attempt leaves a footprint of this form, and only `flush_all` forgets more than it compacts. */
  lemma StepLeaves(s: State, a: Attempt) returns (fp: Footprint)
    ensures Leaves(s, Step(WithDeltas, s, a).state, fp)
    ensures LogsBefore(fp.logs, StampOf(a.op))
    ensures fp.forgotten <= fp.compacted || a.op.DoFlushAll?
    ensures fp.compacted == Compacts(s, a) && (forall i :: i in fp.cleared ==> Clears(s, a, i))
    ensures fp.compacted != {} || fp.forgotten != {} ==> a.op.DoCompact? || a.op.DoCompactDirty? || a.op.DoFlushAll?
  {
    hide Leaves, AddNode, Unlink, Rmdir, Rename, Link, SetAttr, ReportWrite, Load, Open, Release, CompactAll, OpsBefore;
    match a.op {
      case DoCreate(k, mode, uid, gid, ts) =>
        fp := AddNodeLeaves(s, k, NewFile(s.mem.next, mode, uid, gid, ts), a.conflict);
        NewLogsBefore(k, NewFile(s.mem.next, mode, uid, gid, ts));
      case DoCreateAndOpen(k, mode, uid, gid, ts) =>
        fp := AddNodeLeaves(s, k, NewFile(s.mem.next, mode, uid, gid, ts), a.conflict);
        NewLogsBefore(k, NewFile(s.mem.next, mode, uid, gid, ts));
        LeavesIgnoresHandles(s, Create(WithDeltas, s, k, mode, uid, gid, ts, a.conflict).state,
                             Step(WithDeltas, s, a).state, fp);
      case DoMkdir(k, mode, uid, gid, ts) =>
        fp := AddNodeLeaves(s, k, NewDir(s.mem.next, mode, uid, gid, ts), a.conflict);
        NewLogsBefore(k, NewDir(s.mem.next, mode, uid, gid, ts));
      case DoSymlink(k, link, uid, gid, ts) =>
        fp := AddNodeLeaves(s, k, NewSymlink(s.mem.next, link, uid, gid, ts), a.conflict);
        NewLogsBefore(k, NewSymlink(s.mem.next, link, uid, gid, ts));
      case DoUnlink(k, ts, parentTs) =>
        fp := UnlinkLeaves(s, k, ts, parentTs, a.conflict);
        StampsBefore(parentTs);
      case DoRmdir(k, ts) =>
        fp := RmdirLeaves(s, k, ts, a.conflict);
        StampsBefore(ts);
      case DoRename(k, k2, ts) =>
        fp := RenameLeaves(s, k, k2, ts, a.conflict);
        RenameLogsBefore(k.parent, k2.parent, ts);
      case DoLink(k, target, ts, parentTs) =>
        fp := LinkLeaves(s, k, target, ts, parentTs, a.conflict);
        StampsBefore(parentTs);
      case DoRelease(i) => fp := ReleaseLeaves(s, i, a.conflict);
      case DoCompact(i) =>
        var chosen := Compactable(s, {i}, if a.conflict then {i} else {});
        fp := Footprint([], true, {}, chosen, {});
        CompactMemory(s, chosen);
        CompactLeaves(s, chosen, {}, Step(WithDeltas, s, a).state);
      case DoCompactDirty(threshold, blocked) =>
        var due := DueForCompaction(s, threshold, blocked);
        fp := Footprint([], true, {}, due, due);
        CompactMemory(s, due);
        CompactLeaves(s, due, due, Step(WithDeltas, s, a).state);
      case DoFlushAll(blocked) =>
        var chosen := Compactable(s, s.mem.dirty, blocked);
        fp := Footprint([], true, {}, chosen, s.mem.dirty);
        CompactMemory(s, chosen);
        CompactLeaves(s, chosen, s.mem.dirty, Step(WithDeltas, s, a).state);
      case _ =>
        fp := Untouched();
        QuietStep(s, a);
        UntouchedLeaves(s, Step(WithDeltas, s, a).state);
    }
  }

  lemma QuietStep(s: State, a: Attempt)
    requires a.op.DoSetAttr? || a.op.DoReportWrite? || a.op.DoLoad? || a.op.DoOpen? || a.op.DoEvict?
    ensures var s' := Step(WithDeltas, s, a).state;
            s'.store.deltas == s.store.deltas && s'.mem.seqs == s.mem.seqs && s'.mem.dirty == s.mem.dirty
  {
    hide Effective, AddNode, CreateAndOpen, Unlink, Rmdir, Rename, Link, Release, Compact, CompactDirty, FlushAll,
      WithAttrs;
  }

  lemma LeavesIgnoresHandles(s: State, s1: State, s2: State, fp: Footprint)
    requires Leaves(s, s1, fp) && s2.store == s1.store && s2.mem.seqs == s1.mem.seqs && s2.mem.dirty == s1.mem.dirty
    ensures Leaves(s, s2, fp)
  {
  }

  lemma CompactMemory(s: State, chosen: set<Ino>)
    requires chosen <= s.store.inodes.Keys
    ensures var m := CompactAll(s, chosen).mem; m.seqs == s.mem.seqs && m.dirty == s.mem.dirty
  {
  }

  lemma StampsBefore(ts: u64)
    ensures OpsBefore(Stamps(ts), ts) && OpsBefore([IncrementNlink(-1)] + Stamps(ts), ts) &&
            OpsBefore([IncrementNlink(-1)], ts)
    ensures OpsBefore([IncrementNlink(1)] + Stamps(ts), ts) && OpsBefore([IncrementNlink(1)], ts)
  {
  }

  lemma NewLogsBefore(k: DirKey, n: NewNode)
    requires n.links == [] || n.links == [IncrementNlink(1)]
    ensures LogsBefore(NewLogs(k, n), n.value.mtime)
  {
    StampsBefore(n.value.mtime);
    assert [] + Stamps(n.value.mtime) == Stamps(n.value.mtime);
  }

  lemma RenameLogsBefore(p: Ino, np: Ino, ts: u64)
    ensures forall srcDir: bool, dstDir: bool :: LogsBefore(RenameLogs(p, np, srcDir, dstDir, ts), ts)
  {
    hide OpsBefore;
    StampsBefore(ts);
  }

  lemma {:induction false} OpsForBefore(logs: seq<LogItem>, i: Ino, now: u64)
    requires LogsBefore(logs, now)
    ensures OpsBefore(OpsFor(logs, i), now)
  {
    if logs != [] {
      OpsForBefore(logs[..|logs| - 1], i, now);
    }
  }

  // ------------------------------------------------------------------ sequence numbers

  /** Delta rows in key order: the sequence numbers of one inode's rows ascend. */
  predicate Ascending(ds: seq<Delta>) {
    forall j, l :: 0 <= j < l < |ds| ==> ds[j].num < ds[l].num
  }

  predicate Below(ds: seq<Delta>, n: nat) {
    forall j :: 0 <= j < |ds| ==> ds[j].num < n
  }

  /** The rows of every inode are in key order, and the next number to be drawn is above all of them. */
  ghost predicate SeqSafe(st: Store, seqs: map<Ino, nat>) {
    forall i: Ino :: Ascending(DeltasOf(st, i)) && Below(DeltasOf(st, i), NextSeq(seqs, i))
  }

  lemma AppendAscending(ds: seq<Delta>, n: nat, ops: seq<DeltaOp>)
    requires Ascending(ds) && Below(ds, n)
    ensures Ascending(ds + Numbered(n, ops)) && Below(ds + Numbered(n, ops), n + |ops|)
  {
  }

  lemma SeqSafeInode(s: State, fp: Footprint, i: Ino)
    requires Ascending(DeltasOf(s.store, i)) && Below(DeltasOf(s.store, i), NextSeq(s.mem.seqs, i))
    ensures Ascending(DeltasAfter(s, fp, i)) && Below(DeltasAfter(s, fp, i), SeqAfter(s, fp, i))
  {
    hide OpsFor;
    AppendAscending(DeltasOf(s.store, i), NextSeq(s.mem.seqs, i), OpsFor(fp.logs, i));
  }

  /** Every attempt, refused or committed, keeps it. */
  lemma StepSeqSafe(s: State, a: Attempt)
    requires SeqSafe(s.store, s.mem.seqs)
    ensures var s' := Step(WithDeltas, s, a).state; SeqSafe(s'.store, s'.mem.seqs)
  {
    hide Step, DeltasAfter, SeqAfter, Ascending, Below;
    var fp := StepLeaves(s, a);
    forall i: Ino ensures Ascending(DeltasAfter(s, fp, i)) && Below(DeltasAfter(s, fp, i), SeqAfter(s, fp, i)) {
      SeqSafeInode(s, fp, i);
    }
  }

  lemma {:induction false} LargestIsLargest(ds: seq<Delta>)
    ensures Below(ds, LargestNum(ds) + 1)
    ensures ds != [] ==> exists j :: 0 <= j < |ds| && ds[j].num == LargestNum(ds)
  {
    if ds != [] {
      var front := ds[..|ds| - 1];
      LargestIsLargest(front);
      if LargestNum(ds) == ds[|ds| - 1].num {
        assert ds[|ds| - 1].num == LargestNum(ds);
      } else {
        var j :| 0 <= j < |front| && front[j].num == LargestNum(front);
        assert ds[j].num == LargestNum(ds);
      }
    }
  }

  /** So does a restart, although all counters are lost. */
  lemma RestartSeqSafe(s: State)
    requires SeqSafe(s.store, s.mem.seqs)
    ensures SeqSafe(Restart(s).store, Restart(s).mem.seqs)
  {
    hide LargestNum, Ascending, Below;
    forall i: Ino
      ensures Ascending(DeltasOf(s.store, i)) && Below(DeltasOf(s.store, i), NextSeq(Recovered(s.store), i))
    {
      assert Ascending(DeltasOf(s.store, i));
      LargestIsLargest(DeltasOf(s.store, i));
      NoneBelow(NextSeq(Recovered(s.store), i));
    }
  }

  lemma NoneBelow(n: nat)
    ensures Below([], n)
  {
  }

  /** Attempts and restarts, in any order. */
  datatype Event = Tried(attempt: Attempt) | Restarted

  function After(s: State, e: Event): State {
    match e
    case Tried(a) => Step(WithDeltas, s, a).state
    case Restarted => Restart(s)
  }

  function History(s: State, es: seq<Event>): State {
    if es == [] then s else After(History(s, es[..|es| - 1]), es[|es| - 1])
  }

  /** Over every history from a formatted store: the number drawn next is above every live row's. */
  lemma {:induction false} NextSeqIsFresh(uid: u32, gid: u32, ts: u64, es: seq<Event>)
    ensures var s := History(Formatted(uid, gid, ts), es); SeqSafe(s.store, s.mem.seqs)
  {
    hide Step, Restart;
    if es != [] {
      NextSeqIsFresh(uid, gid, ts, es[..|es| - 1]);
      var s := History(Formatted(uid, gid, ts), es[..|es| - 1]);
      match es[|es| - 1] {
        case Tried(a) => StepSeqSafe(s, a);
        case Restarted => RestartSeqSafe(s);
      }
    }
  }

  // ------------------------------------------------------------------ dirty coverage

  /** Every inode with deltas is known to the compactor. */
  ghost predicate Covered(s: State) {
    forall i: Ino :: DeltasOf(s.store, i) != [] ==> i in s.mem.dirty
  }

  /** Coverage survives a step exactly when no inode is forgotten with deltas left. */
  lemma CoveredIff(s: State, s': State, fp: Footprint)
    requires Covered(s) && Leaves(s, s', fp)
    ensures Covered(s') <==>
            forall i: Ino :: DeltasAfter(s, fp, i) != [] && i in fp.forgotten ==> fp.committed && i in Touched(fp.logs)
  {
    hide OpsFor;
    forall i: Ino | DeltasAfter(s, fp, i) != [] && i !in fp.forgotten ensures i in s'.mem.dirty {
      if DeltasOf(s.store, i) == [] && i !in Touched(fp.logs) {
        OpsForUntouched(fp.logs, i);
      }
    }
    if Covered(s') {
      forall i: Ino | DeltasAfter(s, fp, i) != [] && i in fp.forgotten ensures fp.committed && i in Touched(fp.logs) {
        assert DeltasOf(s'.store, i) != [];
      }
    }
  }

  /** Every attempt but `flush_all` keeps every inode with deltas dirty. */
  lemma StepCovered(s: State, a: Attempt)
    requires Covered(s) && !a.op.DoFlushAll?
    ensures Covered(Step(WithDeltas, s, a).state)
  {
    hide Step, Covered, Leaves;
    var fp := StepLeaves(s, a);
    CoveredIff(s, Step(WithDeltas, s, a).state, fp);
  }

  /** `flush_all` keeps coverage exactly when it can compact every dirty inode that has deltas. */
  lemma FlushCoveredIff(s: State, blocked: set<Ino>)
    requires Covered(s)
    ensures Covered(FlushAll(s, blocked).state) <==>
            forall i: Ino :: DeltasOf(s.store, i) != [] ==> i in s.store.inodes && i !in blocked
  {
    var s' := FlushAll(s, blocked).state;
    var folded := Compactable(s, s.mem.dirty, blocked);
    assert forall i: Ino :: DeltasOf(s'.store, i) == if i in folded then [] else DeltasOf(s.store, i);
    if Covered(s') {
      forall i: Ino | DeltasOf(s.store, i) != [] ensures i in s.store.inodes && i !in blocked {
        assert DeltasOf(s'.store, i) == [];
      }
    }
  }

  /** A refused commit in `flush_all` loses track of the inode. */
  lemma FlushForgetsRefused(s: State, i: Ino)
    requires Covered(s) && DeltasOf(s.store, i) != []
    ensures !Covered(FlushAll(s, {i}).state)
  {
    FlushCoveredIff(s, {i});
  }

  /** After a round in which no commit is refused, no stored inode has `threshold` or more deltas. */
  lemma RoundBoundsDeltas(s: State, threshold: nat, i: Ino)
    requires Covered(s) && i in s.store.inodes
    ensures var s' := CompactDirty(s, threshold, {}).state;
            && Covered(s')
            && |DeltasOf(s'.store, i)| < Max(1, threshold)
  {
    StepCovered(s, Attempt(DoCompactDirty(threshold, {}), false));
    var due := DueForCompaction(s, threshold, {});
    var s' := CompactDirty(s, threshold, {}).state;
    assert DeltasOf(s'.store, i) == if i in due then [] else DeltasOf(s.store, i);
  }

  predicate NoFlush(run: seq<Attempt>) {
    forall j :: 0 <= j < |run| ==> !run[j].op.DoFlushAll?
  }

  /** Within a lifetime that starts without deltas, every inode with deltas is dirty after every attempt. */
  lemma {:induction false} RunCovered(s: State, run: seq<Attempt>)
    requires NoFlush(run) && forall i: Ino :: DeltasOf(s.store, i) == []
    ensures Covered(Run(WithDeltas, s, run))
  {
    hide Step;
    if run != [] {
      RunCovered(s, run[..|run| - 1]);
      StepCovered(Run(WithDeltas, s, run[..|run| - 1]), run[|run| - 1]);
    }
  }

  /** A restart forgets the dirty set: coverage is kept exactly when no delta is stored. */
  lemma RestartCoveredIff(s: State)
    ensures Covered(Restart(s)) <==> forall i: Ino :: DeltasOf(s.store, i) == []
  {
    assert forall i: Ino :: DeltasOf(Restart(s).store, i) == DeltasOf(s.store, i);
    if Covered(Restart(s)) {
      forall i: Ino ensures DeltasOf(s.store, i) == [] {
        assert DeltasOf(Restart(s).store, i) == [];
      }
    }
  }

  // ------------------------------------------------------------------ clocks

  /** No pending delta carries a time after `now`. */
  ghost predicate StampedBefore(st: Store, now: u64) {
    forall i: Ino :: OpsBefore(Ops(DeltasOf(st, i)), now)
  }

  lemma {:induction false} LatestBefore(ops: seq<DeltaOp>, now: u64)
    requires OpsBefore(ops, now)
    ensures LatestMtime(ops) <= now && LatestCtime(ops) <= now && LatestAtime(ops) == 0
  {
    if ops != [] {
      LatestBefore(ops[..|ops| - 1], now);
    }
  }

  lemma DeltasAfterBefore(s: State, fp: Footprint, i: Ino, now: u64)
    requires OpsBefore(Ops(DeltasOf(s.store, i)), now) && LogsBefore(fp.logs, now)
    ensures OpsBefore(Ops(DeltasAfter(s, fp, i)), now)
  {
    hide OpsFor, LogsBefore;
    OpsForBefore(fp.logs, i, now);
    var added := Numbered(NextSeq(s.mem.seqs, i), OpsFor(fp.logs, i));
    OpsConcat(DeltasOf(s.store, i), added);
    OpsNumbered(NextSeq(s.mem.seqs, i), OpsFor(fp.logs, i));
  }

  /** Attempts that read a clock showing at most `now` log nothing later than `now`. */
  lemma StepStampedBefore(s: State, a: Attempt, now: u64)
    requires StampedBefore(s.store, now) && StampOf(a.op) <= now
    ensures StampedBefore(Step(WithDeltas, s, a).state.store, now)
  {
    hide Step, DeltasAfter, SeqAfter, OpsBefore;
    var fp := StepLeaves(s, a);
    LogsBeforeLater(fp.logs, StampOf(a.op), now);
    forall i: Ino ensures OpsBefore(Ops(DeltasAfter(s, fp, i)), now) {
      assert OpsBefore(Ops(DeltasOf(s.store, i)), now);
      DeltasAfterBefore(s, fp, i, now);
    }
  }

  lemma LogsBeforeLater(logs: seq<LogItem>, now: u64, later: u64)
    requires LogsBefore(logs, now) && now <= later
    ensures LogsBefore(logs, later)
  {
  }
}
