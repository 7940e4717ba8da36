/**
 Inode numbers (storage/src/allocator.rs): a counter in memory that is written out at multiples of
 64 and read back at the next start. Within one lifetime numbers are never given out twice; across a
 restart they are, unless the written counter has kept up.
 */
module Allocator {
  import opened Types
  import opened Wrappers
  import opened Codec
  import opened Server
  import opened Logging
  import opened Vfs

  const FIRST_ALLOC_INODE: u64 := 2
  const PERSIST_INTERVAL := 64

  class InodeAllocator {
    var next: u64

    constructor ()
      ensures next == FIRST_ALLOC_INODE
    {
      next := FIRST_ALLOC_INODE;
    }

    constructor Resume(n: u64)
      ensures next == n
    {
      next := n;
    }

    /** `alloc`: the counter before it is bumped. */
    method Alloc() returns (i: Ino)
      modifies this
      ensures i == old(next) && next == NextIno(old(next))
    {
      i := next;
      next := if next + 1 == TWO64 then 0 else next + 1;
    }

    /** `maybe_persist`: the stored row after the call. */
    method MaybePersist(stored: Option<Bytes>) returns (stored': Option<Bytes>)
      ensures next % PERSIST_INTERVAL == 0 ==> LoadCounter(stored') == Success(next)
      ensures next % PERSIST_INTERVAL != 0 ==> stored' == stored
    {
      stored' := stored;
      if next % PERSIST_INTERVAL == 0 {
        stored' := Some(BigEndian(next, 8));
        Word64(next);
      }
    }
  }

  /** `load`: resume from the stored row, or start afresh if there is none. */
  function LoadCounter(stored: Option<Bytes>): Result<u64, FsError> {
    if stored.None? then Success(FIRST_ALLOC_INODE)
    else if |stored.value| != 8 then Failure(InvalidInput)
    else Success(U64(stored.value))
  }

  /** The row and the typed counter of the server model agree on where a restart resumes. */
  lemma LoadIsRestart(s: State)
    ensures var row := if s.store.counter.Some? then Some(BigEndian(s.store.counter.value, 8)) else None;
            LoadCounter(row) == Success(Restart(s).mem.next)
  {
    if s.store.counter.Some? {
      Word64(s.store.counter.value);
    }
  }

  // ------------------------------------------------------------------ one lifetime

  function Allocations(next: u64, n: nat): (ids: seq<Ino>)
    requires next + n <= TWO64
    ensures |ids| == n
  {
    seq(n, j requires 0 <= j < n => next + j)
  }

  /** Any number of allocations yields consecutive, hence distinct, numbers. */
  method AllocMany(a: InodeAllocator, n: nat) returns (ids: seq<Ino>)
    requires a.next + n < TWO64
    modifies a
    ensures ids == Allocations(old(a.next), n) && a.next == old(a.next) + n
    ensures forall j, l :: 0 <= j < l < |ids| ==> ids[j] < ids[l]
  {
    ids := [];
    for j := 0 to n
      invariant |ids| == j && a.next == old(a.next) + j
      invariant forall l :: 0 <= l < j ==> ids[l] == old(a.next) + l
    {
      var i := a.Alloc();
      ids := ids + [i];
    }
  }

  // ------------------------------------------------------------------ the stored counter lags

  /** The written counter is a multiple of 64 that the allocator has reached. */
  ghost predicate CounterLags(s: State) {
    s.store.counter.Some? ==> s.store.counter.value <= s.mem.next && s.store.counter.value % PERSIST_INTERVAL == 0
  }

  lemma NodeCounter(s: State, k: DirKey, n: NewNode, conflict: bool)
    requires CounterLags(s) && s.mem.next + 1 < TWO64
    ensures CounterLags(AddNode(WithDeltas, s, k, n, conflict).state)
  {
    hide LogAll, CacheAll;
    LogAllDeltas(Txn(NodeStore(s.store, s.mem.next, k, n), s.mem.seqs), NewLogs(k, n));
  }

  lemma LogKeepsCounter(st: Store, seqs: map<Ino, nat>, logs: seq<LogItem>)
    ensures LogAll(WithDeltas, Txn(st, seqs), logs).store.counter == st.counter
  {
    LogAllDeltas(Txn(st, seqs), logs);
  }

  lemma UnlinkKeepsCounter(s: State, k: DirKey, ts: u64, parentTs: u64, conflict: bool)
    ensures Unlink(WithDeltas, s, k, ts, parentTs, conflict).state.store.counter == s.store.counter
  {
    hide LogAll, CacheAll, Touched;
    var st := s.store;
    if k in st.entries && st.entries[k].ino in st.inodes {
      var i := st.entries[k].ino;
      var dying := OneLinkLess(st.inodes[i], ts).nlink == 0 && HandleCount(s.mem, i) == 0;
      LogKeepsCounter(UnlinkStore(st, k, dying, ts), s.mem.seqs, [LogItem(k.parent, Stamps(parentTs))]);
    }
  }

  lemma RemovalKeepsCounter(s: State, k: DirKey, k2: DirKey, target: Ino, ts: u64, parentTs: u64, conflict: bool)
    ensures Rmdir(WithDeltas, s, k, ts, conflict).state.store.counter == s.store.counter
    ensures Rename(WithDeltas, s, k, k2, ts, conflict).state.store.counter == s.store.counter
    ensures Link(WithDeltas, s, k, target, ts, parentTs, conflict).state.store.counter == s.store.counter
  {
    hide LogAll, CacheAll, Touched, RenameInodes, RenameRefusal, RenameLogsOf, DirEmpty;
    if k in s.store.entries {
      LogKeepsCounter(RmdirStore(s.store, k), s.mem.seqs, RmdirLogs(k, ts));
    }
    if RenameRefusal(s.store, k, k2).None? {
      LogKeepsCounter(RenameStore(s.store, k, k2, ts), s.mem.seqs, RenameLogsOf(s.store, k, k2, ts));
    }
    if target in s.store.inodes {
      LogKeepsCounter(LinkStore(s.store, k, target, ts), s.mem.seqs, [LogItem(k.parent, Stamps(parentTs))]);
    }
  }

  lemma OthersKeepCounter(s: State, a: Attempt)
    requires !Creates(a.op)
    ensures Step(WithDeltas, s, a).state.store.counter == s.store.counter
  {
    hide AddNode, CreateAndOpen, Unlink, Rmdir, Rename, Link, Effective, WithAttrs;
    match a.op {
      case DoUnlink(k, ts, parentTs) => UnlinkKeepsCounter(s, k, ts, parentTs, a.conflict);
      case DoRmdir(k, ts) => RemovalKeepsCounter(s, k, k, 0, ts, ts, a.conflict);
      case DoRename(k, k2, ts) => RemovalKeepsCounter(s, k, k2, 0, ts, ts, a.conflict);
      case DoLink(k, target, ts, parentTs) => RemovalKeepsCounter(s, k, k, target, ts, parentTs, a.conflict);
      case _ =>
    }
  }

  lemma OthersKeepNext(s: State, a: Attempt)
    requires !Creates(a.op)
    ensures Step(WithDeltas, s, a).state.mem.next == s.mem.next
  {
    hide AddNode, CreateAndOpen, Unlink, Rmdir, Rename, Link, Effective, WithAttrs, LogAll;
    if !a.op.DoSetAttr? && !a.op.DoReportWrite? && !a.op.DoOpen? {
      StepSizes(s, a);
    }
  }

  lemma StepCounterLags(s: State, a: Attempt)
    requires CounterLags(s) && s.mem.next + 1 < TWO64
    ensures CounterLags(Step(WithDeltas, s, a).state) && Step(WithDeltas, s, a).state.mem.next <= s.mem.next + 1
  {
    hide AddNode, Unlink, Rmdir, Rename, Link, SetAttr, ReportWrite, Load, Open, Release, Compact, CompactDirty,
      FlushAll, CounterLags;
    match a.op {
      case DoCreate(k, mode, uid, gid, ts) => NodeNext(s, k, NewFile(s.mem.next, mode, uid, gid, ts), a.conflict);
      case DoCreateAndOpen(k, mode, uid, gid, ts) =>
        NodeNext(s, k, NewFile(s.mem.next, mode, uid, gid, ts), a.conflict);
        SameCounter(Create(WithDeltas, s, k, mode, uid, gid, ts, a.conflict).state, Step(WithDeltas, s, a).state);
      case DoMkdir(k, mode, uid, gid, ts) => NodeNext(s, k, NewDir(s.mem.next, mode, uid, gid, ts), a.conflict);
      case DoSymlink(k, link, uid, gid, ts) => NodeNext(s, k, NewSymlink(s.mem.next, link, uid, gid, ts), a.conflict);
      case _ =>
        OthersKeepCounter(s, a);
        OthersKeepNext(s, a);
        SameCounter(s, Step(WithDeltas, s, a).state);
    }
  }

  lemma NodeNext(s: State, k: DirKey, n: NewNode, conflict: bool)
    requires CounterLags(s) && s.mem.next + 1 < TWO64
    ensures var s' := AddNode(WithDeltas, s, k, n, conflict).state; CounterLags(s') && s'.mem.next <= s.mem.next + 1
  {
    hide LogAll, CacheAll, CounterLags;
    NodeCounter(s, k, n, conflict);
  }

  lemma SameCounter(s: State, s': State)
    requires CounterLags(s) && s'.store.counter == s.store.counter && s'.mem.next == s.mem.next
    ensures CounterLags(s')
  {
  }

  /** After every run that leaves numbers over, the stored counter has not passed the allocator. */
  lemma {:induction false} RunCounterLags(uid: u32, gid: u32, ts: u64, run: seq<Attempt>)
    requires 2 + |run| < TWO64
    ensures var s := Run(WithDeltas, Formatted(uid, gid, ts), run); CounterLags(s) && s.mem.next <= 2 + |run|
  {
    hide Step;
    if run != [] {
      RunCounterLags(uid, gid, ts, run[..|run| - 1]);
      StepCounterLags(Run(WithDeltas, Formatted(uid, gid, ts), run[..|run| - 1]), run[|run| - 1]);
    }
  }

  /** The counter is written by exactly the accepted creations that reach a multiple of 64. */
  lemma StepCounter(s: State, a: Attempt)
    requires s.mem.next + 1 < TWO64
    ensures var o := Step(WithDeltas, s, a);
            var next := o.state.mem.next;
            && next == (if Creates(a.op) && (o.reply.Success? || o.reply == Failure(TransactionConflict))
                        then s.mem.next + 1 else s.mem.next)
            && o.state.store.counter ==
                 if Creates(a.op) && o.reply.Success? && next % 64 == 0 then Some(next) else s.store.counter
  {
    hide AddNode, Unlink, Rmdir, Rename, Link, SetAttr, ReportWrite, Load, Open, Release, Compact, CompactDirty,
      FlushAll;
    match a.op {
      case DoCreate(k, mode, uid, gid, ts) => NodeStep(s, k, NewFile(s.mem.next, mode, uid, gid, ts), a.conflict);
      case DoCreateAndOpen(k, mode, uid, gid, ts) =>
        NodeStep(s, k, NewFile(s.mem.next, mode, uid, gid, ts), a.conflict);
      case DoMkdir(k, mode, uid, gid, ts) => NodeStep(s, k, NewDir(s.mem.next, mode, uid, gid, ts), a.conflict);
      case DoSymlink(k, link, uid, gid, ts) => NodeStep(s, k, NewSymlink(s.mem.next, link, uid, gid, ts), a.conflict);
      case _ =>
        OthersKeepCounter(s, a);
        OthersKeepNext(s, a);
    }
  }

  lemma NodeStep(s: State, k: DirKey, n: NewNode, conflict: bool)
    requires s.mem.next + 1 < TWO64
    ensures var o := AddNode(WithDeltas, s, k, n, conflict);
            var next := o.state.mem.next;
            && next == (if o.reply.Success? || o.reply == Failure(TransactionConflict) then s.mem.next + 1
                        else s.mem.next)
            && o.state.store.counter == if o.reply.Success? && next % 64 == 0 then Some(next) else s.store.counter
  {
    hide LogAll, CacheAll, Touched;
    LogKeepsCounter(NodeStore(s.store, s.mem.next, k, n), s.mem.seqs, NewLogs(k, n));
  }

  /**
   As long as no creation is refused, the written counter is the largest multiple of 64 that the
   allocator has reached, and none below 64, so that a restart falls back by less than 64 numbers.
   */
  lemma {:induction false} CounterKeepsUp(uid: u32, gid: u32, ts: u64, run: seq<Attempt>)
    requires 2 + |run| < TWO64 && forall a :: a in run && Creates(a.op) ==> !a.conflict
    ensures var s := Run(WithDeltas, Formatted(uid, gid, ts), run);
            && 2 <= s.mem.next <= 2 + |run|
            && s.store.counter == (if s.mem.next < 64 then None else Some(s.mem.next - s.mem.next % 64))
            && Restart(s).mem.next == (if s.mem.next < 64 then 2 else s.mem.next - s.mem.next % 64)
  {
    hide Step;
    if run != [] {
      var front, last := run[..|run| - 1], run[|run| - 1];
      forall a | a in front ensures a in run {
      }
      assert last in run;
      CounterKeepsUp(uid, gid, ts, front);
      var s := Run(WithDeltas, Formatted(uid, gid, ts), front);
      StepCounter(s, last);
      if Creates(last.op) {
        NotRefused(s, last);
        NextMultiple(s.mem.next);
      }
    }
  }

  lemma NotRefused(s: State, a: Attempt)
    requires Creates(a.op) && !a.conflict
    ensures Step(WithDeltas, s, a).reply != Failure(TransactionConflict)
  {
    hide LogAll, CacheAll;
  }

  lemma NextMultiple(n: nat)
    ensures (n + 1) % 64 != 0 ==> n + 1 - (n + 1) % 64 == n - n % 64
  {
  }

  // ------------------------------------------------------------------ restarts

  /**
   The first create after a restart leaves all stored inodes as they are exactly when none of them
   has the resumed number.
   */
  lemma RestartCreateKeepsInodesIff(s: State, k: DirKey, mode: u32, uid: u32, gid: u32, ts: u64)
    requires k !in s.store.entries && |k.name| <= NAME_MAX
    requires forall i :: i in s.store.inodes ==> s.store.inodes[i].ctime < ts
    ensures var I := Create(WithDeltas, Restart(s), k, mode, uid, gid, ts, false).state.store.inodes;
            (forall i :: i in s.store.inodes ==> i in I && I[i] == s.store.inodes[i]) <==>
            GetOr(s.store.counter, FIRST_ALLOC_INODE) !in s.store.inodes
  {
    hide LogAll, CacheAll, Recovered;
    var r := Restart(s);
    var n := NewFile(r.mem.next, mode, uid, gid, ts);
    LogKeepsInodes(NodeStore(r.store, r.mem.next, k, n), r.mem.seqs, NewLogs(k, n));
    var I := Create(WithDeltas, r, k, mode, uid, gid, ts, false).state.store.inodes;
    assert I == s.store.inodes[r.mem.next := n.value];
    assert n.value.ctime == ts;
  }

  /** Otherwise the next file takes over a live inode: its record is overwritten and two names share one link. */
  lemma RestartTakesOverInode(s: State, k: DirKey, k2: DirKey, mode: u32, uid: u32, gid: u32, ts: u64)
    requires k in s.store.entries && s.store.entries[k].ino == Restart(s).mem.next
    requires k2 !in s.store.entries && |k2.name| <= NAME_MAX
    ensures var o := Create(WithDeltas, Restart(s), k2, mode, uid, gid, ts, false);
            var i := Restart(s).mem.next;
            && o.reply.Success?
            && k in o.state.store.entries && o.state.store.entries[k].ino == i && k2 in o.state.store.entries &&
                 o.state.store.entries[k2].ino == i
            && i in o.state.store.inodes && o.state.store.inodes[i].nlink == 1 && o.state.store.inodes[i].size == 0
  {
    hide LogAll, CacheAll;
    var r := Restart(s);
    var n := NewFile(r.mem.next, mode, uid, gid, ts);
    LogAllDeltas(Txn(NodeStore(r.store, r.mem.next, k2, n), r.mem.seqs), NewLogs(k2, n));
  }
}
