/**
 Coordination of metadata and data (client/src/vfs_core.rs): writes go to the data store and are
 then reported, a shrinking setattr is followed by a truncation, and deletion relies on inode
 numbers not being used again. Bytes at or past a file's size read as zero throughout.
 */
module Vfs {
  import opened Types
  import opened Wrappers
  import opened DeltaFold
  import opened Server
  import opened Logging
  import opened RawDisk

  /** The metadata server and the file behind the data store. */
  datatype Volume = Volume(meta: State, file: Bytes)

  datatype VfsOp =
    | Write(i: Ino, off: u64, data: Bytes, ts: u64)
    | Change(i: Ino, req: SetAttrRequest, ts: u64)
    | Meta(op: Op)

  /** The end of a write as it is reported: the count has been cast to 32 bits. */
  function ReportedEnd(max: u64, off: u64, data: Bytes): u64
    requires off < max
  {
    off + |Clamped(max, off, data)| % TWO32
  }

  /** One call; the metadata transaction inside it may be refused. Deletion of purged data is a no-op. */
  function VfsStep(max: u64, v: Volume, op: VfsOp, conflict: bool): Volume {
    match op
    case Write(i, off, data, ts) =>
      if AbsoluteOffset(max, i, off).Failure? then v
      else Volume(ReportWrite(v.meta, i, ReportedEnd(max, off, data), ts, conflict).state,
        WriteTo(v.file, max, i, off, data))
    case Change(i, req, ts) =>
      var o := SetAttr(v.meta, i, req, ts, conflict);
      if o.reply.Success? && o.reply.value.truncate.Some? &&
        AbsoluteOffset(max, i, o.reply.value.truncate.value).Success?
      then Volume(o.state, TruncateTo(v.file, max, i, o.reply.value.truncate.value))
      else v.(meta := o.state)
    case Meta(op) => v.(meta := Step(WithDeltas, v.meta, Attempt(op, conflict)).state)
  }

  // ------------------------------------------------------------------ the invariant

  predicate ZeroFrom(region: Bytes, size: nat) {
    forall o :: size <= o < |region| ==> region[o] == 0
  }

  /**
   Stored inodes have been numbered; past its size every stored inode reads zero; and numbers that
   are still to be given out have never been written to.
   */
  ghost predicate Clean(max: u64, v: Volume) {
    && (forall i :: i in v.meta.store.inodes ==> i < v.meta.mem.next)
    && (forall i :: i in v.meta.store.inodes ==> ZeroFrom(Region(v.file, max, i), v.meta.store.inodes[i].size))
    && (forall i: Ino :: i >= v.meta.mem.next ==> ZeroFrom(Region(v.file, max, i), 0))
  }

  predicate Creates(op: Op) {
    op.DoCreate? || op.DoCreateAndOpen? || op.DoMkdir? || op.DoSymlink?
  }

  /**
   What the caller has to respect: write to numbered inodes only, in pieces below 4 GiB, and with a
   report that gets through if it extends the file; truncate where the region fits; do not open with
   truncation; do not run out of inode numbers.
   */
  ghost predicate VfsAllowed(max: u64, v: Volume, op: VfsOp, conflict: bool) {
    match op
    case Write(i, off, data, _) =>
      off < max ==>
        && i < v.meta.mem.next && |Clamped(max, off, data)| < TWO32
        && (conflict && i in v.meta.store.inodes ==> off + |Clamped(max, off, data)| <= v.meta.store.inodes[i].size)
    case Change(i, _, _) => Fits(max, i)
    case Meta(op) =>
      && !op.DoSetAttr? && !op.DoReportWrite? && !(op.DoOpen? && op.truncate)
      && (Creates(op) ==> v.meta.mem.next + 1 < TWO64)
  }

  // ------------------------------------------------------------------ metadata steps keep sizes

  /** Sizes and types stay as they are, and the only new inode takes the next number. */
  ghost predicate SizesKept(s: State, s': State) {
    && (s'.mem.next == s.mem.next || s'.mem.next == NextIno(s.mem.next))
    && (forall i :: i in s'.store.inodes ==>
          || (i in s.store.inodes && s'.store.inodes[i].size == s.store.inodes[i].size
              && s'.store.inodes[i].mode == s.store.inodes[i].mode)
          || (i == s.mem.next && s'.mem.next == NextIno(s.mem.next)))
  }

  lemma AddNodeSizes(s: State, k: DirKey, n: NewNode, conflict: bool)
    ensures SizesKept(s, AddNode(WithDeltas, s, k, n, conflict).state)
  {
    hide LogAll, CacheAll;
    LogKeepsInodes(NodeStore(s.store, s.mem.next, k, n), s.mem.seqs, NewLogs(k, n));
  }

  lemma UnlinkSizes(s: State, k: DirKey, ts: u64, parentTs: u64, conflict: bool)
    ensures SizesKept(s, Unlink(WithDeltas, s, k, ts, parentTs, conflict).state)
    ensures Unlink(WithDeltas, s, k, ts, parentTs, conflict).state.mem.next == s.mem.next
  {
    hide LogAll, CacheAll, Touched;
    var st := s.store;
    if k in st.entries && st.entries[k].ino in st.inodes {
      var i := st.entries[k].ino;
      var dying := OneLinkLess(st.inodes[i], ts).nlink == 0 && HandleCount(s.mem, i) == 0;
      LogKeepsInodes(UnlinkStore(st, k, dying, ts), s.mem.seqs, [LogItem(k.parent, Stamps(parentTs))]);
    }
  }

  lemma RmdirSizes(s: State, k: DirKey, ts: u64, conflict: bool)
    ensures SizesKept(s, Rmdir(WithDeltas, s, k, ts, conflict).state)
    ensures Rmdir(WithDeltas, s, k, ts, conflict).state.mem.next == s.mem.next
  {
    hide LogAll, CacheAll, DirEmpty;
    if k in s.store.entries {
      LogKeepsInodes(RmdirStore(s.store, k), s.mem.seqs, RmdirLogs(k, ts));
    }
  }

  lemma RenameSizes(s: State, k: DirKey, k2: DirKey, ts: u64, conflict: bool)
    ensures SizesKept(s, Rename(WithDeltas, s, k, k2, ts, conflict).state)
    ensures Rename(WithDeltas, s, k, k2, ts, conflict).state.mem.next == s.mem.next
  {
    hide LogAll, CacheAll, DirEmpty, RenameLogs;
    if RenameRefusal(s.store, k, k2).None? {
      LogKeepsInodes(RenameStore(s.store, k, k2, ts), s.mem.seqs, RenameLogsOf(s.store, k, k2, ts));
    }
  }

  lemma LinkSizes(s: State, k: DirKey, target: Ino, ts: u64, parentTs: u64, conflict: bool)
    ensures SizesKept(s, Link(WithDeltas, s, k, target, ts, parentTs, conflict).state)
    ensures Link(WithDeltas, s, k, target, ts, parentTs, conflict).state.mem.next == s.mem.next
  {
    hide LogAll, CacheAll;
    if target in s.store.inodes {
      LogKeepsInodes(LinkStore(s.store, k, target, ts), s.mem.seqs, [LogItem(k.parent, Stamps(parentTs))]);
    }
  }

  lemma CompactSizes(s: State, chosen: set<Ino>)
    requires chosen <= s.store.inodes.Keys
    ensures SizesKept(s, CompactAll(s, chosen)) && CompactAll(s, chosen).mem.next == s.mem.next
  {
    hide Fold;
    forall i | i in s.store.inodes
      ensures Effective(s.store, i).size == s.store.inodes[i].size &&
              Effective(s.store, i).mode == s.store.inodes[i].mode
    {
      FoldByField(s.store.inodes[i], Ops(DeltasOf(s.store, i)));
    }
  }

  lemma QuietSizes(s: State, a: Attempt)
    requires a.op.DoLoad? || (a.op.DoOpen? && !a.op.truncate) || a.op.DoRelease? || a.op.DoEvict?
    ensures SizesKept(s, Step(WithDeltas, s, a).state) && Step(WithDeltas, s, a).state.mem.next == s.mem.next
  {
    hide Effective, AddNode, CreateAndOpen, Unlink, Rmdir, Rename, Link, SetAttr, ReportWrite, Compact, CompactDirty,
      FlushAll;
  }

  lemma StepSizes(s: State, a: Attempt)
    requires !a.op.DoSetAttr? && !a.op.DoReportWrite? && !(a.op.DoOpen? && a.op.truncate)
    ensures SizesKept(s, Step(WithDeltas, s, a).state)
    ensures !Creates(a.op) ==> Step(WithDeltas, s, a).state.mem.next == s.mem.next
  {
    hide SizesKept, AddNode, Unlink, Rmdir, Rename, Link, SetAttr, ReportWrite, Load, Open, Release, CompactAll;
    match a.op {
      case DoCreate(k, mode, uid, gid, ts) => AddNodeSizes(s, k, NewFile(s.mem.next, mode, uid, gid, ts), a.conflict);
      case DoCreateAndOpen(k, mode, uid, gid, ts) =>
        AddNodeSizes(s, k, NewFile(s.mem.next, mode, uid, gid, ts), a.conflict);
        HandlesKeepSizes(s, Create(WithDeltas, s, k, mode, uid, gid, ts, a.conflict).state,
          Step(WithDeltas, s, a).state);
      case DoMkdir(k, mode, uid, gid, ts) => AddNodeSizes(s, k, NewDir(s.mem.next, mode, uid, gid, ts), a.conflict);
      case DoSymlink(k, link, uid, gid, ts) =>
        AddNodeSizes(s, k, NewSymlink(s.mem.next, link, uid, gid, ts), a.conflict);
      case DoUnlink(k, ts, parentTs) => UnlinkSizes(s, k, ts, parentTs, a.conflict);
      case DoRmdir(k, ts) => RmdirSizes(s, k, ts, a.conflict);
      case DoRename(k, k2, ts) => RenameSizes(s, k, k2, ts, a.conflict);
      case DoLink(k, target, ts, parentTs) => LinkSizes(s, k, target, ts, parentTs, a.conflict);
      case DoCompact(i) => CompactSizes(s, Compactable(s, {i}, if a.conflict then {i} else {}));
      case DoCompactDirty(threshold, blocked) =>
        var due := DueForCompaction(s, threshold, blocked);
        CompactSizes(s, due);
        HandlesKeepSizes(s, CompactAll(s, due), Step(WithDeltas, s, a).state);
      case DoFlushAll(blocked) =>
        var due := Compactable(s, s.mem.dirty, blocked);
        CompactSizes(s, due);
        HandlesKeepSizes(s, CompactAll(s, due), Step(WithDeltas, s, a).state);
      case _ => QuietSizes(s, a);
    }
  }

  lemma HandlesKeepSizes(s: State, s1: State, s2: State)
    requires SizesKept(s, s1) && s2.store == s1.store && s2.mem.next == s1.mem.next
    ensures SizesKept(s, s2)
  {
  }

  // ------------------------------------------------------------------ every call keeps it

  lemma MetaKeepsClean(max: u64, v: Volume, op: Op, conflict: bool)
    requires Clean(max, v) && VfsAllowed(max, v, Meta(op), conflict)
    ensures Clean(max, VfsStep(max, v, Meta(op), conflict))
  {
    hide Step, Region;
    StepSizes(v.meta, Attempt(op, conflict));
    ZeroFromZero(max, v);
  }

  lemma ZeroFromZero(max: u64, v: Volume)
    requires Clean(max, v)
    ensures forall i: Ino, size: nat :: i >= v.meta.mem.next ==> ZeroFrom(Region(v.file, max, i), size)
  {
    hide Region;
    forall i: Ino, size: nat | i >= v.meta.mem.next ensures ZeroFrom(Region(v.file, max, i), size) {
      assert ZeroFrom(Region(v.file, max, i), 0);
    }
  }

  lemma ReplacedZero(region: Bytes, size: nat, off: nat, data: Bytes)
    requires ZeroFrom(region, size) && off + |data| <= |region|
    ensures ZeroFrom(Replaced(region, off, data), Max(size, off + |data|))
    ensures ZeroFrom(Replaced(region, off, data), size) <==>
            forall j :: 0 <= j < |data| && size <= off + j ==> data[j] == 0
  {
    var r := Replaced(region, off, data);
    if ZeroFrom(r, size) {
      forall j | 0 <= j < |data| && size <= off + j ensures data[j] == 0 {
        assert r[off + j] == data[j];
      }
    }
  }

  lemma WriteKeepsClean(max: u64, v: Volume, i: Ino, off: u64, data: Bytes, ts: u64, conflict: bool)
    requires Clean(max, v) && VfsAllowed(max, v, Write(i, off, data, ts), conflict)
    ensures Clean(max, VfsStep(max, v, Write(i, off, data, ts), conflict))
  {
    hide Region, Replaced, WriteTo, Base, ZeroFrom;
    if AbsoluteOffset(max, i, off).Success? {
      var v' := VfsStep(max, v, Write(i, off, data, ts), conflict);
      var d := Clamped(max, off, data);
      forall j: Ino ensures Region(v'.file, max, j) ==
        if j == i then Replaced(Region(v.file, max, i), off, d) else Region(v.file, max, j)
      {
        WriteRegion(v.file, max, i, off, data, j);
      }
      if i in v.meta.store.inodes {
        ReplacedZero(Region(v.file, max, i), v.meta.store.inodes[i].size, off, d);
      }
    }
  }

  lemma ChangeKeepsClean(max: u64, v: Volume, i: Ino, req: SetAttrRequest, ts: u64, conflict: bool)
    requires Clean(max, v) && VfsAllowed(max, v, Change(i, req, ts), conflict)
    ensures Clean(max, VfsStep(max, v, Change(i, req, ts), conflict))
  {
    hide Region, TruncateTo, Base;
    var v' := VfsStep(max, v, Change(i, req, ts), conflict);
    if i in v.meta.store.inodes && !conflict {
      var before, after := v.meta.store.inodes[i], v'.meta.store.inodes[i];
      assert v'.meta.store.inodes == v.meta.store.inodes[i := after];
      if after.size < before.size && after.size < max {
        assert after.size == req.size.value;
        AddressableIff(max, i, after.size);
        forall j: Ino ensures Region(v'.file, max, j) ==
          if j == i then Region(v.file, max, i)[..after.size] + Zeros(max - after.size) else Region(v.file, max, j)
        {
          TruncateRegion(v.file, max, i, after.size, j);
        }
      }
    }
  }

  lemma VfsStepKeepsClean(max: u64, v: Volume, op: VfsOp, conflict: bool)
    requires Clean(max, v) && VfsAllowed(max, v, op, conflict)
    ensures Clean(max, VfsStep(max, v, op, conflict))
  {
    hide Clean, VfsStep, VfsAllowed;
    match op {
      case Write(i, off, data, ts) => WriteKeepsClean(max, v, i, off, data, ts, conflict);
      case Change(i, req, ts) => ChangeKeepsClean(max, v, i, req, ts, conflict);
      case Meta(op) => MetaKeepsClean(max, v, op, conflict);
    }
  }

  // ------------------------------------------------------------------ runs

  datatype Call = Call(op: VfsOp, conflict: bool)

  function VfsRun(max: u64, v: Volume, calls: seq<Call>): Volume {
    if calls == [] then v
    else VfsStep(max, VfsRun(max, v, calls[..|calls| - 1]), calls[|calls| - 1].op, calls[|calls| - 1].conflict)
  }

  ghost predicate AllowedCalls(max: u64, v: Volume, calls: seq<Call>) {
    calls == [] ||
    var front, last := calls[..|calls| - 1], calls[|calls| - 1];
    AllowedCalls(max, v, front) && VfsAllowed(max, VfsRun(max, v, front), last.op, last.conflict)
  }

  function NewVolume(uid: u32, gid: u32, ts: u64): Volume {
    Volume(Formatted(uid, gid, ts), [])
  }

  lemma {:induction false} RunIsClean(max: u64, uid: u32, gid: u32, ts: u64, calls: seq<Call>)
    requires AllowedCalls(max, NewVolume(uid, gid, ts), calls)
    ensures Clean(max, VfsRun(max, NewVolume(uid, gid, ts), calls))
  {
    hide Clean, VfsStep, VfsAllowed;
    var z := NewVolume(uid, gid, ts);
    if calls == [] {
      NewIsClean(max, uid, gid, ts);
    } else {
      RunIsClean(max, uid, gid, ts, calls[..|calls| - 1]);
      VfsStepKeepsClean(max, VfsRun(max, z, calls[..|calls| - 1]), calls[|calls| - 1].op, calls[|calls| - 1].conflict);
    }
  }

  lemma NewIsClean(max: u64, uid: u32, gid: u32, ts: u64)
    ensures Clean(max, NewVolume(uid, gid, ts))
  {
  }

  /** After any such run, every byte at or past the size of every stored inode reads as zero. */
  lemma PastSizeReadsZero(max: u64, uid: u32, gid: u32, ts: u64, calls: seq<Call>, i: Ino, o: nat)
    requires AllowedCalls(max, NewVolume(uid, gid, ts), calls)
    requires var v := VfsRun(max, NewVolume(uid, gid, ts), calls);
             i in v.meta.store.inodes && v.meta.store.inodes[i].size <= o < max
    ensures Region(VfsRun(max, NewVolume(uid, gid, ts), calls).file, max, i)[o] == 0
  {
    hide VfsRun, AllowedCalls, Region;
    RunIsClean(max, uid, gid, ts, calls);
  }

  /** A file that is created then is all zeros, although deletion never erases anything. */
  lemma CreatedFileIsZero(max: u64, v: Volume, k: DirKey, mode: u32, uid: u32, gid: u32, ts: u64)
    requires Clean(max, v)
    requires Step(WithDeltas, v.meta, Attempt(DoCreate(k, mode, uid, gid, ts), false)).reply.Success?
    ensures var v' := VfsStep(max, v, Meta(DoCreate(k, mode, uid, gid, ts)), false);
            var i := v.meta.mem.next;
            && i !in v.meta.store.inodes
            && i in v'.meta.store.inodes && v'.meta.store.inodes[i].size == 0
            && Region(v'.file, max, i) == Zeros(max)
  {
    hide Region, LogAll, CacheAll, Unlink, Rmdir, Rename, Link, SetAttr, ReportWrite, Open, Release;
    var n := NewFile(v.meta.mem.next, mode, uid, gid, ts);
    LogAllDeltas(Txn(NodeStore(v.meta.store, v.meta.mem.next, k, n), v.meta.mem.seqs), NewLogs(k, n));
    assert ZeroFrom(Region(v.file, max, v.meta.mem.next), 0);
  }

  /** Growing a file by setattr shows zeros in the gap. */
  lemma ExtensionShowsZeros(max: u64, v: Volume, i: Ino, req: SetAttrRequest, ts: u64, o: nat)
    requires Clean(max, v) && i in v.meta.store.inodes && req.size.Some?
    requires v.meta.store.inodes[i].size <= o < req.size.value && o < max
    ensures var v' := VfsStep(max, v, Change(i, req, ts), false);
            v'.meta.store.inodes[i].size == req.size.value && Region(v'.file, max, i)[o] == 0
  {
    hide Region;
  }

  // ------------------------------------------------------------------ exact conditions

  /** Opening with truncation cuts the size but not the data: harmless exactly when every visible byte was zero. */
  lemma TruncatingOpenIff(max: u64, v: Volume, i: Ino, ts: u64)
    requires Clean(max, v) && i in v.meta.store.inodes
    requires Load(v.meta, i).reply.Success? && !IsDir(Load(v.meta, i).reply.value.value.mode)
    requires Load(v.meta, i).reply.value.value.size > 0
    ensures Clean(max, VfsStep(max, v, Meta(DoOpen(i, true, ts)), false)) <==>
            forall o :: 0 <= o < max && o < v.meta.store.inodes[i].size ==> Region(v.file, max, i)[o] == 0
  {
    hide Region, ZeroFrom;
    OpenCuts(v.meta, i, ts);
    var region, size := Region(v.file, max, i), v.meta.store.inodes[i].size;
    VisibleZeros(region, size);
  }

  /** What a truncating open does to the metadata of a file with a size. */
  lemma OpenCuts(s: State, i: Ino, ts: u64)
    requires i in s.store.inodes && Load(s, i).reply.Success? && !IsDir(Load(s, i).reply.value.value.mode)
    requires Load(s, i).reply.value.value.size > 0
    ensures var s' := Step(WithDeltas, s, Attempt(DoOpen(i, true, ts), false)).state;
            && s'.store.inodes == s.store.inodes[i := Truncated(s.store.inodes[i], ts)]
            && s'.mem.next == s.mem.next
  {
    hide Effective, AddNode, Unlink, Rmdir, Rename, Link, SetAttr, ReportWrite, Release, CompactAll;
  }

  lemma VisibleZeros(region: Bytes, size: nat)
    requires ZeroFrom(region, size)
    ensures ZeroFrom(region, 0) <==> forall o :: 0 <= o < |region| && o < size ==> region[o] == 0
  {
  }

  /** So extending the file again brings back every byte it had. */
  lemma TruncatingOpenUndone(max: u64, v: Volume, i: Ino, ts: u64, req: SetAttrRequest, ts2: u64)
    requires i in v.meta.store.inodes && Load(v.meta, i).reply.Success?
    requires !IsDir(Load(v.meta, i).reply.value.value.mode) && Load(v.meta, i).reply.value.value.size > 0
    requires req.size == Some(v.meta.store.inodes[i].size)
    ensures var v1 := VfsStep(max, v, Meta(DoOpen(i, true, ts)), false);
            var v2 := VfsStep(max, v1, Change(i, req, ts2), false);
            && v1.meta.store.inodes[i].size == 0
            && v2.meta.store.inodes[i].size == v.meta.store.inodes[i].size && v2.file == v.file
  {
    hide Step, Load;
    OpenCuts(v.meta, i, ts);
  }

  /** A run that shows it: create, write one byte, open with truncation, extend, and the byte is back. */
  lemma TruncatedByteComesBack(max: u64, uid: u32, gid: u32, ts: u64, name: Name, mode: u32, x: byte,
                               req: SetAttrRequest)
    requires |name| <= NAME_MAX && AbsoluteOffset(max, 2, 0).Success? && req.size == Some(1)
    ensures var create := DoCreate(DirKey(ROOT, name), mode, uid, gid, ts);
            var v1 := VfsStep(max, NewVolume(uid, gid, ts), Meta(create), false);
            var v2 := VfsStep(max, v1, Write(2, 0, [x], ts), false);
            var v3 := VfsStep(max, v2, Meta(DoOpen(2, true, ts)), false);
            var v4 := VfsStep(max, v3, Change(2, req, ts), false);
            && 2 in v3.meta.store.inodes && v3.meta.store.inodes[2].size == 0
            && 2 in v4.meta.store.inodes && v4.meta.store.inodes[2].size == 1
            && Region(v4.file, max, 2)[0] == x
  {
    hide Region, WriteTo, Base, LogAll, CacheAll, Step;
    var z, k := NewVolume(uid, gid, ts), DirKey(ROOT, name);
    CreatedFirst(uid, gid, ts, k, mode);
    var v1 := VfsStep(max, z, Meta(DoCreate(k, mode, uid, gid, ts)), false);
    var v2 := VfsStep(max, v1, Write(2, 0, [x], ts), false);
    assert Clamped(max, 0, [x]) == [x];
    WriteRegion(z.file, max, 2, 0, [x], 2);
    TruncatingOpenUndone(max, v2, 2, ts, req, ts);
  }

  /** The first file of a new server. */
  lemma CreatedFirst(uid: u32, gid: u32, ts: u64, k: DirKey, mode: u32)
    requires |k.name| <= NAME_MAX
    ensures var s := Step(WithDeltas, Formatted(uid, gid, ts), Attempt(DoCreate(k, mode, uid, gid, ts), false)).state;
            && 2 in s.store.inodes && s.store.inodes[2] == NewFile(2, mode, uid, gid, ts).value
  {
    hide LogAll, CacheAll, Unlink, Rmdir, Rename, Link, SetAttr, ReportWrite, Open, Release;
    var z, n := Formatted(uid, gid, ts), NewFile(2, mode, uid, gid, ts);
    LogKeepsInodes(NodeStore(z.store, 2, k, n), z.mem.seqs, NewLogs(k, n));
  }

  /** A write whose report is refused is harmless exactly when it puts only zeros past the size. */
  lemma UnreportedWriteIff(max: u64, v: Volume, i: Ino, off: u64, data: Bytes, ts: u64)
    requires Clean(max, v) && i in v.meta.store.inodes && AbsoluteOffset(max, i, off).Success?
    ensures var d := Clamped(max, off, data);
            Clean(max, VfsStep(max, v, Write(i, off, data, ts), true)) <==>
            forall j :: 0 <= j < |d| && v.meta.store.inodes[i].size <= off + j ==> d[j] == 0
  {
    hide Region, Replaced, WriteTo, Base, ZeroFrom;
    var v' := VfsStep(max, v, Write(i, off, data, ts), true);
    var d := Clamped(max, off, data);
    forall j: Ino ensures Region(v'.file, max, j) ==
      if j == i then Replaced(Region(v.file, max, i), off, d) else Region(v.file, max, j)
    {
      WriteRegion(v.file, max, i, off, data, j);
    }
    assert v'.meta == v.meta;
    ReplacedZero(Region(v.file, max, i), v.meta.store.inodes[i].size, off, d);
  }

  /** A write to an inode that is not stored is harmless exactly when the number is used up or the data is zero. */
  lemma StrayWriteIff(max: u64, v: Volume, i: Ino, off: u64, data: Bytes, ts: u64)
    requires Clean(max, v) && i !in v.meta.store.inodes && AbsoluteOffset(max, i, off).Success?
    ensures var d := Clamped(max, off, data);
            Clean(max, VfsStep(max, v, Write(i, off, data, ts), false)) <==>
            i < v.meta.mem.next || forall j :: 0 <= j < |d| ==> d[j] == 0
  {
    hide Region, Replaced, WriteTo, Base, ZeroFrom;
    var v' := VfsStep(max, v, Write(i, off, data, ts), false);
    var d := Clamped(max, off, data);
    forall j: Ino ensures Region(v'.file, max, j) ==
      if j == i then Replaced(Region(v.file, max, i), off, d) else Region(v.file, max, j)
    {
      WriteRegion(v.file, max, i, off, data, j);
    }
    assert v'.meta == v.meta;
    if i >= v.meta.mem.next {
      assert ZeroFrom(Region(v.file, max, i), 0);
      ReplacedZero(Region(v.file, max, i), 0, off, d);
    }
  }
}
