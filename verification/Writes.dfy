/**
 What a write through the client does to size and contents (client/src/vfs_core.rs, `write`), after one
 call and after any number of them.
 */
module Writes {
  import opened Types
  import opened Wrappers
  import opened Server
  import opened RawDisk
  import opened Vfs

  /** The number of bytes of a write that fit below the maximum. */
  function Fitting(max: u64, off: u64, data: Bytes): nat
    requires off < max
  {
    if |data| <= max - off then |data| else max - off
  }

  /** A write that reaches the data store: the offset is accepted. */
  predicate Reaches(max: u64, i: Ino, off: u64) {
    off < max && i * max + off < TWO64
  }

  lemma ReachesIff(max: u64, i: Ino, off: u64)
    ensures Reaches(max, i, off) <==> AbsoluteOffset(max, i, off).Success?
  {
  }

  /** Only the row of the written inode changes, and only in size and times. */
  ghost predicate OnlySizeChanged(s: State, s': State, i: Ino, ts: u64) {
    && i in s.store.inodes && i in s'.store.inodes
    && s'.store == s.store.(inodes := s.store.inodes[i := s'.store.inodes[i]])
    && s'.store.inodes[i] == s.store.inodes[i].(size := s'.store.inodes[i].size, mtime := ts, ctime := ts)
  }

  /**
   A write of less than 4 GiB that is reported: the size is what it was or the end of the write, if
   that is larger.
   */
  lemma WriteSetsSize(max: u64, v: Volume, i: Ino, off: u64, data: Bytes, ts: u64)
    requires i in v.meta.store.inodes && Reaches(max, i, off)
    ensures var v' := VfsStep(max, v, Write(i, off, data, ts), false);
            var size, end := v.meta.store.inodes[i].size, off + Fitting(max, off, data);
            && OnlySizeChanged(v.meta, v'.meta, i, ts)
            && (v'.meta.store.inodes[i].size == (if size >= end then size else end) <==>
                  Fitting(max, off, data) < 0x1_0000_0000 || end <= size)
  {
    hide Region, WriteTo, Base;
    ReachesIff(max, i, off);
    WrappedCount(Fitting(max, off, data));
  }

  lemma WrappedCount(n: nat)
    ensures n % TWO32 <= n && (n % TWO32 == n <==> n < TWO32)
  {
  }

  /** The bytes that fit are there, and every other byte of every inode is as before. */
  lemma WriteShowsData(max: u64, v: Volume, i: Ino, off: u64, data: Bytes, ts: u64, conflict: bool, j: Ino, o: nat)
    requires Reaches(max, i, off) && o < max
    ensures var file' := VfsStep(max, v, Write(i, off, data, ts), conflict).file;
            Region(file', max, j)[o] ==
              if j == i && off <= o < off + Fitting(max, off, data) then data[o - off] else Region(v.file, max, j)[o]
  {
    hide Region, WriteTo, Base;
    ReachesIff(max, i, off);
    WriteRegion(v.file, max, i, off, data, j);
  }

  // ------------------------------------------------------------------ any number of writes

  /** Where the write ends, if it writes to `i` and is reported. */
  function EndOf(max: u64, c: Call, i: Ino): nat {
    if c.op.Write? && c.op.i == i && !c.conflict && Reaches(max, i, c.op.off)
    then c.op.off + Fitting(max, c.op.off, c.op.data) else 0
  }

  function LargestEnd(max: u64, calls: seq<Call>, i: Ino): nat {
    if calls == [] then 0
    else
      var before, last := LargestEnd(max, calls[..|calls| - 1], i), EndOf(max, calls[|calls| - 1], i);
      if before >= last then before else last
  }

  predicate SmallWrites(max: u64, calls: seq<Call>) {
    forall c :: c in calls ==> c.op.Write? && (c.op.off < max ==> Fitting(max, c.op.off, c.op.data) < 0x1_0000_0000)
  }

  /** The same file up to size and times. */
  predicate SameFile(v: InodeValue, w: InodeValue) {
    w == v.(size := w.size, mtime := w.mtime, ctime := w.ctime)
  }

  lemma WriteStep(max: u64, v: Volume, c: Call, i: Ino)
    requires i in v.meta.store.inodes && SmallWrites(max, [c])
    ensures var v' := VfsStep(max, v, c.op, c.conflict);
            && i in v'.meta.store.inodes && SameFile(v.meta.store.inodes[i], v'.meta.store.inodes[i])
            && v'.meta.store == v.meta.store.(inodes := v'.meta.store.inodes)
            && v'.meta.store.inodes[i].size == Max(v.meta.store.inodes[i].size, EndOf(max, c, i))
  {
    hide Region, WriteTo, Base;
    assert c in [c];
    ReachesIff(max, c.op.i, c.op.off);
    if c.op.i == i && Reaches(max, i, c.op.off) && !c.conflict {
      WriteSetsSize(max, v, i, c.op.off, c.op.data, c.op.ts);
    }
  }

  /**
   After any number of writes, to this file and to others, reported or not: the size is the largest of
   the size before and the ends of the reported writes to the file.
   */
  lemma {:induction false} SizeIsLargestEnd(max: u64, v: Volume, calls: seq<Call>, i: Ino)
    requires i in v.meta.store.inodes && SmallWrites(max, calls)
    ensures var v' := VfsRun(max, v, calls);
            && i in v'.meta.store.inodes && SameFile(v.meta.store.inodes[i], v'.meta.store.inodes[i])
            && v'.meta.store == v.meta.store.(inodes := v'.meta.store.inodes)
            && v'.meta.store.inodes[i].size == Max(v.meta.store.inodes[i].size, LargestEnd(max, calls, i))
  {
    hide VfsStep, Max;
    if calls != [] {
      var front, last := calls[..|calls| - 1], calls[|calls| - 1];
      forall c | c in front ensures c in calls {
      }
      assert last in calls;
      SizeIsLargestEnd(max, v, front, i);
      WriteStep(max, VfsRun(max, v, front), last, i);
    }
  }

  /** The byte that the last write over this place has left, or the one before all of them. */
  function LastWritten(max: u64, calls: seq<Call>, i: Ino, o: nat, before: byte): byte {
    if calls == [] then before
    else
      var op := calls[|calls| - 1].op;
      if op.Write? && op.i == i && Reaches(max, i, op.off) && op.off <= o < op.off + Fitting(max, op.off, op.data)
      then op.data[o - op.off]
      else LastWritten(max, calls[..|calls| - 1], i, o, before)
  }

  /** After any number of writes every byte of every inode is the last one written there. */
  lemma {:induction false} BytesAreLastWritten(max: u64, v: Volume, calls: seq<Call>, i: Ino, o: nat)
    requires o < max && forall c :: c in calls ==> c.op.Write?
    ensures Region(VfsRun(max, v, calls).file, max, i)[o] ==
            LastWritten(max, calls, i, o, Region(v.file, max, i)[o])
  {
    hide Region, WriteTo, Base;
    if calls != [] {
      var front, last := calls[..|calls| - 1], calls[|calls| - 1];
      forall c | c in front ensures c in calls {
      }
      assert last in calls;
      BytesAreLastWritten(max, v, front, i, o);
      ReachesIff(max, last.op.i, last.op.off);
      if Reaches(max, last.op.i, last.op.off) {
        var op := last.op;
        WriteShowsData(max, VfsRun(max, v, front), op.i, op.off, op.data, op.ts, last.conflict, i, o);
      }
    }
  }
}
