/**
 What a retried call amounts to (server/src/lib.rs), and the client's coordination layer as an object
 (client/src/vfs_core.rs) over a metadata server and a flat-file store.
 */
module Retries {
  import opened Types
  import opened Wrappers
  import opened Server
  import opened MetadataServers

  /** An attempt that fails has changed nothing in the store. */
  lemma FailureKeepsStore(build: Build, s: State, a: Attempt)
    requires Step(build, s, a).reply.Failure?
    ensures Step(build, s, a).state.store == s.store
  {
    hide LogAll, CacheAll, Effective, CompactAll, WithAttrs;
  }

  /**
   A call commits at most once over its attempts: its outcome is that of a single attempt from a state
   with the same store, and if it fails the store is as before.
   */
  lemma {:induction false} CommitsAtMostOnce(build: Build, s: State, op: Op, refused: seq<bool>)
    returns (s1: State, last: bool)
    requires |refused| > 0
    ensures s1.store == s.store && Retried(build, s, op, refused) == Step(build, s1, Attempt(op, last))
    ensures Retried(build, s, op, refused).reply.Failure? ==> Retried(build, s, op, refused).state.store == s.store
    decreases |refused|
  {
    hide Step;
    var o := Step(build, s, Attempt(op, refused[0]));
    if o.reply == Failure(TransactionConflict) && |refused| > 1 {
      FailureKeepsStore(build, s, Attempt(op, refused[0]));
      s1, last := CommitsAtMostOnce(build, o.state, op, refused[1..]);
    } else {
      s1, last := s, refused[0];
      if o.reply.Failure? {
        FailureKeepsStore(build, s, Attempt(op, refused[0]));
      }
    }
  }

  function Attempts(op: Op, refused: seq<bool>): seq<Attempt> {
    seq(|refused|, j requires 0 <= j < |refused| => Attempt(op, refused[j]))
  }

  /** A retried call is a run of some of its attempts, so whatever holds of all runs holds of it. */
  lemma {:induction false} RetriedIsRun(build: Build, z: State, run: seq<Attempt>, op: Op, refused: seq<bool>)
    returns (n: nat)
    requires |refused| > 0
    ensures n <= |refused|
    ensures Retried(build, Run(build, z, run), op, refused).state == Run(build, z, run + Attempts(op, refused)[..n])
    decreases |refused|
  {
    hide Step;
    var s := Run(build, z, run);
    var a := Attempt(op, refused[0]);
    var o := Step(build, s, a);
    assert (run + [a])[..|run + [a]| - 1] == run;
    assert o.state == Run(build, z, run + [a]);
    if o.reply == Failure(TransactionConflict) && |refused| > 1 {
      n := RetriedIsRun(build, z, run + [a], op, refused[1..]);
      assert run + [a] + Attempts(op, refused[1..])[..n] == run + Attempts(op, refused)[..n + 1];
      n := n + 1;
    } else {
      n := 1;
      assert Attempts(op, refused)[..1] == [a];
    }
  }

  /** A call ends with a refusal only if every one of its attempts was refused. */
  lemma {:induction false} RefusedOnlyByAll(build: Build, s: State, op: Op, refused: seq<bool>)
    requires |refused| > 0 && Retried(build, s, op, refused).reply == Failure(TransactionConflict)
    ensures AllRefused(refused)
    decreases |refused|
  {
    hide Step;
    var o := Step(build, s, Attempt(op, refused[0]));
    if !refused[0] {
      AcceptedIsNoConflict(build, s, op);
    }
    if |refused| > 1 {
      RefusedOnlyByAll(build, o.state, op, refused[1..]);
      assert refused == [refused[0]] + refused[1..];
    }
  }

  lemma AcceptedIsNoConflict(build: Build, s: State, op: Op)
    ensures Step(build, s, Attempt(op, false)).reply != Failure(TransactionConflict)
  {
    hide LogAll, CacheAll, Effective, CompactAll, WithAttrs, IsDir, DirEmpty, Touched, RenameStore, RenameLogsOf,
      UnlinkStore, Compactable;
  }

  /** Updates of one inode row leave no trace of a refused attempt. */
  lemma {:induction false} RetriedUpdate(build: Build, s: State, op: Op, refused: seq<bool>)
    requires |refused| > 0 && (op.DoSetAttr? || op.DoReportWrite?)
    ensures Retried(build, s, op, refused) == Step(build, s, Attempt(op, AllRefused(refused)))
    decreases |refused|
  {
    hide AddNode, CreateAndOpen, Unlink, Rmdir, Rename, Link, Load, Open, Release, Compact, CompactDirty, FlushAll,
      WithAttrs;
    var o := Step(build, s, Attempt(op, refused[0]));
    if o.reply == Failure(TransactionConflict) && |refused| > 1 {
      RetriedUpdate(build, s, op, refused[1..]);
      assert refused[0];
      assert AllRefused(refused) == AllRefused(refused[1..]) by {
        assert refused == [true] + refused[1..];
      }
    }
  }
}

module VfsCores {
  import opened Types
  import opened Wrappers
  import opened Server
  import opened RawDisk
  import opened Vfs
  import opened MetadataServers
  import opened Retries

  /** The attributes, unless setattr failed or the truncation it asks for is not below the maximum. */
  function ChangeReply(max: u64, reply: Result<Reply, FsError>): Result<InodeValue, FsError>
    requires reply.Success? ==> reply.value.Updated?
  {
    if reply.Failure? then Failure(reply.error)
    else if reply.value.truncate.Some? && reply.value.truncate.value >= max then Failure(InvalidInput)
    else Success(reply.value.value)
  }

  class VfsCore {
    const meta: MetadataServer
    const disk: RawDiskStore
    var handleMap: map<Ino, Location>
    var written: set<Ino>

    ghost function Contents(): Volume
      reads meta, disk
    {
      Volume(meta.Abs(), disk.file)
    }

    constructor (meta: MetadataServer, disk: RawDiskStore)
      ensures this.meta == meta && this.disk == disk && handleMap == map[] && written == {}
    {
      this.meta := meta;
      this.disk := disk;
      handleMap := map[];
      written := {};
    }

    /** Data first, then the report; a report that fails leaves the data where it is. */
    method WriteData(i: Ino, off: u64, data: Bytes, ts: u64, refused: seq<bool>) returns (r: Result<u32, FsError>)
      requires |refused| == TXN_MAX_RETRIES
      modifies `written, meta, disk
      ensures Contents() == VfsStep(disk.max, old(Contents()), Write(i, off, data, ts), AllRefused(refused))
      ensures r == if AbsoluteOffset(disk.max, i, off).Failure? then Failure(InvalidInput)
                   else if i !in old(meta.Abs().store.inodes) then Failure(NotFound)
                   else if AllRefused(refused) then Failure(TransactionConflict)
                   else Success(|Clamped(disk.max, off, data)| % TWO32)
      ensures written == if r.Success? then old(written) + {i} else old(written)
    {
      hide Step, SetAttr, WriteTo, Base, AllRefused;
      var w := disk.WriteAt(i, off, data);
      if w.Failure? { return w; }
      var newEnd := off + w.value;
      RetriedUpdate(meta.build, meta.Abs(), DoReportWrite(i, newEnd, ts), refused);
      ReportStep(meta.build, meta.Abs(), i, newEnd, ts, AllRefused(refused));
      var reported := meta.ExecuteWithRetry(DoReportWrite(i, newEnd, ts), refused);
      if reported.Failure? { return Failure(reported.error); }
      written := written + {i};
      r := w;
    }

    /** Metadata first, then the truncation that a shrink asks for. */
    method ChangeAttributes(i: Ino, req: SetAttrRequest, ts: u64, refused: seq<bool>)
      returns (r: Result<InodeValue, FsError>)
      requires |refused| == TXN_MAX_RETRIES && Fits(disk.max, i)
      modifies meta, disk
      ensures Contents() == VfsStep(disk.max, old(Contents()), Change(i, req, ts), AllRefused(refused))
      ensures r == ChangeReply(disk.max, SetAttr(old(meta.Abs()), i, req, ts, AllRefused(refused)).reply)
    {
      hide Step, ReportWrite, TruncateTo, Base, AllRefused, WithAttrs;
      RetriedUpdate(meta.build, meta.Abs(), DoSetAttr(i, req, ts), refused);
      ChangeStep(meta.build, meta.Abs(), i, req, ts, AllRefused(refused));
      var done := meta.ExecuteWithRetry(DoSetAttr(i, req, ts), refused);
      if done.Failure? { return Failure(done.error); }
      var updated := done.value;
      if updated.truncate.Some? {
        AddressableIff(disk.max, i, updated.truncate.value);
        var t := disk.Truncate(i, updated.truncate.value);
        if t.Failure? { return Failure(t.error); }
      }
      r := Success(updated.value);
    }

    /** `unlink` and `rename`: the data of purged inodes is deleted, which does nothing to the file. */
    method RemoveName(op: Op, refused: seq<bool>) returns (r: Result<(), FsError>)
      requires |refused| == TXN_MAX_RETRIES && (op.DoUnlink? || op.DoRename?)
      modifies meta
      ensures meta.Abs() == Retried(meta.build, old(meta.Abs()), op, refused).state
      ensures r.Success? <==> Retried(meta.build, old(meta.Abs()), op, refused).reply.Success?
    {
      hide Retried, Step;
      var done := meta.ExecuteWithRetry(op, refused);
      if done.Failure? { return Failure(done.error); }
      if done.value.Purged? {
        DeleteAll(done.value.inodes);
      }
      r := Success(());
    }

    method DeleteAll(purged: seq<Ino>)
    {
      for j := 0 to |purged| {
        var _ := disk.Delete(purged[j]);
      }
    }

    /** Closing a file also forgets its routing and its written mark, whatever else has it open. */
    method ReleaseFile(i: Ino, refused: seq<bool>) returns (r: Result<(), FsError>)
      requires |refused| == TXN_MAX_RETRIES
      modifies this, meta
      ensures meta.Abs() == Release(old(meta.Abs()), i, AllRefused(refused)).state
      ensures r.Success? <==> Release(old(meta.Abs()), i, AllRefused(refused)).reply.Success?
      ensures r.Success? ==> handleMap == old(handleMap) - {i} && written == old(written) - {i}
      ensures r.Failure? ==> handleMap == old(handleMap) && written == old(written)
    {
      var done := meta.ReleaseHandle(i, refused);
      if done.Failure? { return Failure(done.error); }
      DeleteAll(done.value.inodes);
      handleMap := handleMap - {i};
      written := written - {i};
      r := Success(());
    }
  }

  lemma ReportStep(build: Build, s: State, i: Ino, newSize: u64, ts: u64, conflict: bool)
    ensures Step(build, s, Attempt(DoReportWrite(i, newSize, ts), conflict)) == ReportWrite(s, i, newSize, ts, conflict)
  {
  }

  lemma ChangeStep(build: Build, s: State, i: Ino, req: SetAttrRequest, ts: u64, conflict: bool)
    ensures Step(build, s, Attempt(DoSetAttr(i, req, ts), conflict)) == SetAttr(s, i, req, ts, conflict)
  {
  }
}
