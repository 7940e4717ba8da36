/**
 Open handles over whole runs, counted from the calls and their answers alone: a file is there as long
 as it has been opened more often than closed, and an unlinked one goes with exactly the release that
 makes the two equal (server/src/lib.rs, `open_handles` and `pending_deletes`).
 */
module Handles {
  import opened Types
  import opened Wrappers
  import opened Server
  import opened Logging
  import opened Tree
  import opened Links
  import opened Invariants
  import opened Preservation
  import opened Namespace
  import opened Protocol
  import opened Answers
  import opened Effects

  /** The attempt has been answered with a handle on `i`. */
  ghost predicate Opening(s: State, a: Attempt, i: Ino) {
    var r := Step(WithDeltas, s, a).reply;
    && r.Success?
    && ((a.op.DoOpen? && a.op.i == i) || (a.op.DoCreateAndOpen? && r.value.Attr? && r.value.value.inode == i))
  }

  /** How often `i` has been opened. */
  ghost function Opens(s: State, run: seq<Attempt>, i: Ino): nat {
    if run == [] then 0
    else
      var front, last := run[..|run| - 1], run[|run| - 1];
      Opens(s, front, i) + if Opening(Run(WithDeltas, s, front), last, i) then 1 else 0
  }

  /** How often it has been closed: releases while it was open, whatever they were answered. */
  ghost function Closes(s: State, run: seq<Attempt>, i: Ino): (n: nat)
    ensures n <= Opens(s, run, i)
  {
    if run == [] then 0
    else
      var front, last := run[..|run| - 1], run[|run| - 1];
      Closes(s, front, i) +
        if last.op.DoRelease? && last.op.i == i && Opens(s, front, i) > Closes(s, front, i) then 1 else 0
  }

  // ------------------------------------------------------------------ the handle table

  /** Every attempt but these leaves the table alone. */
  lemma QuietHandles(s: State, a: Attempt)
    requires !a.op.DoOpen? && !a.op.DoCreateAndOpen? && !a.op.DoRelease?
    ensures Step(WithDeltas, s, a).state.mem.handles == s.mem.handles
  {
    hide LogAll, CacheAll, Touched, RenameRefusal, RenameStore, RenameLogsOf, RenameKills, UnlinkStore, Effective,
      WithAttrs, Compactable, DueForCompaction, DirEmpty, IsDir;
  }

  ghost predicate Positive(m: Mem) {
    forall i :: i in m.handles ==> m.handles[i] > 0
  }

  lemma OpenAddsHandle(s: State, a: Attempt)
    requires a.op.DoOpen?
    ensures var n, o := if a.op.i in s.mem.handles then s.mem.handles[a.op.i] else 0, Step(WithDeltas, s, a);
            o.state.mem.handles == if o.reply.Success? then s.mem.handles[a.op.i := n + 1] else s.mem.handles
  {
    hide AddNode, Unlink, Rmdir, Rename, Link, Release, CompactAll, SetAttr, Effective, IsDir;
  }

  lemma ReleaseTakesHandle(s: State, a: Attempt)
    requires a.op.DoRelease?
    ensures var i, h, m := a.op.i, s.mem.handles, Step(WithDeltas, s, a).state.mem;
            && m.handles == (if i !in h then h else if h[i] > 1 then h[i := h[i] - 1] else h - {i})
            && m.next == s.mem.next
  {
    hide AddNode, Unlink, Rmdir, Rename, Link, Open, CompactAll, SetAttr, Effective, IsDir;
  }

  /** One attempt, without any condition on callers. */
  lemma StepHandles(s: State, a: Attempt, i: Ino)
    requires Positive(s.mem)
    ensures Positive(Step(WithDeltas, s, a).state.mem)
    ensures HandleCount(Step(WithDeltas, s, a).state.mem, i) ==
            HandleCount(s.mem, i) + (if Opening(s, a, i) then 1 else 0)
              - if a.op.DoRelease? && a.op.i == i && HandleCount(s.mem, i) > 0 then 1 else 0
  {
    hide Step;
    if a.op.DoCreateAndOpen? {
      CreatesAndOpens(s, a);
    } else if a.op.DoOpen? {
      OpenAddsHandle(s, a);
    } else if a.op.DoRelease? {
      ReleaseTakesHandle(s, a);
    } else {
      QuietHandles(s, a);
    }
  }

  /** A handle is given on the inode that the answer describes. */
  lemma CreatesAndOpens(s: State, a: Attempt)
    requires a.op.DoCreateAndOpen?
    ensures var o := Step(WithDeltas, s, a);
            if o.reply.Success? then
              o.reply.value.Attr? && o.state.mem.handles ==
                s.mem.handles[o.reply.value.value.inode := HandleCount(s.mem, o.reply.value.value.inode) + 1]
            else o.state.mem.handles == s.mem.handles
  {
    hide LogAll, CacheAll, Touched;
  }

  lemma {:induction false} TableIsCounted(s: State, run: seq<Attempt>, i: Ino)
    requires s.mem.handles == map[]
    ensures Positive(Run(WithDeltas, s, run).mem)
    ensures HandleCount(Run(WithDeltas, s, run).mem, i) == Opens(s, run, i) - Closes(s, run, i)
  {
    hide Step, HandleCount, Opening, Positive;
    if run == [] {
      NoHandles(s, i);
    } else {
      var front, last := run[..|run| - 1], run[|run| - 1];
      TableIsCounted(s, front, i);
      StepHandles(Run(WithDeltas, s, front), last, i);
    }
  }

  lemma NoHandles(s: State, i: Ino)
    requires s.mem.handles == map[]
    ensures Positive(s.mem) && HandleCount(s.mem, i) == 0
  {
  }

  // ------------------------------------------------------------------ what open files can rely on

  /**
   Over every run of the protocol on a new server: whatever has been opened more often than closed is
   stored, as a file.
   */
  lemma OpenFilesAreStored(uid: u32, gid: u32, ts: u64, run: seq<Attempt>, i: Ino)
    requires ProtocolRun(Formatted(uid, gid, ts), run)
    requires Opens(Formatted(uid, gid, ts), run, i) > Closes(Formatted(uid, gid, ts), run, i)
    ensures var I := Run(WithDeltas, Formatted(uid, gid, ts), run).store.inodes; i in I && !IsDir(I[i].mode)
  {
    hide Inv, Run, Opens, Closes, ProtocolRun;
    ReachedState(uid, gid, ts, run, i);
    var s := Run(WithDeltas, Formatted(uid, gid, ts), run);
    HandlesAreFiles(s, i);
  }

  /** The facts about a state after a run that all theorems here share. */
  lemma ReachedState(uid: u32, gid: u32, ts: u64, run: seq<Attempt>, i: Ino)
    requires ProtocolRun(Formatted(uid, gid, ts), run)
    ensures var z := Formatted(uid, gid, ts);
            var s := Run(WithDeltas, z, run);
            && Inv(s) && HandlesStored(s) && Positive(s.mem)
            && HandleCount(s.mem, i) == Opens(z, run, i) - Closes(z, run, i)
  {
    hide Inv, Run, Opens, Closes, ProtocolRun;
    FormattedInv(uid, gid, ts);
    ProtocolSafety(Formatted(uid, gid, ts), run);
    TableIsCounted(Formatted(uid, gid, ts), run, i);
  }

  /**
   After any such run, a file without names is purged by the next attempt if and only if that attempt
   is the release that makes its closes equal its opens.
   */
  lemma PurgedByLastRelease(uid: u32, gid: u32, ts: u64, run: seq<Attempt>, a: Attempt, i: Ino)
    requires ProtocolRun(Formatted(uid, gid, ts), run + [a])
    requires var st := Run(WithDeltas, Formatted(uid, gid, ts), run).store;
             i in st.inodes && !IsDir(st.inodes[i].mode) && forall k :: k in st.entries ==> st.entries[k].ino != i
    ensures var z := Formatted(uid, gid, ts);
            i in Purges(Run(WithDeltas, z, run), a) <==>
            a.op == DoRelease(i) && Opens(z, run + [a], i) == Closes(z, run + [a], i)
  {
    hide Inv, Run, ProtocolRun, Step, Purges, Opening, HandleCount, IsDir;
    var z := Formatted(uid, gid, ts);
    assert (run + [a])[..|run + [a]| - 1] == run;
    assert ProtocolRun(z, run) && ProtocolAllowed(Run(WithDeltas, z, run), a) by { LastIsAllowed(z, run, a); }
    ReachedState(uid, gid, ts, run, i);
    var s := Run(WithDeltas, z, run);
    NamelessIsPending(s, i);
    if a.op == DoRelease(i) {
      ReleasePurges(s, a, i);
    } else {
      OthersKeepNameless(s, a, i);
    }
  }

  lemma LastIsAllowed(z: State, run: seq<Attempt>, a: Attempt)
    requires ProtocolRun(z, run + [a])
    ensures ProtocolRun(z, run) && ProtocolAllowed(Run(WithDeltas, z, run), a)
  {
    assert (run + [a])[..|run + [a]| - 1] == run;
  }

  /** A stored file without names has no links, and so waits to be deleted, with a handle. */
  lemma NamelessIsPending(s: State, i: Ino)
    requires Inv(s) && i in s.store.inodes && !IsDir(s.store.inodes[i].mode)
    requires forall k :: k in s.store.entries ==> s.store.entries[k].ino != i
    ensures s.store.inodes[i].nlink == 0 && i in s.mem.pending && i in s.mem.handles && HandleCount(s.mem, i) > 0
  {
    hide IsTree, DirLinks, LiveLogs, WellTyped, CacheTyped, IsDir;
    assert Names(s.store.entries, i) == {};
  }

  lemma ReleasePurges(s: State, a: Attempt, i: Ino)
    requires a.op == DoRelease(i) && !a.conflict && i in s.mem.pending
    requires i in s.mem.handles && HandleCount(s.mem, i) > 0
    ensures i in Purges(s, a) <==> HandleCount(s.mem, i) == 1
    ensures !Opening(s, a, i)
  {
    hide Step;
    ReleaseAnswers(WithDeltas, s, i, a.conflict);
  }

  /** No other attempt can take a file away that has no name. */
  lemma OthersKeepNameless(s: State, a: Attempt, i: Ino)
    requires Inv(s) && HandlesStored(s) && ProtocolAllowed(s, a) && a.op != DoRelease(i)
    requires i in s.store.inodes && !IsDir(s.store.inodes[i].mode) && i in s.mem.handles
    requires forall k :: k in s.store.entries ==> s.store.entries[k].ino != i
    ensures i !in Purges(s, a)
  {
    hide Inv, HandlesStored, ProtocolAllowed, IsDir, Step, StepIsClean;
    EveryStepIsClean(s, a);
    CleanPurges(s, a, i);
    if i in Purges(s, a) && a.op.DoRelease? {
      ReleaseAnswers(WithDeltas, s, a.op.i, a.conflict);
    } else if i in Purges(s, a) {
      HandlesStayPut(s, a, i);
    }
  }

  lemma CleanPurges(s: State, a: Attempt, i: Ino)
    requires StepIsClean(s, a)
    ensures i in Purges(s, a) ==> i !in Step(WithDeltas, s, a).state.mem.handles
  {
    hide Step;
  }

  /** Only a release takes a handle away. */
  lemma HandlesStayPut(s: State, a: Attempt, i: Ino)
    requires i in s.mem.handles && !a.op.DoRelease?
    ensures i in Step(WithDeltas, s, a).state.mem.handles
  {
    hide Step;
    if a.op.DoCreateAndOpen? {
      CreatesAndOpens(s, a);
    } else if a.op.DoOpen? {
      OpenAddsHandle(s, a);
    } else {
      QuietHandles(s, a);
    }
  }

  /** And the unlink of a last name purges the file if and only if it has been closed as often as opened. */
  lemma UnlinkPurgesIff(uid: u32, gid: u32, ts: u64, run: seq<Attempt>, k: DirKey, ts2: u64, parentTs: u64)
    requires ProtocolRun(Formatted(uid, gid, ts), run)
    requires var s := Run(WithDeltas, Formatted(uid, gid, ts), run);
             && Step(WithDeltas, s, Attempt(DoUnlink(k, ts2, parentTs), false)).reply.Success?
             && k in s.store.entries
             && forall e :: e in s.store.entries && s.store.entries[e].ino == s.store.entries[k].ino ==> e == k
    ensures var z := Formatted(uid, gid, ts);
            var s := Run(WithDeltas, z, run);
            var i := s.store.entries[k].ino;
            i in Purges(s, Attempt(DoUnlink(k, ts2, parentTs), false)) <==> Opens(z, run, i) == Closes(z, run, i)
  {
    hide Inv, Run, Opens, Closes, ProtocolRun, Step, HandlesStored, Shows, OthersSame, Restamped;
    var s := Run(WithDeltas, Formatted(uid, gid, ts), run);
    var i := s.store.entries[k].ino;
    ReachedState(uid, gid, ts, run, i);
    UnlinkEffect(s, k, ts2, parentTs, false);
    UnlinkOutcome(s, k, ts2, parentTs, false);
    OneName(s, k);
  }

  lemma OneName(s: State, k: DirKey)
    requires Inv(s) && k in s.store.entries && !IsDir(s.store.entries[k].mode)
    requires forall e :: e in s.store.entries && s.store.entries[e].ino == s.store.entries[k].ino ==> e == k
    ensures s.store.entries[k].ino in s.store.inodes && s.store.inodes[s.store.entries[k].ino].nlink == 1
  {
    hide IsTree, DirLinks, LiveLogs, WellTyped, CacheTyped, Deferred, IsDir;
    EntryTypes(s.store.inodes, s.store.entries, k);
    assert Names(s.store.entries, s.store.entries[k].ino) == {k};
  }
}
