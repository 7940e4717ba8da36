/**
 Transactions on one row under its lock, with refused commits and retries (server/src/lib.rs,
 storage/src/rocks.rs): in every interleaving the row is what the committed requests make of it
 one after the other, and each call commits at most once.
 */
module RowTransactions {
  import opened Types
  import opened Wrappers
  import opened Server
  import opened Logging

  const MAX_TRIES := 3

  datatype Phase<V> = Waiting | Holding(seen: V) | Committed | Failed

  /** A call: its request, the attempts begun so far, and where it is. */
  datatype Worker<V, R> = Worker(req: R, tries: nat, phase: Phase<V>)

  /** The row, who holds its lock, the calls, and the calls that have committed, in order. */
  datatype Table<V, R> = Table(row: V, holder: Option<nat>, workers: seq<Worker<V, R>>, log: seq<nat>)

  /** What a request makes of a row, or nothing if it ends with an error. */
  type Effect<!V, !R> = (V, R) -> Option<V>

  /** The next step of one call: lock and read, or commit, or find the commit refused. */
  function Step<V, R>(f: Effect<V, R>, t: Table<V, R>, w: nat, refused: bool): Table<V, R> {
    if w >= |t.workers| then t
    else
      var c := t.workers[w];
      match c.phase
      case Waiting =>
        if t.holder.Some? || c.tries >= MAX_TRIES then t
        else t.(holder := Some(w), workers := t.workers[w := Worker(c.req, c.tries + 1, Holding(t.row))])
      case Holding(seen) =>
        var r := f(seen, c.req);
        if r.None? then t.(holder := None, workers := t.workers[w := c.(phase := Failed)])
        else if refused then
          t.(holder := None, workers := t.workers[w := c.(phase := if c.tries < MAX_TRIES then Waiting else Failed)])
        else
          t.(row := r.value, holder := None, workers := t.workers[w := c.(phase := Committed)], log := t.log + [w])
      case Committed => t
      case Failed => t
  }

  function Started<V, R>(row: V, reqs: seq<R>): Table<V, R> {
    Table(row, None, seq(|reqs|, j requires 0 <= j < |reqs| => Worker(reqs[j], 0, Waiting)), [])
  }

  datatype Move = Move(w: nat, refused: bool)

  function Interleaved<V, R>(f: Effect<V, R>, t: Table<V, R>, moves: seq<Move>): Table<V, R> {
    if moves == [] then t
    else Step(f, Interleaved(f, t, moves[..|moves| - 1]), moves[|moves| - 1].w, moves[|moves| - 1].refused)
  }

  /** The requests of the logged calls applied one after the other. */
  function Replay<V, R>(f: Effect<V, R>, row: V, reqs: seq<R>, log: seq<nat>): Option<V>
    requires forall j :: 0 <= j < |log| ==> log[j] < |reqs|
  {
    if log == [] then Some(row)
    else
      var before := Replay(f, row, reqs, log[..|log| - 1]);
      if before.None? then None else f(before.value, reqs[log[|log| - 1]])
  }

  /** Only the holder of the lock has read the row, and what it has read is current. */
  ghost predicate Locked<V, R>(t: Table<V, R>) {
    forall w :: 0 <= w < |t.workers| && t.workers[w].phase.Holding? ==>
      t.holder == Some(w) && t.workers[w].phase.seen == t.row
  }

  ghost predicate Logged<V, R>(t: Table<V, R>) {
    && (forall j :: 0 <= j < |t.log| ==> t.log[j] < |t.workers| && t.workers[t.log[j]].phase.Committed?)
    && (forall j, l :: 0 <= j < l < |t.log| ==> t.log[j] != t.log[l])
    && (forall w :: 0 <= w < |t.workers| && t.workers[w].phase.Committed? ==> w in t.log)
  }

  ghost predicate Serial<V, R>(f: Effect<V, R>, row: V, reqs: seq<R>, t: Table<V, R>) {
    && Requests(reqs, t) && Locked(t) && Logged(t)
    && Replay(f, row, reqs, t.log) == Some(t.row)
  }

  lemma StepKeepsLocked<V, R>(f: Effect<V, R>, t: Table<V, R>, w: nat, refused: bool)
    requires Locked(t)
    ensures Locked(Step(f, t, w, refused))
  {
  }

  lemma StepKeepsLogged<V, R>(f: Effect<V, R>, t: Table<V, R>, w: nat, refused: bool)
    requires Logged(t)
    ensures Logged(Step(f, t, w, refused))
  {
    var t' := Step(f, t, w, refused);
    assert forall j :: 0 <= j < |t.log| ==> t'.log[j] == t.log[j];
    if t'.log != t.log {
      assert t'.log == t.log + [w] && w !in t.log;
    }
  }

  /** Calls keep their requests and never begin a fourth attempt. */
  ghost predicate Requests<V, R>(reqs: seq<R>, t: Table<V, R>) {
    && |t.workers| == |reqs|
    && forall w :: 0 <= w < |reqs| ==> t.workers[w].req == reqs[w] && t.workers[w].tries <= MAX_TRIES
  }

  lemma StepKeepsRequests<V, R>(f: Effect<V, R>, reqs: seq<R>, t: Table<V, R>, w: nat, refused: bool)
    requires Requests(reqs, t)
    ensures Requests(reqs, Step(f, t, w, refused))
  {
  }

  /** A step either leaves row and log alone or appends its call and applies the request to the current row. */
  lemma StepEffect<V, R>(f: Effect<V, R>, reqs: seq<R>, t: Table<V, R>, w: nat, refused: bool)
    requires Requests(reqs, t) && Locked(t)
    ensures var t' := Step(f, t, w, refused);
            || (t'.row == t.row && t'.log == t.log)
            || (w < |reqs| && f(t.row, reqs[w]) == Some(t'.row) && t'.log == t.log + [w])
  {
  }

  lemma ReplaySnoc<V, R>(f: Effect<V, R>, row: V, reqs: seq<R>, log: seq<nat>, w: nat)
    requires w < |reqs| && forall j :: 0 <= j < |log| ==> log[j] < |reqs|
    ensures var before := Replay(f, row, reqs, log);
            Replay(f, row, reqs, log + [w]) == if before.None? then None else f(before.value, reqs[w])
  {
    assert (log + [w])[..|log + [w]| - 1] == log;
  }

  lemma StepIsSerial<V, R>(f: Effect<V, R>, row: V, reqs: seq<R>, t: Table<V, R>, w: nat, refused: bool)
    requires Serial(f, row, reqs, t)
    ensures Serial(f, row, reqs, Step(f, t, w, refused))
  {
    hide Step, Replay, Locked, Requests;
    StepKeepsRequests(f, reqs, t, w, refused);
    StepKeepsLocked(f, t, w, refused);
    StepKeepsLogged(f, t, w, refused);
    StepEffect(f, reqs, t, w, refused);
    LogIsInRange(reqs, t);
    if w < |reqs| {
      ReplaySnoc(f, row, reqs, t.log, w);
    }
  }

  lemma LogIsInRange<V, R>(reqs: seq<R>, t: Table<V, R>)
    requires Requests(reqs, t) && Logged(t)
    ensures forall j :: 0 <= j < |t.log| ==> t.log[j] < |reqs|
  {
  }

  /**
   Serialisability: in every interleaving the row is the result of the committed requests in the
   order of their commits; every call is in that order at most once, and begins at most three attempts.
   */
  lemma {:induction false} EveryInterleavingIsSerial<V, R>(f: Effect<V, R>, row: V, reqs: seq<R>, moves: seq<Move>)
    ensures Serial(f, row, reqs, Interleaved(f, Started(row, reqs), moves))
  {
    hide Step, Serial;
    if moves == [] {
      StartedIsSerial(f, row, reqs);
    } else {
      var n := |moves| - 1;
      EveryInterleavingIsSerial(f, row, reqs, moves[..n]);
      StepIsSerial(f, row, reqs, Interleaved(f, Started(row, reqs), moves[..n]), moves[n].w, moves[n].refused);
    }
  }

  lemma StartedIsSerial<V, R>(f: Effect<V, R>, row: V, reqs: seq<R>)
    ensures Serial(f, row, reqs, Started(row, reqs))
  {
  }

  // ------------------------------------------------------------------ report_write

  /** A reported size only ever raises the stored one. */
  function Grow(size: u64, reported: u64): Option<u64> {
    Some(if reported > size then reported else size)
  }

  function Largest(size: u64, reports: seq<u64>, log: seq<nat>): u64
    requires forall j :: 0 <= j < |log| ==> log[j] < |reports|
  {
    if log == [] then size else Max(Largest(size, reports, log[..|log| - 1]), reports[log[|log| - 1]])
  }

  /** This is what report_write does to the size of the row it has locked. */
  lemma GrowIsReportWrite(s: State, i: Ino, newSize: u64, mtime: u64)
    requires i in s.store.inodes
    ensures var o := ReportWrite(s, i, newSize, mtime, false);
            Some(o.state.store.inodes[i].size) == Grow(s.store.inodes[i].size, newSize)
  {
  }

  lemma {:induction false} ReplayIsLargest(size: u64, reports: seq<u64>, log: seq<nat>)
    requires forall j :: 0 <= j < |log| ==> log[j] < |reports|
    ensures Replay<u64, u64>(Grow, size, reports, log) == Some(Largest(size, reports, log))
  {
    if log != [] {
      ReplayIsLargest(size, reports, log[..|log| - 1]);
    }
  }

  lemma {:induction false} LargestBounds(size: u64, reports: seq<u64>, log: seq<nat>)
    requires forall j :: 0 <= j < |log| ==> log[j] < |reports|
    ensures Largest(size, reports, log) >= size && forall w :: w in log ==> Largest(size, reports, log) >= reports[w]
    ensures Largest(size, reports, log) == size || exists w :: w in log && Largest(size, reports, log) == reports[w]
  {
    if log != [] {
      var front, last := log[..|log| - 1], log[|log| - 1];
      LargestBounds(size, reports, front);
      assert log == front + [last];
      assert last in log;
    }
  }

  /** No report is lost: the final size is the largest of the initial size and all committed reports. */
  lemma NoReportIsLost(size: u64, reports: seq<u64>, moves: seq<Move>)
    ensures var t := Interleaved<u64, u64>(Grow, Started<u64, u64>(size, reports), moves);
            && |t.workers| == |reports|
            && t.row >= size
            && (forall w :: 0 <= w < |reports| && t.workers[w].phase.Committed? ==> t.row >= reports[w])
            && (t.row == size || exists w :: 0 <= w < |reports| && t.workers[w].phase.Committed? && t.row == reports[w])
  {
    hide Step, Interleaved, Replay, Largest;
    EveryInterleavingIsSerial<u64, u64>(Grow, size, reports, moves);
    var t := Interleaved<u64, u64>(Grow, Started<u64, u64>(size, reports), moves);
    ReplayIsLargest(size, reports, t.log);
    LargestBounds(size, reports, t.log);
  }

  // ------------------------------------------------------------------ one name

  /** Requests on one directory entry: create it as an inode, remove it, or put an inode in its place. */
  datatype EntryReq = CreateAs(i: Ino) | Remove | ReplaceBy(i: Ino)

  function OnEntry(entry: Option<Ino>, req: EntryReq): Option<Option<Ino>> {
    match req
    case CreateAs(i) => if entry.Some? then None else Some(Some(i))
    case Remove => if entry.None? then None else Some(None)
    case ReplaceBy(i) => Some(Some(i))
  }

  function NamedBy(s: State, k: DirKey): Option<Ino> {
    if k in s.store.entries then Some(s.store.entries[k].ino) else None
  }

  /** An operation with this outcome has made the request of the entry, or failed and left it alone. */
  ghost predicate Requested(s: State, o: Outcome, k: DirKey, req: EntryReq) {
    && (o.reply.Success? ==> OnEntry(NamedBy(s, k), req) == Some(NamedBy(o.state, k)))
    && (o.reply.Failure? ==> NamedBy(o.state, k) == NamedBy(s, k))
  }

  /** create, mkdir and symlink create the entry they have locked, and succeed exactly when it is free. */
  lemma OnEntryIsCreate(s: State, k: DirKey, n: NewNode)
    requires |k.name| <= NAME_MAX
    ensures var o := AddNode(WithDeltas, s, k, n, false);
            && (o.reply.Success? <==> OnEntry(NamedBy(s, k), CreateAs(s.mem.next)).Some?)
            && Requested(s, o, k, CreateAs(s.mem.next))
  {
    hide LogAll, CacheAll;
    LogAllFrame(Txn(NodeStore(s.store, s.mem.next, k, n), s.mem.seqs), NewLogs(k, n));
  }

  /** So does link, with the target. */
  lemma OnEntryIsLink(s: State, k: DirKey, target: Ino, ts: u64, parentTs: u64)
    ensures Requested(s, Link(WithDeltas, s, k, target, ts, parentTs, false), k, CreateAs(target))
  {
    hide LogAll, CacheAll;
    if target in s.store.inodes {
      LogAllFrame(Txn(LinkStore(s.store, k, target, ts), s.mem.seqs), [LogItem(k.parent, Stamps(parentTs))]);
    }
  }

  /** unlink removes the entry it has locked. */
  lemma OnEntryIsUnlink(s: State, k: DirKey, ts: u64, parentTs: u64)
    ensures Requested(s, Unlink(WithDeltas, s, k, ts, parentTs, false), k, Remove)
  {
    hide LogAll, CacheAll, Touched;
    var st := s.store;
    if k in st.entries && st.entries[k].ino in st.inodes {
      var i := st.entries[k].ino;
      var dying := OneLinkLess(st.inodes[i], ts).nlink == 0 && HandleCount(s.mem, i) == 0;
      LogAllFrame(Txn(UnlinkStore(st, k, dying, ts), s.mem.seqs), [LogItem(k.parent, Stamps(parentTs))]);
    }
  }

  /** So does rmdir. */
  lemma OnEntryIsRmdir(s: State, k: DirKey, ts: u64)
    ensures Requested(s, Rmdir(WithDeltas, s, k, ts, false), k, Remove)
  {
    hide LogAll, CacheAll, DirEmpty;
    if k in s.store.entries {
      LogAllFrame(Txn(RmdirStore(s.store, k), s.mem.seqs), RmdirLogs(k, ts));
    }
  }

  /** rename between two names removes the one and puts the inode in the place of the other. */
  lemma OnEntryIsRename(s: State, k: DirKey, k2: DirKey, ts: u64)
    requires k != k2
    ensures var o := Rename(WithDeltas, s, k, k2, ts, false);
            && Requested(s, o, k, Remove)
            && (k in s.store.entries ==> Requested(s, o, k2, ReplaceBy(s.store.entries[k].ino)))
  {
    hide LogAll, CacheAll, RenameInodes, RenameLogsOf, DirEmpty;
    if RenameRefusal(s.store, k, k2).None? {
      LogAllFrame(Txn(RenameStore(s.store, k, k2, ts), s.mem.seqs), RenameLogsOf(s.store, k, k2, ts));
    }
  }

  lemma {:induction false} ReplayLast(entry: Option<Ino>, reqs: seq<EntryReq>, log: seq<nat>)
    requires forall j :: 0 <= j < |log| ==> log[j] < |reqs|
    requires Replay(OnEntry, entry, reqs, log).Some?
    ensures log != [] ==> Replay(OnEntry, entry, reqs, log).value.None? == reqs[log[|log| - 1]].Remove?
    ensures forall j :: 0 < j < |log| && reqs[log[j]].CreateAs? ==> reqs[log[j - 1]].Remove?
    ensures forall j :: 0 < j < |log| && reqs[log[j]].Remove? ==> !reqs[log[j - 1]].Remove?
    ensures log != [] && reqs[log[0]].CreateAs? ==> entry.None?
    ensures log != [] && reqs[log[0]].Remove? ==> entry.Some?
  {
    if log != [] {
      ReplayLast(entry, reqs, log[..|log| - 1]);
    }
  }

  /**
   In every interleaving of creations, removals and replacements of one name: a creation that commits
   follows directly on a removal, or comes first on a free name, so between two of them the name was
   removed. At the end the name is free exactly when the last commit removed it.
   */
  lemma CreatedOnceBetweenRemovals(entry: Option<Ino>, reqs: seq<EntryReq>, moves: seq<Move>)
    ensures var t := Interleaved(OnEntry, Started(entry, reqs), moves);
            && (forall j :: 0 <= j < |t.log| ==> t.log[j] < |reqs|)
            && (forall j, l :: 0 <= j < l < |t.log| && reqs[t.log[j]].CreateAs? && reqs[t.log[l]].CreateAs? ==>
                  exists m :: j < m < l && reqs[t.log[m]].Remove?)
            && (t.log != [] ==> t.row.None? == reqs[t.log[|t.log| - 1]].Remove?)
            && (t.log != [] && reqs[t.log[0]].CreateAs? ==> entry.None?)
  {
    hide Step, Interleaved, Replay;
    EveryInterleavingIsSerial(OnEntry, entry, reqs, moves);
    var t := Interleaved(OnEntry, Started(entry, reqs), moves);
    ReplayLast(entry, reqs, t.log);
    forall j, l | 0 <= j < l < |t.log| && reqs[t.log[j]].CreateAs? && reqs[t.log[l]].CreateAs?
      ensures exists m :: j < m < l && reqs[t.log[m]].Remove?
    {
      assert reqs[t.log[l - 1]].Remove?;
    }
  }

  // ------------------------------------------------------------------ progress

  /** A call that finds the lock free, has a try left and is not refused commits its request. */
  lemma FreeCallCommits<V, R>(f: Effect<V, R>, t: Table<V, R>, w: nat)
    requires t.holder.None? && w < |t.workers| && t.workers[w].phase.Waiting? && t.workers[w].tries < MAX_TRIES
    requires f(t.row, t.workers[w].req).Some?
    ensures var t' := Interleaved(f, t, [Move(w, false), Move(w, false)]);
            && |t'.workers| == |t.workers| && t'.workers[w].phase.Committed? && t'.holder.None?
            && Some(t'.row) == f(t.row, t.workers[w].req) && t'.log == t.log + [w]
  {
    var m := Move(w, false);
    TwoMoves(f, t, [], m);
    assert [] + [m, m] == [m, m];
  }

  /** And one that is refused each time gives up after three attempts, with the row as it was. */
  lemma RefusedCallGivesUp<V, R>(f: Effect<V, R>, t: Table<V, R>, w: nat)
    requires t.holder.None? && w < |t.workers| && t.workers[w].phase.Waiting? && t.workers[w].tries == 0
    requires f(t.row, t.workers[w].req).Some?
    ensures var m := Move(w, true);
            var t' := Interleaved(f, t, [m, m, m, m, m, m]);
            && |t'.workers| == |t.workers| && t'.workers[w].phase.Failed? && t'.workers[w].tries == 3
            && t'.holder.None? && t'.row == t.row && t'.log == t.log
  {
    hide Step, Interleaved;
    var m := Move(w, true);
    var t1 := RefusedTry(f, t, w);
    var t2 := RefusedTry(f, t1, w);
    var t3 := RefusedTry(f, t2, w);
    NoMove(f, t);
    TwoMoves(f, t, [], m);
    TwoMoves(f, t, [m, m], m);
    TwoMoves(f, t, [m, m, m, m], m);
    assert [] + [m, m] == [m, m] && [m, m] + [m, m] == [m, m, m, m];
    assert [m, m, m, m] + [m, m] == [m, m, m, m, m, m];
  }

  lemma NoMove<V, R>(f: Effect<V, R>, t: Table<V, R>)
    ensures Interleaved(f, t, []) == t
  {
  }

  lemma TwoMoves<V, R>(f: Effect<V, R>, t: Table<V, R>, moves: seq<Move>, m: Move)
    ensures Interleaved(f, t, moves + [m, m]) ==
            Step(f, Step(f, Interleaved(f, t, moves), m.w, m.refused), m.w, m.refused)
  {
    hide Step;
    assert (moves + [m, m])[..|moves| + 1] == moves + [m] && (moves + [m])[..|moves|] == moves;
  }

  lemma RefusedTry<V, R>(f: Effect<V, R>, t: Table<V, R>, w: nat) returns (t': Table<V, R>)
    requires t.holder.None? && w < |t.workers| && t.workers[w].phase.Waiting? && t.workers[w].tries < MAX_TRIES
    requires f(t.row, t.workers[w].req).Some?
    ensures t' == Step(f, Step(f, t, w, true), w, true)
    ensures t'.holder.None? && t'.row == t.row && t'.log == t.log && |t'.workers| == |t.workers|
    ensures var c, c' := t.workers[w], t'.workers[w];
            c'.req == c.req && c'.tries == c.tries + 1 && c'.phase == if c.tries < 2 then Waiting else Failed
  {
    t' := Step(f, Step(f, t, w, true), w, true);
  }
}
