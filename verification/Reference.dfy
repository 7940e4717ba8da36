/**
 A file system as its callers think of it: names, nodes, symlink targets and open handles, without
 deltas, caches, transactions or deferred deletion. The metadata server (server/src/lib.rs) behaves
 like it over every run of the protocol: the same names, attributes and handles after every attempt,
 and the same answers.
 */
module Reference {
  import opened Bits
  import opened Types
  import opened Wrappers
  import opened DeltaFold
  import opened Server
  import opened Logging
  import opened Tree
  import opened Links
  import opened Invariants
  import opened Preservation
  import opened RenamePreservation
  import opened Namespace
  import opened Protocol
  import opened Answers
  import opened Effects
  import opened Handles
  import opened Retries
  import opened Vfs
  import Allocator

  // ------------------------------------------------------------------ the reference

  datatype Node = Node(inode: Ino, mode: nat, uid: u32, gid: u32, size: u64)

  datatype Fs = Fs(names: map<DirKey, Ino>, nodes: map<Ino, Node>, targets: map<Ino, Name>, opens: map<Ino, nat>,
                   next: Ino)

  datatype Answer =
    | Refused(error: FsError)
    | Told(node: Node)
    | Changed(node: Node, truncate: Option<u64>)
    | Gone(inodes: set<Ino>)
    | Ok

  datatype Turn = Turn(fs: Fs, answer: Answer)

  predicate Folder(fs: Fs, i: Ino) {
    i in fs.nodes && And(fs.nodes[i].mode, 0x4000) != 0
  }

  ghost predicate Named(fs: Fs, i: Ino) {
    exists k :: k in fs.names && fs.names[k] == i
  }

  ghost predicate Occupied(fs: Fs, i: Ino) {
    exists k :: k in fs.names && k.parent == i
  }

  /** A file lives as long as it has a name or is open. */
  ghost function Reap(fs: Fs, i: Ino): Turn {
    if i in fs.nodes && !Folder(fs, i) && !Named(fs, i) && i !in fs.opens
    then Turn(fs.(nodes := fs.nodes - {i}), Gone({i}))
    else Turn(fs, Gone({}))
  }

  ghost function Add(fs: Fs, k: DirKey, node: Node, target: Option<Name>, refused: bool): Turn {
    if |k.name| > 255 then Turn(fs, Refused(NameTooLong))
    else if k in fs.names then Turn(fs, Refused(AlreadyExists))
    else
      var counted := fs.(next := (fs.next + 1) % 0x1_0000_0000_0000_0000);
      if refused then Turn(counted, Refused(TransactionConflict))
      else
        Turn(counted.(names := fs.names[k := fs.next], nodes := fs.nodes[fs.next := node],
                      targets := if target.Some? then fs.targets[fs.next := target.value] else fs.targets),
             Told(node))
  }

  function WithHandle(fs: Fs, i: Ino): Fs {
    fs.(opens := fs.opens[i := (if i in fs.opens then fs.opens[i] else 0) + 1])
  }

  function WithoutHandle(fs: Fs, i: Ino): Fs
    requires i in fs.opens
  {
    fs.(opens := if fs.opens[i] > 1 then fs.opens[i := fs.opens[i] - 1] else fs.opens - {i})
  }

  function Changes(n: Node, req: SetAttrRequest): Node {
    Node(n.inode,
         match req.mode case Some(m) => Or(And(n.mode, 0xF000), And(m, 0xFFF)) case None => n.mode,
         match req.uid case Some(x) => x case None => n.uid,
         match req.gid case Some(x) => x case None => n.gid,
         match req.size case Some(x) => x case None => n.size)
  }

  ghost function DoRemove(fs: Fs, k: DirKey, refused: bool): Turn {
    if |k.name| > 255 then Turn(fs, Refused(NameTooLong))
    else if k !in fs.names then Turn(fs, Refused(NotFound))
    else if Folder(fs, fs.names[k]) then Turn(fs, Refused(IsADirectory))
    else if refused then Turn(fs, Refused(TransactionConflict))
    else Reap(fs.(names := fs.names - {k}), fs.names[k])
  }

  ghost function DoRemoveFolder(fs: Fs, k: DirKey, refused: bool): Turn {
    if |k.name| > 255 then Turn(fs, Refused(NameTooLong))
    else if k !in fs.names then Turn(fs, Refused(NotFound))
    else if !Folder(fs, fs.names[k]) then Turn(fs, Refused(NotADirectory))
    else if Occupied(fs, fs.names[k]) then Turn(fs, Refused(DirectoryNotEmpty))
    else if refused then Turn(fs, Refused(TransactionConflict))
    else Turn(fs.(names := fs.names - {k}, nodes := fs.nodes - {fs.names[k]}), Ok)
  }

  /** The node of a replaced folder stays: nothing ever collects it. */
  ghost function DoMove(fs: Fs, k: DirKey, k2: DirKey, refused: bool): Turn {
    if |k.name| > 255 || |k2.name| > 255 then Turn(fs, Refused(NameTooLong))
    else if k !in fs.names then Turn(fs, Refused(NotFound))
    else
      var src := fs.names[k];
      var moved := fs.(names := (fs.names - {k})[k2 := src]);
      if k2 !in fs.names then if refused then Turn(fs, Refused(TransactionConflict)) else Turn(moved, Gone({}))
      else
        var dst := fs.names[k2];
        if Folder(fs, src) && !Folder(fs, dst) then Turn(fs, Refused(NotADirectory))
        else if !Folder(fs, src) && Folder(fs, dst) then Turn(fs, Refused(IsADirectory))
        else if Folder(fs, dst) && Occupied(fs, dst) then Turn(fs, Refused(DirectoryNotEmpty))
        else if refused then Turn(fs, Refused(TransactionConflict))
        else Reap(moved, dst)
  }

  ghost function DoName(fs: Fs, k: DirKey, target: Ino, refused: bool): Turn {
    if |k.name| > 255 then Turn(fs, Refused(NameTooLong))
    else if target !in fs.nodes then Turn(fs, Refused(NotFound))
    else if Folder(fs, target) then Turn(fs, Refused(PermissionDenied))
    else if k in fs.names then Turn(fs, Refused(AlreadyExists))
    else if k.parent !in fs.nodes then Turn(fs, Refused(NotFound))
    else if !Folder(fs, k.parent) then Turn(fs, Refused(NotADirectory))
    else if refused then Turn(fs, Refused(TransactionConflict))
    else Turn(fs.(names := fs.names[k := target]), Told(fs.nodes[target]))
  }

  /** One attempt on the reference; clocks, compaction and eviction mean nothing to it. */
  ghost function Do(fs: Fs, a: Attempt): Turn {
    match a.op
    case DoCreate(k, mode, uid, gid, _) =>
      Add(fs, k, Node(fs.next, Or(0x8000, And(mode, 0xFFF)), uid, gid, 0), None, a.conflict)
    case DoCreateAndOpen(k, mode, uid, gid, _) =>
      var t := Add(fs, k, Node(fs.next, Or(0x8000, And(mode, 0xFFF)), uid, gid, 0), None, a.conflict);
      if t.answer.Told? then t.(fs := WithHandle(t.fs, fs.next)) else t
    case DoMkdir(k, mode, uid, gid, _) =>
      Add(fs, k, Node(fs.next, Or(0x4000, And(mode, 0xFFF)), uid, gid, 0), None, a.conflict)
    case DoSymlink(k, link, uid, gid, _) =>
      Add(fs, k, Node(fs.next, Or(0xA000, 0x1FF), uid, gid, |link| % 0x1_0000_0000_0000_0000), Some(link), a.conflict)
    case DoUnlink(k, _, _) => DoRemove(fs, k, a.conflict)
    case DoRmdir(k, _) => DoRemoveFolder(fs, k, a.conflict)
    case DoRename(k, k2, _) => DoMove(fs, k, k2, a.conflict)
    case DoLink(k, target, _, _) => DoName(fs, k, target, a.conflict)
    case DoSetAttr(i, req, _) =>
      if i !in fs.nodes then Turn(fs, Refused(NotFound))
      else if a.conflict then Turn(fs, Refused(TransactionConflict))
      else
        var n := Changes(fs.nodes[i], req);
        Turn(fs.(nodes := fs.nodes[i := n]), Changed(n, if n.size < fs.nodes[i].size then Some(n.size) else None))
    case DoReportWrite(i, newSize, _) =>
      if i !in fs.nodes then Turn(fs, Refused(NotFound))
      else if a.conflict then Turn(fs, Refused(TransactionConflict))
      else
        var n := fs.nodes[i];
        Turn(fs.(nodes := fs.nodes[i := n.(size := if newSize > n.size then newSize else n.size)]), Ok)
    case DoLoad(i) => Turn(fs, if i in fs.nodes then Told(fs.nodes[i]) else Refused(NotFound))
    case DoOpen(i, truncate, _) =>
      if i !in fs.nodes then Turn(fs, Refused(NotFound))
      else if Folder(fs, i) then Turn(fs, Refused(IsADirectory))
      else if truncate && fs.nodes[i].size > 0 && a.conflict then Turn(fs, Refused(TransactionConflict))
      else
        var n := if truncate then fs.nodes[i].(size := 0) else fs.nodes[i];
        Turn(WithHandle(fs.(nodes := fs.nodes[i := n]), i), Ok)
    case DoRelease(i) => if i in fs.opens then Reap(WithoutHandle(fs, i), i) else Turn(fs, Gone({}))
    case _ => Turn(fs, Ok)
  }

  ghost function DoAll(fs: Fs, run: seq<Attempt>): Fs {
    if run == [] then fs else Do(DoAll(fs, run[..|run| - 1]), run[|run| - 1]).fs
  }

  // ------------------------------------------------------------------ what the server shows

  function NodeOf(v: InodeValue): Node {
    Node(v.inode, v.mode, v.uid, v.gid, v.size)
  }

  ghost function Abs(s: State): Fs {
    Fs(map k | k in s.store.entries :: s.store.entries[k].ino,
       map i | i in s.store.inodes :: NodeOf(s.store.inodes[i]),
       s.store.symlinks, s.mem.handles, s.mem.next)
  }

  function AnswerOf(r: Result<Reply, FsError>): Answer {
    match r
    case Failure(e) => Refused(e)
    case Success(Attr(v)) => Told(NodeOf(v))
    case Success(Updated(v, t)) => Changed(NodeOf(v), t)
    case Success(Purged(inodes)) => Gone(set i | i in inodes)
    case Success(_) => Ok
  }

  /** Cached values have the attributes that are stored. */
  ghost predicate CacheShows(I: Inodes, cache: Inodes) {
    forall i :: i in cache ==> i in I && NodeOf(cache[i]) == NodeOf(I[i])
  }

  ghost predicate Ready(s: State) {
    Inv(s) && HandlesStored(s) && CacheShows(s.store.inodes, s.mem.cache)
  }

  /** The attempt does what the reference does. */
  ghost predicate Matches(s: State, a: Attempt) {
    var o := Step(WithDeltas, s, a);
    Do(Abs(s), a) == Turn(Abs(o.state), AnswerOf(o.reply))
  }

  // ------------------------------------------------------------------ shared facts

  lemma FoldKeepsNode(v: InodeValue, ops: seq<DeltaOp>)
    ensures NodeOf(Fold(v, ops)) == NodeOf(v)
  {
    FoldByField(v, ops);
  }

  lemma SameNodes(st: Store, u: Store, changed: set<Ino>)
    requires OthersSame(st, u, changed)
    ensures forall i: Ino :: i !in changed ==>
              (i in u.inodes <==> i in st.inodes) && (i in st.inodes ==> NodeOf(u.inodes[i]) == NodeOf(st.inodes[i]))
  {
    hide Fold, NodeOf;
    forall i: Ino | i !in changed && i in st.inodes && i in u.inodes
      ensures NodeOf(u.inodes[i]) == NodeOf(st.inodes[i])
    {
      assert SameInode(st, u, i);
      FoldKeepsNode(st.inodes[i], Ops(DeltasOf(st, i)));
      FoldKeepsNode(u.inodes[i], Ops(DeltasOf(u, i)));
    }
  }

  lemma StampedNode(st: Store, u: Store, p: Ino, ts: u64, links: int)
    requires Restamped(st, u, p, ts, links)
    ensures p in u.inodes <==> p in st.inodes
    ensures p in st.inodes ==> NodeOf(u.inodes[p]) == NodeOf(st.inodes[p])
  {
    hide Fold;
    if p in st.inodes {
      FoldKeepsNode(st.inodes[p], Ops(DeltasOf(st, p)));
      FoldKeepsNode(u.inodes[p], Ops(DeltasOf(u, p)));
    }
  }

  lemma FolderIsDir(s: State, i: Ino)
    requires i in s.store.inodes
    ensures Folder(Abs(s), i) <==> IsDir(s.store.inodes[i].mode)
  {
    hide And;
    DirectoryTestIsBitwise(s.store.inodes[i].mode);
  }

  lemma EntryFolder(s: State, k: DirKey)
    requires WellTyped(s.store.inodes, s.store.entries) && k in s.store.entries
    ensures s.store.entries[k].ino in s.store.inodes
    ensures Folder(Abs(s), s.store.entries[k].ino) <==> IsDir(s.store.entries[k].mode)
  {
    hide Abs, Folder;
    EntryTypes(s.store.inodes, s.store.entries, k);
    FolderIsDir(s, s.store.entries[k].ino);
  }

  /** A failed attempt shows nothing new. */
  lemma FailureShowsNothing(s: State, s': State)
    requires s'.store == s.store && s'.mem.handles == s.mem.handles && s'.mem.next == s.mem.next
    ensures Abs(s') == Abs(s)
  {
  }

  lemma FailureKeepsAll(s: State, a: Attempt)
    requires Step(WithDeltas, s, a).reply.Failure? && !Creates(a.op) && !a.op.DoRelease?
    ensures Abs(Step(WithDeltas, s, a).state) == Abs(s)
  {
    hide Step, Abs, Opening;
    var s' := Step(WithDeltas, s, a).state;
    FailureKeepsStore(WithDeltas, s, a);
    Allocator.OthersKeepNext(s, a);
    FailedOpen(s, a);
    FailureShowsNothing(s, s');
  }

  lemma FailedOpen(s: State, a: Attempt)
    requires Step(WithDeltas, s, a).reply.Failure? && !a.op.DoRelease?
    ensures Step(WithDeltas, s, a).state.mem.handles == s.mem.handles
  {
    hide Step;
    if a.op.DoCreateAndOpen? {
      CreatesAndOpens(s, a);
    } else if a.op.DoOpen? {
      OpenAddsHandle(s, a);
    } else {
      QuietHandles(s, a);
    }
  }

  // ------------------------------------------------------------------ create, mkdir, symlink

  lemma AddedNode(s: State, s': State, k: DirKey, v: InodeValue, ts: u64, links: int)
    requires var i, st, u := s.mem.next, s.store, s'.store;
             && i !in st.inodes && i in u.inodes && u.inodes[i] == v && k.parent != i
             && u.entries == st.entries[k := Entry(i, v.mode)]
             && OthersSame(st, u, {i, k.parent}) && Restamped(st, u, k.parent, ts, links)
    ensures Abs(s').names == Abs(s).names[k := s.mem.next]
    ensures Abs(s').nodes == Abs(s).nodes[s.mem.next := NodeOf(v)]
  {
    hide OthersSame, Restamped, NodeOf;
    SameNodes(s.store, s'.store, {s.mem.next, k.parent});
    StampedNode(s.store, s'.store, k.parent, ts, links);
  }

  /** The allocator and the handles after a creation. */
  lemma CreationMem(s: State, a: Attempt)
    requires Creates(a.op) && s.mem.next + 1 < TWO64
    ensures var o := Step(WithDeltas, s, a);
            && o.state.mem.next == (if o.reply.Success? || o.reply == Failure(TransactionConflict) then s.mem.next + 1
                                    else s.mem.next)
            && (o.reply.Failure? ==> o.state.store == s.store)
            && (!a.op.DoCreateAndOpen? || o.reply.Failure? ==> o.state.mem.handles == s.mem.handles)
  {
    hide Step;
    Allocator.StepCounter(s, a);
    if Step(WithDeltas, s, a).reply.Failure? {
      FailureKeepsStore(WithDeltas, s, a);
      FailedOpen(s, a);
    }
    if !a.op.DoCreateAndOpen? {
      QuietHandles(s, a);
    }
  }

  lemma AllowedParent(s: State, k: DirKey)
    requires Inv(s) && NewNodeAllowed(s, k)
    ensures k.parent != s.mem.next && s.mem.next + 1 < TWO64
  {
    hide Inv;
    LiveDirIsNumbered(s, k.parent);
  }

  lemma FileMatches(s: State, a: Attempt)
    requires Inv(s) && (a.op.DoCreate? || a.op.DoCreateAndOpen?) && NewNodeAllowed(s, a.op.k)
    ensures Matches(s, a)
  {
    hide Step, Inv, NewNodeAllowed, OthersSame, Restamped, Shows, And, Or, Opening;
    AllowedParent(s, a.op.k);
    CreationAnswers(WithDeltas, s, a);
    CreationMem(s, a);
    var o := Step(WithDeltas, s, a);
    if o.reply.Success? {
      CreatedFile(s, a);
      ShownRow(o.state, s.mem.next, o.reply.value.value);
      AddedNode(s, o.state, a.op.k, o.reply.value.value, a.op.ts, 0);
      if a.op.DoCreateAndOpen? {
        CreatesAndOpens(s, a);
      }
    }
  }

  lemma ShownRow(s: State, i: Ino, v: InodeValue)
    requires Shows(s, i, v)
    ensures i in s.store.inodes && s.store.inodes[i] == v
  {
  }

  lemma FolderMatches(s: State, a: Attempt)
    requires Inv(s) && a.op.DoMkdir? && NewNodeAllowed(s, a.op.k) && RoomForSubdir(s.store.entries, a.op.k.parent)
    ensures Matches(s, a)
  {
    hide Step, Inv, OthersSame, Restamped, Shows, And, Or, RoomForSubdir, LiveDir;
    AllowedParent(s, a.op.k);
    CreationAnswers(WithDeltas, s, a);
    CreationMem(s, a);
    var o := Step(WithDeltas, s, a);
    if o.reply.Success? {
      CreatedDirectory(s, a.op.k, a.op.mode, a.op.uid, a.op.gid, a.op.ts, a.conflict);
      ShownRow(o.state, s.mem.next, o.reply.value.value);
      AddedNode(s, o.state, a.op.k, o.reply.value.value, a.op.ts, 1);
    }
  }

  lemma SymlinkMatches(s: State, a: Attempt)
    requires Inv(s) && a.op.DoSymlink? && NewNodeAllowed(s, a.op.k)
    ensures Matches(s, a)
  {
    hide Step, Inv, NewNodeAllowed, OthersSame, Restamped, Shows, And, Or;
    AllowedParent(s, a.op.k);
    CreationAnswers(WithDeltas, s, a);
    CreationMem(s, a);
    var o := Step(WithDeltas, s, a);
    if o.reply.Success? {
      CreatedSymlink(s, a.op.k, a.op.link, a.op.uid, a.op.gid, a.op.ts, a.conflict);
      ShownRow(o.state, s.mem.next, o.reply.value.value);
      AddedNode(s, o.state, a.op.k, o.reply.value.value, a.op.ts, 0);
    }
  }

  // ------------------------------------------------------------------ unlink, rmdir

  /** Everything outside the two rows is as before. */
  lemma RestAfter(s: State, s': State, i: Ino, p: Ino, ts: u64, links: int)
    requires OthersSame(s.store, s'.store, {i, p}) && Restamped(s.store, s'.store, p, ts, links)
    ensures forall j: Ino :: j != i ==>
              && (j in Abs(s').nodes <==> j in Abs(s).nodes)
              && (j in Abs(s).nodes ==> Abs(s').nodes[j] == Abs(s).nodes[j])
  {
    hide OthersSame, Restamped, NodeOf;
    SameNodes(s.store, s'.store, {i, p});
    StampedNode(s.store, s'.store, p, ts, links);
  }

  /** In a state of the invariant a file has a name if and only if it has a link. */
  lemma NamedIffLinked(s: State, i: Ino)
    requires Inv(s) && i in s.store.inodes && !IsDir(s.store.inodes[i].mode)
    ensures Named(Abs(s), i) <==> s.store.inodes[i].nlink > 0
  {
    hide IsTree, DirLinks, LiveLogs, WellTyped, CacheTyped, Deferred, IsDir;
    if Named(Abs(s), i) {
      var k :| k in Abs(s).names && Abs(s).names[k] == i;
      assert k in Names(s.store.entries, i);
    } else {
      forall k | k in s.store.entries ensures s.store.entries[k].ino != i {
        assert Abs(s).names[k] == s.store.entries[k].ino;
      }
      assert Names(s.store.entries, i) == {};
    }
  }

  /** The names without one of them: the file keeps a name if and only if it had two links. */
  lemma NamedAfterUnlink(s: State, k: DirKey)
    requires Inv(s) && k in s.store.entries && !IsDir(s.store.entries[k].mode)
    ensures var i := s.store.entries[k].ino;
            i in s.store.inodes && (Named(Abs(s).(names := Abs(s).names - {k}), i) <==> s.store.inodes[i].nlink != 1)
  {
    hide IsTree, DirLinks, LiveLogs, WellTyped, CacheTyped, Deferred, IsDir;
    var E, i := s.store.entries, s.store.entries[k].ino;
    NamedFile(s.store.inodes, E, k);
    CountRemove(E, k, i);
    var fs := Abs(s).(names := Abs(s).names - {k});
    if Named(fs, i) {
      var e :| e in fs.names && fs.names[e] == i;
      assert e in Names(E - {k}, i);
    } else {
      forall e | e in E - {k} ensures E[e].ino != i {
        assert fs.names[e] == E[e].ino;
      }
      assert Names(E - {k}, i) == {};
    }
  }

  lemma UnlinkMatches(s: State, a: Attempt)
    requires Inv(s) && a.op.DoUnlink?
    ensures Matches(s, a)
  {
    hide Step, IsTree, FileLinks, DirLinks, LiveLogs, WellTyped, CacheTyped, Deferred, OthersSame, Restamped, Shows,
      Folder, Named, IsDir, Abs;
    var k, o := a.op.k, Step(WithDeltas, s, a);
    UnlinkAnswers(WithDeltas, s, k, a.op.ts, a.op.parentTs, a.conflict);
    AbsNames(s);
    if k in s.store.entries {
      EntryFolder(s, k);
    }
    if o.reply.Failure? {
      FailureKeepsAll(s, a);
    } else {
      UnlinkShows(s, a);
    }
  }

  lemma AbsNames(s: State)
    ensures Abs(s).names.Keys == s.store.entries.Keys && Abs(s).nodes.Keys == s.store.inodes.Keys
    ensures forall k :: k in s.store.entries ==> Abs(s).names[k] == s.store.entries[k].ino
    ensures forall i :: i in s.store.inodes ==> Abs(s).nodes[i] == NodeOf(s.store.inodes[i])
    ensures Abs(s).targets == s.store.symlinks && Abs(s).opens == s.mem.handles && Abs(s).next == s.mem.next
  {
  }

  lemma UnlinkShows(s: State, a: Attempt)
    requires Inv(s) && a.op.DoUnlink? && Step(WithDeltas, s, a).reply.Success?
    ensures a.op.k in s.store.entries
    ensures var o := Step(WithDeltas, s, a);
            Reap(Abs(s).(names := Abs(s).names - {a.op.k}), s.store.entries[a.op.k].ino) ==
            Turn(Abs(o.state), AnswerOf(o.reply))
  {
    hide Step, IsTree, FileLinks, DirLinks, LiveLogs, WellTyped, CacheTyped, Deferred, Named, IsDir, Abs, And, AnswerOf;
    var k, o := a.op.k, Step(WithDeltas, s, a);
    UnlinkNodes(s, a);
    QuietHandles(s, a);
    Allocator.OthersKeepNext(s, a);
    NamedAfterUnlink(s, k);
    AbsNames(s);
    AbsNames(o.state);
    EntryFolder(s, k);
    PurgeAnswers(s.store.entries[k].ino);
  }

  lemma PurgeAnswers(i: Ino)
    ensures AnswerOf(Success(Purged([i]))) == Gone({i}) && AnswerOf(Success(Purged([]))) == Gone({})
  {
    assert (set j | j in [i]) == {i};
  }

  lemma UnlinkNodes(s: State, a: Attempt)
    requires Inv(s) && a.op.DoUnlink? && Step(WithDeltas, s, a).reply.Success?
    ensures a.op.k in s.store.entries && !IsDir(s.store.entries[a.op.k].mode)
    ensures s.store.entries[a.op.k].ino in s.store.inodes
    ensures var o, i := Step(WithDeltas, s, a), s.store.entries[a.op.k].ino;
            var dying := s.store.inodes[i].nlink == 1 && i !in s.mem.handles;
            && o.reply == Success(Purged(if dying then [i] else []))
            && Abs(o.state).names == Abs(s).names - {a.op.k} && Abs(o.state).targets == Abs(s).targets
            && Abs(o.state).nodes == if dying then Abs(s).nodes - {i} else Abs(s).nodes
  {
    hide Step, Inv, OthersSame, Restamped, Shows, IsDir, Abs, NodeOf;
    var k, o := a.op.k, Step(WithDeltas, s, a);
    UnlinkOutcome(s, k, a.op.ts, a.op.parentTs, a.conflict);
    UnlinkEffect(s, k, a.op.ts, a.op.parentTs, a.conflict);
    var i := s.store.entries[k].ino;
    RestAfter(s, o.state, i, k.parent, a.op.parentTs, 0);
    AbsNames(s);
    AbsNames(o.state);
    assert Abs(o.state).names == Abs(s).names - {k};
    if i in o.state.store.inodes {
      SameNode(s.store.inodes[i], o.state.store.inodes[i]);
      assert Abs(o.state).nodes == Abs(s).nodes;
    } else {
      assert Abs(o.state).nodes == Abs(s).nodes - {i};
    }
  }

  lemma SameNode(v: InodeValue, w: InodeValue)
    requires w == v.(nlink := w.nlink, ctime := w.ctime)
    ensures NodeOf(w) == NodeOf(v)
  {
  }

  lemma RmdirMatches(s: State, a: Attempt)
    requires Inv(s) && a.op.DoRmdir?
    ensures Matches(s, a)
  {
    hide Step, IsTree, FileLinks, DirLinks, LiveLogs, WellTyped, CacheTyped, Deferred, OthersSame, Restamped, Folder,
      IsDir, Abs;
    var k, o := a.op.k, Step(WithDeltas, s, a);
    RmdirAnswers(WithDeltas, s, k, a.op.ts, a.conflict);
    AbsNames(s);
    if k in s.store.entries {
      EntryFolder(s, k);
    }
    if o.reply.Failure? {
      FailureKeepsAll(s, a);
    } else {
      RmdirEffect(s, k, a.op.ts, a.conflict);
      QuietHandles(s, a);
      Allocator.OthersKeepNext(s, a);
      var i := s.store.entries[k].ino;
      RestAfter(s, o.state, i, k.parent, a.op.ts, -1);
      AbsNames(o.state);
      assert Abs(o.state).names == Abs(s).names - {k};
      assert Abs(o.state).nodes == Abs(s).nodes - {i};
    }
  }

  // ------------------------------------------------------------------ link, setattr, report_write

  lemma LinkMatches(s: State, a: Attempt)
    requires Inv(s) && a.op.DoLink?
    ensures Matches(s, a)
  {
    hide Step, IsTree, FileLinks, DirLinks, LiveLogs, WellTyped, CacheTyped, Deferred, OthersSame, Restamped, Folder,
      IsDir, Abs, Shows;
    var k, target, o := a.op.k, a.op.target, Step(WithDeltas, s, a);
    LinkAnswers(WithDeltas, s, k, target, a.op.ts, a.op.parentTs, a.conflict);
    AbsNames(s);
    if target in s.store.inodes {
      FolderIsDir(s, target);
    }
    if k.parent in s.store.inodes {
      FolderIsDir(s, k.parent);
    }
    if o.reply.Failure? {
      FailureKeepsAll(s, a);
    } else {
      LinkEffect(s, k, target, a.op.ts, a.op.parentTs, a.conflict);
      QuietHandles(s, a);
      Allocator.OthersKeepNext(s, a);
      RestAfter(s, o.state, target, k.parent, a.op.parentTs, 0);
      AbsNames(o.state);
      assert Abs(o.state).names == Abs(s).names[k := target];
      assert Abs(o.state).nodes == Abs(s).nodes;
    }
  }

  lemma UpdateMatches(s: State, a: Attempt)
    requires a.op.DoSetAttr? || a.op.DoReportWrite?
    ensures Matches(s, a)
  {
    hide Step, Abs, And, Or;
    var i, o := a.op.i, Step(WithDeltas, s, a);
    UpdateAnswers(WithDeltas, s, a);
    AbsNames(s);
    if o.reply.Failure? {
      FailureKeepsAll(s, a);
    } else {
      QuietHandles(s, a);
      if a.op.DoSetAttr? {
        SetAttrEffect(s, i, a.op.req, a.op.ts, a.conflict);
      } else {
        ReportWriteEffect(s, i, a.op.newSize, a.op.mtime, a.conflict);
      }
      AbsNames(o.state);
      assert Abs(o.state).names == Abs(s).names;
      assert Abs(o.state).nodes == Abs(s).nodes[i := NodeOf(o.state.store.inodes[i])];
    }
  }

  // ------------------------------------------------------------------ rename

  /** Nothing but the replaced node can change in a rename. */
  lemma RenameRestAfter(s: State, a: Attempt)
    requires Inv(s) && a.op.DoRename? && RenameAllowed(s.store.entries, a.op.k, a.op.k2) && a.op.k != a.op.k2
    requires Step(WithDeltas, s, a).reply.Success?
    ensures a.op.k in s.store.entries
    ensures var s', E := Step(WithDeltas, s, a).state, s.store.entries;
            && Abs(s').names == (Abs(s).names - {a.op.k})[a.op.k2 := E[a.op.k].ino]
            && forall j: Ino :: Replaced(E, a.op.k2) != Some(j) ==>
                 && (j in s'.store.inodes <==> j in s.store.inodes)
                 && (j in s.store.inodes ==> NodeOf(s'.store.inodes[j]) == NodeOf(s.store.inodes[j]))
  {
    hide Step, Inv, Restamped, IsDir, Abs, RenameAllowed, SameInode, RenameLinks, Load, SameRows;
    var k, k2, s' := a.op.k, a.op.k2, Step(WithDeltas, s, a).state;
    RenameEffect(s, k, k2, a.op.ts, a.conflict);
    var E, src := s.store.entries, s.store.entries[k].ino;
    SameNodes(s.store, s'.store, {src, k.parent, k2.parent} + if k2 in E then {E[k2].ino} else {});
    StampedNode(s.store, s'.store, k.parent, a.op.ts, RenameLinks(E, k, k2, k.parent));
    StampedNode(s.store, s'.store, k2.parent, a.op.ts, RenameLinks(E, k, k2, k2.parent));
    assert NodeOf(s'.store.inodes[src]) == NodeOf(s.store.inodes[src]);
    AbsNames(s);
    AbsNames(s');
    assert Abs(s').names == (Abs(s).names - {k})[k2 := src];
  }

  /** The replaced file goes with its last link; the replaced folder stays. */
  lemma RenameNodes(s: State, a: Attempt)
    requires Inv(s) && a.op.DoRename? && RenameAllowed(s.store.entries, a.op.k, a.op.k2) && a.op.k != a.op.k2
    requires Step(WithDeltas, s, a).reply.Success?
    ensures a.op.k in s.store.entries
    ensures a.op.k2 in s.store.entries ==> s.store.entries[a.op.k2].ino in s.store.inodes
    ensures var o, E, I := Step(WithDeltas, s, a), s.store.entries, s.store.inodes;
            var dying := a.op.k2 in E && !IsDir(I[E[a.op.k2].ino].mode) && I[E[a.op.k2].ino].nlink == 1;
            && o.reply == Success(Purged(if dying then [E[a.op.k2].ino] else []))
            && Abs(o.state).names == (Abs(s).names - {a.op.k})[a.op.k2 := E[a.op.k].ino]
            && Abs(o.state).nodes == if dying then Abs(s).nodes - {E[a.op.k2].ino} else Abs(s).nodes
  {
    hide Step, Inv, Shows, IsDir, Abs, RenameAllowed, Restamped, SameInode, SameRows, RenameLinks, Load;
    var k, k2, o := a.op.k, a.op.k2, Step(WithDeltas, s, a);
    RenameRestAfter(s, a);
    var E := s.store.entries;
    AbsNames(s);
    AbsNames(o.state);
    if k2 !in E {
      RenameEffect(s, k, k2, a.op.ts, a.conflict);
      assert Abs(o.state).nodes == Abs(s).nodes;
    } else {
      ReplacedEffect(s, k, k2, a.op.ts, a.conflict);
      var dst := E[k2].ino;
      if dst in o.state.store.inodes {
        assert NodeOf(o.state.store.inodes[dst]) == NodeOf(s.store.inodes[dst]);
        assert Abs(o.state).nodes == Abs(s).nodes;
      } else {
        assert Abs(o.state).nodes == Abs(s).nodes - {dst};
      }
    }
  }

  lemma RenameKeepsTargets(s: State, a: Attempt)
    requires a.op.DoRename? && Step(WithDeltas, s, a).reply.Success?
    ensures Step(WithDeltas, s, a).state.store.symlinks == s.store.symlinks
  {
    hide Step, RenameRefusal, LoggedStore, RenameLogsOf, CacheAll, RenameInodes, IsDir;
    RenameOutcome(s, a.op.k, a.op.k2, a.op.ts, a.conflict);
    LoggedDeltas(RenameStore(s.store, a.op.k, a.op.k2, a.op.ts), s.mem.seqs,
      RenameLogsOf(s.store, a.op.k, a.op.k2, a.op.ts), Replaced(s.store.entries, a.op.k2),
      Step(WithDeltas, s, a).state.store);
  }

  /** After the move the replaced inode has a name left if and only if it had another. */
  lemma NamedAfterMove(s: State, k: DirKey, k2: DirKey)
    requires Inv(s) && k in s.store.entries && k2 in s.store.entries && !IsDir(s.store.entries[k2].mode) && k != k2
    requires s.store.entries[k].ino != s.store.entries[k2].ino
    ensures var E, dst := s.store.entries, s.store.entries[k2].ino;
            && dst in s.store.inodes
            && (Named(Abs(s).(names := (Abs(s).names - {k})[k2 := E[k].ino]), dst) <==> s.store.inodes[dst].nlink != 1)
  {
    hide Inv, IsDir, Abs;
    var E, dst := s.store.entries, s.store.entries[k2].ino;
    NamedAfterUnlink(s, k2);
    AbsNames(s);
    var f, g := Abs(s).(names := Abs(s).names - {k2}), Abs(s).(names := (Abs(s).names - {k})[k2 := E[k].ino]);
    if Named(f, dst) {
      var e :| e in f.names && f.names[e] == dst;
      assert g.names[e] == dst;
    }
    if Named(g, dst) {
      var e :| e in g.names && g.names[e] == dst;
      assert f.names[e] == dst;
    }
  }

  lemma RenameShows(s: State, a: Attempt)
    requires Inv(s) && a.op.DoRename? && RenameAllowed(s.store.entries, a.op.k, a.op.k2)
    requires ReplacesClosedFile(s, a.op.k, a.op.k2) && a.op.k != a.op.k2
    requires Step(WithDeltas, s, a).reply.Success?
    ensures a.op.k in s.store.entries
    ensures var o, E := Step(WithDeltas, s, a), s.store.entries;
            var moved := Abs(s).(names := (Abs(s).names - {a.op.k})[a.op.k2 := E[a.op.k].ino]);
            Turn(Abs(o.state), AnswerOf(o.reply)) ==
              if a.op.k2 in E then Reap(moved, E[a.op.k2].ino) else Turn(moved, Gone({}))
  {
    hide Step, IsTree, FileLinks, DirLinks, LiveLogs, WellTyped, CacheTyped, Deferred, Named, IsDir, Abs, And, AnswerOf,
      Descends, LiveDir, RoomForSubdir;
    var k, k2, o, E := a.op.k, a.op.k2, Step(WithDeltas, s, a), s.store.entries;
    RenameNodes(s, a);
    QuietHandles(s, a);
    Allocator.OthersKeepNext(s, a);
    RenameKeepsTargets(s, a);
    AbsNames(s);
    AbsNames(o.state);
    PurgeAnswers(if k2 in E then E[k2].ino else 0);
    if k2 in E {
      EntryFolder(s, k2);
      EntryTypes(s.store.inodes, E, k2);
      if !IsDir(E[k2].mode) {
        NamedAfterMove(s, k, k2);
      }
    }
  }

  lemma InPlaceShows(s: State, a: Attempt)
    requires Inv(s) && a.op.DoRename? && a.op.k2 == a.op.k && a.op.k in s.store.entries
    requires !IsDir(s.store.entries[a.op.k].mode) && ReplacesClosedFile(s, a.op.k, a.op.k)
    requires Step(WithDeltas, s, a).reply.Success?
    ensures var o, i := Step(WithDeltas, s, a), s.store.entries[a.op.k].ino;
            var moved := Abs(s).(names := (Abs(s).names - {a.op.k})[a.op.k := i]);
            Turn(Abs(o.state), AnswerOf(o.reply)) == Reap(moved, i)
  {
    hide Step, IsTree, FileLinks, DirLinks, LiveLogs, WellTyped, CacheTyped, Deferred, IsDir, Abs, And, AnswerOf,
      OthersSame, Restamped, Shows;
    var k, o := a.op.k, Step(WithDeltas, s, a);
    var i := s.store.entries[k].ino;
    RenameOntoItselfEffect(s, k, a.op.ts, a.conflict);
    ShownRow(o.state, i, s.store.inodes[i].(ctime := a.op.ts));
    QuietHandles(s, a);
    Allocator.OthersKeepNext(s, a);
    RestAfter(s, o.state, i, k.parent, a.op.ts, 0);
    AbsNames(s);
    AbsNames(o.state);
    PurgeAnswers(i);
    var moved := Abs(s).(names := (Abs(s).names - {k})[k := i]);
    assert moved.names[k] == i;
    assert moved.names == Abs(o.state).names;
    assert Abs(o.state).nodes == Abs(s).nodes;
  }

  lemma RenameMatches(s: State, a: Attempt)
    requires Inv(s) && a.op.DoRename? && RenameAllowed(s.store.entries, a.op.k, a.op.k2)
    requires ReplacesClosedFile(s, a.op.k, a.op.k2)
    ensures Matches(s, a)
  {
    hide Step, IsTree, FileLinks, DirLinks, LiveLogs, WellTyped, CacheTyped, Deferred, Folder, IsDir, Abs, Reap,
      AnswerOf, Descends, LiveDir, RoomForSubdir, ReplacesClosedFile, Occupied;
    var k, k2, o, E := a.op.k, a.op.k2, Step(WithDeltas, s, a), s.store.entries;
    RenameAnswers(WithDeltas, s, k, k2, a.op.ts, a.conflict);
    AbsNames(s);
    if k in E {
      EntryFolder(s, k);
    }
    if k2 in E {
      EntryFolder(s, k2);
      OccupiedIff(s, E[k2].ino);
    }
    FailureAnswer(o.reply);
    if o.reply.Failure? {
      FailureKeepsAll(s, a);
    } else if k != k2 {
      RenameShows(s, a);
    } else {
      InPlaceShows(s, a);
    }
  }

  lemma FailureAnswer(r: Result<Reply, FsError>)
    ensures r.Failure? ==> AnswerOf(r) == Refused(r.error)
  {
  }

  lemma OccupiedIff(s: State, i: Ino)
    ensures Occupied(Abs(s), i) <==> exists e :: e in s.store.entries && e.parent == i
  {
    if Occupied(Abs(s), i) {
      var k :| k in Abs(s).names && k.parent == i;
      assert k in s.store.entries;
    }
    if e :| e in s.store.entries && e.parent == i {
      assert e in Abs(s).names;
    }
  }

  // ------------------------------------------------------------------ load, open, release

  lemma LoadMatches(s: State, a: Attempt)
    requires CacheShows(s.store.inodes, s.mem.cache) && a.op.DoLoad?
    ensures Matches(s, a)
  {
    hide Abs, AddNode, Unlink, Rmdir, Rename, Link, Open, Release, CompactAll, SetAttr, Fold;
    var i, o := a.op.i, Step(WithDeltas, s, a);
    ReadsChangeNothing(s, a);
    FailureShowsNothing(s, o.state);
    AbsNames(s);
    if i in s.store.inodes {
      FoldKeepsNode(s.store.inodes[i], Ops(DeltasOf(s.store, i)));
    }
  }

  lemma OpenMatches(s: State, a: Attempt)
    requires Inv(s) && a.op.DoOpen?
    ensures Matches(s, a)
  {
    hide Step, Inv, Folder, IsDir, Abs, Shows, HandleCount;
    var i, o := a.op.i, Step(WithDeltas, s, a);
    OpenAnswers(WithDeltas, s, i, a.op.truncate, a.op.ts, a.conflict);
    AbsNames(s);
    if i in s.store.inodes {
      FolderIsDir(s, i);
    }
    if o.reply.Failure? {
      FailureKeepsAll(s, a);
    } else {
      OpenEffect(s, i, a.op.truncate, a.op.ts, a.conflict);
      OpenAddsHandle(s, a);
      AbsNames(o.state);
      assert Abs(o.state).names == Abs(s).names;
      assert Abs(o.state).nodes == Abs(s).nodes[i := NodeOf(o.state.store.inodes[i])];
    }
  }

  /** The last handle of a file without links takes the file along; nothing else goes. */
  lemma ReleaseNodes(s: State, a: Attempt)
    requires Inv(s) && HandlesStored(s) && a.op.DoRelease? && !a.conflict && a.op.i in s.mem.handles
    ensures a.op.i in s.store.inodes
    ensures var o, i := Step(WithDeltas, s, a), a.op.i;
            var last := s.mem.handles[i] <= 1 && s.store.inodes[i].nlink == 0;
            && o.reply == Success(Purged(if last then [i] else []))
            && Abs(o.state).names == Abs(s).names && Abs(o.state).targets == Abs(s).targets
            && Abs(o.state).nodes == if last then Abs(s).nodes - {i} else Abs(s).nodes
  {
    hide Step, IsTree, FileLinks, DirLinks, LiveLogs, WellTyped, CacheTyped, IsDir, Abs, OthersSame, NodeOf;
    var i, o := a.op.i, Step(WithDeltas, s, a);
    ReleaseAnswers(WithDeltas, s, i, a.conflict);
    ReleaseEffect(s, i);
    HandlesAreFiles(s, i);
    AbsNames(s);
    AbsNames(o.state);
    assert Abs(o.state).names == Abs(s).names;
    if o.state.store == s.store {
      assert Abs(o.state).nodes == Abs(s).nodes;
    } else {
      SameNodes(s.store, o.state.store, {i});
      assert Abs(o.state).nodes == Abs(s).nodes - {i};
    }
  }

  lemma ReleaseMatches(s: State, a: Attempt)
    requires Inv(s) && HandlesStored(s) && a.op.DoRelease? && !a.conflict
    ensures Matches(s, a)
  {
    hide Step, Inv, HandlesStored, IsDir, Abs, Named, AnswerOf, And;
    var i, o := a.op.i, Step(WithDeltas, s, a);
    ReleaseTakesHandle(s, a);
    AbsNames(s);
    AbsNames(o.state);
    PurgeAnswers(i);
    if i in s.mem.handles {
      ReleaseNodes(s, a);
      HandlesAreFiles(s, i);
      FolderIsDir(s, i);
      NamedIffLinked(s, i);
      NamedDependsOn(Abs(s), WithoutHandle(Abs(s), i), i);
    } else {
      ReleaseAnswers(WithDeltas, s, i, a.conflict);
      ReleaseUnopened(s, i);
      FailureShowsNothing(s, o.state);
    }
  }

  lemma ReleaseUnopened(s: State, i: Ino)
    requires i !in s.mem.handles
    ensures Step(WithDeltas, s, Attempt(DoRelease(i), false)).state.store == s.store
  {
    hide AddNode, Unlink, Rmdir, Rename, Link, Open, CompactAll, SetAttr;
  }

  lemma NamedDependsOn(f: Fs, g: Fs, i: Ino)
    requires g.names == f.names
    ensures Named(g, i) <==> Named(f, i)
  {
  }

  lemma QuietMatches(s: State, a: Attempt)
    requires a.op.DoCompact? || a.op.DoCompactDirty? || a.op.DoFlushAll? || a.op.DoEvict?
    ensures Matches(s, a)
  {
    hide Step, Abs, OthersSame;
    var o := Step(WithDeltas, s, a);
    AbsNames(s);
    AbsNames(o.state);
    QuietAnswer(s, a);
    if a.op.DoEvict? {
      ReadsChangeNothing(s, a);
      FailureShowsNothing(s, o.state);
    } else {
      CompactionEffect(s, a);
      SameNodes(s.store, o.state.store, {});
      assert Abs(o.state).names == Abs(s).names && Abs(o.state).nodes == Abs(s).nodes;
    }
  }

  lemma QuietAnswer(s: State, a: Attempt)
    requires a.op.DoCompact? || a.op.DoCompactDirty? || a.op.DoFlushAll? || a.op.DoEvict?
    ensures Step(WithDeltas, s, a).reply == Success(Done)
  {
    hide AddNode, Unlink, Rmdir, Rename, Link, Open, Release, CompactAll, SetAttr;
  }

  // ------------------------------------------------------------------ the cache shows what is stored

  lemma CacheAllShows(I: Inodes, cache: Inodes, logs: seq<LogItem>)
    requires CacheShows(I, cache)
    ensures CacheShows(I, CacheAll(cache, logs))
  {
    hide NodeOf;
    CacheAllFolds(cache, logs);
    forall i | i in cache ensures NodeOf(CacheAll(cache, logs)[i]) == NodeOf(cache[i]) {
      FoldKeepsNode(cache[i], OpsFor(logs, i));
    }
  }

  lemma PutShows(I: Inodes, cache: Inodes, i: Ino, v: InodeValue)
    requires CacheShows(I, cache)
    ensures CacheShows(I[i := v], cache[i := v]) && CacheShows(I - {i}, cache - {i})
  {
  }

  lemma NodeCacheShows(s: State, k: DirKey, n: NewNode, conflict: bool)
    requires CacheShows(s.store.inodes, s.mem.cache)
    ensures var s' := AddNode(WithDeltas, s, k, n, conflict).state; CacheShows(s'.store.inodes, s'.mem.cache)
  {
    hide LogAll, CacheAll, CacheShows;
    var i, logs := s.mem.next, NewLogs(k, n);
    LogKeepsInodes(NodeStore(s.store, i, k, n), s.mem.seqs, logs);
    PutShows(s.store.inodes, s.mem.cache, i, n.value);
    CacheAllShows(s.store.inodes[i := n.value], s.mem.cache[i := n.value], logs);
  }

  lemma UnlinkCacheShows(s: State, k: DirKey, ts: u64, parentTs: u64, conflict: bool)
    requires CacheShows(s.store.inodes, s.mem.cache)
    ensures var s' := Unlink(WithDeltas, s, k, ts, parentTs, conflict).state; CacheShows(s'.store.inodes, s'.mem.cache)
  {
    hide LogAll, CacheAll, CacheShows, IsDir, Touched;
    var st := s.store;
    if Unlink(WithDeltas, s, k, ts, parentTs, conflict).reply.Success? {
      var i, logs := st.entries[k].ino, [LogItem(k.parent, Stamps(parentTs))];
      var left := OneLinkLess(st.inodes[i], ts);
      var dying := left.nlink == 0 && HandleCount(s.mem, i) == 0;
      LogKeepsInodes(UnlinkStore(st, k, dying, ts), s.mem.seqs, logs);
      PutShows(st.inodes, s.mem.cache, i, left);
      if dying {
        CacheAllShows(st.inodes - {i}, s.mem.cache - {i}, logs);
      } else {
        CacheAllShows(st.inodes[i := left], s.mem.cache[i := left], logs);
      }
    }
  }

  lemma RmdirCacheShows(s: State, k: DirKey, ts: u64, conflict: bool)
    requires CacheShows(s.store.inodes, s.mem.cache)
    ensures var s' := Rmdir(WithDeltas, s, k, ts, conflict).state; CacheShows(s'.store.inodes, s'.mem.cache)
  {
    hide LogAll, CacheAll, CacheShows, IsDir, Touched, DirEmpty;
    if Rmdir(WithDeltas, s, k, ts, conflict).reply.Success? {
      var i := s.store.entries[k].ino;
      LogKeepsInodes(RmdirStore(s.store, k), s.mem.seqs, RmdirLogs(k, ts));
      PutShows(s.store.inodes, s.mem.cache, i, s.store.inodes[i]);
      CacheAllShows(s.store.inodes - {i}, s.mem.cache - {i}, RmdirLogs(k, ts));
    }
  }

  lemma RenameCacheShows(s: State, k: DirKey, k2: DirKey, ts: u64, conflict: bool)
    requires CacheShows(s.store.inodes, s.mem.cache)
    ensures var s' := Rename(WithDeltas, s, k, k2, ts, conflict).state; CacheShows(s'.store.inodes, s'.mem.cache)
  {
    hide LogAll, CacheAll, CacheShows, IsDir, Touched, RenameRefusal, RenameInodes, RenameLogsOf, RenameKills;
    if Rename(WithDeltas, s, k, k2, ts, conflict).reply.Success? {
      SourceExists(s.store, k, k2);
      var E, src, logs := s.store.entries, s.store.entries[k].ino, RenameLogsOf(s.store, k, k2, ts);
      var c := if k2 in E then s.mem.cache - {E[k2].ino} else s.mem.cache;
      LogKeepsInodes(RenameStore(s.store, k, k2, ts), s.mem.seqs, logs);
      RenamedShows(s.store, s.mem.cache, k, k2, ts);
      CacheAllShows(RenameInodes(s.store, k, k2, ts), c[src := s.store.inodes[src].(ctime := ts)], logs);
    }
  }

  lemma SourceExists(st: Store, k: DirKey, k2: DirKey)
    requires RenameRefusal(st, k, k2).None?
    ensures k in st.entries && st.entries[k].ino in st.inodes
  {
  }

  lemma RenamedShows(st: Store, cache: Inodes, k: DirKey, k2: DirKey, ts: u64)
    requires RenameRefusal(st, k, k2).None? && k in st.entries && st.entries[k].ino in st.inodes
    requires CacheShows(st.inodes, cache)
    ensures var src := st.entries[k].ino;
            var c := if k2 in st.entries then cache - {st.entries[k2].ino} else cache;
            CacheShows(RenameInodes(st, k, k2, ts), c[src := st.inodes[src].(ctime := ts)])
  {
    hide IsDir;
  }

  lemma LinkCacheShows(s: State, k: DirKey, target: Ino, ts: u64, parentTs: u64, conflict: bool)
    requires CacheShows(s.store.inodes, s.mem.cache)
    ensures var s' := Link(WithDeltas, s, k, target, ts, parentTs, conflict).state;
            CacheShows(s'.store.inodes, s'.mem.cache)
  {
    hide LogAll, CacheAll, CacheShows, IsDir, Touched;
    if Link(WithDeltas, s, k, target, ts, parentTs, conflict).reply.Success? {
      var v, logs := OneLinkMore(s.store.inodes[target], ts), [LogItem(k.parent, Stamps(parentTs))];
      LogKeepsInodes(LinkStore(s.store, k, target, ts), s.mem.seqs, logs);
      PutShows(s.store.inodes, s.mem.cache, target, v);
      CacheAllShows(s.store.inodes[target := v], s.mem.cache[target := v], logs);
    }
  }

  lemma UpdateCacheShows(s: State, a: Attempt)
    requires CacheShows(s.store.inodes, s.mem.cache)
    requires a.op.DoSetAttr? || a.op.DoReportWrite? || a.op.DoRelease? || a.op.DoEvict?
    ensures var s' := Step(WithDeltas, s, a).state; CacheShows(s'.store.inodes, s'.mem.cache)
  {
    hide AddNode, Unlink, Rmdir, Rename, Link, Load, Open, CompactAll, WithAttrs, IsDir, NodeOf;
  }

  lemma LoadCacheShows(s: State, i: Ino)
    requires CacheShows(s.store.inodes, s.mem.cache)
    ensures var s' := Load(s, i).state; s'.store == s.store && CacheShows(s'.store.inodes, s'.mem.cache)
  {
    hide Effective, NodeOf;
    if i in s.store.inodes {
      EffectiveNode(s.store, i);
    }
  }

  lemma OpenCacheShows(s: State, i: Ino, truncate: bool, ts: u64, conflict: bool)
    requires CacheShows(s.store.inodes, s.mem.cache)
    ensures var s' := Open(s, i, truncate, ts, conflict).state; CacheShows(s'.store.inodes, s'.mem.cache)
  {
    hide Load, CacheShows, IsDir, Truncated;
    LoadCacheShows(s, i);
    if i in s.store.inodes {
      PutShows(s.store.inodes, Load(s, i).state.mem.cache, i, Truncated(s.store.inodes[i], ts));
    }
  }

  lemma EffectiveNode(st: Store, i: Ino)
    requires i in st.inodes
    ensures NodeOf(Effective(st, i)) == NodeOf(st.inodes[i])
  {
    FoldKeepsNode(st.inodes[i], Ops(DeltasOf(st, i)));
  }

  lemma CompactCacheShows(s: State, chosen: set<Ino>)
    requires CacheShows(s.store.inodes, s.mem.cache) && chosen <= s.store.inodes.Keys
    ensures var s' := CompactAll(s, chosen); CacheShows(s'.store.inodes, s'.mem.cache)
  {
    hide Effective, NodeOf;
  }

  /** Every attempt, without any condition on callers. */
  lemma StepCacheShows(s: State, a: Attempt)
    requires CacheShows(s.store.inodes, s.mem.cache)
    ensures var s' := Step(WithDeltas, s, a).state; CacheShows(s'.store.inodes, s'.mem.cache)
  {
    hide CacheShows, AddNode, Unlink, Rmdir, Rename, Link, SetAttr, ReportWrite, Load, Open, Release, CompactAll;
    match a.op {
      case DoCreate(k, mode, uid, gid, ts) => NodeCacheShows(s, k, NewFile(s.mem.next, mode, uid, gid, ts), a.conflict);
      case DoCreateAndOpen(k, mode, uid, gid, ts) =>
        NodeCacheShows(s, k, NewFile(s.mem.next, mode, uid, gid, ts), a.conflict);
      case DoMkdir(k, mode, uid, gid, ts) => NodeCacheShows(s, k, NewDir(s.mem.next, mode, uid, gid, ts), a.conflict);
      case DoSymlink(k, link, uid, gid, ts) =>
        NodeCacheShows(s, k, NewSymlink(s.mem.next, link, uid, gid, ts), a.conflict);
      case DoUnlink(k, ts, parentTs) => UnlinkCacheShows(s, k, ts, parentTs, a.conflict);
      case DoRmdir(k, ts) => RmdirCacheShows(s, k, ts, a.conflict);
      case DoRename(k, k2, ts) => RenameCacheShows(s, k, k2, ts, a.conflict);
      case DoLink(k, target, ts, parentTs) => LinkCacheShows(s, k, target, ts, parentTs, a.conflict);
      case DoCompact(i) => CompactCacheShows(s, Compactable(s, {i}, if a.conflict then {i} else {}));
      case DoCompactDirty(threshold, blocked) => CompactCacheShows(s, DueForCompaction(s, threshold, blocked));
      case DoFlushAll(blocked) => CompactCacheShows(s, Compactable(s, s.mem.dirty, blocked));
      case DoLoad(i) => LoadCacheShows(s, i);
      case DoOpen(i, truncate, ts) => OpenCacheShows(s, i, truncate, ts, a.conflict);
      case _ => UpdateCacheShows(s, a);
    }
  }

  // ------------------------------------------------------------------ whole runs

  lemma EveryStepMatches(s: State, a: Attempt)
    requires Ready(s) && ProtocolAllowed(s, a)
    ensures Matches(s, a)
  {
    hide Inv, HandlesStored, CacheShows, Matches, NewNodeAllowed, RoomForSubdir, RenameAllowed, LinkAllowed,
      ReplacesClosedFile;
    match a.op {
      case DoCreate(_, _, _, _, _) => FileMatches(s, a);
      case DoCreateAndOpen(_, _, _, _, _) => FileMatches(s, a);
      case DoMkdir(_, _, _, _, _) => FolderMatches(s, a);
      case DoSymlink(_, _, _, _, _) => SymlinkMatches(s, a);
      case DoUnlink(_, _, _) => UnlinkMatches(s, a);
      case DoRmdir(_, _) => RmdirMatches(s, a);
      case DoRename(_, _, _) => RenameMatches(s, a);
      case DoLink(_, _, _, _) => LinkMatches(s, a);
      case DoSetAttr(_, _, _) => UpdateMatches(s, a);
      case DoReportWrite(_, _, _) => UpdateMatches(s, a);
      case DoLoad(_) => LoadMatches(s, a);
      case DoOpen(_, _, _) => OpenMatches(s, a);
      case DoRelease(_) => ReleaseMatches(s, a);
      case _ => QuietMatches(s, a);
    }
  }

  lemma StaysReady(s: State, a: Attempt)
    requires Ready(s) && ProtocolAllowed(s, a)
    ensures Ready(Step(WithDeltas, s, a).state)
  {
    hide Inv, HandlesStored, CacheShows, Step, StepIsClean, Allowed, ReplacesClosedFile;
    StepKeepsInv(s, a);
    EveryStepIsClean(s, a);
    CleanStepHandles(s, a);
    StepCacheShows(s, a);
  }

  /** Over every run of the protocol the server shows what the reference shows. */
  lemma {:induction false} RunsLikeReference(s: State, run: seq<Attempt>)
    requires Ready(s) && ProtocolRun(s, run)
    ensures Ready(Run(WithDeltas, s, run)) && Abs(Run(WithDeltas, s, run)) == DoAll(Abs(s), run)
  {
    hide Ready, ProtocolAllowed, Abs, Do, Step;
    if run != [] {
      var front, last := run[..|run| - 1], run[|run| - 1];
      RunsLikeReference(s, front);
      var m := Run(WithDeltas, s, front);
      EveryStepMatches(m, last);
      StaysReady(m, last);
    }
  }

  /**
   A new server and the reference with an empty root directory: after any run of the protocol the same
   names, nodes, targets and handles, and to any further allowed attempt the same answer.
   */
  lemma AnswersLikeReference(uid: u32, gid: u32, ts: u64, run: seq<Attempt>, a: Attempt)
    requires ProtocolRun(Formatted(uid, gid, ts), run + [a])
    ensures var z := Fs(map[], map[1 := Node(1, 0x41FF, uid, gid, 0)], map[], map[], 2);
            var s := Run(WithDeltas, Formatted(uid, gid, ts), run);
            && Abs(s) == DoAll(z, run)
            && AnswerOf(Step(WithDeltas, s, a).reply) == Do(DoAll(z, run), a).answer
  {
    hide ProtocolRun, Step, Do, DoAll, Run, Abs;
    var z := Formatted(uid, gid, ts);
    LastIsAllowed(z, run, a);
    NewIsReady(uid, gid, ts);
    RunsLikeReference(z, run);
    EveryStepMatches(Run(WithDeltas, z, run), a);
  }

  lemma NewIsReady(uid: u32, gid: u32, ts: u64)
    ensures var z := Formatted(uid, gid, ts);
            Ready(z) && Abs(z) == Fs(map[], map[1 := Node(1, 0x41FF, uid, gid, 0)], map[], map[], 2)
  {
    hide Inv;
    FormattedInv(uid, gid, ts);
    var z := Formatted(uid, gid, ts);
    assert Abs(z).nodes == map[1 := Node(1, 0x41FF, uid, gid, 0)];
  }
}
