/**
 The metadata server (server/src/lib.rs) as a state machine: what one attempt of each operation
 does to the persistent store and to the server's memory. `Build` selects between the two
 variants of `batch_parent_deltas`, as the `no_delta` feature does.
 */
module Server {
  import opened Types
  import opened Wrappers
  import opened DeltaFold

  datatype Build = WithDeltas | NoDelta

  /** A pending delta: its sequence number and its operation. */
  datatype Delta = Delta(num: nat, op: DeltaOp)

  type Location = string
  const DEFAULT_LOCATION: Location := "default"

  /** The committed contents of the key-value store; deltas are kept per inode in key order. */
  datatype Store = Store(
    inodes: map<Ino, InodeValue>,
    entries: map<DirKey, Entry>,
    deltas: map<Ino, seq<Delta>>,
    locations: map<Ino, Location>,
    symlinks: map<Ino, Name>,
    counter: Option<u64>)

  /** The server's memory, lost on restart. */
  datatype Mem = Mem(
    seqs: map<Ino, nat>,
    cache: map<Ino, InodeValue>,
    handles: map<Ino, nat>,
    pending: set<Ino>,
    dirty: set<Ino>,
    next: Ino)

  datatype State = State(store: Store, mem: Mem)

  datatype Reply =
    | Attr(value: InodeValue)
    | Updated(value: InodeValue, truncate: Option<u64>)
    | Purged(inodes: seq<Ino>)
    | Opened(location: Location)
    | Done

  datatype Outcome = Outcome(state: State, reply: Result<Reply, FsError>)

  function Fail(s: State, e: FsError): Outcome {
    Outcome(s, Failure(e))
  }

  // ------------------------------------------------------------------ deltas and effective values

  function DeltasOf(st: Store, i: Ino): seq<Delta> {
    if i in st.deltas then st.deltas[i] else []
  }

  function Ops(ds: seq<Delta>): (ops: seq<DeltaOp>)
    ensures |ops| == |ds|
  {
    seq(|ds|, j requires 0 <= j < |ds| => ds[j].op)
  }

  /** Base folded with the pending deltas: what `load_inode` computes on a cache miss. */
  function Effective(st: Store, i: Ino): InodeValue
    requires i in st.inodes
  {
    Fold(st.inodes[i], Ops(DeltasOf(st, i)))
  }

  function NextSeq(seqs: map<Ino, nat>, i: Ino): nat {
    if i in seqs then seqs[i] else 0
  }

  function Numbered(first: nat, ops: seq<DeltaOp>): (ds: seq<Delta>)
    ensures |ds| == |ops|
  {
    seq(|ops|, j requires 0 <= j < |ops| => Delta(first + j, ops[j]))
  }

  // ------------------------------------------------------------------ logging parent changes

  /** One call of `batch_parent_deltas`: the inode and the operations. */
  datatype LogItem = LogItem(ino: Ino, ops: seq<DeltaOp>)

  /** A transaction in progress: the store as it sees it, and the sequence counters it draws from. */
  datatype Txn = Txn(store: Store, seqs: map<Ino, nat>)

  /** `batch_parent_deltas`: append deltas, or read-modify-write the base. */
  function LogOne(build: Build, t: Txn, item: LogItem): Txn {
    var p, ops, st := item.ino, item.ops, t.store;
    match build
    case WithDeltas =>
      Txn(st.(deltas := st.deltas[p := DeltasOf(st, p) + Numbered(NextSeq(t.seqs, p), ops)]),
          t.seqs[p := NextSeq(t.seqs, p) + |ops|])
    case NoDelta =>
      if p in st.inodes then t.(store := st.(inodes := st.inodes[p := Fold(st.inodes[p], ops)])) else t
  }

  function LogAll(build: Build, t: Txn, logs: seq<LogItem>): Txn {
    if logs == [] then t
    else LogOne(build, LogAll(build, t, logs[..|logs| - 1]), logs[|logs| - 1])
  }

  /** `cache.apply_deltas`: only entries that are present change. */
  function CacheOne(cache: map<Ino, InodeValue>, item: LogItem): map<Ino, InodeValue> {
    if item.ino in cache then cache[item.ino := Fold(cache[item.ino], item.ops)] else cache
  }

  function CacheAll(cache: map<Ino, InodeValue>, logs: seq<LogItem>): map<Ino, InodeValue> {
    if logs == [] then cache else CacheOne(CacheAll(cache, logs[..|logs| - 1]), logs[|logs| - 1])
  }

  function Touched(logs: seq<LogItem>): set<Ino> {
    set item | item in logs :: item.ino
  }

  function Stamps(ts: u64): seq<DeltaOp> {
    [SetMtime(ts), SetCtime(ts)]
  }

  /** What an attempt that loses its commit leaves behind: sequence numbers (and an inode number) spent. */
  function Burned(build: Build, s: State, logs: seq<LogItem>, next: Ino): State {
    s.(mem := s.mem.(seqs := LogAll(build, Txn(s.store, s.mem.seqs), logs).seqs, next := next))
  }

  // ------------------------------------------------------------------ small store operations

  function NextIno(next: Ino): Ino {
    (next + 1) % TWO64
  }

  /** `maybe_persist`: the counter is written when it is a multiple of 64. */
  function Persist(counter: Option<u64>, next: Ino): Option<u64> {
    if next % 64 == 0 then Some(next) else counter
  }

  predicate DirEmpty(entries: map<DirKey, Entry>, i: Ino) {
    forall k :: k in entries ==> k.parent != i
  }

  /** `clear_deltas`: delete every delta of the inode and reset its counter if it has one. */
  function ClearSeq(seqs: map<Ino, nat>, i: Ino): map<Ino, nat> {
    if i in seqs then seqs[i := 0] else seqs
  }

  function HandleCount(m: Mem, i: Ino): nat {
    if i in m.handles then m.handles[i] else 0
  }

  function AddHandle(m: Mem, i: Ino): Mem {
    m.(handles := m.handles[i := HandleCount(m, i) + 1])
  }

  function FreshValue(i: Ino, size: u64, mode: u32, nlink: u32, uid: u32, gid: u32, ts: u64): InodeValue {
    InodeValue(1, i, size, mode, nlink, uid, gid, ts, ts, ts)
  }

  // ------------------------------------------------------------------ create, mkdir, symlink

  /** What the three creating operations differ in. */
  datatype NewNode = NewNode(value: InodeValue, location: Option<Location>, target: Option<Name>, links: seq<DeltaOp>)

  function NewFile(i: Ino, mode: u32, uid: u32, gid: u32, ts: u64): NewNode {
    NewNode(FreshValue(i, 0, Typed(S_IFREG, mode), 1, uid, gid, ts), Some(DEFAULT_LOCATION), None, [])
  }

  function NewDir(i: Ino, mode: u32, uid: u32, gid: u32, ts: u64): NewNode {
    NewNode(FreshValue(i, 0, Typed(S_IFDIR, mode), 2, uid, gid, ts), None, None, [IncrementNlink(1)])
  }

  function NewSymlink(i: Ino, target: Name, uid: u32, gid: u32, ts: u64): NewNode {
    NewNode(FreshValue(i, |target| % TWO64, Typed(S_IFLNK, 0x1FF), 1, uid, gid, ts), None, Some(target), [])
  }

  function NewLogs(k: DirKey, n: NewNode): seq<LogItem> {
    [LogItem(k.parent, n.links + Stamps(n.value.mtime))]
  }

  /** The store with the new node in it, before the parent's change is logged. */
  function NodeStore(st: Store, i: Ino, k: DirKey, n: NewNode): Store {
    st.(inodes := st.inodes[i := n.value],
        entries := st.entries[k := Entry(i, n.value.mode)],
        locations := if n.location.Some? then st.locations[i := n.location.value] else st.locations,
        symlinks := if n.target.Some? then st.symlinks[i := n.target.value] else st.symlinks,
        counter := Persist(st.counter, NextIno(i)))
  }

  function AddNode(build: Build, s: State, k: DirKey, n: NewNode, conflict: bool): Outcome {
    if |k.name| > NAME_MAX then Fail(s, NameTooLong)
    else if k in s.store.entries then Fail(s, AlreadyExists)
    else
      var i := s.mem.next;
      var logs := NewLogs(k, n);
      if conflict then Fail(Burned(build, s, logs, NextIno(i)), TransactionConflict)
      else
        var t := LogAll(build, Txn(NodeStore(s.store, i, k, n), s.mem.seqs), logs);
        Outcome(State(t.store, s.mem.(seqs := t.seqs, next := NextIno(i),
                                      cache := CacheAll(s.mem.cache[i := n.value], logs),
                                      dirty := s.mem.dirty + Touched(logs))),
                Success(Attr(n.value)))
  }

  function Create(build: Build, s: State, k: DirKey, mode: u32, uid: u32, gid: u32, ts: u64, conflict: bool): Outcome {
    AddNode(build, s, k, NewFile(s.mem.next, mode, uid, gid, ts), conflict)
  }

  function Mkdir(build: Build, s: State, k: DirKey, mode: u32, uid: u32, gid: u32, ts: u64, conflict: bool): Outcome {
    AddNode(build, s, k, NewDir(s.mem.next, mode, uid, gid, ts), conflict)
  }

  function Symlink(build: Build, s: State, k: DirKey, target: Name, uid: u32, gid: u32, ts: u64,
                   conflict: bool): Outcome {
    AddNode(build, s, k, NewSymlink(s.mem.next, target, uid, gid, ts), conflict)
  }

  function CreateAndOpen(build: Build, s: State, k: DirKey, mode: u32, uid: u32, gid: u32, ts: u64,
                         conflict: bool): Outcome {
    var o := Create(build, s, k, mode, uid, gid, ts, conflict);
    if o.reply.Success? then o.(state := o.state.(mem := AddHandle(o.state.mem, s.mem.next))) else o
  }

  // ------------------------------------------------------------------ unlink, rmdir

  /** `clear_deltas` on the store. */
  function WithoutDeltas(st: Store, i: Ino): Store {
    st.(deltas := st.deltas - {i})
  }

  /** What is left of a file that loses one link. */
  function OneLinkLess(v: InodeValue, ts: u64): InodeValue {
    v.(nlink := if v.nlink == 0 then 0 else v.nlink - 1, ctime := ts)
  }

  /** The store without the entry; the inode goes with its last link unless it is still open. */
  function UnlinkStore(st: Store, k: DirKey, dying: bool, ts: u64): Store
    requires k in st.entries && st.entries[k].ino in st.inodes
  {
    var i := st.entries[k].ino;
    st.(entries := st.entries - {k},
        inodes := if dying then st.inodes - {i} else st.inodes[i := OneLinkLess(st.inodes[i], ts)],
        locations := if dying then st.locations - {i} else st.locations)
  }

  function Unlink(build: Build, s: State, k: DirKey, ts: u64, parentTs: u64, conflict: bool): Outcome {
    var st := s.store;
    if |k.name| > NAME_MAX then Fail(s, NameTooLong)
    else if k !in st.entries then Fail(s, NotFound)
    else if IsDir(st.entries[k].mode) then Fail(s, IsADirectory)
    else if st.entries[k].ino !in st.inodes then Fail(s, NotFound)
    else
      var i := st.entries[k].ino;
      var left := OneLinkLess(st.inodes[i], ts);
      var logs := [LogItem(k.parent, Stamps(parentTs))];
      if conflict then Fail(Burned(build, s, logs, s.mem.next), TransactionConflict)
      else
        var dying := left.nlink == 0 && HandleCount(s.mem, i) == 0;
        var t := LogAll(build, Txn(UnlinkStore(st, k, dying, ts), s.mem.seqs), logs);
        if dying then
          Outcome(State(WithoutDeltas(t.store, i),
                        s.mem.(seqs := ClearSeq(t.seqs, i), cache := CacheAll(s.mem.cache - {i}, logs),
                               dirty := s.mem.dirty + Touched(logs))),
                  Success(Purged([i])))
        else
          Outcome(State(t.store,
                        s.mem.(seqs := t.seqs, cache := CacheAll(s.mem.cache[i := left], logs),
                               pending := if left.nlink == 0 then s.mem.pending + {i} else s.mem.pending,
                               dirty := s.mem.dirty + Touched(logs))),
                  Success(Purged([])))
  }

  function RmdirStore(st: Store, k: DirKey): Store
    requires k in st.entries
  {
    st.(entries := st.entries - {k}, inodes := st.inodes - {st.entries[k].ino})
  }

  function RmdirLogs(k: DirKey, ts: u64): seq<LogItem> {
    [LogItem(k.parent, [IncrementNlink(-1)] + Stamps(ts))]
  }

  function Rmdir(build: Build, s: State, k: DirKey, ts: u64, conflict: bool): Outcome {
    var st := s.store;
    if |k.name| > NAME_MAX then Fail(s, NameTooLong)
    else if k !in st.entries then Fail(s, NotFound)
    else if !IsDir(st.entries[k].mode) then Fail(s, NotADirectory)
    else if st.entries[k].ino !in st.inodes then Fail(s, NotFound)
    else if !DirEmpty(st.entries, st.entries[k].ino) then Fail(s, DirectoryNotEmpty)
    else
      var i := st.entries[k].ino;
      var logs := RmdirLogs(k, ts);
      if conflict then Fail(Burned(build, s, logs, s.mem.next), TransactionConflict)
      else
        var t := LogAll(build, Txn(RmdirStore(st, k), s.mem.seqs), logs);
        Outcome(State(WithoutDeltas(t.store, i),
                      s.mem.(seqs := ClearSeq(t.seqs, i), cache := CacheAll(s.mem.cache - {i}, logs),
                             dirty := s.mem.dirty + Touched(logs))),
                Success(Done))
  }

  // ------------------------------------------------------------------ rename

  /** The `batch_parent_deltas` calls of a rename, in order. */
  function RenameLogs(p: Ino, np: Ino, srcDir: bool, dstDir: bool, ts: u64): seq<LogItem> {
    (if dstDir then [LogItem(np, [IncrementNlink(-1)])] else []) +
    (if srcDir && p != np then [LogItem(p, [IncrementNlink(-1)]), LogItem(np, [IncrementNlink(1)])] else []) +
    [LogItem(p, Stamps(ts))] +
    (if p != np then [LogItem(np, Stamps(ts))] else [])
  }

  /** The checks of a rename whose source entry and inode exist; none of them changes anything. */
  function RenameRefusal(st: Store, k: DirKey, k2: DirKey): Option<FsError> {
    if |k.name| > NAME_MAX || |k2.name| > NAME_MAX then Some(NameTooLong)
    else if k !in st.entries || st.entries[k].ino !in st.inodes then Some(NotFound)
    else if k2 !in st.entries then None
    else
      var srcDir := IsDir(st.inodes[st.entries[k].ino].mode);
      var dstDir := IsDir(st.entries[k2].mode);
      if srcDir && !dstDir then Some(NotADirectory)
      else if !srcDir && dstDir then Some(IsADirectory)
      else if dstDir then
        if DirEmpty(st.entries, st.entries[k2].ino) then None else Some(DirectoryNotEmpty)
      else if st.entries[k2].ino in st.inodes then None else Some(NotFound)
  }

  /** The replaced file is deleted when this rename takes its last link away; open handles are not consulted. */
  predicate RenameKills(st: Store, k2: DirKey) {
    && k2 in st.entries && !IsDir(st.entries[k2].mode)
    && st.entries[k2].ino in st.inodes && st.inodes[st.entries[k2].ino].nlink <= 1
  }

  /** The inode rows after a rename: the replaced file's first, then the source's. */
  function RenameInodes(st: Store, k: DirKey, k2: DirKey, ts: u64): map<Ino, InodeValue>
    requires RenameRefusal(st, k, k2).None?
  {
    var src := st.entries[k].ino;
    var rest :=
      if k2 !in st.entries || IsDir(st.entries[k2].mode) then st.inodes
      else
        var dst := st.entries[k2].ino;
        if RenameKills(st, k2) then st.inodes - {dst}
        else st.inodes[dst := OneLinkLess(st.inodes[dst], ts)];
    rest[src := st.inodes[src].(ctime := ts)]
  }

  function RenameStore(st: Store, k: DirKey, k2: DirKey, ts: u64): Store
    requires RenameRefusal(st, k, k2).None?
  {
    var src := st.entries[k].ino;
    st.(inodes := RenameInodes(st, k, k2, ts),
        entries := (st.entries - {k2, k})[k2 := Entry(src, st.inodes[src].mode)],
        locations := if RenameKills(st, k2) then st.locations - {st.entries[k2].ino} else st.locations)
  }

  function RenameLogsOf(st: Store, k: DirKey, k2: DirKey, ts: u64): seq<LogItem>
    requires RenameRefusal(st, k, k2).None?
  {
    RenameLogs(k.parent, k2.parent, IsDir(st.inodes[st.entries[k].ino].mode),
               k2 in st.entries && IsDir(st.entries[k2].mode), ts)
  }

  function Rename(build: Build, s: State, k: DirKey, k2: DirKey, ts: u64, conflict: bool): Outcome {
    var st := s.store;
    var refusal := RenameRefusal(st, k, k2);
    if refusal.Some? then Fail(s, refusal.value)
    else
      var src := st.entries[k].ino;
      var logs := RenameLogsOf(st, k, k2, ts);
      if conflict then Fail(Burned(build, s, logs, s.mem.next), TransactionConflict)
      else
        var t := LogAll(build, Txn(RenameStore(st, k, k2, ts), s.mem.seqs), logs);
        var moved := st.inodes[src].(ctime := ts);
        if k2 in st.entries then
          var dst := st.entries[k2].ino;
          Outcome(State(WithoutDeltas(t.store, dst),
                        s.mem.(seqs := ClearSeq(t.seqs, dst),
                               cache := CacheAll((s.mem.cache - {dst})[src := moved], logs),
                               dirty := s.mem.dirty + Touched(logs))),
                  Success(Purged(if RenameKills(st, k2) then [dst] else [])))
        else
          Outcome(State(t.store,
                        s.mem.(seqs := t.seqs, cache := CacheAll(s.mem.cache[src := moved], logs),
                               dirty := s.mem.dirty + Touched(logs))),
                  Success(Purged([])))
  }

  // ------------------------------------------------------------------ link

  function OneLinkMore(v: InodeValue, ts: u64): InodeValue {
    v.(nlink := (v.nlink + 1) % TWO32, ctime := ts)
  }

  function LinkStore(st: Store, k: DirKey, target: Ino, ts: u64): Store
    requires target in st.inodes
  {
    st.(inodes := st.inodes[target := OneLinkMore(st.inodes[target], ts)],
        entries := st.entries[k := Entry(target, st.inodes[target].mode)])
  }

  function Link(build: Build, s: State, k: DirKey, target: Ino, ts: u64, parentTs: u64, conflict: bool): Outcome {
    var st := s.store;
    if |k.name| > NAME_MAX then Fail(s, NameTooLong)
    else if target !in st.inodes then Fail(s, NotFound)
    else if IsDir(st.inodes[target].mode) then Fail(s, PermissionDenied)
    else if k in st.entries then Fail(s, AlreadyExists)
    else if k.parent !in st.inodes then Fail(s, NotFound)
    else if !IsDir(st.inodes[k.parent].mode) then Fail(s, NotADirectory)
    else
      var logs := [LogItem(k.parent, Stamps(parentTs))];
      if conflict then Fail(Burned(build, s, logs, s.mem.next), TransactionConflict)
      else
        var v := OneLinkMore(st.inodes[target], ts);
        var t := LogAll(build, Txn(LinkStore(st, k, target, ts), s.mem.seqs), logs);
        Outcome(State(t.store, s.mem.(seqs := t.seqs, cache := CacheAll(s.mem.cache[target := v], logs),
                                      dirty := s.mem.dirty + Touched(logs))),
                Success(Attr(v)))
  }

  // ------------------------------------------------------------------ setattr, report_write, open, release

  datatype SetAttrRequest = SetAttrRequest(
    mode: Option<u32>, uid: Option<u32>, gid: Option<u32>, size: Option<u64>, atime: Option<u64>, mtime: Option<u64>)

  function GetOr<T>(o: Option<T>, default: T): T {
    if o.Some? then o.value else default
  }

  function Resized(v: InodeValue, req: SetAttrRequest): bool {
    req.size.Some? && req.size.value != v.size
  }

  function WithAttrs(v: InodeValue, req: SetAttrRequest, ts: u64): InodeValue {
    v.(mode := if req.mode.Some? then Chmod(v.mode, req.mode.value) else v.mode,
       uid := GetOr(req.uid, v.uid), gid := GetOr(req.gid, v.gid), atime := GetOr(req.atime, v.atime),
       size := GetOr(req.size, v.size),
       mtime := if Resized(v, req) then ts else GetOr(req.mtime, v.mtime),
       ctime := ts)
  }

  /** Write the locked base back and cache it as it is. */
  function PutBase(s: State, i: Ino, v: InodeValue): State {
    s.(store := s.store.(inodes := s.store.inodes[i := v]), mem := s.mem.(cache := s.mem.cache[i := v]))
  }

  function SetAttr(s: State, i: Ino, req: SetAttrRequest, ts: u64, conflict: bool): Outcome {
    if i !in s.store.inodes then Fail(s, NotFound)
    else if conflict then Fail(s, TransactionConflict)
    else
      var old_ := s.store.inodes[i];
      var v := WithAttrs(old_, req, ts);
      Outcome(PutBase(s, i, v),
              Success(Updated(v, if v.size < old_.size then req.size else None)))
  }

  function Written(v: InodeValue, newSize: u64, mtime: u64): InodeValue {
    v.(size := Max(v.size, newSize), mtime := mtime, ctime := mtime)
  }

  function ReportWrite(s: State, i: Ino, newSize: u64, mtime: u64, conflict: bool): Outcome {
    if i !in s.store.inodes then Fail(s, NotFound)
    else if conflict then Fail(s, TransactionConflict)
    else Outcome(PutBase(s, i, Written(s.store.inodes[i], newSize, mtime)), Success(Done))
  }

  /** `load_inode`: the cached value, or the folded value, which is then cached. */
  function Load(s: State, i: Ino): Outcome {
    if i in s.mem.cache then Outcome(s, Success(Attr(s.mem.cache[i])))
    else if i !in s.store.inodes then Fail(s, NotFound)
    else
      var v := Effective(s.store, i);
      Outcome(s.(mem := s.mem.(cache := s.mem.cache[i := v])), Success(Attr(v)))
  }

  function Truncated(v: InodeValue, ts: u64): InodeValue {
    v.(size := 0, mtime := ts, ctime := ts)
  }

  function Open(s: State, i: Ino, truncate: bool, ts: u64, conflict: bool): Outcome {
    var o := Load(s, i);
    if o.reply.Failure? then o
    else if IsDir(o.reply.value.value.mode) then Fail(o.state, IsADirectory)
    else
      var cuts := truncate && o.reply.value.value.size > 0;
      if cuts && i !in s.store.inodes then Fail(o.state, NotFound)
      else if cuts && conflict then Fail(o.state, TransactionConflict)
      else
        var s1 := if cuts then PutBase(o.state, i, Truncated(s.store.inodes[i], ts)) else o.state;
        Outcome(s1.(mem := AddHandle(s1.mem, i)),
                Success(Opened(if i in s.store.locations then s.store.locations[i] else DEFAULT_LOCATION)))
  }

  /**
   `check_and_clear_deferred_delete`, then the deferred deletion if it was the last handle. The
   handle is gone before the deletion is tried, so here `conflict` means that every try was refused.
   */
  function Release(s: State, i: Ino, conflict: bool): Outcome {
    if i !in s.mem.handles then Outcome(s, Success(Purged([])))
    else if s.mem.handles[i] > 1 then
      Outcome(s.(mem := s.mem.(handles := s.mem.handles[i := s.mem.handles[i] - 1])), Success(Purged([])))
    else
      var m := s.mem.(handles := s.mem.handles - {i}, pending := s.mem.pending - {i});
      if i !in s.mem.pending then Outcome(s.(mem := m), Success(Purged([])))
      else if conflict then Fail(s.(mem := m), TransactionConflict)
      else
        var st := s.store;
        Outcome(State(st.(inodes := st.inodes - {i}, locations := st.locations - {i}, deltas := st.deltas - {i}),
                      m.(seqs := ClearSeq(m.seqs, i), cache := m.cache - {i})),
                Success(Purged([i])))
  }

  // ------------------------------------------------------------------ compaction, eviction, restart

  /** Fold the deltas of the given inodes into their bases and drop them from the cache. */
  function CompactAll(s: State, chosen: set<Ino>): State
    requires chosen <= s.store.inodes.Keys
  {
    var st := s.store;
    State(st.(inodes := map i | i in st.inodes :: if i in chosen then Effective(st, i) else st.inodes[i],
              deltas := st.deltas - chosen),
          s.mem.(cache := s.mem.cache - chosen))
  }

  /** The inodes that `force_compact_inode` rewrites: stored, with deltas, commit not refused. */
  function Compactable(s: State, candidates: set<Ino>, blocked: set<Ino>): set<Ino> {
    set i | i in candidates && i in s.store.inodes && DeltasOf(s.store, i) != [] && i !in blocked
  }

  function Compact(s: State, i: Ino, conflict: bool): Outcome {
    Outcome(CompactAll(s, Compactable(s, {i}, if conflict then {i} else {})), Success(Done))
  }

  /** The inodes that a `compact_dirty` round rewrites: those at the threshold as well. */
  function DueForCompaction(s: State, threshold: nat, blocked: set<Ino>): set<Ino> {
    set i | i in Compactable(s, s.mem.dirty, blocked) && |DeltasOf(s.store, i)| >= threshold
  }

  /** `compact_dirty`: drain the dirty set, compact what is due, mark the rest dirty again. */
  function CompactDirty(s: State, threshold: nat, blocked: set<Ino>): Outcome {
    var due := DueForCompaction(s, threshold, blocked);
    var s1 := CompactAll(s, due);
    Outcome(s1.(mem := s1.mem.(dirty := s.mem.dirty - due)), Success(Done))
  }

  /** `flush_all`: drain the dirty set and compact everything in it; nothing is marked again. */
  function FlushAll(s: State, blocked: set<Ino>): Outcome {
    var s1 := CompactAll(s, Compactable(s, s.mem.dirty, blocked));
    Outcome(s1.(mem := s1.mem.(dirty := {})), Success(Done))
  }

  /** The cache may drop any entry to make room. */
  function Evict(s: State, i: Ino): Outcome {
    Outcome(s.(mem := s.mem.(cache := s.mem.cache - {i})), Success(Done))
  }

  /** `recover_seqs`: one past the largest sequence number that is still stored. */
  function Recovered(st: Store): map<Ino, nat> {
    map i | i in st.deltas && st.deltas[i] != [] :: LargestNum(st.deltas[i]) + 1
  }

  function LargestNum(ds: seq<Delta>): nat {
    if ds == [] then 0 else Max(LargestNum(ds[..|ds| - 1]), ds[|ds| - 1].num)
  }

  /** A new server over the same store: everything in memory starts over. */
  function Restart(s: State): State {
    s.(mem := Mem(Recovered(s.store), map[], map[], {}, {}, GetOr(s.store.counter, 2)))
  }

  /** `init_root`: a store without a root directory gets one. */
  function WithRoot(st: Store, uid: u32, gid: u32, ts: u64): Store {
    if ROOT in st.inodes then st
    else st.(inodes := st.inodes[ROOT := FreshValue(ROOT, 0, Typed(S_IFDIR, 0x1FF), 2, uid, gid, ts)])
  }

  // ------------------------------------------------------------------ operations and runs

  datatype Op =
    | DoCreate(k: DirKey, mode: u32, uid: u32, gid: u32, ts: u64)
    | DoCreateAndOpen(k: DirKey, mode: u32, uid: u32, gid: u32, ts: u64)
    | DoMkdir(k: DirKey, mode: u32, uid: u32, gid: u32, ts: u64)
    | DoSymlink(k: DirKey, link: Name, uid: u32, gid: u32, ts: u64)
    | DoUnlink(k: DirKey, ts: u64, parentTs: u64)
    | DoRmdir(k: DirKey, ts: u64)
    | DoRename(k: DirKey, k2: DirKey, ts: u64)
    | DoLink(k: DirKey, target: Ino, ts: u64, parentTs: u64)
    | DoSetAttr(i: Ino, req: SetAttrRequest, ts: u64)
    | DoReportWrite(i: Ino, newSize: u64, mtime: u64)
    | DoLoad(i: Ino)
    | DoOpen(i: Ino, truncate: bool, ts: u64)
    | DoRelease(i: Ino)
    | DoCompact(i: Ino)
    | DoCompactDirty(threshold: nat, blocked: set<Ino>)
    | DoFlushAll(blocked: set<Ino>)
    | DoEvict(i: Ino)

  /** One attempt of an operation; `conflict` says that its commit, if it gets that far, is refused. */
  datatype Attempt = Attempt(op: Op, conflict: bool)

  function Step(build: Build, s: State, a: Attempt): Outcome {
    match a.op
    case DoCreate(k, mode, uid, gid, ts) => Create(build, s, k, mode, uid, gid, ts, a.conflict)
    case DoCreateAndOpen(k, mode, uid, gid, ts) => CreateAndOpen(build, s, k, mode, uid, gid, ts, a.conflict)
    case DoMkdir(k, mode, uid, gid, ts) => Mkdir(build, s, k, mode, uid, gid, ts, a.conflict)
    case DoSymlink(k, link, uid, gid, ts) => Symlink(build, s, k, link, uid, gid, ts, a.conflict)
    case DoUnlink(k, ts, parentTs) => Unlink(build, s, k, ts, parentTs, a.conflict)
    case DoRmdir(k, ts) => Rmdir(build, s, k, ts, a.conflict)
    case DoRename(k, k2, ts) => Rename(build, s, k, k2, ts, a.conflict)
    case DoLink(k, target, ts, parentTs) => Link(build, s, k, target, ts, parentTs, a.conflict)
    case DoSetAttr(i, req, ts) => SetAttr(s, i, req, ts, a.conflict)
    case DoReportWrite(i, newSize, mtime) => ReportWrite(s, i, newSize, mtime, a.conflict)
    case DoLoad(i) => Load(s, i)
    case DoOpen(i, truncate, ts) => Open(s, i, truncate, ts, a.conflict)
    case DoRelease(i) => Release(s, i, a.conflict)
    case DoCompact(i) => Compact(s, i, a.conflict)
    case DoCompactDirty(threshold, blocked) => CompactDirty(s, threshold, blocked)
    case DoFlushAll(blocked) => FlushAll(s, blocked)
    case DoEvict(i) => Evict(s, i)
  }

  function Run(build: Build, s: State, run: seq<Attempt>): State {
    if run == [] then s else Step(build, Run(build, s, run[..|run| - 1]), run[|run| - 1]).state
  }

  /** A freshly formatted server: the root directory and nothing else. */
  function Formatted(uid: u32, gid: u32, ts: u64): State {
    State(WithRoot(Store(map[], map[], map[], map[], map[], None), uid, gid, ts),
          Mem(map[], map[], map[], {}, {}, 2))
  }
}
