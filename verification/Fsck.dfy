/**
 The consistency checker (server/src/fsck.rs): its five phases over any store, against a declarative
 statement of what is inconsistent, and what it finds in the states that a server can reach.
 */
module Fsck {
  import opened Types
  import opened Wrappers
  import opened Codec
  import opened SortedStore
  import opened Server
  import opened Tree
  import opened Links
  import opened Invariants
  import opened Namespace

  datatype IssueKind = OrphanInode | NlinkMismatch | CounterInconsistency

  datatype Issue = Issue(inode: Ino, kind: IssueKind)

  datatype Report = Report(issues: seq<Issue>, totalInodes: nat, totalEntries: nat)

  // ------------------------------------------------------------------ what is inconsistent

  /** The entries that lie in a stored directory. */
  ghost function Visible(I: Inodes, E: Entries): set<DirKey> {
    set k | k in E && k.parent in I && IsDirExact(I[k.parent].mode)
  }

  ghost function References(I: Inodes, E: Entries, i: Ino): set<DirKey> {
    set k | k in Visible(I, E) && E[k].ino == i
  }

  ghost predicate IsOrphan(I: Inodes, E: Entries, i: Ino) {
    i in I && i != ROOT && References(I, E, i) == {}
  }

  ghost predicate Miscounted(I: Inodes, E: Entries, i: Ino) {
    i in I && !IsDirExact(I[i].mode) && I[i].nlink != |References(I, E, i)|
  }

  ghost predicate CounterBehind(I: Inodes, counter: Option<u64>) {
    counter.Some? && (counter.value == 0 || exists i :: i in I && counter.value <= i)
  }

  /** Which issue ought to be reported. */
  ghost predicate Inconsistent(st: Store, issue: Issue) {
    match issue.kind
    case OrphanInode => IsOrphan(st.inodes, st.entries, issue.inode)
    case NlinkMismatch => Miscounted(st.inodes, st.entries, issue.inode)
    case CounterInconsistency => issue.inode == 0 && CounterBehind(st.inodes, st.counter)
  }

  // ------------------------------------------------------------------ the phases

  /** The inode that a row of the inode family holds, if it is an inode row that decodes. */
  function InodeIn(row: Row): Option<(Ino, InodeValue)> {
    if |row.key| == 9 && row.key[0] == INODE_TAG && ParseInode(row.value).Success?
    then Some((U64(row.key[1..9]), ParseInode(row.value).value)) else None
  }

  function InodesIn(rows: seq<Row>): Inodes {
    if rows == [] then map[]
    else
      var front, last := InodesIn(rows[..|rows| - 1]), InodeIn(rows[|rows| - 1]);
      if last.Some? then front[last.value.0 := last.value.1] else front
  }

  /** Rows outside the scanned prefix hold no inode. */
  lemma {:induction false} ScannedInodes(rows: seq<Row>)
    ensures InodesIn(Under(rows, [INODE_TAG])) == InodesIn(rows)
  {
    hide ParseInode;
    if rows != [] {
      var front, last := rows[..|rows| - 1], rows[|rows| - 1];
      ScannedInodes(front);
      if [INODE_TAG] <= last.key {
        assert (Under(front, [INODE_TAG]) + [last])[..|Under(front, [INODE_TAG])|] == Under(front, [INODE_TAG]);
      } else {
        TagIsPrefix(last.key);
      }
    }
  }

  lemma TagIsPrefix(key: Bytes)
    ensures [INODE_TAG] <= key <==> key != [] && key[0] == INODE_TAG
  {
    PrefixStep([INODE_TAG], key);
  }

  lemma InodeInKey(row: Row)
    requires InodeIn(row).Some?
    ensures row.key == InodeKey(InodeIn(row).value.0) && |row.key| == 9 && row.key[0] == INODE_TAG
  {
    hide BigEndian, FromBigEndian, ParseInode;
    EncodeDecodeWord(row.key[1..9]);
    assert row.key == [row.key[0]] + row.key[1..9];
  }

  /** Over sorted rows every inode is held by exactly the row with its key. */
  lemma {:induction false} InodesInExact(rows: seq<Row>, i: Ino)
    requires Sorted(rows)
    ensures i in InodesIn(rows) <==>
            exists j :: 0 <= j < |rows| && InodeIn(rows[j]).Some? && InodeIn(rows[j]).value.0 == i
    ensures forall j :: 0 <= j < |rows| && InodeIn(rows[j]).Some? && InodeIn(rows[j]).value.0 == i ==>
              i in InodesIn(rows) && InodesIn(rows)[i] == InodeIn(rows[j]).value.1
  {
    hide InodeIn, Less;
    if rows != [] {
      var front, last := rows[..|rows| - 1], rows[|rows| - 1];
      InodesInExact(front, i);
      if InodeIn(last).Some? && InodeIn(last).value.0 == i {
        InodeInKey(last);
        forall j | 0 <= j < |front| && InodeIn(front[j]).Some? ensures InodeIn(front[j]).value.0 != i {
          InodeInKey(front[j]);
          assert Less(rows[j].key, last.key);
          LessTotal(last.key, last.key);
        }
        assert rows[|rows| - 1] == last;
      }
      forall j | 0 <= j < |front| ensures rows[j] == front[j] {
      }
    }
  }

  /** Phase 1: scan the inode rows, keep those that decode, and track the largest number. */
  method CollectInodes(rows: seq<Row>) returns (I: Inodes, max: Ino)
    requires Sorted(rows)
    ensures I == InodesIn(rows)
    ensures forall i :: i in I ==> i <= max
    ensures max == 0 || max in I
  {
    hide InodeIn, Under;
    var found := ScanPrefix(rows, [INODE_TAG]);
    I, max := map[], 0;
    for j := 0 to |found|
      invariant I == InodesIn(found[..j])
      invariant forall i :: i in I ==> i <= max
      invariant max == 0 || max in I
    {
      assert found[..j + 1][..j] == found[..j];
      var held := InodeIn(found[j]);
      if held.Some? {
        I := I[held.value.0 := held.value.1];
        if held.value.0 > max { max := held.value.0; }
      }
    }
    assert found[..|found|] == found;
    ScannedInodes(rows);
  }

  /** The counter row counts only if it has eight bytes. */
  function CounterIn(raw: Option<Bytes>): Option<u64> {
    if raw.Some? && |raw.value| == 8 then Some(U64(raw.value)) else None
  }

  /** The reference table covers exactly the keys seen so far; its counts are 32 bits wide. */
  ghost predicate Tallied(refs: map<Ino, u32>, E: Entries, seen: set<DirKey>) {
    && seen <= E.Keys
    && (forall i: Ino :: i in refs <==> exists k :: k in seen && E[k].ino == i)
    && (forall i: Ino :: i in refs ==> refs[i] == |Naming(E, seen, i)| % TWO32)
  }

  ghost function Naming(E: Entries, seen: set<DirKey>, i: Ino): set<DirKey> {
    set k | k in seen && k in E && E[k].ino == i
  }

  lemma OneMore(n: nat)
    ensures (n % TWO32 + 1) % TWO32 == (n + 1) % TWO32
  {
  }

  lemma TallyOne(refs: map<Ino, u32>, E: Entries, seen: set<DirKey>, k: DirKey)
    requires Tallied(refs, E, seen) && k in E && k !in seen
    ensures var i := E[k].ino; Tallied(refs[i := ((if i in refs then refs[i] else 0) + 1) % TWO32], E, seen + {k})
  {
    var i := E[k].ino;
    assert Naming(E, seen + {k}, i) == Naming(E, seen, i) + {k};
    OneMore(|Naming(E, seen, i)|);
    if i !in refs {
      assert Naming(E, seen, i) == {};
    }
    forall j: Ino | j != i ensures Naming(E, seen + {k}, j) == Naming(E, seen, j) {
    }
    var refs' := refs[i := ((if i in refs then refs[i] else 0) + 1) % TWO32];
    forall j: Ino ensures j in refs' <==> exists l :: l in seen + {k} && E[l].ino == j {
      if j == i {
        assert k in seen + {k} && E[k].ino == j;
      }
    }
  }

  ghost function Children(E: Entries, d: Ino): set<DirKey> {
    set k | k in E && k.parent == d
  }

  /** The listing of one directory. */
  method CountChildren(E: Entries, d: Ino, before: map<Ino, u32>, ghost seen: set<DirKey>)
    returns (refs: map<Ino, u32>, n: nat)
    requires Tallied(before, E, seen) && seen !! Children(E, d)
    ensures Tallied(refs, E, seen + Children(E, d)) && n == |Children(E, d)|
  {
    hide Tallied, Listed;
    refs, n := before, 0;
    var todo := set k | k in E && k.parent == d;
    ListingStarts(E, d, seen);
    while todo != {}
      invariant todo <= Children(E, d)
      invariant Tallied(refs, E, Listed(E, d, seen, todo)) && n + |todo| == |Children(E, d)|
      decreases |todo|
    {
      hide Children;
      var k: DirKey :| k in todo;
      OneChildMore(E, d, seen, todo, k);
      TallyOne(refs, E, Listed(E, d, seen, todo), k);
      var i := E[k].ino;
      refs := refs[i := ((if i in refs then refs[i] else 0) + 1) % TWO32];
      n := n + 1;
      todo := todo - {k};
    }
    ListingEnds(E, d, seen);
  }

  /** What has been seen while `todo` is still to be listed. */
  ghost function Listed(E: Entries, d: Ino, seen: set<DirKey>, todo: set<DirKey>): set<DirKey> {
    seen + (Children(E, d) - todo)
  }

  lemma ListingStarts(E: Entries, d: Ino, seen: set<DirKey>)
    ensures Listed(E, d, seen, Children(E, d)) == seen
  {
  }

  lemma ListingEnds(E: Entries, d: Ino, seen: set<DirKey>)
    ensures Listed(E, d, seen, {}) == seen + Children(E, d)
  {
  }

  lemma OneChildMore(E: Entries, d: Ino, seen: set<DirKey>, todo: set<DirKey>, k: DirKey)
    requires k in todo && todo <= Children(E, d) && seen !! Children(E, d)
    ensures k in E && k !in Listed(E, d, seen, todo)
    ensures Listed(E, d, seen, todo - {k}) == Listed(E, d, seen, todo) + {k}
  {
  }

  ghost function VisibleOutside(I: Inodes, E: Entries, dirs: set<Ino>): set<DirKey> {
    set k | k in Visible(I, E) && k.parent !in dirs
  }

  lemma OneDirMore(I: Inodes, E: Entries, dirs: set<Ino>, d: Ino)
    requires d in dirs && d in I && IsDirExact(I[d].mode)
    ensures VisibleOutside(I, E, dirs) !! Children(E, d)
    ensures VisibleOutside(I, E, dirs - {d}) == VisibleOutside(I, E, dirs) + Children(E, d)
    ensures |VisibleOutside(I, E, dirs - {d})| == |VisibleOutside(I, E, dirs)| + |Children(E, d)|
  {
    assert VisibleOutside(I, E, dirs - {d}) == VisibleOutside(I, E, dirs) + Children(E, d);
  }

  /** Phase 2: list every directory and count what its entries name. */
  method CountReferences(I: Inodes, E: Entries) returns (refs: map<Ino, u32>, total: nat)
    ensures Tallied(refs, E, Visible(I, E)) && total == |Visible(I, E)|
  {
    hide Tallied, Children;
    refs, total := map[], 0;
    var dirs := set i | i in I && IsDirExact(I[i].mode);
    assert VisibleOutside(I, E, dirs) == {};
    NothingTallied(E);
    while dirs != {}
      invariant forall i :: i in dirs ==> i in I && IsDirExact(I[i].mode)
      invariant Tallied(refs, E, VisibleOutside(I, E, dirs)) && total == |VisibleOutside(I, E, dirs)|
      decreases |dirs|
    {
      hide VisibleOutside;
      var d: Ino :| d in dirs;
      OneDirMore(I, E, dirs, d);
      var n;
      refs, n := CountChildren(E, d, refs, VisibleOutside(I, E, dirs));
      total := total + n;
      dirs := dirs - {d};
    }
    assert VisibleOutside(I, E, dirs) == Visible(I, E);
  }

  lemma NothingTallied(E: Entries)
    ensures Tallied(map[], E, {})
  {
  }

  /** Issues of one kind about exactly the given inodes, each once. */
  ghost predicate Reports(issues: seq<Issue>, kind: IssueKind, about: set<Ino>) {
    && (forall issue :: issue in issues <==> issue.kind == kind && issue.inode in about)
    && (forall a, b :: 0 <= a < b < |issues| ==> issues[a] != issues[b])
  }

  lemma ReportOne(issues: seq<Issue>, kind: IssueKind, about: set<Ino>, i: Ino)
    requires Reports(issues, kind, about) && i !in about
    ensures Reports(issues + [Issue(i, kind)], kind, about + {i})
  {
    assert Issue(i, kind) !in issues;
    assert forall issue :: issue in issues + [Issue(i, kind)] <==> issue in issues || issue == Issue(i, kind);
  }

  lemma NothingReported(kind: IssueKind, about: set<Ino>)
    requires about == {}
    ensures Reports([], kind, about)
  {
  }

  /** Phase 3: stored inodes, the root excepted, that no entry names. */
  method FindOrphans(I: Inodes, refs: map<Ino, u32>) returns (issues: seq<Issue>)
    ensures Reports(issues, OrphanInode, set i | i in I && i != ROOT && i !in refs)
  {
    issues := [];
    var todo := I.Keys;
    while todo != {}
      invariant todo <= I.Keys
      invariant Reports(issues, OrphanInode, set i | i in I && i !in todo && i != ROOT && i !in refs)
      decreases |todo|
    {
      var i: Ino :| i in todo;
      ghost var about := set j | j in I && j !in todo && j != ROOT && j !in refs;
      todo := todo - {i};
      ghost var about' := set j | j in I && j !in todo && j != ROOT && j !in refs;
      if i != ROOT && i !in refs {
        ReportOne(issues, OrphanInode, about, i);
        issues := issues + [Issue(i, OrphanInode)];
        assert about' == about + {i};
      } else {
        assert about' == about;
      }
    }
    assert (set i | i in I && i !in todo && i != ROOT && i !in refs) == (set i | i in I && i != ROOT && i !in refs);
  }

  predicate Mismatch(I: Inodes, refs: map<Ino, u32>, i: Ino)
    requires i in I
  {
    !IsDirExact(I[i].mode) && I[i].nlink != if i in refs then refs[i] else 0
  }

  /** Phase 4: everything but directories, whose count differs. */
  method FindMismatches(I: Inodes, refs: map<Ino, u32>) returns (issues: seq<Issue>)
    ensures Reports(issues, NlinkMismatch, set i | i in I && Mismatch(I, refs, i))
  {
    hide Reports;
    issues := [];
    var todo := I.Keys;
    NothingReported(NlinkMismatch, set i | i in I && i !in todo && Mismatch(I, refs, i));
    while todo != {}
      invariant todo <= I.Keys
      invariant Reports(issues, NlinkMismatch, set i | i in I && i !in todo && Mismatch(I, refs, i))
      decreases |todo|
    {
      var i: Ino :| i in todo;
      ghost var about := set j | j in I && j !in todo && Mismatch(I, refs, j);
      todo := todo - {i};
      ghost var about' := set j | j in I && j !in todo && Mismatch(I, refs, j);
      if Mismatch(I, refs, i) {
        ReportOne(issues, NlinkMismatch, about, i);
        issues := issues + [Issue(i, NlinkMismatch)];
        assert about' == about + {i};
      } else {
        assert about' == about;
      }
    }
    assert (set i | i in I && i !in todo && Mismatch(I, refs, i)) == (set i | i in I && Mismatch(I, refs, i));
  }

  lemma TallyIsReferences(I: Inodes, E: Entries, refs: map<Ino, u32>, i: Ino)
    requires Tallied(refs, E, Visible(I, E))
    ensures i in refs <==> References(I, E, i) != {}
    ensures (if i in refs then refs[i] else 0) == |References(I, E, i)| % TWO32
  {
    assert Naming(E, Visible(I, E), i) == References(I, E, i);
    if k :| k in References(I, E, i) {
      assert k in Visible(I, E) && E[k].ino == i;
    }
    if i in refs {
      var k :| k in Visible(I, E) && E[k].ino == i;
      assert k in References(I, E, i);
    }
  }

  /** What the checker reads: inode rows, the entry map behind the listings, and the counter row. */
  function Seen(rows: seq<Row>, E: Entries, raw: Option<Bytes>): Store {
    Store(InodesIn(rows), E, map[], map[], map[], CounterIn(raw))
  }

  /** The count of references fits the table. */
  ghost predicate Countable(st: Store, issue: Issue) {
    issue.kind == NlinkMismatch ==> |References(st.inodes, st.entries, issue.inode)| < TWO32
  }

  /** The whole check: over any rows, exactly the inconsistencies, each reported once. */
  method Check(rows: seq<Row>, E: Entries, raw: Option<Bytes>) returns (r: Report)
    requires Sorted(rows)
    ensures var st := Seen(rows, E, raw);
            && (forall issue :: Countable(st, issue) ==> (issue in r.issues <==> Inconsistent(st, issue)))
            && r.totalInodes == |st.inodes| && r.totalEntries == |Visible(st.inodes, E)|
    ensures forall a, b :: 0 <= a < b < |r.issues| ==> r.issues[a] != r.issues[b]
  {
    hide Tallied, InodesIn;
    var I, max := CollectInodes(rows);
    var refs, total := CountReferences(I, E);
    var orphans := FindOrphans(I, refs);
    var mismatches := FindMismatches(I, refs);
    var behind: seq<Issue> := [];
    var counter := CounterIn(raw);
    if counter.Some? && counter.value <= max {
      behind := [Issue(0, CounterInconsistency)];
    }
    forall i: Ino
      ensures i in refs <==> References(I, E, i) != {}
      ensures (if i in refs then refs[i] else 0) == |References(I, E, i)| % TWO32
    {
      TallyIsReferences(I, E, refs, i);
    }
    assert behind != [] <==> CounterBehind(I, counter) by {
      if counter.Some? && counter.value <= max && counter.value != 0 {
        assert max in I && counter.value <= max;
      }
    }
    assert |I| == |I.Keys|;
    r := Report(orphans + mismatches + behind, |I|, total);
    JoinReports(Seen(rows, E, raw), orphans, mismatches, behind, refs);
  }

  lemma JoinReports(st: Store, orphans: seq<Issue>, mismatches: seq<Issue>, behind: seq<Issue>, refs: map<Ino, u32>)
    requires Reports(orphans, OrphanInode, set i | i in st.inodes && i != ROOT && i !in refs)
    requires Reports(mismatches, NlinkMismatch, set i | i in st.inodes && Mismatch(st.inodes, refs, i))
    requires behind == if CounterBehind(st.inodes, st.counter) then [Issue(0, CounterInconsistency)] else []
    requires forall i: Ino :: i in refs <==> References(st.inodes, st.entries, i) != {}
    requires forall i: Ino :: (if i in refs then refs[i] else 0) == |References(st.inodes, st.entries, i)| % TWO32
    ensures forall issue :: Countable(st, issue) ==>
              (issue in orphans + mismatches + behind <==> Inconsistent(st, issue))
    ensures var all := orphans + mismatches + behind; forall a, b :: 0 <= a < b < |all| ==> all[a] != all[b]
  {
    hide References, CounterBehind;
    forall issue
      ensures issue in orphans + mismatches + behind <==> issue in orphans || issue in mismatches || issue in behind
    {
    }
    assert forall a :: 0 <= a < |orphans| ==> orphans[a] in orphans;
    assert forall a :: 0 <= a < |mismatches| ==> mismatches[a] in mismatches;
  }

  /** Rows that hold the encodings of a typed inode map, all in the current format, are read as that map. */
  lemma RepresentedInodes(rows: seq<Row>, I: Inodes)
    requires Sorted(rows) && (forall i :: i in I ==> I[i].version == FORMAT_VERSION)
    requires forall i :: i in I ==> Row(InodeKey(i), InodeBytes(I[i])) in rows
    requires forall row :: row in rows && |row.key| == 9 && row.key[0] == INODE_TAG ==>
               exists i :: i in I && row == Row(InodeKey(i), InodeBytes(I[i]))
    ensures InodesIn(rows) == I
  {
    hide InodesIn, InodeKey, InodeBytes, InodeIn, Sorted;
    forall i | i in I ensures InodeIn(Row(InodeKey(i), InodeBytes(I[i]))) == Some((i, I[i])) {
      InodeRow(i, I[i]);
    }
    forall i: Ino ensures i in InodesIn(rows) ==> i in I {
      InodesInExact(rows, i);
      if i in InodesIn(rows) {
        var j :| 0 <= j < |rows| && InodeIn(rows[j]).Some? && InodeIn(rows[j]).value.0 == i;
        assert rows[j] in rows;
        InodeInKey(rows[j]);
        var l :| l in I && rows[j] == Row(InodeKey(l), InodeBytes(I[l]));
      }
    }
    forall i | i in I ensures i in InodesIn(rows) && InodesIn(rows)[i] == I[i] {
      InodesInExact(rows, i);
      var j :| 0 <= j < |rows| && rows[j] == Row(InodeKey(i), InodeBytes(I[i]));
    }
  }

  lemma InodeRow(i: Ino, v: InodeValue)
    requires v.version == FORMAT_VERSION
    ensures InodeIn(Row(InodeKey(i), InodeBytes(v))) == Some((i, v))
  {
    hide BigEndian, FromBigEndian, InodeBytes, ParseInode;
    InodeRoundTrip(v);
    assert InodeKey(i)[1..9] == BigEndian(i, 8);
    Word64(i);
  }

  // ------------------------------------------------------------------ reachable states

  /** No state that a server reaches has an entry outside the check or a link count that it would report. */
  lemma ReachableHasNoMismatch(s: State, i: Ino)
    requires Reachable(s)
    ensures !Inconsistent(s.store, Issue(i, NlinkMismatch))
    ensures Visible(s.store.inodes, s.store.entries) == s.store.entries.Keys
  {
    hide Reachable;
    ReachableInv(s);
    var I, E := s.store.inodes, s.store.entries;
    AllVisible(I, E);
    if i in I {
      DirectoryTestsAgree(I[i].mode);
      assert References(I, E, i) == Names(E, i);
    }
  }

  lemma AllVisible(I: Inodes, E: Entries)
    requires WellTyped(I, E)
    ensures Visible(I, E) == E.Keys
  {
    forall k | k in E ensures k in Visible(I, E) {
      DirectoryTestsAgree(I[k.parent].mode);
    }
  }

  /**
   The orphans of a reachable state are exactly the files waiting for their last handle and the
   replaced directories.
   */
  lemma ReachableOrphans(s: State, i: Ino)
    requires Reachable(s) && i in s.store.inodes
    ensures Inconsistent(s.store, Issue(i, OrphanInode)) <==>
            i in s.mem.pending || (IsDir(s.store.inodes[i].mode) && !LiveDir(s.store.entries, i))
  {
    hide Reachable, Inv, Inconsistent;
    ReachableInv(s);
    InvParts(s);
    OrphanIff(s.store.inodes, s.store.entries, s.mem, i);
    assert Inconsistent(s.store, Issue(i, OrphanInode)) <==> IsOrphan(s.store.inodes, s.store.entries, i) by {
      OrphanIssue(s.store, i);
    }
  }

  lemma InvParts(s: State)
    requires Inv(s)
    ensures WellTyped(s.store.inodes, s.store.entries) && FileLinks(s.store.inodes, s.store.entries)
    ensures Deferred(s.store.inodes, s.mem)
  {
  }

  lemma OrphanIssue(st: Store, i: Ino)
    ensures Inconsistent(st, Issue(i, OrphanInode)) <==> IsOrphan(st.inodes, st.entries, i)
  {
  }

  lemma OrphanIff(I: Inodes, E: Entries, m: Mem, i: Ino)
    requires WellTyped(I, E) && FileLinks(I, E) && Deferred(I, m) && i in I
    ensures IsOrphan(I, E, i) <==> i in m.pending || (IsDir(I[i].mode) && !LiveDir(E, i))
  {
    AllVisible(I, E);
    assert References(I, E, i) == Names(E, i);
    if IsDir(I[i].mode) && i != ROOT {
      if k :| k in Names(E, i) {
        assert FileType(E[k].mode) == FileType(I[i].mode);
      }
      if LiveDir(E, i) {
        var k :| k in E && E[k].ino == i && IsDir(E[k].mode);
        assert k in Names(E, i);
      }
    }
  }

  /**
   Once a counter has been written, it is reported exactly when a restart would give out a number that is
   not above all stored inodes; before that nothing is reported, although the same restart starts at 2.
   */
  lemma CounterIssueMeansReuse(s: State)
    requires ROOT in s.store.inodes
    ensures var reuses := exists i :: i in s.store.inodes && i >= Restart(s).mem.next;
            var reported := Inconsistent(s.store, Issue(0, CounterInconsistency));
            && (s.store.counter.Some? ==> (reported <==> reuses))
            && (s.store.counter.None? ==> !reported && (reuses <==> exists i :: i in s.store.inodes && i >= 2))
  {
    hide Recovered;
    if s.store.counter.Some? {
      if s.store.counter.value == 0 {
        assert ROOT in s.store.inodes && ROOT >= Restart(s).mem.next;
      }
      if i :| i in s.store.inodes && i >= Restart(s).mem.next {
        assert i in s.store.inodes && s.store.counter.value <= i;
      }
      if i :| i in s.store.inodes && s.store.counter.value <= i {
        assert i in s.store.inodes && i >= Restart(s).mem.next;
      }
    }
  }
}
