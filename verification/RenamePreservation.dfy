/** An allowed rename keeps the namespace invariants. */
module RenamePreservation {
  import opened Types
  import opened Wrappers
  import opened DeltaFold
  import opened Server
  import opened Logging
  import opened Tree
  import opened Links
  import opened Invariants
  import opened Preservation

  // ------------------------------------------------------------------ the logged link changes

  lemma LinksConcat(x: seq<LogItem>, y: seq<LogItem>, i: Ino)
    ensures Added(x + y, i) == Added(x, i) + Added(y, i)
    ensures Removed(x + y, i) == Removed(x, i) + Removed(y, i)
  {
    OpsForConcat(x, y, i);
    SummariseConcat(OpsFor(x, i), OpsFor(y, i));
  }

  lemma LinksOfChange(p: Ino, n: i32, i: Ino)
    ensures Added([LogItem(p, [IncrementNlink(n)])], i) == if i == p then Max(n, 0) else 0
    ensures Removed([LogItem(p, [IncrementNlink(n)])], i) == if i == p then Max(0 - n, 0) else 0
  {
    hide Summarise, OpsFor;
    OpsForOne(LogItem(p, [IncrementNlink(n)]), i);
    SummariseOne(IncrementNlink(n));
    NothingLogged(i);
  }

  lemma NothingLogged(i: Ino)
    ensures Summarise([]) == Summary(0, 0, 0, 0, 0) && OpsFor([], i) == []
  {
  }

  lemma LinksOfTransfer(p: Ino, np: Ino, i: Ino)
    ensures var x := [LogItem(p, [IncrementNlink(-1)]), LogItem(np, [IncrementNlink(1)])];
            Added(x, i) == One(i == np) && Removed(x, i) == One(i == p)
  {
    hide Added, Removed;
    var a, b := LogItem(p, [IncrementNlink(-1)]), LogItem(np, [IncrementNlink(1)]);
    assert [a, b] == [a] + [b];
    LinksConcat([a], [b], i);
    LinksOfChange(p, -1, i);
    LinksOfChange(np, 1, i);
  }

  /** A rename takes one link from the new parent for a replaced directory and moves one along with a moved one. */
  lemma LinksOfRename(p: Ino, np: Ino, srcDir: bool, dstDir: bool, ts: u64, i: Ino)
    ensures var logs := RenameLogs(p, np, srcDir, dstDir, ts);
            && Added(logs, i) == One(srcDir && p != np && i == np)
            && Removed(logs, i) == One(dstDir && i == np) + One(srcDir && p != np && i == p)
  {
    hide Added, Removed;
    var a := if dstDir then [LogItem(np, [IncrementNlink(-1)])] else [];
    var b := if srcDir && p != np then [LogItem(p, [IncrementNlink(-1)]), LogItem(np, [IncrementNlink(1)])] else [];
    var c := [LogItem(p, Stamps(ts))];
    var d := if p != np then [LogItem(np, Stamps(ts))] else [];
    assert RenameLogs(p, np, srcDir, dstDir, ts) == a + b + c + d;
    LinksConcat(a + b + c, d, i);
    LinksConcat(a + b, c, i);
    LinksConcat(a, b, i);
    LinksOfChange(np, -1, i);
    LinksOfTransfer(p, np, i);
    StampsLinks(p, ts, i);
    StampsLinks(np, ts, i);
    NoLinksLogged(i);
  }

  lemma NoLinksLogged(i: Ino)
    ensures Added([], i) == 0 && Removed([], i) == 0
  {
  }

  lemma TouchedByRename(p: Ino, np: Ino, srcDir: bool, dstDir: bool, ts: u64)
    ensures Touched(RenameLogs(p, np, srcDir, dstDir, ts)) <= {p, np}
  {
  }

  // ------------------------------------------------------------------ entries and inode rows

  /** A rename that passes the server's checks and the caller's. */
  ghost predicate GoodRename(st: Store, k: DirKey, k2: DirKey) {
    && WellTyped(st.inodes, st.entries) && IsTree(st.entries) && FileLinks(st.inodes, st.entries)
    && RenameRefusal(st, k, k2).None? && RenameAllowed(st.entries, k, k2) && k2 != k
  }

  lemma RenameTypes(st: Store, k: DirKey, k2: DirKey)
    requires GoodRename(st, k, k2)
    ensures k in st.entries && k != k2 && st.entries[k].ino in st.inodes
    ensures FileType(st.entries[k].mode) == FileType(st.inodes[st.entries[k].ino].mode)
    ensures k2 in st.entries ==>
              && st.entries[k2].ino in st.inodes && st.entries[k2].ino != st.entries[k].ino
              && (IsDir(st.entries[k2].mode) <==> IsDir(st.inodes[st.entries[k2].ino].mode))
              && (IsDir(st.entries[k2].mode) <==> IsDir(st.entries[k].mode))
              && (IsDir(st.entries[k2].mode) ==> DirEmpty(st.entries, st.entries[k2].ino))
  {
    if k2 in st.entries {
      EntryTypes(st.inodes, st.entries, k2);
    }
  }

  lemma RenameTree(st: Store, k: DirKey, k2: DirKey, ts: u64)
    requires GoodRename(st, k, k2)
    ensures IsTree(RenameStore(st, k, k2, ts).entries)
  {
    var E := st.entries;
    var src := E[k].ino;
    RenameTypes(st, k, k2);
    LiveDirDescends(E, k2.parent);
    assert RenameStore(st, k, k2, ts).entries == Moved(E, k, k2, st.inodes[src].mode);
    if IsDir(E[k].mode) {
      TreeMove(E, k, k2, st.inodes[src].mode);
    } else {
      forall kk | kk in E && E[kk].ino == src ensures !IsDir(E[kk].mode) {
        EntryTypes(st.inodes, E, kk);
      }
      TreeMoveFile(E, k, k2, st.inodes[src].mode);
    }
  }

  /** Nothing but the replaced entry names a file that the rename kills. */
  lemma KilledHasNoOtherName(st: Store, k: DirKey, k2: DirKey, kk: DirKey)
    requires GoodRename(st, k, k2) && RenameKills(st, k2) && kk in st.entries && kk != k2
    ensures st.entries[kk].ino != st.entries[k2].ino
  {
    var E, dst := st.entries, st.entries[k2].ino;
    RenameTypes(st, k, k2);
    CountRemove(E, k2, dst);
    NoNames(E - {k2}, dst);
    assert kk in E - {k2};
  }

  lemma RenameWellTyped(st: Store, k: DirKey, k2: DirKey, ts: u64)
    requires GoodRename(st, k, k2)
    ensures WellTyped(RenameInodes(st, k, k2, ts), RenameStore(st, k, k2, ts).entries)
  {
    hide IsTree, FileLinks, Descends;
    var I, E := st.inodes, st.entries;
    var J, F := RenameInodes(st, k, k2, ts), RenameStore(st, k, k2, ts).entries;
    RenameTypes(st, k, k2);
    LiveDirIsStored(I, E, k2.parent);
    forall kk | kk in F
      ensures F[kk].ino in J && FileType(F[kk].mode) == FileType(J[F[kk].ino].mode)
      ensures kk.parent in J && IsDir(J[kk.parent].mode)
    {
      if kk != k2 && RenameKills(st, k2) {
        KilledHasNoOtherName(st, k, k2, kk);
      }
    }
  }

  lemma RenameFileLinks(st: Store, k: DirKey, k2: DirKey, ts: u64)
    requires GoodRename(st, k, k2)
    ensures FileLinks(RenameInodes(st, k, k2, ts), RenameStore(st, k, k2, ts).entries)
  {
    hide IsTree, WellTyped, Descends, Names;
    var I, E := st.inodes, st.entries;
    var J, F := RenameInodes(st, k, k2, ts), RenameStore(st, k, k2, ts).entries;
    RenameTypes(st, k, k2);
    forall j | j in J && !IsDir(J[j].mode) ensures J[j].nlink == |Names(F, j)| {
      CountMove(E, k, k2, I[E[k].ino].mode, j);
      if k2 in E && j == E[k2].ino {
        NamedFile(I, E, k2);
      }
    }
  }

  /** The directories that are linked after a rename. */
  lemma RenameLiveDir(st: Store, k: DirKey, k2: DirKey, ts: u64, i: Ino)
    requires GoodRename(st, k, k2)
    ensures LiveDir(RenameStore(st, k, k2, ts).entries, i) <==>
            LiveDir(st.entries, i) && !(k2 in st.entries && st.entries[k2].ino == i)
  {
    hide FileLinks;
    var E, F := st.entries, RenameStore(st, k, k2, ts).entries;
    RenameTypes(st, k, k2);
    if LiveDir(F, i) && i != ROOT {
      var kk :| kk in F && F[kk].ino == i && IsDir(F[kk].mode);
      var old_ := if kk == k2 then k else kk;
      assert old_ in E && E[old_].ino == i && IsDir(E[old_].mode);
    }
    if LiveDir(E, i) && i != ROOT && !(k2 in E && E[k2].ino == i) {
      var kk :| kk in E && E[kk].ino == i && IsDir(E[kk].mode);
      var new_ := if kk == k then k2 else kk;
      assert new_ in F && F[new_].ino == i && IsDir(F[new_].mode);
    }
  }

  lemma RenameCountsLand(st: Store, k: DirKey, k2: DirKey, ts: u64)
    requires GoodRename(st, k, k2) && DirLinks(st)
    ensures CountsLand(RenameStore(st, k, k2, ts), RenameLogsOf(st, k, k2, ts))
  {
    var u, logs := RenameStore(st, k, k2, ts), RenameLogsOf(st, k, k2, ts);
    forall i | i in u.inodes && LiveDir(u.entries, i) ensures LinksLandOn(u, logs, i, 2 + |Subdirs(u.entries, i)|) {
      RenameLiveDir(st, k, k2, ts, i);
      RenameCountLands(st, k, k2, ts, i);
    }
  }

  lemma RenameCountLands(st: Store, k: DirKey, k2: DirKey, ts: u64, i: Ino)
    requires GoodRename(st, k, k2) && DirLinks(st)
    requires LiveDir(st.entries, i) && !(k2 in st.entries && st.entries[k2].ino == i)
    ensures var u := RenameStore(st, k, k2, ts);
            && i in u.inodes
            && LinksLandOn(u, RenameLogsOf(st, k, k2, ts), i, 2 + |Subdirs(u.entries, i)|)
  {
    hide IsTree, FileLinks, Descends, Added, Removed, Subdirs, Names;
    var u, E, src := RenameStore(st, k, k2, ts), st.entries, st.entries[k].ino;
    RenameTypes(st, k, k2);
    LiveDirIsStored(st.inodes, E, i);
    CountMove(E, k, k2, st.inodes[src].mode, i);
    LinksOfRename(k.parent, k2.parent, IsDir(st.inodes[src].mode), k2 in E && IsDir(E[k2].mode), ts, i);
    SourceNlink(st, k, k2, ts, i);
  }

  /** The rename itself leaves every linked directory's effective link count alone. */
  lemma SourceNlink(st: Store, k: DirKey, k2: DirKey, ts: u64, i: Ino)
    requires GoodRename(st, k, k2) && i in st.inodes && !(k2 in st.entries && st.entries[k2].ino == i)
    ensures var u := RenameStore(st, k, k2, ts);
            && i in u.inodes && Effective(u, i).nlink == Effective(st, i).nlink
            && (ExactLog(st, i) ==> ExactLog(u, i))
  {
    hide IsTree, FileLinks, WellTyped, RenameAllowed;
    var u := RenameStore(st, k, k2, ts);
    assert DeltasOf(u, i) == DeltasOf(st, i);
    if i == st.entries[k].ino {
      EffectiveNlink(st, i, st.inodes[i].(ctime := ts));
      assert DeltasOf(st.(inodes := st.inodes[i := st.inodes[i].(ctime := ts)]), i) == DeltasOf(st, i);
    }
  }

  lemma RenameLiveLogs(st: Store, seqs: map<Ino, nat>, k: DirKey, k2: DirKey, ts: u64, gone: Option<Ino>, u: Store)
    requires GoodRename(st, k, k2) && LiveLogs(st)
    requires gone == if k2 in st.entries then Some(st.entries[k2].ino) else None
    requires LoggedStore(RenameStore(st, k, k2, ts), seqs, RenameLogsOf(st, k, k2, ts), gone, u)
    ensures LiveLogs(u)
  {
    hide FileLinks, WellTyped, Descends, LoggedStore;
    var E, st1 := st.entries, RenameStore(st, k, k2, ts);
    RenameTypes(st, k, k2);
    ParentIsLiveDir(E, k);
    forall i: Ino | LiveDir(E, i) && gone != Some(i) ensures LiveDir(st1.entries, i) {
      RenameLiveDir(st, k, k2, ts, i);
    }
    ParentsAreNotReplaced(st, k, k2);
    TouchedByRename(k.parent, k2.parent, IsDir(st.inodes[E[k].ino].mode), k2 in E && IsDir(E[k2].mode), ts);
    forall i: Ino ensures DeltasOf(st1, i) == DeltasOf(st, i) {
    }
    LogLiveLogs(st1, seqs, RenameLogsOf(st, k, k2, ts), gone, u);
  }

  lemma ParentsAreNotReplaced(st: Store, k: DirKey, k2: DirKey)
    requires GoodRename(st, k, k2)
    ensures k2 in st.entries ==> k.parent != st.entries[k2].ino && k2.parent != st.entries[k2].ino
  {
    RenameTypes(st, k, k2);
  }

  lemma RenameDeferred(st: Store, m: Mem, k: DirKey, k2: DirKey, ts: u64)
    requires GoodRename(st, k, k2) && Deferred(st.inodes, m)
    ensures Deferred(RenameInodes(st, k, k2, ts), m)
  {
    hide IsTree, Descends, Names, RenameAllowed;
    RenameTypes(st, k, k2);
    if k2 in st.entries && !IsDir(st.entries[k2].mode) {
      NamedFile(st.inodes, st.entries, k2);
    }
  }

  lemma RenameCache(st: Store, cache: Inodes, k: DirKey, k2: DirKey, ts: u64)
    requires GoodRename(st, k, k2) && CacheTyped(st.inodes, cache)
    ensures var src := st.entries[k].ino;
            var c := if k2 in st.entries then cache - {st.entries[k2].ino} else cache;
            CacheTyped(RenameInodes(st, k, k2, ts), c[src := st.inodes[src].(ctime := ts)])
  {
    hide IsTree, FileLinks, WellTyped, RenameAllowed;
  }

  lemma RenameKeepsInv(s: State, k: DirKey, k2: DirKey, ts: u64)
    requires Inv(s) && RenameAllowed(s.store.entries, k, k2) && k2 != k
    ensures Inv(Rename(WithDeltas, s, k, k2, ts, false).state)
  {
    hide IsTree, FileLinks, DirLinks, LiveLogs, WellTyped, CacheTyped, Deferred, LogAll, CacheAll, LiveDir, Descends,
      OpsFor, FileType, Storable, Touched, RenameAllowed, RenameRefusal, RenameKills, RenameLogs, IsDir, CountsLand;
    var o := Rename(WithDeltas, s, k, k2, ts, false);
    if o.reply.Success? {
      var st, E := s.store, s.store.entries;
      var st1, logs := RenameStore(st, k, k2, ts), RenameLogsOf(st, k, k2, ts);
      var gone := if k2 in E then Some(E[k2].ino) else None;
      var u := o.state.store;
      assert LoggedStore(st1, s.mem.seqs, logs, gone, u);
      LoggedDeltas(st1, s.mem.seqs, logs, gone, u);
      RenameTypes(st, k, k2);
      RenameWellTyped(st, k, k2, ts);
      RenameTree(st, k, k2, ts);
      RenameFileLinks(st, k, k2, ts);
      RenameCountsLand(st, k, k2, ts);
      if k2 in E {
        RenameLiveDir(st, k, k2, ts, E[k2].ino);
      }
      LogDirLinks(st1, s.mem.seqs, logs, gone, u);
      RenameLiveLogs(st, s.mem.seqs, k, k2, ts, gone, u);
      RenameDeferred(st, s.mem, k, k2, ts);
      DeferredDependsOn(u.inodes, s.mem, o.state.mem);
      RenameCache(st, s.mem.cache, k, k2, ts);
      var src := E[k].ino;
      RenameTouchesDirs(st, k, k2, ts);
      CacheAllTyped(u.inodes,
        (if k2 in E then s.mem.cache - {E[k2].ino} else s.mem.cache)[src := st.inodes[src].(ctime := ts)], logs);
      RenameFresh(st, s.mem, k, k2, ts);
    }
  }

  lemma RenameTouchesDirs(st: Store, k: DirKey, k2: DirKey, ts: u64)
    requires GoodRename(st, k, k2)
    ensures TouchesDirs(RenameInodes(st, k, k2, ts), RenameLogsOf(st, k, k2, ts))
  {
    hide FileLinks, Descends, RenameInodes, RenameRefusal;
    var E := st.entries;
    RenameTypes(st, k, k2);
    RenameWellTyped(st, k, k2, ts);
    ParentIsLiveDir(E, k);
    ParentsAreNotReplaced(st, k, k2);
    RenameLiveDir(st, k, k2, ts, k.parent);
    RenameLiveDir(st, k, k2, ts, k2.parent);
    TouchedByRename(k.parent, k2.parent, IsDir(st.inodes[E[k].ino].mode), k2 in E && IsDir(E[k2].mode), ts);
    TouchesLiveDirs(RenameInodes(st, k, k2, ts), RenameStore(st, k, k2, ts).entries, RenameLogsOf(st, k, k2, ts));
  }

  lemma RenameFresh(st: Store, m: Mem, k: DirKey, k2: DirKey, ts: u64)
    requires GoodRename(st, k, k2) && Fresh(st.inodes, m)
    ensures Fresh(RenameInodes(st, k, k2, ts), m)
  {
    hide IsTree, FileLinks, WellTyped, RenameAllowed;
  }

  // ------------------------------------------------------------------ a file renamed onto itself

  lemma InPlaceTypes(I: Inodes, E: Entries, k: DirKey, ts: u64)
    requires WellTyped(I, E) && k in E
    ensures var i := E[k].ino; WellTyped(I[i := I[i].(ctime := ts)], Moved(E, k, k, I[i].mode))
  {
  }

  lemma InPlaceFileLinks(I: Inodes, E: Entries, k: DirKey, mode: u32, ts: u64)
    requires FileLinks(I, E) && k in E && E[k].ino in I && !IsDir(E[k].mode) && !IsDir(mode)
    ensures var i := E[k].ino; FileLinks(I[i := I[i].(ctime := ts)], Moved(E, k, k, mode))
  {
    hide Names, Subdirs, LiveDir;
    InPlaceCounts(E, k, mode);
  }

  lemma InPlaceEntries(I: Inodes, E: Entries, k: DirKey, ts: u64)
    requires WellTyped(I, E) && IsTree(E) && FileLinks(I, E) && k in E && !IsDir(E[k].mode)
    ensures var i := E[k].ino;
            var J, F := I[i := I[i].(ctime := ts)], Moved(E, k, k, I[i].mode);
            && WellTyped(J, F) && IsTree(F) && FileLinks(J, F)
            && forall j :: Subdirs(F, j) == Subdirs(E, j) && (LiveDir(F, j) <==> LiveDir(E, j))
  {
    hide WellTyped, FileLinks, IsTree, Moved, LiveDir, Names, Subdirs;
    var i := E[k].ino;
    EntryTypes(I, E, k);
    InPlaceTypes(I, E, k, ts);
    InPlaceFileLinks(I, E, k, I[i].mode, ts);
    InPlaceCounts(E, k, I[i].mode);
    InPlaceTree(I, E, k);
  }

  lemma InPlaceTree(I: Inodes, E: Entries, k: DirKey)
    requires WellTyped(I, E) && IsTree(E) && k in E && !IsDir(E[k].mode)
    ensures IsTree(Moved(E, k, k, I[E[k].ino].mode))
  {
    EntryTypes(I, E, k);
    forall kk | kk in E && E[kk].ino == E[k].ino ensures !IsDir(E[kk].mode) {
      EntryTypes(I, E, kk);
    }
    TreeMoveFile(E, k, k, I[E[k].ino].mode);
  }

  lemma InPlaceCounts(E: Entries, k: DirKey, mode: u32)
    requires k in E && !IsDir(E[k].mode) && !IsDir(mode)
    ensures var F := Moved(E, k, k, mode);
            forall j :: Names(F, j) == Names(E, j) && Subdirs(F, j) == Subdirs(E, j) &&
              (LiveDir(F, j) <==> LiveDir(E, j))
  {
    var F := Moved(E, k, k, mode);
    assert F.Keys == E.Keys;
    forall j
      ensures Names(F, j) == Names(E, j) && Subdirs(F, j) == Subdirs(E, j) && (LiveDir(F, j) <==> LiveDir(E, j))
    {
      if LiveDir(E, j) && j != ROOT {
        var kk :| kk in E && E[kk].ino == j && IsDir(E[kk].mode);
        assert kk in F && F[kk] == E[kk];
      }
    }
  }

  /** Only the change time moves, and only the parent's times are logged. */
  lemma InPlaceRows(st: Store, k: DirKey, ts: u64)
    requires WellTyped(st.inodes, st.entries) && k in st.entries && !IsDir(st.entries[k].mode)
    requires RenameRefusal(st, k, k).None?
    ensures RenameInodes(st, k, k, ts) == st.inodes[st.entries[k].ino := st.inodes[st.entries[k].ino].(ctime := ts)]
    ensures RenameLogsOf(st, k, k, ts) == [LogItem(k.parent, Stamps(ts))]
  {
    EntryTypes(st.inodes, st.entries, k);
  }

  lemma InPlaceCountsLand(st: Store, k: DirKey, ts: u64)
    requires WellTyped(st.inodes, st.entries) && IsTree(st.entries) && FileLinks(st.inodes, st.entries) && DirLinks(st)
    requires k in st.entries && !IsDir(st.entries[k].mode) && RenameRefusal(st, k, k).None?
    ensures CountsLand(RenameStore(st, k, k, ts), [LogItem(k.parent, Stamps(ts))])
  {
    hide IsTree, Descends, Subdirs, Names, FileLinks, WellTyped, RenameInodes, RenameRefusal, IsDir;
    var u, i := RenameStore(st, k, k, ts), st.entries[k].ino;
    InPlaceRows(st, k, ts);
    InPlaceEntries(st.inodes, st.entries, k, ts);
    InPlaceNotLive(st, k);
    forall j | j in u.inodes && LiveDir(u.entries, j)
      ensures LinksLandOn(u, [LogItem(k.parent, Stamps(ts))], j, 2 + |Subdirs(u.entries, j)|)
    {
      LiveDirIsStored(st.inodes, st.entries, j);
      StampsLinks(k.parent, ts, j);
      assert DeltasOf(u, j) == DeltasOf(st, j);
      assert Effective(u, j) == Effective(st, j);
    }
  }

  lemma InPlaceKeepsInv(s: State, k: DirKey, ts: u64)
    requires Inv(s) && k in s.store.entries && !IsDir(s.store.entries[k].mode)
    ensures Inv(Rename(WithDeltas, s, k, k, ts, false).state)
  {
    hide IsTree, FileLinks, DirLinks, LiveLogs, WellTyped, CacheTyped, Deferred, LogAll, CacheAll, LiveDir, Descends,
      OpsFor, FileType, Storable, Touched, RenameRefusal, RenameKills, RenameLogs, RenameLogsOf, RenameInodes, IsDir,
        CountsLand;
    var o := Rename(WithDeltas, s, k, k, ts, false);
    if o.reply.Success? {
      var st, E, i := s.store, s.store.entries, s.store.entries[k].ino;
      EntryTypes(st.inodes, E, k);
      var v := st.inodes[i].(ctime := ts);
      InPlaceRows(st, k, ts);
      var st1, logs, u := RenameStore(st, k, k, ts), [LogItem(k.parent, Stamps(ts))], o.state.store;
      InPlaceEntries(st.inodes, E, k, ts);
      InPlaceCountsLand(st, k, ts);
      assert LoggedStore(st1, s.mem.seqs, logs, Some(i), u);
      LoggedDeltas(st1, s.mem.seqs, logs, Some(i), u);
      InPlaceNotLive(st, k);
      LogDirLinks(st1, s.mem.seqs, logs, Some(i), u);
      InPlaceLiveLogs(st, s.mem.seqs, k, ts, u);
      PutBaseTypes(st.inodes, E, s.mem, i, v);
      DeferredDependsOn(u.inodes, s.mem, o.state.mem);
      CacheDropPut(st.inodes, s.mem.cache, i, v);
      StoredParentIsDir(st.inodes, E, k);
      ParentTouchesDir(u.inodes, k, Stamps(ts));
      CacheAllTyped(u.inodes, (s.mem.cache - {i})[i := v], logs);
    }
  }

  lemma InPlaceNotLive(st: Store, k: DirKey)
    requires WellTyped(st.inodes, st.entries) && IsTree(st.entries) && k in st.entries && !IsDir(st.entries[k].mode)
    ensures !LiveDir(st.entries, st.entries[k].ino)
  {
    EntryTypes(st.inodes, st.entries, k);
    if LiveDir(st.entries, st.entries[k].ino) {
      LiveDirIsStored(st.inodes, st.entries, st.entries[k].ino);
    }
  }

  lemma CacheDropPut(I: Inodes, cache: Inodes, i: Ino, v: InodeValue)
    requires CacheTyped(I, cache)
    ensures CacheTyped(I[i := v], (cache - {i})[i := v])
  {
  }

  lemma InPlaceLiveLogs(st: Store, seqs: map<Ino, nat>, k: DirKey, ts: u64, u: Store)
    requires WellTyped(st.inodes, st.entries) && IsTree(st.entries) && FileLinks(st.inodes, st.entries) && LiveLogs(st)
    requires k in st.entries && !IsDir(st.entries[k].mode) && RenameRefusal(st, k, k).None?
    requires LoggedStore(RenameStore(st, k, k, ts), seqs, [LogItem(k.parent, Stamps(ts))], Some(st.entries[k].ino), u)
    ensures LiveLogs(u)
  {
    hide FileLinks, Descends, LoggedStore, RenameInodes, RenameRefusal;
    var st1 := RenameStore(st, k, k, ts);
    InPlaceEntries(st.inodes, st.entries, k, ts);
    ParentIsLiveDir(st.entries, k);
    forall i: Ino ensures DeltasOf(st1, i) == DeltasOf(st, i) {
    }
    LogLiveLogs(st1, seqs, [LogItem(k.parent, Stamps(ts))], Some(st.entries[k].ino), u);
  }
}
