/** How many entries name an inode and how many subdirectories a directory has, as entries come and go. */
module Links {
  import opened Types
  import opened Tree

  ghost function Names(E: Entries, i: Ino): set<DirKey> {
    set k | k in E && E[k].ino == i
  }

  ghost function Subdirs(E: Entries, i: Ino): set<DirKey> {
    set k | k in E && k.parent == i && IsDir(E[k].mode)
  }

  function One(b: bool): nat {
    if b then 1 else 0
  }

  lemma CountAdd(E: Entries, k: DirKey, e: Entry, i: Ino)
    requires k !in E
    ensures |Names(E[k := e], i)| == |Names(E, i)| + One(e.ino == i)
    ensures |Subdirs(E[k := e], i)| == |Subdirs(E, i)| + One(k.parent == i && IsDir(e.mode))
  {
    NamesAdd(E, k, e, i);
    SubdirsAdd(E, k, e, i);
  }

  lemma NamesAdd(E: Entries, k: DirKey, e: Entry, i: Ino)
    requires k !in E
    ensures |Names(E[k := e], i)| == |Names(E, i)| + One(e.ino == i)
  {
    if e.ino == i {
      assert Names(E[k := e], i) == Names(E, i) + {k};
    } else {
      assert Names(E[k := e], i) == Names(E, i);
    }
  }

  lemma SubdirsAdd(E: Entries, k: DirKey, e: Entry, i: Ino)
    requires k !in E
    ensures |Subdirs(E[k := e], i)| == |Subdirs(E, i)| + One(k.parent == i && IsDir(e.mode))
  {
    if k.parent == i && IsDir(e.mode) {
      assert Subdirs(E[k := e], i) == Subdirs(E, i) + {k};
    } else {
      assert Subdirs(E[k := e], i) == Subdirs(E, i);
    }
  }

  lemma CountRemove(E: Entries, k: DirKey, i: Ino)
    requires k in E
    ensures |Names(E - {k}, i)| == |Names(E, i)| - One(E[k].ino == i)
    ensures |Subdirs(E - {k}, i)| == |Subdirs(E, i)| - One(k.parent == i && IsDir(E[k].mode))
  {
    var F := E - {k};
    assert F[k := E[k]] == E;
    CountAdd(F, k, E[k], i);
  }

  /** A rename takes the replaced entry's name away and carries the source's along. */
  lemma CountMove(E: Entries, k: DirKey, k2: DirKey, mode: u32, i: Ino)
    requires k in E && k2 != k && (IsDir(mode) <==> IsDir(E[k].mode))
    ensures |Names(Moved(E, k, k2, mode), i)| == |Names(E, i)| - One(k2 in E && E[k2].ino == i)
    ensures |Subdirs(Moved(E, k, k2, mode), i)| ==
            |Subdirs(E, i)| - One(k2 in E && k2.parent == i && IsDir(E[k2].mode))
            - One(k.parent == i && IsDir(mode)) + One(k2.parent == i && IsDir(mode))
  {
    var F := if k2 in E then E - {k2} else E;
    if k2 in E {
      CountRemove(E, k2, i);
    }
    CountRemove(F, k, i);
    assert F - {k} == E - {k2, k};
    CountAdd(F - {k}, k2, Entry(E[k].ino, mode), i);
  }

  lemma NoNames(E: Entries, i: Ino)
    ensures |Names(E, i)| == 0 <==> forall k :: k in E ==> E[k].ino != i
  {
    if |Names(E, i)| == 0 {
      forall k | k in E ensures E[k].ino != i {
        assert k !in Names(E, i);
      }
    } else {
      var k :| k in Names(E, i);
    }
  }

  lemma NoSubdirs(E: Entries, i: Ino)
    requires forall k :: k in E ==> k.parent != i
    ensures Subdirs(E, i) == {}
  {
  }
}
