/**
 The directory tree as it is recorded in the directory entries alone, and how adding, removing and
 moving an entry affects it.
 */
module Tree {
  import opened Types
  import opened Server

  type Entries = map<DirKey, Entry>

  /** Directory `a` holds an entry for directory `b`. */
  ghost predicate Edge(E: Entries, a: Ino, b: Ino) {
    exists k :: k in E && k.parent == a && E[k].ino == b && IsDir(E[k].mode)
  }

  ghost predicate Chain(E: Entries, p: seq<Ino>) {
    |p| > 0 && forall j :: 0 < j < |p| ==> Edge(E, p[j - 1], p[j])
  }

  ghost predicate ChainFromTo(E: Entries, p: seq<Ino>, a: Ino, b: Ino) {
    Chain(E, p) && p[0] == a && p[|p| - 1] == b
  }

  /** `b` lies in the subtree of `a` (or is `a`). */
  ghost predicate Descends(E: Entries, a: Ino, b: Ino) {
    exists p :: ChainFromTo(E, p, a, b)
  }

  /** Named by an entry, or the root. */
  ghost predicate Linked(E: Entries, i: Ino) {
    i == ROOT || exists k :: k in E && E[k].ino == i
  }

  /**
   The root has no entry, a directory has at most one, and every entry hangs below the root: each
   linked directory other than the root has exactly one entry and a path from the root.
   */
  ghost predicate IsTree(E: Entries) {
    && (forall k :: k in E ==> E[k].ino != ROOT)
    && (forall k, k2 :: k in E && k2 in E && E[k].ino == E[k2].ino && IsDir(E[k].mode) ==> k == k2)
    && (forall k :: k in E ==> Descends(E, ROOT, k.parent))
  }

  lemma RootDescends(E: Entries)
    ensures Descends(E, ROOT, ROOT)
  {
    assert ChainFromTo(E, [ROOT], ROOT, ROOT);
  }

  lemma Extend(E: Entries, a: Ino, b: Ino, c: Ino)
    requires Descends(E, a, b) && Edge(E, b, c)
    ensures Descends(E, a, c)
  {
    var p :| ChainFromTo(E, p, a, b);
    assert ChainFromTo(E, p + [c], a, c);
  }

  /** What `IsTree` promises about directories: a unique entry and a path. */
  lemma DirectoryIsRooted(E: Entries, k: DirKey)
    requires IsTree(E) && k in E && IsDir(E[k].mode)
    ensures Descends(E, ROOT, E[k].ino)
    ensures forall k2 :: k2 in E && E[k2].ino == E[k].ino ==> k2 == k
  {
    assert Edge(E, k.parent, E[k].ino);
    Extend(E, ROOT, k.parent, E[k].ino);
  }

  lemma ChainMonotone(E: Entries, F: Entries, p: seq<Ino>)
    requires Chain(E, p)
    requires forall k :: k in E ==> k in F && F[k] == E[k]
    ensures Chain(F, p)
  {
    forall j | 0 < j < |p| ensures Edge(F, p[j - 1], p[j]) {
      assert Edge(E, p[j - 1], p[j]);
    }
  }

  lemma DescendsMonotone(E: Entries, F: Entries, a: Ino, b: Ino)
    requires Descends(E, a, b)
    requires forall k :: k in E ==> k in F && F[k] == E[k]
    ensures Descends(F, a, b)
  {
    var p :| ChainFromTo(E, p, a, b);
    ChainMonotone(E, F, p);
    assert ChainFromTo(F, p, a, b);
  }

  /** create, mkdir, symlink and link: one more entry below a directory that is in the tree. */
  lemma TreeAdd(E: Entries, k: DirKey, e: Entry)
    requires IsTree(E) && k !in E && Descends(E, ROOT, k.parent) && e.ino != ROOT
    requires forall k2 :: k2 in E && E[k2].ino == e.ino ==> !IsDir(e.mode) && !IsDir(E[k2].mode)
    ensures IsTree(E[k := e])
  {
    var F := E[k := e];
    forall k2 | k2 in F ensures Descends(F, ROOT, k2.parent) {
      DescendsMonotone(E, F, ROOT, k2.parent);
    }
  }

  /** A chain none of whose later nodes is one of two given nodes survives any change that keeps the other entries. */
  lemma ChainAvoids(E: Entries, F: Entries, p: seq<Ino>, x: Ino, y: Ino)
    requires Chain(E, p) && x !in p[1..] && y !in p[1..]
    requires forall k :: k in E && IsDir(E[k].mode) && E[k].ino != x && E[k].ino != y ==> k in F && F[k] == E[k]
    ensures Chain(F, p)
  {
    forall j | 0 < j < |p| ensures Edge(F, p[j - 1], p[j]) {
      assert Edge(E, p[j - 1], p[j]);
      assert p[j] == p[1..][j - 1];
    }
  }

  /** An empty directory can only be the end of a chain. */
  lemma EmptyIsLast(E: Entries, p: seq<Ino>, i: Ino)
    requires Chain(E, p) && DirEmpty(E, i) && p[|p| - 1] != i
    ensures i !in p
  {
    forall j | 0 <= j < |p| ensures p[j] != i {
      if j + 1 < |p| {
        assert Edge(E, p[j], p[j + 1]);
      }
    }
  }

  /** unlink and rmdir: an entry of a file, or of an empty directory, goes away. */
  lemma TreeRemove(E: Entries, k: DirKey)
    requires IsTree(E) && k in E
    requires IsDir(E[k].mode) ==> DirEmpty(E, E[k].ino)
    ensures IsTree(E - {k})
  {
    var F := E - {k};
    forall k2 | k2 in F ensures Descends(F, ROOT, k2.parent) {
      var p :| ChainFromTo(E, p, ROOT, k2.parent);
      if IsDir(E[k].mode) {
        EmptyIsLast(E, p, E[k].ino);
        ChainAvoids(E, F, p, E[k].ino, E[k].ino);
      } else {
        forall j | 0 < j < |p| ensures Edge(F, p[j - 1], p[j]) {
          assert Edge(E, p[j - 1], p[j]);
        }
      }
      assert ChainFromTo(F, p, ROOT, k2.parent);
    }
  }

  // ------------------------------------------------------------------ moving a directory

  /** The entries after a rename of `k` to `k2`. */
  function Moved(E: Entries, k: DirKey, k2: DirKey, mode: u32): Entries
    requires k in E
  {
    (E - {k2, k})[k2 := Entry(E[k].ino, mode)]
  }

  /** A directory entry may be moved over nothing or over another, empty, directory below a directory of the tree. */
  ghost predicate MovableDir(E: Entries, k: DirKey, k2: DirKey, mode: u32) {
    && IsTree(E) && k in E && IsDir(E[k].mode) && IsDir(mode) && k2 != k
    && Descends(E, ROOT, k2.parent)
    && (k2 in E ==> IsDir(E[k2].mode) && DirEmpty(E, E[k2].ino))
  }

  lemma {:induction false} LastOccurrence(p: seq<Ino>, x: Ino) returns (j: nat)
    requires x in p
    ensures j < |p| && p[j] == x && x !in p[j + 1..]
  {
    var front, last := p[..|p| - 1], p[|p| - 1];
    assert p == front + [last];
    if last == x {
      j := |p| - 1;
    } else {
      j := LastOccurrence(front, x);
      assert p[j + 1..] == front[j + 1..] + [last];
    }
  }

  lemma Suffix(E: Entries, p: seq<Ino>, j: nat)
    requires Chain(E, p) && j < |p|
    ensures Chain(E, p[j..])
  {
    forall i | 0 < i < |p[j..]| ensures Edge(E, p[j..][i - 1], p[j..][i]) {
      assert Edge(E, p[j + i - 1], p[j + i]);
    }
  }

  lemma Splice(E: Entries, p: seq<Ino>, q: seq<Ino>)
    requires Chain(E, p) && Chain(E, q) && Edge(E, p[|p| - 1], q[0])
    ensures ChainFromTo(E, p + q, p[0], q[|q| - 1])
  {
    forall j | 0 < j < |p + q| ensures Edge(E, (p + q)[j - 1], (p + q)[j]) {
      if j < |p| {
        assert Edge(E, p[j - 1], p[j]);
      } else if j > |p| {
        assert Edge(E, q[j - |p| - 1], q[j - |p|]);
      }
    }
  }

  /** The new parent keeps its path when it is outside the moved subtree. */
  lemma NewParentKeepsPath(E: Entries, k: DirKey, k2: DirKey, mode: u32) returns (q: seq<Ino>)
    requires MovableDir(E, k, k2, mode) && !Descends(E, E[k].ino, k2.parent)
    ensures ChainFromTo(Moved(E, k, k2, mode), q, ROOT, k2.parent)
  {
    var src := E[k].ino;
    q :| ChainFromTo(E, q, ROOT, k2.parent);
    if src in q {
      var j := LastOccurrence(q, src);
      Suffix(E, q, j);
      assert ChainFromTo(E, q[j..], src, k2.parent);
    }
    var dst := if k2 in E then E[k2].ino else src;
    if k2 in E {
      EmptyIsLast(E, q, dst);
    }
    ChainAvoids(E, Moved(E, k, k2, mode), q, src, dst);
  }

  /** Every directory that was in the tree and is not the replaced one keeps a path. */
  lemma MoveKeepsPaths(E: Entries, k: DirKey, k2: DirKey, mode: u32, x: Ino)
    requires MovableDir(E, k, k2, mode) && !Descends(E, E[k].ino, k2.parent)
    requires Descends(E, ROOT, x) && (k2 in E ==> x != E[k2].ino)
    ensures Descends(Moved(E, k, k2, mode), ROOT, x)
  {
    var F, src := Moved(E, k, k2, mode), E[k].ino;
    var dst := if k2 in E then E[k2].ino else src;
    var p :| ChainFromTo(E, p, ROOT, x);
    if k2 in E {
      EmptyIsLast(E, p, dst);
    }
    if src !in p {
      ChainAvoids(E, F, p, src, dst);
      assert ChainFromTo(F, p, ROOT, x);
    } else {
      var j := LastOccurrence(p, src);
      Suffix(E, p, j);
      assert p[j..][1..] == p[j + 1..];
      ChainAvoids(E, F, p[j..], src, dst);
      var q := NewParentKeepsPath(E, k, k2, mode);
      assert Edge(F, k2.parent, src) by { assert k2 in F; }
      Splice(F, q, p[j..]);
    }
  }

  lemma TreeMove(E: Entries, k: DirKey, k2: DirKey, mode: u32)
    requires MovableDir(E, k, k2, mode) && !Descends(E, E[k].ino, k2.parent)
    ensures IsTree(Moved(E, k, k2, mode))
  {
    var F := Moved(E, k, k2, mode);
    forall kk | kk in F ensures Descends(F, ROOT, kk.parent) {
      if kk == k2 {
        var q := NewParentKeepsPath(E, k, k2, mode);
      } else {
        MoveKeepsPaths(E, k, k2, mode, kk.parent);
      }
    }
  }

  /** Moving a directory below itself closes a loop that no path from the root enters. */
  lemma LoopHasNoEntrance(E: Entries, k: DirKey, k2: DirKey, mode: u32, c: seq<Ino>, a: Ino, y: Ino)
    requires MovableDir(E, k, k2, mode) && ChainFromTo(E, c, E[k].ino, k2.parent)
    requires IsTree(Moved(E, k, k2, mode))
    requires y in c && Edge(Moved(E, k, k2, mode), a, y)
    ensures a in c
  {
    var F, src := Moved(E, k, k2, mode), E[k].ino;
    var kk :| kk in F && kk.parent == a && F[kk].ino == y && IsDir(F[kk].mode);
    if y == src {
      assert F[k2].ino == src && IsDir(F[k2].mode) && k2 in F;
      assert kk == k2;
      assert c[|c| - 1] == k2.parent;
    } else {
      var j :| 0 <= j < |c| && c[j] == y;
      assert Edge(E, c[j - 1], c[j]);
      var old_ :| old_ in E && old_.parent == c[j - 1] && E[old_].ino == y && IsDir(E[old_].mode);
      if k2 in E {
        assert k2.parent != E[k2].ino;
        EmptyIsLast(E, c, E[k2].ino);
      }
      assert old_ in F && F[old_] == E[old_];
      assert kk == old_;
    }
  }

  lemma {:induction false} LoopIsUnreachable(E: Entries, k: DirKey, k2: DirKey, mode: u32, c: seq<Ino>, p: seq<Ino>)
    requires MovableDir(E, k, k2, mode) && ChainFromTo(E, c, E[k].ino, k2.parent)
    requires IsTree(Moved(E, k, k2, mode))
    requires Chain(Moved(E, k, k2, mode), p) && p[|p| - 1] in c
    ensures p[0] in c
    decreases |p|
  {
    if |p| > 1 {
      var F := Moved(E, k, k2, mode);
      assert Edge(F, p[|p| - 2], p[|p| - 1]);
      LoopHasNoEntrance(E, k, k2, mode, c, p[|p| - 2], p[|p| - 1]);
      var q := p[..|p| - 1];
      forall j | 0 < j < |q| ensures Edge(F, q[j - 1], q[j]) {
        assert Edge(F, p[j - 1], p[j]);
      }
      LoopIsUnreachable(E, k, k2, mode, c, q);
    }
  }

  lemma RootHasNoParent(E: Entries, c: seq<Ino>)
    requires IsTree(E) && Chain(E, c) && c[0] != ROOT
    ensures ROOT !in c
  {
    forall j | 0 <= j < |c| ensures c[j] != ROOT {
      if j > 0 {
        assert Edge(E, c[j - 1], c[j]);
      }
    }
  }

  /**
   Moving a directory keeps the tree exactly when the new parent is outside the moved subtree.
   */
  lemma TreeMoveIff(E: Entries, k: DirKey, k2: DirKey, mode: u32)
    requires MovableDir(E, k, k2, mode)
    ensures IsTree(Moved(E, k, k2, mode)) <==> !Descends(E, E[k].ino, k2.parent)
  {
    var F := Moved(E, k, k2, mode);
    if !Descends(E, E[k].ino, k2.parent) {
      TreeMove(E, k, k2, mode);
    } else if IsTree(F) {
      var c :| ChainFromTo(E, c, E[k].ino, k2.parent);
      assert k2 in F;
      var p :| ChainFromTo(F, p, ROOT, k2.parent);
      LoopIsUnreachable(E, k, k2, mode, c, p);
      RootHasNoParent(E, c);
    }
  }

  /** A file moves like a removal of its old entries followed by an addition. */
  lemma TreeMoveFile(E: Entries, k: DirKey, k2: DirKey, mode: u32)
    requires IsTree(E) && k in E && !IsDir(E[k].mode) && !IsDir(mode)
    requires forall kk :: kk in E && E[kk].ino == E[k].ino ==> !IsDir(E[kk].mode)
    requires k2 in E ==> !IsDir(E[k2].mode)
    requires Descends(E, ROOT, k2.parent)
    ensures IsTree(Moved(E, k, k2, mode))
  {
    var F := Moved(E, k, k2, mode);
    forall kk | kk in F ensures Descends(F, ROOT, kk.parent) {
      var p :| ChainFromTo(E, p, ROOT, kk.parent);
      forall j | 0 < j < |p| ensures Edge(F, p[j - 1], p[j]) {
        assert Edge(E, p[j - 1], p[j]);
      }
      assert ChainFromTo(F, p, ROOT, kk.parent);
    }
  }
}
