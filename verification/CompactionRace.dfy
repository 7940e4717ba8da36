/**
 Compaction against concurrent appends, at the grain of single steps, for one inode. A compactor
 scans the delta rows before it locks the base (server/src/compaction.rs), and appenders draw their
 sequence numbers before they commit, so rows appear in any order and at any time between the two.
 */
module CompactionRace {
  import opened Types
  import opened DeltaFold

  type Rows = map<nat, DeltaOp>

  /** How far a compactor has come: rows scanned, then the base locked and read. */
  datatype Phase = Scanned(snap: Rows) | Locked(snap: Rows, base: InodeValue)

  /** The base, the live delta rows, the sequence counter, numbers drawn but not committed, compactors. */
  datatype Race = Race(base: InodeValue, rows: Rows, next: nat, drawn: map<nat, seq<DeltaOp>>, workers: map<nat, Phase>)

  datatype Event =
    | Draw(ops: seq<DeltaOp>)
    | CommitAppend(first: nat)
    | AbortAppend(first: nat)
    | Scan(w: nat)
    | Lock(w: nat)
    | Commit(w: nat)
    | Abort(w: nat)
    | WriteBase(value: InodeValue)

  /** The operations of the rows numbered below `n`, in key order. */
  function InOrder(rows: Rows, n: nat): seq<DeltaOp> {
    if n == 0 then []
    else InOrder(rows, n - 1) + (if n - 1 in rows then [rows[n - 1]] else [])
  }

  /** What a reader computes. */
  function Meaning(r: Race): InodeValue {
    Fold(r.base, InOrder(r.rows, r.next))
  }

  predicate InRange(k: nat, first: nat, n: nat) {
    first <= k < first + n
  }

  function RowsOf(first: nat, ops: seq<DeltaOp>): Rows {
    map k: nat | k < first + |ops| && InRange(k, first, |ops|) :: ops[k - first]
  }

  predicate BaseLocked(r: Race) {
    exists w :: w in r.workers && r.workers[w].Locked?
  }

  /** One step; an event that is not enabled, or that waits for the row lock, changes nothing. */
  function Next(r: Race, e: Event): Race {
    match e
    case Draw(ops) =>
      if ops == [] then r else r.(drawn := r.drawn[r.next := ops], next := r.next + |ops|)
    case CommitAppend(first) =>
      if first !in r.drawn then r
      else r.(rows := r.rows + RowsOf(first, r.drawn[first]), drawn := r.drawn - {first})
    case AbortAppend(first) => r.(drawn := r.drawn - {first})
    case Scan(w) =>
      if w in r.workers || r.rows == map[] then r else r.(workers := r.workers[w := Scanned(r.rows)])
    case Lock(w) =>
      if w !in r.workers || BaseLocked(r) then r
      else r.(workers := r.workers[w := Locked(r.workers[w].snap, r.base)])
    case Commit(w) =>
      if w !in r.workers || !r.workers[w].Locked? then r
      else
        var snap := r.workers[w].snap;
        r.(base := Fold(r.workers[w].base, InOrder(snap, r.next)), rows := r.rows - snap.Keys,
           workers := r.workers - {w})
    case Abort(w) => r.(workers := r.workers - {w})
    case WriteBase(v) => if BaseLocked(r) then r else r.(base := v)
  }

  function Trace(r: Race, es: seq<Event>): Race {
    if es == [] then r else Next(Trace(r, es[..|es| - 1]), es[|es| - 1])
  }

  // ------------------------------------------------------------------ sums over rows

  /** What a log asks for, whatever its order: the net link change and the latest times. */
  datatype Gain = Gain(net: int, mtime: u64, ctime: u64, atime: u64)

  function Sum(a: Gain, b: Gain): Gain {
    Gain(a.net + b.net, Max(a.mtime, b.mtime), Max(a.ctime, b.ctime), Max(a.atime, b.atime))
  }

  function GainOf(ds: seq<DeltaOp>): Gain {
    Gain(NetLinks(ds), LatestMtime(ds), LatestCtime(ds), LatestAtime(ds))
  }

  /** The gain as integer arithmetic on a value; it has to fit the link count. */
  predicate Fitting(n: u32, g: Gain) {
    0 <= n + g.net < TWO32
  }

  function Gained(v: InodeValue, g: Gain): InodeValue
    requires Fitting(v.nlink, g)
  {
    v.(nlink := v.nlink + g.net,
       mtime := Max(v.mtime, g.mtime), ctime := Max(v.ctime, g.ctime), atime := Max(v.atime, g.atime))
  }

  /** A fold that neither clamps nor wraps adds the gain of its log. */
  lemma ExactFoldGains(v: InodeValue, ds: seq<DeltaOp>)
    requires ExactFold(v.nlink, ds)
    ensures Fitting(v.nlink, GainOf(ds)) && Fold(v, ds) == Gained(v, GainOf(ds))
  {
    FoldByField(v, ds);
    ExactIsInteger(v.nlink, ds, |ds|);
    assert ds[..|ds|] == ds;
  }

  lemma SumLaws(a: Gain, b: Gain, c: Gain)
    ensures Sum(Sum(a, b), c) == Sum(Sum(a, c), b)
    ensures Sum(a, Sum(b, c)) == Sum(Sum(a, b), c)
    ensures Sum(a, b) == Sum(b, a)
  {
  }

  lemma GainedTwice(v: InodeValue, a: Gain, b: Gain)
    requires Fitting(v.nlink, a) && Fitting(v.nlink, Sum(a, b))
    ensures Gained(Gained(v, a), b) == Gained(v, Sum(a, b))
  {
  }

  function GainOfOne(d: DeltaOp): Gain {
    match d
    case IncrementNlink(n) => Gain(n, 0, 0, 0)
    case SetMtime(t) => Gain(0, t, 0, 0)
    case SetCtime(t) => Gain(0, 0, t, 0)
    case SetAtime(t) => Gain(0, 0, 0, t)
  }

  lemma GainLast(x: seq<DeltaOp>, d: DeltaOp)
    ensures GainOf(x + [d]) == Sum(GainOf(x), GainOfOne(d))
  {
    assert (x + [d])[..|x + [d]| - 1] == x;
  }

  lemma NothingGained(ds: seq<DeltaOp>)
    requires ds == []
    ensures GainOf(ds) == Gain(0, 0, 0, 0) == Sum(GainOf(ds), GainOf(ds))
  {
  }

  lemma {:induction false} GainConcat(x: seq<DeltaOp>, y: seq<DeltaOp>)
    ensures GainOf(x + y) == Sum(GainOf(x), GainOf(y))
    decreases |y|
  {
    hide GainOf, Sum;
    if y == [] {
      assert x + y == x;
      NothingGained(y);
      ZeroGain(GainOf(x));
    } else {
      var front, last := y[..|y| - 1], y[|y| - 1];
      assert x + y == (x + front) + [last] && y == front + [last];
      GainConcat(x, front);
      GainLast(x + front, last);
      GainLast(front, last);
      SumLaws(GainOf(x), GainOf(front), GainOfOne(last));
    }
  }

  lemma ZeroGain(g: Gain)
    ensures Sum(g, Gain(0, 0, 0, 0)) == g && Sum(Gain(0, 0, 0, 0), g) == g
  {
  }

  /** Rows split between two places sum to the whole, whatever the interleaving of their keys. */
  lemma {:induction false} GainSplits(a: Rows, b: Rows, whole: Rows, n: nat)
    requires a.Keys !! b.Keys && whole == a + b
    ensures GainOf(InOrder(whole, n)) == Sum(GainOf(InOrder(a, n)), GainOf(InOrder(b, n)))
  {
    hide Sum, GainOf, GainOfOne;
    if n == 0 {
      NothingGained(InOrder(a, n));
    } else {
      GainSplits(a, b, whole, n - 1);
      var x, y, z := InOrder(a, n - 1), InOrder(b, n - 1), InOrder(whole, n - 1);
      assert x + [] == x && y + [] == y && z + [] == z;
      if n - 1 in whole {
        var d := whole[n - 1];
        GainLast(x, d);
        GainLast(y, d);
        GainLast(z, d);
        SumLaws(GainOf(x), GainOf(y), GainOfOne(d));
      }
    }
  }

  /** Counting further than the last key adds nothing. */
  lemma {:induction false} InOrderExtends(rows: Rows, n: nat, m: nat)
    requires n <= m && (forall k :: k in rows ==> k < n)
    ensures InOrder(rows, m) == InOrder(rows, n)
  {
    if n < m {
      InOrderExtends(rows, n, m - 1);
    }
  }

  lemma {:induction false} InOrderBefore(rows: Rows, n: nat)
    requires forall k :: k in rows ==> k >= n
    ensures InOrder(rows, n) == []
  {
    if n > 0 {
      InOrderBefore(rows, n - 1);
    }
  }

  /** Consecutive rows are listed as they were written. */
  lemma {:induction false} InOrderOf(first: nat, ops: seq<DeltaOp>, j: nat)
    requires j <= |ops|
    ensures InOrder(RowsOf(first, ops), first + j) == ops[..j]
  {
    if j == 0 {
      InOrderBefore(RowsOf(first, ops), first);
    } else {
      InOrderOf(first, ops, j - 1);
      assert ops[..j] == ops[..j - 1] + [ops[j - 1]];
    }
  }

  // ------------------------------------------------------------------ invariant

  predicate Within(rows: Rows, n: nat) {
    forall k :: k in rows ==> k < n
  }

  /** Numbers drawn but not committed are in no row and in no snapshot. */
  predicate Reserved(first: nat, ops: seq<DeltaOp>, rows: Rows) {
    forall k :: k in rows ==> k < first || first + |ops| <= k
  }

  predicate Apart(f: nat, x: seq<DeltaOp>, g: nat, y: seq<DeltaOp>) {
    f + |x| <= g || g + |y| <= f
  }

  ghost predicate RaceInv(r: Race) {
    && Within(r.rows, r.next)
    && (forall f :: f in r.drawn ==> f + |r.drawn[f]| <= r.next && Reserved(f, r.drawn[f], r.rows))
    && (forall f, g :: f in r.drawn && g in r.drawn && f != g ==> Apart(f, r.drawn[f], g, r.drawn[g]))
    && (forall w :: w in r.workers ==>
          && Within(r.workers[w].snap, r.next)
          && (forall f :: f in r.drawn ==> Reserved(f, r.drawn[f], r.workers[w].snap))
          && (forall k :: k in r.workers[w].snap && k in r.rows ==> r.workers[w].snap[k] == r.rows[k])
          && (r.workers[w].Locked? ==> r.workers[w].base == r.base))
    && (forall v, w :: v in r.workers && w in r.workers && r.workers[v].Locked? && r.workers[w].Locked? ==> v == w)
  }

  /** Every step of any number of appenders and compactors keeps the invariant. */
  lemma NextKeepsInv(r: Race, e: Event)
    requires RaceInv(r)
    ensures RaceInv(Next(r, e))
  {
    hide InOrder, Fold;
    match e {
      case CommitAppend(first) =>
        if first in r.drawn {
          AppendKeepsInv(r, first);
        }
      case Draw(ops) => DrawKeepsInv(r, ops);
      case Lock(w) => LockKeepsInv(r, w);
      case _ =>
    }
  }

  lemma DrawKeepsInv(r: Race, ops: seq<DeltaOp>)
    requires RaceInv(r)
    ensures RaceInv(Next(r, Draw(ops)))
  {
    hide InOrder, Fold;
  }

  lemma LockKeepsInv(r: Race, w: nat)
    requires RaceInv(r)
    ensures RaceInv(Next(r, Lock(w)))
  {
    hide InOrder, Fold;
  }

  lemma AppendKeepsInv(r: Race, first: nat)
    requires RaceInv(r) && first in r.drawn
    ensures RaceInv(Next(r, CommitAppend(first)))
  {
    var r' := Next(r, CommitAppend(first));
    var added := RowsOf(first, r.drawn[first]);
    assert forall k :: k in r'.rows <==> k in r.rows || k in added;
    forall f | f in r'.drawn ensures Reserved(f, r'.drawn[f], r'.rows) {
      assert Apart(f, r.drawn[f], first, r.drawn[first]);
    }
    forall w | w in r'.workers
      ensures forall k :: k in r'.workers[w].snap && k in r'.rows ==> r'.workers[w].snap[k] == r'.rows[k]
    {
      assert Reserved(first, r.drawn[first], r.workers[w].snap);
    }
  }

  // ------------------------------------------------------------------ meaning

  /** The fold of a reader neither clamps nor wraps. */
  ghost predicate ReadsExactly(r: Race) {
    ExactFold(r.base.nlink, InOrder(r.rows, r.next))
  }

  predicate Commits(r: Race, e: Event) {
    e.Commit? && e.w in r.workers && r.workers[e.w].Locked?
  }

  /** The fold that a committing compactor performs neither clamps nor wraps. */
  ghost predicate FoldsExactly(r: Race, e: Event) {
    Commits(r, e) ==> ExactFold(r.base.nlink, InOrder(r.workers[e.w].snap, r.next))
  }

  /** The scanned rows that another compactor has folded and deleted since. */
  function Stale(r: Race, w: nat): Rows
    requires w in r.workers
  {
    r.workers[w].snap - r.rows.Keys
  }

  /** Folding the snapshot and then the rest, against folding the rows: the stale rows come on top. */
  lemma StaleGain(snap: Rows, rows: Rows, n: nat)
    requires forall k :: k in snap && k in rows ==> snap[k] == rows[k]
    ensures Sum(GainOf(InOrder(snap, n)), GainOf(InOrder(rows - snap.Keys, n))) ==
            Sum(GainOf(InOrder(rows, n)), GainOf(InOrder(snap - rows.Keys, n)))
  {
    hide InOrder, GainOf, Sum;
    var live := map k | k in snap && k in rows :: snap[k];
    var stale, rest := snap - rows.Keys, rows - snap.Keys;
    GainSplits(live, rest, rows, n);
    GainSplits(live, stale, snap, n);
    SumLaws(GainOf(InOrder(live, n)), GainOf(InOrder(rest, n)), GainOf(InOrder(stale, n)));
  }

  /**
   What a committing compactor does to the meaning: it applies the stale part of its snapshot once
   more. Only the folds that are performed have to be exact: the reader's before and after, and its own.
   */
  lemma CommitAppliesStale(r: Race, w: nat)
    requires RaceInv(r) && Commits(r, Commit(w)) && FoldsExactly(r, Commit(w))
    requires ReadsExactly(r) && ReadsExactly(Next(r, Commit(w)))
    ensures var g := GainOf(InOrder(Stale(r, w), r.next));
            Fitting(Meaning(r).nlink, g) && Meaning(Next(r, Commit(w))) == Gained(Meaning(r), g)
  {
    hide InOrder, GainOf, Fold, ExactFold;
    var r', snap, n := Next(r, Commit(w)), r.workers[w].snap, r.next;
    ExactFoldGains(r.base, InOrder(r.rows, n));
    ExactFoldGains(r.base, InOrder(snap, n));
    ExactFoldGains(r'.base, InOrder(r'.rows, n));
    StaleGain(snap, r.rows, n);
    GainedTwice(r.base, GainOf(InOrder(snap, n)), GainOf(InOrder(r'.rows, n)));
    GainedTwice(r.base, GainOf(InOrder(r.rows, n)), GainOf(InOrder(Stale(r, w), n)));
  }

  /** So the link count survives exactly when the stale rows cancel out. */
  lemma CommitKeepsLinksIff(r: Race, w: nat)
    requires RaceInv(r) && Commits(r, Commit(w)) && FoldsExactly(r, Commit(w))
    requires ReadsExactly(r) && ReadsExactly(Next(r, Commit(w)))
    ensures Meaning(Next(r, Commit(w))).nlink == Meaning(r).nlink <==> NetLinks(InOrder(Stale(r, w), r.next)) == 0
  {
    hide InOrder, Fold, ExactFold, Next;
    CommitAppliesStale(r, w);
  }

  /** The rows of an append sum to its operations, wherever they land among the live ones. */
  lemma AppendGain(r: Race, first: nat)
    requires RaceInv(r) && first in r.drawn
    ensures var r' := Next(r, CommitAppend(first));
            GainOf(InOrder(r'.rows, r'.next)) == Sum(GainOf(InOrder(r.rows, r.next)), GainOf(r.drawn[first]))
  {
    hide GainOf, Sum;
    var ops, n := r.drawn[first], r.next;
    var added := RowsOf(first, ops);
    InOrderOf(first, ops, |ops|);
    assert ops[..|ops|] == ops;
    InOrderExtends(added, first + |ops|, n);
    GainSplits(r.rows, added, r.rows + added, n);
  }

  /** A committing append adds its operations to the meaning, whatever rows lie between. */
  lemma AppendMeaning(r: Race, first: nat)
    requires RaceInv(r) && first in r.drawn
    requires ReadsExactly(r) && ReadsExactly(Next(r, CommitAppend(first)))
    ensures var g := GainOf(r.drawn[first]);
            Fitting(Meaning(r).nlink, g) && Meaning(Next(r, CommitAppend(first))) == Gained(Meaning(r), g)
  {
    hide InOrder, GainOf, Fold, ExactFold, RaceInv;
    var r' := Next(r, CommitAppend(first));
    AppendGain(r, first);
    ExactFoldGains(r.base, InOrder(r.rows, r.next));
    ExactFoldGains(r'.base, InOrder(r'.rows, r'.next));
    GainedTwice(r.base, GainOf(InOrder(r.rows, r.next)), GainOf(r.drawn[first]));
  }

  // ------------------------------------------------------------------ one compactor at a time

  /** At most one compaction is in flight, so what it scanned is still there. */
  ghost predicate Alone(r: Race) {
    forall v, w :: v in r.workers && w in r.workers ==> v == w && r.workers[w].snap.Keys <= r.rows.Keys
  }

  predicate KeepsAlone(r: Race, e: Event) {
    e.Scan? ==> r.workers == map[]
  }

  lemma NextKeepsAlone(r: Race, e: Event)
    requires RaceInv(r) && Alone(r) && KeepsAlone(r, e)
    ensures Alone(Next(r, e))
  {
    hide InOrder, Fold, RaceInv;
  }

  /** Nothing a lone compactor does, and nothing an appender does before it commits, changes the meaning. */
  lemma StepKeepsMeaning(r: Race, e: Event)
    requires RaceInv(r) && Alone(r) && !e.CommitAppend? && !e.WriteBase?
    requires ReadsExactly(r) && ReadsExactly(Next(r, e)) && FoldsExactly(r, e)
    ensures Meaning(Next(r, e)) == Meaning(r)
  {
    hide Fold, ExactFold, InOrder, GainOf;
    match e {
      case Draw(ops) => InOrderExtends(r.rows, r.next, r.next + |ops|);
      case Commit(w) =>
        if Commits(r, e) {
          assert w in r.workers && Stale(r, w) == map[];
          NothingInOrder(r.next);
          NothingGained(InOrder(Stale(r, w), r.next));
          CommitAppliesStale(r, w);
        }
      case _ =>
    }
  }

  lemma {:induction false} NothingInOrder(n: nat)
    ensures InOrder(map[], n) == []
  {
    if n > 0 {
      NothingInOrder(n - 1);
    }
  }

  /** The operations that a run commits, in the order in which it commits them. */
  function Committed(r: Race, es: seq<Event>): seq<DeltaOp> {
    if es == [] then []
    else
      var front, last := es[..|es| - 1], es[|es| - 1];
      var m := Trace(r, front);
      if last.CommitAppend? && last.first in m.drawn then Committed(r, front) + m.drawn[last.first]
      else Committed(r, front)
  }

  /** No second compactor, and no other writer of the base. */
  ghost predicate LoneRun(r: Race, es: seq<Event>) {
    es == [] ||
    var front, last := es[..|es| - 1], es[|es| - 1];
    LoneRun(r, front) && KeepsAlone(Trace(r, front), last) && !last.WriteBase?
  }

  /** Every fold that a compactor commits along the run is exact. */
  ghost predicate ExactRun(r: Race, es: seq<Event>) {
    es == [] ||
    var front, last := es[..|es| - 1], es[|es| - 1];
    ExactRun(r, front) && FoldsExactly(Trace(r, front), last)
  }

  /** The base holds the part of the committed operations that is no longer in the rows. */
  ghost predicate Accounted(b: InodeValue, r: Race, done: Gain, folded: Gain) {
    && Sum(folded, GainOf(InOrder(r.rows, r.next))) == done
    && Fitting(b.nlink, folded) && r.base == Gained(b, folded)
  }

  function Idle(b: InodeValue, next: nat): Race {
    Race(b, map[], next, map[], map[])
  }

  lemma AccountedStep(b: InodeValue, r: Race, done: Gain, folded: Gain, e: Event) returns (folded': Gain)
    requires RaceInv(r) && Alone(r) && !e.WriteBase? && !(e.CommitAppend? && e.first in r.drawn)
    requires Accounted(b, r, done, folded) && FoldsExactly(r, e)
    ensures Accounted(b, Next(r, e), done, folded')
  {
    hide Fold, GainOf, InOrder, Sum, ExactFold;
    folded' := folded;
    match e {
      case Draw(ops) => InOrderExtends(r.rows, r.next, r.next + |ops|);
      case Commit(w) =>
        if Commits(r, e) {
          folded' := AccountedCommit(b, r, done, folded, w);
        }
      case _ =>
    }
  }

  lemma AccountedCommit(b: InodeValue, r: Race, done: Gain, folded: Gain, w: nat) returns (folded': Gain)
    requires RaceInv(r) && Alone(r) && Commits(r, Commit(w)) && FoldsExactly(r, Commit(w))
    requires Accounted(b, r, done, folded)
    ensures Accounted(b, Next(r, Commit(w)), done, folded')
  {
    hide Fold, GainOf, InOrder, ExactFold;
    var snap, n := r.workers[w].snap, r.next;
    var rest := r.rows - snap.Keys;
    assert snap + rest == r.rows;
    GainSplits(snap, rest, r.rows, n);
    var x, y := GainOf(InOrder(snap, n)), GainOf(InOrder(rest, n));
    folded' := Sum(folded, x);
    SumLaws(folded, x, y);
    ExactFoldGains(r.base, InOrder(snap, n));
    GainedTwice(b, folded, x);
  }

  lemma AccountedAppend(b: InodeValue, r: Race, done: Gain, folded: Gain, first: nat)
    requires RaceInv(r) && first in r.drawn && Accounted(b, r, done, folded)
    ensures Accounted(b, Next(r, CommitAppend(first)), Sum(done, GainOf(r.drawn[first])), folded)
  {
    hide Fold, GainOf, InOrder, Sum, RaceInv;
    AppendGain(r, first);
    SumLaws(folded, GainOf(InOrder(r.rows, r.next)), GainOf(r.drawn[first]));
  }

  lemma {:induction false} RunAccounted(b: InodeValue, next: nat, es: seq<Event>) returns (folded: Gain)
    requires LoneRun(Idle(b, next), es) && ExactRun(Idle(b, next), es)
    ensures var r := Trace(Idle(b, next), es);
            RaceInv(r) && Alone(r) && Accounted(b, r, GainOf(Committed(Idle(b, next), es)), folded)
  {
    hide RaceInv, Alone, Accounted, Next, GainOf, FoldsExactly;
    var z := Idle(b, next);
    if es == [] {
      folded := Gain(0, 0, 0, 0);
      IdleInv(z);
      IdleAccounted(b, z, folded);
      NothingGained(Committed(z, es));
    } else {
      var front, last := es[..|es| - 1], es[|es| - 1];
      var m := Trace(z, front);
      folded := RunAccounted(b, next, front);
      NextKeepsInv(m, last);
      NextKeepsAlone(m, last);
      if last.CommitAppend? && last.first in m.drawn {
        GainConcat(Committed(z, front), m.drawn[last.first]);
        AccountedAppend(b, m, GainOf(Committed(z, front)), folded, last.first);
      } else {
        folded := AccountedStep(b, m, GainOf(Committed(z, front)), folded, last);
      }
    }
  }

  lemma IdleInv(r: Race)
    requires r.rows == map[] && r.drawn == map[] && r.workers == map[]
    ensures RaceInv(r) && Alone(r)
  {
  }

  lemma IdleAccounted(b: InodeValue, r: Race, zero: Gain)
    requires r.base == b && r.rows == map[] && zero == Gain(0, 0, 0, 0)
    ensures Accounted(b, r, zero, zero)
  {
    hide InOrder, Fold, GainOf, Sum, Gained;
    NothingInOrder(r.next);
    NothingGained(InOrder(r.rows, r.next));
    GainedNothing(b);
    ZeroGain(zero);
  }

  lemma GainedNothing(v: InodeValue)
    ensures Gained(v, Gain(0, 0, 0, 0)) == v
  {
  }

  /**
   For every interleaving of one compactor at a time with any number of appenders: the reader's value
   is the original base with every committed operation added to it, as long as the folds that are
   performed (the compactors' along the run and the reader's at its end) neither clamp nor wrap.
   */
  lemma EveryInterleavingKeepsMeaning(b: InodeValue, next: nat, es: seq<Event>)
    requires LoneRun(Idle(b, next), es) && ExactRun(Idle(b, next), es)
    requires ReadsExactly(Trace(Idle(b, next), es))
    ensures var v, ops := Meaning(Trace(Idle(b, next), es)), Committed(Idle(b, next), es);
            && v.nlink == b.nlink + NetLinks(ops)
            && v == b.(nlink := v.nlink, mtime := Max(b.mtime, LatestMtime(ops)),
                       ctime := Max(b.ctime, LatestCtime(ops)), atime := Max(b.atime, LatestAtime(ops)))
  {
    hide RaceInv, Alone, Trace, Committed, LoneRun, ExactRun, NetLinks, LatestMtime, LatestCtime, LatestAtime, InOrder;
    var folded := RunAccounted(b, next, es);
    var r := Trace(Idle(b, next), es);
    var x := GainOf(InOrder(r.rows, r.next));
    ExactFoldGains(r.base, InOrder(r.rows, r.next));
    GainedTwice(b, folded, x);
  }

  /** In particular it is what folding the operations in the order of their commits gives, if that fold is exact too. */
  lemma MeaningIsCommitOrder(b: InodeValue, next: nat, es: seq<Event>)
    requires LoneRun(Idle(b, next), es) && ExactRun(Idle(b, next), es)
    requires ReadsExactly(Trace(Idle(b, next), es)) && ExactFold(b.nlink, Committed(Idle(b, next), es))
    ensures Meaning(Trace(Idle(b, next), es)) == Fold(b, Committed(Idle(b, next), es))
  {
    hide Trace, Committed, LoneRun, ExactRun, InOrder, ReadsExactly;
    EveryInterleavingKeepsMeaning(b, next, es);
    ExactFoldGains(b, Committed(Idle(b, next), es));
  }

  // ------------------------------------------------------------------ two compactors

  /** Two compactors that scan the same row both fold it: the count comes out one too high. */
  lemma TwoCompactorsCountTwice(b: InodeValue)
    requires b.nlink == 2
    ensures var r2 := Next(Next(Idle(b, 0), Draw([IncrementNlink(1)])), CommitAppend(0));
            var r4 := Next(Next(r2, Scan(1)), Scan(2));
            var r6 := Next(Next(r4, Lock(1)), Commit(1));
            var r8 := Next(Next(r6, Lock(2)), Commit(2));
            Meaning(r2).nlink == 3 && Meaning(r6).nlink == 3 && Meaning(r8).nlink == 4
  {
    hide Fold, InOrder;
    var op := IncrementNlink(1);
    var rows: Rows := map[0 := op];
    OneInOrder(op);
    FoldOne(b, op);
    var c := b.(nlink := 3);
    FoldOne(c, op);
    NothingInOrder(1);
    FoldNothing(c);
    FoldNothing(b.(nlink := 4));
    var r2 := Next(Next(Idle(b, 0), Draw([op])), CommitAppend(0));
    assert r2 == Race(b, rows, 1, map[], map[]) by { assert RowsOf(0, [op]) == rows; }
    var r4 := Next(Next(r2, Scan(1)), Scan(2));
    assert r4 == r2.(workers := map[1 := Scanned(rows), 2 := Scanned(rows)]);
    LockThenCommit(r4, 1);
    var r6 := Next(Next(r4, Lock(1)), Commit(1));
    assert r6 == Race(c, map[], 1, map[], map[2 := Scanned(rows)]);
    LockThenCommit(r6, 2);
  }

  lemma LockThenCommit(r: Race, w: nat)
    requires w in r.workers && !BaseLocked(r)
    ensures Next(Next(r, Lock(w)), Commit(w)) ==
            r.(base := Fold(r.base, InOrder(r.workers[w].snap, r.next)), rows := r.rows - r.workers[w].snap.Keys,
               workers := r.workers - {w})
  {
    hide Fold, InOrder;
    var r1 := Next(r, Lock(w));
    assert r1.workers - {w} == r.workers - {w};
  }

  lemma OneInOrder(op: DeltaOp)
    ensures InOrder(map[0 := op], 1) == [op]
  {
    assert InOrder(map[0 := op], 0) == [];
  }

  /** An undisturbed compaction leaves no row, and the base is what a reader computed before it. */
  lemma CompactionFoldsAll(r: Race, w: nat)
    requires w !in r.workers && !BaseLocked(r)
    ensures var r' := Next(Next(Next(r, Scan(w)), Lock(w)), Commit(w));
            r'.rows == map[] && r'.base == Meaning(r) && r'.workers == r.workers && r'.drawn == r.drawn
  {
    hide Fold;
    var r1 := Next(r, Scan(w));
    if r.rows == map[] {
      NothingInOrder(r.next);
      assert Fold(r.base, []) == r.base by { FoldNothing(r.base); }
    } else {
      assert !BaseLocked(r1) by {
        forall x | x in r1.workers ensures !r1.workers[x].Locked? {
          assert x != w ==> x in r.workers;
        }
      }
      var r2 := Next(r1, Lock(w));
      assert r2.workers - {w} == r.workers;
    }
  }
}
