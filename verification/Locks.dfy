/**
 Row locks (server/src/lib.rs, storage/src/rocks.rs): transactions take their locks as they run and
 keep them until they end, and deadlock detection is off. Which operations take them in one global
 order, and why then some transaction can always go on.
 */
module Locks {
  import opened Types
  import opened Wrappers
  import opened Codec

  datatype RowId =
    | EntryRow(k: DirKey)
    | InodeRow(i: Ino)
    | LocationRow(i: Ino)
    | SymlinkRow(i: Ino)
    | DeltaRow(i: Ino, num: nat)

  function Family(r: RowId): nat {
    match r
    case EntryRow(_) => 0
    case InodeRow(_) => 1
    case LocationRow(_) => 2
    case SymlinkRow(_) => 3
    case DeltaRow(_, _) => 4
  }

  /** The lock order: directory entries by key, then inodes by number, then their side rows. */
  predicate Before(a: RowId, b: RowId) {
    || Family(a) < Family(b)
    || (a.EntryRow? && b.EntryRow? &&
         (a.k.parent < b.k.parent || (a.k.parent == b.k.parent && Less(a.k.name, b.k.name))))
    || (Family(a) == Family(b) && !a.EntryRow? && (a.i < b.i || (a.i == b.i && a.DeltaRow? && a.num < b.num)))
  }

  lemma BeforeIsStrict(a: RowId, b: RowId, c: RowId)
    ensures !Before(a, a)
    ensures Before(a, b) && Before(b, c) ==> Before(a, c)
  {
    if a.EntryRow? {
      LessTotal(a.k.name, a.k.name);
      if b.EntryRow? && c.EntryRow? && Less(a.k.name, b.k.name) && Less(b.k.name, c.k.name) {
        LessTransitive(a.k.name, b.k.name, c.k.name);
      }
    }
  }

  predicate Ascends(rows: seq<RowId>) {
    forall a, b :: 0 <= a < b < |rows| ==> Before(rows[a], rows[b])
  }

  // ------------------------------------------------------------------ what operations lock

  /** The rows that others may want, in the order of locking, then new delta rows that nobody else can name. */
  datatype Plan = Plan(rows: seq<RowId>, own: seq<RowId>)

  function Program(p: Plan): seq<RowId> {
    p.rows + p.own
  }

  datatype Locking =
    | Creating(k: DirKey, i: Ino, side: Option<RowId>)
    | Unlinking(k: DirKey, child: Ino, dying: bool)
    | RemovingDir(k: DirKey, child: Ino)
    | Renaming(k: DirKey, k2: DirKey, ids: seq<Ino>, dead: Option<Ino>)
    | Linking(k: DirKey, target: Ino)
    | Updating(i: Ino)
    | Releasing(i: Ino)
    | Compacting(i: Ino, nums: seq<nat>)

  /** First acquisitions, in order; taking a held lock again is no step. */
  function LockRows(l: Locking): seq<RowId> {
    match l
    case Creating(k, i, side) => [EntryRow(k), InodeRow(i)] + (if side.Some? then [side.value] else [])
    case Unlinking(k, child, dying) => [EntryRow(k), InodeRow(child)] + (if dying then [LocationRow(child)] else [])
    case RemovingDir(k, child) => [EntryRow(k), InodeRow(child)]
    case Renaming(k, k2, ids, dead) =>
      [EntryRow(k)] + (if k2 == k then [] else [EntryRow(k2)]) + InodeRows(ids) +
      (if dead.Some? then [LocationRow(dead.value)] else [])
    case Linking(k, target) =>
      [InodeRow(target), EntryRow(k)] + (if k.parent == target then [] else [InodeRow(k.parent)])
    case Updating(i) => [InodeRow(i)]
    case Releasing(i) => [InodeRow(i), LocationRow(i)]
    case Compacting(i, nums) => [InodeRow(i)] + DeltaRows(i, nums)
  }

  function InodeRows(ids: seq<Ino>): (rows: seq<RowId>)
    ensures |rows| == |ids| && forall j :: 0 <= j < |ids| ==> rows[j] == InodeRow(ids[j])
  {
    seq(|ids|, j requires 0 <= j < |ids| => InodeRow(ids[j]))
  }

  function DeltaRows(i: Ino, nums: seq<nat>): (rows: seq<RowId>)
    ensures |rows| == |nums| && forall j :: 0 <= j < |nums| ==> rows[j] == DeltaRow(i, nums[j])
  {
    seq(|nums|, j requires 0 <= j < |nums| => DeltaRow(i, nums[j]))
  }

  /**
   What the code guarantees about the parameters: sorted inode lists, scanned numbers in order, side
   rows of the new inode.
   */
  predicate WellFormed(l: Locking) {
    match l
    case Creating(_, i, side) => side == None || side == Some(LocationRow(i)) || side == Some(SymlinkRow(i))
    case Renaming(_, _, ids, _) => forall a, b :: 0 <= a < b < |ids| ==> ids[a] < ids[b]
    case Compacting(_, nums) => forall a, b :: 0 <= a < b < |nums| ==> nums[a] < nums[b]
    case _ => true
  }

  /** The condition a caller can check: no link, and a rename only towards a later entry key. */
  predicate InOrder(l: Locking) {
    !l.Linking? && (l.Renaming? ==> l.k == l.k2 || Before(EntryRow(l.k), EntryRow(l.k2)))
  }

  /** An operation follows the lock order exactly when it is not a link and not a rename towards an earlier key. */
  lemma FollowsLockOrderIff(l: Locking)
    requires WellFormed(l)
    ensures Ascends(LockRows(l)) <==> InOrder(l)
  {
    hide Less;
    match l {
      case Linking(k, target) =>
        var rows := LockRows(l);
        assert !Before(rows[0], rows[1]);
      case Renaming(k, k2, ids, dead) => RenameFollowsIff(k, k2, ids, dead);
      case Compacting(i, nums) => CompactionFollows(i, nums);
      case _ =>
    }
  }

  lemma CompactionFollows(i: Ino, nums: seq<nat>)
    requires WellFormed(Compacting(i, nums))
    ensures Ascends(LockRows(Compacting(i, nums)))
  {
  }

  lemma RenameFollowsIff(k: DirKey, k2: DirKey, ids: seq<Ino>, dead: Option<Ino>)
    requires WellFormed(Renaming(k, k2, ids, dead))
    ensures Ascends(LockRows(Renaming(k, k2, ids, dead))) <==> k == k2 || Before(EntryRow(k), EntryRow(k2))
  {
    hide Less;
    var rows := LockRows(Renaming(k, k2, ids, dead));
    var n := if k2 == k then 1 else 2;
    assert rows[0] == EntryRow(k) && (n == 2 ==> rows[1] == EntryRow(k2));
    assert forall a :: n <= a < n + |ids| ==> rows[a] == InodeRow(ids[a - n]);
    assert forall a :: n + |ids| <= a < |rows| ==> a == n + |ids| && rows[a].LocationRow?;
  }

  // ------------------------------------------------------------------ waiting

  /** Transactions and how many locks each has taken; one more step commits and releases everything. */
  datatype Waiting = Waiting(plans: seq<Plan>, taken: seq<nat>)

  predicate Sound(s: Waiting) {
    |s.taken| == |s.plans| && forall t :: 0 <= t < |s.plans| ==> s.taken[t] <= |Program(s.plans[t])| + 1
  }

  predicate Ended(s: Waiting, t: nat)
    requires Sound(s) && t < |s.plans|
  {
    s.taken[t] == |Program(s.plans[t])| + 1
  }

  predicate Holds(s: Waiting, t: nat, row: RowId)
    requires Sound(s) && t < |s.plans|
  {
    !Ended(s, t) && row in Program(s.plans[t])[..s.taken[t]]
  }

  /** Either it has all its locks, or nobody else holds the next one. */
  predicate CanProceed(s: Waiting, t: nat)
    requires Sound(s) && t < |s.plans|
  {
    && !Ended(s, t)
    && (s.taken[t] < |Program(s.plans[t])| ==>
          forall u :: 0 <= u < |s.plans| && u != t ==> !Holds(s, u, Program(s.plans[t])[s.taken[t]]))
  }

  /** Contended rows are locked in ascending order, and own rows belong to one transaction alone. */
  ghost predicate Disciplined(s: Waiting) {
    && (forall t :: 0 <= t < |s.plans| ==> Ascends(s.plans[t].rows))
    && (forall t, u, row :: 0 <= t < |s.plans| && 0 <= u < |s.plans| && t != u && row in s.plans[t].own ==>
          row !in Program(s.plans[u]))
  }

  predicate Stuck(s: Waiting, t: nat)
    requires Sound(s) && t < |s.plans|
  {
    !Ended(s, t) && !CanProceed(s, t)
  }

  function Wanted(s: Waiting, t: nat): RowId
    requires Sound(s) && t < |s.plans| && Stuck(s, t)
  {
    Program(s.plans[t])[s.taken[t]]
  }

  /** A stuck transaction waits for one that, if it is stuck too, waits for a later row. */
  lemma WaitsForLater(s: Waiting, t: nat) returns (u: nat)
    requires Sound(s) && Disciplined(s) && t < |s.plans| && Stuck(s, t)
    ensures u < |s.plans| && !Ended(s, u)
    ensures Stuck(s, u) ==> Before(Wanted(s, t), Wanted(s, u))
  {
    var row := Wanted(s, t);
    u :| 0 <= u < |s.plans| && u != t && Holds(s, u, row);
    var mine, theirs := s.plans[t], s.plans[u];
    assert row in Program(mine) && row in Program(theirs);
    assert row in theirs.rows;
    var j :| 0 <= j < s.taken[u] && Program(theirs)[j] == row;
    if Stuck(s, u) {
      SharedRowIsOrdinary(s, t, u, j);
      var k := s.taken[u];
      var want := Program(theirs)[k];
      var w :| 0 <= w < |s.plans| && w != u && Holds(s, w, want);
      assert want in Program(s.plans[w]);
      SharedRowIsOrdinary(s, w, u, k);
      assert Before(theirs.rows[j], theirs.rows[k]);
    }
  }

  lemma SharedRowIsOrdinary(s: Waiting, t: nat, u: nat, j: nat)
    requires Sound(s) && Disciplined(s) && t < |s.plans| && u < |s.plans| && t != u
    requires j < |Program(s.plans[u])| && Program(s.plans[u])[j] in Program(s.plans[t])
    ensures j < |s.plans[u].rows| && s.plans[u].rows[j] == Program(s.plans[u])[j]
  {
    ProgramIndex(s.plans[u], j);
  }

  lemma ProgramIndex(p: Plan, j: nat)
    requires j < |Program(p)| && Program(p)[j] !in p.own
    ensures j < |p.rows| && Program(p)[j] == p.rows[j]
  {
    assert Program(p)[|p.rows|..] == p.own;
    assert forall l :: |p.rows| <= l < |Program(p)| ==> Program(p)[l] == p.own[l - |p.rows|];
  }

  /** Following the waits upwards ends: some transaction can go on. */
  lemma {:induction false} ChainEnds(s: Waiting, t: nat, above: set<nat>) returns (u: nat)
    requires Sound(s) && Disciplined(s) && t < |s.plans| && !Ended(s, t)
    requires forall v :: v in above ==> v < |s.plans|
    requires Stuck(s, t) ==>
               forall v :: 0 <= v < |s.plans| && Stuck(s, v) && Before(Wanted(s, t), Wanted(s, v)) ==> v in above
    ensures u < |s.plans| && CanProceed(s, u)
    decreases above
  {
    if !Stuck(s, t) {
      return t;
    }
    var next := WaitsForLater(s, t);
    if !Stuck(s, next) {
      return next;
    }
    forall v | 0 <= v < |s.plans| && Stuck(s, v) && Before(Wanted(s, next), Wanted(s, v)) ensures v in above - {next} {
      BeforeIsStrict(Wanted(s, t), Wanted(s, next), Wanted(s, v));
      BeforeIsStrict(Wanted(s, next), Wanted(s, next), Wanted(s, next));
    }
    u := ChainEnds(s, next, above - {next});
  }

  /** No cyclic wait: while any transaction is unfinished, some transaction can proceed. */
  lemma NoCyclicWait(s: Waiting, t: nat) returns (u: nat)
    requires Sound(s) && Disciplined(s) && t < |s.plans| && !Ended(s, t)
    ensures u < |s.plans| && CanProceed(s, u)
  {
    AllIndices(|s.plans|);
    u := ChainEnds(s, t, Indices(|s.plans|));
  }

  function Indices(n: nat): set<nat> {
    if n == 0 then {} else Indices(n - 1) + {n - 1}
  }

  lemma {:induction false} AllIndices(n: nat)
    ensures forall v: nat :: v in Indices(n) <==> v < n
  {
    if n > 0 {
      AllIndices(n - 1);
    }
  }

  /** Any mix of operations that follow the order, in any state of progress, can go on. */
  lemma OperationsGoOn(ls: seq<Locking>, own: seq<seq<RowId>>, taken: seq<nat>, t: nat) returns (u: nat)
    requires |own| == |ls| && (forall j :: 0 <= j < |ls| ==> WellFormed(ls[j]) && InOrder(ls[j]))
    requires var s := Waiting(PlansOf(ls, own), taken);
             && Sound(s) && t < |ls| && !Ended(s, t)
             && (forall j, l, row :: 0 <= j < |ls| && 0 <= l < |ls| && j != l && row in own[j] ==>
                  row !in Program(s.plans[l]))
    ensures u < |ls| && CanProceed(Waiting(PlansOf(ls, own), taken), u)
  {
    hide LockRows;
    forall j | 0 <= j < |ls| ensures Ascends(LockRows(ls[j])) {
      FollowsLockOrderIff(ls[j]);
    }
    u := NoCyclicWait(Waiting(PlansOf(ls, own), taken), t);
  }

  function PlansOf(ls: seq<Locking>, own: seq<seq<RowId>>): (plans: seq<Plan>)
    requires |own| == |ls|
    ensures |plans| == |ls| && forall j :: 0 <= j < |ls| ==> plans[j] == Plan(LockRows(ls[j]), own[j])
  {
    seq(|ls|, j requires 0 <= j < |ls| => Plan(LockRows(ls[j]), own[j]))
  }

  function Proceed(s: Waiting, t: nat): Waiting
    requires Sound(s) && t < |s.plans| && CanProceed(s, t)
  {
    s.(taken := s.taken[t := s.taken[t] + 1])
  }

  /** Locks still to be taken and commits still to be made. */
  function Remaining(plans: seq<Plan>, taken: seq<nat>): nat
    requires |taken| == |plans| && forall t :: 0 <= t < |plans| ==> taken[t] <= |Program(plans[t])| + 1
  {
    if plans == [] then 0
    else
      var n := |plans| - 1;
      Remaining(plans[..n], taken[..n]) + (|Program(plans[n])| + 1 - taken[n])
  }

  lemma {:induction false} ProceedShrinks(plans: seq<Plan>, taken: seq<nat>, t: nat)
    requires |taken| == |plans| && t < |plans| && taken[t] <= |Program(plans[t])|
    requires forall u :: 0 <= u < |plans| ==> taken[u] <= |Program(plans[u])| + 1
    ensures Remaining(plans, taken[t := taken[t] + 1]) == Remaining(plans, taken) - 1
  {
    var n := |plans| - 1;
    var taken' := taken[t := taken[t] + 1];
    if t == n {
      assert taken'[..n] == taken[..n];
    } else {
      assert taken'[..n] == taken[..n][t := taken[t] + 1];
      ProceedShrinks(plans[..n], taken[..n], t);
    }
  }

  function Schedule(s: Waiting, ts: seq<nat>): Waiting
    requires Sound(s)
    decreases |ts|
  {
    if ts == [] then s
    else if ts[0] < |s.plans| && CanProceed(s, ts[0]) then Schedule(Proceed(s, ts[0]), ts[1..])
    else Schedule(s, ts[1..])
  }

  /** From every state there is a schedule after which every transaction has ended. */
  lemma {:induction false} EveryoneCanFinish(s: Waiting) returns (ts: seq<nat>)
    requires Sound(s) && Disciplined(s)
    ensures var s' := Schedule(s, ts);
            Sound(s') && |s'.plans| == |s.plans| && forall t :: 0 <= t < |s'.plans| ==> Ended(s', t)
    decreases Remaining(s.plans, s.taken)
  {
    if t :| 0 <= t < |s.plans| && !Ended(s, t) {
      var u := NoCyclicWait(s, t);
      ProceedShrinks(s.plans, s.taken, u);
      var rest := EveryoneCanFinish(Proceed(s, u));
      ts := [u] + rest;
      assert ts[1..] == rest;
    } else {
      ts := [];
    }
  }

  // ------------------------------------------------------------------ out of order

  function Two(a: Locking, b: Locking, n: nat, m: nat): Waiting {
    Waiting([Plan(LockRows(a), []), Plan(LockRows(b), [])], [n, m])
  }

  /** Both transactions can take their first lock, one after the other. */
  ghost predicate FirstLocks(a: Locking, b: Locking) {
    && Sound(Two(a, b, 0, 0)) && CanProceed(Two(a, b, 0, 0), 0)
    && Proceed(Two(a, b, 0, 0), 0) == Two(a, b, 1, 0)
    && Sound(Two(a, b, 1, 0)) && CanProceed(Two(a, b, 1, 0), 1)
    && Proceed(Two(a, b, 1, 0), 1) == Two(a, b, 1, 1)
  }

  lemma FirstLocksTaken(a: Locking, b: Locking)
    requires LockRows(a) != [] && LockRows(b) != [] && LockRows(a)[0] != LockRows(b)[0]
    ensures FirstLocks(a, b)
  {
    hide LockRows;
    var s, s1 := Two(a, b, 0, 0), Two(a, b, 1, 0);
    assert Program(s.plans[0]) == LockRows(a) && Program(s.plans[1]) == LockRows(b);
    assert !Holds(s, 1, LockRows(a)[0]);
    assert LockRows(a)[..1] == [LockRows(a)[0]];
    assert s.(taken := s.taken[0 := 1]) == s1;
    assert !Holds(s1, 0, LockRows(b)[0]);
  }

  /** A link and an unlink of the same name and inode wait for each other. */
  lemma LinkDeadlocks(k: DirKey, i: Ino)
    requires k.parent != i
    ensures var s := Two(Linking(k, i), Unlinking(k, i, false), 1, 1);
            Sound(s) && Stuck(s, 0) && Stuck(s, 1)
    ensures FirstLocks(Linking(k, i), Unlinking(k, i, false))
  {
    FirstLocksTaken(Linking(k, i), Unlinking(k, i, false));
    var s := Two(Linking(k, i), Unlinking(k, i, false), 1, 1);
    assert Program(s.plans[0]) == LockRows(Linking(k, i)) && Program(s.plans[1]) == LockRows(Unlinking(k, i, false));
    assert Program(s.plans[0])[..1] == [InodeRow(i)] && Program(s.plans[1])[..1] == [EntryRow(k)];
    assert Holds(s, 1, Program(s.plans[0])[s.taken[0]]) && Holds(s, 0, Program(s.plans[1])[s.taken[1]]);
  }

  /** So do two renames between the same two names in opposite directions. */
  lemma CrossedRenamesDeadlock(k: DirKey, k2: DirKey, ids: seq<Ino>)
    requires k != k2
    ensures var s := Two(Renaming(k, k2, ids, None), Renaming(k2, k, ids, None), 1, 1);
            Sound(s) && Stuck(s, 0) && Stuck(s, 1)
    ensures FirstLocks(Renaming(k, k2, ids, None), Renaming(k2, k, ids, None))
  {
    var a, b := Renaming(k, k2, ids, None), Renaming(k2, k, ids, None);
    FirstLocksTaken(a, b);
    var s := Two(a, b, 1, 1);
    assert Program(s.plans[0]) == LockRows(a) && Program(s.plans[1]) == LockRows(b);
    assert Program(s.plans[0])[..1] == [EntryRow(k)] && Program(s.plans[1])[..1] == [EntryRow(k2)];
    assert Holds(s, 1, Program(s.plans[0])[s.taken[0]]) && Holds(s, 0, Program(s.plans[1])[s.taken[1]]);
  }
}
