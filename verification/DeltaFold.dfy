/**
 The fold of delta operations into an inode value (server/src/delta.rs): the loop, its meaning
 as a left fold, and when the order of the operations does not matter.
 */
module DeltaFold {
  import opened Types

  /** One operation: signed link change clamped at zero and cast to 32 bits; times only move forward. */
  function ApplyDelta(b: InodeValue, d: DeltaOp): InodeValue {
    match d
    case IncrementNlink(n) => b.(nlink := StepNlink(b.nlink, n))
    case SetMtime(t) => b.(mtime := Max(b.mtime, t))
    case SetCtime(t) => b.(ctime := Max(b.ctime, t))
    case SetAtime(t) => b.(atime := Max(b.atime, t))
  }

  function StepNlink(n: u32, amount: i32): u32 {
    WrapU32(Max(n + amount, 0))
  }

  function Fold(b: InodeValue, ds: seq<DeltaOp>): InodeValue {
    if ds == [] then b else ApplyDelta(Fold(b, ds[..|ds| - 1]), ds[|ds| - 1])
  }

  /** `fold_deltas`: the loop that updates the base in place. */
  method FoldDeltas(base: InodeValue, deltas: seq<DeltaOp>) returns (r: InodeValue)
    ensures r == Fold(base, deltas)
  {
    r := base;
    var i := 0;
    while i < |deltas|
      invariant 0 <= i <= |deltas|
      invariant r == Fold(base, deltas[..i])
    {
      assert deltas[..i + 1][..i] == deltas[..i];
      match deltas[i] {
        case IncrementNlink(n) =>
          var newVal := r.nlink + n;
          r := r.(nlink := WrapU32(Max(newVal, 0)));
        case SetMtime(t) => r := r.(mtime := Max(r.mtime, t));
        case SetCtime(t) => r := r.(ctime := Max(r.ctime, t));
        case SetAtime(t) => r := r.(atime := Max(r.atime, t));
      }
      i := i + 1;
    }
    assert deltas[..i] == deltas;
  }

  lemma FoldNothing(v: InodeValue)
    ensures Fold(v, []) == v
  {
  }

  /** Folding a log in two pieces: what compaction and the cache rely on. */
  lemma {:induction false} FoldConcat(b: InodeValue, x: seq<DeltaOp>, y: seq<DeltaOp>)
    ensures Fold(b, x + y) == Fold(Fold(b, x), y)
    decreases |y|
  {
    if y == [] {
      assert x + y == x;
    } else {
      assert (x + y)[..|x + y| - 1] == x + y[..|y| - 1];
      FoldConcat(b, x, y[..|y| - 1]);
    }
  }

  /** The fold touches link count and times only, and each from its own old value. */
  function FoldNlink(n: u32, ds: seq<DeltaOp>): u32 {
    if ds == [] then n
    else
      var m := FoldNlink(n, ds[..|ds| - 1]);
      var d := ds[|ds| - 1];
      if d.IncrementNlink? then StepNlink(m, d.amount) else m
  }

  /** The latest time that the log sets with the given kind of operation. */
  function LatestMtime(ds: seq<DeltaOp>): u64 {
    if ds == [] then 0
    else
      var d := ds[|ds| - 1];
      Max(LatestMtime(ds[..|ds| - 1]), if d.SetMtime? then d.time else 0)
  }

  function LatestCtime(ds: seq<DeltaOp>): u64 {
    if ds == [] then 0
    else
      var d := ds[|ds| - 1];
      Max(LatestCtime(ds[..|ds| - 1]), if d.SetCtime? then d.time else 0)
  }

  function LatestAtime(ds: seq<DeltaOp>): u64 {
    if ds == [] then 0
    else
      var d := ds[|ds| - 1];
      Max(LatestAtime(ds[..|ds| - 1]), if d.SetAtime? then d.time else 0)
  }

  lemma {:induction false} FoldByField(b: InodeValue, ds: seq<DeltaOp>)
    ensures Fold(b, ds) == b.(nlink := FoldNlink(b.nlink, ds),
                              mtime := Max(b.mtime, LatestMtime(ds)),
                              ctime := Max(b.ctime, LatestCtime(ds)),
                              atime := Max(b.atime, LatestAtime(ds)))
  {
    if ds != [] {
      FoldByField(b, ds[..|ds| - 1]);
    }
  }

  // ------------------------------------------------------------------ order of operations

  /** What a log amounts to when no step clamps: links added, links removed, latest times. */
  datatype Summary = Summary(added: nat, removed: nat, mtime: u64, ctime: u64, atime: u64)

  function Join(a: Summary, b: Summary): Summary {
    Summary(a.added + b.added, a.removed + b.removed,
            Max(a.mtime, b.mtime), Max(a.ctime, b.ctime), Max(a.atime, b.atime))
  }

  function SummaryOf(d: DeltaOp): Summary {
    match d
    case IncrementNlink(n) => Summary(Max(n, 0), Max(0 - n, 0), 0, 0, 0)
    case SetMtime(t) => Summary(0, 0, t, 0, 0)
    case SetCtime(t) => Summary(0, 0, 0, t, 0)
    case SetAtime(t) => Summary(0, 0, 0, 0, t)
  }

  function Summarise(ds: seq<DeltaOp>): Summary {
    if ds == [] then Summary(0, 0, 0, 0, 0)
    else Join(Summarise(ds[..|ds| - 1]), SummaryOf(ds[|ds| - 1]))
  }

  lemma JoinAssociative(a: Summary, b: Summary, c: Summary)
    ensures Join(Join(a, b), c) == Join(a, Join(b, c))
  {
  }

  lemma {:induction false} SummariseConcat(x: seq<DeltaOp>, y: seq<DeltaOp>)
    ensures Summarise(x + y) == Join(Summarise(x), Summarise(y))
    decreases |y|
  {
    if y == [] {
      assert x + y == x;
    } else {
      var front, last := y[..|y| - 1], y[|y| - 1];
      assert (x + y)[..|x + y| - 1] == x + front;
      SummariseConcat(x, front);
      JoinAssociative(Summarise(x), Summarise(front), SummaryOf(last));
    }
  }

  lemma SummariseInsert(x: seq<DeltaOp>, d: DeltaOp, y: seq<DeltaOp>)
    ensures Summarise(x + [d] + y) == Join(Summarise(x + y), SummaryOf(d))
  {
    SummariseConcat(x + [d], y);
    assert (x + [d])[..|x + [d]| - 1] == x;
    SummariseConcat(x, y);
  }

  /** The summary does not depend on the order of the log. */
  lemma {:induction false} SummarisePermutation(x: seq<DeltaOp>, y: seq<DeltaOp>)
    requires multiset(x) == multiset(y)
    ensures Summarise(x) == Summarise(y)
    decreases |x|
  {
    if x == [] {
      assert |multiset(y)| == 0;
    } else {
      var last := x[|x| - 1];
      var front := x[..|x| - 1];
      assert x == front + [last];
      assert last in multiset(y);
      var j :| 0 <= j < |y| && y[j] == last;
      var rest := y[..j] + y[j + 1..];
      assert y == y[..j] + [last] + y[j + 1..];
      assert multiset(front) == multiset(rest) by {
        assert multiset(front) == multiset(x) - multiset{last};
        assert multiset(rest) == multiset(y) - multiset{last};
      }
      SummarisePermutation(front, rest);
      SummariseInsert(y[..j], last, y[j + 1..]);
    }
  }

  /** The link count can absorb every removal before any addition and every addition before any removal. */
  predicate NoClamp(n: int, s: Summary) {
    s.removed <= n && n + s.added < TWO32
  }

  function ApplySummary(b: InodeValue, s: Summary): InodeValue
    requires NoClamp(b.nlink, s)
  {
    b.(nlink := b.nlink + s.added - s.removed,
       mtime := Max(b.mtime, s.mtime), ctime := Max(b.ctime, s.ctime), atime := Max(b.atime, s.atime))
  }

  lemma {:induction false} FoldIsSummary(b: InodeValue, ds: seq<DeltaOp>)
    requires NoClamp(b.nlink, Summarise(ds))
    ensures Fold(b, ds) == ApplySummary(b, Summarise(ds))
  {
    if ds != [] {
      var front, d := Summarise(ds[..|ds| - 1]), ds[|ds| - 1];
      FoldIsSummary(b, ds[..|ds| - 1]);
      SummaryStep(b, front, d);
    }
  }

  lemma SummaryStep(b: InodeValue, s: Summary, d: DeltaOp)
    requires NoClamp(b.nlink, Join(s, SummaryOf(d)))
    ensures NoClamp(b.nlink, s) && ApplyDelta(ApplySummary(b, s), d) == ApplySummary(b, Join(s, SummaryOf(d)))
  {
  }

  /** Without clamping or wrapping, every order of the same operations folds to the same value. */
  lemma FoldPermutation(b: InodeValue, x: seq<DeltaOp>, y: seq<DeltaOp>)
    requires multiset(x) == multiset(y)
    requires NoClamp(b.nlink, Summarise(x))
    ensures Fold(b, x) == Fold(b, y)
  {
    SummarisePermutation(x, y);
    FoldIsSummary(b, x);
    FoldIsSummary(b, y);
  }

  /** No step of the log is clamped at zero or wrapped to 32 bits. */
  ghost predicate ExactFold(n: u32, ds: seq<DeltaOp>) {
    ds == [] ||
    var front, d := ds[..|ds| - 1], ds[|ds| - 1];
    ExactFold(n, front) && (d.IncrementNlink? ==> 0 <= FoldNlink(n, front) + d.amount < TWO32)
  }

  lemma {:induction false} ExactConcat(n: u32, x: seq<DeltaOp>, y: seq<DeltaOp>)
    requires ExactFold(n, x) && NoClamp(FoldNlink(n, x), Summarise(y))
    ensures ExactFold(n, x + y)
    ensures FoldNlink(n, x + y) == FoldNlink(n, x) + Summarise(y).added - Summarise(y).removed
    decreases |y|
  {
    if y == [] {
      assert x + y == x;
    } else {
      assert (x + y)[..|x + y| - 1] == x + y[..|y| - 1];
      ExactConcat(n, x, y[..|y| - 1]);
    }
  }

  /** The net link change that a log asks for, as an integer. */
  function NetLinks(ds: seq<DeltaOp>): int {
    if ds == [] then 0
    else
      var d := ds[|ds| - 1];
      NetLinks(ds[..|ds| - 1]) + if d.IncrementNlink? then d.amount else 0
  }

  /** An exact log changes the count, at each of its prefixes, by plain integer addition. */
  lemma {:induction false} ExactIsInteger(n: u32, ds: seq<DeltaOp>, j: nat)
    requires ExactFold(n, ds) && j <= |ds|
    ensures FoldNlink(n, ds[..j]) == n + NetLinks(ds[..j])
    decreases |ds|
  {
    if j == |ds| {
      assert ds[..j] == ds;
      if ds != [] {
        ExactIsInteger(n, ds[..|ds| - 1], |ds| - 1);
        assert ds[..|ds| - 1][..|ds| - 1] == ds[..|ds| - 1];
      }
    } else {
      ExactIsInteger(n, ds[..|ds| - 1], j);
      assert ds[..|ds| - 1][..j] == ds[..j];
    }
  }

  /** The links that a log removes, moved in front of everything else. */
  function Removals(ds: seq<DeltaOp>): seq<DeltaOp> {
    if ds == [] then []
    else
      var d := ds[|ds| - 1];
      var front := Removals(ds[..|ds| - 1]);
      if d.IncrementNlink? && d.amount < 0 then front + [d] else front
  }

  function Others(ds: seq<DeltaOp>): seq<DeltaOp> {
    if ds == [] then []
    else
      var d := ds[|ds| - 1];
      var front := Others(ds[..|ds| - 1]);
      if d.IncrementNlink? && d.amount < 0 then front else front + [d]
  }

  lemma {:induction false} RemovalsFirst(ds: seq<DeltaOp>)
    ensures multiset(Removals(ds) + Others(ds)) == multiset(ds)
  {
    if ds != [] {
      var front, d := ds[..|ds| - 1], ds[|ds| - 1];
      assert ds == front + [d];
      RemovalsFirst(front);
    }
  }

  lemma {:induction false} RemovalsSummary(ds: seq<DeltaOp>)
    ensures Summarise(Removals(ds)).added == 0
    ensures Summarise(Removals(ds)).removed == Summarise(ds).removed
  {
    if ds != [] {
      var front, d := ds[..|ds| - 1], ds[|ds| - 1];
      RemovalsSummary(front);
      if d.IncrementNlink? && d.amount < 0 {
        assert Removals(ds)[..|Removals(ds)| - 1] == Removals(front);
      }
    }
  }

  lemma {:induction false} OthersSummary(ds: seq<DeltaOp>)
    ensures Summarise(Others(ds)).removed == 0
    ensures Summarise(Others(ds)).added == Summarise(ds).added
  {
    if ds != [] {
      var front, d := ds[..|ds| - 1], ds[|ds| - 1];
      OthersSummary(front);
      if d.IncrementNlink? && d.amount < 0 {
      } else {
        assert Others(ds)[..|Others(ds)| - 1] == Others(front);
      }
    }
  }

  /** A run of removals that exceeds the count ends at zero. */
  lemma {:induction false} RemovalsClamp(n: u32, ds: seq<DeltaOp>)
    requires Summarise(ds).added == 0
    ensures FoldNlink(n, ds) == Max(n - Summarise(ds).removed, 0)
  {
    if ds != [] {
      RemovalsClamp(n, ds[..|ds| - 1]);
    }
  }

  /** Additions that fit never wrap. */
  lemma {:induction false} AdditionsAdd(n: u32, ds: seq<DeltaOp>)
    requires Summarise(ds).removed == 0
    requires n + Summarise(ds).added < TWO32
    ensures FoldNlink(n, ds) == n + Summarise(ds).added
  {
    if ds != [] {
      AdditionsAdd(n, ds[..|ds| - 1]);
    }
  }

  /** Every order of the log changes the link count by the additions minus the removals. */
  ghost predicate OrderIrrelevant(b: InodeValue, ds: seq<DeltaOp>) {
    forall p: seq<DeltaOp> | multiset(p) == multiset(ds) ::
      Fold(b, p).nlink == b.nlink + Summarise(ds).added - Summarise(ds).removed
  }

  /**
   Exactly when the order of the log is irrelevant to the link count: given that the additions
   fit in 32 bits, if and only if the base covers all removals.
   */
  lemma OrderIrrelevantIff(b: InodeValue, ds: seq<DeltaOp>)
    requires b.nlink + Summarise(ds).added < TWO32
    ensures OrderIrrelevant(b, ds) <==> Summarise(ds).removed <= b.nlink
  {
    if Summarise(ds).removed <= b.nlink {
      forall p: seq<DeltaOp> | multiset(p) == multiset(ds)
        ensures Fold(b, p).nlink == b.nlink + Summarise(ds).added - Summarise(ds).removed
      {
        FoldPermutation(b, ds, p);
        FoldIsSummary(b, ds);
      }
    } else {
      RemovalsFirst(ds);
      RemovalsFirstClamps(b, ds);
    }
  }

  lemma RemovalsFirstClamps(b: InodeValue, ds: seq<DeltaOp>)
    requires b.nlink + Summarise(ds).added < TWO32
    requires Summarise(ds).removed > b.nlink
    ensures Fold(b, Removals(ds) + Others(ds)).nlink == Summarise(ds).added
  {
    RemovalsSummary(ds);
    OthersSummary(ds);
    FoldConcat(b, Removals(ds), Others(ds));
    var c := Fold(b, Removals(ds));
    FoldByField(b, Removals(ds));
    RemovalsClamp(b.nlink, Removals(ds));
    FoldByField(c, Others(ds));
    AdditionsAdd(0, Others(ds));
  }

  /** Clamping is real: one removal too many forgets itself, so the two orders differ. */
  lemma ClampDependsOnOrder(b: InodeValue)
    requires b.nlink == 0
    ensures Fold(b, [IncrementNlink(-1), IncrementNlink(1)]).nlink == 1
    ensures Fold(b, [IncrementNlink(1), IncrementNlink(-1)]).nlink == 0
  {
    TwoSteps(b, IncrementNlink(-1), IncrementNlink(1));
    TwoSteps(b, IncrementNlink(1), IncrementNlink(-1));
  }

  lemma TwoSteps(b: InodeValue, d: DeltaOp, e: DeltaOp)
    ensures Fold(b, [d, e]) == ApplyDelta(ApplyDelta(b, d), e)
  {
    FoldConcat(b, [d], [e]);
    assert [d] + [e] == [d, e];
    FoldOne(b, d);
    FoldOne(ApplyDelta(b, d), e);
  }

  lemma FoldOne(b: InodeValue, d: DeltaOp)
    ensures Fold(b, [d]) == ApplyDelta(b, d)
  {
    var ds := [d];
    assert ds[..|ds| - 1] == [];
  }
}
