/**
 What a list of `batch_parent_deltas` calls amounts to for each inode: in the delta build, in the
 read-modify-write build, and in the cache.
 */
module Logging {
  import opened Types
  import opened Wrappers
  import opened DeltaFold
  import opened Server

  /** The operations that a list of calls addresses to inode `i`, in order. */
  function OpsFor(logs: seq<LogItem>, i: Ino): seq<DeltaOp> {
    if logs == [] then []
    else
      var front, last := OpsFor(logs[..|logs| - 1], i), logs[|logs| - 1];
      if last.ino == i then front + last.ops else front
  }

  /** Only the delta rows of the logged inodes change, by the numbered operations at their end. */
  lemma LogAllDeltas(t: Txn, logs: seq<LogItem>)
    ensures var u := LogAll(WithDeltas, t, logs);
            && u.store == t.store.(deltas := u.store.deltas)
            && forall i ::
                 && DeltasOf(u.store, i) == DeltasOf(t.store, i) + Numbered(NextSeq(t.seqs, i), OpsFor(logs, i))
                 && NextSeq(u.seqs, i) == NextSeq(t.seqs, i) + |OpsFor(logs, i)|
  {
    hide LogAll, OpsFor, Numbered;
    LogAllFrame(t, logs);
    var u := LogAll(WithDeltas, t, logs);
    forall i
      ensures DeltasOf(u.store, i) == DeltasOf(t.store, i) + Numbered(NextSeq(t.seqs, i), OpsFor(logs, i))
      ensures NextSeq(u.seqs, i) == NextSeq(t.seqs, i) + |OpsFor(logs, i)|
    {
      LogAllOneInode(t, logs, i);
    }
  }

  lemma {:induction false} LogAllFrame(t: Txn, logs: seq<LogItem>)
    ensures var u := LogAll(WithDeltas, t, logs); u.store == t.store.(deltas := u.store.deltas)
  {
    if logs != [] {
      LogAllFrame(t, logs[..|logs| - 1]);
    }
  }

  lemma {:induction false} LogAllOneInode(t: Txn, logs: seq<LogItem>, i: Ino)
    ensures var u := LogAll(WithDeltas, t, logs);
            && DeltasOf(u.store, i) == DeltasOf(t.store, i) + Numbered(NextSeq(t.seqs, i), OpsFor(logs, i))
            && NextSeq(u.seqs, i) == NextSeq(t.seqs, i) + |OpsFor(logs, i)|
  {
    hide LogOne, DeltasOf, NextSeq;
    if logs != [] {
      var front, last := logs[..|logs| - 1], logs[|logs| - 1];
      LogAllOneInode(t, front, i);
      LogOneDeltas(LogAll(WithDeltas, t, front), last, i);
      NumberedConcat(NextSeq(t.seqs, i), OpsFor(front, i), last.ops);
    } else {
      assert DeltasOf(t.store, i) + Numbered(NextSeq(t.seqs, i), []) == DeltasOf(t.store, i);
    }
  }

  /** In the delta build logging leaves every base alone. */
  lemma LogKeepsInodes(st: Store, seqs: map<Ino, nat>, logs: seq<LogItem>)
    ensures LogAll(WithDeltas, Txn(st, seqs), logs).store.inodes == st.inodes
  {
    LogAllFrame(Txn(st, seqs), logs);
  }

  lemma LogOneDeltas(t: Txn, item: LogItem, i: Ino)
    ensures var u := LogOne(WithDeltas, t, item);
            && DeltasOf(u.store, i) ==
                 (if i == item.ino then DeltasOf(t.store, i) + Numbered(NextSeq(t.seqs, i), item.ops)
                                        else DeltasOf(t.store, i))
            && NextSeq(u.seqs, i) == NextSeq(t.seqs, i) + if i == item.ino then |item.ops| else 0
  {
  }

  lemma NumberedConcat(n: nat, x: seq<DeltaOp>, y: seq<DeltaOp>)
    ensures Numbered(n, x + y) == Numbered(n, x) + Numbered(n + |x|, y)
  {
  }

  lemma OpsConcat(x: seq<Delta>, y: seq<Delta>)
    ensures Ops(x + y) == Ops(x) + Ops(y)
  {
  }

  lemma OpsNumbered(first: nat, ops: seq<DeltaOp>)
    ensures Ops(Numbered(first, ops)) == ops
  {
  }

  /** In the delta build every stored inode's effective value is folded with the operations addressed to it. */
  lemma LogAllEffective(t: Txn, logs: seq<LogItem>, i: Ino)
    requires i in t.store.inodes
    ensures var u := LogAll(WithDeltas, t, logs);
            && u.store.inodes == t.store.inodes
            && Effective(u.store, i) == Fold(Effective(t.store, i), OpsFor(logs, i))
  {
    LogAllDeltas(t, logs);
    var old_ := DeltasOf(t.store, i);
    var added := Numbered(NextSeq(t.seqs, i), OpsFor(logs, i));
    OpsConcat(old_, added);
    OpsNumbered(NextSeq(t.seqs, i), OpsFor(logs, i));
    FoldConcat(t.store.inodes[i], Ops(old_), OpsFor(logs, i));
  }

  /** In the read-modify-write build the base itself is. */
  lemma {:induction false} LogAllPlain(t: Txn, logs: seq<LogItem>)
    ensures var u := LogAll(NoDelta, t, logs);
            && u.seqs == t.seqs
            && u.store == t.store.(inodes := u.store.inodes)
            && u.store.inodes.Keys == t.store.inodes.Keys
            && forall i :: i in t.store.inodes ==> u.store.inodes[i] == Fold(t.store.inodes[i], OpsFor(logs, i))
  {
    if logs != [] {
      var front, last := logs[..|logs| - 1], logs[|logs| - 1];
      LogAllPlain(t, front);
      var u := LogAll(NoDelta, t, logs);
      forall i | i in t.store.inodes ensures u.store.inodes[i] == Fold(t.store.inodes[i], OpsFor(logs, i)) {
        FoldConcat(t.store.inodes[i], OpsFor(front, i), last.ops);
      }
    }
  }

  /** The cache keeps its keys and folds each cached value with the operations addressed to it. */
  lemma {:induction false} CacheAllFolds(cache: map<Ino, InodeValue>, logs: seq<LogItem>)
    ensures var c := CacheAll(cache, logs);
            && c.Keys == cache.Keys
            && forall i :: i in cache ==> c[i] == Fold(cache[i], OpsFor(logs, i))
  {
    if logs != [] {
      var front, last := logs[..|logs| - 1], logs[|logs| - 1];
      CacheAllFolds(cache, front);
      var c := CacheAll(cache, logs);
      forall i | i in cache ensures c[i] == Fold(cache[i], OpsFor(logs, i)) {
        FoldConcat(cache[i], OpsFor(front, i), last.ops);
      }
    }
  }

  /** Inodes outside the list receive nothing. */
  lemma {:induction false} OpsForUntouched(logs: seq<LogItem>, i: Ino)
    requires i !in Touched(logs)
    ensures OpsFor(logs, i) == []
  {
    if logs != [] {
      assert logs[|logs| - 1] in logs;
      forall item | item in logs[..|logs| - 1] ensures item in logs {
      }
      OpsForUntouched(logs[..|logs| - 1], i);
    }
  }

  lemma OpsForOne(item: LogItem, i: Ino)
    ensures OpsFor([item], i) == if i == item.ino then item.ops else []
  {
    assert [item][..0] == [];
    if i == item.ino {
      assert [] + item.ops == item.ops;
    }
  }

  lemma {:induction false} OpsForConcat(x: seq<LogItem>, y: seq<LogItem>, i: Ino)
    ensures OpsFor(x + y, i) == OpsFor(x, i) + OpsFor(y, i)
    decreases |y|
  {
    if y == [] {
      assert x + y == x;
    } else {
      assert (x + y)[..|x + y| - 1] == x + y[..|y| - 1];
      OpsForConcat(x, y[..|y| - 1], i);
    }
  }
}
