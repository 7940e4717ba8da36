/**
 The delta store (storage/src/rocks.rs): delta rows as bytes, per-inode sequence counters in memory,
 and the operations on them, against the typed view of one ascending list of deltas per inode.
 */
module DeltaRows {
  import opened Types
  import opened Wrappers
  import opened Codec
  import opened SortedStore
  import opened Server
  import opened DeltaLog

  function Prefix(i: Ino): Bytes {
    Tagged(DELTA_TAG, i)
  }

  /** The delta that a row holds; a row that does not decode holds none. */
  function DeltaIn(row: Row): Option<Delta> {
    if DecodeDeltaKey(row.key).Success? && ParseDelta(row.value).Success?
    then Some(Delta(DecodeDeltaKey(row.key).value.1, ParseDelta(row.value).value)) else None
  }

  function Decoded(found: seq<Row>): seq<Delta> {
    if found == [] then []
    else
      var front, last := Decoded(found[..|found| - 1]), DeltaIn(found[|found| - 1]);
      if last.Some? then front + [last.value] else front
  }

  /** The pending deltas of an inode, in key order. */
  function DeltasIn(rows: seq<Row>, i: Ino): seq<Delta> {
    Decoded(Under(rows, Prefix(i)))
  }

  /** Every row was written by the store: its key and value are encodings. */
  predicate WellFormedRow(row: Row) {
    && DecodeDeltaKey(row.key).Success? && |row.key| == 17
    && ParseDelta(row.value).Success?
  }

  predicate WellFormed(rows: seq<Row>) {
    forall j :: 0 <= j < |rows| ==> WellFormedRow(rows[j])
  }

  // ------------------------------------------------------------------ the typed view

  lemma {:induction false} DecodedConcat(x: seq<Row>, y: seq<Row>)
    ensures Decoded(x + y) == Decoded(x) + Decoded(y)
    decreases |y|
  {
    hide DeltaIn;
    if y == [] {
      assert x + y == x;
    } else {
      assert (x + y)[..|x + y| - 1] == x + y[..|y| - 1];
      DecodedConcat(x, y[..|y| - 1]);
    }
  }

  lemma DeltasInConcat(x: seq<Row>, y: seq<Row>, i: Ino)
    ensures DeltasIn(x + y, i) == DeltasIn(x, i) + DeltasIn(y, i)
  {
    hide Prefix;
    UnderConcat(x, y, Prefix(i));
    DecodedConcat(Under(x, Prefix(i)), Under(y, Prefix(i)));
  }

  /** A single row belongs to exactly the inode in its key. */
  lemma DeltasInOne(row: Row, i: Ino)
    requires WellFormedRow(row)
    ensures var (j, num) := DecodeDeltaKey(row.key).value;
            && row.key == DeltaKey(j, num)
            && DeltasIn([row], i) == if i == j then [Delta(num, ParseDelta(row.value).value)] else []
  {
    hide DecodeDeltaKey, ParseDelta, Prefix, DeltaKey;
    var (j, num) := DecodeDeltaKey(row.key).value;
    DecodedDeltaKey(row.key);
    assert row.key[..17] == row.key;
    assert Prefix(i) <= row.key <==> i == j by { DeltaPrefixOf(i, j, num); }
    UnderOne(row, Prefix(i));
    DecodedOne(row);
    DecodedNone();
  }

  lemma DeltaPrefixOf(i: Ino, j: Ino, num: u64)
    ensures Prefix(i) <= DeltaKey(j, num) <==> i == j
  {
    DeltaPrefix(i, j, num);
  }

  lemma UnderOne(row: Row, prefix: Bytes)
    ensures Under([row], prefix) == if prefix <= row.key then [row] else []
  {
    assert [row][..0] == [];
    assert Under([row][..0], prefix) == [];
  }

  lemma DecodedOne(row: Row)
    ensures Decoded([row]) == if DeltaIn(row).Some? then [DeltaIn(row).value] else []
  {
    assert [row][..0] == [];
    assert Decoded([row][..0]) == [];
  }

  lemma DecodedNone()
    ensures Decoded([]) == []
  {
  }

  /** Every row of the inode shows up as a delta. */
  lemma RowIsListed(rows: seq<Row>, j: nat)
    requires WellFormed(rows) && j < |rows|
    ensures var (i, num) := DecodeDeltaKey(rows[j].key).value;
            && rows[j].key == DeltaKey(i, num)
            && Delta(num, ParseDelta(rows[j].value).value) in DeltasIn(rows, i)
  {
    hide DecodeDeltaKey, ParseDelta, DeltasIn, DeltaKey;
    var (i, num) := DecodeDeltaKey(rows[j].key).value;
    DeltasInOne(rows[j], i);
    assert rows == rows[..j] + [rows[j]] + rows[j + 1..];
    DeltasInConcat(rows[..j] + [rows[j]], rows[j + 1..], i);
    DeltasInConcat(rows[..j], [rows[j]], i);
  }

  /** Rows of other inodes, or rows above the number, contribute nothing. */
  lemma {:induction false} NothingIn(rows: seq<Row>, i: Ino)
    requires WellFormed(rows) && forall j :: 0 <= j < |rows| ==> DecodeDeltaKey(rows[j].key).value.0 != i
    ensures DeltasIn(rows, i) == []
  {
    hide DecodeDeltaKey, ParseDelta, DeltaKey;
    if rows == [] {
      DecodedNone();
    } else {
      NothingIn(rows[..|rows| - 1], i);
      DeltasInOne(rows[|rows| - 1], i);
      assert rows == rows[..|rows| - 1] + [rows[|rows| - 1]];
      DeltasInConcat(rows[..|rows| - 1], [rows[|rows| - 1]], i);
    }
  }

  /** No row is at or above a number that is above all live ones. */
  lemma RowsBelow(rows: seq<Row>, i: Ino, n: u64, j: nat)
    requires WellFormed(rows) && Below(DeltasIn(rows, i), n) && j < |rows|
    ensures rows[j].key != DeltaKey(i, n)
    ensures Less(DeltaKey(i, n), rows[j].key) ==> DecodeDeltaKey(rows[j].key).value.0 != i
  {
    hide DecodeDeltaKey, ParseDelta, DeltasIn, DeltaKey;
    RowIsListed(rows, j);
    var (l, num) := DecodeDeltaKey(rows[j].key).value;
    DeltaKeyOrder(i, n, l, num);
  }

  lemma NewRow(i: Ino, n: u64, op: DeltaOp)
    ensures WellFormedRow(Row(DeltaKey(i, n), DeltaBytes(op)))
    ensures DeltasIn([Row(DeltaKey(i, n), DeltaBytes(op))], i) == [Delta(n, op)]
    ensures forall j: Ino :: j != i ==> DeltasIn([Row(DeltaKey(i, n), DeltaBytes(op))], j) == []
  {
    hide DecodeDeltaKey, ParseDelta, DeltaBytes, DeltasIn, DeltaKey;
    var row := Row(DeltaKey(i, n), DeltaBytes(op));
    DeltaKeyRoundTrip(i, n);
    DeltaRoundTrip(op);
    forall j: Ino ensures DeltasIn([row], j) == if i == j then [Delta(n, op)] else [] {
      DeltasInOne(row, j);
    }
  }

  /** Putting a row with a number above all live ones appends one delta to its inode and touches no other. */
  lemma PutAppends(rows: seq<Row>, i: Ino, n: u64, op: DeltaOp)
    requires Sorted(rows) && WellFormed(rows) && Below(DeltasIn(rows, i), n)
    ensures var rows' := Put(rows, DeltaKey(i, n), DeltaBytes(op));
            && Sorted(rows') && WellFormed(rows')
            && DeltasIn(rows', i) == DeltasIn(rows, i) + [Delta(n, op)]
            && forall j: Ino :: j != i ==> DeltasIn(rows', j) == DeltasIn(rows, j)
  {
    hide DecodeDeltaKey, ParseDelta, DeltasIn, DeltaBytes, Position, Less, DeltaKey;
    var key := DeltaKey(i, n);
    var row := Row(key, DeltaBytes(op));
    var p := Position(rows, key);
    PutSorted(rows, key, DeltaBytes(op));
    if p < |rows| {
      RowsBelow(rows, i, n, p);
    }
    var rows' := rows[..p] + [row] + rows[p..];
    assert Put(rows, key, DeltaBytes(op)) == rows';
    NewRow(i, n, op);
    forall j | p <= j < |rows| ensures DecodeDeltaKey(rows[j].key).value.0 != i {
      AboveKey(rows, key, j);
      RowsBelow(rows, i, n, j);
    }
    NothingIn(rows[p..], i);
    assert rows == rows[..p] + rows[p..];
    forall j: Ino ensures DeltasIn(rows', j) == DeltasIn(rows[..p], j) + DeltasIn([row], j) + DeltasIn(rows[p..], j)
                  ensures DeltasIn(rows, j) == DeltasIn(rows[..p], j) + DeltasIn(rows[p..], j)
    {
      DeltasInConcat(rows[..p] + [row], rows[p..], j);
      DeltasInConcat(rows[..p], [row], j);
      DeltasInConcat(rows[..p], rows[p..], j);
    }
  }

  /** Deleting a row changes the deltas of its own inode at most. */
  lemma DeleteElsewhere(rows: seq<Row>, i: Ino, n: u64, j: Ino)
    requires Sorted(rows) && WellFormed(rows) && i != j
    ensures DeltasIn(Delete(rows, DeltaKey(i, n)), j) == DeltasIn(rows, j)
  {
    hide DecodeDeltaKey, ParseDelta, DeltasIn, Position, DeltaKey;
    var key := DeltaKey(i, n);
    var p := Position(rows, key);
    if p < |rows| && rows[p].key == key {
      DeltasInOne(rows[p], j);
      DeltaKeyOrder(i, n, DecodeDeltaKey(rows[p].key).value.0, DecodeDeltaKey(rows[p].key).value.1);
      assert rows == rows[..p] + [rows[p]] + rows[p + 1..];
      DeltasInConcat(rows[..p] + [rows[p]], rows[p + 1..], j);
      DeltasInConcat(rows[..p], [rows[p]], j);
      DeltasInConcat(rows[..p], rows[p + 1..], j);
    }
  }

  /** The deltas of a sorted family ascend. */
  lemma {:induction false} DeltasAscend(rows: seq<Row>, i: Ino)
    requires Sorted(rows) && WellFormed(rows)
    ensures Ascending(DeltasIn(rows, i))
  {
    hide DecodeDeltaKey, ParseDelta, DeltasIn, DeltaKey, Less;
    if rows == [] {
      NothingIn(rows, i);
    } else {
      var front, last := rows[..|rows| - 1], rows[|rows| - 1];
      DeltasAscend(front, i);
      DeltasInOne(last, i);
      assert rows == front + [last];
      DeltasInConcat(front, [last], i);
      var (l, num) := DecodeDeltaKey(last.key).value;
      if l == i {
        BelowLast(front, last.key, i, num);
      }
    }
  }

  lemma {:induction false} BelowLast(rows: seq<Row>, key: Bytes, i: Ino, num: u64)
    requires WellFormed(rows) && key == DeltaKey(i, num)
    requires forall j :: 0 <= j < |rows| ==> Less(rows[j].key, key)
    ensures Below(DeltasIn(rows, i), num)
  {
    hide DecodeDeltaKey, ParseDelta, DeltasIn, DeltaKey, Less;
    if rows == [] {
      NothingIn(rows, i);
    } else {
      var front, last := rows[..|rows| - 1], rows[|rows| - 1];
      BelowLast(front, key, i, num);
      DeltasInOne(last, i);
      assert rows == front + [last];
      DeltasInConcat(front, [last], i);
      var (l, m) := DecodeDeltaKey(last.key).value;
      DeltaKeyOrder(l, m, i, num);
    }
  }

  // ------------------------------------------------------------------ numbers in use

  /** The row's key decodes to the inode; its value is not looked at. */
  predicate Owned(row: Row, i: Ino) {
    DecodeDeltaKey(row.key).Success? && DecodeDeltaKey(row.key).value.0 == i
  }

  /** The sequence numbers of an inode that occur among the rows. */
  function Numbers(rows: seq<Row>, i: Ino): set<nat> {
    set row | row in rows && Owned(row, i) :: DecodeDeltaKey(row.key).value.1
  }

  lemma NumbersConcat(x: seq<Row>, y: seq<Row>, i: Ino)
    ensures Numbers(x + y, i) == Numbers(x, i) + Numbers(y, i)
  {
    hide DecodeDeltaKey;
    assert forall row :: row in x + y <==> row in x || row in y;
  }

  lemma NumbersOne(row: Row, i: Ino)
    ensures Numbers([row], i) == if Owned(row, i) then {DecodeDeltaKey(row.key).value.1} else {}
  {
    hide DecodeDeltaKey;
    assert forall r :: r in [row] <==> r == row;
  }

  function NumbersOf(ds: seq<Delta>): set<nat> {
    set d | d in ds :: d.num
  }

  lemma NumbersOfConcat(x: seq<Delta>, y: seq<Delta>)
    ensures NumbersOf(x + y) == NumbersOf(x) + NumbersOf(y)
  {
    assert forall d :: d in x + y <==> d in x || d in y;
  }

  lemma NumbersOfOne(d: Delta)
    ensures NumbersOf([d]) == {d.num} && NumbersOf([]) == {}
  {
    assert forall e :: e in [d] <==> e == d;
  }

  /** Over well-formed rows these are the numbers of the pending deltas. */
  lemma {:induction false} NumbersAreListed(rows: seq<Row>, i: Ino)
    requires WellFormed(rows)
    ensures Numbers(rows, i) == NumbersOf(DeltasIn(rows, i))
  {
    hide DecodeDeltaKey, ParseDelta, DeltasIn, DeltaKey;
    if rows == [] {
      NothingIn(rows, i);
    } else {
      var front, last := rows[..|rows| - 1], rows[|rows| - 1];
      assert rows == front + [last];
      NumbersAreListed(front, i);
      NumbersConcat(front, [last], i);
      NumbersOne(last, i);
      DeltasInConcat(front, [last], i);
      DeltasInOne(last, i);
      NumbersOfConcat(DeltasIn(front, i), DeltasIn([last], i));
      NumbersOfOne(Delta(DecodeDeltaKey(last.key).value.1, ParseDelta(last.value).value));
    }
  }
}

module DeltaStores {
  import opened Types
  import opened Wrappers
  import opened Codec
  import opened SortedStore
  import opened Server
  import opened DeltaLog
  import opened DeltaRows

  /** What the largest-number table says about the rows scanned so far. */
  ghost predicate Largest(max: map<Ino, nat>, rows: seq<Row>) {
    forall i: Ino ::
      && (i in max <==> Numbers(rows, i) != {})
      && (i in max ==> max[i] in Numbers(rows, i) && forall n :: n in Numbers(rows, i) ==> n <= max[i])
  }

  lemma LargestStep(max: map<Ino, nat>, row: Row, rest: seq<Row>, i: Ino, num: nat)
    requires Largest(max, rest) && DecodeDeltaKey(row.key) == Success((i, num))
    ensures Largest(max[i := if i in max then Max(max[i], num) else num], [row] + rest)
  {
    hide DecodeDeltaKey, Numbers;
    forall j: Ino ensures Numbers([row] + rest, j) == (if j == i then {num} else {}) + Numbers(rest, j) {
      NumbersConcat([row], rest, j);
      NumbersOne(row, j);
    }
  }

  lemma LargestSkip(max: map<Ino, nat>, row: Row, rest: seq<Row>)
    requires Largest(max, rest) && DecodeDeltaKey(row.key).Failure?
    ensures Largest(max, [row] + rest)
  {
    hide DecodeDeltaKey, Numbers;
    forall j: Ino ensures Numbers([row] + rest, j) == Numbers(rest, j) {
      NumbersConcat([row], rest, j);
      NumbersOne(row, j);
    }
  }

  /** A counter after recovery: one above the largest number in use, or as before if there is none. */
  ghost predicate Resumes(numbers: set<nat>, before: nat, next: nat) {
    if numbers == {} then next == before
    else next > 0 && next - 1 in numbers && forall n :: n in numbers ==> n < next
  }

  lemma LargestResumes(max: map<Ino, nat>, rows: seq<Row>, i: Ino, before: nat)
    requires Largest(max, rows)
    ensures Resumes(Numbers(rows, i), before, if i in max then max[i] + 1 else before)
  {
    hide Numbers;
    assert i in max <==> Numbers(rows, i) != {};
  }

  /** That is the recovery of the state machine, and it is above every pending delta. */
  lemma ResumesAbove(rows: seq<Row>, i: Ino, before: nat, next: nat)
    requires WellFormed(rows) && Resumes(Numbers(rows, i), before, next)
    ensures Below(DeltasIn(rows, i), next)
    ensures next == if DeltasIn(rows, i) == [] then before else LargestNum(DeltasIn(rows, i)) + 1
  {
    hide DeltasIn, Numbers, LargestNum;
    NumbersAreListed(rows, i);
    var ds := DeltasIn(rows, i);
    LargestIsLargest(ds);
    forall j | 0 <= j < |ds| ensures ds[j].num in NumbersOf(ds) {
      assert ds[j] in ds;
    }
    if ds != [] {
      var j :| 0 <= j < |ds| && ds[j].num == LargestNum(ds);
      assert ds[j].num in NumbersOf(ds);
      var d :| d in ds && d.num == next - 1;
    }
  }

  class DeltaStore {
    var rows: seq<Row>
    var seqs: map<Ino, nat>

    /** Rows are sorted encodings, and every counter is above the live numbers of its inode. */
    ghost predicate Valid()
      reads this
    {
      && Sorted(rows) && WellFormed(rows)
      && forall i: Ino :: Below(DeltasIn(rows, i), NextSeq(seqs, i))
    }

    /** `new`: open over any stored rows and recover the counters from those that decode. */
    constructor (stored: seq<Row>)
      requires Sorted(stored)
      ensures rows == stored && forall i: Ino :: Resumes(Numbers(stored, i), 0, NextSeq(seqs, i))
      ensures WellFormed(stored) ==> Valid()
      ensures WellFormed(stored) ==>
                forall i: Ino :: NextSeq(seqs, i) ==
                  if DeltasIn(stored, i) == [] then 0 else LargestNum(DeltasIn(stored, i)) + 1
    {
      rows := stored;
      seqs := map[];
      new;
      RecoverSeqs();
      if WellFormed(stored) {
        forall i: Ino
          ensures Below(DeltasIn(rows, i), NextSeq(seqs, i))
          ensures NextSeq(seqs, i) == if DeltasIn(rows, i) == [] then 0 else LargestNum(DeltasIn(rows, i)) + 1
        {
          ResumesAbove(rows, i, 0, NextSeq(seqs, i));
        }
      }
    }

    /**
     `recover_seqs`: walk all rows from the end, skip those whose key does not decode, remember the
     largest number of each inode and resume one above it; other counters stay. It may be called again.
     */
    method RecoverSeqs()
      modifies `seqs
      ensures forall i: Ino :: Resumes(Numbers(rows, i), old(NextSeq(seqs, i)), NextSeq(seqs, i))
    {
      hide DecodeDeltaKey, Numbers;
      var max: map<Ino, nat> := map[];
      var j := |rows|;
      assert rows[j..] == [];
      assert Largest(max, rows[j..]) by { NothingStored(); }
      while j > 0
        invariant 0 <= j <= |rows| && seqs == old(seqs)
        invariant Largest(max, rows[j..])
      {
        j := j - 1;
        assert rows[j..] == [rows[j]] + rows[j + 1..];
        var key := DecodeDeltaKey(rows[j].key);
        if key.Success? {
          var (i, num) := key.value;
          LargestStep(max, rows[j], rows[j + 1..], i, num);
          max := max[i := if i in max then Max(max[i], num) else num];
        } else {
          LargestSkip(max, rows[j], rows[j + 1..]);
        }
      }
      assert rows[0..] == rows;
      seqs := seqs + map i | i in max :: max[i] + 1;
      forall i: Ino ensures Resumes(Numbers(rows, i), old(NextSeq(seqs, i)), NextSeq(seqs, i)) {
        assert NextSeq(seqs, i) == if i in max then max[i] + 1 else old(NextSeq(seqs, i));
        LargestResumes(max, rows, i, old(NextSeq(seqs, i)));
      }
    }

    /** `next_seq`: the counter before it is bumped; it exceeds every live number of the inode. */
    method Draw(i: Ino) returns (num: nat)
      requires Valid()
      modifies `seqs
      ensures Valid()
      ensures num == old(NextSeq(seqs, i)) && Below(DeltasIn(rows, i), num)
      ensures forall j: Ino :: NextSeq(seqs, j) == if j == i then num + 1 else old(NextSeq(seqs, j))
    {
      hide DeltasIn;
      num := if i in seqs then seqs[i] else 0;
      assert Below(DeltasIn(rows, i), num);
      seqs := seqs[i := num + 1];
      assert forall j: Ino :: Below(DeltasIn(rows, j), old(NextSeq(seqs, j)));
    }

    /** `append_deltas`: number the operations and write their rows. */
    method Append(i: Ino, ops: seq<DeltaOp>) returns (nums: seq<nat>)
      requires Valid() && NextSeq(seqs, i) + |ops| <= TWO64
      modifies this
      ensures Valid()
      ensures DeltasIn(rows, i) == old(DeltasIn(rows, i)) + Numbered(old(NextSeq(seqs, i)), ops)
      ensures NextSeq(seqs, i) == old(NextSeq(seqs, i)) + |ops|
      ensures forall j: Ino :: j != i ==>
              DeltasIn(rows, j) == old(DeltasIn(rows, j)) && NextSeq(seqs, j) == old(NextSeq(seqs, j))
      ensures |nums| == |ops| && forall l :: 0 <= l < |ops| ==> nums[l] == old(NextSeq(seqs, i)) + l
    {
      hide DeltasIn, DeltaKey, DeltaBytes, Sorted, WellFormed, NextSeq;
      nums := [];
      ghost var first := NextSeq(seqs, i);
      var l := 0;
      while l < |ops|
        invariant 0 <= l <= |ops| && |nums| == l
        invariant Valid()
        invariant NextSeq(seqs, i) == first + l
        invariant DeltasIn(rows, i) == old(DeltasIn(rows, i)) + Numbered(first, ops[..l])
        invariant forall j: Ino :: j != i ==>
                  DeltasIn(rows, j) == old(DeltasIn(rows, j)) && NextSeq(seqs, j) == old(NextSeq(seqs, j))
        invariant forall m :: 0 <= m < l ==> nums[m] == first + m
      {
        var num := Draw(i);
        PutAppends(rows, i, num, ops[l]);
        rows := Put(rows, DeltaKey(i, num), DeltaBytes(ops[l]));
        nums := nums + [num];
        assert Numbered(first, ops[..l + 1]) == Numbered(first, ops[..l]) + [Delta(num, ops[l])];
        l := l + 1;
      }
      assert ops[..l] == ops;
    }

    /** `scan_deltas_with_keys`, decoded: the inode's deltas in ascending order. */
    method Scan(i: Ino) returns (found: seq<Row>)
      requires Valid()
      ensures found == Under(rows, Prefix(i)) && Decoded(found) == DeltasIn(rows, i) && Ascending(DeltasIn(rows, i))
    {
      found := ScanPrefix(rows, Prefix(i));
      DeltasAscend(rows, i);
    }

    /** `clear_deltas`: delete every row of the inode and reset its counter. */
    method Clear(i: Ino)
      requires Valid()
      modifies this
      ensures Valid()
      ensures DeltasIn(rows, i) == [] && NextSeq(seqs, i) == 0
      ensures forall j: Ino :: j != i ==>
              DeltasIn(rows, j) == old(DeltasIn(rows, j)) && NextSeq(seqs, j) == old(NextSeq(seqs, j))
    {
      hide DeltasIn, DecodeDeltaKey, ParseDelta, DeltaKey, Sorted, Under, Delete, Prefix;
      var found := ScanPrefix(rows, Prefix(i));
      var l := 0;
      while l < |found|
        invariant 0 <= l <= |found| && seqs == old(seqs)
        invariant Sorted(rows)
        invariant forall row :: row in rows ==> row in old(rows)
        invariant forall row :: row in rows ==> row !in found[..l]
        invariant forall j: Ino :: j != i ==> DeltasIn(rows, j) == old(DeltasIn(rows, j))
      {
        ScannedRow(old(rows), i, found, l);
        DeleteOne(rows, old(rows), i, found[l]);
        rows := Delete(rows, found[l].key);
        l := l + 1;
      }
      assert found[..l] == found;
      ClearedRows(old(rows), rows, i);
      if i in seqs {
        seqs := seqs[i := 0];
      }
      NoneBelow(0);
      assert forall j: Ino :: Below(old(DeltasIn(rows, j)), old(NextSeq(seqs, j)));
    }
  }

  lemma NothingStored()
    ensures forall i: Ino :: Numbers([], i) == {}
  {
  }

  lemma ScannedRow(rows: seq<Row>, i: Ino, found: seq<Row>, l: nat)
    requires WellFormed(rows) && found == Under(rows, Prefix(i)) && l < |found|
    ensures found[l] in rows && WellFormedRow(found[l])
    ensures DecodeDeltaKey(found[l].key).value.0 == i
  {
    hide DecodeDeltaKey, ParseDelta, DeltaKey, Under, Prefix;
    UnderRows(rows, Prefix(i), found[l]);
    DeltasInOne(found[l], i);
    var (j, num) := DecodeDeltaKey(found[l].key).value;
    DeltaPrefixOf(i, j, num);
  }

  lemma DeleteOne(rows: seq<Row>, stored: seq<Row>, i: Ino, row: Row)
    requires Sorted(rows) && WellFormed(stored) && (forall r :: r in rows ==> r in stored)
    requires WellFormedRow(row) && DecodeDeltaKey(row.key).value.0 == i
    ensures Sorted(Delete(rows, row.key))
    ensures forall r :: r in Delete(rows, row.key) <==> r in rows && r.key != row.key
    ensures forall j: Ino :: j != i ==> DeltasIn(Delete(rows, row.key), j) == DeltasIn(rows, j)
  {
    hide DecodeDeltaKey, ParseDelta, DeltaKey, Delete, DeltasIn, Sorted;
    DeleteSorted(rows, row.key);
    forall r ensures r in Delete(rows, row.key) <==> r in rows && r.key != row.key {
      DeleteRows(rows, row.key, r);
    }
    assert WellFormed(rows) by {
      forall j | 0 <= j < |rows| ensures WellFormedRow(rows[j]) {
        assert rows[j] in stored;
      }
    }
    var (_, num) := DecodeDeltaKey(row.key).value;
    DeltasInOne(row, i);
    forall j: Ino | j != i ensures DeltasIn(Delete(rows, row.key), j) == DeltasIn(rows, j) {
      DeleteElsewhere(rows, i, num, j);
    }
  }

  /** Rows without the scanned ones are still well formed and hold nothing of the inode. */
  lemma ClearedRows(stored: seq<Row>, rows: seq<Row>, i: Ino)
    requires WellFormed(stored) && (forall row :: row in rows ==> row in stored)
    requires forall row :: row in rows ==> row !in Under(stored, Prefix(i))
    ensures WellFormed(rows) && DeltasIn(rows, i) == []
  {
    hide DecodeDeltaKey, ParseDelta, DeltaKey, Under, Prefix, DeltasIn;
    forall j | 0 <= j < |rows| ensures WellFormedRow(rows[j]) && DecodeDeltaKey(rows[j].key).value.0 != i {
      assert rows[j] in stored;
      UnderRows(stored, Prefix(i), rows[j]);
      DeltasInOne(rows[j], i);
      var (l, num) := DecodeDeltaKey(rows[j].key).value;
      DeltaPrefixOf(i, l, num);
    }
    NothingIn(rows, i);
  }
}
