/**
 A column family as a sorted sequence of rows, and the scans of storage/src/rocks.rs over it: seek
 to a prefix, read on, stop at the first key without it. The directory rows represent the typed map
 of entries on which the server model works.
 */
module SortedStore {
  import opened Types
  import opened Wrappers
  import opened Codec
  import opened Server

  datatype Row = Row(key: Bytes, value: Bytes)

  predicate Sorted(rows: seq<Row>) {
    forall j, l :: 0 <= j < l < |rows| ==> Less(rows[j].key, rows[l].key)
  }

  // ------------------------------------------------------------------ rows in order

  /** The number of rows below the key. */
  function Position(rows: seq<Row>, key: Bytes): (p: nat)
    ensures p <= |rows|
  {
    if rows == [] then 0
    else if Less(rows[|rows| - 1].key, key) then |rows|
    else Position(rows[..|rows| - 1], key)
  }

  lemma {:induction false} PositionSplits(rows: seq<Row>, key: Bytes)
    requires Sorted(rows)
    ensures var p := Position(rows, key);
            && (forall j :: 0 <= j < p ==> Less(rows[j].key, key))
            && (forall j :: p <= j < |rows| ==> !Less(rows[j].key, key))
  {
    if rows != [] {
      var last := rows[|rows| - 1];
      if Less(last.key, key) {
        forall j | 0 <= j < |rows| - 1 ensures Less(rows[j].key, key) {
          LessTransitive(rows[j].key, last.key, key);
        }
      } else {
        PositionSplits(rows[..|rows| - 1], key);
      }
    }
  }

  /** Put or replace a row, and delete one; the order is kept. */
  function Put(rows: seq<Row>, key: Bytes, value: Bytes): seq<Row> {
    var p := Position(rows, key);
    rows[..p] + [Row(key, value)] + (if p < |rows| && rows[p].key == key then rows[p + 1..] else rows[p..])
  }

  function Delete(rows: seq<Row>, key: Bytes): seq<Row> {
    var p := Position(rows, key);
    if p < |rows| && rows[p].key == key then rows[..p] + rows[p + 1..] else rows
  }

  /** From its position on, every other row is above the key. */
  lemma AboveKey(rows: seq<Row>, key: Bytes, j: nat)
    requires Sorted(rows) && Position(rows, key) <= j < |rows|
    ensures rows[j].key == key || Less(key, rows[j].key)
    ensures rows[j].key == key ==> j == Position(rows, key)
  {
    PositionSplits(rows, key);
    LessTotal(rows[j].key, key);
    var p := Position(rows, key);
    LessTotal(rows[p].key, key);
    assert p < j ==> Less(rows[p].key, rows[j].key);
  }

  lemma PutSorted(rows: seq<Row>, key: Bytes, value: Bytes)
    requires Sorted(rows)
    ensures Sorted(Put(rows, key, value))
  {
    hide Less, Position;
    PositionSplits(rows, key);
    var p := Position(rows, key);
    var rest := if p < |rows| && rows[p].key == key then rows[p + 1..] else rows[p..];
    forall j | 0 <= j < |rest| ensures Less(key, rest[j].key) {
      AboveKey(rows, key, |rows| - |rest| + j);
    }
    forall j, l | 0 <= j < p && 0 <= l < |rest| ensures Less(rows[j].key, rest[l].key) {
      LessTransitive(rows[j].key, key, rest[l].key);
    }
  }

  lemma PutRows(rows: seq<Row>, key: Bytes, value: Bytes, row: Row)
    requires Sorted(rows)
    ensures row in Put(rows, key, value) <==> row == Row(key, value) || (row in rows && row.key != key)
  {
    hide Less, Position;
    PositionSplits(rows, key);
    var p := Position(rows, key);
    LessTotal(key, key);
    if row in rows && row.key != key {
      var j :| 0 <= j < |rows| && rows[j] == row;
      if p < |rows| && rows[p].key == key {
        assert j < p ==> row in rows[..p];
        assert j > p ==> rows[p + 1..][j - p - 1] == row;
      } else {
        assert j < p ==> row in rows[..p];
        assert j >= p ==> rows[p..][j - p] == row;
      }
    }
    forall j | p <= j < |rows| && rows[j].key == key ensures j == p {
      AboveKey(rows, key, j);
    }
  }

  lemma DeleteSorted(rows: seq<Row>, key: Bytes)
    requires Sorted(rows)
    ensures Sorted(Delete(rows, key))
  {
  }

  lemma DeleteRows(rows: seq<Row>, key: Bytes, row: Row)
    requires Sorted(rows)
    ensures row in Delete(rows, key) <==> row in rows && row.key != key
  {
    PositionSplits(rows, key);
    var p := Position(rows, key);
    LessTotal(key, key);
    if row in rows && row.key != key {
      var j :| 0 <= j < |rows| && rows[j] == row;
      if p < |rows| && rows[p].key == key {
        assert j < p ==> row in rows[..p];
        assert j > p ==> rows[p + 1..][j - p - 1] == row;
      }
    }
    forall j | p <= j < |rows| && rows[j].key == key ensures j == p {
      AboveKey(rows, key, j);
    }
  }

  // ------------------------------------------------------------------ prefix scans

  /** The rows whose key starts with the prefix, in key order. */
  function Under(rows: seq<Row>, prefix: Bytes): seq<Row> {
    if rows == [] then []
    else
      var last := rows[|rows| - 1];
      if prefix <= last.key then Under(rows[..|rows| - 1], prefix) + [last] else Under(rows[..|rows| - 1], prefix)
  }

  lemma {:induction false} UnderNone(rows: seq<Row>, prefix: Bytes)
    requires forall j :: 0 <= j < |rows| ==> !(prefix <= rows[j].key)
    ensures Under(rows, prefix) == []
  {
    if rows != [] {
      UnderNone(rows[..|rows| - 1], prefix);
    }
  }

  lemma {:induction false} UnderConcat(x: seq<Row>, y: seq<Row>, prefix: Bytes)
    ensures Under(x + y, prefix) == Under(x, prefix) + Under(y, prefix)
    decreases |y|
  {
    if y == [] {
      assert x + y == x;
    } else {
      assert (x + y)[..|x + y| - 1] == x + y[..|y| - 1];
      UnderConcat(x, y[..|y| - 1], prefix);
    }
  }

  lemma {:induction false} UnderRows(rows: seq<Row>, prefix: Bytes, row: Row)
    ensures row in Under(rows, prefix) <==> row in rows && prefix <= row.key
  {
    if rows != [] {
      UnderRows(rows[..|rows| - 1], prefix, row);
      assert rows == rows[..|rows| - 1] + [rows[|rows| - 1]];
    }
  }

  lemma {:induction false} UnderSorted(rows: seq<Row>, prefix: Bytes)
    requires Sorted(rows)
    ensures Sorted(Under(rows, prefix))
  {
    if rows != [] {
      var front, last := rows[..|rows| - 1], rows[|rows| - 1];
      UnderSorted(front, prefix);
      forall j | 0 <= j < |Under(front, prefix)| ensures Less(Under(front, prefix)[j].key, last.key) {
        UnderRows(front, prefix, Under(front, prefix)[j]);
        var l :| 0 <= l < |front| && front[l] == Under(front, prefix)[j];
        assert rows[l] == front[l];
      }
    }
  }

  /** A key with the prefix is not below it. */
  lemma PrefixNotBelow(prefix: Bytes, key: Bytes)
    requires prefix <= key
    ensures !Less(key, prefix)
  {
    assert key == prefix + key[|prefix|..] && prefix + [] == prefix;
    LessConcat(prefix, key[|prefix|..], prefix, []);
    LessTotal(prefix, prefix);
  }

  lemma PrefixStep(prefix: Bytes, key: Bytes)
    requires prefix != []
    ensures prefix <= key <==> key != [] && prefix[0] == key[0] && prefix[1..] <= key[1..]
  {
    if key != [] && prefix[0] == key[0] && prefix[1..] <= key[1..] {
      assert forall j :: 1 <= j < |prefix| ==> prefix[j] == prefix[1..][j - 1] == key[1..][j - 1] == key[j];
    }
  }

  /** Keys with one prefix are contiguous: past the prefix and without it, all further keys are without it. */
  lemma {:induction false} PrefixEnds(prefix: Bytes, key: Bytes, later: Bytes)
    requires !Less(key, prefix) && !(prefix <= key) && Less(key, later)
    ensures !(prefix <= later)
    decreases |prefix|
  {
    PrefixStep(prefix, key);
    PrefixStep(prefix, later);
    if prefix[0] == key[0] == later[0] {
      PrefixEnds(prefix[1..], key[1..], later[1..]);
    }
  }

  /** Position the iterator at the first key that is not below the target. */
  method Seek(rows: seq<Row>, target: Bytes) returns (lo: nat)
    requires Sorted(rows)
    ensures lo == Position(rows, target)
  {
    PositionSplits(rows, target);
    lo := 0;
    while lo < |rows| && Less(rows[lo].key, target)
      invariant lo <= Position(rows, target)
    {
      lo := lo + 1;
    }
  }

  lemma ScanStarts(rows: seq<Row>, prefix: Bytes)
    requires Sorted(rows)
    ensures Under(rows[..Position(rows, prefix)], prefix) == []
  {
    hide Less, Position, Under;
    var p := Position(rows, prefix);
    PositionSplits(rows, prefix);
    forall j | 0 <= j < p ensures !(prefix <= rows[j].key) {
      if prefix <= rows[j].key {
        PrefixNotBelow(prefix, rows[j].key);
        assert false;
      }
    }
    UnderNone(rows[..p], prefix);
  }

  lemma ScanEnds(rows: seq<Row>, prefix: Bytes, j: nat)
    requires Sorted(rows) && Position(rows, prefix) <= j < |rows| && !(prefix <= rows[j].key)
    ensures Under(rows[..j], prefix) == Under(rows, prefix)
  {
    hide Less, Position, Under;
    PositionSplits(rows, prefix);
    forall l | j <= l < |rows| ensures !(prefix <= rows[l].key) {
      if j < l {
        PrefixEnds(prefix, rows[j].key, rows[l].key);
      }
    }
    UnderNone(rows[j..], prefix);
    UnderConcat(rows[..j], rows[j..], prefix);
    assert rows[..j] + rows[j..] == rows;
  }

  /** `scan_deltas_with_keys`, `scan_deltas`, `scan_delta_keys`: exactly the rows of one inode, in key order. */
  method ScanPrefix(rows: seq<Row>, prefix: Bytes) returns (found: seq<Row>)
    requires Sorted(rows)
    ensures found == Under(rows, prefix)
  {
    found := [];
    var j := Seek(rows, prefix);
    ScanStarts(rows, prefix);
    while j < |rows|
      invariant Position(rows, prefix) <= j <= |rows|
      invariant found == Under(rows[..j], prefix)
    {
      if !(prefix <= rows[j].key) {
        ScanEnds(rows, prefix, j);
        break;
      }
      assert rows[..j + 1][..j] == rows[..j];
      found := found + [rows[j]];
      j := j + 1;
    }
    if j == |rows| {
      assert rows[..j] == rows;
    }
  }

  /** `is_dir_empty`: one step of the iterator is enough. */
  method IsDirEmpty(rows: seq<Row>, i: Ino) returns (empty: bool)
    requires Sorted(rows)
    ensures empty <==> Under(rows, Tagged(ENTRY_TAG, i)) == []
  {
    hide Tagged;
    var prefix := Tagged(ENTRY_TAG, i);
    var j := Seek(rows, prefix);
    ScanStarts(rows, prefix);
    if j == |rows| {
      assert rows[..j] == rows;
      return true;
    }
    empty := !(prefix <= rows[j].key);
    if empty {
      ScanEnds(rows, prefix, j);
    } else {
      UnderRows(rows, prefix, rows[j]);
    }
  }

  // ------------------------------------------------------------------ directory listings

  datatype DirItem = DirItem(name: Name, entry: Entry)

  /** Decode rows one by one; the first bad one fails the listing. */
  function Listing(found: seq<Row>): Result<seq<DirItem>, FsError> {
    if found == [] then Success([])
    else
      var front, last := Listing(found[..|found| - 1]), found[|found| - 1];
      if front.Failure? then front
      else if ChildName(last.key).Failure? then Failure(ChildName(last.key).error)
      else if ParseEntry(last.value).Failure? then Failure(ParseEntry(last.value).error)
      else Success(front.value + [DirItem(ChildName(last.key).value, ParseEntry(last.value).value)])
  }

  lemma {:induction false} ListingStops(found: seq<Row>, j: nat)
    requires j <= |found| && Listing(found[..j]).Failure?
    ensures Listing(found) == Listing(found[..j])
  {
    if j < |found| {
      assert found[..|found| - 1][..j] == found[..j];
      ListingStops(found[..|found| - 1], j);
    } else {
      assert found[..j] == found;
    }
  }

  /** `list_dir`. */
  method ListDir(rows: seq<Row>, i: Ino) returns (r: Result<seq<DirItem>, FsError>)
    requires Sorted(rows)
    ensures r == Listing(Under(rows, Tagged(ENTRY_TAG, i)))
  {
    hide Tagged, ChildName, ParseEntry;
    var prefix := Tagged(ENTRY_TAG, i);
    var found := ScanPrefix(rows, prefix);
    var items: seq<DirItem> := [];
    var j := 0;
    while j < |found|
      invariant 0 <= j <= |found|
      invariant Listing(found[..j]) == Success(items)
    {
      assert found[..j + 1][..j] == found[..j];
      var name, entry := ChildName(found[j].key), ParseEntry(found[j].value);
      if name.Failure? || entry.Failure? {
        ListingStops(found, j + 1);
        return Failure(if name.Failure? then name.error else entry.error);
      }
      items := items + [DirItem(name.value, entry.value)];
      j := j + 1;
    }
    assert found[..j] == found;
    r := Success(items);
  }

  // ------------------------------------------------------------------ the typed map of entries

  function EntryRow(k: DirKey, e: Entry): Row {
    Row(EntryKey(k), EntryBytes(e))
  }

  /** The rows are the encodings of the entries, all of them and nothing else. */
  ghost predicate Represents(rows: seq<Row>, entries: map<DirKey, Entry>) {
    && Sorted(rows)
    && (forall k :: k in entries ==> EntryRow(k, entries[k]) in rows)
    && (forall row :: row in rows ==> exists k :: k in entries && row == EntryRow(k, entries[k]))
  }

  lemma RepresentsPut(rows: seq<Row>, entries: map<DirKey, Entry>, k: DirKey, e: Entry)
    requires Represents(rows, entries)
    ensures Represents(Put(rows, EntryKey(k), EntryBytes(e)), entries[k := e])
  {
    hide EntryKey, EntryBytes, Sorted, Put;
    var rows', entries' := Put(rows, EntryKey(k), EntryBytes(e)), entries[k := e];
    PutSorted(rows, EntryKey(k), EntryBytes(e));
    forall l | l in entries' ensures EntryRow(l, entries'[l]) in rows' {
      EntryKeyOrder(k, l);
      PutRows(rows, EntryKey(k), EntryBytes(e), EntryRow(l, entries'[l]));
    }
    forall row | row in rows' ensures exists l :: l in entries' && row == EntryRow(l, entries'[l]) {
      PutRows(rows, EntryKey(k), EntryBytes(e), row);
      if row != EntryRow(k, e) {
        var l :| l in entries && row == EntryRow(l, entries[l]);
        assert l in entries' && row == EntryRow(l, entries'[l]);
      } else {
        assert k in entries' && row == EntryRow(k, entries'[k]);
      }
    }
  }

  lemma RepresentsDelete(rows: seq<Row>, entries: map<DirKey, Entry>, k: DirKey)
    requires Represents(rows, entries)
    ensures Represents(Delete(rows, EntryKey(k)), entries - {k})
  {
    hide EntryKey, EntryBytes, Sorted, Delete;
    var rows', entries' := Delete(rows, EntryKey(k)), entries - {k};
    DeleteSorted(rows, EntryKey(k));
    forall l | l in entries' ensures EntryRow(l, entries'[l]) in rows' {
      EntryKeyOrder(k, l);
      DeleteRows(rows, EntryKey(k), EntryRow(l, entries'[l]));
    }
    forall row | row in rows' ensures exists l :: l in entries' && row == EntryRow(l, entries'[l]) {
      DeleteRows(rows, EntryKey(k), row);
      var l :| l in entries && row == EntryRow(l, entries[l]);
      assert l in entries' && row == EntryRow(l, entries'[l]);
    }
  }

  /** The byte test for an empty directory is the typed one. */
  lemma EmptyScanIsEmptyDir(rows: seq<Row>, entries: map<DirKey, Entry>, i: Ino)
    requires Represents(rows, entries)
    ensures Under(rows, Tagged(ENTRY_TAG, i)) == [] <==> DirEmpty(entries, i)
  {
    hide Tagged, EntryKey, EntryBytes, Sorted, Under;
    var found := Under(rows, Tagged(ENTRY_TAG, i));
    if found == [] {
      forall k | k in entries ensures k.parent != i {
        EntryPrefix(i, k);
        UnderRows(rows, Tagged(ENTRY_TAG, i), EntryRow(k, entries[k]));
      }
    } else {
      UnderRows(rows, Tagged(ENTRY_TAG, i), found[0]);
      var k :| k in entries && found[0] == EntryRow(k, entries[k]);
      EntryPrefix(i, k);
    }
  }

  /** The name and entry that a representing row stands for. */
  lemma {:induction false} ListingOfRows(found: seq<Row>, entries: map<DirKey, Entry>, i: Ino)
    requires forall row :: row in found ==> exists k :: k in entries && k.parent == i && row == EntryRow(k, entries[k])
    ensures Listing(found).Success? && |Listing(found).value| == |found|
    ensures forall j :: 0 <= j < |found| ==>
              var item := Listing(found).value[j];
              var k := DirKey(i, item.name);
              k in entries && item.entry == entries[k] && found[j] == EntryRow(k, entries[k])
  {
    hide EntryKey, EntryBytes, ChildName, ParseEntry;
    if found != [] {
      var front, last := found[..|found| - 1], found[|found| - 1];
      assert forall row :: row in front ==> row in found;
      ListingOfRows(front, entries, i);
      assert last in found;
      var k :| k in entries && k.parent == i && last == EntryRow(k, entries[k]);
      ChildNameRoundTrip(k);
      EntryRoundTrip(entries[k]);
      assert DirKey(i, k.name) == k;
    }
  }

  /** A listing holds exactly the entries of the directory, by ascending name. */
  lemma ListDirIsExact(rows: seq<Row>, entries: map<DirKey, Entry>, i: Ino)
    requires Represents(rows, entries)
    ensures var r := Listing(Under(rows, Tagged(ENTRY_TAG, i)));
            && r.Success?
            && (forall name: Name, e: Entry :: DirItem(name, e) in r.value <==>
                 DirKey(i, name) in entries && entries[DirKey(i, name)] == e)
            && (forall j, l :: 0 <= j < l < |r.value| ==> Less(r.value[j].name, r.value[l].name))
  {
    hide Tagged, EntryKey, EntryBytes, Under, Listing;
    var prefix := Tagged(ENTRY_TAG, i);
    var found := Under(rows, prefix);
    forall row | row in found ensures exists k :: k in entries && k.parent == i && row == EntryRow(k, entries[k]) {
      UnderRows(rows, prefix, row);
      var k :| k in entries && row == EntryRow(k, entries[k]);
      EntryPrefix(i, k);
    }
    ListingOfRows(found, entries, i);
    var items := Listing(found).value;
    forall name: Name, e: Entry | DirKey(i, name) in entries && entries[DirKey(i, name)] == e
      ensures DirItem(name, e) in items
    {
      ListedEntry(rows, entries, found, items, DirKey(i, name));
    }
    UnderSorted(rows, prefix);
    forall j, l | 0 <= j < l < |items| ensures Less(items[j].name, items[l].name) {
      assert Less(found[j].key, found[l].key);
      EntryKeyOrder(DirKey(i, items[j].name), DirKey(i, items[l].name));
    }
  }

  lemma ListedEntry(rows: seq<Row>, entries: map<DirKey, Entry>, found: seq<Row>, items: seq<DirItem>, k: DirKey)
    requires Represents(rows, entries) && k in entries && found == Under(rows, Tagged(ENTRY_TAG, k.parent))
    requires |items| == |found|
    requires forall j :: 0 <= j < |found| ==>
               var l := DirKey(k.parent, items[j].name);
               l in entries && items[j].entry == entries[l] && found[j] == EntryRow(l, entries[l])
    ensures DirItem(k.name, entries[k]) in items
  {
    hide Tagged, EntryKey, EntryBytes, Under, Sorted;
    EntryPrefix(k.parent, k);
    UnderRows(rows, Tagged(ENTRY_TAG, k.parent), EntryRow(k, entries[k]));
    var j :| 0 <= j < |found| && found[j] == EntryRow(k, entries[k]);
    EntryKeyOrder(DirKey(k.parent, items[j].name), k);
    assert items[j] == DirItem(k.name, entries[k]);
  }
}
