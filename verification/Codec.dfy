/**
 Keys and values as bytes (storage/src/encoding.rs, server/src/delta.rs, storage/src/rocks.rs):
 big-endian integers, row keys, and the encodings of inodes, directory entries and deltas.
 */
module Codec {
  import opened Types
  import opened Wrappers

  // ------------------------------------------------------------------ big-endian integers

  function Pow256(width: nat): (p: nat)
    ensures p > 0
  {
    if width == 0 then 1 else 256 * Pow256(width - 1)
  }

  lemma WordSizes()
    ensures Pow256(4) == TWO32 && Pow256(8) == TWO64
  {
    assert Pow256(4) == 256 * 256 * 256 * 256 * Pow256(0);
    assert Pow256(8) == 256 * 256 * 256 * 256 * Pow256(4);
  }

  /** `to_be_bytes` of a word of the given width. */
  function BigEndian(n: nat, width: nat): (bs: Bytes)
    ensures |bs| == width
    decreases width
  {
    if width == 0 then [] else BigEndian(n / 256, width - 1) + [n % 256]
  }

  /** `from_be_bytes`. */
  function FromBigEndian(bs: Bytes): (n: nat)
    ensures n < Pow256(|bs|)
  {
    if bs == [] then 0 else 256 * FromBigEndian(bs[..|bs| - 1]) + bs[|bs| - 1]
  }

  lemma {:induction false} DecodeEncodeWord(n: nat, width: nat)
    requires n < Pow256(width)
    ensures FromBigEndian(BigEndian(n, width)) == n
    decreases width
  {
    if width > 0 {
      DecodeEncodeWord(n / 256, width - 1);
      assert BigEndian(n, width)[..width - 1] == BigEndian(n / 256, width - 1);
    }
  }

  lemma {:induction false} EncodeDecodeWord(bs: Bytes)
    ensures BigEndian(FromBigEndian(bs), |bs|) == bs
  {
    if bs != [] {
      EncodeDecodeWord(bs[..|bs| - 1]);
    }
  }

  lemma Word64(n: u64)
    ensures FromBigEndian(BigEndian(n, 8)) == n
  {
    WordSizes();
    DecodeEncodeWord(n, 8);
  }

  lemma Word32(n: u32)
    ensures FromBigEndian(BigEndian(n, 4)) == n
  {
    WordSizes();
    DecodeEncodeWord(n, 4);
  }

  function U64(bs: Bytes): u64
    requires |bs| == 8
  {
    WordSizes();
    FromBigEndian(bs)
  }

  function U32(bs: Bytes): u32
    requires |bs| == 4
  {
    WordSizes();
    FromBigEndian(bs)
  }

  // ------------------------------------------------------------------ byte order

  /** The order in which the store keeps its keys. */
  predicate Less(a: Bytes, b: Bytes) {
    b != [] && (a == [] || a[0] < b[0] || (a[0] == b[0] && Less(a[1..], b[1..])))
  }

  lemma {:induction false} LessTransitive(a: Bytes, b: Bytes, c: Bytes)
    requires Less(a, b) && Less(b, c)
    ensures Less(a, c)
    decreases |a|
  {
    if a != [] && a[0] == b[0] == c[0] {
      LessTransitive(a[1..], b[1..], c[1..]);
    }
  }

  lemma {:induction false} LessTotal(a: Bytes, b: Bytes)
    ensures a == b || Less(a, b) || Less(b, a)
    ensures !(Less(a, b) && Less(b, a)) && (a == b ==> !Less(a, b))
    decreases |a|
  {
    if a != [] && b != [] && a[0] == b[0] {
      LessTotal(a[1..], b[1..]);
      assert a == [a[0]] + a[1..] && b == [b[0]] + b[1..];
    }
  }

  /** Parts of equal width are compared one after the other. */
  lemma {:induction false} LessConcat(x: Bytes, a: Bytes, y: Bytes, b: Bytes)
    requires |x| == |y|
    ensures Less(x + a, y + b) <==> Less(x, y) || (x == y && Less(a, b))
    decreases |x|
  {
    if x == [] {
      assert x + a == a && y + b == b;
    } else {
      assert (x + a)[1..] == x[1..] + a && (y + b)[1..] == y[1..] + b;
      LessConcat(x[1..], a, y[1..], b);
      assert x == [x[0]] + x[1..] && y == [y[0]] + y[1..];
    }
  }

  lemma LessOne(c: byte, d: byte)
    ensures Less([c], [d]) <==> c < d
  {
    assert [d][1..] == [];
  }

  /** Big-endian words sort as the numbers they encode. */
  lemma {:induction false} WordOrder(m: nat, n: nat, width: nat)
    requires m < Pow256(width) && n < Pow256(width)
    ensures Less(BigEndian(m, width), BigEndian(n, width)) <==> m < n
    ensures BigEndian(m, width) == BigEndian(n, width) <==> m == n
    decreases width
  {
    DecodeEncodeWord(m, width);
    DecodeEncodeWord(n, width);
    if width > 0 {
      WordOrder(m / 256, n / 256, width - 1);
      LessConcat(BigEndian(m / 256, width - 1), [m % 256], BigEndian(n / 256, width - 1), [n % 256]);
      LessOne(m % 256, n % 256);
    }
  }

  lemma WordOrder64(m: u64, n: u64)
    ensures Less(BigEndian(m, 8), BigEndian(n, 8)) <==> m < n
    ensures BigEndian(m, 8) == BigEndian(n, 8) <==> m == n
  {
    WordSizes();
    WordOrder(m, n, 8);
  }

  // ------------------------------------------------------------------ keys

  const INODE_TAG: byte := 73
  const ENTRY_TAG: byte := 68
  const DELTA_TAG: byte := 88
  const LOCATION_TAG: byte := 76
  const SYMLINK_TAG: byte := 83

  /** A tag byte and an inode number: all of a key, or the prefix under which rows of one inode are scanned. */
  function Tagged(tag: byte, i: Ino): (key: Bytes)
    ensures |key| == 9
  {
    [tag] + BigEndian(i, 8)
  }

  function InodeKey(i: Ino): Bytes { Tagged(INODE_TAG, i) }

  function LocationKey(i: Ino): Bytes { Tagged(LOCATION_TAG, i) }

  function SymlinkKey(i: Ino): Bytes { Tagged(SYMLINK_TAG, i) }

  function EntryKey(k: DirKey): Bytes { Tagged(ENTRY_TAG, k.parent) + k.name }

  function DeltaKey(i: Ino, num: u64): (key: Bytes)
    ensures |key| == 17
  {
    Tagged(DELTA_TAG, i) + BigEndian(num, 8)
  }

  function ChildName(key: Bytes): Result<Name, FsError> {
    if |key| < 9 || key[0] != ENTRY_TAG then Failure(InvalidInput) else Success(key[9..])
  }

  function DecodeDeltaKey(key: Bytes): Result<(Ino, u64), FsError> {
    if |key| < 17 || key[0] != DELTA_TAG then Failure(InvalidInput)
    else Success((U64(key[1..9]), U64(key[9..17])))
  }

  lemma TaggedOrder(c: byte, i: Ino, d: byte, j: Ino)
    ensures Less(Tagged(c, i), Tagged(d, j)) <==> c < d || (c == d && i < j)
    ensures Tagged(c, i) == Tagged(d, j) <==> c == d && i == j
  {
    hide BigEndian;
    LessConcat([c], BigEndian(i, 8), [d], BigEndian(j, 8));
    LessOne(c, d);
    WordOrder64(i, j);
    assert Tagged(c, i)[0] == c && Tagged(d, j)[0] == d;
    assert Tagged(c, i)[1..] == BigEndian(i, 8) && Tagged(d, j)[1..] == BigEndian(j, 8);
  }

  /** Rows of the inode column family never collide: neither across inodes nor across kinds. */
  lemma InodeFamilyKeysDistinct(i: Ino, j: Ino)
    ensures InodeKey(i) == InodeKey(j) <==> i == j
    ensures LocationKey(i) == LocationKey(j) <==> i == j
    ensures SymlinkKey(i) == SymlinkKey(j) <==> i == j
    ensures InodeKey(i) != LocationKey(j) && InodeKey(i) != SymlinkKey(j) && LocationKey(i) != SymlinkKey(j)
  {
    TaggedOrder(INODE_TAG, i, INODE_TAG, j);
    TaggedOrder(LOCATION_TAG, i, LOCATION_TAG, j);
    TaggedOrder(SYMLINK_TAG, i, SYMLINK_TAG, j);
    TaggedOrder(INODE_TAG, i, LOCATION_TAG, j);
    TaggedOrder(INODE_TAG, i, SYMLINK_TAG, j);
    TaggedOrder(LOCATION_TAG, i, SYMLINK_TAG, j);
  }

  /** Delta rows sort by inode and then by sequence number. */
  lemma DeltaKeyOrder(i: Ino, m: u64, j: Ino, n: u64)
    ensures Less(DeltaKey(i, m), DeltaKey(j, n)) <==> i < j || (i == j && m < n)
    ensures DeltaKey(i, m) == DeltaKey(j, n) <==> i == j && m == n
  {
    hide BigEndian, Tagged;
    LessConcat(Tagged(DELTA_TAG, i), BigEndian(m, 8), Tagged(DELTA_TAG, j), BigEndian(n, 8));
    TaggedOrder(DELTA_TAG, i, DELTA_TAG, j);
    WordOrder64(m, n);
    assert DeltaKey(i, m)[..9] == Tagged(DELTA_TAG, i) && DeltaKey(j, n)[..9] == Tagged(DELTA_TAG, j);
    assert DeltaKey(i, m)[9..] == BigEndian(m, 8) && DeltaKey(j, n)[9..] == BigEndian(n, 8);
  }

  /** Directory rows sort by parent and then by name. */
  lemma EntryKeyOrder(k: DirKey, l: DirKey)
    ensures Less(EntryKey(k), EntryKey(l)) <==> k.parent < l.parent || (k.parent == l.parent && Less(k.name, l.name))
    ensures EntryKey(k) == EntryKey(l) <==> k == l
  {
    hide Tagged;
    LessConcat(Tagged(ENTRY_TAG, k.parent), k.name, Tagged(ENTRY_TAG, l.parent), l.name);
    TaggedOrder(ENTRY_TAG, k.parent, ENTRY_TAG, l.parent);
    assert EntryKey(k)[..9] == Tagged(ENTRY_TAG, k.parent) && EntryKey(l)[..9] == Tagged(ENTRY_TAG, l.parent);
    assert EntryKey(k)[9..] == k.name && EntryKey(l)[9..] == l.name;
  }

  lemma ChildNameRoundTrip(k: DirKey)
    ensures ChildName(EntryKey(k)) == Success(k.name)
  {
  }

  lemma DeltaKeyRoundTrip(i: Ino, num: u64)
    ensures DecodeDeltaKey(DeltaKey(i, num)) == Success((i, num))
  {
    hide BigEndian, FromBigEndian;
    var key := DeltaKey(i, num);
    assert key[1..9] == BigEndian(i, 8) && key[9..17] == BigEndian(num, 8);
    Word64(i);
    Word64(num);
  }

  /** A key that decodes is the encoding of what it decodes to, up to trailing bytes. */
  lemma DecodedDeltaKey(key: Bytes)
    requires DecodeDeltaKey(key).Success?
    ensures var (i, num) := DecodeDeltaKey(key).value; key[..17] == DeltaKey(i, num)
  {
    hide BigEndian, FromBigEndian;
    EncodeDecodeWord(key[1..9]);
    EncodeDecodeWord(key[9..17]);
    assert key[..17] == [key[0]] + key[1..9] + key[9..17];
  }

  /** A row is found under an inode's prefix exactly when it belongs to that inode. */
  lemma DeltaPrefix(i: Ino, j: Ino, num: u64)
    ensures Tagged(DELTA_TAG, i) <= DeltaKey(j, num) <==> i == j
  {
    hide BigEndian, Tagged;
    TaggedOrder(DELTA_TAG, i, DELTA_TAG, j);
    assert DeltaKey(j, num)[..9] == Tagged(DELTA_TAG, j);
  }

  lemma EntryPrefix(i: Ino, k: DirKey)
    ensures Tagged(ENTRY_TAG, i) <= EntryKey(k) <==> i == k.parent
  {
    hide Tagged;
    TaggedOrder(ENTRY_TAG, i, ENTRY_TAG, k.parent);
    assert EntryKey(k)[..9] == Tagged(ENTRY_TAG, k.parent);
  }

  // ------------------------------------------------------------------ inode values

  const FORMAT_VERSION: byte := 1
  const INODE_SIZE := 57

  function InodeBytes(v: InodeValue): (bs: Bytes)
    ensures |bs| == INODE_SIZE
  {
    [v.version] + BigEndian(v.inode, 8) + BigEndian(v.size, 8) + BigEndian(v.mode, 4) + BigEndian(v.nlink, 4) +
    BigEndian(v.uid, 4) + BigEndian(v.gid, 4) + BigEndian(v.atime, 8) + BigEndian(v.mtime, 8) + BigEndian(v.ctime, 8)
  }

  function ParseInode(data: Bytes): Result<InodeValue, FsError> {
    if |data| < INODE_SIZE || data[0] != FORMAT_VERSION then Failure(InvalidInput)
    else
      Success(InodeValue(data[0], U64(data[1..9]), U64(data[9..17]), U32(data[17..21]), U32(data[21..25]),
                         U32(data[25..29]), U32(data[29..33]), U64(data[33..41]), U64(data[41..49]), U64(data[49..57])))
  }

  /** Writes one word into the buffer at `off`, as the serialiser does field by field. */
  method PutWord(buf: array<byte>, off: nat, n: nat, width: nat)
    requires off + width <= buf.Length
    modifies buf
    ensures buf[..off + width] == old(buf[..off]) + BigEndian(n, width)
    ensures buf[off + width..] == old(buf[off + width..])
  {
    var rest := n;
    var j := width;
    while j > 0
      invariant 0 <= j <= width
      invariant buf[off + j..off + width] == BigEndian(n, width)[j..]
      invariant BigEndian(rest, j) == BigEndian(n, width)[..j]
      invariant buf[..off] == old(buf[..off]) && buf[off + width..] == old(buf[off + width..])
    {
      assert BigEndian(rest, j) == BigEndian(rest / 256, j - 1) + [rest % 256];
      assert BigEndian(n, width)[..j][..j - 1] == BigEndian(n, width)[..j - 1];
      buf[off + j - 1] := rest % 256;
      assert BigEndian(n, width)[j - 1..] == [BigEndian(n, width)[j - 1]] + BigEndian(n, width)[j..];
      rest := rest / 256;
      j := j - 1;
    }
  }

  /** `InodeValue::serialize`: a fixed buffer filled at a moving offset. */
  method SerializeInode(v: InodeValue) returns (data: Bytes)
    ensures data == InodeBytes(v)
  {
    hide BigEndian;
    var buf := new byte[INODE_SIZE](_ => 0);
    buf[0] := v.version;
    assert buf[..1] == [v.version];
    PutWord(buf, 1, v.inode, 8);
    PutWord(buf, 9, v.size, 8);
    PutWord(buf, 17, v.mode, 4);
    PutWord(buf, 21, v.nlink, 4);
    PutWord(buf, 25, v.uid, 4);
    PutWord(buf, 29, v.gid, 4);
    PutWord(buf, 33, v.atime, 8);
    PutWord(buf, 41, v.mtime, 8);
    PutWord(buf, 49, v.ctime, 8);
    data := buf[..];
  }

  /** Where the fields of an encoded inode lie. */
  lemma InodeFields(v: InodeValue)
    ensures var d := InodeBytes(v);
            && d[0] == v.version && d[1..9] == BigEndian(v.inode, 8) && d[9..17] == BigEndian(v.size, 8)
            && d[17..21] == BigEndian(v.mode, 4) && d[21..25] == BigEndian(v.nlink, 4)
            && d[25..29] == BigEndian(v.uid, 4) && d[29..33] == BigEndian(v.gid, 4)
            && d[33..41] == BigEndian(v.atime, 8) && d[41..49] == BigEndian(v.mtime, 8) &&
                 d[49..57] == BigEndian(v.ctime, 8)
  {
    hide BigEndian;
  }

  /** Serialising and parsing gives the value back exactly when it carries the current version. */
  lemma InodeRoundTrip(v: InodeValue)
    ensures ParseInode(InodeBytes(v)) == Success(v) <==> v.version == FORMAT_VERSION
    ensures v.version != FORMAT_VERSION ==> ParseInode(InodeBytes(v)) == Failure(InvalidInput)
  {
    hide BigEndian, FromBigEndian, InodeBytes;
    InodeFields(v);
    Word64(v.inode);
    Word64(v.size);
    Word32(v.mode);
    Word32(v.nlink);
    Word32(v.uid);
    Word32(v.gid);
    Word64(v.atime);
    Word64(v.mtime);
    Word64(v.ctime);
  }

  /** What parses is the encoding of the result, followed by bytes that are ignored. */
  lemma ParsedInode(data: Bytes)
    requires ParseInode(data).Success?
    ensures data[..INODE_SIZE] == InodeBytes(ParseInode(data).value)
  {
    hide BigEndian, FromBigEndian;
    EncodeDecodeWord(data[1..9]);
    EncodeDecodeWord(data[9..17]);
    EncodeDecodeWord(data[17..21]);
    EncodeDecodeWord(data[21..25]);
    EncodeDecodeWord(data[25..29]);
    EncodeDecodeWord(data[29..33]);
    EncodeDecodeWord(data[33..41]);
    EncodeDecodeWord(data[41..49]);
    EncodeDecodeWord(data[49..57]);
    assert data[..INODE_SIZE] == [data[0]] + data[1..9] + data[9..17] + data[17..21] + data[21..25] +
                                 data[25..29] + data[29..33] + data[33..41] + data[41..49] + data[49..57];
  }

  // ------------------------------------------------------------------ directory values

  function EntryBytes(e: Entry): Bytes {
    BigEndian(e.ino, 8) + BigEndian(e.mode, 4)
  }

  function ParseEntry(data: Bytes): Result<Entry, FsError> {
    if |data| < 12 then Failure(InvalidInput) else Success(Entry(U64(data[0..8]), U32(data[8..12])))
  }

  lemma EntryRoundTrip(e: Entry)
    ensures ParseEntry(EntryBytes(e)) == Success(e)
  {
    hide BigEndian, FromBigEndian;
    var d := EntryBytes(e);
    assert d[0..8] == BigEndian(e.ino, 8) && d[8..12] == BigEndian(e.mode, 4);
    Word64(e.ino);
    Word32(e.mode);
  }

  lemma ParsedEntry(data: Bytes)
    requires ParseEntry(data).Success?
    ensures data[..12] == EntryBytes(ParseEntry(data).value)
  {
    hide BigEndian, FromBigEndian;
    EncodeDecodeWord(data[0..8]);
    EncodeDecodeWord(data[8..12]);
    assert data[..12] == data[0..8] + data[8..12];
  }

  // ------------------------------------------------------------------ deltas

  /** The two's complement of an `i32`. */
  function Unsigned(n: i32): u32 {
    if n < 0 then n + TWO32 else n
  }

  function Signed(n: u32): i32 {
    if n >= 0x8000_0000 then n - TWO32 else n
  }

  function DeltaBytes(d: DeltaOp): Bytes {
    match d
    case IncrementNlink(n) => [1] + BigEndian(Unsigned(n), 4)
    case SetMtime(t) => [2] + BigEndian(t, 8)
    case SetCtime(t) => [3] + BigEndian(t, 8)
    case SetAtime(t) => [4] + BigEndian(t, 8)
  }

  function ParseDelta(data: Bytes): Result<DeltaOp, FsError> {
    if data == [] then Failure(InvalidInput)
    else
      var payload := data[1..];
      if data[0] == 1 then
        if |payload| < 4 then Failure(InvalidInput) else Success(IncrementNlink(Signed(U32(payload[..4]))))
      else if data[0] == 2 then
        if |payload| < 8 then Failure(InvalidInput) else Success(SetMtime(U64(payload[..8])))
      else if data[0] == 3 then
        if |payload| < 8 then Failure(InvalidInput) else Success(SetCtime(U64(payload[..8])))
      else if data[0] == 4 then
        if |payload| < 8 then Failure(InvalidInput) else Success(SetAtime(U64(payload[..8])))
      else Failure(InvalidInput)
  }

  lemma DeltaRoundTrip(d: DeltaOp)
    ensures ParseDelta(DeltaBytes(d)) == Success(d)
  {
    hide BigEndian, FromBigEndian;
    var payload := DeltaBytes(d)[1..];
    if d.IncrementNlink? {
      assert payload[..4] == BigEndian(Unsigned(d.amount), 4);
      Word32(Unsigned(d.amount));
    } else {
      assert payload[..8] == BigEndian(d.time, 8);
      Word64(d.time);
    }
  }

  lemma ParsedDelta(data: Bytes)
    requires ParseDelta(data).Success?
    ensures DeltaBytes(ParseDelta(data).value) <= data
  {
    hide BigEndian, FromBigEndian;
    var payload := data[1..];
    if data[0] == 1 {
      EncodeDecodeWord(payload[..4]);
    } else {
      EncodeDecodeWord(payload[..8]);
    }
  }
}
