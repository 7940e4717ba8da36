/**
 Machine words, inode values, directory entries, delta operations and error codes
 (core/src/lib.rs, storage/src/encoding.rs, server/src/delta.rs), and the tests on `mode` words.
 */
module Types {
  import opened Bits
  import opened Wrappers

  const TWO32: int := 0x1_0000_0000
  const TWO64: int := 0x1_0000_0000_0000_0000

  type byte = x: int | 0 <= x < 256
  type u32 = x: int | 0 <= x < 0x1_0000_0000
  type u64 = x: int | 0 <= x < 0x1_0000_0000_0000_0000
  type i32 = x: int | -0x8000_0000 <= x < 0x8000_0000

  type Ino = u64

  type Bytes = seq<byte>

  /** A file name, as the bytes the key encoding stores. */
  type Name = seq<byte>

  const ROOT: Ino := 1
  const NAME_MAX := 255

  const S_IFMT: u32 := 0xF000
  const S_IFDIR: u32 := 0x4000
  const S_IFREG: u32 := 0x8000
  const S_IFLNK: u32 := 0xA000

  datatype InodeValue = InodeValue(
    version: byte, inode: Ino, size: u64, mode: u32, nlink: u32, uid: u32, gid: u32,
    atime: u64, mtime: u64, ctime: u64)

  /** Key and value of a row of the directory-entry column family. */
  datatype DirKey = DirKey(parent: Ino, name: Name)
  datatype Entry = Entry(ino: Ino, mode: u32)

  datatype DeltaOp =
    | IncrementNlink(amount: i32)
    | SetMtime(time: u64)
    | SetCtime(time: u64)
    | SetAtime(time: u64)

  datatype FsError =
    | NotFound
    | AlreadyExists
    | NotADirectory
    | IsADirectory
    | DirectoryNotEmpty
    | NameTooLong
    | InvalidInput
    | PermissionDenied
    | TransactionConflict

  function Max(a: int, b: int): (m: int)
    ensures m >= a && m >= b && (m == a || m == b)
  {
    if a >= b then a else b
  }

  /** The cast of a non-negative 64-bit value to `u32`. */
  function WrapU32(n: nat): (w: u32)
    ensures n < TWO32 ==> w == n
  {
    n % TWO32
  }

  /** The four file-type bits as one digit. */
  function FileType(mode: u32): (t: nat)
    ensures t < 16
  {
    mode / 4096 % 16
  }

  /** The server's directory test, `mode & 0o040000 != 0`: one bit of the type. */
  predicate IsDir(mode: u32) {
    FileType(mode) / 4 % 2 == 1
  }

  /** `mode & 0o170000 == 0o120000`. */
  predicate IsSymlink(mode: u32) {
    FileType(mode) == 10
  }

  /** The checker's directory test, `mode & 0o170000 == 0o040000`: the whole type. */
  predicate IsDirExact(mode: u32) {
    FileType(mode) == 4
  }

  /** The types that any operation of the server can store. */
  predicate Storable(mode: u32) {
    FileType(mode) == 4 || FileType(mode) == 8 || FileType(mode) == 10
  }

  /** `S_IF... | (mode & 0o7777)`, with which new inodes are typed. */
  function Typed(format: u32, mode: u32): (m: u32)
    requires format == S_IFDIR || format == S_IFREG || format == S_IFLNK
    ensures Storable(m) && FileType(m) == format / 4096
  {
    format + mode % 4096
  }

  /** `(old & 0o170000) | (requested & 0o7777)`: chmod cannot change the type. */
  function Chmod(mode: u32, requested: u32): (m: u32)
    ensures FileType(m) == FileType(mode)
  {
    4096 * FileType(mode) + requested % 4096
  }

  /** The arithmetic above is the bitwise arithmetic of the source. */
  lemma TypeTestsAreBitwise(mode: u32)
    ensures 4096 * FileType(mode) == And(mode, S_IFMT)
    ensures IsSymlink(mode) <==> And(mode, S_IFMT) == S_IFLNK
    ensures IsDirExact(mode) <==> And(mode, S_IFMT) == S_IFDIR
  {
    TypeMask(mode);
  }

  lemma DirectoryTestIsBitwise(mode: u32)
    ensures IsDir(mode) <==> And(mode, S_IFDIR) != 0
  {
    hide And;
    DirectoryBitMask(mode);
    BitFourteen(mode / 4096);
    assert mode / 4096 / 4 == mode / 16384;
  }

  lemma BitFourteen(d: nat)
    ensures d % 16 / 4 % 2 == d / 4 % 2
  {
    var q, r := d / 16, d % 16;
    var x := r / 4;
    assert d / 4 == 4 * q + x by { assert 4 * (4 * q + x) <= d < 4 * (4 * q + x) + 4; }
    EvenPart(2 * q, x);
  }

  lemma EvenPart(h: nat, x: nat)
    ensures (2 * h + x) % 2 == x % 2
  {
  }

  lemma ChmodIsBitwise(mode: u32, requested: u32)
    ensures Chmod(mode, requested) == Or(And(mode, S_IFMT), And(requested, 0xFFF))
  {
    TypeMask(mode);
    PermissionMask(requested);
    OrDisjoint(FileType(mode), requested % 4096);
  }

  lemma TypedIsBitwise(format: u32, mode: u32)
    requires format == S_IFDIR || format == S_IFREG || format == S_IFLNK
    ensures Typed(format, mode) == Or(format, And(mode, 0xFFF))
  {
    PermissionMask(mode);
    OrDisjoint(format / 4096, mode % 4096);
  }

  /**
   The two directory tests agree on a mode exactly when its type, if it has the directory bit, is
   the directory type.
   */
  lemma DirectoryTestsAgree(mode: u32)
    ensures (IsDir(mode) <==> IsDirExact(mode)) <==> FileType(mode) !in {5, 6, 7, 12, 13, 14, 15}
    ensures Storable(mode) ==> (IsDir(mode) <==> IsDirExact(mode))
  {
  }

  /** A block device or socket type passes the server's test and fails the checker's. */
  lemma DirectoryTestsDisagreeOnDevices()
    ensures IsDir(0x6000) && !IsDirExact(0x6000)
    ensures IsDir(0xC000) && !IsDirExact(0xC000)
  {
  }
}
