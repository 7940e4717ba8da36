/**
 The flat-file data store (storage/src/rawdisk.rs): every inode owns a fixed region of one sparse
 file. Reads past the end of the file yield zeros; deletion erases nothing.
 */
module RawDisk {
  import opened Types
  import opened Wrappers

  /** A byte of the sparse file. */
  function ByteAt(file: Bytes, n: nat): byte {
    if n < |file| then file[n] else 0
  }

  /** `pread` into a zeroed buffer: `n` bytes from `at` on. */
  function Slice(file: Bytes, at: nat, n: nat): (r: Bytes)
    ensures |r| == n && forall o :: 0 <= o < n ==> r[o] == ByteAt(file, at + o)
  {
    if n == 0 then [] else Slice(file, at, n - 1) + [ByteAt(file, at + n - 1)]
  }

  /** The region of an inode: all `max` bytes of it. */
  function Region(file: Bytes, max: nat, i: Ino): (r: Bytes)
    ensures |r| == max
  {
    Slice(file, Base(max, i), max)
  }

  /** Where the region starts. */
  function Base(max: nat, i: Ino): nat {
    i * max
  }

  /** `pwrite`: overwrite a range and extend the file with zeros up to it if need be. */
  function Overwritten(file: Bytes, at: nat, data: Bytes): (r: Bytes)
    ensures forall n: nat :: ByteAt(r, n) == if at <= n < at + |data| then data[n - at] else ByteAt(file, n)
  {
    if data == [] then file
    else
      seq(Max(|file|, at + |data|), n requires 0 <= n < Max(|file|, at + |data|) =>
            if at <= n < at + |data| then data[n - at] else ByteAt(file, n))
  }

  function Replaced(region: Bytes, off: nat, data: Bytes): Bytes
    requires off + |data| <= |region|
  {
    region[..off] + data + region[off + |data|..]
  }

  function Zeros(n: nat): (z: Bytes)
    ensures |z| == n && forall j :: 0 <= j < n ==> z[j] == 0
  {
    seq(n, _ => 0)
  }

  function AbsoluteOffset(max: u64, i: Ino, off: u64): Result<u64, FsError> {
    if off >= max then Failure(InvalidInput)
    else if Base(max, i) >= TWO64 then Failure(InvalidInput)
    else if Base(max, i) + off >= TWO64 then Failure(InvalidInput)
    else Success(Base(max, i) + off)
  }

  /** Every offset of the region can be addressed. */
  predicate Fits(max: u64, i: Ino) {
    Base(max, i) + max <= TWO64
  }

  // ------------------------------------------------------------------ isolation

  lemma RegionsApart(max: nat, i: Ino, j: Ino)
    ensures i < j ==> Base(max, i) + max <= Base(max, j)
    ensures j < i ==> Base(max, j) + max <= Base(max, i)
  {
    if i < j {
      assert (i + 1) * max <= j * max;
    } else if j < i {
      assert (j + 1) * max <= i * max;
    }
  }

  /** Offsets of distinct inodes never meet. */
  lemma OffsetsAreDistinct(max: u64, i: Ino, a: u64, j: Ino, b: u64)
    requires AbsoluteOffset(max, i, a).Success? && AbsoluteOffset(max, j, b).Success?
    ensures AbsoluteOffset(max, i, a) == AbsoluteOffset(max, j, b) <==> i == j && a == b
  {
    hide Base;
    RegionsApart(max, i, j);
  }

  /** Exactly the offsets below the maximum can be addressed, for every inode whose region fits. */
  lemma AddressableIff(max: u64, i: Ino, off: u64)
    requires Fits(max, i)
    ensures AbsoluteOffset(max, i, off).Success? <==> off < max
  {
  }

  lemma OverwriteSlice(file: Bytes, at: nat, data: Bytes, base: nat, n: nat)
    ensures base <= at && at + |data| <= base + n ==>
              Slice(Overwritten(file, at, data), base, n) == Replaced(Slice(file, base, n), at - base, data)
    ensures at + |data| <= base || base + n <= at ==>
            Slice(Overwritten(file, at, data), base, n) == Slice(file, base, n)
  {
    hide Overwritten, Slice, ByteAt;
  }

  /** A write inside one region replaces that range of it and no byte of any other region. */
  lemma OverwriteRegion(file: Bytes, max: nat, i: Ino, off: nat, data: Bytes, j: Ino)
    requires off + |data| <= max
    ensures Region(Overwritten(file, Base(max, i) + off, data), max, j) ==
            if j == i then Replaced(Region(file, max, i), off, data) else Region(file, max, j)
  {
    hide Base, Overwritten, Slice, Replaced;
    OverwriteSlice(file, Base(max, i) + off, data, Base(max, j), max);
    RegionsApart(max, i, j);
  }

  lemma SliceOfSlice(file: Bytes, base: nat, max: nat, off: nat, n: nat)
    requires off + n <= max
    ensures Slice(file, base, max)[off..off + n] == Slice(file, base + off, n)
  {
    hide ByteAt;
  }

  // ------------------------------------------------------------------ what the operations do to the file

  /** The part of the data that fits into the region. */
  function Clamped(max: u64, off: u64, data: Bytes): (d: Bytes)
    requires off < max
    ensures |d| <= max - off
  {
    if |data| <= max - off then data else data[..max - off]
  }

  function WriteTo(file: Bytes, max: u64, i: Ino, off: u64, data: Bytes): Bytes
    requires AbsoluteOffset(max, i, off).Success?
  {
    Overwritten(file, AbsoluteOffset(max, i, off).value, Clamped(max, off, data))
  }

  function TruncateTo(file: Bytes, max: u64, i: Ino, size: u64): Bytes
    requires AbsoluteOffset(max, i, size).Success?
  {
    Overwritten(file, AbsoluteOffset(max, i, size).value, Zeros(max - size))
  }

  /** A write replaces its clamped range and nothing else, in this region or any other. */
  lemma WriteRegion(file: Bytes, max: u64, i: Ino, off: u64, data: Bytes, j: Ino)
    requires AbsoluteOffset(max, i, off).Success?
    ensures Region(WriteTo(file, max, i, off, data), max, j) ==
            if j == i then Replaced(Region(file, max, i), off, Clamped(max, off, data)) else Region(file, max, j)
  {
    hide Base, Overwritten, Region, Replaced;
    OverwriteRegion(file, max, i, off, Clamped(max, off, data), j);
  }

  /** Truncation keeps the head of the region and zeroes the whole tail, and touches no other region. */
  lemma TruncateRegion(file: Bytes, max: u64, i: Ino, size: u64, j: Ino)
    requires AbsoluteOffset(max, i, size).Success?
    ensures Region(TruncateTo(file, max, i, size), max, j) ==
            if j == i then Region(file, max, i)[..size] + Zeros(max - size) else Region(file, max, j)
  {
    hide Base, Overwritten, Region, Zeros;
    OverwriteRegion(file, max, i, size, Zeros(max - size), j);
  }

  // ------------------------------------------------------------------ the store object

  class RawDiskStore {
    const max: u64
    var file: Bytes

    /** `open`: a maximum of zero is refused before the store exists. */
    constructor (file: Bytes, max: u64)
      requires max > 0
      ensures this.file == file && this.max == max
    {
      this.file := file;
      this.max := max;
    }

    /** At most `size` bytes from `off`, stopping at the end of the region. */
    method ReadAt(i: Ino, off: u64, size: u32) returns (r: Result<Bytes, FsError>)
      ensures r.Success? <==> AbsoluteOffset(max, i, off).Success?
      ensures r.Failure? ==> r.error == InvalidInput
      ensures r.Success? ==>
                var n := if size <= max - off then size else max - off;
                r.value == Region(file, max, i)[off..off + n]
    {
      hide Base;
      var abs := AbsoluteOffset(max, i, off);
      if abs.Failure? { return Failure(abs.error); }
      var n: nat := if size <= max - off then size else max - off;
      SliceOfSlice(file, Base(max, i), max, off, n);
      r := Success(Slice(file, abs.value, n));
    }

    /** Writes the part of the data that fits and returns its length, cast to 32 bits. */
    method WriteAt(i: Ino, off: u64, data: Bytes) returns (r: Result<u32, FsError>)
      modifies this
      ensures r.Success? <==> AbsoluteOffset(max, i, off).Success?
      ensures r.Failure? ==> r.error == InvalidInput && file == old(file)
      ensures r.Success? ==>
              r.value == |Clamped(max, off, data)| % TWO32 && file == WriteTo(old(file), max, i, off, data)
    {
      hide Base, Overwritten;
      var abs := AbsoluteOffset(max, i, off);
      if abs.Failure? { return Failure(abs.error); }
      var actual := Clamped(max, off, data);
      file := Overwritten(file, abs.value, actual);
      r := Success(|actual| % TWO32);
    }

    /**
     Zero-fills the tail of the region in chunks of 4096 bytes. A size equal to the maximum is
     refused, although nothing would have to be done for it.
     */
    method Truncate(i: Ino, size: u64) returns (r: Result<(), FsError>)
      requires AbsoluteOffset(max, i, size).Success? ==> Fits(max, i)
      modifies this
      ensures r.Success? <==> AbsoluteOffset(max, i, size).Success?
      ensures r.Failure? ==> r.error == InvalidInput && file == old(file)
      ensures r.Success? ==> file == TruncateTo(old(file), max, i, size)
    {
      hide Overwritten, Zeros, Base;
      if size > max { return Failure(InvalidInput); }
      var abs := AbsoluteOffset(max, i, size);
      if abs.Failure? { return Failure(abs.error); }
      var zeroLen := max - size;
      var written := 0;
      assert file == Overwritten(file, abs.value, Zeros(0)) by { OverwriteNothing(file, abs.value); }
      while written < zeroLen
        invariant 0 <= written <= zeroLen
        invariant file == Overwritten(old(file), abs.value, Zeros(written))
      {
        var chunk := if zeroLen - written < 4096 then zeroLen - written else 4096;
        ZeroMore(old(file), abs.value, written, chunk);
        file := Overwritten(file, abs.value + written, Zeros(chunk));
        written := written + chunk;
      }
      r := Success(());
    }

    /** `delete` is a no-op: the bytes of the region stay. */
    method Delete(i: Ino) returns (r: Result<(), FsError>)
      ensures r.Success?
    {
      r := Success(());
    }
  }

  lemma OverwriteNothing(file: Bytes, at: nat)
    ensures Overwritten(file, at, Zeros(0)) == file
  {
    assert Zeros(0) == [];
  }

  /** Two adjacent runs of zeros are one. */
  lemma ZeroMore(file: Bytes, at: nat, written: nat, chunk: nat)
    requires chunk > 0
    ensures Overwritten(Overwritten(file, at, Zeros(written)), at + written, Zeros(chunk)) ==
            Overwritten(file, at, Zeros(written + chunk))
  {
    var f := Overwritten(file, at, Zeros(written));
    var g := Overwritten(f, at + written, Zeros(chunk));
    var h := Overwritten(file, at, Zeros(written + chunk));
    assert |g| == |h|;
    forall n | 0 <= n < |h| ensures g[n] == h[n] {
      assert g[n] == ByteAt(g, n) && h[n] == ByteAt(h, n);
    }
  }

  // ------------------------------------------------------------------ reading back

  /** What is written is read back. */
  method WriteThenRead(store: RawDiskStore, i: Ino, off: u64, data: Bytes) returns (back: Bytes)
    requires AbsoluteOffset(store.max, i, off).Success? && |data| <= store.max - off && |data| < TWO32
    modifies store
    ensures back == data
  {
    hide Base, Region;
    WriteRegion(store.file, store.max, i, off, data, i);
    var w := store.WriteAt(i, off, data);
    var r := store.ReadAt(i, off, |data|);
    back := r.value;
  }
}
