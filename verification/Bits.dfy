/**
 Bitwise operations on naturals, given by their definition on binary digits, and the arithmetic
 readings of the masks that the server and the consistency checker apply to `mode` words.
 */
module Bits {

  /** Bitwise and. */
  function And(a: nat, b: nat): nat {
    if a == 0 || b == 0 then 0 else (a % 2) * (b % 2) + 2 * And(a / 2, b / 2)
  }

  /** Bitwise or. */
  function Or(a: nat, b: nat): nat
    decreases a + b
  {
    if a == 0 then b else if b == 0 then a
    else (if a % 2 == 1 || b % 2 == 1 then 1 else 0) + 2 * Or(a / 2, b / 2)
  }

  /** A mask whose low four bits are clear only looks at the bits above them. */
  lemma AndShift4(a: nat, b: nat)
    ensures And(a, 16 * b) == 16 * And(a / 16, b)
  {
    hide And;
    AndShift1(a, 8 * b);
    AndShift1(a / 2, 4 * b);
    AndShift1(a / 2 / 2, 2 * b);
    AndShift1(a / 2 / 2 / 2, b);
    assert a / 2 / 2 / 2 / 2 == a / 16;
  }

  lemma {:induction false} AndShift1(a: nat, b: nat)
    ensures And(a, 2 * b) == 2 * And(a / 2, b)
  {
    if a != 0 && b != 0 {
      assert (2 * b) / 2 == b && (2 * b) % 2 == 0;
    }
  }

  /** Masking with fifteen keeps the low four bits. */
  lemma AndLow4(a: nat)
    ensures And(a, 15) == a % 16
  {
    FourBits(a);
    var a1, a2, a3 := a / 2, a / 2 / 2, a / 2 / 2 / 2;
    assert And(a3, 1) == a3 % 2 by { assert And(a3 / 2, 0) == 0; }
    assert And(a2, 3) == a2 % 2 + 2 * (a3 % 2);
    assert And(a1, 7) == a1 % 2 + 2 * And(a2, 3);
    assert And(a, 15) == a % 2 + 2 * And(a1, 7);
  }

  /** Masking with a word whose low four bits are all set keeps them and masks the rest. */
  lemma AndKeep4(a: nat, b: nat)
    ensures And(a, 16 * b + 15) == a % 16 + 16 * And(a / 16, b)
  {
    hide And;
    var a1, a2, a3 := a / 2, a / 2 / 2, a / 2 / 2 / 2;
    AndKeep1(a, 8 * b + 7);
    AndKeep1(a1, 4 * b + 3);
    AndKeep1(a2, 2 * b + 1);
    AndKeep1(a3, b);
    FourBits(a);
  }

  lemma FourBits(a: nat)
    ensures a / 2 / 2 / 2 / 2 == a / 16
    ensures a % 16 == a % 2 + 2 * (a / 2 % 2) + 4 * (a / 2 / 2 % 2) + 8 * (a / 2 / 2 / 2 % 2)
  {
  }

  lemma AndKeep1(a: nat, b: nat)
    ensures And(a, 2 * b + 1) == a % 2 + 2 * And(a / 2, b)
  {
    assert (2 * b + 1) / 2 == b && (2 * b + 1) % 2 == 1;
  }

  /** `mode & 0o170000` is the file-type digit in place. */
  lemma TypeMask(mode: nat)
    ensures And(mode, 0xF000) == 4096 * (mode / 4096 % 16)
  {
    AndShift4(mode, 0xF00);
    AndShift4(mode / 16, 0xF0);
    AndShift4(mode / 16 / 16, 0xF);
    AndLow4(mode / 16 / 16 / 16);
    assert mode / 16 / 16 / 16 == mode / 4096;
  }

  /** `mode & 0o7777` is the permission part. */
  lemma PermissionMask(mode: nat)
    ensures And(mode, 0xFFF) == mode % 4096
  {
    AndKeep4(mode, 0xFF);
    AndKeep4(mode / 16, 0xF);
    AndLow4(mode / 16 / 16);
    ThreeDigits(mode);
  }

  lemma ThreeDigits(n: nat)
    ensures n % 4096 == n % 16 + 16 * (n / 16 % 16 + 16 * (n / 16 / 16 % 16))
  {
    var q := n / 16;
    var r := q / 16;
    var rem := n % 16 + 16 * (q % 16 + 16 * (r % 16));
    assert n == 16 * q + n % 16;
    assert q == 16 * r + q % 16;
    assert r == 16 * (r / 16) + r % 16;
    RemainderIsUnique(n, r / 16, rem);
  }

  lemma RemainderIsUnique(n: nat, q: nat, rem: nat)
    requires n == 4096 * q + rem && rem < 4096
    ensures n % 4096 == rem
  {
  }

  /** `mode & 0o040000` is bit fourteen in place. */
  lemma DirectoryBitMask(mode: nat)
    ensures And(mode, 0x4000) == 16384 * (mode / 16384 % 2)
  {
    AndShift4(mode, 0x400);
    AndShift4(mode / 16, 0x40);
    AndShift4(mode / 16 / 16, 0x4);
    var d := mode / 16 / 16 / 16;
    assert d == mode / 4096;
    AndShift1(d, 2);
    AndShift1(d / 2, 1);
    assert And(d / 2 / 2, 1) == (d / 2 / 2) % 2 by { assert And(d / 2 / 2 / 2, 0) == 0; }
    assert d / 2 / 2 == mode / 16384;
  }

  /** Words without a common bit are joined by addition: a type digit over a permission part. */
  lemma OrDisjoint(digit: nat, perm: nat)
    requires perm < 4096
    ensures Or(4096 * digit, perm) == 4096 * digit + perm
  {
    OrShift4(256 * digit, perm);
    OrShift4(16 * digit, perm / 16);
    OrShift4(digit, perm / 16 / 16);
    assert perm / 16 / 16 / 16 == 0;
  }

  lemma OrShift4(high: nat, low: nat)
    ensures Or(16 * high, low) == 16 * Or(high, low / 16) + low % 16
  {
    hide Or;
    OrShift2(4 * high, low);
    OrShift2(high, low / 4);
    TwoDigits(low);
  }

  lemma TwoDigits(n: nat)
    ensures n / 4 / 4 == n / 16 && n % 16 == n % 4 + 4 * (n / 4 % 4)
  {
  }

  lemma OrShift2(high: nat, low: nat)
    ensures Or(4 * high, low) == 4 * Or(high, low / 4) + low % 4
  {
    hide Or;
    OrShift1(2 * high, low);
    OrShift1(high, low / 2);
    TwoBits(low);
  }

  lemma TwoBits(n: nat)
    ensures n / 2 / 2 == n / 4 && n % 4 == n % 2 + 2 * (n / 2 % 2)
  {
  }

  lemma {:induction false} OrShift1(high: nat, low: nat)
    ensures Or(2 * high, low) == 2 * Or(high, low / 2) + low % 2
  {
    if high != 0 && low != 0 {
      assert (2 * high) / 2 == high && (2 * high) % 2 == 0;
    }
  }
}
