/** Bytes, 16-bit and 32-bit words, byte order, and exclusive or.

    Words are plain integers with explicit ranges, so every truncation of the
    source appears as an explicit `%`. */
module Words {

  type byte = x: int | 0 <= x < 0x100
  type u16 = x: int | 0 <= x < 0x1_0000
  type u32 = x: int | 0 <= x < 0x1_0000_0000

  /** The two bytes of a word in network order. */
  function Be16(x: u16): (s: seq<byte>)
    ensures |s| == 2
  {
    [x / 0x100, x % 0x100]
  }

  /** The word stored in network order at offset `i`. */
  function Get16(s: seq<byte>, i: nat): u16
    requires i + 2 <= |s|
  {
    s[i] as int * 0x100 + s[i + 1] as int
  }

  /** Four bytes in network order, as written by two half words. */
  function Be32(x: u32): (s: seq<byte>) {
    Be16(x / 0x1_0000) + Be16(x % 0x1_0000)
  }

  lemma Get16Stored(s: seq<byte>, i: nat)
    requires i + 2 <= |s|
    ensures Be16(Get16(s, i)) == s[i..i + 2]
  {
  }

  /** The two bytes of a word as a little-endian host stores it. */
  function Le16(x: u16): (s: seq<byte>)
    ensures |s| == 2
  {
    [x % 0x100, x / 0x100]
  }

  function GetLe(s: seq<byte>, i: nat): u16
    requires i + 2 <= |s|
  {
    s[i] as int + s[i + 1] as int * 0x100
  }

  lemma GetLeStored(s: seq<byte>, i: nat)
    requires i + 2 <= |s|
    ensures Le16(GetLe(s, i)) == s[i..i + 2]
  {
  }

  /** Exclusive or, one bit at a time. */
  function Xor(a: nat, b: nat): nat
    decreases a + b
  {
    if a == 0 then b
    else if b == 0 then a
    else (a + b) % 2 + 2 * Xor(a / 2, b / 2)
  }

  /** The low bit and the remaining bits of an exclusive or. */
  lemma {:induction false} XorBits(a: nat, b: nat)
    ensures Xor(a, b) % 2 == (a + b) % 2 && Xor(a, b) / 2 == Xor(a / 2, b / 2)
  {
  }

  lemma AssociateLowBit(a: nat, b: nat, c: nat, ab: nat, bc: nat, left: nat, right: nat)
    requires ab % 2 == (a + b) % 2 && bc % 2 == (b + c) % 2
    requires left % 2 == (ab + c) % 2 && right % 2 == (a + bc) % 2
    requires left / 2 == right / 2
    ensures left == right
  {
  }

  lemma {:induction false} XorSelf(a: nat)
    ensures Xor(a, a) == 0
  {
    if a != 0 {
      XorSelf(a / 2);
    }
  }

  lemma {:induction false} XorAssociates(a: nat, b: nat, c: nat)
    ensures Xor(Xor(a, b), c) == Xor(a, Xor(b, c))
    decreases a + b + c
  {
    if a != 0 && b != 0 && c != 0 {
      XorAssociates(a / 2, b / 2, c / 2);
      XorBits(a, b);
      XorBits(b, c);
      XorBits(Xor(a, b), c);
      XorBits(a, Xor(b, c));
      hide *;
      AssociateLowBit(a, b, c, Xor(a, b), Xor(b, c), Xor(Xor(a, b), c), Xor(a, Xor(b, c)));
    }
  }

  /** Encrypting twice with the same pad gives the plaintext back. */
  lemma XorCancels(a: nat, b: nat)
    ensures Xor(Xor(a, b), b) == a
  {
    XorAssociates(a, b, b);
    XorSelf(b);
  }

  ghost predicate PowerOfTwo(m: nat) {
    m == 1 || (m > 1 && m % 2 == 0 && PowerOfTwo(m / 2))
  }

  /** Exclusive or stays within the width of its arguments. */
  lemma {:induction false} XorBounded(a: nat, b: nat, m: nat)
    requires PowerOfTwo(m) && a < m && b < m
    ensures Xor(a, b) < m
    decreases m
  {
    if a != 0 && b != 0 {
      XorBounded(a / 2, b / 2, m / 2);
    }
  }

  function XorByte(a: byte, b: byte): byte {
    XorBounded(a, b, 0x100);
    Xor(a, b)
  }
}
