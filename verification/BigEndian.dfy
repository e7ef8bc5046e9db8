/** Fixed-width big-endian integers, as `DataView` reads and writes them. */
module BigEndian {

  type byte = b: int | 0 <= b < 0x100

  const TWO_16 := 0x1_0000
  const TWO_32 := 0x1_0000_0000
  const TWO_64 := 0x1_0000_0000_0000_0000

  /** The low two bytes of n; anything above them is dropped. */
  function U16(n: nat): (s: seq<byte>)
    ensures |s| == 2
  {
    [n / 0x100 % 0x100, n % 0x100]
  }

  function ReadU16(s: seq<byte>): nat
    requires |s| == 2
  {
    s[0] as int * 0x100 + s[1]
  }

  /** `setUint32`: the low four bytes of n. */
  function U32(n: nat): (s: seq<byte>)
    ensures |s| == 4
  {
    U16(n / TWO_16) + U16(n)
  }

  /** `getUint32`. */
  function ReadU32(s: seq<byte>): nat
    requires |s| == 4
  {
    ReadU16(s[..2]) * TWO_16 + ReadU16(s[2..])
  }

  /** `setBigUint64`: the low eight bytes of n. */
  function U64(n: nat): (s: seq<byte>)
    ensures |s| == 8
  {
    U32(n / TWO_32) + U32(n)
  }

  function ReadU64(s: seq<byte>): nat
    requires |s| == 8
  {
    ReadU32(s[..4]) * TWO_32 + ReadU32(s[4..])
  }

  /** The most significant byte comes first. */
  lemma MostSignificantFirst()
    ensures U16(0x102) == [1, 2] && U32(0x1020304) == [1, 2, 3, 4]
    ensures U64(0x102030405060708) == [1, 2, 3, 4, 5, 6, 7, 8]
    ensures ReadU16([1, 2]) == 0x102 && ReadU32([1, 2, 3, 4]) == 0x1020304
  {
    assert [1 as byte, 2, 3, 4][..2] == [1, 2] && [1 as byte, 2, 3, 4][2..] == [3, 4];
  }

  /** Quotient and remainder by a byte's range are unique. */
  lemma ByteSplit(n: nat, q: nat, r: nat)
    requires n == q * 0x100 + r && r < 0x100
    ensures n / 0x100 == q && n % 0x100 == r
  {
  }

  lemma Mod16(n: nat, q: nat, r: nat)
    requires n == q * TWO_16 + r && r < TWO_16
    ensures n / TWO_16 == q && n % TWO_16 == r
  {
  }

  lemma Mod32(n: nat, q: nat, r: nat)
    requires n == q * TWO_32 + r && r < TWO_32
    ensures n % TWO_32 == r
  {
  }

  /** What is read back is the value modulo the field's range. */
  lemma ReadWriteU16(n: nat)
    ensures ReadU16(U16(n)) == n % TWO_16
  {
    var high := n / 0x100;
    Mod16(n, high / 0x100, high % 0x100 * 0x100 + n % 0x100);
  }

  lemma ReadWriteU32(n: nat)
    ensures ReadU32(U32(n)) == n % TWO_32
  {
    ReadWriteU16(n / TWO_16);
    ReadWriteU16(n);
    assert U32(n)[..2] == U16(n / TWO_16) && U32(n)[2..] == U16(n);
    var high := n / TWO_16;
    Mod32(n, high / TWO_16, high % TWO_16 * TWO_16 + n % TWO_16);
  }

  lemma {:induction false} ReadWriteU64(n: nat)
    requires n < TWO_64
    ensures ReadU64(U64(n)) == n
  {
    var high := n / TWO_32;
    assert high < TWO_32 && high % TWO_32 == high;
    ReadWriteU32(high);
    ReadWriteU32(n);
    assert U64(n)[..4] == U32(high) && U64(n)[4..] == U32(n);
  }

  lemma WriteReadU16(s: seq<byte>)
    requires |s| == 2
    ensures ReadU16(s) < TWO_16 && U16(ReadU16(s)) == s
  {
    ByteSplit(ReadU16(s), s[0], s[1]);
  }

  /** `U16` looks at the low two bytes only. */
  lemma LowTwoBytes(high: nat, low: nat)
    requires low < TWO_16
    ensures U16(high * TWO_16 + low) == U16(low)
  {
    ByteSplit(high * TWO_16 + low, high * 0x100 + low / 0x100, low % 0x100);
    ByteSplit(high * 0x100 + low / 0x100, high, low / 0x100);
  }

  lemma WriteReadU32(s: seq<byte>)
    requires |s| == 4
    ensures ReadU32(s) < TWO_32 && U32(ReadU32(s)) == s
  {
    WriteReadU16(s[..2]);
    WriteReadU16(s[2..]);
    var high, low := ReadU16(s[..2]), ReadU16(s[2..]);
    Mod16(ReadU32(s), high, low);
    LowTwoBytes(high, low);
    assert s == s[..2] + s[2..];
  }
}
