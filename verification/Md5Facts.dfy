/**
 * What the operations of libcrypt/md5.c do, said apart from how the transform is put together: the
 * bits that F, G, H, I and the rotation select and move, how every step is undone, and what the
 * padding appends.
 */
module Md5Facts {
  import opened Md5Steps
  import opened ByteBits
  import opened Md5Words
  import opened Md5Inverse
  import opened Md5Stream

  // ---- words and their bits ----

  /** A word is the value of its bits. */
  lemma ValueOfBits(w: Word)
    ensures Value(Bits(w)) == w
  {
    var n0, n1, n2, n3 := w % 256, w / 256 % 256, w / 65536 % 256, w / 16777216 % 256;
    ValueJoined(Octet(n0), Octet(n1), Octet(n2), Octet(n3));
    OctetValue(n0);
    OctetValue(n1);
    OctetValue(n2);
    OctetValue(n3);
    WordBytes(w);
  }

  lemma ValueJoined(b0: bv8, b1: bv8, b2: bv8, b3: bv8)
    ensures Value(Joined(b0, b1, b2, b3)) ==
            (b0 as int) + 256 * (b1 as int) + 65536 * (b2 as int) + 16777216 * (b3 as int)
  {
    JoinedBytes(b0, b1, b2, b3);
  }

  lemma BitsFrom(w: Word, b0: bv8, b1: bv8, b2: bv8, b3: bv8)
    requires w % 256 == b0 as int && w / 256 % 256 == b1 as int
    requires w / 65536 % 256 == b2 as int && w / 16777216 % 256 == b3 as int
    ensures Bits(w) == Joined(b0, b1, b2, b3)
  {
    OctetBack(b0, w % 256);
    OctetBack(b1, w / 256 % 256);
    OctetBack(b2, w / 65536 % 256);
    OctetBack(b3, w / 16777216 % 256);
  }

  lemma ValueParts(w: Word, n0: byte, n1: byte, n2: byte, n3: byte)
    requires w == n0 + 256 * n1 + 65536 * n2 + 16777216 * n3
    ensures w % 256 == n0 && w / 256 % 256 == n1 && w / 65536 % 256 == n2 && w / 16777216 % 256 == n3
  {
    BytesWord(n0, n1, n2, n3);
    assert WordOf(n0, n1, n2, n3) == w;
    assert BytesOf(w)[0] == n0 && BytesOf(w)[1] == n1 && BytesOf(w)[2] == n2 && BytesOf(w)[3] == n3;
  }

  /** And has the bits it is made of. */
  lemma BitsOfValue(b: bv32)
    ensures Bits(Value(b)) == b
  {
    BitsSplit(ByteOf(b), ByteOf(b >> 8), ByteOf(b >> 16), ByteOf(b >> 24), Value(b));
    BytesJoined(b);
  }

  lemma BitsSplit(b0: bv8, b1: bv8, b2: bv8, b3: bv8, w: Word)
    requires w == (b0 as int) + 256 * (b1 as int) + 65536 * (b2 as int) + 16777216 * (b3 as int)
    ensures Bits(w) == Joined(b0, b1, b2, b3)
  {
    ValueParts(w, b0 as int, b1 as int, b2 as int, b3 as int);
    BitsFrom(w, b0, b1, b2, b3);
  }

  // ---- F, G, H and I, bit by bit; m is any set of places ----

  /** F takes the bits of y where x has ones and those of z elsewhere. */
  lemma FChooses(x: bv32, y: bv32, z: bv32, m: bv32)
    ensures x & m == m ==> MixBits(0, x, y, z) & m == y & m
    ensures x & m == 0 ==> MixBits(0, x, y, z) & m == z & m
  {}

  /** G takes the bits of x where z has ones and those of y elsewhere. */
  lemma GChooses(x: bv32, y: bv32, z: bv32, m: bv32)
    ensures z & m == m ==> MixBits(1, x, y, z) & m == x & m
    ensures z & m == 0 ==> MixBits(1, x, y, z) & m == y & m
  {}

  /** H is the parity: x where y and z are the same, its complement where they differ. */
  lemma HCounts(x: bv32, y: bv32, z: bv32, m: bv32)
    ensures y & m == z & m ==> MixBits(2, x, y, z) & m == x & m
    ensures y & m == !z & m ==> MixBits(2, x, y, z) & m == !x & m
  {}

  /** I is the complement of y where x has ones or z has zeros, and y elsewhere. */
  lemma IComplements(x: bv32, y: bv32, z: bv32, m: bv32)
    ensures x & m == m || z & m == 0 ==> MixBits(3, x, y, z) & m == !y & m
    ensures x & m == 0 && z & m == m ==> MixBits(3, x, y, z) & m == y & m
  {
    if x & m == m { FlipsByX(x, y, z, m); }
    if z & m == 0 { FlipsByZ(x, y, z, m); }
    if x & m == 0 && z & m == m { Leaves(x, y, z, m); }
  }

  lemma FlipsByX(x: bv32, y: bv32, z: bv32, m: bv32)
    requires x & m == m
    ensures MixBits(3, x, y, z) & m == !y & m
  {}

  lemma FlipsByZ(x: bv32, y: bv32, z: bv32, m: bv32)
    requires z & m == 0
    ensures MixBits(3, x, y, z) & m == !y & m
  {}

  lemma Leaves(x: bv32, y: bv32, z: bv32, m: bv32)
    requires x & m == 0 && z & m == m
    ensures MixBits(3, x, y, z) & m == y & m
  {}

  // ---- the rotation: bits move by the shift, and a second rotation brings them back ----

  predicate Returns(x: bv32, n: nat) { 0 < n < 32 && RotateBits(RotateBits(x, n), 32 - n) == x }

  lemma ShiftIs(x: bv32, n: nat, k: bv32, l: bv32)
    requires 0 < n < 32 && k as int == n && l as int == 32 - n && k <= 32 && l <= 32
    ensures RotateBits(x, n) == Turned(x, k, l)
  {}

  lemma Turn7(x: bv32)
    ensures Turned(x, 7, 25) == x.RotateLeft(7) && Turned(Turned(x, 7, 25), 25, 7) == x
  {}

  lemma Shift7(x: bv32)
    ensures RotateBits(x, 7) == x.RotateLeft(7) && Returns(x, 7)
  {
    ShiftIs(x, 7, 7, 25);
    ShiftIs(Turned(x, 7, 25), 25, 25, 7);
    Turn7(x);
  }

  lemma Turn12(x: bv32)
    ensures Turned(x, 12, 20) == x.RotateLeft(12) && Turned(Turned(x, 12, 20), 20, 12) == x
  {}

  lemma Shift12(x: bv32)
    ensures RotateBits(x, 12) == x.RotateLeft(12) && Returns(x, 12)
  {
    ShiftIs(x, 12, 12, 20);
    ShiftIs(Turned(x, 12, 20), 20, 20, 12);
    Turn12(x);
  }

  lemma Turn17(x: bv32)
    ensures Turned(x, 17, 15) == x.RotateLeft(17) && Turned(Turned(x, 17, 15), 15, 17) == x
  {}

  lemma Shift17(x: bv32)
    ensures RotateBits(x, 17) == x.RotateLeft(17) && Returns(x, 17)
  {
    ShiftIs(x, 17, 17, 15);
    ShiftIs(Turned(x, 17, 15), 15, 15, 17);
    Turn17(x);
  }

  lemma Turn22(x: bv32)
    ensures Turned(x, 22, 10) == x.RotateLeft(22) && Turned(Turned(x, 22, 10), 10, 22) == x
  {}

  lemma Shift22(x: bv32)
    ensures RotateBits(x, 22) == x.RotateLeft(22) && Returns(x, 22)
  {
    ShiftIs(x, 22, 22, 10);
    ShiftIs(Turned(x, 22, 10), 10, 10, 22);
    Turn22(x);
  }

  lemma Turn5(x: bv32)
    ensures Turned(x, 5, 27) == x.RotateLeft(5) && Turned(Turned(x, 5, 27), 27, 5) == x
  {}

  lemma Shift5(x: bv32)
    ensures RotateBits(x, 5) == x.RotateLeft(5) && Returns(x, 5)
  {
    ShiftIs(x, 5, 5, 27);
    ShiftIs(Turned(x, 5, 27), 27, 27, 5);
    Turn5(x);
  }

  lemma Turn9(x: bv32)
    ensures Turned(x, 9, 23) == x.RotateLeft(9) && Turned(Turned(x, 9, 23), 23, 9) == x
  {}

  lemma Shift9(x: bv32)
    ensures RotateBits(x, 9) == x.RotateLeft(9) && Returns(x, 9)
  {
    ShiftIs(x, 9, 9, 23);
    ShiftIs(Turned(x, 9, 23), 23, 23, 9);
    Turn9(x);
  }

  lemma Turn14(x: bv32)
    ensures Turned(x, 14, 18) == x.RotateLeft(14) && Turned(Turned(x, 14, 18), 18, 14) == x
  {}

  lemma Shift14(x: bv32)
    ensures RotateBits(x, 14) == x.RotateLeft(14) && Returns(x, 14)
  {
    ShiftIs(x, 14, 14, 18);
    ShiftIs(Turned(x, 14, 18), 18, 18, 14);
    Turn14(x);
  }

  lemma Turn20(x: bv32)
    ensures Turned(x, 20, 12) == x.RotateLeft(20) && Turned(Turned(x, 20, 12), 12, 20) == x
  {}

  lemma Shift20(x: bv32)
    ensures RotateBits(x, 20) == x.RotateLeft(20) && Returns(x, 20)
  {
    ShiftIs(x, 20, 20, 12);
    ShiftIs(Turned(x, 20, 12), 12, 12, 20);
    Turn20(x);
  }

  lemma Turn4(x: bv32)
    ensures Turned(x, 4, 28) == x.RotateLeft(4) && Turned(Turned(x, 4, 28), 28, 4) == x
  {}

  lemma Shift4(x: bv32)
    ensures RotateBits(x, 4) == x.RotateLeft(4) && Returns(x, 4)
  {
    ShiftIs(x, 4, 4, 28);
    ShiftIs(Turned(x, 4, 28), 28, 28, 4);
    Turn4(x);
  }

  lemma Turn11(x: bv32)
    ensures Turned(x, 11, 21) == x.RotateLeft(11) && Turned(Turned(x, 11, 21), 21, 11) == x
  {}

  lemma Shift11(x: bv32)
    ensures RotateBits(x, 11) == x.RotateLeft(11) && Returns(x, 11)
  {
    ShiftIs(x, 11, 11, 21);
    ShiftIs(Turned(x, 11, 21), 21, 21, 11);
    Turn11(x);
  }

  lemma Turn16(x: bv32)
    ensures Turned(x, 16, 16) == x.RotateLeft(16) && Turned(Turned(x, 16, 16), 16, 16) == x
  {}

  lemma Shift16(x: bv32)
    ensures RotateBits(x, 16) == x.RotateLeft(16) && Returns(x, 16)
  {
    ShiftIs(x, 16, 16, 16);
    ShiftIs(Turned(x, 16, 16), 16, 16, 16);
    Turn16(x);
  }

  lemma Turn23(x: bv32)
    ensures Turned(x, 23, 9) == x.RotateLeft(23) && Turned(Turned(x, 23, 9), 9, 23) == x
  {}

  lemma Shift23(x: bv32)
    ensures RotateBits(x, 23) == x.RotateLeft(23) && Returns(x, 23)
  {
    ShiftIs(x, 23, 23, 9);
    ShiftIs(Turned(x, 23, 9), 9, 9, 23);
    Turn23(x);
  }

  lemma Turn6(x: bv32)
    ensures Turned(x, 6, 26) == x.RotateLeft(6) && Turned(Turned(x, 6, 26), 26, 6) == x
  {}

  lemma Shift6(x: bv32)
    ensures RotateBits(x, 6) == x.RotateLeft(6) && Returns(x, 6)
  {
    ShiftIs(x, 6, 6, 26);
    ShiftIs(Turned(x, 6, 26), 26, 26, 6);
    Turn6(x);
  }

  lemma Turn10(x: bv32)
    ensures Turned(x, 10, 22) == x.RotateLeft(10) && Turned(Turned(x, 10, 22), 22, 10) == x
  {}

  lemma Shift10(x: bv32)
    ensures RotateBits(x, 10) == x.RotateLeft(10) && Returns(x, 10)
  {
    ShiftIs(x, 10, 10, 22);
    ShiftIs(Turned(x, 10, 22), 22, 22, 10);
    Turn10(x);
  }

  lemma Turn15(x: bv32)
    ensures Turned(x, 15, 17) == x.RotateLeft(15) && Turned(Turned(x, 15, 17), 17, 15) == x
  {}

  lemma Shift15(x: bv32)
    ensures RotateBits(x, 15) == x.RotateLeft(15) && Returns(x, 15)
  {
    ShiftIs(x, 15, 15, 17);
    ShiftIs(Turned(x, 15, 17), 17, 17, 15);
    Turn15(x);
  }

  lemma Turn21(x: bv32)
    ensures Turned(x, 21, 11) == x.RotateLeft(21) && Turned(Turned(x, 21, 11), 11, 21) == x
  {}

  lemma Shift21(x: bv32)
    ensures RotateBits(x, 21) == x.RotateLeft(21) && Returns(x, 21)
  {
    ShiftIs(x, 21, 21, 11);
    ShiftIs(Turned(x, 21, 11), 11, 11, 21);
    Turn21(x);
  }

  lemma RoundOneShifts(x: bv32, k: nat, n: nat)
    requires k < 4 && n == ShiftRow(0)[k]
    ensures Returns(x, n)
  {
    if k == 0 { Shift7(x); }
    if k == 1 { Shift12(x); }
    if k == 2 { Shift17(x); }
    if k == 3 { Shift22(x); }
  }

  lemma RoundTwoShifts(x: bv32, k: nat, n: nat)
    requires k < 4 && n == ShiftRow(1)[k]
    ensures Returns(x, n)
  {
    if k == 0 { Shift5(x); }
    if k == 1 { Shift9(x); }
    if k == 2 { Shift14(x); }
    if k == 3 { Shift20(x); }
  }

  lemma RoundThreeShifts(x: bv32, k: nat, n: nat)
    requires k < 4 && n == ShiftRow(2)[k]
    ensures Returns(x, n)
  {
    if k == 0 { Shift4(x); }
    if k == 1 { Shift11(x); }
    if k == 2 { Shift16(x); }
    if k == 3 { Shift23(x); }
  }

  lemma RoundFourShifts(x: bv32, k: nat, n: nat)
    requires k < 4 && n == ShiftRow(3)[k]
    ensures Returns(x, n)
  {
    if k == 0 { Shift6(x); }
    if k == 1 { Shift10(x); }
    if k == 2 { Shift15(x); }
    if k == 3 { Shift21(x); }
  }

  /** Every shift in use can be undone. */
  lemma ShiftsReturn(q: nat, k: nat, x: bv32, n: nat)
    requires q < 4 && k < 4 && n == ShiftRow(q)[k]
    ensures Returns(x, n)
  {
    if q == 0 { RoundOneShifts(x, k, n); }
    if q == 1 { RoundTwoShifts(x, k, n); }
    if q == 2 { RoundThreeShifts(x, k, n); }
    if q == 3 { RoundFourShifts(x, k, n); }
  }

  lemma RotateBack(q: nat, k: nat, x: Word, n: nat)
    requires q < 4 && k < 4 && n == ShiftRow(q)[k]
    ensures 0 < n < 32 && RotateLeft(RotateLeft(x, n), 32 - n) == x
  {
    ShiftsReturn(q, k, Bits(x), n);
    BitsOfValue(RotateBits(Bits(x), n));
    ValueOfBits(x);
  }

  // ---- inverses ----

  function Subtract(x: Word, y: Word): Word { (x - y + TWO32) % TWO32 }

  lemma SubtractAdded(x: Word, y: Word)
    ensures Subtract(Add(x, y), y) == x && Subtract(Add(y, x), y) == x
  {}

  function RotateRight(x: Word, s: nat): Word { if s <= 32 then RotateLeft(x, 32 - s) else x }

  function Md5Back(): Inverse<Word> { Inverse(Subtract, RotateRight) }

  /** The operations of md5.c have inverses, so its steps can be undone. */
  lemma Md5Inverts()
    ensures Inverts(Md5(), Md5Back())
  {
    Md5Lawful();
    forall x: Word, y: Word ensures Subtract(Add(x, y), y) == x && Subtract(Add(y, x), y) == x { SubtractAdded(x, y); }
    forall x: Word, k: nat | k < 16 ensures RotateRight(RotateLeft(x, S()[k]), S()[k]) == x { TurnedBack(x, k); }
  }

  lemma TurnedBack(x: Word, k: nat)
    requires k < 16
    ensures RotateRight(RotateLeft(x, S()[k]), S()[k]) == x
  {
    RotateBack(k / 4, k % 4, x, S()[k]);
  }

  // ---- the start and the padding ----

  /** The registers start as the bytes 01 23 45 67 89 ab cd ef and back, low bytes first. */
  lemma StartIs()
    ensures var r := Md5().initial;
            BytesOf(r.a) == [0x01, 0x23, 0x45, 0x67] && BytesOf(r.b) == [0x89, 0xab, 0xcd, 0xef]
            && BytesOf(r.c) == [0xfe, 0xdc, 0xba, 0x98] && BytesOf(r.d) == [0x76, 0x54, 0x32, 0x10]
  {}

  /** The number that bytes spell, lowest first. */
  function Number(s: seq<byte>): nat { if s == [] then 0 else s[0] + 256 * Number(s[1..]) }

  function Padded(m: seq<byte>): seq<byte> { m + Padding(|m|) + LengthBytes(Md5(), |m|) }

  lemma FourBytes(w: Word, rest: seq<byte>)
    ensures Number(BytesOf(w) + rest) == w + TWO32 * Number(rest)
  {
    var s := BytesOf(w) + rest;
    assert s[1..][1..] == s[2..] && s[2..][1..] == s[3..] && s[3..][1..] == s[4..] && s[4..] == rest;
    assert Number(s[3..]) == s[3] + 256 * Number(rest);
    assert Number(s[2..]) == s[2] + 256 * Number(s[3..]);
    assert Number(s[1..]) == s[1] + 256 * Number(s[2..]);
    WordBytes(w);
  }

  lemma LengthIs(n: nat)
    ensures |LengthBytes(Md5(), n)| == 8 && Number(LengthBytes(Md5(), n)) == 8 * n % (TWO32 * TWO32)
  {
    var b := 8 * n;
    LengthWritten(n, b);
    HighLow(b);
  }

  lemma LengthWritten(n: nat, b: nat)
    requires b == 8 * n
    ensures |LengthBytes(Md5(), n)| == 8 && Number(LengthBytes(Md5(), n)) == b % TWO32 + TWO32 * (b / TWO32 % TWO32)
  {
    var lo, hi := b % TWO32, b / TWO32 % TWO32;
    WrittenIs(lo, hi);
    LengthWords(n, b, lo, hi);
  }

  lemma LengthWords(n: nat, b: nat, lo: Word, hi: Word)
    requires b == 8 * n && lo == b % TWO32 && hi == b / TWO32 % TWO32
    ensures LengthBytes(Md5(), n) == EncodeWords([lo, hi])
  {
    assert ToWord(lo) == lo && ToWord(hi) == hi;
  }

  lemma WrittenIs(lo: Word, hi: Word)
    ensures |EncodeWords([lo, hi])| == 8 && Number(EncodeWords([lo, hi])) == lo + TWO32 * hi
  {
    TwoWords(lo, hi);
    FourBytes(lo, BytesOf(hi));
    FourBytes(hi, []);
    assert BytesOf(hi) + [] == BytesOf(hi);
  }

  lemma TwoWords(lo: Word, hi: Word)
    ensures EncodeWords([lo, hi]) == BytesOf(lo) + BytesOf(hi)
  {
    assert [lo, hi][..1] == [lo] && [lo][..0] == [];
    assert EncodeWords([lo]) == BytesOf(lo);
  }

  lemma HighLow(b: nat)
    ensures b % TWO32 + TWO32 * (b / TWO32 % TWO32) == b % (TWO32 * TWO32)
  {
    var q := b / TWO32;
    var k := q / TWO32;
    assert b == TWO32 * q + b % TWO32 && q == TWO32 * k + q % TWO32;
    assert b == (TWO32 * TWO32) * k + (TWO32 * (q % TWO32) + b % TWO32);
  }

  /**
   * After the message come 0x80, zeros up to the last eight bytes of a block, and the number of bits
   * modulo 2^64, low byte first; and no block more than needed.
   */
  lemma PaddedIs(m: seq<byte>)
    ensures var p, n := Padded(m), |m|;
            && m <= p && |p| % 64 == 0 && n + 9 <= |p| < n + 73 && p[n] == 0x80
            && (forall i :: n < i < |p| - 8 ==> p[i] == 0)
            && Number(p[|p| - 8..]) == 8 * n % (TWO32 * TWO32)
  {
    LengthIs(|m|);
    Md5Lawful();
    PaddedLength(Md5(), m);
    PaddedParts(m, ZeroCount(|m|), LengthBytes(Md5(), |m|));
  }

  lemma PaddedParts(m: seq<byte>, k: nat, l: seq<byte>)
    requires |l| == 8
    ensures var p, n := m + ([0x80] + Zeros(k)) + l, |m|;
            && m <= p && |p| == n + 9 + k && p[n] == 0x80 && p[|p| - 8..] == l
            && forall i :: n < i < |p| - 8 ==> p[i] == 0
  {}

  /** The message that was padded. */
  function Unpadded(p: seq<byte>): seq<byte>
    requires |p| >= 8
  {
    var n := Number(p[|p| - 8..]) / 8;
    if n <= |p| then p[..n] else p
  }

  /** A message of less than 2^61 bytes is not lost in the padding, so different ones are padded differently. */
  lemma PaddingUndone(m: seq<byte>)
    requires 8 * |m| < TWO32 * TWO32
    ensures |Padded(m)| >= 8 && Unpadded(Padded(m)) == m
  {
    PaddedIs(m);
    UnpaddedIs(m, Padded(m), 8 * |m|);
  }

  lemma UnpaddedIs(m: seq<byte>, p: seq<byte>, bits: nat)
    requires m <= p && |p| >= 8 && bits == 8 * |m| < TWO32 * TWO32
    requires Number(p[|p| - 8..]) == bits % (TWO32 * TWO32)
    ensures Unpadded(p) == m
  {
    assert bits % (TWO32 * TWO32) == bits;
  }
}
