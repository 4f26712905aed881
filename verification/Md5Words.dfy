/**
 * The word operations and tables that libcrypt/md5.c uses, and its fully unrolled transform.
 */
module Md5Words {
  import opened Md5Steps
  import opened ByteBits

  /** u_int32_t */
  type Word = x: int | 0 <= x < 0x1_0000_0000

  // ---- the bits of a word ----

  /** The bits of a word, byte by byte. */
  function Bits(w: Word): bv32 {
    Joined(Octet(w % 256), Octet(w / 256 % 256), Octet(w / 65536 % 256), Octet(w / 16777216 % 256))
  }

  /** The word with these bits. */
  function Value(b: bv32): Word {
    (ByteOf(b) as int) + 256 * (ByteOf(b >> 8) as int)
    + 65536 * (ByteOf(b >> 16) as int) + 16777216 * (ByteOf(b >> 24) as int)
  }

  // ---- F, G, H, I ----

  function FBits(x: bv32, y: bv32, z: bv32): bv32 { (x & y) | (!x & z) }

  function GBits(x: bv32, y: bv32, z: bv32): bv32 { (x & z) | (y & !z) }

  function HBits(x: bv32, y: bv32, z: bv32): bv32 { x ^ y ^ z }

  function IBits(x: bv32, y: bv32, z: bv32): bv32 { y ^ (x | !z) }

  function Mix(round: nat, x: Word, y: Word, z: Word): Word {
    Value(MixBits(round, Bits(x), Bits(y), Bits(z)))
  }

  function MixBits(round: nat, x: bv32, y: bv32, z: bv32): bv32 {
    if round == 0 then FBits(x, y, z) else if round == 1 then GBits(x, y, z)
    else if round == 2 then HBits(x, y, z) else IBits(x, y, z)
  }

  // ---- 32-bit arithmetic ----

  function Add(x: Word, y: Word): Word { (x + y) % TWO32 }

  lemma AddAssociative(x: Word, y: Word, z: Word)
    ensures Add(Add(x, y), z) == Add(x, Add(y, z))
  {
    AddWraps(x, y);
    AddWraps(y, z);
    AddWraps(Add(x, y), z);
    AddWraps(x, Add(y, z));
  }

  lemma AddWraps(x: Word, y: Word)
    ensures Add(x, y) == if x + y < TWO32 then x + y else x + y - TWO32
  {}

  function ToWord(n: nat): Word { n % TWO32 }

  /** ROTATE_LEFT, with its two shifts as words. */
  function Turned(x: bv32, n: bv32, rest: bv32): bv32
    requires n <= 32 && rest <= 32
  {
    (x << n) | (x >> rest)
  }

  function RotateBits(x: bv32, n: nat): bv32 {
    if 0 < n < 32 then Turned(x, n as bv32, (32 - n) as bv32) else x
  }

  function RotateLeft(x: Word, n: nat): Word { Value(RotateBits(Bits(x), n)) }

  // ---- little-endian bytes ----

  function BytesOf(w: Word): seq<byte> {
    [w % 256, w / 256 % 256, w / 65536 % 256, w / 16777216 % 256]
  }

  function WordOf(b0: byte, b1: byte, b2: byte, b3: byte): Word {
    b0 + b1 * 256 + b2 * 65536 + b3 * 16777216
  }

  // ---- tables, four entries to the row as in the source ----

  function ConstantRow(g: nat): seq<Word>
    ensures |ConstantRow(g)| == 4
  {
    if g < 8 then
      if g < 4 then
        if g == 0 then [0xd76aa478, 0xe8c7b756, 0x242070db, 0xc1bdceee]
        else if g == 1 then [0xf57c0faf, 0x4787c62a, 0xa8304613, 0xfd469501]
        else if g == 2 then [0x698098d8, 0x8b44f7af, 0xffff5bb1, 0x895cd7be]
        else [0x6b901122, 0xfd987193, 0xa679438e, 0x49b40821]
      else
        if g == 4 then [0xf61e2562, 0xc040b340, 0x265e5a51, 0xe9b6c7aa]
        else if g == 5 then [0xd62f105d, 0x2441453, 0xd8a1e681, 0xe7d3fbc8]
        else if g == 6 then [0x21e1cde6, 0xc33707d6, 0xf4d50d87, 0x455a14ed]
        else [0xa9e3e905, 0xfcefa3f8, 0x676f02d9, 0x8d2a4c8a]
    else
      if g < 12 then
        if g == 8 then [0xfffa3942, 0x8771f681, 0x6d9d6122, 0xfde5380c]
        else if g == 9 then [0xa4beea44, 0x4bdecfa9, 0xf6bb4b60, 0xbebfbc70]
        else if g == 10 then [0x289b7ec6, 0xeaa127fa, 0xd4ef3085, 0x4881d05]
        else [0xd9d4d039, 0xe6db99e5, 0x1fa27cf8, 0xc4ac5665]
      else
        if g == 12 then [0xf4292244, 0x432aff97, 0xab9423a7, 0xfc93a039]
        else if g == 13 then [0x655b59c3, 0x8f0ccc92, 0xffeff47d, 0x85845dd1]
        else if g == 14 then [0x6fa87e4f, 0xfe2ce6e0, 0xa3014314, 0x4e0811a1]
        else [0xf7537e82, 0xbd3af235, 0x2ad7d2bb, 0xeb86d391]
  }

  function WordRow(g: nat): (r: seq<nat>)
    ensures |r| == 4 && forall j :: 0 <= j < 4 ==> r[j] < 16
  {
    if g < 8 then
      if g < 4 then
        if g == 0 then [0, 1, 2, 3] else if g == 1 then [4, 5, 6, 7]
        else if g == 2 then [8, 9, 10, 11] else [12, 13, 14, 15]
      else
        if g == 4 then [1, 6, 11, 0] else if g == 5 then [5, 10, 15, 4]
        else if g == 6 then [9, 14, 3, 8] else [13, 2, 7, 12]
    else
      if g < 12 then
        if g == 8 then [5, 8, 11, 14] else if g == 9 then [1, 4, 7, 10]
        else if g == 10 then [13, 0, 3, 6] else [9, 12, 15, 2]
      else
        if g == 12 then [0, 7, 14, 5] else if g == 13 then [12, 3, 10, 1]
        else if g == 14 then [8, 15, 6, 13] else [4, 11, 2, 9]
  }

  /** The message word used by step i, as section 3.4 of RFC 1321 lists it. */
  function WordIndex(i: nat): nat {
    if i < 16 then i
    else if i < 32 then (5 * i + 1) % 16
    else if i < 48 then (3 * i + 5) % 16
    else (7 * i) % 16
  }

  /** The table P is the access pattern of the four rounds. */
  lemma TableIsPattern(g: nat)
    requires g < 16
    ensures WordRow(g) == [WordIndex(4 * g), WordIndex(4 * g + 1), WordIndex(4 * g + 2), WordIndex(4 * g + 3)]
  {
    if g < 8 { FirstRows(g); } else { LastRows(g); }
  }

  lemma FirstRows(g: nat)
    requires g < 8
    ensures WordRow(g) == [WordIndex(4 * g), WordIndex(4 * g + 1), WordIndex(4 * g + 2), WordIndex(4 * g + 3)]
  {}

  lemma LastRows(g: nat)
    requires 8 <= g < 16
    ensures WordRow(g) == [WordIndex(4 * g), WordIndex(4 * g + 1), WordIndex(4 * g + 2), WordIndex(4 * g + 3)]
  {}

  // ---- __md5_Encode and __md5_Decode ----

  function EncodeWords(ws: seq<Word>): (s: seq<byte>)
    ensures |s| == 4 * |ws|
  {
    if ws == [] then [] else EncodeWords(ws[..|ws| - 1]) + BytesOf(ws[|ws| - 1])
  }

  function DecodeWords(s: seq<byte>): (ws: seq<Word>)
    ensures |ws| == |s| / 4
  {
    seq(|s| / 4, i requires 0 <= i < |s| / 4 => WordOf(s[4 * i], s[4 * i + 1], s[4 * i + 2], s[4 * i + 3]))
  }

  lemma WordBytes(w: Word)
    ensures var b := BytesOf(w); WordOf(b[0], b[1], b[2], b[3]) == w
  {
    var q1 := w / 256;
    var q2 := q1 / 256;
    var q3 := q2 / 256;
    assert q2 == w / 65536 && q3 == w / 16777216;
    assert w == w % 256 + 256 * q1 && q1 == q1 % 256 + 256 * q2 && q2 == q2 % 256 + 256 * q3;
  }

  lemma BytesWord(b0: byte, b1: byte, b2: byte, b3: byte)
    ensures BytesOf(WordOf(b0, b1, b2, b3)) == [b0, b1, b2, b3]
  {
    var w := WordOf(b0, b1, b2, b3);
    assert w / 256 == b1 + b2 * 256 + b3 * 65536;
    assert w / 65536 == b2 + b3 * 256;
    assert w / 16777216 == b3;
  }

  lemma DecodeBytes(w: Word)
    ensures DecodeWords(BytesOf(w)) == [w]
  {
    WordBytes(w);
  }

  /** Decoding undoes encoding. */
  lemma {:induction false} DecodeEncode(ws: seq<Word>)
    ensures DecodeWords(EncodeWords(ws)) == ws
    decreases |ws|
  {
    if ws != [] {
      var n := |ws| - 1;
      var front, last := ws[..n], ws[n];
      assert ws == front + [last];
      DecodeEncode(front);
      DecodeEncodeStep(front, last, EncodeWords(front), BytesOf(last));
    }
  }

  lemma DecodeEncodeStep(front: seq<Word>, last: Word, a: seq<byte>, b: seq<byte>)
    requires |a| == 4 * |front| && DecodeWords(a) == front && b == BytesOf(last)
    ensures DecodeWords(a + b) == front + [last]
  {
    DecodeBytes(last);
    DecodeAppend(a, b);
  }

  lemma DecodeAppend(a: seq<byte>, b: seq<byte>)
    requires |a| % 4 == 0 && |b| == 4
    ensures DecodeWords(a + b) == DecodeWords(a) + DecodeWords(b)
  {
    var n := |a| / 4;
    assert |a| == 4 * n;
    forall i | 0 <= i < n + 1 ensures DecodeWords(a + b)[i] == (DecodeWords(a) + DecodeWords(b))[i] {}
  }

  lemma EncodePush(ws: seq<Word>, w: Word)
    ensures EncodeWords(ws + [w]) == EncodeWords(ws) + BytesOf(w)
  {
    assert (ws + [w])[..|ws|] == ws;
  }

  lemma EncodeDecodeStep(a: seq<byte>, b0: byte, b1: byte, b2: byte, b3: byte)
    requires |a| % 4 == 0 && EncodeWords(DecodeWords(a)) == a
    ensures EncodeWords(DecodeWords(a + [b0, b1, b2, b3])) == a + [b0, b1, b2, b3]
  {
    var w := WordOf(b0, b1, b2, b3);
    BytesWord(b0, b1, b2, b3);
    DecodeAppend(a, [b0, b1, b2, b3]);
    assert DecodeWords([b0, b1, b2, b3]) == [w];
    EncodePush(DecodeWords(a), w);
  }

  /** Encoding undoes decoding of whole words. */
  lemma {:induction false} EncodeDecode(s: seq<byte>)
    requires |s| % 4 == 0
    ensures EncodeWords(DecodeWords(s)) == s
    decreases |s|
  {
    if s != [] {
      var k := |s| - 4;
      SplitLastWord(s, k);
      EncodeDecode(s[..k]);
      EncodeDecodeStep(s[..k], s[k], s[k + 1], s[k + 2], s[k + 3]);
    }
  }

  lemma SplitLastWord(s: seq<byte>, k: nat)
    requires |s| == k + 4
    ensures s == s[..k] + [s[k], s[k + 1], s[k + 2], s[k + 3]]
  {}

  method Encode(input: seq<Word>) returns (output: seq<byte>)
    ensures output == EncodeWords(input)
  {
    output := [];
    for i := 0 to |input|
      invariant output == EncodeWords(input[..i])
    {
      assert input[..i + 1] == input[..i] + [input[i]];
      EncodePush(input[..i], input[i]);
      var bytes := BytesOf(input[i]);
      output := output + bytes;
    }
    assert input[..|input|] == input;
  }

  method Decode(input: seq<byte>) returns (output: seq<Word>)
    requires |input| % 4 == 0
    ensures output == DecodeWords(input)
  {
    output := [];
    var j := 0;
    ghost var n := |input| / 4;
    while j < |input|
      invariant j == 4 * |output| && |output| <= n
      invariant forall i :: 0 <= i < |output| ==> output[i] == DecodeWords(input)[i]
      decreases n - |output|
    {
      var w := WordOf(input[j], input[j + 1], input[j + 2], input[j + 3]);
      assert w == DecodeWords(input)[|output|];
      output := output + [w];
      j := j + 4;
    }
  }

  // ---- the instance ----

  function C(): seq<Word> { seq(64, i requires 0 <= i < 64 => ConstantRow(i / 4)[i % 4]) }

  function P(): seq<nat> { seq(64, i requires 0 <= i < 64 => WordRow(i / 4)[i % 4]) }

  function S(): seq<nat> { seq(16, i requires 0 <= i < 16 => ShiftRow(i / 4)[i % 4]) }

  function Md5(): Primitives<Word> {
    Primitives(Mix, RotateLeft, Add, C(), P(), S(),
               Regs(0x67452301, 0xefcdab89, 0x98badcfe, 0x10325476), ToWord, DecodeWords, EncodeWords)
  }

  lemma Md5Lawful()
    ensures Lawful(Md5())
  {
    forall a: Word, b: Word, c: Word ensures Add(Add(a, b), c) == Add(a, Add(b, c)) { AddAssociative(a, b, c); }
  }

  // ---- the fully unrolled form (MD5_SIZE_OVER_SPEED 0) ----

  /** The primitives use the tables of md5.c. */
  ghost predicate UsesTables(R: Primitives<Word>) {
    && Tables(R) && ShiftTable(R)
    && forall g :: 0 <= g < 16 ==> R.C[4 * g..4 * g + 4] == ConstantRow(g) && R.P[4 * g..4 * g + 4] == WordRow(g)
  }

  lemma InRow(g: nat, j: nat)
    requires j < 4
    ensures (4 * g + j) / 4 == g && (4 * g + j) % 4 == j
  {}

  lemma RowOfC(g: nat)
    requires g < 16
    ensures C()[4 * g..4 * g + 4] == ConstantRow(g)
  {
    forall j | 0 <= j < 4 ensures C()[4 * g..4 * g + 4][j] == ConstantRow(g)[j] { InRow(g, j); }
  }

  lemma RowOfP(g: nat)
    requires g < 16
    ensures P()[4 * g..4 * g + 4] == WordRow(g)
  {
    forall j | 0 <= j < 4 ensures P()[4 * g..4 * g + 4][j] == WordRow(g)[j] { InRow(g, j); }
  }

  lemma RowOfS(q: nat)
    requires q < 4
    ensures S()[4 * q..4 * q + 4] == ShiftRow(q)
  {
    forall j | 0 <= j < 4 ensures S()[4 * q..4 * q + 4][j] == ShiftRow(q)[j] { InRow(q, j); }
  }

  lemma Md5UsesTables()
    ensures UsesTables(Md5())
  {
    forall q | 0 <= q < 4 ensures S()[4 * q..4 * q + 4] == ShiftRow(q) { RowOfS(q); }
    forall g | 0 <= g < 16 ensures C()[4 * g..4 * g + 4] == ConstantRow(g) && P()[4 * g..4 * g + 4] == WordRow(g) {
      RowOfC(g);
      RowOfP(g);
    }
  }

  lemma RowEntries(P: seq<nat>, i: nat, p: seq<nat>)
    requires i + 4 <= |P| && P[i..i + 4] == p
    ensures P[i] == p[0] && P[i + 1] == p[1] && P[i + 2] == p[2] && P[i + 3] == p[3]
  {}

  /** Four written-out operations, with row g of the tables, are four steps. */
  lemma GroupSteps(R: Primitives<Word>, g: nat, r: Regs<Word>, x: seq<Word>, state: Regs<Word>,
                   p: seq<nat>, s: seq<nat>, t: seq<Word>)
    requires g < 16 && |x| == 16 && UsesTables(R) && r == Steps(R, state, x, 4 * g)
    requires p == WordRow(g) && s == ShiftRow(g / 4) && t == ConstantRow(g)
    ensures Quad(R, g / 4, r, [x[p[0]], x[p[1]], x[p[2]], x[p[3]]], s, t) == Steps(R, state, x, 4 * g + 4)
  {
    assert R.P[4 * g..4 * g + 4] == p && R.C[4 * g..4 * g + 4] == t;
    RowEntries(R.P, 4 * g, p);
    InRow(g / 4, g % 4);
    assert (4 * g) / 16 == g / 4;
    QuadSteps(R, g / 4, r, x, state, 4 * g, [x[p[0]], x[p[1]], x[p[2]], x[p[3]]], s, t);
  }

  /** Four operations of the unrolled form, with the words, shifts and constants written in the call. */
  method FourOperations(R: Primitives<Word>, g: nat, regs: Regs<Word>, x: seq<Word>,
                        p: seq<nat>, s: seq<nat>, t: seq<Word>, ghost state: Regs<Word>) returns (r: Regs<Word>)
    requires g < 16 && |x| == 16 && UsesTables(R) && regs == Steps(R, state, x, 4 * g)
    requires p == WordRow(g) && s == ShiftRow(g / 4) && t == ConstantRow(g)
    ensures r == Steps(R, state, x, 4 * (g + 1))
  {
    GroupSteps(R, g, regs, x, state, p, s, t);
    r := Quad(R, g / 4, regs, [x[p[0]], x[p[1]], x[p[2]], x[p[3]]], s, t);
  }

  method UnrolledRoundOne(R: Primitives<Word>, regs: Regs<Word>, x: seq<Word>,
                          ghost state: Regs<Word>, g: nat) returns (r: Regs<Word>)
    requires |x| == 16 && UsesTables(R) && g == 0 && regs == Steps(R, state, x, 4 * g)
    ensures r == Steps(R, state, x, 4 * (g + 4))
  {
    r := regs;
    r := FourOperations(R, g, r, x, [0, 1, 2, 3], [7, 12, 17, 22],
                        [0xd76aa478, 0xe8c7b756, 0x242070db, 0xc1bdceee], state);
    r := FourOperations(R, g + 1, r, x, [4, 5, 6, 7], [7, 12, 17, 22],
                        [0xf57c0faf, 0x4787c62a, 0xa8304613, 0xfd469501], state);
    r := FourOperations(R, g + 2, r, x, [8, 9, 10, 11], [7, 12, 17, 22],
                        [0x698098d8, 0x8b44f7af, 0xffff5bb1, 0x895cd7be], state);
    r := FourOperations(R, g + 3, r, x, [12, 13, 14, 15], [7, 12, 17, 22],
                        [0x6b901122, 0xfd987193, 0xa679438e, 0x49b40821], state);
  }

  method UnrolledRoundTwo(R: Primitives<Word>, regs: Regs<Word>, x: seq<Word>,
                          ghost state: Regs<Word>, g: nat) returns (r: Regs<Word>)
    requires |x| == 16 && UsesTables(R) && g == 4 && regs == Steps(R, state, x, 4 * g)
    ensures r == Steps(R, state, x, 4 * (g + 4))
  {
    r := regs;
    r := FourOperations(R, g, r, x, [1, 6, 11, 0], [5, 9, 14, 20],
                        [0xf61e2562, 0xc040b340, 0x265e5a51, 0xe9b6c7aa], state);
    r := FourOperations(R, g + 1, r, x, [5, 10, 15, 4], [5, 9, 14, 20],
                        [0xd62f105d, 0x2441453, 0xd8a1e681, 0xe7d3fbc8], state);
    r := FourOperations(R, g + 2, r, x, [9, 14, 3, 8], [5, 9, 14, 20],
                        [0x21e1cde6, 0xc33707d6, 0xf4d50d87, 0x455a14ed], state);
    r := FourOperations(R, g + 3, r, x, [13, 2, 7, 12], [5, 9, 14, 20],
                        [0xa9e3e905, 0xfcefa3f8, 0x676f02d9, 0x8d2a4c8a], state);
  }

  method UnrolledRoundThree(R: Primitives<Word>, regs: Regs<Word>, x: seq<Word>,
                            ghost state: Regs<Word>, g: nat) returns (r: Regs<Word>)
    requires |x| == 16 && UsesTables(R) && g == 8 && regs == Steps(R, state, x, 4 * g)
    ensures r == Steps(R, state, x, 4 * (g + 4))
  {
    r := regs;
    r := FourOperations(R, g, r, x, [5, 8, 11, 14], [4, 11, 16, 23],
                        [0xfffa3942, 0x8771f681, 0x6d9d6122, 0xfde5380c], state);
    r := FourOperations(R, g + 1, r, x, [1, 4, 7, 10], [4, 11, 16, 23],
                        [0xa4beea44, 0x4bdecfa9, 0xf6bb4b60, 0xbebfbc70], state);
    r := FourOperations(R, g + 2, r, x, [13, 0, 3, 6], [4, 11, 16, 23],
                        [0x289b7ec6, 0xeaa127fa, 0xd4ef3085, 0x4881d05], state);
    r := FourOperations(R, g + 3, r, x, [9, 12, 15, 2], [4, 11, 16, 23],
                        [0xd9d4d039, 0xe6db99e5, 0x1fa27cf8, 0xc4ac5665], state);
  }

  method UnrolledRoundFour(R: Primitives<Word>, regs: Regs<Word>, x: seq<Word>,
                           ghost state: Regs<Word>, g: nat) returns (r: Regs<Word>)
    requires |x| == 16 && UsesTables(R) && g == 12 && regs == Steps(R, state, x, 4 * g)
    ensures r == Steps(R, state, x, 4 * (g + 4))
  {
    r := regs;
    r := FourOperations(R, g, r, x, [0, 7, 14, 5], [6, 10, 15, 21],
                        [0xf4292244, 0x432aff97, 0xab9423a7, 0xfc93a039], state);
    r := FourOperations(R, g + 1, r, x, [12, 3, 10, 1], [6, 10, 15, 21],
                        [0x655b59c3, 0x8f0ccc92, 0xffeff47d, 0x85845dd1], state);
    r := FourOperations(R, g + 2, r, x, [8, 15, 6, 13], [6, 10, 15, 21],
                        [0x6fa87e4f, 0xfe2ce6e0, 0xa3014314, 0x4e0811a1], state);
    r := FourOperations(R, g + 3, r, x, [4, 11, 2, 9], [6, 10, 15, 21],
                        [0xf7537e82, 0xbd3af235, 0x2ad7d2bb, 0xeb86d391], state);
  }

  method TransformUnrolled(R: Primitives<Word>, state: Regs<Word>, x: seq<Word>) returns (r: Regs<Word>)
    requires |x| == 16 && UsesTables(R)
    ensures r == Transform(R, state, x)
  {
    r := UnrolledRoundOne(R, state, x, state, 0);
    r := UnrolledRoundTwo(R, r, x, state, 4);
    r := UnrolledRoundThree(R, r, x, state, 8);
    r := UnrolledRoundFour(R, r, x, state, 12);
    r := AddRegs(R, state, r);
  }

  /** All four builds of the transform compute the same new state for every state and block. */
  method TransformsAgree(R: Primitives<Word>, state: Regs<Word>, x: seq<Word>)
    returns (r0: Regs<Word>, r1: Regs<Word>, r2: Regs<Word>, r3: Regs<Word>)
    requires |x| == 16 && UsesTables(R) && Lawful(R)
    ensures r0 == r1 == r2 == r3 == Transform(R, state, x)
  {
    r0 := TransformUnrolled(R, state, x);
    r1 := TransformPartlyUnrolled(R, state, x);
    r2 := TransformRotating(R, state, x);
    r3 := TransformMerged(R, state, x);
  }
}
