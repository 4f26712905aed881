/**
 * What the messages of __md5_crypt (libcrypt/md5.c) contain and how its text is read back, said
 * without the functions that build them.
 */
module CryptFacts {
  import opened Md5Steps
  import opened Md5Stream
  import opened Md5Crypt

  predicate EndsWith(m: seq<byte>, t: seq<byte>) { |t| <= |m| && m[|m| - |t|..] == t }

  /** t stands at place k of m. */
  predicate StandsAt(m: seq<byte>, k: nat, t: seq<byte>) { k + |t| <= |m| && m[k..k + |t|] == t }

  // ---- the salt ----

  /** The salt in use: up to eight characters without a dollar sign, and no fewer than there are. */
  lemma SaltIs(salt: seq<byte>, rest: seq<byte>)
    requires rest == if MAGIC <= salt then salt[3..] else salt
    ensures var s := RefinedSalt(salt);
            s <= rest && |s| <= 8 && DOLLAR !in s && (|s| == 8 || |s| == |rest| || rest[|s|] == DOLLAR)
  {}

  // ---- the thousand rounds ----

  /** An even round hashes the digest first and the password last, an odd round the other way round. */
  lemma RoundEnds(i: nat, digest: seq<byte>, pw: seq<byte>, s: seq<byte>)
    ensures var m := RoundMessage(i, digest, pw, s);
            if i % 2 == 0 then digest <= m && EndsWith(m, pw) else pw <= m && EndsWith(m, digest)
  {
    var a, d := if i % 2 == 1 then pw else digest, if i % 2 == 1 then digest else pw;
    Parts(a, if i % 3 != 0 then s else [], if i % 7 != 0 then pw else [], d);
  }

  lemma Parts(a: seq<byte>, b: seq<byte>, c: seq<byte>, d: seq<byte>)
    ensures var m := a + b + c + d;
            a <= m && EndsWith(m, d) && StandsAt(m, |a|, b) && StandsAt(m, |a| + |b|, c) && |m| == |a| + |b| + |c| + |d|
  {}

  /** In a round whose number is a multiple of 3 the salt has no part. In others it follows the first part. */
  lemma RoundSalt(i: nat, digest: seq<byte>, pw: seq<byte>, s: seq<byte>, t: seq<byte>)
    ensures i % 3 == 0 ==> RoundMessage(i, digest, pw, s) == RoundMessage(i, digest, pw, t)
    ensures i % 3 != 0 ==> StandsAt(RoundMessage(i, digest, pw, s), if i % 2 == 0 then |digest| else |pw|, s)
  {
    var a, d := if i % 2 == 1 then pw else digest, if i % 2 == 1 then digest else pw;
    Parts(a, if i % 3 != 0 then s else [], if i % 7 != 0 then pw else [], d);
  }

  /** How much a round hashes. */
  lemma RoundLength(i: nat, digest: seq<byte>, pw: seq<byte>, s: seq<byte>)
    ensures |RoundMessage(i, digest, pw, s)| ==
            |digest| + |pw| + (if i % 3 == 0 then 0 else |s|) + (if i % 7 == 0 then 0 else |pw|)
  {}

  /** All that the first n rounds hash. */
  function Hashed<W(!new)>(R: Primitives<W>, n: nat, first: seq<byte>, pw: seq<byte>, s: seq<byte>): nat
    requires Lawful(R) && |first| == 16
  {
    if n == 0 then 0
    else Hashed(R, n - 1, first, pw, s) + |RoundMessage(n - 1, Rounds(R, n - 1, first, pw, s), pw, s)|
  }

  /** Of the numbers below n, those that are no multiple of k. */
  function Others(n: nat, k: nat): nat
    requires k > 0
  {
    if n == 0 then 0 else Others(n - 1, k) + if (n - 1) % k == 0 then 0 else 1
  }

  lemma {:induction false} OthersOfThree(n: nat)
    ensures Others(n, 3) == n - (n + 2) / 3
  {
    if n > 0 { OthersOfThree(n - 1); }
  }

  lemma {:induction false} OthersOfSeven(n: nat)
    ensures Others(n, 7) == n - (n + 6) / 7
  {
    if n > 0 { OthersOfSeven(n - 1); }
  }

  /** b, a times. */
  function Times(a: nat, b: nat): nat { if a == 0 then 0 else Times(a - 1, b) + b }

  lemma {:induction false} TimesIs(a: nat, b: nat)
    ensures Times(a, b) == a * b
    decreases a
  {
    if a > 0 {
      TimesIs(a - 1, b);
      assert a * b == (a - 1) * b + b;
    }
  }

  /** The bytes of n rounds, a of them with the salt and b with the password twice. */
  function Sum(n: nat, a: nat, b: nat, p: nat, l: nat): nat { 16 * n + Times(n, p) + Times(a, l) + Times(b, p) }

  lemma SumGrows(n: nat, a: nat, b: nat, p: nat, l: nat, salted: bool, twice: bool)
    ensures Sum(n + 1, if salted then a + 1 else a, if twice then b + 1 else b, p, l) ==
            Sum(n, a, b, p, l) + 16 + p + (if salted then l else 0) + (if twice then p else 0)
  {}

  /** The digest and the password in every round, and the salt and the password again in some. */
  lemma {:induction false} HashedIs<W(!new)>(R: Primitives<W>, n: nat, first: seq<byte>, pw: seq<byte>, s: seq<byte>)
    requires Lawful(R) && |first| == 16
    ensures Hashed(R, n, first, pw, s) == Sum(n, Others(n, 3), Others(n, 7), |pw|, |s|)
    decreases n
  {
    if n > 0 {
      var k := n - 1;
      HashedIs(R, k, first, pw, s);
      RoundAdds(R, k, first, pw, s, |pw|, |s|);
      SumStep(k, |pw|, |s|);
    }
  }

  lemma {:induction false} RoundAdds<W(!new)>(R: Primitives<W>, k: nat, first: seq<byte>, pw: seq<byte>, s: seq<byte>,
                                              p: nat, l: nat)
    requires Lawful(R) && |first| == 16 && p == |pw| && l == |s|
    ensures Hashed(R, k + 1, first, pw, s) ==
            Hashed(R, k, first, pw, s) + 16 + p + (if k % 3 == 0 then 0 else l) + (if k % 7 == 0 then 0 else p)
  {
    RoundLength(k, Rounds(R, k, first, pw, s), pw, s);
  }

  lemma SumStep(k: nat, p: nat, l: nat)
    ensures Sum(k + 1, Others(k + 1, 3), Others(k + 1, 7), p, l) ==
            Sum(k, Others(k, 3), Others(k, 7), p, l) + 16 + p
            + (if k % 3 == 0 then 0 else l) + (if k % 7 == 0 then 0 else p)
  {
    SumGrows(k, Others(k, 3), Others(k, 7), p, l, k % 3 != 0, k % 7 != 0);
  }

  /** In a thousand rounds the salt is hashed 666 times and the password 1857 times. */
  lemma ThousandRounds<W(!new)>(R: Primitives<W>, n: nat, first: seq<byte>, pw: seq<byte>, s: seq<byte>)
    requires Lawful(R) && |first| == 16 && 999 < n < 1001
    ensures Hashed(R, n, first, pw, s) == 16000 + 666 * |s| + 1857 * |pw|
  {
    HashedIs(R, n, first, pw, s);
    OthersOfThree(n);
    OthersOfSeven(n);
    ThousandSum(n, Others(n, 3), Others(n, 7), |pw|, |s|);
  }

  lemma ThousandSum(n: nat, a: nat, b: nat, p: nat, l: nat)
    requires n == 1000 && a == 666 && b == 857
    ensures Sum(n, a, b, p, l) == 16000 + 666 * l + 1857 * p
  {
    TimesIs(n, p);
    TimesIs(a, l);
    TimesIs(b, p);
  }

  /** The last round, the 999th from 0, hashes the password twice and then the digest, without the salt. */
  lemma LastRound<W(!new)>(R: Primitives<W>, pw: seq<byte>, s: seq<byte>) returns (d: seq<byte>)
    requires Lawful(R)
    ensures |d| == 16 && Hash(R, pw, s) == Digest(R, pw + pw + d)
  {
    var first := Digest(R, FirstMessage(pw, s, Digest(R, InnerMessage(pw, s))));
    d := BeforeLast(R, 1000, first, pw, s);
  }

  lemma {:induction false} BeforeLast<W(!new)>(R: Primitives<W>, n: nat, first: seq<byte>, pw: seq<byte>, s: seq<byte>)
    returns (d: seq<byte>)
    requires Lawful(R) && |first| == 16 && 999 < n < 1001
    ensures |d| == 16 && Rounds(R, n, first, pw, s) == Digest(R, pw + pw + d)
  {
    d := Rounds(R, n - 1, first, pw, s);
    assert pw + [] + pw + d == pw + pw + d;
    assert RoundMessage(n - 1, d, pw, s) == pw + [] + pw + d;
  }

  // ---- the messages before the rounds ----

  /** The inner message: the password on both sides of the salt. */
  lemma InnerIs(pw: seq<byte>, s: seq<byte>)
    ensures var m := InnerMessage(pw, s);
            |m| == 2 * |pw| + |s| && pw <= m && StandsAt(m, |pw|, s) && EndsWith(m, pw)
  {}

  /** Binary digit k of n, lowest first. */
  function Digit(n: nat, k: nat): nat { if k == 0 then n % 2 else Digit(n / 2, k - 1) }

  function TwoTo(k: nat): nat { if k == 0 then 1 else 2 * TwoTo(k - 1) }

  /** One byte for each binary digit: zero for a one, the first byte of the password for a zero. */
  lemma {:induction false} BitBytesAt(pw: seq<byte>, n: nat, k: nat)
    requires pw != [] && k < |BitBytes(pw, n)|
    ensures BitBytes(pw, n)[k] == if Digit(n, k) == 1 then 0 else pw[0]
    decreases k
  {
    if k > 0 { BitBytesAt(pw, n / 2, k - 1); }
  }

  /** There are as many as n has digits. */
  lemma {:induction false} BitBytesLength(pw: seq<byte>, n: nat)
    requires pw != []
    ensures var l := |BitBytes(pw, n)|; n < TwoTo(l) && (n > 0 ==> l > 0 && TwoTo(l - 1) <= n)
    decreases n
  {
    if n > 0 { BitBytesLength(pw, n / 2); }
  }

  /**
   * The first message: password, "$1$", salt, as many bytes of the repeated inner digest as the
   * password has, and a byte for each binary digit of the password's length.
   */
  lemma FirstIs(pw: seq<byte>, s: seq<byte>, inner: seq<byte>)
    requires |inner| == 16
    ensures var m, a, b := FirstMessage(pw, s, inner), |pw| + 3 + |s|, |BitBytes(pw, |pw|)|;
            && pw + [36, 49, 36] + s <= m && |m| == a + |pw| + b
            && (forall j :: 0 <= j < |pw| ==> m[a + j] == inner[j % 16])
            && (forall k :: 0 <= k < b ==> m[a + |pw| + k] == if Digit(|pw|, k) == 1 then 0 else pw[0])
            && |pw| < TwoTo(b) && (|pw| > 0 ==> b > 0 && TwoTo(b - 1) <= |pw|)
  {
    if pw != [] {
      BitBytesLength(pw, |pw|);
      forall k | 0 <= k < |BitBytes(pw, |pw|)|
        ensures BitBytes(pw, |pw|)[k] == if Digit(|pw|, k) == 1 then 0 else pw[0]
      {
        BitBytesAt(pw, |pw|, k);
      }
    }
    FirstParts(pw, s, Cycle(inner, |pw|), BitBytes(pw, |pw|), FirstMessage(pw, s, inner));
  }

  lemma FirstParts(pw: seq<byte>, s: seq<byte>, c: seq<byte>, b: seq<byte>, m: seq<byte>)
    requires m == pw + MAGIC + s + c + b
    ensures var a := |pw| + 3 + |s|;
            && pw + MAGIC + s <= m && |m| == a + |c| + |b|
            && (forall j :: 0 <= j < |c| ==> m[a + j] == c[j]) && forall k :: 0 <= k < |b| ==> m[a + |c| + k] == b[k]
  {}

  // ---- the text ----

  /** A dot, a slash, a digit or a letter. */
  predicate IsCharacter(c: byte) { 46 <= c <= 57 || 65 <= c <= 90 || 97 <= c <= 122 }

  /** The 64 characters are these, in the order of their codes. */
  lemma Alphabet(j: nat, k: nat, c: byte)
    requires j < k < 64
    ensures Itoa64(j) < Itoa64(k) && IsCharacter(Itoa64(j)) && IsCharacter(Itoa64(k))
    ensures IsCharacter(c) ==> Value64(c) < 64 && Itoa64(Value64(c)) == c
  {}

  function Value64(c: byte): nat
    requires IsCharacter(c)
  {
    if c <= 57 then c - 46 else if c <= 90 then c - 53 else c - 59
  }

  predicate AreCharacters(t: seq<byte>) { forall i :: 0 <= i < |t| ==> IsCharacter(t[i]) }

  /** The number that characters spell, lowest digit first. */
  function From64(t: seq<byte>): nat
    requires AreCharacters(t)
  {
    if t == [] then 0 else Value64(t[0]) + 64 * From64(t[1..])
  }

  lemma CharacterOf(k: nat)
    requires k < 64
    ensures IsCharacter(Itoa64(k)) && Value64(Itoa64(k)) == k
  {}

  lemma {:induction false} From64To64(v: nat, n: nat)
    requires v < Power64(n)
    ensures AreCharacters(To64(v, n)) && From64(To64(v, n)) == v
    decreases n
  {
    if n > 0 {
      From64To64(v / 64, n - 1);
      CharacterOf(v % 64);
      assert To64(v, n)[1..] == To64(v / 64, n - 1);
    }
  }

  /** The number in four characters of the text, or in the last two. */
  function Read(t: seq<byte>, i: nat): nat
    requires |t| == 22 && AreCharacters(t) && i <= 5
  {
    From64(if i < 5 then t[4 * i..4 * i + 4] else t[20..])
  }

  /**
   * The digest behind a text. Byte k is in group k, k - 6 or k - 12, as its high, middle or low
   * part; byte 5 is the low part of the last group and byte 11 stands alone.
   */
  function ByteOf(t: seq<byte>, k: nat): nat
    requires |t| == 22 && AreCharacters(t) && k < 16
  {
    if k < 5 then Read(t, k) / 65536
    else if k == 5 then Read(t, 4) % 256
    else if k < 11 then Read(t, k - 6) / 256 % 256
    else if k == 11 then Read(t, 5)
    else Read(t, k - 12) % 256
  }

  lemma SixtyFours()
    ensures Power64(4) == 16777216 && Power64(2) == 4096
  {
    assert Power64(1) == 64 && Power64(2) == 4096 && Power64(3) == 262144;
  }

  lemma {:induction false} GroupAt(f: seq<byte>, n: nat, i: nat)
    requires |f| == 16 && i < n <= 5
    ensures Groups(f, n)[4 * i..4 * i + 4] == To64(Group(f, i), 4)
    decreases n
  {
    var front := Groups(f, n - 1);
    if i < n - 1 {
      GroupAt(f, n - 1, i);
      assert Groups(f, n)[4 * i..4 * i + 4] == front[4 * i..4 * i + 4];
    } else {
      assert Groups(f, n)[4 * i..4 * i + 4] == To64(Group(f, i), 4);
    }
  }

  lemma TextAt(f: seq<byte>, i: nat)
    requires |f| == 16 && i < 5
    ensures Text(f)[4 * i..4 * i + 4] == To64(Group(f, i), 4)
  {
    GroupAt(f, 5, i);
    assert Text(f)[4 * i..4 * i + 4] == Groups(f, 5)[4 * i..4 * i + 4];
  }

  lemma TextCharacters(f: seq<byte>)
    requires |f| == 16
    ensures AreCharacters(Text(f))
  {
    SixtyFours();
    From64To64(f[11], 2);
    assert Text(f)[20..] == To64(f[11], 2);
    forall j | 0 <= j < 22 ensures IsCharacter(Text(f)[j]) {
      if j < 20 {
        TextCharacter(f, j / 4, j % 4);
      } else {
        assert Text(f)[j] == Text(f)[20..][j - 20];
      }
    }
  }

  lemma TextCharacter(f: seq<byte>, i: nat, j: nat)
    requires |f| == 16 && i < 5 && j < 4
    ensures IsCharacter(Text(f)[4 * i + j])
  {
    SixtyFours();
    TextAt(f, i);
    From64To64(Group(f, i), 4);
    assert Text(f)[4 * i + j] == Text(f)[4 * i..4 * i + 4][j];
  }

  lemma ReadGroup(f: seq<byte>, i: nat)
    requires |f| == 16 && i <= 5
    ensures AreCharacters(Text(f)) && Read(Text(f), i) == if i < 5 then Group(f, i) else f[11]
  {
    SixtyFours();
    TextCharacters(f);
    if i < 5 {
      TextAt(f, i);
      From64To64(Group(f, i), 4);
    } else {
      assert Text(f)[20..] == To64(f[11], 2);
      From64To64(f[11], 2);
    }
  }

  lemma ThreeParts(a: nat, b: nat, c: nat)
    requires a < 256 && b < 256 && c < 256
    ensures var v := 65536 * a + 256 * b + c; v / 65536 == a && v / 256 % 256 == b && v % 256 == c
  {
    assert (65536 * a + 256 * b + c) / 256 == 256 * a + b;
  }

  /** Reading a text back gives the digest. */
  lemma TextReads(f: seq<byte>, k: nat)
    requires |f| == 16 && k < 16
    ensures AreCharacters(Text(f)) && ByteOf(Text(f), k) == f[k]
  {
    var i := if k < 5 then k else if k == 5 then 4 else if k < 11 then k - 6 else if k == 11 then 5 else k - 12;
    ReadGroup(f, i);
    if i < 5 { ThreeParts(f[i], f[i + 6], if i < 4 then f[i + 12] else f[5]); }
  }
}
