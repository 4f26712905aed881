/**
 * The password format built on MD5 (libcrypt/md5.c, __md5_crypt) and the choice between it and
 * DES (libcrypt/crypt.c). A C string is its bytes before the terminating NUL.
 */
module Md5Crypt {
  import opened Md5Steps
  import opened Md5Stream

  const DOLLAR: byte := 36
  const MAGIC: seq<byte> := [36, 49, 36]  // "$1$"

  predicate CString(s: seq<byte>) { forall i :: 0 <= i < |s| ==> s[i] != 0 }

  // ---- what __md5_crypt computes ----

  function SkipMagic(salt: seq<byte>): seq<byte> { if MAGIC <= salt then salt[3..] else salt }

  /** The part before the first '$', at most n characters. */
  function BeforeDollar(s: seq<byte>, n: nat): (r: seq<byte>)
    ensures r <= s && |r| <= n && DOLLAR !in r
    ensures |r| < n && |r| < |s| ==> s[|r|] == DOLLAR
  {
    if s == [] || s[0] == DOLLAR || n == 0 then [] else [s[0]] + BeforeDollar(s[1..], n - 1)
  }

  function RefinedSalt(salt: seq<byte>): seq<byte> { BeforeDollar(SkipMagic(salt), 8) }

  /** n bytes of the digest, repeated. */
  function Cycle(digest: seq<byte>, n: nat): seq<byte>
    requires |digest| == 16
  {
    seq(n, i requires 0 <= i < n => digest[i % 16])
  }

  /** One byte per bit of i, lowest first: a zero byte for a one, the first of the password for a zero. */
  function BitBytes(pw: seq<byte>, i: nat): seq<byte>
    requires i > 0 ==> pw != []
  {
    if i == 0 then [] else [if i % 2 == 1 then 0 else pw[0]] + BitBytes(pw, i / 2)
  }

  function InnerMessage(pw: seq<byte>, s: seq<byte>): seq<byte> { pw + s + pw }

  /** The first message: everything hashed before the thousand rounds. */
  function FirstMessage(pw: seq<byte>, s: seq<byte>, inner: seq<byte>): seq<byte>
    requires |inner| == 16
  {
    pw + MAGIC + s + Cycle(inner, |pw|) + BitBytes(pw, |pw|)
  }

  function RoundMessage(i: nat, digest: seq<byte>, pw: seq<byte>, s: seq<byte>): seq<byte> {
    (if i % 2 == 1 then pw else digest) + (if i % 3 != 0 then s else [])
    + (if i % 7 != 0 then pw else []) + (if i % 2 == 1 then digest else pw)
  }

  function Rounds<W(!new)>(R: Primitives<W>, n: nat, first: seq<byte>, pw: seq<byte>, s: seq<byte>): (r: seq<byte>)
    requires Lawful(R) && |first| == 16
    ensures |r| == 16
  {
    if n == 0 then first else Digest(R, RoundMessage(n - 1, Rounds(R, n - 1, first, pw, s), pw, s))
  }

  function Hash<W(!new)>(R: Primitives<W>, pw: seq<byte>, s: seq<byte>): (r: seq<byte>)
    requires Lawful(R)
    ensures |r| == 16
  {
    var inner := Digest(R, InnerMessage(pw, s));
    Rounds(R, 1000, Digest(R, FirstMessage(pw, s, inner)), pw, s)
  }

  /** The characters ./0-9A-Za-z. */
  function Itoa64(k: nat): (c: byte)
    requires k < 64
    ensures c != 0 && c != DOLLAR
  {
    if k < 12 then 46 + k else if k < 38 then 53 + k else 59 + k
  }

  function To64(v: nat, n: nat): (r: seq<byte>)
    ensures |r| == n && CString(r)
  {
    if n == 0 then [] else [Itoa64(v % 64)] + To64(v / 64, n - 1)
  }

  /** The three digest bytes of output group i; the last group wraps to byte 5. */
  function Group(f: seq<byte>, i: nat): nat
    requires |f| == 16 && i < 5
  {
    65536 * (f[i] as int) + 256 * (f[i + 6] as int) + (if i < 4 then f[i + 12] else f[5])
  }

  function Groups(f: seq<byte>, n: nat): (r: seq<byte>)
    requires |f| == 16 && n <= 5
    ensures |r| == 4 * n && CString(r)
  {
    if n == 0 then [] else Groups(f, n - 1) + To64(Group(f, n - 1), 4)
  }

  function Text(f: seq<byte>): (r: seq<byte>)
    requires |f| == 16
    ensures |r| == 22 && CString(r)
  {
    Groups(f, 5) + To64(f[11], 2)
  }

  function Assemble(s: seq<byte>, f: seq<byte>): seq<byte>
    requires |f| == 16
  {
    MAGIC + s + [DOLLAR] + Text(f)
  }

  function Crypted<W(!new)>(R: Primitives<W>, pw: seq<byte>, salt: seq<byte>): seq<byte>
    requires Lawful(R)
  {
    Assemble(RefinedSalt(salt), Hash(R, pw, RefinedSalt(salt)))
  }

  /** crypt; des is the traditional form. */
  function Crypt<W(!new)>(R: Primitives<W>, des: (seq<byte>, seq<byte>) -> seq<byte>, key: seq<byte>,
                          salt: seq<byte>): seq<byte>
    requires Lawful(R)
  {
    if |salt| >= 3 && salt[0] == 36 && salt[1] == 49 && salt[2] == 36 then Crypted(R, key, salt) else des(key, salt)
  }

  // ---- a result used as salt ----

  lemma {:induction false} BeforeDollarStops(s: seq<byte>, rest: seq<byte>, n: nat)
    requires DOLLAR !in s && |s| <= n
    ensures BeforeDollar(s + [DOLLAR] + rest, n) == s
    decreases |s|
  {
    var t := s + [DOLLAR] + rest;
    if s != [] {
      assert t[1..] == s[1..] + [DOLLAR] + rest;
      BeforeDollarStops(s[1..], rest, n - 1);
    }
  }

  /** The emitted prefix re-parses to the salt it was made from. */
  lemma SaltSurvives(s: seq<byte>, f: seq<byte>)
    requires |f| == 16 && |s| <= 8 && DOLLAR !in s
    ensures RefinedSalt(Assemble(s, f)) == s
  {
    var r := Assemble(s, f);
    assert MAGIC <= r && r[3..] == s + [DOLLAR] + Text(f);
    BeforeDollarStops(s, Text(f), 8);
  }

  /** Feeding a result back as salt gives the result again. */
  lemma CryptedIsFixpoint<W(!new)>(R: Primitives<W>, pw: seq<byte>, salt: seq<byte>)
    requires Lawful(R)
    ensures Crypted(R, pw, Crypted(R, pw, salt)) == Crypted(R, pw, salt)
  {
    SaltSurvives(RefinedSalt(salt), Hash(R, pw, RefinedSalt(salt)));
  }

  lemma CryptIsFixpoint<W(!new)>(R: Primitives<W>, des: (seq<byte>, seq<byte>) -> seq<byte>, key: seq<byte>,
                                 salt: seq<byte>)
    requires Lawful(R) && MAGIC <= salt
    ensures Crypt(R, des, key, Crypt(R, des, key, salt)) == Crypt(R, des, key, salt)
  {
    CryptedIsFixpoint(R, key, salt);
    assert salt[..3] == MAGIC;
    assert MAGIC <= Crypt(R, des, key, salt);
  }

  /** A result is a C string of at most 34 characters, so it fits the static buffer of 120. */
  lemma ResultFits<W(!new)>(R: Primitives<W>, pw: seq<byte>, salt: seq<byte>)
    requires Lawful(R) && CString(salt)
    ensures CString(Crypted(R, pw, salt)) && |Crypted(R, pw, salt)| <= 34
  {
    AssembledFits(RefinedSalt(salt), Hash(R, pw, RefinedSalt(salt)));
  }

  lemma AssembledFits(s: seq<byte>, f: seq<byte>)
    requires |f| == 16 && CString(s) && |s| <= 8
    ensures CString(Assemble(s, f)) && |Assemble(s, f)| <= 34
  {}

  // ---- the text determines the digest ----

  lemma {:induction false} To64Injective(v: nat, w: nat, n: nat)
    requires To64(v, n) == To64(w, n) && v < Power64(n) && w < Power64(n)
    ensures v == w
  {
    if n > 0 {
      assert To64(v, n)[0] == To64(w, n)[0];
      assert To64(v, n)[1..] == To64(v / 64, n - 1) && To64(w, n)[1..] == To64(w / 64, n - 1);
      To64Injective(v / 64, w / 64, n - 1);
    }
  }

  function Power64(n: nat): nat { if n == 0 then 1 else 64 * Power64(n - 1) }

  predicate SameGroup(f: seq<byte>, g: seq<byte>, i: nat)
    requires |f| == |g| == 16 && i < 5
  {
    f[i] == g[i] && f[i + 6] == g[i + 6] && if i < 4 then f[i + 12] == g[i + 12] else f[5] == g[5]
  }

  lemma GroupInjective(f: seq<byte>, g: seq<byte>, i: nat)
    requires |f| == |g| == 16 && i < 5 && To64(Group(f, i), 4) == To64(Group(g, i), 4)
    ensures SameGroup(f, g, i)
  {
    assert Power64(1) == 64 && Power64(2) == 4096 && Power64(3) == 262144 && Power64(4) == 16777216;
    To64Injective(Group(f, i), Group(g, i), 4);
  }

  lemma {:induction false} GroupsInjective(f: seq<byte>, g: seq<byte>, n: nat, i: nat)
    requires |f| == |g| == 16 && i < n <= 5 && Groups(f, n) == Groups(g, n)
    ensures To64(Group(f, i), 4) == To64(Group(g, i), 4)
  {
    var k := 4 * (n - 1);
    assert Groups(f, n)[..k] == Groups(f, n - 1) && Groups(g, n)[..k] == Groups(g, n - 1);
    assert Groups(f, n)[k..] == To64(Group(f, n - 1), 4) && Groups(g, n)[k..] == To64(Group(g, n - 1), 4);
    if i < n - 1 { GroupsInjective(f, g, n - 1, i); }
  }

  /** No digest byte is lost in the 22 characters. */
  lemma TextInjective(f: seq<byte>, g: seq<byte>)
    requires |f| == |g| == 16 && Text(f) == Text(g)
    ensures f == g
  {
    assert Text(f)[..20] == Groups(f, 5) && Text(g)[..20] == Groups(g, 5);
    assert Text(f)[20..] == To64(f[11], 2) && Text(g)[20..] == To64(g[11], 2);
    assert Power64(1) == 64 && Power64(2) == 4096;
    To64Injective(f[11], g[11], 2);
    forall i | 0 <= i < 5 ensures SameGroup(f, g, i) {
      GroupsInjective(f, g, 5, i);
      GroupInjective(f, g, i);
    }
    AllBytes(f, g);
  }

  lemma AllBytes(f: seq<byte>, g: seq<byte>)
    requires |f| == |g| == 16 && f[11] == g[11]
    requires forall i :: 0 <= i < 5 ==> SameGroup(f, g, i)
    ensures f == g
  {
    assert SameGroup(f, g, 4);
    forall k | 0 <= k < 16 ensures f[k] == g[k] {
      if k < 5 { assert SameGroup(f, g, k); }
      if 6 <= k < 11 { assert SameGroup(f, g, k - 6); }
      if 12 <= k { assert SameGroup(f, g, k - 12); }
    }
  }

  /** Checking a key against a stored result succeeds exactly when the digests agree. */
  lemma CheckAccepts<W(!new)>(R: Primitives<W>, key: seq<byte>, other: seq<byte>, salt: seq<byte>)
    requires Lawful(R)
    ensures var stored := Crypted(R, key, salt);
            Crypted(R, other, stored) == stored
            <==> Hash(R, other, RefinedSalt(salt)) == Hash(R, key, RefinedSalt(salt))
  {
    var s := RefinedSalt(salt);
    var f, g := Hash(R, key, s), Hash(R, other, s);
    SaltSurvives(s, f);
    assert Crypted(R, key, salt) == Assemble(s, f);
    assert Crypted(R, other, Assemble(s, f)) == Assemble(s, g);
    if Assemble(s, f) == Assemble(s, g) {
      assert Assemble(s, f)[4 + |s|..] == Text(f) && Assemble(s, g)[4 + |s|..] == Text(g);
      TextInjective(f, g);
    }
  }

  // ---- __md5_crypt ----

  lemma StopsAt(s: seq<byte>, n: nat, ep: nat)
    requires ep <= |s| && ep <= n && forall j :: 0 <= j < ep ==> s[j] != DOLLAR
    requires ep == |s| || ep == n || s[ep] == DOLLAR
    ensures BeforeDollar(s, n) == s[..ep]
  {
    var r := BeforeDollar(s, n);
    assert forall j :: 0 <= j < |r| ==> s[j] == r[j];
  }

  method RefineSalt(salt: seq<byte>) returns (s: seq<byte>)
    ensures s == RefinedSalt(salt)
  {
    var sp := if MAGIC <= salt then salt[3..] else salt;
    var ep := 0;
    while ep < |sp| && sp[ep] != DOLLAR && ep < 8
      invariant ep <= |sp| && ep <= 8
      invariant forall j :: 0 <= j < ep ==> sp[j] != DOLLAR
    {
      ep := ep + 1;
    }
    StopsAt(sp, 8, ep);
    s := sp[..ep];
  }

  /** A 32-bit signed length. */
  predicate ShortEnough(s: seq<byte>) { |s| < 0x8000_0000 }

  lemma EmptyParts(a: seq<byte>)
    ensures [] + a == a && a + [] == a
  {}

  method InnerDigest<W(!new)>(R: Primitives<W>, pw: seq<byte>, s: seq<byte>) returns (digest: seq<byte>)
    requires Lawful(R) && ShortEnough(pw) && |s| <= 8
    ensures digest == Digest(R, InnerMessage(pw, s))
  {
    var ctx1 := new Md5Context(R);
    ctx1.Init();
    EmptyParts(pw);
    ctx1.Update(pw);
    ctx1.Update(s);
    ctx1.Update(pw);
    digest := ctx1.Final();
  }

  lemma CycleStep(before: seq<byte>, digest: seq<byte>, n: nat, k: nat)
    requires |digest| == 16 && k <= 16
    ensures before + Cycle(digest, 16 * n) + digest[..k] == before + Cycle(digest, 16 * n + k)
  {
    var a, b := Cycle(digest, 16 * n) + digest[..k], Cycle(digest, 16 * n + k);
    forall i | 0 <= i < 16 * n + k ensures a[i] == b[i] { if 16 * n <= i { RoundOf(n, i - 16 * n); } }
    assert a == b;
    assert before + Cycle(digest, 16 * n) + digest[..k] == before + a;
  }

  /** As many bytes of the digest as the password has. */
  method AddCycle<W(!new)>(ctx: Md5Context<W>, digest: seq<byte>, len: nat)
    requires ctx.Valid() && |digest| == 16
    modifies ctx, ctx.buffer
    ensures ctx.Valid() && ctx.message == old(ctx.message) + Cycle(digest, len)
  {
    ghost var before, n := ctx.message, 0;
    var pl: int := len;
    assert before + Cycle(digest, 0) == before;
    while pl > 0
      invariant ctx.Valid() && if pl > 0 then pl == len - 16 * n else 16 * n - 16 < len <= 16 * n
      invariant ctx.message == before + Cycle(digest, if pl > 0 then 16 * n else len)
    {
      var k := if pl > 16 then 16 else pl;
      CycleStep(before, digest, n, k);
      ctx.Update(digest[..k]);
      pl, n := pl - 16, n + 1;
    }
  }

  method AddBitBytes<W(!new)>(ctx: Md5Context<W>, pw: seq<byte>)
    requires ctx.Valid()
    modifies ctx, ctx.buffer
    ensures ctx.Valid() && ctx.message == old(ctx.message) + BitBytes(pw, |pw|)
  {
    var i := |pw|;
    while i > 0
      invariant ctx.Valid() && 0 <= i <= |pw|
      invariant ctx.message + BitBytes(pw, i) == old(ctx.message) + BitBytes(pw, |pw|)
    {
      ghost var m := ctx.message;
      var b: byte := if i % 2 == 1 then 0 else pw[0];
      ctx.Update([b]);
      assert m + ([b] + BitBytes(pw, i / 2)) == m + [b] + BitBytes(pw, i / 2);
      i := i / 2;
    }
  }

  method FirstDigest<W(!new)>(R: Primitives<W>, pw: seq<byte>, s: seq<byte>) returns (digest: seq<byte>)
    requires Lawful(R) && ShortEnough(pw) && |s| <= 8
    ensures digest == Digest(R, FirstMessage(pw, s, Digest(R, InnerMessage(pw, s))))
  {
    var ctx := new Md5Context(R);
    ctx.Init();
    EmptyParts(pw);
    ctx.Update(pw);
    ctx.Update(MAGIC);
    ctx.Update(s);
    var inner := InnerDigest(R, pw, s);
    AddCycle(ctx, inner, |pw|);
    AddBitBytes(ctx, pw);
    digest := ctx.Final();
  }

  method OneRound<W(!new)>(ctx1: Md5Context<W>, i: nat, digest: seq<byte>, pw: seq<byte>,
                           s: seq<byte>) returns (next: seq<byte>)
    requires ctx1.Sound() && ShortEnough(pw) && |s| <= 8 && |digest| == 16
    modifies ctx1, ctx1.buffer
    ensures next == Digest(ctx1.R, RoundMessage(i, digest, pw, s))
  {
    ctx1.Init();
    EmptyParts(pw);
    EmptyParts(digest);
    if i % 2 == 1 { ctx1.Update(pw); } else { ctx1.Update(digest); }
    EmptyParts(ctx1.message);
    if i % 3 != 0 { ctx1.Update(s); }
    EmptyParts(ctx1.message);
    if i % 7 != 0 { ctx1.Update(pw); }
    if i % 2 == 1 { ctx1.Update(digest); } else { ctx1.Update(pw); }
    next := ctx1.Final();
  }

  method Stretch<W(!new)>(R: Primitives<W>, first: seq<byte>, pw: seq<byte>, s: seq<byte>) returns (digest: seq<byte>)
    requires Lawful(R) && ShortEnough(pw) && |s| <= 8 && |first| == 16
    ensures digest == Rounds(R, 1000, first, pw, s)
  {
    var ctx1 := new Md5Context(R);
    digest := first;
    for i := 0 to 1000
      invariant ctx1.Sound() && ctx1.R == R && fresh(ctx1) && fresh(ctx1.buffer)
      invariant digest == Rounds(R, i, first, pw, s)
    {
      digest := OneRound(ctx1, i, digest, pw, s);
    }
  }

  method To64Chars(v: nat, n: nat) returns (r: seq<byte>)
    ensures r == To64(v, n)
  {
    r := [];
    var v', k := v, n;
    while k > 0
      invariant 0 <= k <= n && r + To64(v', k) == To64(v, n)
    {
      var c := Itoa64(v' % 64);
      assert r + ([c] + To64(v' / 64, k - 1)) == r + [c] + To64(v' / 64, k - 1);
      r := r + [c];
      v', k := v' / 64, k - 1;
    }
  }

  method Render(f: seq<byte>) returns (r: seq<byte>)
    requires |f| == 16
    ensures r == Text(f)
  {
    var final := f + [f[5]];
    r := [];
    for i := 0 to 5
      invariant r == Groups(f, i)
    {
      var l := 65536 * (final[i] as int) + 256 * (final[i + 6] as int) + final[i + 12];
      var p := To64Chars(l, 4);
      r := r + p;
    }
    var p := To64Chars(final[11], 2);
    r := r + p;
  }

  method CryptMd5<W(!new)>(R: Primitives<W>, pw: seq<byte>, salt: seq<byte>) returns (passwd: seq<byte>)
    requires Lawful(R) && ShortEnough(pw)
    ensures passwd == Crypted(R, pw, salt)
  {
    var s := RefineSalt(salt);
    var first := FirstDigest(R, pw, s);
    var digest := Stretch(R, first, pw, s);
    var text := Render(digest);
    passwd := MAGIC + s + [DOLLAR] + text;
  }
}
