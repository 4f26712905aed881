/**
 * The streaming interface of libcrypt/md5.c: a context with a 64-byte buffer and a two-word bit
 * counter, proved to give the one-shot digest of sections 3.1 to 3.5 of RFC 1321.
 */
module Md5Stream {
  import opened Md5Steps

  // ---- the one-shot definition ----

  /** The state after all complete blocks of s. */
  function FoldBlocks<W>(R: Primitives<W>, state: Regs<W>, s: seq<byte>): Regs<W>
    requires Tables(R) && forall b: seq<byte> :: |R.decode(b)| == |b| / 4
    decreases |s|
  {
    if |s| < 64 then state else FoldBlocks(R, Transform(R, state, R.decode(s[..64])), s[64..])
  }

  /** Zero bytes between the 0x80 and the length, so that the length ends a block (section 3.1). */
  function ZeroCount(n: nat): (k: nat)
    ensures k < 64 && (n + 1 + k) % 64 == 56
  {
    (119 - n % 64) % 64
  }

  /** The number of bits modulo 2^64, low word first (section 3.2). */
  function LengthBytes<W>(R: Primitives<W>, n: nat): seq<byte> {
    R.encode([R.word(8 * n % TWO32), R.word(8 * n / TWO32 % TWO32)])
  }

  function Zeros(k: nat): seq<byte> { seq(k, i => 0) }

  function Padding(n: nat): seq<byte> { [0x80] + Zeros(ZeroCount(n)) }

  function Digest<W(!new)>(R: Primitives<W>, m: seq<byte>): seq<byte>
    requires Lawful(R)
  {
    var r := FoldBlocks(R, R.initial, m + Padding(|m|) + LengthBytes(R, |m|));
    R.encode([r.a, r.b, r.c, r.d])
  }

  // ---- folding in pieces ----

  lemma {:induction false} FoldAppend<W(!new)>(R: Primitives<W>, st: Regs<W>, a: seq<byte>, b: seq<byte>)
    requires Lawful(R) && |a| % 64 == 0
    ensures FoldBlocks(R, st, a + b) == FoldBlocks(R, FoldBlocks(R, st, a), b)
    decreases |a|
  {
    if a == [] {
      assert a + b == b;
    } else {
      assert (a + b)[..64] == a[..64] && (a + b)[64..] == a[64..] + b;
      FoldAppend(R, Transform(R, st, R.decode(a[..64])), a[64..], b);
    }
  }

  lemma FoldOne<W(!new)>(R: Primitives<W>, st: Regs<W>, b: seq<byte>)
    requires Lawful(R) && |b| == 64
    ensures FoldBlocks(R, st, b) == Transform(R, st, R.decode(b))
  {
    assert b[..64] == b;
  }

  lemma FoldStep<W(!new)>(R: Primitives<W>, st: Regs<W>, u: seq<byte>, p: nat)
    requires Lawful(R) && p % 64 == 0 && p + 64 <= |u|
    ensures FoldBlocks(R, st, u[..p + 64]) == Transform(R, FoldBlocks(R, st, u[..p]), R.decode(u[p..p + 64]))
  {
    assert u[..p + 64] == u[..p] + u[p..p + 64];
    FoldAppend(R, st, u[..p], u[p..p + 64]);
    FoldOne(R, FoldBlocks(R, st, u[..p]), u[p..p + 64]);
  }

  lemma FoldRest<W(!new)>(R: Primitives<W>, st: Regs<W>, u: seq<byte>, p: nat)
    requires Lawful(R) && p % 64 == 0 && p <= |u| < p + 64
    ensures FoldBlocks(R, st, u) == FoldBlocks(R, st, u[..p])
  {
    assert u == u[..p] + u[p..];
    FoldAppend(R, st, u[..p], u[p..]);
  }

  /** The bytes that do not fill a block. */
  function Tail(m: seq<byte>): seq<byte> { m[|m| - |m| % 64..] }

  /** New input meets the old state and the bytes left over from before. */
  lemma FoldMore<W(!new)>(R: Primitives<W>, m: seq<byte>, input: seq<byte>)
    requires Lawful(R)
    ensures FoldBlocks(R, R.initial, m + input) == FoldBlocks(R, FoldBlocks(R, R.initial, m), Tail(m) + input)
  {
    var p := |m| - |m| % 64;
    FoldRest(R, R.initial, m, p);
    assert m + input == m[..p] + (Tail(m) + input);
    FoldAppend(R, R.initial, m[..p], Tail(m) + input);
  }

  // ---- the counter ----

  lemma CarryIsWrap(r: nat, s: nat)
    requires r < TWO32 && s < TWO32
    ensures (r + s) % TWO32 == (if r + s < TWO32 then r + s else r + s - TWO32)
    ensures (r + s) % TWO32 < s <==> r + s >= TWO32
  {}

  /** Quotient and remainder are the only way to write x as TWO32 * q + r. */
  lemma Divide(x: nat, q: nat, r: nat)
    requires x == TWO32 * q + r && r < TWO32
    ensures x / TWO32 == q && x % TWO32 == r
  {}

  lemma HighPart(len: nat)
    ensures 8 * len / TWO32 == len / 0x2000_0000
  {
    assert len == 0x2000_0000 * (len / 0x2000_0000) + len % 0x2000_0000;
    Divide(8 * len, len / 0x2000_0000, 8 * (len % 0x2000_0000));
  }

  lemma AddHigh(q: nat, carry: nat, h: nat)
    ensures ((q % TWO32 + carry) % TWO32 + h) % TWO32 == (q + carry + h) % TWO32
  {}

  /** Adding the new bit count with one carry and the bits that `<< 3` pushes out is exact modulo 2^64. */
  lemma CountStep(n: nat, len: nat)
    ensures var s := 8 * len % TWO32;
            var c0 := (8 * n % TWO32 + s) % TWO32;
            var carry := if c0 < s then 1 else 0;
            c0 == 8 * (n + len) % TWO32 &&
            ((8 * n / TWO32 % TWO32 + carry) % TWO32 + len / 0x2000_0000) % TWO32 == 8 * (n + len) / TWO32 % TWO32
  {
    var q, r, h, s := 8 * n / TWO32, 8 * n % TWO32, 8 * len / TWO32, 8 * len % TWO32;
    HighPart(len);
    CarryIsWrap(r, s);
    var carry := if r + s < TWO32 then 0 else 1;
    Divide(8 * (n + len), q + carry + h, r + s - TWO32 * carry);
    AddHigh(q, carry, h);
  }

  /** The two-word counter; n is the number of bytes counted before. */
  method AddBits(count0: nat, count1: nat, len: nat, ghost n: nat) returns (c0: nat, c1: nat)
    requires count0 == 8 * n % TWO32 && count1 == 8 * n / TWO32 % TWO32
    ensures c0 == 8 * (n + len) % TWO32 && c1 == 8 * (n + len) / TWO32 % TWO32
  {
    CountStep(n, len);
    var bits := 8 * len % TWO32;
    c0, c1 := (count0 + bits) % TWO32, count1;
    if c0 < bits { c1 := (c1 + 1) % TWO32; }
    c1 := (c1 + len / 0x2000_0000) % TWO32;
  }

  lemma Multiple64(q: nat)
    ensures 0x2000_0000 * q % 64 == 0
  {
    assert 0x2000_0000 * q == 64 * (0x80_0000 * q);
  }

  lemma IndexOfCount(n: nat)
    ensures (8 * n % TWO32) / 8 % 64 == n % 64
  {
    var q, r := n / 0x2000_0000, n % 0x2000_0000;
    Divide(8 * n, q, 8 * r);
    Multiple64(q);
    SameRemainder(0x2000_0000 * q, r);
  }

  // ---- the block loop ----

  /** Where the loop of __md5_Update looks for its k-th whole block, with index bytes buffered. */
  function Position(index: nat, k: nat): nat
    requires index < 64
  {
    64 - index + 64 * k
  }

  /** Unsigned addition. */
  function Add32(x: nat, y: nat): nat { (x + y) % TWO32 }

  /** The 32-bit sum `i + 63` wraps at a position the loop reaches exactly when index + len reaches 2^32. */
  lemma WrapsExactly(index: nat, len: nat)
    requires index < 64 && len < TWO32
    ensures (exists k :: k >= 0 && Position(index, k) <= len && Position(index, k) + 63 >= TWO32)
       <==> index + len >= TWO32
  {
    if index + len >= TWO32 {
      assert Position(index, 0x3ff_ffff) == TWO32 - index;
    }
  }

  /** The loop takes the 64 bytes at i for a block of the input although they are not. */
  predicate Overreads(i: nat, len: nat) { i <= len && Add32(i, 63) < len && i + 64 > len }

  /** What then fails: there the guard still holds, and the block is read past the end of the input. */
  lemma OverreadsExactly(index: nat, len: nat)
    requires index < 64 && len < TWO32
    ensures (exists k :: k >= 0 && Overreads(Position(index, k), len)) <==> index + len >= TWO32
  {
    if index + len >= TWO32 {
      WrappedGuard(index, len);
      assert Overreads(Position(index, 0x3ff_ffff), len);
    }
    forall k: nat | Overreads(Position(index, k), len) ensures index + len >= TWO32 { OnlyWrapped(index, k, len); }
  }

  lemma WrappedGuard(index: nat, len: nat)
    requires index < 64 && len < TWO32 <= index + len
    ensures Position(index, 0x3ff_ffff) == TWO32 - index && Add32(TWO32 - index, 63) == 63 - index
  {
    Divide(TWO32 - index + 63, 1, 63 - index);
  }

  lemma OnlyWrapped(index: nat, k: nat, len: nat)
    requires index < 64 && len < TWO32 && Overreads(Position(index, k), len)
    ensures index + len >= TWO32
  {}

  /** The value of i, an unsigned int, after k blocks. */
  function Counter(index: nat, k: nat): nat
    requires index < 64
  {
    Position(index, k) % TWO32
  }

  lemma CounterIs(index: nat, k: nat)
    requires index < 64
    ensures Add32(Counter(index, k), 63) == 64 * ((k + 1) % 0x400_0000) + 63 - index
  {
    var q, r := (k + 1) / 0x400_0000, (k + 1) % 0x400_0000;
    assert Position(index, k) == TWO32 * q + 64 * r - index;
    if r == 0 && index > 0 {
      Divide(Position(index, k), q - 1, TWO32 - index);
      Divide(TWO32 - index + 63, 1, 63 - index);
    } else {
      Divide(Position(index, k), q, 64 * r - index);
    }
  }

  /** And then i wraps as well, to before the end: the loop never ends, exactly when index + len reaches 2^32. */
  lemma LoopsForever(index: nat, len: nat)
    requires index < 64 && len < TWO32
    ensures (forall k: nat :: Add32(Counter(index, k), 63) < len) <==> index + len >= TWO32
  {
    CounterIs(index, 0x3ff_fffe);
    assert Add32(Counter(index, 0x3ff_fffe), 63) == TWO32 - 1 - index;
    if index + len >= TWO32 {
      forall k: nat ensures Add32(Counter(index, k), 63) < len { CounterIs(index, k); }
    }
  }

  /** At the positions the loop reaches, `i + 63` is the true sum. */
  lemma NoWrap(partLen: nat, i: nat, p: nat, len: nat)
    requires 0 < partLen <= 64 && p == 64 - partLen + i && p % 64 == 0 && i <= len && len + 64 - partLen < TWO32
    ensures Add32(i, 63) == i + 63
  {}

  lemma SameBlock(u: seq<byte>, input: seq<byte>, index: nat, i: nat)
    requires index <= |u| && u[index..] == input && i + 64 <= |input|
    ensures u[index + i..index + i + 64] == input[i..i + 64]
  {}

  // ---- the context ----

  method Copy(buffer: array<byte>, at: nat, s: seq<byte>)
    requires at + |s| <= buffer.Length
    modifies buffer
    ensures buffer[..at + |s|] == old(buffer[..at]) + s
    ensures buffer[at + |s|..] == old(buffer[at + |s|..])
  {
    for k := 0 to |s|
      invariant buffer[..at] == old(buffer[..at])
      invariant buffer[at..at + k] == s[..k]
      invariant buffer[at + |s|..] == old(buffer[at + |s|..])
    {
      buffer[at + k] := s[k];
      assert buffer[at..at + k + 1] == buffer[at..at + k] + [s[k]];
    }
    assert buffer[..at + |s|] == buffer[..at] + buffer[at..at + |s|];
  }

  /** struct MD5Context; message is what has been hashed so far. */
  class Md5Context<W(!new)> {
    const R: Primitives<W>
    const buffer: array<byte>
    var state: Regs<W>
    var count0: nat
    var count1: nat
    ghost var message: seq<byte>

    ghost predicate Sound() { Lawful(R) && buffer.Length == 64 }

    ghost predicate Valid()
      reads this, buffer
    {
      && Sound()
      && state == FoldBlocks(R, R.initial, message)
      && Remains(buffer[..], message)
      && count0 == 8 * |message| % TWO32
      && count1 == 8 * |message| / TWO32 % TWO32
    }

    constructor (R: Primitives<W>)
      requires Lawful(R)
      ensures Sound() && this.R == R && fresh(buffer)
    {
      this.R := R;
      this.buffer := new byte[64];
      this.state := R.initial;
    }

    method Init()
      requires Sound()
      modifies this
      ensures Valid() && message == []
    {
      count0, count1 := 0, 0;
      state := R.initial;
      message := NoMessage(R, buffer[..]);
    }

    /** The block at input[i..], which is the block at u[p..]. */
    method Block(input: seq<byte>, i: nat, ghost start: Regs<W>, ghost u: seq<byte>, ghost p: nat)
      requires Sound() && i + 64 <= |input| && p % 64 == 0 && p + 64 <= |u| && u[p..p + 64] == input[i..i + 64]
      requires state == FoldBlocks(R, start, u[..p])
      modifies this`state
      ensures state == FoldBlocks(R, start, u[..p + 64])
    {
      FoldStep(R, start, u, p);
      state := TransformMerged(R, state, R.decode(input[i..i + 64]));
    }

    /** Whole blocks straight from the input; u is the buffered bytes followed by the input. */
    method Blocks(input: seq<byte>, partLen: nat, ghost start: Regs<W>, ghost u: seq<byte>) returns (i: nat,
                                                                                                     ghost p: nat)
      requires Sound() && 0 < partLen <= 64 && partLen <= |input| && |input| + 64 - partLen < TWO32
      requires |u| == 64 - partLen + |input| && u[64 - partLen..] == input
      requires state == FoldBlocks(R, start, u[..64])
      modifies this`state
      ensures partLen <= i <= |input| < i + 64 && p == 64 - partLen + i && p % 64 == 0
      ensures state == FoldBlocks(R, start, u[..p])
    {
      i, p := partLen, 64;
      while Add32(i, 63) < |input|
        invariant partLen <= i <= |input| && p == 64 - partLen + i && p % 64 == 0
        invariant state == FoldBlocks(R, start, u[..p])
        decreases |input| - i
      {
        NoWrap(partLen, i, p, |input|);
        SameBlock(u, input, 64 - partLen, i);
        Block(input, i, start, u, p);
        i, p := i + 64, p + 64;
      }
      NoWrap(partLen, i, p, |input|);
    }

    /** Complete the buffered block and transform it. */
    method FillBlock(input: seq<byte>, index: nat, ghost held: seq<byte>)
      requires Sound() && index < 64 && |input| == 64 - index && buffer[..index] == held
      modifies this`state, buffer
      ensures state == FoldBlocks(R, old(state), held + input)
    {
      Copy(buffer, index, input);
      assert buffer[..] == buffer[..64];
      FoldOne(R, state, held + input);
      state := TransformMerged(R, state, R.decode(buffer[..]));
    }

    /** Complete the buffered block and transform whole blocks of the input, up to i. */
    method TransformAll(input: seq<byte>, index: nat, ghost held: seq<byte>, ghost u: seq<byte>) returns (i: nat,
                                                                                                          ghost p: nat)
      requires Sound() && index < 64 && buffer[..index] == held && 64 - index <= |input| < TWO32 - index
      requires u == held + input
      modifies this`state, buffer
      ensures i <= |input| && p == index + i && p % 64 == 0 && p <= |u| < p + 64
      ensures state == FoldBlocks(R, old(state), u)
    {
      ghost var start := state;
      var partLen := 64 - index;
      Prefix(held, input, partLen, u);
      FillBlock(input[..partLen], index, held);
      i, p := Blocks(input, partLen, start, u);
      FoldRest(R, start, u, p);
    }

    /** Transform what there is and buffer the rest. */
    method AbsorbBlocks(input: seq<byte>, index: nat, ghost held: seq<byte>)
      requires Sound() && index < 64 && buffer[..index] == held && 64 - index <= |input| < TWO32 - index
      modifies this`state, buffer
      ensures state == FoldBlocks(R, old(state), held + input)
      ensures Remains(buffer[..], held + input)
    {
      ghost var u := held + input;
      var i, p := TransformAll(input, index, held, u);
      Suffix(held, input, i, u);
      Buffer(input[i..], u, p);
    }

    method Buffer(rest: seq<byte>, ghost u: seq<byte>, ghost p: nat)
      requires Sound() && p % 64 == 0 && p <= |u| < p + 64 && rest == u[p..]
      modifies buffer
      ensures Remains(buffer[..], u)
    {
      Copy(buffer, 0, rest);
      RemainsFrom(buffer[..], u, p);
    }

    /** Transform whole blocks of the held bytes followed by the input, and buffer the rest. */
    method Absorb(input: seq<byte>, index: nat, ghost held: seq<byte>)
      requires Sound() && index < 64 && buffer[..index] == held && |input| + index < TWO32
      modifies this`state, buffer
      ensures state == FoldBlocks(R, old(state), held + input)
      ensures Remains(buffer[..], held + input)
    {
      if |input| >= 64 - index {
        AbsorbBlocks(input, index, held);
      } else {
        Copy(buffer, index, input);
        RemainsFrom(buffer[..], held + input, 0);
      }
    }

    /** Correct for every input on which `i + 63` does not wrap (see WrapsExactly). */
    method Update(input: seq<byte>)
      requires Valid() && |input| + |message| % 64 < TWO32
      modifies this, buffer
      ensures Valid() && message == old(message) + input
    {
      IndexOfCount(|message|);
      FoldMore(R, message, input);
      TailAfter(message, input);
      var index := count0 / 8 % 64;
      count0, count1 := AddBits(count0, count1, |input|, |message|);
      Absorb(input, index, Tail(message));
      message := message + input;
    }

    method Pad()
      requires Valid()
      modifies this, buffer
      ensures Valid() && message == old(message) + Padding(old(|message|)) + LengthBytes(R, old(|message|))
    {
      ghost var n := |message|;
      IndexOfCount(n);
      PadPrefix(n);
      var padding: seq<byte> := [0x80] + Zeros(63);
      var bits := R.encode([R.word(count0), R.word(count1)]);
      assert |bits| == 8;
      var index := count0 / 8 % 64;
      var padLen := if index < 56 then 56 - index else 120 - index;
      Update(padding[..padLen]);
      Update(bits);
    }

    /** The digest of the message; the context is used up. */
    method Final() returns (digest: seq<byte>)
      requires Valid()
      modifies this, buffer
      ensures Sound() && digest == Digest(R, old(message)) && |digest| == 16
    {
      Pad();
      digest := R.encode([state.a, state.b, state.c, state.d]);
    }
  }

  /** The padding cut from the 64-byte table is that of section 3.1 of RFC 1321. */
  lemma PadPrefix(n: nat)
    ensures var index := n % 64;
            ([0x80] + Zeros(63))[..if index < 56 then 56 - index else 120 - index] == Padding(n)
  {}

  /** The padded message is a whole number of blocks. */
  lemma PaddedLength<W(!new)>(R: Primitives<W>, m: seq<byte>)
    requires Lawful(R)
    ensures |m + Padding(|m|) + LengthBytes(R, |m|)| % 64 == 0
  {
    var n := |m| + 1 + ZeroCount(|m|);
    PaddedSize(R, m);
    Completes(n);
  }

  lemma PaddedSize<W(!new)>(R: Primitives<W>, m: seq<byte>)
    requires Lawful(R)
    ensures |m + Padding(|m|) + LengthBytes(R, |m|)| == |m| + 1 + ZeroCount(|m|) + 8
  {
    assert |LengthBytes(R, |m|)| == 8;
  }

  lemma Completes(n: nat)
    requires n % 64 == 56
    ensures (n + 8) % 64 == 0
  {}

  function Concat(chunks: seq<seq<byte>>): seq<byte> {
    if chunks == [] then [] else Concat(chunks[..|chunks| - 1]) + chunks[|chunks| - 1]
  }

  /** Init, any number of Updates, Final: the digest does not depend on how the input was split. */
  method HashChunks<W(!new)>(R: Primitives<W>, chunks: seq<seq<byte>>) returns (digest: seq<byte>)
    requires Lawful(R) && forall i :: 0 <= i < |chunks| ==> |chunks[i]| <= TWO32 - 64
    ensures digest == Digest(R, Concat(chunks))
  {
    var ctx := new Md5Context(R);
    ctx.Init();
    for i := 0 to |chunks|
      invariant ctx.Valid() && ctx.R == R && fresh(ctx) && fresh(ctx.buffer) && ctx.message == Concat(chunks[..i])
    {
      ctx.Update(chunks[i]);
      assert chunks[..i + 1][..i] == chunks[..i];
    }
    assert chunks[..|chunks|] == chunks;
    digest := ctx.Final();
  }

  lemma NoMessage<W(!new)>(R: Primitives<W>, buffer: seq<byte>) returns (m: seq<byte>)
    requires Lawful(R) && |buffer| == 64
    ensures m == [] && FoldBlocks(R, R.initial, m) == R.initial && Remains(buffer, m)
    ensures 8 * |m| % TWO32 == 0 && 8 * |m| / TWO32 % TWO32 == 0
  {
    m := [];
  }

  lemma Prefix(held: seq<byte>, input: seq<byte>, n: nat, u: seq<byte>)
    requires n <= |input| && |held| + n == 64 && u == held + input
    ensures held + input[..n] == u[..64] && u[|held|..] == input
  {}

  lemma Suffix(held: seq<byte>, input: seq<byte>, i: nat, u: seq<byte>)
    requires i <= |input| && u == held + input
    ensures input[i..] == u[|held| + i..]
  {}

  /** The buffer starts with the bytes of u that do not fill a block. */
  predicate Remains(buffer: seq<byte>, u: seq<byte>) { |buffer| == 64 && buffer[..|u| % 64] == Tail(u) }

  lemma RemainsFrom(buffer: seq<byte>, u: seq<byte>, p: nat)
    requires p % 64 == 0 && p <= |u| < p + 64 && |buffer| == 64 && buffer[..|u| - p] == u[p..]
    ensures Remains(buffer, u)
  {}

  /** What is left over does not depend on earlier whole blocks. */
  lemma TailAfter(m: seq<byte>, input: seq<byte>)
    ensures Tail(m + input) == Tail(Tail(m) + input)
    ensures |m + input| % 64 == |Tail(m) + input| % 64
  {
    var b := |m| - |m| % 64;
    var u := Tail(m) + input;
    assert m + input == m[..b] + u;
    SameRemainder(b, |u|);
  }

  lemma SameRemainder(b: nat, n: nat)
    requires b % 64 == 0
    ensures (b + n) % 64 == n % 64
  {
    assert b == 64 * (b / 64);
  }
}
