/**
 * The MD5 block transform of libcrypt/md5.c: the steps of RFC 1321, section 3.4, and the four
 * builds of __md5_Transform, each proved to compute them.
 */
module Md5Steps {
  type byte = x: int | 0 <= x < 256

  const TWO32: nat := 0x1_0000_0000

  /**
   * What the transform does to single words and how blocks become words. Everything here holds
   * for any lawful choice; Md5Words has the one md5.c makes.
   */
  datatype Primitives<!W> = Primitives(
    mix: (nat, W, W, W) -> W,     // F, G, H, I by round
    rotate: (W, nat) -> W,
    add: (W, W) -> W,
    C: seq<W>,                    // the additive constant of each step
    P: seq<nat>,                  // the message word of each step
    S: seq<nat>,                  // four rotations per round
    initial: Regs<W>,
    word: nat -> W,               // a 32-bit count as a word
    decode: seq<byte> -> seq<W>,
    encode: seq<W> -> seq<byte>)

  predicate Tables<W>(R: Primitives<W>) {
    |R.C| == |R.P| == 64 && |R.S| == 16 && forall i :: 0 <= i < 64 ==> R.P[i] < 16
  }

  ghost predicate Lawful<W(!new)>(R: Primitives<W>) {
    && Tables(R)
    && (forall a, b, c :: R.add(R.add(a, b), c) == R.add(a, R.add(b, c)))
    && (forall s: seq<byte> :: |R.decode(s)| == |s| / 4)
    && (forall s: seq<W> :: |R.encode(s)| == 4 * |s|)
  }

  // ---- the steps of RFC 1321 ----

  /** The registers A, B, C, D. */
  datatype Regs<W> = Regs(a: W, b: W, c: W, d: W)

  /** The operation  a = b + ((a + f(b,c,d) + x + ac) <<< s)  of a round. */
  function Op<W>(R: Primitives<W>, round: nat, a: W, b: W, c: W, d: W, x: W, s: nat, ac: W): W {
    R.add(R.rotate(R.add(a, R.add(R.add(R.mix(round, b, c, d), x), ac)), s), b)
  }

  /** Step i replaces A, D, C, B in turn: the patterns ABCD, DABC, CDAB, BCDA. */
  function Step<W>(R: Primitives<W>, r: Regs<W>, x: seq<W>, i: nat): Regs<W>
    requires |x| == 16 && Tables(R) && i < 64
  {
    var w, s, t, q := x[R.P[i]], R.S[4 * (i / 16) + i % 4], R.C[i], i / 16;
    if i % 4 == 0 then r.(a := Op(R, q, r.a, r.b, r.c, r.d, w, s, t))
    else if i % 4 == 1 then r.(d := Op(R, q, r.d, r.a, r.b, r.c, w, s, t))
    else if i % 4 == 2 then r.(c := Op(R, q, r.c, r.d, r.a, r.b, w, s, t))
    else r.(b := Op(R, q, r.b, r.c, r.d, r.a, w, s, t))
  }

  function Steps<W>(R: Primitives<W>, r: Regs<W>, x: seq<W>, n: nat): Regs<W>
    requires |x| == 16 && Tables(R) && n <= 64
  {
    if n == 0 then r else Step(R, Steps(R, r, x, n - 1), x, n - 1)
  }

  function AddRegs<W>(R: Primitives<W>, r: Regs<W>, s: Regs<W>): Regs<W> {
    Regs(R.add(r.a, s.a), R.add(r.b, s.b), R.add(r.c, s.c), R.add(r.d, s.d))
  }

  /** The new state after one block of sixteen words. */
  function Transform<W>(R: Primitives<W>, state: Regs<W>, x: seq<W>): Regs<W>
    requires |x| == 16 && Tables(R)
  {
    AddRegs(R, state, Steps(R, state, x, 64))
  }

  // ---- rotating forms (MD5_SIZE_OVER_SPEED 3 and 2) ----

  /** The registers as the rotating forms hold them before step i. */
  function Rotated<W>(r: Regs<W>, i: nat): Regs<W> {
    if i % 4 == 0 then r
    else if i % 4 == 1 then Regs(r.d, r.a, r.b, r.c)
    else if i % 4 == 2 then Regs(r.c, r.d, r.a, r.b)
    else Regs(r.b, r.c, r.d, r.a)
  }

  /** A step with the registers moved along by one place. */
  function RotatingStep<W>(R: Primitives<W>, o: Regs<W>, x: seq<W>, i: nat): Regs<W>
    requires |x| == 16 && Tables(R) && i < 64
  {
    Regs(o.d, Op(R, i / 16, o.a, o.b, o.c, o.d, x[R.P[i]], R.S[4 * (i / 16) + i % 4], R.C[i]), o.b, o.c)
  }

  function RotatingSteps<W>(R: Primitives<W>, r: Regs<W>, x: seq<W>, n: nat): Regs<W>
    requires |x| == 16 && Tables(R) && n <= 64
  {
    if n == 0 then r else RotatingStep(R, RotatingSteps(R, r, x, n - 1), x, n - 1)
  }

  lemma RotatedStep<W>(R: Primitives<W>, r: Regs<W>, x: seq<W>, i: nat)
    requires |x| == 16 && Tables(R) && i < 64
    ensures Rotated(Step(R, r, x, i), i + 1) == RotatingStep(R, Rotated(r, i), x, i)
  {}

  /** Moving the registers instead of renaming them comes to the same after every step. */
  lemma {:induction false} RotatingStepsAgree<W>(R: Primitives<W>, r: Regs<W>, x: seq<W>, n: nat)
    requires |x| == 16 && Tables(R) && n <= 64
    ensures RotatingSteps(R, r, x, n) == Rotated(Steps(R, r, x, n), n)
  {
    if n > 0 {
      RotatingStepsAgree(R, r, x, n - 1);
      RotatedStep(R, Steps(R, r, x, n - 1), x, n - 1);
    }
  }

  lemma RotatingTransform<W>(R: Primitives<W>, state: Regs<W>, x: seq<W>)
    requires |x| == 16 && Tables(R)
    ensures AddRegs(R, state, RotatingSteps(R, state, x, 64)) == Transform(R, state, x)
  {
    RotatingStepsAgree(R, state, x, 64);
  }

  lemma Regroup<W(!new)>(R: Primitives<W>, a: W, f: W, x: W, t: W)
    requires Lawful(R)
    ensures R.add(R.add(a, f), R.add(x, t)) == R.add(a, R.add(R.add(f, x), t))
  {
    assert R.add(R.add(a, f), R.add(x, t)) == R.add(a, R.add(f, R.add(x, t)));
    assert R.add(R.add(f, x), t) == R.add(f, R.add(x, t));
  }

  /** The body of the merged loop. */
  method MergedStep<W(!new)>(R: Primitives<W>, o: Regs<W>, x: seq<W>, i: nat, ps: nat) returns (r: Regs<W>)
    requires |x| == 16 && Lawful(R) && i < 64 && ps == 4 * (i / 16)
    ensures r == RotatingStep(R, o, x, i)
  {
    var f := R.mix(i / 16, o.b, o.c, o.d);
    Regroup(R, o.a, f, x[R.P[i]], R.C[i]);
    var temp := o.a;
    temp := R.add(temp, f);
    temp := R.add(temp, R.add(x[R.P[i]], R.C[i]));
    temp := R.rotate(temp, R.S[ps + i % 4]);
    temp := R.add(temp, o.b);
    r := Regs(o.d, temp, o.b, o.c);
  }

  /** All four loops merged into one. */
  method TransformMerged<W(!new)>(R: Primitives<W>, state: Regs<W>, x: seq<W>) returns (r: Regs<W>)
    requires |x| == 16 && Lawful(R)
    ensures r == Transform(R, state, x)
  {
    var o := state;
    var ps := -4;
    ghost var q := 0;  // rounds begun
    for i := 0 to 64
      invariant ps == 4 * q - 4 && 16 * q - 16 < i <= 16 * q
      invariant o == RotatingSteps(R, state, x, i)
    {
      RoundStart(q, i);
      if i % 16 == 0 { ps, q := ps + 4, q + 1; }
      o := MergedStep(R, o, x, i, ps);
    }
    RotatingTransform(R, state, x);
    r := AddRegs(R, state, o);
  }

  /** One of the four loops of sixteen steps. */
  method RotatingRound<W>(R: Primitives<W>, round: nat, o: Regs<W>, x: seq<W>,
                          ghost state: Regs<W>) returns (r: Regs<W>)
    requires |x| == 16 && Tables(R) && round < 4 && o == RotatingSteps(R, state, x, 16 * round)
    ensures r == RotatingSteps(R, state, x, 16 * round + 16)
  {
    r := o;
    var ps := 4 * round;
    for i := 16 * round to 16 * round + 16
      invariant r == RotatingSteps(R, state, x, i)
    {
      RoundOf(round, i - 16 * round);
      var a := Op(R, round, r.a, r.b, r.c, r.d, x[R.P[i]], R.S[ps + i % 4], R.C[i]);
      r := Regs(r.d, a, r.b, r.c);
    }
  }

  method TransformRotating<W>(R: Primitives<W>, state: Regs<W>, x: seq<W>) returns (r: Regs<W>)
    requires |x| == 16 && Tables(R)
    ensures r == Transform(R, state, x)
  {
    r := RotatingRound(R, 0, state, x, state);
    r := RotatingRound(R, 1, r, x, state);
    r := RotatingRound(R, 2, r, x, state);
    r := RotatingRound(R, 3, r, x, state);
    RotatingTransform(R, state, x);
    r := AddRegs(R, state, r);
  }

  // ---- unrolled forms (MD5_SIZE_OVER_SPEED 1 and 0) ----

  /** The four rotations of each round. */
  function ShiftRow(q: nat): (r: seq<nat>)
    ensures |r| == 4
  {
    if q == 0 then [7, 12, 17, 22] else if q == 1 then [5, 9, 14, 20]
    else if q == 2 then [4, 11, 16, 23] else [6, 10, 15, 21]
  }

  /** The table S of the rotating forms has these rows; the unrolled forms write the numbers out. */
  ghost predicate ShiftTable<W>(R: Primitives<W>) {
    |R.S| == 16 && forall q :: 0 <= q < 4 ==> R.S[4 * q..4 * q + 4] == ShiftRow(q)
  }

  /** Four operations in a row, every register back in its place: words w, rotations s, constants t. */
  function Quad<W>(R: Primitives<W>, q: nat, r: Regs<W>, w: seq<W>, s: seq<nat>, t: seq<W>): Regs<W>
    requires |w| == |s| == |t| == 4 && Tables(R)
  {
    var a := Op(R, q, r.a, r.b, r.c, r.d, w[0], s[0], t[0]);
    var d := Op(R, q, r.d, a, r.b, r.c, w[1], s[1], t[1]);
    var c := Op(R, q, r.c, d, a, r.b, w[2], s[2], t[2]);
    var b := Op(R, q, r.b, c, d, a, w[3], s[3], t[3]);
    Regs(a, b, c, d)
  }

  lemma Residues(i: nat)
    requires i % 4 == 0
    ensures (i + 1) % 4 == 1 && (i + 2) % 4 == 2 && (i + 3) % 4 == 3
    ensures (i + 1) / 16 == (i + 2) / 16 == (i + 3) / 16 == i / 16
  {
    var k, m := i / 4, i / 16;
    var r := i - 16 * m;
    assert i == 4 * k && r == 4 * (k - 4 * m) && 0 <= r <= 12;
    RoundOf(m, r + 1);
    RoundOf(m, r + 2);
    RoundOf(m, r + 3);
    ResidueOf(k, 1);
    ResidueOf(k, 2);
    ResidueOf(k, 3);
  }

  lemma ResidueOf(k: nat, r: nat)
    requires r < 4
    ensures (4 * k + r) % 4 == r
  {}

  lemma RoundOf(q: nat, k: nat)
    requires k < 16
    ensures (16 * q + k) / 16 == q && (16 * q + k) % 16 == k
  {}

  lemma RoundStart(q: nat, i: nat)
    requires 16 * q - 16 < i <= 16 * q
    ensures i % 16 == 0 <==> i == 16 * q
    ensures i / 16 == if i == 16 * q then q else q - 1
  {
    if i == 16 * q { RoundOf(q, 0); } else { RoundOf(q - 1, i - 16 * (q - 1)); }
  }

  lemma GroupOf(q: nat, i: nat)
    requires i < 4
    ensures (16 * q + 4 * i) / 16 == q && (16 * q + 4 * i) % 4 == 0
  {
    RoundOf(q, 4 * i);
    assert 16 * q + 4 * i == 4 * (4 * q + i);
  }

  function StepWords<W>(R: Primitives<W>, x: seq<W>, i: nat): seq<W>
    requires |x| == 16 && Tables(R) && i < 61
  {
    [x[R.P[i]], x[R.P[i + 1]], x[R.P[i + 2]], x[R.P[i + 3]]]
  }

  lemma QuadIsFourSteps<W>(R: Primitives<W>, r: Regs<W>, x: seq<W>, i: nat)
    requires |x| == 16 && Tables(R) && i % 4 == 0 && i < 61
    ensures i / 16 < 4
    ensures Quad(R, i / 16, r, StepWords(R, x, i), R.S[4 * (i / 16)..4 * (i / 16) + 4], R.C[i..i + 4]) ==
            Step(R, Step(R, Step(R, Step(R, r, x, i), x, i + 1), x, i + 2), x, i + 3)
  {
    Residues(i);
  }

  lemma FourSteps<W>(R: Primitives<W>, state: Regs<W>, x: seq<W>, i: nat)
    requires |x| == 16 && Tables(R) && i < 61
    ensures Steps(R, state, x, i + 4) ==
            Step(R, Step(R, Step(R, Step(R, Steps(R, state, x, i), x, i), x, i + 1), x, i + 2), x, i + 3)
  {
    assert Steps(R, state, x, i + 4) == Step(R, Steps(R, state, x, i + 3), x, i + 3);
    assert Steps(R, state, x, i + 3) == Step(R, Steps(R, state, x, i + 2), x, i + 2);
    assert Steps(R, state, x, i + 2) == Step(R, Steps(R, state, x, i + 1), x, i + 1);
  }

  lemma QuadSteps<W>(R: Primitives<W>, q: nat, r: Regs<W>, x: seq<W>, state: Regs<W>, i: nat, w: seq<W>, s: seq<nat>,
                     t: seq<W>)
    requires |x| == 16 && Tables(R) && ShiftTable(R) && i % 4 == 0 && i < 61 && q == i / 16
    requires r == Steps(R, state, x, i)
    requires w == StepWords(R, x, i) && s == ShiftRow(q) && t == R.C[i..i + 4]
    ensures Quad(R, q, r, w, s, t) == Steps(R, state, x, i + 4)
  {
    QuadIsFourSteps(R, r, x, i);
    FourSteps(R, state, x, i);
  }

  /** A loop of four iterations with four operations each, whose rotations are s. */
  method FourPerIteration<W>(R: Primitives<W>, round: nat, s: seq<nat>, regs: Regs<W>, x: seq<W>, ghost state: Regs<W>)
    returns (r: Regs<W>)
    requires |x| == 16 && Tables(R) && ShiftTable(R) && round < 4 && s == ShiftRow(round)
    requires regs == Steps(R, state, x, 16 * round)
    ensures r == Steps(R, state, x, 16 * round + 16)
  {
    r := regs;
    var pp := 16 * round;
    for i := 0 to 4
      invariant pp == 16 * round + 4 * i
      invariant r == Steps(R, state, x, pp)
    {
      GroupOf(round, i);
      var w, t := StepWords(R, x, pp), R.C[pp..pp + 4];
      QuadSteps(R, round, r, x, state, pp, w, s, t);
      r := Quad(R, round, r, w, s, t);
      pp := pp + 4;
    }
  }

  method TransformPartlyUnrolled<W>(R: Primitives<W>, state: Regs<W>, x: seq<W>) returns (r: Regs<W>)
    requires |x| == 16 && Tables(R) && ShiftTable(R)
    ensures r == Transform(R, state, x)
  {
    r := FourPerIteration(R, 0, [7, 12, 17, 22], state, x, state);
    r := FourPerIteration(R, 1, [5, 9, 14, 20], r, x, state);
    r := FourPerIteration(R, 2, [4, 11, 16, 23], r, x, state);
    r := FourPerIteration(R, 3, [6, 10, 15, 21], r, x, state);
    r := AddRegs(R, state, r);
  }
}
