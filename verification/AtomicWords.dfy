/**
 * The C types that include/atomic.h supports, as cells of module Atomics, and the macros derived
 * from atomic_exchange_and_add, whose tests are C expressions over the returned value.
 */
module AtomicWords {
  import opened Atomics

  /** The type of *mem: 8, 16, 32 or 64 bits. */
  datatype Width = Width(bits: nat, signed: bool)

  predicate Supported(w: Width) { w.bits in {8, 16, 32, 64} }

  function Pow2(n: nat): (p: nat)
    ensures p > 0
  {
    if n == 0 then 1 else 2 * Pow2(n - 1)
  }

  function Modulus(w: Width): int { Pow2(w.bits) }

  /** The least value of the type. */
  function Low(w: Width): int { if w.signed then -(Modulus(w) / 2) else 0 }

  predicate InRange(w: Width, x: int) { Low(w) <= x < Low(w) + Modulus(w) }

  /** The value in low..low + m that differs from x by a multiple of m. */
  function Into(low: int, m: nat, x: int): (r: int)
    requires m > 0
    ensures low <= r < low + m
    decreases if x < low then m + low - x else x - low
  {
    if x >= low + m then Into(low, m, x - m) else if x < low then Into(low, m, x + m) else x
  }

  lemma IntoShift(low: int, m: nat, x: int)
    requires m > 0
    ensures Into(low, m, x - m) == Into(low, m, x)
  {}

  /** Moving into the range first does not change where a sum ends up. */
  lemma {:induction false} IntoTwice(low: int, m: nat, x: int, v: int)
    requires m > 0
    ensures Into(low, m, Into(low, m, x) + v) == Into(low, m, x + v)
    decreases if x < low then m + low - x else x - low
  {
    if x >= low + m {
      IntoTwice(low, m, x - m, v);
      IntoShift(low, m, x + v);
      assert x - m + v == x + v - m;
    } else if x < low {
      IntoTwice(low, m, x + m, v);
      IntoShift(low, m, x + m + v);
      assert x + m + v - m == x + v;
    }
  }

  /** Ranges of the same size give congruent values. */
  lemma {:induction false} IntoOther(low: int, low': int, m: nat, x: int)
    requires m > 0
    ensures Into(low', m, Into(low, m, x)) == Into(low', m, x)
    decreases if x < low then m + low - x else x - low
  {
    if x >= low + m {
      IntoOther(low, low', m, x - m);
      IntoShift(low', m, x);
    } else if x < low {
      IntoOther(low, low', m, x + m);
      IntoShift(low', m, x + m);
    }
  }

  /** A multiple of twice m is a multiple of m. */
  lemma {:induction false} IntoHalf(m: nat, x: int)
    requires m > 0 && Into(0, 2 * m, x) == 0
    ensures Into(0, m, x) == 0
    decreases if x < 0 then 2 * m - x else x
  {
    if x >= 2 * m {
      IntoHalf(m, x - 2 * m);
      IntoShift(0, m, x);
      IntoShift(0, m, x - m);
    } else if x < 0 {
      IntoHalf(m, x + 2 * m);
      IntoShift(0, m, x + m);
      IntoShift(0, m, x + 2 * m);
    }
  }

  /** Conversion to the type of *mem. */
  function Wrap(w: Width, x: int): (r: int)
    ensures InRange(w, r)
  {
    Into(Low(w), Modulus(w), x)
  }

  lemma WrapKeeps(w: Width, x: int)
    requires InRange(w, x)
    ensures Wrap(w, x) == x
  {}

  lemma WrapShift(w: Width, x: int)
    ensures Wrap(w, x - Modulus(w)) == Wrap(w, x)
  {
    IntoShift(Low(w), Modulus(w), x);
  }

  /** Wrapping first does not change a sum. */
  lemma WrapTwice(w: Width, x: int, v: int)
    ensures Wrap(w, Wrap(w, x) + v) == Wrap(w, x + v)
  {
    IntoTwice(Low(w), Modulus(w), x, v);
  }

  // ---- bits ----

  predicate BitOf(u: nat, b: nat) { if b == 0 then u % 2 == 1 else BitOf(u / 2, b - 1) }

  /** Adding a clear bit sets it and changes no other. */
  lemma {:induction false} AddClearBit(u: nat, b: nat, c: nat)
    requires !BitOf(u, b)
    ensures BitOf(u + Pow2(b), c) <==> BitOf(u, c) || c == b
  {
    if b == 0 {
      assert (u + 1) / 2 == u / 2;
    } else {
      assert (u + Pow2(b)) / 2 == u / 2 + Pow2(b - 1);
      if c > 0 { AddClearBit(u / 2, b - 1, c - 1); }
    }
  }

  lemma {:induction false} AddClearBitFits(u: nat, b: nat, n: nat)
    requires b < n && u < Pow2(n) && !BitOf(u, b)
    ensures u + Pow2(b) < Pow2(n)
  {
    var h := Pow2(n - 1);
    assert Pow2(n) == 2 * h;
    if b > 0 {
      assert Pow2(b) == 2 * Pow2(b - 1) && u / 2 < h;
      AddClearBitFits(u / 2, b - 1, n - 1);
    }
  }

  /** The bits of x as an unsigned number. */
  function Unsigned(w: Width, x: int): nat
    requires InRange(w, x)
  {
    if x < 0 then x + Modulus(w) else x
  }

  predicate Bit(w: Width, x: int, b: nat) { BitOf(Unsigned(w, Wrap(w, x)), b) }

  /** oldval | 1 << b */
  function Or(w: Width, x: int, b: nat): int {
    if Bit(w, x, b) then x else Wrap(w, x + Pow2(b))
  }

  lemma OrWithin(w: Width, x: int, b: nat)
    requires InRange(w, x) && b < w.bits && !Bit(w, x, b)
    ensures Unsigned(w, Wrap(w, x + Pow2(b))) == Unsigned(w, x) + Pow2(b)
  {
    AddClearBitFits(Unsigned(w, x), b, w.bits);
    var y := x + Pow2(b);
    if InRange(w, y) {
      WrapKeeps(w, y);
    } else {
      WrapShift(w, y);
      WrapKeeps(w, y - Modulus(w));
    }
  }

  function CellOf(w: Width): Cell {
    Cell(x => InRange(w, x), x => Wrap(w, x), w.bits, (x, b: nat) => Bit(w, x, b), (x, b: nat) => Or(w, x, b))
  }

  /** Or sets its bit and no other. */
  lemma OrBits(w: Width, x: int, b: nat, c: nat)
    requires InRange(w, x) && b < w.bits
    ensures Bit(w, Or(w, x, b), c) <==> Bit(w, x, c) || c == b
  {
    if !Bit(w, x, b) {
      OrWithin(w, x, b);
      WrapKeeps(w, Or(w, x, b));
      AddClearBit(Unsigned(w, x), b, c);
    }
  }

  /** The four unsigned and four signed types are cells. */
  lemma CellLawful(w: Width)
    ensures Lawful(CellOf(w))
  {
    var c := CellOf(w);
    forall x, v ensures WrapLaw(c, x, v) { WrapTwice(w, x, v); }
    forall x ensures RangeLaw(c, x) {}
    forall x, b: nat, k: nat ensures OrLaw(c, x, b, k) {
      if InRange(w, x) && b < w.bits { OrBits(w, x, b, k); }
    }
  }

  // ---- the derived macros ----

  const INT: Width := Width(32, true)

  predicate Narrow(w: Width) { w.bits < 32 }

  /** The type of an operand in an expression: types narrower than int become int. */
  function Promoted(w: Width): Width { if Narrow(w) then INT else w }

  /** The type in which two promoted operands are compared. */
  function Common(a: Width, b: Width): Width {
    if a.bits > b.bits then a
    else if b.bits > a.bits then b
    else Width(a.bits, a.signed && b.signed)
  }

  function IncrementAndTest(w: Width, oldval: int): bool { Wrap(Promoted(w), oldval + 1) == 0 }

  function DecrementAndTest(w: Width, oldval: int): bool { oldval == 1 }

  /** -value, in the promoted type t of the value. */
  function Negated(t: Width, v: int): int { Wrap(Promoted(t), -v) }

  /** The word has type w, the value type t. */
  function AddZero(w: Width, t: Width, oldval: int, v: int): bool {
    var c := Common(Promoted(w), Promoted(t));
    Wrap(c, oldval) == Wrap(c, Negated(t, v))
  }

  function AddNegative(w: Width, t: Width, oldval: int, v: int): bool {
    var c := Common(Promoted(w), Promoted(t));
    Wrap(c, oldval) < Wrap(c, Negated(t, v))
  }

  lemma WrapZero(w: Width, x: int)
    requires -Modulus(w) <= x <= Modulus(w)
    ensures Wrap(w, x) == 0 <==> x == 0 || x == Modulus(w) || x == -Modulus(w)
  {
    var d := Modulus(w);
    if x >= Low(w) + d {
      WrapShift(w, x);
      WrapKeeps(w, x - d);
    } else if x < Low(w) {
      WrapShift(w, x + d);
      WrapKeeps(w, x + d);
    } else {
      WrapKeeps(w, x);
    }
  }

  /** "Return true iff it's now zero" fails exactly for the largest value of a narrow unsigned type. */
  lemma IncrementAndTestExact(w: Width, oldval: int)
    requires Supported(w) && InRange(w, oldval)
    ensures (IncrementAndTest(w, oldval) <==> Apply(CellOf(w), Add(1), oldval) == 0)
       <==> !(Narrow(w) && !w.signed && oldval == Modulus(w) - 1)
  {
    AfterAdd(w, oldval, 1);
    IncrementTested(w, oldval, Wrap(w, oldval + 1));
  }

  lemma IncrementTested(w: Width, oldval: int, after: int)
    requires Supported(w) && InRange(w, oldval) && after == Wrap(w, oldval + 1)
    ensures (IncrementAndTest(w, oldval) <==> after == 0) <==> !(Narrow(w) && !w.signed && oldval == Modulus(w) - 1)
  {
    if Narrow(w) {
      FitsInt(w, oldval + 1);
      SupportedModulus(w);
      NarrowIncrement(w, oldval);
    }
  }

  lemma NarrowIncrement(w: Width, oldval: int)
    requires Modulus(w) >= 2 && InRange(w, oldval)
    ensures Wrap(w, oldval + 1) == 0 <==> oldval == -1 || (!w.signed && oldval == Modulus(w) - 1)
  {
    WrapZero(w, oldval + 1);
  }

  /** Sums of values of a narrow type fit an int. */
  lemma FitsInt(w: Width, x: int)
    requires Narrow(w) && Supported(w) && -2 * Modulus(w) <= x <= 2 * Modulus(w)
    ensures InRange(INT, x) && Wrap(INT, x) == x
  {
    NarrowModulus(w);
    assert Low(INT) == -0x8000_0000 && Modulus(INT) == 0x1_0000_0000;
    WrapKeeps(INT, x);
  }

  lemma NarrowModulus(w: Width)
    requires Narrow(w) && Supported(w)
    ensures Modulus(w) <= 65536 && Modulus(INT) == 0x1_0000_0000
  {
    assert Pow2(8) == 256;
    assert Pow2(16) == 65536 by { assert Pow2(12) == 4096; }
    assert Pow2(20) == 0x10_0000 && Pow2(24) == 0x100_0000 && Pow2(28) == 0x1000_0000 && Pow2(32) == 0x1_0000_0000;
  }

  /** An unsigned char goes from 255 to zero, and the test compares 256 with zero. */
  lemma IncrementAndTestExample()
    ensures var w := Width(8, false); !IncrementAndTest(w, 255) && Apply(CellOf(w), Add(1), 255) == 0
  {
    assert Pow2(4) == 16 && Pow2(8) == 256;
    WrapZero(Width(8, false), 256);
  }

  lemma SupportedModulus(w: Width)
    requires Supported(w)
    ensures Modulus(w) >= 256
  {
    assert Pow2(8) == 256;
    Pow2Grows(8, w.bits);
  }

  lemma {:induction false} Pow2Grows(a: nat, b: nat)
    requires a <= b
    ensures Pow2(a) <= Pow2(b)
    decreases b
  {
    if a < b { Pow2Grows(a, b - 1); }
  }

  /** The decrement test is right for every type. */
  lemma DecrementAndTestExact(w: Width, oldval: int)
    requires Supported(w) && InRange(w, oldval)
    ensures DecrementAndTest(w, oldval) <==> Apply(CellOf(w), Add(-1), oldval) == 0
  {
    SupportedModulus(w);
    WrapZero(w, oldval - 1);
  }

  // ---- atomic_add_zero ----

  /** x is a multiple of 2^n. */
  predicate Multiple(n: nat, x: int) { Into(0, Pow2(n), x) == 0 }

  lemma WrapsToZero(w: Width, x: int)
    ensures Wrap(w, x) == 0 <==> Multiple(w.bits, x)
  {
    IntoOther(Low(w), 0, Modulus(w), x);
    IntoOther(0, Low(w), Modulus(w), x);
  }

  /** Two numbers convert to the same value exactly when they differ by a multiple of the modulus. */
  lemma SameWrap(w: Width, x: int, y: int)
    ensures Wrap(w, x) == Wrap(w, y) <==> Multiple(w.bits, x - y)
  {
    WrapTwice(w, x, -y);
    WrapTwice(w, y, -y);
    WrapTwice(w, x - y, y);
    WrapsToZero(w, x - y);
    WrapKeeps(w, 0);
    WrapKeeps(w, Wrap(w, y));
  }

  lemma {:induction false} MultipleBelow(a: nat, b: nat, x: int)
    requires a <= b && Multiple(b, x)
    ensures Multiple(a, x)
    decreases b
  {
    if a < b {
      IntoHalf(Pow2(b - 1), x);
      MultipleBelow(a, b - 1, x);
    }
  }

  /** Converting to a type of the same size first does not matter. */
  lemma WrapOther(w: Width, w': Width, x: int)
    requires w.bits == w'.bits
    ensures Wrap(w', Wrap(w, x)) == Wrap(w', x)
  {
    IntoOther(Low(w), Low(w'), Modulus(w), x);
  }

  /** The value's type is at least as wide as the word: the test asks for a multiple of its modulus. */
  lemma AddZeroWideValue(w: Width, t: Width, oldval: int, v: int)
    requires Promoted(t).bits >= Promoted(w).bits
    ensures AddZero(w, t, oldval, v) <==> Multiple(Promoted(t).bits, oldval + v)
  {
    var c := Common(Promoted(w), Promoted(t));
    WrapOther(Promoted(t), c, -v);
    SameWrap(c, oldval, -v);
  }

  /** The value's type is narrower than the word: the test compares with the negation in that type. */
  lemma AddZeroNarrowValue(w: Width, t: Width, oldval: int, v: int)
    requires InRange(w, oldval) && Promoted(t).bits < Promoted(w).bits == w.bits
    ensures AddZero(w, t, oldval, v) <==> oldval == Wrap(w, Negated(t, v))
  {
    WrapKeeps(w, oldval);
  }

  /**
   * The zero test fails exactly in two families: the word is narrower than the value's promoted
   * type and the sum wraps round to zero in the word only; or it is wider, the value is unsigned
   * and not zero or the least of its signed type, so that its negation there is not its negation
   * in the word's type, and the word is one of the two.
   */
  lemma AddZeroExact(w: Width, t: Width, oldval: int, v: int)
    requires t.bits > 0 && InRange(w, oldval) && InRange(t, v)
    ensures (AddZero(w, t, oldval, v) <==> Apply(CellOf(w), Add(v), oldval) == 0)
       <==> !(if Promoted(t).bits >= w.bits then Multiple(w.bits, oldval + v) && !Multiple(Promoted(t).bits, oldval + v)
              else Unnegated(Promoted(t), v) && (oldval == Wrap(w, Negated(t, v)) || oldval == Wrap(w, -v)))
  {
    NowZero(w, oldval, v);
    PromotedIncludes(t, Promoted(t), v);
    AddZeroSplit(w, t, Promoted(t), oldval, v);
  }

  lemma AddZeroSplit(w: Width, t: Width, p: Width, oldval: int, v: int)
    requires InRange(w, oldval) && p == Promoted(t) && InRange(p, v) && p.bits > 0
    ensures p.bits >= w.bits ==> (AddZero(w, t, oldval, v) <==> Multiple(p.bits, oldval + v))
    ensures p.bits >= w.bits && Multiple(p.bits, oldval + v) ==> Multiple(w.bits, oldval + v)
    ensures p.bits < w.bits ==> (AddZero(w, t, oldval, v) <==> oldval == Wrap(w, Wrap(p, -v)))
    ensures p.bits < w.bits ==> (Wrap(w, Wrap(p, -v)) != Wrap(w, -v) <==> Unnegated(p, v))
  {
    if p.bits >= w.bits {
      AddZeroWideValue(w, t, oldval, v);
      if Multiple(p.bits, oldval + v) { MultipleBelow(w.bits, p.bits, oldval + v); }
    } else {
      AddZeroNarrowValue(w, t, oldval, v);
      NegationsDiffer(w, p, v);
    }
  }

  /** The value's negation in type p is not its negation as a number. */
  predicate Unnegated(p: Width, v: int) { if p.signed then v == Low(p) else v != 0 }

  /** When negation in a narrower type is not negation in the word's. */
  lemma NegationsDiffer(w: Width, p: Width, v: int)
    requires 0 < p.bits < w.bits && InRange(p, v)
    ensures Wrap(w, Wrap(p, -v)) != Wrap(w, -v) <==> Unnegated(p, v)
  {
    NegationIs(p, v);
    SameWrap(w, Negation(p, v), -v);
    EvenModulus(p);
    Pow2Grows(p.bits + 1, w.bits);
    SmallMultiple(w.bits, Negation(p, v) + v);
  }

  lemma SmallMultiple(n: nat, x: int)
    requires x + Pow2(n) > 0 && x < Pow2(n)
    ensures Multiple(n, x) <==> x == 0
  {
    IntoShift(0, Pow2(n), x + Pow2(n));
  }

  /** The word is zero after the addition. */
  lemma NowZero(w: Width, oldval: int, v: int)
    requires InRange(w, oldval)
    ensures Apply(CellOf(w), Add(v), oldval) == 0 <==> Multiple(w.bits, oldval + v)
    ensures Apply(CellOf(w), Add(v), oldval) == 0 <==> oldval == Wrap(w, -v)
  {
    WrapsToZero(w, oldval + v);
    SameWrap(w, oldval, -v);
    WrapKeeps(w, oldval);
  }

  /** An unsigned char at 255 becomes zero when 1 is added, and the test compares 255 with -1. */
  lemma AddZeroNarrowExample()
    ensures var w := Width(8, false); !AddZero(w, INT, 255, 1) && Apply(CellOf(w), Add(1), 255) == 0
  {
    var w := Width(8, false);
    NarrowModulus(w);
    assert Pow2(8) == 256;
    WrapZero(w, 256);
    assert Low(INT) == -0x8000_0000;
    WrapKeeps(INT, 255);
    WrapKeeps(INT, -1);
  }

  /** A 64-bit word of all ones becomes zero when 1u is added, and the test compares it with 2^32 - 1. */
  lemma AddZeroWideExample()
    ensures var w, t := Width(64, false), Width(32, false);
            !AddZero(w, t, Modulus(w) - 1, 1) && Apply(CellOf(w), Add(1), Modulus(w) - 1) == 0
  {
    AllOnes(Width(64, false), Width(32, false));
  }

  lemma AllOnes(w: Width, t: Width)
    requires !w.signed && !t.signed && 32 <= t.bits < w.bits
    ensures !AddZero(w, t, Modulus(w) - 1, 1) && Apply(CellOf(w), Add(1), Modulus(w) - 1) == 0
  {
    Pow2Grows(t.bits + 1, w.bits);
    WrapZero(w, Modulus(w));
    WrapShift(t, Modulus(t) - 1);
    WrapKeeps(t, Modulus(t) - 1);
    WrapKeeps(w, Modulus(t) - 1);
    WrapKeeps(w, Modulus(w) - 1);
  }

  // ---- atomic_add_negative ----

  predicate TestedBelow(w: Width, t: Width, oldval: int, v: int) {
    BelowBound(Promoted(t), Common(Promoted(w), Promoted(t)), oldval, v)
  }

  /**
   * What the comparison, in type c with a value of type p, amounts to: the sum, as a number, lies
   * below a bound of zero or of a modulus. A value that is its own negation counts with the wrong
   * sign.
   */
  predicate BelowBound(p: Width, c: Width, oldval: int, v: int) {
    if v == 0 then c.signed && oldval < 0
    else if p.signed && v == Low(p) then oldval - v < if c.signed then 0 else Modulus(c)
    else if p.signed then oldval + v < if c.signed || v < 0 then 0 else Modulus(c)
    else oldval + v < if c.signed || oldval >= 0 then Modulus(p) else 0
  }

  /** The bit of the sum that becomes the sign of the word. */
  predicate TopBit(w: Width, x: int) { Into(0, Modulus(w), x) >= Modulus(w) / 2 }

  /**
   * For every type of word and of value: an unsigned word is never negative, so the test is right
   * exactly when the sum is not below the bound; a signed word is negative when the top bit of the
   * sum is set, so the test is right exactly when that bit and the bound agree.
   */
  lemma AddNegativeExact(w: Width, t: Width, oldval: int, v: int)
    requires w.bits > 0 && t.bits > 0 && InRange(w, oldval) && InRange(t, v)
    ensures (AddNegative(w, t, oldval, v) <==> Apply(CellOf(w), Add(v), oldval) < 0)
       <==> if w.signed then TestedBelow(w, t, oldval, v) <==> TopBit(w, oldval + v) else !TestedBelow(w, t, oldval, v)
  {
    AfterAdd(w, oldval, v);
    NegativeTested(w, t, oldval, v, Wrap(w, oldval + v));
  }

  lemma NegativeTested(w: Width, t: Width, oldval: int, v: int, after: int)
    requires w.bits > 0 && t.bits > 0 && InRange(w, oldval) && InRange(t, v) && after == Wrap(w, oldval + v)
    ensures (AddNegative(w, t, oldval, v) <==> after < 0)
       <==> if w.signed then TestedBelow(w, t, oldval, v) <==> TopBit(w, oldval + v) else !TestedBelow(w, t, oldval, v)
  {
    var test, below := AddNegative(w, t, oldval, v), TestedBelow(w, t, oldval, v);
    TestIsBound(w, t, oldval, v);
    Verdict(w, oldval + v, test, after, below);
  }

  lemma Verdict(w: Width, sum: int, test: bool, after: int, below: bool)
    requires w.bits > 0 && test == below && after == Wrap(w, sum)
    ensures (test <==> after < 0) <==> if w.signed then below <==> TopBit(w, sum) else !below
  {
    SignOf(w, sum);
  }

  /** With a signed word and a signed value in its range: right exactly when the sum stays in the type. */
  lemma AddNegativeSigned(w: Width, t: Width, oldval: int, v: int)
    requires w.bits > 0 && t.bits > 0 && w.signed && t.signed && InRange(w, oldval)
    requires InRange(w, v) && InRange(t, v) && v != Low(Promoted(t))
    ensures (AddNegative(w, t, oldval, v) <==> Apply(CellOf(w), Add(v), oldval) < 0) <==> InRange(w, oldval + v)
  {
    AfterAdd(w, oldval, v);
    TestIsBound(w, t, oldval, v);
    SignedSum(w, oldval, v, AddNegative(w, t, oldval, v));
  }

  /** With a signed word and an unsigned value of its size: wrong for most small values. */
  lemma AddNegativeMixed(w: Width, t: Width, oldval: int, v: int)
    requires !Narrow(w) && w.signed && !t.signed && t.bits == w.bits
    requires InRange(w, oldval) && InRange(t, v)
    ensures (AddNegative(w, t, oldval, v) <==> Apply(CellOf(w), Add(v), oldval) < 0)
       <==> if oldval >= 0 then v == 0 || oldval + v >= Modulus(w) / 2 else v != 0 && oldval + v < Modulus(w) / 2
  {
    AfterAdd(w, oldval, v);
    TestIsBound(w, t, oldval, v);
    MixedSum(w, oldval, v);
  }

  lemma MixedSum(w: Width, oldval: int, v: int)
    requires w.bits > 0 && w.signed && InRange(w, oldval) && 0 <= v < Modulus(w)
    ensures Wrap(w, oldval + v) < 0 <==>
            oldval + v < 0 || Modulus(w) / 2 <= oldval + v < Modulus(w)
  {
    EvenModulus(w);
    var sum := oldval + v;
    if InRange(w, sum) {
      WrapKeeps(w, sum);
    } else {
      WrapShift(w, sum);
      WrapKeeps(w, sum - Modulus(w));
    }
  }

  /** With an unsigned word and a value of its size, signed or not: right exactly when the sum wraps or subtracts. */
  lemma AddNegativeUnsigned(w: Width, t: Width, oldval: int, v: int)
    requires !Narrow(w) && !w.signed && t.bits == w.bits
    requires InRange(w, oldval) && InRange(t, v)
    ensures (AddNegative(w, t, oldval, v) <==> Apply(CellOf(w), Add(v), oldval) < 0)
       <==> v == 0 || oldval + v >= if v < 0 then 0 else Modulus(w)
  {
    AfterAdd(w, oldval, v);
    TestIsBound(w, t, oldval, v);
    EvenModulus(w);
  }

  /** A signed sum that overflows is negative, and the test says no. */
  lemma AddNegativeOverflowExample()
    ensures !AddNegative(INT, INT, 0x7fff_ffff, 1) && Apply(CellOf(INT), Add(1), 0x7fff_ffff) < 0
  {
    IntRange();
    AddNegativeSigned(INT, INT, 0x7fff_ffff, 1);
    TestIsBound(INT, INT, 0x7fff_ffff, 1);
  }

  /** Adding 1u to an int of zero gives one, and the test says negative. */
  lemma AddNegativeMixedExample()
    ensures AddNegative(INT, UNSIGNED, 0, 1) && Apply(CellOf(INT), Add(1), 0) == 1
  {
    IntRange();
    TestIsBound(INT, UNSIGNED, 0, 1);
    AfterAdd(INT, 0, 1);
    WrapKeeps(INT, 1);
  }

  /** Adding -1 to an unsigned word of zero gives its largest value, and the test says negative. */
  lemma AddNegativeUnsignedExample()
    ensures AddNegative(UNSIGNED, INT, 0, -1) && Apply(CellOf(UNSIGNED), Add(-1), 0) == 0xffff_ffff
  {
    IntRange();
    TestIsBound(UNSIGNED, INT, 0, -1);
    AfterAdd(UNSIGNED, 0, -1);
    WrapShift(UNSIGNED, 0xffff_ffff);
    WrapKeeps(UNSIGNED, 0xffff_ffff);
  }

  const UNSIGNED: Width := Width(32, false)

  lemma IntRange()
    ensures Low(INT) == -0x8000_0000 && Modulus(INT) == 0x1_0000_0000 == Modulus(UNSIGNED)
  {
    NarrowModulus(Width(8, true));
  }

  lemma AfterAdd(w: Width, oldval: int, v: int)
    ensures Apply(CellOf(w), Add(v), oldval) == Wrap(w, oldval + v)
  {}

  /** The comparison, without conversions. */
  lemma TestIsBound(w: Width, t: Width, oldval: int, v: int)
    requires w.bits > 0 && t.bits > 0 && InRange(w, oldval) && InRange(t, v)
    ensures w.bits > 0 && AddNegative(w, t, oldval, v) == TestedBelow(w, t, oldval, v)
  {
    PromotedIncludes(w, Promoted(w), oldval);
    PromotedIncludes(t, Promoted(t), v);
    ComparedBelow(Promoted(w), Promoted(t), Common(Promoted(w), Promoted(t)), oldval, v);
  }

  lemma ComparedBelow(a: Width, p: Width, c: Width, oldval: int, v: int)
    requires a.bits > 0 && p.bits > 0 && c == Common(a, p) && InRange(a, oldval) && InRange(p, v)
    ensures Wrap(c, oldval) < Wrap(c, Wrap(p, -v)) <==> BelowBound(p, c, oldval, v)
  {
    BoundInCommon(a, p, c, oldval, v);
    LiftedBelow(p, c, Modulus(p), Modulus(c), Low(p), oldval, v);
  }

  /** The lifted sides, with the moduli as numbers. */
  lemma LiftedBelow(p: Width, c: Width, mp: int, mc: int, low: int, oldval: int, v: int)
    requires mp == Modulus(p) && mc == Modulus(c) && low == Low(p) && low <= v < low + mp
    requires oldval < 0 && !c.signed ==> c == p && Lifted(c, oldval) >= 0
    ensures Lifted(c, oldval) < Lifted(c, Negation(p, v)) <==> BelowBound(p, c, oldval, v)
  {}

  /** A promoted type has the values of the type. */
  lemma PromotedIncludes(w: Width, p: Width, x: int)
    requires w.bits > 0 && p == Promoted(w) && InRange(w, x)
    ensures InRange(p, x) && p.bits > 0
  {
    if Narrow(w) {
      Pow2Grows(w.bits, 31);
      EvenModulus(w);
      HalfInt(Pow2(31));
    }
  }

  lemma HalfInt(h: int)
    requires h == Pow2(31)
    ensures Modulus(INT) == 2 * h && Low(INT) == -h
  {}

  /** The two sides after conversion to the common type c of a and p. */
  lemma BoundInCommon(a: Width, p: Width, c: Width, oldval: int, v: int)
    requires a.bits > 0 && p.bits > 0 && c == Common(a, p) && InRange(a, oldval) && InRange(p, v)
    ensures Wrap(c, oldval) == Lifted(c, oldval) && Wrap(c, Wrap(p, -v)) == Lifted(c, Negation(p, v))
  {
    Converted(a, c, oldval);
    NegationIs(p, v);
    Converted(p, c, Negation(p, v));
  }

  /** -v in the type p. */
  function Negation(p: Width, v: int): int {
    if v == 0 then 0 else if !p.signed then Modulus(p) - v else if v == Low(p) then v else -v
  }

  lemma NegationIs(p: Width, v: int)
    requires p.bits > 0 && InRange(p, v)
    ensures Wrap(p, -v) == Negation(p, v)
  {
    EvenModulus(p);
    if InRange(p, -v) {
      WrapKeeps(p, -v);
    } else {
      WrapShift(p, Modulus(p) - v);
      WrapShift(p, -v);
      WrapKeeps(p, Negation(p, v));
    }
  }

  /** A number in the type c, where negative ones may count from the top. */
  function Lifted(c: Width, x: int): int { if c.signed || x >= 0 then x else x + Modulus(c) }

  /** Conversion to a type that is wider, or as wide and not signed if a is not. */
  lemma Converted(a: Width, c: Width, x: int)
    requires 0 < a.bits <= c.bits && InRange(a, x) && (c.signed ==> a.signed || a.bits < c.bits)
    ensures Wrap(c, x) == Lifted(c, x)
  {
    Pow2Grows(a.bits, c.bits);
    if a.bits < c.bits { Pow2Grows(a.bits + 1, c.bits); }
    EvenModulus(a);
    EvenModulus(c);
    if c.signed || x >= 0 {
      WrapKeeps(c, x);
    } else {
      WrapShift(c, x + Modulus(c));
      WrapKeeps(c, x + Modulus(c));
    }
  }

  lemma SignOf(w: Width, x: int)
    requires w.bits > 0
    ensures Wrap(w, x) < 0 <==> w.signed && TopBit(w, x)
  {
    if w.signed { SignIsTopBit(w, x); }
  }

  lemma SignIsTopBit(w: Width, x: int)
    requires w.bits > 0 && w.signed
    ensures Wrap(w, x) < 0 <==> TopBit(w, x)
  {
    EvenModulus(w);
    var u := Into(0, Modulus(w), x);
    IntoOther(0, Low(w), Modulus(w), x);
    if u < Modulus(w) / 2 {
      WrapKeeps(w, u);
    } else {
      WrapShift(w, u);
      WrapKeeps(w, u - Modulus(w));
    }
  }

  lemma EvenModulus(w: Width)
    requires w.bits > 0
    ensures Modulus(w) == 2 * (Modulus(w) / 2)
  {
    Halved(Modulus(w), Pow2(w.bits - 1));
  }

  lemma Halved(m: int, h: int)
    requires m == 2 * h
    ensures m == 2 * (m / 2)
  {}

  lemma SignedSum(w: Width, oldval: int, v: int, test: bool)
    requires w.bits > 0 && w.signed && InRange(w, oldval) && InRange(w, v) && (test <==> oldval < -v)
    ensures (test <==> Wrap(w, oldval + v) < 0) <==> InRange(w, oldval + v)
  {
    EvenModulus(w);
    var sum, d := oldval + v, Modulus(w);
    if InRange(w, sum) {
      WrapKeeps(w, sum);
    } else if sum < 0 {
      WrapShift(w, sum + d);
      WrapKeeps(w, sum + d);
    } else {
      WrapShift(w, sum);
      WrapKeeps(w, sum - d);
    }
  }
}
