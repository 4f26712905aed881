/**
 * Condition chains of tkparse.h and what they mean.
 *
 * A chain is read as the shell's test reads an if condition: "!" applies to the next comparison,
 * "-a" (op_and and op_and1) binds tighter than "-o", parentheses group. The generated script reads
 * "&&", "||" and parentheses the same way and differs for "!" only, which no guard contains.
 * The reading is a recursive-descent evaluator on the token list itself.
 */
module Conditions {
  datatype Token =
    | Eq | Neq | And | And1 | Or | Bang | LParen | RParen
    | Constant(str: string) | Variable(nameindex: nat)
    | True | False | Nuked

  type Chain = seq<Token>

  /** The value of every variable, by its index in the variable table. */
  type Valuation = nat -> string

  predicate IsOperand(t: Token) { t.Constant? || t.Variable? }

  predicate IsComparison(t: Token) { t.Eq? || t.Neq? }

  predicate IsAnd(t: Token) { t.And? || t.And1? }

  function Value(t: Token, v: Valuation): string
    requires IsOperand(t)
  {
    if t.Constant? then t.str else v(t.nameindex)
  }

  predicate Compare(x: Token, op: Token, y: Token, v: Valuation)
    requires IsOperand(x) && IsOperand(y)
  {
    (Value(x, v) == Value(y, v)) == op.Eq?
  }

  datatype Reading = Stuck | Read(value: bool, rest: Chain)

  function Unit(ts: Chain, v: Valuation): (r: Reading)
    ensures r.Read? ==> |r.rest| < |ts|
    decreases |ts|, 0
  {
    if ts == [] then Stuck
    else if ts[0].Bang? then
      var u := Unit(ts[1..], v);
      if u.Read? then Read(!u.value, u.rest) else Stuck
    else if ts[0].LParen? then
      var d := Disjunction(ts[1..], v);
      if d.Read? && d.rest != [] && d.rest[0].RParen? then Read(d.value, d.rest[1..]) else Stuck
    else if ts[0].True? || ts[0].False? then Read(ts[0].True?, ts[1..])
    else if |ts| >= 3 && IsOperand(ts[0]) && IsComparison(ts[1]) && IsOperand(ts[2]) then
      Read(Compare(ts[0], ts[1], ts[2], v), ts[3..])
    else Stuck
  }

  function Conjunction(ts: Chain, v: Valuation): (r: Reading)
    ensures r.Read? ==> |r.rest| < |ts|
    decreases |ts|, 1
  {
    var u := Unit(ts, v);
    if u.Read? && u.rest != [] && IsAnd(u.rest[0]) then
      var c := Conjunction(u.rest[1..], v);
      if c.Read? then Read(u.value && c.value, c.rest) else Stuck
    else u
  }

  function Disjunction(ts: Chain, v: Valuation): (r: Reading)
    ensures r.Read? ==> |r.rest| < |ts|
    decreases |ts|, 2
  {
    var c := Conjunction(ts, v);
    if c.Read? && c.rest != [] && c.rest[0].Or? then
      var d := Disjunction(c.rest[1..], v);
      if d.Read? then Read(c.value || d.value, d.rest) else Stuck
    else c
  }

  datatype Truth = Malformed | Truth(value: bool)

  /** The truth value of a whole chain; Malformed when it is not an expression. */
  function Meaning(ts: Chain, v: Valuation): Truth {
    var d := Disjunction(ts, v);
    if d.Read? && d.rest == [] then Truth(d.value) else Malformed
  }

  predicate Holds(ts: Chain, v: Valuation) { Meaning(ts, v) == Truth(true) }

  function Blank(i: nat): string { "" }

  predicate WellFormed(ts: Chain) { Meaning(ts, Blank).Truth? }

  /** A token that tokenize_if can produce. */
  predicate IsSource(t: Token) {
    IsOperand(t) || IsComparison(t) || t.And? || t.Or? || t.Bang?
  }

  predicate AllSource(ts: Chain) { forall i :: 0 <= i < |ts| ==> IsSource(ts[i]) }

  /** A token of a chain without parentheses and folded constants. */
  predicate IsFlat(t: Token) { IsSource(t) || t.And1? }

  predicate AllFlat(ts: Chain) { forall i :: 0 <= i < |ts| ==> IsFlat(ts[i]) }

  /** An expression without parentheses: an if condition, before or after the passes. */
  predicate FlatChain(ts: Chain) { AllFlat(ts) && WellFormed(ts) }

  predicate Uniform(ts: Chain) {
    (forall i :: 0 <= i < |ts| ==> !ts[i].Or?) || (forall i :: 0 <= i < |ts| ==> !IsAnd(ts[i]))
  }

  // ---- Properties of the reading ----

  predicate SameShape(r: Reading, s: Reading) { r.Read? == s.Read? && (r.Read? ==> r.rest == s.rest) }

  /** Whether a chain can be read, and how far, does not depend on the valuation: a unit. */
  lemma {:induction false} UnitShape(ts: Chain, v: Valuation, w: Valuation)
    ensures SameShape(Unit(ts, v), Unit(ts, w))
    decreases |ts|, 0
  {
    if ts != [] {
      if ts[0].Bang? { UnitShape(ts[1..], v, w); } else if ts[0].LParen? { ShapeFixed(ts[1..], v, w); }
    }
  }

  lemma {:induction false} ConjunctionShape(ts: Chain, v: Valuation, w: Valuation)
    ensures SameShape(Conjunction(ts, v), Conjunction(ts, w))
    decreases |ts|, 1
  {
    var u := Unit(ts, v);
    UnitShape(ts, v, w);
    if u.Read? && u.rest != [] { ConjunctionShape(u.rest[1..], v, w); }
  }

  lemma {:induction false} ShapeFixed(ts: Chain, v: Valuation, w: Valuation)
    ensures SameShape(Disjunction(ts, v), Disjunction(ts, w))
    decreases |ts|, 2
  {
    var c := Conjunction(ts, v);
    ConjunctionShape(ts, v, w);
    if c.Read? && c.rest != [] { ShapeFixed(c.rest[1..], v, w); }
  }

  /** So a well-formed chain has a truth value under every valuation. */
  lemma WellFormedEverywhere(ts: Chain, v: Valuation)
    ensures WellFormed(ts) == Meaning(ts, v).Truth?
  {
    ShapeFixed(ts, v, Blank);
  }

  predicate NotAnd(s: Chain) { s == [] || !IsAnd(s[0]) }

  predicate NotOp(s: Chain) { NotAnd(s) && (s == [] || !s[0].Or?) }

  /** Reading a chain does not look past the point where it stops: a unit. */
  lemma {:induction false} UnitAppend(ts: Chain, s: Chain, v: Valuation)
    requires Unit(ts, v).Read?
    ensures Unit(ts + s, v) == Read(Unit(ts, v).value, Unit(ts, v).rest + s)
    decreases |ts|, 0
  {
    assert (ts + s)[1..] == ts[1..] + s;
    if ts[0].Bang? {
      UnitAppend(ts[1..], s, v);
    } else if ts[0].LParen? {
      var d := Disjunction(ts[1..], v);
      DisjunctionAppend(ts[1..], s, v);
      assert (d.rest + s)[1..] == d.rest[1..] + s;
    } else if IsOperand(ts[0]) {
      assert (ts + s)[3..] == ts[3..] + s;
    }
  }

  lemma {:induction false} ConjunctionAppend(ts: Chain, s: Chain, v: Valuation)
    requires Conjunction(ts, v).Read? && (Conjunction(ts, v).rest != [] || NotAnd(s))
    ensures Conjunction(ts + s, v) == Read(Conjunction(ts, v).value, Conjunction(ts, v).rest + s)
    decreases |ts|, 1
  {
    var u := Unit(ts, v);
    UnitAppend(ts, s, v);
    if u.rest != [] && IsAnd(u.rest[0]) {
      ConjunctionAppend(u.rest[1..], s, v);
      assert (u.rest + s)[1..] == u.rest[1..] + s;
    }
  }

  lemma {:induction false} DisjunctionAppend(ts: Chain, s: Chain, v: Valuation)
    requires Disjunction(ts, v).Read? && (Disjunction(ts, v).rest != [] || NotOp(s))
    ensures Disjunction(ts + s, v) == Read(Disjunction(ts, v).value, Disjunction(ts, v).rest + s)
    decreases |ts|, 2
  {
    var c := Conjunction(ts, v);
    ConjunctionAppend(ts, s, v);
    if c.rest != [] && c.rest[0].Or? {
      DisjunctionAppend(c.rest[1..], s, v);
      assert (c.rest + s)[1..] == c.rest[1..] + s;
    }
  }

  predicate IsSuffix(r: Chain, c: Chain) { |r| <= |c| && r == c[|c| - |r|..] }

  /** Without parentheses, what a reading leaves over is a suffix. */
  lemma {:induction false} UnitSuffix(c: Chain, v: Valuation)
    requires AllFlat(c) && Unit(c, v).Read?
    ensures IsSuffix(Unit(c, v).rest, c)
    decreases |c|
  {
    if c[0].Bang? {
      UnitSuffix(c[1..], v);
      SuffixTrans(c, c[1..], Unit(c, v).rest);
    }
  }

  lemma {:induction false} ConjunctionSuffix(c: Chain, v: Valuation)
    requires AllFlat(c) && Conjunction(c, v).Read?
    ensures IsSuffix(Unit(c, v).rest, c) && IsSuffix(Conjunction(c, v).rest, c)
    decreases |c|
  {
    var r := Unit(c, v).rest;
    UnitSuffix(c, v);
    if r != [] && IsAnd(r[0]) {
      var d := r[1..];
      SuffixTail(c, r, d);
      ConjunctionSuffix(d, v);
      ConjunctionRest(c, v, d);
      SuffixTrans(c, d, Conjunction(d, v).rest);
    }
  }

  lemma ConjunctionRest(c: Chain, v: Valuation, d: Chain)
    requires var u := Unit(c, v); u.Read? && u.rest != [] && IsAnd(u.rest[0]) && d == u.rest[1..]
    requires Conjunction(d, v).Read?
    ensures Conjunction(c, v).Read? && Conjunction(c, v).rest == Conjunction(d, v).rest
  {}

  lemma SuffixTail(c: Chain, r: Chain, d: Chain)
    requires IsSuffix(r, c) && r != [] && d == r[1..]
    ensures IsSuffix(d, c) && (AllFlat(c) ==> AllFlat(d))
  {}

  lemma SuffixTrans(c: Chain, d: Chain, r: Chain)
    requires IsSuffix(d, c) && IsSuffix(r, d)
    ensures IsSuffix(r, c)
  {}

  /** A chain that starts with a unit and "||". */
  lemma HeadOr(c: Chain, v: Valuation)
    requires var u := Unit(c, v); u.Read? && u.rest != [] && u.rest[0].Or?
    ensures var q := Unit(c, v).rest[1..];
            Meaning(c, v) == if Meaning(q, v).Truth? then Truth(Unit(c, v).value || Holds(q, v)) else Malformed
  {
    assert Conjunction(c, v) == Unit(c, v);
  }

  /** A chain that starts with a unit and "&&". */
  lemma HeadAnd(c: Chain, v: Valuation)
    requires var u := Unit(c, v); u.Read? && u.rest != [] && IsAnd(u.rest[0])
    ensures var k := Conjunction(Unit(c, v).rest[1..], v);
            Conjunction(c, v) == if k.Read? then Read(Unit(c, v).value && k.value, k.rest) else Stuck
    ensures Meaning(c, v).Truth? == Meaning(Unit(c, v).rest[1..], v).Truth?
    ensures Unit(c, v).value ==> Meaning(c, v) == Meaning(Unit(c, v).rest[1..], v)
  {}

  lemma FirstReads(c: Chain, v: Valuation)
    requires Meaning(c, v).Truth?
    ensures Unit(c, v).Read? && Conjunction(c, v).Read? && c != []
  {
    assert Disjunction(c, v).Read?;
    assert Conjunction(c, v).Read?;
  }

  /** Without its first comparison and operator an expression is one. */
  lemma RestIsChain(c: Chain, v: Valuation)
    requires AllFlat(c) && Meaning(c, v).Truth?
    ensures Unit(c, v).Read? && IsRest(c, Unit(c, v).rest, v)
  {
    FirstReads(c, v);
    UnitSuffix(c, v);
    RestFollows(c, Unit(c, v).rest, v);
  }

  ghost predicate IsRest(c: Chain, r: Chain, v: Valuation) {
    && |r| < |c| && IsSuffix(r, c)
    && (r != [] ==> (IsAnd(r[0]) || r[0].Or?) && Meaning(r[1..], v).Truth?)
  }

  lemma RestFollows(c: Chain, r: Chain, v: Valuation)
    requires Meaning(c, v).Truth? && Unit(c, v).Read? && r == Unit(c, v).rest
    ensures r != [] ==> (IsAnd(r[0]) || r[0].Or?) && Meaning(r[1..], v).Truth?
  {
    if r != [] {
      assert !IsAnd(r[0]) ==> Conjunction(c, v) == Unit(c, v);
      assert !IsAnd(r[0]) && !r[0].Or? ==> Disjunction(c, v) == Unit(c, v);
      if IsAnd(r[0]) { HeadAnd(c, v); }
      if r[0].Or? { HeadOr(c, v); }
    }
  }

  lemma ConstantMeaning(t: Token, v: Valuation)
    requires t.True? || t.False?
    ensures Meaning([t], v) == Truth(t.True?)
  {
    assert Unit([t], v) == Read(t.True?, []);
    assert Conjunction([t], v) == Read(t.True?, []);
  }

  lemma ComparisonMeaning(x: Token, op: Token, y: Token, v: Valuation)
    requires IsOperand(x) && IsComparison(op) && IsOperand(y)
    ensures Conjunction([x, op, y], v) == Read(Compare(x, op, y, v), [])
    ensures Meaning([x, op, y], v) == Truth(Compare(x, op, y, v))
  {
    assert Unit([x, op, y], v) == Read(Compare(x, op, y, v), []);
  }

  /** "||" between two expressions is their disjunction. */
  lemma {:induction false} OrSplit(a: Chain, b: Chain, v: Valuation)
    requires Meaning(a, v).Truth? && Meaning(b, v).Truth?
    ensures Meaning(a + [Or] + b, v) == Truth(Holds(a, v) || Holds(b, v))
    decreases |a|
  {
    var c := Conjunction(a, v);
    assert a + [Or] + b == a + ([Or] + b) && ([Or] + b)[1..] == b;
    ConjunctionAppend(a, [Or] + b, v);
    if c.rest != [] {
      var a' := c.rest[1..];
      OrSplit(a', b, v);
      assert (c.rest + ([Or] + b))[1..] == a' + [Or] + b;
    } else {
      assert c.rest + ([Or] + b) == [Or] + b;
    }
  }
}
