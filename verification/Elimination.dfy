/**
 * eliminate_other_arch of tkcond.c: folding the first comparison of a condition when it tests
 * ARCH or a variable that no statement defines.
 */
module Elimination {
  import opened Conditions

  /** What the pass reads besides the chain: variable names, the defined flags, $ARCH. */
  datatype Env = Env(name: nat -> string, defined: set<nat>, arch: string)

  /** The valuations a script can run under: ARCH is fixed, undefined variables are empty. */
  ghost predicate Admissible(env: Env, v: Valuation) {
    forall i: nat ::
      v(i) == if env.name(i) == "ARCH" then env.arch else if i in env.defined then v(i) else ""
  }

  predicate TestsArch(env: Env, c: Chain) {
    |c| >= 3 && c[0].Variable? && env.name(c[0].nameindex) == "ARCH" && IsComparison(c[1]) && c[2].Constant?
  }

  /** The comparison is with the current architecture, or excludes another one. */
  predicate ArchHolds(env: Env, c: Chain)
    requires TestsArch(env, c)
  {
    c[1].Eq? == (c[2].str == env.arch)
  }

  predicate TestsUndefined(env: Env, c: Chain) {
    |c| >= 3 && c[0].Variable? && c[0].nameindex !in env.defined && c[1].Eq? && c[2].Constant? && c[2].str != ""
  }

  /** The scan for an "-o" outside parentheses. */
  predicate HasOuterOr(c: Chain, depth: int) {
    c != [] && (
      if c[0].LParen? then HasOuterOr(c[1..], depth + 1)
      else if c[0].RParen? then HasOuterOr(c[1..], depth - 1)
      else (c[0].Or? && depth == 0) || HasOuterOr(c[1..], depth))
  }

  function Eliminate(env: Env, c: Chain): Chain {
    if TestsArch(env, c) then
      if |c| == 3 then [if ArchHolds(env, c) then True else False]
      else if c[3].Or? then if ArchHolds(env, c) then [True] else Eliminate(env, c[4..])
      else if c[3].And? then
        if ArchHolds(env, c) then Eliminate(env, c[4..])
        else if HasOuterOr(c[4..], 0) then c else [False]
      else c
    else if TestsUndefined(env, c) then
      if |c| == 3 || c[3].And? then [False]
      else if c[3].Or? then Eliminate(env, c[4..])
      else c
    else c
  }

  /** What follows the first "-o". */
  function AfterOr(c: Chain): Chain {
    if c == [] then [] else if c[0].Or? then c[1..] else AfterOr(c[1..])
  }

  /**
   * The alternatives that the rule marked "???" throws away: the first comparison left standing
   * tests an undefined variable, "-a" follows it, and this is what comes after a later "-o".
   */
  function DroppedTail(env: Env, c: Chain): Chain {
    if TestsArch(env, c) then
      if |c| > 3 && ((c[3].Or? && !ArchHolds(env, c)) || (c[3].And? && ArchHolds(env, c)))
      then DroppedTail(env, c[4..]) else []
    else if TestsUndefined(env, c) && |c| > 3 then
      if c[3].And? then AfterOr(c[4..])
      else if c[3].Or? then DroppedTail(env, c[4..]) else []
    else []
  }

  /** Without parentheses, a conjunction stops at the first "-o". */
  lemma {:induction false} ConjunctionStopsAtOr(c: Chain, v: Valuation)
    requires AllFlat(c) && Conjunction(c, v).Read?
    requires Conjunction(c, v).rest == [] || Conjunction(c, v).rest[0].Or?
    ensures HasOuterOr(c, 0) == (Conjunction(c, v).rest != [])
    ensures AfterOr(c) == if Conjunction(c, v).rest == [] then [] else Conjunction(c, v).rest[1..]
    decreases |c|
  {
    var u := Unit(c, v);
    UnitHasNoOr(c, v);
    if u.rest != [] && IsAnd(u.rest[0]) {
      ConjunctionStopsAtOr(u.rest[1..], v);
    }
  }

  lemma {:induction false} UnitHasNoOr(c: Chain, v: Valuation)
    requires AllFlat(c) && Unit(c, v).Read?
    ensures AllFlat(Unit(c, v).rest)
    ensures HasOuterOr(c, 0) == HasOuterOr(Unit(c, v).rest, 0)
    ensures AfterOr(c) == AfterOr(Unit(c, v).rest)
    decreases |c|
  {
    if c[0].Bang? {
      UnitHasNoOr(c[1..], v);
    } else {
      assert c[1..][1..] == c[2..] && c[2..][1..] == c[3..];
      assert HasOuterOr(c[1..], 0) == HasOuterOr(c[2..], 0) == HasOuterOr(c[3..], 0);
      assert AfterOr(c[1..]) == AfterOr(c[2..]) == AfterOr(c[3..]);
    }
  }

  /**
   * Folding keeps the truth value under every admissible valuation exactly when the alternatives
   * dropped by the "???" rule are false there.
   */
  lemma {:induction false} EliminateExact(env: Env, c: Chain, v: Valuation)
    requires FlatChain(c) && Admissible(env, v)
    ensures Meaning(Eliminate(env, c), v).Truth?
    ensures Meaning(Eliminate(env, c), v) == Meaning(c, v) <==> !Holds(DroppedTail(env, c), v)
    decreases |c|
  {
    WellFormedEverywhere(c, v);
    if TestsArch(env, c) {
      assert Value(c[0], v) == env.arch;
      FoldFirst(env, c, v);
    } else if TestsUndefined(env, c) {
      assert Value(c[0], v) == "";
      FoldFirst(env, c, v);
    }
  }

  lemma {:induction false} FoldFirst(env: Env, c: Chain, v: Valuation)
    requires FlatChain(c) && Admissible(env, v) && Meaning(c, v).Truth?
    requires TestsArch(env, c) || TestsUndefined(env, c)
    requires Compare(c[0], c[1], c[2], v) == (TestsArch(env, c) && ArchHolds(env, c))
    ensures Meaning(Eliminate(env, c), v).Truth?
    ensures Meaning(Eliminate(env, c), v) == Meaning(c, v) <==> !Holds(DroppedTail(env, c), v)
    decreases |c|, 0
  {
    var holds := TestsArch(env, c) && ArchHolds(env, c);
    assert Unit(c, v) == Read(holds, c[3..]);
    ConstantMeaning(if holds then True else False, v);
    if |c| > 3 && (c[3].And? || c[3].Or?) {
      var q := c[4..];
      assert c[3..][1..] == q;
      if c[3].Or? { HeadOr(c, v); } else { HeadAnd(c, v); }
      WellFormedEverywhere(q, v);
      if c[3].Or? || holds { EliminateExact(env, q, v); } else { FoldAnd(env, c, v); }
    } else if |c| == 3 {
      assert c == [c[0], c[1], c[2]];
      ComparisonMeaning(c[0], c[1], c[2], v);
    }
  }

  /** A false first comparison followed by "-a". */
  lemma FoldAnd(env: Env, c: Chain, v: Valuation)
    requires FlatChain(c) && Meaning(c, v).Truth? && |c| > 3 && c[3].And?
    requires Unit(c, v) == Read(false, c[3..])
    ensures !HasOuterOr(c[4..], 0) ==> Meaning(c, v) == Truth(false)
    ensures AfterOr(c[4..]) == [] ==> Meaning(c, v) == Truth(false)
    ensures Holds(c, v) == Holds(AfterOr(c[4..]), v)
  {
    var q := c[4..];
    assert c[3..][1..] == q;
    HeadAnd(c, v);
    ConjunctionStopsAtOr(q, v);
  }

  /** A caller can rule the loss out beforehand: chains joined by one operator lose nothing. */
  lemma EliminateUniform(env: Env, c: Chain, v: Valuation)
    requires FlatChain(c) && Admissible(env, v) && Uniform(c)
    ensures Meaning(Eliminate(env, c), v) == Meaning(c, v)
  {
    EliminateExact(env, c, v);
    UniformDropsNothing(env, c);
  }

  lemma {:induction false} UniformDropsNothing(env: Env, c: Chain)
    requires Uniform(c)
    ensures DroppedTail(env, c) == []
    decreases |c|
  {
    if |c| > 3 {
      if c[3].And? { assert IsAnd(c[3]); NoOrNoTail(c[4..]); }
      UniformDropsNothing(env, c[4..]);
    }
  }

  lemma {:induction false} NoOrNoTail(c: Chain)
    requires forall i :: 0 <= i < |c| ==> !c[i].Or?
    ensures AfterOr(c) == []
  {
    if c != [] { NoOrNoTail(c[1..]); }
  }

  // ---- what is folded away ----

  /** A comparison that is settled beforehand: of ARCH, or of an undefined variable with a value. */
  predicate Decided(env: Env, x: Token, op: Token, y: Token) {
    x.Variable? && y.Constant? &&
    if env.name(x.nameindex) == "ARCH" then op.Eq? || op.Neq?
    else x.nameindex !in env.defined && op.Eq? && y.str != ""
  }

  /** The chain is made of such comparisons. */
  predicate AllDecided(env: Env, c: Chain) {
    |c| >= 3 && Decided(env, c[0], c[1], c[2]) && (|c| > 3 ==> (c[3].And? || c[3].Or?) && AllDecided(env, c[4..]))
  }

  lemma {:induction false} NoOrNoOuterOr(c: Chain, depth: int)
    requires forall i :: 0 <= i < |c| ==> !c[i].Or?
    ensures !HasOuterOr(c, depth)
    decreases |c|
  {
    if c != [] {
      NoOrNoOuterOr(c[1..], depth);
      NoOrNoOuterOr(c[1..], depth + 1);
      NoOrNoOuterOr(c[1..], depth - 1);
    }
  }

  lemma {:induction false} FoldsToConstant(env: Env, c: Chain)
    requires AllDecided(env, c) && Uniform(c)
    ensures Eliminate(env, c) == [True] || Eliminate(env, c) == [False]
    decreases |c|
  {
    if |c| > 3 {
      FoldsToConstant(env, c[4..]);
      if c[3].And? {
        assert IsAnd(c[3]);
        NoOrNoOuterOr(c[4..], 0);
      }
    }
  }

  /**
   * Decided comparisons joined by one operator leave nothing of a condition but its truth value, so
   * what is meant for another architecture is pruned.
   */
  lemma FoldsAway(env: Env, c: Chain, v: Valuation)
    requires FlatChain(c) && AllDecided(env, c) && Uniform(c) && Admissible(env, v)
    ensures Eliminate(env, c) == [if Holds(c, v) then True else False]
  {
    FoldsToConstant(env, c);
    EliminateUniform(env, c, v);
    ConstantMeaning(True, v);
    ConstantMeaning(False, v);
  }

  function ExampleChain(): Chain {
    [Variable(0), Eq, Constant("y"), And, Variable(1), Eq, Constant("y"), Or, Variable(2), Eq, Constant("y")]
  }

  function ExampleValue(i: nat): string { if i == 1 || i == 2 then "y" else "" }

  /** The loss is real: with U undefined,  U = "y" -a A = "y" -o B = "y"  folds to FALSE. */
  lemma DropExample()
    ensures var env := Env(Blank, {1, 2}, "i386");
            Admissible(env, ExampleValue) && Holds(ExampleChain(), ExampleValue) &&
            Eliminate(env, ExampleChain()) == [False]
  {
    var y := Constant("y");
    var u, a, b := [Variable(0), Eq, y], [Variable(1), Eq, y], [Variable(2), Eq, y];
    ComparisonMeaning(Variable(2), Eq, y, ExampleValue);
    ExampleFront(u, a, y);
    OrSplit(u + [And] + a, b, ExampleValue);
    assert u + [And] + a + [Or] + b == ExampleChain();
  }

  lemma ExampleFront(u: Chain, a: Chain, y: Token)
    requires y == Constant("y") && u == [Variable(0), Eq, y] && a == [Variable(1), Eq, y]
    ensures Meaning(u + [And] + a, ExampleValue).Truth?
  {
    var ua := u + [And] + a;
    ComparisonMeaning(Variable(1), Eq, y, ExampleValue);
    assert Unit(ua, ExampleValue).rest == ua[3..] && ua[3..][1..] == a;
    HeadAnd(ua, ExampleValue);
  }

  /** Folding leaves a flat chain or one of the one-token chains TRUE and FALSE. */
  lemma {:induction false} EliminateShape(env: Env, c: Chain)
    requires FlatChain(c)
    ensures var e := Eliminate(env, c); e == [True] || e == [False] || FlatChain(e)
    decreases |c|
  {
    if |c| > 3 && (TestsArch(env, c) || TestsUndefined(env, c)) && (c[3].And? || c[3].Or?) {
      assert Unit(c, Blank).rest == c[3..] && c[3..][1..] == c[4..];
      assert c[3].Or? ==> Conjunction(c, Blank).rest == c[3..];
      assert c[3].And? ==> Conjunction(c, Blank).rest == Conjunction(c[4..], Blank).rest;
      EliminateShape(env, c[4..]);
    }
  }

  /** A chain that opens with a parenthesis, as dependency conditions do, is left alone. */
  lemma EliminateParenthesized(env: Env, c: Chain)
    requires c != [] && c[0].LParen?
    ensures Eliminate(env, c) == c
  {}
}
