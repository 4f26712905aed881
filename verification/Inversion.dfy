/**
 * What the else inversion of tkcond.c does to any condition, and exactly which conditions it
 * negates. The inversion swaps "-a" and "-o" without parentheses, so it groups the comparisons
 * differently: a chain is true when a run joined by "-a" is all true, its inversion when a run
 * joined by "-o" is all false.
 */
module Inversion {
  import opened Conditions
  import opened Negation

  // ---- runs of alternatives ----

  /** The comparisons up to the first "-a" are all false. */
  predicate LeadFalse(c: Chain, v: Valuation)
    decreases |c|
  {
    var u := Unit(c, v);
    u.Read? && !u.value && (u.rest != [] && u.rest[0].Or? ==> LeadFalse(u.rest[1..], v))
  }

  /** Some run joined by "-o", after the first "-a", is all false. */
  predicate LaterFalse(c: Chain, v: Valuation)
    decreases |c|, 0
  {
    var u := Unit(c, v);
    u.Read? && u.rest != [] && if IsAnd(u.rest[0]) then RunFalse(u.rest[1..], v) else LaterFalse(u.rest[1..], v)
  }

  /** Some run joined by "-o" is all false. */
  predicate RunFalse(c: Chain, v: Valuation)
    decreases |c|, 1
  {
    LeadFalse(c, v) || LaterFalse(c, v)
  }

  /** Where the leading run of alternatives ends: at an "-a" or at the end. */
  function AfterLead(c: Chain, v: Valuation): (r: Chain)
    ensures |r| <= |c|
    decreases |c|
  {
    var u := Unit(c, v);
    if u.Read? && u.rest != [] && u.rest[0].Or? then AfterLead(u.rest[1..], v) else if u.Read? then u.rest else c
  }

  /** How the inversion is read: its first conjunction is the leading run, its value that of some run. */
  ghost predicate ReadsAsRuns(c: Chain, v: Valuation) {
    var r := AfterLead(c, v);
    && (r != [] ==> r[0].And?)
    && Conjunction(Invert(c), v) == Read(LeadFalse(c, v), Invert(r))
    && (r == [] ==> !LaterFalse(c, v))
    && (r != [] ==> Disjunction(Invert(r[1..]), v) == Read(LaterFalse(c, v), []))
  }

  lemma RunsRead(c: Chain, v: Valuation)
    requires ReadsAsRuns(c, v)
    ensures Disjunction(Invert(c), v) == Read(RunFalse(c, v), [])
  {
    var r := AfterLead(c, v);
    if r != [] { assert Invert(r)[1..] == Invert(r[1..]); }
  }

  lemma {:induction false} InvertReads(c: Chain, v: Valuation)
    requires AllSource(c) && Meaning(c, v).Truth?
    ensures ReadsAsRuns(c, v)
    decreases |c|
  {
    RestIsChain(c, v);
    InvertUnit(c, v);
    var r := Unit(c, v).rest;
    if r != [] {
      var d := r[1..];
      InvertReads(d, v);
      RunsRead(d, v);
      if r[0].Or? { OrReads(c, r, d, v); } else { AndReads(c, r, d, v); }
    }
  }

  lemma AndReads(c: Chain, r: Chain, d: Chain, v: Valuation)
    requires Unit(c, v).Read? && r == Unit(c, v).rest && r != [] && r[0].And? && d == r[1..]
    requires Unit(Invert(c), v) == Read(!Unit(c, v).value, Invert(r))
    requires Disjunction(Invert(d), v) == Read(RunFalse(d, v), [])
    ensures ReadsAsRuns(c, v)
  {
    assert Conjunction(Invert(c), v) == Unit(Invert(c), v);
  }

  lemma OrReads(c: Chain, r: Chain, d: Chain, v: Valuation)
    requires Unit(c, v).Read? && r == Unit(c, v).rest && r != [] && r[0].Or? && d == r[1..]
    requires Unit(Invert(c), v) == Read(!Unit(c, v).value, Invert(r)) && ReadsAsRuns(d, v)
    ensures ReadsAsRuns(c, v)
  {
    assert Invert(r)[1..] == Invert(d);
  }

  /** The inversion is true exactly when some run joined by "-o" is all false. */
  lemma InvertMeaning(c: Chain, v: Valuation)
    requires AllSource(c) && Meaning(c, v).Truth?
    ensures Meaning(Invert(c), v) == Truth(RunFalse(c, v))
  {
    InvertReads(c, v);
    RunsRead(c, v);
  }

  /** A conjunction other than the first one holds. */
  predicate LaterTrue(c: Chain, v: Valuation) {
    var k := Conjunction(c, v);
    k.Read? && k.rest != [] && k.rest[0].Or? && Holds(k.rest[1..], v)
  }

  lemma {:induction false} OneOfBoth(c: Chain, v: Valuation)
    requires AllFlat(c) && Meaning(c, v).Truth?
    ensures BothWays(c, v)
    decreases |c|
  {
    RestIsChain(c, v);
    var r := Unit(c, v).rest;
    if r != [] {
      OneOfBoth(r[1..], v);
      if IsAnd(r[0]) { AndBothWays(c, r, r[1..], v); } else { OrBothWays(c, r, r[1..], v); }
    } else {
      assert Conjunction(c, v) == Unit(c, v);
    }
  }

  /** A true first comparison leads to a true conjunction or a false run after it, a false one likewise. */
  ghost predicate BothWays(c: Chain, v: Valuation) {
    && Unit(c, v).Read?
    && if Unit(c, v).value then Holds(c, v) || LaterFalse(c, v) else RunFalse(c, v) || LaterTrue(c, v)
  }

  lemma AndBothWays(c: Chain, r: Chain, d: Chain, v: Valuation)
    requires Unit(c, v).Read? && r == Unit(c, v).rest && r != [] && IsAnd(r[0]) && d == r[1..]
    requires Meaning(d, v).Truth? && BothWays(d, v)
    ensures BothWays(c, v)
  {
    HeadAnd(c, v);
    LaterHolds(d, v);
  }

  lemma OrBothWays(c: Chain, r: Chain, d: Chain, v: Valuation)
    requires Unit(c, v).Read? && r == Unit(c, v).rest && r != [] && r[0].Or? && d == r[1..]
    requires Meaning(d, v).Truth? && BothWays(d, v)
    ensures BothWays(c, v)
  {
    HeadOr(c, v);
    LaterHolds(d, v);
    assert Conjunction(c, v) == Unit(c, v);
  }

  lemma LaterHolds(c: Chain, v: Valuation)
    requires Meaning(c, v).Truth?
    ensures LaterTrue(c, v) ==> Holds(c, v)
  {}

  /** The inversion never loses a case: where the condition is false, the inversion is true. */
  lemma InversionCovers(c: Chain, v: Valuation)
    requires AllSource(c) && Meaning(c, v).Truth?
    ensures Holds(c, v) || Holds(Invert(c), v)
  {
    InvertMeaning(c, v);
    OneOfBoth(c, v);
    LaterHolds(c, v);
  }

  /** It negates the condition exactly where no true condition has a run of alternatives all false. */
  lemma InversionAt(c: Chain, v: Valuation)
    requires AllSource(c) && Meaning(c, v).Truth?
    ensures Meaning(Invert(c), v).Truth?
    ensures Holds(Invert(c), v) == !Holds(c, v) <==> !(Holds(c, v) && RunFalse(c, v))
  {
    InvertMeaning(c, v);
    OneOfBoth(c, v);
    LaterHolds(c, v);
  }

  // ---- exactly which conditions are negated under every valuation ----

  /** The comparison of a variable with a constant. */
  datatype Literal = Literal(name: nat, value: string, equal: bool)

  predicate Satisfies(v: Valuation, l: Literal) { (v(l.name) == l.value) == l.equal }

  function Flipped(ls: seq<Literal>): seq<Literal> {
    seq(|ls|, i requires 0 <= i < |ls| => ls[i].(equal := !ls[i].equal))
  }

  function Spelled(l: Literal): Chain { [Variable(l.name), if l.equal then Eq else Neq, Constant(l.value)] }

  /** The condition  ls[0] ops[0] ls[1] ops[1] ... */
  function Spell(ls: seq<Literal>, ops: Chain): Chain
    requires |ls| == |ops| + 1
  {
    Spelled(ls[0]) + if ops == [] then [] else [ops[0]] + Spell(ls[1..], ops[1..])
  }

  /** Variables are compared with constants, and there is no "!". */
  predicate TestsConstants(c: Chain) {
    && Bang !in c
    && forall i {:trigger c[i]} :: 0 <= i < |c| && IsComparison(c[i]) ==>
         i > 0 && i + 1 < |c| && c[i - 1].Variable? && c[i + 1].Constant?
  }

  /** Every condition of that kind is spelled by its comparisons and operators. */
  lemma {:induction false} SpellsAll(c: Chain) returns (ls: seq<Literal>, ops: Chain)
    requires AllSource(c) && WellFormed(c) && TestsConstants(c)
    ensures |ls| == |ops| + 1 && Operators(ops) && Spell(ls, ops) == c
    decreases |c|
  {
    RestIsChain(c, Blank);
    FirstComparison(c);
    var l, r := Literal(c[0].nameindex, c[2].str, c[1].Eq?), c[3..];
    assert c == Spelled(l) + r;
    if r == [] {
      ls, ops := [l], [];
    } else {
      TailTests(c);
      var ls', ops' := SpellsAll(c[4..]);
      ls, ops := [l] + ls', [c[3]] + ops';
      assert ls[1..] == ls' && ops[1..] == ops' && r == [c[3]] + c[4..];
    }
  }

  lemma FirstComparison(c: Chain)
    requires AllSource(c) && TestsConstants(c) && Unit(c, Blank).Read?
    ensures |c| >= 3 && c[0].Variable? && IsComparison(c[1]) && c[2].Constant? && Unit(c, Blank).rest == c[3..]
  {
    assert c[0] in c;
    assert IsComparison(c[1]);
  }

  lemma TailTests(c: Chain)
    requires AllSource(c) && TestsConstants(c) && |c| > 3 && !IsOperand(c[3])
    ensures AllSource(c[4..]) && TestsConstants(c[4..])
  {
    var d := c[4..];
    forall i {:trigger d[i]} | 0 <= i < |d| && IsComparison(d[i])
      ensures i > 0 && i + 1 < |d| && d[i - 1].Variable? && d[i + 1].Constant?
    {
      assert d[i] == c[i + 4];
    }
  }

  predicate Operators(ops: Chain) { forall i :: 0 <= i < |ops| ==> ops[i].And? || ops[i].Or? }

  predicate Joins(ops: Chain) { forall i :: 0 <= i < |ops| ==> IsAnd(ops[i]) || ops[i].Or? }

  /** The comparisons from i to j are joined by "-a", and no further ones. */
  predicate AndRun(ops: Chain, i: nat, j: nat) {
    && i <= j <= |ops| && (i == 0 || ops[i - 1].Or?) && (j == |ops| || ops[j].Or?)
    && forall k :: i <= k < j ==> IsAnd(ops[k])
  }

  /** The comparisons from i to j are joined by "-o", and no further ones. */
  predicate OrRun(ops: Chain, i: nat, j: nat) {
    && i <= j <= |ops| && (i == 0 || IsAnd(ops[i - 1])) && (j == |ops| || IsAnd(ops[j]))
    && forall k :: i <= k < j ==> ops[k].Or?
  }

  lemma RunsSwap(ops: Chain, i: nat, j: nat)
    requires Operators(ops)
    ensures OrRun(ops, i, j) <==> AndRun(Invert(ops), i, j)
  {
    var inv := Invert(ops);
    assert forall k :: 0 <= k < |ops| ==> (IsAnd(inv[k]) <==> ops[k].Or?) && (inv[k].Or? <==> IsAnd(ops[k]));
  }

  predicate AllSatisfied(v: Valuation, ls: seq<Literal>) { forall i :: 0 <= i < |ls| ==> Satisfies(v, ls[i]) }

  lemma SpellFirst(ls: seq<Literal>, ops: Chain, v: Valuation)
    requires |ls| == |ops| + 1
    ensures var c, u := Spell(ls, ops), Unit(Spell(ls, ops), v);
            && u.Read? && u.value == Satisfies(v, ls[0]) && (u.rest == [] <==> ops == [])
            && (ops != [] ==> u.rest[0] == ops[0] && u.rest[1..] == Spell(ls[1..], ops[1..]))
  {
    var c := Spell(ls, ops);
    var t := if ops == [] then [] else [ops[0]] + Spell(ls[1..], ops[1..]);
    assert c[3..] == t;
    if ops != [] { assert t[1..] == Spell(ls[1..], ops[1..]); }
  }

  /** What stands after the first operator. */
  lemma SpellSplit(ls: seq<Literal>, ops: Chain, v: Valuation)
    requires |ls| == |ops| + 1 && ops != [] && Joins(ops) && Meaning(Spell(ls[1..], ops[1..]), v).Truth?
    ensures var c, d, first := Spell(ls, ops), Spell(ls[1..], ops[1..]), Satisfies(v, ls[0]);
            && Meaning(c, v).Truth?
            && (ops[0].Or? ==> Holds(c, v) == (first || Holds(d, v)) && LaterTrue(c, v) == Holds(d, v))
            && (IsAnd(ops[0]) ==> (first ==> Holds(c, v) == Holds(d, v)) && LaterTrue(c, v) == LaterTrue(d, v))
            && (IsAnd(ops[0]) && !first ==> Holds(c, v) == LaterTrue(c, v))
  {
    SpellFirst(ls, ops, v);
    SplitChain(Spell(ls, ops), Spell(ls[1..], ops[1..]), v);
  }

  lemma SplitChain(c: Chain, d: Chain, v: Valuation)
    requires var u := Unit(c, v); u.Read? && u.rest != [] && (IsAnd(u.rest[0]) || u.rest[0].Or?) && u.rest[1..] == d
    requires Meaning(d, v).Truth?
    ensures Meaning(c, v).Truth?
    ensures var u := Unit(c, v); var first := u.value;
            && (u.rest[0].Or? ==> Holds(c, v) == (first || Holds(d, v)) && LaterTrue(c, v) == Holds(d, v))
            && (IsAnd(u.rest[0]) ==> (first ==> Holds(c, v) == Holds(d, v)) && LaterTrue(c, v) == LaterTrue(d, v))
            && (IsAnd(u.rest[0]) && !first ==> Holds(c, v) == LaterTrue(c, v))
  {
    FirstReads(d, v);
    if Unit(c, v).rest[0].Or? {
      HeadOr(c, v);
      assert Conjunction(c, v) == Unit(c, v);
    } else {
      HeadAnd(c, v);
    }
  }

  lemma {:induction false} SpellTruth(ls: seq<Literal>, ops: Chain, v: Valuation)
    requires |ls| == |ops| + 1 && Joins(ops)
    ensures Meaning(Spell(ls, ops), v).Truth?
    ensures ops == [] ==> Holds(Spell(ls, ops), v) == Satisfies(v, ls[0]) && !LaterTrue(Spell(ls, ops), v)
    decreases |ops|
  {
    if ops == [] {
      SpellFirst(ls, ops, v);
      assert Conjunction(Spell(ls, ops), v) == Unit(Spell(ls, ops), v);
    } else {
      SpellTruth(ls[1..], ops[1..], v);
      SpellSplit(ls, ops, v);
    }
  }

  lemma RunShift(ops: Chain, i: nat, j: nat)
    requires ops != [] && AndRun(ops[1..], i, j)
    ensures ops[0].Or? || i > 0 ==> AndRun(ops, i + 1, j + 1)
    ensures IsAnd(ops[0]) && i == 0 ==> AndRun(ops, 0, j + 1)
  {
    assert forall k :: 0 <= k < |ops| - 1 ==> ops[1..][k] == ops[k + 1];
  }

  lemma RunUnshift(ops: Chain, i: nat, j: nat)
    requires ops != [] && AndRun(ops, i, j) && j > 0
    ensures i > 0 ==> AndRun(ops[1..], i - 1, j - 1) && (IsAnd(ops[0]) ==> i > 1)
    ensures i == 0 ==> AndRun(ops[1..], 0, j - 1)
  {
    assert forall k :: 0 <= k < |ops| - 1 ==> ops[1..][k] == ops[k + 1];
  }

  /** A true condition has a run joined by "-a" that is all true. */
  lemma {:induction false} HoldsRun(ls: seq<Literal>, ops: Chain, v: Valuation, later: bool) returns (i: nat, j: nat)
    requires |ls| == |ops| + 1 && Joins(ops)
    requires if later then LaterTrue(Spell(ls, ops), v) else Holds(Spell(ls, ops), v)
    ensures AndRun(ops, i, j) && AllSatisfied(v, ls[i..j + 1]) && (later ==> i > 0)
    decreases |ops|
  {
    SpellTruth(ls, ops, v);
    if ops == [] { return 0, 0; }
    SpellTruth(ls[1..], ops[1..], v);
    SpellSplit(ls, ops, v);
    if ops[0].Or? && !later && Satisfies(v, ls[0]) { return 0, 0; }
    var deep := IsAnd(ops[0]) && (later || !Satisfies(v, ls[0]));
    i, j := HoldsRun(ls[1..], ops[1..], v, deep);
    RunShift(ops, i, j);
    SliceShift(ls, i, j);
    if IsAnd(ops[0]) && i == 0 {
      j := j + 1;
    } else {
      i, j := i + 1, j + 1;
    }
  }

  lemma SliceShift(ls: seq<Literal>, i: nat, j: nat)
    requires i <= j < |ls| - 1
    ensures ls[1..][i..j + 1] == ls[i + 1..j + 2] && (i == 0 ==> ls[i..j + 2] == [ls[0]] + ls[1..][i..j + 1])
  {}

  lemma {:induction false} RunHolds(ls: seq<Literal>, ops: Chain, v: Valuation, i: nat, j: nat)
    requires |ls| == |ops| + 1 && Joins(ops) && AndRun(ops, i, j) && AllSatisfied(v, ls[i..j + 1])
    ensures Holds(Spell(ls, ops), v) && (i > 0 ==> LaterTrue(Spell(ls, ops), v))
    decreases |ops|
  {
    SpellTruth(ls, ops, v);
    assert ls[i..j + 1][0] == ls[i];
    if ops != [] {
      SpellTruth(ls[1..], ops[1..], v);
      SpellSplit(ls, ops, v);
      if j > 0 {
        RunUnshift(ops, i, j);
        var k := if i == 0 then 0 else i - 1;
        TailSatisfied(ls, v, i, j);
        RunHolds(ls[1..], ops[1..], v, k, j - 1);
        LaterHolds(Spell(ls, ops), v);
      }
    }
  }

  lemma TailSatisfied(ls: seq<Literal>, v: Valuation, i: nat, j: nat)
    requires i <= j && 0 < j < |ls| && AllSatisfied(v, ls[i..j + 1])
    ensures AllSatisfied(v, ls[1..][if i == 0 then 0 else i - 1..j])
  {
    var a, k := ls[i..j + 1], if i == 0 then 0 else i - 1;
    var b := ls[1..][k..j];
    forall m | 0 <= m < |b| ensures Satisfies(v, b[m]) {
      assert b[m] == ls[1 + k + m] == a[1 + k + m - i];
    }
  }

  lemma {:induction false} InvertSpell(ls: seq<Literal>, ops: Chain)
    requires |ls| == |ops| + 1
    ensures Invert(Spell(ls, ops)) == Spell(Flipped(ls), Invert(ops))
    decreases |ops|
  {
    InvertSpelled(ls[0]);
    if ops != [] {
      InvertSpell(ls[1..], ops[1..]);
      assert Flipped(ls)[1..] == Flipped(ls[1..]) && Invert(ops)[1..] == Invert(ops[1..]);
      InvertParts(Spelled(ls[0]), ops[0], Spell(ls[1..], ops[1..]));
    }
  }

  lemma InvertSpelled(l: Literal)
    ensures Invert(Spelled(l)) == Spelled(l.(equal := !l.equal))
  {}

  lemma InvertParts(a: Chain, t: Token, d: Chain)
    ensures Invert(a + ([t] + d)) == Invert(a) + ([InvertToken(t)] + Invert(d))
  {}

  // ---- comparisons that can hold together ----

  predicate Clash(p: Literal, q: Literal) {
    p.name == q.name && p.equal && if q.equal then p.value != q.value else p.value == q.value
  }

  predicate Consistent(ls: seq<Literal>) {
    forall a, b :: 0 <= a < |ls| && 0 <= b < |ls| ==> !Clash(ls[a], ls[b])
  }

  lemma SatisfiedConsistent(ls: seq<Literal>, v: Valuation)
    requires AllSatisfied(v, ls)
    ensures Consistent(ls)
  {}

  /** A string longer than every constant. */
  function Longer(ls: seq<Literal>): (s: string)
    ensures forall i :: 0 <= i < |ls| ==> |ls[i].value| < |s|
  {
    if ls == [] then "x" else ls[0].value + Longer(ls[1..])
  }

  /** The constant that the variable must equal, or else a string it is not compared with. */
  function Wanted(ls: seq<Literal>, name: nat, other: string): string {
    if ls == [] then other
    else if ls[0].name == name && ls[0].equal then ls[0].value
    else Wanted(ls[1..], name, other)
  }

  lemma {:induction false} WantedFrom(ls: seq<Literal>, name: nat, other: string)
    ensures var w := Wanted(ls, name, other);
            if exists i :: 0 <= i < |ls| && ls[i].name == name && ls[i].equal
            then exists i :: 0 <= i < |ls| && ls[i].name == name && ls[i].equal && w == ls[i].value
            else w == other
    decreases |ls|
  {
    if ls != [] {
      var w := Wanted(ls, name, other);
      if ls[0].name == name && ls[0].equal {
        assert w == ls[0].value;
      } else {
        WantedFrom(ls[1..], name, other);
        if i :| 0 <= i < |ls| && ls[i].name == name && ls[i].equal {
          assert ls[1..][i - 1] == ls[i];
          var k :| 0 <= k < |ls[1..]| && ls[1..][k].name == name && ls[1..][k].equal && w == ls[1..][k].value;
          assert ls[k + 1] == ls[1..][k];
        }
      }
    }
  }

  lemma ConsistentSatisfied(ls: seq<Literal>) returns (v: Valuation)
    requires Consistent(ls)
    ensures AllSatisfied(v, ls)
  {
    var other := Longer(ls);
    v := (name: nat) => Wanted(ls, name, other);
    forall i | 0 <= i < |ls| ensures Satisfies(v, ls[i]) {
      var w := v(ls[i].name);
      WantedFrom(ls, ls[i].name, other);
      if k :| 0 <= k < |ls| && ls[k].name == ls[i].name && ls[k].equal && w == ls[k].value {
        assert !Clash(ls[k], ls[i]);
      }
    }
  }

  // ---- the exact condition ----

  /** The comparisons from i to j true and those from k to l false. */
  function Wants(ls: seq<Literal>, i: nat, j: nat, k: nat, l: nat): seq<Literal>
    requires i <= j < |ls| && k <= l < |ls|
  {
    ls[i..j + 1] + Flipped(ls)[k..l + 1]
  }

  /** A run joined by "-a" can be all true while a run joined by "-o" is all false. */
  predicate Confusable(ls: seq<Literal>, ops: Chain)
    requires |ls| == |ops| + 1
  {
    exists i, j, k, l ::
      && 0 <= i <= j <= |ops| && 0 <= k <= l <= |ops|
      && AndRun(ops, i, j) && OrRun(ops, k, l) && Consistent(Wants(ls, i, j, k, l))
  }

  lemma BothSatisfied(ls: seq<Literal>, i: nat, j: nat, k: nat, l: nat, v: Valuation)
    requires i <= j < |ls| && k <= l < |ls|
    ensures AllSatisfied(v, Wants(ls, i, j, k, l)) <==>
            AllSatisfied(v, ls[i..j + 1]) && AllSatisfied(v, Flipped(ls)[k..l + 1])
  {
    var a, b, w := ls[i..j + 1], Flipped(ls)[k..l + 1], Wants(ls, i, j, k, l);
    assert forall m :: 0 <= m < |a| ==> w[m] == a[m];
    assert forall m :: 0 <= m < |b| ==> w[|a| + m] == b[m];
  }

  /** Confusable conditions are true together with their inversion somewhere. */
  lemma ConfusedAt(ls: seq<Literal>, ops: Chain) returns (v: Valuation)
    requires |ls| == |ops| + 1 && Operators(ops) && Confusable(ls, ops)
    ensures Holds(Spell(ls, ops), v) && Holds(Invert(Spell(ls, ops)), v)
  {
    var i: nat, j: nat, k: nat, l: nat :|
      i <= j <= |ops| && k <= l <= |ops| && AndRun(ops, i, j) && OrRun(ops, k, l) && Consistent(Wants(ls, i, j, k, l));
    v := ConsistentSatisfied(Wants(ls, i, j, k, l));
    BothSatisfied(ls, i, j, k, l, v);
    RunHolds(ls, ops, v, i, j);
    RunFalsified(ls, ops, v, k, l);
  }

  /** A run joined by "-o" that is all false makes the inversion true. */
  lemma RunFalsified(ls: seq<Literal>, ops: Chain, v: Valuation, k: nat, l: nat)
    requires |ls| == |ops| + 1 && Operators(ops) && OrRun(ops, k, l) && AllSatisfied(v, Flipped(ls)[k..l + 1])
    ensures Holds(Invert(Spell(ls, ops)), v)
  {
    InvertSpell(ls, ops);
    RunsSwap(ops, k, l);
    RunHolds(Flipped(ls), Invert(ops), v, k, l);
  }

  lemma NotConfused(ls: seq<Literal>, ops: Chain, v: Valuation)
    requires |ls| == |ops| + 1 && Operators(ops) && !Confusable(ls, ops)
    ensures !(Holds(Spell(ls, ops), v) && Holds(Invert(Spell(ls, ops)), v))
  {
    InvertSpell(ls, ops);
    if Holds(Spell(ls, ops), v) && Holds(Invert(Spell(ls, ops)), v) {
      var i, j := HoldsRun(ls, ops, v, false);
      var k, l := HoldsRun(Flipped(ls), Invert(ops), v, false);
      RunsSwap(ops, k, l);
      BothSatisfied(ls, i, j, k, l, v);
      SatisfiedConsistent(Wants(ls, i, j, k, l), v);
    }
  }

  lemma {:induction false} SpellSource(ls: seq<Literal>, ops: Chain)
    requires |ls| == |ops| + 1 && Operators(ops)
    ensures AllSource(Spell(ls, ops))
    decreases |ops|
  {
    if ops != [] { SpellSource(ls[1..], ops[1..]); }
  }

  /** The inversion of the condition is its negation. */
  ghost predicate Negates(c: Chain) { forall v: Valuation :: Holds(Invert(c), v) == !Holds(c, v) }

  lemma ConfusableFails(ls: seq<Literal>, ops: Chain, c: Chain)
    requires |ls| == |ops| + 1 && Operators(ops) && c == Spell(ls, ops) && Confusable(ls, ops)
    ensures !Negates(c)
  {
    var v := ConfusedAt(ls, ops);
    assert Holds(Invert(c), v) && Holds(c, v);
  }

  lemma OthersNegated(ls: seq<Literal>, ops: Chain, c: Chain)
    requires |ls| == |ops| + 1 && Operators(ops) && c == Spell(ls, ops) && !Confusable(ls, ops)
    ensures Negates(c)
  {
    forall v: Valuation ensures Holds(Invert(c), v) == !Holds(c, v) {
      SpellSource(ls, ops);
      SpellTruth(ls, ops, v);
      InversionCovers(c, v);
      NotConfused(ls, ops, v);
    }
  }

  /** A condition is negated by the inversion under all valuations exactly when it is not confusable. */
  lemma InversionExact(ls: seq<Literal>, ops: Chain)
    requires |ls| == |ops| + 1 && Operators(ops)
    ensures Negates(Spell(ls, ops)) <==> !Confusable(ls, ops)
  {
    if Confusable(ls, ops) {
      ConfusableFails(ls, ops, Spell(ls, ops));
    } else {
      OthersNegated(ls, ops, Spell(ls, ops));
    }
  }

  /** Where the run that starts at i ends. */
  lemma RunFrom(ops: Chain, i: nat) returns (j: nat)
    requires Joins(ops) && i <= |ops| && (i == 0 || ops[i - 1].Or?)
    ensures i <= j && AndRun(ops, i, j)
  {
    j := i;
    while j < |ops| && IsAnd(ops[j])
      invariant i <= j <= |ops| && forall k :: i <= k < j ==> IsAnd(ops[k])
    {
      j := j + 1;
    }
  }

  predicate Distinct(ls: seq<Literal>) { forall i, j :: 0 <= i < j < |ls| ==> ls[i].name != ls[j].name }

  lemma DisjointRuns(ls: seq<Literal>, ops: Chain, i: nat, j: nat, k: nat, l: nat)
    requires Distinct(ls) && |ls| == |ops| + 1 && (i <= j < k <= l <= |ops| || k <= l < i <= j <= |ops|)
    ensures Consistent(Wants(ls, i, j, k, l))
  {
    var w := Wants(ls, i, j, k, l);
    forall a, b | 0 <= a < |w| && 0 <= b < |w| ensures !Clash(w[a], w[b]) {
      WantsAt(ls, i, j, k, l, a);
      WantsAt(ls, i, j, k, l, b);
    }
  }

  lemma WantsAt(ls: seq<Literal>, i: nat, j: nat, k: nat, l: nat, a: nat)
    requires i <= j < |ls| && k <= l < |ls| && a < |Wants(ls, i, j, k, l)|
    ensures var n := j + 1 - i;
            Wants(ls, i, j, k, l)[a] == if a < n then ls[i + a] else Flipped(ls)[k + a - n]
  {}

  /** Over distinct variables the exact condition is that one operator joins the condition. */
  lemma DistinctExact(ls: seq<Literal>, ops: Chain)
    requires |ls| == |ops| + 1 && Operators(ops) && Distinct(ls)
    ensures Confusable(ls, ops) <==> !Uniform(ops)
  {
    if Uniform(ops) {
      UniformNotConfusable(ls, ops);
    } else {
      MixedConfusable(ls, ops);
    }
  }

  lemma UniformNotConfusable(ls: seq<Literal>, ops: Chain)
    requires |ls| == |ops| + 1 && Operators(ops) && Uniform(ops)
    ensures !Confusable(ls, ops)
  {
    forall i: nat, j: nat, k: nat, l: nat | i <= j <= |ops| && k <= l <= |ops| && AndRun(ops, i, j) && OrRun(ops, k, l)
      ensures !Consistent(Wants(ls, i, j, k, l))
    {
      var m := if exists t :: 0 <= t < |ops| && ops[t].Or? then i else k;
      UniformMeets(ops, i, j, k, l, m);
      MeetingClashes(ls, i, j, k, l, m);
    }
  }

  /** A comparison cannot be both true and false. */
  lemma MeetingClashes(ls: seq<Literal>, i: nat, j: nat, k: nat, l: nat, m: nat)
    requires i <= m <= j < |ls| && k <= m <= l < |ls|
    ensures !Consistent(Wants(ls, i, j, k, l))
  {
    var w, a, b := Wants(ls, i, j, k, l), m - i, j + 1 - i + m - k;
    WantsAt(ls, i, j, k, l, a);
    WantsAt(ls, i, j, k, l, b);
    assert Clash(w[a], w[b]) || Clash(w[b], w[a]);
  }

  lemma UniformMeets(ops: Chain, i: nat, j: nat, k: nat, l: nat, m: nat)
    requires Operators(ops) && Uniform(ops) && AndRun(ops, i, j) && OrRun(ops, k, l)
    requires m == if exists t :: 0 <= t < |ops| && ops[t].Or? then i else k
    ensures i <= m <= j && k <= m <= l
  {}

  lemma MixedConfusable(ls: seq<Literal>, ops: Chain)
    requires |ls| == |ops| + 1 && Operators(ops) && Distinct(ls) && !Uniform(ops)
    ensures Confusable(ls, ops)
  {
    var m := 1;
    while ops[m] == ops[0]
      invariant 1 <= m < |ops| && forall t :: 0 <= t < m ==> ops[t] == ops[0]
      decreases |ops| - m
    {
      if m + 1 == |ops| { assert forall t :: 0 <= t < |ops| ==> ops[t] == ops[0]; }
      m := m + 1;
    }
    if ops[0].And? {
      var e := RunFrom(ops, m + 1);
      DisjointRuns(ls, ops, m + 1, e, 0, 0);
      assert AndRun(ops, m + 1, e) && OrRun(ops, 0, 0);
    } else {
      var e := RunFrom(Invert(ops), m + 1);
      RunsSwap(ops, m + 1, e);
      DisjointRuns(ls, ops, 0, 0, m + 1, e);
      assert AndRun(ops, 0, 0) && OrRun(ops, m + 1, e);
    }
  }
}
