/**
 * The two passes of tkcond.c that push negation inwards: remove_bang, and the in-place inversion
 * that fix_conditionals applies on "else".
 */
module Negation {
  import opened Conditions

  function Flip(t: Token): Token {
    if t.Eq? then Neq else if t.Neq? then Eq else t
  }

  // ---- remove_bang ----

  function RemoveBang(c: Chain): Chain {
    if c == [] then []
    else if c[0].Bang? && |c| >= 3 && IsComparison(c[2]) then [c[1], Flip(c[2])] + RemoveBang(c[3..])
    else [c[0]] + RemoveBang(c[1..])
  }

  /** Tokens other than "!" are copied. */
  lemma CopyThree(c: Chain)
    requires |c| >= 3 && !c[0].Bang? && !c[1].Bang? && !c[2].Bang?
    ensures RemoveBang(c) == [c[0], c[1], c[2]] + RemoveBang(c[3..])
  {
    assert c[1..][1..] == c[2..] && c[2..][1..] == c[3..];
    assert RemoveBang(c[2..]) == [c[2]] + RemoveBang(c[3..]);
    assert RemoveBang(c[1..]) == [c[1]] + RemoveBang(c[2..]);
    assert [c[0]] + ([c[1]] + ([c[2]] + RemoveBang(c[3..]))) == [c[0], c[1], c[2]] + RemoveBang(c[3..]);
  }

  lemma FlipThree(c: Chain)
    requires |c| >= 4 && c[0].Bang? && IsComparison(c[2]) && !c[3].Bang?
    ensures RemoveBang(c) == [c[1], Flip(c[2]), c[3]] + RemoveBang(c[4..])
  {
    assert c[3..][1..] == c[4..];
    assert RemoveBang(c[3..]) == [c[3]] + RemoveBang(c[4..]);
  }

  lemma {:induction false} RemoveBangUnit(c: Chain, v: Valuation)
    requires AllFlat(c) && Unit(c, v).Read?
    ensures Unit(RemoveBang(c), v) == Read(Unit(c, v).value, RemoveBang(Unit(c, v).rest))
    decreases |c|
  {
    if !c[0].Bang? {
      CopyThree(c);
      assert RemoveBang(c)[3..] == RemoveBang(c[3..]);
    } else if |c| >= 3 && IsComparison(c[2]) {
      RemoveBangFlips(c, v);
    } else {
      RemoveBangUnit(c[1..], v);
      assert RemoveBang(c)[1..] == RemoveBang(c[1..]);
    }
  }

  lemma RemoveBangFlips(c: Chain, v: Valuation)
    requires AllFlat(c) && Unit(c, v).Read? && |c| >= 3 && c[0].Bang? && IsComparison(c[2])
    ensures Unit(RemoveBang(c), v) == Read(Unit(c, v).value, RemoveBang(Unit(c, v).rest))
  {
    BangedComparison(c, c[1..], v);
    FlipThree(c);
    FlippedUnit(c[1], c[2], c[3], RemoveBang(c[4..]), RemoveBang(c), v);
  }

  lemma BangedComparison(c: Chain, d: Chain, v: Valuation)
    requires AllFlat(c) && Unit(c, v).Read? && |c| >= 3 && c[0].Bang? && IsComparison(c[2]) && d == c[1..]
    ensures |c| >= 4 && IsOperand(c[1]) && IsOperand(c[3])
    ensures Unit(c, v) == Read(!Compare(c[1], c[2], c[3], v), c[4..])
  {
    BeforeComparison(d, v);
    assert d[3..] == c[4..];
  }

  lemma ComparisonStuck(ts: Chain, v: Valuation)
    requires ts != [] && IsComparison(ts[0])
    ensures Unit(ts, v) == Stuck
  {}

  lemma BeforeComparison(d: Chain, v: Valuation)
    requires AllFlat(d) && |d| >= 2 && IsComparison(d[1]) && Unit(d, v).Read?
    ensures |d| >= 3 && IsOperand(d[0]) && IsOperand(d[2])
    ensures Unit(d, v) == Read(Compare(d[0], d[1], d[2], v), d[3..])
  {
    ComparisonStuck(d[1..], v);
  }

  lemma FlippedUnit(x: Token, op: Token, y: Token, rest: Chain, c: Chain, v: Valuation)
    requires IsOperand(x) && IsComparison(op) && IsOperand(y) && c == [x, Flip(op), y] + rest
    ensures Unit(c, v) == Read(!Compare(x, op, y, v), rest)
  {
    assert c[3..] == rest;
  }

  lemma {:induction false} RemoveBangConjunction(c: Chain, v: Valuation)
    requires AllFlat(c) && Conjunction(c, v).Read?
    requires Conjunction(c, v).rest == [] || Conjunction(c, v).rest[0].Or?
    ensures Conjunction(RemoveBang(c), v) == Read(Conjunction(c, v).value, RemoveBang(Conjunction(c, v).rest))
    decreases |c|
  {
    var u := Unit(c, v);
    RemoveBangUnit(c, v);
    ConjunctionSuffix(c, v);
    if u.rest != [] && IsAnd(u.rest[0]) {
      RemoveBangConjunction(u.rest[1..], v);
      assert RemoveBang(u.rest)[1..] == RemoveBang(u.rest[1..]);
    }
  }

  /** Removing "!" keeps the truth value. */
  lemma {:induction false} RemoveBangMeaning(c: Chain, v: Valuation)
    requires AllFlat(c) && Meaning(c, v).Truth?
    ensures Meaning(RemoveBang(c), v) == Meaning(c, v)
    decreases |c|
  {
    var k := Conjunction(c, v);
    RemoveBangConjunction(c, v);
    ConjunctionSuffix(c, v);
    if k.rest != [] {
      RemoveBangMeaning(k.rest[1..], v);
      assert RemoveBang(k.rest)[1..] == RemoveBang(k.rest[1..]);
    }
  }

  lemma {:induction false} RemoveBangTokens(c: Chain)
    requires AllFlat(c)
    ensures AllFlat(RemoveBang(c))
    ensures (forall i :: 0 <= i < |c| ==> !c[i].And1?) ==>
              forall i :: 0 <= i < |RemoveBang(c)| ==> !RemoveBang(c)[i].And1?
    ensures Uniform(c) ==> Uniform(RemoveBang(c))
    decreases |c|
  {
    if c != [] {
      if c[0].Bang? && |c| >= 3 && IsComparison(c[2]) { RemoveBangTokens(c[3..]); } else { RemoveBangTokens(c[1..]); }
      SameOperators(c);
    }
  }

  lemma {:induction false} SameOperators(c: Chain)
    ensures forall t :: t in RemoveBang(c) && (t.Or? || IsAnd(t)) ==> t in c
    decreases |c|
  {
    if c != [] {
      if c[0].Bang? && |c| >= 3 && IsComparison(c[2]) { SameOperators(c[3..]); } else { SameOperators(c[1..]); }
    }
  }

  predicate AdjacentBangs(c: Chain) {
    |c| >= 2 && ((c[0].Bang? && c[1].Bang?) || AdjacentBangs(c[1..]))
  }

  /** Every "!" precedes another "!" or a comparison. */
  predicate BangsLead(c: Chain) {
    c != [] ==>
      && BangsLead(c[1..])
      && (c[0].Bang? ==> |c| >= 3 && (c[1].Bang? || (IsOperand(c[1]) && IsComparison(c[2]))))
  }

  lemma {:induction false} UnitBangsLead(c: Chain, v: Valuation)
    requires AllFlat(c) && Unit(c, v).Read? && BangsLead(Unit(c, v).rest)
    ensures BangsLead(c)
    decreases |c|
  {
    if c[0].Bang? {
      UnitBangsLead(c[1..], v);
      assert c[1..][1..] == c[2..];
    } else {
      assert c[1..][1..] == c[2..] && c[2..][1..] == c[3..];
      assert BangsLead(c[2..]) && BangsLead(c[1..]);
    }
  }

  lemma {:induction false} WellFormedBangsLead(c: Chain, v: Valuation)
    requires AllFlat(c)
    ensures Conjunction(c, v).Read? && BangsLead(Conjunction(c, v).rest) ==> BangsLead(c)
    ensures Disjunction(c, v).Read? && BangsLead(Disjunction(c, v).rest) ==> BangsLead(c)
    decreases |c|
  {
    var u := Unit(c, v);
    if Conjunction(c, v).Read? {
      ConjunctionSuffix(c, v);
      if u.rest != [] && IsAnd(u.rest[0]) { WellFormedBangsLead(u.rest[1..], v); }
      if BangsLead(u.rest) { UnitBangsLead(c, v); }
    }
    var k := Conjunction(c, v);
    if k.Read? && k.rest != [] && k.rest[0].Or? { WellFormedBangsLead(k.rest[1..], v); }
  }

  lemma {:induction false} BangLeft(c: Chain)
    requires BangsLead(c)
    ensures Bang in RemoveBang(c) <==> AdjacentBangs(c)
    decreases |c|
  {
    if c != [] {
      if c[0].Bang? && !c[1].Bang? {
        assert c[1..][1..] == c[2..] && c[2..][1..] == c[3..];
        assert BangsLead(c[2..]);
        BangLeft(c[3..]);
        assert AdjacentBangs(c) == AdjacentBangs(c[1..]) == AdjacentBangs(c[2..]) == AdjacentBangs(c[3..]);
      } else {
        BangLeft(c[1..]);
        if c[0].Bang? { assert c[1..][1] == c[2]; assert RemoveBang(c) == [Bang] + RemoveBang(c[1..]); }
      }
    }
  }

  /** remove_bang leaves a "!" behind exactly when two of them stood next to each other. */
  lemma RemoveBangExact(c: Chain)
    requires FlatChain(c)
    ensures Bang in RemoveBang(c) <==> AdjacentBangs(c)
  {
    WellFormedBangsLead(c, Blank);
    BangLeft(c);
  }

  // ---- the else inversion ----

  function InvertToken(t: Token): Token {
    match t
    case And => Or
    case Or => And1
    case Neq => Eq
    case Eq => Neq
    case True => False
    case False => True
    case _ => t
  }

  function Invert(c: Chain): Chain { seq(|c|, i requires 0 <= i < |c| => InvertToken(c[i])) }

  lemma {:induction false} InvertUnit(c: Chain, v: Valuation)
    requires AllFlat(c) && Unit(c, v).Read?
    ensures Unit(Invert(c), v) == Read(!Unit(c, v).value, Invert(Unit(c, v).rest))
    decreases |c|
  {
    assert Invert(c)[1..] == Invert(c[1..]);
    if c[0].Bang? {
      InvertUnit(c[1..], v);
    } else {
      assert Invert(c)[3..] == Invert(c[3..]);
    }
  }

  lemma {:induction false} InvertAndChain(c: Chain, v: Valuation)
    requires AllFlat(c) && (forall i :: 0 <= i < |c| ==> !c[i].Or? && !c[i].And1?)
    requires Conjunction(c, v).Read? && Conjunction(c, v).rest == []
    ensures Disjunction(Invert(c), v) == Read(!Conjunction(c, v).value, [])
    decreases |c|
  {
    var u := Unit(c, v);
    InvertUnit(c, v);
    ConjunctionSuffix(c, v);
    if u.rest != [] {
      InvertAndChain(u.rest[1..], v);
      assert Invert(u.rest)[1..] == Invert(u.rest[1..]);
    }
  }

  predicate NoAnd(c: Chain) { forall i :: 0 <= i < |c| ==> !IsAnd(c[i]) }

  lemma {:induction false} InvertOrChain(c: Chain, v: Valuation)
    requires AllFlat(c) && NoAnd(c) && Meaning(c, v).Truth?
    ensures Conjunction(Invert(c), v) == Read(!Holds(c, v), [])
    decreases |c|
  {
    RestIsChain(c, v);
    InvertUnit(c, v);
    var r := Unit(c, v).rest;
    if r == [] {
      assert Conjunction(c, v) == Unit(c, v);
    } else {
      SuffixNoAnd(c, r);
      InvertOrChain(r[1..], v);
      HeadOr(c, v);
      assert Invert(r)[1..] == Invert(r[1..]);
    }
  }

  lemma SuffixNoAnd(c: Chain, r: Chain)
    requires AllFlat(c) && NoAnd(c) && IsSuffix(r, c) && r != []
    ensures !IsAnd(r[0]) && AllFlat(r[1..]) && NoAnd(r[1..])
  {}

  /** Inverting a chain joined by one operator negates it. */
  lemma InvertUniform(c: Chain, v: Valuation)
    requires AllSource(c) && Uniform(c) && Meaning(c, v).Truth?
    ensures Meaning(Invert(c), v) == Truth(!Holds(c, v))
  {
    if forall i :: 0 <= i < |c| ==> !c[i].Or? {
      NoOrIsConjunction(c, v);
      InvertAndChain(c, v);
    } else {
      InvertOrChain(c, v);
    }
  }

  lemma {:induction false} NoOrIsConjunction(c: Chain, v: Valuation)
    requires AllFlat(c) && (forall i :: 0 <= i < |c| ==> !c[i].Or?) && Conjunction(c, v).Read?
    ensures Conjunction(c, v).rest == [] || !Conjunction(c, v).rest[0].Or?
    decreases |c|
  {
    var u := Unit(c, v);
    ConjunctionSuffix(c, v);
    if u.rest != [] && IsAnd(u.rest[0]) { NoOrIsConjunction(u.rest[1..], v); }
  }
}
