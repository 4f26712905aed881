/**
 * join_condition_stack of tkcond.c: one guard out of a stack of conditions, with repeated
 * one-comparison conjuncts overwritten by op_nuked tokens that the generator skips.
 */
module Joining {
  import opened Conditions

  // ---- the joined chain ----

  function Wrap(c: Chain): Chain { [LParen] + c + [RParen] }

  /** The chain after one more condition of the stack has been glued on. */
  function Glue1(acc: Chain, c: Chain): Chain
    requires c != []
  {
    if c[0].True? then acc
    else acc + (if acc == [] then [] else [And]) + (if c[0].LParen? then c else Wrap(c))
  }

  predicate NonEmpty(stack: seq<Chain>) { forall i :: 0 <= i < |stack| ==> stack[i] != [] }

  function Glue(stack: seq<Chain>): Chain
    requires NonEmpty(stack)
  {
    if stack == [] then [] else Glue1(Glue(stack[..|stack| - 1]), stack[|stack| - 1])
  }

  predicate IsFalse(c: Chain) { c != [] && c[0].False? }

  predicate AnyFalse(stack: seq<Chain>) { exists i :: 0 <= i < |stack| && IsFalse(stack[i]) }

  // ---- duplicate removal ----

  /** A parenthesized comparison of a variable with a constant, and at least one more token. */
  predicate StartsSingle(ts: Chain) {
    |ts| >= 6 && ts[0].LParen? && ts[1].Variable? && IsComparison(ts[2]) && ts[3].Constant? && ts[4].RParen?
  }

  /**
   * Offset of the first copy of key in s that may be merged, or |s|: either the first copy is
   * followed by "&&" (anded) or this one is.
   */
  function FindCopy(key: Chain, s: Chain, anded: bool): (j: nat)
    ensures j <= |s|
    ensures j < |s| ==> j + 5 <= |s| && (anded || (j + 5 < |s| && s[j + 5].And?))
  {
    if |s| < 5 then |s|
    else if s[..5] == key && (anded || (|s| > 5 && s[5].And?)) then 0
    else 1 + FindCopy(key, s[1..], anded)
  }

  function Nukes(n: nat): Chain { seq(n, i => Nuked) }

  predicate HasCopy(ts: Chain) {
    StartsSingle(ts) && FindCopy(ts[..5], ts[6..], ts[5].And?) < |ts| - 6
  }

  function Dedup(ts: Chain): (r: Chain)
    ensures |r| == |ts|
    decreases |ts|
  {
    if ts == [] then []
    else if HasCopy(ts) then
      if ts[5].And? then Nukes(6) + Dedup(ts[6..])
      else Nukes(5) + Dedup(ts[5..][6 + FindCopy(ts[..5], ts[6..], false) := Nuked])
    else [ts[0]] + Dedup(ts[1..])
  }

  function Join(stack: seq<Chain>): Chain
    requires NonEmpty(stack)
  {
    if AnyFalse(stack) then [False] else Dedup(Glue(stack))
  }

  /** What the generator sees of a chain. */
  function Strip(ts: Chain): Chain {
    if ts == [] then [] else (if ts[0].Nuked? then [] else [ts[0]]) + Strip(ts[1..])
  }

  /** The truth of a guard; a missing guard is true. */
  predicate GuardHolds(g: Chain, v: Valuation) { g == [] || Holds(Strip(g), v) }

  // ---- chains as lists of conjuncts ----

  /** A conjunct in parentheses, with the "&&" that follows it if there are more. */
  function Piece(u: Chain, more: bool): Chain { Wrap(u) + if more then [And] else [] }

  function Render(us: seq<Chain>): Chain {
    if us == [] then [] else Piece(us[0], |us| > 1) + Render(us[1..])
  }

  predicate Conjuncts(us: seq<Chain>) { forall i :: 0 <= i < |us| ==> FlatChain(us[i]) }

  predicate AllHold(us: seq<Chain>, v: Valuation) { forall i :: 0 <= i < |us| ==> Holds(us[i], v) }

  lemma UnitOfWrap(u: Chain, s: Chain, v: Valuation)
    requires Meaning(u, v).Truth?
    ensures Unit(Wrap(u) + s, v) == Read(Holds(u, v), s)
  {
    DisjunctionAppend(u, [RParen] + s, v);
    assert (Wrap(u) + s)[1..] == u + ([RParen] + s);
    assert Disjunction(u, v).rest + ([RParen] + s) == [RParen] + s;
    assert ([RParen] + s)[1..] == s;
  }

  lemma {:induction false} RenderMeaning(us: seq<Chain>, v: Valuation)
    requires us != [] && Conjuncts(us)
    ensures Conjunction(Render(us), v) == Read(AllHold(us, v), [])
    ensures Meaning(Render(us), v) == Truth(AllHold(us, v))
    decreases |us|
  {
    WellFormedEverywhere(us[0], v);
    AllHoldHead(us, v);
    var t := (if |us| > 1 then [And] else []) + Render(us[1..]);
    RenderUnit(us, t, v);
    if |us| > 1 {
      RenderMeaning(us[1..], v);
      assert t[1..] == Render(us[1..]);
      HeadAnd(Render(us), v);
    }
  }

  lemma RenderUnit(us: seq<Chain>, t: Chain, v: Valuation)
    requires us != [] && Meaning(us[0], v).Truth? && t == (if |us| > 1 then [And] else []) + Render(us[1..])
    ensures Unit(Render(us), v) == Read(Holds(us[0], v), t)
  {
    UnitOfWrap(us[0], t, v);
    assert Render(us) == Wrap(us[0]) + t;
  }

  lemma AllHoldHead(us: seq<Chain>, v: Valuation)
    requires us != []
    ensures AllHold(us, v) == (Holds(us[0], v) && AllHold(us[1..], v))
  {
    assert forall i :: 1 <= i < |us| ==> us[i] == us[1..][i - 1];
  }

  lemma {:induction false} RenderAppend(us: seq<Chain>, ws: seq<Chain>)
    requires us != [] && ws != []
    ensures Render(us + ws) == Render(us) + [And] + Render(ws)
    decreases |us|
  {
    assert (us + ws)[1..] == us[1..] + ws;
    if |us| > 1 {
      RenderAppend(us[1..], ws);
      assert Piece(us[0], true) + (Render(us[1..]) + [And] + Render(ws)) == Render(us) + [And] + Render(ws);
    } else {
      assert us[1..] + ws == ws && Render(us) == Piece(us[0], false) + [];
    }
  }

  // ---- gluing renders the conjuncts ----

  predicate IsFolded(c: Chain) { c == [True] || c == [False] || FlatChain(c) }

  predicate FoldedStack(stack: seq<Chain>) { forall i :: 0 <= i < |stack| ==> IsFolded(stack[i]) }

  /** The conditions of the stack that are not the constant TRUE. */
  function Units(stack: seq<Chain>): seq<Chain> {
    if stack == [] then []
    else
      var us, c := Units(stack[..|stack| - 1]), stack[|stack| - 1];
      if c == [True] then us else us + [c]
  }

  lemma FlatChainHead(c: Chain)
    requires FlatChain(c)
    ensures c != [] && !c[0].True? && !c[0].False? && !c[0].LParen?
  {}

  lemma FoldedNonEmpty(stack: seq<Chain>)
    requires FoldedStack(stack)
    ensures NonEmpty(stack)
  {
    forall i | 0 <= i < |stack| ensures stack[i] != [] { if FlatChain(stack[i]) { FlatChainHead(stack[i]); } }
  }

  lemma {:induction false} GlueRenders(stack: seq<Chain>)
    requires FoldedStack(stack) && !AnyFalse(stack)
    ensures NonEmpty(stack) && Glue(stack) == Render(Units(stack)) && Conjuncts(Units(stack))
    decreases |stack|
  {
    FoldedNonEmpty(stack);
    if stack != [] {
      var s, c := stack[..|stack| - 1], stack[|stack| - 1];
      assert forall i :: 0 <= i < |s| ==> s[i] == stack[i];
      assert !IsFalse(c);
      GlueRenders(s);
      if c != [True] {
        FlatChainHead(c);
        assert Render([c]) == Wrap(c);
        if Units(s) != [] { RenderAppend(Units(s), [c]); assert Render(Units(s)) != []; }
      }
    }
  }

  lemma {:induction false} UnitsHold(stack: seq<Chain>, v: Valuation)
    requires FoldedStack(stack)
    ensures AllHold(Units(stack), v) == AllHold(stack, v)
    decreases |stack|
  {
    if stack != [] {
      var s, c := stack[..|stack| - 1], stack[|stack| - 1];
      UnitsHold(s, v);
      assert AllHold(stack, v) == (AllHold(s, v) && Holds(c, v));
      if c == [True] {
        assert Unit([True], v) == Read(true, []);
      } else {
        var us := Units(s);
        assert AllHold(us + [c], v) == (AllHold(us, v) && Holds(c, v)) by {
          assert forall i :: 0 <= i < |us| ==> (us + [c])[i] == us[i];
          assert (us + [c])[|us|] == c;
        }
      }
    }
  }

  // ---- duplicate removal on conjuncts ----

  predicate IsSingle(u: Chain) { |u| == 3 && u[0].Variable? && IsComparison(u[1]) && u[2].Constant? }

  /** Keep a repeated one-comparison conjunct only at its last place. */
  function DropRepeated(us: seq<Chain>): seq<Chain> {
    if us == [] then []
    else (if IsSingle(us[0]) && us[0] in us[1..] then [] else [us[0]]) + DropRepeated(us[1..])
  }

  predicate NoParen(p: Chain) { forall i :: 0 <= i < |p| ==> !p[i].LParen? }

  lemma {:induction false} SkipPrefix(key: Chain, p: Chain, s: Chain)
    requires |key| == 5 && key[0].LParen? && NoParen(p)
    ensures FindCopy(key, p + s, true) == |p| + FindCopy(key, s, true)
    decreases |p|
  {
    if p == [] {
      assert p + s == s;
    } else {
      SkipPrefix(key, p[1..], s);
      assert (p + s)[1..] == p[1..] + s;
      if |p + s| >= 5 { assert (p + s)[..5][0] == p[0]; }
    }
  }

  lemma CopyAtPiece(b: Chain, u: Chain, more: bool, s: Chain)
    requires IsSingle(b) && AllFlat(u) && u != []
    ensures |Piece(u, more) + s| >= 5 && (Piece(u, more) + s)[..5] == Wrap(b) <==> u == b
  {
    var w := Piece(u, more) + s;
    if |w| >= 5 && w[..5] == Wrap(b) {
      assert w[4] == w[..5][4] == RParen;
      assert w[1] == w[..5][1] && w[2] == w[..5][2] && w[3] == w[..5][3];
      assert u == b;
    }
    if u == b { assert w[..5] == Wrap(b); }
  }

  lemma SkipPiece(b: Chain, u: Chain, more: bool, s: Chain)
    requires IsSingle(b) && AllFlat(u) && u != [] && u != b
    ensures FindCopy(Wrap(b), Piece(u, more) + s, true) == |Piece(u, more)| + FindCopy(Wrap(b), s, true)
  {
    var p := Piece(u, more);
    CopyAtPiece(b, u, more, s);
    SkipPrefix(Wrap(b), p[1..], s);
    assert (p + s)[1..] == p[1..] + s;
  }

  lemma {:induction false} FindCopyRender(b: Chain, us: seq<Chain>)
    requires IsSingle(b) && Conjuncts(us)
    ensures FindCopy(Wrap(b), Render(us), true) < |Render(us)| <==> b in us
    decreases |us|
  {
    if us != [] {
      FlatChainHead(us[0]);
      if us[0] == b {
        CopyAtPiece(b, us[0], |us| > 1, Render(us[1..]));
      } else {
        FindCopyRender(b, us[1..]);
        SkipPiece(b, us[0], |us| > 1, Render(us[1..]));
      }
    }
  }

  lemma {:induction false} DedupPrefix(p: Chain, s: Chain)
    requires NoParen(p)
    ensures Dedup(p + s) == p + Dedup(s)
    decreases |p|
  {
    if p == [] {
      assert p + s == s;
    } else {
      DedupPrefix(p[1..], s);
      PrefixSlices(p, s, Dedup(s));
      DedupPlain(p + s, p[1..] + s);
    }
  }

  lemma PrefixSlices(p: Chain, s: Chain, d: Chain)
    requires p != []
    ensures (p + s)[0] == p[0] && (p + s)[1..] == p[1..] + s && p + d == [p[0]] + (p[1..] + d)
  {}

  lemma DedupPlain(ts: Chain, rest: Chain)
    requires ts != [] && !ts[0].LParen? && rest == ts[1..]
    ensures Dedup(ts) == [ts[0]] + Dedup(rest)
  {}

  lemma {:induction false} StripAppend(a: Chain, b: Chain)
    ensures Strip(a + b) == Strip(a) + Strip(b)
    decreases |a|
  {
    if a == [] {
      assert a + b == b;
    } else {
      StripAppend(a[1..], b);
      assert (a + b)[1..] == a[1..] + b;
      var h, x, y := if a[0].Nuked? then [] else [a[0]], Strip(a[1..]), Strip(b);
      assert h + (x + y) == (h + x) + y;
    }
  }

  lemma {:induction false} StripPlain(a: Chain)
    requires forall i :: 0 <= i < |a| ==> !a[i].Nuked?
    ensures Strip(a) == a
    decreases |a|
  {
    if a != [] { StripPlain(a[1..]); }
  }

  lemma {:induction false} StripNukes(n: nat)
    ensures Strip(Nukes(n)) == []
    decreases n
  {
    if n > 0 { assert Nukes(n)[1..] == Nukes(n - 1); StripNukes(n - 1); }
  }

  lemma StripKept(p: Chain, x: Chain)
    requires p != [] && forall i :: 0 <= i < |p| ==> !p[i].Nuked?
    ensures Strip([p[0]] + (p[1..] + x)) == p + Strip(x)
  {
    assert [p[0]] + (p[1..] + x) == p + x;
    StripAppend(p, x);
    StripPlain(p);
  }

  lemma KeepPiece(u: Chain, more: bool, r: Chain)
    requires AllFlat(u)
    ensures Strip([LParen] + Dedup((Piece(u, more) + r)[1..])) == Piece(u, more) + Strip(Dedup(r))
  {
    var p := Piece(u, more);
    assert (p + r)[1..] == p[1..] + r;
    DedupPrefix(p[1..], r);
    StripKept(p, Dedup(r));
  }

  lemma RenderKept(us: seq<Chain>)
    requires us != [] && !(IsSingle(us[0]) && us[0] in us[1..])
    ensures Render(DropRepeated(us)) == Piece(us[0], |us| > 1) + Render(DropRepeated(us[1..]))
  {
    LastKept(us[1..]);
    assert DropRepeated(us)[1..] == DropRepeated(us[1..]);
  }

  /** On a joined chain, duplicate removal is dropping conjuncts. */
  lemma {:induction false} DedupRender(us: seq<Chain>)
    requires Conjuncts(us)
    ensures Strip(Dedup(Render(us))) == Render(DropRepeated(us))
    decreases |us|
  {
    if us != [] {
      DedupRender(us[1..]);
      DedupHead(us);
      if IsSingle(us[0]) && us[0] in us[1..] {
        StripAppend(Nukes(6), Dedup(Render(us[1..])));
        StripNukes(6);
        assert DropRepeated(us) == DropRepeated(us[1..]);
      } else {
        RenderKept(us);
        KeepPiece(us[0], |us| > 1, Render(us[1..]));
      }
    }
  }

  lemma {:induction false} LastKept(us: seq<Chain>)
    ensures us != [] ==> DropRepeated(us) != []
    decreases |us|
  {
    if us != [] { LastKept(us[1..]); }
  }

  lemma PieceStarts(u: Chain, more: bool, r: Chain)
    requires AllFlat(u) && u != [] && (!more ==> r == [])
    ensures StartsSingle(Piece(u, more) + r) ==> more && IsSingle(u)
  {
    var ts := Piece(u, more) + r;
    if |ts| >= 6 {
      assert ts[1] == u[0];
      if |u| >= 4 {
        assert ts[4] == u[3];
      } else {
        assert ts[|u| + 1] == RParen;
        if |u| == 3 { assert ts[2] == u[1] && ts[3] == u[2]; }
      }
    }
  }

  lemma SinglePiece(u: Chain, r: Chain)
    requires IsSingle(u)
    ensures var ts := Piece(u, true) + r; StartsSingle(ts) && ts[..5] == Wrap(u) && ts[5] == And && ts[6..] == r
  {
    var ts := Piece(u, true) + r;
    assert ts == [LParen, u[0], u[1], u[2], RParen, And] + r;
    assert Wrap(u) == [LParen, u[0], u[1], u[2], RParen];
  }

  lemma DedupHead(us: seq<Chain>)
    requires us != [] && Conjuncts(us)
    ensures var ts := Render(us);
            if IsSingle(us[0]) && us[0] in us[1..] then Dedup(ts) == Nukes(6) + Dedup(Render(us[1..]))
            else Dedup(ts) == [LParen] + Dedup(ts[1..])
  {
    FlatChainHead(us[0]);
    if |us| > 1 && IsSingle(us[0]) {
      SinglePiece(us[0], Render(us[1..]));
      FindCopyRender(us[0], us[1..]);
    } else {
      PieceStarts(us[0], |us| > 1, Render(us[1..]));
    }
    assert Render(us)[0] == LParen;
  }

  lemma {:induction false} DropRepeatedKeepsSet(us: seq<Chain>)
    ensures forall u :: u in DropRepeated(us) <==> u in us
    decreases |us|
  {
    if us != [] { DropRepeatedKeepsSet(us[1..]); assert us == [us[0]] + us[1..]; }
  }

  /** Every repeated one-comparison conjunct is left exactly once; nothing else is dropped. */
  lemma {:induction false} DropRepeatedCounts(us: seq<Chain>, u: Chain)
    ensures multiset(DropRepeated(us))[u] == if IsSingle(u) && u in us then 1 else multiset(us)[u]
    decreases |us|
  {
    if us != [] {
      assert us == [us[0]] + us[1..];
      DropRepeatedCounts(us[1..], u);
    }
  }

  function Without(us: seq<Chain>, u: Chain): seq<Chain> {
    if us == [] then [] else (if us[0] == u then [] else [us[0]]) + Without(us[1..], u)
  }

  /** Of several copies the last one is kept: a new last copy drives out those before it. */
  lemma {:induction false} LastCopyKept(us: seq<Chain>, u: Chain)
    ensures DropRepeated(us + [u]) == (if IsSingle(u) then Without(DropRepeated(us), u) else DropRepeated(us)) + [u]
    decreases |us|
  {
    if us == [] {
      assert us + [u] == [u] && [u][1..] == [];
    } else {
      var h, t := us[0], us[1..];
      assert (us + [u])[1..] == t + [u];
      LastCopyKept(t, u);
      CopyStep(h, t, u, DropRepeated(t), DropRepeated(t + [u]));
    }
  }

  lemma CopyStep(h: Chain, t: seq<Chain>, u: Chain, d: seq<Chain>, e: seq<Chain>)
    requires e == (if IsSingle(u) then Without(d, u) else d) + [u]
    ensures var full := (if IsSingle(h) && h in t + [u] then [] else [h]) + e;
            var kept := (if IsSingle(h) && h in t then [] else [h]) + d;
            full == (if IsSingle(u) then Without(kept, u) else kept) + [u]
  {
    WithoutFirst(h, d, u);
    assert h in t + [u] <==> h in t || h == u;
    assert [] + d == d && [] + Without(d, u) == Without(d, u);
  }

  lemma WithoutFirst(h: Chain, us: seq<Chain>, u: Chain)
    ensures Without([h] + us, u) == (if h == u then [] else [h]) + Without(us, u)
  {
    assert ([h] + us)[1..] == us;
  }

  // ---- the guard ----

  /** The whole stack of a statement: its conditions, then its dependency condition if it has one. */
  function WithDependency(stack: seq<Chain>, deps: seq<Chain>): seq<Chain> {
    if deps == [] then stack else stack + [Render(deps)]
  }

  lemma GlueWithDependency(stack: seq<Chain>, deps: seq<Chain>)
    requires FoldedStack(stack) && !AnyFalse(stack) && Conjuncts(deps)
    ensures NonEmpty(WithDependency(stack, deps)) && !AnyFalse(WithDependency(stack, deps))
    ensures Glue(WithDependency(stack, deps)) == Render(Units(stack) + deps)
    ensures Conjuncts(Units(stack))
  {
    GlueRenders(stack);
    if deps == [] {
      assert Units(stack) + deps == Units(stack);
    } else {
      var full, d := WithDependency(stack, deps), Render(deps);
      assert d != [] && d[0].LParen?;
      assert full[..|full| - 1] == stack;
      assert Glue(full) == Glue1(Glue(stack), d);
      if Units(stack) == [] {
        assert Units(stack) + deps == deps;
      } else {
        RenderAppend(Units(stack), deps);
        assert Render(Units(stack)) != [];
      }
    }
  }

  /** The guard is the conjunction of the stack and the dependencies; FALSE stands for no valuation. */
  lemma JoinMeaning(stack: seq<Chain>, deps: seq<Chain>, v: Valuation)
    requires FoldedStack(stack) && Conjuncts(deps)
    ensures NonEmpty(WithDependency(stack, deps))
    ensures var g := Join(WithDependency(stack, deps));
            if AnyFalse(stack) then g == [False] && !AllHold(stack, v)
            else !IsFalse(g) && GuardHolds(g, v) == (AllHold(stack, v) && AllHold(deps, v))
  {
    var full := WithDependency(stack, deps);
    FoldedNonEmpty(stack);
    if AnyFalse(stack) {
      var i :| 0 <= i < |stack| && IsFalse(stack[i]);
      assert IsFalse(full[i]);
      if FlatChain(stack[i]) { FlatChainHead(stack[i]); }
      assert Unit([False], v) == Read(false, []);
      assert !Holds(stack[i], v);
    } else {
      GlueWithDependency(stack, deps);
      var us := Units(stack) + deps;
      DedupRender(us);
      UnitsHold(stack, v);
      AllHoldAppend(Units(stack), deps, v);
      DropRepeatedKeepsSet(us);
      if us != [] {
        LastKept(us);
        AllHoldSet(us, DropRepeated(us), v);
        RenderMeaning(DropRepeated(us), v);
        DedupHead(us);
      }
    }
  }

  lemma AllHoldAppend(a: seq<Chain>, b: seq<Chain>, v: Valuation)
    ensures AllHold(a + b, v) == (AllHold(a, v) && AllHold(b, v))
  {
    assert forall i :: 0 <= i < |a| ==> (a + b)[i] == a[i];
    assert forall i :: 0 <= i < |b| ==> (a + b)[|a| + i] == b[i];
  }

  lemma AllHoldPush(us: seq<Chain>, u: Chain, v: Valuation)
    ensures AllHold(us + [u], v) <==> AllHold(us, v) && Holds(u, v)
  {
    AllHoldAppend(us, [u], v);
    assert AllHold([u], v) == Holds([u][0], v);
  }

  lemma AllHoldSet(a: seq<Chain>, b: seq<Chain>, v: Valuation)
    requires (forall u :: u in b <==> u in a) && Conjuncts(a)
    ensures AllHold(a, v) == AllHold(b, v) && Conjuncts(b)
  {
    forall i | 0 <= i < |b| ensures FlatChain(b[i]) { assert b[i] in a; }
    assert AllHold(a, v) <==> forall u :: u in a ==> Holds(u, v);
    assert AllHold(b, v) <==> forall u :: u in b ==> Holds(u, v);
  }

  // ---- the tokens of a guard ----

  lemma {:induction false} DedupTokens(ts: Chain)
    ensures forall t :: t in Dedup(ts) ==> t in ts || t == Nuked
    decreases |ts|
  {
    if ts != [] {
      if HasCopy(ts) {
        if ts[5].And? {
          DedupTokens(ts[6..]);
        } else {
          DedupTokens(ts[5..][6 + FindCopy(ts[..5], ts[6..], false) := Nuked]);
        }
      } else {
        DedupTokens(ts[1..]);
      }
    }
  }

  /** A token that may stand inside a guard. */
  predicate IsGuardToken(t: Token, bangs: bool) {
    if t.Bang? then bangs else !t.True? && !t.False?
  }

  predicate GuardTokens(c: Chain, bangs: bool) { forall t :: t in c ==> IsGuardToken(t, bangs) }

  lemma {:induction false} GlueTokens(stack: seq<Chain>, bangs: bool)
    requires NonEmpty(stack) && forall i :: 0 <= i < |stack| ==> stack[i][0].True? || GuardTokens(stack[i], bangs)
    ensures GuardTokens(Glue(stack), bangs)
    decreases |stack|
  {
    if stack != [] { GlueTokens(stack[..|stack| - 1], bangs); }
  }

  /** TRUE and FALSE never get into a guard other than the one-token chain FALSE. */
  lemma JoinTokens(stack: seq<Chain>, bangs: bool)
    requires NonEmpty(stack)
    requires forall i :: 0 <= i < |stack| ==> stack[i][0].True? || IsFalse(stack[i]) || GuardTokens(stack[i], bangs)
    ensures Join(stack) == [False] || GuardTokens(Join(stack), bangs)
  {
    if !AnyFalse(stack) {
      GlueTokens(stack, bangs);
      DedupTokens(Glue(stack));
    }
  }
}
