/**
 * fix_conditionals of tkcond.c: nested if/else/fi become one guard per statement, and
 * statements whose guard is FALSE are unlinked.
 */
module Flattening {
  import opened Conditions
  import opened Elimination
  import opened Negation
  import opened Inversion
  import opened Joining

  // ---- statement lists ----

  /** The keywords of statements; source and then do not outlive the parser. */
  datatype Keyword =
    | Bool | ChoiceHeader | ChoiceItem | Comment
    | DefineBool | DefineHex | DefineInt | DefineString | DefineTristate
    | DepBool | DepMbool | DepTristate
    | Else | Endmenu | Fi | Hex | IfWord | Int | MainmenuName | MainmenuOption
    | String | Tristate | Unset

  /** A statement; an empty cond stands for NULL. */
  datatype Line = Line(token: Keyword, nameindex: int, cond: Chain)

  predicate IsDependent(k: Keyword) { k.DepBool? || k.DepMbool? || k.DepTristate? }

  /** The simple statements of the switch in fix_conditionals. */
  predicate IsSimple(k: Keyword) {
    || k.Bool? || k.ChoiceItem? || k.ChoiceHeader? || k.Comment?
    || k.DefineBool? || k.DefineHex? || k.DefineInt? || k.DefineString? || k.DefineTristate?
    || k.Endmenu? || k.Hex? || k.Int? || k.MainmenuOption? || k.String? || k.Tristate? || k.Unset?
  }

  /** A statement that gets a guard. */
  predicate IsGuarded(k: Keyword) { IsSimple(k) || IsDependent(k) }

  /** The statements that say how others are grouped, and the name of the whole. */
  predicate IsControl(k: Keyword) { k.IfWord? || k.Else? || k.Fi? || k.MainmenuName? }

  predicate Defines(k: Keyword) {
    || k.Bool? || k.ChoiceItem?
    || k.DefineBool? || k.DefineHex? || k.DefineInt? || k.DefineString? || k.DefineTristate?
    || k.DepBool? || k.DepMbool? || k.DepTristate?
    || k.Hex? || k.Int? || k.String? || k.Tristate? || k.Unset?
  }

  /** mark_variables. */
  function DefinedBy(lines: seq<Line>): set<nat> {
    set i | 0 <= i < |lines| && Defines(lines[i].token) && lines[i].nameindex > 0 :: lines[i].nameindex
  }

  // ---- the pass ----

  datatype Fate = Unlinked | Kept(guard: Chain)

  function FateOf(guard: Chain): Fate { if IsFalse(guard) then Unlinked else Kept(guard) }

  function Folded(env: Env, c: Chain): Chain { RemoveBang(Eliminate(env, c)) }

  /** The conditions joined for a statement. */
  function GuardStack(env: Env, line: Line, stack: seq<Chain>): seq<Chain> {
    if IsDependent(line.token) && line.cond != [] then stack + [Eliminate(env, line.cond)] else stack
  }

  function NextStack(env: Env, line: Line, stack: seq<Chain>): seq<Chain> {
    match line.token
    case IfWord => stack + [Folded(env, line.cond)]
    case Else => if stack == [] then stack else stack[|stack| - 1 := Invert(stack[|stack| - 1])]
    case Fi => if stack == [] then stack else stack[..|stack| - 1]
    case _ => stack
  }

  function LineFate(env: Env, line: Line, stack: seq<Chain>): Fate {
    if IsGuarded(line.token) then
      var s := GuardStack(env, line, stack);
      if NonEmpty(s) then FateOf(Join(s)) else Unlinked
    else Kept(if line.token.IfWord? then [] else line.cond)
  }

  /** What happens to each line, in order. */
  function Run(env: Env, lines: seq<Line>, stack: seq<Chain>): (fates: seq<Fate>)
    ensures |fates| == |lines|
  {
    if lines == [] then []
    else [LineFate(env, lines[0], stack)] + Run(env, lines[1..], NextStack(env, lines[0], stack))
  }

  function EnvOf(name: nat -> string, arch: string, lines: seq<Line>): Env {
    Env(name, DefinedBy(lines), arch)
  }

  function Fix(name: nat -> string, arch: string, lines: seq<Line>): seq<Fate> {
    Run(EnvOf(name, arch, lines), lines, [])
  }

  // ---- nested programs and what they execute ----

  datatype Stmt =
    | Simple(token: Keyword, nameindex: int, deps: seq<Chain>)
    | Menu(body: seq<Stmt>)
    | If(cond: Chain, thn: seq<Stmt>, els: seq<Stmt>, hasElse: bool)

  function SimpleLine(s: Stmt): Line
    requires s.Simple?
  {
    Line(s.token, s.nameindex, Render(s.deps))
  }

  function Word(k: Keyword): Line { Line(k, 0, []) }

  function FlattenOne(s: Stmt): seq<Line>
    decreases s, 0
  {
    match s
    case Simple(_, _, _) => [SimpleLine(s)]
    case Menu(body) => [Word(MainmenuOption)] + Flatten(body) + [Word(Endmenu)]
    case If(c, thn, els, hasElse) =>
      [Line(IfWord, 0, c)] + Flatten(thn) + (if hasElse then [Word(Else)] + Flatten(els) else []) + [Word(Fi)]
  }

  function Flatten(p: seq<Stmt>): seq<Line>
    decreases p, 1
  {
    if p == [] then [] else FlattenOne(p[0]) + Flatten(p[1..])
  }

  /** The truth of each line's path condition when the nested program runs under v. */
  function PathsOne(s: Stmt, path: bool, v: Valuation): seq<bool>
    decreases s, 0
  {
    match s
    case Simple(_, _, deps) => [path && AllHold(deps, v)]
    case Menu(body) => [path] + Paths(body, path, v) + [path]
    case If(c, thn, els, hasElse) =>
      [path] + Paths(thn, path && Holds(c, v), v)
      + (if hasElse then [path] + Paths(els, path && !Holds(c, v), v) else []) + [path]
  }

  function Paths(p: seq<Stmt>, path: bool, v: Valuation): seq<bool>
    decreases p, 1
  {
    if p == [] then [] else PathsOne(p[0], path, v) + Paths(p[1..], path, v)
  }

  /** An if condition as the tokenizer hands it over; two "!" in a row would outlive remove_bang. */
  predicate SafeCondition(c: Chain) { AllSource(c) && WellFormed(c) && !AdjacentBangs(c) }

  predicate BangFree(us: seq<Chain>) { forall i :: 0 <= i < |us| ==> Bang !in us[i] }

  predicate SafeOne(s: Stmt)
    decreases s, 0
  {
    match s
    case Simple(token, _, deps) =>
      && !token.IfWord? && !token.Else? && !token.Fi?
      && Conjuncts(deps) && BangFree(deps) && (deps != [] ==> IsDependent(token))
    case Menu(body) => Safe(body)
    case If(c, thn, els, hasElse) => SafeCondition(c) && Safe(thn) && (hasElse ==> Safe(els))
  }

  predicate Safe(p: seq<Stmt>)
    decreases p, 1
  {
    p != [] ==> SafeOne(p[0]) && Safe(p[1..])
  }

  /**
   * The two ways a condition comes out wrong under a valuation: an alternative that the "???" rule
   * lost is true; or the condition has an else and is true once folded, while a run of its
   * alternatives is all false.
   */
  predicate Undistorted(env: Env, c: Chain, hasElse: bool, v: Valuation) {
    && !Holds(DroppedTail(env, c), v)
    && (hasElse ==> !(Holds(Folded(env, c), v) && RunFalse(Folded(env, c), v)))
  }

  predicate FairOne(env: Env, s: Stmt, v: Valuation)
    decreases s, 0
  {
    match s
    case Simple(_, _, _) => true
    case Menu(body) => Fair(env, body, v)
    case If(c, thn, els, hasElse) =>
      Undistorted(env, c, hasElse, v) && Fair(env, thn, v) && (hasElse ==> Fair(env, els, v))
  }

  /** No condition of the script is distorted under v. */
  predicate Fair(env: Env, p: seq<Stmt>, v: Valuation)
    decreases p, 1
  {
    p != [] ==> FairOne(env, p[0], v) && Fair(env, p[1..], v)
  }

  // ---- the run of a nested program, by its structure ----

  function FatesOne(env: Env, s: Stmt, stack: seq<Chain>): seq<Fate>
    decreases s, 0
  {
    match s
    case Simple(_, _, _) => [LineFate(env, SimpleLine(s), stack)]
    case Menu(body) =>
      [LineFate(env, Word(MainmenuOption), stack)] + Fates(env, body, stack) + [LineFate(env, Word(Endmenu), stack)]
    case If(c, thn, els, hasElse) =>
      [Kept([])] + Fates(env, thn, stack + [Folded(env, c)])
      + (if hasElse then [Kept([])] + Fates(env, els, stack + [Invert(Folded(env, c))]) else []) + [Kept([])]
  }

  function Fates(env: Env, p: seq<Stmt>, stack: seq<Chain>): seq<Fate>
    decreases p, 1
  {
    if p == [] then [] else FatesOne(env, p[0], stack) + Fates(env, p[1..], stack)
  }

  /** Running a prefix of lines leaves a stack; the rest runs from there. */
  ghost predicate Decomposes(env: Env, lines: seq<Line>, stack: seq<Chain>, fates: seq<Fate>, after: seq<Chain>) {
    forall rest: seq<Line> :: Run(env, lines + rest, stack) == fates + Run(env, rest, after)
  }

  lemma Decompose1(env: Env, line: Line, stack: seq<Chain>)
    ensures Decomposes(env, [line], stack, [LineFate(env, line, stack)], NextStack(env, line, stack))
  {
    forall rest: seq<Line>
      ensures Run(env, [line] + rest, stack) ==
              [LineFate(env, line, stack)] + Run(env, rest, NextStack(env, line, stack))
    {
      assert ([line] + rest)[1..] == rest;
    }
  }

  lemma DecomposeAppend(env: Env, a: seq<Line>, sa: seq<Chain>, fa: seq<Fate>, b: seq<Line>, sb: seq<Chain>,
                        fb: seq<Fate>, sc: seq<Chain>)
    requires Decomposes(env, a, sa, fa, sb) && Decomposes(env, b, sb, fb, sc)
    ensures Decomposes(env, a + b, sa, fa + fb, sc)
  {
    forall rest: seq<Line>
      ensures Run(env, a + b + rest, sa) == fa + fb + Run(env, rest, sc)
    {
      ComposeRuns(env, a, sa, fa, b, sb, fb, sc, rest);
    }
  }

  lemma ComposeRuns(env: Env, a: seq<Line>, sa: seq<Chain>, fa: seq<Fate>, b: seq<Line>, sb: seq<Chain>, fb: seq<Fate>,
                    sc: seq<Chain>,
                    rest: seq<Line>)
    requires Run(env, a + (b + rest), sa) == fa + Run(env, b + rest, sb)
    requires Run(env, b + rest, sb) == fb + Run(env, rest, sc)
    ensures Run(env, a + b + rest, sa) == fa + fb + Run(env, rest, sc)
  {
    var r := Run(env, rest, sc);
    assert a + b + rest == a + (b + rest);
    assert fa + (fb + r) == fa + fb + r;
  }

  lemma {:induction false} RunOne(env: Env, s: Stmt, stack: seq<Chain>)
    requires SafeOne(s)
    ensures Decomposes(env, FlattenOne(s), stack, FatesOne(env, s, stack), stack)
    decreases s, 0
  {
    match s
    case Simple(_, _, _) =>
      Decompose1(env, SimpleLine(s), stack);
    case Menu(body) =>
      RunAll(env, body, stack);
      Bracket(env, Word(MainmenuOption), stack, Flatten(body), stack, Fates(env, body, stack), stack);
      Finish(env, [Word(MainmenuOption)] + Flatten(body), stack,
             [LineFate(env, Word(MainmenuOption), stack)] + Fates(env, body, stack),
             stack, Word(Endmenu), stack);
    case If(c, thn, els, hasElse) =>
      var f := Folded(env, c);
      RunAll(env, thn, stack + [f]);
      RunThen(env, c, f, Flatten(thn), Fates(env, thn, stack + [f]), stack);
      var ls, fs := [Line(IfWord, 0, c)] + Flatten(thn), [Kept([])] + Fates(env, thn, stack + [f]);
      if hasElse {
        var le, fe := Flatten(els), Fates(env, els, stack + [Invert(f)]);
        RunAll(env, els, stack + [Invert(f)]);
        RunElse(env, stack, f, le, fe);
        DecomposeAppend(env, ls, stack, fs, [Word(Else)] + le, stack + [f], [Kept([])] + fe, stack + [Invert(f)]);
        RunFi(env, ls + ([Word(Else)] + le), fs + ([Kept([])] + fe), stack, Invert(f));
      } else {
        RunFi(env, ls, fs, stack, f);
        assert ls + [] == ls && fs + [] == fs;
      }
  }

  /** A line followed by a block. */
  lemma Bracket(env: Env, line: Line, sa: seq<Chain>, b: seq<Line>, sb: seq<Chain>, fb: seq<Fate>, sc: seq<Chain>)
    requires NextStack(env, line, sa) == sb && Decomposes(env, b, sb, fb, sc)
    ensures Decomposes(env, [line] + b, sa, [LineFate(env, line, sa)] + fb, sc)
  {
    Decompose1(env, line, sa);
    DecomposeAppend(env, [line], sa, [LineFate(env, line, sa)], b, sb, fb, sc);
  }

  /** A block followed by a line. */
  lemma Finish(env: Env, a: seq<Line>, sa: seq<Chain>, fa: seq<Fate>, sb: seq<Chain>, line: Line, sc: seq<Chain>)
    requires Decomposes(env, a, sa, fa, sb) && NextStack(env, line, sb) == sc
    ensures Decomposes(env, a + [line], sa, fa + [LineFate(env, line, sb)], sc)
  {
    Decompose1(env, line, sb);
    DecomposeAppend(env, a, sa, fa, [line], sb, [LineFate(env, line, sb)], sc);
  }

  lemma RunThen(env: Env, c: Chain, f: Chain, lt: seq<Line>, ft: seq<Fate>, stack: seq<Chain>)
    requires f == Folded(env, c) && Decomposes(env, lt, stack + [f], ft, stack + [f])
    ensures Decomposes(env, [Line(IfWord, 0, c)] + lt, stack, [Kept([])] + ft, stack + [f])
  {
    Bracket(env, Line(IfWord, 0, c), stack, lt, stack + [f], ft, stack + [f]);
  }

  lemma RunFi(env: Env, lines: seq<Line>, fates: seq<Fate>, stack: seq<Chain>, top: Chain)
    requires Decomposes(env, lines, stack, fates, stack + [top])
    ensures Decomposes(env, lines + [Word(Fi)], stack, fates + [Kept([])], stack)
  {
    Popped(env, stack, top);
    Finish(env, lines, stack, fates, stack + [top], Word(Fi), stack);
  }

  lemma Popped(env: Env, stack: seq<Chain>, c: Chain)
    ensures NextStack(env, Word(Fi), stack + [c]) == stack
  {}

  lemma RunElse(env: Env, stack: seq<Chain>, f: Chain, le: seq<Line>, fe: seq<Fate>)
    requires Decomposes(env, le, stack + [Invert(f)], fe, stack + [Invert(f)])
    ensures Decomposes(env, [Word(Else)] + le, stack + [f], [Kept([])] + fe, stack + [Invert(f)])
  {
    var inverted := stack + [Invert(f)];
    ElseTurns(env, stack, f, inverted);
    Bracket(env, Word(Else), stack + [f], le, inverted, fe, inverted);
  }

  lemma ElseTurns(env: Env, stack: seq<Chain>, f: Chain, inverted: seq<Chain>)
    requires inverted == stack + [Invert(f)]
    ensures NextStack(env, Word(Else), stack + [f]) == inverted && LineFate(env, Word(Else), stack + [f]) == Kept([])
  {}

  lemma {:induction false} RunAll(env: Env, p: seq<Stmt>, stack: seq<Chain>)
    requires Safe(p)
    ensures Decomposes(env, Flatten(p), stack, Fates(env, p, stack), stack)
    decreases p, 1
  {
    if p == [] {
      forall rest: seq<Line> ensures Run(env, [] + rest, stack) == [] + Run(env, rest, stack) {
        assert [] + rest == rest;
      }
    } else {
      RunOne(env, p[0], stack);
      RunAll(env, p[1..], stack);
      DecomposeAppend(env, FlattenOne(p[0]), stack, FatesOne(env, p[0], stack),
                      Flatten(p[1..]), stack, Fates(env, p[1..], stack), stack);
    }
  }

  // ---- the stack means the path condition ----

  /** A folded condition is TRUE, FALSE or a flat chain of source tokens. */
  lemma FoldedShape(env: Env, c: Chain)
    requires AllSource(c) && WellFormed(c)
    ensures var f := Folded(env, c); f == [True] || f == [False] || (FlatChain(f) && AllSource(f))
  {
    EliminateShape(env, c);
    EliminateSource(env, c);
    var e := Eliminate(env, c);
    if e == [True] || e == [False] {
      assert RemoveBang(e) == e;
    } else {
      RemoveBangTokens(e);
      RemoveBangMeaning(e, Blank);
    }
  }

  lemma FoldedMeaning(env: Env, c: Chain, v: Valuation)
    requires SafeCondition(c) && Admissible(env, v)
    ensures IsFolded(Folded(env, c)) && Holds(Folded(env, c), v) == Holds(c, v) <==> !Holds(DroppedTail(env, c), v)
  {
    FoldedShape(env, c);
    WellFormedEverywhere(c, v);
    EliminateExact(env, c, v);
    EliminateShape(env, c);
    var e := Eliminate(env, c);
    if e == [True] || e == [False] { assert RemoveBang(e) == e; } else { RemoveBangMeaning(e, v); }
  }

  lemma {:induction false} EliminateSource(env: Env, c: Chain)
    requires AllSource(c)
    ensures var e := Eliminate(env, c); e == [True] || e == [False] || AllSource(e)
    decreases |c|
  {
    if |c| > 3 { EliminateSource(env, c[4..]); }
  }

  lemma InvertConstant(t: Token, v: Valuation)
    requires t.True? || t.False?
    ensures Invert([t]) == [InvertToken(t)] && Meaning([t], v) == Truth(t.True?)
  {
    assert Unit([t], v) == Read(t.True?, []);
    assert Conjunction([t], v) == Read(t.True?, []);
    assert Disjunction([t], v) == Read(t.True?, []);
  }

  lemma InvertedShape(env: Env, c: Chain)
    requires SafeCondition(c)
    ensures IsFolded(Invert(Folded(env, c)))
  {
    var f := Folded(env, c);
    FoldedShape(env, c);
    if FlatChain(f) {
      InversionAt(f, Blank);
      InvertFlat(f);
    } else {
      InvertConstant(f[0], Blank);
    }
  }

  lemma InvertFlat(c: Chain)
    requires AllFlat(c)
    ensures AllFlat(Invert(c))
  {}

  /** The inverted condition is the negation exactly where the folded one has no false run while it is true. */
  lemma InvertedMeaning(env: Env, c: Chain, v: Valuation)
    requires SafeCondition(c)
    ensures var f := Folded(env, c);
            IsFolded(Invert(f)) && (Holds(Invert(f), v) == !Holds(f, v) <==> !(Holds(f, v) && RunFalse(f, v)))
  {
    var f := Folded(env, c);
    FoldedShape(env, c);
    InvertedShape(env, c);
    if FlatChain(f) {
      WellFormedEverywhere(f, v);
      InversionAt(f, v);
    } else {
      InvertConstant(f[0], v);
      InvertConstant(InvertToken(f[0]), v);
      ConstantRuns(f[0], v);
    }
  }

  lemma ConstantRuns(t: Token, v: Valuation)
    requires t.True? || t.False?
    ensures RunFalse([t], v) == t.False?
  {
    assert Unit([t], v) == Read(t.True?, []);
  }

  /** Every guard agrees with its line's path condition; unlinked lines are never reached. */
  predicate Agree(lines: seq<Line>, fates: seq<Fate>, paths: seq<bool>, v: Valuation) {
    && |lines| == |fates| == |paths|
    && forall i :: 0 <= i < |lines| ==> Agreed(lines[i], fates[i], paths[i], v)
  }

  predicate Agreed(line: Line, fate: Fate, path: bool, v: Valuation) {
    !IsControl(line.token) ==> if fate.Unlinked? then !path else GuardHolds(fate.guard, v) == path
  }

  lemma AgreeAppend(la: seq<Line>, fa: seq<Fate>, pa: seq<bool>, lb: seq<Line>, fb: seq<Fate>, pb: seq<bool>,
                    v: Valuation)
    requires Agree(la, fa, pa, v) && Agree(lb, fb, pb, v)
    ensures Agree(la + lb, fa + fb, pa + pb, v)
  {
    var ls, fs, ps := la + lb, fa + fb, pa + pb;
    forall i | 0 <= i < |ls| ensures Agreed(ls[i], fs[i], ps[i], v) {
      if i < |la| {
        assert Agreed(la[i], fa[i], pa[i], v);
      } else {
        assert Agreed(lb[i - |la|], fb[i - |la|], pb[i - |la|], v);
      }
    }
  }

  lemma AgreeLine(env: Env, token: Keyword, nameindex: int, deps: seq<Chain>, stack: seq<Chain>, v: Valuation)
    requires !IsControl(token) && Conjuncts(deps) && (deps != [] ==> IsDependent(token)) && FoldedStack(stack)
    ensures var line := Line(token, nameindex, Render(deps));
            Agree([line], [LineFate(env, line, stack)], [AllHold(stack, v) && AllHold(deps, v)], v)
  {
    var line := Line(token, nameindex, Render(deps));
    JoinMeaning(stack, deps, v);
    if deps != [] { EliminateParenthesized(env, Render(deps)); }
    assert GuardStack(env, line, stack) == WithDependency(stack, deps);
  }

  lemma FoldedPush(stack: seq<Chain>, c: Chain, v: Valuation)
    requires FoldedStack(stack) && IsFolded(c)
    ensures FoldedStack(stack + [c]) && AllHold(stack + [c], v) == (AllHold(stack, v) && Holds(c, v))
  {
    AllHoldPush(stack, c, v);
  }

  lemma {:induction false} FatesAgreeOne(env: Env, s: Stmt, stack: seq<Chain>, v: Valuation)
    requires SafeOne(s) && FairOne(env, s, v) && FoldedStack(stack) && Admissible(env, v)
    ensures Agree(FlattenOne(s), FatesOne(env, s, stack), PathsOne(s, AllHold(stack, v), v), v)
    decreases s, 0
  {
    var path := AllHold(stack, v);
    match s
    case Simple(token, nameindex, deps) =>
      if !IsControl(token) { AgreeLine(env, token, nameindex, deps, stack, v); }
    case Menu(body) =>
      var o, e := Word(MainmenuOption), Word(Endmenu);
      AgreeLine(env, MainmenuOption, 0, [], stack, v);
      AgreeLine(env, Endmenu, 0, [], stack, v);
      FatesAgree(env, body, stack, v);
      AgreeAppend([o], [LineFate(env, o, stack)], [path],
                  Flatten(body), Fates(env, body, stack), Paths(body, path, v), v);
      AgreeAppend([o] + Flatten(body), [LineFate(env, o, stack)] + Fates(env, body, stack),
                  [path] + Paths(body, path, v),
                  [e], [LineFate(env, e, stack)], [path], v);
    case If(c, thn, els, hasElse) =>
      var f, k, fi := Folded(env, c), [Kept([])], [Word(Fi)];
      var i := [Line(IfWord, 0, c)];
      FoldedShape(env, c);
      FoldedMeaning(env, c, v);
      FoldedPush(stack, f, v);
      FatesAgree(env, thn, stack + [f], v);
      AgreeAppend(i, k, [path], Flatten(thn), Fates(env, thn, stack + [f]), Paths(thn, path && Holds(c, v), v), v);
      var ls, fs, ps := i + Flatten(thn), k + Fates(env, thn, stack + [f]), [path] + Paths(thn, path && Holds(c, v), v);
      if hasElse {
        InvertedMeaning(env, c, v);
        FoldedPush(stack, Invert(f), v);
        FatesAgree(env, els, stack + [Invert(f)], v);
        AgreeAppend([Word(Else)], k, [path],
                    Flatten(els), Fates(env, els, stack + [Invert(f)]), Paths(els, path && !Holds(c, v), v), v);
        var le, fe := [Word(Else)] + Flatten(els), k + Fates(env, els, stack + [Invert(f)]);
        var pe := [path] + Paths(els, path && !Holds(c, v), v);
        AgreeAppend(ls, fs, ps, le, fe, pe, v);
        AgreeAppend(ls + le, fs + fe, ps + pe, fi, k, [path], v);
      } else {
        assert ls + [] == ls && fs + [] == fs && ps + [] == ps;
        AgreeAppend(ls, fs, ps, fi, k, [path], v);
      }
  }

  lemma {:induction false} FatesAgree(env: Env, p: seq<Stmt>, stack: seq<Chain>, v: Valuation)
    requires Safe(p) && Fair(env, p, v) && FoldedStack(stack) && Admissible(env, v)
    ensures Agree(Flatten(p), Fates(env, p, stack), Paths(p, AllHold(stack, v), v), v)
    decreases p, 1
  {
    if p != [] {
      FatesAgreeOne(env, p[0], stack, v);
      FatesAgree(env, p[1..], stack, v);
      AgreeAppend(FlattenOne(p[0]), FatesOne(env, p[0], stack), PathsOne(p[0], AllHold(stack, v), v),
                  Flatten(p[1..]), Fates(env, p[1..], stack), Paths(p[1..], AllHold(stack, v), v), v);
    }
  }

  /**
   * The main theorem of the pass. Under every valuation that distorts no condition of the script, a
   * surviving statement's guard is true exactly when the nested program reaches the statement, and
   * an unlinked statement is never reached. No guard has a "!" left, for which the generated
   * script has another priority.
   */
  lemma GuardsAreExact(name: nat -> string, arch: string, p: seq<Stmt>, v: Valuation)
    requires var env := EnvOf(name, arch, Flatten(p)); Safe(p) && Admissible(env, v) && Fair(env, p, v)
    ensures Agree(Flatten(p), Fix(name, arch, Flatten(p)), Paths(p, true, v), v)
    ensures AllPrintable(Fix(name, arch, Flatten(p)))
  {
    var env := EnvOf(name, arch, Flatten(p));
    RunIsFates(env, p);
    FatesAgree(env, p, [], v);
    ScriptPrintable(name, arch, p);
  }

  /** A script of one condition, to look at both of its branches. */
  function Probe(c: Chain): seq<Stmt> {
    [If(c, [Simple(Bool, 0, [])], [Simple(Bool, 0, [])], true)]
  }

  /** What Fair excludes is exactly what goes wrong: both branches of a condition agree only if it is undistorted. */
  lemma FairIsExact(env: Env, c: Chain, v: Valuation)
    requires SafeCondition(c) && Admissible(env, v)
    ensures Agree(Flatten(Probe(c)), Fates(env, Probe(c), []), Paths(Probe(c), true, v), v) <==>
            Undistorted(env, c, true, v)
  {
    var f, line := Folded(env, c), Line(Bool, 0, []);
    FoldedShape(env, c);
    FoldedMeaning(env, c, v);
    InvertedMeaning(env, c, v);
    BranchAgrees(env, line, f, v);
    BranchAgrees(env, line, Invert(f), v);
    ProbeParts(env, c, line, f, v);
    FiveAgree(c, line, LineFate(env, line, [f]), LineFate(env, line, [Invert(f)]), Holds(c, v), v);
  }

  lemma FiveAgree(c: Chain, line: Line, x: Fate, y: Fate, path: bool, v: Valuation)
    ensures var lines := [Line(IfWord, 0, c), line, Word(Else), line, Word(Fi)];
            var fates, paths := [Kept([]), x, Kept([]), y, Kept([])], [true, path, true, !path, true];
            Agree(lines, fates, paths, v) <==> Agreed(line, x, path, v) && Agreed(line, y, !path, v)
  {
    var lines := [Line(IfWord, 0, c), line, Word(Else), line, Word(Fi)];
    var fates, paths := [Kept([]), x, Kept([]), y, Kept([])], [true, path, true, !path, true];
    assert Agreed(lines[0], fates[0], paths[0], v) && Agreed(lines[2], fates[2], paths[2], v);
    assert Agreed(lines[4], fates[4], paths[4], v);
    assert lines[1] == lines[3] == line && fates[1] == x && fates[3] == y;
  }

  lemma BranchAgrees(env: Env, line: Line, c: Chain, v: Valuation)
    requires line == Line(Bool, 0, []) && IsFolded(c)
    ensures forall path :: Agreed(line, LineFate(env, line, [c]), path, v) <==> path == Holds(c, v)
  {
    AgreeLine(env, Bool, 0, [], [c], v);
    assert AllHold([c], v) == Holds(c, v) by { assert [c][0] == c; }
    var lines, fates, paths := [line], [LineFate(env, line, [c])], [Holds(c, v)];
    assert Agreed(lines[0], fates[0], paths[0], v);
  }

  lemma BlockParts(env: Env, line: Line, stack: seq<Chain>, path: bool, v: Valuation)
    requires line == Line(Bool, 0, [])
    ensures var b := [Simple(Bool, 0, [])];
            Flatten(b) == [line] && Fates(env, b, stack) == [LineFate(env, line, stack)] && Paths(b, path, v) == [path]
  {
    var b := [Simple(Bool, 0, [])];
    assert b[1..] == [] && b[0] == Simple(Bool, 0, []);
    assert AllHold([], v) && SimpleLine(b[0]) == line;
  }

  lemma ProbeParts(env: Env, c: Chain, line: Line, f: Chain, v: Valuation)
    requires line == Line(Bool, 0, []) && f == Folded(env, c)
    ensures Flatten(Probe(c)) == [Line(IfWord, 0, c), line, Word(Else), line, Word(Fi)]
    ensures Paths(Probe(c), true, v) == [true, Holds(c, v), true, !Holds(c, v), true]
    ensures Fates(env, Probe(c), []) ==
            [Kept([]), LineFate(env, line, [f]), Kept([]), LineFate(env, line, [Invert(f)]), Kept([])]
  {
    var b := [Simple(Bool, 0, [])];
    var s := If(c, b, b, true);
    BlockParts(env, line, [f], Holds(c, v), v);
    BlockParts(env, line, [Invert(f)], !Holds(c, v), v);
    ProbeFates(env, c, b, s, line, f);
    ProbePaths(c, b, s, line, v);
    OnlyOne(env, s, Probe(c), v);
  }

  lemma OnlyOne(env: Env, s: Stmt, p: seq<Stmt>, v: Valuation)
    requires p == [s]
    ensures Flatten(p) == FlattenOne(s) && Fates(env, p, []) == FatesOne(env, s, [])
    ensures Paths(p, true, v) == PathsOne(s, true, v)
  {
    assert p[1..] == [];
  }

  lemma ProbePaths(c: Chain, b: seq<Stmt>, s: Stmt, line: Line, v: Valuation)
    requires s == If(c, b, b, true) && Flatten(b) == [line]
    requires Paths(b, Holds(c, v), v) == [Holds(c, v)] && Paths(b, !Holds(c, v), v) == [!Holds(c, v)]
    ensures FlattenOne(s) == [Line(IfWord, 0, c), line, Word(Else), line, Word(Fi)]
    ensures PathsOne(s, true, v) == [true, Holds(c, v), true, !Holds(c, v), true]
  {}

  lemma ProbeFates(env: Env, c: Chain, b: seq<Stmt>, s: Stmt, line: Line, f: Chain)
    requires f == Folded(env, c) && s == If(c, b, b, true) && Fates(env, b, [f]) == [LineFate(env, line, [f])]
    requires Fates(env, b, [Invert(f)]) == [LineFate(env, line, [Invert(f)])]
    ensures FatesOne(env, s, []) ==
            [Kept([]), LineFate(env, line, [f]), Kept([]), LineFate(env, line, [Invert(f)]), Kept([])]
  {
    assert [] + [f] == [f] && [] + [Invert(f)] == [Invert(f)];
  }

  /** A caller can check beforehand that nothing is lost and that one operator joins a condition with an else. */
  lemma CheckedIsFair(env: Env, c: Chain, hasElse: bool, v: Valuation)
    requires SafeCondition(c) && DroppedTail(env, c) == [] && (hasElse ==> Uniform(Folded(env, c)))
    ensures Undistorted(env, c, hasElse, v)
  {
    var f := Folded(env, c);
    FoldedShape(env, c);
    InvertedMeaning(env, c, v);
    if hasElse && FlatChain(f) {
      WellFormedEverywhere(f, v);
      InvertUniform(f, v);
    } else if hasElse {
      ConstantRuns(f[0], v);
      InvertConstant(f[0], v);
    }
  }

  // ---- what the next pass relies on ----

  lemma RunIsFates(env: Env, p: seq<Stmt>)
    requires Safe(p)
    ensures Run(env, Flatten(p), []) == Fates(env, p, [])
  {
    RunAll(env, p, []);
    assert Flatten(p) + [] == Flatten(p);
    assert Run(env, Flatten(p) + [], []) == Fates(env, p, []) + Run(env, [], []);
  }

  /** The first statement is never unlinked, so the caller's list head stays valid. */
  lemma HeadKept(name: nat -> string, arch: string, lines: seq<Line>)
    requires lines != [] && (IsDependent(lines[0].token) && lines[0].cond != [] ==> lines[0].cond[0].LParen?)
    ensures Fix(name, arch, lines)[0].Kept?
  {
    var env := EnvOf(name, arch, lines);
    var c := lines[0].cond;
    if IsDependent(lines[0].token) && c != [] {
      EliminateParenthesized(env, c);
      assert GuardStack(env, lines[0], []) == [c];
      GlueOne(c);
      DedupTokensHead(c);
    }
  }

  lemma GlueOne(c: Chain)
    requires c != [] && c[0].LParen?
    ensures NonEmpty([c]) && Glue([c]) == c && !AnyFalse([c])
  {
    assert [c][..0] == [] && Glue([c][..0]) == [];
  }

  lemma DedupTokensHead(ts: Chain)
    requires ts != [] && ts[0].LParen?
    ensures !IsFalse(Dedup(ts))
  {}

  function Survivors(lines: seq<Line>, fates: seq<Fate>): seq<Keyword>
    requires |lines| == |fates|
  {
    if lines == [] then []
    else (if fates[0].Kept? then [lines[0].token] else []) + Survivors(lines[1..], fates[1..])
  }

  /** Open menus after the statements, or -1 once an endmenu has no menu to close. */
  function MenuDepth(ks: seq<Keyword>, depth: nat): int {
    if ks == [] then depth
    else if ks[0].MainmenuOption? then MenuDepth(ks[1..], depth + 1)
    else if ks[0].Endmenu? then if depth == 0 then -1 else MenuDepth(ks[1..], depth - 1)
    else MenuDepth(ks[1..], depth)
  }

  /** Menu openers and closers only in matching pairs, properly nested with the ifs. */
  predicate MenusNestedOne(s: Stmt)
    decreases s, 0
  {
    match s
    case Simple(token, _, _) => !token.MainmenuOption? && !token.Endmenu?
    case Menu(body) => MenusNested(body)
    case If(_, thn, els, _) => MenusNested(thn) && MenusNested(els)
  }

  predicate MenusNested(p: seq<Stmt>)
    decreases p, 1
  {
    p != [] ==> MenusNestedOne(p[0]) && MenusNested(p[1..])
  }

  ghost predicate Neutral(lines: seq<Line>, fates: seq<Fate>) {
    && |lines| == |fates|
    && forall rest: seq<Keyword>, d: nat :: MenuDepth(Survivors(lines, fates) + rest, d) == MenuDepth(rest, d)
  }

  lemma {:induction false} SurvivorsAppend(la: seq<Line>, fa: seq<Fate>, lb: seq<Line>, fb: seq<Fate>)
    requires |la| == |fa| && |lb| == |fb|
    ensures Survivors(la + lb, fa + fb) == Survivors(la, fa) + Survivors(lb, fb)
    decreases |la|
  {
    if la == [] {
      assert la + lb == lb && fa + fb == fb;
    } else {
      SurvivorsAppend(la[1..], fa[1..], lb, fb);
      assert (la + lb)[1..] == la[1..] + lb && (fa + fb)[1..] == fa[1..] + fb;
      var h := if fa[0].Kept? then [la[0].token] else [];
      var x, y := Survivors(la[1..], fa[1..]), Survivors(lb, fb);
      assert h + (x + y) == (h + x) + y;
    }
  }

  lemma NeutralAppend(la: seq<Line>, fa: seq<Fate>, lb: seq<Line>, fb: seq<Fate>)
    requires Neutral(la, fa) && Neutral(lb, fb)
    ensures Neutral(la + lb, fa + fb)
  {
    SurvivorsAppend(la, fa, lb, fb);
    forall rest: seq<Keyword>, d: nat ensures MenuDepth(Survivors(la + lb, fa + fb) + rest, d) == MenuDepth(rest, d) {
      assert Survivors(la, fa) + Survivors(lb, fb) + rest == Survivors(la, fa) + (Survivors(lb, fb) + rest);
    }
  }

  lemma NeutralLine(line: Line, fate: Fate)
    requires !line.token.MainmenuOption? && !line.token.Endmenu?
    ensures Neutral([line], [fate])
  {
    forall rest: seq<Keyword>, d: nat ensures MenuDepth(Survivors([line], [fate]) + rest, d) == MenuDepth(rest, d) {
      if fate.Kept? {
        assert Survivors([line], [fate]) == [line.token];
        assert ([line.token] + rest)[1..] == rest;
      } else {
        assert Survivors([line], [fate]) + rest == rest;
      }
    }
  }

  lemma NeutralMenu(fate: Fate, body: seq<Line>, fates: seq<Fate>)
    requires Neutral(body, fates)
    ensures Neutral([Word(MainmenuOption)] + body + [Word(Endmenu)], [fate] + fates + [fate])
  {
    var o, e, b := [Word(MainmenuOption)], [Word(Endmenu)], Survivors(body, fates);
    SurvivorsAppend(o, [fate], body, fates);
    SurvivorsAppend(o + body, [fate] + fates, e, [fate]);
    SurvivorsOne(Word(MainmenuOption), fate);
    SurvivorsOne(Word(Endmenu), fate);
    var so, se := Survivors(o, [fate]), Survivors(e, [fate]);
    forall rest: seq<Keyword>, d: nat ensures MenuDepth(so + b + se + rest, d) == MenuDepth(rest, d) {
      if fate.Kept? {
        MenuAround(b, rest, d);
      } else {
        assert so + b + se + rest == b + rest;
      }
    }
  }

  lemma SurvivorsOne(line: Line, fate: Fate)
    ensures Survivors([line], [fate]) == if fate.Kept? then [line.token] else []
  {
    assert [line][1..] == [] && [fate][1..] == [];
  }

  lemma MenuAround(b: seq<Keyword>, rest: seq<Keyword>, d: nat)
    requires forall r: seq<Keyword>, n: nat :: MenuDepth(b + r, n) == MenuDepth(r, n)
    ensures MenuDepth([MainmenuOption] + b + [Endmenu] + rest, d) == MenuDepth(rest, d)
  {
    var all, tail := [MainmenuOption] + b + [Endmenu] + rest, [Endmenu] + rest;
    assert all[1..] == b + tail && tail[1..] == rest;
    assert MenuDepth(b + tail, d + 1) == MenuDepth(tail, d + 1);
  }

  lemma {:induction false} NestedNeutralOne(env: Env, s: Stmt, stack: seq<Chain>)
    requires MenusNestedOne(s)
    ensures Neutral(FlattenOne(s), FatesOne(env, s, stack))
    decreases s, 0
  {
    match s
    case Simple(_, _, _) =>
      NeutralLine(SimpleLine(s), LineFate(env, SimpleLine(s), stack));
    case Menu(body) =>
      NestedNeutral(env, body, stack);
      NeutralMenu(LineFate(env, Word(Endmenu), stack), Flatten(body), Fates(env, body, stack));
    case If(c, thn, els, hasElse) =>
      var f, k, i := Folded(env, c), [Kept([])], Line(IfWord, 0, c);
      NestedNeutral(env, thn, stack + [f]);
      NeutralLine(i, Kept([]));
      NeutralLine(Word(Fi), Kept([]));
      NeutralAppend([i], k, Flatten(thn), Fates(env, thn, stack + [f]));
      var ls, fs := [i] + Flatten(thn), k + Fates(env, thn, stack + [f]);
      if hasElse {
        var le, fe := Flatten(els), Fates(env, els, stack + [Invert(f)]);
        NestedNeutral(env, els, stack + [Invert(f)]);
        NeutralLine(Word(Else), Kept([]));
        NeutralAppend([Word(Else)], k, le, fe);
        NeutralAppend(ls, fs, [Word(Else)] + le, k + fe);
        NeutralAppend(ls + ([Word(Else)] + le), fs + (k + fe), [Word(Fi)], k);
      } else {
        NeutralAppend(ls, fs, [Word(Fi)], k);
        assert ls + [] == ls && fs + [] == fs;
      }
  }

  lemma {:induction false} NestedNeutral(env: Env, p: seq<Stmt>, stack: seq<Chain>)
    requires MenusNested(p)
    ensures Neutral(Flatten(p), Fates(env, p, stack))
    decreases p, 1
  {
    if p == [] {
      assert Survivors([], []) == [];
      assert forall rest: seq<Keyword> :: [] + rest == rest;
    } else {
      NestedNeutralOne(env, p[0], stack);
      NestedNeutral(env, p[1..], stack);
      NeutralAppend(FlattenOne(p[0]), FatesOne(env, p[0], stack), Flatten(p[1..]), Fates(env, p[1..], stack));
    }
  }

  /** Pruning keeps menus balanced: the statements left over open and close menus in pairs. */
  lemma MenusStayBalanced(name: nat -> string, arch: string, p: seq<Stmt>)
    requires MenusNested(p) && Safe(p)
    ensures MenuDepth(Survivors(Flatten(p), Fix(name, arch, Flatten(p))), 0) == 0
  {
    var env := EnvOf(name, arch, Flatten(p));
    RunIsFates(env, p);
    NestedNeutral(env, p, []);
    var ks := Survivors(Flatten(p), Fates(env, p, []));
    assert ks + [] == ks;
  }

  /** Inside a branch that is FALSE every statement is unlinked, and so is the whole of any menu there. */
  predicate AllUnlinked(lines: seq<Line>, fates: seq<Fate>) {
    |lines| == |fates| && forall i :: 0 <= i < |lines| && !IsControl(lines[i].token) ==> fates[i].Unlinked?
  }

  lemma DeadLine(env: Env, token: Keyword, nameindex: int, deps: seq<Chain>, stack: seq<Chain>)
    requires FoldedStack(stack) && AnyFalse(stack) && Conjuncts(deps) && (deps != [] ==> IsDependent(token))
    ensures var line := Line(token, nameindex, Render(deps)); !IsControl(token) ==> LineFate(env, line, stack).Unlinked?
  {
    var line := Line(token, nameindex, Render(deps));
    JoinMeaning(stack, deps, Blank);
    if deps != [] { EliminateParenthesized(env, Render(deps)); }
    assert GuardStack(env, line, stack) == WithDependency(stack, deps) || IsControl(token);
  }

  lemma DeadPush(stack: seq<Chain>, c: Chain)
    requires FoldedStack(stack) && AnyFalse(stack) && IsFolded(c)
    ensures FoldedStack(stack + [c]) && AnyFalse(stack + [c])
  {
    var i :| 0 <= i < |stack| && IsFalse(stack[i]);
    assert (stack + [c])[i] == stack[i];
  }

  lemma UnlinkedAppend(la: seq<Line>, fa: seq<Fate>, lb: seq<Line>, fb: seq<Fate>)
    requires AllUnlinked(la, fa) && AllUnlinked(lb, fb)
    ensures AllUnlinked(la + lb, fa + fb)
  {}

  lemma {:induction false} DeadBranchOne(env: Env, s: Stmt, stack: seq<Chain>)
    requires SafeOne(s) && FoldedStack(stack) && AnyFalse(stack)
    ensures AllUnlinked(FlattenOne(s), FatesOne(env, s, stack))
    decreases s, 0
  {
    match s
    case Simple(token, nameindex, deps) =>
      DeadLine(env, token, nameindex, deps, stack);
    case Menu(body) =>
      var o, e := Word(MainmenuOption), Word(Endmenu);
      DeadLine(env, MainmenuOption, 0, [], stack);
      DeadLine(env, Endmenu, 0, [], stack);
      DeadBranch(env, body, stack);
      UnlinkedAppend([o], [LineFate(env, o, stack)], Flatten(body), Fates(env, body, stack));
      UnlinkedAppend([o] + Flatten(body), [LineFate(env, o, stack)] + Fates(env, body, stack),
                     [e], [LineFate(env, e, stack)]);
    case If(c, thn, els, hasElse) =>
      var f, k, i := Folded(env, c), [Kept([])], Line(IfWord, 0, c);
      FoldedShape(env, c);
      DeadPush(stack, f);
      DeadBranch(env, thn, stack + [f]);
      UnlinkedAppend([i], k, Flatten(thn), Fates(env, thn, stack + [f]));
      var ls, fs := [i] + Flatten(thn), k + Fates(env, thn, stack + [f]);
      if hasElse {
        var le, fe := Flatten(els), Fates(env, els, stack + [Invert(f)]);
        InvertedShape(env, c);
        DeadPush(stack, Invert(f));
        DeadBranch(env, els, stack + [Invert(f)]);
        UnlinkedAppend([Word(Else)], k, le, fe);
        UnlinkedAppend(ls, fs, [Word(Else)] + le, k + fe);
        UnlinkedAppend(ls + ([Word(Else)] + le), fs + (k + fe), [Word(Fi)], k);
      } else {
        UnlinkedAppend(ls, fs, [Word(Fi)], k);
        assert ls + [] == ls && fs + [] == fs;
      }
  }

  lemma {:induction false} DeadBranch(env: Env, p: seq<Stmt>, stack: seq<Chain>)
    requires Safe(p) && FoldedStack(stack) && AnyFalse(stack)
    ensures AllUnlinked(Flatten(p), Fates(env, p, stack))
    decreases p, 1
  {
    if p != [] {
      DeadBranchOne(env, p[0], stack);
      DeadBranch(env, p[1..], stack);
      UnlinkedAppend(FlattenOne(p[0]), FatesOne(env, p[0], stack), Flatten(p[1..]), Fates(env, p[1..], stack));
    }
  }

  // ---- the tokens the generator sees ----

  predicate Printable(c: Chain, bangs: bool) {
    c == [True] || c == [False] || (c != [] && GuardTokens(c, bangs))
  }

  /** What the tokenizer hands over; bangs says whether adjacent "!" are allowed. */
  predicate ParsedLine(line: Line, bangs: bool) {
    if line.token.IfWord? then AllSource(line.cond) && WellFormed(line.cond) && (bangs || !AdjacentBangs(line.cond))
    else line.cond != [] ==> line.cond[0].LParen? && GuardTokens(line.cond, bangs)
  }

  lemma {:induction false} EliminateBangs(env: Env, c: Chain)
    requires !AdjacentBangs(c)
    ensures !AdjacentBangs(Eliminate(env, c))
    decreases |c|
  {
    if |c| > 3 {
      assert c[1..][1..] == c[2..] && c[2..][1..] == c[3..] && c[3..][1..] == c[4..];
      assert !AdjacentBangs(c[1..]) && !AdjacentBangs(c[2..]) && !AdjacentBangs(c[3..]) && !AdjacentBangs(c[4..]);
      EliminateBangs(env, c[4..]);
    }
  }

  lemma FoldedPrintable(env: Env, c: Chain, bangs: bool)
    requires AllSource(c) && WellFormed(c) && (bangs || !AdjacentBangs(c))
    ensures Printable(Folded(env, c), bangs)
  {
    FoldedShape(env, c);
    EliminateShape(env, c);
    var e := Eliminate(env, c);
    if FlatChain(Folded(env, c)) {
      FlatChainHead(Folded(env, c));
      if !bangs && FlatChain(e) {
        EliminateBangs(env, c);
        RemoveBangExact(e);
      }
    }
  }

  lemma InvertPrintable(c: Chain, bangs: bool)
    requires Printable(c, bangs)
    ensures Printable(Invert(c), bangs)
  {
    if c == [True] || c == [False] {
      assert Invert(c) == [InvertToken(c[0])];
    } else {
      forall t | t in Invert(c) ensures IsGuardToken(t, bangs) {
        var i :| 0 <= i < |c| && Invert(c)[i] == t;
        assert c[i] in c;
      }
    }
  }

  predicate PrintableStack(stack: seq<Chain>, bangs: bool) {
    forall i :: 0 <= i < |stack| ==> Printable(stack[i], bangs)
  }

  /**
   * No guard reaching the generator contains TRUE or FALSE; and if no condition has two "!" in a
   * row, no guard contains "!" either, so the generator's different priority for it never matters.
   */
  lemma {:induction false} GuardsPrintable(env: Env, lines: seq<Line>, stack: seq<Chain>, bangs: bool)
    requires PrintableStack(stack, bangs) && forall i :: 0 <= i < |lines| ==> ParsedLine(lines[i], bangs)
    ensures forall i :: 0 <= i < |lines| && Run(env, lines, stack)[i].Kept? ==>
              GuardTokens(Run(env, lines, stack)[i].guard, bangs)
    decreases |lines|
  {
    if lines != [] {
      var line := lines[0];
      LinePrintable(env, line, stack, bangs);
      GuardsPrintable(env, lines[1..], NextStack(env, line, stack), bangs);
    }
  }

  lemma StackPrintable(env: Env, line: Line, stack: seq<Chain>, bangs: bool)
    requires PrintableStack(stack, bangs) && ParsedLine(line, bangs)
    ensures PrintableStack(NextStack(env, line, stack), bangs)
  {
    if line.token.IfWord? {
      FoldedPrintable(env, line.cond, bangs);
      PushPrintable(stack, Folded(env, line.cond), bangs);
    } else if line.token.Else? && stack != [] {
      InvertPrintable(stack[|stack| - 1], bangs);
      ReplacePrintable(stack, Invert(stack[|stack| - 1]), bangs);
    }
  }

  lemma PushPrintable(stack: seq<Chain>, c: Chain, bangs: bool)
    requires PrintableStack(stack, bangs) && Printable(c, bangs)
    ensures PrintableStack(stack + [c], bangs)
  {}

  lemma ReplacePrintable(stack: seq<Chain>, c: Chain, bangs: bool)
    requires PrintableStack(stack, bangs) && stack != [] && Printable(c, bangs)
    ensures PrintableStack(stack[|stack| - 1 := c], bangs)
  {}

  lemma GuardPrintable(s: seq<Chain>, bangs: bool)
    requires NonEmpty(s) && forall i :: 0 <= i < |s| ==> Printable(s[i], bangs)
    ensures Join(s) == [False] || GuardTokens(Join(s), bangs)
  {
    JoinTokens(s, bangs);
  }

  lemma LinePrintable(env: Env, line: Line, stack: seq<Chain>, bangs: bool)
    requires PrintableStack(stack, bangs) && ParsedLine(line, bangs)
    ensures PrintableStack(NextStack(env, line, stack), bangs)
    ensures LineFate(env, line, stack).Kept? ==> GuardTokens(LineFate(env, line, stack).guard, bangs)
  {
    StackPrintable(env, line, stack, bangs);
    var s := GuardStack(env, line, stack);
    if IsGuarded(line.token) && NonEmpty(s) {
      if line.cond != [] { EliminateParenthesized(env, line.cond); }
      GuardPrintable(s, bangs);
    }
  }

  predicate AllPrintable(fates: seq<Fate>) {
    forall i :: 0 <= i < |fates| && fates[i].Kept? ==> GuardTokens(fates[i].guard, false)
  }

  lemma {:induction false} RenderTokens(us: seq<Chain>)
    requires Conjuncts(us) && BangFree(us)
    ensures GuardTokens(Render(us), false) && (us != [] ==> Render(us) != [] && Render(us)[0].LParen?)
    decreases |us|
  {
    if us != [] {
      RenderTokens(us[1..]);
      PieceTokens(us[0], |us| > 1);
    }
  }

  lemma PieceTokens(u: Chain, more: bool)
    requires FlatChain(u) && Bang !in u
    ensures GuardTokens(Piece(u, more), false)
  {}

  predicate AllParsed(lines: seq<Line>) { forall i :: 0 <= i < |lines| ==> ParsedLine(lines[i], false) }

  lemma {:induction false} ParsedOne(s: Stmt)
    requires SafeOne(s)
    ensures AllParsed(FlattenOne(s))
    decreases s, 0
  {
    match s
    case Simple(_, _, deps) => RenderTokens(deps);
    case Menu(body) => ParsedAll(body);
    case If(c, thn, els, hasElse) =>
      ParsedAll(thn);
      if hasElse { ParsedAll(els); }
  }

  lemma {:induction false} ParsedAll(p: seq<Stmt>)
    requires Safe(p)
    ensures AllParsed(Flatten(p))
    decreases p, 1
  {
    if p != [] {
      ParsedOne(p[0]);
      ParsedAll(p[1..]);
    }
  }

  lemma ScriptPrintable(name: nat -> string, arch: string, p: seq<Stmt>)
    requires Safe(p)
    ensures AllPrintable(Fix(name, arch, Flatten(p)))
  {
    ParsedAll(p);
    GuardsPrintable(EnvOf(name, arch, Flatten(p)), Flatten(p), [], false);
  }
}
