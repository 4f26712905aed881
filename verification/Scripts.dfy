/**
 * fix_conditionals of tkcond.c from end to end: nested scripts and the lists they are written as,
 * and what the pass on linked statements and conditions means for them.
 */
module Scripts {
  import opened Sequences
  import opened Conditions
  import opened Elimination
  import opened Joining
  import opened Flattening
  import opened ConditionLists
  import opened StatementLists
  import T = Tokenizer
  import M = Menus
  import P = MenuPasses

  // ---- a nested script meets what the pass needs ----

  lemma LastOperand(c: Chain)
    requires AllSource(c) && WellFormed(c)
    ensures c != [] && IsOperand(c[|c| - 1])
  {
    T.DisjunctionShaped(c, 0, c, Blank);
    ReadsAll(c, Disjunction(c, Blank).rest);
  }

  lemma ReadsAll(c: Chain, rest: Chain)
    requires rest == [] && T.ReadShaped(c, 0, rest)
    ensures c != [] && IsOperand(c[|c| - 1])
  {}

  lemma {:induction false} RenderEnds(us: seq<Chain>)
    requires us != []
    ensures Render(us) != [] && Render(us)[|Render(us)| - 1] == RParen
    decreases |us|
  {
    if |us| > 1 { RenderEnds(us[1..]); }
  }

  predicate AllLoaded(lines: seq<Line>) { forall i :: 0 <= i < |lines| ==> Loaded(lines[i]) }

  lemma {:induction false} LoadedOne(s: Stmt)
    requires SafeOne(s)
    ensures AllLoaded(FlattenOne(s))
    decreases s, 0
  {
    match s
    case Simple(_, _, deps) => if deps != [] { RenderEnds(deps); }
    case Menu(body) => LoadedAll(body);
    case If(c, thn, els, hasElse) =>
      LastOperand(c);
      LoadedAll(thn);
      if hasElse { LoadedAll(els); }
  }

  /** The conditions of a safe script can be folded in place. */
  lemma {:induction false} LoadedAll(p: seq<Stmt>)
    requires Safe(p)
    ensures AllLoaded(Flatten(p))
    decreases p, 1
  {
    if p != [] {
      LoadedOne(p[0]);
      LoadedAll(p[1..]);
    }
  }

  /** The script nests its ifs within the slots of the stack. */
  predicate FitsOne(s: Stmt, depth: nat)
    decreases s, 0
  {
    match s
    case Simple(token, _, deps) =>
      !token.IfWord? && !token.Else? && !token.Fi? && (IsDependent(token) && deps != [] ==> depth < STACK_SIZE)
    case Menu(body) => Fits(body, depth)
    case If(_, thn, els, hasElse) => depth < STACK_SIZE && Fits(thn, depth + 1) && (hasElse ==> Fits(els, depth + 1))
  }

  predicate Fits(p: seq<Stmt>, depth: nat)
    decreases p, 1
  {
    p != [] ==> FitsOne(p[0], depth) && Fits(p[1..], depth)
  }

  lemma NestsLine(line: Line, rest: seq<Line>, depth: nat)
    ensures Nests([line] + rest, depth) <==>
            match line.token
            case IfWord => depth < STACK_SIZE && Nests(rest, depth + 1)
            case Else => depth > 0 && Nests(rest, depth)
            case Fi => depth > 0 && Nests(rest, depth - 1)
            case _ => (NeedsSlot(line) ==> depth < STACK_SIZE) && Nests(rest, depth)
  {
    assert ([line] + rest)[1..] == rest;
  }

  lemma Regroup(a: seq<Line>, b: seq<Line>, c: seq<Line>)
    ensures (a + b) + c == a + (b + c)
  {}

  lemma {:induction false} NestsFits(p: seq<Stmt>, depth: nat, rest: seq<Line>)
    requires Fits(p, depth)
    ensures Nests(Flatten(p) + rest, depth) <==> Nests(rest, depth)
    decreases p, 1
  {
    if p == [] {
      assert Flatten(p) + rest == rest;
    } else {
      Regroup(FlattenOne(p[0]), Flatten(p[1..]), rest);
      NestsFitsOne(p[0], depth, Flatten(p[1..]) + rest);
      NestsFits(p[1..], depth, rest);
    }
  }

  lemma {:induction false} NestsFitsOne(s: Stmt, depth: nat, rest: seq<Line>)
    requires FitsOne(s, depth)
    ensures Nests(FlattenOne(s) + rest, depth) <==> Nests(rest, depth)
    decreases s, 0
  {
    match s
    case Simple(_, _, deps) => NestsLine(SimpleLine(s), rest, depth);
    case Menu(body) =>
      var o, e, b := Word(MainmenuOption), Word(Endmenu), Flatten(body);
      assert [o] + b + [e] + rest == [o] + (b + ([e] + rest));
      NestsLine(o, b + ([e] + rest), depth);
      NestsFits(body, depth, [e] + rest);
      NestsLine(e, rest, depth);
    case If(c, thn, els, hasElse) =>
      NestsIf(c, thn, els, hasElse, depth, rest);
  }

  lemma {:induction false} NestsIf(c: Chain, thn: seq<Stmt>, els: seq<Stmt>, hasElse: bool, depth: nat, rest: seq<Line>)
    requires depth < STACK_SIZE && Fits(thn, depth + 1) && (hasElse ==> Fits(els, depth + 1))
    ensures Nests(FlattenOne(If(c, thn, els, hasElse)) + rest, depth) <==> Nests(rest, depth)
    decreases If(c, thn, els, hasElse), 0, 0
  {
    var i, f, t := Line(IfWord, 0, c), Word(Fi), Flatten(thn);
    var m := if hasElse then [Word(Else)] + Flatten(els) else [];
    var tail := m + ([f] + rest);
    IfLines(i, t, m, f, rest);
    NestsLine(i, t + tail, depth);
    NestsFits(thn, depth + 1, tail);
    NestsLine(f, rest, depth + 1);
    if hasElse {
      NestsElse(els, depth, [f] + rest, tail);
    } else {
      assert tail == [f] + rest;
    }
  }

  lemma {:induction false} NestsElse(els: seq<Stmt>, depth: nat, rest: seq<Line>, tail: seq<Line>)
    requires Fits(els, depth + 1) && tail == [Word(Else)] + Flatten(els) + rest
    ensures Nests(tail, depth + 1) <==> Nests(rest, depth + 1)
    decreases els, 2
  {
    Regroup([Word(Else)], Flatten(els), rest);
    NestsLine(Word(Else), Flatten(els) + rest, depth + 1);
    NestsFits(els, depth + 1, rest);
  }

  lemma {:induction false} OnlyIfFits(p: seq<Stmt>, depth: nat, rest: seq<Line>)
    requires Safe(p) && Nests(Flatten(p) + rest, depth)
    ensures Fits(p, depth) && Nests(rest, depth)
    decreases p, 1
  {
    if p == [] {
      assert Flatten(p) + rest == rest;
    } else {
      Regroup(FlattenOne(p[0]), Flatten(p[1..]), rest);
      OnlyIfFitsOne(p[0], depth, Flatten(p[1..]) + rest);
      OnlyIfFits(p[1..], depth, rest);
    }
  }

  lemma {:induction false} OnlyIfFitsOne(s: Stmt, depth: nat, rest: seq<Line>)
    requires SafeOne(s) && Nests(FlattenOne(s) + rest, depth)
    ensures FitsOne(s, depth) && Nests(rest, depth)
    decreases s, 0
  {
    match s
    case Simple(_, _, deps) => NestsLine(SimpleLine(s), rest, depth);
    case Menu(body) =>
      var o, e, b := Word(MainmenuOption), Word(Endmenu), Flatten(body);
      assert [o] + b + [e] + rest == [o] + (b + ([e] + rest));
      NestsLine(o, b + ([e] + rest), depth);
      OnlyIfFits(body, depth, [e] + rest);
      NestsLine(e, rest, depth);
    case If(c, thn, els, hasElse) =>
      OnlyIfThen(s, depth, rest);
      if hasElse { OnlyIfElse(s, depth, rest); } else { NestsLine(Word(Fi), rest, depth + 1); }
  }

  /** What stands after the first branch of an if. */
  function AfterThen(s: Stmt, rest: seq<Line>): seq<Line>
    requires s.If?
  {
    (if s.hasElse then [Word(Else)] + Flatten(s.els) else []) + ([Word(Fi)] + rest)
  }

  lemma {:induction false} OnlyIfThen(s: Stmt, depth: nat, rest: seq<Line>)
    requires s.If? && SafeOne(s) && Nests(FlattenOne(s) + rest, depth)
    ensures depth < STACK_SIZE && Fits(s.thn, depth + 1) && Nests(AfterThen(s, rest), depth + 1)
    ensures !s.hasElse ==> AfterThen(s, rest) == [Word(Fi)] + rest
    decreases s.thn, 2
  {
    var i, f, t := Line(IfWord, 0, s.cond), Word(Fi), Flatten(s.thn);
    var m := if s.hasElse then [Word(Else)] + Flatten(s.els) else [];
    IfLines(i, t, m, f, rest);
    NestsLine(i, t + AfterThen(s, rest), depth);
    OnlyIfFits(s.thn, depth + 1, AfterThen(s, rest));
  }

  lemma {:induction false} OnlyIfElse(s: Stmt, depth: nat, rest: seq<Line>)
    requires s.If? && s.hasElse && SafeOne(s) && Nests(AfterThen(s, rest), depth + 1)
    ensures Fits(s.els, depth + 1) && Nests(rest, depth)
    decreases s.els, 2
  {
    var f, e := Word(Fi), Flatten(s.els);
    Regroup([Word(Else)], e, [f] + rest);
    NestsLine(Word(Else), e + ([f] + rest), depth + 1);
    OnlyIfFits(s.els, depth + 1, [f] + rest);
    NestsLine(f, rest, depth + 1);
  }

  lemma IfLines(i: Line, t: seq<Line>, m: seq<Line>, f: Line, rest: seq<Line>)
    ensures [i] + t + m + [f] + rest == [i] + (t + (m + ([f] + rest)))
  {}

  /** The flat list nests within the stack exactly when the script does. */
  lemma FitsNests(p: seq<Stmt>)
    requires Safe(p)
    ensures Nests(Flatten(p), 0) <==> Fits(p, 0)
  {
    assert Flatten(p) + [] == Flatten(p);
    if Fits(p, 0) { NestsFits(p, 0, []); }
    if Nests(Flatten(p), 0) { OnlyIfFits(p, 0, []); }
  }

  // ---- every balanced list is a nested script ----

  /** A line as the parser makes it: deps are the tests in a dependent statement's condition. */
  predicate WrittenLine(line: Line, deps: seq<Chain>) {
    if line.token.IfWord? then line == Line(IfWord, 0, line.cond)
    else if line.token.Else? || line.token.Fi? || IsMenuWord(line.token) then line == Word(line.token)
    else line.cond == Render(deps)
  }

  predicate IsMenuWord(k: Keyword) { k.MainmenuOption? || k.Endmenu? }

  predicate Written(lines: seq<Line>, deps: seq<seq<Chain>>) {
    |lines| == |deps| && forall i {:trigger WrittenLine(lines[i], deps[i])} :: 0 <= i < |lines| ==>
      WrittenLine(lines[i], deps[i])
  }

  /** What a line can be inside of. */
  datatype Frame = InIf(hadElse: bool) | InMenu

  /**
   * From i on, each else has an if that had none before, and each if of the stack is closed. With
   * menus, likewise each endmenu and menu, and menus and ifs nest.
   */
  predicate Balanced(lines: seq<Line>, i: nat, open: seq<Frame>, menus: bool)
    requires i <= |lines|
    decreases |lines| - i
  {
    if i == |lines| then open == []
    else
      match lines[i].token
      case IfWord => Balanced(lines, i + 1, open + [InIf(false)], menus)
      case Else => open != [] && Last(open) == InIf(false) && Balanced(lines, i + 1, Front(open) + [InIf(true)], menus)
      case Fi => open != [] && Last(open).InIf? && Balanced(lines, i + 1, Front(open), menus)
      case MainmenuOption => Balanced(lines, i + 1, if menus then open + [InMenu] else open, menus)
      case Endmenu =>
        if menus then open != [] && Last(open).InMenu? && Balanced(lines, i + 1, Front(open), menus)
        else Balanced(lines, i + 1, open, menus)
      case _ => Balanced(lines, i + 1, open, menus)
  }

  datatype Block = Block(body: seq<Stmt>, end: nat)

  lemma FlattenFirst(s: Stmt, body: seq<Stmt>)
    ensures Flatten([s] + body) == FlattenOne(s) + Flatten(body)
    ensures MenusNested([s] + body) <==> MenusNestedOne(s) && MenusNested(body)
  {
    assert ([s] + body)[1..] == body;
  }

  /** The block is what the lines from i to its end say; with menus, its menus nest. */
  predicate Spans(lines: seq<Line>, i: nat, b: Block, menus: bool) {
    i <= b.end <= |lines| && Flatten(b.body) == lines[i..b.end] && (menus ==> MenusNested(b.body))
  }

  /** The line ends a block: an else or fi, or with menus an endmenu. */
  predicate IsEnd(k: Keyword, menus: bool) { k.Else? || k.Fi? || (menus && k.Endmenu?) }

  /** Where a block ends: at the end of the list, or at the end of the innermost frame. */
  predicate Ends(lines: seq<Line>, j: nat, open: seq<Frame>, menus: bool)
    requires j <= |lines|
  {
    Balanced(lines, j, open, menus) && (j == |lines| || IsEnd(lines[j].token, menus))
  }

  /** The statements from i up to what ends them. */
  lemma {:induction false} Parse(lines: seq<Line>, deps: seq<seq<Chain>>, i: nat, open: seq<Frame>, menus: bool)
    returns (b: Block)
    requires Written(lines, deps) && i <= |lines| && Balanced(lines, i, open, menus)
    ensures Spans(lines, i, b, menus) && Ends(lines, b.end, open, menus)
    decreases |lines| - i
  {
    if i == |lines| || IsEnd(lines[i].token, menus) {
      b := Block([], i);
    } else if lines[i].token.IfWord? {
      b := ParseIf(lines, deps, i, open, menus);
    } else if menus && lines[i].token.MainmenuOption? {
      b := ParseMenu(lines, deps, i, open);
    } else {
      assert WrittenLine(lines[i], deps[i]);
      b := Parse(lines, deps, i + 1, open, menus);
      b := SimpleSpans(lines, i, if IsMenuWord(lines[i].token) then [] else deps[i], b, menus);
    }
  }

  /** An if with its branches, and what follows it. */
  lemma {:induction false} ParseIf(lines: seq<Line>, deps: seq<seq<Chain>>, i: nat, open: seq<Frame>, menus: bool)
    returns (b: Block)
    requires Written(lines, deps) && i < |lines| && lines[i].token.IfWord? && Balanced(lines, i, open, menus)
    ensures Spans(lines, i, b, menus) && Ends(lines, b.end, open, menus)
    decreases |lines| - i, 0
  {
    assert WrittenLine(lines[i], deps[i]);
    var t := Parse(lines, deps, i + 1, open + [InIf(false)], menus);
    IfEnds(lines, deps, t.end, open, InIf(false), menus);
    if lines[t.end].token.Fi? {
      b := Parse(lines, deps, t.end + 1, open, menus);
      b := ThenSpans(lines, i, t, b, menus);
    } else {
      b := ParseElse(lines, deps, i, t, open, menus);
    }
  }

  /** The second branch, and what follows the if. */
  lemma {:induction false} ParseElse(lines: seq<Line>, deps: seq<seq<Chain>>, i: nat, t: Block,
                                     open: seq<Frame>, menus: bool)
    returns (b: Block)
    requires Written(lines, deps) && i < t.end < |lines| && lines[i] == Line(IfWord, 0, lines[i].cond)
    requires lines[t.end] == Word(Else) && Spans(lines, i + 1, t, menus)
    requires Balanced(lines, t.end + 1, open + [InIf(true)], menus)
    ensures Spans(lines, i, b, menus) && Ends(lines, b.end, open, menus)
    decreases |lines| - t.end, 0
  {
    var e := Parse(lines, deps, t.end + 1, open + [InIf(true)], menus);
    IfEnds(lines, deps, e.end, open, InIf(true), menus);
    b := Parse(lines, deps, e.end + 1, open, menus);
    b := ElseSpans(lines, i, t, e, b, menus);
  }

  /** What a block inside an if ends with. */
  lemma IfEnds(lines: seq<Line>, deps: seq<seq<Chain>>, j: nat, open: seq<Frame>, frame: Frame, menus: bool)
    requires Written(lines, deps) && j <= |lines| && frame.InIf? && Ends(lines, j, open + [frame], menus)
    ensures j < |lines|
    ensures || (lines[j] == Word(Fi) && Balanced(lines, j + 1, open, menus))
            || (lines[j] == Word(Else) && !frame.hadElse && Balanced(lines, j + 1, open + [InIf(true)], menus))
  {
    assert Front(open + [frame]) == open && Last(open + [frame]) == frame;
    if j < |lines| { assert WrittenLine(lines[j], deps[j]); }
  }

  /** A menu, and what follows it. */
  lemma {:induction false} ParseMenu(lines: seq<Line>, deps: seq<seq<Chain>>, i: nat, open: seq<Frame>)
    returns (b: Block)
    requires Written(lines, deps) && i < |lines| && lines[i].token.MainmenuOption? && Balanced(lines, i, open, true)
    ensures Spans(lines, i, b, true) && Ends(lines, b.end, open, true)
    decreases |lines| - i, 0
  {
    assert WrittenLine(lines[i], deps[i]);
    var t := Parse(lines, deps, i + 1, open + [InMenu], true);
    MenuEnds(lines, deps, t.end, open);
    b := Parse(lines, deps, t.end + 1, open, true);
    b := MenuSpans(lines, i, t, b);
  }

  lemma MenuEnds(lines: seq<Line>, deps: seq<seq<Chain>>, j: nat, open: seq<Frame>)
    requires Written(lines, deps) && j <= |lines| && Ends(lines, j, open + [InMenu], true)
    ensures j < |lines| && lines[j] == Word(Endmenu) && Balanced(lines, j + 1, open, true)
  {
    assert Front(open + [InMenu]) == open && Last(open + [InMenu]) == InMenu;
    if j < |lines| { assert WrittenLine(lines[j], deps[j]); }
  }

  lemma SimpleSpans(lines: seq<Line>, i: nat, deps: seq<Chain>, b: Block, menus: bool) returns (r: Block)
    requires i < |lines| && Spans(lines, i + 1, b, menus) && lines[i].cond == Render(deps)
    requires menus ==> !IsMenuWord(lines[i].token)
    ensures Spans(lines, i, r, menus) && r.end == b.end
  {
    var s := Simple(lines[i].token, lines[i].nameindex, deps);
    r := Block([s] + b.body, b.end);
    FlattenFirst(s, b.body);
    assert lines[i..b.end] == [lines[i]] + lines[i + 1..b.end];
  }

  lemma MenuSpans(lines: seq<Line>, i: nat, t: Block, b: Block) returns (r: Block)
    requires i < t.end < |lines| && lines[i] == Word(MainmenuOption) && lines[t.end] == Word(Endmenu)
    requires Spans(lines, i + 1, t, true) && Spans(lines, t.end + 1, b, true)
    ensures Spans(lines, i, r, true) && r.end == b.end
  {
    var s := Menu(t.body);
    r := Block([s] + b.body, b.end);
    FlattenFirst(s, b.body);
    Bracketed(lines, i, t.end, b.end, Flatten(t.body), Flatten(b.body));
  }

  lemma ThenSpans(lines: seq<Line>, i: nat, t: Block, b: Block, menus: bool) returns (r: Block)
    requires i < t.end < |lines| && lines[i] == Line(IfWord, 0, lines[i].cond) && lines[t.end] == Word(Fi)
    requires Spans(lines, i + 1, t, menus) && Spans(lines, t.end + 1, b, menus)
    ensures Spans(lines, i, r, menus) && r.end == b.end
  {
    var s := If(lines[i].cond, t.body, [], false);
    r := Block([s] + b.body, b.end);
    FlattenFirst(s, b.body);
    Bracketed(lines, i, t.end, b.end, Flatten(t.body), Flatten(b.body));
    assert [lines[i]] + Flatten(t.body) + [] == [lines[i]] + Flatten(t.body);
  }

  lemma ElseSpans(lines: seq<Line>, i: nat, t: Block, e: Block, b: Block, menus: bool) returns (r: Block)
    requires i < t.end < e.end < |lines| && lines[i] == Line(IfWord, 0, lines[i].cond)
    requires lines[t.end] == Word(Else) && lines[e.end] == Word(Fi)
    requires Spans(lines, i + 1, t, menus) && Spans(lines, t.end + 1, e, menus) && Spans(lines, e.end + 1, b, menus)
    ensures Spans(lines, i, r, menus) && r.end == b.end
  {
    var s := If(lines[i].cond, t.body, e.body, true);
    r := Block([s] + b.body, b.end);
    FlattenFirst(s, b.body);
    ElseIf(lines, i, t.end, e.end, b.end, Flatten(t.body), Flatten(e.body), Flatten(b.body));
  }

  lemma Bracketed(lines: seq<Line>, i: nat, j: nat, k: nat, t: seq<Line>, b: seq<Line>)
    requires i < j < k <= |lines| && t == lines[i + 1..j] && b == lines[j + 1..k]
    ensures [lines[i]] + t + [lines[j]] + b == lines[i..k]
  {}

  lemma ElseIf(lines: seq<Line>, i: nat, j: nat, m: nat, k: nat, t: seq<Line>, e: seq<Line>, b: seq<Line>)
    requires i < j < m < k <= |lines| && t == lines[i + 1..j] && e == lines[j + 1..m] && b == lines[m + 1..k]
    ensures [lines[i]] + t + ([lines[j]] + e) + [lines[m]] + b == lines[i..k]
  {}

  /**
   * Every list that closes its ifs, with at most one else each, is the flat form of a nested
   * script. If its menus are closed too and nest with the ifs, they are menus of the script.
   */
  lemma BalancedIsFlat(lines: seq<Line>, deps: seq<seq<Chain>>, menus: bool) returns (p: seq<Stmt>)
    requires Written(lines, deps) && Balanced(lines, 0, [], menus)
    ensures Flatten(p) == lines && (menus ==> MenusNested(p))
  {
    var b := Parse(lines, deps, 0, [], menus);
    p := b.body;
    AllSpanned(lines, b.end, menus);
  }

  lemma AllSpanned(lines: seq<Line>, j: nat, menus: bool)
    requires j <= |lines| && Ends(lines, j, [], menus)
    ensures j == |lines| && lines[0..j] == lines
  {}

  // ---- the pass as a whole ----

  lemma {:induction false} KeptMembers(cfgs: seq<Kconfig>, fates: seq<Fate>, i: nat)
    requires Positions(cfgs) && |fates| <= |cfgs| && i < |cfgs|
    ensures cfgs[i] in KeptOf(cfgs, fates) <==> i < |fates| && fates[i].Kept?
    decreases |fates|
  {
    if fates != [] {
      var n := |fates| - 1;
      KeptMembers(cfgs, fates[..n], i);
      assert cfgs[i] == cfgs[n] <==> i == n;
    }
  }

  lemma {:induction false} KeptFirst(cfgs: seq<Kconfig>, fates: seq<Fate>)
    requires 0 < |fates| <= |cfgs| && fates[0].Kept?
    ensures KeptOf(cfgs, fates) != [] && KeptOf(cfgs, fates)[0] == cfgs[0]
    decreases |fates|
  {
    var n := |fates| - 1;
    if n > 0 { KeptFirst(cfgs, fates[..n]); }
  }

  /**
   * Each statement that is still linked points to its guard, which is true exactly when the
   * statement's path is; a statement that is not linked is never reached.
   */
  ghost predicate Faithful(cfgs: seq<Kconfig>, kept: seq<Kconfig>, guards: seq<ConditionList?>, paths: seq<bool>,
                           v: Valuation)
    reads cfgs`cond, Lists(guards)`ops, Lists(guards)`nodes
  {
    && |cfgs| == |guards| == |paths|
    && forall i {:trigger paths[i]} :: 0 <= i < |cfgs| && !IsControl(cfgs[i].token) ==>
         if cfgs[i] in kept then
           (guards[i] != null ==> guards[i] in Lists(guards)) && cfgs[i].cond == HeadOf(guards[i])
           && GuardHolds(OpsIn(guards[i]), v) == paths[i]
         else !paths[i]
  }

  lemma GuardsFaithful(cfgs: seq<Kconfig>, guards: seq<ConditionList?>, conds: seq<ConditionList?>,
                       lines: seq<Line>, fates: seq<Fate>, paths: seq<bool>, v: Valuation)
    requires Positions(cfgs) && Attached(cfgs, guards, conds, fates) && Agree(lines, fates, paths, v)
    requires |cfgs| == |lines|
    requires forall i :: 0 <= i < |cfgs| ==> lines[i].token == cfgs[i].token
    ensures Faithful(cfgs, KeptOf(cfgs, fates), guards, paths, v)
  {
    forall i {:trigger paths[i]} | 0 <= i < |cfgs| && !IsControl(cfgs[i].token)
      ensures if cfgs[i] in KeptOf(cfgs, fates) then
                (guards[i] != null ==> guards[i] in Lists(guards)) && cfgs[i].cond == HeadOf(guards[i])
                && GuardHolds(OpsIn(guards[i]), v) == paths[i]
              else !paths[i]
    {
      KeptMembers(cfgs, fates, i);
      assert AttachedOne(cfgs[i], guards[i], conds, fates[i]);
      assert !IsControl(lines[i].token);
    }
  }

  lemma FirstKept(name: nat -> string, arch: string, p: seq<Stmt>)
    requires Flatten(p) != [] && Safe(p)
    ensures Fix(name, arch, Flatten(p))[0].Kept?
  {
    HeadDependency(p);
    HeadKept(name, arch, Flatten(p));
  }

  lemma HeadDependency(p: seq<Stmt>)
    requires Flatten(p) != [] && Safe(p)
    ensures var l := Flatten(p)[0]; IsDependent(l.token) && l.cond != [] ==> l.cond[0].LParen?
  {}

  // ---- what the menu pass gets ----

  /** How the menu pass of tkgen.c sees a statement. */
  function KindOf(k: Keyword): M.Kind {
    match k
    case MainmenuOption => M.Open
    case Endmenu => M.Close
    case Comment => M.Comment
    case ChoiceItem => M.ChoiceItem
    case Bool => M.Widget
    case ChoiceHeader => M.Widget
    case DepBool => M.Widget
    case DepMbool => M.Widget
    case DepTristate => M.Widget
    case Hex => M.Widget
    case Int => M.Widget
    case String => M.Widget
    case Tristate => M.Widget
    case Unset => M.Definition
    case DefineBool => M.Definition
    case DefineHex => M.Definition
    case DefineInt => M.Definition
    case DefineString => M.Definition
    case DefineTristate => M.Definition
    case IfWord => M.Other
    case Else => M.Other
    case Fi => M.Other
    case MainmenuName => M.Other
  }

  /**
   * Every statement that the generator numbers, shows, defines or sees as part of a menu gets a
   * guard, and no other statement does.
   */
  lemma GuardedIsGenerated(k: Keyword)
    ensures IsGuarded(k) <==> !KindOf(k).Other?
    ensures IsGuarded(k) <==> !IsControl(k)
    ensures P.HasNumber(KindOf(k)) <==> IsGuarded(k) && !k.Endmenu?
    ensures Defines(k) <==> KindOf(k).Definition? || KindOf(k).ChoiceItem? || (KindOf(k).Widget? && !k.ChoiceHeader?)
  {}

  function Kinds(ks: seq<Keyword>): M.Statements { seq(|ks|, i requires 0 <= i < |ks| => KindOf(ks[i])) }

  function Tokens(cfgs: seq<Kconfig>): seq<Keyword> { seq(|cfgs|, i requires 0 <= i < |cfgs| => cfgs[i].token) }

  /** The depth counted from the front is the height of the menu pass's stack. */
  lemma {:induction false} DepthIsStack(ks: seq<Keyword>, i: nat)
    requires MenuDepth(ks, 0) >= 0 && i <= |ks|
    ensures MenuDepth(ks[i..], |M.Stack(Kinds(ks), i)|) == MenuDepth(ks, 0)
  {
    if i == 0 {
      assert ks[0..] == ks;
    } else {
      DepthIsStack(ks, i - 1);
      assert ks[i - 1..][0] == ks[i - 1] && ks[i - 1..][1..] == ks[i..];
    }
  }

  /** No endmenu without a menu, and no menu left open. */
  ghost predicate MenusClosed(ks: seq<Keyword>) {
    && M.Stack(Kinds(ks), |ks|) == []
    && forall i {:trigger M.Stack(Kinds(ks), i)} :: 0 <= i < |ks| && ks[i].Endmenu? ==> M.Stack(Kinds(ks), i) != []
  }

  lemma DepthZeroCloses(ks: seq<Keyword>)
    requires MenuDepth(ks, 0) == 0
    ensures MenusClosed(ks)
  {
    DepthIsStack(ks, |ks|);
    forall i {:trigger M.Stack(Kinds(ks), i)} | 0 <= i < |ks| && ks[i].Endmenu? ensures M.Stack(Kinds(ks), i) != [] {
      DepthIsStack(ks, i);
      assert ks[i..][0] == ks[i];
    }
  }

  /** A statement that the numbering pass wants inside a menu. */
  predicate NeedsMenu(k: Keyword) { KindOf(k).Widget? || KindOf(k).Comment? || KindOf(k).ChoiceItem? }

  function DepthAfter(k: Keyword, depth: nat): nat {
    if k.MainmenuOption? then depth + 1 else if k.Endmenu? && depth > 0 then depth - 1 else depth
  }

  /** The greatest depth of menus. */
  function Deepest(ks: seq<Keyword>, depth: nat): nat {
    if ks == [] then depth
    else
      var d := Deepest(ks[1..], DepthAfter(ks[0], depth));
      if d > depth then d else depth
  }

  /** Every statement that wants to be in a menu is in one. */
  predicate Housed(ks: seq<Keyword>, depth: nat) {
    ks != [] ==> (NeedsMenu(ks[0]) ==> depth > 0) && Housed(ks[1..], DepthAfter(ks[0], depth))
  }

  function MenuCount(ks: seq<Keyword>): nat { multiset(ks)[MainmenuOption] }

  /** From statement i on, counted from the depth and the number of menus there. */
  predicate WithinLimits(ks: seq<Keyword>, depth: nat, menus: nat) {
    Deepest(ks, depth) <= 63 && menus + MenuCount(ks) <= 99 && Housed(ks, depth)
  }

  ghost predicate AllowedFrom(ks: seq<Keyword>, i: nat) {
    forall j {:trigger M.Allowed(Kinds(ks), j)} :: i <= j < |ks| ==> M.Allowed(Kinds(ks), j)
  }

  /** The statement can be numbered at this depth after this many menus. */
  predicate AllowedAt(k: Keyword, depth: nat, menus: nat) {
    && (k.MainmenuOption? ==> depth < 63 && menus < 99)
    && (k.Endmenu? || NeedsMenu(k) ==> depth > 0)
  }

  function MenusAfter(k: Keyword, menus: nat): nat { if k.MainmenuOption? then menus + 1 else menus }

  lemma {:induction false} LimitsFrom(ks: seq<Keyword>, i: nat, d: nat, n: nat)
    requires MenusClosed(ks) && i <= |ks| && d == |M.Stack(Kinds(ks), i)| && n == M.Opens(Kinds(ks), i)
    requires d <= 63 && n <= 99
    ensures AllowedFrom(ks, i) <==> WithinLimits(ks[i..], d, n)
    decreases |ks| - i
  {
    if i < |ks| {
      var k, rest, all := ks[i], ks[i + 1..], ks[i..];
      assert all == [k] + rest;
      NumberingStep(ks, i, d, n);
      CloseAt(ks, i, d);
      LimitsStep(k, rest, all, d, n);
      if AllowedAt(k, d, n) { LimitsFrom(ks, i + 1, DepthAfter(k, d), MenusAfter(k, n)); }
    }
  }

  lemma CloseAt(ks: seq<Keyword>, i: nat, d: nat)
    requires MenusClosed(ks) && i < |ks| && d == |M.Stack(Kinds(ks), i)|
    ensures ks[i].Endmenu? ==> d > 0
  {}

  lemma NumberingStep(ks: seq<Keyword>, i: nat, d: nat, n: nat)
    requires i < |ks| && d == |M.Stack(Kinds(ks), i)| && n == M.Opens(Kinds(ks), i)
    ensures |M.Stack(Kinds(ks), i + 1)| == DepthAfter(ks[i], d) && M.Opens(Kinds(ks), i + 1) == MenusAfter(ks[i], n)
    ensures AllowedFrom(ks, i) <==> AllowedAt(ks[i], d, n) && AllowedFrom(ks, i + 1)
  {
    CountingStep(ks, Kinds(ks), i);
    AllowedStep(ks[i], Kinds(ks), i);
  }

  lemma CountingStep(ks: seq<Keyword>, kinds: M.Statements, i: nat)
    requires kinds == Kinds(ks) && i < |ks|
    ensures |M.Stack(kinds, i + 1)| == DepthAfter(ks[i], |M.Stack(kinds, i)|)
    ensures M.Opens(kinds, i + 1) == MenusAfter(ks[i], M.Opens(kinds, i))
  {
    StackStep(kinds, i);
    assert kinds[i] == KindOf(ks[i]);
  }

  lemma StackStep(kinds: M.Statements, i: nat)
    requires i < |kinds|
    ensures var d, n := |M.Stack(kinds, i)|, M.Opens(kinds, i);
            |M.Stack(kinds, i + 1)| == (if kinds[i].Open? then d + 1 else if kinds[i].Close? && d > 0 then d - 1 else d)
            && M.Opens(kinds, i + 1) == if kinds[i].Open? then n + 1 else n
  {}

  lemma AllowedStep(k: Keyword, kinds: M.Statements, i: nat)
    requires i < |kinds| && kinds[i] == KindOf(k)
    ensures M.Allowed(kinds, i) <==> AllowedAt(k, |M.Stack(kinds, i)|, M.Opens(kinds, i))
  {}

  lemma LimitsStep(k: Keyword, rest: seq<Keyword>, ks: seq<Keyword>, d: nat, n: nat)
    requires ks == [k] + rest && d <= 63 && n <= 99 && (k.Endmenu? ==> d > 0)
    ensures WithinLimits(ks, d, n) <==>
            AllowedAt(k, d, n) && WithinLimits(rest, DepthAfter(k, d), MenusAfter(k, n))
  {
    assert ks[0] == k && ks[1..] == rest;
    DeepestAbove(rest, DepthAfter(k, d));
    CountFirst(k, rest, ks);
  }

  lemma CountFirst(k: Keyword, rest: seq<Keyword>, ks: seq<Keyword>)
    requires ks == [k] + rest
    ensures MenuCount(ks) == MenuCount(rest) + if k.MainmenuOption? then 1 else 0
  {}

  lemma DeepestAbove(ks: seq<Keyword>, depth: nat)
    ensures Deepest(ks, depth) >= depth
  {}

  /**
   * With closed menus the numbering pass accepts the statements exactly when the menus are at most
   * 63 deep and at most 99 in number and every statement that wants to be in a menu is in one.
   */
  lemma ClosedAccepted(ks: seq<Keyword>)
    requires MenusClosed(ks)
    ensures M.Accepted(Kinds(ks)) <==> WithinLimits(ks, 0, 0)
  {
    LimitsFrom(ks, 0, 0, 0);
    assert ks[0..] == ks;
  }

  lemma {:induction false} KeptTokens(cfgs: seq<Kconfig>, lines: seq<Line>, fates: seq<Fate>)
    requires |fates| == |lines| <= |cfgs| && forall i :: 0 <= i < |lines| ==> lines[i].token == cfgs[i].token
    ensures Tokens(KeptOf(cfgs, fates)) == Survivors(lines, fates)
    decreases |fates|
  {
    if fates != [] {
      var n := |fates| - 1;
      KeptTokens(cfgs, lines[..n], fates[..n]);
      SurvivorsAppend(lines[..n], fates[..n], [lines[n]], [fates[n]]);
      SurvivorsOne(lines[n], fates[n]);
      assert lines[..n] + [lines[n]] == lines && fates[..n] + [fates[n]] == fates;
      TokensPush(KeptOf(cfgs, fates[..n]), if fates[n].Kept? then [cfgs[n]] else []);
    }
  }

  lemma TokensPush(a: seq<Kconfig>, b: seq<Kconfig>)
    ensures Tokens(a + b) == Tokens(a) + Tokens(b)
  {}

  /** Pruning a script whose menus and ifs nest leaves a list of closed menus. */
  lemma MenusReachClosed(name: nat -> string, arch: string, p: seq<Stmt>, cfgs: seq<Kconfig>)
    requires MenusNested(p) && Safe(p) && |cfgs| == |Flatten(p)|
    requires forall i :: 0 <= i < |cfgs| ==> Flatten(p)[i].token == cfgs[i].token
    ensures MenusClosed(Tokens(KeptOf(cfgs, Fix(name, arch, Flatten(p)))))
  {
    MenusStayBalanced(name, arch, p);
    KeptTokens(cfgs, Flatten(p), Fix(name, arch, Flatten(p)));
    DepthZeroCloses(Survivors(Flatten(p), Fix(name, arch, Flatten(p))));
  }

  /** The guards of the linked statements are what the generator can print: no "!", TRUE or FALSE. */
  ghost predicate GuardsPlain(kept: seq<Kconfig>, cfgs: seq<Kconfig>, guards: seq<ConditionList?>)
    reads Lists(guards)`ops
  {
    |guards| == |cfgs| && forall i {:trigger guards[i]} :: 0 <= i < |cfgs| && cfgs[i] in kept ==>
      (guards[i] != null ==> guards[i] in Lists(guards)) && GuardTokens(OpsIn(guards[i]), false)
  }

  lemma PlainGuards(cfgs: seq<Kconfig>, guards: seq<ConditionList?>, conds: seq<ConditionList?>, fates: seq<Fate>)
    requires Positions(cfgs) && Attached(cfgs, guards, conds, fates) && |fates| == |cfgs| && AllPrintable(fates)
    ensures GuardsPlain(KeptOf(cfgs, fates), cfgs, guards)
  {
    forall i {:trigger guards[i]} | 0 <= i < |cfgs| && cfgs[i] in KeptOf(cfgs, fates)
      ensures (guards[i] != null ==> guards[i] in Lists(guards)) && GuardTokens(OpsIn(guards[i]), false)
    {
      KeptMembers(cfgs, fates, i);
      assert AttachedOne(cfgs[i], guards[i], conds, fates[i]);
    }
  }

  /**
   * fix_conditionals on the linked form of a nested script. The list still begins at scfg, runs
   * through the kept statements, and under every valuation that distorts no condition guards and
   * paths agree; the nodes of every guard are linked and read what the guard says, without "!".
   * Menus that nest with the ifs come out closed.
   */
  method FixScript(name: nat -> string, arch: string, scfg: Kconfig?, ghost cfgs: seq<Kconfig>,
                   ghost conds: seq<ConditionList?>, ghost p: seq<Stmt>, ghost arena: Arena)
    returns (ghost kept: seq<Kconfig>, ghost guards: seq<ConditionList?>)
    requires Positions(cfgs) && Separate(conds) && Threaded([], cfgs, 0) && scfg == StatementAt(cfgs, 0)
    requires Pending(cfgs, conds, Flatten(p), 0) && Accounted(conds, [], arena)
    requires Safe(p) && Fits(p, 0)
    modifies cfgs, Lists(conds), arena, arena.nodes
    ensures Threaded(kept, cfgs, |cfgs|) && scfg == StatementAt(kept, 0) && Accounted(conds, guards, arena)
    ensures forall v: Valuation :: var env := EnvOf(name, arch, Flatten(p));
              Admissible(env, v) && Fair(env, p, v) ==> Faithful(cfgs, kept, guards, Paths(p, true, v), v)
    ensures GuardsPlain(kept, cfgs, guards) && Separate(guards)
    ensures MenusNested(p) ==> MenusClosed(Tokens(kept))
  {
    ghost var lines, env := Flatten(p), EnvOf(name, arch, Flatten(p));
    LoadedAll(p);
    FitsNests(p);
    LinesMatch(cfgs, conds, lines);
    kept, guards := FixConditionals(name, arch, scfg, cfgs, conds, lines, arena);
    if MenusNested(p) { MenusReachClosed(name, arch, p, cfgs); }
    ScriptPrintable(name, arch, p);
    PlainGuards(cfgs, guards, conds, Fix(name, arch, lines));
    if lines != [] {
      FirstKept(name, arch, p);
      KeptFirst(cfgs, Fix(name, arch, lines));
    }
    forall v: Valuation | Admissible(env, v) && Fair(env, p, v)
      ensures Faithful(cfgs, kept, guards, Paths(p, true, v), v)
    {
      GuardsAreExact(name, arch, p, v);
      GuardsFaithful(cfgs, guards, conds, lines, Fix(name, arch, lines), Paths(p, true, v), v);
    }
  }
}
