/**
 * The passes of tkcond.c as they run: on linked condition nodes whose ops are overwritten and
 * whose links are changed. Each method is proved against the chain function it computes.
 */
module ConditionLists {
  import opened Conditions
  import opened Elimination
  import opened Negation
  import opened Joining

  // ---- remove_bang: the loop, one iteration per step ----

  ghost function BangsFrom(c: Chain, d: nat): Chain
    requires d <= |c|
    decreases |c| - d
  {
    if d == |c| then c
    else if c[d].Bang? && d + 2 < |c| && IsComparison(c[d + 2]) then
      BangsFrom(c[..d] + [c[d + 1], Flip(c[d + 2])] + c[d + 3..], d + 2)
    else BangsFrom(c, d + 1)
  }

  lemma CutAfter(a: Chain, m: Chain, b: Chain)
    ensures (a + m + b)[..|a| + |m|] == a + m && (a + m + b)[|a| + |m|..] == b
  {}

  lemma FlipStep(c: Chain, d: nat)
    requires d + 2 < |c| && c[d].Bang? && IsComparison(c[d + 2])
    ensures var e := c[..d] + [c[d + 1], Flip(c[d + 2])] + c[d + 3..];
            e[..d + 2] + RemoveBang(e[d + 2..]) == c[..d] + RemoveBang(c[d..])
  {
    var m, r := [c[d + 1], Flip(c[d + 2])], RemoveBang(c[d + 3..]);
    CutAfter(c[..d], m, c[d + 3..]);
    assert c[d..][3..] == c[d + 3..];
    assert RemoveBang(c[d..]) == m + r;
    assert c[..d] + m + r == c[..d] + (m + r);
  }

  lemma CopyStep(c: Chain, d: nat)
    requires d < |c| && !(c[d].Bang? && d + 2 < |c| && IsComparison(c[d + 2]))
    ensures c[..d + 1] + RemoveBang(c[d + 1..]) == c[..d] + RemoveBang(c[d..])
  {
    assert c[d..][1..] == c[d + 1..];
    assert c[..d + 1] == c[..d] + [c[d]];
    Reassociate(c[..d], c[d], RemoveBang(c[d + 1..]));
  }

  lemma {:induction false} BangsFromIsRemoveBang(c: Chain, d: nat)
    requires d <= |c|
    ensures BangsFrom(c, d) == c[..d] + RemoveBang(c[d..])
    decreases |c| - d
  {
    if d == |c| {
      assert c[..d] + [] == c;
    } else if c[d].Bang? && d + 2 < |c| && IsComparison(c[d + 2]) {
      BangsFromIsRemoveBang(c[..d] + [c[d + 1], Flip(c[d + 2])] + c[d + 3..], d + 2);
      FlipStep(c, d);
    } else {
      BangsFromIsRemoveBang(c, d + 1);
      CopyStep(c, d);
    }
  }

  // ---- duplicate removal: the outer loop, one iteration per step ----

  /** What follows the tokens that are nuked first. */
  ghost function AfterNuked(t: Chain): Chain
    requires HasCopy(t)
  {
    if t[5].And? then t[6..] else t[5..][6 + FindCopy(t[..5], t[6..], false) := Nuked]
  }

  /** How many tokens that is. */
  ghost function NukedCount(t: Chain): nat
    requires HasCopy(t)
  {
    if t[5].And? then 6 else 5
  }

  ghost function DedupStep(c: Chain, i: nat): (r: Chain)
    requires i < |c|
    ensures |r| == |c|
  {
    var t := c[i..];
    if HasCopy(t) then c[..i] + Nukes(NukedCount(t)) + AfterNuked(t) else c
  }

  ghost function DedupFrom(c: Chain, i: nat): Chain
    requires i <= |c|
    decreases |c| - i
  {
    if i == |c| then c else DedupFrom(DedupStep(c, i), i + 1)
  }

  lemma Reassociate(a: Chain, t: Token, d: Chain)
    ensures (a + [t]) + d == a + ([t] + d)
  {}

  lemma SplitNukes(a: Chain, n: nat, b: Chain)
    requires n > 0
    ensures (a + Nukes(n) + b)[..|a| + 1] == a + [Nuked] && (a + Nukes(n) + b)[|a| + 1..] == Nukes(n - 1) + b
  {
    assert Nukes(n) == [Nuked] + Nukes(n - 1);
  }

  lemma DedupNukes(n: nat, b: Chain)
    requires n > 0
    ensures [Nuked] + Dedup(Nukes(n - 1) + b) == Nukes(n) + Dedup(b)
  {
    DedupPrefix(Nukes(n - 1), b);
    NukesGrow(n, Dedup(b));
  }

  lemma NukesGrow(n: nat, d: Chain)
    requires n > 0
    ensures [Nuked] + (Nukes(n - 1) + d) == Nukes(n) + d
  {
    assert Nukes(n) == [Nuked] + Nukes(n - 1);
  }

  lemma DedupUnfold(t: Chain)
    requires HasCopy(t)
    ensures Dedup(t) == Nukes(NukedCount(t)) + Dedup(AfterNuked(t))
  {}

  lemma NukeStep(c: Chain, i: nat)
    requires i < |c| && HasCopy(c[i..])
    ensures var e := DedupStep(c, i); e[..i + 1] + Dedup(e[i + 1..]) == c[..i] + Dedup(c[i..])
  {
    var t, n, b := c[i..], NukedCount(c[i..]), AfterNuked(c[i..]);
    SplitNukes(c[..i], n, b);
    DedupNukes(n, b);
    DedupUnfold(t);
    Reassociate(c[..i], Nuked, Dedup(Nukes(n - 1) + b));
  }

  lemma KeepStep(c: Chain, i: nat)
    requires i < |c| && !HasCopy(c[i..])
    ensures c[..i + 1] + Dedup(c[i + 1..]) == c[..i] + Dedup(c[i..])
  {
    assert c[i..][1..] == c[i + 1..];
    assert c[..i + 1] == c[..i] + [c[i]];
    Reassociate(c[..i], c[i], Dedup(c[i + 1..]));
  }

  lemma {:induction false} DedupFromIsDedup(c: Chain, i: nat)
    requires i <= |c|
    ensures DedupFrom(c, i) == c[..i] + Dedup(c[i..])
    decreases |c| - i
  {
    if i == |c| {
      assert c[..i] + [] == c;
    } else {
      DedupFromIsDedup(DedupStep(c, i), i + 1);
      if HasCopy(c[i..]) { NukeStep(c, i); } else { KeepStep(c, i); }
    }
  }

  /** With fewer than six tokens left nothing more can be removed. */
  lemma {:induction false} DedupEnds(c: Chain, i: nat)
    requires i <= |c| < i + 6
    ensures DedupFrom(c, i) == c
    decreases |c| - i
  {
    if i < |c| { DedupEnds(c, i + 1); }
  }

  lemma NukeWrites(c: Chain, i: nat, f: nat)
    requires i + 5 < |c| && i + 5 <= f < |c|
    ensures c[i := Nuked][i + 1 := Nuked][i + 2 := Nuked][i + 3 := Nuked][i + 4 := Nuked][f := Nuked] ==
            c[..i] + Nukes(5) + c[i + 5..][f - i - 5 := Nuked]
  {
    assert Nukes(5) == [Nuked, Nuked, Nuked, Nuked, Nuked];
  }

  lemma NukesJoin(a: Chain, b: Chain)
    requires b != []
    ensures a + Nukes(5) + b[0 := Nuked] == a + Nukes(6) + b[1..]
  {
    assert Nukes(6) == Nukes(5) + [Nuked];
    assert b[0 := Nuked] == [Nuked] + b[1..];
  }

  /** The six writes of one removal. */
  lemma StepWrites(c: Chain, i: nat, f: nat)
    requires i < |c| && HasCopy(c[i..])
    requires f == if c[i + 5].And? then i + 5 else i + 11 + FindCopy(c[i..][..5], c[i..][6..], false)
    ensures i + 5 <= f < |c|
    ensures c[i := Nuked][i + 1 := Nuked][i + 2 := Nuked][i + 3 := Nuked][i + 4 := Nuked][f := Nuked] == DedupStep(c, i)
  {
    var t := c[i..];
    NukeWrites(c, i, f);
    assert t[5..] == c[i + 5..];
    if c[i + 5].And? {
      NukesJoin(c[..i], c[i + 5..]);
      assert c[i + 5..][1..] == t[6..];
    }
  }

  // ---- nodes ----

  class Condition {
    var next: Condition?
    var op: Token
    /** The list the node was made for. */
    ghost const home: ConditionList

    constructor (op: Token, ghost home: ConditionList)
      ensures this.op == op && this.home == home && next == null
    {
      this.op, this.home := op, home;
      next := null;
    }
  }

  /** Specification only: a list as a whole, its nodes and what they read. */
  class ConditionList {
    ghost var nodes: seq<Condition>
    ghost var ops: Chain

    ghost constructor ()
      ensures nodes == [] && ops == []
    {
      nodes, ops := [], [];
    }

    ghost function Head(): Condition?
      reads `nodes
    {
      NodeAt(nodes, 0)
    }

    ghost predicate Valid()
      reads this, nodes
    {
      Linked(nodes) && Spells(nodes, ops) && forall i :: 0 <= i < |nodes| ==> nodes[i].home == this
    }
  }

  function NodeAt(ns: seq<Condition>, i: nat): Condition? { if i < |ns| then ns[i] else null }

  ghost predicate Distinct(ns: seq<Condition>) { forall i, j :: 0 <= i < j < |ns| ==> ns[i] != ns[j] }

  /** Each node points to the one after it. */
  ghost predicate Linked(ns: seq<Condition>)
    reads ns`next
  {
    Distinct(ns) && forall i {:trigger ns[i].next} :: 0 <= i < |ns| ==> ns[i].next == NodeAt(ns, i + 1)
  }

  /** The nodes carry these tokens. */
  ghost predicate Spells(ns: seq<Condition>, ops: Chain)
    reads ns`op
  {
    |ns| == |ops| && forall i {:trigger ns[i].op} :: 0 <= i < |ns| ==> ns[i].op == ops[i]
  }

  /** From head on the list runs through the nodes ns and reads ops. */
  ghost predicate IsList(head: Condition?, ns: seq<Condition>, ops: Chain)
    reads ns
  {
    head == NodeAt(ns, 0) && Linked(ns) && Spells(ns, ops)
  }

  predicate Within(rs: seq<Condition>, ns: seq<Condition>) { forall i :: 0 <= i < |rs| ==> rs[i] in ns }

  // ---- the else inversion ----

  method InvertNodes(head: Condition?, ghost ns: seq<Condition>, ghost ops: Chain)
    requires IsList(head, ns, ops)
    modifies ns`op
    ensures IsList(head, ns, Invert(ops))
  {
    var cond := head;
    ghost var k := 0;
    while cond != null
      invariant k <= |ns| && cond == NodeAt(ns, k)
      invariant forall i {:trigger ns[i].op} :: 0 <= i < |ns| ==>
                  ns[i].op == if i < k then InvertToken(ops[i]) else ops[i]
      decreases |ns| - k
    {
      cond.op := InvertToken(cond.op);
      cond := cond.next;
      k := k + 1;
    }
  }

  // ---- remove_bang ----

  ghost function Cut(ns: seq<Condition>, d: nat): seq<Condition>
    requires d < |ns|
  {
    ns[..d] + ns[d + 1..]
  }

  /** Take the node at d out of the list. */
  method Unlink(prev: Condition?, node: Condition, ghost ns: seq<Condition>, ghost d: nat)
    requires Linked(ns) && d < |ns| && node == ns[d] && prev == (if d == 0 then null else ns[d - 1])
    modifies ns`next
    ensures Linked(Cut(ns, d))
  {
    if prev != null { prev.next := node.next; }
    node.next := null;
  }

  /** The place of the loop: conda is at d, prev before it. */
  ghost predicate AtPlace(head: Condition?, prev: Condition?, conda: Condition?, ns: seq<Condition>, c: Chain, d: nat)
    reads ns
  {
    d <= |ns| && IsList(head, ns, c) && conda == NodeAt(ns, d) && prev == if d == 0 then null else ns[d - 1]
  }

  ghost function Dropped(c: Chain, d: nat): Chain
    requires d + 2 < |c|
  {
    c[..d] + [c[d + 1], Flip(c[d + 2])] + c[d + 3..]
  }

  /** Negate the comparison after a "!" and drop the "!". */
  method DropBang(prev: Condition?, conda: Condition, condb: Condition, ghost ns: seq<Condition>, ghost c: Chain,
                  ghost d: nat)
    requires Linked(ns) && Spells(ns, c) && d + 2 < |ns| && conda == ns[d] && condb == ns[d + 2]
    requires prev == if d == 0 then null else ns[d - 1]
    modifies ns
    ensures Linked(Cut(ns, d)) && Spells(Cut(ns, d), Dropped(c, d))
  {
    condb.op := Flip(condb.op);
    Unlink(prev, conda, ns, d);
  }

  /** One iteration of the loop. */
  method BangStep(head: Condition?, prev: Condition?, conda: Condition, ghost ns: seq<Condition>, ghost c: Chain,
                  ghost d: nat,
                  ghost all: seq<Condition>)
    returns (head': Condition?, prev': Condition, ghost ns': seq<Condition>, ghost c': Chain, ghost d': nat)
    requires AtPlace(head, prev, conda, ns, c, d) && Within(ns, all)
    modifies ns
    ensures AtPlace(head', prev', prev'.next, ns', c', d') && Within(ns', all) && |ns'| - d' < |ns| - d
    ensures BangsFrom(c', d') == BangsFrom(c, d)
  {
    head', prev', ns', c', d' := head, conda, ns, c, d + 1;
    if conda.op.Bang? && conda.next != null {
      var condb := conda.next.next;
      assert condb == NodeAt(ns, d + 2);
      if condb != null && IsComparison(condb.op) {
        if prev == null { head' := conda.next; }
        DropBang(prev, conda, condb, ns, c, d);
        prev', ns', c', d' := condb, Cut(ns, d), Dropped(c, d), d + 2;
      }
    }
    assert ns'[d' - 1].next == NodeAt(ns', d');
  }

  method RemoveBangs(condition: Condition?, ghost ns: seq<Condition>, ghost ops: Chain)
    returns (head: Condition?, ghost rs: seq<Condition>)
    requires IsList(condition, ns, ops)
    modifies ns
    ensures IsList(head, rs, RemoveBang(ops)) && Within(rs, ns)
  {
    head, rs := condition, ns;
    var conda, prev: Condition? := condition, null;
    ghost var c, d := ops, 0;
    BangsStart(ops);
    while conda != null
      invariant AtPlace(head, prev, conda, rs, c, d) && Within(rs, ns) && BangsFrom(c, d) == RemoveBang(ops)
      decreases |rs| - d
    {
      head, prev, rs, c, d := BangStep(head, prev, conda, rs, c, d, ns);
      conda := prev.next;
    }
    assert d == |c| && BangsFrom(c, |c|) == c;
  }

  lemma BangsStart(ops: Chain)
    ensures BangsFrom(ops, 0) == RemoveBang(ops)
  {
    BangsFromIsRemoveBang(ops, 0);
    assert ops[..0] == [] && ops[0..] == ops;
  }

  // ---- eliminate_other_arch ----

  /** The scan for an "-o" outside parentheses. */
  method FindOuterOr(head: Condition?, ghost ns: seq<Condition>, ghost c: Chain) returns (found: bool)
    requires IsList(head, ns, c)
    ensures found == HasOuterOr(c, 0)
  {
    var cond, lpar := head, 0;
    ghost var k := 0;
    assert c[0..] == c;
    while cond != null
      invariant k <= |ns| && cond == NodeAt(ns, k) && HasOuterOr(c, 0) == HasOuterOr(c[k..], lpar)
      decreases |ns| - k
    {
      assert cond.op == c[k] && c[k..][1..] == c[k + 1..];
      if cond.op.LParen? {
        lpar := lpar + 1;
      } else if cond.op.RParen? {
        lpar := lpar - 1;
      } else if cond.op.Or? && lpar == 0 {
        return true;
      }
      cond := cond.next;
      k := k + 1;
    }
    return false;
  }

  /** Overwrite the head with a constant and cut the rest off. */
  method Replace(head: Condition, t: Token) returns (ghost rs: seq<Condition>)
    modifies head
    ensures rs == [head] && IsList(head, rs, [t])
  {
    head.op, head.next := t, null;
    rs := [head];
  }

  /** Cut the list after its fourth node and go on with the rest. */
  method CutTail(d: Condition, ghost ns: seq<Condition>, ghost c: Chain) returns (tail: Condition?)
    requires Linked(ns) && Spells(ns, c) && |ns| > 3 && d == ns[3]
    modifies d`next
    ensures IsList(tail, ns[4..], c[4..])
  {
    tail := d.next;
    d.next := null;
  }

  /** A condition that can be folded: not empty, and not ending in an operator. */
  predicate Foldable(c: Chain) { c != [] && !c[|c| - 1].And? && !c[|c| - 1].Or? }

  method EliminateOtherArch(env: Env, list: Condition, ghost ns: seq<Condition>, ghost c: Chain)
    returns (r: Condition, ghost rs: seq<Condition>)
    requires IsList(list, ns, c) && Foldable(c)
    modifies ns
    ensures IsList(r, rs, Eliminate(env, c)) && Within(rs, ns)
    decreases |ns|
  {
    r, rs := list, ns;
    if !list.op.Variable? || list.next == null || list.next.next == null { return; }
    var cond1b, cond1c := list.next, list.next.next;
    var cond1d := cond1c.next;
    FirstNodes(list, ns, c);
    if !cond1c.op.Constant? { return; }
    if env.name(list.op.nameindex) == "ARCH" && IsComparison(cond1b.op) {
      var holds := cond1b.op.Eq? == (cond1c.op.str == env.arch);
      if cond1d == null {
        rs := Replace(list, if holds then True else False);
      } else if cond1d.op.Or? {
        if holds { rs := Replace(list, True); } else { r, rs := EliminateTail(env, cond1d, ns, c); }
      } else if cond1d.op.And? {
        if holds {
          r, rs := EliminateTail(env, cond1d, ns, c);
        } else {
          TailIs(ns, c, 4);
          var complex := FindOuterOr(cond1d.next, ns[4..], c[4..]);
          if !complex { rs := Replace(list, False); }
        }
      }
    } else if list.op.nameindex !in env.defined && cond1b.op.Eq? && cond1c.op.str != "" {
      if cond1d == null || cond1d.op.And? {
        rs := Replace(list, False);
      } else if cond1d.op.Or? {
        r, rs := EliminateTail(env, cond1d, ns, c);
      }
    }
  }

  /** Drop the first comparison and its operator, and fold what follows. */
  method EliminateTail(env: Env, cond1d: Condition, ghost ns: seq<Condition>, ghost c: Chain)
    returns (r: Condition, ghost rs: seq<Condition>)
    requires Linked(ns) && Spells(ns, c) && |ns| > 3 && cond1d == ns[3] && (c[3].And? || c[3].Or?) && Foldable(c)
    modifies ns
    ensures IsList(r, rs, Eliminate(env, c[4..])) && Within(rs, ns)
    decreases |ns|, 0
  {
    var tail := CutTail(cond1d, ns, c);
    r, rs := EliminateOtherArch(env, tail, ns[4..], c[4..]);
  }

  lemma FirstNodes(list: Condition, ns: seq<Condition>, c: Chain)
    requires IsList(list, ns, c) && list.next != null && list.next.next != null
    ensures |c| == |ns| >= 3 && list == ns[0] && list.next == ns[1] && list.next.next == ns[2]
    ensures list.next.next.next == NodeAt(ns, 3)
    ensures list.op == c[0] && list.next.op == c[1] && list.next.next.op == c[2] && (|c| > 3 ==> ns[3].op == c[3])
  {
    assert ns[0].next == NodeAt(ns, 1);
    assert ns[1].next == NodeAt(ns, 2);
    assert ns[2].next == NodeAt(ns, 3);
    assert ns[0].op == c[0] && ns[1].op == c[1] && ns[2].op == c[2];
  }

  lemma TailIs(ns: seq<Condition>, c: Chain, k: nat)
    requires Linked(ns) && Spells(ns, c) && 0 < k <= |ns|
    ensures IsList(ns[k - 1].next, ns[k..], c[k..])
  {}

  // ---- join_condition_stack: duplicate removal ----

  /** The tokens from p on repeat the comparison at i. */
  predicate Repeats(c: Chain, i: nat, p: nat)
    requires i + 5 < |c| && p + 5 <= |c|
  {
    c[p].LParen? && c[p + 1] == c[i + 1] && c[p + 2] == c[i + 2] && c[p + 3] == c[i + 3] && c[p + 4].RParen?
  }

  /** One of the two copies is followed by "&&". */
  predicate Mergeable(c: Chain, i: nat, p: nat)
    requires i + 5 < |c| && p + 5 <= |c|
  {
    c[i + 5].And? || (p + 5 < |c| && c[p + 5].And?)
  }

  /** Distance from i + 6 to the first copy that can be merged, among those from i + 6 + j on. */
  ghost function CopyFrom(c: Chain, i: nat, j: nat): nat
    requires i + 6 + j <= |c|
  {
    j + FindCopy(c[i..][..5], c[i + 6 + j..], c[i + 5].And?)
  }

  predicate SingleAt(c: Chain, i: nat) { i + 5 < |c| && StartsSingle(c[i..]) }

  lemma FiveTokens(c: Chain, i: nat, p: nat)
    requires SingleAt(c, i) && p + 5 <= |c|
    ensures c[p..][..5] == c[i..][..5] <==> Repeats(c, i, p)
  {
    var x, y, t := c[p..][..5], c[i..][..5], c[i..];
    assert x == [c[p], c[p + 1], c[p + 2], c[p + 3], c[p + 4]];
    assert y == [c[i], c[i + 1], c[i + 2], c[i + 3], c[i + 4]];
    assert c[i] == t[0] && c[i + 4] == t[4];
  }

  lemma CopyMoves(c: Chain, i: nat, j: nat)
    requires SingleAt(c, i) && i + 6 + j < |c|
    ensures i + 11 + j <= |c| && Repeats(c, i, i + 6 + j) && Mergeable(c, i, i + 6 + j) ==> CopyFrom(c, i, j) == j
    ensures !(i + 11 + j <= |c| && Repeats(c, i, i + 6 + j) && Mergeable(c, i, i + 6 + j)) ==>
              CopyFrom(c, i, j) == CopyFrom(c, i, j + 1)
  {
    var p := i + 6 + j;
    assert c[p..][1..] == c[p + 1..];
    if p + 5 <= |c| {
      FiveTokens(c, i, p);
      assert |c[p..]| > 5 ==> c[p..][5] == c[p + 5];
    }
  }

  lemma CopyStarts(c: Chain, i: nat)
    requires SingleAt(c, i)
    ensures HasCopy(c[i..]) <==> CopyFrom(c, i, 0) < |c| - i - 6
    ensures c[i + 5].And? || CopyFrom(c, i, 0) == FindCopy(c[i..][..5], c[i..][6..], false)
  {
    assert c[i..][6..] == c[i + 6..] && c[i..][5] == c[i + 5];
  }

  /** Whether a copy of the comparison at i that can be merged opens at cond2; f2 is what follows it. */
  method CopyAt(cond2: Condition, cond1b: Condition, cond1c: Condition, cond1d: Condition, cond1f: Condition,
                ghost ns: seq<Condition>, ghost c: Chain, ghost i: nat, ghost p: nat)
    returns (short: bool, found: bool, cond2f: Condition?)
    requires Linked(ns) && Spells(ns, c) && i + 5 < |ns| && p < |ns| && cond2 == ns[p] && cond2.op.LParen?
    requires cond1b == ns[i + 1] && cond1c == ns[i + 2] && cond1d == ns[i + 3] && cond1f == ns[i + 5]
    ensures short == (|c| < p + 5) && (!short ==> cond2f == NodeAt(ns, p + 5))
    ensures found <==> !short && c[i + 1].Variable? && c[i + 3].Constant? && Repeats(c, i, p) && Mergeable(c, i, p)
  {
    short, found, cond2f := true, false, null;
    var cond2b := cond2.next;
    if cond2b == null { return; }
    var cond2c := cond2b.next;
    if cond2c == null { return; }
    var cond2d := cond2c.next;
    if cond2d == null { return; }
    var cond2e := cond2d.next;
    if cond2e == null { return; }
    short, cond2f := false, cond2e.next;
    found := cond2b.op.Variable? && cond2b.op == cond1b.op && cond2c.op == cond1c.op
             && cond2d.op.Constant? && cond2d.op == cond1d.op && cond2e.op.RParen?
             && (cond1f.op.And? || (cond2f != null && cond2f.op.And?));
  }

  method NukeNodes(cond1: Condition, cond1b: Condition, cond1c: Condition, cond1d: Condition, cond1e: Condition,
                   glue: Condition, ghost ns: seq<Condition>, ghost c: Chain, ghost i: nat, ghost f: nat)
    requires Distinct(ns) && Spells(ns, c) && i + 5 <= f < |ns| && glue == ns[f]
    requires cond1 == ns[i] && cond1b == ns[i + 1] && cond1c == ns[i + 2] && cond1d == ns[i + 3] && cond1e == ns[i + 4]
    modifies ns`op
    ensures Spells(ns, c[i := Nuked][i + 1 := Nuked][i + 2 := Nuked][i + 3 := Nuked][i + 4 := Nuked][f := Nuked])
  {
    cond1.op := Nuked;
    cond1b.op := Nuked;
    cond1c.op := Nuked;
    cond1d.op := Nuked;
    cond1e.op := Nuked;
    glue.op := Nuked;
  }

  /** Nuke the first copy and one "&&". */
  method Nuke(cond1: Condition, cond1b: Condition, cond1c: Condition, cond1d: Condition, cond1e: Condition,
              cond1f: Condition,
              cond2f: Condition?, ghost ns: seq<Condition>, ghost c: Chain, ghost i: nat, ghost j: nat)
    requires Linked(ns) && Spells(ns, c) && SingleAt(c, i) && j == CopyFrom(c, i, 0) < |c| - i - 6
    requires cond1 == ns[i] && cond1b == ns[i + 1] && cond1c == ns[i + 2] && cond1d == ns[i + 3] && cond1e == ns[i + 4]
    requires cond1f == ns[i + 5] && cond2f == NodeAt(ns, i + 11 + j)
    modifies ns`op
    ensures Spells(ns, DedupStep(c, i)) && cond1b.op == Nuked
  {
    CopyStarts(c, i);
    ghost var f := if c[i + 5].And? then i + 5 else i + 11 + j;
    StepWrites(c, i, f);
    var glue := if cond1f.op.And? then cond1f else cond2f;
    NukeNodes(cond1, cond1b, cond1c, cond1d, cond1e, glue, ns, c, i, f);
    SecondNuked(c, i);
    assert ns[i + 1].op == Nuked;
  }

  lemma SecondNuked(c: Chain, i: nat)
    requires i < |c| && HasCopy(c[i..])
    ensures DedupStep(c, i)[i + 1] == Nuked
  {
    assert DedupStep(c, i)[..i] == c[..i];
  }

  /** The inner loop: look for copies of the comparison at i and nuke it when there is one. */
  method DeduplicateFrom(cond1: Condition, cond1b: Condition, cond1c: Condition, cond1d: Condition, cond1e: Condition,
                         cond1f: Condition, ghost ns: seq<Condition>, ghost c: Chain, ghost i: nat)
    requires Linked(ns) && Spells(ns, c) && SingleAt(c, i)
    requires cond1 == ns[i] && cond1b == ns[i + 1] && cond1c == ns[i + 2] && cond1d == ns[i + 3] && cond1e == ns[i + 4]
    requires cond1f == ns[i + 5]
    modifies ns`op
    ensures Spells(ns, DedupStep(c, i))
  {
    var cond2 := cond1f.next;
    ghost var j, now := 0, c;
    CopyStarts(c, i);
    while cond2 != null
      invariant i + 6 + j <= |ns| && cond2 == NodeAt(ns, i + 6 + j) && Spells(ns, now)
      invariant if cond1b.op == Nuked then now == DedupStep(c, i)
                  else now == c && CopyFrom(c, i, 0) == CopyFrom(c, i, j)
      decreases |ns| - j
    {
      if cond1b.op != Nuked { CopyMoves(c, i, j); }
      if cond2.op.LParen? {
        var short, found, cond2f := CopyAt(cond2, cond1b, cond1c, cond1d, cond1f, ns, now, i, i + 6 + j);
        if short {
          if cond1b.op != Nuked { CopyShort(c, i, j); }
          break;
        }
        if found {
          Nuke(cond1, cond1b, cond1c, cond1d, cond1e, cond1f, cond2f, ns, c, i, j);
          now := DedupStep(c, i);
        }
      }
      cond2 := cond2.next;
      j := j + 1;
    }
  }

  lemma CopyShort(c: Chain, i: nat, j: nat)
    requires SingleAt(c, i) && i + 6 + j <= |c| < i + 11 + j
    ensures CopyFrom(c, i, j) == |c| - i - 6
  {}

  /** One iteration of the outer loop; stop when fewer than five tokens follow a parenthesis. */
  method DeduplicateAt(cond1: Condition, ghost ns: seq<Condition>, ghost c: Chain, ghost i: nat) returns (stop: bool)
    requires Linked(ns) && Spells(ns, c) && i < |ns| && cond1 == ns[i]
    modifies ns`op
    ensures if stop then Spells(ns, c) && |c| < i + 6 else Spells(ns, DedupStep(c, i))
  {
    if !cond1.op.LParen? { return false; }
    stop := true;
    var cond1b := cond1.next;
    if cond1b == null { return; }
    var cond1c := cond1b.next;
    if cond1c == null { return; }
    var cond1d := cond1c.next;
    if cond1d == null { return; }
    var cond1e := cond1d.next;
    if cond1e == null { return; }
    var cond1f := cond1e.next;
    if cond1f == null { return; }
    stop := false;
    SixTokens(c, i);
    if cond1b.op.Variable? && IsComparison(cond1c.op) && cond1d.op.Constant? && cond1e.op.RParen? {
      DeduplicateFrom(cond1, cond1b, cond1c, cond1d, cond1e, cond1f, ns, c, i);
    }
  }

  lemma SixTokens(c: Chain, i: nat)
    requires i + 5 < |c|
    ensures SingleAt(c, i) <==>
            c[i].LParen? && c[i + 1].Variable? && IsComparison(c[i + 2]) && c[i + 3].Constant? && c[i + 4].RParen?
  {
    var t := c[i..];
    assert t[0] == c[i] && t[1] == c[i + 1] && t[2] == c[i + 2] && t[3] == c[i + 3] && t[4] == c[i + 4];
  }

  /** Remove duplicate conditions. */
  method Deduplicate(head: Condition?, ghost ns: seq<Condition>, ghost ops: Chain)
    requires IsList(head, ns, ops)
    modifies ns`op
    ensures IsList(head, ns, Dedup(ops))
  {
    DedupFromIsDedup(ops, 0);
    assert ops[..0] == [] && ops[0..] == ops;
    var cond1 := head;
    ghost var i, c := 0, ops;
    while cond1 != null
      invariant i <= |ns| && cond1 == NodeAt(ns, i) && Spells(ns, c) && DedupFrom(c, i) == Dedup(ops)
      decreases |ns| - i
    {
      var stop := DeduplicateAt(cond1, ns, c, i);
      if stop { DedupEnds(c, i); return; }
      cond1, c, i := cond1.next, DedupStep(c, i), i + 1;
    }
  }

  // ---- join_condition_stack: gluing ----

  ghost function LastOf(ns: seq<Condition>): Condition? { if ns == [] then null else ns[|ns| - 1] }

  /** A list under construction: new nodes of its own, first and last. */
  ghost predicate Building(first: Condition?, last: Condition?, list: ConditionList)
    reads list, list.nodes
  {
    list.Valid() && first == list.Head() && last == LastOf(list.nodes)
  }

  /** One more node at the end. */
  method AppendNode(first: Condition?, last: Condition?, op: Token,
                    ghost list: ConditionList) returns (first': Condition?, last': Condition)
    requires Building(first, last, list)
    modifies list, list.nodes`next
    ensures Building(first', last', list) && list.ops == old(list.ops) + [op]
    ensures list.nodes == old(list.nodes) + [last'] && fresh(last')
  {
    last' := new Condition(op, list);
    first' := first;
    if last == null { first' := last'; } else { last.next := last'; }
    list.nodes, list.ops := list.nodes + [last'], list.ops + [op];
  }

  /** No node of ns belongs to the list. */
  ghost predicate Foreign(ns: seq<Condition>, list: ConditionList) { forall i :: 0 <= i < |ns| ==> ns[i].home != list }

  /** Duplicate a chain at the end of the list. */
  method AppendCopy(first: Condition?, last: Condition?, cond: Condition?, ghost list: ConditionList,
                    ghost ns: seq<Condition>, ghost c: Chain)
    returns (first': Condition?, last': Condition?)
    requires Building(first, last, list) && IsList(cond, ns, c) && Foreign(ns, list)
    modifies list, list.nodes`next
    ensures Building(first', last', list) && list.ops == old(list.ops) + c
    ensures forall i :: 0 <= i < |list.nodes| ==> list.nodes[i] in old(list.nodes) || fresh(list.nodes[i])
  {
    first', last' := first, last;
    var node := cond;
    ghost var k := 0;
    while node != null
      invariant k <= |ns| && node == NodeAt(ns, k) && IsList(cond, ns, c)
      invariant Building(first', last', list) && list.ops == old(list.ops) + c[..k]
      invariant forall i :: 0 <= i < |list.nodes| ==> list.nodes[i] in old(list.nodes) || fresh(list.nodes[i])
      decreases |ns| - k
    {
      assert node.op == c[k] && c[..k + 1] == c[..k] + [c[k]];
      first', last' := AppendNode(first', last', node.op, list);
      node := node.next;
      k := k + 1;
    }
    assert c[..k] == c;
  }

  lemma WrapInSteps(a: Chain, c: Chain)
    ensures a + [LParen] + c + [RParen] == a + Wrap(c)
  {}

  /** Append a copy of a condition, in parentheses unless it brings its own. */
  method GlueCondition(first: Condition?, last: Condition?, cond: Condition, ghost list: ConditionList,
                       ghost ns: seq<Condition>, ghost c: Chain)
    returns (first': Condition?, last': Condition?)
    requires Building(first, last, list) && IsList(cond, ns, c) && Foreign(ns, list)
    modifies list, list.nodes`next
    ensures c != [] && Building(first', last', list) && list.ops == Glue1(old(list.ops), c)
    ensures forall i :: 0 <= i < |list.nodes| ==> list.nodes[i] in old(list.nodes) || fresh(list.nodes[i])
  {
    assert cond.op == c[0];
    first', last' := first, last;
    if cond.op.True? { return; }
    if last != null { first', last' := AppendNode(first', last', And, list); }
    if cond.op.LParen? {
      first', last' := AppendCopy(first', last', cond, list, ns, c);
    } else {
      first', last' := AppendWrapped(first', last', cond, list, ns, c);
    }
  }

  method AppendWrapped(first: Condition?, last: Condition?, cond: Condition?, ghost list: ConditionList,
                       ghost ns: seq<Condition>, ghost c: Chain)
    returns (first': Condition?, last': Condition?)
    requires Building(first, last, list) && IsList(cond, ns, c) && Foreign(ns, list)
    modifies list, list.nodes`next
    ensures Building(first', last', list) && list.ops == old(list.ops) + Wrap(c)
    ensures forall i :: 0 <= i < |list.nodes| ==> list.nodes[i] in old(list.nodes) || fresh(list.nodes[i])
  {
    WrapInSteps(list.ops, c);
    first', last' := AppendNode(first, last, LParen, list);
    first', last' := AppendCopy(first', last', cond, list, ns, c);
    first', last' := AppendNode(first', last', RParen, list);
  }

  // ---- all lists ----

  /** Specification only: all condition lists there are. Their nodes belong to one list each. */
  class Arena {
    ghost var lists: set<ConditionList>
    ghost var nodes: set<Condition>

    ghost constructor ()
      ensures Valid() && lists == {} && nodes == {}
    {
      lists, nodes := {}, {};
    }

    /** A list with its nodes. */
    ghost predicate Holds(l: ConditionList)
      reads this`nodes, l, l.nodes
    {
      (forall i :: 0 <= i < |l.nodes| ==> l.nodes[i] in nodes) && l.Valid()
    }

    ghost predicate Valid()
      reads this, lists, nodes
    {
      forall l {:trigger l in lists} :: l in lists ==>
        (forall i :: 0 <= i < |l.nodes| ==> l.nodes[i] in nodes) && Holds(l)
    }
  }

  /** Different lists share no node. */
  lemma NoSharing(a: ConditionList, b: ConditionList)
    requires a.Valid() && b.Valid() && a != b
    ensures forall n :: n in a.nodes ==> n !in b.nodes
  {}

  /** The slots in use point to these lists, which read these chains; none is empty and no two are the same. */
  ghost predicate IsStack(slots: array<Condition?>, depth: nat, lists: seq<ConditionList>, stack: seq<Chain>)
    reads slots, lists`ops, lists`nodes
  {
    && depth == |lists| == |stack| <= slots.Length
    && (forall i :: 0 <= i < depth ==> slots[i] == lists[i].Head() && lists[i].ops == stack[i] && stack[i] != [])
    && (forall i, j :: 0 <= i < j < depth ==> lists[i] != lists[j])
  }

  ghost predicate AllIn(lists: seq<ConditionList>, arena: Arena)
    reads arena
  {
    forall i :: 0 <= i < |lists| ==> lists[i] in arena.lists
  }

  lemma ListAt(arena: Arena, slots: array<Condition?>, depth: nat, lists: seq<ConditionList>, stack: seq<Chain>, i: nat)
    requires arena.Valid() && IsStack(slots, depth, lists, stack) && AllIn(lists, arena) && i < depth
    ensures slots[i] != null && IsList(slots[i], lists[i].nodes, stack[i]) && slots[i].op == stack[i][0]
    ensures lists[i].Valid()
  {
    var l := lists[i];
    assert l in arena.lists && arena.Holds(l);
    assert l.nodes[0].op == l.ops[0];
  }

  /** The first loop: is some condition FALSE? */
  method FindFalse(slots: array<Condition?>, depth: nat, ghost lists: seq<ConditionList>, ghost stack: seq<Chain>,
                   ghost arena: Arena) returns (found: bool)
    requires arena.Valid() && IsStack(slots, depth, lists, stack) && AllIn(lists, arena)
    ensures found <==> AnyFalse(stack)
  {
    for i := 0 to depth
      invariant forall k :: 0 <= k < i ==> !IsFalse(stack[k])
    {
      ListAt(arena, slots, depth, lists, stack, i);
      if slots[i].op.False? {
        assert IsFalse(stack[i]);
        return true;
      }
    }
    return false;
  }

  lemma ForeignAt(arena: Arena, lists: seq<ConditionList>, i: nat, list: ConditionList)
    requires arena.Valid() && AllIn(lists, arena) && i < |lists| && list !in arena.lists
    ensures Foreign(lists[i].nodes, list)
  {
    assert lists[i] in arena.lists && arena.Holds(lists[i]);
  }

  /** The list and its nodes are outside the arena. */
  ghost predicate Outside(list: ConditionList, arena: Arena)
    reads list, arena
  {
    list !in arena.lists && forall i :: 0 <= i < |list.nodes| ==> list.nodes[i] !in arena.nodes
  }

  /** One condition of the second loop. */
  method GlueSlot(first: Condition?, last: Condition?, slots: array<Condition?>, depth: nat, i: nat,
                  ghost list: ConditionList,
                  ghost lists: seq<ConditionList>, ghost stack: seq<Chain>, ghost arena: Arena)
    returns (first': Condition?, last': Condition?)
    requires arena.Valid() && IsStack(slots, depth, lists, stack) && AllIn(lists, arena) && i < depth
    requires Building(first, last, list) && Outside(list, arena)
    modifies list, list.nodes`next
    ensures arena.Valid() && IsStack(slots, depth, lists, stack) && AllIn(lists, arena) && Outside(list, arena)
    ensures Building(first', last', list) && stack[i] != [] && list.ops == Glue1(old(list.ops), stack[i])
    ensures forall i :: 0 <= i < |list.nodes| ==> list.nodes[i] in old(list.nodes) || fresh(list.nodes[i])
  {
    ListAt(arena, slots, depth, lists, stack, i);
    ForeignAt(arena, lists, i, list);
    first', last' := GlueCondition(first, last, slots[i], list, lists[i].nodes, stack[i]);
  }

  lemma GlueNext(stack: seq<Chain>, i: nat)
    requires NonEmpty(stack) && i < |stack|
    ensures Glue(stack[..i + 1]) == Glue1(Glue(stack[..i]), stack[i])
  {
    assert stack[..i + 1][..i] == stack[..i];
  }

  /** The second loop: copies of all conditions, glued with "&&". */
  method GlueAll(slots: array<Condition?>, depth: nat, ghost lists: seq<ConditionList>, ghost stack: seq<Chain>,
                 ghost arena: Arena)
    returns (first: Condition?, ghost list: ConditionList)
    requires arena.Valid() && IsStack(slots, depth, lists, stack) && AllIn(lists, arena)
    ensures arena.Valid() && NonEmpty(stack)
    ensures fresh(list) && list.Valid() && list.ops == Glue(stack) && fresh(list.nodes) && first == list.Head()
    ensures Outside(list, arena)
  {
    list := new ConditionList();
    var last: Condition? := null;
    first := null;
    for i := 0 to depth
      invariant arena.Valid() && IsStack(slots, depth, lists, stack) && AllIn(lists, arena)
      invariant Building(first, last, list) && Outside(list, arena) && list.ops == Glue(stack[..i]) && fresh(list.nodes)
    {
      GlueNext(stack, i);
      first, last := GlueSlot(first, last, slots, depth, i, list, lists, stack, arena);
    }
    assert stack[..depth] == stack;
  }

  /** The nodes of the list appear in no other list of the arena. */
  ghost predicate Alone(list: ConditionList, arena: Arena)
    reads arena, arena.lists, list
  {
    forall l {:trigger l.nodes} :: l in arena.lists && l != list ==>
      forall i :: 0 <= i < |l.nodes| ==> l.nodes[i] !in list.nodes
  }

  lemma ListsAlone(list: ConditionList, arena: Arena)
    requires arena.Valid() && list in arena.lists
    ensures arena.Holds(list) && Alone(list, arena)
  {
    assert arena.Holds(list);
    forall l {:trigger l.nodes} | l in arena.lists && l != list
      ensures forall i :: 0 <= i < |l.nodes| ==> l.nodes[i] !in list.nodes
    {
      assert arena.Holds(l);
      NoSharing(l, list);
    }
  }

  /** eliminate_other_arch on a list of the arena: what is left are nodes it had before. */
  method Eliminated(env: Env, cond: Condition, ghost list: ConditionList, ghost arena: Arena) returns (r: Condition)
    requires arena.Valid() && list in arena.lists && cond == list.Head() && Foldable(list.ops)
    modifies list, list.nodes
    ensures arena.Valid() && r == list.Head() && list.ops == Eliminate(env, old(list.ops))
    ensures Within(list.nodes, old(list.nodes))
  {
    ListsAlone(list, arena);
    ghost var rs;
    r, rs := EliminateOtherArch(env, cond, list.nodes, list.ops);
    list.nodes, list.ops := rs, Eliminate(env, list.ops);
    assert arena.Holds(list);
    forall l {:trigger l in arena.lists} | l in arena.lists ensures arena.Holds(l) {
      if l != list { assert old(arena.Holds(l)); }
    }
  }

  /** remove_bang on a list of the arena. */
  method Unbanged(cond: Condition?, ghost list: ConditionList, ghost arena: Arena) returns (r: Condition?)
    requires arena.Valid() && list in arena.lists && cond == list.Head()
    modifies list, list.nodes
    ensures arena.Valid() && r == list.Head() && list.ops == RemoveBang(old(list.ops))
    ensures Within(list.nodes, old(list.nodes))
  {
    ListsAlone(list, arena);
    ghost var rs;
    r, rs := RemoveBangs(cond, list.nodes, list.ops);
    list.nodes, list.ops := rs, RemoveBang(list.ops);
    assert arena.Holds(list);
    forall l {:trigger l in arena.lists} | l in arena.lists ensures arena.Holds(l) {
      if l != list { assert old(arena.Holds(l)); }
    }
  }

  /** The else inversion on a list of the arena: the nodes stay. */
  method Inverted(cond: Condition?, ghost list: ConditionList, ghost arena: Arena)
    requires arena.Valid() && list in arena.lists && cond == list.Head()
    modifies list`ops, list.nodes`op
    ensures arena.Valid() && list.ops == Invert(old(list.ops))
  {
    ListsAlone(list, arena);
    InvertNodes(cond, list.nodes, list.ops);
    list.ops := Invert(list.ops);
    assert arena.Holds(list);
    forall l {:trigger l in arena.lists} | l in arena.lists ensures arena.Holds(l) {
      if l != list { assert old(arena.Holds(l)); }
    }
  }

  ghost function NodeSet(list: ConditionList): set<Condition>
    reads list`nodes
  {
    set n | n in list.nodes
  }

  /** A list of one FALSE. */
  method NewFalse() returns (head: Condition, ghost list: ConditionList)
    ensures fresh(list) && fresh(list.nodes) && list.Valid() && head == list.Head() && list.ops == [False]
  {
    list := new ConditionList();
    var first, last := AppendNode(null, null, False, list);
    head := last;
  }

  method DeduplicateList(head: Condition?, ghost list: ConditionList)
    requires list.Valid() && head == list.Head()
    modifies list`ops, list.nodes`op
    ensures list.Valid() && list.ops == Dedup(old(list.ops))
  {
    Deduplicate(head, list.nodes, list.ops);
    list.ops := Dedup(list.ops);
  }

  /** A list outside the arena does not matter to it. */
  method DeduplicateNew(head: Condition?, ghost list: ConditionList, ghost arena: Arena)
    requires list.Valid() && head == list.Head() && arena.Valid() && Outside(list, arena)
    modifies list`ops, list.nodes`op
    ensures list.Valid() && list.ops == Dedup(old(list.ops)) && arena.Valid()
  {
    DeduplicateList(head, list);
  }

  /** The case without FALSE. */
  method GlueDistinct(slots: array<Condition?>, depth: nat, ghost lists: seq<ConditionList>, ghost stack: seq<Chain>,
                      ghost arena: Arena)
    returns (head: Condition?, ghost list: ConditionList)
    requires arena.Valid() && IsStack(slots, depth, lists, stack) && AllIn(lists, arena)
    ensures arena.Valid() && NonEmpty(stack) && fresh(list) && fresh(list.nodes) && list.Valid()
    ensures head == list.Head() && list.ops == Dedup(Glue(stack))
  {
    head, list := GlueAll(slots, depth, lists, stack, arena);
    DeduplicateNew(head, list, arena);
  }

  method BuildJoin(slots: array<Condition?>, depth: nat, ghost lists: seq<ConditionList>, ghost stack: seq<Chain>,
                   ghost arena: Arena)
    returns (head: Condition?, ghost list: ConditionList)
    requires arena.Valid() && IsStack(slots, depth, lists, stack) && AllIn(lists, arena)
    ensures arena.Valid() && NonEmpty(stack) && fresh(list) && fresh(list.nodes) && list.Valid()
    ensures head == list.Head() && list.ops == Join(stack)
  {
    var found := FindFalse(slots, depth, lists, stack, arena);
    if found {
      head, list := NewFalse();
    } else {
      head, list := GlueDistinct(slots, depth, lists, stack, arena);
    }
  }

  /** A new list of new nodes whose ops are the joined conditions; NULL for no condition at all. */
  method JoinConditionStack(slots: array<Condition?>, depth: nat, ghost lists: seq<ConditionList>,
                            ghost stack: seq<Chain>, ghost arena: Arena)
    returns (head: Condition?, ghost list: ConditionList)
    requires arena.Valid() && IsStack(slots, depth, lists, stack) && AllIn(lists, arena)
    modifies arena
    ensures arena.Valid() && arena.lists == old(arena.lists) + {list} && arena.nodes == old(arena.nodes) + NodeSet(list)
    ensures NonEmpty(stack) && fresh(list) && fresh(list.nodes)
    ensures head == list.Head() && list.ops == Join(stack) && (head == null <==> list.ops == [])
  {
    head, list := BuildJoin(slots, depth, lists, stack, arena);
    AddList(list, arena);
  }

  /** One more list in the arena. */
  ghost method AddList(list: ConditionList, arena: Arena)
    requires arena.Valid() && list.Valid()
    modifies arena
    ensures arena.Valid() && arena.lists == old(arena.lists) + {list} && arena.nodes == old(arena.nodes) + NodeSet(list)
  {
    arena.lists, arena.nodes := arena.lists + {list}, arena.nodes + NodeSet(list);
    assert arena.Holds(list);
    forall l {:trigger l in arena.lists} | l in arena.lists ensures arena.Holds(l) {
      if l != list { assert old(arena.Holds(l)); }
    }
  }
}
