/**
 * fix_conditionals of tkcond.c on the linked statement list: a stack of condition lists that are
 * inverted in place, guards that are fresh copies, and statements unlinked as the loop goes.
 */
module StatementLists {
  import opened Conditions
  import opened Elimination
  import opened Negation
  import opened Joining
  import opened Flattening
  import opened ConditionLists

  class Kconfig {
    var next: Kconfig?
    const token: Keyword
    const nameindex: int
    var cond: Condition?
    /** Place of the statement in the input. */
    ghost const position: nat

    constructor (token: Keyword, nameindex: int, ghost position: nat)
      ensures this.token == token && this.nameindex == nameindex && this.position == position && next == null
      ensures cond == null
    {
      this.token, this.nameindex, this.position := token, nameindex, position;
      next, cond := null, null;
    }
  }

  /** What a list reads; NULL is the empty chain. */
  ghost function OpsIn(list: ConditionList?): Chain
    reads Own(list)`ops
  {
    if list == null then [] else list.ops
  }

  /** Where a list begins. */
  ghost function HeadOf(list: ConditionList?): Condition?
    reads Own(list)`nodes
  {
    if list == null then null else list.Head()
  }

  ghost function Own(list: ConditionList?): set<ConditionList> { if list == null then {} else {list} }

  // ---- what the pass needs of its input ----

  const STACK_SIZE: nat := 32

  /** What the tokenizer hands over: conditions on if and on dependent statements only. */
  predicate Loaded(line: Line) {
    if line.token.IfWord? then Foldable(line.cond)
    else if IsDependent(line.token) then line.cond != [] ==> Foldable(line.cond)
    else line.cond == []
  }

  /** A condition of its own takes the slot above the stack. */
  predicate NeedsSlot(line: Line) { IsDependent(line.token) && line.cond != [] }

  /** else and fi have an open if, and the stack array is large enough. */
  predicate Nests(lines: seq<Line>, depth: nat) {
    lines != [] ==>
      match lines[0].token
      case IfWord => depth < STACK_SIZE && Nests(lines[1..], depth + 1)
      case Else => depth > 0 && Nests(lines[1..], depth)
      case Fi => depth > 0 && Nests(lines[1..], depth - 1)
      case _ => (NeedsSlot(lines[0]) ==> depth < STACK_SIZE) && Nests(lines[1..], depth)
  }

  /** So for one statement. */
  predicate Room(line: Line, depth: nat) {
    && (line.token.IfWord? || NeedsSlot(line) ==> depth < STACK_SIZE)
    && (line.token.Else? || line.token.Fi? ==> depth > 0)
  }

  lemma {:induction false} FoldedNotEmpty(env: Env, c: Chain)
    requires Foldable(c)
    ensures Eliminate(env, c) != [] && Folded(env, c) != []
    decreases |c|
  {
    if |c| > 4 { FoldedNotEmpty(env, c[4..]); }
  }

  // ---- one statement ----

  ghost function Top(lists: seq<ConditionList>): set<ConditionList> { if lists == [] then {} else {lists[|lists| - 1]} }

  /** The stack after the statement, as objects. */
  ghost function NextLists(token: Keyword, cond: ConditionList?, lists: seq<ConditionList>): seq<ConditionList> {
    if token.IfWord? && cond != null then lists + [cond]
    else if token.Fi? && lists != [] then lists[..|lists| - 1] else lists
  }

  /** The stack holds these lists, which read these chains. */
  ghost predicate Holding(slots: array<Condition?>, depth: nat, lists: seq<ConditionList>, stack: seq<Chain>)
    reads slots, lists`ops, lists`nodes
  {
    IsStack(slots, depth, lists, stack) && slots.Length == STACK_SIZE
  }

  /** A list that is not on the stack goes on top. */
  method Push(slots: array<Condition?>, depth: nat, cond: Condition, ghost own: ConditionList,
              ghost lists: seq<ConditionList>, ghost stack: seq<Chain>)
    requires Holding(slots, depth, lists, stack) && depth < STACK_SIZE && own !in lists && own.ops != []
    requires cond == own.Head()
    modifies slots
    ensures Holding(slots, depth + 1, lists + [own], stack + [own.ops])
  {
    slots[depth] := cond;
  }

  lemma Pop(slots: array<Condition?>, depth: nat, lists: seq<ConditionList>, stack: seq<Chain>)
    requires Holding(slots, depth, lists, stack) && depth > 0
    ensures Holding(slots, depth - 1, lists[..depth - 1], stack[..depth - 1])
  {
  }

  /** A condition pointer that is NULL or the head of a list with tokens. */
  ghost predicate Points(cond: Condition?, list: ConditionList)
    reads list
  {
    cond == list.Head() && (cond == null <==> list.ops == [])
  }

  /** A guard out of the stack, in a new list of new nodes. */
  method Guard(slots: array<Condition?>, depth: nat, ghost lists: seq<ConditionList>, ghost stack: seq<Chain>,
               ghost arena: Arena)
    returns (good: bool, guard: Condition?, ghost list: ConditionList)
    requires Holding(slots, depth, lists, stack) && arena.Valid() && AllIn(lists, arena)
    modifies arena
    ensures Holding(slots, depth, lists, stack) && NonEmpty(stack) && good == !IsFalse(Join(stack))
    ensures arena.Valid() && arena.lists == old(arena.lists) + {list} && fresh(arena.nodes - old(arena.nodes))
    ensures fresh(list) && list.ops == Join(stack) && Points(guard, list)
  {
    guard, list := JoinConditionStack(slots, depth, lists, stack, arena);
    if guard != null { HeadReads(guard, list, arena); }
    good := guard == null || !guard.op.False?;
  }

  lemma HeadReads(cond: Condition, list: ConditionList, arena: Arena)
    requires arena.Valid() && list in arena.lists && cond == list.Head()
    ensures list.ops != [] && cond.op == list.ops[0] && cond.home == list
  {
    assert arena.Holds(list);
    assert list.nodes[0].op == list.ops[0];
  }

  /** A dependent statement: its own condition is joined from the slot above the stack. */
  method GuardDependent(env: Env, cond: Condition, slots: array<Condition?>, depth: nat, ghost own: ConditionList,
                        ghost lists: seq<ConditionList>, ghost stack: seq<Chain>, ghost arena: Arena)
    returns (good: bool, guard: Condition?, ghost list: ConditionList)
    requires Holding(slots, depth, lists, stack) && arena.Valid() && AllIn(lists, arena) && depth < STACK_SIZE
    requires own in arena.lists && own !in lists && cond == own.Head() && Foldable(own.ops)
    modifies slots, own, own.nodes, arena
    ensures Holding(slots, depth, lists, stack)
    ensures var s := stack + [Eliminate(env, old(own.ops))];
            NonEmpty(s) && good == !IsFalse(Join(s)) && list.ops == Join(s)
    ensures arena.Valid() && arena.lists == old(arena.lists) + {list} && fresh(arena.nodes - old(arena.nodes))
    ensures fresh(list) && Points(guard, list)
  {
    FoldedNotEmpty(env, own.ops);
    var r := Eliminated(env, cond, own, arena);
    Push(slots, depth, r, own, lists, stack);
    good, guard, list := Guard(slots, depth + 1, lists + [own], stack + [own.ops], arena);
    Pop(slots, depth + 1, lists + [own], stack + [own.ops]);
    assert (lists + [own])[..depth] == lists && (stack + [own.ops])[..depth] == stack;
  }

  /** if: fold the condition in place and push it. */
  method PushIf(env: Env, cfg: Kconfig, slots: array<Condition?>, depth: nat, ghost own: ConditionList,
                ghost lists: seq<ConditionList>, ghost stack: seq<Chain>, ghost arena: Arena)
    requires Holding(slots, depth, lists, stack) && arena.Valid() && AllIn(lists, arena) && depth < STACK_SIZE
    requires own in arena.lists && own !in lists && cfg.cond != null && cfg.cond == own.Head() && Foldable(own.ops)
    modifies slots, cfg`cond, own, own.nodes
    ensures cfg.cond == null && arena.Valid()
    ensures Holding(slots, depth + 1, lists + [own], stack + [Folded(env, old(own.ops))])
  {
    FoldedNotEmpty(env, own.ops);
    var r := FoldList(env, cfg.cond, own, arena);
    cfg.cond := null;
    Push(slots, depth, r, own, lists, stack);
  }

  /** remove_bang( eliminate_other_arch( ... ) ) */
  method FoldList(env: Env, cond: Condition, ghost own: ConditionList, ghost arena: Arena) returns (r: Condition)
    requires arena.Valid() && own in arena.lists && cond == own.Head() && Foldable(own.ops)
    requires Folded(env, own.ops) != []
    modifies own, own.nodes
    ensures arena.Valid() && r == own.Head() && own.ops == Folded(env, old(own.ops))
    ensures Within(own.nodes, old(own.nodes))
  {
    ghost var ns := own.nodes;
    var r1 := Eliminated(env, cond, own, arena);
    ghost var ms := own.nodes;
    var r2 := Unbanged(r1, own, arena);
    WithinTrans(own.nodes, ms, ns);
    HeadThere(own, arena);
    r := r2;
  }

  lemma WithinTrans(a: seq<Condition>, b: seq<Condition>, c: seq<Condition>)
    requires Within(a, b) && Within(b, c)
    ensures Within(a, c)
  {}

  lemma HeadThere(list: ConditionList, arena: Arena)
    requires arena.Valid() && list in arena.lists && list.ops != []
    ensures list.Head() != null
  {
    assert arena.Holds(list);
  }

  /** else: invert the condition on top of the stack, in place. */
  method InvertTop(slots: array<Condition?>, depth: nat, ghost lists: seq<ConditionList>, ghost stack: seq<Chain>,
                   ghost arena: Arena)
    requires Holding(slots, depth, lists, stack) && arena.Valid() && AllIn(lists, arena) && depth > 0
    modifies Top(lists)`ops, arena.nodes`op
    ensures Holding(slots, depth, lists, stack[depth - 1 := Invert(stack[depth - 1])]) && arena.Valid()
  {
    ghost var top := lists[depth - 1];
    NodesIn(top, arena);
    Inverted(slots[depth - 1], top, arena);
  }

  lemma NodesIn(list: ConditionList, arena: Arena)
    requires arena.Valid() && list in arena.lists
    ensures forall i :: 0 <= i < |list.nodes| ==> list.nodes[i] in arena.nodes
  {
    assert arena.Holds(list);
  }

  /** What has become of a statement: its fate, with the guard in the list given. */
  ghost predicate Fated(cfg: Kconfig, guard: ConditionList?, good: bool, fate: Fate)
    reads cfg`cond, Own(guard)`ops, Own(guard)`nodes
  {
    good == fate.Kept? && (good ==> cfg.cond == HeadOf(guard) && OpsIn(guard) == fate.guard)
  }

  /** The simple and the dependent statements of the switch. */
  method GuardStatement(env: Env, cfg: Kconfig, slots: array<Condition?>, depth: nat, ghost own: ConditionList?,
                        ghost lists: seq<ConditionList>, ghost stack: seq<Chain>, ghost line: Line, ghost arena: Arena)
    returns (good: bool, ghost guard: ConditionList?)
    requires Holding(slots, depth, lists, stack) && arena.Valid() && AllIn(lists, arena)
    requires own != null ==> own in arena.lists && own !in lists && own.ops != []
    requires cfg.cond == HeadOf(own) && line == Line(cfg.token, cfg.nameindex, OpsIn(own))
    requires Loaded(line) && IsGuarded(cfg.token) && (NeedsSlot(line) ==> depth < STACK_SIZE)
    modifies slots, cfg`cond, Own(own), arena, arena.nodes
    ensures Holding(slots, depth, lists, stack) && Fated(cfg, guard, good, LineFate(env, line, stack))
    ensures arena.Valid() && fresh(arena.nodes - old(arena.nodes))
    ensures old(arena.lists) <= arena.lists && guard != null && fresh(guard) && guard in arena.lists
  {
    var cond := cfg.cond;
    if own != null {
      HeadThere(own, arena);
      NodesIn(own, arena);
    }
    if IsDependent(cfg.token) && cond != null {
      good, cond, guard := GuardDependent(env, cond, slots, depth, own, lists, stack, arena);
    } else {
      good, cond, guard := Guard(slots, depth, lists, stack, arena);
    }
    cfg.cond := cond;
  }

  /** The switch of fix_conditionals. */
  method FixStatement(env: Env, cfg: Kconfig, slots: array<Condition?>, depth: nat, ghost own: ConditionList?,
                      ghost lists: seq<ConditionList>, ghost stack: seq<Chain>, ghost line: Line, ghost arena: Arena)
    returns (good: bool, depth': nat, ghost guard: ConditionList?)
    requires Holding(slots, depth, lists, stack) && arena.Valid() && AllIn(lists, arena)
    requires own != null ==> own in arena.lists && own !in lists && own.ops != []
    requires cfg.cond == HeadOf(own) && line == Line(cfg.token, cfg.nameindex, OpsIn(own)) && Loaded(line)
    requires Room(line, depth)
    modifies slots, cfg`cond, Own(own), Top(lists)`ops, arena, arena.nodes
    ensures Holding(slots, depth', NextLists(line.token, own, lists), NextStack(env, line, stack))
    ensures Fated(cfg, guard, good, LineFate(env, line, stack))
    ensures arena.Valid() && fresh(arena.nodes - old(arena.nodes))
    ensures old(arena.lists) <= arena.lists && (guard != null ==> fresh(guard) && guard in arena.lists)
  {
    good, depth', guard := true, depth, null;
    if cfg.token.IfWord? || cfg.token.Else? || cfg.token.Fi? {
      depth' := MoveStack(env, cfg, slots, depth, own, lists, stack, line, arena);
    } else if IsGuarded(cfg.token) {
      good, guard := GuardStatement(env, cfg, slots, depth, own, lists, stack, line, arena);
    }
  }

  /** The case if. */
  method PushLine(env: Env, cfg: Kconfig, slots: array<Condition?>, depth: nat, ghost own: ConditionList,
                  ghost lists: seq<ConditionList>, ghost stack: seq<Chain>, ghost line: Line, ghost arena: Arena)
    requires Holding(slots, depth, lists, stack) && arena.Valid() && AllIn(lists, arena) && depth < STACK_SIZE
    requires own in arena.lists && own !in lists && own.ops != [] && Foldable(own.ops)
    requires cfg.cond == own.Head() && line.token.IfWord? && line.cond == own.ops
    modifies slots, cfg`cond, own, arena.nodes
    ensures Holding(slots, depth + 1, NextLists(line.token, own, lists), NextStack(env, line, stack))
    ensures cfg.cond == null && arena.Valid()
  {
    HeadThere(own, arena);
    NodesIn(own, arena);
    PushIf(env, cfg, slots, depth, own, lists, stack, arena);
  }

  /** The cases if, else and fi. */
  method MoveStack(env: Env, cfg: Kconfig, slots: array<Condition?>, depth: nat, ghost own: ConditionList?,
                   ghost lists: seq<ConditionList>, ghost stack: seq<Chain>, ghost line: Line, ghost arena: Arena)
    returns (depth': nat)
    requires Holding(slots, depth, lists, stack) && arena.Valid() && AllIn(lists, arena)
    requires own != null ==> own in arena.lists && own !in lists && own.ops != []
    requires cfg.cond == HeadOf(own) && line == Line(cfg.token, cfg.nameindex, OpsIn(own)) && Loaded(line)
    requires Room(line, depth)
    requires cfg.token.IfWord? || cfg.token.Else? || cfg.token.Fi?
    modifies slots, cfg`cond, Own(own), Top(lists)`ops, arena.nodes
    ensures Holding(slots, depth', NextLists(line.token, own, lists), NextStack(env, line, stack))
    ensures cfg.cond == null && arena.Valid()
  {
    if cfg.token.IfWord? {
      PushLine(env, cfg, slots, depth, own, lists, stack, line, arena);
      depth' := depth + 1;
    } else if cfg.token.Else? {
      InvertLine(env, slots, depth, own, lists, stack, line, arena);
      depth' := depth;
    } else {
      PopLine(env, slots, depth, own, lists, stack, line);
      depth' := depth - 1;
    }
  }

  /** The case else. */
  method InvertLine(ghost env: Env, slots: array<Condition?>, depth: nat, ghost own: ConditionList?,
                    ghost lists: seq<ConditionList>, ghost stack: seq<Chain>, ghost line: Line, ghost arena: Arena)
    requires Holding(slots, depth, lists, stack) && arena.Valid() && AllIn(lists, arena) && depth > 0
    requires line.token.Else?
    modifies Top(lists)`ops, arena.nodes`op
    ensures Holding(slots, depth, NextLists(line.token, own, lists), NextStack(env, line, stack)) && arena.Valid()
  {
    InvertTop(slots, depth, lists, stack, arena);
  }

  /** The case fi. */
  lemma PopLine(env: Env, slots: array<Condition?>, depth: nat, own: ConditionList?,
                lists: seq<ConditionList>, stack: seq<Chain>, line: Line)
    requires Holding(slots, depth, lists, stack) && depth > 0 && line.token.Fi?
    ensures Holding(slots, depth - 1, NextLists(line.token, own, lists), NextStack(env, line, stack))
  {
    Pop(slots, depth, lists, stack);
  }

  // ---- the statement list ----

  function StatementAt(cfgs: seq<Kconfig>, k: nat): Kconfig? { if k < |cfgs| then cfgs[k] else null }

  ghost predicate Positions(cfgs: seq<Kconfig>) { forall i :: 0 <= i < |cfgs| ==> cfgs[i].position == i }

  ghost function KeptOf(cfgs: seq<Kconfig>, fates: seq<Fate>): seq<Kconfig>
    requires |fates| <= |cfgs|
    decreases |fates|
  {
    if fates == [] then []
    else
      var n := |fates| - 1;
      KeptOf(cfgs, fates[..n]) + if fates[n].Kept? then [cfgs[n]] else []
  }

  lemma KeptPush(cfgs: seq<Kconfig>, fates: seq<Fate>, fate: Fate)
    requires |fates| < |cfgs|
    ensures KeptOf(cfgs, fates + [fate]) == KeptOf(cfgs, fates) + if fate.Kept? then [cfgs[|fates|]] else []
  {
    assert (fates + [fate])[..|fates|] == fates;
  }

  /** The list runs through the kept statements, in input order, and then on from k. */
  ghost predicate Threaded(kept: seq<Kconfig>, cfgs: seq<Kconfig>, k: nat)
    reads kept`next, cfgs`next
  {
    && (forall i {:trigger kept[i].next} :: 0 <= i < |kept| ==>
          kept[i].next == if i + 1 < |kept| then kept[i + 1] else StatementAt(cfgs, k))
    && (forall i {:trigger cfgs[i].next} :: k <= i < |cfgs| ==> cfgs[i].next == StatementAt(cfgs, i + 1))
    && (forall i, j :: 0 <= i < j < |kept| ==> kept[i].position < kept[j].position)
    && (forall i :: 0 <= i < |kept| ==> kept[i].position < k && kept[i] in cfgs)
  }

  ghost function Just(prev: Kconfig?): set<Kconfig> { if prev == null then {} else {prev} }

  method MarkVariables(scfg: Kconfig?, ghost cfgs: seq<Kconfig>, ghost lines: seq<Line>) returns (defined: set<nat>)
    requires Threaded([], cfgs, 0) && scfg == StatementAt(cfgs, 0) && |lines| == |cfgs|
    requires forall i :: 0 <= i < |cfgs| ==> lines[i].token == cfgs[i].token && lines[i].nameindex == cfgs[i].nameindex
    ensures defined == DefinedBy(lines)
  {
    defined := {};
    var cfg := scfg;
    ghost var k := 0;
    while cfg != null
      invariant k <= |cfgs| && cfg == StatementAt(cfgs, k) && defined == DefinedBy(lines[..k])
      decreases |cfgs| - k
    {
      DefinedByPush(lines, k);
      if Defines(cfg.token) && cfg.nameindex > 0 { defined := defined + {cfg.nameindex}; }
      cfg := cfg.next;
      k := k + 1;
    }
    assert lines[..k] == lines;
  }

  lemma DefinedByPush(lines: seq<Line>, k: nat)
    requires k < |lines|
    ensures DefinedBy(lines[..k + 1]) ==
            DefinedBy(lines[..k]) +
            if Defines(lines[k].token) && lines[k].nameindex > 0 then {lines[k].nameindex as nat} else {}
  {
    var a, b := lines[..k], lines[..k + 1];
    assert forall i :: 0 <= i < k ==> a[i] == b[i];
    assert b[k] == lines[k];
  }

  // ---- fix_conditionals ----

  /** Condition lists belong to one statement each. */
  ghost predicate Separate(conds: seq<ConditionList?>) {
    forall i, j :: 0 <= i < j < |conds| && conds[i] != null ==> conds[i] != conds[j]
  }

  ghost function Lists(conds: seq<ConditionList?>): set<ConditionList> {
    set i | 0 <= i < |conds| && conds[i] != null :: conds[i]
  }

  /** A statement holds the condition that was read. */
  ghost predicate PendingOne(cfg: Kconfig, list: ConditionList?, line: Line)
    reads cfg`cond, Own(list)`ops, Own(list)`nodes
  {
    && (list != null ==> list.ops != [])
    && cfg.cond == HeadOf(list) && line == Line(cfg.token, cfg.nameindex, OpsIn(list))
  }

  /** So do the statements from k on. */
  ghost predicate Pending(cfgs: seq<Kconfig>, conds: seq<ConditionList?>, lines: seq<Line>, k: nat)
    reads cfgs`cond, Lists(conds)`ops, Lists(conds)`nodes
  {
    && |conds| == |lines| == |cfgs|
    && forall i {:trigger conds[i]} :: k <= i < |cfgs| ==>
         (conds[i] != null ==> conds[i] in Lists(conds)) && PendingOne(cfgs[i], conds[i], lines[i])
  }

  /** The lists on the stack were read from earlier statements, in order. */
  ghost predicate FromEarlier(lists: seq<ConditionList>, conds: seq<ConditionList?>, owners: seq<nat>, k: nat) {
    && |owners| == |lists|
    && forall j :: 0 <= j < |lists| ==> owners[j] < k && owners[j] < |conds| && lists[j] == conds[owners[j]]
  }

  /** A statement carries the guard of its fate, in a list that was not read. */
  ghost predicate AttachedOne(cfg: Kconfig, guard: ConditionList?, conds: seq<ConditionList?>, fate: Fate)
    reads cfg`cond, Own(guard)`ops, Own(guard)`nodes
  {
    && (guard != null ==> guard !in Lists(conds))
    && (fate.Kept? ==> cfg.cond == HeadOf(guard) && fate.guard == OpsIn(guard))
  }

  /** So do the statements that have their fate. */
  ghost predicate Attached(cfgs: seq<Kconfig>, guards: seq<ConditionList?>, conds: seq<ConditionList?>,
                           fates: seq<Fate>)
    reads cfgs`cond, Lists(guards)`ops, Lists(guards)`nodes
  {
    && |guards| == |fates| <= |cfgs|
    && forall i {:trigger guards[i]} :: 0 <= i < |fates| ==>
         (guards[i] != null ==> guards[i] in Lists(guards)) && AttachedOne(cfgs[i], guards[i], conds, fates[i])
  }

  ghost function NextOwners(token: Keyword, cond: ConditionList?, owners: seq<nat>, k: nat): seq<nat> {
    if token.IfWord? && cond != null then owners + [k]
    else if token.Fi? && owners != [] then owners[..|owners| - 1] else owners
  }

  lemma OwnersStep(token: Keyword, lists: seq<ConditionList>, conds: seq<ConditionList?>, owners: seq<nat>, k: nat)
    requires FromEarlier(lists, conds, owners, k) && k < |conds|
    ensures FromEarlier(NextLists(token, conds[k], lists), conds, NextOwners(token, conds[k], owners, k), k + 1)
  {}

  /** The lists a statement may change: its own and the one on top of the stack. */
  ghost function Touched(cond: ConditionList?, lists: seq<ConditionList>): set<ConditionList> { Own(cond) + Top(lists) }

  lemma TouchedOnly(lists: seq<ConditionList>, conds: seq<ConditionList?>, owners: seq<nat>, k: nat)
    requires FromEarlier(lists, conds, owners, k) && Separate(conds) && k < |conds|
    ensures conds[k] != null ==> conds[k] !in lists
    ensures Touched(conds[k], lists) <= Lists(conds) && forall i :: 0 <= i < |lists| ==> lists[i] in Lists(conds)
    ensures forall i :: k < i < |conds| && conds[i] != null ==> conds[i] !in Touched(conds[k], lists)
  {}

  /** One statement; those after it stay as they were. */
  method StepPending(env: Env, cfg: Kconfig, slots: array<Condition?>, depth: nat,
                     ghost lists: seq<ConditionList>, ghost stack: seq<Chain>,
                     ghost cfgs: seq<Kconfig>, ghost conds: seq<ConditionList?>, ghost lines: seq<Line>, ghost k: nat,
                     ghost arena: Arena)
    returns (good: bool, depth': nat, ghost guard: ConditionList?)
    requires Holding(slots, depth, lists, stack) && Positions(cfgs) && k < |cfgs| && cfg == cfgs[k]
    requires Pending(cfgs, conds, lines, k) && Loaded(lines[k]) && Room(lines[k], depth)
    requires arena.Valid() && AllIn(lists, arena)
    requires (conds[k] != null ==> conds[k] !in lists && conds[k] in arena.lists)
    requires forall i :: k < i < |conds| && conds[i] != null ==> conds[i] !in Touched(conds[k], lists)
    modifies slots, cfg`cond, Touched(conds[k], lists), arena, arena.nodes
    ensures Holding(slots, depth', NextLists(cfg.token, conds[k], lists), NextStack(env, lines[k], stack))
    ensures Pending(cfgs, conds, lines, k + 1) && Fated(cfg, guard, good, LineFate(env, lines[k], stack))
    ensures arena.Valid() && fresh(arena.nodes - old(arena.nodes))
    ensures old(arena.lists) <= arena.lists && (guard != null ==> fresh(guard) && guard in arena.lists)
  {
    assert PendingOne(cfg, conds[k], lines[k]);
    good, depth', guard := FixStatement(env, cfg, slots, depth, conds[k], lists, stack, lines[k], arena);
    forall i {:trigger conds[i]} | k < i < |cfgs|
      ensures (conds[i] != null ==> conds[i] in Lists(conds)) && PendingOne(cfgs[i], conds[i], lines[i])
    {
      assert old(PendingOne(cfgs[i], conds[i], lines[i])) && cfgs[i] != cfg;
    }
  }

  lemma AttachOne(cfgs: seq<Kconfig>, guards: seq<ConditionList?>, conds: seq<ConditionList?>, fates: seq<Fate>,
                  guard: ConditionList?, good: bool, fate: Fate)
    requires Attached(cfgs, guards, conds, fates) && |fates| < |cfgs| && Fated(cfgs[|fates|], guard, good, fate)
    requires guard != null ==> guard !in Lists(conds)
    ensures Attached(cfgs, guards + [guard], conds, fates + [fate])
  {
    var gs := guards + [guard];
    assert forall i :: 0 <= i < |guards| ==> gs[i] == guards[i];
    assert AttachedOne(cfgs[|fates|], guard, conds, fate);
  }

  lemma GuardsApart(cfgs: seq<Kconfig>, guards: seq<ConditionList?>, conds: seq<ConditionList?>, fates: seq<Fate>,
                    read: set<ConditionList>)
    requires Attached(cfgs, guards, conds, fates) && read <= Lists(conds)
    ensures forall i :: 0 <= i < |fates| && guards[i] != null ==> guards[i] !in read
  {
    forall i | 0 <= i < |fates| && guards[i] != null ensures guards[i] !in read {
      assert AttachedOne(cfgs[i], guards[i], conds, fates[i]);
    }
  }

  /** One statement; those before and after it stay as they were. */
  method StepStatement(env: Env, cfg: Kconfig, slots: array<Condition?>, depth: nat,
                       ghost lists: seq<ConditionList>, ghost stack: seq<Chain>, ghost owners: seq<nat>,
                       ghost cfgs: seq<Kconfig>, ghost conds: seq<ConditionList?>, ghost lines: seq<Line>,
                       ghost guards: seq<ConditionList?>, ghost fates: seq<Fate>, ghost k: nat, ghost arena: Arena)
    returns (good: bool, depth': nat, ghost guard: ConditionList?)
    requires Holding(slots, depth, lists, stack) && FromEarlier(lists, conds, owners, k)
    requires Separate(conds) && Positions(cfgs) && |fates| == k < |cfgs| && cfg == cfgs[k]
    requires Pending(cfgs, conds, lines, k) && Attached(cfgs, guards, conds, fates)
    requires Loaded(lines[k]) && Room(lines[k], depth) && arena.Valid() && Lists(conds) <= arena.lists
    modifies slots, cfg`cond, Lists(conds), arena, arena.nodes
    ensures Holding(slots, depth', NextLists(cfg.token, conds[k], lists), NextStack(env, lines[k], stack))
    ensures Pending(cfgs, conds, lines, k + 1) && Attached(cfgs, guards, conds, fates)
    ensures Fated(cfg, guard, good, LineFate(env, lines[k], stack))
    ensures arena.Valid() && fresh(arena.nodes - old(arena.nodes))
    ensures old(arena.lists) <= arena.lists && (guard != null ==> fresh(guard) && guard in arena.lists)
  {
    TouchedOnly(lists, conds, owners, k);
    GuardsApart(cfgs, guards, conds, fates, Touched(conds[k], lists));
    good, depth', guard := StepPending(env, cfg, slots, depth, lists, stack, cfgs, conds, lines, k, arena);
    forall i {:trigger guards[i]} | 0 <= i < k
      ensures (guards[i] != null ==> guards[i] in Lists(guards)) && AttachedOne(cfgs[i], guards[i], conds, fates[i])
    {
      assert old(AttachedOne(cfgs[i], guards[i], conds, fates[i])) && cfgs[i] != cfg;
    }
  }

  /** The part of the state that the list links do not touch. */
  ghost predicate Settled(slots: array<Condition?>, depth: nat, lists: seq<ConditionList>, stack: seq<Chain>,
                          cfgs: seq<Kconfig>, conds: seq<ConditionList?>, lines: seq<Line>,
                          guards: seq<ConditionList?>, fates: seq<Fate>, k: nat)
    reads slots, lists`ops, lists`nodes, cfgs`cond
    reads Lists(conds)`ops, Lists(conds)`nodes, Lists(guards)`ops, Lists(guards)`nodes
  {
    Holding(slots, depth, lists, stack) && Pending(cfgs, conds, lines, k) && Attached(cfgs, guards, conds, fates)
  }

  /** All lists are in the arena, and no two guards are the same list. */
  ghost predicate Accounted(conds: seq<ConditionList?>, guards: seq<ConditionList?>, arena: Arena)
    reads arena, arena.lists, arena.nodes
  {
    arena.Valid() && Lists(conds) <= arena.lists && Lists(guards) <= arena.lists && Separate(guards)
  }

  /** Unlink a statement that is not good, or take it into the kept part. */
  method Relink(prev: Kconfig?, cfg: Kconfig, good: bool, ghost kept: seq<Kconfig>, ghost cfgs: seq<Kconfig>,
                ghost k: nat)
    returns (prev': Kconfig?, ghost kept': seq<Kconfig>)
    requires Threaded(kept, cfgs, k) && Positions(cfgs) && k < |cfgs| && cfg == cfgs[k]
    requires prev == (if kept == [] then null else kept[|kept| - 1])
    modifies Just(prev)`next
    ensures kept' == (if good then kept + [cfg] else kept) && Threaded(kept', cfgs, k + 1)
    ensures prev' == (if kept' == [] then null else kept'[|kept'| - 1]) && cfg.next == StatementAt(cfgs, k + 1)
  {
    prev', kept' := prev, kept;
    if good {
      prev', kept' := cfg, kept + [cfg];
      ThreadedPush(kept, cfgs, k, kept');
    } else if prev != null {
      OnlyLast(kept, cfgs, k);
      prev.next := cfg.next;
    }
  }

  lemma ThreadedPush(kept: seq<Kconfig>, cfgs: seq<Kconfig>, k: nat, kept': seq<Kconfig>)
    requires Threaded(kept, cfgs, k) && Positions(cfgs) && k < |cfgs| && kept' == kept + [cfgs[k]]
    ensures Threaded(kept', cfgs, k + 1)
  {
    forall i {:trigger kept'[i].next} | 0 <= i < |kept'|
      ensures kept'[i].next == if i + 1 < |kept'| then kept'[i + 1] else StatementAt(cfgs, k + 1)
    {
      assert i < |kept| ==> kept'[i] == kept[i];
    }
  }

  /** The last kept statement is no other kept statement and none to come. */
  lemma OnlyLast(kept: seq<Kconfig>, cfgs: seq<Kconfig>, k: nat)
    requires Threaded(kept, cfgs, k) && Positions(cfgs) && kept != []
    ensures forall i :: 0 <= i < |kept| - 1 ==> kept[i] != kept[|kept| - 1]
    ensures forall i :: k <= i < |cfgs| ==> cfgs[i] != kept[|kept| - 1]
  {}

  lemma NestsSplit(lines: seq<Line>, k: nat, depth: nat, stack: seq<Chain>, env: Env)
    requires k < |lines| && Nests(lines[k..], depth) && |stack| == depth
    ensures Room(lines[k], depth) && Nests(lines[k + 1..], |NextStack(env, lines[k], stack)|)
  {
    assert lines[k..][1..] == lines[k + 1..];
  }

  lemma RunSplit(env: Env, lines: seq<Line>, k: nat, stack: seq<Chain>, fates: seq<Fate>)
    requires k < |lines| && fates + Run(env, lines[k..], stack) == Run(env, lines, [])
    ensures fates + [LineFate(env, lines[k], stack)] +
              Run(env, lines[k + 1..], NextStack(env, lines[k], stack)) == Run(env, lines, [])
  {
    assert lines[k..][1..] == lines[k + 1..];
    var r := Run(env, lines[k + 1..], NextStack(env, lines[k], stack));
    assert fates + ([LineFate(env, lines[k], stack)] + r) == fates + [LineFate(env, lines[k], stack)] + r;
  }

  /** What remains to be run, seen from statement k. */
  ghost predicate OnCourse(env: Env, lines: seq<Line>, k: nat, stack: seq<Chain>, fates: seq<Fate>) {
    |fates| == k <= |lines| && Nests(lines[k..], |stack|) && fates + Run(env, lines[k..], stack) == Run(env, lines, [])
  }

  lemma OnCourseStep(env: Env, lines: seq<Line>, k: nat, stack: seq<Chain>, fates: seq<Fate>)
    requires OnCourse(env, lines, k, stack, fates) && k < |lines|
    ensures Room(lines[k], |stack|)
    ensures OnCourse(env, lines, k + 1, NextStack(env, lines[k], stack), fates + [LineFate(env, lines[k], stack)])
  {
    NestsSplit(lines, k, |stack|, stack, env);
    RunSplit(env, lines, k, stack, fates);
  }

  /** The switch for statement k and the facts it establishes about the first k + 1 statements. */
  method Settle(env: Env, cfg: Kconfig, slots: array<Condition?>, depth: nat,
                ghost lists: seq<ConditionList>, ghost stack: seq<Chain>, ghost owners: seq<nat>,
                ghost cfgs: seq<Kconfig>, ghost conds: seq<ConditionList?>, ghost lines: seq<Line>,
                ghost guards: seq<ConditionList?>, ghost fates: seq<Fate>, ghost k: nat, ghost arena: Arena)
    returns (good: bool, depth': nat, ghost fate: Fate, ghost guard: ConditionList?, ghost lists': seq<ConditionList>,
             ghost stack': seq<Chain>, ghost owners': seq<nat>)
    requires Settled(slots, depth, lists, stack, cfgs, conds, lines, guards, fates, k)
    requires FromEarlier(lists, conds, owners, k)
    requires Separate(conds) && Positions(cfgs) && |fates| == k < |cfgs| && cfg == cfgs[k]
    requires Accounted(conds, guards, arena)
    requires OnCourse(env, lines, k, stack, fates) && Loaded(lines[k])
    modifies slots, cfg`cond, Lists(conds), arena, arena.nodes
    ensures Settled(slots, depth', lists', stack', cfgs, conds, lines, guards + [guard], fates + [fate], k + 1)
    ensures FromEarlier(lists', conds, owners', k + 1) && good == fate.Kept?
    ensures OnCourse(env, lines, k + 1, stack', fates + [fate])
    ensures Accounted(conds, guards + [guard], arena) && fresh(arena.nodes - old(arena.nodes))
  {
    fate := LineFate(env, lines[k], stack);
    OnCourseStep(env, lines, k, stack, fates);
    OwnersStep(cfg.token, lists, conds, owners, k);
    good, depth', guard :=
      StepStatement(env, cfg, slots, depth, lists, stack, owners, cfgs, conds, lines, guards, fates, k, arena);
    AttachOne(cfgs, guards, conds, fates, guard, good, fate);
    ListsPush(guards, guard);
    SeparatePush(guards, guard);
    stack', lists' := NextStack(env, lines[k], stack), NextLists(cfg.token, conds[k], lists);
    owners' := NextOwners(cfg.token, conds[k], owners, k);
  }

  lemma SeparatePush(guards: seq<ConditionList?>, guard: ConditionList?)
    requires Separate(guards) && (guard != null ==> guard !in Lists(guards))
    ensures Separate(guards + [guard])
  {
    var gs := guards + [guard];
    assert forall i :: 0 <= i < |guards| ==> gs[i] == guards[i] && (guards[i] != null ==> guards[i] in Lists(guards));
  }

  lemma ListsPush(guards: seq<ConditionList?>, guard: ConditionList?)
    ensures Lists(guards + [guard]) == Lists(guards) + Own(guard)
  {
    var gs := guards + [guard];
    assert gs[|guards|] == guard && forall i :: 0 <= i < |guards| ==> gs[i] == guards[i];
  }

  /** The list part of the loop state. */
  ghost predicate Walked(prev: Kconfig?, kept: seq<Kconfig>, cfgs: seq<Kconfig>, fates: seq<Fate>, k: nat)
    reads kept`next, cfgs`next
  {
    && |fates| == k <= |cfgs| && Threaded(kept, cfgs, k)
    && prev == (if kept == [] then null else kept[|kept| - 1]) && kept == KeptOf(cfgs, fates)
  }

  /** The whole loop state. */
  ghost predicate Underway(env: Env, prev: Kconfig?, slots: array<Condition?>, depth: nat,
                           lists: seq<ConditionList>, stack: seq<Chain>, owners: seq<nat>,
                           cfgs: seq<Kconfig>, conds: seq<ConditionList?>, lines: seq<Line>,
                           guards: seq<ConditionList?>, fates: seq<Fate>, kept: seq<Kconfig>, k: nat, arena: Arena)
    reads slots, lists`ops, lists`nodes, cfgs`cond, cfgs`next, kept`next, arena, arena.lists, arena.nodes
    reads Lists(conds)`ops, Lists(conds)`nodes, Lists(guards)`ops, Lists(guards)`nodes
  {
    && Settled(slots, depth, lists, stack, cfgs, conds, lines, guards, fates, k) && FromEarlier(lists, conds, owners, k)
    && OnCourse(env, lines, k, stack, fates) && Walked(prev, kept, cfgs, fates, k) && Accounted(conds, guards, arena)
  }

  /** The switch leaves the links alone. */
  method SettleWalked(env: Env, cfg: Kconfig, prev: Kconfig?, slots: array<Condition?>, depth: nat,
                      ghost lists: seq<ConditionList>, ghost stack: seq<Chain>, ghost owners: seq<nat>,
                      ghost cfgs: seq<Kconfig>, ghost conds: seq<ConditionList?>, ghost lines: seq<Line>,
                      ghost guards: seq<ConditionList?>, ghost fates: seq<Fate>, ghost kept: seq<Kconfig>,
                      ghost k: nat, ghost arena: Arena)
    returns (good: bool, depth': nat, ghost fate: Fate, ghost guard: ConditionList?, ghost lists': seq<ConditionList>,
             ghost stack': seq<Chain>, ghost owners': seq<nat>)
    requires Settled(slots, depth, lists, stack, cfgs, conds, lines, guards, fates, k)
    requires FromEarlier(lists, conds, owners, k)
    requires Separate(conds) && Positions(cfgs) && |fates| == k < |cfgs| && cfg == cfgs[k]
    requires Accounted(conds, guards, arena)
    requires OnCourse(env, lines, k, stack, fates) && Loaded(lines[k]) && Walked(prev, kept, cfgs, fates, k)
    modifies slots, cfg`cond, Lists(conds), arena, arena.nodes
    ensures Settled(slots, depth', lists', stack', cfgs, conds, lines, guards + [guard], fates + [fate], k + 1)
    ensures FromEarlier(lists', conds, owners', k + 1) && good == fate.Kept? && Walked(prev, kept, cfgs, fates, k)
    ensures OnCourse(env, lines, k + 1, stack', fates + [fate])
    ensures Accounted(conds, guards + [guard], arena)
    ensures forall n :: n in arena.nodes ==> n in old(arena.nodes) || fresh(n)
  {
    good, depth', fate, guard, lists', stack', owners' :=
      Settle(env, cfg, slots, depth, lists, stack, owners, cfgs, conds, lines, guards, fates, k, arena);
  }

  /** Relinking takes the list part of the loop state to the next statement. */
  method RelinkWalked(prev: Kconfig?, cfg: Kconfig, good: bool, ghost fate: Fate, ghost kept: seq<Kconfig>,
                      ghost fates: seq<Fate>, ghost cfgs: seq<Kconfig>, ghost k: nat)
    returns (prev': Kconfig?, ghost kept': seq<Kconfig>)
    requires Walked(prev, kept, cfgs, fates, k) && Positions(cfgs) && k < |cfgs| && cfg == cfgs[k] && good == fate.Kept?
    modifies cfgs`next
    ensures Walked(prev', kept', cfgs, fates + [fate], k + 1) && cfg.next == StatementAt(cfgs, k + 1)
  {
    KeptPush(cfgs, fates, fate);
    prev', kept' := Relink(prev, cfg, good, kept, cfgs, k);
  }

  /** Relinking leaves conditions and lists alone. */
  method ThreadWalked(prev: Kconfig?, cfg: Kconfig, good: bool, ghost fate: Fate, ghost kept: seq<Kconfig>,
                      ghost guards: seq<ConditionList?>, ghost fates: seq<Fate>,
                      slots: array<Condition?>, depth: nat, ghost lists: seq<ConditionList>, ghost stack: seq<Chain>,
                      ghost cfgs: seq<Kconfig>, ghost conds: seq<ConditionList?>, ghost lines: seq<Line>, ghost k: nat,
                      ghost arena: Arena)
    returns (prev': Kconfig?, ghost kept': seq<Kconfig>)
    requires Walked(prev, kept, cfgs, fates, k) && Positions(cfgs) && k < |cfgs| && cfg == cfgs[k] && good == fate.Kept?
    requires Settled(slots, depth, lists, stack, cfgs, conds, lines, guards, fates + [fate], k + 1)
    requires Accounted(conds, guards, arena)
    modifies cfgs`next
    ensures Walked(prev', kept', cfgs, fates + [fate], k + 1) && cfg.next == StatementAt(cfgs, k + 1)
    ensures Settled(slots, depth, lists, stack, cfgs, conds, lines, guards, fates + [fate], k + 1)
    ensures Accounted(conds, guards, arena)
  {
    prev', kept' := RelinkWalked(prev, cfg, good, fate, kept, fates, cfgs, k);
  }

  /** One iteration. */
  method Advance(env: Env, cfg: Kconfig, prev: Kconfig?, slots: array<Condition?>, depth: nat,
                 ghost lists: seq<ConditionList>, ghost stack: seq<Chain>, ghost owners: seq<nat>,
                 ghost cfgs: seq<Kconfig>, ghost conds: seq<ConditionList?>, ghost lines: seq<Line>,
                 ghost guards: seq<ConditionList?>, ghost fates: seq<Fate>, ghost kept: seq<Kconfig>, ghost k: nat,
                 ghost arena: Arena)
    returns (prev': Kconfig?, depth': nat, ghost fate: Fate, ghost guard: ConditionList?, ghost kept': seq<Kconfig>,
             ghost lists': seq<ConditionList>, ghost stack': seq<Chain>, ghost owners': seq<nat>)
    requires Separate(conds) && Positions(cfgs) && k < |cfgs| && cfg == cfgs[k] && k < |lines| && Loaded(lines[k])
    requires Underway(env, prev, slots, depth, lists, stack, owners, cfgs, conds, lines, guards, fates, kept, k, arena)
    modifies slots, cfgs, Lists(conds), arena, arena.nodes
    ensures Underway(env, prev', slots, depth', lists', stack', owners', cfgs, conds, lines,
                     guards + [guard], fates + [fate], kept', k + 1, arena)
    ensures cfg.next == StatementAt(cfgs, k + 1) && forall n :: n in arena.nodes ==> n in old(arena.nodes) || fresh(n)
  {
    var good;
    good, depth', fate, guard, lists', stack', owners' :=
      SettleWalked(env, cfg, prev, slots, depth, lists, stack, owners,
                   cfgs, conds, lines, guards, fates, kept, k, arena);
    prev', kept' := ThreadWalked(prev, cfg, good, fate, kept, guards + [guard], fates, slots, depth', lists', stack',
                                 cfgs, conds, lines, k, arena);
  }

  /** The loop. */
  method WalkStatements(env: Env, scfg: Kconfig?, slots: array<Condition?>,
                        ghost cfgs: seq<Kconfig>, ghost conds: seq<ConditionList?>, ghost lines: seq<Line>,
                        ghost arena: Arena)
    returns (ghost kept: seq<Kconfig>, ghost guards: seq<ConditionList?>)
    requires Positions(cfgs) && Separate(conds) && scfg == StatementAt(cfgs, 0) && |lines| == |cfgs|
    requires Underway(env, null, slots, 0, [], [], [], cfgs, conds, lines, [], [], [], 0, arena)
    requires forall i :: 0 <= i < |lines| ==> Loaded(lines[i])
    modifies slots, cfgs, Lists(conds), arena, arena.nodes
    ensures kept == KeptOf(cfgs, Run(env, lines, [])) && Threaded(kept, cfgs, |cfgs|)
    ensures Attached(cfgs, guards, conds, Run(env, lines, [])) && Accounted(conds, guards, arena)
  {
    var depth, prev: Kconfig?, cfg := 0, null, scfg;
    ghost var lists: seq<ConditionList>, owners: seq<nat>, stack: seq<Chain>, fates: seq<Fate>, k := [], [], [], [], 0;
    kept, guards := [], [];
    while cfg != null
      invariant k <= |cfgs| && cfg == StatementAt(cfgs, k)
      invariant Underway(env, prev, slots, depth, lists, stack, owners,
                         cfgs, conds, lines, guards, fates, kept, k, arena)
      invariant forall n :: n in arena.nodes ==> n in old(arena.nodes) || fresh(n)
      decreases |cfgs| - k
    {
      ghost var fate, guard;
      prev, depth, fate, guard, kept, lists, stack, owners :=
        Advance(env, cfg, prev, slots, depth, lists, stack, owners, cfgs, conds, lines, guards, fates, kept, k, arena);
      guards, fates := guards + [guard], fates + [fate];
      cfg := cfg.next;
      k := k + 1;
    }
    WalkEnds(env, prev, slots, depth, lists, stack, owners, cfgs, conds, lines, guards, fates, kept, k, arena);
  }

  lemma CourseEnds(env: Env, lines: seq<Line>, stack: seq<Chain>, fates: seq<Fate>)
    requires OnCourse(env, lines, |lines|, stack, fates)
    ensures fates == Run(env, lines, [])
  {
    assert lines[|lines|..] == [];
  }

  lemma WalkEnds(env: Env, prev: Kconfig?, slots: array<Condition?>, depth: nat,
                 lists: seq<ConditionList>, stack: seq<Chain>, owners: seq<nat>,
                 cfgs: seq<Kconfig>, conds: seq<ConditionList?>, lines: seq<Line>,
                 guards: seq<ConditionList?>, fates: seq<Fate>, kept: seq<Kconfig>, k: nat, arena: Arena)
    requires Underway(env, prev, slots, depth, lists, stack, owners, cfgs, conds, lines, guards, fates, kept, k, arena)
    requires k == |cfgs| == |lines|
    ensures kept == KeptOf(cfgs, Run(env, lines, [])) && Threaded(kept, cfgs, |cfgs|)
    ensures Attached(cfgs, guards, conds, Run(env, lines, [])) && Accounted(conds, guards, arena)
  {
    CourseEnds(env, lines, stack, fates);
  }

  lemma StartOnCourse(env: Env, lines: seq<Line>)
    requires Nests(lines, 0)
    ensures OnCourse(env, lines, 0, [], [])
  {
    assert lines[0..] == lines;
    assert [] + Run(env, lines, []) == Run(env, lines, []);
  }

  lemma StartSettled(slots: array<Condition?>, cfgs: seq<Kconfig>, conds: seq<ConditionList?>, lines: seq<Line>)
    requires slots.Length == STACK_SIZE && Pending(cfgs, conds, lines, 0)
    ensures Settled(slots, 0, [], [], cfgs, conds, lines, [], [], 0)
  {
  }

  /** The walk with an empty stack of conditions. */
  method RunPass(env: Env, scfg: Kconfig?,
                 ghost cfgs: seq<Kconfig>, ghost conds: seq<ConditionList?>, ghost lines: seq<Line>, ghost arena: Arena)
    returns (ghost kept: seq<Kconfig>, ghost guards: seq<ConditionList?>)
    requires Positions(cfgs) && Separate(conds) && Threaded([], cfgs, 0) && scfg == StatementAt(cfgs, 0)
    requires Pending(cfgs, conds, lines, 0) && OnCourse(env, lines, 0, [], []) && Accounted(conds, [], arena)
    requires forall i :: 0 <= i < |lines| ==> Loaded(lines[i])
    modifies cfgs, Lists(conds), arena, arena.nodes
    ensures kept == KeptOf(cfgs, Run(env, lines, [])) && Threaded(kept, cfgs, |cfgs|)
    ensures Attached(cfgs, guards, conds, Run(env, lines, [])) && Accounted(conds, guards, arena)
  {
    var slots := new Condition?[STACK_SIZE](i => null);
    StartSettled(slots, cfgs, conds, lines);
    kept, guards := WalkStatements(env, scfg, slots, cfgs, conds, lines, arena);
  }

  /**
   * The whole pass. Afterwards the list from the caller's head runs through exactly the statements
   * that the run keeps, and each of them carries its guard in a list of its own.
   */
  method FixConditionals(name: nat -> string, arch: string, scfg: Kconfig?,
                         ghost cfgs: seq<Kconfig>, ghost conds: seq<ConditionList?>, ghost lines: seq<Line>,
                         ghost arena: Arena)
    returns (ghost kept: seq<Kconfig>, ghost guards: seq<ConditionList?>)
    requires Positions(cfgs) && Separate(conds) && Threaded([], cfgs, 0) && scfg == StatementAt(cfgs, 0)
    requires Pending(cfgs, conds, lines, 0) && Nests(lines, 0) && Accounted(conds, [], arena)
    requires forall i :: 0 <= i < |lines| ==> Loaded(lines[i])
    modifies cfgs, Lists(conds), arena, arena.nodes
    ensures kept == KeptOf(cfgs, Fix(name, arch, lines)) && Threaded(kept, cfgs, |cfgs|)
    ensures Attached(cfgs, guards, conds, Fix(name, arch, lines)) && Accounted(conds, guards, arena) && Separate(guards)
  {
    LinesMatch(cfgs, conds, lines);
    var defined := MarkVariables(scfg, cfgs, lines);
    var env := Env(name, defined, arch);
    StartOnCourse(env, lines);
    kept, guards := RunPass(env, scfg, cfgs, conds, lines, arena);
  }

  lemma LinesMatch(cfgs: seq<Kconfig>, conds: seq<ConditionList?>, lines: seq<Line>)
    requires Pending(cfgs, conds, lines, 0)
    ensures forall i :: 0 <= i < |cfgs| ==> lines[i].token == cfgs[i].token && lines[i].nameindex == cfgs[i].nameindex
  {
    forall i | 0 <= i < |cfgs| ensures lines[i].token == cfgs[i].token && lines[i].nameindex == cfgs[i].nameindex {
      assert PendingOne(cfgs[i], conds[i], lines[i]);
    }
  }
}
