/**
 * The "global" declarations in the procedures that config/scripts/tkgen.c generates. The script
 * is a log of events; a global line inside the body of a generated `if` declares the variable
 * only in that body.
 */
module Globals {
  import opened Conditions
  import opened Joining
  import opened Flattening
  import T = Tokenizer
  import opened Dependencies

  // ---- generated procedures ----

  datatype Event =
    | Proc              // a new procedure begins
    | Global(v: nat)
    | Use(v: nat)       // the variable is read or set
    | Write(v: nat)     // the variable is written to the configuration
    | Enter             // the body of an `if`
    | Leave

  /** Variables declared in the current procedure: unconditionally, and in the body being written. */
  datatype Scope = Scope(top: set<nat>, inner: set<nat>, nested: bool)

  function After(s: Scope, e: Event): Scope {
    match e
    case Proc => Scope({}, {}, false)
    case Global(v) => if s.nested then s.(inner := s.inner + {v}) else s.(top := s.top + {v})
    case Use(_) => s
    case Write(_) => s
    case Enter => s.(inner := {}, nested := true)
    case Leave => s.(inner := {}, nested := false)
  }

  function ScopeOf(log: seq<Event>): Scope {
    if log == [] then Scope({}, {}, false) else After(ScopeOf(log[..|log| - 1]), log[|log| - 1])
  }

  predicate Declared(s: Scope, v: nat) { v in s.top || v in s.inner }

  /** Every use is of a declared variable. */
  predicate Good(log: seq<Event>) {
    log == [] || (Good(log[..|log| - 1])
                  && (log[|log| - 1].Use? ==> Declared(ScopeOf(log[..|log| - 1]), log[|log| - 1].v)))
  }

  /** A global line for v at j, outside any body, and no new procedure before k. */
  predicate TopAt(log: seq<Event>, j: nat, k: nat, v: nat)
    requires j < k <= |log|
  {
    log[j] == Global(v) && !ScopeOf(log[..j]).nested && forall i :: j < i < k ==> log[i] != Proc
  }

  /** A global line for v at j, and no body or procedure begins or ends before k. */
  predicate InnerAt(log: seq<Event>, j: nat, k: nat, v: nat)
    requires j < k <= |log|
  {
    log[j] == Global(v) && forall i :: j < i < k ==> log[i].Global? || log[i].Use? || log[i].Write?
  }

  lemma {:induction false} TopInForce(log: seq<Event>, v: nat)
    requires v in ScopeOf(log).top
    ensures exists j :: 0 <= j < |log| && TopAt(log, j, |log|, v)
    decreases |log|
  {
    var n := |log| - 1;
    var front := log[..n];
    if v in ScopeOf(front).top {
      TopInForce(front, v);
      var j :| 0 <= j < |front| && TopAt(front, j, |front|, v);
      assert front[..j] == log[..j];
      assert TopAt(log, j, |log|, v);
    } else {
      assert TopAt(log, n, |log|, v);
    }
  }

  lemma {:induction false} InnerInForce(log: seq<Event>, v: nat)
    requires v in ScopeOf(log).inner
    ensures exists j :: 0 <= j < |log| && InnerAt(log, j, |log|, v)
    decreases |log|
  {
    var n := |log| - 1;
    var front := log[..n];
    if log[n] == Global(v) {
      assert InnerAt(log, n, |log|, v);
    } else {
      InnerInForce(front, v);
      var j :| 0 <= j < |front| && InnerAt(front, j, |front|, v);
      assert InnerAt(log, j, |log|, v);
    }
  }

  lemma {:induction false} GoodPrefix(log: seq<Event>, k: nat)
    requires Good(log) && k <= |log|
    ensures Good(log[..k])
    decreases |log|
  {
    if k < |log| {
      GoodPrefix(log[..|log| - 1], k);
      assert log[..|log| - 1][..k] == log[..k];
    } else {
      assert log[..k] == log;
    }
  }

  /** In a good log every use has a global line earlier in the same procedure, in force at the use. */
  lemma UsesDeclared(log: seq<Event>, k: nat)
    requires Good(log) && k < |log| && log[k].Use?
    ensures exists j :: 0 <= j < k && (TopAt(log, j, k, log[k].v) || InnerAt(log, j, k, log[k].v))
  {
    GoodPrefix(log, k + 1);
    var front, v := log[..k], log[k].v;
    assert log[..k + 1][..k] == front;
    if v in ScopeOf(front).top {
      TopInForce(front, v);
      var j :| 0 <= j < |front| && TopAt(front, j, k, v);
      TopLonger(log, j, k, v);
    } else {
      InnerInForce(front, v);
      var j :| 0 <= j < |front| && InnerAt(front, j, k, v);
      assert InnerAt(log, j, k, v);
    }
  }

  lemma TopLonger(log: seq<Event>, j: nat, k: nat, v: nat)
    requires j < k <= |log| && TopAt(log[..k], j, k, v)
    ensures TopAt(log, j, k, v)
  {
    assert log[..k][..j] == log[..j];
  }

  lemma Emitted(log: seq<Event>, e: Event)
    ensures ScopeOf(log + [e]) == After(ScopeOf(log), e)
    ensures Good(log + [e]) <==> Good(log) && (e.Use? ==> Declared(ScopeOf(log), e.v))
    ensures Plain(log + [e]) == Plain(log) + if e.Global? then [] else [e]
  {
    assert (log + [e])[..|log|] == log;
  }

  // ---- statements ----

  datatype Reference = NoVariable | Names(index: nat)

  /**
   * What the generator needs of a statement. If the value field names a variable, value is that
   * variable; refs are the variables that the script reads where the text of the value is printed.
   */
  datatype Item = Item(token: Keyword, name: int, cond: Chain, deps: seq<nat>,
                       value: Reference, refs: seq<nat>, menu: int, line: int)

  predicate SetsValue(k: Keyword) { k.DefineBool? || k.DefineTristate? }

  /** The text of the value is printed as it was read. */
  predicate PrintsText(k: Keyword) { k.DefineHex? || k.DefineInt? || k.DefineString? }

  predicate IsDefinition(k: Keyword) { SetsValue(k) || PrintsText(k) || k.Unset? }

  /** Statements of a variable have its index; define_bool and define_tristate name another one. */
  predicate Complete(item: Item) {
    && (Defines(item.token) ==> item.name > 0)
    && (SetsValue(item.token) ==> item.value.Names?)
    && item.line >= -1
  }

  predicate AllComplete(items: seq<Item>) { forall i :: 0 <= i < |items| ==> Complete(items[i]) }

  /** Tokens for which update_define_menuN recomputes the variable. */
  predicate Recomputed(k: Keyword) {
    (Defines(k) && !k.ChoiceItem? && !k.String?) || k.MainmenuOption?
  }

  /** Tokens that writeconfig writes out. */
  predicate Reported(k: Keyword) {
    (Defines(k) && !k.ChoiceItem? && !k.Unset?) || k.ChoiceHeader? || k.Comment?
  }

  /** Tokens whose own variable is read when they are written out. */
  predicate ReadsItself(k: Keyword) { k.Bool? || k.Tristate? || k.Hex? || k.Int? || k.String? }

  function CondVars(c: Chain): set<nat> {
    set i | 0 <= i < |c| && c[i].Variable? :: c[i].nameindex
  }

  predicate AllIn(vs: seq<nat>, s: set<nat>) { forall i :: 0 <= i < |vs| ==> vs[i] in s }

  function NameSet(item: Item): set<nat> { if item.name > 0 then {item.name} else {} }

  /** Variables read through the value where the variable is recomputed. */
  function TextRead(item: Item): seq<nat>
    requires Complete(item)
  {
    if SetsValue(item.token) then [item.value.index]
    else if PrintsText(item.token) || item.token.Hex? || item.token.Int? then item.refs
    else []
  }

  /** The one of them that gets a global line in the body. */
  function TextDeclared(item: Item): set<nat> {
    if (SetsValue(item.token) || item.token.Hex? || item.token.Int?) && item.value.Names?
    then {item.value.index} else {}
  }

  /** generate_if returns at once. */
  predicate NoIf(item: Item, line: int) {
    if line >= -1 then IsDefinition(item.token) || (item.token.Comment? && line == -1)
    else item.token.String? || item.token.MainmenuOption?
  }

  // ---- the procedures without their global lines ----

  function Plain(log: seq<Event>): seq<Event> {
    if log == [] then []
    else Plain(log[..|log| - 1]) + if log[|log| - 1].Global? then [] else [log[|log| - 1]]
  }

  /** The script so far, followed by uses of the variables vs. */
  function UsesOn(script: seq<Event>, vs: seq<nat>): seq<Event> {
    if vs == [] then script else UsesOn(script, vs[..|vs| - 1]) + [Use(vs[|vs| - 1])]
  }

  /** Followed by the condition c. */
  function CondOn(script: seq<Event>, c: Chain): seq<Event> {
    if c == [] then script
    else
      var before, t := CondOn(script, c[..|c| - 1]), c[|c| - 1];
      if t.Variable? then before + [Use(t.nameindex)] else before
  }

  /** Followed by the synchronization of a dependent variable. */
  function DepsOn(script: seq<Event>, item: Item): seq<Event>
    requires Complete(item)
  {
    if IsDependent(item.token) then UsesOn(script, item.deps) + [Use(item.name)] else script
  }

  /** Followed by the body that enables or disables a widget. */
  function WidgetOn(script: seq<Event>, item: Item, modules: nat): seq<Event>
    requires Complete(item)
  {
    var s := DepsOn(script, item);
    if item.token.DepTristate? || item.token.Tristate? then s + [Use(modules)] else s
  }

  /** Followed by the body that recomputes a variable. */
  function DefineOn(script: seq<Event>, item: Item, modules: nat): seq<Event>
    requires Complete(item)
  {
    var s := UsesOn(DepsOn(script, item), TextRead(item));
    var s' := if item.token.Tristate? then s + [Use(modules)] else s;
    if Defines(item.token) then s' + [Use(item.name)] else s'
  }

  function BodyOn(script: seq<Event>, item: Item, line: int, modules: nat): seq<Event>
    requires Complete(item)
  {
    var s := script + [Enter];
    (if line >= -1 then WidgetOn(s, item, modules) else DefineOn(s, item, modules)) + [Leave]
  }

  /** Followed by a conditional. */
  function IfOn(script: seq<Event>, item: Item, line: int, modules: nat): seq<Event>
    requires Complete(item)
  {
    if NoIf(item, line) then script else BodyOn(CondOn(script, item.cond), item, line, modules)
  }

  function UpdateOn(script: seq<Event>, item: Item, menu: int, modules: nat): seq<Event>
    requires Complete(item)
  {
    if item.menu != menu || item.token.ChoiceItem? then script
    else if item.cond != [] then IfOn(script, item, item.line, modules)
    else if item.token.Tristate? then script + [Use(modules)]
    else script
  }

  /** Followed by proc update_menuN, up to statement k. */
  function MenuOn(script: seq<Event>, items: seq<Item>, k: nat, menu: int, modules: nat): seq<Event>
    requires AllComplete(items) && k <= |items|
  {
    if k == 0 then script + [Proc]
    else UpdateOn(MenuOn(script, items, k - 1, menu, modules), items[k - 1], menu, modules)
  }

  /** The end of the run of choice items that starts at k. */
  function ChoicesEnd(items: seq<Item>, k: nat): (e: nat)
    requires k <= |items|
    ensures k <= e <= |items|
    decreases |items| - k
  {
    if k < |items| && items[k].token.ChoiceItem? then ChoicesEnd(items, k + 1) else k
  }

  lemma {:induction false} ChoiceItems(items: seq<Item>, first: nat, k: nat)
    requires first <= |items| && first <= k < ChoicesEnd(items, first)
    ensures items[k].token.ChoiceItem?
    decreases k - first
  {
    if first < k { ChoiceItems(items, first + 1, k); }
  }

  /** The variables of the choice items from first to k. */
  function ChoiceNames(items: seq<Item>, first: nat, k: nat): seq<nat>
    requires AllComplete(items) && first <= |items| && first <= k <= ChoicesEnd(items, first)
    decreases k
  {
    if k == first then []
    else
      ChoiceItems(items, first, k - 1);
      ChoiceNames(items, first, k - 1) + [items[k - 1].name]
  }

  function ChoicesOf(items: seq<Item>, first: nat): seq<nat>
    requires AllComplete(items) && first <= |items|
  {
    ChoiceNames(items, first, ChoicesEnd(items, first))
  }

  /** Followed by the recomputation of a variable without a condition. */
  function PlainOn(script: seq<Event>, item: Item, modules: nat): seq<Event>
    requires Complete(item)
  {
    if item.token.Tristate? then script + [Use(modules)] + [Use(item.name)]
    else if IsDefinition(item.token) then UsesOn(script + [Use(item.name)], TextRead(item))
    else script
  }

  function RecomputeOn(script: seq<Event>, item: Item, modules: nat): seq<Event>
    requires Complete(item)
  {
    if item.cond != [] then IfOn(script, item, -2, modules) else PlainOn(script, item, modules)
  }

  predicate SwitchedOff(item: Item, menu: int) {
    item.menu == menu && item.cond != [] && (item.token.Bool? || item.token.Tristate?)
  }

  function OffOn(script: seq<Event>, items: seq<Item>, k: nat, menu: int): seq<Event>
    requires AllComplete(items) && k <= |items|
  {
    if k == 0 then script
    else
      var s := OffOn(script, items, k - 1, menu);
      if SwitchedOff(items[k - 1], menu) then s + [Use(items[k - 1].name)] else s
  }

  /** Followed by what statement k contributes to proc update_define_menuN. */
  function DefineOneOn(script: seq<Event>, items: seq<Item>, k: nat, menu: int, modules: nat): seq<Event>
    requires AllComplete(items) && k < |items|
  {
    if items[k].menu != menu then script
    else if items[k].token.ChoiceHeader? then UsesOn(script, ChoicesOf(items, k + 1))
    else if Recomputed(items[k].token) then RecomputeOn(script, items[k], modules)
    else script
  }

  function DefineAllOn(script: seq<Event>, items: seq<Item>, k: nat, menu: int, modules: nat): seq<Event>
    requires AllComplete(items) && k <= |items|
  {
    if k == 0 then OffOn(script + [Proc], items, |items|, menu)
    else DefineOneOn(DefineAllOn(script, items, k - 1, menu, modules), items, k - 1, menu, modules)
  }

  predicate TopMenu(item: Item) { item.token.MainmenuOption? && item.cond != [] && item.menu == 0 }

  function MainmenuOn(script: seq<Event>, items: seq<Item>, k: nat, modules: nat): seq<Event>
    requires AllComplete(items) && k <= |items|
  {
    if k == 0 then script + [Proc]
    else
      var s := MainmenuOn(script, items, k - 1, modules);
      if TopMenu(items[k - 1]) then IfOn(s, items[k - 1], -1, modules) else s
  }

  /** Followed by what writes out statement k. */
  function WriteOn(script: seq<Event>, items: seq<Item>, k: nat): seq<Event>
    requires AllComplete(items) && k < |items|
  {
    ValueOn(CondOn(script, items[k].cond), items, k)
  }

  /** Followed by lines that write the variables vs. */
  function WritesOn(script: seq<Event>, vs: seq<nat>): seq<Event> {
    if vs == [] then script else WritesOn(script, vs[..|vs| - 1]) + [Write(vs[|vs| - 1])]
  }

  /** Followed by what is written out of a statement's value; a choice writes its items. */
  function ValueOn(script: seq<Event>, items: seq<Item>, k: nat): seq<Event>
    requires AllComplete(items) && k < |items|
  {
    var item := items[k];
    if item.token.ChoiceHeader? then WritesOn(script, ChoicesOf(items, k + 1)) else ItemOn(script, item)
  }

  function ItemOn(script: seq<Event>, item: Item): seq<Event>
    requires Complete(item)
  {
    if SetsValue(item.token) then
      script + [Write(item.name)] + [Use(if item.cond == [] then item.name else item.value.index)]
    else if IsDependent(item.token) then UsesOn(script + [Write(item.name)] + [Use(item.name)], item.deps)
    else if PrintsText(item.token) then UsesOn(script + [Write(item.name)], item.refs)
    else if ReadsItself(item.token) then script + [Write(item.name)] + [Use(item.name)]
    else script
  }

  function ConfigOn(script: seq<Event>, items: seq<Item>, k: nat): seq<Event>
    requires AllComplete(items) && k <= |items|
  {
    if k == 0 then script + [Proc]
    else
      var s := ConfigOn(script, items, k - 1);
      if Reported(items[k - 1].token) then WriteOn(s, items, k - 1) else s
  }

  /** The procedures of menus 1 to m. */
  function MenusOn(script: seq<Event>, items: seq<Item>, m: nat, modules: nat): seq<Event>
    requires AllComplete(items)
  {
    if m == 0 then script
    else
      var s := MenuOn(MenusOn(script, items, m - 1, modules), items, |items|, m, modules);
      DefineAllOn(s, items, |items|, m, modules)
  }

  /** All procedures. */
  function ProceduresOn(script: seq<Event>, items: seq<Item>, total: nat, modules: nat): seq<Event>
    requires AllComplete(items)
  {
    var s := MainmenuOn(MenusOn(script, items, total, modules), items, |items|, modules);
    DefineAllOn(ConfigOn(s, items, |items|), items, |items|, 0, modules)
  }

  // ---- which variables have a global line by when ----

  /** Global lines that writing out a statement leads to. */
  function Announced(item: Item): set<nat>
    requires Complete(item)
  {
    (if !item.token.Comment? then NameSet(item) else {})
    + (if SetsValue(item.token) then {item.value.index} else {}) + CondVars(item.cond)
  }

  function AnnouncedBefore(items: seq<Item>, k: nat): set<nat>
    requires AllComplete(items) && k <= |items|
  {
    if k == 0 then {}
    else AnnouncedBefore(items, k - 1) + if Reported(items[k - 1].token) then Announced(items[k - 1]) else {}
  }

  /** What statement k reads besides what it announces has been announced before. */
  predicate WriteKnown(items: seq<Item>, k: nat)
    requires AllComplete(items) && k < |items|
  {
    && (IsDependent(items[k].token) ==> AllIn(items[k].deps, AnnouncedBefore(items, k + 1)))
    && (PrintsText(items[k].token) ==> AllIn(items[k].refs, AnnouncedBefore(items, k + 1)))
  }

  /** proc update_define_menuN sets the variable of the statement. */
  predicate IsSet(item: Item, menu: int) { item.menu == menu && (IsDefinition(item.token) || item.token.Tristate?) }

  /** Variables that proc update_define_menuN sets, among the first k statements. */
  function SetNames(items: seq<Item>, k: nat, menu: int): set<nat>
    requires AllComplete(items) && k <= |items|
  {
    if k == 0 then {}
    else SetNames(items, k - 1, menu) + if IsSet(items[k - 1], menu) then {items[k - 1].name} else {}
  }

  function OffNames(items: seq<Item>, k: nat, menu: int): set<nat>
    requires AllComplete(items) && k <= |items|
  {
    if k == 0 then {}
    else OffNames(items, k - 1, menu) + if SwitchedOff(items[k - 1], menu) then {items[k - 1].name} else {}
  }

  /** Global lines of a conditional, outside its body. */
  function IfWrites(item: Item, line: int): set<nat> {
    if NoIf(item, line) then {} else CondVars(item.cond) + NameSet(item)
  }

  function ToSet(vs: seq<nat>): set<nat> { set v | v in vs }

  function RecomputeWrites(item: Item): set<nat>
    requires Complete(item)
  {
    if item.cond != [] then IfWrites(item, -2) else if SetsValue(item.token) then {item.value.index} else {}
  }

  function DefineWrites(items: seq<Item>, k: nat, menu: int): set<nat>
    requires AllComplete(items) && k < |items|
  {
    if items[k].menu != menu then {}
    else if items[k].token.ChoiceHeader? then ToSet(ChoicesOf(items, k + 1))
    else if Recomputed(items[k].token) then RecomputeWrites(items[k])
    else {}
  }

  /** The variables with a global line in proc update_define_menuN before it comes to statement k. */
  function DefinedBefore(items: seq<Item>, k: nat, menu: int, modules: nat): set<nat>
    requires AllComplete(items) && k <= |items|
  {
    if k == 0 then {modules} + SetNames(items, |items|, menu) + OffNames(items, |items|, menu)
    else DefinedBefore(items, k - 1, menu, modules) + DefineWrites(items, k - 1, menu)
  }

  /** What the value reads is declared, given the variables declared before the statement. */
  predicate TextKnown(item: Item, declared: set<nat>)
    requires Complete(item)
  {
    if item.cond != [] then NoIf(item, -2) || AllIn(TextRead(item), declared + IfWrites(item, -2) + TextDeclared(item))
    else PrintsText(item.token) ==> AllIn(item.refs, declared)
  }

  predicate DefineKnown(items: seq<Item>, k: nat, menu: int, modules: nat)
    requires AllComplete(items) && k < |items|
  {
    items[k].menu == menu && Recomputed(items[k].token) ==> TextKnown(items[k], DefinedBefore(items, k, menu, modules))
  }

  predicate WritesKnown(items: seq<Item>, n: nat)
    requires AllComplete(items) && n <= |items|
  {
    forall k {:trigger WriteKnown(items, k)} :: 0 <= k < n && Reported(items[k].token) ==> WriteKnown(items, k)
  }

  predicate DefinesKnown(items: seq<Item>, n: nat, menu: int, modules: nat)
    requires AllComplete(items) && n <= |items|
  {
    forall k {:trigger DefineKnown(items, k, menu, modules)} :: 0 <= k < n ==> DefineKnown(items, k, menu, modules)
  }

  predicate MenusKnown(items: seq<Item>, total: nat, modules: nat)
    requires AllComplete(items)
  {
    forall m {:trigger DefinesKnown(items, |items|, m, modules)} :: 1 <= m <= total ==>
      DefinesKnown(items, |items|, m, modules)
  }

  /**
   * Exactly what the flags do not take care of: dependencies of a statement that is written out,
   * and variables in the text of a value.
   */
  predicate AllKnown(items: seq<Item>, total: nat, modules: nat)
    requires AllComplete(items)
  {
    WritesKnown(items, |items|) && DefinesKnown(items, |items|, 0, modules) && MenusKnown(items, total, modules)
  }

  // ---- what the procedures use, without their order ----

  predicate Uses(script: seq<Event>, v: nat) { Use(v) in script }

  lemma {:induction false} UsesOnUses(script: seq<Event>, vs: seq<nat>, v: nat)
    ensures Uses(UsesOn(script, vs), v) <==> Uses(script, v) || v in vs
    decreases |vs|
  {
    if vs != [] {
      UsesOnUses(script, vs[..|vs| - 1], v);
      assert vs == vs[..|vs| - 1] + [vs[|vs| - 1]];
    }
  }

  lemma {:induction false} CondOnUses(script: seq<Event>, c: Chain, v: nat)
    ensures Uses(CondOn(script, c), v) <==> Uses(script, v) || Token.Variable(v) in c
    decreases |c|
  {
    if c != [] {
      CondOnUses(script, c[..|c| - 1], v);
      assert c == c[..|c| - 1] + [c[|c| - 1]];
    }
  }

  /** A conditional uses its condition; for a widget, dependencies and modules; else also the value and the variable. */
  predicate IfUses(item: Item, line: int, modules: nat, v: nat)
    requires Complete(item)
  {
    && !NoIf(item, line)
    && (|| Token.Variable(v) in item.cond
        || (IsDependent(item.token) && (v in item.deps || v == item.name))
        || (item.token.Tristate? && v == modules)
        || (line >= -1 && item.token.DepTristate? && v == modules)
        || (line < -1 && (v in TextRead(item) || (Defines(item.token) && v == item.name))))
  }

  lemma DepsOnUses(script: seq<Event>, item: Item, v: nat)
    requires Complete(item)
    ensures Uses(DepsOn(script, item), v) <==>
            Uses(script, v) || (IsDependent(item.token) && (v in item.deps || v == item.name))
  {
    UsesOnUses(script, item.deps, v);
  }

  lemma BodyUses(script: seq<Event>, item: Item, line: int, modules: nat, v: nat)
    requires Complete(item) && !NoIf(item, line)
    ensures Uses(BodyOn(script, item, line, modules), v) || Token.Variable(v) in item.cond <==>
            Uses(script, v) || IfUses(item, line, modules, v)
  {
    var s := script + [Enter];
    assert Uses(s, v) <==> Uses(script, v);
    DepsOnUses(s, item, v);
    UsesOnUses(DepsOn(s, item), TextRead(item), v);
  }

  lemma IfOnUses(script: seq<Event>, item: Item, line: int, modules: nat, v: nat)
    requires Complete(item)
    ensures Uses(IfOn(script, item, line, modules), v) <==> Uses(script, v) || IfUses(item, line, modules, v)
  {
    if !NoIf(item, line) {
      CondOnUses(script, item.cond, v);
      BodyUses(CondOn(script, item.cond), item, line, modules, v);
      if Uses(CondOn(script, item.cond), v) { BodyKeeps(CondOn(script, item.cond), item, line, modules, v); }
    }
  }

  lemma BodyKeeps(script: seq<Event>, item: Item, line: int, modules: nat, v: nat)
    requires Complete(item) && Uses(script, v)
    ensures Uses(BodyOn(script, item, line, modules), v)
  {
    var s := script + [Enter];
    assert Uses(s, v);
    DepsOnUses(s, item, v);
    UsesOnUses(DepsOn(s, item), TextRead(item), v);
  }

  /** What a statement reads in the window of its menu. */
  predicate UpdateUses(item: Item, modules: nat, v: nat) {
    match item.token
    case ChoiceItem => false
    case DefineBool => false
    case DefineTristate => false
    case DefineHex => false
    case DefineInt => false
    case DefineString => false
    case Unset => false
    case Comment => item.line != -1 && Token.Variable(v) in item.cond
    case Tristate => Token.Variable(v) in item.cond || v == modules
    case DepBool => item.cond != [] && (Token.Variable(v) in item.cond || v in item.deps || v == item.name)
    case DepMbool => item.cond != [] && (Token.Variable(v) in item.cond || v in item.deps || v == item.name)
    case DepTristate =>
      item.cond != [] && (Token.Variable(v) in item.cond || v in item.deps || v == item.name || v == modules)
    case _ => Token.Variable(v) in item.cond
  }

  lemma UpdateOnUses(script: seq<Event>, item: Item, menu: int, modules: nat, v: nat)
    requires Complete(item)
    ensures Uses(UpdateOn(script, item, menu, modules), v) <==>
            Uses(script, v) || (item.menu == menu && UpdateUses(item, modules, v))
  {
    IfOnUses(script, item, item.line, modules, v);
  }

  /** Some statement before k of the menu has a widget that uses v. */
  predicate AnyUpdate(items: seq<Item>, k: nat, menu: int, modules: nat, v: nat)
    requires AllComplete(items) && k <= |items|
  {
    exists i {:trigger items[i]} :: 0 <= i < k && items[i].menu == menu && UpdateUses(items[i], modules, v)
  }

  lemma {:induction false} MenuOnUses(script: seq<Event>, items: seq<Item>, k: nat, menu: int, modules: nat, v: nat)
    requires AllComplete(items) && k <= |items|
    ensures Uses(MenuOn(script, items, k, menu, modules), v) <==>
              Uses(script, v) || AnyUpdate(items, k, menu, modules, v)
  {
    if k == 0 {
      assert Uses(script + [Proc], v) <==> Uses(script, v);
    } else {
      MenuOnUses(script, items, k - 1, menu, modules, v);
      UpdateOnUses(MenuOn(script, items, k - 1, menu, modules), items[k - 1], menu, modules, v);
    }
  }

  /** What a statement reads where the variables of its menu are recomputed. */
  predicate DefineUses(items: seq<Item>, i: nat, modules: nat, v: nat)
    requires AllComplete(items) && i < |items|
  {
    var item := items[i];
    var tested := Token.Variable(v) in item.cond;
    match item.token
    case Bool => item.cond != [] && (tested || v == item.name)
    case Tristate => tested || v == item.name || v == modules
    case Hex => item.cond != [] && (tested || v == item.name || v in item.refs)
    case Int => item.cond != [] && (tested || v == item.name || v in item.refs)
    case DepBool => item.cond != [] && (tested || v == item.name || v in item.deps)
    case DepMbool => item.cond != [] && (tested || v == item.name || v in item.deps)
    case DepTristate => item.cond != [] && (tested || v == item.name || v in item.deps)
    case DefineBool => tested || v == item.name || v == item.value.index
    case DefineTristate => tested || v == item.name || v == item.value.index
    case DefineHex => tested || v == item.name || v in item.refs
    case DefineInt => tested || v == item.name || v in item.refs
    case DefineString => tested || v == item.name || v in item.refs
    case Unset => tested || v == item.name
    case ChoiceHeader => IsChoice(items, i, v)
    case _ => false
  }

  lemma DefineOneOnUses(script: seq<Event>, items: seq<Item>, k: nat, menu: int, modules: nat, v: nat)
    requires AllComplete(items) && k < |items|
    ensures Uses(DefineOneOn(script, items, k, menu, modules), v) <==>
            Uses(script, v) || (items[k].menu == menu && DefineUses(items, k, modules, v))
  {
    var item := items[k];
    UsesOnUses(script, ChoicesOf(items, k + 1), v);
    ChoicesAre(items, k, v);
    IfOnUses(script, item, -2, modules, v);
    PlainOnUses(script, item, modules, v);
  }

  lemma PlainOnUses(script: seq<Event>, item: Item, modules: nat, v: nat)
    requires Complete(item)
    ensures Uses(PlainOn(script, item, modules), v) <==>
            || Uses(script, v)
            || (item.token.Tristate? && (v == modules || v == item.name))
            || (IsDefinition(item.token) && (v == item.name || v in TextRead(item)))
  {
    if IsDefinition(item.token) {
      UsesOnUses(script + [Use(item.name)], TextRead(item), v);
      assert Uses(script + [Use(item.name)], v) <==> Uses(script, v) || v == item.name;
    }
  }

  predicate AnyOff(items: seq<Item>, k: nat, menu: int, v: nat)
    requires k <= |items|
  {
    exists i {:trigger items[i]} :: 0 <= i < k && items[i].menu == menu && items[i].cond != []
                                    && (items[i].token.Bool? || items[i].token.Tristate?) && v == items[i].name
  }

  lemma {:induction false} OffOnUses(script: seq<Event>, items: seq<Item>, k: nat, menu: int, v: nat)
    requires AllComplete(items) && k <= |items|
    ensures Uses(OffOn(script, items, k, menu), v) <==> Uses(script, v) || AnyOff(items, k, menu, v)
  {
    if k > 0 { OffOnUses(script, items, k - 1, menu, v); }
  }

  /** Some statement before k of the menu is recomputed with v. */
  predicate AnyDefine(items: seq<Item>, k: nat, menu: int, modules: nat, v: nat)
    requires AllComplete(items) && k <= |items|
  {
    exists i {:trigger items[i]} :: 0 <= i < k && items[i].menu == menu && DefineUses(items, i, modules, v)
  }

  lemma {:induction false} DefineAllOnUses(script: seq<Event>, items: seq<Item>, k: nat, menu: int, modules: nat,
                                           v: nat)
    requires AllComplete(items) && k <= |items|
    ensures Uses(DefineAllOn(script, items, k, menu, modules), v) <==>
            Uses(script, v) || AnyOff(items, |items|, menu, v) || AnyDefine(items, k, menu, modules, v)
  {
    if k == 0 {
      OffOnUses(script + [Proc], items, |items|, menu, v);
      assert Uses(script + [Proc], v) <==> Uses(script, v);
    } else {
      DefineAllOnUses(script, items, k - 1, menu, modules, v);
      DefineOneOnUses(DefineAllOn(script, items, k - 1, menu, modules), items, k - 1, menu, modules, v);
    }
  }

  predicate AnyTop(items: seq<Item>, k: nat, modules: nat, v: nat)
    requires AllComplete(items) && k <= |items|
  {
    exists i {:trigger items[i]} :: 0 <= i < k && items[i].token.MainmenuOption? && items[i].menu == 0
                                    && Token.Variable(v) in items[i].cond
  }

  lemma {:induction false} MainmenuOnUses(script: seq<Event>, items: seq<Item>, k: nat, modules: nat, v: nat)
    requires AllComplete(items) && k <= |items|
    ensures Uses(MainmenuOn(script, items, k, modules), v) <==> Uses(script, v) || AnyTop(items, k, modules, v)
  {
    if k == 0 {
      assert Uses(script + [Proc], v) <==> Uses(script, v);
    } else {
      MainmenuOnUses(script, items, k - 1, modules, v);
      IfOnUses(MainmenuOn(script, items, k - 1, modules), items[k - 1], -1, modules, v);
    }
  }

  /** What a statement reads where it is written out. */
  predicate WriteUses(item: Item, v: nat)
    requires Complete(item)
  {
    var tested := Token.Variable(v) in item.cond;
    match item.token
    case Bool => tested || v == item.name
    case Tristate => tested || v == item.name
    case Hex => tested || v == item.name
    case Int => tested || v == item.name
    case String => tested || v == item.name
    case DepBool => tested || v == item.name || v in item.deps
    case DepMbool => tested || v == item.name || v in item.deps
    case DepTristate => tested || v == item.name || v in item.deps
    case DefineBool => tested || v == if item.cond == [] then item.name else item.value.index
    case DefineTristate => tested || v == if item.cond == [] then item.name else item.value.index
    case DefineHex => tested || v in item.refs
    case DefineInt => tested || v in item.refs
    case DefineString => tested || v in item.refs
    case ChoiceHeader => tested
    case Comment => tested
    case _ => false
  }

  predicate ItemReads(item: Item, v: nat)
    requires Complete(item)
  {
    || (SetsValue(item.token) && v == if item.cond == [] then item.name else item.value.index)
    || (IsDependent(item.token) && (v == item.name || v in item.deps))
    || (PrintsText(item.token) && v in item.refs)
    || (ReadsItself(item.token) && v == item.name)
  }

  lemma {:induction false} WritesOnUses(script: seq<Event>, vs: seq<nat>, v: nat)
    ensures Uses(WritesOn(script, vs), v) <==> Uses(script, v)
    ensures Write(v) in WritesOn(script, vs) <==> Write(v) in script || v in vs
    decreases |vs|
  {
    if vs != [] {
      WritesOnUses(script, vs[..|vs| - 1], v);
      assert vs == vs[..|vs| - 1] + [vs[|vs| - 1]];
    }
  }

  lemma ItemOnUses(script: seq<Event>, item: Item, v: nat)
    requires Complete(item)
    ensures Uses(ItemOn(script, item), v) <==> Uses(script, v) || ItemReads(item, v)
  {
    if IsDependent(item.token) { UsesOnUses(script + [Write(item.name)] + [Use(item.name)], item.deps, v); }
    UsesOnUses(script + [Write(if item.name > 0 then item.name else 0)], item.refs, v);
  }

  lemma WriteOnUses(script: seq<Event>, items: seq<Item>, k: nat, v: nat)
    requires AllComplete(items) && k < |items| && Reported(items[k].token)
    ensures Uses(WriteOn(script, items, k), v) <==> Uses(script, v) || WriteUses(items[k], v)
  {
    var s := CondOn(script, items[k].cond);
    CondOnUses(script, items[k].cond, v);
    if items[k].token.ChoiceHeader? {
      WritesOnUses(s, ChoicesOf(items, k + 1), v);
    } else {
      ItemOnUses(s, items[k], v);
    }
  }

  predicate AnyWrite(items: seq<Item>, k: nat, v: nat)
    requires AllComplete(items) && k <= |items|
  {
    exists i {:trigger items[i]} :: 0 <= i < k && WriteUses(items[i], v)
  }

  lemma {:induction false} ConfigOnUses(script: seq<Event>, items: seq<Item>, k: nat, v: nat)
    requires AllComplete(items) && k <= |items|
    ensures Uses(ConfigOn(script, items, k), v) <==> Uses(script, v) || AnyWrite(items, k, v)
  {
    if k == 0 {
      assert Uses(script + [Proc], v) <==> Uses(script, v);
    } else {
      ConfigOnUses(script, items, k - 1, v);
      if Reported(items[k - 1].token) { WriteOnUses(ConfigOn(script, items, k - 1), items, k - 1, v); }
    }
  }

  /** Some procedure of menu m uses v. */
  predicate MenuUses(items: seq<Item>, m: nat, modules: nat, v: nat)
    requires AllComplete(items)
  {
    AnyUpdate(items, |items|, m, modules, v) || AnyOff(items, |items|, m, v) || AnyDefine(items, |items|, m, modules, v)
  }

  lemma {:induction false} MenusOnUses(script: seq<Event>, items: seq<Item>, m: nat, modules: nat, v: nat)
    requires AllComplete(items)
    ensures Uses(MenusOn(script, items, m, modules), v) <==>
            Uses(script, v) ||
            exists n {:trigger MenuUses(items, n, modules, v)} :: 1 <= n <= m && MenuUses(items, n, modules, v)
  {
    if m > 0 {
      MenusOnUses(script, items, m - 1, modules, v);
      var before := MenusOn(script, items, m - 1, modules);
      MenuOnUses(before, items, |items|, m, modules, v);
      DefineAllOnUses(MenuOn(before, items, |items|, m, modules), items, |items|, m, modules, v);
      assert MenuUses(items, m, modules, v) || !MenuUses(items, m, modules, v);
    }
  }

  /**
   * A variable is used by the generated procedures exactly when some statement calls for it: in a
   * menu's window or definitions, in the main menu, or where the configuration is written out.
   */
  lemma ProceduresUse(items: seq<Item>, total: nat, modules: nat, v: nat)
    requires AllComplete(items)
    ensures Uses(ProceduresOn([], items, total, modules), v) <==>
            || (exists n {:trigger MenuUses(items, n, modules, v)} :: 1 <= n <= total && MenuUses(items, n, modules, v))
            || AnyTop(items, |items|, modules, v) || AnyWrite(items, |items|, v)
            || AnyOff(items, |items|, 0, v) || AnyDefine(items, |items|, 0, modules, v)
  {
    var n := |items|;
    var s0 := MenusOn([], items, total, modules);
    var s1 := MainmenuOn(s0, items, n, modules);
    MenusOnUses([], items, total, modules, v);
    MainmenuOnUses(s0, items, n, modules, v);
    ConfigOnUses(s1, items, n, v);
    DefineAllOnUses(ConfigOn(s1, items, n), items, n, 0, modules, v);
  }

  // ---- what is written to the configuration ----

  /** Statement i has a line that writes variable v. */
  predicate WritesVariable(items: seq<Item>, i: nat, v: nat) {
    i < |items| &&
    match items[i].token
    case Bool => items[i].name == v
    case Tristate => items[i].name == v
    case Hex => items[i].name == v
    case Int => items[i].name == v
    case String => items[i].name == v
    case DefineBool => items[i].name == v
    case DefineTristate => items[i].name == v
    case DefineHex => items[i].name == v
    case DefineInt => items[i].name == v
    case DefineString => items[i].name == v
    case DepBool => items[i].name == v
    case DepMbool => items[i].name == v
    case DepTristate => items[i].name == v
    case ChoiceHeader => IsChoice(items, i, v)
    case _ => false
  }

  /** v is the variable of one of the choice items that follow statement i. */
  predicate IsChoice(items: seq<Item>, i: nat, v: nat) {
    exists k :: i < k < |items| && items[k].name == v && forall j :: i < j <= k ==> items[j].token.ChoiceItem?
  }

  lemma {:induction false} ChoicesEndAt(items: seq<Item>, first: nat, k: nat)
    requires first <= k < |items| && forall j :: first <= j <= k ==> items[j].token.ChoiceItem?
    ensures k < ChoicesEnd(items, first)
    decreases k - first
  {
    if first < k { ChoicesEndAt(items, first + 1, k); }
  }

  lemma {:induction false} ChoiceNamesAre(items: seq<Item>, first: nat, k: nat, v: nat)
    requires AllComplete(items) && first <= |items| && first <= k <= ChoicesEnd(items, first)
    ensures v in ChoiceNames(items, first, k) <==> exists j :: first <= j < k && items[j].name == v
    decreases k
  {
    if first < k { ChoiceNamesAre(items, first, k - 1, v); }
  }

  lemma ChoicesAre(items: seq<Item>, i: nat, v: nat)
    requires AllComplete(items) && i < |items|
    ensures v in ChoicesOf(items, i + 1) <==> IsChoice(items, i, v)
  {
    var e := ChoicesEnd(items, i + 1);
    ChoiceNamesAre(items, i + 1, e, v);
    if v in ChoicesOf(items, i + 1) {
      var k :| i + 1 <= k < e && items[k].name == v;
      forall j | i < j <= k ensures items[j].token.ChoiceItem? { ChoiceItems(items, i + 1, j); }
    }
    if IsChoice(items, i, v) {
      var k :| i < k < |items| && items[k].name == v && forall j :: i < j <= k ==> items[j].token.ChoiceItem?;
      ChoicesEndAt(items, i + 1, k);
    }
  }

  lemma {:induction false} UsesOnWrites(script: seq<Event>, vs: seq<nat>, v: nat)
    ensures Write(v) in UsesOn(script, vs) <==> Write(v) in script
    decreases |vs|
  {
    if vs != [] { UsesOnWrites(script, vs[..|vs| - 1], v); }
  }

  lemma {:induction false} CondOnWrites(script: seq<Event>, c: Chain, v: nat)
    ensures Write(v) in CondOn(script, c) <==> Write(v) in script
    decreases |c|
  {
    if c != [] { CondOnWrites(script, c[..|c| - 1], v); }
  }

  lemma WriteOnWrites(script: seq<Event>, items: seq<Item>, k: nat, v: nat)
    requires AllComplete(items) && k < |items|
    ensures Write(v) in WriteOn(script, items, k) <==> Write(v) in script || WritesVariable(items, k, v)
  {
    var s, item := CondOn(script, items[k].cond), items[k];
    CondOnWrites(script, item.cond, v);
    if item.token.ChoiceHeader? {
      WritesOnUses(s, ChoicesOf(items, k + 1), v);
      ChoicesAre(items, k, v);
    } else if IsDependent(item.token) {
      UsesOnWrites(s + [Write(item.name)] + [Use(item.name)], item.deps, v);
    } else if PrintsText(item.token) {
      UsesOnWrites(s + [Write(item.name)], item.refs, v);
    }
  }

  /** The written configuration has a line for a variable exactly if some statement has. */
  lemma {:induction false} ConfigWrites(script: seq<Event>, items: seq<Item>, n: nat, v: nat)
    requires AllComplete(items) && n <= |items|
    ensures Write(v) in ConfigOn(script, items, n) <==>
            Write(v) in script || exists i :: 0 <= i < n && WritesVariable(items, i, v)
    decreases n
  {
    if n > 0 {
      ConfigWrites(script, items, n - 1, v);
      WriteOnWrites(ConfigOn(script, items, n - 1), items, n - 1, v);
      ReportedWrites(items, n - 1, v);
    }
  }

  lemma ReportedWrites(items: seq<Item>, i: nat, v: nat)
    requires i < |items|
    ensures WritesVariable(items, i, v) ==> Reported(items[i].token)
  {}

  /** Every variable that a statement defines is written out, unless by unset or as a choice without a header. */
  lemma DefinedIsWritten(script: seq<Event>, items: seq<Item>, i: nat)
    requires AllComplete(items) && i < |items| && Defines(items[i].token)
    requires !items[i].token.Unset? && !items[i].token.ChoiceItem?
    ensures Write(items[i].name) in ConfigOn(script, items, |items|)
  {
    ConfigWrites(script, items, |items|, items[i].name);
    assert WritesVariable(items, i, items[i].name);
  }

  // ---- when dependencies are announced ----

  lemma {:induction false} StripVars(g: Chain)
    ensures CondVars(Strip(g)) <= CondVars(g)
    decreases |g|
  {
    if g != [] {
      StripVars(g[1..]);
      CondVarsTail(g);
      if !g[0].Nuked? { CondVarsTail(Strip(g)); }
    }
  }

  lemma CondVarsTail(g: Chain)
    requires g != []
    ensures CondVars(g) == CondVars(g[1..]) + if g[0].Variable? then {g[0].nameindex} else {}
  {
    var d := g[1..];
    assert forall i :: 0 <= i < |d| ==> d[i] == g[i + 1];
    assert forall i :: 1 <= i < |g| ==> g[i] == d[i - 1];
  }

  lemma CondVarsAppend(a: Chain, b: Chain)
    ensures CondVars(a + b) == CondVars(a) + CondVars(b)
  {
    var c := a + b;
    assert forall i :: 0 <= i < |a| ==> c[i] == a[i];
    assert forall i :: 0 <= i < |b| ==> c[|a| + i] == b[i];
  }

  lemma {:induction false} RenderVars(us: seq<Chain>, u: Chain)
    requires u in us
    ensures CondVars(u) <= CondVars(Render(us))
    decreases |us|
  {
    var piece, rest := Piece(us[0], |us| > 1), Render(us[1..]);
    CondVarsAppend(piece, rest);
    if u == us[0] {
      CondVarsAppend([LParen] + u, [RParen]);
      CondVarsAppend([LParen], u);
      CondVarsAppend(Wrap(u), if |us| > 1 then [And] else []);
    } else {
      RenderVars(us[1..], u);
    }
  }

  /** Joining and removing duplicates leave every variable of a dependency test in the guard. */
  lemma GuardMentions(stack: seq<Chain>, tests: seq<Chain>, t: Chain)
    requires FoldedStack(stack) && !AnyFalse(stack) && Conjuncts(tests) && t in tests
    ensures NonEmpty(WithDependency(stack, tests)) && CondVars(t) <= CondVars(Join(WithDependency(stack, tests)))
  {
    GlueWithDependency(stack, tests);
    var us := Units(stack) + tests;
    DedupRender(us);
    DropRepeatedKeepsSet(us);
    RenderVars(DropRepeated(us), t);
    StripVars(Dedup(Render(us)));
  }

  /** A dependency test mentions its variable. */
  lemma TestVars(token: Keyword, i: nat)
    ensures CondVars(Test(token, i)) == {i}
  {
    assert Test(token, i)[0] == Token.Variable(i);
  }

  /**
   * So every dependency that counts is in the guard of its statement, whatever conditions the
   * statement is under, and is announced when the statement is written out.
   */
  lemma DependenciesInGuard(stack: seq<Chain>, token: Keyword, deps: seq<string>, names: seq<string>, k: nat)
    requires FoldedStack(stack) && !AnyFalse(stack) && Known(deps, names) && k < |deps| && !Ignored(token, deps[k])
    ensures var full := WithDependency(stack, Tests(token, deps, names));
            NonEmpty(full) && T.IndexOf(names, deps[k]) in CondVars(Join(full))
  {
    var t := Test(token, T.IndexOf(names, deps[k]));
    TestsMeaning(token, deps, names, Blank);
    TestIncluded(token, deps, names, k);
    TestVars(token, T.IndexOf(names, deps[k]));
    GuardMentions(stack, Tests(token, deps, names), t);
  }

  lemma {:induction false} TestIncluded(token: Keyword, deps: seq<string>, names: seq<string>, k: nat)
    requires Known(deps, names) && k < |deps| && !Ignored(token, deps[k])
    ensures Test(token, T.IndexOf(names, deps[k])) in Tests(token, deps, names)
    decreases |deps|
  {
    if k < |deps| - 1 { TestIncluded(token, deps[..|deps| - 1], names, k); }
  }

  /** A dep_tristate that depends on the constant m reads a variable that no line declares. */
  lemma ConstantNotAnnounced(name: nat, constant: nat)
    requires name > 0 && constant != name
    ensures var items := [Item(DepTristate, name, [], [constant], NoVariable, [], 1, 0)];
            AllComplete(items) && !WritesKnown(items, 1)
  {
    var items := [Item(DepTristate, name, [], [constant], NoVariable, [], 1, 0)];
    assert AnnouncedBefore(items, 1) == {name};
    assert items[0].deps[0] == constant;
    assert !WriteKnown(items, 0);
  }

  /** define_int CONFIG_A $CONFIG_B reads CONFIG_B in writeconfig and where CONFIG_A is set, without a global line. */
  lemma TextNotAnnounced(a: nat, b: nat, modules: nat)
    requires a > 0 && b != a && b != modules
    ensures var items := [Item(DefineInt, a, [], [], Names(b), [b], 0, 0)];
            AllComplete(items) && !WritesKnown(items, 1) && !DefinesKnown(items, 1, 0, modules)
  {
    var items := [Item(DefineInt, a, [], [], Names(b), [b], 0, 0)];
    assert AnnouncedBefore(items, 1) == {a};
    assert items[0].cond == [] && items[0].menu == 0;
    assert SetNames(items, 0, 0) == {} && SetNames(items, 1, 0) == {a};
    assert OffNames(items, 0, 0) == {} && OffNames(items, 1, 0) == {};
    assert DefinedBefore(items, 0, 0, modules) == {modules, a};
    assert items[0].refs[0] == b;
    assert !WriteKnown(items, 0) && !DefineKnown(items, 0, 0, modules);
  }
}
