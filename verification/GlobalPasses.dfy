/**
 * The generator of config/scripts/tkgen.c as it writes procedures: global lines are added by the
 * flags of the variable table, everything else as module Globals says.
 */
module GlobalPasses {
  import opened Conditions
  import opened Flattening
  import opened Globals

  class Script {
    var log: seq<Event>
    var written: set<nat>      // the global_written flags
    ghost var scope: Scope
    ghost var good: bool
    ghost var plain: seq<Event>  // the log without its global lines

    ghost predicate Valid()
      reads this
    {
      scope == ScopeOf(log) && good == Good(log) && plain == Plain(log)
    }

    /** The flags are the variables with a global line in the current procedure, outside any body. */
    ghost predicate Sound()
      reads this
    {
      Valid() && scope == Scope(written, {}, false)
    }

    constructor ()
      ensures Sound() && log == [] && good
    {
      log, written, scope, good, plain := [], {}, Scope({}, {}, false), true, [];
    }

    method Emit(e: Event)
      requires Valid()
      modifies this`log, this`scope, this`good, this`plain
      ensures Valid() && log == old(log) + [e] && scope == After(old(scope), e)
      ensures good <==> old(good) && (e.Use? ==> Declared(old(scope), e.v))
      ensures plain == if e.Global? then old(plain) else old(plain) + [e]
    {
      Emitted(log, e);
      log, scope, good := log + [e], After(scope, e), good && (e.Use? ==> Declared(scope, e.v));
      plain := if e.Global? then plain else plain + [e];
    }

    /** proc ... and clear_globalflags */
    method StartProcedure()
      requires Valid()
      modifies this
      ensures Sound() && good == old(good) && written == {} && plain == old(plain) + [Proc]
    {
      Emit(Proc);
      written := {};
    }

    /** A global line unless the flag is set. */
    method Declare(v: nat)
      requires Sound()
      modifies this
      ensures Sound() && good == old(good) && written == old(written) + {v} && plain == old(plain)
    {
      if v !in written {
        written := written + {v};
        Emit(Global(v));
      }
    }

    method DeclareCondition(c: Chain)
      requires Sound()
      modifies this
      ensures Sound() && good == old(good) && written == old(written) + CondVars(c) && plain == old(plain)
    {
      for i := 0 to |c|
        invariant Sound() && good == old(good) && written == old(written) + CondVars(c[..i]) && plain == old(plain)
      {
        CondVarsPush(c, i);
        if c[i].Variable? { Declare(c[i].nameindex); }
      }
      assert c[..|c|] == c;
    }

    method UseCondition(c: Chain)
      requires Sound() && CondVars(c) <= written
      modifies this`log, this`scope, this`good, this`plain
      ensures Sound() && good == old(good) && plain == CondOn(old(plain), c)
    {
      for i := 0 to |c|
        invariant Sound() && good == old(good) && plain == CondOn(old(plain), c[..i])
      {
        assert c[..i + 1][..i] == c[..i];
        if c[i].Variable? {
          assert c[i].nameindex in CondVars(c);
          Emit(Use(c[i].nameindex));
        }
      }
      assert c[..|c|] == c;
    }

    method UseAll(vs: seq<nat>)
      requires Valid()
      modifies this`log, this`scope, this`good, this`plain
      ensures Valid() && scope == old(scope) && plain == UsesOn(old(plain), vs)
      ensures good <==> old(good) && AllIn(vs, scope.top + scope.inner)
    {
      for k := 0 to |vs|
        invariant Valid() && scope == old(scope) && plain == UsesOn(old(plain), vs[..k])
        invariant good <==> old(good) && AllIn(vs[..k], scope.top + scope.inner)
      {
        AllInPush(vs, k, scope.top + scope.inner);
        assert vs[..k + 1][..k] == vs[..k];
        Emit(Use(vs[k]));
      }
      assert vs[..|vs|] == vs;
    }

    // ---- the body of a conditional ----

    /** In a body where the variables of inner have been declared. */
    ghost predicate Inside(inner: set<nat>)
      reads this
    {
      Valid() && scope == Scope(written, inner, true)
    }

    /** Global lines in a body, where the flags are left alone. */
    method DeclareInside(vs: seq<nat>)
      requires Inside({})
      modifies this`log, this`scope, this`good, this`plain
      ensures Inside(ToSet(vs) - written) && good == old(good) && plain == old(plain)
    {
      assert ToSet(vs[..0]) - written == {};
      for k := 0 to |vs|
        invariant Inside(ToSet(vs[..k]) - written) && good == old(good) && plain == old(plain)
      {
        ToSetPush(vs, k);
        if vs[k] !in written { Emit(Global(vs[k])); }
        assert ToSet(vs[..k + 1]) - written == ToSet(vs[..k]) - written + if vs[k] in written then {} else {vs[k]};
      }
      assert vs[..|vs|] == vs;
    }

    /** The variables of a dependent statement. */
    method UseDependencies(item: Item) returns (ghost inner: set<nat>)
      requires Inside({}) && Complete(item) && NameSet(item) <= written
      modifies this`log, this`scope, this`good, this`plain
      ensures Inside(inner) && good == old(good) && plain == DepsOn(old(plain), item)
      ensures !IsDependent(item.token) ==> inner == {}
    {
      inner := {};
      if IsDependent(item.token) {
        inner := ToSet(item.deps) - written;
        DeclareInside(item.deps);
        UseAll(item.deps);
        Emit(Use(item.name));
      }
    }

    method WidgetBody(item: Item, modules: nat) returns (ghost inner: set<nat>)
      requires Inside({}) && Complete(item) && NameSet(item) <= written
      requires item.token.Tristate? || item.token.DepTristate? ==> modules in written
      modifies this`log, this`scope, this`good, this`plain
      ensures Inside(inner) && good == old(good) && plain == WidgetOn(old(plain), item, modules)
    {
      inner := UseDependencies(item);
      if item.token.DepTristate? || item.token.Tristate? { Emit(Use(modules)); }
    }

    /** The value: declared in the body if it names a variable, then read. */
    method UseText(item: Item, ghost inner: set<nat>) returns (ghost inner': set<nat>)
      requires Inside(inner) && Complete(item) && (!IsDependent(item.token) ==> inner == {})
      modifies this`log, this`scope, this`good, this`plain
      ensures Inside(inner') && plain == UsesOn(old(plain), TextRead(item))
      ensures good <==> old(good) && AllIn(TextRead(item), written + TextDeclared(item))
    {
      inner' := inner;
      if (SetsValue(item.token) || item.token.Hex? || item.token.Int?) && item.value.Names? {
        if item.value.index !in written {
          Emit(Global(item.value.index));
          inner' := inner + {item.value.index};
        }
      }
      assert !IsDependent(item.token) ==> written + inner' == written + TextDeclared(item);
      UseAll(TextRead(item));
    }

    method DefineBody(item: Item, modules: nat) returns (ghost inner: set<nat>)
      requires Inside({}) && Complete(item) && NameSet(item) <= written
      requires item.token.Tristate? ==> modules in written
      modifies this`log, this`scope, this`good, this`plain
      ensures Inside(inner) && plain == DefineOn(old(plain), item, modules)
      ensures good <==> old(good) && AllIn(TextRead(item), written + TextDeclared(item))
    {
      inner := UseDependencies(item);
      inner := UseText(item, inner);
      if item.token.Tristate? { Emit(Use(modules)); }
      if Defines(item.token) { Emit(Use(item.name)); }
    }

    method WriteBody(item: Item, line: int, modules: nat)
      requires Sound() && Complete(item) && NameSet(item) <= written
      requires item.token.Tristate? || item.token.DepTristate? ==> modules in written
      modifies this`log, this`scope, this`good, this`plain
      ensures Sound() && plain == BodyOn(old(plain), item, line, modules)
      ensures good <==> old(good) && (line >= -1 || AllIn(TextRead(item), written + TextDeclared(item)))
    {
      Emit(Enter);
      ghost var inner;
      if line >= -1 { inner := WidgetBody(item, modules); } else { inner := DefineBody(item, modules); }
      Emit(Leave);
    }

    /** generate_if; line is -2 when it recomputes variables. */
    method GenerateIf(item: Item, line: int, modules: nat)
      requires Sound() && Complete(item) && !item.token.ChoiceItem?
      requires item.token.Tristate? || item.token.DepTristate? ==> modules in written
      modifies this
      ensures Sound() && written == old(written) + IfWrites(item, line)
      ensures plain == IfOn(old(plain), item, line, modules)
      ensures good <==>
                old(good) && (line >= -1 || NoIf(item, line) || AllIn(TextRead(item), written + TextDeclared(item)))
    {
      if line >= -1 {
        if IsDefinition(item.token) || (item.token.Comment? && line == -1) { return; }
      } else if item.token.String? || item.token.MainmenuOption? {
        return;
      }
      DeclareCondition(item.cond);
      if item.name > 0 { Declare(item.name); }
      UseCondition(item.cond);
      WriteBody(item, line, modules);
    }

    // ---- the procedures ----

    /** One statement of proc update_menuN. */
    method UpdateWidget(item: Item, menu: int, modules: nat)
      requires Sound() && Complete(item)
      modifies this
      ensures Sound() && good == old(good) && plain == UpdateOn(old(plain), item, menu, modules)
    {
      if item.menu == menu && !item.token.MainmenuOption? && !item.token.ChoiceItem? {
        if item.cond != [] {
          if item.token.Tristate? || item.token.DepTristate? { Declare(modules); }
          GenerateIf(item, item.line, modules);
        } else if item.token.Tristate? {
          Declare(item.name);
          Declare(modules);
          Emit(Use(modules));
        }
      } else if item.token.MainmenuOption? && item.menu == menu && item.cond != [] {
        GenerateIf(item, item.line, modules);
      }
    }

    method UpdateMenu(items: seq<Item>, menu: int, modules: nat)
      requires Valid() && AllComplete(items)
      modifies this
      ensures Sound() && good == old(good) && plain == MenuOn(old(plain), items, |items|, menu, modules)
    {
      StartProcedure();
      for k := 0 to |items|
        invariant Sound() && good == old(good) && plain == MenuOn(old(plain), items, k, menu, modules)
      {
        UpdateWidget(items[k], menu, modules);
      }
    }

    /** A variable recomputed without a condition. */
    method RecomputePlain(item: Item, modules: nat)
      requires Sound() && Complete(item) && modules in written && item.cond == []
      requires IsDefinition(item.token) || item.token.Tristate? ==> item.name in written
      modifies this
      ensures Sound() && written == old(written) + RecomputeWrites(item) && plain == PlainOn(old(plain), item, modules)
      ensures good <==> old(good) && TextKnown(item, old(written))
    {
      if item.token.Tristate? {
        Emit(Use(modules));
        Emit(Use(item.name));
      } else if IsDefinition(item.token) {
        if SetsValue(item.token) { Declare(item.value.index); }
        Emit(Use(item.name));
        UseAll(TextRead(item));
      }
    }

    method Recompute(item: Item, modules: nat)
      requires Sound() && Complete(item) && modules in written && Recomputed(item.token)
      requires IsDefinition(item.token) || item.token.Tristate? ==> item.name in written
      modifies this
      ensures Sound() && written == old(written) + RecomputeWrites(item)
      ensures plain == RecomputeOn(old(plain), item, modules)
      ensures good <==> old(good) && TextKnown(item, old(written))
    {
      if item.cond != [] { GenerateIf(item, -2, modules); } else { RecomputePlain(item, modules); }
    }

    /** The items of a choice, whose global lines are written without looking at the flags. */
    method DefineChoices(items: seq<Item>, first: nat)
      requires Sound() && AllComplete(items) && first <= |items|
      modifies this
      ensures Sound() && good == old(good) && written == old(written) + ToSet(ChoicesOf(items, first))
      ensures plain == UsesOn(old(plain), ChoicesOf(items, first))
    {
      var k := first;
      ghost var names: seq<nat> := [];
      while k < |items| && items[k].token.ChoiceItem?
        invariant first <= k <= |items| && ChoicesEnd(items, k) == ChoicesEnd(items, first)
        invariant names == ChoiceNames(items, first, k)
        invariant Sound() && good == old(good) && written == old(written) + ToSet(names)
        invariant plain == UsesOn(old(plain), names)
      {
        ChoiceStep(items, first, k);
        NamesPush(names, items[k].name, old(plain));
        DefineChoice(items[k].name);
        names, k := names + [items[k].name], k + 1;
      }
    }

    method DefineChoice(v: nat)
      requires Sound()
      modifies this
      ensures Sound() && good == old(good) && written == old(written) + {v} && plain == old(plain) + [Use(v)]
    {
      Emit(Global(v));
      written := written + {v};
      Emit(Use(v));
    }

    /** One statement of the last loop of proc update_define_menuN. */
    method DefineOne(items: seq<Item>, k: nat, menu: int, modules: nat)
      requires Sound() && AllComplete(items) && k < |items| && written == DefinedBefore(items, k, menu, modules)
      modifies this
      ensures Sound() && written == DefinedBefore(items, k + 1, menu, modules)
      ensures plain == DefineOneOn(old(plain), items, k, menu, modules)
      ensures good <==> old(good) && DefineKnown(items, k, menu, modules)
    {
      SetIncluded(items, k, k, menu, modules);
      if items[k].menu == menu {
        if items[k].token.ChoiceHeader? {
          DefineChoices(items, k + 1);
        } else if Recomputed(items[k].token) {
          Recompute(items[k], modules);
        }
      }
    }

    method UpdateDefine(items: seq<Item>, menu: int, modules: nat)
      requires Valid() && AllComplete(items)
      modifies this
      ensures Sound() && plain == DefineAllOn(old(plain), items, |items|, menu, modules)
      ensures good <==> old(good) && DefinesKnown(items, |items|, menu, modules)
    {
      StartDefine(items, menu, modules);
      for k := 0 to |items|
        invariant Sound() && written == DefinedBefore(items, k, menu, modules)
        invariant plain == DefineAllOn(old(plain), items, k, menu, modules)
        invariant good <==> old(good) && DefinesKnown(items, k, menu, modules)
      {
        DefinesPush(items, k, menu, modules);
        DefineOne(items, k, menu, modules);
      }
    }

    /** The part before the last loop. */
    method StartDefine(items: seq<Item>, menu: int, modules: nat)
      requires Valid() && AllComplete(items)
      modifies this
      ensures Sound() && good == old(good) && written == DefinedBefore(items, 0, menu, modules)
      ensures plain == DefineAllOn(old(plain), items, 0, menu, modules)
    {
      StartProcedure();
      DeclareModules(modules);
      DeclareDefined(items, menu);
      SwitchOff(items, menu);
    }

    /** The global line for CONFIG_MODULES that every such procedure begins with. */
    method DeclareModules(modules: nat)
      requires Sound()
      modifies this
      ensures Sound() && good == old(good) && written == old(written) + {modules} && plain == old(plain)
    {
      Emit(Global(modules));
      written := written + {modules};
    }

    /** Global lines for the variables that the procedure sets. */
    method DeclareDefined(items: seq<Item>, menu: int)
      requires Sound() && AllComplete(items)
      modifies this
      ensures Sound() && good == old(good) && written == old(written) + SetNames(items, |items|, menu)
      ensures plain == old(plain)
    {
      for k := 0 to |items|
        invariant Sound() && good == old(good) && written == old(written) + SetNames(items, k, menu)
        invariant plain == old(plain)
      {
        SetNamesPush(items, k, menu);
        if IsSet(items[k], menu) { Declare(items[k].name); }
      }
    }

    /** Conditional bools and tristates are off unless changed later. */
    method SwitchOff(items: seq<Item>, menu: int)
      requires Sound() && AllComplete(items)
      modifies this
      ensures Sound() && good == old(good) && written == old(written) + OffNames(items, |items|, menu)
      ensures plain == OffOn(old(plain), items, |items|, menu)
    {
      for k := 0 to |items|
        invariant Sound() && good == old(good) && written == old(written) + OffNames(items, k, menu)
        invariant plain == OffOn(old(plain), items, k, menu)
      {
        if SwitchedOff(items[k], menu) { DeclareAndUse(items[k].name); }
      }
    }

    method DeclareAndUse(v: nat)
      requires Sound()
      modifies this
      ensures Sound() && good == old(good) && written == old(written) + {v} && plain == old(plain) + [Use(v)]
    {
      Declare(v);
      Emit(Use(v));
    }

    /** proc update_mainmenu: the top menus that have a guard. */
    method UpdateMainmenu(items: seq<Item>, modules: nat)
      requires Valid() && AllComplete(items)
      modifies this
      ensures Sound() && good == old(good) && plain == MainmenuOn(old(plain), items, |items|, modules)
    {
      StartProcedure();
      for k := 0 to |items|
        invariant Sound() && good == old(good) && plain == MainmenuOn(old(plain), items, k, modules)
      {
        if TopMenu(items[k]) {
          GenerateIf(items[k], -1, modules);
        }
      }
    }

    // ---- proc writeconfig ----

    /** generate_writeconfig */
    method WriteItem(items: seq<Item>, k: nat)
      requires Sound() && AllComplete(items) && k < |items| && Reported(items[k].token)
      modifies this
      ensures Sound() && written == old(written) + Announced(items[k]) && plain == WriteOn(old(plain), items, k)
      ensures good <==> old(good) && (IsDependent(items[k].token) ==> AllIn(items[k].deps, written))
                        && (PrintsText(items[k].token) ==> AllIn(items[k].refs, written))
    {
      var item := items[k];
      if !item.token.Comment? {
        if item.name > 0 { Declare(item.name); }
        if SetsValue(item.token) { Declare(item.value.index); }
      }
      DeclareCondition(item.cond);
      UseCondition(item.cond);
      if item.token.ChoiceHeader? { WriteChoices(items, k + 1); } else { WriteValue(item); }
    }

    /** The items of a choice. */
    method WriteChoices(items: seq<Item>, first: nat)
      requires Sound() && AllComplete(items) && first <= |items|
      modifies this`log, this`scope, this`good, this`plain
      ensures Sound() && good == old(good) && plain == WritesOn(old(plain), ChoicesOf(items, first))
    {
      var k := first;
      ghost var names: seq<nat> := [];
      while k < |items| && items[k].token.ChoiceItem?
        invariant first <= k <= |items| && ChoicesEnd(items, k) == ChoicesEnd(items, first)
        invariant names == ChoiceNames(items, first, k)
        invariant Sound() && good == old(good) && plain == WritesOn(old(plain), names)
      {
        ChoiceStep(items, first, k);
        ghost var more := names + [items[k].name as nat];
        assert more[..|names|] == names;
        Emit(Write(items[k].name));
        names, k := more, k + 1;
      }
    }

    /** A variable is written out with a value read from a declared variable. */
    method WriteFrom(v: nat, source: nat)
      requires Sound() && source in written
      modifies this`log, this`scope, this`good, this`plain
      ensures Sound() && scope == old(scope) && good == old(good)
      ensures plain == old(plain) + [Write(v)] + [Use(source)]
    {
      Emit(Write(v));
      Emit(Use(source));
    }

    /** A variable is written out with text. */
    method WriteText(v: nat, refs: seq<nat>)
      requires Sound()
      modifies this`log, this`scope, this`good, this`plain
      ensures Sound() && plain == UsesOn(old(plain) + [Write(v)], refs)
      ensures good <==> old(good) && AllIn(refs, written)
    {
      Emit(Write(v));
      UseAll(refs);
    }

    /** The value that is written out. */
    method WriteValue(item: Item)
      requires Sound() && Complete(item) && Announced(item) <= written
      modifies this`log, this`scope, this`good, this`plain
      ensures Sound() && plain == ItemOn(old(plain), item)
      ensures good <==> old(good) && (IsDependent(item.token) ==> AllIn(item.deps, written))
                        && (PrintsText(item.token) ==> AllIn(item.refs, written))
    {
      if SetsValue(item.token) {
        WriteFrom(item.name, if item.cond == [] then item.name else item.value.index);
      } else if IsDependent(item.token) {
        WriteFrom(item.name, item.name);
        UseAll(item.deps);
      } else if PrintsText(item.token) {
        WriteText(item.name, item.refs);
      } else if ReadsItself(item.token) {
        WriteFrom(item.name, item.name);
      }
    }

    method WriteConfig(items: seq<Item>)
      requires Valid() && AllComplete(items)
      modifies this
      ensures Sound() && (good <==> old(good) && WritesKnown(items, |items|))
      ensures plain == ConfigOn(old(plain), items, |items|)
    {
      StartProcedure();
      for k := 0 to |items|
        invariant Sound() && written == AnnouncedBefore(items, k) && plain == ConfigOn(old(plain), items, k)
        invariant good <==> old(good) && WritesKnown(items, k)
      {
        WritesPush(items, k);
        if Reported(items[k].token) { WriteItem(items, k); }
      }
    }

    /** The procedures of one menu. */
    method GenerateMenu(items: seq<Item>, m: nat, modules: nat)
      requires Valid() && AllComplete(items)
      modifies this
      ensures Sound() && (good <==> old(good) && DefinesKnown(items, |items|, m, modules))
      ensures plain == DefineAllOn(MenuOn(old(plain), items, |items|, m, modules), items, |items|, m, modules)
    {
      UpdateMenu(items, m, modules);
      UpdateDefine(items, m, modules);
    }

    /** The procedures of all menus. */
    method GenerateMenus(items: seq<Item>, total: nat, modules: nat)
      requires Sound() && AllComplete(items)
      modifies this
      ensures Sound() && plain == MenusOn(old(plain), items, total, modules)
      ensures good <==> old(good) && MenusKnown(items, total, modules)
    {
      for m := 1 to total + 1
        invariant Sound() && plain == MenusOn(old(plain), items, m - 1, modules)
        invariant good <==> old(good) && MenusKnown(items, m - 1, modules)
      {
        MenusPush(items, m, modules);
        GenerateMenu(items, m, modules);
      }
    }

    /**
     * All generated procedures that use the flags, for menus 1 to total. Apart from global lines
     * they are those of ProceduresOn, and every variable they use is declared exactly when the
     * dependencies and the texts of values are known.
     */
    method GenerateProcedures(items: seq<Item>, total: nat, modules: nat)
      requires Sound() && good && AllComplete(items)
      modifies this
      ensures Sound() && (Good(log) <==> AllKnown(items, total, modules))
      ensures Plain(log) == ProceduresOn(old(Plain(log)), items, total, modules)
    {
      GenerateMenus(items, total, modules);
      UpdateMainmenu(items, modules);
      LoadDefaults(items);
      WriteConfig(items);
      UpdateDefine(items, 0, modules);
    }

    /** Default values, set outside any procedure: here a flag stands for a value already set. */
    method LoadDefaults(items: seq<Item>)
      requires Valid() && AllComplete(items)
      modifies this`written
      ensures Valid()
    {
      written := {};
      for k := 0 to |items|
        invariant Valid()
      {
        var t := items[k].token;
        if Defines(t) && !IsDefinition(t) && items[k].name !in written { written := written + {items[k].name}; }
      }
    }
  }

  lemma CondVarsPush(c: Chain, i: nat)
    requires i < |c|
    ensures CondVars(c[..i + 1]) == CondVars(c[..i]) + if c[i].Variable? then {c[i].nameindex} else {}
  {
    var d := c[..i + 1];
    assert forall k :: 0 <= k < i ==> d[k] == c[..i][k];
    assert d[i] == c[i];
  }

  lemma AllInPush(vs: seq<nat>, k: nat, s: set<nat>)
    requires k < |vs|
    ensures AllIn(vs[..k + 1], s) <==> AllIn(vs[..k], s) && vs[k] in s
  {
    var a, b := vs[..k], vs[..k + 1];
    assert b[k] == vs[k] && forall i :: 0 <= i < k ==> a[i] == b[i];
  }

  lemma ToSetPush(vs: seq<nat>, k: nat)
    requires k < |vs|
    ensures ToSet(vs[..k + 1]) == ToSet(vs[..k]) + {vs[k]}
  {
    assert vs[..k + 1] == vs[..k] + [vs[k]];
  }

  lemma WritesPush(items: seq<Item>, k: nat)
    requires AllComplete(items) && k < |items|
    ensures WritesKnown(items, k + 1) <==> WritesKnown(items, k) && (Reported(items[k].token) ==> WriteKnown(items, k))
  {
    assert WriteKnown(items, k) || !WriteKnown(items, k);
  }

  lemma DefinesPush(items: seq<Item>, k: nat, menu: int, modules: nat)
    requires AllComplete(items) && k < |items|
    ensures DefinesKnown(items, k + 1, menu, modules) <==>
              DefinesKnown(items, k, menu, modules) && DefineKnown(items, k, menu, modules)
  {}

  lemma MenusPush(items: seq<Item>, m: nat, modules: nat)
    requires AllComplete(items) && m > 0
    ensures MenusKnown(items, m, modules) <==>
              MenusKnown(items, m - 1, modules) && DefinesKnown(items, |items|, m, modules)
  {}

  lemma ChoiceStep(items: seq<Item>, first: nat, k: nat)
    requires AllComplete(items) && first <= k < |items| && items[k].token.ChoiceItem?
    requires ChoicesEnd(items, k) == ChoicesEnd(items, first)
    ensures k + 1 <= ChoicesEnd(items, first) && ChoicesEnd(items, k + 1) == ChoicesEnd(items, first)
    ensures ChoiceNames(items, first, k + 1) == ChoiceNames(items, first, k) + [items[k].name]
  {}

  lemma NamesPush(names: seq<nat>, v: nat, script: seq<Event>)
    ensures ToSet(names + [v]) == ToSet(names) + {v} && UsesOn(script, names + [v]) == UsesOn(script, names) + [Use(v)]
  {
    assert (names + [v])[..|names|] == names;
  }

  lemma SetNamesPush(items: seq<Item>, k: nat, menu: int)
    requires AllComplete(items) && k < |items|
    ensures SetNames(items, k + 1, menu) ==
            SetNames(items, k, menu) + if IsSet(items[k], menu) then {items[k].name} else {}
  {}

  /** The variables a procedure sets are declared from the start. */
  lemma {:induction false} SetIncluded(items: seq<Item>, i: nat, k: nat, menu: int, modules: nat)
    requires AllComplete(items) && i < |items| && k <= |items|
    ensures modules in DefinedBefore(items, k, menu, modules)
    ensures IsSet(items[i], menu) ==> items[i].name in DefinedBefore(items, k, menu, modules)
    decreases k
  {
    if k > 0 { SetIncluded(items, i, k - 1, menu, modules); } else { SetHas(items, i, |items|, menu); }
  }

  lemma {:induction false} SetHas(items: seq<Item>, i: nat, n: nat, menu: int)
    requires AllComplete(items) && i < n <= |items|
    ensures IsSet(items[i], menu) ==> items[i].name in SetNames(items, n, menu)
    decreases n
  {
    if i < n - 1 { SetHas(items, i, n - 1, menu); }
  }
}
