/**
 * The condition that tokenize_line of config/scripts/tkparse.c synthesizes for the dependencies
 * of a dep_bool, dep_mbool or dep_tristate statement: one parenthesized test per dependency, each
 * made by tokenizing the text of an `if`.
 */
module Dependencies {
  import opened Conditions
  import opened Elimination
  import opened Joining
  import opened Flattening
  import opened Tokenizer
  import opened VariableTables

  // ---- the test of one dependency ----

  function Is(i: nat, value: string): Chain { [Variable(i), Eq, Constant(value)] }

  /** The dependency is y or empty, or m unless the statement is a dep_bool. */
  function Test(token: Keyword, i: nat): Chain {
    if token.DepBool? then Is(i, "y") + [Or] + Is(i, "")
    else Is(i, "y") + [Or] + (Is(i, "m") + [Or] + Is(i, ""))
  }

  predicate Satisfied(token: Keyword, value: string) {
    value == "y" || value == "" || (!token.DepBool? && value == "m")
  }

  lemma IsMeaning(i: nat, value: string, v: Valuation)
    ensures Meaning(Is(i, value), v) == Truth(v(i) == value)
  {
    ComparisonMeaning(Variable(i), Eq, Constant(value), v);
  }

  lemma TestMeaning(token: Keyword, i: nat, v: Valuation)
    ensures Meaning(Test(token, i), v) == Truth(Satisfied(token, v(i)))
  {
    IsMeaning(i, "y", v);
    IsMeaning(i, "m", v);
    IsMeaning(i, "", v);
    OrSplit(Is(i, "m"), Is(i, ""), v);
    OrSplit(Is(i, "y"), if token.DepBool? then Is(i, "") else Is(i, "m") + [Or] + Is(i, ""), v);
  }

  lemma TestFlat(token: Keyword, i: nat)
    ensures FlatChain(Test(token, i)) && AllSource(Test(token, i))
  {
    TestMeaning(token, i, Blank);
  }

  // ---- its text ----

  function Quoted(name: string, value: string): string {
    [' '] + (['\"'] + (['$'] + (name + ['\"']))) + ([' '] + ['=']) + ([' '] + (['\"'] + (value + ['\"'])))
  }

  const OR: string := [' ', '-', 'o']

  /** The text printed into fake_if. */
  function FakeIf(token: Keyword, name: string): string {
    ['['] + Closed(if token.DepBool? then Quoted(name, "y") + OR + Quoted(name, "")
                   else Quoted(name, "y") + OR + (Quoted(name, "m") + OR + Quoted(name, "")), "; then")
  }

  lemma {:induction false} PrintAppend(a: Chain, b: Chain, names: seq<string>)
    requires FromSource(a, names) && FromSource(b, names)
    ensures FromSource(a + b, names) && Print(a + b, names) == Print(a, names) + Print(b, names)
    decreases |a|
  {
    if a == [] {
      assert a + b == b;
    } else {
      assert (a + b)[1..] == a[1..] + b;
      PrintAppend(a[1..], b, names);
      Associate([' '] + Show(a[0], names), Print(a[1..], names), Print(b, names));
    }
  }

  lemma Associate(a: string, b: string, c: string)
    ensures a + (b + c) == a + b + c
  {}

  lemma PrintOne(t: Token, names: seq<string>)
    requires IsSource(t) && (t.Variable? ==> 1 <= t.nameindex <= |names|)
    ensures FromSource([t], names) && Print([t], names) == [' '] + Show(t, names)
  {
    assert [t][1..] == [] && FromSource([t], names);
    assert Print([t], names) == [' '] + Show(t, names) + "";
  }

  lemma PrintIs(i: nat, value: string, names: seq<string>)
    requires 1 <= i <= |names|
    ensures FromSource(Is(i, value), names) && Print(Is(i, value), names) == Quoted(names[i - 1], value)
  {
    var x, y := Variable(i), Constant(value);
    PrintOne(x, names);
    PrintOne(Eq, names);
    PrintOne(y, names);
    PrintThree(x, Eq, y, names);
    QuotedIs(names[i - 1], value, Print([x], names), Print([Eq], names), Print([y], names));
  }

  lemma QuotedIs(name: string, value: string, a: string, b: string, c: string)
    requires a == [' '] + (['\"'] + (['$'] + (name + ['\"']))) && b == [' '] + ['=']
    requires c == [' '] + (['\"'] + (value + ['\"']))
    ensures Quoted(name, value) == a + b + c
  {}

  lemma PrintThree(a: Token, b: Token, c: Token, names: seq<string>)
    requires FromSource([a], names) && FromSource([b], names) && FromSource([c], names)
    ensures FromSource([a, b, c], names)
    ensures Print([a, b, c], names) == Print([a], names) + Print([b], names) + Print([c], names)
  {
    PrintAppend([a], [b], names);
    PrintAppend([a] + [b], [c], names);
    assert [a] + [b] + [c] == [a, b, c];
  }

  lemma PrintOr(a: Chain, b: Chain, names: seq<string>)
    requires FromSource(a, names) && FromSource(b, names)
    ensures FromSource(a + [Or] + b, names) && Print(a + [Or] + b, names) == Print(a, names) + OR + Print(b, names)
  {
    PrintOne(Or, names);
    PrintAppend(a, [Or], names);
    PrintAppend(a + [Or], b, names);
    assert [' '] + Show(Or, names) == OR;
  }

  lemma PrintTest(token: Keyword, i: nat, names: seq<string>)
    requires 1 <= i <= |names|
    ensures FromSource(Test(token, i), names)
    ensures FakeIf(token, names[i - 1]) == ['['] + Closed(Print(Test(token, i), names), "; then")
  {
    PrintIs(i, "y", names);
    PrintIs(i, "m", names);
    PrintIs(i, "", names);
    PrintOr(Is(i, "m"), Is(i, ""), names);
    PrintOr(Is(i, "y"), if token.DepBool? then Is(i, "") else Is(i, "m") + [Or] + Is(i, ""), names);
  }

  lemma TestPrintable(token: Keyword, i: nat, names: seq<string>)
    requires 1 <= i <= |names| && FromSource(Test(token, i), names) && '\"' !in names[i - 1]
    ensures Tokenizer.Printable(Test(token, i), names)
  {}

  /** The text is the printed form of an expression. */
  ghost predicate Readable(text: string, t: Chain, names: seq<string>) {
    && AllSource(t) && FlatChain(t) && FromSource(t, names) && Tokenizer.Printable(t, names)
    && text == ['['] + Closed(Print(t, names), "; then")
  }

  lemma TestReadable(token: Keyword, i: nat, names: seq<string>, text: string, t: Chain)
    requires 1 <= i <= |names| && '\"' !in names[i - 1]
    requires text == FakeIf(token, names[i - 1]) && t == Test(token, i)
    ensures Readable(text, t, names)
  {
    PrintTest(token, i, names);
    TestFlat(token, i);
    TestPrintable(token, i, names);
  }

  lemma ReadBack(text: string, t: Chain, names: seq<string>)
    requires Readable(text, t, names) && Distinct(names)
    ensures Tokenized(text, names) == Tokens(t, names)
  {
    ExpressionsShaped(t);
    RoundTrip(t, names, "; then");
  }

  /** Tokenizing the synthesized text gives the test and adds no name. */
  lemma FakeIfTokens(token: Keyword, name: string, names: seq<string>)
    requires Distinct(names) && name in names && '\"' !in name
    ensures Tokenized(FakeIf(token, name), names) == Tokens(Test(token, IndexOf(names, name)), names)
  {
    var i := IndexOf(names, name);
    var text, t := FakeIf(token, name), Test(token, i);
    TestReadable(token, i, names, text, t);
    ReadBack(text, t, names);
  }

  /** The text begins with the quoted name. */
  lemma FakeIfStarts(token: Keyword, name: string) returns (tail: string)
    ensures FakeIf(token, name) == ['['] + ([' '] + (['\"'] + (['$'] + (name + tail))))
  {
    var more := if token.DepBool? then OR + Quoted(name, "")
                else OR + (Quoted(name, "m") + OR + Quoted(name, ""));
    var rest := ([' '] + ['=']) + ([' '] + (['\"'] + ("y" + ['\"'])));
    tail := ['\"'] + (rest + (more + ([' ', ']'] + "; then")));
    QuotedStarts(name, "y", rest);
    StartsWith(name, rest, more, Quoted(name, "y"), tail);
    MoreParts(token, name, more);
  }

  lemma QuotedStarts(name: string, value: string, rest: string)
    requires rest == ([' '] + ['=']) + ([' '] + (['\"'] + (value + ['\"'])))
    ensures Quoted(name, value) == [' '] + (['\"'] + (['$'] + (name + ['\"']))) + rest
  {}

  lemma StartsWith(name: string, rest: string, more: string, quoted: string, tail: string)
    requires quoted == [' '] + (['\"'] + (['$'] + (name + ['\"']))) + rest
    requires tail == ['\"'] + (rest + (more + ([' ', ']'] + "; then")))
    ensures Closed(quoted + more, "; then") == [' '] + (['\"'] + (['$'] + (name + tail)))
  {}

  lemma MoreParts(token: Keyword, name: string, more: string)
    requires more == if token.DepBool? then OR + Quoted(name, "")
                     else OR + (Quoted(name, "m") + OR + Quoted(name, ""))
    ensures FakeIf(token, name) == ['['] + Closed(Quoted(name, "y") + more, "; then")
  {
    if token.DepBool? {
      Associate(Quoted(name, "y"), OR, Quoted(name, ""));
    } else {
      Associate(Quoted(name, "y"), OR, Quoted(name, "m") + OR + Quoted(name, ""));
    }
  }

  lemma {:induction false} QuoteInName(name: string, tail: string)
    requires '\"' in name
    ensures QuoteAt(name + tail) < |name|
    decreases |name|
  {
    if name[0] != '\"' {
      assert (name + tail)[1..] == name[1..] + tail;
      QuoteInName(name[1..], tail);
    }
  }

  /** The first token is the variable whose name ends at the first quote. */
  lemma FirstToken(name: string, tail: string, names: seq<string>, w: string, t: string) returns (word: string)
    requires '\"' in name && w == name + tail && t == ['$'] + w
    ensures |word| < |name|
    ensures var s := Next([' '] + (['\"'] + t), names, []);
            s.Go? ==> s.t == Variable(IndexOf(Interned(names, word), word)) && s.names == Interned(names, word)
  {
    QuoteInName(name, tail);
    word := w[..QuoteAt(w)];
    AfterBlank(t, names);
    NextQuote(t, names, []);
    QuotedFirst(w, t, names, word);
  }

  lemma AfterBlank(t: string, names: seq<string>)
    ensures Next([' '] + (['\"'] + t), names, []) == Next(['\"'] + t, names, [])
  {
    NextAfterGap([' '], ['\"'] + t, names, []);
  }

  lemma QuotedFirst(w: string, t: string, names: seq<string>, word: string)
    requires t == ['$'] + w && word == w[..QuoteAt(w)]
    ensures var s := NextQuoted(t, names, []);
            s.Go? ==> s.t == Variable(IndexOf(Interned(names, word), word)) && s.names == Interned(names, word)
  {
    assert t[1..] == w;
  }

  lemma {:induction false} ScanKeeps(text: string, names: seq<string>, acc: Chain)
    ensures var r := Scan(text, names, acc); r.Tokens? ==> acc <= r.chain && names <= r.names
    decreases |text|
  {
    var s := Next(text, names, acc);
    if s.Go? { ScanKeeps(s.rest, s.names, acc + [s.t]); }
  }

  /** A name with a double quote is read as another variable or not at all. */
  lemma {:induction false} QuotedNameLost(token: Keyword, name: string, names: seq<string>)
    requires name in names && '\"' in name
    ensures Tokenized(FakeIf(token, name), names) != Tokens(Test(token, IndexOf(names, name)), names)
  {
    var tail := FakeIfStarts(token, name);
    var w := name + tail;
    var t := ['$'] + w;
    var body := [' '] + (['\"'] + t);
    TokenizedOpen(body, names);
    var word := FirstToken(name, tail, names, w, t);
    var s := Next(body, names, []);
    TestFirst(token, IndexOf(names, name));
    if s.Go? { LostAfter(Test(token, IndexOf(names, name)), name, names, word, s, [] + [s.t]); }
  }

  lemma {:induction false} LostAfter(test: Chain, name: string, names: seq<string>, word: string, s: Step, acc: Chain)
    requires name in names && |word| < |name| && test != [] && test[0] == Variable(IndexOf(names, name))
    requires s.Go? && s.names == Interned(names, word) && s.t == Variable(IndexOf(s.names, word)) && acc == [s.t]
    ensures Scan(s.rest, s.names, acc) != Tokens(test, names)
  {
    ScanKeeps(s.rest, s.names, acc);
    OtherName(test, IndexOf(names, name), name, names, IndexOf(s.names, word), word, s.names,
              Scan(s.rest, s.names, acc));
  }

  lemma TestFirst(token: Keyword, i: nat)
    ensures Test(token, i) != [] && Test(token, i)[0] == Variable(i)
  {}

  lemma {:induction false} OtherName(test: Chain, i: nat, name: string, names: seq<string>,
                                     j: nat, word: string, more: seq<string>, r: Outcome)
    requires 1 <= i <= |names| && names[i - 1] == name && 1 <= j <= |more| && more[j - 1] == word && |word| < |name|
    requires test != [] && test[0] == Variable(i) && (r.Tokens? ==> more <= r.names && [Variable(j)] <= r.chain)
    ensures r != Tokens(test, names)
  {}

  /** Exactly the names without a double quote are tested as meant. */
  lemma FakeIfExact(token: Keyword, name: string, names: seq<string>)
    requires Distinct(names) && name in names
    ensures Tokenized(FakeIf(token, name), names) == Tokens(Test(token, IndexOf(names, name)), names) <==> '\"' !in name
  {
    if '\"' in name { QuotedNameLost(token, name, names); } else { FakeIfTokens(token, name, names); }
  }

  // ---- the condition ----

  /** A dep_tristate ignores a dependency on the constant m. */
  predicate Ignored(token: Keyword, name: string) { token.DepTristate? && name == "CONSTANT_M" }

  predicate Known(deps: seq<string>, names: seq<string>) {
    forall i :: 0 <= i < |deps| ==> deps[i] in names && '\"' !in deps[i]
  }

  function Tests(token: Keyword, deps: seq<string>, names: seq<string>): seq<Chain>
    requires Known(deps, names)
  {
    if deps == [] then []
    else
      var before, name := Tests(token, deps[..|deps| - 1], names), deps[|deps| - 1];
      if Ignored(token, name) then before else before + [Test(token, IndexOf(names, name))]
  }

  predicate AllSatisfied(token: Keyword, deps: seq<string>, names: seq<string>, v: Valuation)
    requires Known(deps, names)
  {
    forall i :: 0 <= i < |deps| && !Ignored(token, deps[i]) ==> Satisfied(token, v(IndexOf(names, deps[i])))
  }

  lemma {:induction false} TestsMeaning(token: Keyword, deps: seq<string>, names: seq<string>, v: Valuation)
    requires Known(deps, names)
    ensures Conjuncts(Tests(token, deps, names))
    ensures AllHold(Tests(token, deps, names), v) <==> AllSatisfied(token, deps, names, v)
    decreases |deps|
  {
    if deps != [] {
      var front, name := deps[..|deps| - 1], deps[|deps| - 1];
      TestsMeaning(token, front, names, v);
      TestMeaning(token, IndexOf(names, name), v);
      TestFlat(token, IndexOf(names, name));
      SatisfiedPush(token, deps, names, v);
      AllHoldPush(Tests(token, front, names), Test(token, IndexOf(names, name)), v);
    }
  }

  lemma SatisfiedPush(token: Keyword, deps: seq<string>, names: seq<string>, v: Valuation)
    requires deps != [] && Known(deps, names)
    ensures AllSatisfied(token, deps, names, v) <==>
            AllSatisfied(token, deps[..|deps| - 1], names, v)
            && (Ignored(token, deps[|deps| - 1]) || Satisfied(token, v(IndexOf(names, deps[|deps| - 1]))))
  {
    var n := |deps| - 1;
    var front := deps[..n];
    if AllSatisfied(token, front, names, v) &&
      (Ignored(token, deps[n]) || Satisfied(token, v(IndexOf(names, deps[n])))) {
      forall i | 0 <= i < |deps| && !Ignored(token, deps[i]) ensures Satisfied(token, v(IndexOf(names, deps[i]))) {
        if i < n { assert front[i] == deps[i]; }
      }
    }
    if AllSatisfied(token, deps, names, v) {
      forall i | 0 <= i < n && !Ignored(token, front[i]) ensures Satisfied(token, v(IndexOf(names, front[i]))) {
        assert front[i] == deps[i];
      }
    }
  }

  /**
   * The condition of a dependency list: it holds exactly when every dependency that counts is
   * satisfied, elimination leaves it alone, and it is a list of conjuncts that joining takes
   * as it is.
   */
  lemma DependencyCondition(token: Keyword, deps: seq<string>, names: seq<string>, env: Env, v: Valuation)
    requires Known(deps, names)
    ensures var tests := Tests(token, deps, names);
            var cond := Render(tests);
            && Conjuncts(tests)
            && (cond == [] ==> AllSatisfied(token, deps, names, v))
            && (cond != [] ==>
                 Meaning(cond, v) == Truth(AllSatisfied(token, deps, names, v)) && Eliminate(env, cond) == cond)
  {
    var tests := Tests(token, deps, names);
    TestsMeaning(token, deps, names, v);
    if tests != [] {
      RenderMeaning(tests, v);
      assert Render(tests)[0] == LParen;
      EliminateParenthesized(env, Render(tests));
    }
  }

  lemma TestsPush(token: Keyword, deps: seq<string>, names: seq<string>, k: nat)
    requires Known(deps, names) && k < |deps|
    ensures Known(deps[..k], names) && Known(deps[..k + 1], names)
    ensures var before := Tests(token, deps[..k], names);
            Tests(token, deps[..k + 1], names) ==
            if Ignored(token, deps[k]) then before else before + [Test(token, IndexOf(names, deps[k]))]
  {
    assert deps[..k + 1][..k] == deps[..k];
  }

  lemma RenderPush(us: seq<Chain>, u: Chain)
    ensures Render(us + [u]) == (if us == [] then Render(us) else Render(us) + [And]) + [LParen] + u + [RParen]
  {
    assert Render([u]) == Wrap(u) by { assert Render([u][1..]) == []; }
    if us == [] {
      assert us + [u] == [u];
    } else {
      RenderAppend(us, [u]);
    }
  }

  /** The tests of the dependencies as they are tokenized, or what broke off the tokenizing. */
  datatype Gathering = Gathered(tests: seq<Chain>, names: seq<string>) | Broken(why: Failure)

  function GatherOne(token: Keyword, name: string, g: Gathering): Gathering {
    if g.Broken? || Ignored(token, name) then g
    else
      match Tokenized(FakeIf(token, name), g.names)
      case Tokens(chain, names) => Gathered(g.tests + [chain], names)
      case Failed(why) => Broken(why)
  }

  function Gather(token: Keyword, deps: seq<string>, names: seq<string>): Gathering {
    if deps == [] then Gathered([], names)
    else GatherOne(token, deps[|deps| - 1], Gather(token, deps[..|deps| - 1], names))
  }

  /** For known dependencies without quotes these are the tests meant. */
  lemma {:induction false} GatherKnown(token: Keyword, deps: seq<string>, names: seq<string>)
    requires Distinct(names) && Known(deps, names)
    ensures Gather(token, deps, names) == Gathered(Tests(token, deps, names), names)
    decreases |deps|
  {
    if deps != [] {
      GatherKnown(token, deps[..|deps| - 1], names);
      FakeIfTokens(token, deps[|deps| - 1], names);
    }
  }

  /** The condition and the table that come of it. */
  function Built(g: Gathering): Outcome {
    match g
    case Gathered(tests, names) => Tokens(Render(tests), names)
    case Broken(why) => Failed(why)
  }

  /** The loop that builds the condition. */
  method BuildCondition(token: Keyword, deps: seq<string>, table: VariableTable) returns (r: Outcome)
    requires table.Valid()
    modifies table`max, table.slots
    ensures table.Valid() && r == Built(Gather(token, deps, old(table.Names())))
    ensures r.Tokens? ==> table.Names() == r.names
  {
    ghost var names := table.Names();
    ghost var tests: seq<Chain> := [];
    var cond := [];
    var first := true;
    for k := 0 to |deps|
      invariant table.Valid() && Gather(token, deps[..k], names) == Gathered(tests, table.Names())
      invariant (first <==> tests == []) && cond == Render(tests)
    {
      GatherPush(token, deps, names, k);
      if !Ignored(token, deps[k]) {
        var one, cond' := AddTest(token, deps[k], cond, first, table, tests);
        if one.Failed? {
          GatherBroken(token, deps, names, k + 1);
          return one;
        }
        cond, first, tests := cond', false, tests + [one.chain];
      }
    }
    assert deps[..|deps|] == deps;
    r := Tokens(cond, table.Names());
  }

  /** One more dependency: its text is tokenized and the tokens are appended. */
  method AddTest(token: Keyword, name: string, cond: Chain, first: bool, table: VariableTable, ghost tests: seq<Chain>)
    returns (one: Outcome, cond': Chain)
    requires table.Valid() && !Ignored(token, name) && cond == Render(tests) && (first <==> tests == [])
    modifies table`max, table.slots
    ensures table.Valid() && GatherOne(token, name, Gathered(tests, old(table.Names()))) ==
            if one.Failed? then Broken(one.why) else Gathered(tests + [one.chain], one.names)
    ensures one.Tokens? ==> table.Names() == one.names && cond' == Render(tests + [one.chain])
  {
    one := table.TokenizeIf(FakeIf(token, name));
    cond' := cond;
    if one.Tokens? { cond' := AppendTest(cond, first, one.chain, tests); }
  }

  lemma GatherPush(token: Keyword, deps: seq<string>, names: seq<string>, k: nat)
    requires k < |deps|
    ensures Gather(token, deps[..k + 1], names) == GatherOne(token, deps[k], Gather(token, deps[..k], names))
  {
    assert deps[..k + 1][..k] == deps[..k];
  }

  lemma {:induction false} GatherBroken(token: Keyword, deps: seq<string>, names: seq<string>, k: nat)
    requires k <= |deps| && Gather(token, deps[..k], names).Broken?
    ensures Gather(token, deps, names) == Gather(token, deps[..k], names)
    decreases |deps|
  {
    if k < |deps| {
      assert deps[..|deps| - 1][..k] == deps[..k];
      GatherBroken(token, deps[..|deps| - 1], names, k);
    } else {
      assert deps[..k] == deps;
    }
  }

  method AppendTest(cond: Chain, first: bool, r: Chain, ghost tests: seq<Chain>) returns (cond': Chain)
    requires cond == Render(tests) && (first <==> tests == [])
    ensures cond' == Render(tests + [r])
  {
    RenderPush(tests, r);
    cond' := cond;
    if !first { cond' := cond' + [And]; }
    cond' := cond' + [LParen] + r + [RParen];
  }
}
