/**
 * get_varnum and tokenize_if of config/scripts/tkparse.c as they run: the table is an array
 * filled from slot 1, the text is scanned by a moving index.
 */
module VariableTables {
  import opened Conditions
  import opened Tokenizer

  class VariableTable {
    const slots: array<string>
    var max: nat

    ghost predicate Valid()
      reads this, slots
    {
      slots.Length == VARTABLE_SIZE && max <= CAPACITY && Distinct(slots[1..max + 1])
    }

    function Names(): seq<string>
      requires Valid()
      reads this, slots
    {
      slots[1..max + 1]
    }

    constructor ()
      ensures Valid() && Names() == [] && fresh(slots)
    {
      slots := new string[VARTABLE_SIZE](i => "");
      max := 0;
    }

    /** The slot of a name. A new name is added, unless its slot is refused or lies outside the table. */
    method GetVarnum(name: string) returns (l: Lookup)
      requires Valid()
      modifies this`max, slots
      ensures Valid() && l == LookUp(old(Names()), name)
      ensures Names() == if l.New? && InTable(l) then old(Names()) + [name] else old(Names())
    {
      ghost var names := Names();
      var i := 1;
      while i <= max
        invariant 1 <= i <= max + 1 && forall j :: 0 <= j < i - 1 ==> names[j] != name
      {
        if slots[i] == name {
          assert names[i - 1] == name;
          IndexUnique(names, i);
          return Old(i);
        }
        assert names[i - 1] == slots[i];
        i := i + 1;
      }
      assert name !in names;
      if max > VARTABLE_SIZE - 1 { return Refused; }
      l := New(max + 1);
      if l.index < slots.Length {
        max := max + 1;
        slots[max] := name;
        assert Names() == names + [name];
      }
    }

    method SkipFrom(text: string, pnt: nat) returns (p: nat)
      requires pnt <= |text|
      ensures pnt <= p <= |text| && text[p..] == SkipBlanks(text[pnt..])
    {
      p := pnt;
      while p < |text| && IsBlank(text[p])
        invariant pnt <= p <= |text| && SkipBlanks(text[p..]) == SkipBlanks(text[pnt..])
      {
        assert text[p..][1..] == text[p + 1..];
        p := p + 1;
      }
    }

    method FindQuote(text: string, word: nat) returns (p: nat)
      requires word <= |text|
      ensures p == word + QuoteAt(text[word..])
    {
      p := word;
      while p < |text| && text[p] != '\"'
        invariant word <= p <= |text| && word + QuoteAt(text[word..]) == p + QuoteAt(text[p..])
      {
        assert text[p..][1..] == text[p + 1..];
        p := p + 1;
      }
    }

    /** The operand whose quote is at pnt. */
    method ReadOperand(text: string, pnt: nat, acc: Chain) returns (s: Place)
      requires Valid() && pnt < |text| && text[pnt] == '\"'
      modifies this`max, slots
      ensures Valid() && Matches(text, pnt, s, Names(), NextQuoted(text[pnt + 1..], old(Names()), acc))
    {
      if acc != [] && IsOperand(acc[|acc| - 1]) { return Halt(Failed(Misplaced)); }
      var word := pnt + 1;
      var variable := word < |text| && text[word] == '$';
      if variable { word := word + 1; }
      var p := FindQuote(text, word);
      var name := text[word..p];
      QuotedIs(text, pnt, word, p, name, Names(), acc);
      if p == |text| { return Halt(Failed(OpenQuote)); }
      if !variable { return Token(Constant(name), p + 1); }
      s := ReadVariable(text, pnt, p, name, NextQuoted(text[pnt + 1..], Names(), acc));
    }

    method ReadVariable(text: string, pnt: nat, p: nat, name: string, ghost step: Step) returns (s: Place)
      requires Valid() && pnt < p < |text|
      requires step == VariableStep(Names(), name, text[p + 1..])
      modifies this`max, slots
      ensures Valid() && Matches(text, pnt, s, Names(), step)
    {
      LookedUp(Names(), name, text[p + 1..]);
      var l := GetVarnum(name);
      if l.Refused? {
        s := Halt(Failed(TableFull));
      } else if l.index >= VARTABLE_SIZE {
        s := Halt(Failed(TableOverrun));
      } else {
        s := Token(Variable(l.index), p + 1);
      }
    }

    /** One round of the loop of tokenize_if. */
    method ReadToken(text: string, pnt: nat, acc: Chain) returns (s: Place)
      requires Valid() && pnt <= |text|
      modifies this`max, slots
      ensures Valid() && Matches(text, pnt, s, Names(), Next(text[pnt..], old(Names()), acc))
    {
      var p := SkipFrom(text, pnt);
      if p == |text| { return Halt(Failed(Unterminated)); }
      NextIs(text, pnt, p, Names(), acc);
      if text[p] == ']' { return Halt(Tokens(acc, Names())); }
      var op, n := OperatorAt(text, p);
      if n > 0 {
        if !Follows(acc, op) { return Halt(Failed(Misplaced)); }
        return Token(op, p + n);
      }
      if text[p] != '\"' { return Halt(Failed(UnknownToken)); }
      s := ReadOperand(text, p, acc);
    }

    /** tokenize_if; a name that does not fit the table ends the run. */
    method TokenizeIf(text: string) returns (r: Outcome)
      requires Valid()
      modifies this`max, slots
      ensures Valid() && r == Tokenized(text, old(Names())) && (r.Tokens? ==> Names() == r.names)
    {
      assert text[0..] == text;
      var p := SkipFrom(text, 0);
      if p == |text| || text[p] != '[' { return Failed(Unopened); }
      assert text[p..][1..] == text[p + 1..];
      r := ScanFrom(text, p + 1);
    }

    method ScanFrom(text: string, pnt: nat) returns (r: Outcome)
      requires Valid() && pnt <= |text|
      modifies this`max, slots
      ensures Valid() && r == Scan(text[pnt..], old(Names()), []) && (r.Tokens? ==> Names() == r.names)
    {
      ghost var all := Scan(text[pnt..], Names(), []);
      var p, acc, done := pnt, [], false;
      r := Failed(Unterminated);
      while !done
        invariant Valid() && p <= |text|
        invariant !done ==> Scan(text[p..], Names(), acc) == all
        invariant done ==> r == all && (r.Tokens? ==> r.names == Names())
        decreases |text| - p, !done
      {
        var s := ReadToken(text, p, acc);
        if s.Halt? { done, r := true, s.outcome; } else { acc, p := acc + [s.t], s.at; }
      }
    }
  }

  /** The result of one round, by places in the text. */
  datatype Place = Halt(outcome: Outcome) | Token(t: Conditions.Token, at: nat)

  /** The place describes the step, and the table holds the names after it. */
  ghost predicate Matches(text: string, pnt: nat, p: Place, names: seq<string>, s: Step) {
    match p
    case Halt(o) => s == Stop(o) && (o.Tokens? ==> o.names == names)
    case Token(t, at) => pnt < at <= |text| && s == Go(t, text[at..], names)
  }

  function VariableStep(names: seq<string>, name: string, rest: string): Step {
    if LookUp(names, name).Refused? then Stop(Failed(TableFull))
    else if !InTable(LookUp(names, name)) then Stop(Failed(TableOverrun))
    else Go(Variable(IndexOf(Interned(names, name), name)), rest, Interned(names, name))
  }

  /** A new name gets the index after the last. */
  lemma LookedUp(names: seq<string>, name: string, rest: string)
    requires Distinct(names) && |names| <= CAPACITY
    ensures var l := LookUp(names, name);
            VariableStep(names, name, rest) ==
            if l.Refused? then Stop(Failed(TableFull))
            else if l.index >= VARTABLE_SIZE then Stop(Failed(TableOverrun))
            else Go(Variable(l.index), rest, if l.New? then names + [name] else names)
  {
    if name !in names {
      assert (names + [name])[|names|] == name;
      IndexUnique(names + [name], |names| + 1);
    }
  }

  /** NextQuoted by places in the text: the word is between word and q. */
  lemma QuotedIs(text: string, pnt: nat, word: nat, q: nat, name: string, names: seq<string>, acc: Chain)
    requires pnt < |text| && Follows(acc, Constant(""))
    requires word == (if pnt + 1 < |text| && text[pnt + 1] == '$' then pnt + 2 else pnt + 1)
    requires q == word + QuoteAt(text[word..]) && name == text[word..q]
    ensures NextQuoted(text[pnt + 1..], names, acc) ==
            if q == |text| then Stop(Failed(OpenQuote))
            else if word == pnt + 1 then Go(Constant(name), text[q + 1..], names)
            else VariableStep(names, name, text[q + 1..])
  {
    OperandText(text, pnt, word);
    if q < |text| { WordText(text, word, q); }
  }

  lemma OperandText(text: string, pnt: nat, word: nat)
    requires pnt < |text| && pnt + 1 <= word <= |text| && word <= pnt + 2
    ensures text[pnt + 1..] != "" <==> pnt + 1 < |text|
    ensures word == pnt + 2 ==> text[pnt + 1..][0] == text[pnt + 1] && text[pnt + 1..][1..] == text[word..]
    ensures pnt + 1 < |text| ==> text[pnt + 1..][0] == text[pnt + 1]
  {}

  lemma WordText(text: string, word: nat, p: nat)
    requires word <= p < |text|
    ensures text[word..][..p - word] == text[word..p] && text[word..][p - word + 1..] == text[p + 1..]
  {}

  /** The operator at p and its length, 0 for none. */
  method OperatorAt(text: string, p: nat) returns (op: Token, n: nat)
    requires p < |text|
    ensures n > 0 <==> Operator(text[p..]).Lexeme?
    ensures n > 0 ==> p + n <= |text| && Operator(text[p..]) == Lexeme(op, text[p + n..])
  {
    ghost var t := text[p..];
    assert t[0] == text[p] && (p + 1 < |text| ==> t[1] == text[p + 1]);
    assert t[1..] == text[p + 1..] && (p + 1 < |text| ==> t[2..] == text[p + 2..]);
    if text[p] == '-' && p + 1 < |text| && text[p + 1] == 'a' { return And, 2; }
    if text[p] == '-' && p + 1 < |text| && text[p + 1] == 'o' { return Or, 2; }
    if text[p] == '!' && p + 1 < |text| && text[p + 1] == '=' { return Neq, 2; }
    if text[p] == '=' { return Eq, 1; }
    if text[p] == '!' { return Bang, 1; }
    return Bang, 0;
  }

  lemma NextIs(text: string, from: nat, p: nat, names: seq<string>, acc: Chain)
    requires from <= p < |text| && text[p..] == SkipBlanks(text[from..])
    ensures Next(text[from..], names, acc) ==
            var l := Operator(text[p..]);
            if text[p] == ']' then Stop(Tokens(acc, names))
            else if l.Lexeme? then if Follows(acc, l.op) then Go(l.op, l.rest, names) else Stop(Failed(Misplaced))
            else if text[p] == '\"' then NextQuoted(text[p + 1..], names, acc)
            else Stop(Failed(UnknownToken))
  {
    assert text[p..][0] == text[p] && text[p..][1..] == text[p + 1..];
  }
}
