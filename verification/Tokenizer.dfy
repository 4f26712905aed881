/**
 * config/scripts/tkparse.c: the variable table (get_varnum) and the tokenizer of `if` conditions
 * (tokenize_if). A text is what stands before its terminating NUL.
 */
module Tokenizer {
  import opened Conditions

  // ---- the variable table ----

  const VARTABLE_SIZE: nat := 8192

  /** Names that fit: slots 1 to 8191, since slot 0 is not used. */
  const CAPACITY: nat := VARTABLE_SIZE - 1

  predicate Distinct(names: seq<string>) {
    forall i, j :: 0 <= i < j < |names| ==> names[i] != names[j]
  }

  function Interned(names: seq<string>, name: string): seq<string> {
    if name in names then names else names + [name]
  }

  /** The index of a name, counted from 1. */
  function IndexOf(names: seq<string>, name: string): (i: nat)
    requires name in names
    ensures 1 <= i <= |names| && names[i - 1] == name
  {
    if names[0] == name then 1 else 1 + IndexOf(names[1..], name)
  }

  lemma IndexUnique(names: seq<string>, i: nat)
    requires Distinct(names) && 1 <= i <= |names|
    ensures IndexOf(names, names[i - 1]) == i
  {}

  datatype Lookup = Old(index: nat) | New(index: nat) | Refused

  /** get_varnum with its guard: the slot found, the slot written, or a refusal. */
  function LookUp(names: seq<string>, name: string): Lookup {
    if name in names then Old(IndexOf(names, name))
    else if |names| > VARTABLE_SIZE - 1 then Refused
    else New(|names| + 1)
  }

  /** The slot that get_varnum writes, if any, is a slot of the table. */
  predicate InTable(l: Lookup) { l.New? ==> l.index < VARTABLE_SIZE }

  /** The guard refuses only beyond the last slot, so a new name is written past the table exactly when it is full. */
  lemma GuardExact(names: seq<string>, name: string)
    ensures LookUp(names, name).Refused? <==> name !in names && |names| > CAPACITY
    ensures InTable(LookUp(names, name)) <==> name in names || |names| != CAPACITY
  {}

  /** With all 8191 slots in use the next name goes to slot 8192 of 8192. */
  lemma OverrunExample(names: seq<string>, name: string)
    requires |names| == 8191 && name !in names
    ensures LookUp(names, name) == New(VARTABLE_SIZE) && !InTable(LookUp(names, name))
  {}

  /** A name keeps its index when others are added. */
  lemma {:induction false} IndexKept(names: seq<string>, other: string, name: string)
    requires name in names
    ensures name in Interned(names, other) && IndexOf(Interned(names, other), name) == IndexOf(names, name)
    decreases |names|
  {
    if other !in names && names[0] != name {
      assert (names + [other])[1..] == names[1..] + [other];
      IndexKept(names[1..], other, name);
    }
  }

  // ---- the tokenizer ----

  datatype Failure = Unopened | Unterminated | Misplaced | OpenQuote | UnknownToken
    | TableFull     // get_varnum refuses
    | TableOverrun  // a name beyond the last slot, which the guard of get_varnum lets through

  datatype Outcome = Tokens(chain: Chain, names: seq<string>) | Failed(why: Failure)

  predicate IsBlank(c: char) { c == ' ' || c == '\t' }

  function SkipBlanks(text: string): (t: string)
    ensures |t| <= |text| && (t != "" ==> !IsBlank(t[0]))
  {
    if text != "" && IsBlank(text[0]) then SkipBlanks(text[1..]) else text
  }

  /** The place of the first double quote, |text| if there is none. */
  function QuoteAt(text: string): (q: nat)
    ensures q <= |text| && '\"' !in text[..q] && (q < |text| ==> text[q] == '\"')
  {
    if text == "" || text[0] == '\"' then 0 else 1 + QuoteAt(text[1..])
  }

  /** Whether token t may stand after prev. */
  predicate MayFollow(prev: Token, t: Token) {
    if IsOperand(t) then !IsOperand(prev)
    else if t.Bang? then IsAnd(prev) || prev.Or? || prev.Bang?
    else IsOperand(prev)
  }

  /** The start of a chain is like the place after a `!`. */
  function Prev(ts: Chain, i: nat): Token
    requires i <= |ts|
  {
    if i == 0 then Bang else ts[i - 1]
  }

  predicate Follows(acc: Chain, t: Token) { MayFollow(Prev(acc, |acc|), t) }

  datatype Lexeme = Lexeme(op: Token, rest: string) | NoOperator

  /** An operator at the start of the text. */
  function Operator(t: string): (l: Lexeme)
    ensures l.Lexeme? ==> |l.rest| < |t| && IsSource(l.op) && !IsOperand(l.op)
  {
    if t == "" then NoOperator
    else if t[0] == '-' && |t| > 1 && t[1] == 'a' then Lexeme(And, t[2..])
    else if t[0] == '-' && |t| > 1 && t[1] == 'o' then Lexeme(Or, t[2..])
    else if t[0] == '!' && |t| > 1 && t[1] == '=' then Lexeme(Neq, t[2..])
    else if t[0] == '=' then Lexeme(Eq, t[1..])
    else if t[0] == '!' then Lexeme(Bang, t[1..])
    else NoOperator
  }

  /** Either the tokenizer stops, or there is one more token and it goes on at rest. */
  datatype Step = Stop(outcome: Outcome) | Go(t: Token, rest: string, names: seq<string>)

  function Next(text: string, names: seq<string>, acc: Chain): (s: Step)
    ensures s.Go? ==> |s.rest| < |text|
  {
    var t := SkipBlanks(text);
    var l := Operator(t);
    if t == "" then Stop(Failed(Unterminated))
    else if t[0] == ']' then Stop(Tokens(acc, names))
    else if l.Lexeme? then if Follows(acc, l.op) then Go(l.op, l.rest, names) else Stop(Failed(Misplaced))
    else if t[0] == '\"' then NextQuoted(t[1..], names, acc)
    else Stop(Failed(UnknownToken))
  }

  /** An operand whose opening quote has been read. */
  function NextQuoted(t: string, names: seq<string>, acc: Chain): (s: Step)
    ensures s.Go? ==> |s.rest| < |t|
  {
    var variable := t != "" && t[0] == '$';
    var w := if variable then t[1..] else t;
    var q := QuoteAt(w);
    var word := w[..q];
    if !Follows(acc, Constant("")) then Stop(Failed(Misplaced))
    else if q == |w| then Stop(Failed(OpenQuote))
    else if !variable then Go(Constant(word), w[q + 1..], names)
    else if LookUp(names, word).Refused? then Stop(Failed(TableFull))
    else if !InTable(LookUp(names, word)) then Stop(Failed(TableOverrun))
    else Go(Variable(IndexOf(Interned(names, word), word)), w[q + 1..], Interned(names, word))
  }

  /** Tokens up to the closing bracket, after those in acc. */
  function Scan(text: string, names: seq<string>, acc: Chain): Outcome
    decreases |text|
  {
    var s := Next(text, names, acc);
    if s.Stop? then s.outcome else Scan(s.rest, s.names, acc + [s.t])
  }

  function Tokenized(text: string, names: seq<string>): Outcome {
    var t := SkipBlanks(text);
    if t == "" || t[0] != '[' then Failed(Unopened) else Scan(t[1..], names, [])
  }

  // ---- what is accepted ----

  /** No adjacent operands, an operand before each binary operator, `!` only at the start or after -a, -o, `!`. */
  predicate Shaped(ts: Chain) { ShapedBefore(ts, |ts|) }

  predicate ShapedBefore(ts: Chain, k: nat)
    requires k <= |ts|
  {
    forall i :: 0 <= i < k ==> MayFollow(Prev(ts, i), ts[i])
  }

  /** Operators of the input language, and variables of the table. */
  predicate FromSource(ts: Chain, names: seq<string>) {
    forall i :: 0 <= i < |ts| ==> IsSource(ts[i]) && (ts[i].Variable? ==> 1 <= ts[i].nameindex <= |names|)
  }

  lemma ShapedPush(acc: Chain, t: Token)
    requires Shaped(acc)
    ensures Shaped(acc + [t]) <==> Follows(acc, t)
  {
    var ts := acc + [t];
    forall i | 0 <= i < |acc| ensures MayFollow(Prev(ts, i), ts[i]) {
      assert MayFollow(Prev(acc, i), acc[i]);
    }
    assert Prev(ts, |acc|) == Prev(acc, |acc|);
  }

  predicate GoodTable(names: seq<string>) { Distinct(names) && |names| <= CAPACITY }

  lemma NextAccepts(text: string, names: seq<string>, acc: Chain)
    requires FromSource(acc, names) && GoodTable(names)
    ensures var s := Next(text, names, acc);
            && (s.Go? ==>
                 Follows(acc, s.t) && FromSource(acc + [s.t], s.names) && GoodTable(s.names) && names <= s.names)
            && (s.Stop? && s.outcome.Tokens? ==> s.outcome == Tokens(acc, names))
  {}

  /** Every accepted chain is shaped, uses the table, and only adds names to it. */
  lemma {:induction false} ScanAccepts(text: string, names: seq<string>, acc: Chain)
    requires Shaped(acc) && FromSource(acc, names) && GoodTable(names)
    ensures var r := Scan(text, names, acc);
            r.Tokens? ==> Shaped(r.chain) && FromSource(r.chain, r.names) && GoodTable(r.names) && names <= r.names
    decreases |text|
  {
    var s := Next(text, names, acc);
    NextAccepts(text, names, acc);
    if s.Go? {
      ShapedPush(acc, s.t);
      ScanAccepts(s.rest, s.names, acc + [s.t]);
    }
  }

  lemma TokenizedAccepts(text: string, names: seq<string>)
    requires GoodTable(names)
    ensures var r := Tokenized(text, names);
            r.Tokens? ==> Shaped(r.chain) && FromSource(r.chain, r.names) && GoodTable(r.names) && names <= r.names
  {
    var t := SkipBlanks(text);
    if t != "" && t[0] == '[' { ScanAccepts(t[1..], names, []); }
  }

  // ---- printing ----

  function Show(t: Token, names: seq<string>): string
    requires IsSource(t) && (t.Variable? ==> 1 <= t.nameindex <= |names|)
  {
    match t
    case Eq => "="
    case Neq => "!="
    case And => "-a"
    case Or => "-o"
    case Bang => "!"
    case Constant(s) => ['\"'] + (s + ['\"'])
    case Variable(i) => ['\"'] + (['$'] + (names[i - 1] + ['\"']))
  }

  function Print(ts: Chain, names: seq<string>): string
    requires FromSource(ts, names)
  {
    if ts == [] then "" else [' '] + Show(ts[0], names) + Print(ts[1..], names)
  }

  /** Words without a double quote; constants do not start with '$'. */
  predicate PrintableToken(t: Token, names: seq<string>)
    requires t.Variable? ==> 1 <= t.nameindex <= |names|
  {
    match t
    case Constant(s) => '\"' !in s && (s != "" ==> s[0] != '$')
    case Variable(i) => '\"' !in names[i - 1]
    case _ => true
  }

  predicate Printable(ts: Chain, names: seq<string>)
    requires FromSource(ts, names)
  {
    forall i :: 0 <= i < |ts| ==> PrintableToken(ts[i], names)
  }

  lemma {:induction false} QuoteEnds(word: string, rest: string)
    requires '\"' !in word
    ensures QuoteAt(word + ['\"'] + rest) == |word|
    decreases |word|
  {
    if word != "" {
      assert (word + ['\"'] + rest)[1..] == word[1..] + ['\"'] + rest;
      QuoteEnds(word[1..], rest);
    }
  }

  /** One printed token is read back; rest goes on with a blank. */
  lemma NextShown(t: Token, names: seq<string>, acc: Chain, rest: string)
    requires IsSource(t) && (t.Variable? ==> 1 <= t.nameindex <= |names|) && PrintableToken(t, names) && Distinct(names)
    requires rest != "" && IsBlank(rest[0])
    ensures Next(Show(t, names) + rest, names, acc) == Expected(t, names, acc, rest)
  {
    match t
    case Constant(s) => ShownConstant(s, names, acc, rest);
    case Variable(i) => ShownVariable(i, names, acc, rest, Show(t, names) + rest);
    case _ => ShownOperator(t, names, rest);
  }

  function Expected(t: Token, names: seq<string>, acc: Chain, rest: string): Step {
    if Follows(acc, t) then Go(t, rest, names) else Stop(Failed(Misplaced))
  }

  lemma ShownOperator(t: Token, names: seq<string>, rest: string)
    requires IsSource(t) && !IsOperand(t) && rest != "" && IsBlank(rest[0])
    ensures var text := Show(t, names) + rest;
            text != "" && text[0] != ']' && !IsBlank(text[0]) && Operator(text) == Lexeme(t, rest)
  {
    var s := Show(t, names);
    assert (s + rest)[|s|..] == rest;
  }

  lemma NextQuote(t: string, names: seq<string>, acc: Chain)
    ensures Next(['\"'] + t, names, acc) == NextQuoted(t, names, acc)
  {
    assert (['\"'] + t)[1..] == t;
  }

  lemma QuotedText(word: string, rest: string)
    ensures ['\"'] + (['$'] + (word + ['\"'])) + rest == ['\"'] + (['$'] + (word + ['\"'] + rest))
    ensures ['\"'] + (word + ['\"']) + rest == ['\"'] + (word + ['\"'] + rest)
  {}

  lemma ShownConstant(s: string, names: seq<string>, acc: Chain, rest: string)
    requires PrintableToken(Constant(s), names)
    ensures Next(Show(Constant(s), names) + rest, names, acc) == Expected(Constant(s), names, acc, rest)
  {
    var w := s + ['\"'] + rest;
    QuotedText(s, rest);
    QuoteEnds(s, rest);
    WordEnds(s, rest, w);
    ShownQuoted(Show(Constant(s), names) + rest, w, names, acc);
  }

  lemma ShownVariable(i: nat, names: seq<string>, acc: Chain, rest: string, text: string)
    requires 1 <= i <= |names| && PrintableToken(Variable(i), names) && Distinct(names)
    requires text == Show(Variable(i), names) + rest
    ensures Next(text, names, acc) == Expected(Variable(i), names, acc, rest)
  {
    var w := names[i - 1] + ['\"'] + rest;
    var t := ['$'] + w;
    VariableText(i, names, rest, text, t);
    QuotedVariable(i, names, acc, rest, w, t);
    ShownQuoted(text, t, names, acc);
  }

  lemma VariableText(i: nat, names: seq<string>, rest: string, text: string, t: string)
    requires 1 <= i <= |names| && text == Show(Variable(i), names) + rest
    requires t == ['$'] + (names[i - 1] + ['\"'] + rest)
    ensures text == ['\"'] + t
  {
    QuotedText(names[i - 1], rest);
  }

  lemma ShownQuoted(text: string, t: string, names: seq<string>, acc: Chain)
    requires text == ['\"'] + t
    ensures Next(text, names, acc) == NextQuoted(t, names, acc)
  {
    NextQuote(t, names, acc);
  }

  lemma QuotedVariable(i: nat, names: seq<string>, acc: Chain, rest: string, w: string, t: string)
    requires 1 <= i <= |names| && PrintableToken(Variable(i), names) && Distinct(names)
    requires w == names[i - 1] + ['\"'] + rest && t == ['$'] + w
    ensures NextQuoted(t, names, acc) == Expected(Variable(i), names, acc, rest)
  {
    var name := names[i - 1];
    QuoteEnds(name, rest);
    IndexUnique(names, i);
    WordEnds(name, rest, w);
    assert t[1..] == w;
  }

  lemma WordEnds(word: string, rest: string, w: string)
    requires w == word + ['\"'] + rest
    ensures w[..|word|] == word && w[|word| + 1..] == rest
  {}

  /** A condition's text up to its bracket and what follows. */
  function Closed(body: string, tail: string): string { body + [' ', ']'] + tail }

  // ---- any blanks between the tokens ----

  /** Spaces and tabs, at least one. */
  predicate IsGap(gap: string) { gap != "" && forall i :: 0 <= i < |gap| ==> gap[i] == ' ' || gap[i] == '\t' }

  predicate AreGaps(gaps: seq<string>) { forall i :: 0 <= i < |gaps| ==> IsGap(gaps[i]) }

  lemma {:induction false} GapSkipped(gap: string, text: string)
    requires forall i :: 0 <= i < |gap| ==> gap[i] == ' ' || gap[i] == '\t'
    ensures SkipBlanks(gap + text) == SkipBlanks(text)
    decreases |gap|
  {
    if gap == "" {
      assert gap + text == text;
    } else {
      assert (gap + text)[1..] == gap[1..] + text;
      GapSkipped(gap[1..], text);
    }
  }

  lemma NextAfterGap(gap: string, text: string, names: seq<string>, acc: Chain)
    requires IsGap(gap)
    ensures Next(gap + text, names, acc) == Next(text, names, acc)
  {
    GapSkipped(gap, text);
  }

  /** The tokens from k on, each after its gap, then a gap and the closing bracket. */
  function Spaced(c: Chain, k: nat, gaps: seq<string>, names: seq<string>, tail: string): string
    requires FromSource(c, names) && |gaps| == |c| + 1 && k <= |c|
    decreases |c| - k
  {
    gaps[k] + if k == |c| then [']'] + tail else Show(c[k], names) + Spaced(c, k + 1, gaps, names, tail)
  }

  lemma SpacedStart(c: Chain, k: nat, gaps: seq<string>, names: seq<string>, tail: string)
    requires FromSource(c, names) && |gaps| == |c| + 1 && k <= |c| && AreGaps(gaps)
    ensures var text := Spaced(c, k, gaps, names, tail); text != "" && IsBlank(text[0])
  {
    assert IsGap(gaps[k]);
  }

  lemma Slices(c: Chain, k: nat)
    requires k < |c|
    ensures c[k..][0] == c[k] && c[k..][1..] == c[k + 1..] && c[..k + 1] == c[..k] + [c[k]]
    ensures Prev(c, k) == Prev(c[..k], k)
  {}

  /** The rest of a printed chain is read back exactly when the chain is shaped. */
  lemma {:induction false} ScanSpaced(c: Chain, k: nat, gaps: seq<string>, names: seq<string>, tail: string)
    requires FromSource(c, names) && Printable(c, names) && Distinct(names) && k <= |c| && ShapedBefore(c, k)
    requires |gaps| == |c| + 1 && AreGaps(gaps)
    ensures Scan(Spaced(c, k, gaps, names, tail), names, c[..k]) ==
            if Shaped(c) then Tokens(c, names) else Failed(Misplaced)
    decreases |c| - k
  {
    if k == |c| {
      assert c[..k] == c && IsGap(gaps[k]);
      ScanEnd(gaps[k], names, c, tail);
    } else {
      SpacedStep(c, k, gaps, names, tail);
      if MayFollow(Prev(c, k), c[k]) { ScanSpaced(c, k + 1, gaps, names, tail); }
    }
  }

  lemma ScanEnd(gap: string, names: seq<string>, acc: Chain, tail: string)
    requires IsGap(gap)
    ensures Scan(gap + ([']'] + tail), names, acc) == Tokens(acc, names)
  {
    NextAfterGap(gap, [']'] + tail, names, acc);
    assert SkipBlanks([']'] + tail) == [']'] + tail;
  }

  lemma SpacedStep(c: Chain, k: nat, gaps: seq<string>, names: seq<string>, tail: string)
    requires FromSource(c, names) && Printable(c, names) && Distinct(names) && k < |c|
    requires |gaps| == |c| + 1 && AreGaps(gaps)
    ensures Scan(Spaced(c, k, gaps, names, tail), names, c[..k]) ==
            if MayFollow(Prev(c, k), c[k]) then Scan(Spaced(c, k + 1, gaps, names, tail), names, c[..k + 1])
            else Failed(Misplaced)
  {
    var rest := Spaced(c, k + 1, gaps, names, tail);
    Slices(c, k);
    SpacedStart(c, k + 1, gaps, names, tail);
    assert IsGap(gaps[k]);
    NextAfterGap(gaps[k], Show(c[k], names) + rest, names, c[..k]);
    NextShown(c[k], names, c[..k], rest);
  }

  /** Round trip, whatever blanks stand between the tokens and before the brackets. */
  lemma SpacedRoundTrip(ts: Chain, lead: string, gaps: seq<string>, names: seq<string>, tail: string)
    requires FromSource(ts, names) && Printable(ts, names) && Distinct(names)
    requires |gaps| == |ts| + 1 && AreGaps(gaps) && (lead == "" || IsGap(lead))
    ensures Tokenized(lead + (['['] + Spaced(ts, 0, gaps, names, tail)), names) ==
            if Shaped(ts) then Tokens(ts, names) else Failed(Misplaced)
  {
    GapSkipped(lead, ['['] + Spaced(ts, 0, gaps, names, tail));
    TokenizedOpen(Spaced(ts, 0, gaps, names, tail), names);
    ScanSpaced(ts, 0, gaps, names, tail);
    assert ts[..0] == [];
  }

  lemma {:induction false} PrintIsSpaced(c: Chain, k: nat, gaps: seq<string>, names: seq<string>, tail: string)
    requires FromSource(c, names) && k <= |c| && |gaps| == |c| + 1 && forall i :: 0 <= i < |gaps| ==> gaps[i] == [' ']
    ensures FromSource(c[k..], names) && Spaced(c, k, gaps, names, tail) == Closed(Print(c[k..], names), tail)
    decreases |c| - k
  {
    if k == |c| {
      assert c[k..] == [] && [' '] + ([']'] + tail) == "" + [' ', ']'] + tail;
    } else {
      PrintIsSpaced(c, k + 1, gaps, names, tail);
      Slices(c, k);
      Regroup(Show(c[k], names), Print(c[k + 1..], names), tail);
    }
  }

  lemma Regroup(a: string, b: string, tail: string)
    ensures [' '] + (a + Closed(b, tail)) == Closed([' '] + a + b, tail)
  {}

  /** Round trip: tokenizing the printed form gives the chain and leaves the table alone. */
  lemma RoundTrip(ts: Chain, names: seq<string>, tail: string)
    requires FromSource(ts, names) && Printable(ts, names) && Distinct(names)
    ensures Tokenized(['['] + Closed(Print(ts, names), tail), names) ==
            if Shaped(ts) then Tokens(ts, names) else Failed(Misplaced)
  {
    var gaps := seq(|ts| + 1, i => [' ']);
    PrintIsSpaced(ts, 0, gaps, names, tail);
    ScanSpaced(ts, 0, gaps, names, tail);
    TokenizedOpen(Closed(Print(ts, names), tail), names);
    assert ts[0..] == ts && ts[..0] == [];
  }

  lemma TokenizedOpen(body: string, names: seq<string>)
    ensures Tokenized(['['] + body, names) == Scan(body, names, [])
  {
    assert (['['] + body)[1..] == body;
  }

  // ---- every expression is accepted ----

  /** An expression may start after token prev. */
  predicate Ready(prev: Token) { IsAnd(prev) || prev.Or? || prev.Bang? }

  predicate ShapedFrom(c: Chain, k: nat, j: nat)
    requires k <= j <= |c|
  {
    forall i :: k <= i < j ==> MayFollow(Prev(c, i), c[i])
  }

  /** What was read from c[k..], leaving rest, is shaped and ends with an operand. */
  predicate ReadShaped(c: Chain, k: nat, rest: Chain) {
    var j := |c| - |rest|;
    k < j <= |c| && rest == c[j..] && ShapedFrom(c, k, j) && IsOperand(c[j - 1])
  }

  lemma BangShaped(c: Chain, k: nat, rest: Chain)
    requires k < |c| && Ready(Prev(c, k)) && c[k].Bang? && ReadShaped(c, k + 1, rest)
    ensures ReadShaped(c, k, rest)
  {}

  lemma ComparisonShaped(c: Chain, k: nat)
    requires k + 3 <= |c| && Ready(Prev(c, k)) && IsOperand(c[k]) && IsComparison(c[k + 1]) && IsOperand(c[k + 2])
    ensures ReadShaped(c, k, c[k + 3..])
  {}

  /** Two expressions with an operator between them. */
  lemma JoinedShaped(c: Chain, k: nat, middle: Chain, rest: Chain)
    requires ReadShaped(c, k, middle) && middle != [] && (IsAnd(middle[0]) || middle[0].Or?)
    requires ReadShaped(c, |c| - |middle| + 1, rest)
    ensures ReadShaped(c, k, rest)
  {
    var j := |c| - |middle|;
    assert c[j] == middle[0] && Prev(c, j) == c[j - 1];
  }

  lemma {:induction false} UnitShaped(c: Chain, k: nat, s: Chain, v: Valuation)
    requires AllSource(c) && k <= |c| && s == c[k..] && Ready(Prev(c, k)) && Unit(s, v).Read?
    ensures ReadShaped(c, k, Unit(s, v).rest)
    decreases |c| - k
  {
    assert s[0] == c[k];
    if c[k].Bang? {
      assert s[1..] == c[k + 1..];
      UnitShaped(c, k + 1, s[1..], v);
      BangShaped(c, k, Unit(s, v).rest);
    } else {
      assert s[1] == c[k + 1] && s[2] == c[k + 2] && s[3..] == c[k + 3..];
      ComparisonShaped(c, k);
    }
  }

  /** The place where rest goes on after an operator. */
  lemma After(c: Chain, k: nat, rest: Chain) returns (j: nat)
    requires ReadShaped(c, k, rest) && rest != []
    ensures k < j <= |c| && j == |c| - |rest| + 1 && rest[1..] == c[j..] && Prev(c, j) == rest[0]
  {
    j := |c| - |rest| + 1;
  }

  lemma {:induction false} ConjunctionShaped(c: Chain, k: nat, s: Chain, v: Valuation)
    requires AllSource(c) && k <= |c| && s == c[k..] && Ready(Prev(c, k)) && Conjunction(s, v).Read?
    ensures ReadShaped(c, k, Conjunction(s, v).rest)
    decreases |c| - k
  {
    var u := Unit(s, v).rest;
    UnitShaped(c, k, s, v);
    if u != [] && IsAnd(u[0]) {
      var j := After(c, k, u);
      ConjunctionShaped(c, j, u[1..], v);
      JoinedShaped(c, k, u, Conjunction(u[1..], v).rest);
    }
  }

  lemma {:induction false} DisjunctionShaped(c: Chain, k: nat, s: Chain, v: Valuation)
    requires AllSource(c) && k <= |c| && s == c[k..] && Ready(Prev(c, k)) && Disjunction(s, v).Read?
    ensures ReadShaped(c, k, Disjunction(s, v).rest)
    decreases |c| - k
  {
    var u := Conjunction(s, v).rest;
    ConjunctionShaped(c, k, s, v);
    if u != [] && u[0].Or? {
      var j := After(c, k, u);
      DisjunctionShaped(c, j, u[1..], v);
      JoinedShaped(c, k, u, Disjunction(u[1..], v).rest);
    }
  }

  /** Every expression of the input language is accepted, so it survives printing and tokenizing. */
  lemma ExpressionsShaped(c: Chain)
    requires AllSource(c) && WellFormed(c)
    ensures Shaped(c)
  {
    DisjunctionShaped(c, 0, c, Blank);
  }
}
