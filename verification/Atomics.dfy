/**
 * The compare-and-exchange retry loops of include/atomic.h. Any number of threads take steps in
 * any order: a thread calls an operation, loads the word, and tries its compare-and-exchange.
 * The load and the compare-and-exchange are single steps on one shared word.
 */
module Atomics {
  import opened Sequences

  // ---- the shared word ----

  /** A type of word: its values, conversion to it, and its bits. AtomicWords has the C types. */
  datatype Cell = Cell(
    holds: int -> bool,
    wrap: int -> int,
    bits: nat,
    bit: (int, nat) -> bool,
    or: (int, nat) -> int)       // x | 1 << b

  /** Conversion yields a value, keeps values, and may be applied before adding. */
  ghost predicate WrapLaw(c: Cell, x: int, v: int) {
    && c.holds(c.wrap(x)) && (c.holds(x) ==> c.wrap(x) == x)
    && c.wrap(c.wrap(x) + v) == c.wrap(x + v)
  }

  ghost predicate RangeLaw(c: Cell, x: int) { c.holds(0) && (c.holds(x) && x > 0 ==> c.holds(x - 1)) }

  /** Or sets bit b and no other. */
  ghost predicate OrLaw(c: Cell, x: int, b: nat, k: nat) {
    c.holds(x) ==> c.holds(c.or(x, b)) && (b < c.bits ==> (c.bit(c.or(x, b), k) <==> c.bit(x, k) || k == b))
  }

  ghost predicate Lawful(c: Cell) {
    && (forall x, v {:trigger WrapLaw(c, x, v)} :: WrapLaw(c, x, v))
    && (forall x {:trigger RangeLaw(c, x)} :: RangeLaw(c, x))
    && (forall x, b, k {:trigger OrLaw(c, x, b, k)} :: OrLaw(c, x, b, k))
  }

  lemma WrapKeeps(c: Cell, x: int)
    requires Lawful(c) && c.holds(x)
    ensures c.wrap(x) == x
  {
    assert WrapLaw(c, x, 0);
  }

  lemma WrapTwice(c: Cell, x: int, v: int)
    requires Lawful(c)
    ensures c.wrap(c.wrap(x) + v) == c.wrap(x + v)
  {
    assert WrapLaw(c, x, v);
  }

  // ---- the operations, one at a time ----

  datatype Op =
    | Exchange(value: int)      // atomic_exchange_acq
    | Add(value: int)           // atomic_exchange_and_add
    | DecrementIfPositive
    | SetBit(bit: nat)          // atomic_bit_test_set

  predicate IsExchange(op: Op) { op.Exchange? }

  predicate IsAdd(op: Op) { op.Add? }

  predicate IsDecrement(op: Op) { op.DecrementIfPositive? }

  /** What the operation does to the word when nothing interferes. */
  function Apply(c: Cell, op: Op, m: int): int {
    match op
    case Exchange(v) => c.wrap(v)
    case Add(v) => c.wrap(m + v)
    case DecrementIfPositive => if m > 0 then m - 1 else m
    case SetBit(b) => c.or(m, b)
  }

  predicate Writes(op: Op, m: int) { op.DecrementIfPositive? ==> m > 0 }

  /** A completed operation. It returned before (for SetBit, the tested bit of before). */
  datatype Event = Event(tid: nat, op: Op, before: int, after: int, wrote: bool)

  datatype Invocation = Invocation(tid: nat, op: Op)

  function Invocations(log: seq<Event>): seq<Invocation> {
    if log == [] then [] else Invocations(Front(log)) + [Invocation(Last(log).tid, Last(log).op)]
  }

  /** The word after a log that began with the word at m. */
  function Final(m: int, log: seq<Event>): int { if log == [] then m else Last(log).after }

  /** The invocations executed one after the other. */
  function Serial(c: Cell, m: int, calls: seq<Invocation>): seq<Event> {
    if calls == [] then []
    else
      var done := Serial(c, m, Front(calls));
      var call, now := Last(calls), Final(m, done);
      done + [Event(call.tid, call.op, now, Apply(c, call.op, now), Writes(call.op, now))]
  }

  // ---- the retry loops as a transition system ----

  /** Where a thread is in its macro; base counts other threads' writes up to its load. */
  datatype Local = Idle | Calling(op: Op) | Loaded(op: Op, oldval: int, base: nat)

  datatype State = State(mem: int, locals: map<nat, Local>, log: seq<Event>, retries: map<nat, nat>)

  datatype Step = Call(tid: nat, op: Op) | Load(tid: nat) | CompareExchange(tid: nat)

  function At(s: State, t: nat): Local { if t in s.locals then s.locals[t] else Idle }

  function Retries(s: State, t: nat): nat { if t in s.retries then s.retries[t] else 0 }

  function OthersWrites(log: seq<Event>, t: nat): nat {
    if log == [] then 0
    else OthersWrites(Front(log), t) + if Last(log).tid != t && Last(log).wrote then 1 else 0
  }

  /** The value a loop tries to store over oldval. */
  function NewValue(c: Cell, op: Op, oldval: int): int {
    match op
    case Exchange(v) => c.wrap(v)
    case Add(v) => c.wrap(oldval + c.wrap(v))
    case DecrementIfPositive => c.wrap(oldval - 1)
    case SetBit(b) => c.or(oldval, b)
  }

  function Return(s: State, t: nat, e: Event): State {
    s.(mem := e.after, locals := s.locals[t := Idle], log := s.log + [e])
  }

  function LoadStep(c: Cell, s: State, t: nat, op: Op): State {
    if op.DecrementIfPositive? && s.mem <= 0 then Return(s, t, Event(t, op, s.mem, s.mem, false))
    else s.(locals := s.locals[t := Loaded(op, s.mem, OthersWrites(s.log, t))])
  }

  function CompareStep(c: Cell, s: State, t: nat, op: Op, oldval: int): State {
    if s.mem == oldval then Return(s, t, Event(t, op, oldval, NewValue(c, op, oldval), true))
    else s.(locals := s.locals[t := Calling(op)], retries := s.retries[t := Retries(s, t) + 1])
  }

  /** A step that its thread cannot take changes nothing. */
  function Next(c: Cell, s: State, step: Step): State {
    match (step, At(s, step.tid))
    case (Call(t, op), Idle) => s.(locals := s.locals[t := Calling(op)])
    case (Load(t), Calling(op)) => LoadStep(c, s, t, op)
    case (CompareExchange(t), Loaded(op, oldval, _)) => CompareStep(c, s, t, op, oldval)
    case _ => s
  }

  function Initial(m: int): State { State(m, map[], [], map[]) }

  function Run(c: Cell, m: int, steps: seq<Step>): State {
    if steps == [] then Initial(m) else Next(c, Run(c, m, Front(steps)), Last(steps))
  }

  // ---- every interleaving is a serial execution ----

  lemma SerialPush(c: Cell, m: int, log: seq<Event>, e: Event)
    requires log == Serial(c, m, Invocations(log))
    requires e.before == Final(m, log) && e.after == Apply(c, e.op, e.before) && e.wrote == Writes(e.op, e.before)
    ensures log + [e] == Serial(c, m, Invocations(log + [e])) && Final(m, log + [e]) == e.after
  {
    assert Front(log + [e]) == log;
    var calls := Invocations(log) + [Invocation(e.tid, e.op)];
    assert Front(calls) == Invocations(log);
  }

  /** What the loops store is what the operation is meant to do. */
  lemma NewValueIsApply(c: Cell, op: Op, m: int)
    requires Lawful(c) && c.holds(m) && Writes(op, m)
    ensures NewValue(c, op, m) == Apply(c, op, m)
  {
    match op
    case Add(v) => WrapTwice(c, v, m);
    case DecrementIfPositive =>
      assert RangeLaw(c, m);
      WrapKeeps(c, m - 1);
    case _ =>
  }

  lemma ApplyInRange(c: Cell, op: Op, m: int)
    requires Lawful(c) && c.holds(m)
    ensures c.holds(Apply(c, op, m))
  {
    match op
    case Exchange(v) => assert WrapLaw(c, v, 0);
    case Add(v) => assert WrapLaw(c, m + v, 0);
    case DecrementIfPositive => assert RangeLaw(c, m);
    case SetBit(b) => assert OrLaw(c, m, b, b);
  }

  ghost predicate Consistent(c: Cell, m: int, s: State) {
    && c.holds(s.mem) && s.log == Serial(c, m, Invocations(s.log)) && s.mem == Final(m, s.log)
    && forall t :: t in s.locals ==> Ready(s.locals[t])
  }

  /** A loop gets past its load only when it means to write. */
  predicate Ready(l: Local) { l.Loaded? ==> Writes(l.op, l.oldval) }

  lemma ConsistentStep(c: Cell, m: int, s: State, step: Step)
    requires Lawful(c) && Consistent(c, m, s)
    ensures Consistent(c, m, Next(c, s, step))
  {
    var t, l := step.tid, At(s, step.tid);
    if step.Load? && l.Calling? {
      ConsistentLoad(c, m, s, t, l.op);
    } else if step.CompareExchange? && l.Loaded? {
      ConsistentCompare(c, m, s, t, l.op, l.oldval);
    }
  }

  lemma ConsistentLoad(c: Cell, m: int, s: State, t: nat, op: Op)
    requires Consistent(c, m, s)
    ensures Consistent(c, m, LoadStep(c, s, t, op))
  {
    if op.DecrementIfPositive? && s.mem <= 0 { ConsistentReturn(c, m, s, Event(t, op, s.mem, s.mem, false)); }
  }

  lemma ConsistentCompare(c: Cell, m: int, s: State, t: nat, op: Op, oldval: int)
    requires Lawful(c) && Consistent(c, m, s) && Writes(op, oldval)
    ensures Consistent(c, m, CompareStep(c, s, t, op, oldval))
  {
    if s.mem == oldval {
      NewValueIsApply(c, op, oldval);
      ApplyInRange(c, op, oldval);
      ConsistentReturn(c, m, s, Event(t, op, oldval, NewValue(c, op, oldval), true));
    }
  }

  lemma ConsistentReturn(c: Cell, m: int, s: State, e: Event)
    requires Consistent(c, m, s) && c.holds(e.after)
    requires e.before == s.mem && e.after == Apply(c, e.op, s.mem) && e.wrote == Writes(e.op, s.mem)
    ensures Consistent(c, m, Return(s, e.tid, e))
  {
    SerialPush(c, m, s.log, e);
  }

  /**
   * In every interleaving the completed operations, in the order they took effect, are a serial
   * execution: each returned the value just before it and left the value just after it.
   */
  lemma {:induction false} RunIsSerial(c: Cell, m: int, steps: seq<Step>)
    requires Lawful(c) && c.holds(m)
    ensures Consistent(c, m, Run(c, m, steps))
  {
    if steps != [] {
      RunIsSerial(c, m, Front(steps));
      ConsistentStep(c, m, Run(c, m, Front(steps)), Last(steps));
    }
  }

  /** The calls thread t has made, oldest first. */
  function Calls(c: Cell, m: int, steps: seq<Step>, t: nat): seq<Op> {
    if steps == [] then []
    else
      var before, step := Calls(c, m, Front(steps), t), Last(steps);
      if step.Call? && step.tid == t && At(Run(c, m, Front(steps)), t) == Idle then before + [step.op] else before
  }

  function OpsOf(log: seq<Event>, t: nat): seq<Op> {
    if log == [] then []
    else if Last(log).tid == t then OpsOf(Front(log), t) + [Last(log).op]
    else OpsOf(Front(log), t)
  }

  function Pending(l: Local): seq<Op> { if l.Idle? then [] else [l.op] }

  lemma OpsPush(log: seq<Event>, e: Event, t: nat)
    ensures OpsOf(log + [e], t) == if e.tid == t then OpsOf(log, t) + [e.op] else OpsOf(log, t)
    ensures OthersWrites(log + [e], t) == OthersWrites(log, t) + if e.tid != t && e.wrote then 1 else 0
  {
    assert Front(log + [e]) == log;
  }

  /** The word changes only where an operation takes effect, and then its thread returns. */
  lemma OnlyEffectsWrite(c: Cell, s: State, step: Step)
    ensures var s', t := Next(c, s, step), step.tid;
            || (s'.log == s.log && s'.mem == s.mem)
            || (At(s, t) != Idle && At(s', t) == Idle && exists e ::
                  s'.log == s.log + [e] && e.tid == t && e.op == At(s, t).op && e.before == s.mem && e.after == s'.mem)
  {}

  /** Every call takes effect exactly once, and each thread's calls do so in its own order. */
  lemma {:induction false} CallsCompleteOnce(c: Cell, m: int, steps: seq<Step>, t: nat)
    ensures var s := Run(c, m, steps); OpsOf(s.log, t) + Pending(At(s, t)) == Calls(c, m, steps, t)
  {
    if steps != [] {
      var s, step := Run(c, m, Front(steps)), Last(steps);
      CallsCompleteOnce(c, m, Front(steps), t);
      OpsStep(c, s, step, t);
    }
  }

  lemma OpsStep(c: Cell, s: State, step: Step, t: nat)
    ensures var s' := Next(c, s, step);
            OpsOf(s'.log, t) + Pending(At(s', t)) == OpsOf(s.log, t) + Pending(At(s, t))
            + if step.Call? && step.tid == t && At(s, t) == Idle then [step.op] else []
  {
    var s' := Next(c, s, step);
    if s'.log != s.log { OpsPush(s.log, Last(s'.log), t); }
  }

  /** Effects are never undone or reordered: an operation that returned before another was called precedes it. */
  lemma {:induction false} LogGrows(c: Cell, m: int, steps: seq<Step>, k: nat)
    requires k <= |steps|
    ensures Run(c, m, steps[..k]).log <= Run(c, m, steps).log
  {
    if k < |steps| {
      assert Front(steps)[..k] == steps[..k];
      LogGrows(c, m, Front(steps), k);
    } else {
      assert steps[..k] == steps;
    }
  }

  // ---- consequences for whole runs ----

  predicate AllCalls(steps: seq<Step>, allowed: Op -> bool) {
    forall i :: 0 <= i < |steps| && steps[i].Call? ==> allowed(steps[i].op)
  }

  predicate AllOps(log: seq<Event>, allowed: Op -> bool) {
    forall i :: 0 <= i < |log| ==> allowed(log[i].op)
  }

  /** Only operations that were called take effect. */
  lemma {:induction false} OnlyCalled(c: Cell, m: int, steps: seq<Step>, allowed: Op -> bool)
    requires AllCalls(steps, allowed)
    ensures var s := Run(c, m, steps);
            AllOps(s.log, allowed) && forall t :: t in s.locals && s.locals[t] != Idle ==> allowed(s.locals[t].op)
  {
    if steps != [] {
      assert AllCalls(Front(steps), allowed);
      OnlyCalled(c, m, Front(steps), allowed);
      OnlyCalledStep(c, Run(c, m, Front(steps)), Last(steps), allowed);
    }
  }

  lemma OnlyCalledStep(c: Cell, s: State, step: Step, allowed: Op -> bool)
    requires step.Call? ==> allowed(step.op)
    requires AllOps(s.log, allowed) && forall t :: t in s.locals && s.locals[t] != Idle ==> allowed(s.locals[t].op)
    ensures var s' := Next(c, s, step);
            AllOps(s'.log, allowed) && forall t :: t in s'.locals && s'.locals[t] != Idle ==> allowed(s'.locals[t].op)
  {
    assert At(s, step.tid) != Idle ==> allowed(At(s, step.tid).op);
  }

  lemma InvocationsLast(log: seq<Event>)
    requires log != []
    ensures Front(Invocations(log)) == Invocations(Front(log))
    ensures Last(Invocations(log)) == Invocation(Last(log).tid, Last(log).op)
  {}

  /** A serial log from the end. */
  lemma SerialLast(c: Cell, m: int, log: seq<Event>)
    requires log != [] && log == Serial(c, m, Invocations(log))
    ensures Front(log) == Serial(c, m, Invocations(Front(log)))
    ensures Last(log).before == Final(m, Front(log)) && Last(log).after == Apply(c, Last(log).op, Last(log).before)
    ensures Last(log).wrote == Writes(Last(log).op, Last(log).before)
  {
    InvocationsLast(log);
    var calls := Invocations(log);
    assert Front(Serial(c, m, calls)) == Serial(c, m, Front(calls));
  }

  lemma {:induction false} FinalInRange(c: Cell, m: int, log: seq<Event>)
    requires Lawful(c) && c.holds(m) && log == Serial(c, m, Invocations(log))
    ensures c.holds(Final(m, log))
  {
    if log != [] {
      SerialLast(c, m, log);
      FinalInRange(c, m, Front(log));
      ApplyInRange(c, Last(log).op, Last(log).before);
    }
  }

  lemma AllOpsFront(log: seq<Event>, allowed: Op -> bool)
    requires log != [] && AllOps(log, allowed)
    ensures AllOps(Front(log), allowed) && allowed(Last(log).op)
  {}

  function Added(log: seq<Event>): int {
    if log == [] then 0 else Added(Front(log)) + if Last(log).op.Add? then Last(log).op.value else 0
  }

  /** The change a completed operation makes to a count that does not wrap. */
  function Change(e: Event): int {
    if e.op.Add? then e.op.value else if e.op.DecrementIfPositive? && e.before > 0 then -1 else 0
  }

  function Balance(m: int, log: seq<Event>): int {
    if log == [] then m else Balance(m, Front(log)) + Change(Last(log))
  }

  lemma {:induction false} AddsBalance(m: int, log: seq<Event>)
    requires AllOps(log, IsAdd)
    ensures Balance(m, log) == m + Added(log)
  {
    if log != [] {
      AllOpsFront(log, IsAdd);
      AddsBalance(m, Front(log));
    }
  }

  lemma {:induction false} CounterBalance(m: int, log: seq<Event>)
    requires AllOps(log, Counter)
    ensures Balance(m, log) == m + Added(log) - Taken(log)
  {
    if log != [] {
      AllOpsFront(log, Counter);
      CounterBalance(m, Front(log));
    }
  }

  lemma {:induction false} AddsSum(c: Cell, m: int, log: seq<Event>)
    requires Lawful(c) && c.holds(m) && log == Serial(c, m, Invocations(log)) && AllOps(log, IsAdd)
    ensures Final(m, log) == c.wrap(Balance(m, log))
  {
    if log == [] {
      WrapKeeps(c, m);
    } else {
      SerialLast(c, m, log);
      AllOpsFront(log, IsAdd);
      AddsSum(c, m, Front(log));
      AddStep(c, Balance(m, Front(log)), Last(log), Balance(m, log));
    }
  }

  lemma AddStep(c: Cell, x: int, e: Event, total: int)
    requires Lawful(c) && e.op.Add? && e.before == c.wrap(x) && e.after == Apply(c, e.op, e.before)
    requires total == x + e.op.value
    ensures e.after == c.wrap(total)
  {
    WrapTwice(c, x, e.op.value);
  }

  /** Adds are never lost: the word is the initial value plus everything added. */
  lemma AddsConserved(c: Cell, m: int, steps: seq<Step>)
    requires Lawful(c) && c.holds(m) && AllCalls(steps, IsAdd)
    ensures var s := Run(c, m, steps); s.mem == c.wrap(m + Added(s.log))
  {
    RunIsSerial(c, m, steps);
    OnlyCalled(c, m, steps, IsAdd);
    AddsSum(c, m, Run(c, m, steps).log);
    AddsBalance(m, Run(c, m, steps).log);
  }

  function Returned(log: seq<Event>): multiset<int> {
    if log == [] then multiset{} else Returned(Front(log)) + multiset{Last(log).before}
  }

  function Stored(c: Cell, log: seq<Event>): multiset<int> {
    if log == [] then multiset{}
    else Stored(c, Front(log)) + if Last(log).op.Exchange? then multiset{c.wrap(Last(log).op.value)} else multiset{}
  }

  lemma {:induction false} ExchangesBalance(c: Cell, m: int, log: seq<Event>)
    requires log == Serial(c, m, Invocations(log)) && AllOps(log, IsExchange)
    ensures Returned(log) + multiset{Final(m, log)} == multiset{m} + Stored(c, log)
  {
    if log != [] {
      SerialLast(c, m, log);
      AllOpsFront(log, IsExchange);
      ExchangesBalance(c, m, Front(log));
    }
  }

  /** No value is lost or duplicated by exchanges. */
  lemma ExchangesConserved(c: Cell, m: int, steps: seq<Step>)
    requires Lawful(c) && c.holds(m) && AllCalls(steps, IsExchange)
    ensures var s := Run(c, m, steps); Returned(s.log) + multiset{s.mem} == multiset{m} + Stored(c, s.log)
  {
    RunIsSerial(c, m, steps);
    OnlyCalled(c, m, steps, IsExchange);
    ExchangesBalance(c, m, Run(c, m, steps).log);
  }

  /** Completed calls on bit b that found it clear: atomic_bit_test_set returned zero. */
  function Winners(c: Cell, log: seq<Event>, b: nat): nat {
    if log == [] then 0
    else Winners(c, Front(log), b) + if Last(log).op == SetBit(b) && !c.bit(Last(log).before, b) then 1 else 0
  }

  function Attempts(log: seq<Event>, b: nat): nat {
    if log == [] then 0 else Attempts(Front(log), b) + if Last(log).op == SetBit(b) then 1 else 0
  }

  /** Operations that leave bit b as it is, or set it by atomic_bit_test_set. */
  ghost predicate Respects(c: Cell, e: Event, b: nat) {
    e.op == SetBit(b) || (c.bit(e.after, b) <==> c.bit(e.before, b))
  }

  lemma BitAfter(c: Cell, e: Event, b: nat)
    requires Lawful(c) && c.holds(e.before) && b < c.bits && Respects(c, e, b) && e.after == Apply(c, e.op, e.before)
    ensures c.bit(e.after, b) <==> c.bit(e.before, b) || e.op == SetBit(b)
  {
    assert OrLaw(c, e.before, b, b);
  }

  lemma {:induction false} WinnersCount(c: Cell, m: int, log: seq<Event>, b: nat)
    requires Lawful(c) && c.holds(m) && b < c.bits && log == Serial(c, m, Invocations(log)) && !c.bit(m, b)
    requires forall i :: 0 <= i < |log| ==> Respects(c, log[i], b)
    ensures Winners(c, log, b) == if Attempts(log, b) > 0 then 1 else 0
    ensures c.bit(Final(m, log), b) <==> Attempts(log, b) > 0
  {
    if log != [] {
      SerialLast(c, m, log);
      FinalInRange(c, m, Front(log));
      WinnersCount(c, m, Front(log), b);
      BitAfter(c, Last(log), b);
    }
  }

  /** On a clear bit that nothing else touches, exactly one completed call, if any, returns zero. */
  lemma OneWinner(c: Cell, m: int, steps: seq<Step>, b: nat)
    requires Lawful(c) && c.holds(m) && b < c.bits && !c.bit(m, b)
    requires forall i :: 0 <= i < |Run(c, m, steps).log| ==> Respects(c, Run(c, m, steps).log[i], b)
    ensures var log := Run(c, m, steps).log; Winners(c, log, b) == if Attempts(log, b) > 0 then 1 else 0
  {
    RunIsSerial(c, m, steps);
    WinnersCount(c, m, Run(c, m, steps).log, b);
  }

  /** Calls on other bits touch nothing: threads that only test and set bits elect one winner per bit. */
  lemma OneWinnerPerBit(c: Cell, m: int, steps: seq<Step>, b: nat)
    requires Lawful(c) && c.holds(m) && b < c.bits && !c.bit(m, b)
    requires AllCalls(steps, (op: Op) => op.SetBit? && op.bit < c.bits)
    ensures var log := Run(c, m, steps).log; Winners(c, log, b) == if Attempts(log, b) > 0 then 1 else 0
  {
    var log := Run(c, m, steps).log;
    RunIsSerial(c, m, steps);
    OnlyCalled(c, m, steps, (op: Op) => op.SetBit? && op.bit < c.bits);
    forall i | 0 <= i < |log| ensures Respects(c, log[i], b) {
      SerialAt(c, m, log, i);
      assert OrLaw(c, log[i].before, log[i].op.bit, b);
    }
    OneWinner(c, m, steps, b);
  }

  lemma {:induction false} SerialAt(c: Cell, m: int, log: seq<Event>, i: nat)
    requires Lawful(c) && c.holds(m) && log == Serial(c, m, Invocations(log)) && i < |log|
    ensures c.holds(log[i].before) && log[i].after == Apply(c, log[i].op, log[i].before)
    decreases |log|
  {
    SerialLast(c, m, log);
    FinalInRange(c, m, Front(log));
    if i < |log| - 1 { SerialAt(c, m, Front(log), i); }
  }

  /** Successful decrements: calls that returned a positive value. */
  function Taken(log: seq<Event>): nat {
    if log == [] then 0
    else Taken(Front(log)) + if Last(log).op.DecrementIfPositive? && Last(log).before > 0 then 1 else 0
  }

  predicate Counter(op: Op) { op.DecrementIfPositive? || (op.Add? && op.value >= 0) }

  lemma {:induction false} TakenBounded(c: Cell, m: int, log: seq<Event>)
    requires Lawful(c) && c.holds(m) && m >= 0 && log == Serial(c, m, Invocations(log)) && AllOps(log, Counter)
    ensures Final(m, log) == c.wrap(Balance(m, log)) && Balance(m, log) >= 0
  {
    if log == [] {
      WrapKeeps(c, m);
    } else {
      SerialLast(c, m, log);
      AllOpsFront(log, Counter);
      TakenBounded(c, m, Front(log));
      CounterStep(c, Balance(m, Front(log)), Last(log), Balance(m, log));
    }
  }

  lemma CounterStep(c: Cell, x: int, e: Event, total: int)
    requires Lawful(c) && Counter(e.op) && x >= 0 && e.before == c.wrap(x) && e.after == Apply(c, e.op, e.before)
    requires total == x + Change(e)
    ensures e.after == c.wrap(total) && total >= 0
  {
    if e.op.Add? {
      AddStep(c, x, e, total);
    } else if e.before > 0 {
      assert RangeLaw(c, 0);
      WrapKeeps(c, 0);
      WrapTwice(c, x, -1);
      StillInRange(c, x);
    }
  }

  lemma StillInRange(c: Cell, x: int)
    requires Lawful(c) && c.wrap(x) > 0
    ensures c.wrap(c.wrap(x) - 1) == c.wrap(x) - 1
  {
    assert WrapLaw(c, x, 0) && RangeLaw(c, c.wrap(x));
    WrapKeeps(c, c.wrap(x) - 1);
  }

  /**
   * With additions of non-negative amounts and conditional decrements, successes never exceed
   * the initial value plus the additions, even when additions wrap.
   */
  lemma NeverOverdrawn(c: Cell, m: int, steps: seq<Step>)
    requires Lawful(c) && c.holds(m) && m >= 0 && AllCalls(steps, Counter)
    ensures var s := Run(c, m, steps);
            s.mem == c.wrap(m + Added(s.log) - Taken(s.log)) && Taken(s.log) <= m + Added(s.log)
  {
    var s := Run(c, m, steps);
    RunIsSerial(c, m, steps);
    OnlyCalled(c, m, steps, Counter);
    TakenBounded(c, m, s.log);
    CounterBalance(m, s.log);
  }

  /**
   * In every interleaving, among any other operations, a completed conditional decrement takes one
   * from a positive word and leaves any other alone; so it never takes the word below zero.
   */
  lemma {:induction false} NeverBelowZero(c: Cell, m: int, steps: seq<Step>, i: nat)
    requires Lawful(c) && c.holds(m) && i < |Run(c, m, steps).log| && IsDecrement(Run(c, m, steps).log[i].op)
    ensures var e := Run(c, m, steps).log[i];
            e.after == (if e.before > 0 then e.before - 1 else e.before) && (e.before >= 0 ==> e.after >= 0)
  {
    RunApplies(c, m, steps, i);
    DecrementApplies(c, Run(c, m, steps).log[i]);
  }

  lemma {:induction false} RunApplies(c: Cell, m: int, steps: seq<Step>, i: nat)
    requires Lawful(c) && c.holds(m) && i < |Run(c, m, steps).log|
    ensures var e := Run(c, m, steps).log[i]; e.after == Apply(c, e.op, e.before)
  {
    RunIsSerial(c, m, steps);
    SerialAt(c, m, Run(c, m, steps).log, i);
  }

  lemma DecrementApplies(c: Cell, e: Event)
    requires IsDecrement(e.op) && e.after == Apply(c, e.op, e.before)
    ensures e.after == (if e.before > 0 then e.before - 1 else e.before) && (e.before >= 0 ==> e.after >= 0)
  {}

  // ---- progress ----

  ghost predicate Progress(s: State, t: nat) {
    match At(s, t)
    case Loaded(_, oldval, base) =>
      Retries(s, t) <= base <= OthersWrites(s.log, t) && (s.mem != oldval ==> base < OthersWrites(s.log, t))
    case _ => Retries(s, t) <= OthersWrites(s.log, t)
  }

  lemma ProgressReturn(s: State, e: Event, t: nat)
    requires Progress(s, t) && (e.after != s.mem ==> e.wrote) && At(s, e.tid) != Idle
    ensures Progress(Return(s, e.tid, e), t)
  {
    OpsPush(s.log, e, t);
  }

  lemma ProgressStep(c: Cell, s: State, step: Step, t: nat)
    requires Progress(s, t)
    ensures Progress(Next(c, s, step), t)
  {
    var u, l := step.tid, At(s, step.tid);
    if step.Load? && l.Calling? {
      if l.op.DecrementIfPositive? && s.mem <= 0 { ProgressReturn(s, Event(u, l.op, s.mem, s.mem, false), t); }
    } else if step.CompareExchange? && l.Loaded? && s.mem == l.oldval {
      ProgressReturn(s, Event(u, l.op, l.oldval, NewValue(c, l.op, l.oldval), true), t);
    }
  }

  /**
   * Whenever a compare-and-exchange of t would fail, another thread has written since t's load;
   * so t's retries never exceed the writes of other threads.
   */
  lemma {:induction false} RetriesBounded(c: Cell, m: int, steps: seq<Step>, t: nat)
    ensures var s := Run(c, m, steps); Progress(s, t) && Retries(s, t) <= OthersWrites(s.log, t)
  {
    if steps != [] {
      RetriesBounded(c, m, Front(steps), t);
      ProgressStep(c, Run(c, m, Front(steps)), Last(steps), t);
    }
  }

  // ---- completion ----

  /** The operation of t takes effect on the word of s, and t returns. */
  ghost predicate TakesEffect(c: Cell, s: State, t: nat, op: Op, s': State) {
    && s'.mem == Apply(c, op, s.mem) && At(s', t) == Idle
    && s'.log == s.log + [Event(t, op, s.mem, Apply(c, op, s.mem), Writes(op, s.mem))]
    && forall u :: u != t ==> At(s', u) == At(s, u)
  }

  /**
   * In every reachable state a compare-and-exchange that finds the value its thread loaded completes
   * the call: the word becomes what the operation is meant to leave, and the old word is returned.
   */
  lemma MatchCompletes(c: Cell, m: int, steps: seq<Step>, t: nat)
    requires Lawful(c) && c.holds(m)
    requires var l := At(Run(c, m, steps), t); l.Loaded? && l.oldval == Run(c, m, steps).mem
    ensures var s := Run(c, m, steps);
            TakesEffect(c, s, t, At(s, t).op, Run(c, m, steps + [CompareExchange(t)]))
  {
    var s := Run(c, m, steps);
    RunIsSerial(c, m, steps);
    RunPush(c, m, steps, CompareExchange(t));
    assert Ready(s.locals[t]);
    NewValueIsApply(c, At(s, t).op, s.mem);
  }

  lemma RunPush(c: Cell, m: int, steps: seq<Step>, step: Step)
    ensures Run(c, m, steps + [step]) == Next(c, Run(c, m, steps), step)
  {
    assert Front(steps + [step]) == steps;
  }

  /** A load either completes the call, of a decrement that has nothing to take, or remembers the word. */
  lemma LoadReads(c: Cell, m: int, steps: seq<Step>, t: nat)
    requires At(Run(c, m, steps), t).Calling?
    ensures var s, s' := Run(c, m, steps), Run(c, m, steps + [Load(t)]);
            var op := At(s, t).op;
            s'.mem == s.mem &&
            if Writes(op, s.mem) then At(s', t) == Loaded(op, s.mem, OthersWrites(s.log, t)) && s'.log == s.log
            else TakesEffect(c, s, t, op, s')
  {
    RunPush(c, m, steps, Load(t));
  }

  predicate WithoutThread(steps: seq<Step>, t: nat) { forall i :: 0 <= i < |steps| ==> steps[i].tid != t }

  /** Other threads neither move a thread on nor complete its calls. */
  lemma {:induction false} OthersLeave(c: Cell, m: int, steps: seq<Step>, mid: seq<Step>, t: nat)
    requires WithoutThread(mid, t)
    ensures var s, s' := Run(c, m, steps), Run(c, m, steps + mid);
            At(s', t) == At(s, t) && OpsOf(s'.log, t) == OpsOf(s.log, t)
    decreases |mid|
  {
    if mid == [] {
      assert steps + mid == steps;
    } else {
      OthersLeave(c, m, steps, Front(mid), t);
      assert mid == Front(mid) + [Last(mid)] && Last(mid).tid != t;
      assert steps + mid == steps + Front(mid) + [Last(mid)];
      RunPush(c, m, steps + Front(mid), Last(mid));
      OthersStep(c, Run(c, m, steps + Front(mid)), Last(mid), t);
    }
  }

  lemma OthersStep(c: Cell, s: State, step: Step, t: nat)
    requires step.tid != t
    ensures At(Next(c, s, step), t) == At(s, t) && OpsOf(Next(c, s, step).log, t) == OpsOf(s.log, t)
  {
    var s' := Next(c, s, step);
    if s'.log != s.log { OpsPush(s.log, Last(s'.log), t); }
  }

  /**
   * A load and the next compare-and-exchange of a thread complete its call, whatever others do in
   * between, unless one of them has written.
   */
  lemma CompletesOrOvertaken(c: Cell, m: int, steps: seq<Step>, mid: seq<Step>, t: nat)
    requires Lawful(c) && c.holds(m) && At(Run(c, m, steps), t).Calling? && WithoutThread(mid, t)
    ensures var s, s' := Run(c, m, steps), Run(c, m, steps + [Load(t)] + mid + [CompareExchange(t)]);
            || (At(s', t) == Idle && OpsOf(s'.log, t) == OpsOf(s.log, t) + [At(s, t).op])
            || OthersWrites(s'.log, t) > OthersWrites(s.log, t)
  {
    var s, op := Run(c, m, steps), At(Run(c, m, steps), t).op;
    var loaded, before := steps + [Load(t)], steps + [Load(t)] + mid;
    LoadReads(c, m, steps, t);
    OthersLeave(c, m, loaded, mid, t);
    RetriesBounded(c, m, before, t);
    RunPush(c, m, before, CompareExchange(t));
    var w := Run(c, m, before);
    if Writes(op, s.mem) {
      if w.mem == At(w, t).oldval {
        MatchCompletes(c, m, before, t);
        OpsPush(w.log, Event(t, op, w.mem, Apply(c, op, w.mem), Writes(op, w.mem)), t);
      }
    } else {
      OpsPush(s.log, Event(t, op, s.mem, Apply(c, op, s.mem), false), t);
    }
  }
}
