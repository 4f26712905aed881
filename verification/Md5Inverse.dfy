/**
 * Every step of the MD5 block transform can be undone, for any lawful word operations with inverses;
 * so a step loses neither the register it replaces nor the message word it adds.
 */
module Md5Inverse {
  import opened Md5Steps

  datatype Inverse<!W> = Inverse(
    subtract: (W, W) -> W,
    rotateBack: (W, nat) -> W)

  /** Subtraction undoes addition on either side, and the shifts of the table can be turned back. */
  ghost predicate Inverts<W(!new)>(R: Primitives<W>, V: Inverse<W>) {
    && Tables(R)
    && (forall x, y :: V.subtract(R.add(x, y), y) == x && V.subtract(R.add(y, x), y) == x)
    && (forall x, k :: 0 <= k < 16 ==> V.rotateBack(R.rotate(x, R.S[k]), R.S[k]) == x)
  }

  /** The register before an operation, from the register r after it. */
  function UndoOp<W>(R: Primitives<W>, V: Inverse<W>, q: nat, r: W, b: W, c: W, d: W, x: W, s: nat, t: W): W {
    V.subtract(V.rotateBack(V.subtract(r, b), s), R.add(R.add(R.mix(q, b, c, d), x), t))
  }

  /** The message word of an operation, from the register before and after it. */
  function UsedWord<W>(R: Primitives<W>, V: Inverse<W>, q: nat, r: W, a: W, b: W, c: W, d: W, s: nat, t: W): W {
    V.subtract(V.subtract(V.subtract(V.rotateBack(V.subtract(r, b), s), a), t), R.mix(q, b, c, d))
  }

  lemma OpUndone<W(!new)>(R: Primitives<W>, V: Inverse<W>, q: nat, a: W, b: W, c: W, d: W, x: W, k: nat, t: W)
    requires Inverts(R, V) && k < 16
    ensures UndoOp(R, V, q, Op(R, q, a, b, c, d, x, R.S[k], t), b, c, d, x, R.S[k], t) == a
    ensures UsedWord(R, V, q, Op(R, q, a, b, c, d, x, R.S[k], t), a, b, c, d, R.S[k], t) == x
  {
    var f, s := R.mix(q, b, c, d), R.S[k];
    var u := R.add(R.add(f, x), t);
    var v := R.add(a, u);
    assert V.subtract(R.add(R.rotate(v, s), b), b) == R.rotate(v, s);
    assert V.rotateBack(R.rotate(v, s), s) == v;
    assert V.subtract(v, u) == a && V.subtract(v, a) == u;
    assert V.subtract(u, t) == R.add(f, x) && V.subtract(R.add(f, x), f) == x;
  }

  /** The registers before step i, from those after it. */
  function UndoStep<W>(R: Primitives<W>, V: Inverse<W>, r: Regs<W>, x: seq<W>, i: nat): Regs<W>
    requires |x| == 16 && Tables(R) && i < 64
  {
    var w, s, t, q := x[R.P[i]], R.S[4 * (i / 16) + i % 4], R.C[i], i / 16;
    if i % 4 == 0 then r.(a := UndoOp(R, V, q, r.a, r.b, r.c, r.d, w, s, t))
    else if i % 4 == 1 then r.(d := UndoOp(R, V, q, r.d, r.a, r.b, r.c, w, s, t))
    else if i % 4 == 2 then r.(c := UndoOp(R, V, q, r.c, r.d, r.a, r.b, w, s, t))
    else r.(b := UndoOp(R, V, q, r.b, r.c, r.d, r.a, w, s, t))
  }

  function UndoSteps<W>(R: Primitives<W>, V: Inverse<W>, r: Regs<W>, x: seq<W>, n: nat): Regs<W>
    requires |x| == 16 && Tables(R) && n <= 64
    decreases n
  {
    if n == 0 then r else UndoSteps(R, V, UndoStep(R, V, r, x, n - 1), x, n - 1)
  }

  lemma StepUndone<W(!new)>(R: Primitives<W>, V: Inverse<W>, r: Regs<W>, x: seq<W>, i: nat)
    requires |x| == 16 && Inverts(R, V) && i < 64
    ensures UndoStep(R, V, Step(R, r, x, i), x, i) == r
  {
    var w, t, q, k := x[R.P[i]], R.C[i], i / 16, 4 * (i / 16) + i % 4;
    if i % 4 == 0 { OpUndone(R, V, q, r.a, r.b, r.c, r.d, w, k, t); }
    if i % 4 == 1 { OpUndone(R, V, q, r.d, r.a, r.b, r.c, w, k, t); }
    if i % 4 == 2 { OpUndone(R, V, q, r.c, r.d, r.a, r.b, w, k, t); }
    if i % 4 == 3 { OpUndone(R, V, q, r.b, r.c, r.d, r.a, w, k, t); }
  }

  /** For every block the steps can be undone, so they take different registers to different registers. */
  lemma {:induction false} StepsUndone<W(!new)>(R: Primitives<W>, V: Inverse<W>, r: Regs<W>, x: seq<W>, n: nat)
    requires |x| == 16 && Inverts(R, V) && n <= 64
    ensures UndoSteps(R, V, Steps(R, r, x, n), x, n) == r
    decreases n
  {
    if n > 0 {
      StepUndone(R, V, Steps(R, r, x, n - 1), x, n - 1);
      StepsUndone(R, V, r, x, n - 1);
    }
  }

  /** Every step depends on its message word: blocks that differ there lead to different registers. */
  lemma StepUsesWord<W(!new)>(R: Primitives<W>, V: Inverse<W>, r: Regs<W>, x: seq<W>, y: seq<W>, i: nat)
    requires |x| == |y| == 16 && Inverts(R, V) && i < 64 && Step(R, r, x, i) == Step(R, r, y, i)
    ensures x[R.P[i]] == y[R.P[i]]
  {
    var w, z, t, q, k := x[R.P[i]], y[R.P[i]], R.C[i], i / 16, 4 * (i / 16) + i % 4;
    if i % 4 == 0 { SameWord(R, V, q, r.a, r.b, r.c, r.d, w, z, k, t); }
    if i % 4 == 1 { SameWord(R, V, q, r.d, r.a, r.b, r.c, w, z, k, t); }
    if i % 4 == 2 { SameWord(R, V, q, r.c, r.d, r.a, r.b, w, z, k, t); }
    if i % 4 == 3 { SameWord(R, V, q, r.b, r.c, r.d, r.a, w, z, k, t); }
  }

  lemma SameWord<W(!new)>(R: Primitives<W>, V: Inverse<W>, q: nat, a: W, b: W, c: W, d: W, x: W, y: W, k: nat, t: W)
    requires Inverts(R, V) && k < 16 && Op(R, q, a, b, c, d, x, R.S[k], t) == Op(R, q, a, b, c, d, y, R.S[k], t)
    ensures x == y
  {
    OpUndone(R, V, q, a, b, c, d, x, k, t);
    OpUndone(R, V, q, a, b, c, d, y, k, t);
  }
}
