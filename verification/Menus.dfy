/**
 * The menu structure that config/scripts/tkgen.c derives from the statement list: which menu
 * owns a statement, how menus are numbered, and which lines a menu's window has.
 * A statement is known by its place in the list.
 */
module Menus {
  import opened Sequences

  /** What the menu passes distinguish. */
  datatype Kind =
    | Open          // mainmenu_option
    | Close         // endmenu
    | Comment
    | ChoiceItem    // shares the line of its choice header
    | Widget        // bool, choice header, dep_*, hex, int, string, tristate
    | Definition    // define_*, unset
    | Other

  type Statements = seq<Kind>

  // ---- nesting ----

  /** The menus open before statement i, outermost first. */
  function Stack(ks: Statements, i: nat): (s: seq<nat>)
    requires i <= |ks|
    ensures forall d :: 0 <= d < |s| ==> s[d] < i
  {
    if i == 0 then []
    else
      var s := Stack(ks, i - 1);
      if ks[i - 1] == Open then s + [i - 1]
      else if ks[i - 1] == Close && s != [] then Front(s)
      else s
  }

  /** The innermost open menu at statement i is the one opened at p. */
  predicate OwnedBy(ks: Statements, i: nat, p: nat)
    requires i <= |ks|
  {
    Stack(ks, i) != [] && Last(Stack(ks, i)) == p
  }

  /** Statement j closes the menu opened at p. */
  predicate Closes(ks: Statements, p: nat, j: nat) {
    j < |ks| && ks[j] == Close && OwnedBy(ks, j, p)
  }

  /** The menu opened at p reaches to e: its endmenu, or the end of the list if it has none. */
  predicate Reaches(ks: Statements, p: nat, e: nat) {
    e <= |ks| && OwnedBy(ks, e, p) && (e < |ks| ==> ks[e] == Close)
  }

  /** No menu directly inside the one at p is left open. */
  predicate SubmenusClosed(ks: Statements, p: nat) {
    var s := Stack(ks, |ks|);
    forall d :: 0 <= d < |s| - 1 ==> s[d] != p
  }

  function Opens(ks: Statements, i: nat): nat
    requires i <= |ks|
  {
    if i == 0 then 0 else Opens(ks, i - 1) + if ks[i - 1] == Open then 1 else 0
  }

  /** Menus are numbered from 1 in the order they open. */
  function Number(ks: Statements, p: nat): nat
    requires p <= |ks|
  {
    Opens(ks, p) + 1
  }

  /** The number of the menu that statement i is in, 0 for none. */
  function OwnerNumber(ks: Statements, i: nat): nat
    requires i <= |ks|
  {
    var s := Stack(ks, i);
    if s == [] then 0 else Number(ks, Last(s))
  }

  /** The conditions under which the numbering pass does not exit. */
  predicate Allowed(ks: Statements, i: nat)
    requires i < |ks|
  {
    match ks[i]
    case Open => |Stack(ks, i)| < 63 && Opens(ks, i) < 99
    case Close => Stack(ks, i) != []
    case Comment => Stack(ks, i) != []
    case ChoiceItem => Stack(ks, i) != []
    case Widget => Stack(ks, i) != []
    case _ => true
  }

  predicate Accepted(ks: Statements) { forall i {:trigger Allowed(ks, i)} :: 0 <= i < |ks| ==> Allowed(ks, i) }

  // ---- the stack ----

  lemma {:induction false} StackOpen(ks: Statements, i: nat, d: nat)
    requires i <= |ks| && d < |Stack(ks, i)|
    ensures ks[Stack(ks, i)[d]] == Open && Stack(ks, Stack(ks, i)[d]) == Stack(ks, i)[..d]
  {
    var s := Stack(ks, i - 1);
    if d < |s| {
      StackOpen(ks, i - 1, d);
      assert Stack(ks, i)[..d] == s[..d];
    } else {
      assert Stack(ks, i)[..d] == s;
    }
  }

  /** While a menu is open, everything up to it stays on the stack. */
  lemma OpenPrefix(ks: Statements, i: nat, p: nat)
    requires i <= |ks| && p in Stack(ks, i)
    ensures p < i && ks[p] == Open && Stack(ks, p) + [p] <= Stack(ks, i)
  {
    var d :| 0 <= d < |Stack(ks, i)| && Stack(ks, i)[d] == p;
    StackOpen(ks, i, d);
  }

  lemma {:induction false} OpenSubmenu(ks: Statements, q: nat, p: nat)
    requires q in Stack(ks, |ks|) && q < |ks| && OwnedBy(ks, q, p)
    ensures !SubmenusClosed(ks, p)
  {
    OpenPrefix(ks, |ks|, q);
    BelowLast(Stack(ks, q), q, Stack(ks, |ks|));
  }

  lemma BelowLast(t: seq<nat>, q: nat, s: seq<nat>)
    requires t != [] && t + [q] <= s
    ensures |t| - 1 < |s| - 1 && s[|t| - 1] == Last(t)
  {
    assert (t + [q])[|t| - 1] == s[|t| - 1];
  }

  lemma OwnedStack(ks: Statements, i: nat, p: nat)
    requires i <= |ks| && OwnedBy(ks, i, p)
    ensures p < i && ks[p] == Open && Stack(ks, i) == Stack(ks, p) + [p]
  {
    StackOpen(ks, i, |Stack(ks, i)| - 1);
  }

  lemma {:induction false} StillOpen(ks: Statements, p: nat, k: nat, i: nat)
    requires p < k <= i <= |ks| && p in Stack(ks, i)
    ensures p in Stack(ks, k)
    decreases i
  {
    if k < i {
      assert p in Stack(ks, i - 1);
      StillOpen(ks, p, k, i - 1);
    }
  }

  /** After its close a menu is off the stack, and the stack is what it was before the menu. */
  lemma CloseRestores(ks: Statements, p: nat, j: nat)
    requires Closes(ks, p, j)
    ensures p < j && ks[p] == Open && Stack(ks, j + 1) == Stack(ks, p)
  {
    OwnedStack(ks, j, p);
  }

  lemma ClosedForGood(ks: Statements, p: nat, j: nat, i: nat)
    requires Closes(ks, p, j) && j < i <= |ks|
    ensures p !in Stack(ks, i)
  {
    CloseRestores(ks, p, j);
    if p in Stack(ks, i) { StillOpen(ks, p, j + 1, i); }
  }

  lemma CloseUnique(ks: Statements, p: nat, j: nat, k: nat)
    requires Closes(ks, p, j) && Closes(ks, p, k)
    ensures j == k
  {
    if j < k { ClosedForGood(ks, p, j, k); }
    if k < j { ClosedForGood(ks, p, k, j); }
  }

  /** Between a menu and its close everything is owned by the menu or by a later one. */
  lemma InsideOwner(ks: Statements, p: nat, j: nat, i: nat)
    requires Closes(ks, p, j) && p < i <= j
    ensures Stack(ks, i) != [] && Last(Stack(ks, i)) >= p
  {
    StillOpen(ks, p, i, j);
    Sorted(ks, i, p);
  }

  lemma Sorted(ks: Statements, i: nat, p: nat)
    requires i <= |ks| && p in Stack(ks, i)
    ensures Last(Stack(ks, i)) >= p
  {
    var s := Stack(ks, i);
    var d :| 0 <= d < |s| && s[d] == p;
    StackOpen(ks, i, |s| - 1);
    assert d < |s| - 1 ==> s[..|s| - 1][d] == p;
  }

  /** Nothing outside the reach of a menu is owned by it. */
  lemma OwnedInside(ks: Statements, p: nat, e: nat, i: nat)
    requires Reaches(ks, p, e) && i <= |ks| && OwnedBy(ks, i, p)
    ensures p < i <= e
  {
    if i > e { ClosedForGood(ks, p, e, i); }
  }

  // ---- numbering ----

  lemma {:induction false} OpensMonotone(ks: Statements, i: nat, j: nat)
    requires i <= j <= |ks|
    ensures Opens(ks, i) <= Opens(ks, j)
    decreases j
  {
    if i < j { OpensMonotone(ks, i, j - 1); }
  }

  /** Numbers follow the list. */
  lemma NumberOrder(ks: Statements, p: nat, q: nat)
    requires p < |ks| && q <= |ks| && ks[p] == Open
    ensures p < q ==> Number(ks, p) < Number(ks, q)
    ensures q < p ==> Number(ks, q) <= Number(ks, p)
  {
    if p < q { OpensMonotone(ks, p + 1, q); }
    if q < p { OpensMonotone(ks, q, p); }
  }

  /** A menu's number is above its parent's. */
  lemma ParentBelow(ks: Statements, i: nat)
    requires i <= |ks|
    ensures OwnerNumber(ks, i) <= Opens(ks, i) < Number(ks, i)
  {
    if Stack(ks, i) != [] {
      StackOpen(ks, i, |Stack(ks, i)| - 1);
      NumberOrder(ks, Last(Stack(ks, i)), i);
    }
  }

  /** Different menus have different numbers. */
  lemma NumberInjective(ks: Statements, p: nat, q: nat)
    requires p < |ks| && q < |ks| && ks[p] == ks[q] == Open && Number(ks, p) == Number(ks, q)
    ensures p == q
  {
    NumberOrder(ks, p, q);
    NumberOrder(ks, q, p);
  }

  // ---- lines ----

  /** A comment before statement i already stands in for the name of the menu at p. */
  predicate NameOmitted(ks: Statements, p: nat, i: nat)
    requires i <= |ks|
  {
    i > 0 && (NameOmitted(ks, p, i - 1) || (ks[i - 1] == Comment && OwnedBy(ks, i - 1, p)))
  }

  /** Statement i gets a line of its own in the window of the menu at p. */
  predicate TakesLine(ks: Statements, p: nat, i: nat)
    requires i < |ks|
  {
    OwnedBy(ks, i, p) && (ks[i] == Open || ks[i] == Widget || (ks[i] == Comment && NameOmitted(ks, p, i)))
  }

  /** The statements before i that take a line in the menu at p, in order. */
  function Rows(ks: Statements, p: nat, i: nat): seq<nat>
    requires i <= |ks|
  {
    if i == 0 then [] else Rows(ks, p, i - 1) + if TakesLine(ks, p, i - 1) then [i - 1] else []
  }

  lemma {:induction false} RowsSkip(ks: Statements, p: nat, i: nat, j: nat)
    requires i <= j <= |ks| && forall k :: i <= k < j ==> !OwnedBy(ks, k, p)
    ensures Rows(ks, p, j) == Rows(ks, p, i) && NameOmitted(ks, p, j) == NameOmitted(ks, p, i)
    ensures Window(ks, p, j) == Window(ks, p, i)
    decreases j
  {
    if i < j { RowsSkip(ks, p, i, j - 1); }
  }

  /** A row belongs to no other menu and appears once. */
  lemma {:induction false} RowsDistinct(ks: Statements, p: nat, i: nat, r: nat)
    requires i <= |ks| && r < |Rows(ks, p, i)|
    ensures var k := Rows(ks, p, i)[r]; k < i && TakesLine(ks, p, k) && Rows(ks, p, k) == Rows(ks, p, i)[..r]
  {
    if r < |Rows(ks, p, i - 1)| { RowsDistinct(ks, p, i - 1, r); }
    assert Rows(ks, p, i)[..r] == Rows(ks, p, i - 1)[..r];
  }

  /** The line of statement i: its place among the rows of its menu, -1 for the first comment, else 0. */
  function LineOf(ks: Statements, i: nat): int
    requires i < |ks|
  {
    var s := Stack(ks, i);
    if s == [] then 0
    else if TakesLine(ks, Last(s), i) then |Rows(ks, Last(s), i)|
    else if ks[i] == Comment then -1
    else 0
  }

  /** Within a menu the lines are 0, 1, 2, … in order, without repeats. */
  lemma LinesCount(ks: Statements, p: nat, r: nat)
    requires r < |Rows(ks, p, |ks|)|
    ensures var k := Rows(ks, p, |ks|)[r]; k < |ks| && LineOf(ks, k) == r
  {
    RowsDistinct(ks, p, |ks|, r);
  }

  /** A line of a window: the statement it shows and, for a submenu, the menu its button opens. */
  datatype Row = Row(statement: nat, line: int, target: nat)

  function Target(ks: Statements, k: nat): nat
    requires k < |ks|
  {
    if ks[k] == Open then Number(ks, k) else 0
  }

  /** The window of the menu at p, so far as statements before i fill it. */
  function Window(ks: Statements, p: nat, i: nat): seq<Row>
    requires i <= |ks|
  {
    if i == 0 then []
    else Window(ks, p, i - 1)
         + if TakesLine(ks, p, i - 1) then [Row(i - 1, |Rows(ks, p, i - 1)|, Target(ks, i - 1))] else []
  }

  // ---- the successor of a menu ----

  /** Menu x is m or encloses it; parents[m] is the number of the menu around menu m. */
  predicate Encloses(parents: seq<nat>, x: nat, m: nat)
    requires Descending(parents) && m < |parents|
  {
    x == m || (m > 0 && Encloses(parents, x, parents[m]))
  }

  predicate Descending(parents: seq<nat>) { forall m :: 0 < m < |parents| ==> parents[m] < m }

  lemma {:induction false} EnclosesBelow(parents: seq<nat>, x: nat, m: nat)
    requires Descending(parents) && m < |parents| && Encloses(parents, x, m)
    ensures x <= m
  {
    if x != m { EnclosesBelow(parents, x, parents[m]); }
  }

  lemma {:induction false} EnclosesTrans(parents: seq<nat>, x: nat, y: nat, m: nat)
    requires Descending(parents) && m < |parents| && Encloses(parents, y, m) && y < |parents| && Encloses(parents, x, y)
    ensures Encloses(parents, x, m)
  {
    if y != m { EnclosesTrans(parents, x, y, parents[m]); }
  }

  /** Two enclosing menus enclose one another. */
  lemma {:induction false} EnclosesChain(parents: seq<nat>, x: nat, y: nat, m: nat)
    requires Descending(parents) && m < |parents| && Encloses(parents, x, m) && Encloses(parents, y, m) && x <= y
    ensures y < |parents| && Encloses(parents, x, y)
  {
    if y == m {
    } else if x == m {
      EnclosesBelow(parents, y, m);
    } else {
      EnclosesChain(parents, x, y, parents[m]);
    }
  }

  lemma {:induction false} ZeroEncloses(parents: seq<nat>, m: nat)
    requires Descending(parents) && m < |parents|
    ensures Encloses(parents, 0, m)
  {
    if m > 0 { ZeroEncloses(parents, parents[m]); }
  }

  /** The number of the menu around each menu; first gives where menus open. */
  function Parents(ks: Statements, first: seq<nat>): seq<nat>
    requires |first| > Opens(ks, |ks|) && forall m :: 1 <= m <= Opens(ks, |ks|) ==> first[m] < |ks|
  {
    seq(Opens(ks, |ks|) + 1, m requires 0 <= m <= Opens(ks, |ks|) => if m == 0 then 0 else OwnerNumber(ks, first[m]))
  }

  // ---- where the walk over a menu goes ----

  /** The endmenu of the menu at p, from j on; |ks| if there is none. */
  function CloseFrom(ks: Statements, p: nat, j: nat): (f: nat)
    requires j <= |ks|
    ensures j <= f <= |ks| && (f < |ks| ==> Closes(ks, p, f)) && forall k :: j <= k < f ==> !Closes(ks, p, k)
    decreases |ks| - j
  {
    if j < |ks| && !Closes(ks, p, j) then CloseFrom(ks, p, j + 1) else j
  }

  /** menu_last of the menu at p: its endmenu, or the menu itself if it is left open. */
  function LastOf(ks: Statements, p: nat): (l: nat)
    requires p < |ks|
    ensures p <= l < |ks|
  {
    var f := CloseFrom(ks, p, p + 1);
    if f < |ks| then f else p
  }

  /** The statements from j on that the walk over the menu at p comes to. */
  function Visited(ks: Statements, p: nat, j: nat): seq<nat>
    requires p < |ks| && j <= |ks|
    decreases |ks| - j
  {
    if j == |ks| || j == LastOf(ks, p) then []
    else [j] + Visited(ks, p, (if ks[j] == Open then LastOf(ks, j) else j) + 1)
  }

  predicate AllOwned(ks: Statements, js: seq<nat>, p: nat) {
    forall k :: k in js ==> k <= |ks| && OwnedBy(ks, k, p)
  }

  /** A menu inside the one at p is left open, and something follows it. */
  predicate Strays(ks: Statements, p: nat, q: nat) {
    q + 1 < |ks| && ks[q] == Open && OwnedBy(ks, q, p) && q in Stack(ks, |ks|)
  }

  lemma LastIs(ks: Statements, p: nat)
    requires p < |ks| && ks[p] == Open
    ensures if p in Stack(ks, |ks|) then LastOf(ks, p) == p else Closes(ks, p, LastOf(ks, p))
  {
    var f := CloseFrom(ks, p, p + 1);
    if f < |ks| { ClosedForGood(ks, p, f, |ks|); } else { NeverClosed(ks, p, |ks|); }
  }

  /** A menu without an endmenu before i is still open there. */
  lemma {:induction false} NeverClosed(ks: Statements, p: nat, i: nat)
    requires p < i <= |ks| && ks[p] == Open && forall k :: p < k < i ==> !Closes(ks, p, k)
    ensures p in Stack(ks, i)
    decreases i
  {
    var s := Stack(ks, i - 1);
    if i - 1 > p {
      NeverClosed(ks, p, i - 1);
      if ks[i - 1] == Close && s != [] {
        assert !Closes(ks, p, i - 1);
        assert s == Front(s) + [Last(s)];
      }
    }
  }

  /** From a statement of the menu the walk goes to the next one, or the list ends. */
  lemma WalkNext(ks: Statements, p: nat, j: nat)
    requires j < |ks| && OwnedBy(ks, j, p) && ks[j] != Close && !Strays(ks, p, j)
    ensures var n := (if ks[j] == Open then LastOf(ks, j) else j) + 1;
            j < n <= |ks| && (n < |ks| ==> OwnedBy(ks, n, p))
  {
    if ks[j] == Open {
      LastIs(ks, j);
      if j !in Stack(ks, |ks|) { CloseRestores(ks, j, LastOf(ks, j)); }
    }
  }

  lemma AtClose(ks: Statements, p: nat, j: nat)
    requires j < |ks| && OwnedBy(ks, j, p) && p < |ks|
    ensures ks[j] == Close ==> j == LastOf(ks, p)
    ensures j == LastOf(ks, p) ==> ks[j] == Close
  {
    OwnedStack(ks, j, p);
    LastIs(ks, p);
    if ks[j] == Close {
      ClosedForGood(ks, p, j, |ks|);
      CloseUnique(ks, p, j, LastOf(ks, p));
    }
  }

  lemma {:induction false} WalkStays(ks: Statements, p: nat, j: nat)
    requires p < |ks| && j <= |ks| && (j < |ks| ==> OwnedBy(ks, j, p)) && forall q: nat :: !Strays(ks, p, q)
    ensures AllOwned(ks, Visited(ks, p, j), p)
    decreases |ks| - j
  {
    if j < |ks| && j != LastOf(ks, p) {
      AtClose(ks, p, j);
      WalkNext(ks, p, j);
      WalkStays(ks, p, (if ks[j] == Open then LastOf(ks, j) else j) + 1);
    }
  }

  lemma {:induction false} WalkStrays(ks: Statements, p: nat, j: nat, q: nat)
    requires p < |ks| && j <= q && Strays(ks, p, q) && OwnedBy(ks, j, p)
    ensures q + 1 in Visited(ks, p, j)
    decreases |ks| - j
  {
    AtClose(ks, p, j);
    BeforeStray(ks, p, j, q);
    if j == q {
      LastIs(ks, q);
      AtInner(ks, p, q);
    } else {
      WalkNext(ks, p, j);
      WalkStrays(ks, p, (if ks[j] == Open then LastOf(ks, j) else j) + 1, q);
    }
  }

  /** Before the open submenu the menu does not end, and other submenus do. */
  lemma BeforeStray(ks: Statements, p: nat, j: nat, q: nat)
    requires j <= q && Strays(ks, p, q) && OwnedBy(ks, j, p)
    ensures ks[j] != Close
    ensures j < q ==> !Strays(ks, p, j) && (ks[j] == Open ==> LastOf(ks, j) < q)
  {
    OwnedStack(ks, q, p);
    if j < q {
      if ks[j] == Close { ClosedForGood(ks, p, j, q); }
      if ks[j] == Open { BeforeOpen(ks, p, j, q); }
    }
  }

  lemma BeforeOpen(ks: Statements, p: nat, j: nat, q: nat)
    requires j < q < |ks| && ks[j] == Open && OwnedBy(ks, j, p) && OwnedBy(ks, q, p)
    ensures j !in Stack(ks, |ks|) && LastOf(ks, j) < q
  {
    OwnedStack(ks, j, p);
    OwnedStack(ks, q, p);
    assert j !in Stack(ks, q);
    if j in Stack(ks, |ks|) { StillOpen(ks, j, q, |ks|); }
    LastIs(ks, j);
    if LastOf(ks, j) >= q { StillOpen(ks, j, q, LastOf(ks, j)); }
  }

  /** Right after the open submenu the walk is inside it. */
  lemma AtInner(ks: Statements, p: nat, q: nat)
    requires p < |ks| && Strays(ks, p, q)
    ensures q + 1 != LastOf(ks, p) && OwnedBy(ks, q + 1, q) && q + 1 in Visited(ks, p, q + 1)
  {
    OwnedStack(ks, q, p);
    LastIs(ks, p);
    assert Stack(ks, q + 1) == Stack(ks, q) + [q];
  }

  lemma ClosedNeverStrays(ks: Statements, p: nat, q: nat)
    requires SubmenusClosed(ks, p)
    ensures !Strays(ks, p, q)
  {
    if Strays(ks, p, q) { OpenSubmenu(ks, q, p); }
  }

  /**
   * The walk over a menu stays with the statements of the menu exactly when no menu directly inside
   * it is left open with something after it.
   */
  lemma WalkExact(ks: Statements, p: nat)
    requires p < |ks| && ks[p] == Open
    ensures AllOwned(ks, Visited(ks, p, p + 1), p) <==> forall q: nat :: !Strays(ks, p, q)
  {
    assert Stack(ks, p + 1) == Stack(ks, p) + [p];
    if q: nat :| Strays(ks, p, q) {
      OwnedStack(ks, q, p);
      WalkStrays(ks, p, p + 1, q);
      AtInner(ks, p, q);
    } else {
      WalkStays(ks, p, p + 1);
    }
  }
}
