/**
 * The two passes of dump_tk_script in config/scripts/tkgen.c over the menus: numbering, and the
 * walk that lays out each menu's window.
 */
module MenuPasses {
  import opened Sequences
  import opened Menus

  // ---- what the numbering pass has recorded before statement i ----

  predicate HasNumber(k: Kind) { k != Close && k != Other }

  predicate Firsts(ks: Statements, i: nat, first: seq<nat>)
    requires i <= |ks|
  {
    |first| == 100 && Opens(ks, i) < 100
    && forall m {:trigger first[m]} :: 1 <= m <= Opens(ks, i) ==>
         first[m] < i && ks[first[m]] == Open && Number(ks, first[m]) == m
  }

  predicate Lasts(ks: Statements, i: nat, first: seq<nat>, last: seq<nat>)
    requires i <= |ks| && Firsts(ks, i, first)
  {
    |last| == 100
    && forall m {:trigger first[m]} :: 1 <= m <= Opens(ks, i) ==>
         if first[m] in Stack(ks, i) then last[m] == first[m] else Closes(ks, first[m], last[m])
  }

  predicate Numbers(ks: Statements, i: nat, number: seq<int>)
    requires i <= |ks|
  {
    |number| == |ks| && forall k {:trigger number[k]} :: 0 <= k < i && HasNumber(ks[k]) ==>
      number[k] == OwnerNumber(ks, k)
  }

  predicate Levels(ks: Statements, i: nat, level: seq<nat>)
    requires i <= |ks|
  {
    |level| == 64 && |Stack(ks, i)| < 64 && level[0] == 0
    && forall d :: 0 <= d < |Stack(ks, i)| ==> level[d + 1] == Number(ks, Stack(ks, i)[d])
  }

  lemma LevelIsOwner(ks: Statements, i: nat, level: seq<nat>)
    requires i <= |ks| && Levels(ks, i, level)
    ensures level[|Stack(ks, i)|] == OwnerNumber(ks, i)
  {
    var d := |Stack(ks, i)|;
    if d > 0 { assert level[d - 1 + 1] == Number(ks, Stack(ks, i)[d - 1]); }
  }

  lemma FirstOfNumber(ks: Statements, i: nat, first: seq<nat>, q: nat)
    requires q < i <= |ks| && Firsts(ks, i, first) && ks[q] == Open
    ensures 1 <= Number(ks, q) <= Opens(ks, i) && first[Number(ks, q)] == q
  {
    NumberBound(ks, q, i);
    FirstIs(ks, i, first, q, Number(ks, q));
  }

  lemma NumberBound(ks: Statements, q: nat, i: nat)
    requires q < i <= |ks| && ks[q] == Open
    ensures Number(ks, q) <= Opens(ks, i)
  {
    OpensMonotone(ks, q + 1, i);
  }

  lemma FirstIs(ks: Statements, i: nat, first: seq<nat>, q: nat, m: nat)
    requires q < i <= |ks| && Firsts(ks, i, first) && ks[q] == Open && m == Number(ks, q) <= Opens(ks, i)
    ensures first[m] == q
  {
    assert ks[first[m]] == Open;
    NumberInjective(ks, q, first[m]);
  }

  lemma OpenStep(ks: Statements, i: nat, first: seq<nat>, last: seq<nat>, level: seq<nat>)
    requires i < |ks| && ks[i] == Open && Allowed(ks, i)
    requires Firsts(ks, i, first) && Lasts(ks, i, first, last) && Levels(ks, i, level)
    ensures var m, d := Opens(ks, i) + 1, |Stack(ks, i)| + 1;
            && Firsts(ks, i + 1, first[m := i])
            && Lasts(ks, i + 1, first[m := i], last[m := i])
            && Levels(ks, i + 1, level[d := m])
  {
    var m := Opens(ks, i) + 1;
    var first' := first[m := i];
    forall k | 1 <= k <= m ensures first'[k] < i + 1 && ks[first'[k]] == Open && Number(ks, first'[k]) == k {
      assert k < m ==> first'[k] == first[k];
    }
    OpenLasts(ks, i, first, last);
  }

  lemma OpenLasts(ks: Statements, i: nat, first: seq<nat>, last: seq<nat>)
    requires i < |ks| && ks[i] == Open && Firsts(ks, i, first) && Lasts(ks, i, first, last) && Opens(ks, i) < 99
    requires Firsts(ks, i + 1, first[Opens(ks, i) + 1 := i])
    ensures Lasts(ks, i + 1, first[Opens(ks, i) + 1 := i], last[Opens(ks, i) + 1 := i])
  {
    var m := Opens(ks, i) + 1;
    var first', last' := first[m := i], last[m := i];
    forall k | 1 <= k <= m
      ensures if first'[k] in Stack(ks, i + 1) then last'[k] == first'[k] else Closes(ks, first'[k], last'[k])
    {
      if k < m {
        assert first'[k] == first[k] && last'[k] == last[k] && first[k] != i;
        assert first[k] in Stack(ks, i + 1) <==> first[k] in Stack(ks, i);
      } else {
        assert i in Stack(ks, i + 1);
      }
    }
  }

  lemma CloseStep(ks: Statements, i: nat, first: seq<nat>, last: seq<nat>, level: seq<nat>)
    requires i < |ks| && ks[i] == Close && Allowed(ks, i)
    requires Firsts(ks, i, first) && Lasts(ks, i, first, last) && Levels(ks, i, level)
    ensures OwnerNumber(ks, i) < 100 && Firsts(ks, i + 1, first)
    ensures Lasts(ks, i + 1, first, last[OwnerNumber(ks, i) := i]) && Levels(ks, i + 1, level)
  {
    var s := Stack(ks, i);
    var p, m := Last(s), OwnerNumber(ks, i);
    StackOpen(ks, i, |s| - 1);
    FirstOfNumber(ks, i, first, p);
    var last' := last[m := i];
    forall k | 1 <= k <= Opens(ks, i)
      ensures if first[k] in Stack(ks, i + 1) then last'[k] == first[k] else Closes(ks, first[k], last'[k])
    {
      if k == m {
        assert Closes(ks, p, i);
        ClosedForGood(ks, p, i, i + 1);
      } else {
        assert first[k] != p;
        StackWithout(s, first[k]);
      }
    }
  }

  lemma StackWithout(s: seq<nat>, x: nat)
    requires s != [] && x != Last(s)
    ensures x in s <==> x in Front(s)
  {
    assert s == Front(s) + [Last(s)];
  }

  lemma PlainStep(ks: Statements, i: nat, first: seq<nat>, last: seq<nat>, level: seq<nat>)
    requires i < |ks| && ks[i] != Open && ks[i] != Close
    requires Firsts(ks, i, first) && Lasts(ks, i, first, last) && Levels(ks, i, level)
    ensures Firsts(ks, i + 1, first) && Lasts(ks, i + 1, first, last) && Levels(ks, i + 1, level)
  {}

  predicate AcceptedBefore(ks: Statements, i: nat)
    requires i <= |ks|
  {
    forall k {:trigger Allowed(ks, k)} :: 0 <= k < i ==> Allowed(ks, k)
  }

  // ---- the numbering pass ----

  /** menu_first, menu_last, tot_menu_num and the menu fields of the statements. */
  class MenuTable {
    const ks: Statements
    const menuFirst: array<nat>
    const menuLast: array<nat>
    var total: nat
    var menuNumber: seq<int>
    var menuLine: seq<int>

    constructor (ks: Statements)
      ensures this.ks == ks && Shaped() && fresh(menuFirst) && fresh(menuLast)
      ensures menuLine == seq(|ks|, i => 0)
    {
      this.ks := ks;
      menuFirst := new nat[100];
      menuLast := new nat[100];
      total := 0;
      menuNumber := seq(|ks|, i => 0);
      menuLine := seq(|ks|, i => 0);
    }

    ghost predicate Shaped()
      reads this`menuNumber
    {
      menuFirst.Length == menuLast.Length == 100 && menuFirst != menuLast && |menuNumber| == |ks|
    }

    ghost predicate NumberedBefore(i: nat)
      requires i <= |ks|
      reads this`total, this`menuNumber, menuFirst, menuLast
    {
      && Shaped() && total == Opens(ks, i)
      && Firsts(ks, i, menuFirst[..]) && Lasts(ks, i, menuFirst[..], menuLast[..]) && Numbers(ks, i, menuNumber)
    }

    /** Before statement i, with the enclosing menus' numbers in level. */
    ghost predicate Passing(i: nat, level: array<nat>, depth: int)
      requires i <= |ks|
      reads this`total, this`menuNumber, menuFirst, menuLast, level
    {
      && NumberedBefore(i) && level.Length == 64 && level != menuFirst && level != menuLast
      && Levels(ks, i, level[..]) && depth == |Stack(ks, i)|
    }

    method OpenMenu(i: nat, level: array<nat>, depth: nat) returns (ok: bool)
      requires i < |ks| && ks[i] == Open && NumberedBefore(i) && level.Length == 64 && level != menuFirst
      requires level != menuLast
      requires Levels(ks, i, level[..]) && depth == |Stack(ks, i)| + 1
      modifies this`total, this`menuNumber, menuFirst, menuLast, level
      ensures Shaped() && (ok <==> Allowed(ks, i))
      ensures ok ==> NumberedBefore(i + 1) && Levels(ks, i + 1, level[..])
    {
      ghost var first, last, levels := menuFirst[..], menuLast[..], level[..];
      LevelIsOwner(ks, i, levels);
      if depth >= 64 { return false; }
      total := total + 1;
      if total >= 100 { return false; }
      OpenStep(ks, i, first, last, levels);
      level[depth] := total;
      menuFirst[total] := i;
      menuLast[total] := i;
      menuNumber := menuNumber[i := level[depth - 1]];
      assert menuFirst[..] == first[total := i];
      assert menuLast[..] == last[total := i];
      assert level[..] == levels[depth := total];
      return true;
    }

    method CloseMenu(i: nat, level: array<nat>, depth: nat) returns (ok: bool)
      requires i < |ks| && ks[i] == Close && NumberedBefore(i) && level.Length == 64 && level != menuFirst
      requires level != menuLast
      requires Levels(ks, i, level[..]) && depth == |Stack(ks, i)|
      modifies menuLast
      ensures ok <==> Allowed(ks, i)
      ensures ok ==> NumberedBefore(i + 1) && Levels(ks, i + 1, level[..])
    {
      ghost var last := menuLast[..];
      LevelIsOwner(ks, i, level[..]);
      if depth > 0 { CloseStep(ks, i, menuFirst[..], last, level[..]); }
      menuLast[level[depth]] := i;
      assert menuLast[..] == last[level[depth] := i];
      ok := depth > 0;
    }

    method PlaceStatement(i: nat, level: array<nat>, depth: nat)
      requires i < |ks| && ks[i] != Open && ks[i] != Close && NumberedBefore(i)
      requires level.Length == 64 && Levels(ks, i, level[..]) && depth == |Stack(ks, i)|
      modifies this`menuNumber
      ensures NumberedBefore(i + 1) && Levels(ks, i + 1, level[..])
    {
      LevelIsOwner(ks, i, level[..]);
      PlainStep(ks, i, menuFirst[..], menuLast[..], level[..]);
      if ks[i] != Other { menuNumber := menuNumber[i := level[depth]]; }
    }

    /** One statement; false where the program exits with an error. */
    method NumberStatement(i: nat, level: array<nat>, depth: nat) returns (ok: bool, depth': int)
      requires i < |ks| && Passing(i, level, depth)
      modifies this`total, this`menuNumber, menuFirst, menuLast, level
      ensures Shaped() && (ok <==> Allowed(ks, i))
      ensures ok ==> Passing(i + 1, level, depth')
    {
      match ks[i] {
        case Open =>
          depth' := depth + 1;
          ok := OpenMenu(i, level, depth');
        case Close =>
          ok := CloseMenu(i, level, depth);
          depth' := depth - 1;
        case Comment =>
          PlaceStatement(i, level, depth);
          ok, depth' := depth > 0, depth;
        case ChoiceItem =>
          PlaceStatement(i, level, depth);
          ok, depth' := depth > 0, depth;
        case Widget =>
          PlaceStatement(i, level, depth);
          ok, depth' := depth > 0, depth;
        case _ =>
          PlaceStatement(i, level, depth);
          ok, depth' := true, depth;
      }
    }

    /** True unless the program exits with an error; then the tables describe all menus. */
    method NumberMenus() returns (ok: bool)
      requires Shaped()
      modifies this`total, this`menuNumber, menuFirst, menuLast
      ensures Shaped() && (ok <==> Accepted(ks))
      ensures ok ==> NumberedBefore(|ks|)
    {
      var level := new nat[64];
      var depth := 0;
      total := 0;
      level[0] := 0;
      for i := 0 to |ks|
        invariant fresh(level) && Passing(i, level, depth) && AcceptedBefore(ks, i)
      {
        var one, depth' := NumberStatement(i, level, depth);
        if !one { return false; }
        depth := depth';
      }
      return true;
    }

    // ---- laying out the windows ----

    /** The numbering pass has succeeded. */
    ghost predicate Ready()
      reads this`total, this`menuNumber, menuFirst, menuLast
    {
      NumberedBefore(|ks|)
    }

    /** The loop that looks for the number of the submenu at c; r is the menu it starts from. */
    method FindSubmenu(m: nat, c: nat, r: nat) returns (nr: nat)
      requires Ready() && c < |ks| && ks[c] == Open && OwnerNumber(ks, c) == m && r < Number(ks, c)
      requires SkippedDeeper(ks, m, c, r)
      ensures nr == Number(ks, c) <= Opens(ks, |ks|) < 100 && menuFirst[nr] == c
    {
      ghost var first := menuFirst[..];
      FirstOfNumber(ks, |ks|, first, c);
      nr := r + 1;
      if nr < Number(ks, c) { NumberedEarlier(ks, first, nr, c); }
      while menuNumber[menuFirst[nr]] > m
        invariant r < nr <= Number(ks, c) < 100 && menuFirst[nr] < |ks|
        invariant nr < Number(ks, c) ==> menuNumber[menuFirst[nr]] > m
        decreases Number(ks, c) - nr
      {
        nr := nr + 1;
        if nr < Number(ks, c) { NumberedEarlier(ks, first, nr, c); }
      }
    }

    /** The submenu at j: one line, then on to its close. */
    method PlaceSubmenu(m: nat, j: nat, line: nat, submenu: nat, ghost p: nat) returns (nr: nat, j': nat)
      requires Ready() && |menuLine| == |ks| && j < |ks| && ks[j] == Open && OwnerNumber(ks, j) == m > 0
      requires OwnedBy(ks, j, p) && SubmenusClosed(ks, p)
      requires submenu <= Opens(ks, j) && SkippedDeeper(ks, m, j, submenu)
      modifies this`menuLine
      ensures menuLine == old(menuLine)[j := line] && nr == Number(ks, j) && Closes(ks, j, j')
    {
      nr := FindSubmenu(m, j, submenu);
      menuLine := menuLine[j := line];
      j' := menuLast[nr];
      SubmenuClosed(ks, menuFirst[..], menuLast[..], nr, p);
    }

    method VisitSubmenu(m: nat, c: Cursor, ghost p: nat, ghost e: nat, ghost was: seq<int>) returns (c': Cursor)
      requires Ready() && SubmenusClosed(ks, p)
      requires AtCursor(ks, p, m, e, c, menuLine, was) && c.at != e && ks[c.at] == Open
      modifies this`menuLine
      ensures c'.at > c.at && AtCursor(ks, p, m, e, c', menuLine, was)
    {
      ghost var lines := menuLine;
      NotItsClose(ks, p, m, e, c.at, c.submenu);
      var nr, j := PlaceSubmenu(m, c.at, c.line, c.submenu, p);
      c' := Cursor(j + 1, c.line + 1, nr, c.omitted, c.window + [Row(c.at, c.line, nr)]);
      CursorOver(ks, p, m, e, c, j, lines, was, menuLine, c');
    }

    method Visit(m: nat, c: Cursor, ghost p: nat, ghost e: nat, ghost was: seq<int>) returns (c': Cursor)
      requires Ready() && SubmenusClosed(ks, p)
      requires AtCursor(ks, p, m, e, c, menuLine, was) && c.at != e && menuLine[c.at] == 0
      modifies this`menuLine
      ensures c'.at > c.at && AtCursor(ks, p, m, e, c', menuLine, was)
    {
      NotItsClose(ks, p, m, e, c.at, c.submenu);
      if ks[c.at] == Open {
        c' := VisitSubmenu(m, c, p, e, was);
      } else {
        ghost var lines := menuLine;
        c' := VisitOwn(c, p);
        CursorOn(ks, p, m, e, c, lines, was, menuLine, c');
      }
    }

    method VisitOwn(c: Cursor, ghost p: nat) returns (c': Cursor)
      requires |menuLine| == |ks| && c.at < |ks| && ks[c.at] != Open && OwnedBy(ks, c.at, p) && menuLine[c.at] == 0
      requires c.line == |Rows(ks, p, c.at)| && c.omitted == NameOmitted(ks, p, c.at)
      modifies this`menuLine
      ensures c' == Moved(ks, p, c) && menuLine == old(menuLine)[c.at := LineOf(ks, c.at)]
    {
      if ks[c.at] == Comment {
        c' := VisitComment(c, p);
      } else if ks[c.at] == Widget {
        menuLine := menuLine[c.at := c.line];
        c' := c.(at := c.at + 1, line := c.line + 1, window := c.window + [Row(c.at, c.line, 0)]);
      } else {
        c' := c.(at := c.at + 1);
      }
    }

    /** The first comment of a menu stands for its name and gets no line. */
    method VisitComment(c: Cursor, ghost p: nat) returns (c': Cursor)
      requires |menuLine| == |ks| && c.at < |ks| && ks[c.at] == Comment && OwnedBy(ks, c.at, p) && menuLine[c.at] == 0
      requires c.line == |Rows(ks, p, c.at)| && c.omitted == NameOmitted(ks, p, c.at)
      modifies this`menuLine
      ensures c' == Moved(ks, p, c) && menuLine == old(menuLine)[c.at := LineOf(ks, c.at)]
    {
      var j := c.at;
      if menuLine[j] == 0 && !c.omitted {
        menuLine := menuLine[j := -1];
        c' := c.(at := j + 1, omitted := true);
      } else {
        menuLine := menuLine[j := c.line];
        c' := c.(at := j + 1, omitted := true, line := c.line + 1, window := c.window + [Row(j, c.line, 0)]);
      }
    }

    /**
     * The walk over the menu numbered m: lines for what it owns, over the submenus by their
     * menuLast. Every submenu button opens that very submenu.
     */
    method LayOut(m: nat) returns (window: seq<Row>)
      requires Ready() && 1 <= m <= total && SubmenusClosed(ks, menuFirst[m])
      requires Untouched(ks, menuFirst[m], menuLine)
      modifies this`menuLine
      ensures window == Window(ks, menuFirst[m], |ks|)
      ensures LaidOut(ks, menuFirst[m], |ks|, menuLine, old(menuLine))
    {
      ghost var e := MenuEnds(ks, menuFirst[..], menuLast[..], m);
      window := Walk(m, menuFirst[m], e);
    }

    method Walk(m: nat, ghost p: nat, ghost e: nat) returns (window: seq<Row>)
      requires Ready() && SubmenusClosed(ks, p)
      requires m < 100 && p == menuFirst[m] && Reaches(ks, p, e) && m == Number(ks, p)
      requires Untouched(ks, p, menuLine) && menuLast[m] == if e < |ks| then e else p
      modifies this`menuLine
      ensures window == Window(ks, p, |ks|) && LaidOut(ks, p, |ks|, menuLine, old(menuLine))
    {
      ghost var was := menuLine;
      var c := Cursor(menuFirst[m] + 1, 0, m, false, []);
      WalkStarts(ks, p, m, e, c, was);
      while c.at < |ks| && c.at != menuLast[m]
        invariant AtCursor(ks, p, m, e, c, menuLine, was)
        decreases |ks| - c.at
      {
        NotYet(ks, p, c.at, menuLine, was);
        c := Visit(m, c, p, e, was);
      }
      WalkEnds(ks, p, e, menuLine, was);
      window := c.window;
    }

    /** All windows; afterwards every statement has its line. */
    method LayOutAll() returns (windows: seq<seq<Row>>)
      requires Ready() && |Stack(ks, |ks|)| <= 1 && menuLine == seq(|ks|, i => 0)
      modifies this`menuLine
      ensures |windows| == total && AllWindows(ks, menuFirst[..], windows)
      ensures menuLine == seq(|ks|, k requires 0 <= k < |ks| => LineOf(ks, k))
    {
      windows := [];
      NothingBelow(ks, menuLine);
      for m := 1 to total + 1
        invariant |windows| == m - 1 && AllWindows(ks, menuFirst[..], windows)
        invariant LaidOutBelow(ks, m, menuLine)
      {
        ghost var was := menuLine;
        OwnersAre(ks, menuFirst[..], m);
        NotLaidOut(ks, menuFirst[m], m, was);
        var window := LayOut(m);
        WindowsPush(ks, menuFirst[..], windows, window);
        windows := windows + [window];
        BelowNext(ks, menuFirst[m], m, menuLine, was);
      }
      AllBelow(ks, menuLine);
    }

    /** The windows that the Next button of menu m destroys. */
    method NextScript(m: nat) returns (destroyed: seq<nat>)
      requires NumberedBefore(|ks|) && 1 <= m <= total
      ensures m == total || OwnerNumber(ks, menuFirst[m + 1]) == m ==> destroyed == []
      ensures m < total && OwnerNumber(ks, menuFirst[m + 1]) != m ==>
                ExactlyLeft(Parents(ks, menuFirst[..]), m, destroyed)
    {
      destroyed := [];
      if m < total {
        SuccessorParent(ks, menuFirst[..], m);
        var next := Parent(m + 1);
        if next != m { destroyed := Climb(m, next); }
      }
    }

    /** menu_first[x]->menu_number */
    function Parent(x: nat): (n: nat)
      requires NumberedBefore(|ks|) && 1 <= x <= total
      reads this`total, this`menuNumber, menuFirst, menuLast
      ensures x < |Parents(ks, menuFirst[..])| && n == Parents(ks, menuFirst[..])[x] == OwnerNumber(ks, menuFirst[x])
    {
      assert menuFirst[..][x] == menuFirst[x];
      menuNumber[menuFirst[x]]
    }

    method Climb(m: nat, next: nat) returns (destroyed: seq<nat>)
      requires NumberedBefore(|ks|) && 1 <= m < total && Descending(Parents(ks, menuFirst[..]))
      requires next == Parents(ks, menuFirst[..])[m + 1] != m && Encloses(Parents(ks, menuFirst[..]), next, m)
      ensures ExactlyLeft(Parents(ks, menuFirst[..]), m, destroyed)
    {
      ghost var parents := Parents(ks, menuFirst[..]);
      destroyed := [m];
      var up := Parent(m);
      ClimbStarts(parents, m, next, destroyed);
      while up > 0 && next != up
        invariant Climbing(parents, m, next, up, destroyed)
        decreases up
      {
        ClimbStep(parents, m, next, up, destroyed);
        destroyed := destroyed + [up];
        up := Parent(up);
      }
      ClimbEnds(parents, m, next, up, destroyed);
    }
  }

  /** The variables of the walk: the statement, menu_line, nr_submenu, menu_name_omitted, the output. */
  datatype Cursor = Cursor(at: nat, line: nat, submenu: nat, omitted: bool, window: seq<Row>)

  ghost predicate AtCursor(ks: Statements, p: nat, m: nat, e: nat, c: Cursor, lines: seq<int>, was: seq<int>) {
    && Walking(ks, p, m, e, c.at, c.submenu) && LaidOut(ks, p, c.at, lines, was)
    && c.line == |Rows(ks, p, c.at)| && c.omitted == NameOmitted(ks, p, c.at) && c.window == Window(ks, p, c.at)
  }

  /** The cursor after a statement of the menu itself. */
  ghost function Moved(ks: Statements, p: nat, c: Cursor): Cursor
    requires c.at < |ks|
  {
    var j := c.at;
    var c' := if TakesLine(ks, p, j) then c.(line := c.line + 1, window := c.window + [Row(j, c.line, 0)]) else c;
    c'.(at := j + 1, omitted := c.omitted || ks[j] == Comment)
  }

  lemma CursorOn(ks: Statements, p: nat, m: nat, e: nat, c: Cursor, lines: seq<int>, was: seq<int>,
                 lines': seq<int>, c': Cursor)
    requires AtCursor(ks, p, m, e, c, lines, was) && c.at != e && ks[c.at] != Close && ks[c.at] != Open
    requires lines' == lines[c.at := LineOf(ks, c.at)] && c' == Moved(ks, p, c)
    ensures AtCursor(ks, p, m, e, c', lines', was)
  {
    LaidOutStep(ks, p, c.at, lines, was);
    StepOn(ks, p, m, e, c.at, c.submenu);
    OwnRow(ks, p, c, c');
  }

  /** What a statement of the menu itself adds to its window. */
  lemma OwnRow(ks: Statements, p: nat, c: Cursor, c': Cursor)
    requires c.at < |ks| && OwnedBy(ks, c.at, p) && ks[c.at] != Open && c' == Moved(ks, p, c)
    requires c.line == |Rows(ks, p, c.at)| && c.omitted == NameOmitted(ks, p, c.at) && c.window == Window(ks, p, c.at)
    ensures c'.at == c.at + 1 && c'.submenu == c.submenu && c'.line == |Rows(ks, p, c'.at)|
    ensures c'.omitted == NameOmitted(ks, p, c'.at) && c'.window == Window(ks, p, c'.at)
  {}

  lemma LaidOutStep(ks: Statements, p: nat, j: nat, lines: seq<int>, was: seq<int>)
    requires j < |ks| && LaidOut(ks, p, j, lines, was) && OwnedBy(ks, j, p)
    ensures LaidOut(ks, p, j + 1, lines[j := LineOf(ks, j)], was)
  {}

  lemma CursorOver(ks: Statements, p: nat, m: nat, e: nat, c: Cursor, f: nat, lines: seq<int>, was: seq<int>,
                   lines': seq<int>, c': Cursor)
    requires AtCursor(ks, p, m, e, c, lines, was) && c.at != e && ks[c.at] == Open && Closes(ks, c.at, f)
    requires lines' == lines[c.at := c.line] && c'.window == c.window + [Row(c.at, c.line, Number(ks, c.at))]
    requires c'.at == f + 1 && c'.line == c.line + 1 && c'.submenu == Number(ks, c.at) && c'.omitted == c.omitted
    ensures c.at < f && AtCursor(ks, p, m, e, c', lines', was)
  {
    SubmenuRow(ks, p, c.at);
    LaidOutStep(ks, p, c.at, lines, was);
    StepOver(ks, p, m, e, c.at, f);
    LinesOver(ks, p, c.at, f, was, lines');
  }

  /** What a submenu adds to its window. */
  lemma SubmenuRow(ks: Statements, p: nat, j: nat)
    requires j < |ks| && OwnedBy(ks, j, p) && ks[j] == Open
    ensures LineOf(ks, j) == |Rows(ks, p, j)| && |Rows(ks, p, j + 1)| == |Rows(ks, p, j)| + 1
    ensures NameOmitted(ks, p, j + 1) == NameOmitted(ks, p, j)
    ensures Window(ks, p, j + 1) == Window(ks, p, j) + [Row(j, |Rows(ks, p, j)|, Number(ks, j))]
  {}

  /** Where the menu numbered m ends, and what menuLast says of it. */
  lemma MenuEnds(ks: Statements, first: seq<nat>, last: seq<nat>, m: nat) returns (e: nat)
    requires Firsts(ks, |ks|, first) && Lasts(ks, |ks|, first, last)
    requires 1 <= m <= Opens(ks, |ks|) && SubmenusClosed(ks, first[m])
    ensures Number(ks, first[m]) == m && Reaches(ks, first[m], e) && last[m] == if e < |ks| then e else first[m]
  {
    e := if first[m] in Stack(ks, |ks|) then |ks| else last[m];
  }

  /** A menu inside one whose submenus are closed is closed. */
  lemma SubmenuClosed(ks: Statements, first: seq<nat>, last: seq<nat>, m: nat, p: nat)
    requires Firsts(ks, |ks|, first) && Lasts(ks, |ks|, first, last) && 1 <= m <= Opens(ks, |ks|)
    requires OwnedBy(ks, first[m], p) && SubmenusClosed(ks, p)
    ensures Closes(ks, first[m], last[m])
  {
    if first[m] in Stack(ks, |ks|) { OpenSubmenu(ks, first[m], p); }
  }

  /** The walk over menu m, opened at p and reaching to e, is at j; submenu is the last one it met. */
  ghost predicate Walking(ks: Statements, p: nat, m: nat, e: nat, j: nat, submenu: nat) {
    && Reaches(ks, p, e) && m == Number(ks, p)
    && p < j <= e && OwnedBy(ks, j, p) && submenu <= Opens(ks, j) && SkippedDeeper(ks, m, j, submenu)
  }

  /** Statements of the menu at p before j have their lines; no other line has changed. */
  ghost predicate LaidOut(ks: Statements, p: nat, j: nat, lines: seq<int>, was: seq<int>)
    requires j <= |ks|
  {
    |lines| == |was| == |ks|
    && forall k {:trigger lines[k]} :: 0 <= k < |ks| ==>
         lines[k] == if k < j && OwnedBy(ks, k, p) then LineOf(ks, k) else was[k]
  }

  /** No statement of the menu at p has a line yet. */
  ghost predicate Untouched(ks: Statements, p: nat, lines: seq<int>) {
    |lines| == |ks| && forall k {:trigger lines[k]} :: 0 <= k < |ks| && OwnedBy(ks, k, p) ==> lines[k] == 0
  }

  lemma NotYet(ks: Statements, p: nat, j: nat, lines: seq<int>, was: seq<int>)
    requires j < |ks| && LaidOut(ks, p, j, lines, was) && Untouched(ks, p, was) && OwnedBy(ks, j, p)
    ensures lines[j] == 0
  {
    assert lines[j] == was[j];
  }

  lemma WalkStarts(ks: Statements, p: nat, m: nat, e: nat, c: Cursor, was: seq<int>)
    requires Reaches(ks, p, e) && m == Number(ks, p) && |was| == |ks| && c == Cursor(p + 1, 0, m, false, [])
    ensures p < e && AtCursor(ks, p, m, e, c, was, was)
  {
    OwnedStack(ks, e, p);
    NothingBefore(ks, p);
    RowsSkip(ks, p, 0, p + 1);
    SkipStarts(ks, p, m);
    LaidOutSkip(ks, p, 0, p + 1, was, was);
  }

  lemma NothingBefore(ks: Statements, p: nat)
    requires p < |ks| && ks[p] == Open
    ensures OwnedBy(ks, p + 1, p) && forall k :: 0 <= k < p + 1 ==> !OwnedBy(ks, k, p)
  {}

  lemma SkipStarts(ks: Statements, p: nat, m: nat)
    requires p < |ks| && ks[p] == Open && m == Number(ks, p)
    ensures SkippedDeeper(ks, m, p + 1, m)
  {
    forall q | 0 <= q < p + 1 && ks[q] == Open ensures Number(ks, q) <= m { NumberOrder(ks, p, q); }
  }

  lemma NotItsClose(ks: Statements, p: nat, m: nat, e: nat, j: nat, submenu: nat)
    requires Walking(ks, p, m, e, j, submenu) && j != e
    ensures ks[j] != Close && OwnerNumber(ks, j) == m
  {
    if ks[j] == Close { ClosedForGood(ks, p, j, e); }
  }

  lemma StepOn(ks: Statements, p: nat, m: nat, e: nat, j: nat, submenu: nat)
    requires Walking(ks, p, m, e, j, submenu) && j != e && ks[j] != Open && ks[j] != Close
    ensures Walking(ks, p, m, e, j + 1, submenu)
  {}

  lemma StepOver(ks: Statements, p: nat, m: nat, e: nat, c: nat, f: nat)
    requires Reaches(ks, p, e) && m == Number(ks, p) && c < |ks| && OwnedBy(ks, c, p) && Closes(ks, c, f)
    ensures Walking(ks, p, m, e, f + 1, Number(ks, c))
  {
    OwnedAfter(ks, p, c, f);
    OwnedInside(ks, p, e, f + 1);
    SkipsDeeper(ks, p, m, c, f);
  }

  /** After a submenu the statements are the menu's again. */
  lemma OwnedAfter(ks: Statements, p: nat, c: nat, f: nat)
    requires c < |ks| && OwnedBy(ks, c, p) && Closes(ks, c, f)
    ensures p < |ks| && ks[p] == Open && OwnedBy(ks, f + 1, p) && Number(ks, c) <= Opens(ks, f + 1)
  {
    OwnedStack(ks, c, p);
    CloseRestores(ks, c, f);
    OpensMonotone(ks, c + 1, f + 1);
  }

  lemma SkipsDeeper(ks: Statements, p: nat, m: nat, c: nat, f: nat)
    requires p < |ks| && ks[p] == Open && m == Number(ks, p) && c < |ks| && OwnedBy(ks, c, p) && Closes(ks, c, f)
    ensures f + 1 <= |ks| && SkippedDeeper(ks, m, f + 1, Number(ks, c))
  {
    OwnedStack(ks, c, p);
    CloseRestores(ks, c, f);
    forall q | 0 <= q < f + 1 && ks[q] == Open && Number(ks, q) > Number(ks, c) ensures OwnerNumber(ks, q) > m {
      NumberOrder(ks, c, q);
      InsideOwner(ks, c, f, q);
      NumberOrder(ks, p, Last(Stack(ks, q)));
    }
  }

  lemma NotOwned(ks: Statements, p: nat, c: nat, f: nat, k: nat)
    requires c < |ks| && OwnedBy(ks, c, p) && Closes(ks, c, f) && c < k <= f
    ensures !OwnedBy(ks, k, p)
  {
    OwnedStack(ks, c, p);
    InsideOwner(ks, c, f, k);
  }

  lemma NoneOwned(ks: Statements, p: nat, c: nat, f: nat)
    requires c < |ks| && OwnedBy(ks, c, p) && Closes(ks, c, f)
    ensures c < f && forall k :: c + 1 <= k < f + 1 ==> !OwnedBy(ks, k, p)
  {
    CloseRestores(ks, c, f);
    forall k | c + 1 <= k < f + 1 ensures !OwnedBy(ks, k, p) { NotOwned(ks, p, c, f, k); }
  }

  lemma LinesOver(ks: Statements, p: nat, c: nat, f: nat, was: seq<int>, lines: seq<int>)
    requires c < |ks| && OwnedBy(ks, c, p) && Closes(ks, c, f) && LaidOut(ks, p, c + 1, lines, was)
    ensures c < f && LaidOut(ks, p, f + 1, lines, was)
    ensures Rows(ks, p, f + 1) == Rows(ks, p, c + 1) && NameOmitted(ks, p, f + 1) == NameOmitted(ks, p, c + 1)
    ensures Window(ks, p, f + 1) == Window(ks, p, c + 1)
  {
    NoneOwned(ks, p, c, f);
    RowsSkip(ks, p, c + 1, f + 1);
    LaidOutSkip(ks, p, c + 1, f + 1, lines, was);
  }

  lemma LaidOutSkip(ks: Statements, p: nat, i: nat, j: nat, lines: seq<int>, was: seq<int>)
    requires i <= j <= |ks| && LaidOut(ks, p, i, lines, was) && forall k :: i <= k < j ==> !OwnedBy(ks, k, p)
    ensures LaidOut(ks, p, j, lines, was)
  {}

  lemma WalkEnds(ks: Statements, p: nat, e: nat, lines: seq<int>, was: seq<int>)
    requires Reaches(ks, p, e) && LaidOut(ks, p, e, lines, was) && Untouched(ks, p, was)
    ensures LaidOut(ks, p, |ks|, lines, was) && Window(ks, p, |ks|) == Window(ks, p, e)
  {
    if e < |ks| {
      forall k | e + 1 <= k < |ks| ensures !OwnedBy(ks, k, p) {
        if OwnedBy(ks, k, p) { OwnedInside(ks, p, e, k); }
      }
      RowsSkip(ks, p, e + 1, |ks|);
      NotYet(ks, p, e, lines, was);
    }
  }

  // ---- all windows ----

  /** Menus numbered below m are laid out, the others not yet. */
  ghost predicate LaidOutBelow(ks: Statements, m: nat, lines: seq<int>) {
    |lines| == |ks| && forall k {:trigger lines[k]} :: 0 <= k < |ks| ==>
      lines[k] == if OwnerNumber(ks, k) < m then LineOf(ks, k) else 0
  }

  /** Entry i is the window of menu i + 1. */
  ghost predicate AllWindows(ks: Statements, first: seq<nat>, windows: seq<seq<Row>>) {
    |windows| < |first| && forall i :: 0 <= i < |windows| ==> WindowOf(ks, first, i + 1, windows[i])
  }

  /** The window of menu m has the rows of its statements. */
  ghost predicate WindowOf(ks: Statements, first: seq<nat>, m: nat, window: seq<Row>) {
    m < |first| && window == Window(ks, first[m], |ks|)
  }

  lemma WindowsPush(ks: Statements, first: seq<nat>, windows: seq<seq<Row>>, window: seq<Row>)
    requires AllWindows(ks, first, windows) && |windows| + 1 < |first| && WindowOf(ks, first, |windows| + 1, window)
    ensures AllWindows(ks, first, windows + [window])
  {
    var pushed := windows + [window];
    forall i | 0 <= i < |pushed| ensures WindowOf(ks, first, i + 1, pushed[i]) {
      if i < |windows| {
        assert pushed[i] == windows[i];
      } else {
        assert pushed[i] == window;
      }
    }
  }

  lemma NothingBelow(ks: Statements, lines: seq<int>)
    requires lines == seq(|ks|, i => 0)
    ensures LaidOutBelow(ks, 1, lines)
  {}

  lemma NotLaidOut(ks: Statements, p: nat, m: nat, lines: seq<int>)
    requires LaidOutBelow(ks, m, lines)
    requires forall k :: 0 <= k < |ks| ==> (OwnedBy(ks, k, p) <==> OwnerNumber(ks, k) == m)
    ensures Untouched(ks, p, lines)
  {}

  lemma OwnerIs(ks: Statements, first: seq<nat>, m: nat, k: nat)
    requires Firsts(ks, |ks|, first) && 1 <= m <= Opens(ks, |ks|) && k < |ks|
    ensures OwnedBy(ks, k, first[m]) <==> OwnerNumber(ks, k) == m
  {
    if Stack(ks, k) != [] {
      OwnedStack(ks, k, Last(Stack(ks, k)));
      FirstOfNumber(ks, |ks|, first, Last(Stack(ks, k)));
    }
  }

  lemma OwnersAre(ks: Statements, first: seq<nat>, m: nat)
    requires Firsts(ks, |ks|, first) && 1 <= m <= Opens(ks, |ks|)
    ensures forall k :: 0 <= k < |ks| ==> (OwnedBy(ks, k, first[m]) <==> OwnerNumber(ks, k) == m)
  {
    forall k | 0 <= k < |ks| ensures OwnedBy(ks, k, first[m]) <==> OwnerNumber(ks, k) == m { OwnerIs(ks, first, m, k); }
  }

  lemma BelowNext(ks: Statements, p: nat, m: nat, lines: seq<int>, was: seq<int>)
    requires LaidOutBelow(ks, m, was) && LaidOut(ks, p, |ks|, lines, was)
    requires forall k :: 0 <= k < |ks| ==> (OwnedBy(ks, k, p) <==> OwnerNumber(ks, k) == m)
    ensures LaidOutBelow(ks, m + 1, lines)
  {
    forall k | 0 <= k < |ks| ensures lines[k] == if OwnerNumber(ks, k) < m + 1 then LineOf(ks, k) else 0 {
      assert OwnedBy(ks, k, p) <==> OwnerNumber(ks, k) == m;
      assert was[k] == if OwnerNumber(ks, k) < m then LineOf(ks, k) else 0;
    }
  }

  lemma AllBelow(ks: Statements, lines: seq<int>)
    requires LaidOutBelow(ks, Opens(ks, |ks|) + 1, lines)
    ensures lines == seq(|ks|, k requires 0 <= k < |ks| => LineOf(ks, k))
  {
    forall k | 0 <= k < |ks| ensures lines[k] == LineOf(ks, k) {
      ParentBelow(ks, k);
      OpensMonotone(ks, k, |ks|);
    }
  }

  /** A statement with a line is in the window of its own menu, at that line only, and in no other window. */
  lemma InOneWindow(ks: Statements, p: nat, i: nat)
    requires i < |ks| && TakesLine(ks, p, i)
    ensures 0 <= LineOf(ks, i) < |Rows(ks, p, |ks|)| && Rows(ks, p, |ks|)[LineOf(ks, i)] == i
    ensures forall q: nat, r :: 0 <= r < |Rows(ks, q, |ks|)| && Rows(ks, q, |ks|)[r] == i ==>
              q == p && r == LineOf(ks, i)
  {
    RowsPrefix(ks, p, i + 1, |ks|);
    forall q: nat, r | 0 <= r < |Rows(ks, q, |ks|)| && Rows(ks, q, |ks|)[r] == i ensures q == p && r == LineOf(ks, i) {
      RowsDistinct(ks, q, |ks|, r);
    }
  }

  lemma {:induction false} RowsPrefix(ks: Statements, p: nat, i: nat, j: nat)
    requires i <= j <= |ks|
    ensures Rows(ks, p, i) <= Rows(ks, p, j)
    decreases j
  {
    if i < j { RowsPrefix(ks, p, i, j - 1); }
  }

  // ---- what a window shows, by the kinds of statements alone ----

  /** The menu at p has a comment before statement i. */
  predicate CommentBefore(ks: Statements, p: nat, i: nat) {
    exists j :: 0 <= j < i && j < |ks| && ks[j] == Comment && OwnedBy(ks, j, p)
  }

  /** Submenus and widgets of the menu at p, and its comments but the first. */
  predicate Shown(ks: Statements, p: nat, k: nat) {
    k < |ks| && OwnedBy(ks, k, p) &&
    match ks[k]
    case Open => true
    case Widget => true
    case Comment => CommentBefore(ks, p, k)
    case Close => false
    case ChoiceItem => false
    case Definition => false
    case Other => false
  }

  function ShownBefore(ks: Statements, p: nat, i: nat): set<nat> { set k | 0 <= k < i && Shown(ks, p, k) }

  lemma {:induction false} OmittedIsBefore(ks: Statements, p: nat, i: nat)
    requires i <= |ks|
    ensures NameOmitted(ks, p, i) <==> CommentBefore(ks, p, i)
  {
    if i > 0 { OmittedIsBefore(ks, p, i - 1); }
  }

  lemma ShownStep(ks: Statements, p: nat, i: nat)
    requires i < |ks|
    ensures TakesLine(ks, p, i) <==> Shown(ks, p, i)
    ensures ShownBefore(ks, p, i + 1) == ShownBefore(ks, p, i) + if Shown(ks, p, i) then {i} else {}
    ensures forall k :: k in ShownBefore(ks, p, i) ==> k < i
  {
    OmittedIsBefore(ks, p, i);
  }

  /** The sequence has the members of the set, each once, in increasing order. */
  ghost predicate Listing(js: seq<nat>, s: set<nat>) {
    && |js| == |s| && (forall k :: k in js <==> k in s)
    && forall r, q :: 0 <= r < q < |js| ==> js[r] < js[q]
  }

  lemma ListingPush(js: seq<nat>, s: set<nat>, i: nat)
    requires Listing(js, s) && forall k :: k in s ==> k < i
    ensures Listing(js + [i], s + {i})
  {
    assert forall r :: 0 <= r < |js| ==> js[r] in js;
  }

  lemma {:induction false} RowsList(ks: Statements, p: nat, i: nat)
    requires i <= |ks|
    ensures Listing(Rows(ks, p, i), ShownBefore(ks, p, i))
  {
    if i == 0 {
      assert Rows(ks, p, i) == [] && ShownBefore(ks, p, i) == {};
    } else {
      RowsList(ks, p, i - 1);
      RowsListStep(ks, p, i - 1, Rows(ks, p, i - 1), Rows(ks, p, i), ShownBefore(ks, p, i - 1), ShownBefore(ks, p, i));
    }
  }

  lemma RowsListStep(ks: Statements, p: nat, i: nat, js: seq<nat>, js': seq<nat>, s: set<nat>, s': set<nat>)
    requires i < |ks| && js == Rows(ks, p, i) && js' == Rows(ks, p, i + 1)
    requires s == ShownBefore(ks, p, i) && s' == ShownBefore(ks, p, i + 1) && Listing(js, s)
    ensures Listing(js', s')
  {
    ShownStep(ks, p, i);
    if Shown(ks, p, i) {
      assert js' == js + [i];
      ListingPush(js, s, i);
    } else {
      assert js' == js && s' == s;
    }
  }

  /** Row r shows the statement at r; a submenu's row opens that submenu. */
  ghost predicate Shows(ks: Statements, window: seq<Row>, js: seq<nat>) {
    |window| == |js| && forall r :: 0 <= r < |js| ==> ShowsAt(ks, window[r], js[r], r)
  }

  predicate ShowsAt(ks: Statements, row: Row, k: nat, r: nat) {
    k < |ks| && row == Row(k, r, if ks[k] == Open then Number(ks, k) else 0)
  }

  lemma {:induction false} WindowRows(ks: Statements, p: nat, i: nat)
    requires i <= |ks|
    ensures Shows(ks, Window(ks, p, i), Rows(ks, p, i))
  {
    if i > 0 {
      WindowRows(ks, p, i - 1);
      ShowsStep(ks, p, i - 1);
    }
  }

  lemma ShowsStep(ks: Statements, p: nat, i: nat)
    requires i < |ks| && Shows(ks, Window(ks, p, i), Rows(ks, p, i))
    ensures Shows(ks, Window(ks, p, i + 1), Rows(ks, p, i + 1))
  {
    if TakesLine(ks, p, i) {
      RowsGrow(ks, p, i);
      ShowsPush(ks, Window(ks, p, i), Rows(ks, p, i), i, Window(ks, p, i + 1), Rows(ks, p, i + 1));
    } else {
      RowsStay(ks, p, i);
    }
  }

  lemma RowsStay(ks: Statements, p: nat, i: nat)
    requires i < |ks| && !TakesLine(ks, p, i)
    ensures Rows(ks, p, i + 1) == Rows(ks, p, i) && Window(ks, p, i + 1) == Window(ks, p, i)
  {}

  lemma RowsGrow(ks: Statements, p: nat, i: nat)
    requires i < |ks| && TakesLine(ks, p, i)
    ensures Rows(ks, p, i + 1) == Rows(ks, p, i) + [i]
    ensures Window(ks, p, i + 1) == Window(ks, p, i) + [Row(i, |Rows(ks, p, i)|, Target(ks, i))]
  {}

  lemma ShowsPush(ks: Statements, window: seq<Row>, js: seq<nat>, k: nat, window': seq<Row>, js': seq<nat>)
    requires k < |ks| && Shows(ks, window, js)
    requires window' == window + [Row(k, |js|, Target(ks, k))] && js' == js + [k]
    ensures Shows(ks, window', js')
  {
    forall r | 0 <= r < |js'| ensures ShowsAt(ks, window'[r], js'[r], r) {
      if r < |js| { assert ShowsAt(ks, window[r], js[r], r); }
    }
  }

  /**
   * A window has exactly one row for every submenu and widget of its menu and for every comment
   * after the first, in the order of the statements, and none for anything else.
   */
  lemma WindowShows(ks: Statements, p: nat) returns (js: seq<nat>)
    ensures Listing(js, ShownBefore(ks, p, |ks|)) && Shows(ks, Window(ks, p, |ks|), js)
  {
    js := Rows(ks, p, |ks|);
    RowsList(ks, p, |ks|);
    WindowRows(ks, p, |ks|);
  }

  /** The line of a statement: how many are shown before it in its menu, -1 for a first comment, else 0. */
  lemma LineCounts(ks: Statements, p: nat, k: nat)
    requires k < |ks| && OwnedBy(ks, k, p)
    ensures LineOf(ks, k) == if Shown(ks, p, k) then |ShownBefore(ks, p, k)| else if ks[k] == Comment then -1 else 0
  {
    RowsList(ks, p, k);
    ShownStep(ks, p, k);
  }

  // ---- the Next button ----

  /** x is destroyed exactly if it encloses m (or is m) and does not enclose the next menu; nothing twice. */
  ghost predicate ExactlyLeft(parents: seq<nat>, m: nat, destroyed: seq<nat>) {
    && Descending(parents) && m + 1 < |parents|
    && (forall x: nat :: x in destroyed <==> x > 0 && Encloses(parents, x, m) && !Encloses(parents, x, m + 1))
    && forall i, j :: 0 <= i < j < |destroyed| ==> destroyed[i] > destroyed[j]
  }

  lemma ParentsDescend(ks: Statements, first: seq<nat>)
    requires Firsts(ks, |ks|, first)
    ensures Descending(Parents(ks, first))
  {
    forall m | 0 < m <= Opens(ks, |ks|) ensures Parents(ks, first)[m] < m { ParentBelow(ks, first[m]); }
  }

  /** Every menu on the stack encloses the menu that opens there. */
  lemma {:induction false} StackEncloses(ks: Statements, first: seq<nat>, p: nat, d: nat)
    requires Firsts(ks, |ks|, first) && Descending(Parents(ks, first))
    requires p < |ks| && ks[p] == Open && d < |Stack(ks, p)|
    ensures Number(ks, p) <= Opens(ks, |ks|) && Encloses(Parents(ks, first), Number(ks, Stack(ks, p)[d]), Number(ks, p))
    decreases p
  {
    var s := Stack(ks, p);
    StackOpen(ks, p, |s| - 1);
    FirstOfNumber(ks, |ks|, first, p);
    if d < |s| - 1 { StackEncloses(ks, first, Last(s), d); }
  }

  /** Where no other menu has opened since p, menus have only been closed. */
  lemma {:induction false} StackShrinks(ks: Statements, p: nat, q: nat)
    requires p < q <= |ks| && ks[p] == Open && Opens(ks, q) == Number(ks, p)
    ensures Stack(ks, q) <= Stack(ks, p) + [p]
    decreases q
  {
    if p + 1 < q {
      OpensMonotone(ks, p + 1, q - 1);
      StackShrinks(ks, p, q - 1);
    }
  }

  /** The next menu's parent is on the current menu's chain of enclosing menus. */
  lemma SuccessorParent(ks: Statements, first: seq<nat>, m: nat)
    requires Firsts(ks, |ks|, first) && 1 <= m < Opens(ks, |ks|)
    ensures Descending(Parents(ks, first)) && Encloses(Parents(ks, first), OwnerNumber(ks, first[m + 1]), m)
  {
    ParentsDescend(ks, first);
    var p, q := first[m], first[m + 1];
    NumberOrder(ks, q, p);
    StackShrinks(ks, p, q);
    var s := Stack(ks, q);
    if s == [] {
      ZeroEncloses(Parents(ks, first), m);
    } else if |s| <= |Stack(ks, p)| {
      assert Last(s) == Stack(ks, p)[|s| - 1];
      StackEncloses(ks, first, p, |s| - 1);
    }
  }

  /** Climbing from m: everything passed so far is destroyed, and next is still ahead. */
  ghost predicate Climbing(parents: seq<nat>, m: nat, next: nat, up: nat, destroyed: seq<nat>) {
    && Descending(parents) && m + 1 < |parents| && next == parents[m + 1] && up < m
    && Encloses(parents, up, m) && Encloses(parents, next, up) && Encloses(parents, next, m)
    && (forall x: nat :: x in destroyed <==> x > up && Encloses(parents, x, m))
    && forall i, j :: 0 <= i < j < |destroyed| ==> destroyed[i] > destroyed[j]
  }

  lemma ClimbStarts(parents: seq<nat>, m: nat, next: nat, destroyed: seq<nat>)
    requires destroyed == [m]
    requires Descending(parents) && 0 < m && m + 1 < |parents| && next == parents[m + 1] != m
    requires Encloses(parents, next, m)
    ensures Climbing(parents, m, next, parents[m], destroyed)
  {
    forall x: nat ensures x == m <==> x > parents[m] && Encloses(parents, x, m) {
      if x != m && Encloses(parents, x, m) { EnclosesBelow(parents, x, parents[m]); }
    }
  }

  lemma PassedOne(parents: seq<nat>, m: nat, up: nat, x: nat)
    requires Descending(parents) && m < |parents| && 0 < up <= m && Encloses(parents, up, m)
    ensures x > parents[up] && Encloses(parents, x, m) <==> (x > up && Encloses(parents, x, m)) || x == up
  {
    if parents[up] < x < up && Encloses(parents, x, m) {
      EnclosesChain(parents, x, up, m);
      EnclosesBelow(parents, x, parents[up]);
    }
  }

  lemma ClimbStep(parents: seq<nat>, m: nat, next: nat, up: nat, destroyed: seq<nat>)
    requires Climbing(parents, m, next, up, destroyed) && up > 0 && up != next
    ensures Climbing(parents, m, next, parents[up], destroyed + [up])
  {
    EnclosesTrans(parents, parents[up], up, m);
    forall i | 0 <= i < |destroyed| ensures destroyed[i] > up { assert destroyed[i] in destroyed; }
    forall x: nat ensures x in destroyed + [up] <==> x > parents[up] && Encloses(parents, x, m) {
      PassedOne(parents, m, up, x);
    }
  }

  lemma ClimbEnds(parents: seq<nat>, m: nat, next: nat, up: nat, destroyed: seq<nat>)
    requires Climbing(parents, m, next, up, destroyed) && (up == 0 || up == next)
    ensures ExactlyLeft(parents, m, destroyed)
  {
    forall x: nat ensures x in destroyed <==> x > 0 && Encloses(parents, x, m) && !Encloses(parents, x, m + 1) {
      if Encloses(parents, x, m) {
        EnclosesBelow(parents, x, m);
        if x <= next { EnclosesChain(parents, x, next, m); }
        else if Encloses(parents, x, m + 1) { EnclosesBelow(parents, x, next); }
      }
    }
  }

  /** Menus numbered above r that open before c are inside other submenus of m. */
  ghost predicate SkippedDeeper(ks: Statements, m: nat, c: nat, r: nat)
    requires c <= |ks|
  {
    forall q {:trigger OwnerNumber(ks, q)} :: 0 <= q < c && ks[q] == Open && Number(ks, q) > r ==>
      OwnerNumber(ks, q) > m
  }

  lemma NumberedEarlier(ks: Statements, first: seq<nat>, m: nat, c: nat)
    requires Firsts(ks, |ks|, first) && c < |ks| && ks[c] == Open && 1 <= m < Number(ks, c)
    ensures m < 100 && first[m] < c && ks[first[m]] == Open && Number(ks, first[m]) == m
  {
    NumberBound(ks, c, |ks|);
    assert ks[first[m]] == Open;
    NumberOrder(ks, c, first[m]);
  }
}
