# A model of three components of lktos_sdk

This project models, in Dafny, the parts of the repository whose correctness is not visible from
any single function, and proves what they are for.

**The config.in compiler** (`config/scripts/tkparse.c`, `tkcond.c`, `tkgen.c`). A nested
`if`/`else`/`fi` script becomes a flat list of statements, each under one guard. The reference is
an interpreter of the nested script over valuations of the variables (`Flattening.Paths`); the
main theorem (`Flattening.GuardsAreExact`) is that a surviving statement's guard is true exactly
when the interpreter reaches the statement, and that an unlinked statement is never reached, under
every valuation that distorts no condition. What distorts a condition is proved exactly
(`Flattening.FairIsExact`). Below it stand the meaning of condition chains (`Conditions`),
architecture folding (`Elimination`), `!` removal (`Negation`), the `else` inversion
(`Inversion`), joining and duplicate removal (`Joining`). `ConditionLists` and `StatementLists`
run the pass on linked condition nodes and linked statements that are overwritten and relinked in
place, and are proved against those functions. `Scripts` puts the two together: every list that
closes its ifs is the flat form of a nested script, and after the pass on the linked form each
linked statement points to nodes that read true exactly when the script reaches the statement
(`Scripts.FixScript`). `Tokenizer`, `VariableTables` and `Dependencies` are the front end:
interning, tokenizing `if` text, and the condition synthesized for `dep_*` statements. `Menus`,
`MenuPasses`, `Globals` and `GlobalPasses` are the back end: menu numbers, window layout, the Next
button, and the `global` lines of the generated procedures.

**MD5 and md5-crypt** (`lib/libcrypt/md5.c`, `crypt.c`). `Md5Steps` has the 64 steps of section
3.4 of RFC 1321 over any lawful word operations, with the rotating and partly unrolled builds of
the block transform; `Md5Words` has the 32-bit instance, its byte order and the fully unrolled
build. What the steps compute is pinned apart from their definition: `ByteBits` and `Md5Facts` say
what F, G, H, I, the rotation and the padding do bit by bit and byte by byte, `Md5Inverse` undoes
all 64 steps, and `Md5Known` follows the digest of the lower-case alphabet given in appendix A.5 of
RFC 1321 through every step. `Md5Stream` is the context that is updated in pieces, proved to give
the one-shot digest of sections 3.1 to 3.5 of RFC 1321. `Md5Crypt` is the password format and its
use as its own salt; `CryptFacts` says what its messages and its thousand rounds contain and reads
the text back.

**The generic atomics** (`lib/include/atomic.h`). `Atomics` is a transition system of any number
of threads whose loads and compare-and-exchanges are separate steps on one word; every
interleaving is proved to be a serial execution, a call that is not overtaken completes, and
conservation, election and retry bounds follow. `AtomicWords` has the C types and the derived macros.

Conventions. An empty chain stands for a NULL condition. A token sequence `(a) && (b)` is a list
of conjuncts `[a, b]` (`Joining.Render`). C strings are their characters before the NUL. Word
arithmetic is on integers with the wrap-around written out.

## Where the code does less than it seems to

Each of these is proved exactly, as an equivalence with a condition the caller can check.

- The `else` inversion swaps `-a` and `-o` without parentheses. Where the condition is false it is
  always true (`Inversion.InversionCovers`), and it is wrong under a valuation if and only if the
  condition is true while a run of alternatives joined by `-o` is all false
  (`Inversion.InversionAt`). A condition of variables and constants is negated under all valuations
  if and only if no run joined by `-a` can be all true while one joined by `-o` is all false
  (`Inversion.InversionExact`); over distinct variables that means that one operator joins it
  (`Inversion.DistinctExact`).
- The rule for undefined variables marked `???` (tkcond.c:393) loses what stands after a later
  top-level `-o`; the truth value is kept if and only if that tail is false:
  `Elimination.EliminateExact`, with a concrete chain in `Elimination.DropExample`.
- `remove_bang` leaves a `!` if and only if two `!` were adjacent: `Negation.RemoveBangExact`. The
  generated script gives such a `!` another priority, so scripts with adjacent `!` are left aside.
- A dependency whose name has a double quote in it is tested as another variable or refused; all
  others are tested as meant: `Dependencies.FakeIfExact`.
- The walk over a menu leaves the statements of the menu if and only if a menu directly inside it is
  never closed and has something after it: `Menus.WalkExact`.
- `i + 63` in `__md5_Update` wraps if and only if the buffered bytes plus the input reach 2^32
  (`Md5Stream.WrapsExactly`). Exactly then a block is read past the end of the input
  (`Md5Stream.OverreadsExactly`) and the loop never ends (`Md5Stream.LoopsForever`).
- `atomic_increment_and_test` promises "true iff it's now zero" and breaks the promise exactly for
  the largest value of an unsigned type narrower than `int`, which is promoted before the
  comparison: `AtomicWords.IncrementAndTestExact`.
- `atomic_add_zero` negates the value in the value's own type. It fails exactly when the word is
  narrower than that type and the sum wraps to zero in the word only, or when the word is wider, the
  value is a nonzero unsigned or the least signed one, and the word is the negation in one of the
  two types: `AtomicWords.AddZeroExact`, with an input of each kind in `AddZeroNarrowExample` and
  `AddZeroWideExample`.
- `atomic_add_negative` compares the sum, as a number, with a bound of zero or of a modulus that
  depends on both types. For every type of word and value it is right exactly when that agrees with
  the sign of the word, which an unsigned word never has: `AtomicWords.AddNegativeExact`. Spelled
  out: `AddNegativeSigned` (right exactly when the sum stays in the type), `AddNegativeMixed`,
  `AddNegativeUnsigned`; inputs that fail: `AddNegativeOverflowExample`, `AddNegativeMixedExample`,
  `AddNegativeUnsignedExample`.
- The generated procedures read a variable that no `global` line declares exactly when a
  dependency that is written out, or a variable in the text of a `define_int`, `define_hex` or
  `define_string` value, is not announced by then: `GlobalPasses.Script.GenerateProcedures`. Two
  such scripts are `Globals.ConstantNotAnnounced` (`m` in a `dep_tristate`) and
  `Globals.TextNotAnnounced` (`define_int CONFIG_A $CONFIG_B`).
- `get_varnum` refuses a new name exactly when more than 8191 names are stored, so with exactly
  8191 it writes the next name past the table: `Tokenizer.GuardExact`, `Tokenizer.OverrunExample`.
  The tokenizer model stops there with `TableOverrun`.

## Model

| member | source | states |
|---|---|---|
| Conditions.ShapeFixed | lktos_sdk/source/config/scripts/tkgen.c:342-373 | whether a chain can be read, and how far, does not depend on the valuation |
| Conditions.DisjunctionAppend | lktos_sdk/source/config/scripts/tkgen.c:342-373 | reading a chain does not look past the point where it stops, so chains can be glued |
| Conditions.OrSplit | lktos_sdk/source/config/scripts/tkgen.c:342-373 | two expressions with an or between them mean the disjunction of their meanings |
| Elimination.EliminateExact | lktos_sdk/source/config/scripts/tkcond.c:289-416 | folding always yields an expression, and keeps the truth value of the chain if and only if the part after the dropped or is false |
| Elimination.EliminateUniform | lktos_sdk/source/config/scripts/tkcond.c:289-416 | on uniform chains folding keeps the truth value under every valuation with ARCH fixed and undefined variables empty |
| Elimination.FoldsAway | lktos_sdk/source/config/scripts/tkcond.c:289-416 | a condition whose comparisons are all decided, by ARCH or by a variable that nothing defines, and joined by one operator folds to TRUE or FALSE, whichever it is |
| Elimination.DropExample | lktos_sdk/source/config/scripts/tkcond.c:392-401 | a concrete chain that is true and is folded to FALSE |
| Elimination.EliminateShape | lktos_sdk/source/config/scripts/tkcond.c:289-416 | TRUE and FALSE occur only as one-token chains; everything else stays an expression without parentheses |
| Elimination.EliminateParenthesized | lktos_sdk/source/config/scripts/tkcond.c:529 | a condition that starts with a parenthesis, as dependency conditions do, passes unchanged |
| Negation.RemoveBangMeaning | lktos_sdk/source/config/scripts/tkcond.c:91-120 | removing bangs keeps the truth value of every expression |
| Negation.RemoveBangExact | lktos_sdk/source/config/scripts/tkcond.c:91-120 | a bang is left if and only if two stood next to each other |
| Negation.RemoveBangTokens | lktos_sdk/source/config/scripts/tkcond.c:91-120 | no new kinds of token appear and uniform chains stay uniform |
| Negation.InvertUniform | lktos_sdk/source/config/scripts/tkcond.c:460-487 | the inversion of a uniform chain is its exact negation |
| Inversion.InvertMeaning | lktos_sdk/source/config/scripts/tkcond.c:460-487 | for every condition and valuation the inversion is true exactly when some run of comparisons joined by -o is all false |
| Inversion.InversionCovers | lktos_sdk/source/config/scripts/tkcond.c:460-487 | of a condition and its inversion at least one is true |
| Inversion.InversionAt | lktos_sdk/source/config/scripts/tkcond.c:460-487 | for every condition and valuation the inversion is the negation except exactly where the condition is true and a run joined by -o is all false |
| Inversion.InversionExact | lktos_sdk/source/config/scripts/tkcond.c:460-487 | a condition of variables and constants is negated under all valuations if and only if no run joined by -a is consistent with the falsity of a run joined by -o |
| Inversion.SpellsAll | lktos_sdk/source/config/scripts/tkcond.c:460-487 | every condition without bangs that compares variables with constants is of the form that InversionExact is about |
| Inversion.DistinctExact | lktos_sdk/source/config/scripts/tkcond.c:475-484 | over distinct variables the exact condition is that one operator joins the condition |
| Joining.RenderMeaning | lktos_sdk/source/config/scripts/tkcond.c:151-212 | a chain of parenthesized conjuncts means the conjunction of their meanings |
| Joining.GlueRenders | lktos_sdk/source/config/scripts/tkcond.c:151-212 | the glued stack is the list of its conditions other than TRUE |
| Joining.GlueWithDependency | lktos_sdk/source/config/scripts/tkcond.c:151-212 | a dependency condition is glued on without further parentheses |
| Joining.DedupRender | lktos_sdk/source/config/scripts/tkcond.c:214-276 | once nuked tokens are skipped, duplicate removal leaves exactly the conjunct list without its repeated comparisons, parentheses and operators in order |
| Joining.DropRepeatedKeepsSet | lktos_sdk/source/config/scripts/tkcond.c:214-276 | no conjunct disappears altogether |
| Joining.DropRepeatedCounts | lktos_sdk/source/config/scripts/tkcond.c:214-276 | every repeated single comparison is left exactly once, every other conjunct as often as before |
| Joining.LastCopyKept | lktos_sdk/source/config/scripts/tkcond.c:259-269 | of several copies the last is kept: a new last copy drives out exactly those before it |
| Joining.JoinMeaning | lktos_sdk/source/config/scripts/tkcond.c:128-280 | the guard is the conjunction of all conditions and dependencies; with a FALSE among them it is the one-token chain FALSE |
| Joining.JoinTokens | lktos_sdk/source/config/scripts/tkcond.c:128-280 | no guard other than the one-token FALSE contains TRUE or FALSE |
| Flattening.RunAll | lktos_sdk/source/config/scripts/tkcond.c:446-548 | the pass over the flat list does to each block of a nested script what the structure of the script says, and leaves the stack as it found it |
| Flattening.FatesAgree | lktos_sdk/source/config/scripts/tkcond.c:423-550 | under any stack, guards agree with the interpreter for every nested script |
| Flattening.GuardsAreExact | lktos_sdk/source/config/scripts/tkcond.c:423-550 | under every valuation that distorts no condition a surviving statement's guard is true exactly when every enclosing if holds and every enclosing else's condition fails, and an unlinked statement is not reached; no guard has a bang, TRUE or FALSE left |
| Flattening.FairIsExact | lktos_sdk/source/config/scripts/tkcond.c:446-517 | the statements in both branches of an if are guarded right under a valuation if and only if that valuation does not distort the condition |
| Flattening.CheckedIsFair | lktos_sdk/source/config/scripts/tkcond.c:289-487 | a condition that loses nothing to the ??? rule and, if it has an else, is joined by one operator is distorted by no valuation |
| Flattening.HeadKept | lktos_sdk/source/config/scripts/tkcond.c:510-517 | the first statement is never unlinked, so the caller's list head stays valid |
| Flattening.MenusStayBalanced | lktos_sdk/source/config/scripts/tkcond.c:493-548 | pruning removes a menu's opener exactly when it removes its endmenu, so the survivors' menu depth returns to zero |
| Flattening.DeadBranch | lktos_sdk/source/config/scripts/tkcond.c:493-548 | every statement under a FALSE condition is unlinked |
| Flattening.GuardsPrintable | lktos_sdk/source/config/scripts/tkcond.c:509-543 | no guard reaching the generator has TRUE or FALSE, nor a bang unless two were adjacent in the input |
| ConditionLists.InvertNodes | lktos_sdk/source/config/scripts/tkcond.c:471-485 | the loop over the linked nodes leaves the same nodes reading the inverted chain |
| ConditionLists.Inverted | lktos_sdk/source/config/scripts/tkcond.c:471-485 | no other condition list is affected |
| ConditionLists.Unlink | lktos_sdk/source/config/scripts/tkcond.c:104-114 | a node is cut out through prev or by moving the head, and the list runs through the other nodes |
| ConditionLists.RemoveBangs | lktos_sdk/source/config/scripts/tkcond.c:91-120 | the relinked list reads the chain without its bangs and runs through nodes of the old one, from the returned head |
| ConditionLists.Unbanged | lktos_sdk/source/config/scripts/tkcond.c:91-120 | no other condition list is affected |
| ConditionLists.EliminateOtherArch | lktos_sdk/source/config/scripts/tkcond.c:289-416 | the recursion on the rewritten tail terminates; from the returned head the list reads the folded chain, through nodes of the old one |
| ConditionLists.Eliminated | lktos_sdk/source/config/scripts/tkcond.c:289-416 | no other condition list is affected |
| ConditionLists.Deduplicate | lktos_sdk/source/config/scripts/tkcond.c:217-276 | the double loop overwrites exactly the tokens that duplicate removal nukes and leaves all links |
| ConditionLists.BangsFromIsRemoveBang | lktos_sdk/source/config/scripts/tkcond.c:95-118 | continuing from any place of the list amounts to removing bangs from there on |
| ConditionLists.DedupFromIsDedup | lktos_sdk/source/config/scripts/tkcond.c:220-275 | continuing the outer loop from any place amounts to duplicate removal from there on |
| ConditionLists.AppendCopy | lktos_sdk/source/config/scripts/tkcond.c:185-200 | the new list goes on with new nodes that read the condition copied |
| ConditionLists.JoinConditionStack | lktos_sdk/source/config/scripts/tkcond.c:128-280 | the result is a new list whose nodes are all new and read the joined chain; every list there was keeps its nodes and what they read |
| ConditionLists.NoSharing | lktos_sdk/source/config/scripts/tkcond.c:128-280 | different condition lists have no node in common |
| StatementLists.MarkVariables | lktos_sdk/source/config/scripts/tkcond.c:39-70 | walking the links marks exactly the variables defined by some statement |
| StatementLists.Relink | lktos_sdk/source/config/scripts/tkcond.c:510-547 | a statement is kept as the new prev or skipped by relinking, and the list still runs through the kept statements |
| StatementLists.FixStatement | lktos_sdk/source/config/scripts/tkcond.c:446-548 | one turn of the loop moves the stack and gives the statement its fate |
| StatementLists.FixConditionals | lktos_sdk/source/config/scripts/tkcond.c:423-550 | the list runs through exactly the statements the pass keeps, each pointing to a list that reads its guard, no two of them the same list, and later else inversions change no guard already attached |
| Scripts.BalancedIsFlat | lktos_sdk/source/config/scripts/tkcond.c:446-548 | every list in which each fi and else has its if, no if has two elses and every if is closed is the flat form of a nested script; if menus are closed and nest with the ifs, they are menus of the script |
| Scripts.LoadedAll | lktos_sdk/source/config/scripts/tkcond.c:446-548 | the conditions of a script that GuardsAreExact covers can be folded in place |
| Scripts.FitsNests | lktos_sdk/source/config/scripts/tkcond.c:442-530 | the flat list stays within the 32 slots of the stack, with one more for a dependent statement that has a condition, if and only if the script nests that deep at most |
| Scripts.FixScript | lktos_sdk/source/config/scripts/tkcond.c:423-550 | on the linked form of a nested script: the list begins at scfg and runs through the kept statements; under every valuation that distorts no condition each points to nodes that read true exactly when the script reaches it, and a statement no longer linked is not reached; no guard has a bang left |
| Scripts.GuardedIsGenerated | lktos_sdk/source/config/scripts/tkcond.c:493-543 | the keywords that get a guard are exactly those that the generator numbers, shows, defines or takes for a part of a menu: all but if, else, fi and mainmenu_name |
| Scripts.DepthIsStack | lktos_sdk/source/config/scripts/tkgen.c:1162-1184 | the menu depth counted over the statements is the height of the numbering pass's nesting |
| Scripts.MenusReachClosed | lktos_sdk/source/config/scripts/tkcond.c:493-548 | what is left of a script whose menus nest with its ifs has no endmenu without a menu and no menu left open, as the numbering pass sees it |
| Scripts.ClosedAccepted | lktos_sdk/source/config/scripts/tkgen.c:1147-1211 | a list with closed menus is accepted by the numbering pass if and only if its menus are at most 63 deep and at most 99 in number and every statement that wants to be in a menu is in one |
| Tokenizer.IndexKept | lktos_sdk/source/config/scripts/tkparse.c:84-96 | a name keeps its index when other names are added |
| Tokenizer.GuardExact | lktos_sdk/source/config/scripts/tkparse.c:91-93 | the guard refuses exactly a new name beyond 8191, and the slot written is in the table if and only if the name is present or the table does not hold exactly 8191 names |
| Tokenizer.OverrunExample | lktos_sdk/source/config/scripts/tkparse.c:91-93 | with 8191 names a new one goes to slot 8192 of 8192 |
| Tokenizer.TokenizedAccepts | lktos_sdk/source/config/scripts/tkparse.c:205-323 | every accepted chain has no adjacent operands, an operand before each binary operator, bangs only at the start or after -a, -o or a bang; its variables are in the table, which only grows and keeps distinct names |
| Tokenizer.RoundTrip | lktos_sdk/source/config/scripts/tkparse.c:205-323 | the printed form of a chain tokenizes to the same chain with the same indices if and only if the chain has that shape; otherwise it is refused |
| Tokenizer.SpacedRoundTrip | lktos_sdk/source/config/scripts/tkparse.c:205-323 | so it does with any non-empty strings of spaces and tabs between the tokens, and any before the bracket |
| Tokenizer.ExpressionsShaped | lktos_sdk/source/config/scripts/tkparse.c:205-323 | every expression of the input language has the accepted shape |
| VariableTables.VariableTable.GetVarnum | lktos_sdk/source/config/scripts/tkparse.c:84-96 | for every table: the index found is that of the name, added at the end if new, and names stay distinct; refusal and overrun are as the guard has them |
| VariableTables.VariableTable.TokenizeIf | lktos_sdk/source/config/scripts/tkparse.c:205-323 | for every text and table the scan by a moving pointer gives the specified tokens or the specified error, and the table holds the names |
| Dependencies.TestMeaning | lktos_sdk/source/config/scripts/tkparse.c:671-676 | the test of a dependency is true exactly for y or empty, and for m unless the statement is a dep_bool |
| Dependencies.FakeIfTokens | lktos_sdk/source/config/scripts/tkparse.c:671-677 | tokenizing the synthesized text gives that test and adds no name |
| Dependencies.FakeIfExact | lktos_sdk/source/config/scripts/tkparse.c:671-677 | exactly the names without a double quote are tested as meant |
| Dependencies.GatherKnown | lktos_sdk/source/config/scripts/tkparse.c:643-685 | for dependencies without quotes the tokenized tests are the ones meant, CONSTANT_M skipped for dep_tristate |
| Dependencies.DependencyCondition | lktos_sdk/source/config/scripts/tkparse.c:640-685 | the built condition holds exactly when every dependency that counts is satisfied, is untouched by architecture folding, and is a list of conjuncts |
| Dependencies.BuildCondition | lktos_sdk/source/config/scripts/tkparse.c:643-685 | for every dependency list and table the loop builds the parenthesized conjunction of what tokenizing gives, or stops with the error of the tokenizer |
| Menus.CloseRestores | lktos_sdk/source/config/scripts/tkgen.c:1162-1184 | after its endmenu a menu leaves the nesting as it was before the menu |
| Menus.CloseUnique | lktos_sdk/source/config/scripts/tkgen.c:1179-1184 | a menu has one endmenu |
| Menus.ParentBelow | lktos_sdk/source/config/scripts/tkgen.c:1162-1177 | a menu's number is above its parent's |
| Menus.NumberInjective | lktos_sdk/source/config/scripts/tkgen.c:1162-1177 | different menus have different numbers |
| Menus.LinesCount | lktos_sdk/source/config/scripts/tkgen.c:1251-1361 | within a menu the lines are 0, 1, 2, … in statement order without repeats |
| Menus.WalkExact | lktos_sdk/source/config/scripts/tkgen.c:1251-1262 | the walk over a menu comes to statements of that menu only, if and only if no menu directly inside it is left open with something after it |
| MenuPasses.MenuTable.NumberMenus | lktos_sdk/source/config/scripts/tkgen.c:1147-1211 | the pass accepts exactly the lists without its four errors; then menu_first, menu_last and menu_number describe every menu, numbered in the order they open |
| MenuPasses.MenuTable.FindSubmenu | lktos_sdk/source/config/scripts/tkgen.c:1258-1260 | the skip loop lands on the submenu at hand and never leaves the table |
| MenuPasses.MenuEnds | lktos_sdk/source/config/scripts/tkgen.c:1242-1257 | a menu reaches to its endmenu, or to the end of the list if it has none |
| MenuPasses.MenuTable.LayOut | lktos_sdk/source/config/scripts/tkgen.c:1242-1361 | the walk over a menu whose submenus are closed gives its lines to exactly the statements it owns, changes no other line, and every submenu button opens that very submenu |
| MenuPasses.MenuTable.LayOutAll | lktos_sdk/source/config/scripts/tkgen.c:1240-1364 | after all walks every statement has the line that its own menu gives it |
| MenuPasses.WindowShows | lktos_sdk/source/config/scripts/tkgen.c:1251-1361 | a window has exactly one row for every submenu and widget of its menu and every comment after the first, in statement order, with its line and the number of the submenu, and no other row |
| MenuPasses.LineCounts | lktos_sdk/source/config/scripts/tkgen.c:1251-1361 | the line of a statement is the number of those shown before it in its menu, -1 for a first comment, else 0 |
| MenuPasses.InOneWindow | lktos_sdk/source/config/scripts/tkgen.c:1240-1361 | a statement with a line is in the window of one menu only, at one line only |
| MenuPasses.SuccessorParent | lktos_sdk/source/config/scripts/tkgen.c:1162-1177 | the next menu's parent is the current menu or encloses it, or there is none |
| MenuPasses.MenuTable.NextScript | lktos_sdk/source/config/scripts/tkgen.c:161-174 | the walk ends and destroys exactly the menu and those of its enclosing menus that do not enclose the next one, each once |
| Globals.UsesDeclared | lktos_sdk/source/config/scripts/tkgen.c:256-280 | in a good script every use has a global line earlier in the same procedure, outside any body or in the same one |
| Globals.GuardMentions | lktos_sdk/source/config/scripts/tkcond.c:128-280 | joining and duplicate removal leave every variable of a dependency test in the guard |
| Globals.DependenciesInGuard | lktos_sdk/source/config/scripts/tkgen.c:673-691 | every dependency that counts is in its statement's guard and so is declared when the statement is written out |
| Globals.ConstantNotAnnounced | lktos_sdk/source/config/scripts/tkgen.c:805-817 | a dep_tristate on the constant m reads an undeclared variable |
| Globals.TextNotAnnounced | lktos_sdk/source/config/scripts/tkgen.c:819-841 | a define_int whose value names another variable reads it undeclared where it is set and where it is written |
| Globals.ProceduresUse | lktos_sdk/source/config/scripts/tkgen.c:1240-1530 | the generated procedures use a variable if and only if some statement calls for it, keyword by keyword: in its window, where it is recomputed or switched off, in the main menu, or in the written configuration |
| Globals.ConfigWrites | lktos_sdk/source/config/scripts/tkgen.c:643-867 | the written configuration has a line for a variable if and only if some statement, other than unset, is of that variable, a choice header standing for the items after it |
| Globals.DefinedIsWritten | lktos_sdk/source/config/scripts/tkgen.c:643-867 | every variable that a statement other than unset or a choice item defines is written out |
| GlobalPasses.Script.Declare | lktos_sdk/source/config/scripts/tkgen.c:320-326 | a set flag means a global line in the current procedure, and stays that way |
| GlobalPasses.Script.GenerateIf | lktos_sdk/source/config/scripts/tkgen.c:288-637 | apart from global lines the conditional is written as its statement says; every variable of condition and body is declared before it is used, except exactly the undeclared ones in the text of a value; the flags keep their meaning |
| GlobalPasses.Script.UpdateMenu | lktos_sdk/source/config/scripts/tkgen.c:1075-1125 | the procedure has the specified uses and bodies, all of declared variables |
| GlobalPasses.Script.UpdateDefine | lktos_sdk/source/config/scripts/tkgen.c:869-998 | the procedure has the specified uses and bodies, all declared if and only if the texts of its values are known by then |
| GlobalPasses.Script.WriteItem | lktos_sdk/source/config/scripts/tkgen.c:643-867 | the statement is written as specified and its variables are declared; all uses are good if and only if its dependencies and the variables of its text are declared by then |
| GlobalPasses.Script.GenerateProcedures | lktos_sdk/source/config/scripts/tkgen.c:1240-1530 | without its global lines the script is the specified one, and every use is declared if and only if every dependency written out and every variable in the text of a value is announced by then |
| Md5Steps.RotatingStepsAgree | lktos_sdk/source/lib/libcrypt/md5.c:334-386 | moving the registers instead of renaming them comes to the same after every step |
| Md5Steps.TransformMerged | lktos_sdk/source/lib/libcrypt/md5.c:334-358 | the merged loop computes the transform of RFC 1321 for every state and block |
| Md5Steps.TransformRotating | lktos_sdk/source/lib/libcrypt/md5.c:359-386 | so do the four rotating loops |
| Md5Steps.TransformPartlyUnrolled | lktos_sdk/source/lib/libcrypt/md5.c:387-419 | so do the loops of four operations |
| Md5Words.TransformUnrolled | lktos_sdk/source/lib/libcrypt/md5.c:420-508 | so does the fully unrolled form |
| Md5Words.TransformsAgree | lktos_sdk/source/lib/libcrypt/md5.c:334-513 | all four builds give the same new state, the unrolled ones with the words, shifts and constants they write out |
| Md5Inverse.StepsUndone | lktos_sdk/source/lib/libcrypt/md5.c:334-513 | for every block the steps can be undone one by one, so they take different registers to different registers |
| Md5Inverse.StepUsesWord | lktos_sdk/source/lib/libcrypt/md5.c:152-175 | blocks that differ in the word of a step lead to different registers in that step |
| Md5Facts.Md5Inverts | lktos_sdk/source/lib/libcrypt/md5.c:149-175 | the operations of md5.c have inverses, so both hold of it |
| Md5Facts.ShiftsReturn | lktos_sdk/source/lib/libcrypt/md5.c:150 | each of the sixteen rotations is undone by the rotation through the rest of the word |
| Md5Facts.FChooses | lktos_sdk/source/lib/libcrypt/md5.c:144 | F takes the bits of y where x has ones and those of z elsewhere |
| Md5Facts.GChooses | lktos_sdk/source/lib/libcrypt/md5.c:145 | G takes the bits of x where z has ones and those of y elsewhere |
| Md5Facts.HCounts | lktos_sdk/source/lib/libcrypt/md5.c:146 | H is the parity of the three bits |
| Md5Facts.IComplements | lktos_sdk/source/lib/libcrypt/md5.c:147 | I complements y where x has ones or z has zeros and leaves it elsewhere |
| Md5Known.LettersDigest | lktos_sdk/source/lib/libcrypt/md5.c:109-513 | with the operations and tables of md5.c the digest of the lower-case alphabet is the one given in appendix A.5 of RFC 1321 |
| Md5Words.Md5Lawful | lktos_sdk/source/lib/libcrypt/md5.c:109-175 | the 32-bit operations of md5.c are lawful, so everything proved for lawful operations holds of them |
| Md5Words.TableIsPattern | lktos_sdk/source/lib/libcrypt/md5.c:321-326 | the table P is the access pattern of the four rounds |
| Md5Words.DecodeEncode | lktos_sdk/source/lib/libcrypt/md5.c:114-140 | decoding undoes encoding for every word sequence |
| Md5Words.EncodeDecode | lktos_sdk/source/lib/libcrypt/md5.c:114-140 | encoding undoes decoding of whole words |
| Md5Words.Encode | lktos_sdk/source/lib/libcrypt/md5.c:114-127 | the loop writes every word low byte first |
| Md5Words.Decode | lktos_sdk/source/lib/libcrypt/md5.c:130-140 | the loop reads every word low byte first |
| Md5Stream.CountStep | lktos_sdk/source/lib/libcrypt/md5.c:203-207 | the two-word counter with its single carry is exact modulo 2^64 for every length |
| Md5Stream.WrapsExactly | lktos_sdk/source/lib/libcrypt/md5.c:217 | i + 63 wraps at a position the loop reaches if and only if buffered bytes plus input reach 2^32 |
| Md5Stream.OverreadsExactly | lktos_sdk/source/lib/libcrypt/md5.c:217-219 | exactly then the loop guard holds at a position less than 64 bytes from the end, so the block is read past the input |
| Md5Stream.LoopsForever | lktos_sdk/source/lib/libcrypt/md5.c:217 | and exactly then the unsigned i wraps too and the loop guard holds after any number of blocks |
| Md5Stream.FoldAppend | lktos_sdk/source/lib/libcrypt/md5.c:211-219 | hashing in two pieces is hashing their concatenation |
| Md5Stream.Md5Context.Update | lktos_sdk/source/lib/libcrypt/md5.c:196-228 | the state is the fold over all complete blocks, the buffer holds the tail, the counter is eight times the length modulo 2^64, for the message followed by the input |
| Md5Stream.Md5Context.Pad | lktos_sdk/source/lib/libcrypt/md5.c:234-253 | the padding and length of sections 3.1 and 3.2 of RFC 1321 are appended |
| Md5Stream.Md5Context.Final | lktos_sdk/source/lib/libcrypt/md5.c:260-270 | the digest of the message is that of sections 3.1 to 3.5 of RFC 1321 |
| Md5Stream.PaddedLength | lktos_sdk/source/lib/libcrypt/md5.c:246-252 | the padded message is a whole number of blocks |
| Md5Facts.StartIs | lktos_sdk/source/lib/libcrypt/md5.c:179-188 | the registers start as the bytes given in section 3.3 of RFC 1321 |
| Md5Facts.PaddedIs | lktos_sdk/source/lib/libcrypt/md5.c:234-253 | after the message come 0x80, zeros up to the last eight bytes of a block and the number of bits modulo 2^64 low byte first, with no block more than needed |
| Md5Facts.PaddingUndone | lktos_sdk/source/lib/libcrypt/md5.c:234-253 | a message of less than 2^61 bytes can be read back from its padded form |
| Md5Stream.HashChunks | lktos_sdk/source/lib/libcrypt/md5.c:179-270 | the digest of any sequence of updates is the one-shot digest of their concatenation |
| Md5Crypt.SaltSurvives | lktos_sdk/source/lib/libcrypt/md5.c:545-558 | the emitted prefix re-parses to the salt it was made from |
| Md5Crypt.CryptedIsFixpoint | lktos_sdk/source/lib/libcrypt/md5.c:534-636 | a result used as salt gives the result again |
| Md5Crypt.CryptIsFixpoint | lktos_sdk/source/lib/libcrypt/crypt.c:31-39 | crypt(key, crypt(key, salt)) is crypt(key, salt) for every salt that starts with the magic, whatever DES does |
| Md5Crypt.ResultFits | lktos_sdk/source/lib/libcrypt/md5.c:538-635 | the result is a C string of at most 34 characters, which fits the static buffer |
| Md5Crypt.TextInjective | lktos_sdk/source/lib/libcrypt/md5.c:520-629 | no byte of the digest is lost in the 22 characters |
| Md5Crypt.CheckAccepts | lktos_sdk/source/lib/libcrypt/md5.c:534-636 | another key is accepted against a stored result if and only if its digest is the same |
| Md5Crypt.RefineSalt | lktos_sdk/source/lib/libcrypt/md5.c:545-558 | the loop finds the part before the first dollar sign, at most 8 characters, after the magic |
| Md5Crypt.CryptMd5 | lktos_sdk/source/lib/libcrypt/md5.c:534-636 | the streaming computation gives the specified result |
| CryptFacts.SaltIs | lktos_sdk/source/lib/libcrypt/md5.c:545-558 | the salt in use is what follows the magic up to the first dollar sign, the end or eight characters, whichever comes first |
| CryptFacts.InnerIs | lktos_sdk/source/lib/libcrypt/md5.c:573-577 | the inner message is the salt between two copies of the password |
| CryptFacts.FirstIs | lktos_sdk/source/lib/libcrypt/md5.c:560-587 | the first message is password, magic, salt, as many bytes of the repeated inner digest as the password has, and one byte for each binary digit of its length: zero for a one, the first character for a zero |
| CryptFacts.RoundEnds | lktos_sdk/source/lib/libcrypt/md5.c:601-617 | an even round hashes the digest first and the password last, an odd one the other way round |
| CryptFacts.RoundSalt | lktos_sdk/source/lib/libcrypt/md5.c:608-609 | a round on a multiple of 3 does not depend on the salt; in any other the salt follows the first part |
| CryptFacts.ThousandRounds | lktos_sdk/source/lib/libcrypt/md5.c:601-619 | the thousand rounds hash 16000 bytes of digests, the salt 666 times and the password 1857 times |
| CryptFacts.LastRound | lktos_sdk/source/lib/libcrypt/md5.c:601-619 | the result is the digest of the password twice and the digest before it |
| CryptFacts.Alphabet | lktos_sdk/source/lib/libcrypt/md5.c:99-100 | the 64 characters are the dot, the slash, the digits and the letters, in the order of their codes |
| CryptFacts.TextReads | lktos_sdk/source/lib/libcrypt/md5.c:621-630 | all sixteen bytes of the digest can be read back from the 22 characters |
| Atomics.OnlyEffectsWrite | lktos_sdk/source/lib/include/atomic.h:63-140 | the word changes only where one operation takes effect, which returned the value just before |
| Atomics.NewValueIsApply | lktos_sdk/source/lib/include/atomic.h:104-239 | what a loop stores is what its operation is meant to do |
| Atomics.RunIsSerial | lktos_sdk/source/lib/include/atomic.h:104-239 | in every interleaving the completed operations, in order of effect, are a serial execution ending in the current word |
| Atomics.CallsCompleteOnce | lktos_sdk/source/lib/include/atomic.h:104-239 | every call takes effect exactly once or is still pending, in its thread's order |
| Atomics.MatchCompletes | lktos_sdk/source/lib/include/atomic.h:63-140 | in every reachable state a compare-and-exchange that finds the value its thread loaded completes the call, leaves what the operation is meant to leave and returns the old word |
| Atomics.LoadReads | lktos_sdk/source/lib/include/atomic.h:104-201 | a load remembers the word, or completes a decrement that has nothing to take |
| Atomics.CompletesOrOvertaken | lktos_sdk/source/lib/include/atomic.h:104-239 | from every reachable state a load and the next compare-and-exchange of a thread complete its call, whatever others do in between, unless one of them writes |
| Atomics.LogGrows | lktos_sdk/source/lib/include/atomic.h:104-239 | effects are never undone or reordered, so an operation that returned before another was called precedes it |
| Atomics.AddsConserved | lktos_sdk/source/lib/include/atomic.h:125-141 | the word is the initial value plus everything added, modulo the type |
| Atomics.ExchangesConserved | lktos_sdk/source/lib/include/atomic.h:103-118 | returned values with the final word equal the initial word with the stored values, as multisets |
| Atomics.OneWinner | lktos_sdk/source/lib/include/atomic.h:224-239 | on a clear bit that nothing else touches, exactly one completed call, if any, returns zero |
| Atomics.OneWinnerPerBit | lktos_sdk/source/lib/include/atomic.h:224-239 | threads that only test and set bits, of any positions, elect one winner per bit |
| Atomics.NeverOverdrawn | lktos_sdk/source/lib/include/atomic.h:183-201 | successful conditional decrements never exceed the initial value plus the additions, even when additions wrap |
| Atomics.NeverBelowZero | lktos_sdk/source/lib/include/atomic.h:183-201 | in every interleaving, among any other operations, a conditional decrement takes one from a positive word and leaves any other alone |
| Atomics.RetriesBounded | lktos_sdk/source/lib/include/atomic.h:105-140 | a failing compare-and-exchange has another thread's write between its load and itself, so a thread's retries never exceed the writes of the others |
| AtomicWords.OrBits | lktos_sdk/source/lib/include/atomic.h:228-238 | or with the mask sets its bit and no other, in signed and unsigned types |
| AtomicWords.CellLawful | lktos_sdk/source/lib/include/atomic.h:31-60 | the types of all widths are cells, so everything proved for cells holds of them |
| AtomicWords.IncrementAndTestExact | lktos_sdk/source/lib/include/atomic.h:159-163 | the test is right if and only if the value is not the largest of a narrow unsigned type |
| AtomicWords.IncrementAndTestExample | lktos_sdk/source/lib/include/atomic.h:159-163 | an unsigned char at 255 becomes zero and the test says no |
| AtomicWords.DecrementAndTestExact | lktos_sdk/source/lib/include/atomic.h:176-180 | the test is right for every type and value |
| AtomicWords.AddZeroExact | lktos_sdk/source/lib/include/atomic.h:211-215 | for every type of word and of value the test is right except exactly in two families: a sum that wraps to zero only in a narrower word, and a wider word that is the negation, in one of the types, of a nonzero unsigned value or of the least signed one |
| AtomicWords.AddZeroNarrowExample | lktos_sdk/source/lib/include/atomic.h:211-215 | an unsigned char at 255 becomes zero by adding 1 and the test says no |
| AtomicWords.AddZeroWideExample | lktos_sdk/source/lib/include/atomic.h:211-215 | so does a 64-bit word of all ones by adding 1u |
| AtomicWords.AddNegativeExact | lktos_sdk/source/lib/include/atomic.h:204-208 | for every type of word and of value the comparison amounts to a bound on the sum, and the test is right if and only if the bound agrees with the top bit of the sum in a signed word, or is not reached in an unsigned one |
| AtomicWords.AddNegativeSigned | lktos_sdk/source/lib/include/atomic.h:204-208 | for a signed word and a signed value in its range the test is right if and only if the sum stays in the type |
| AtomicWords.AddNegativeMixed | lktos_sdk/source/lib/include/atomic.h:204-208 | for a signed word and an unsigned value of its size the test is right if and only if the sum reaches half the modulus from a word not negative, or stays below it from a negative one |
| AtomicWords.AddNegativeUnsigned | lktos_sdk/source/lib/include/atomic.h:204-208 | for an unsigned word and a value of its size the test is right if and only if nothing is added, or the sum wraps, or a negative value leaves it not negative |
| AtomicWords.AddNegativeOverflowExample | lktos_sdk/source/lib/include/atomic.h:204-208 | the largest int becomes negative by adding 1 and the test says no |
| AtomicWords.AddNegativeMixedExample | lktos_sdk/source/lib/include/atomic.h:204-208 | an int of zero becomes 1 by adding 1u and the test says negative |
| AtomicWords.AddNegativeUnsignedExample | lktos_sdk/source/lib/include/atomic.h:204-208 | an unsigned word of zero becomes its largest value by adding -1 and the test says negative |

## Left out

- ConditionLists.EliminateOtherArch: the exit on unbalanced parentheses is not modelled; chains with parentheses are returned unchanged before it.
- ConditionLists.Deduplicate: a nuked token loses its string in the model, while the source keeps it in a node that nothing reads again.
- ConditionLists.Unlink: nodes are not freed.
- Flattening.GuardsAreExact: scripts with two adjacent `!` in a condition are not covered, since the generated script reads the `!` that is left with another priority; `Scripts.FixScript` adds the 32-slot stack.
- MenuPasses.MenuTable.LayOut: not for a menu with a submenu that is never closed; by `Menus.WalkExact` its walk then leaves the menu, unless that submenu ends the list.
- MenuPasses.MenuTable.LayOutAll: for lists with at most one menu left open, so that every menu has its submenus closed.
- Md5Stream.Md5Context.Final: clearing the context and other buffers afterwards is not modelled.
- Md5Crypt.CryptMd5: the salt is a value, so a salt that is the static result buffer itself is not modelled; the password is shorter than 2^31.
- Dependencies.BuildCondition: the fixed size of the text buffer is not modelled.
- GlobalPasses.Script.GenerateIf: global lines and uses are events; tmpvar names of choices, which are declared each time, are not among them.
- Tcl's numeric reading of the constants y, n, m and the empty string (1, 0, 2, 4) in generated conditions.
- Widget text, buttons and geometry in tkgen.c; reading files, line continuation, sourced files, choice lists, `unset` of several names, and the ARCH lookup in the environment.
- The DES form of crypt, which is a parameter, and the strength of MD5.
- Memory order and barriers in atomic.h, the architecture's own primitives, and signed overflow outside the narrow types.
- obstack.h, regexp.h and the remaining headers and small programs.
