# Verification of the LFSC proof checker

LFSC checks proofs written in a logical framework with side conditions. This
project models four of its parts in Dafny and proves what they are for.

1. **The term engine** (`src/expr.cpp`, `src/expr.h`, and the loop over the
   arguments of an application in `src/check.cpp`). Terms are shared cells
   and substitution is done by writing `var->val`. `Terms` gives a term a
   meaning: the nameless term that is read off when `val` is followed and a
   binder overrides the `val` of its own variable. `TermStore` states which
   symbols may carry a `val` and which lambdas and Pis may still be used up in
   place, `TermPending` what holds while several of them are being used up, and
   `TermRun` what every act of the program and every run of acts keeps.
   `TermClone`, `TermWhr` and the class in `TermEngine` prove copying, weak head
   reduction, the type of an application and comparison against that meaning.
   `TermEq` says what the comparison answers and when that is
   alpha-equivalence; `TermFair`, `TermForget`, `TermApart` and `TermCall` give
   conditions to be checked before the call, and `TermSpent` settles the case
   that goes wrong. `HoleMatch` proves
   hole filling as first-order matching on cells that are re-linked on the way,
   `FreeIn` the visited-set search against plain recursion, and `RefCount` the
   packed reference counts and `destroy`.
2. **The side-condition language** (`src/code.cpp`). `Interp` is the
   interpreter as a function on the machine state, with configurations for the
   shipped behaviour and for the simpler semantics it is compared with.
   `Machine` is the same interpreter on variable cells that are assigned and put
   back, proved equal to the shipped configuration. `Cells` says what cache hits
   leave in the cells and `Lexical` proves that the interpreter refines an
   environment semantics, `CodeTypes` that accepted code is type
   safe, `TypeChecker` that the checker which enters types into the symbol table
   and takes them out computes the typing function. `Memo`, `MemoTransparent`,
   `MemoShipped` and `ShippedLayers` settle what the cache of `function`s
   preserves, `Substitute` applies that to the `function` in the tests, and
   `ShippedTypes` proves type safety with the shipped cache.
3. **The signatures that the interpreter runs** (`tests/tests/sat.plf`,
   `smt.plf`, `th_bv_bitblast.plf`). `Sat` proves the mark-toggling clause
   simplifier, `SatRun` that the interpreter of part 2, run on its code, computes
   it, `Blast`, `BlastProofs` and `BlastShapes` the bit-blasting programs against
   integers, `BlastRun` (on the step-by-step evaluation in `PureRun`) that the
   interpreter, run on the code of the multiplier, multiplies, `Calculus` and `Soundness` the proof rules against
   interpretations of the SMT-LIB FixedSizeBitVectors theory (`Formula`).
4. **The symbol table** (`src/trie.h`, `src/check.cpp`). `Tries` proves the
   lazily expanded trie against a finite map, and `Scopes` runs the scope
   discipline of the type checker on that trie.

## What the proofs found

- A cache hit returns before the parameter cells are put back
  (`src/code.cpp:1338-1343` against `1367-1374`). A hit leaves the cells as they
  were exactly when the parameters already held the arguments
  (`ShippedHitRestoresIff`), and there is a function whose result changes
  (`ShippedCacheIsNotTransparent`). The shipped cache is transparent for orderly
  functions (`OrderlyIsPlain`): the parameters of a function occur in no other
  program, and in a group of functions that call each other a parameter is either
  handed on unchanged, in its own position, in every call inside the group, or
  not read on any path after such a call. This is read off the code and admits
  recursion; `sc_substitute` of `tests/tests/subs-27-let.plf` meets it
  (`SubstituteIsOrderly`), and so do functions that never reach themselves
  (`LayeredIsOrderly`). It is sufficient only. With cells put back on a hit it is
  transparent for all functions without `markvar` (`RepairedIsPlain`); with
  `markvar` it is not (`MarkingFunctionIsNotTransparent`). Type safety is not
  affected (`ShippedSafe`).
- The assertion in `setData` (`src/code.cpp:872-881`) can fire. In
  `(function f ((x mpz)) mpz (mp_ifzero x 0 (do (f 0) (mp_ifzero x 0 (f x)))))` the
  call `(f 5)` fills its own cache node on the way, because a hit on `(f 0)` leaves 0
  in `x` (`SetDataFires`); plainly evaluated, `(f 5)` does not end
  (`AgainDiverges`). It cannot fire when functions are orderly
  (`OrderlyStoresOnce`), nor, whatever marks they set, when they never reach
  themselves (`LayeredStoresOnce`), nor when a hit puts the cells back
  (`RepairedStoresOnce`).
- A `check` command can leave a name bound. A lambda in tail position is undone
  at the end of the command and not at the end of its scope
  (`src/check.cpp:415-430`, `1334-1338`). When it stands inside a binder of the
  same name that is undone first, as in `(# x A (: (! y B C) (\ x t)))`
  (`src/check.cpp:245-311`), the final clean-up puts the binding of the outer
  binder back after that binder has been undone. The command restores a name if
  and only if the first deferred binder of that name is outside every
  scope of the same name (`CommandRestoresIff`, `TailBinderStaysBound`).
- `destroy` never frees rationals and compound cells without kids, and does not
  count off the program that a symbol holds (`src/expr.cpp:55-120`). Releasing the
  last reference to such a rational or compound cell changes nothing, although
  nothing refers to it afterwards (`Release`); an unreferenced cell that is not
  saturated is gone if and only if it is of another kind (`GoneIff`). The
  invariant in `RefCount` is therefore an inequality for these and an equality
  for all other cells.
- One bit of a Pi cell says both that its variable is free in its range and that
  the cell is to be copied before it is used up (`src/expr.h:128-129`, `204-205`).
  So a dependent type of functions is copied before every use, another one from
  its second use on, and the variable of the latter is assigned although it does
  not occur. Both readings agree with the discipline: types of applications are
  instances, and nothing else changes (`TypeOfApplication`, `RunMeans`).
- `defeq` redirects the left binder to whatever the right binder's `val` leads
  to (`src/expr.cpp:590`). A lambda that has been used up in place may carry a
  `val` and still be held, and then different lambdas can compare equal: reading
  `(\ x x)` and `((\ y a) a)` and reducing the latter gets there
  (`SpentBinderConfuses`). What is answered for such a binder is equality of the
  bodies opened with what its `val` means (`SpentExact`, `SpentDecides`). That is
  alpha-equivalence with every left body exactly when the right body neither
  mentions its variable nor contains what the `val` means (`SpentSafeIff`).
  Any number of right binders that are used up and meet this condition, at any
  depth, leave the answer right (`TwinExact`, `ComparesApart`), and used-up
  binders on the left never matter (`TwinForgets`).
  Alpha-equivalent terms compare equal in every case (`TwinExact`).

## Reading the model

- Cells are identified by their symbol (`Terms`) or are objects (`HoleMatch`,
  `FreeIn`, `Tries`); in `RefCount` they are entries of a map from addresses, so
  that freeing is removal. The kids of an APP cell are a list that ends in `Nil`.
- `Mean` is equality up to renaming: two terms are alpha-equivalent when their
  nameless meanings are equal.
- A comparison may meet the same binder cell on both sides. `TermEq.Fair` says what
  then keeps the redirections apart; `TermFair` derives it from sizes.
- In `Interp` and `Sat` marks are a set of (symbol, number) pairs, rationals are
  Dafny reals, failing and error exits are `Failed` with a reason, and fuel
  bounds the depth of program calls only. The symbol order used by `compare` and the
  addresses by which the cache tells arguments apart are parameters.
- The two polarities of `simplify_clause` run the same code on marks 1/3 and
  2/4, and are written once.
- The bit-vector terms are those that SMT-LIB calls well-sorted. The shipped
  rules leave some sort checks open (`tests/tests/th_bv.plf:150-155`).

## Model

| member | source | states |
|---|---|---|
| `Terms.AssignSubstitutes` | src/expr.cpp:344-349 | setting `val` of a bound variable is substitution in the meaning of its body, and nothing free in the argument is captured |
| `Terms.AssignKeeps` | src/expr.cpp:344-349 | a term in which the variable does not occur keeps its meaning when the variable is assigned |
| `Terms.FollowMeans` | src/expr.h:414-433 | `followDefs` does not change the meaning |
| `TermStore.AssignMeans` | src/expr.cpp:344-349 | assigning the symbol of a binder in place is substitution in its scope, a beta-step for a lambda and instantiation for a Pi, and no other term that may be held changes its meaning |
| `TermStore.UseMeans` | src/check.cpp:741-747 | the same of using up a binder as the program does it: the symbol of a Pi whose bit is not set is left alone, and its range means the instance all the same |
| `TermStore.UseInv` | src/expr.cpp:324-349 | the discipline survives: a binder that has been used up is flagged, or reachable only as the scope of one that has been used up |
| `TermStore.NextBody` | src/expr.cpp:350-351 | while a binder is unused, the binder that is its scope is nowhere loose and unused, so the loop may go on with it although it is not flagged |
| `TermStore.UnassignedAbove` | src/expr.cpp:317-357 | every binder above an occurrence of an unassigned bound variable is itself unassigned, in every term that keeps the discipline |
| `TermClone.ParsedJoins` | src/expr.cpp:317-357 | a term read while others are held, with binder cells of its own: the discipline goes on to hold, of the old terms and the new, and no meaning changes |
| `TermClone.ParsedInv` | src/expr.cpp:317-357 | the discipline holds after any terms have been read one after the other |
| `TermClone.JoinInv` | src/expr.cpp:151-189 | any term of new binder cells joins the terms in use, whether read or copied |
| `TermClone.CloneMeans` | src/expr.cpp:123-216 | a copy means what the original means, also below binders that are being renamed |
| `TermClone.CloneFresh` | src/expr.cpp:151-189 | every binder of a copy is new and distinct |
| `TermClone.CloneShares` | src/expr.cpp:190-213 | a copy is the original itself exactly when it has no binder and no free symbol with a `val` |
| `TermClone.CloneFree` | src/expr.cpp:130-143 | no symbol with a `val` and no bound symbol of the original is free in the copy |
| `TermClone.CloneBits` | src/expr.cpp:172-189 | in a copy, too, a Pi cell whose bit is not set does not depend on its argument |
| `TermClone.CloneInv` | src/expr.cpp:123-216 | the discipline survives copying, and the copy may be used from then on |
| `TermEngine.Engine.CloneCell` | src/expr.cpp:123-216 | the code that redirects, recurses and restores `val` computes the specified copy and leaves `val` as it was |
| `TermEngine.Engine.Clone` | src/expr.cpp:123-216 | same meaning, fresh distinct binders, sharing exactly where nothing changes, store unchanged, `cloned` bit passed on |
| `TermPending.UseHeaded` | src/check.cpp:741-763 | while a binder is being used up, those that are being used up further out stay safe to use up, and so does its scope |
| `TermPending.Supplied` | src/check.cpp:741-763 | giving a pending binder an argument: its scope is pending next and means the instance, all other held terms mean what they meant |
| `TermPending.DomainJoins` | src/check.cpp:633-671 | the domain of a pending Pi may be passed on as the type expected of the argument |
| `TermRun.ActGood` | src/check.cpp:612-763 | every act of the program on the terms it holds keeps the discipline: reading, copying, building, starting to use up a head or a type, giving it an argument, passing on a domain, ending |
| `TermRun.RunMeans` | src/check.cpp:612-763 | over any run of such acts, in any order: a function or a type of functions that is given arguments one after the other comes to mean its instance at all of them, whatever is done in between |
| `TermRun.RunKeeps` | src/check.cpp:612-763 | over any run, a held term that is itself given no argument goes on to mean what it meant |
| `TermWhr.Step` | src/expr.cpp:342-351 | one round of the loop contracts the meaning of head and arguments once and allows the next round, also while other binders are pending |
| `TermEngine.Engine.Head` | src/expr.cpp:294-303 | the loop of `get_head` finds the head through applications and `val`s |
| `TermEngine.Engine.Whr` | src/expr.cpp:317-357 | on a flat application of a lambda: n >= 1 beta-steps, one per argument unless the head stops being a lambda; every other term in use keeps its meaning and pending binders stay safe; otherwise the term itself and no change |
| `TermEngine.Engine.Consume` | src/expr.cpp:342-356 | the destructive loop contracts exactly the beta-steps that it counts |
| `TermEngine.Engine.Own` | src/check.cpp:612-623 | a head whose bit is set is copied, another one gets the bit; either way it may be used up and means the same |
| `TermEngine.Engine.Supply` | src/check.cpp:667-763 | one round over the arguments: the range, which means the instance, with the variable assigned only where the bit is set |
| `TermEngine.Engine.Instantiate` | src/check.cpp:631-763 | the loop: the type means its instance at the arguments taken, and the loop stops short of the last only where the type is no Pi |
| `TermEngine.Engine.TypeOfApplication` | src/check.cpp:612-763 | the type computed for an application to checked arguments is the instance of the head's type; every other held type keeps its meaning |
| `TermEngine.Engine.Defeq` | src/expr.cpp:403-638 | on hole-free terms with nothing to reduce, under conditions on the store before the call: either the sides share any cells and no binder on the right has a `val`, or they share no binder and used-up binders on the right do not show it; left binders may have been used up. It ends, answers alpha-equivalence and leaves the store as it was |
| `TermEngine.Engine.Compare` | src/expr.cpp:403-638 | wherever no reduction or hole is met: the code that follows, redirects and restores `val` gives the answer of `TermEq.DefeqOf` |
| `TermEngine.Engine.CompareUnder` | src/expr.cpp:575-594 | the bodies are compared with the left variable pointed at what the right one leads to, `val` of the right one or not, and that is undone |
| `TermEngine.Engine.CompareKids` | src/expr.cpp:595-628 | the loop that skips shared kids gives the answer of the pairwise comparison, also for lists of different length (kids are not replaced here) |
| `TermEq.TwinExact` | src/expr.cpp:403-638 | for a comparison that is fair (at every pair of binders met no value mentions either variable, nothing is captured and the cells are kept apart) and comes to an answer at depth n: alpha-equivalent terms compare equal, used-up right binders or not; terms that compare equal are alpha-equivalent when the bodies of the used-up right binders met, however many and deep, do not show it |
| `TermEq.BodiesMean` | src/expr.cpp:575-594 | what the bodies mean while compared: both variables opened with the meaning of the right one |
| `TermEq.TwinSize` | src/expr.cpp:403-638 | terms that compare equal have the same size, also where binder cells occur on both sides |
| `TermEq.MuchDeeper` | src/expr.cpp:403-638 | the answer of a comparison does not depend on the depth allowed |
| `TermFair.Ends` | src/expr.cpp:403-638 | a comparison with nothing to reduce and unassigned binders comes to an answer: redirected variables never run in a circle |
| `TermFair.FairThroughout` | src/expr.cpp:575-594 | at every pair of binders met, the cells are kept apart or the sizes differ, for any sharing of cells |
| `TermFair.ComparesExactly` | src/expr.cpp:403-638 | such a comparison ends and is alpha-equivalence |
| `TermForget.TwinForgets` | src/expr.cpp:575-594 | the `val`s of symbols that are free in neither term and bind nothing on the right do not matter: used-up binders on the left are harmless |
| `TermApart.FairApart` | src/expr.cpp:575-594 | with no binder on both sides, every pair of binders met is fair, also where used-up right binders do not show it |
| `TermApart.ComparesApart` | src/expr.cpp:403-638 | such a comparison ends and is alpha-equivalence |
| `TermCall.StoreFree` | src/expr.cpp:317-357 | in a store that keeps the discipline, binders without a `val` are mentioned by no value and free in no term in use |
| `TermCall.ComparableCompares` | src/expr.cpp:403-638 | under either of the conditions on the store before the call, the comparison ends and is alpha-equivalence |
| `TermSpent.SpentExact` | src/expr.cpp:588-593 | with a `val` on the right binder, where the bodies are compared fairly and to an end: equal iff the bodies agree once both variables are opened with the meaning of that `val` |
| `TermSpent.SpentDecides` | src/expr.cpp:588-593 | the same from conditions on the redirected store before the comparison: it ends, with that answer |
| `TermSpent.SpentSafeIff` | src/expr.cpp:588-593 | this is equality of the bodies, for all left bodies, iff the right body neither mentions its variable nor contains what the `val` means |
| `TermSpent.SpentAgrees` | src/expr.cpp:588-593 | under that condition, and the same conditions before the comparison, it ends and is alpha-equivalence |
| `TermSpent.SpentBinderConfuses` | src/expr.cpp:588-593 | two functions read, one of them used up by `whr`: before, they compare as different, afterwards as equal, in a store that keeps the discipline with both in use |
| `HoleMatch.InstTwice` | src/expr.cpp:459-480 | filling holes in two steps is filling them at once |
| `HoleMatch.Defeq` | src/expr.cpp:403-638 | with a ground right side: true iff an instance of the left side that extends the holes filled so far equals the right side, and the holes then filled are contained in every such instance |
| `HoleMatch.DefeqKids` | src/expr.cpp:595-628 | the same for applications, kid by kid, holes filled early being visible later |
| `HoleMatch.Share` | src/expr.cpp:605-624 | one kid is replaced by its equal partner, a symbol being preferred, and every cell still denotes what it was built to denote |
| `HoleMatch.Match` | src/expr.cpp:403-638 | after a comparison every cell reads as before with the newly filled holes substituted, and matched sides read the same ground term |
| `HoleMatch.ReadsAsMeant` | src/expr.cpp:605-624 | under the invariant, following the cells as they are now gives what each was built to denote |
| `HoleMatch.ReadsOneThing` | src/expr.cpp:605-624 | the cells determine what is read |
| `FreeIn.Search.Scan` | src/expr.cpp:642-696 | the visited-set search answers as plain recursion does and never scans a cell twice |
| `FreeIn.OccursIffFree` | src/expr.cpp:642-696 | plain recursion finds exactly the free symbols and holes |
| `FreeIn.FreeIn` | src/expr.h:178-182 | the answer of a whole search, with at most one scan per cell |
| `RefCount.WithRefParts` | src/expr.h:85-89 | writing a count leaves class, operator and flag alone, and every count fits a 32-bit int |
| `RefCount.NoLeak` | src/expr.cpp:52-121 | every collectable cell below the maximum that is there is referenced |
| `RefCount.NoDangling` | src/expr.cpp:52-121 | every cell that is referenced is there |
| `RefCount.GoneIff` | src/expr.cpp:52-121 | after a reference from outside is given up, a cell below the maximum, not a program, to which nothing refers is gone iff it is neither a rational nor a compound cell without kids |
| `RefCount.Memory.Make` | src/expr.h:226-235 | a new cell takes over the references it is made from and keeps the counts exact |
| `RefCount.Memory.Inc` | src/expr.h:132-140 | counts one more reference and sticks at the maximum |
| `RefCount.Memory.Dec` | src/expr.h:142-152 | counts off one reference, destroying what is no longer referenced; the invariant survives in the middle of destroying other cells |
| `RefCount.Memory.Destroy` | src/expr.cpp:35-121 | the loop of jumps, with recursion on all kids but the last, terminates on acyclic graphs, keeps the counts, the low bits, saturated cells and the cells being destroyed further up |
| `RefCount.Memory.DestroyCell` | src/expr.cpp:54-120 | one round, by class of the cell; for a cell of the kinds that are never freed nothing changes |
| `RefCount.Memory.DestroyCompound` | src/expr.cpp:97-119 | every kid of a destroyed compound cell loses exactly one reference |
| `RefCount.Memory.DestroyHolder` | src/expr.cpp:58-96 | a symbol or hole gives up its value, except that a program is not counted off |
| `RefCount.Memory.Release` | src/expr.h:142-152 | after a reference from outside is given up, the count of every collectable cell is the number of references to it; an unreferenced cell is gone iff it is collectable; the last reference to a rational or a kidless compound cell leaves it there with nothing referring to it |
| `Machine.Interpreter.RunCode` | src/code.cpp:894-1384 | the interpreter on cells that are assigned and put back computes the shipped configuration of `Run` |
| `Machine.Interpreter.RunProgram` | src/code.cpp:1251-1381 | program calls: arity, cache lookup by arguments and their addresses, calls forbidden in functions, parameters, cache update |
| `Machine.Interpreter.BindCells` | src/code.cpp:1272-1310 | parameters are assigned one by one and their old values remembered |
| `Machine.Interpreter.RestoreCells` | src/code.cpp:1367-1374 | the remembered values are put back |
| `Machine.Interpreter.RunArm` | src/code.cpp:1224-1247 | a case binds its pattern variables around its body |
| `Machine.Interpreter.RunOperands` | src/code.cpp:1251-1262 | operands are evaluated from the left up to the first failure |
| `Lexical.CellsRefine` | src/code.cpp:894-1384 | code on global cells has the result of lexical evaluation with the same cache, if hits put cells back or functions are orderly, recursive ones included; on success and on failure (except on the two exits that abandon a call) every cell is put back, but for parameters of functions where a hit does not restore |
| `Cells.RestoreBind` | src/code.cpp:1230-1245 | putting back after binding is the identity, for any variables and values |
| `CodeTypes.TypeSafe` | src/code.cpp:353-816 | checked code, evaluated lexically and without a cache, yields at any fuel a value of its type or fails in an allowed way: no arithmetic, arity or unbound-variable exit is reached |
| `ShippedTypes.ShippedSafe` | src/code.cpp:894-1384 | the same of the shipped interpreter with its cache and its `function`s, each name having one type; every cell and every cache entry keeps its type |
| `ShippedTypes.AcceptedCodeIsSafe` | src/check.cpp:1388-1511 | a whole run of accepted code from empty cells, functions included |
| `CodeTypes.StepTyped` | src/code.cpp:957-1190 | every operator on operands of the checked types |
| `CodeTypes.CheckedIsClosed` | src/check.cpp:1388-1511 | accepted programs mention only their parameters and their own variables |
| `CodeTypes.AcceptedCodeRuns` | src/check.cpp:1388-1511 | accepted code without functions, run on cells: lexical result, checked type, cells as before |
| `TypeChecker.Checker.CheckCode` | src/code.cpp:353-816 | the checker that enters types into the table computes the type, and the table is as before |
| `TypeChecker.Checker.CheckCase` | src/code.cpp:754-792 | pattern variables have the argument types of the constructor while the body is checked |
| `TypeChecker.Checker.Leave` | src/code.cpp:788-791 | putting back from the last to the first undoes the bindings, repeated variables included |
| `Memo.PlainUnique` | src/code.cpp:894-1384 | the result of a terminating run does not depend on the fuel |
| `Memo.MarksIrrelevant` | src/code.cpp:1102-1110 | inside functions without `markvar`, marks neither matter nor change |
| `MemoTransparent.MemoRun` | src/code.cpp:1326-1378 | lexical evaluation with any correct cache, looked up by arguments and addresses, equals plain evaluation, in result and in termination, and leaves a correct cache |
| `MemoTransparent.HitIsPlain` | src/code.cpp:1338-1343 | a cache entry is what the call would compute |
| `MemoTransparent.StoredOnce` | src/code.cpp:872-881 | with lexical scopes, a call of a function that returns does not store its own entry on the way |
| `ShippedLayers.RepairedStoresOnce` | src/code.cpp:872-881 | the same on cells, if a hit puts them back: the assertion in `setData` would hold |
| `ShippedLayers.OrderlyIsPlain` | src/code.cpp:1326-1378 | for orderly functions, which may call themselves and each other, the shipped interpreter computes what plain evaluation computes, in result, marks and termination, and leaves all cells but parameters of functions as they were |
| `ShippedLayers.OrderlyStoresOnce` | src/code.cpp:872-881 | in the shipped interpreter the assertion in `setData` holds for orderly functions |
| `ShippedLayers.LayeredIsOrderly` | src/code.cpp:1326-1378 | functions that never reach themselves and share no parameter are orderly |
| `ShippedLayers.LayeredStoresOnce` | src/code.cpp:872-881 | for those the assertion holds whatever marks they set and however the call ends |
| `Substitute.SubstituteIsOrderly` | tests/tests/subs-27-let.plf:11-15 | `sc_substitute`, which calls itself, is orderly |
| `Substitute.ShippedSubstitutes` | tests/tests/subs-27-let.plf:11-15 | on the shipped cells and with any correct cache it replaces every occurrence of s in t by r, and leaves all cells but its parameters as they were |
| `MemoShipped.SetDataFires` | src/code.cpp:872-881 | a call that returns in the shipped interpreter and has stored its own entry on the way: the assertion fails |
| `MemoShipped.AgainDiverges` | src/code.cpp:1338-1343 | plainly evaluated, that call does not end |
| `MemoShipped.RepairedIsPlain` | src/code.cpp:1326-1378 | with cells put back on a hit the interpreter on cells computes what plain lexical evaluation computes |
| `MemoShipped.ShippedHitRestoresIff` | src/code.cpp:1338-1343 | a shipped hit leaves the cells as they were iff the parameters already held the arguments |
| `MemoShipped.ShippedCacheIsNotTransparent` | src/code.cpp:1338-1343 | a function that returns 0 with the shipped cache and 5 without |
| `MemoShipped.MarkingFunctionIsNotTransparent` | src/code.cpp:1177-1191 | a function with `markvar` leaves other marks with a cache, the shipped one included, than without |
| `Sat.AppendJoins` | tests/tests/sat.plf:22-23 | `append` concatenates lists of literals and fails on any other clause |
| `Sat.SimplifyExact` | tests/tests/sat.plf:30-73 | for any marks in which a "removed" mark is only on a literal marked for removal: success iff every `clr` finds its literal; marks 1 and 2 preserved; marks 3 and 4 gain exactly the removed literals that occur; the result is the reference list |
| `Sat.KeptLiterals` | tests/tests/sat.plf:30-73 | the literals of the reference list are those of the clause less the removed ones |
| `Sat.SimplifyFromClearMarks` | tests/tests/sat.plf:30-73 | from clear marks: a list with exactly the literals of the set semantics, and clear marks again |
| `Sat.MarkStore.SimplifyClause` | tests/tests/sat.plf:30-73 | the same program on marks that are toggled in place |
| `SatRun.SimplifyRuns` | tests/tests/sat.plf:30-73 | the interpreter, run on the code of `simplify_clause`, on any clause and from any marks: it fails exactly where `Sat.Simplify` does and otherwise returns its clause and leaves its marks |
| `SatRun.AppendRuns` | tests/tests/sat.plf:22-23 | run on the code of `append`, it joins lists |
| `SatRun.ShippedSimplifies` | tests/tests/sat.plf:30-73 | on the shipped cells, with clear marks: success iff resolvable, a list of exactly the literals of the clause, clear marks and all cells as before |
| `BlastProofs.ReverseCorrect` | tests/tests/th_bv_bitblast.plf:286-294 | reversing is an involution that exchanges the two readings of a bit list |
| `BlastProofs.AdderConserves` | tests/tests/th_bv_bitblast.plf:269-283 | a + b + carry in = sum + 2^n carry out, for lists of any equal length |
| `BlastProofs.AddFailsOnUnequal` | tests/tests/th_bv_bitblast.plf:269-283 | the adder fails on lists of unequal length |
| `BlastProofs.NegCorrect` | tests/tests/th_bv_bitblast.plf:328-335 | complement plus one is negation mod 2^n |
| `BlastProofs.MultStepKHBuilds` | tests/tests/th_bv_bitblast.plf:379-390 | one row of the multiplier: the low k bits are kept, the rest is the sum with the shifted row |
| `BlastProofs.MultStepAccumulates` | tests/tests/th_bv_bitblast.plf:393-401 | the loop from step k runs without failing and adds the remaining rows mod 2^n |
| `BlastProofs.AccumulatedIsProduct` | tests/tests/th_bv_bitblast.plf:393-401 | before step k the accumulator is a (b mod 2^k) mod 2^n |
| `BlastProofs.MulCorrect` | tests/tests/th_bv_bitblast.plf:403-409 | the multiplier yields a b mod 2^n for every width n >= 1 |
| `BlastRun.StepHRuns` | tests/tests/th_bv_bitblast.plf:379-390 | the interpreter, run on the code of `mult_step_k_h`, fails exactly where `Blast.MultStepKH` does and otherwise returns its list |
| `BlastRun.StepRuns` | tests/tests/th_bv_bitblast.plf:393-401 | the same of `mult_step`, on any lists and numbers |
| `BlastRun.MulRuns` | tests/tests/th_bv_bitblast.plf:403-409 | the same of `bblast_bvmul` |
| `BlastRun.ShippedMultiplies` | tests/tests/th_bv_bitblast.plf:403-409 | on the shipped cells, for lists of n >= 1 formulas: a list of n formulas whose number is the product mod 2^n under every standard interpretation; marks, cache and cells as before |
| `BlastShapes.BitwiseCorrect` | tests/tests/th_bv_bitblast.plf:184-249 | and, or and xor succeed iff the lengths are equal, and are then bit by bit |
| `BlastShapes.ConstCorrect` | tests/tests/th_bv_bitblast.plf:67-71 | blasting a constant succeeds iff the width is that of the constant, and then has its value |
| `BlastShapes.VarCorrect` | tests/tests/th_bv_bitblast.plf:84-86 | the bits of a variable make up its value |
| `BlastShapes.ConcatCorrect` | tests/tests/th_bv_bitblast.plf:98-102 | concatenation shifts and adds |
| `BlastShapes.ExtractCorrect` | tests/tests/th_bv_bitblast.plf:121-132 | extraction is floor(x / 2^j) mod 2^(i-j+1) |
| `BlastShapes.ExtendValue` | tests/tests/th_bv_bitblast.plf:149-154 | what repeating a bit in front does to length and value |
| `BlastShapes.SignExtendCorrect` | tests/tests/th_bv_bitblast.plf:166-168 | sign extension preserves the signed value |
| `BlastShapes.UltCorrect` | tests/tests/th_bv_bitblast.plf:489-496 | unsigned less-than for all widths |
| `BlastShapes.SltCorrect` | tests/tests/th_bv_bitblast.plf:514-523 | two's-complement less-than for all widths |
| `BlastShapes.EqCorrect` | tests/tests/th_bv_bitblast.plf:431-443 | the conjunction of bit equalities is equality |
| `Formula.StandardExists` | tests/tests/smt.plf:11-48 | every choice of atoms and bit-vector values extends to an interpretation of all formulas, so soundness speaks about something |
| `Formula.StandardUnique` | tests/tests/smt.plf:11-48 | and to one only |
| `Soundness.UnarySound` | tests/tests/smt.plf:213-386 | each rule with one premise preserves truth |
| `Soundness.ResolveSound` | tests/tests/sat.plf:80-92 | `R` and `Q` yield a clause that holds, whether or not the literals occur |
| `Soundness.SimplifySound` | tests/tests/sat.plf:94-101 | the simplified clause holds iff the clause holds |
| `Soundness.FreshKeepsValid` | tests/tests/smt.plf:161-178 | a fresh variable may be given any value without harm to the hypotheses |
| `Soundness.NoAtomRefutation` | tests/tests/smt.plf:161-178 | introducing abbreviations refutes nothing that is satisfiable |
| `Soundness.PredicateSound` | tests/tests/th_bv_bitblast.plf:461-536 | the rules that bit-blast `=`, `bvult` and `bvslt` |
| `Soundness.BinaryTermSound` | tests/tests/th_bv_bitblast.plf:104-115 | the rules that bit-blast operators with two operands |
| `Soundness.Sound` | tests/tests/smt.plf:161-413 | every conclusion of a derivation with hypothetical premises is true wherever its hypotheses are |
| `Soundness.Refutation` | tests/tests/smt.plf:161-413 | deriving the empty clause from formulas shows that no interpretation makes them all true |
| `Tries.Trie.Insert` | src/trie.h:69-112 | the table becomes the old one with s bound to x; the result is the old binding or the default; the node invariant survives |
| `Tries.Trie.InsertNext` | src/trie.h:20-35 | a non-empty key goes below, growing the vector where needed, and nodes stay disjoint |
| `Tries.Trie.Get` | src/trie.h:61-67 | the last value inserted for the key, or the default |
| `Tries.Trie.GetNext` | src/trie.h:37-45 | the same for what lies below a node |
| `Tries.TiedUpdate` | src/trie.h:20-35 | an insertion below one character changes the binding of that one key |
| `Scopes.Checker.Check` | src/check.cpp:162-183 | the walk that binds and restores on the trie computes the nested-scope semantics |
| `Scopes.Checker.CheckDeclList` | src/check.cpp:1011-1057 | a declaration list binds its named items in order and returns the old bindings |
| `Scopes.Checker.RestoreAll` | src/check.cpp:224-231 | the loop from the last saved binding to the first |
| `Scopes.ListIsNested` | src/check.cpp:1011-1057 | undoing a list backwards is undoing nested scopes, for any names |
| `Scopes.PatternIsNested` | src/code.cpp:60-106 | the same for pattern variables |
| `Scopes.ScopesRestore` | src/check.cpp:224-231 | declaration lists, patterns and binders outside of tail position leave the table as it was, however nested and however often they bind a name |
| `Scopes.CommandRestoresIff` | src/check.cpp:1323-1339 | a command restores a name iff the first deferred binder of that name is outside every scope of that name |
| `Scopes.TailBinderStaysBound` | src/check.cpp:415-430 | a walk after which a name stays bound |
| `Scopes.Checker.RunCommand` | src/check.cpp:1292-1345 | the command with its clean-up computes that table |

## Left out

- The parser and type checker `check()` around these parts, the lexer, error messages, spans, the command line and files: they interleave I/O with `exit(1)`.
- Definitions in tail position (`src/check.cpp:537-543`), which overwrite a binding and record nothing.
- `src/sccwriter.cpp` and `--run-scc`: the generated program is not the interpreter (division is emitted as multiplication, failures are not passed on).
- Printing and re-parsing, GMP internals, the block allocator.
- Higher-order holes (`src/expr.cpp:424-456`): they reuse live binder cells. Applications headed by a hole are excluded from `HoleMatch`.
- TermEngine.Engine.Whr: asks that the head, after `val`s are followed, is itself the lambda, as the code does when it casts the result of `collect_args`.
- TermEngine.Engine.Defeq: leaves out the replacement of equal kids, which is meaning-preserving only outside binders and is modelled in `HoleMatch`; asks for terms without redexes, and that used-up binders on the right do not show it, without which the answer is not alpha-equivalence (`TermSpent`); those are admitted where no binder cell is on both sides.
- TermEngine.Engine.CompareKids: equal kids are not replaced here but in `HoleMatch.Share`.
- TermEngine.Engine.TypeOfApplication: its arguments have been checked before; that checking them may be interleaved is `TermRun.RunMeans`. Arguments that are holes and run types are not part of it, and the bit is modelled on lambda and Pi cells only.
- The temporary `val` of an expected Pi while the body of a lambda is checked (`src/check.cpp:405-439`).
- TermEngine.Engine.Compare: stops short of applications that `whr` would reduce and of holes.
- TermEq.TwinExact: assumes that the comparison is fair and reaches an answer; `TermFair`, `TermApart` and `TermCall` derive both from the store before the call, for terms without redexes.
- TermSpent.SpentExact: of one used-up binder that shows it, the used-up binders below it on the right not showing it; each further one is opened in the same way (`TermEq.BodiesMean`).
- Soundness.BinaryTermSound: for terms that SMT-LIB calls well-sorted, so for `concat` the widths add up, which the shipped rule does not check.
- HoleMatch.Defeq: abstracts from the counts that choose which of two equal kids is kept: either choice is covered.
- Terms and `HoleMatch` do not count references; `RefCount` does not know what cells mean.
- RefCount.Memory.Dec: a cyclic graph is excluded, since a cycle is never freed.
- FreeIn.Search.Scan: the cells are immutable while they are searched.
- Dependent types, macro heads in `match`, programs as arguments and holes in side-condition code.
- Interp.Run: an unset program variable stops the run with `Unbound`, where the source returns the symbol; accepted code never does this.
- CodeTypes.AcceptedCodeRuns: programs without `function`s; with them, `ShippedTypes.AcceptedCodeIsSafe` and `ShippedLayers.OrderlyIsPlain`.
- CodeTypes.TypeSafe: asks that no declared constant has type mpz or mpq, and that a bare pattern names a constructor without arguments; constructors and variables have different names.
- Lexical.CellsRefine: shipped runs of functions that are not orderly are excluded, since they may differ (`MemoShipped`); on a call with the wrong number of arguments, and on a program called inside a function, the cells stay assigned, as in the source.
- Sat.MarkStore.SimplifyClause: after a failing side condition the marks are unspecified; the process ends there.
- `bblast_zero` on a negative width does not terminate in the source and yields nothing here.
- The trust rules (`trust`, `trust_f`, `trust-bad`, `trust_bblast_term`, `bv_bbl_=_false`), which are unsound by design, the rules for equality of uninterpreted terms and predicate application, `bvadd_symm` (`tests/tests/th_bv_bitblast.plf:599`), `bv_disequal_constants` (`tests/tests/th_bv.plf:66`), and `let`/`flet`.
- The destructor and cleaner of the trie; keys are characters 1 to 127, since `char` is signed.
