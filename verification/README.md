# Uinx: models and proofs

Uinx is a compiler with a flow-sensitive borrow checker, a middle representation
(MIR) with an optimizer, an async backend, a freestanding lock library and a C
runtime. This project models the parts of it that carry an argument, and proves
what those parts are for.

* **Borrow checker** (`borrow_*.dfy`). The checker is written twice: as functions
  on abstract states (`borrow_check.dfy`, with places, loans, liveness, joins,
  break/continue frames and scope truncation beside it) and as a class that
  updates its state in place as the C++ does (`borrow_checker.dfy`), proved equal.
  `borrow_paths.dfy` gives every function a set of paths, one per sequence of
  branch decisions, and a monitor that says when a path uses a reference that was
  invalidated, a moved place, or storage that is gone, or makes a call with a
  reference argument that another argument has broken. The theorems say that a
  function without a diagnostic is safe on all of its paths. What is accepted is
  stated too: exactly for every operation (`borrow_operations.dfy`); for all code
  that shares what it reads, and writes or lends to calls what nobody borrows
  (`borrow_mild.dfy`, `borrow_acceptance.dfy`); and for mutable borrows that end where
  their holders are last needed (`borrow_lifetimes.dfy`). The analysis of every
  function converges (`borrow_convergence.dfy`), and its liveness is exact
  (`borrow_liveness_exact.dfy`). The fragment of the theorems
  (`Admissible`) is a condition on the text of the function: it lists the places
  the function moves, lends or mutably borrows, and asks that index operands only
  read Copy places clear of these, that a borrow is not made through another
  reference bound in the function, that no reference is stored through another, and
  that nothing is moved out through a reference. These conditions exclude what the code gets wrong; see the findings.
* **Lowering** (`source_lang.dfy`, `mir.dfy`, `lowering*.dfy`, `mir_lowerer.dfy`).
  A big-step meaning for the integer and boolean fragment, a block-by-block meaning
  for MIR over an arbitrary target (`World`), and the proof that lowering preserves
  returned values, faults and divergence in both directions.
* **Meaning in numbers** (`source_meaning.dfy`, `source_agrees.dfy`,
  `source_runs.dfy`, `compile_meaning.dfy`). The same programs as arithmetic on 64-bit
  integers and truth values, with no target in it; on a target that behaves like the
  backend's, compiled code computes exactly that.
* **Optimizer** (`mir_reachable.dfy`, `mir_forward.dfy`, `mir_fold*.dfy`,
  `mir_dead.dfy`, `mir_complete.dfy`, `mir_stages.dfy`, `mir_optimizer.dfy`) and both together
  (`lowering_local.dfy`, `compile_pipeline.dfy`), at every level.
* **Async machine** (`async_*.dfy`). Frame, state word, poll, drop and executor.
* **Locks** (`sync_*.dfy`). Ticket lock, barrier and sequence lock as interleaved
  atomic steps of any number of threads.
* **Runtime** (`hash_table.dfy`, `raw_vector.dfy`, `utf8.dfy`). UTF-8 is that of
  sections 3 and 4 of RFC 3629.
* **Literals and types** (`integer_literal.dfy`, `type_syntax.dfy`).

All results hold for every input, run, schedule, memory and target; a budget of
block transitions or of loop passes only says how much of a run is looked at.

## Findings

Properties that fail of the code as it is, each with its exact condition or a
concrete input in the model:

* Index operands of a place are not inspected by the borrow checker
  (`src/borrow_flow.cpp:110-113` returns first), so `s[e]` may read, in `e`, a place
  that is mutably borrowed: `IndexGap.IndexOperandsAreUnchecked`. The soundness
  theorems hold of operands that read Copy places clear of the places taken
  exclusively; of the probes that read a Copy place these are exactly the safe ones
  (`IndexGap.SafeProbesAreAdmissible`).
* A borrow through a reference, `let a = borrow mut r.f`, is recorded at the place
  `r.f` and without the reference it goes through (`src/borrow_places.cpp:150-155`).
  The loan of `r` then expires with `r` (`src/borrow_liveness.cpp:451-471`) while `a`
  is still in use, and `a` may be returned even if `r` refers to a local
  (`src/borrow_places.cpp:360-374`). Both are always accepted; when they are safe is
  stated exactly in `FieldGap.FieldBorrowOutlivesItsReference` and
  `FieldGap.FieldBorrowEscapes`. `tests/conformance/pass/field_borrow.ux` borrows
  through a parameter, which the soundness theorems cover.
* A reference stored through another one, `deref r = borrow x` with
  `r: mutref ref T`, is checked as a write and then forgotten: `place_of` has no
  place for `deref r` (`src/borrow_places.cpp:89-112`), so only
  `write_through_reference` runs (`src/borrow.cpp:104-122`), and no loan and no
  origin is recorded. The stored reference may outlive `x`, against
  `docs/MEMORY_MODEL.md:58`, and `x` may be written while it is in use:
  `StoreGap.StoredReferenceDangles` is the input and
  `StoreGap.StoredReferenceIsUnchecked` says exactly when such a store is safe.
* A move out through a reference is recorded at the spelled place alone
  (`src/borrow_loans.cpp:115-225`), and `deref r` is a read of `r` even when the value
  is not Copy (`src/borrow_flow.cpp:121-128`). After `let r = borrow x`, both `r.f`
  and `x.f` may be moved: `MoveGap.MovedTwice` is the input and
  `MoveGap.MoveThroughReferenceIsUnrecorded` the exact condition.
* `FnState::slots` is a flat map (`src/mir_stmt.cpp:66`), so after a block that
  rebinds a name of an enclosing scope the outer variable reads the inner slot:
  `LoweringTheorem.ShadowingIsNotPreserved`. The repository's own documentation
  (`README.md:119`) says that shadowed locals stay distinct; the borrow checker
  keeps them so, the lowering does not. The preservation theorem asks only
  that no such stale name is used (`LoweringCorrect.ClearSeq`), which is weaker than
  forbidding shadowing. An inner binding in the first arm of an `if` also reaches
  the second arm.
* Load forwarding drops a load whose result another block uses. The end value of a
  `for` is such a result (`src/mir_stmt.cpp:221`, `src/mir_stmt.cpp:244`):
  `ForwardLoads.CrossBlockUse`.
* Constant folding compares `bool`s as 0 and 1 (`src/mir_optimizer.cpp:207-236`), the
  backend as signed one-bit integers (`src/codegen_internal.hpp:352-360`,
  `src/codegen.cpp:42-43`), where true is -1: `true < false` is true compiled and
  false folded (`ConstantFoldRuns.TrueIsBelowFalse`). They agree if and only if the
  operator is `==` or `!=` or the operands are equal
  (`ConstantFold.BoolCompareMatchesBackend`, `ConstantFoldRuns.BoolOrderFolds`).
* Constant folding reads literals with `strtoll` and base 0
  (`src/mir_optimizer.cpp:122-127`): a leading zero means octal, and values from 2^63
  on saturate, hexadecimal ones included, where the backend reads decimal digits or
  wraps. `ConstantFoldRuns.LiteralsAgree` says of every literal below 2^64 whether
  the two agree. `strtoll` is that of section 7.22.1.4 of C17; a library that also
  reads `0b`, as C23 has it, is not modelled.
* A failing child future is dropped with the frame only if the poll that failed
  resumed at its await (`src/codegen_async.cpp:453-476`); otherwise, as when it fails
  on its first poll, the state word is 0 and it is never dropped. No child is dropped
  twice. `AsyncDrops.FailingChildMayLeak` says so for every body and schedule.
* The variable of an inclusive `for` wraps at the end of its type
  (`src/mir_stmt.cpp:219-275` steps before it tests), so `for i in 0 ..= b` never ends
  when `b` is the largest number of the type: `CompiledMeaning.InclusiveRangeEnds`.
* Liveness starts a `loop` from what is live after it (`src/borrow_liveness.cpp:247-265`),
  so a `loop` that nothing leaves keeps that alive, and loans with it:
  `LivenessExact.EndlessLoopKeepsAlive`. Everywhere else liveness is exact
  (`LivenessExact.LiveIsExact`).

## Model

| member | source | states |
|---|---|---|
| `Places.PlacesDisjoint` | src/borrow_places.cpp:26-48 | the component loop returns exactly the disjointness of the two paths |
| `Places.DisjointMeaning` | src/borrow_places.cpp:26-48 | two places are disjoint if and only if they share a prefix and then part at two different named fields; indices never part |
| `Places.ConflictSymmetric` | src/borrow_places.cpp:50-52 | conflict does not depend on the order of the two places |
| `Places.NestedConflict` | src/borrow_places.cpp:50-52 | a place conflicts with everything inside it and around it |
| `PlaceText.SplitPlace` | src/borrow_internal.hpp:43-56 | the scanning loop yields the components of the dotted spelling |
| `PlaceText.SplitText` | src/borrow_internal.hpp:43-56 | splitting the spelling of a path gives the path back |
| `PlaceText.TextInjective` | src/borrow_internal.hpp:18-26 | two paths with dot-free components have the same spelling only if they are equal |
| `PlaceText.StrictChildText` | src/borrow_internal.hpp:23-26 | the prefix-and-dot test on spellings is the strict-prefix test on paths |
| `Liveness.LiveMonotone` | src/borrow_liveness.cpp:165-274 | the liveness transfer of a statement is monotone, name by name |
| `Liveness.LoopStepMonotone` | src/borrow_liveness.cpp:203-265 | one evaluation of a loop is monotone |
| `Liveness.HeaderIsFixedPoint` | src/borrow_liveness.cpp:203-265 | at any nesting depth the second evaluation of a loop reproduces the first: the bounded iteration always converges |
| `LivenessSoundness.UsedFirstMeaning` | src/borrow_liveness.cpp:155-274 | the recursive reading of "used before redefined" is the one with an index of first use |
| `LivenessSoundness.LiveCovers` | src/borrow_liveness.cpp:165-274 | a binding that some path from a statement uses before redefining it is in that statement's live-in set; of the variable of a `for` this asks that it occurs in that loop only, as unique binding keys have it |
| `LivenessSoundness.LoopCovers` | src/borrow_liveness.cpp:203-265 | the same at the head of every loop, for paths that go round it any number of times |
| `LivenessSoundness.ConfinedUnneeded` | src/borrow_liveness.cpp:224-246 | the variable of a `for` that occurs in its loop only is needed by no path that starts outside: every pass defines it first |
| `LivenessExact.LiveIsNeeded` | src/borrow_liveness.cpp:165-274 | whatever is live before a statement is needed by some path through it: the path uses it first, or leaves it alone and ends where it is live |
| `LivenessExact.LiveIsExact` | src/borrow_liveness.cpp:165-274 | without `loop`, a name is live before a statement if and only if some path through it needs the name |
| `LivenessExact.EndlessLoopKeepsAlive` | src/borrow_liveness.cpp:247-265 | before a `loop` that nothing leaves, everything that is live after it is taken for live, though no path needs it |
| `LivenessExact.LiveRooted` | src/borrow_liveness.cpp:302-449 | a place is live in the second pass only if its root is live in the first |
| `LivenessExact.PlacesAddNothing` | src/borrow_places.cpp:54-76 | so the place-level pass changes no answer: a loan is live exactly when the root of its holder is |
| `LivenessExact.UnneededIsDead` | src/borrow_liveness.cpp:451-471 | a holder whose root no path through a statement needs is not live before it |
| `LivenessExact.DeadLoansAreForgotten` | src/borrow_liveness.cpp:451-471 | a statement is checked as if a loan had never been whose holder no path through the statement needs |
| `ExprSoundness.AccessStep` | src/borrow_loans.cpp:115-225 | an accepted access breaks no reference that is still to be used, and the abstract state goes on covering the path |
| `ExprSoundness.ActivateStep` | src/borrow_loans.cpp:269-291 | activating the two-phase loans of a call is safe when no diagnostic is reported |
| `ExprSoundness.QuietStep` | src/borrow_flow.cpp:107-113 | an index operand that only reads Copy places clear of every place the function moves, lends or mutably borrows changes nothing on any path, though the checker never looks at it |
| `ExprSoundness.CallStep` | src/borrow_flow.cpp:195-243 | a call without a diagnostic is safe: `borrow mut` arguments reserved, the others inspected with lent references guarded, guards released, reservations activated; every reference among the arguments, passed by value included, is intact when the call is made |
| `ExprSoundness.EnterStep` | src/borrow_flow.cpp:195-243 | when the call is made no variable passed by value holds a broken reference |
| `CallArguments.InspectSpares` | src/borrow_loans.cpp:425-452 | while the remaining arguments are evaluated, nested calls included, nothing accesses the place of a reference an enclosing call already holds against it |
| `CallArguments.ArgumentsAreIntact` | src/borrow_flow.cpp:207-243 | of an accepted call, every lent, shared and mutable reference argument is intact at the moment of the call: no two of them clash, and nothing evaluated in between breaks one |
| `CallArguments.LendingLeavesNoTrace` | src/borrow_loans.cpp:425-452 | passing a mutable reference on for a call moves nothing and leaves no loan, so what is accepted once is accepted again; it is accepted if and only if reading and mutably borrowing its place both are |
| `BorrowOperations.ReadsAccepted` | src/borrow_loans.cpp:123-165 | in every state: a read is accepted if and only if nothing overlapping was moved and no overlapping loan is mutable and in force; otherwise exactly E0400 or E0406 is reported; it changes nothing |
| `BorrowOperations.CopiesAccepted` | src/borrow_loans.cpp:123-127 | a use of a place of Copy type is a read |
| `BorrowOperations.MovesAccepted` | src/borrow_loans.cpp:212-225 | any other use is accepted if and only if nothing overlapping was moved or is lent, and moves the place and nothing else |
| `BorrowOperations.WritesAccepted` | src/borrow_loans.cpp:129-136 | a write is accepted if and only if nothing around the place was moved and no loan overlaps it |
| `BorrowOperations.SharedBorrowsAccepted` | src/borrow_loans.cpp:166-180 | shared borrows coexist with each other, with reservations and with loans of their own holders: only a mutable loan in force refuses one; the loan is recorded |
| `BorrowOperations.MutBorrowsAccepted` | src/borrow_loans.cpp:195-210 | a mutable borrow is refused by every overlapping loan of other holders; the loan is recorded |
| `BorrowOperations.ReservationsAccepted` | src/borrow_loans.cpp:249-267 | a reservation coexists with shared loans and other reservations, not with exclusive loans |
| `BorrowOperations.ActivationsAccepted` | src/borrow_loans.cpp:269-291 | activation is accepted if and only if no other loan overlaps what is activated; the reservations of the holder become exclusive and every other loan stays as it is |
| `BorrowOperations.ThroughAccepted` | src/borrow_loans.cpp:353-380 | writing through a reference needs the reference there and not lent |
| `BorrowOperations.FreshValuesRestore` | src/borrow_places.cpp:412-419 | a fresh value restores the place and everything in it, and nothing else |
| `BorrowOperations.OldHoldersRelease` | src/borrow_places.cpp:429-437 | assigning to a place releases the loans held in it and no others |
| `BorrowOperations.OriginsReplaced` | src/borrow_loans.cpp:14-35 | new origins replace those of the place and of everything in it |
| `BorrowOperations.BorrowBindingsAccepted` | src/borrow_loans.cpp:70-113 | `let key = borrow [mut] p` is accepted if and only if `p` is there and no overlapping loan is in force, or none at all for a mutable one |
| `BorrowOperations.BorrowBindingsHold` | src/borrow_loans.cpp:37-68 | after it the loan is held by `key`, the temporary one is gone, and `key` refers to the place alone |
| `BorrowOperations.PlainStoresAccepted` | src/borrow.cpp:45-125 | a plain store is accepted if and only if nothing around the target was moved and every overlapping loan is held in the target; the whole state after it |
| `BorrowOperations.JoinsAreExact` | src/borrow_flow.cpp:14-49 | a join has a moved place, loan or origin if and only if one of the reachable sides has it; an unreachable side counts for nothing |
| `BorrowOperations.ScopeEndsAreExact` | src/borrow_flow.cpp:63-105 | the end of a scope is refused if and only if a reference outlives a local it refers to; what belongs to other names stays |
| `BorrowOperations.TemporariesEnd` | src/borrow_liveness.cpp:451-471 | temporary loans and guards never count in a later statement |
| `BorrowOperations.ContainsReferenceMeaning` | src/borrow_places.cpp:255-287 | a type contains references if and only if a path of struct fields leads to one |
| `BorrowOperations.UsedTwice` | src/borrow_places.cpp:376-383 | after an accepted use the same place may be used again if and only if it holds a scalar, a shared reference or a struct declared Copy |
| `BorrowOperations.ReturnsAccepted` | src/borrow_places.cpp:360-374 | returning a variable is refused if and only if a reference that it or something in it holds refers to the function's own storage; returning a borrow, if and only if the borrowed place is that |
| `BorrowOperations.PlaceTypes` | src/borrow_places.cpp:289-346 | a place has the type of the innermost binding, then of its first field of that name or of the elements, one reference looked through at each step |
| `ExprSoundness.InspectStep` | src/borrow_flow.cpp:107-267 | an expression without a diagnostic is safe on every path it is on, its index operands included, and the state after it covers the path |
| `StmtSoundness.MergeCovers` | src/borrow_flow.cpp:14-49 | a join covers both states that are joined |
| `StmtSoundness.MergeAllCovers` | src/borrow_flow.cpp:51-61 | merging into an accumulator covers every state merged |
| `StmtSoundness.PopStep` | src/borrow_flow.cpp:63-105 | leaving a scope without a diagnostic leaves no reference into it behind |
| `StmtSoundness.BindStep` | src/borrow_loans.cpp:70-113 | binding a borrow to a local gives the local exactly that loan, and makes exactly one reference to follow when the place is reached through no other |
| `StmtSoundness.LetStep` | src/borrow.cpp:20-44 | a `let` without a diagnostic is safe and covered |
| `StmtSoundness.AssignPlainStep` | src/borrow.cpp:45-125 | a plain assignment without a diagnostic is safe and covered, the target's own loans released first |
| `StmtSoundness.AssignCompoundStep` | src/borrow.cpp:45-125 | a compound assignment reserves its target, inspects the value, activates and writes, safely |
| `StmtSoundness.ExpireStep` | src/borrow_liveness.cpp:451-471 | dropping loans whose holder is dead loses nothing that a later use could need |
| `StmtSoundness.EscapeStep` | src/borrow.cpp:131-154 | a return without a diagnostic hands out no reference into the function's own storage, whether it borrows, reads a variable or a place in it, dereferences, or applies unary operators to such a value |
| `BorrowSoundness.WhileSettles` | src/borrow.cpp:191-245 | an accepted `while` ends with a header state that covers every state reaching the head |
| `BorrowSoundness.ForSettles` | src/borrow.cpp:246-305 | the same for `for` |
| `BorrowSoundness.LoopSettles` | src/borrow.cpp:306-354 | the same for `loop` |
| `BorrowConvergence.StmtAlike` | src/borrow.cpp:15-360 | two runs of a statement without a diagnostic transfer every moved place, loan and origin on its own |
| `BorrowConvergence.SecondPass` | src/borrow.cpp:191-354 | the second pass over the body of a loop reproduces the state at its head |
| `BorrowConvergence.LimitNeverRejects` | src/borrow.cpp:375-397 | for every function and every liveness tables: the bound of 4096 passes is never the only reason to reject |
| `MildExpressions.MildAccepted` | src/borrow_flow.cpp:107-267 | an expression of reads, Copy uses, shared borrows and calls is accepted wherever its places are there and not mutably lent, and leaves exactly its shared loans |
| `MildExpressions.LendingAccepted` | src/borrow_flow.cpp:195-243 | a call that mutably borrows places nobody else borrows, no two overlapping, is accepted even if its other arguments read them, and gives all of them back |
| `BorrowAcceptance.PeacefulCodeIsAccepted` | src/borrow.cpp:15-373 | from any such state, code of any length is accepted that reads, uses and shares some places and writes, or lends to calls, others that nobody borrows: lets, plain and compound assignments, writes through references, returns of borrows that are not of the function's own storage, and all control flow included |
| `BorrowAcceptance.PeacefulFunctionsAreAccepted` | src/borrow.cpp:375-397 | functions of such code are accepted, whatever the liveness tables say |
| `BorrowAcceptance.SharedBorrowsCoexist` | docs/ARCHITECTURE.md:40 | one variable may be borrowed any number of times, all borrows in scope at once |
| `BorrowLifetimes.AcceptsBoth` | src/borrow.cpp:361-373 | pieces of code accepted from every state that fits a plan are accepted one after another |
| `BorrowLifetimes.MutableBorrowEndsWithItsHolder` | src/borrow_liveness.cpp:451-471 | code that binds a mutable borrow, goes on without the borrowed place, and takes it up again where the holder is not live is accepted, with such borrows inside and after one another |
| `BorrowLifetimes.MutableBorrowsInTurn` | src/borrow_liveness.cpp:451-471 | with the computed liveness, one variable may be borrowed mutably any number of times in turn, each borrow written through, and used in the end |
| `BorrowTheorems.StmtSound` | src/borrow.cpp:15-360 | by induction over statements and paths: an accepted statement is safe on every path, and each way out of it is covered |
| `BorrowTheorems.CheckerIsSound` | src/borrow.cpp:15-416 | if the checker reports nothing, every control-flow path of the function is safe for references, arguments and moves |
| `BorrowTheorems.NoUseOfInvalidatedReference` | src/borrow_loans.cpp:115-247 | between binding a reference and a use of it, passing it by value to a call included, before it is rebound, nothing writes, moves or mutably borrows an overlapping place, nor reads or borrows one when the reference is mutable |
| `BorrowTheorems.NoAccessToPassedReference` | src/borrow_loans.cpp:425-452 | between passing a reference to a call and making the call nothing accesses its place against it, so no other argument aliases a mutable one |
| `BorrowTheorems.NoUseAfterMove` | src/borrow_places.cpp:348-419 | on no path is a place used, itself or through a reference, that overlaps one moved earlier and not since reinitialized as a whole; in the fragment nothing is moved out of a reference the function binds |
| `BorrowTheorems.NoDanglingReference` | src/borrow_flow.cpp:63-105 | no reference outlives the scope of what it refers to; in the fragment none is stored where only another reference leads |
| `IndexGap.IndexOperandsAreUnchecked` | src/borrow_flow.cpp:107-113 | index operands are never inspected: every probe function is accepted, and it is safe if and only if the place its operand reads is disjoint from the mutably borrowed one |
| `IndexGap.SafeProbesAreAdmissible` | src/borrow_flow.cpp:107-113 | of the probes that read a Copy place, the safe ones are exactly those the soundness theorem covers |
| `FieldGap.FieldBorrowOutlivesItsReference` | src/borrow_liveness.cpp:451-471 | `let r = borrow x; let a = borrow r.f`, an access to `q`, a use of `a`: always accepted, for every place, mutability and kind of access, and safe if and only if `q` is disjoint from `x.f` or only read while one of the two references is shared |
| `FieldGap.FieldBorrowEscapes` | src/borrow_places.cpp:360-374 | `let r = borrow x; let a = borrow r.f; return a` is always accepted, and is safe if and only if what `a` refers to is not the function's own storage |
| `StoreGap.StoredReferenceIsUnchecked` | src/borrow.cpp:104-122 | a reference stored through another one, borrowed on the spot or copied from a local, the other one a parameter or a local: always accepted, and safe if and only if its referent outlives the block and, for a parameter, the call, and nothing accesses it against the reference before the next use |
| `StoreGap.StoredReferenceDangles` | src/borrow_loans.cpp:353-380 | the input: a local of a block stored through a parameter `r: mutref ref T` is accepted, and `r` is used after the block |
| `MoveGap.MoveThroughReferenceIsUnrecorded` | src/borrow_flow.cpp:121-128 | after a value is taken through a reference, as `r.f` or `deref r`, every access is accepted; that is safe if and only if the value is copied, or the access is a write not inside it, or does not overlap it |
| `MoveGap.MovedTwice` | src/borrow_loans.cpp:115-225 | the input: with `let r = borrow x` and a field `f` that moves, `r.f` and then `x.f` are both accepted as moves of one value |
| `BorrowCheckerImpl.BorrowChecker.LivenessLoop` | src/borrow_liveness.cpp:203-265 | the iteration in place ends after at most two evaluations and stores the annotated live sets |
| `BorrowCheckerImpl.BorrowChecker.LivenessStmt` | src/borrow_liveness.cpp:165-274 | the pass in place returns the live-in set and fills the tables of the statement and all inside it, touching no others |
| `BorrowCheckerImpl.BorrowChecker.PrepareLiveness` | src/borrow_liveness.cpp:276-290 | both tables of a function are filled before it is checked |
| `BorrowCheckerImpl.BorrowChecker.DoAccess` | src/borrow_loans.cpp:115-225 | the access in place records the diagnostics and makes the state changes of the specification |
| `BorrowCheckerImpl.BorrowChecker.DoCall` | src/borrow_flow.cpp:195-243 | the call in place, reservations, guards and activation, agrees with the specification |
| `BorrowCheckerImpl.BorrowChecker.DoArg` | src/borrow_loans.cpp:425-446 | one argument in place: a lent reference is read and guarded by a loan, anything else is moved or read by its type |
| `BorrowCheckerImpl.BorrowChecker.DoAssign` | src/borrow.cpp:45-125 | the assignment in place agrees with the specification |
| `BorrowCheckerImpl.BorrowChecker.DoStmt` | src/borrow.cpp:15-360 | checking a statement in place, on the loop stack, yields the state and diagnostics of the specification |
| `BorrowCheckerImpl.BorrowChecker.DoWhile` | src/borrow.cpp:191-245 | the header iteration, at most 4096 rounds, with its convergence diagnostic |
| `BorrowCheckerImpl.BorrowChecker.DoFor` | src/borrow.cpp:246-305 | the same for `for`, around the scope of its variable |
| `BorrowCheckerImpl.BorrowChecker.DoLoop` | src/borrow.cpp:306-354 | the same for `loop`, whose exit is the join of its breaks |
| `BorrowCheckerImpl.BorrowChecker.DoCheckFunction` | src/borrow.cpp:375-397 | the state and diagnostics of the specification for every function; after a run without a diagnostic every control-flow path of a function in the fragment is safe |
| `LoweringShape.StmtExtends` | src/mir_stmt.cpp:58-320 | lowering a statement touches only the current block and new ones; every new block but the last current one has ended; only names bound in it move to other slots |
| `LoweringSound.GraphIsWellFormed` | src/mir.cpp:28-40 | for every function that lowers without an error: labels are distinct, every block ends in exactly one terminator, its last instruction, and every jump target exists |
| `LoweringRuns.CloseRuns` | src/mir_stmt.cpp:189-196 | a jump emitted at the end of a block takes the run to the start of its target |
| `LoweringRuns.BranchRuns` | src/mir_stmt.cpp:177-187 | a branch goes by its condition and faults on anything that is not a number |
| `LoweringCorrect.ExprRuns` | src/mir_expr.cpp:168-330 | running the code of an expression gives the value the expression means, or faults when it has none, and disturbs no other value |
| `LoweringCorrect.UnaryRuns` | src/mir_expr.cpp:261-303 | unary operators: the zero of a negation and the cast have temporaries of their own, and the code gives the operator's value |
| `LoweringCorrect.BinRuns` | src/mir_expr.cpp:304-329 | binary operators and comparisons convert both operands to one type first |
| `LoweringSimulation.LetRuns` | src/mir_stmt.cpp:59-72 | a binding gets a slot of its own that holds its value |
| `LoweringSimulation.AssignRuns` | src/mir_stmt.cpp:73-134 | plain and compound assignment store what the source assigns |
| `LoweringControl.IfRuns` | src/mir_stmt.cpp:169-197 | `if` means its taken arm and goes on after it |
| `LoweringControl.LoopRuns` | src/mir_stmt.cpp:198-289 | from the head on, a loop runs as the source loop does, pass by pass, through `break`, `continue`, early return, fault and divergence |
| `LoweringControl.ForRuns` | src/mir_stmt.cpp:219-275 | `for` evaluates its bounds once, tests, steps and leaves as the source does |
| `LoweringControl.SeqRuns` | src/mir.cpp:229-239 | a block stops where the source leaves it |
| `LoweringControl.StmtRuns` | src/mir_stmt.cpp:58-320 | from the code of a statement the run gets where the source statement says, in step with its environment |
| `LoweringTheorem.FunctionRuns` | src/mir.cpp:156-214 | whatever a source function does within some fuel, the run from its entry block does |
| `LoweringTheorem.LoweringPreservesMeaning` | src/mir.cpp:156-239 | for every function of the fragment that lowers without an error and uses no stale name: the run returns exactly the values the source returns, and faults or diverges exactly when the source does |
| `LoweringTheorem.BlocksAreFlattened` | src/mir.cpp:229-239 | the code of a block is that of its statements in the enclosing sequence: scopes do not reach the slot map |
| `LoweringTheorem.ShadowingIsNotPreserved` | src/mir_stmt.cpp:65-68 | on a function that binds `y` in an inner block and returns the outer `x`, the code returns what the source returns if and only if the two names differ |
| `LoweringSsa.LoweredCodeSuits` | src/mir.cpp:19-40 | every lowered block is in single-assignment form and its terminators name their targets |
| `LoweringLocal.LoweredCodeIsLocal` | src/mir_stmt.cpp:219-275 | if no `for` ends at a bare variable, and literals, types and operators are ones the folder reads right, lowered code uses every load in its own block and has only foldable instructions |
| `MirLowerer.FnState.Emit` | src/mir.cpp:32-40 | instructions after a terminator are dropped, a terminator ends the block |
| `MirLowerer.FnState.LowerExpr` | src/mir_expr.cpp:168-330 | the recursive lowering in place is the specified one |
| `MirLowerer.FnState.LowerStmt` | src/mir_stmt.cpp:58-320 | the statement lowering in place is the specified one |
| `MirLowerer.FnState.LowerLoop` | src/mir_stmt.cpp:198-289 | the three kinds of loop in place: blocks, head, body on the loop-target stack, step, end |
| `MirLowerer.FnState.LowerBlock` | src/mir.cpp:229-239 | the statement loop stops at the first terminator |
| `MirLowerer.FnState.LowerFunction` | src/mir.cpp:156-214 | lowering a function in place: without an error the graph is well formed and returns what the source returns |
| `ReachableBlocks.KeepAt` | src/mir_optimizer.cpp:50-55 | every kept block is found at its rank, unchanged and in order |
| `ReachableBlocks.RemovalPreservesRuns` | src/mir_optimizer.cpp:18-56 | removing the blocks outside a set that is closed under edges keeps every run, fall-through and jumps to missing labels included |
| `PassesComplete.EdgesAreExact` | src/mir_optimizer.cpp:32-48 | the pass follows an edge if and only if some run takes it from the block's last instruction |
| `ForwardLoads.ResolveOnce` | src/mir_optimizer.cpp:62-70 | aliases are resolved when inserted, so one step resolves fully and the depth limit never matters |
| `ForwardLoads.ForwardingPreservesRuns` | src/mir_optimizer.cpp:58-112 | in single-assignment blocks where the result of every dropped load is used in its own block only, if awaits and drops leave slots alone, every run makes the same stores, calls and atomics and ends the same |
| `ForwardLoads.ForwardingCloses` | src/mir_optimizer.cpp:84-103 | under that condition on the input nothing in the output uses the result of a dropped load |
| `ForwardLoads.CrossBlockUse` | src/mir_optimizer.cpp:84-91 | a load whose result a later block uses, as the end value of a `for` is used: forwarding keeps the run if and only if the load stays, which is the condition of the theorem; otherwise the run faults |
| `PassesComplete.NothingLeftToForward` | src/mir_optimizer.cpp:58-112 | in forwarded code no plain load follows a plain store to the same slot in its block, unless something between them may change the slot |
| `DeadValues.EliminationPreservesRuns` | src/mir_optimizer.cpp:242-280 | every run that does not fault keeps its effects, their order and its result |
| `DeadValues.EliminateIsClean` | src/mir_optimizer.cpp:242-280 | afterwards no pure instruction is left whose result nothing uses |
| `DeadValues.NoNewFaults` | src/mir_optimizer.cpp:242-280 | a run that faults afterwards faulted before |
| `PassesComplete.NothingUnusedLeft` | src/mir_optimizer.cpp:256-275 | after elimination the result of every constant, operator, comparison, cast, plain load and the like is used |
| `ConstantFold.FoldMatchesBackend` | src/mir_optimizer.cpp:138-211 | every folded operation is what the opcode selected by the backend computes on 64-bit patterns, signed division overflow aside |
| `ConstantFold.CompareMatchesBackend` | src/codegen_internal.hpp:334-360 | every folded comparison of integers is what the selected predicate answers |
| `ConstantFold.BoolCompareMatchesBackend` | src/codegen_internal.hpp:334-360 | a folded comparison of two `bool`s is what the selected predicate answers on one-bit integers if and only if the operator is `==` or `!=` or the operands are equal |
| `ConstantMeaning.FoldComputes` | src/mir_optimizer.cpp:148-205 | the folder folds exactly where the operator is defined, to the number that is the sum, difference or product modulo 2^64, the truncated quotient or its remainder, the combination of every bit, or all bits moved |
| `ConstantMeaning.BackendComputes` | src/codegen_internal.hpp:125-150 | the selected opcode computes the same, stated without either of the two |
| `ConstantMeaning.ComputesUnique` | src/mir_optimizer.cpp:148-205 | no two 64-bit numbers meet that statement |
| `ConstantMeaning.LogicOnTruth` | src/mir_optimizer.cpp:183-188 | on truth values `&&`, `||` and `^` are conjunction, disjunction and inequality |
| `ConstantMeaning.FoldedBinary` | src/mir_optimizer.cpp:138-206 | an operator on two known constants becomes, where it is defined, the numeral of what it computes, which is noted for its result; elsewhere it stays |
| `ConstantMeaning.FoldedCompare` | src/mir_optimizer.cpp:207-236 | a comparison of two known constants becomes its truth |
| `ConstantMeaning.FoldedNot` | src/mir_optimizer.cpp:139-147 | `!` becomes the other truth value, or the number with every bit flipped |
| `ConstantFoldRuns.FoldingPreservesRuns` | src/mir_optimizer.cpp:114-240 | on 64-bit and bool types with literals both sides read alike and no ordered comparison of different bool constants, every run that does not fault is unchanged, registers included |
| `ConstantFoldRuns.LiteralsAgree` | src/mir_optimizer.cpp:117-130 | for every literal denoting a value below 2^64: the folder reads it as the backend does, or not at all, if and only if its prefix, digits and value are as stated |
| `ConstantFoldRuns.BoolOrderFolds` | src/mir_optimizer.cpp:207-236 | folding a comparison of two bool constants keeps the run if and only if the operator is `==` or `!=` or they are equal |
| `ConstantFoldRuns.TrueIsBelowFalse` | src/mir_optimizer.cpp:207-236 | `true < false` returns 1 from the backend and 0 after folding |
| `PassesComplete.NothingLeftToFold` | src/mir_optimizer.cpp:114-240 | in folded code no defined operator or comparison is left whose operands are constants of its block |
| `MirOptimizer.MirFunction.RemoveUnreachable` | src/mir_optimizer.cpp:18-56 | the worklist keeps exactly the blocks on a path from the first one, and runs are unchanged |
| `MirOptimizer.MirFunction.ForwardLocalLoads` | src/mir_optimizer.cpp:58-112 | the tables updated instruction by instruction give the specified code; runs are kept under the condition on the input |
| `MirOptimizer.MirFunction.ConstantFold` | src/mir_optimizer.cpp:114-240 | the constants table updated instruction by instruction gives the specified code; runs are kept on instructions the folder reads right |
| `MirOptimizer.MirFunction.EliminateDeadValues` | src/mir_optimizer.cpp:242-280 | the rounds terminate, leave nothing to drop and keep every run that does not fault |
| `MirStages.StagesPreserveRuns` | src/mir_optimizer.cpp:282-297 | the passes of every level keep every run of optimizable code that does not fault; the condition is on the code before the passes |
| `MirOptimizer.MirFunction.Optimize` | src/mir_optimizer.cpp:282-297 | the passes of a level in order give the specified code, and keep every run of optimizable input that does not fault |
| `CompilePipeline.OptimizedCodeMeansSource` | src/mir_optimizer.cpp:282-297 | lowering followed by the passes of any level, under conditions on the source alone: the optimized code returns what the source returns, diverges when it diverges, and faults only if it faults |
| `MeaningAgrees.CalculateAgrees` | src/codegen_internal.hpp:125-150 | the opcode that the backend selects computes the pattern of the sum, product, quotient, shift or bit combination of the two numbers, signed or unsigned, and is undefined exactly where that is |
| `MeaningAgrees.StandsAgrees` | src/codegen_internal.hpp:334-360 | each of the six comparisons answers how the two numbers stand to each other, for signed and unsigned types |
| `MeaningAgrees.ConvertAgrees` | src/mir.cpp:62-80 | a conversion to another 64-bit type keeps the pattern, and makes 0 or 1 of a truth value |
| `MeaningAgrees.InfixAgrees` | src/mir_expr.cpp:304-329 | on such a target a binary operator on two values is what it is on their numbers: a comparison a truth value, `&&` and `||` those of logic, the others arithmetic of the result's type |
| `MeaningAgrees.ExprAgrees` | src/mir_expr.cpp:168-330 | typed expressions evaluate to the representation of their value in numbers and truth values |
| `MeaningRuns.FunctionAgrees` | src/mir.cpp:156-239 | typed functions do, with represented arguments, what they mean |
| `CompiledMeaning.LoweredCodeComputes` | src/mir.cpp:156-239 | for every typed function of 64-bit integers and truth values, on a target that behaves like the backend's: the lowered code returns exactly the patterns of what the source means in numbers, and faults or diverges exactly when the source does |
| `CompiledMeaning.CompiledCodeComputes` | src/mir_optimizer.cpp:283-297 | the same values of the optimized code at every level, no new fault and no lost divergence |
| `CompiledMeaning.ConversionsMade` | src/mir.cpp:62-80 | a cast is emitted exactly from an integer or a truth value to a different integer type |
| `CompiledMeaning.InclusiveRangeEnds` | src/mir_stmt.cpp:219-275 | `for i in a ..= b` ends if and only if `b` is not the largest number of its type |
| `AsyncMachine.LocateNumber` | src/codegen_async.cpp:96-112 | the dispatch on the state word resumes at the very await that set it |
| `AsyncMachine.PollRuns` | src/codegen_async.cpp:428-476 | a poll finishes as the body does, or stops at an await from which the body runs on unchanged |
| `AsyncMachine.SuspensionIsInvisible` | src/codegen_async.cpp:428-513 | when no child fails, polling to the end gives the result and effects of the body with every await replaced by its child's value, however often children are pending |
| `AsyncMachine.CompletedIsOver` | src/codegen_async.cpp:428-476 | a future that has answered answers nothing more, does nothing when polled again, and its drop drops no child |
| `AsyncDrops.ChildrenAreDroppedOnce` | src/codegen_async.cpp:466-474 | each finished await dropped its child once, in order; the frame drop drops the one child waited for and nothing else; the polled children are exactly the dropped ones |
| `AsyncDrops.EveryChildOnce` | src/codegen_async.cpp:466-474 | if the awaited children are distinct, every polled child is dropped exactly once and no other |
| `AsyncDrops.PollingEnds` | runtime/runtime.c:369-378 | for every budget of block transitions some number of polls is enough |
| `AsyncDrops.FailingChildMayLeak` | src/codegen_async.cpp:453-476 | in any body, after any number of polls, when a child fails: all polled children but the failing one are dropped; the frame drops that one if and only if the failing await is the one the last poll resumed at; otherwise the state word is 0 and nothing is dropped, nor anything twice |
| `AsyncDrops.SoloChildMayLeak` | src/codegen_async.cpp:461-465 | in a body of one await a failing child is dropped if and only if it was pending first |
| `AsyncFrame.FutureFrame.PollAwait` | src/codegen_async.cpp:428-476 | one await in place: poll, then suspend, fail, or drop the child and store the value |
| `AsyncFrame.FutureFrame.Poll` | src/codegen_async.cpp:96-112 | the emitted poll function, updating its frame, is the specified one |
| `AsyncFrame.FutureFrame.Drop` | src/codegen_async.cpp:519-554 | the emitted drop function drops the child of the state word |
| `AsyncFrame.FutureFrame.RunToEnd` | runtime/runtime.c:369-378 | the executor polls until the answer is not zero |
| `AsyncFrame.FutureFrame.Execute` | runtime/runtime.c:369-378 | from a fresh frame: the body's result, and every polled child dropped |
| `TicketLock.StepKeepsInv` | stdlib/core/sync.ux:36-65 | every atomic step of every thread keeps the ticket invariant, `try_lock`'s separate loads and exchange included |
| `TicketLock.MutualExclusion` | stdlib/core/sync.ux:36-65 | for any number of threads and any interleaving at most one is inside |
| `TicketLock.FirstComeFirstServed` | stdlib/core/sync.ux:36-65 | entries happen in ticket order, none skipped and none repeated |
| `TicketLock.OutstandingTickets` | stdlib/core/sync.ux:36-65 | a ticket has an owner if and only if it is at least `serving` and below `next` |
| `TicketLock.NoLostTurn` | stdlib/core/sync.ux:36-65 | while a ticket is out, the owner of the one being served is inside or enters with its next step |
| `TicketLock.TryLockTakesFreeLock` | stdlib/core/sync.ux:50-60 | from every reachable state and whatever others do in between: `try_lock` enters if and only if the ticket it saw being served is the next one to give out at its second load and at its exchange, and then with that ticket; otherwise it leaves no trace; undisturbed it enters if and only if the lock was free |
| `TicketLock.LockWaitsItsTurn` | stdlib/core/sync.ux:41-48 | `lock` takes the next ticket in one step, and enters when and only when that ticket is served |
| `TicketLock.UnlockServesNext` | stdlib/core/sync.ux:62-65 | `unlock` serves the next ticket, whatever others do between its load and its store |
| `TicketLock.EveryTicketEnters` | stdlib/core/sync.ux:36-65 | from every reachable state every ticket that is out can still enter |
| `Barrier.StepKeepsInv` | stdlib/core/sync.ux:157-176 | every atomic step keeps the barrier invariant: the counter counts the arrivals of the generation |
| `Barrier.NobodyPassesEarly` | stdlib/core/sync.ux:157-176 | no thread returns from its k-th wait before all have entered theirs, for every number of participants and rounds |
| `Barrier.ExactlyOneTrue` | stdlib/core/sync.ux:157-176 | of the k-th waits exactly one returns true |
| `Barrier.NoDeadlock` | stdlib/core/sync.ux:157-176 | never are all participants stuck |
| `SeqLock.SnapshotsAreNotTorn` | stdlib/core/sync.ux:108-134 | with one writer at a time, a reader whose `read_retry` answered false saw every word as one completed write left it |
| `SeqLock.StampsAreEven` | stdlib/core/sync.ux:122-129 | stamps are even and never ahead of the lock |
| `SeqLock.ReadsAreAcceptedUnlessDisturbed` | stdlib/core/sync.ux:122-134 | a read that begins on an even number is accepted if and only if the number is the same at its end, so every read that no writer disturbs; it has seen the words it asked for |
| `SeqLock.WriterPublishes` | stdlib/core/sync.ux:112-120 | a writer alone publishes one version, each word as last written |
| `SeqLock.OverlappingWritersTear` | stdlib/core/sync.ux:112-120 | two overlapping writers make a reader accept words that no version holds together |
| `HashTable.HashMap.Find` | runtime/collections.c:225-263 | probing ends before it has gone round, at the key or at a free slot, and finds the key if and only if it is in the map |
| `HashTable.HashMap.Get` | runtime/collections.c:225-241 | lookup answers as the map does |
| `HashTable.HashMap.Put` | runtime/collections.c:187-224 | the map gains the binding; counters stay exact and the load stays below seven tenths |
| `HashTable.HashMap.PutProbing` | runtime/collections.c:194-223 | the probe loop replaces the value of a key it meets, or fills the first deleted slot on the way, or the free slot at the end |
| `HashTable.HashMap.Remove` | runtime/collections.c:242-263 | the map loses the binding, its value is returned, and the slot stays on the way to later keys |
| `HashTable.HashMap.Resize` | runtime/collections.c:156-176 | doubling moves every binding and forgets deleted slots |
| `HashTable.HashMap.HashBytes` | runtime/collections.c:144-152 | the byte loop computes the hash, never zero |
| `HashTable.HashVectors` | runtime/collections.c:144-152 | the hashes of three short keys, as numbers |
| `HashTable.HashMap.Replay` | runtime/collections.c:131-266 | any sequence of operations, asking for the length included, answers as on a finite map |
| `HashTable.InsertKey` | runtime/collections.c:199-215 | a key put into a slot reached without passing a free one keeps the table representing the map |
| `HashTable.DeleteKey` | runtime/collections.c:251-259 | a tombstone keeps every other key reachable |
| `HashTable.AbsentAtFree` | runtime/collections.c:231-233 | a free slot ends the search rightly: the key is not in the map |
| `RawVector.Vector.Reserve` | runtime/collections.c:28-54 | contents are kept; it fails only when sizes would overflow; reallocations never move more elements in all than the final capacity, which is below twice the most ever asked for, or 8 |
| `RawVector.Vector.Push` | runtime/collections.c:55-64 | appends, or leaves the contents as they were when the size is excessive; the most ever asked for grows to the new length |
| `RawVector.Vector.Pop` | runtime/collections.c:65-72 | removes the last element and returns it |
| `RawVector.Vector.Replay` | runtime/collections.c:28-76 | any sequence of reserve, push, pop and clear answers as on a list and refuses only excessive sizes; capacity stays below twice the most asked for, or 8, and all reallocations together moved no more elements than fit |
| `RawVector.Vector.Grow` | runtime/collections.c:36-43 | doubling from 8 reaches the need without overflow |
| `Utf8.DecodeEncode` | runtime/unicode.c:8-79 | decoding what was encoded gives the scalar value back, whatever follows |
| `Utf8.EncodeDecode` | runtime/unicode.c:8-47 | what decodes is a scalar value and its bytes are that value's encoding: no overlong form, no surrogate |
| `Utf8.ValidatesIffWellFormed` | runtime/unicode.c:48-55 | a byte string is accepted if and only if it is a concatenation of encoded scalar values |
| `Utf8.EncodingIsUnique` | runtime/unicode.c:56-79 | no two sequences of scalar values have the same encoding |
| `Utf8.EncodesByGrammar` | runtime/unicode.c:56-79 | what is encoded is a character of the grammar of RFC 3629, section 4, with its number |
| `Utf8.DecodesByGrammar` | runtime/unicode.c:8-47 | the decoder accepts exactly the characters of that grammar and yields their numbers |
| `Utf8.NextChar` | runtime/unicode.c:8-47 | the decoding loop over the buffer is the specified decoder, errors and bounds included |
| `Utf8.Validate` | runtime/unicode.c:48-55 | the scanning loop accepts exactly the well-formed strings |
| `Utf8.EncodeInto` | runtime/unicode.c:56-79 | writes the encoding into the buffer, or refuses what is no scalar value and writes nothing |
| `IntegerLiteral.CarrySmall` | src/codegen_internal.hpp:97-104 | no 64-bit step overflows and what is carried always fits one limb |
| `IntegerLiteral.MulAddIs` | src/codegen_internal.hpp:97-104 | one digit more: every limb stays below 10^9, and the number is multiplied and added to exactly |
| `IntegerLiteral.SpellIs` | src/codegen_internal.hpp:109-119 | limbs with padding spell the canonical decimal numeral of their value |
| `IntegerLiteral.Accumulate` | src/codegen_internal.hpp:97-104 | the carry loop over the limbs |
| `IntegerLiteral.Constant` | src/codegen_internal.hpp:45-123 | for every literal of any length: the decimal numeral of the integer it denotes, or the literal itself when malformed |
| `IntegerLiteral.NumeralReads` | src/codegen_internal.hpp:45-123 | a numeral denotes the integer it was made from, so no two integers share one |
| `IntegerLiteral.MeaningIsPositional` | src/codegen_internal.hpp:45-107 | a literal means a number if and only if it is a numeral of it in the digit tables of the base its prefix tells, digits of either case and underscores anywhere |
| `IntegerLiteral.EveryBaseReads` | src/codegen_internal.hpp:45-107 | every number is read back from its numeral in base 2, 8, 10 and 16, with either digit table, either prefix letter, underscores and sign |
| `TypeSyntax.PrintThenParse` | src/parser.cpp:14-49 | parsing the tokens of a printed type consumes exactly those and gives the type back, unless `[`, `<` or `?` follows |
| `TypeSyntax.FollowingMarkIsTaken` | src/parser.cpp:272 | a `?` that follows is taken for the type's own |
| `TypeSyntax.ParseThenPrint` | src/parser.cpp:216-289 | a type that parses prints as the tokens it was read from in the printer's spelling, and these parse to the same type |
| `TypeSyntax.Parser.ParseTypeRef` | src/parser.cpp:216-275 | the parser in place, with its error flag and position, is the specified one |
| `TypeSyntax.Parser.ParseTypeArguments` | src/parser.cpp:277-289 | the argument loop, with a trailing comma allowed |

## Left out

- Borrow checker: reborrow provenance (`via`), references copied between places or through aggregates and calls, calls that return references (whose reference arguments move instead of being lent), the two-phase protocol for method receivers (`src/borrow_loans.cpp:311-339`), `await`, inline assembly and globals.
- Borrow checker: in the fragment of the theorems a reference-typed local is given its reference by `borrow`, in a `let` or a plain assignment, not through another reference the function binds, no value that is or holds a reference is assigned to anything else, and a `for` variable does not reuse a visible key; index operands are quiet, since the code does not look at them, and nothing is moved through a reference the function binds.
- Borrow checker: whether an argument is lent (`is_reborrow_argument`) is decided from types and signatures before this model starts; it is a form of argument here.
- Borrow checker: outside the fragment, the monitor does not follow a reference rebound through itself (`r = borrow r.next`), and it does not forget a reference stored through `r` when another is stored over it. What a callee stores through its arguments is not followed at all. A value moved out through a parameter, whose referent has no place, is not followed either.
- Places.PlacesDisjoint: `<external:...>` places, which conflict with everything, are not modelled.
- Borrow checker: diagnostics are a set of code and position; their texts, their order and the notes attached to them are not modelled.
- Borrow checker: types are finite trees, so the guard against recursive structs in `contains_reference` has no counterpart.
- BorrowTheorems.CheckerIsSound: two paths are told apart by branch decisions, not by the values of conditions, so paths that no input takes are covered too.
- Lowering: only locals of integer and boolean type, with `let`, assignment, blocks, `if`, the three loops, `break`, `continue` and `return`; no fields, indices, references, calls, casts written in the source, floats, strings, `await`, atomics, fences or assembly.
- Lowering: drops at scope ends, generics, and the diagnostics other than the two internal errors for a name without storage and for a missing return.
- LoweringTheorem.LoweringPreservesMeaning: `&&` and `||` evaluate both operands in the source meaning, as the code lowers them (`src/mir_expr.cpp:304-329`); a language that promises short-circuiting would disagree.
- CompiledMeaning.LoweredCodeComputes: types are the 64-bit integers and `bool`, ordered comparisons are those of integers, and the target is one that behaves like the backend's (`ConstantFold.Machine`); narrower and wider integers are in `LoweringPreservesMeaning` only, over an arbitrary target.
- BorrowAcceptance.PeacefulCodeIsAccepted: whole code that moves values, copies references between locals or passes a mutable reference on is covered per operation (`borrow_operations.dfy`) and not by an acceptance statement about code of any length; bound mutable borrows are covered in straight-line order (`BorrowLifetimes.MutableBorrowEndsWithItsHolder`), around any peaceful control flow but not across it.
- LivenessExact.LiveIsExact: asks that the statement holds no `loop`, where it fails (`LivenessExact.EndlessLoopKeepsAlive`).
- MIR: an `alloca` is one fixed slot, so a second activation of the same function is not modelled; assembly operands and auxiliary types are left out.
- MIR: names are kept in disjoint classes instead of being told apart by the spelling of `%tN`, `%x.slot.N`, `%arg.x` and labels.
- ForwardLoads.ForwardingPreservesRuns: asks that `await` and `drop` do not write local slots, since the pass keeps what it knows across both.
- ConstantFoldRuns.FoldingPreservesRuns: ordered comparisons of different bool constants are excluded, where the code has its gap; types narrower than 64 bits, where the folder does not wrap, and 128-bit types, which it skips, are outside; so are character constants.
- CompilePipeline.OptimizedCodeMeansSource: asks of the source that no `for` ends at a bare variable, that literals are read alike and that types are 64-bit or bool, because each can fail otherwise; ordered comparisons at bool type are excluded altogether, equal operands included.
- Async machine: polling an `await` whose child was moved or forged, out-of-memory, and the layout of frame fields; values that live across polls are the registers and memory of one configuration.
- AsyncMachine.SuspensionIsInvisible: a child is a number of pending answers and a final one; children that act on shared memory while they are polled are not modelled.
- Locks: atomics are sequentially consistent and counters do not wrap; memory orderings, fairness of the scheduler, `SpinLock`, `RwSpinLock` and `Once` are left out.
- Barrier.NobodyPassesEarly: the number of threads is the barrier's `total`, as its use requires.
- Hash table and vector: allocation failure, null arguments, freeing keys, and wrap-around of the slot counters; masking with `cap - 1` is taken as the remainder, capacities being powers of two by the invariant.
- RawVector.Vector.Reserve: elements are values of a type and not bytes, so alignment and `memcpy` are not modelled.
- UTF-8: null arguments; buffers are arrays and sizes do not wrap.
- Type printer and parser: tokens, not characters; the lexer, source ranges, and the `is_ref`/`is_raw_ptr` flags that printing uses when there are no prefixes.
- Drivers, package tool, language server, name resolution, trait checking, LLVM text and the standard library beyond the three locks.
