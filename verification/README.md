# Verified model of the Lua 5.1.3 core

This project models the core of the Lua 5.1.3 interpreter that is built for the
Nintendo DS in this repository, and proves what the parts of that core promise.
Code that changes things in place is modelled by classes whose methods are proved
against functions on values; the promises are proved about those functions, as
invariants of every step and as statements over whole runs.

1. **Incremental garbage collector** (`gc_*.dfy`; `lgc.c`, `lgc.h`, parts of
   `lfunc.c` and `lstring.c`). A heap of objects with the two whites, gray and
   black, the gray lists, the object list with its sweep cursor, the string table,
   the open upvalues in list and ring. The collector's phases are interleaved with
   everything a program does. Main results: no run frees what the program can
   still reach (`GcRuns.RunSafe`), a full collection leaves exactly what is needed
   (`GcExact.FullGcExact`), a condemned object is freed before its sweep is over
   unless it is asked for again, and a live one survives it
   (`GcCondemned.CondemnedIsFreed`, `GcCondemned.LiveSurvivesSweep`). What can be
   reached is stated by reading fields one at a time (`GcHeap.Reads`), apart from what
   the collector marks (`GcHeap.ChildIsRead`).
2. **Single-pass expression compiler** (`vm.dfy`, `codegen*.dfy`; `lcode.c`,
   `lvm.c`). Jump lists threaded through the code, value tests, and the
   discipline of registers. `CodeGenYield.Yield` says by recursion on the tree what
   its code yields, with the value that a jump to the current place has in tow as
   the only extra. Main results, for all trees and all states of the registers: the
   code delivers what the tree yields (`CodeGenTheorems.ValueInRegister`) and
   branches on it (`CodeGenTheorems.ConditionTakesRightBranch`), so it is right
   exactly where that is the value, or has the truth of the value, of the tree. It is
   not right everywhere: a jump that is always taken, behind a literal, takes on the
   jumps to its place, and what they have in tow is delivered in place of the
   literal (`CodeGenTheorems.LiteralInChainIsWrong`,
   `CodeGenTheorems.ComparedChainIsWrong`). Whether the compiler meets this case can
   be read off the tree (`CodeGenTheorems.FaithfulAtStart`), and where it does not the
   code is right in every state (`CodeGenTheorems.ValueWithoutDeadEnds`,
   `CodeGenTheorems.ConditionWithoutDeadEnds`).
3. **Tables** (`table_*.dfy`; `ltable.c`). Array part, chained scatter table with
   Brent's variation, rehash with the best array size, traversal and border. A
   table refines a finite map (`TableGrow.SetStores`); the mutual recursion of
   insertion, rehash and resize ends after one rehash. Taking slots away from the array
   part can go wrong, because a rehash on the way may reallocate the block that is
   still being read: `TableShrink.ResizeInPlaceIff` says exactly when,
   `TableShrink.ShrinkLoses` gives the input.
4. **Pattern matcher** (`pattern_*.dfy`; `lstrlib.c`). Backtracking with captures
   in place, sound and complete against a relation that defines balanced stretches by
   counts. The classes are pinned character by character (`PatternClasses.ClassHas`).
5. **Readers and writers**: precedence climbing against the flattening of trees
   and the grammar of the manual (`parser_*.dfy`; `lparser.c`), precompiled chunks (`chunk_*.dfy`; `ldump.c`,
   `lundump.c`), and `%q` quoting against the lexer, whose strings are read exactly as they are
   spelled (`quoted*.dfy`; `lstrlib.c`, `llex.c`).
6. **Bytecode checker** (`bytecode.dfy`, `code_*.dfy`; `ldebug.c`, `lvm.c`): exactly
   which code it accepts (`CodeExact.AcceptedIff`), what accepted code may do when it runs, and for which code the checker's promise
   fails.
7. **Quicksort** (`sort_*.dfy`; `ltablib.c`), in place, with its bound on the depth
   of calls.

`sequences.dfy` holds a few facts about sequences without repetition.

Some choices of the model: object identities, table keys and numbers are abstract,
with the equality and the orders that the code uses; hashes and main positions are
arbitrary functions; memory is never exhausted; an error that the code raises by a
long jump is an error result here. The order of writes inside one store and its
barrier is not modelled, since no collector step can come between them.
Where the code calls into the part of the interpreter that is not modelled (a
called function, a metamethod, a writer, a checker argument), the result is left
open or is a parameter.

The text of the code decides where it differs from what is written about it.
Section 2.5.3 of the Lua 5.1 Reference Manual promises the first operand of `or`
if that is true, and the second one otherwise; the compiled code does not keep
this for all trees (see 2 above). The checker takes care that no jump goes to the
count of a SETLIST (`src/lua-5.1.3/src/ldebug.c:348-352`), but not that no LOADBOOL
skips to one.

## Model

| member | source | states |
|---|---|---|
| GcRuns.RunSafe | src/lua-5.1.3/src/lgc.c:407-428 | Over every run that interleaves collector steps, full collections, allocation, string making, capturing of upvalues, closing them with or without a change of the stack, barriered writes, and stack changes: an object that the program can get at, by reading fields from the roots, at some moment exists then and still exists after the next action. |
| GcRuns.StepSafe | src/lua-5.1.3/src/lgc.c:556-607 | Every single action, of the collector or of the program, keeps the whole collector invariant, and frees nothing that is still needed. |
| GcRuns.InitialInv | src/lua-5.1.3/src/lstate.c:143-190 | The state that a run starts from (paused, main thread fixed, registry and globals on the object list, empty string table) satisfies the collector invariant. |
| GcHeap.ChildIsRead | src/lua-5.1.3/src/lgc.c:69-275 | What the collector marks from an object is exactly what can be read from it, one access for each field: metatable and environment of a userdata, value of an upvalue (of an open one the stack slot), environment and references of a closure, metatable, array slots, values and keys that are not dead of a table, references of a prototype, globals and stack of the thread. |
| GcExact.NeededIs | src/lua-5.1.3/src/lgc.c:158-195 | What the program can get at, from the roots by any number of such accesses and without the keys of entries that have no value, is what is referred to once every table has been traversed; RunSafe, StepSafe and FullGcExact are about objects that the program can get at. |
| GcEffects.ReadIsAccessible | src/lua-5.1.3/src/lgc.c:158-275 | Whatever can be read from an object that the program can get at, the program can get at. |
| GcEffects.TableStores | src/lua-5.1.3/src/lgc.c:675-683 | A store into a table is seen in the field that was written, and everything else that can be read from any object is as it was, whatever the barrier marked. |
| GcEffects.ObjectStores | src/lua-5.1.3/src/lgc.c:662-672 | The same for the fields of userdata, closed upvalues, closures and prototypes. |
| GcEffects.PushStores | src/lua-5.1.3/src/lgc.c:256-275 | A value that is pushed is in the top slot of the stack, and nothing else changes. |
| GcEffects.SetGlobalsStores | src/lua-5.1.3/src/lgc.c:259-259 | Another table of globals is what the thread then refers to, and nothing else changes. |
| GcEffects.SetSlotStores | src/lua-5.1.3/src/lfunc.c:52-78 | Assigning to a stack slot changes what is read from the slot and from the open upvalue of the slot, and nothing else. |
| GcEffects.NewObjectAppears | src/lua-5.1.3/src/lgc.c:686-692 | A new object has its contents, is on top of the stack and is needed; no other object changes. |
| GcEffects.MakeStringAppears | src/lua-5.1.3/src/lstring.c:75-94 | A string with the text is on top of the stack and is needed; it is an old one exactly if there was one with this text. |
| GcEffects.CaptureShares | src/lua-5.1.3/src/lfunc.c:52-78 | The closure ends up with a reference to a cell that reads the captured stack slot. |
| GcCycle.SingleStepKeepsInv | src/lua-5.1.3/src/lgc.c:556-607 | In each of the five phases one step keeps the invariant (tri-colour while marking, swept part current while sweeping, all current when pausing), and only condemned, unfixed objects disappear. |
| GcCollection.CollectorStepSafe | src/lua-5.1.3/src/lgc.c:556-607 | A reachable object exists before and after a collector step, and its contents change at most by the tagging of dead keys. |
| GcCollection.StepMakesProgress | src/lua-5.1.3/src/lgc.c:556-607 | Outside the pause, each step makes the tuple (phases left, whites left, objects left to visit) smaller, so that every cycle ends. |
| GcExact.FullGcExact | src/lua-5.1.3/src/lgc.c:636-659 | A full collection leaves exactly the objects that the program can get at by reading fields from the roots, and the fixed ones, from every state of an interrupted cycle, and does not touch their contents but for dead keys. |
| GcCondemned.CondemnedIsFreed | src/lua-5.1.3/src/lgc.c:407-428 | An object that `atomic` has condemned and that no action of a run brings back is freed before the collector leaves the sweep phases, and does not come back. |
| GcCondemned.LiveSurvivesSweep | src/lua-5.1.3/src/lgc.c:686-692 | An object that is live at some moment of a sweep, reachable or not and however new, is still live when the sweep is over, over every run of steps and actions. |
| GcCondemned.ActionKeeps | src/lua-5.1.3/src/lstring.c:82-92 | In the middle of a sweep no action loses a live object, and a condemned one comes back only by making its string again or by capturing the stack slot of its open upvalue. |
| GcMarkPhase.MarkRootKeepsInv | src/lua-5.1.3/src/lgc.c:501-512 | Marking the root set starts the propagate phase with the tri-colour invariant. |
| GcMarkPhase.PropagateMarkKeepsInv | src/lua-5.1.3/src/lgc.c:277-320 | Blackening one gray object and marking its children keeps the invariant: no black object refers to a white one, the thread and open upvalues stay gray, every gray traversable object is on a gray list. |
| GcMarkPhase.AtomicKeepsInv | src/lua-5.1.3/src/lgc.c:525-553 | After the atomic step the live objects are closed under reference and the sweep phase's invariant holds. |
| GcMarkPhase.FlipCondemnsWhites | src/lua-5.1.3/src/lgc.c:547-552 | An object is live after the flip of the current white exactly if it was marked when marking was finished. |
| GcSweepPhase.SweepWholeSweeps | src/lua-5.1.3/src/lgc.c:407-428 | Sweeping a list removes exactly its condemned unfixed objects, gives the others on it the current white, leaves exactly them on the list, and changes nothing that is not on it. |
| GcSweepPhase.SweepStringKeepsInv | src/lua-5.1.3/src/lgc.c:572-580 | Sweeping one bucket of the string table keeps the invariant, and only garbage goes. |
| GcSweepPhase.SweepNextKeepsInv | src/lua-5.1.3/src/lgc.c:411-426 | One turn of the sweep loop over the object list, with the sweep of the thread's open upvalues when it meets the thread, keeps the invariant, and only garbage goes. |
| GcCycle.SweepOverAllCurrent | src/lua-5.1.3/src/lgc.c:581-587 | When the sweep has passed the end of the list, every object, string and open upvalue is back to the current white. |
| GcCycle.ResizeStringsKeepsInv | src/lua-5.1.3/src/lstring.c:22-47 | Resizing the string table moves every string to the bucket of its hash, loses none, and is refused while the table is being swept. |
| GcMutator.LinkKeepsInv | src/lua-5.1.3/src/lgc.c:686-692 | A new object may be linked in every phase: it has the current white and does not disturb the place of the sweep. |
| GcMutator.BarrierKeepsInv | src/lua-5.1.3/src/lgc.c:662-672 | The forward barrier keeps the invariant; while marking, the value of a black owner is marked; while sweeping, a black owner turns white; nothing live is condemned by it. |
| GcMutator.BarrierBackKeepsInv | src/lua-5.1.3/src/lgc.c:675-683 | The backward barrier keeps the invariant: a black table that gets a white value goes back to gray and waits for `atomic`. |
| GcMutator.RootsChangeKeepsInv | src/lua-5.1.3/src/lgc.c:256-270 | Stack slots and the thread's global table change without a barrier, in every phase, as long as what is put there is live. |
| GcMutator.BasicMetatableKeepsInv | src/lua-5.1.3/src/lgc.c:493-497 | The metatable of a basic type changes without a barrier, in every phase. |
| GcUpvalues.FindUpvalKeepsInv | src/lua-5.1.3/src/lfunc.c:53-79 | There is one cell for each captured stack slot: an open upvalue of that level is found, and revived if condemned, or made; the list stays strictly descending and the ring has the same members; no object changes its contents. |
| GcUpvalues.CloseKeepsInv | src/lua-5.1.3/src/lfunc.c:96-112 | Closing detaches exactly the open upvalues at or above the level; the ones that remain in the heap hold the value that they read through the stack before, the freed ones were condemned, the rest of the list is as it was. |
| GcUpvalues.NewStringKeepsInv | src/lua-5.1.3/src/lstring.c:75-93 | A text has one string object: the old one is found, and revived if condemned, and a new one is made exactly if there was none. |
| GcUpvalues.InsertDescending | src/lua-5.1.3/src/lfunc.c:57-77 | Inserting an upvalue where the search for its level stopped keeps the list strictly descending. |
| GcCollector.Collector.MarkValue | src/lua-5.1.3/src/lgc.c:52-53 | Marking a value in place changes the heap and the gray list as the recursive marking function says; MarkValueMarks proves that exactly the white objects it reaches become well marked. |
| GcCollector.Collector.ReallyMark | src/lua-5.1.3/src/lgc.c:69-112 | In place: strings turn gray, userdata black with metatable and environment marked, closed upvalues black, traversable objects join the gray list once. |
| GcCollector.Collector.MarkAll | src/lua-5.1.3/src/lgc.c:158-196 | The marking loop over a run of values, in place, is the recursive marking of that run. |
| GcCollector.Collector.RemoveEntries | src/lua-5.1.3/src/lgc.c:183-194 | The loop over the nodes of a table tags the collectable keys of exactly the entries without value. |
| GcCollector.Collector.PropagateMark | src/lua-5.1.3/src/lgc.c:277-320 | One gray object is traversed in place; the resulting state is the one that PropagateMarkKeepsInv is about. |
| GcCollector.Collector.PropagateAll | src/lua-5.1.3/src/lgc.c:323-327 | The loop empties the gray list and ends in the state of the recursive propagation. |
| GcCollector.Collector.MarkRoot | src/lua-5.1.3/src/lgc.c:501-512 | In place: both gray lists are reset, main thread, globals, registry and basic metatables are marked, the phase is propagate. |
| GcCollector.Collector.RemarkUpvals | src/lua-5.1.3/src/lgc.c:515-522 | The loop over the ring marks the values of exactly the gray open upvalues. |
| GcCollector.Collector.Atomic | src/lua-5.1.3/src/lgc.c:525-553 | The three marking passes, the flip of the current white and the reset of both sweep cursors, in place; AtomicKeepsInv and FlipCondemnsWhites are about the result. |
| GcCollector.Collector.SweepWhole | src/lua-5.1.3/src/lgc.c:407-428 | The loop over a list frees and whitens in place as SweepWholeSweeps says, and returns what is left of the list. |
| GcCollector.Collector.SweepOpen | src/lua-5.1.3/src/lgc.c:412-413 | The sweep of the thread's open upvalues, in place; a freed one leaves the ring as well. |
| GcCollector.Collector.SweepNext | src/lua-5.1.3/src/lgc.c:411-426 | One turn of the sweep loop in place; SweepNextKeepsInv is about the result. |
| GcCollector.Collector.SweepList | src/lua-5.1.3/src/lgc.c:407-428 | At most the given number of objects is swept from where the sweep stopped. |
| GcCollector.Collector.ResizeStrings | src/lua-5.1.3/src/lstring.c:22-47 | The two loops rehang every string in place; ResizeStringsKeepsInv is about the result. |
| GcCollector.Collector.SingleStep | src/lua-5.1.3/src/lgc.c:556-607 | One step in place ends in the state of the step function, whose safety CollectorStepSafe and SingleStepKeepsInv prove, and keeps the invariant. |
| GcCollector.Collector.RunTo | src/lua-5.1.3/src/lgc.c:645-656 | The loops of a full collection end, in the phase asked for, with the invariant. |
| GcCollector.Collector.FullGc | src/lua-5.1.3/src/lgc.c:636-659 | A full collection in place; FullGcExact says which objects it leaves. |
| GcCollector.Collector.Link | src/lua-5.1.3/src/lgc.c:686-692 | Linking a new object in place, at the head of the list or behind the main thread. |
| GcCollector.Collector.Barrier | src/lua-5.1.3/src/lgc.c:662-672 | The forward barrier in place, with its white and black tests; BarrierKeepsInv is about the result. |
| GcCollector.Collector.BarrierBack | src/lua-5.1.3/src/lgc.c:675-683 | The backward barrier in place; BarrierBackKeepsInv is about the result. |
| GcCollector.Collector.FindUpval | src/lua-5.1.3/src/lfunc.c:53-79 | The search along the open list and the insertion into list and ring, in place; FindUpvalKeepsInv is about the result. |
| GcCollector.Collector.CloseTop | src/lua-5.1.3/src/lfunc.c:100-110 | The topmost open upvalue is freed if it is dead, and otherwise unlinked from the ring, closed and linked to the object list. |
| GcCollector.Collector.Close | src/lua-5.1.3/src/lfunc.c:96-112 | The loop over the open list ends in the state that CloseKeepsInv describes, with the invariant. |
| GcCollector.Collector.LinkUpval | src/lua-5.1.3/src/lgc.c:695-710 | A closed upvalue is linked in place: a gray one turns black with a barrier on its value while marking, white while sweeping. |
| GcCollector.Collector.NewString | src/lua-5.1.3/src/lstring.c:75-93 | The search along the bucket and the insertion at its head, in place; NewStringKeepsInv is about the result. |
| CodeGenTheorems.ValueInRegister | src/lua-5.1.3/src/lcode.c:390-411 | For every tree of `and`, `or`, `not`, comparisons, parentheses, constants, globals and locals, every state of the registers, wherever the code stands and whatever value a jump to its beginning has in tow: running the code falls off its end with what the tree yields in the next free register, and all registers below unchanged. What a tree yields (`CodeGenYield.Yield`) is defined by recursion on the tree, without code or jump lists. |
| CodeGenTheorems.ValueAtStart | src/lua-5.1.3/src/lcode.c:414-419 | The same at the start of a function, for every tree that fits the stack by its shape: the code is right exactly if the tree yields its value. |
| CodeGenTheorems.ValueWithoutDeadEnds | src/lua-5.1.3/src/lcode.c:542-587 | For every clean tree, a condition on the tree alone, the register holds the value of the tree in every state. |
| CodeGenTheorems.CleanDeadEnds | src/lua-5.1.3/src/lcode.c:542-587 | Where `x` is clean, so are `true or x`, `false and x` and `(y and false) and x` for a local `y`: no value is in tow where their jump is emitted. |
| CodeGenTheorems.ChainsAreNotClean | src/lua-5.1.3/src/lcode.c:542-587 | `((x or false) and true) or false` is not clean, and compared with true it makes a condition that is not. |
| CodeGenTheorems.FaithfulAtStart | src/lua-5.1.3/src/lcode.c:542-587 | A tree is clean exactly if the compiler, started on it, never emits a jump that is always taken while a jump to the current place has a value in tow. |
| CodeGenFaithful.FaithfulIff | src/lua-5.1.3/src/lcode.c:542-587 | The same wherever the code stands, with or without a value in tow at its beginning, for values and for conditions. |
| CodeGenYield.CleanIsRight | src/lua-5.1.3/src/lcode.c:539-591 | What a clean tree yields is its value, and for a condition has the truth of its value, in every state of the registers. |
| CodeGenTheorems.ConditionTakesRightBranch | src/lua-5.1.3/src/lparser.c:965-972 | For every tree used as a condition, and every state: control goes on if what the tree yields is true, and leaves by a jump on the false list if it is false, registers below the first free one unchanged either way. So the branch is right exactly if what the tree yields has the truth of its value. |
| CodeGenTheorems.ConditionWithoutDeadEnds | src/lua-5.1.3/src/lparser.c:965-972 | For every tree in which nothing that is compared can meet a value in tow, a condition on the tree alone, the branch is right in every state. |
| CodeGenTheorems.ConditionAtStart | src/lua-5.1.3/src/lparser.c:965-972 | The condition theorem at the start of a function, for every tree that fits the stack by its shape. |
| CodeGenTheorems.LiteralInChainIsWrong | src/lua-5.1.3/src/lcode.c:59-66 | The code for `((x or false) and true) or false` is right exactly if `x` is nil, false or true; any other value of `x` comes out itself where true is meant, because a jump that is always taken takes a pending value jump along. |
| CodeGenTheorems.ComparedChainIsWrong | src/lua-5.1.3/src/lcode.c:59-66 | As a condition, `(((x or false) and true) or false) == true` goes on exactly if `x` is true; the branch is right exactly if `x` is nil, false or true, and with 1 for `x` the wrong one is taken. |
| CodeGenCompile.CompileComputes | src/lua-5.1.3/src/lcode.c:718-789 | The induction over all trees: after compiling, the code is left as `Yield` says - at its end with that value, there by a pending jump with that value in tow, or by the true or the false list with what its test hands over - earlier exits stay exits, and kind, lists, constants and values in tow are what the shape of the tree says. |
| CodeGenStack.CompileRegs | src/lua-5.1.3/src/lcode.c:199-212 | The code of a tree gives back every register it takes, and never takes more than the shape of the tree says. |
| Vm.ExecPatched | src/lua-5.1.3/src/lcode.c:150-160 | Patching a set of open jumps turns the exits through them into arrivals at the targets, tests that hand over a value going to the value target and the others to the default target, and changes no other run. |
| CodeGenLists.ConcatLists | src/lua-5.1.3/src/lcode.c:185-196 | Concatenating two jump lists threaded through the code gives the list of the first followed by the second, and changes only jumps of the first. |
| CodeGenLists.PatchListIs | src/lua-5.1.3/src/lcode.c:150-160 | Walking a list while patching it gives every jump of the list its target and its test its register, and nothing else. |
| CodeGenLists.RemoveAllIs | src/lua-5.1.3/src/lcode.c:144-147 | Removing values makes a plain test of every value test in front of a jump of the list, and changes nothing else. |
| CodeGenLists.NeedValueIs | src/lua-5.1.3/src/lcode.c:122-128 | A value is needed exactly if some jump of the list is not controlled by a test that hands over a value. |
| CodeGenValues.LoadGood | src/lua-5.1.3/src/lcode.c:343-379 | Discharging an expression to a register puts its value there, keeps lists, exits and lower registers, and lets go of what was in tow unless it emits nothing. |
| CodeGenValues.NilGood | src/lua-5.1.3/src/lcode.c:35-56 | Loading nil is right also where the load is left out at the function start or merged into the load in front of it. |
| CodeGenClose.CloseListsGood | src/lua-5.1.3/src/lcode.c:390-411 | Whichever way control has left the expression, the code that closes the lists delivers: the value at its end, the value that the jump has in tow, or the boolean of the list; jumps that wait behind keep theirs. |
| CodeGenRegs.Exp2RegGood | src/lua-5.1.3/src/lcode.c:390-411 | After `exp2reg` what the expression delivers is in the register for every kind, both lists are empty, and no register is reserved. |
| CodeGenRegs.JumpAsFalse | src/lua-5.1.3/src/lcode.c:392-393 | The pending jump of a comparison may join the true list: what falls through is then false. |
| CodeGenOperands.Exp2NextRegGood | src/lua-5.1.3/src/lcode.c:414-419 | What the expression delivers goes to the first free register, which is then reserved. |
| CodeGenOperands.Exp2AnyRegGood | src/lua-5.1.3/src/lcode.c:422-433 | What the expression delivers is in some register, nothing is pending on the lists, and a value stays in tow exactly if the expression was found in its register. |
| CodeGenOperands.Exp2ValGood | src/lua-5.1.3/src/lcode.c:436-441 | Nothing is pending on the lists afterwards, and the kind says where the value that is delivered is. |
| CodeGenOperands.Exp2RKGood | src/lua-5.1.3/src/lcode.c:444-469 | The operand of a comparison is a register or a constant that holds what the expression delivers; a value stays in tow exactly if nothing is emitted for the operand. |
| CodeGenCond.AlwaysForks | src/lua-5.1.3/src/lcode.c:547-550 | For a literal of the other truth, everything that arrives leaves by the jump that is always taken, pending jumps with the values that they have in tow included. |
| CodeGenCond.JoinTrue | src/lua-5.1.3/src/lcode.c:561-563 | With the jump hung on the false list and the true list patched to here, control is here exactly if it fell through or left for true, values in tow included, and all else leaves by the false list. |
| CodeGenCond.JoinFalse | src/lua-5.1.3/src/lcode.c:588-590 | The same for the true list, with the false list patched to here. |
| CodeGenTests.InvertedForks | src/lua-5.1.3/src/lcode.c:516-521 | Inverting a comparison makes its jump the exit for false, with nothing in tow. |
| CodeGenTests.StraightForks | src/lua-5.1.3/src/lcode.c:579-582 | Left as it is, the jump of a comparison is the exit for true, with nothing in tow. |
| CodeGenBranch.JumpOnCondForks | src/lua-5.1.3/src/lcode.c:524-536 | The emitted test and jump leave exactly if the value has the given truth; the value is in tow unless a pending NOT was taken back and its operand tested. |
| CodeGenBranch.GoIfTrueBranch | src/lua-5.1.3/src/lcode.c:539-564 | For every kind of expression: control goes on for what is true - without code for literals, and with what it had in tow - and all else leaves by the false list with what its test hands over; a literal false sends away all that arrives. |
| CodeGenBranch.GoIfFalseBranch | src/lua-5.1.3/src/lcode.c:567-591 | The same for what is false, with the true list; here nil and false need no code, and a literal true sends away all that arrives. |
| CodeGenNot.CodeNotGood | src/lua-5.1.3/src/lcode.c:594-626 | Negation yields the boolean opposite of the truth of the operand for every kind, by constant, by inverted comparison or by instruction, with lists exchanged and stripped of values; a literal keeps what waits in tow. |
| CodeGenFuncState.FuncState.NeedValue | src/lua-5.1.3/src/lcode.c:122-128 | The walk along the list computes the test of NeedValueIs. |
| CodeGenFuncState.FuncState.PatchTestReg | src/lua-5.1.3/src/lcode.c:131-141 | The value test in front of the jump gets its register, or becomes a plain test; every other instruction stays. |
| CodeGenFuncState.FuncState.RemoveValues | src/lua-5.1.3/src/lcode.c:144-147 | The walk changes the code as RemoveAllIs says. |
| CodeGenFuncState.FuncState.PatchListAux | src/lua-5.1.3/src/lcode.c:150-160 | The walk, which rewrites the links it follows, changes the code as PatchListIs says. |
| CodeGenFuncState.FuncState.Concat | src/lua-5.1.3/src/lcode.c:185-196 | The walk to the end of the first list and the fix of its last jump, in place; ConcatLists says what list that is. |
| CodeGenFuncState.FuncState.DischargeJpc | src/lua-5.1.3/src/lcode.c:163-166 | The pending jumps get the current place as target, and none is pending any more. |
| CodeGenFuncState.FuncState.PatchToHere | src/lua-5.1.3/src/lcode.c:179-182 | The list joins the pending jumps, and the place becomes a jump target. |
| CodeGenFuncState.FuncState.Code | src/lua-5.1.3/src/lcode.c:797-809 | One instruction is appended after the pending jumps have been settled. |
| CodeGenFuncState.FuncState.Jump | src/lua-5.1.3/src/lcode.c:59-66 | A jump is appended; jumps that were pending are not settled but hung behind the new one. |
| CodeGenFuncState.FuncState.CondJump | src/lua-5.1.3/src/lcode.c:74-77 | A test and its jump are appended. |
| CodeGenFuncState.FuncState.AddK | src/lua-5.1.3/src/lcode.c:229-247 | The constant is at the place returned; an old one is used again, and no other constant moves. |
| CodeGenFuncState.FuncState.Nil | src/lua-5.1.3/src/lcode.c:35-56 | The load of nil is emitted, left out or merged exactly in the cases that NilGood covers. |
| CodeGenFuncState.FuncState.DischargeVars | src/lua-5.1.3/src/lcode.c:304-334 | A local becomes its register, a global a fetch that waits for a register. |
| CodeGenFuncState.FuncState.Discharge2Reg | src/lua-5.1.3/src/lcode.c:343-379 | Code and expression change as LoadGood says. |
| CodeGenFuncState.FuncState.Discharge2AnyReg | src/lua-5.1.3/src/lcode.c:382-387 | An expression that is not in a register gets the next one. |
| CodeGenFuncState.FuncState.Exp2Reg | src/lua-5.1.3/src/lcode.c:390-411 | Code and expression change as Exp2RegGood says, with the two boolean loads only if a value is needed. |
| CodeGenFuncState.FuncState.Exp2NextReg | src/lua-5.1.3/src/lcode.c:414-419 | Code, registers and expression change as Exp2NextRegGood says. |
| CodeGenFuncState.FuncState.Exp2AnyReg | src/lua-5.1.3/src/lcode.c:422-433 | Code, registers and expression change as Exp2AnyRegGood says. |
| CodeGenFuncState.FuncState.Exp2Val | src/lua-5.1.3/src/lcode.c:436-441 | Code, registers and expression change as Exp2ValGood says. |
| CodeGenFuncState.FuncState.Exp2RK | src/lua-5.1.3/src/lcode.c:444-469 | The operand returned is the register or constant of Exp2RKGood. |
| CodeGenFuncState.FuncState.InvertJump | src/lua-5.1.3/src/lcode.c:516-521 | The condition of the comparison in front of the jump is negated. |
| CodeGenFuncState.FuncState.JumpOnCond | src/lua-5.1.3/src/lcode.c:524-536 | Code changes as JumpOnCondForks says; the jump returned is a list of one. |
| CodeGenFuncState.FuncState.GoIfTrue | src/lua-5.1.3/src/lcode.c:539-564 | Code and lists change as GoIfTrueBranch says. |
| CodeGenFuncState.FuncState.GoIfFalse | src/lua-5.1.3/src/lcode.c:567-591 | Code and lists change as GoIfFalseBranch says. |
| CodeGenFuncState.FuncState.CodeNot | src/lua-5.1.3/src/lcode.c:594-626 | Code and lists change as CodeNotGood says. |
| CodeGenFuncState.FuncState.CodeComp | src/lua-5.1.3/src/lcode.c:681-694 | A comparison and its jump are emitted with the operands exchanged for > and >=, and the registers of the operands freed. |
| TableGrow.SetStores | src/lua-5.1.3/src/ltable.c:494-505 | After a store the key reads the new value and every other key what it read before, whether the key was there, a colliding node moved, or a rehash moved keys between the two parts; the table invariant holds. |
| TableInsert.PlaceKeyKeepsInv | src/lua-5.1.3/src/ltable.c:399-429 | Placing a new key keeps the scatter table: chains are acyclic with one predecessor at most, the main position of a stored key holds a key at home there whose chain leads to the key, keys are distinct, nodes from the cursor on are taken. |
| TableSet.PlaceKeyAdds | src/lua-5.1.3/src/ltable.c:399-429 | Placing a new key changes no value of another key and takes one free node at most; without a free node there was no room. |
| TableSet.PutStores | src/lua-5.1.3/src/ltable.c:494-505 | Where there is room, a store needs no rehash, and uses up one place at most. |
| TableGrow.ResizeKeepsMap | src/lua-5.1.3/src/ltable.c:297-324 | Resizing with a hash part large enough for what moves there re-inserts every entry where it belongs and keeps the map. |
| TableShrink.ResizeInPlaceIff | src/lua-5.1.3/src/ltable.c:297-330 | Resizing to any sizes, with the slots that the array part loses read from its own block: every slot is moved and the map kept if and only if no lost slot disturbs it, that is, no slot with a value is due when the nodes are all taken and the keys up to then deserve another size of the array part (counts of the array alone decide this). Otherwise the first such slot is read from a block that a nested rehash has reallocated, and neither it nor any slot behind it has a value afterwards. A rehash for the old hash part does no harm. |
| TableShrink.FewAreUndisturbed | src/lua-5.1.3/src/ltable.c:306-315 | A hash part with a node for every value that the array part loses is enough, and so is a growing array part: the condition of ResizeInPlaceIff holds. |
| TableShrink.ShrinkLoses | src/lua-5.1.3/src/ltable.c:306-315 | The failing case: without a hash part, resizing a used array part to 0 slots fails at its first slot. The rehash for key 1 leaves a block of one slot, and no key from 1 up has a value any more. |
| TableShrink.ResizeWithRoom | src/lua-5.1.3/src/ltable.c:297-349 | Where there is room for all that moves, as in every resize that a rehash asks for, resizing in place is storing the entries one after the other: no slot is lost. |
| TableGrow.RehashMakesRoom | src/lua-5.1.3/src/ltable.c:333-349 | A rehash keeps the map and leaves room for the key that asked for it, so that one insertion needs one rehash at most. |
| TableGrow.MovingCount | src/lua-5.1.3/src/ltable.c:333-349 | The size computed for the new hash part is the number of entries that move there, with the new key if it goes there too. |
| TableCounts.BestSizeIs | src/lua-5.1.3/src/ltable.c:189-208 | The size chosen for the array part is the largest power of two with more than half of its slots in use, or 0 if there is none. |
| TableCounts.ComputeSizes | src/lua-5.1.3/src/ltable.c:189-208 | From the slices, the loop with its early exit finds that size, and exactly how many integer keys lie within it. |
| TableCounts.SliceOne | src/lua-5.1.3/src/ltable.c:211-219 | An integer key counts in the slice of the logarithm of its size, and in no other. |
| TableCounts.ComputeLog2 | src/lua-5.1.3/src/lobject.c:54-69 | The loop over bytes and the table lookup give the binary logarithm, -1 for 0. |
| TableCounts.LogTableIs | src/lua-5.1.3/src/lobject.c:55-64 | Each of the 256 entries of the table is one more than the binary logarithm of its place. |
| TableNext.TraversalComplete | src/lua-5.1.3/src/ltable.c:162-179 | A traversal in which fields are assigned to, nil included, and none is added, visits every key that keeps a value exactly once, visits only keys that have a value, and stops. |
| TableNext.NextStep | src/lua-5.1.3/src/ltable.c:162-179 | One call gives the first entry with a value behind the key, and the end exactly if there is none; it is never in error for a key of the table, even one whose value is gone. |
| TableNext.IndexOfPlace | src/lua-5.1.3/src/ltable.c:137-159 | The key of a place is found at that place, and the map has there the value of the place. |
| TableNext.PlaceOfIndex | src/lua-5.1.3/src/ltable.c:137-159 | The place that is found for a key holds that key. |
| TableNext.TraversalOrder | src/lua-5.1.3/src/ltable.c:162-179 | Keys come in the order of their places. |
| TableNext.AssignKeepsKeys | src/lua-5.1.3/src/ltable.c:494-505 | Assigning to a field that is there moves no key. |
| TableClass.LuaTable.constructor | src/lua-5.1.3/src/ltable.c:358-371 | A new table of the given sizes satisfies the invariant, and no key has a value. |
| TableClass.LuaTable.Search | src/lua-5.1.3/src/ltable.c:469-491 | The walk along the chain of a key finds its node exactly if it is stored. |
| TableClass.LuaTable.GetNum | src/lua-5.1.3/src/ltable.c:435-449 | The value of an integer key, from the array part or the hash part. |
| TableClass.LuaTable.Get | src/lua-5.1.3/src/ltable.c:469-491 | The value of a key in the abstract map. |
| TableClass.LuaTable.GetFreePos | src/lua-5.1.3/src/ltable.c:382-388 | The cursor moves down to the next free node, or past the front if there is none. |
| TableClass.LuaTable.FindPrevious | src/lua-5.1.3/src/ltable.c:409-412 | The walk from the colliding node's own main position stops at the node in front of it. |
| TableClass.LuaTable.MoveNode | src/lua-5.1.3/src/ltable.c:410-417 | The colliding node moves to the free place with its chain, and its predecessor leads there. |
| TableClass.LuaTable.PlaceNew | src/lua-5.1.3/src/ltable.c:399-429 | A new key is placed in place as PlaceKeyKeepsInv and PlaceKeyAdds say, or there is no free node. |
| TableClass.LuaTable.NewKey | src/lua-5.1.3/src/ltable.c:399-429 | A slot for the key, after at most one rehash; assigning to it is the store that SetStores is about. |
| TableClass.LuaTable.SetSlot | src/lua-5.1.3/src/ltable.c:494-505 | The slot of the key, made if it is not there; the recursion through rehash and resize ends. |
| TableClass.LuaTable.Set | src/lua-5.1.3/src/ltable.c:494-505 | The key reads back the value, and every other key reads as before. |
| TableClass.LuaTable.SetNodeVector | src/lua-5.1.3/src/ltable.c:272-294 | A fresh hash part of the next power of two, all nodes free, the cursor at its end; size 0 shares the dummy node. |
| TableClass.LuaTable.CountInt | src/lua-5.1.3/src/ltable.c:211-219 | A key adds one to its slice if it is an integer in range, and nothing otherwise. |
| TableClass.LuaTable.NumUseArray | src/lua-5.1.3/src/ltable.c:222-244 | The nested loops count the used slots of the array part slice by slice. |
| TableClass.LuaTable.NumUseHash | src/lua-5.1.3/src/ltable.c:247-260 | The loop counts the used nodes, and the integer keys among them slice by slice. |
| TableClass.LuaTable.Rehash | src/lua-5.1.3/src/ltable.c:333-349 | Counting and resizing in place; RehashMakesRoom is about the result. |
| TableClass.LuaTable.Resize | src/lua-5.1.3/src/ltable.c:297-324 | Both re-insertion loops in place, on the block of the array part; ResizeInPlaceIff and ResizeKeepsMap are about the result. |
| TableClass.LuaTable.ResizeArray | src/lua-5.1.3/src/ltable.c:327-330 | Under the exact condition of ResizeInPlaceIff, which every growth meets, every key keeps its value; the array part has the new size if it grows or the hash part has room for what must move there. |
| TableClass.LuaTable.ReinsertSlice | src/lua-5.1.3/src/ltable.c:306-313 | The loop over the lost slots reads each value from the block as it is after a place for it was found. |
| TableClass.LuaTable.ReinsertNodes | src/lua-5.1.3/src/ltable.c:317-321 | The loop over the old nodes, from the last one down, with a rehash where there is no room. |
| TableClass.LuaTable.FindIndex | src/lua-5.1.3/src/ltable.c:137-159 | The place of a key in the order of traversal, which IndexOfPlace inverts. |
| TableClass.LuaTable.Next | src/lua-5.1.3/src/ltable.c:162-179 | The next entry of a traversal, which NextStep describes. |
| TableClass.LuaTable.GetN | src/lua-5.1.3/src/ltable.c:560-576 | The result is a border for every table, holes included: 0 or an index with a value, and no value behind it. |
| TableClass.LuaTable.UnboundSearch | src/lua-5.1.3/src/ltable.c:532-553 | Doubling, then halving, or a linear search if the doubling overflows, end at a border. |
| TableClass.LuaTable.SearchArray | src/lua-5.1.3/src/ltable.c:562-570 | The binary search in an array part that ends in nil ends at a border. |
| PatternMatcher.MatcherIsSoundAndComplete | src/lua-5.1.3/src/lstrlib.c:364-439 | For every subject and well-formed pattern: no error; failure exactly if no match exists in the declarative relation; what is found is such a match with the captures made; a failed attempt leaves the captures as they were. |
| Patterns.OutsAreMatches | src/lua-5.1.3/src/lstrlib.c:364-439 | The list of matches in the order of preference has exactly the matches of the declarative relation, in which a balanced stretch is one defined by counts. |
| PatternClasses.ClassHas | src/lua-5.1.3/src/lstrlib.c:225-241 | Each of the ten class letters has exactly its characters, listed one by one or by code. |
| PatternClasses.CapitalIsComplement | src/lua-5.1.3/src/lstrlib.c:240-240 | The capital letter of a class has exactly the characters that the class does not have. |
| PatternClasses.OthersAreThemselves | src/lua-5.1.3/src/lstrlib.c:238-238 | Any other character behind `%` stands for itself and nothing else. |
| PatternClasses.TextIsRead | src/lua-5.1.3/src/lstrlib.c:245-267 | The text of a set, written member by member so that the members can be told apart, is read as exactly these members. |
| PatternClasses.ReadIsText | src/lua-5.1.3/src/lstrlib.c:245-267 | And every set is read as members that can be told apart and are written like its text. |
| PatternClasses.RangePattern | src/lua-5.1.3/src/lstrlib.c:256-260 | The pattern `[lo-hi]` is one item that has exactly the characters from lo to hi. |
| PatternClasses.NotRangePattern | src/lua-5.1.3/src/lstrlib.c:246-249 | The pattern `[^lo-hi]` has exactly the others. |
| Patterns.BalanceIs | src/lua-5.1.3/src/lstrlib.c:280-297 | A stretch is balanced if it begins with the one and ends with the other character, has as many of both, and every proper beginning has more of the first; if both are the same, the next one closes it. `matchbalance` returns the end of the balanced stretch, and fails exactly if there is none. |
| Patterns.BalanceIsShortest | src/lua-5.1.3/src/lstrlib.c:280-297 | No shorter stretch from there has as many of both characters. |
| PatternDecode.WellFormedMatches | src/lua-5.1.3/src/lstrlib.c:185-198 | Matching a pattern with closed captures, valid references and no malformed item raises no error on any subject. |
| PatternDecode.GreedyTakesLongest | src/lua-5.1.3/src/lstrlib.c:300-312 | The greedy suffixes take the longest run after which the rest matches. |
| PatternDecode.LazyTakesShortest | src/lua-5.1.3/src/lstrlib.c:315-325 | The lazy suffix takes the shortest run after which the rest matches. |
| PatternMatcher.MatchState.ClassEnd | src/lua-5.1.3/src/lstrlib.c:201-222 | The end of a single class, with the two errors for a pattern that ends inside it. |
| PatternMatcher.MatchState.MatchBracketClass | src/lua-5.1.3/src/lstrlib.c:244-264 | The loop over the members of a bracket class decides membership in the class, negation, ranges and escapes included. |
| PatternMatcher.MatchState.SingleMatch | src/lua-5.1.3/src/lstrlib.c:267-274 | A character fits a single class exactly if it is in the class that the pattern text denotes. |
| PatternMatcher.MatchState.MatchBalance | src/lua-5.1.3/src/lstrlib.c:280-297 | The loop returns the one end of a balanced stretch, and -1 exactly if no stretch from there is balanced. |
| PatternMatcher.MatchState.CaptureToClose | src/lua-5.1.3/src/lstrlib.c:193-198 | The last open capture, or none. |
| PatternMatcher.MatchState.CheckCapture | src/lua-5.1.3/src/lstrlib.c:185-190 | The index of a capture that is closed, or none. |
| PatternMatcher.MatchState.MaxExpand | src/lua-5.1.3/src/lstrlib.c:300-312 | Counting up and trying downwards finds the first of the greedy matches. |
| PatternMatcher.MatchState.MinExpand | src/lua-5.1.3/src/lstrlib.c:315-325 | Trying at once and then after more characters finds the first of the lazy matches. |
| PatternMatcher.MatchState.StartCapture | src/lua-5.1.3/src/lstrlib.c:328-339 | The capture is pushed for the rest of the match, and taken back if the rest fails. |
| PatternMatcher.MatchState.EndCapture | src/lua-5.1.3/src/lstrlib.c:342-350 | The capture is closed for the rest of the match, and open again if the rest fails. |
| PatternMatcher.MatchState.MatchCapture | src/lua-5.1.3/src/lstrlib.c:353-361 | The end of a repetition of the captured text, or none. |
| PatternMatcher.MatchState.Match | src/lua-5.1.3/src/lstrlib.c:364-439 | The mutual recursion with in-place captures gives the first match of the list that OutsAreMatches describes, fails exactly if the list is empty, and restores the captures when it fails. |
| PatternMatcher.MatchState.FindFrom | src/lua-5.1.3/src/lstrlib.c:511-531 | The search returns the first place that has a match and the first match there; an anchored pattern is tried at one place only. |
| ParserExpr.SubExprInvertsFlatten | src/lua-5.1.3/src/lparser.c:828-853 | Parsing the tokens of any tree that respects the priority table rebuilds the tree, in front of any tokens that cannot continue it. |
| ParserExpr.SubExprSound | src/lua-5.1.3/src/lparser.c:828-853 | Whatever is parsed is a tree that respects the priorities, its tokens are those that were read, and the operator that is left has no left priority above the limit. |
| ParserExpr.ReadBackIff | src/lua-5.1.3/src/lparser.c:810-817 | A tree is read back from its own tokens exactly if it respects the priorities. |
| ParserGrammar.ReadsTheGrammar | src/lua-5.1.3/src/lparser.c:810-818 | The priority table is the precedence of section 2.5.6 of the Lua 5.1 Reference Manual: the trees that are read back from their own tokens are exactly the derivation trees of a grammar with one level for each of or, and, comparison, `..`, additive, multiplicative, unary and `^`, which is stated without the table. |
| ParserGrammar.ReadsOnlyTheGrammar | src/lua-5.1.3/src/lparser.c:828-853 | Whatever is parsed is a tree of this grammar, and has exactly the tokens that were read. |
| ParserGrammar.Levels | src/lua-5.1.3/src/lparser.c:810-821 | Each level of the grammar is the trees that respect the priorities and have an outermost operator of at least the level's priority. |
| ParserGrammar.TwoOperators | src/lua-5.1.3/src/lparser.c:813-818 | For every pair of binary operators, `x op1 y op2 z` groups to the left exactly if op1 ranks higher in the table of the manual, or ranks the same and is not `..` or `^`. |
| ParserGrammar.UnaryAndBinary | src/lua-5.1.3/src/lparser.c:821-836 | For every unary and binary operator, `u x op y` is `(u x) op y`, unless op is `^`. |
| ParserGrammar.BinaryAndUnary | src/lua-5.1.3/src/lparser.c:821-836 | `x op u y` is `x op (u y)` for every pair of operators. |
| ParserClass.Parser.SubExpr | src/lua-5.1.3/src/lparser.c:828-853 | The loop, consuming tokens, returns the tree of the recursive reading and the operator that was not treated. |
| ParserClass.Parser.SimpleExp | src/lua-5.1.3/src/lparser.c:727-775 | An atom or a parenthesised expression is consumed, anything else is a syntax error. |
| TableSorter.Sorter.AuxSort | src/lua-5.1.3/src/ltablib.c:185-246 | For every strict weak order: the stretch ends sorted and is a rearrangement of what it was, nothing else changes, the order function is never found invalid, and calls nest no deeper than the binary logarithm of the length plus one. |
| TableSorter.Sorter.Sort | src/lua-5.1.3/src/ltablib.c:248-256 | The elements 1 to n end sorted, and are the same multiset. |
| TableSorter.Sorter.Partition | src/lua-5.1.3/src/ltablib.c:214-232 | The two searches stop inside the stretch and divide it at the pivot. |
| TableSorter.Sorter.Arrange | src/lua-5.1.3/src/ltablib.c:188-236 | After the median of three and the partition the pivot is in its final place, and two or three elements are sorted already. |
| TableSorter.Sorter.SearchUp | src/lua-5.1.3/src/ltablib.c:217-221 | Going up ends at an element that is not less, without running over the end. |
| TableSorter.Sorter.SearchDown | src/lua-5.1.3/src/ltablib.c:222-226 | Going down ends at an element that is not greater, without running over the end. |
| TableSort.DepthOfHalf | src/lua-5.1.3/src/ltablib.c:237-245 | Recursion on the smaller part only adds one level to a stretch at most half as long. |
| Quoted.ReadUndoesQuote | src/lua-5.1.3/src/lstrlib.c:695-722 | For every string, with any mix of zeros, quotes, backslashes, CR and LF: lexing its quoted form gives back the string, stops right behind the closing quote, and counts one line for each LF. |
| Quoted.AddQuoted | src/lua-5.1.3/src/lstrlib.c:695-722 | The loop into the buffer produces the quoted form. |
| Quoted.ReadsChar | src/lua-5.1.3/src/llex.c:276-329 | What stands for one byte is read as that byte, whatever follows in the quoted form. |
| QuotedEscapes.ReadsWhatIsSpelled | src/lua-5.1.3/src/llex.c:276-329 | For every text, not only quoted forms: it is read as the string s if and only if it spells s up to the closing delimiter. Spelling is stated on its own: the seven letters with their codes, one to three decimal digits with their value, the four ways to write a line end, any other character behind a backslash as itself, and plain characters. |
| QuotedEscapes.FailsWhere | src/lua-5.1.3/src/llex.c:276-329 | Reading fails as unfinished exactly if what is spelled ends at the end of the text or of the line, and as too large exactly if it ends at a decimal escape above 255. |
| QuotedEscapes.LineEndIs | src/lua-5.1.3/src/llex.c:127-135 | What is skipped as one line end is one of the four ways to write it, the longer one where it can be. |
| QuotedLexer.LexState.ReadString | src/lua-5.1.3/src/llex.c:276-329 | The loop with its buffer and line count reads what is spelled (ReadsWhatIsSpelled), exactly as the recursive reading reads, all escapes, line ends and the two errors for an unfinished string and a too large escape included. |
| QuotedLexer.LexState.IncLineNumber | src/lua-5.1.3/src/llex.c:127-135 | CR LF and LF CR count as one line end, the same character twice as two. |
| ChunkRoundTrip.UndumpUndoesDump | src/lua-5.1.3/src/lundump.c:193-207 | Loading a dumped prototype tree gives back the same tree, sources left out because they equal the parent's included, and reads exactly the bytes that were written, whatever follows them. |
| CodeRuns.UndumpStripped | src/lua-5.1.3/src/ldump.c:111-127 | Loading a stripped dump of any tree that passes the checker gives the tree without line information, local and upvalue names, and with the unknown source throughout. |
| CodeRuns.StrippedIsAccepted | src/lua-5.1.3/src/ldebug.c:276-286 | A tree of functions that passes the checker still passes it when it has been stripped. |
| ChunkRoundTrip.FunctionBack | src/lua-5.1.3/src/lundump.c:162-179 | The same for a function anywhere in the tree, for any pair of parent sources that agree where a source was left out. |
| ChunkRoundTrip.ConstsBack | src/lua-5.1.3/src/ldump.c:80-104 | The four kinds of constants come back. |
| ChunkRoundTrip.DebugBack | src/lua-5.1.3/src/ldump.c:111-127 | The debug information that was kept comes back. |
| Chunks.WordRoundTrip | src/lua-5.1.3/src/ldump.c:45-48 | Four bytes hold a word, modulo 2^32. |
| ChunkFormat.HeaderBytes | src/lua-5.1.3/src/lundump.c:212-225 | The twelve bytes that every chunk begins with, one by one. |
| ChunkFormat.UnknownSource | src/lua-5.1.3/src/lundump.c:206-206 | A function without a source in the chunk gets `=?` for one. |
| ChunkFormat.HeadFields | src/lua-5.1.3/src/ldump.c:129-137 | Where the fields of a function and the words of its code are. |
| ChunkFormat.ConstBytes | src/lua-5.1.3/src/ldump.c:80-104 | The type byte and the contents of each kind of constant. |
| ChunkFormat.NameBytes | src/lua-5.1.3/src/ldump.c:61-74 | A string is its size with the zero, its characters and the zero; no string is a size of 0. |
| ChunkStreams.Dumper.Dump | src/lua-5.1.3/src/ldump.c:153-164 | The writer is handed the chunk, block by block, if it takes every block, and otherwise a beginning of the chunk. |
| ChunkStreams.Dumper.DumpFunction | src/lua-5.1.3/src/ldump.c:129-141 | A function is written in place behind what was written, nested ones included; nothing is written once a block has been refused. |
| ChunkStreams.Dumper.DumpConstants | src/lua-5.1.3/src/ldump.c:80-109 | The loops write all constants and then all nested functions. |
| ChunkStreams.Dumper.DumpDebug | src/lua-5.1.3/src/ldump.c:111-127 | The loops write the debug information, or three zero counts. |
| ChunkStreams.Dumper.DumpBlock | src/lua-5.1.3/src/ldump.c:29-37 | A block is handed over exactly if none has been refused, and the status becomes the writer's. |
| ChunkStreams.Loader.Undump | src/lua-5.1.3/src/lundump.c:193-207 | Consuming the stream gives the prototype of the recursive reading, or the first error. |
| ChunkStreams.Loader.LoadFunction | src/lua-5.1.3/src/lundump.c:162-179 | A function is consumed with all nested ones, and the checker is asked about each. |
| ChunkStreams.Loader.LoadConstants | src/lua-5.1.3/src/lundump.c:101-131 | The loop consumes the constants; an unknown type is an error. |
| ChunkStreams.Loader.LoadNested | src/lua-5.1.3/src/lundump.c:132-135 | The loop consumes the nested functions. |
| ChunkStreams.Loader.LoadDebug | src/lua-5.1.3/src/lundump.c:138-160 | The loops consume the debug information. |
| ChunkStreams.Loader.LoadString | src/lua-5.1.3/src/lundump.c:77-89 | Size 0 is no string; otherwise the last byte is dropped. |
| CodeChecker.SymbExec | src/lua-5.1.3/src/ldebug.c:317-459 | For any register and any last position: if every instruction on the way passes its checks, the result is the last one on the way that changes the register, or the final RETURN if none does; otherwise it is 0. Tracing a register, the way follows forward jumps that do not skip the last position and leaves out the words behind a CLOSURE. |
| CodeChecker.CheckWhole | src/lua-5.1.3/src/ldebug.c:468-470 | The code is accepted exactly if every check succeeds at every position but the counts of SETLISTs; the word of the last change is never 0. |
| CodeExact.AcceptedIff | src/lua-5.1.3/src/ldebug.c:276-457 | Exactly which code is accepted, said without the checks: the header is right, and at every instruction that is visited everything the interpreter looks at exists, jumps land, tests have their jump, open results go to an instruction that takes them, unused fields are 0, and three rules of single instructions hold. |
| CodeExact.ChangesIff | src/lua-5.1.3/src/ldebug.c:366-445 | Which registers the tracing counts as changed by an instruction. |
| Bytecode.FieldsOfABC | src/lua-5.1.3/src/lopcodes.h:80-107 | An instruction is taken apart into the operation and the operands that it was made of. |
| Bytecode.FieldsOfABx | src/lua-5.1.3/src/lopcodes.h:96-112 | The same for the formats with one large operand, signed or not. |
| CodeSafety.AcceptedIsUsable | src/lua-5.1.3/src/ldebug.c:304-314 | At every instruction of accepted code, everything the interpreter looks at exists: registers, constants (strings where names are meant), upvalues, nested functions, the words that follow, the captures of a closure. |
| CodeSafety.StaysInsideIff | src/lua-5.1.3/src/ldebug.c:328-457 | Accepted code is closed under steps of the interpreter exactly if no extended SETLIST has the last word as its count and no LOADBOOL skips an extended SETLIST. |
| CodeSafety.TakesResultsIff | src/lua-5.1.3/src/ldebug.c:290-301 | A result list that is left open is always taken by the next instruction exactly if no tail call asks for a fixed number of results in front of an instruction that takes none. |
| CodeInterpreter.Interpreter.Turn | src/lua-5.1.3/src/lvm.c:385-762 | One turn of the loop with its jumps written as the interpreter writes them: on usable code it looks at nothing that does not exist, and it goes where `Next` says. |
| CodeInterpreter.NextIff | src/lua-5.1.3/src/lvm.c:537-750 | The step relation of the runs has exactly the two outcomes of an instruction's test. |
| CodeRuns.RunIsSafe | src/lua-5.1.3/src/lvm.c:385-762 | In every run of such code from its first instruction, each instruction finds all that it needs, and the run goes on unless it returns. |
| CodeRuns.RunWithoutExtendedIsSafe | src/lua-5.1.3/src/ldebug.c:328-457 | So it is for all accepted code without extended SETLIST. |
| CodeRuns.RunTakesResults | src/lua-5.1.3/src/lvm.c:401-401 | In such runs an open result list is taken by the instruction behind it. |
| CodeRuns.AcceptedButUnsafe | src/lua-5.1.3/src/ldebug.c:365-368 | A function of four words that the checker accepts, and whose first instruction leads to a count, which then runs as a load of a missing constant. |
| CodeRuns.LoadedIsAccepted | src/lua-5.1.3/src/lundump.c:176-177 | What the loader returns has passed the checker, together with all that it encloses. |
| CodeRuns.LoadedIsSafe | src/lua-5.1.3/src/lundump.c:193-207 | Every function of a chunk that loads, at any depth, is safe to run if it has no extended SETLIST. |

## Left out

- Weak tables, finalizers, and threads other than the main one: the collector model treats every table as strong and no userdata has a `__gc` field.
- GcRuns.StepSafe: the registry slot is fixed after start-up, because it is marked once in a cycle and replacing it in the middle of one has no barrier; a store and its barrier are one action.
- The collector's pacing and accounting (`luaC_step`, thresholds, estimates, `checkstacksizes`), and the order in which the slots of one object are marked.
- Prototypes and C closures have the references of their fields in one sequence; the fields are not told apart.
- CodeGenTheorems.ValueInRegister: fewer than 250 registers are in use; the errors for too many registers, constants or too long jumps are not modelled.
- Arithmetic, concatenation, indexing, calls, upvalues and constant folding in the expression compiler: they add kinds of operands, not ways of control.
- Numbers are integers in the compiler and abstract elsewhere: no NaN, no negative zero, no conversion between strings and numbers.
- TableClass.LuaTable.ResizeArray: nothing is promised for a size that takes slots away and is disturbed by a rehash on the way (`Undisturbed` is exact by `TableShrink.ResizeInPlaceIff`); the code then reads a block that it has given to the allocator (src/lua-5.1.3/src/ltable.c:306-314), and its one caller, src/lua-5.1.3/src/lvm.c:706-707, only grows. The array part has at most 2^26 slots, and the error "table overflow" is not modelled.
- The nil key and the NaN key of a store raise errors in the code and are excluded; dead keys that a collection leaves in a table are part of the collector model, not of the table model.
- `luaH_setnum` and `luaH_setstr` are `luaH_set` without its tests for the kind of the key.
- PatternMatcher.MatchState.Match: the limit on nested C calls is not modelled; neither are `gsub`, `gmatch`, the plain search and the conversion of captures to values.
- ParserExpr.SubExprSound: the other simple expressions (constants, constructors, functions, calls) are one kind of atom, and the limit on nesting is not modelled.
- The order function of `table.sort` is pure and a strict weak order; one that is not, or that raises errors, is not modelled.
- ChunkRoundTrip.UndumpUndoesDump: sizes are those of the DS build, the eight bytes of a number are not interpreted, and a string constant of size 0, which no dump contains, is an error here.
- CodeChecker.SymbExec: the code is not empty, as `precheck` reads its last word; the names that error messages make of the result are not modelled.
- CodeSafety.AcceptedIsUsable: the registers above R(A) that a call, a return or a SETLIST takes up to an open stack top depend on the stack, and are not bounded here; the call area of a generic `for` is two slots larger than the frame.
- Coroutines, debug hooks, metamethods and the C API: new threads are disabled in this build, hooks only add calls, and the rest is outside the core.
- The device bindings, the libraries for input and output, mathematics and the operating system, and the stand-alone programs.
