# The back half of the Carbon compiler, verified

Carbon lowers a resolved syntax tree to a hybrid stack IR, rewrites that IR with a
peephole pass, gives every instruction a place for its value and lays out stack frames.
This project models these steps, with the precedence-climbing parser, constant folding,
aggregate layout and the arena allocator beside them, and proves what each of them keeps.

## How the model is built

* **The IR and its machine** (`Ir`, `Machine`). Instructions read named places and
  constants when they run and pop other operands from a value stack. `Machine.Step` is a
  small-step semantics of every opcode with a program counter, a store and a stack. The store
  holds the values of the places and the list of all calls made so far, callee and argument
  values, the latest last. What a call, an arithmetic instruction, a cast or an access through
  an address means is a parameter (`Env`): the value of a call may depend on the places and on
  all calls made before it. `X64Arith` is the 64-bit instance of arithmetic.
* **The source language** (`Ast`). Expressions, short-circuit conditions, assignments,
  calls with and without a value, blocks, `if`, conditional and numeric `for`, `break`,
  `continue`, `defer` and `return`, with a big-step semantics that takes one unit of fuel per
  loop iteration and keeps the same store, so that every outcome, a trap or an exhausted fuel
  included, says which calls were made.
* **Lowering** (`LowerExpr`, `LowerCond`, `Escape`, `LowerStmt`, `NodeLabels`, `Generator`). The class
  `Generator.Generator` works as the compiler does: it appends to `instrs`, pushes and pops
  `operandStack`, writes labels on the nodes of conditions, and keeps the open loops and
  scopes on stacks. Each method is proved equal to a function that builds the code, and the
  theorems are about these functions.
* **Correctness** (`StmtCorrect`, `Labels`, `Returns`, `FuncCorrect`, `CondExact`, `ForLoop`,
  `Deferral`, `Defers`, `LateReturn`, `Skipped`). A function of the supported language and its code end
  in exactly the same states and make exactly the same calls, in endless runs too.
  `CondExact.Accepted` is a check on the shape of a condition that holds for exactly the
  shapes that are lowered correctly; what is left out of the supported language because the
  code fails there has its own exact theorem.
* **The peephole pass** (`Optimizer`, `OptimizedFunc`, `Stale`, `LateRepeat`). The nested
  loops over the array, in place, a lockstep simulation between the code before and after,
  and when a repeated instruction still has the value of its original.
* **Destinations** (`Destinations`, `StackHeight`, `StackTypes`, `Pipeline`, `SpillSlots`,
  `Overspill`). The allocator's counters as a class; no pending value is given away; the values
  the allocator takes to be pending are those on the stack in every run, and each is popped as
  a value of its own type; types and widths of spilled values.
* **Frames** (`Frame`, `FrameCode`, `CallChain`, `FrameAlloc`, `ParamKept`). Slot arithmetic as
  loops over running sizes, prologue and epilogue run on a small x64 machine with memory made
  of bytes, whole trees of calls, the frame that follows from the allocation, and what becomes
  of the parameters in between.
* **Comparison of aggregates** (`Cmp16`), **parsing** (`Tokens`, `Parser`, `Grammar`), **layout**
  (`Alignment`, `Layout`), **arena** (`Arena`) and **folding** (`Fold`). `Grammar` is the grammar
  of binary expressions, level by level, without precedences.

## Where the code does not do what is promised

Each of these is stated with the exact condition under which the code is right, or with a
concrete program that shows the failure.

* Conditions such as `(a || b) || c` and `(a && b) || c` take the wrong branch
  (`CondExact.AcceptedExact`, `CondExact.LeftNestedRejected`).
* `!` in value position is dropped unless its operand is a comparison (`LowerExpr.NotExact`).
  Type resolution turns every operand that is no bool operation into a comparison
  (carbonc/type_system.cc:2778-2782), so the inputs that fail are those like `!(!(a < b))`
  (`LowerExpr.BangsExact`).
* Discarding unused values pops only half of them (`Generator.Generator.DiscardOpstack`); a
  condition `!!(a < b && c < d)` leaves two (`NodeLabels.DoubleBangOperands`).
* `continue` in a numeric `for` repeats the element (`ForLoop.ContinueRepeats`,
  `ForLoop.ContinueForever`).
* A returned variable is read after the deferred statements (`LateReturn.ReturnExact`).
* `break` and `continue` skip what the blocks they leave have deferred, and so does the end of
  a function that also returns (`Skipped.SkipExact`, `Skipped.EndExact`).
* The peephole pass takes a value that is computed again for the one on the stack although
  deferred assignments in between have changed its operands (`Stale.GapExact`,
  `LateRepeat.LateRepeatExact`, and `OptimizedFunc.LateSumMiscompiled` for one function).
* Results of shifts are never pushed by the x64 generator (`Destinations.HeightExact`), and a
  duplicated value shares its register (`Destinations.KeptApartExact`).
* Spill locals keep the type of the first value spilled there (`SpillSlots.SpillTypesExact`,
  `Overspill.SpillsTwice`), so that a later value can run over a pending one
  (`FrameAlloc.StoresExact`, `FrameAlloc.PendingOverrun`).
* A function that overwrites no argument register reads its parameters from them, but computes
  `+`, `-`, `*`, `&` and `|` in place when the left operand is a parameter in a part of such a
  register: `a := x + 1; return x` then returns `x + 1` for a parameter of four bytes
  (`ParamKept.ParamKeptExact`).
* `!=` and the jump on `==` are wrong for aggregates above 16 bytes (`Cmp16.InequalityExact`).
* A field whose size is not a multiple of its alignment can be overlapped by the next
  (`Layout.RoomExact`); large static arrays are such fields (`Layout.ArrayOverlaps`).
* A block larger than a bucket runs over its end (`Arena.MemoryArena.Alloc`), and blocks are
  misaligned unless the alignment is a power of two (`Arena.AlignedExact`).

## Model

| member | source | states |
|---|---|---|
| LowerExpr.ExprCorrect | carbonc/ir.cc:816-929 | the code of a value expression makes exactly the calls of the expression, leaves the places alone and the stack as it was plus at most one value, and the operand left for it fetches exactly the source value; a trapping expression traps with the calls made so far |
| LowerExpr.CompareCorrect | carbonc/ir.cc:855-919 | a comparison in value position pushes 1 or 0, and the opposite when it is inverted |
| LowerExpr.BinaryCorrect | carbonc/ir.cc:831-925 | two-operand instructions compute the left operand and its calls first although they pop the right one first |
| LowerExpr.NegateCorrect | carbonc/ir.cc:970-974 | negation pushes the arithmetic negation, or traps with its operand |
| LowerExpr.CallCorrect | carbonc/ir.cc:736-772 | arguments are evaluated in order, then the call is made with exactly these values, and pushes what the callee returns after all calls made before it |
| LowerExpr.ArgsCorrect | carbonc/ir.cc:753-757 | fetching all argument operands, after all calls inside the arguments, gives all argument values and restores the stack |
| LowerExpr.NotCorrect | carbonc/ir.cc:964-969 | `!` on a comparison pushes its negation |
| LowerExpr.NotExact | carbonc/ir.cc:964-969 | what `!` delivers in value position, and that it is the negation exactly when the operand is a comparison |
| LowerExpr.BangsExact | carbonc/ir.cc:964-969 | `!` written any number of times in front of a comparison negates it once, which is right exactly for an odd number |
| LowerCond.CmpJumpFollows | carbonc/ir.cc:855-919 | a comparison with a target label jumps there or falls through as its truth and its inversion say |
| LowerCond.ValueFollows | carbonc/ir.cc:825-829 | a condition without labels leaves one value for each of its comparisons |
| LowerCond.CondFollows | carbonc/ir.cc:211-251 | for every condition, right or wrong, the machine leaves the jump code through the exit that CondRoute computes, with the calls of the comparisons evaluated and of none that is skipped |
| CondExact.RouteAgrees | carbonc/ir.cc:211-251 | where true and false conditions of a shape never share an exit, the route evaluates exactly what short-circuit evaluation does and makes the same calls |
| CondExact.AcceptedRight | carbonc/ir.cc:211-251 | an accepted condition of any depth goes to its false label exactly when it is false, makes the calls of short-circuit evaluation, leaves the stack alone, and traps exactly when evaluation does |
| CondExact.AcceptedExact | carbonc/ir.cc:211-251 | a shape is accepted if and only if every condition of that shape is lowered correctly |
| CondExact.RejectedWitness | carbonc/ir.cc:211-251 | for every rejected shape, a condition with constant comparisons on which the code goes wrong |
| CondExact.LeftNestedRejected | carbonc/ir.cc:229-241 | `(a \|\| b) \|\| c` and `(a && b) \|\| c` are among the rejected shapes, whatever is compared |
| CondExact.LeftNestedMeaning | carbonc/ir.cc:226-241 | what they are lowered to: the first to the code of `a \|\| (b && c)`, the second to code that evaluates `a && b` and then goes by `c` alone |
| CondExact.OrInAndAccepted | carbonc/ir.cc:212-225 | `(a \|\| b) && c` is among the accepted shapes |
| NodeLabels.LabelledCode | carbonc/ir.cc:816-829 | generating from the labels on the nodes emits the jump code of the whole condition, for every condition |
| NodeLabels.AcceptedOperands | carbonc/ir.cc:825-829 | a condition that does not stray leaves no operand behind |
| NodeLabels.DoubleBangOperands | carbonc/ir.cc:964-969 | a condition negated twice leaves one operand for each of its comparisons |
| Generator.Generator.Push | carbonc/ir.cc:98-100 | the operand becomes the top of the operand stack |
| Generator.Generator.Pop | carbonc/ir.cc:102-106 | returns and removes the top of the operand stack |
| Generator.Generator.DiscardOpstack | carbonc/ir.cc:140-149 | the loop stops halfway: one noop takes the upper half of the surplus, top first, and the wanted size is reached exactly when at most one operand is too many |
| Generator.Generator.GenerateExpr | carbonc/ir.cc:816-975 | appends the code of the expression and pushes its operand, nothing else |
| Generator.Generator.GenerateArgs | carbonc/ir.cc:753-757 | appends the code of all arguments and returns their operands in order |
| Generator.Generator.GenerateCallStmt | carbonc/ir.cc:736-772 | a call of void type is the code of its arguments and the call instruction that StmtCorrect.CallStmtFollows shows to make the call; it pushes no operand, so nothing is discarded |
| Generator.Generator.Distribute | carbonc/ir.cc:211-251 | leaves on the nodes of a condition exactly the labels its exits stand for, and touches no other node |
| Generator.Generator.DistributeLogic | carbonc/ir.cc:212-241 | the same for a logic operator: labels of both operands and the self label of the right one |
| Generator.Generator.GenerateCond | carbonc/ir.cc:816-829 | appends the code the labels on the nodes stand for, with self labels in front of binary nodes |
| Generator.Generator.GenerateBang | carbonc/ir.cc:964-969 | `!` inverts a comparison below it that has no target, and emits nothing itself |
| Generator.Generator.GenerateCmp | carbonc/ir.cc:855-919 | one comparison becomes a jump if its node has a target and a pushed value otherwise, inverted as its node says |
| Generator.Generator.Analyse | carbonc/ir.cc:297-346 | every condition of a statement, at any depth, gets the labels of its own statement |
| Generator.Generator.GenerateAssign | carbonc/ir.cc:804-812 | an assignment is the code of the value and one load into the place |
| Generator.Generator.ReplayScope | carbonc/ir.cc:1254-1257 | a block end replays what the block deferred, latest first |
| Generator.Generator.CollectDefers | carbonc/ir.cc:657-671 | a return collects the deferred statements of all open scopes, innermost scope and latest first |
| Generator.Generator.GenerateReturn | carbonc/ir.cc:679-692 | a return evaluates its value, replays everything collected and returns |
| Generator.Generator.GenerateStmt | carbonc/ir.cc:1188-1326 | every statement whose conditions and bodies leave no operand, right or wrong, appends its code in the context of the open loops and scopes, and leaves the operand stack as it was |
| Generator.Generator.GenerateIf | carbonc/ir.cc:627-645 | layout of if and else, with all three labels |
| Generator.Generator.GenerateWhile | carbonc/ir.cc:611-625 | layout of a conditional loop |
| Generator.Generator.GenerateFor | carbonc/ir.cc:537-609 | layout of a numeric loop: range, two-sided test, body, advance |
| Generator.Generator.GenerateForTest | carbonc/ir.cc:550-582 | the test of a numeric loop, upwards and downwards |
| Generator.Generator.GenerateBlock | carbonc/ir.cc:1251-1259 | a block is its statements and then, where it replays, what it deferred |
| Generator.GenerateFunc | carbonc/ir.cc:506-520 | analysis and generation of a whole body give its code; its end replays only when nothing returns |
| Generator.SupportedQuiet | carbonc/ir.cc:1188-1326 | supported statements leave no operand behind, so the generator's contracts cover them |
| Defers.LatestMirrors | carbonc/ir.cc:1254-1257 | a block replays exactly what it deferred, in reverse order |
| Defers.CollectedMirrors | carbonc/ir.cc:657-671 | a return in any nesting replays exactly what the open scopes deferred so far, in reverse order of registration |
| StmtCorrect.StmtFollows | carbonc/ir.cc:1188-1326 | simulation: wherever the code of a supported statement stands, the machine ends where the source outcome says, with the same stack, places and calls; where the source needs more fuel, the machine is still running after as many steps, and comes to the same places and calls |
| StmtCorrect.CallStmtFollows | carbonc/ir.cc:736-772 | a call of void type evaluates its arguments, which may trap, then is made once with their values; it leaves the places and the stack as they were |
| StmtCorrect.IfFollows | carbonc/ir.cc:627-645 | simulation for if and else |
| StmtCorrect.WhileFollows | carbonc/ir.cc:611-625 | simulation for conditional loops, endless ones included |
| StmtCorrect.ForFollows | carbonc/ir.cc:537-609 | simulation for numeric loops with and without step |
| StmtCorrect.ForTestReaches | carbonc/ir.cc:550-582 | the two-sided test goes to the body exactly when the element is in range, after setting the step |
| StmtCorrect.AdvanceReaches | carbonc/ir.cc:590-601 | the element becomes element plus step and control is back at the test |
| StmtCorrect.JumpFollows | carbonc/ir.cc:647-655 | break and continue reach the labels of the innermost loop |
| StmtCorrect.ReturnFollows | carbonc/ir.cc:679-692 | a return delivers the value it had before the deferred statements ran, and their effects; a return of void type delivers none |
| StmtCorrect.BlockFollows | carbonc/ir.cc:1251-1259 | simulation for blocks: deferred assignments and calls run once each, latest first, at the end and at every return |
| StmtCorrect.AssignsReach | carbonc/ir.cc:673-677 | replayed assignments and calls run in order with the effect of the source |
| StmtCorrect.NoEscape | carbonc/ir.cc:647-655 | a supported statement outside loops ends by neither break nor continue |
| Labels.StmtTidy | carbonc/ir.cc:297-346 | the labels a statement defines are its own and are defined once |
| Labels.FuncLabels | carbonc/ir.cc:297-346 | in the code of a whole function every label is defined exactly once |
| Returns.ReturnEmitted | carbonc/ir.cc:679-692 | in any context, the code of a statement has a return instruction if and only if the statement has a return in it |
| Returns.FuncReturns | carbonc/ir.cc:513-518 | the end of a function replays what it has deferred if and only if there is no return instruction in its code |
| FuncCorrect.FuncExact | carbonc/ir.cc:451-521 | for every supported function, store and environment and every state, which includes the calls made: the source, where continue in a loop goes on with its next round, ends in it for some fuel if and only if the machine stops in it |
| FuncCorrect.CallsExact | carbonc/ir.cc:451-521 | any list of calls begins a run of the source if and only if it begins the run of the machine: same callees, same arguments, same order, in runs that end, trap or never end |
| ForLoop.ForRuns | carbonc/ir.cc:537-609 | the loop, bodies that continue included, runs its body for exactly the elements of its range, in order, and ends with the element past the range, if the last addition does not overflow |
| ForLoop.ForRunsInCode | carbonc/ir.cc:537-609 | the code of a supported loop, wherever it stands, ends as the visit of these elements does |
| ForLoop.ElementsAre | carbonc/ir.cc:537-609 | these elements are start, start + step and so on, all short of the end, and the next one is not |
| ForLoop.UnitCount | carbonc/ir.cc:564-580 | without a step there are end - start of them upwards, start - end downwards, none when equal |
| ForLoop.UnitRange | carbonc/ir.cc:564-580 | without a step no addition overflows |
| ForLoop.ContinueRepeats | carbonc/ir.cc:584-586 | on the machine, one round of the code leads from the test back to the test: with the next element, as the source does, if and only if the body run did not end by continue, and with the same element otherwise |
| ForLoop.ContinueForever | carbonc/ir.cc:584-586 | the machine runs the code of a loop whose body is just continue for ever if and only if the range is not empty |
| LateReturn.ReadLate | carbonc/ir.cc:682-686 | a returned variable delivers what the deferred statements leave in it |
| LateReturn.ReturnExact | carbonc/ir.cc:682-686 | it is returned with its value at the return statement, for all deferred assignments to given places, all deferred calls and all stores, if and only if it is none of these places |
| Skipped.JumpSkips | carbonc/ir.cc:647-655 | a break or continue out of a block jumps at once, whatever the block has deferred |
| Skipped.SkipExact | carbonc/ir.cc:647-655 | the store it leaves with is the one of the source, for all assignments to given places and calls of given functions that are deferred and all stores, if and only if nothing is deferred |
| Skipped.EndSkips | carbonc/ir.cc:506-520 | the end of a function that returns elsewhere is reached without the deferred statements the source runs there |
| Skipped.EndExact | carbonc/ir.cc:506-520 | after a statement that can return but does not, the machine stops in the state in which the source ends, for all assignments to given places and calls of given functions that are deferred, if and only if nothing is deferred |
| Optimizer.ReplaceDuplicates | carbonc/ir.cc:1511-1534 | in place, the nested loops turn exactly the instructions that repeat the last stack operation before them into duplications |
| Optimizer.RepeatsExact | carbonc/ir.cc:1491-1531 | which these are: an equal instruction stands before, nothing in between pops or pushes, and it pushes, pops nothing, is neither a call nor a duplication and names no field of a field |
| Optimizer.ScanExact | carbonc/ir.cc:1516-1531 | at any moment of the scan an instruction is rewritten if and only if it belongs to the row that starts at the outer index |
| Optimizer.ProfileKept | carbonc/ir.cc:1511-1534 | without conditions: number and places of instructions, result types, and what each pops and pushes stay the same |
| Optimizer.OptimizedRuns | carbonc/ir.cc:1511-1534 | if no label, no call or copy, and no write to a place its value depends on lies between a rewritten instruction and its original, both versions are in the same state, with the same calls made, after any number of steps; a call is never rewritten, as a second one may return another value |
| Optimizer.TightGuarded | carbonc/ir.cc:1511-1534 | where every pushed value meets a stack operation at once, only neighbours are rewritten and the condition holds |
| OptimizedFunc.FuncTight | carbonc/ir.cc:451-521 | code of a supported function is such, unless a return of a computed value is directly followed by something deferred that computes nothing first: the store of a constant or name, or a call with only such arguments |
| OptimizedFunc.OptimizedFuncExact | carbonc/ir.cc:1547-1566 | source and optimized code end in exactly the same states, having made the same calls |
| OptimizedFunc.OptimizedCallsExact | carbonc/ir.cc:1547-1566 | and any list of calls begins a run of the source if and only if it begins the run of the optimized code |
| OptimizedFunc.LateSumMiscompiled | carbonc/ir.cc:1511-1534 | the witness of LateRepeat.LateRepeatExact: a supported function that leaves y = 7 leaves y = 3 once optimized |
| Stale.ValueExact | carbonc/ir.cc:1511-1534 | for all arithmetic, casts and stores, an instruction has the same value after a row of stored constants if and only if none of the places is an operand its value depends on |
| Stale.GapExact | carbonc/ir.cc:1511-1534 | rewriting a repetition behind stored constants keeps every execution, for all arithmetic, stores and stacks, if and only if the gap does not disturb it |
| LateRepeat.LateRepeatExact | carbonc/ir.cc:679-692 | for a return of a value that the assignment deferred first computes again: the optimized code ends as the source does, for all constants and names deferred to given places, all arithmetic, stores and stacks, if and only if none of the places is an operand the value depends on |
| Destinations.Allocator.constructor | carbonc/codegen_x64.cc:422-425 | counters start at zero behind the function's own locals |
| Destinations.Allocator.UseTempRegister | carbonc/codegen_x64.cc:376-385 | the next of the five registers, remembered as used, or none |
| Destinations.Allocator.UseTempLocal | carbonc/codegen_x64.cc:387-399 | the next spill local, a new one only when all are in use |
| Destinations.Allocator.UseTempDestination | carbonc/codegen_x64.cc:401-407 | a register while there is one, a spill local otherwise |
| Destinations.Allocator.FreeTempDestination | carbonc/codegen_x64.cc:409-416 | gives back a spill local before any register |
| Destinations.Allocator.DetermineDestinations | carbonc/codegen_x64.cc:422-447 | destinations, counters, locals and used registers after the pass over any instruction list; what it takes to be pushed is what StackHeight.StepSize and Destinations.PushesAgree say |
| Destinations.AlwaysCounted | carbonc/codegen_x64.cc:376-416 | in code that never underflows, registers are full before a spill local is used, and the destination is the one numbered by the temporaries in use |
| Destinations.NoneOverwritten | carbonc/codegen_x64.cc:422-447 | in code that never underflows counters stay non-negative, pending values have pairwise distinct destinations, and rax holds at most the top one, to be consumed by the very next instruction |
| Destinations.SpillTypes | carbonc/codegen_x64.cc:387-399 | values are spilled to locals that exist, each of which keeps the type of the first value spilled there |
| Destinations.PushesAgree | carbonc/codegen_x64.cc:655-1073 | opcode by opcode, the generator pushes an operand for exactly the instructions that are counted as pushing, except shifts; only a duplication pushes its top operand again |
| SpillSlots.SpillTypesExact | carbonc/codegen_x64.cc:387-399 | all spilled values get locals of their own types if and only if no local is given to values of two types |
| SpillSlots.SpillWidthsExact | carbonc/codegen_x64.cc:387-399 | all spilled values fit into their locals if and only if each fits into the type spilled there first |
| Overspill.SpillsTwice | carbonc/codegen_x64.cc:387-399 | a supported function, for any two types and any locals, in which a local made for a value of one type is given to a value of the other while the local in front of it is in use |
| Destinations.KeptApartExact | carbonc/codegen_x64.cc:1063-1066 | without shifts, the operands on the generator's own stack are kept apart if and only if nothing is duplicated |
| Destinations.HeightExact | carbonc/codegen_x64.cc:1004-1033 | the generator's stack is as high as the program's everywhere if and only if the code has no shift |
| Destinations.OptimizedAllocation | carbonc/ir.cc:1511-1534 | destinations and pending values are the same before and after the peephole pass |
| StackHeight.StepSize | carbonc/ir.cc:1453-1489 | for every opcode, a step pops what the consumption count says and pushes exactly when the instruction is counted as pushing |
| StackHeight.LevelNeverUnderflows | carbonc/ir.cc:1453-1489 | level code never pops more than is pending |
| StackHeight.RunHeights | carbonc/codegen_x64.cc:422-447 | in every run of level code, at every moment, the stack is as high as the allocator's list of pending values |
| StackHeight.FuncLevel | carbonc/ir.cc:451-521 | the code of every supported function is level: it branches and reaches labels with an empty stack only |
| StackHeight.OptimizedLevel | carbonc/ir.cc:1511-1534 | the peephole pass keeps code level |
| StackHeight.FuncAllocation | carbonc/codegen_x64.cc:422-447 | lowered functions, optimized or not, never underflow, and in every run the stack holds exactly the pending values |
| StackTypes.FuncTyped | carbonc/ir.cc:816-929 | in the code of every supported function, as lowered and as optimized, each operand that is popped names the result type of the instruction that pushed the value |
| Pipeline.GenerateIr | carbonc/ir.cc:1547-1566 | lowering and the pass in place give the optimized code of the function |
| Pipeline.PipelineExact | carbonc/ir.cc:1547-1566 | for every guarded function, what reaches the code generator ends exactly as the source does, and all its pending values have destinations of their own |
| Frame.FindMaxCallArgSize | carbonc/codegen_x64.cc:283-320 | the greatest room any call needs, and whether an instruction is among those that ParamKept.ParamKeptExact needs to be found |
| Frame.GetFrameSize | carbonc/codegen_x64.cc:322-367 | sizes of the local and the outgoing area, offsets of parameters and locals |
| Frame.OutAreaHolds | carbonc/codegen_x64.cc:283-331 | the outgoing area holds the arguments of every call, and a word for each argument register when C functions are called |
| FrameAlloc.CallArgsExact | carbonc/codegen_x64.cc:287-299 | what is counted for a lowered call are its arguments, computed or not |
| Frame.LocalsApart | carbonc/codegen_x64.cc:347-366 | for any list of locals: pairwise apart, inside the local area, aligned for their types |
| FrameCode.EmitHomeStores | carbonc/codegen_x64.cc:588-597 | register arguments are stored last first, each with the width of its parameter |
| FrameCode.GenerateFrame | carbonc/codegen_x64.cc:549-645 | both ends of a function, and the adjusted offsets of its parameters |
| FrameCode.PrologueDoes | carbonc/codegen_x64.cc:587-626 | saved registers lie right below the return address, register arguments as wide as their parameters right above it, rsp and rbp at the ends of the new frame; nothing outside these words changes |
| FrameCode.EpilogueRestores | carbonc/codegen_x64.cc:637-645 | for any set of used temporaries, rsp, rbp and all of them are as on entry at the return |
| FrameCode.BodyAligned | carbonc/codegen_x64.cc:573-626 | rsp is a multiple of 16 in the body when rsp + 8 is on entry, as section 3.2.2 of the System V AMD64 ABI requires |
| CallChain.CellsApart | carbonc/codegen_x64.cc:549-645 | return address, saved registers, locals and outgoing words of a frame are pairwise apart |
| CallChain.ChainApart | carbonc/codegen_x64.cc:549-645 | in a chain of calls of any depth no two places of any frames overlap |
| CallChain.ArgumentsMeet | carbonc/codegen_x64.cc:713-731 | caller and callee compute the same address for every argument, and it is a word of the caller's outgoing area |
| CallChain.ChainAligned | carbonc/codegen_x64.cc:573-626 | rsp is aligned at every call of a chain whose first entry is aligned |
| CallChain.CallKeeps | carbonc/codegen_x64.cc:549-645 | a call, with everything it calls in turn and with writes of any width inside its locals and parameters, restores rsp, rbp and all temporaries and changes no byte above its frame but its parameters |
| FrameAlloc.SavedExact | carbonc/codegen_x64.cc:376-385 | a register is saved by the frame if and only if it is the destination of some instruction |
| FrameAlloc.DestRestored | carbonc/codegen_x64.cc:549-645 | every register given to an instruction is at the return as it was on entry |
| FrameAlloc.StoresExact | carbonc/codegen_x64.cc:748-751 | the results of all instructions may be written to their destinations, as CallKeeps allows writes, if and only if everything written to a spill local fits into the type spilled there first |
| FrameAlloc.WritesFit | carbonc/codegen_x64.cc:778-853 | the result of an instruction may be written to its spill local if and only if the type spilled there first has the room: eight bytes for an address, none for a duplicate, the size of the result type otherwise |
| FrameAlloc.OverrunExact | carbonc/codegen_x64.cc:347-366 | bytes written to a local touch no other local and nothing above the locals if and only if they end before the local in front of it |
| FrameAlloc.PendingOverrun | carbonc/codegen_x64.cc:387-399 | in the function of SpillsTwice, the larger value runs over a pending one |
| FrameAlloc.RegistersAbi | carbonc/codegen_x64_linux_gas.cc:13-19 | the temporary registers with rbp and rsp are exactly the registers that section 3.2.1 of the System V AMD64 ABI leaves to the caller |
| FrameAlloc.ArgumentsAbi | carbonc/codegen_x64_linux_gas.cc:13-15 | arguments arrive in the registers of its section 3.2.3, in this order, none of which is one of the former |
| ParamKept.ParamKeptExact | carbonc/codegen_x64.cc:271-320 | read where the body reads it, in its register, in the word its register was stored to or in the word the caller wrote, a parameter that is not assigned has the value of the call at every moment of every course of the body if and only if it is not the left operand of an arithmetic instruction while it is in a part of its register |
| ParamKept.ConstRegExact | carbonc/codegen_x64.cc:160-175 | an argument register is recognised as one if and only if the parameter in it has not the size 1, 2 or 4 |
| ParamKept.StoredForReason | carbonc/codegen_x64.cc:287-320 | parameters are stored only where some instruction overwrites an argument register |
| Cmp16.SadExact | carbonc/codegen_x64.cc:1106-1109 | a sum of absolute differences is bounded and zero exactly when the bytes agree |
| Cmp16.ChunkExact | carbonc/codegen_x64.cc:473-474 | both sums fit in sixteen bits, and the shuffled result is zero exactly when the sixteen bytes agree |
| Cmp16.CmpAggregate16 | carbonc/codegen_x64.cc:1081-1123 | the loop emits the comparison of all chunks, an early jump behind each but the last, and the end label where it is needed |
| Cmp16.EqualityExact | carbonc/codegen_x64.cc:1081-1168 | for every size, == yields 1 exactly when all bytes agree and the jump on != jumps exactly when some differ |
| Cmp16.InequalityDecides | carbonc/codegen_x64.cc:1090-1117 | != and the jump on == really decide whether any chunk agrees |
| Cmp16.InequalityExact | carbonc/codegen_x64.cc:1090-1117 | they are right for all contents of a size if and only if the size is 16 |
| Parser.Parser.ParseUnaryExpr | carbonc/parser.cc:1169-1179 | at most one prefix operator, then an operand if there is one |
| Parser.Parser.ParseBinaryExpr | carbonc/parser.cc:1142-1166 | reads exactly the operators at least as tight as the bound, with their operands, and returns the reference tree of this row, which by Grammar.GrammarExact is the one of the grammar; an operator at the end of a line is reported there |
| Parser.Parser.ParseExpr | carbonc/parser.cc:1117-1118 | the result is canonical, made of exactly the tokens read, and followed by no binary operator |
| Parser.TakeSplit | carbonc/parser.cc:1156-1160 | taking the tighter operators first and going on is taking all at once, errors included |
| Parser.BuildCanonical | carbonc/parser.cc:1142-1166 | the reference tree binds left operands at least as tightly and right operands tighter than their parent, and holds exactly its row |
| Parser.CanonicalExact | carbonc/parser.cc:1142-1166 | a tree is canonical if and only if it is the one tree built from its row |
| Parser.ExpressionSound | carbonc/parser.cc:1142-1166 | whatever is parsed is canonical and flattens to the tokens consumed |
| Parser.RoundTrip | carbonc/parser.cc:1142-1166 | parsing the tokens of any canonical tree, anywhere, gives that tree back and stops behind it |
| Parser.ErrorIsDangling | carbonc/parser.cc:1150-1153 | the error is reported only behind an operator that ends its line or the input |
| Parser.DanglingIsError | carbonc/parser.cc:1150-1153 | and wherever such an operator follows a whole expression |
| Grammar.GrammarExact | carbonc/token.cc:16-57 | the trees that the precedences allow are exactly those of the grammar of thirteen levels, from the arrow over products, sums, shifts, orderings, equalities, &, ^, the bar, ranges, && and the double bar to assignments, each grouping to the left |
| Grammar.ParsedIsExpression | carbonc/parser.cc:1142-1166 | whatever is parsed is an expression of this grammar, made of exactly the tokens read |
| Grammar.ExpressionIsParsed | carbonc/parser.cc:1142-1166 | the tokens of any expression of the grammar, in front of no operator, are parsed to that expression |
| Grammar.Unambiguous | carbonc/token.cc:16-57 | no two expressions of the grammar have the same tokens |
| Alignment.Align | carbonc/common.hh:48-55 | a multiple of the alignment, less than one alignment above the number |
| Alignment.AlignLeast | carbonc/common.hh:48-55 | and the least one |
| Layout.TypeDef.ComputeSizeAlignmentOffsets | carbonc/type_system.cc:877-898 | the loop gives every field its offset and the aggregate its size and alignment |
| Layout.RoomExact | carbonc/type_system.cc:881-887 | a field ends before anything later unless the remainders of offset and size add up badly, if and only if |
| Layout.AggregateSound | carbonc/type_system.cc:877-898 | with regular fields: in order, apart, inside, aligned, and the aggregate is regular itself |
| Layout.CStructAbi | carbonc/type_system.cc:889-897 | C structs have the offsets, alignment and size of section 3.1.2 of the System V AMD64 ABI |
| Layout.NativeAbi | carbonc/type_system.cc:889-897 | any other aggregate is laid out like the C struct up to eight bytes; above, it is aligned to 16 and its size is the lowest multiple of 16 that holds the members |
| Layout.TypeRegular | carbonc/type_system.cc:877-898 | regularity carries over to types of any depth |
| Layout.TypeSound | carbonc/type_system.cc:877-898 | in types of any depth every scalar is aligned and inside, and no two overlap |
| Layout.ArrayOverlaps | carbonc/type_system.cc:4692-4696 | a struct with a twelve-byte array places the next member on the array |
| Arena.NextPow2 | carbonc/memory.cc:7-16 | the least power of two not below the argument |
| Arena.BlockAligned | carbonc/memory.cc:18-25 | the padded end of a bucket is aligned if the alignment is a power of two |
| Arena.AlignedExact | carbonc/memory.cc:18-25 | the mask leads to aligned blocks wherever they start if and only if the alignment is a power of two |
| Arena.MaskRemainder | carbonc/memory.cc:18-25 | the mask alignment - 1 takes the remainder by a power of two |
| Arena.LowestBit | carbonc/memory.cc:7-10 | the test of the single bit holds exactly for powers of two |
| Arena.FirstFit | carbonc/memory.cc:63-67 | the first bucket with room |
| Arena.FitsExact | carbonc/memory.cc:37-40 | a bucket has room for a request if and only if some aligned block of that size lies behind its used part, and the block handed out is the lowest such |
| Arena.MemoryArena.constructor | carbonc/memory.cc:51-54 | an empty arena of any alignment whose bucket size is the least power of two |
| Arena.MemoryArena.Alloc | carbonc/memory.cc:62-72 | new state and address, also after an overrun; from a safe state all blocks stay inside their buckets and apart, and aligned to a power of two, if and only if the new one fits |
| Arena.MemoryArena.Clear | carbonc/memory.cc:74-78 | every bucket is empty and nothing else changed |
| Arena.RunSafe | carbonc/memory.cc:62-72 | after any run of requests not above the bucket size, all blocks are inside their buckets, pairwise apart and aligned to a power of two |
| Fold.FoldAgrees | carbonc/type_system.cc:398-481 | an expression that folds to an integer evaluates to it, whatever the store |
| Fold.FoldedCode | carbonc/type_system.cc:398-481 | and the code emitted for it delivers that integer |
| Fold.FoldExact | carbonc/type_system.cc:398-481 | an expression folds if and only if it is made of literals, negations, arithmetic and comparisons for order whose exact values, over unbounded integers, are all defined and fit into 64 bits; it folds to its exact value |
| X64Arith.QuotientTruncates | carbonc/codegen_x64.cc:978-987 | division truncates: the remainder has the sign of the dividend |
| X64Arith.BitwiseBits | carbonc/codegen_x64.cc:1172-1190 | each bit of a bitwise operation is that of its operands |

## Left out

- Types at IR level: values are integers, not bytes of a width. What casts, address operations, indexing, copies and inline assembly compute is a parameter of `Machine`; lowering covers none of them, nor floats and strings.
- Places: a field of a variable is a place of its own, independent of the whole variable, so copies of whole aggregates are not modelled. The type `Ir.Name` has no fields of fields and no fields behind pointers, for which the generator computes an address first.
- Calls see all places and all earlier calls, but write no place: a callee that changes a global which the caller has named earlier in the same expression is not modelled, nor are calls through pointers and aggregates as results.
- Trapping: division by zero stops the machine; signals are not modelled.
- StmtCorrect.StmtFollows: the body of an `if` or a loop is a braced block or another statement, not a bare expression statement, whose value the code generator does not discard, and not a bare `defer`, which it keeps with the scope of that `if` or loop, whose end replays nothing (carbonc/ir.cc:1238-1242, 1263-1265).
- StmtCorrect.StmtFollows: a logic operator that is a statement of its own or stands under a `!` in value position leaves two operands behind; it is covered by LowerCond.ValueFollows only. In all other places outside conditions desugaring has replaced it by a temporary (carbonc/desugar.cc:9-46, 218-320).
- FuncCorrect.FuncExact: deferred statements are assignments and calls of void type; a deferred call with a value leaves it behind at the end of a block (carbonc/ir.cc:1254-1257) and is not modelled. Where the code fails is left out of the supported functions and has its own theorem: continue in a numeric `for` (ForLoop.ContinueRepeats), deferred statements that are skipped (Skipped.SkipExact, Skipped.EndExact), returned names that are written late (LateReturn.ReturnExact), rejected conditions (CondExact.AcceptedExact).
- Generator.Generator.GenerateStmt: statements that leave operands behind, which are those with a condition that strays or with a bare expression as branch or body; a bare `defer` there.
- ForLoop.ForRuns: bodies that write the element or the hidden range variables, and ranges held in a tuple variable.
- Optimizer.OptimizedRuns: calls, copies and stores between an instruction and its repetition count as disturbing whatever they write.
- Destinations.NoneOverwritten: the x64 instructions themselves are not executed, so that an instruction may change a register in place when an operand is duplicated appears only as sharing (Destinations.KeptApartExact).
- LateRepeat.LateRepeatExact: the repetition is the whole of the assignment deferred first, and what lies before it are constants and names; for other functions Optimizer.Guarded is sufficient.
- FrameAlloc.StoresExact: an element whose address would be spilled, at which the code generator gives up.
- Frame.GetFrameSize: the Windows calling convention; entry from C code, which reserves no room above the return address for register arguments.
- ParamKept.ParamKeptExact: inline assembly, writes to a parameter through its address, and a field of a parameter, at which the code generator gives up; a parameter is read with its own type. What an instruction may do to the argument registers is a table of the registers its emitted code names; how often or with which values it writes them is left open.
- CallChain.CallKeeps: the short-lived pushes of rdi and rsi around copies and block stores.
- Cmp16.EqualityExact: sizes of zero and orderings of aggregates, for which the code sets no jump.
- Parser.Parser.ParseUnaryExpr: casts, calls, indexing, fields and parentheses are one operand token; the ternary operator and tuples around binary expressions are not parsed.
- Layout.TypeSound: sizes of resolved scalar types are inputs.
- Arena.NextPow2: arguments above 2^63, for which the source loops forever.
- Arena.MemoryArena.Alloc: address arithmetic does not wrap around; an alignment of zero; destruction of the arena.
- Fold.FoldAgrees: the operators `%`, `^` and `~`, for which no instruction is emitted; casts, whose narrowing the folding ignores while the code emits it (carbonc/ir.cc:1127-1133); undefined overflow.
- Type resolution, overloads, generics, desugaring, initializer expressions, globals, inline assembly, the driver, files and the text of assembly output.
