# Minuet: compiler and virtual machine

Minuet is a small dynamically typed language. This project models its compiler and the
register machine that runs the result, and proves that the two together mean what the source
program means.

The pipeline, in the order of the code:

- `Values`: the tagged values that source programs and the machine share; `ValueLaws`,
  `BranchLaws` and `NumeralText` say what operators, conditions and numerals mean.
- `Lexing`, `ExpressionGrammar`/`Parser`: characters to tokens, tokens to expressions;
  `TextRoundTrip` and `TextMeaning` put them together, `Precedence` says what binds first.
- `Analysis`/`Analyzer`: the semantic checks; `AnalyzerLaws` says what they are worth.
- `ExprLowering`, `StmtLowering` and the class in `AstConversion`: syntax trees to basic blocks
  of three-address steps, with markers and a queue of pending links; `Cfg`/`ControlFlowGraph`
  hold the blocks.
- `Emission`, `DfsOrder` and the class in `Emitter`: the blocks, in depth-first order, to one
  flat chunk per function, with jumps patched when a construct closes; `LostBlocks` says which
  blocks never get there.
- `Machine` and the class in `Engine`: the machine, on an unbounded memory and on its fixed
  buffers; `HeapStorage` and `Marking` are its heap and the marking of live objects.

Components that the program updates in place are classes here too; each method is proved
against a function, and the theorems are about those functions. `Compositional` is an
independent reference for the emitter: a recursive compiler that computes every jump target
from the sizes of the parts. `Semantics` is an independent meaning for source programs: a
big-step evaluation that knows nothing of registers, jumps or chunks. `fuel` bounds call depth
and loop rounds in that evaluation; the theorems quantify over all fuel, so they cover runs
that do not end.

The main results are in `Correctness`: for every program of the fragment (`Fragment.WellFormed`)
the machine returns a value, stops with a math error, runs off a function or runs forever
as the source does, and exactly then if every name is definitely assigned
(`DefiniteAssignment`). The fragment has mutually recursive functions, definitions,
assignments, `if`/`else`, `while`, `break`, `return`, all binary operators, tuple and list
literals and calls, nested to any depth. Its conditions are those the code needs; each comes
with where it is exact or with a program that goes wrong without it:

- names resolve as in the lowering: a name is known from its definition to the end of the
  function's text, whatever the blocks, and is defined once; names of locals differ from names
  of functions (`NameAgreement.ShadowingExactly`);
- no step is lost: the block after an `else` body with an `if` or `while` of its own is never
  emitted, so such an `if` ends its list, and that list is a function body or the branch of an
  `if` without `else` (`Fragment.NothingLost`). By `CompilerFacts.EmitOneChunk` this is exactly
  when the chunk is the code of the function; `NestedElse.UnclosedIfGoesWrong` and
  `NestedElse.LostStatementGoesWrong` are programs without it, `NestedElse.NestedEndIsRight` is
  one with it;
- a condition is not a bare literal: `Counterexamples.LiteralConditionGoesWrong`;
- a call has an argument (`Counterexamples.SharedResultGoesWrong` and
  `Counterexamples.MissedResultGoesWrong`, `Conditions.NoArgumentsExactly`), all but its first
  argument are literals or variables (`Conditions.CallWindowExactly`), and inside a loop no
  later temporary is numbered higher (`Counterexamples.LoopCallGoesWrong`).

Where the code leaves the behaviour undefined (a jump marker without an open construct, reading
past a chunk, an operand without a value), the functions give `None` or a status of their own,
and the theorems show that compiled programs of the fragment never get there, except by running
off the end of a function that does not return.

Code and documentation differ in places; the model follows the code. `docs/vm.md` says that
`seq_obj_push` has a mode for the front and only appends to flexible sequences; the code always
appends, frozen or not. It gives `jump_else` the condition of `jump_if`. `docs/grammar.md` puts
the argument list of a call in two pairs of parentheses and requires an argument; the parser
reads one pair, possibly empty. It lets an expression statement be any expression; the parser
reads only a unary one (`ExpressionGrammar.StatementExactly`).

The methods of the classes (`AstConversion.Conversion`, `ControlFlowGraph.FlowGraph`,
`Emitter.Emitter`, `Engine.Engine`, `HeapStorage.Storage`, `Parser.Parser`, `Lexing.Lexer`,
`Analyzer.Analyzer`) are each proved to compute the function of the same construct: the whole
new state and the result, failures included. The table has those of them that run a whole
component or have an edge case of their own.

## Model

| member | source | states |
|---|---|---|
| `Correctness.MeaningPreserved` | src/runtime/vm.cpp:57-160 | every program whose names resolve and whose calls and conditions have the supported forms compiles, and for any fuel, unless the source run reads a name that has no value, some number of rounds of the machine shows its outcome: the value in `m_memory[0]` and the same heap, the same failure, or a run still going after as many rounds as the source had fuel |
| `Correctness.ReturnsExactly` | src/runtime/vm.cpp:57-160 | with every name definitely assigned, the machine returns `v` with heap `h` if and only if the source run does, for some fuel |
| `Correctness.FailsExactly` | src/runtime/vm.cpp:398-430 | with every name definitely assigned, the machine stops with a math error (or runs off a function) if and only if the source does |
| `Correctness.DivergesExactly` | src/runtime/vm.cpp:57-160 | with every name definitely assigned, the machine runs forever if and only if no fuel suffices for the source |
| `Correctness.OnlySourceFailures` | src/runtime/vm.cpp:57-155 | with every name definitely assigned, every reachable state is ok, a math error or ran-off: never an operand, opcode or memory error |
| `Correctness.StoppedBySource` | src/runtime/vm.cpp:57-160 | a machine that has stopped after `k` rounds shows the outcome of the source run with fuel `k + 2`, unless that run reads a name without a value; so a diverging source never yields a returning machine |
| `Correctness.ExitStatus` | src/runtime/vm.cpp:155-159 | with every name definitely assigned, the exit status is ok if and only if `main` returns the integer 0 |
| `Correctness.CompileLinked` | src/ir/convert_ast.cpp:33-59 | a well-formed program is accepted; chunk indices equal function ids, every chunk is the compositional code of its function, and the entry is `main` |
| `DefiniteAssignment.NeverStuck` | src/semantics/analyzer.cpp:381-389 | a program of the fragment in which every name read has been given a value on every path before never reads a missing one; a branch that leaves the function or the loop restricts nothing, blocks open no scope |
| `BranchDefinition.UsedAfterBranch` | src/semantics/analyzer.cpp:381-389 | an instance: a name defined in one branch, the other one returning, is used after the `if`, and the machine returns its value |
| `FuelFacts.OutcomeUnique` | src/runtime/vm.cpp:57-160 | for any program: source runs that end all have the same outcome, whatever their fuel |
| `References.NeverDangles` | src/runtime/vm.cpp:57-160 | for any program that compiles, in every state reached from registers without references: all registers and all items refer to objects that exist, and no frame top is negative |
| `References.ReachedIntact` | src/runtime/vm.cpp:57-160 | the same for any code whose constants are no objects, compiled or not |
| `References.ReadyToMark` | src/runtime/vm.cpp:178-211 | an engine that has run such a program within its buffers meets everything the mark phase asks for, in every state |
| `References.NothingDangles` | src/runtime/sequence_value.cpp:31-36 | from any start memory, with every name definitely assigned: when the machine has returned, its result and all items on its heap refer to objects of that heap |
| `FrameTop.FrameTop` | src/runtime/vm.cpp:342-363 | in every reachable state the frame top is at most the highest register raised before this instruction of the chunk, or before the end of the outermost loop around it; at every call it is exactly the register to which the last argument has just been moved |
| `FrameTop.StmtsRegion` | src/ir/convert_ast.cpp:78-87 | in compiled code registers are raised below the counter only, a call follows the move of its last argument, no register of a loop around it is higher, and loops nest |
| `CleanPrograms.CompilesClean` | src/bcgen/emitter.cpp:26-44 | for every program whose lowering meets no error, calls and conditions of any form included: blocks, links, depth-first walk and one-pass patching give the code of the compositional compiler if and only if no function loses a step |
| `CleanPrograms.FragmentClean` | src/ir/convert_ast.cpp:33-59 | the programs of the fragment lower without error and lose no step |
| `LostBlocks.OrderIsReached` | src/bcgen/emitter.cpp:418-461 | at any nesting the walk visits exactly the blocks that the text of a body says, in increasing order |
| `LostBlocks.StmtsLost` | src/ir/convert_ast.cpp:529-563 | no block that is never visited has steps if and only if every `if` whose `else` body has blocks ends its list, and that list a function body or a branch without `else` |
| `LostBlocks.KeptExactly` | src/bcgen/emitter.cpp:418-461 | the steps that are emitted are all steps if and only if no step is lost; otherwise their instructions are fewer |
| `NestedElse.UnclosedIfGoesWrong` | src/ir/convert_ast.cpp:529-563 | `else` in `else` with an `else`: the source returns 4, the machine runs for ever, since the jump of the outermost test keeps target 0 and lands on no `nop` |
| `NestedElse.LostStatementGoesWrong` | src/ir/convert_ast.cpp:557-562 | a `return` after an `if` with a nested `else` body: the source returns 5, the machine runs off the chunk |
| `NestedElse.NestedEndIsRight` | src/ir/convert_ast.cpp:529-563 | a nested `else` body that ends its function is in the fragment, and the machine returns what the source does |
| `Driver.Build` | src/driver/driver.cpp:137-173 | the converter and the emitter, run as they are, produce the code that the compiler functions define |
| `Driver.BuildAndRun` | src/driver/driver.cpp:175-230 | a run within the buffers exits ok, with a user error or with a math error exactly as the source program says, with every name definitely assigned |
| `CompilerFacts.CollectExactly` | src/ir/convert_ast.cpp:717-734 | the first pass succeeds if and only if function names are distinct; ids are positions, `main` is the entry |
| `CompilerFacts.RecordExactly` | src/ir/convert_ast.cpp:739-752 | parameters are recorded if and only if they are distinct, in registers 0, 1, 2, ... |
| `CompilerFacts.StmtsClean` | src/ir/convert_ast.cpp:705-715 | a fragment body meets no error anywhere in the lowering |
| `CompilerFacts.LowerOne` | src/ir/convert_ast.cpp:717-766 | a fragment function lowers without error to the control-flow graph of its body and only adds constants |
| `CompilerFacts.LowerRest` | src/ir/convert_ast.cpp:33-59 | the second pass lowers all functions in order, each from the constants left by those before it |
| `CompilerFacts.LinksApplied` | src/ir/convert_ast.cpp:160-178 | applying the queued links gives every block the first two targets queued for it and changes no steps |
| `CompilerFacts.EmitOneChunk` | src/bcgen/emitter.cpp:418-461 | for any function whose lowering meets no error: the chunk, with all jumps patched, is its compositional code, with both stacks of open constructs empty again, if and only if no step stands in a block that is never visited |
| `ValueLaws.MathFailsExactly` | src/runtime/vm.cpp:398-430 | a math error is raised exactly for operands of different kinds, a zero divisor, or a kind the operator does not have |
| `ValueLaws.IntegerArithmetic` | src/runtime/fast_value.cpp:71-88 | product, sum and difference of two integers are the one 32-bit number that is congruent to them modulo 2^32 |
| `ValueLaws.IntegerDivision` | src/runtime/fast_value.cpp:90-136 | but for the smallest number by -1: quotient and remainder are the one pair with `x == q * y + r`, a remainder smaller than the divisor and the dividend's sign |
| `ValueLaws.DivisionByZero` | src/runtime/fast_value.cpp:90-136 | a zero divisor leaves no value |
| `ValueLaws.FloatArithmetic` | src/runtime/fast_value.cpp:71-174 | sum, difference, product and quotient of floats are undone by the inverse operation; there is no remainder |
| `ValueLaws.OtherKinds` | src/runtime/fast_value.cpp:71-435 | operands of different kinds, or of a kind the operator does not have, leave no value and are not ordered |
| `ValueLaws.TruthExactly` | src/runtime/fast_value.hpp:113-122 | a number is true exactly if it differs from the zero of its kind; a dud and an object never are |
| `BranchLaws.IfNumber` | src/runtime/vm.cpp:552-558 | `if e` with a number does exactly what `if e != 0` does, for integers and floats |
| `BranchLaws.IfOther` | src/runtime/vm.cpp:552-558 | a boolean decides itself; a dud and an object take the other branch |
| `BranchLaws.WhileNumber` | src/runtime/vm.cpp:552-558 | `while e`, where the condition is a number in each round the loop gets to, does exactly what `while e != 0` does |
| `BranchLaws.WhileOther` | src/runtime/vm.cpp:552-558 | a boolean decides whether there is another round; a dud and an object end the loop |
| `BranchLaws.JumpElseExactly` | src/runtime/vm.cpp:552-558 | the machine goes on behind the jump exactly with true or a number that is not zero |
| `NumeralText.IntegerText` | src/ir/convert_ast.cpp:187-189 | the decimal text of a natural number is read as that number, with a minus sign as its negative |
| `NumeralText.PointText` | src/ir/convert_ast.cpp:190-191 | digits with a point between, scaled by 10 to the number of digits after it, are the number without the point, with either sign |
| `NumeralText.KindsOfNumerals` | src/frontend/lexing.cpp:161-207 | digits are an integer numeral, digits with one point a float numeral, with either sign |
| `ValueLaws.OrderLaws` | src/runtime/fast_value.cpp:328-435 | all six comparisons of two integers, or of two floats, follow from which one is smaller |
| `ValueLaws.EqualityExactly` | src/runtime/fast_value.cpp:328-351 | any two values are equal if and only if they are the same boolean or number; objects and duds equal nothing |
| `LoweringFacts.LowerSucceeds` | src/ir/convert_ast.cpp:417-435 | a fragment expression lowers, in exactly the temporaries counted for it, to an address that is valid from then on |
| `LoweringFacts.InternGood` | src/ir/convert_ast.cpp:89-104 | interning keeps every constant equal to the value its lexeme spells, which is that of the decimal text by `NumeralText`, and only extends the pool |
| `CompileFacts.CompileStmtsFacts` | src/ir/convert_ast.cpp:442-472 | no local ever moves to another register, definitions get registers above all allocated before, exactly the names defined in the text are added, constants are only added |
| `CleanLowering.LowerStmtsClean` | src/ir/convert_ast.cpp:482-715 | the lowering of a statement list adds the blocks and queues the links given by the shape of the code |
| `Backpatching.StmtsRedirected` | src/bcgen/emitter.cpp:220-223 | code for one `break` target differs from code for another exactly at the recorded jumps |
| `Backpatching.PatchMiddle` | src/bcgen/emitter.cpp:205-213 | patching the recorded jumps in the middle of a chunk redirects those and nothing else |
| `EmissionFacts.CloseLoop` | src/bcgen/emitter.cpp:198-215 | closing a loop aims its test and every `break` at the exit `nop` and the jump back at the first `nop` |
| `EmissionFacts.CloseElse` | src/bcgen/emitter.cpp:234-248 | closing an `if` with `else` aims the test past the jump and the jump at the closing `nop` |
| `EmissionFacts.EmitStmtsClean` | src/bcgen/emitter.cpp:179-263 | emitting lowered statements in block order appends exactly their compositional code, restores both stacks and records each `break` with its innermost loop |
| `Cfg.ApplyLinksFacts` | src/ir/cfg.cpp:59-73 | every block keeps the first two targets queued for it, in order; further ones are dropped; steps are untouched |
| `DfsOrder.WalkList` | src/bcgen/emitter.cpp:418-461 | the stack walk of a nested statement list emits its blocks once, whatever is on the stack below, back edges included |
| `DfsOrder.EmissionOrder` | src/bcgen/emitter.cpp:418-461 | blocks come out in increasing order, each at most once; all of them come out if and only if no `else` body has an `if` or `while` of its own |
| `DfsOrder.OrderLength` | src/ir/convert_ast.cpp:529-563 | no block is lost if and only if every `else` body is straight-line code, at any depth |
| `DfsOrder.TailDropped` | src/ir/convert_ast.cpp:557-562 | nothing after an `else` body with blocks of its own is emitted |
| `JumpSafety.CompiledJumpsLand` | src/bcgen/emitter.cpp:198-256 | the programs of the fragment are such programs |
| `JumpSafety.EmittedJumpsLand` | src/bcgen/emitter.cpp:198-256 | calls and conditions of any form included: where the lowering meets no error and no step is lost, every jump and conditional jump lands on a `nop` of its own chunk; `NestedElse.UnclosedIfGoesWrong` has one that does not |
| `JumpSafety.StmtsJumps` | src/bcgen/emitter.cpp:198-256 | inside a loop only a `break` may leave the code of a statement list, for the loop's exit |
| `JumpSafety.ExprPlain` | src/ir/convert_ast.cpp:181-423 | expressions lower to straight-line steps |
| `Simulation.SimulateBinary` | src/ir/convert_ast.cpp:277-346 | running a binary expression leaves every earlier register alone and its value in the result register, or stops with the source's math error |
| `Simulation.SimulateSequence` | src/ir/convert_ast.cpp:202-249 | running a sequence literal builds the object the source builds, items pushed in order, frozen if a tuple |
| `Simulation.SimulateArgs` | src/ir/convert_ast.cpp:358-372 | running call arguments leaves their values in consecutive registers ending at the frame top |
| `Simulation.SimulateCall` | src/ir/convert_ast.cpp:348-398 | after a call the result is in the first argument's register and all special registers are as before |
| `Simulation.SimulateAssign` | src/ir/convert_ast.cpp:400-415 | an assignment writes the variable's register and no other variable's |
| `Simulation.SimulateDef` | src/ir/convert_ast.cpp:442-472 | a definition puts its value in a register no other name has |
| `Simulation.SimulateReturn` | src/ir/convert_ast.cpp:585-598 | `return` leaves the value at the base of the window and goes back to the caller |
| `Simulation.SimulateIf` | src/ir/convert_ast.cpp:482-583 | the compiled `if` takes the branch the source takes and ends behind the closing `nop`; names defined in the branch keep their values in their registers |
| `Simulation.SimulateLoop` | src/ir/convert_ast.cpp:600-688 | the compiled loop does one round per source round and leaves by its test, `break` or `return`; names defined in one round keep their values in the next and after the loop |
| `Simulation.SimulateStmts` | src/ir/convert_ast.cpp:705-715 | running the code of a statement list shows the result of its source execution, for every kind of result, from any environment whose variables sit in their final registers |
| `Simulation.CalleeAgrees` | src/runtime/vm.cpp:567-587 | a callee starts with exactly its parameters in registers 0, 1, 2, ... |
| `Simulation.SimulateInvoke` | src/runtime/vm.cpp:567-614 | a call instruction does what invoking the function does, at any recursion depth, and changes nothing below its window |
| `Windows.NothingBelow` | src/runtime/vm.cpp:342-614 | for any code: as long as destinations are not negative and calls open windows upwards, nothing run before the matching return writes below the window |
| `Windows.CallReturns` | src/runtime/vm.cpp:567-614 | for any code: after the matching return all special registers are as before the call, and the base cell holds the returned operand |
| `Conditions.CallWindowExactly` | src/ir/convert_ast.cpp:358-397 | the callee's registers are the evaluated arguments, in order, if and only if all arguments but the first are atomic and the frame top is the last argument |
| `Conditions.NoArgumentsExactly` | src/runtime/vm.cpp:567-614 | a call without arguments, any code run by the callee: the caller reads the register in which the callee left its result if and only if the frame top is the last allocated temporary; if it is higher, the caller reads what its register held before |
| `Conditions.OperandKeptExactly` | src/ir/convert_ast.cpp:374-397 | the register of such a result is written by the lowering of the next operand if and only if that operand is not a literal or a variable |
| `Counterexamples.SharedResultGoesWrong` | src/ir/convert_ast.cpp:374-397 | `one() + two()` after a definition: the source returns 3, the machine 4 |
| `Counterexamples.MissedResultGoesWrong` | src/runtime/vm.cpp:584-586 | `return one()` in `main`: the source returns 1, the machine what register 0 held at the start |
| `Counterexamples.LoopCallGoesWrong` | src/ir/convert_ast.cpp:374-397 | a call in a loop with a temporary after it: the source returns 2, the machine 1 |
| `Conditions.LiteralConditionExactly` | src/runtime/vm.cpp:552-558 | a jump on a literal takes the branch the literal asks for if and only if the register with the constant's index has the same truth |
| `Conditions.NegationLowers` | src/ir/convert_ast.cpp:251-275 | negation adds one instruction, on the register with the number of the operand's address, whatever kind of address it is |
| `Conditions.NegationExactly` | src/runtime/vm.cpp:365-373 | that instruction stops the run exactly on a boolean, which it flips first |
| `Conditions.NativeCallLowers` | src/ir/convert_ast.cpp:348-423 | a call of a registered procedure ends in a native call with its id and the number of arguments |
| `Conditions.AccessLowers` | src/ir/convert_ast.cpp:277-346 | an access evaluates sequence and position in this order and gets the item into a fresh register |
| `Counterexamples.LiteralConditionGoesWrong` | src/runtime/vm.cpp:552-558 | `if true { return 0 } return 1`: the source returns 0, the machine does if and only if register 0 was truthy at the start |
| `SequenceGraph.LiteralBuilds` | src/ir/convert_ast.cpp:202-249 | a literal of any depth appends one object per sequence node, in preorder, equal to the literal, and changes no earlier object |
| `SequenceGraph.LiteralIsTree` | src/ir/convert_ast.cpp:202-249 | whatever existing objects the variables refer to: every new object but the first is referred to from exactly one item position of the new objects, of an earlier one; no sharing, no cycles |
| `SequenceGraph.MachineBuilds` | src/runtime/vm.cpp:225-315 | the machine builds the same graph and leaves earlier registers alone |
| `Marking.Mark` | src/runtime/vm.cpp:183-211 | marking ends on every object graph and the live set is exactly the objects reachable from the registers |
| `Marking.MarkStep` | src/runtime/vm.cpp:194-211 | one queue entry keeps the invariant and makes progress in the pair of unvisited objects and position of the first unvisited entry |
| `Marking.QueueShrinks` | src/runtime/vm.cpp:194-211 | a visited entry brings the first unvisited one closer although unvisited items are queued again |
| `Marking.MarkKeeps` | src/runtime/vm.cpp:201-210 | every item of a visited object stays visited or queued |
| `Marking.ClosedHoldsReachable` | src/runtime/vm.cpp:183-211 | a set with the roots, closed under items, holds all reachable objects |
| `HeapStorage.CreateSafeExactly` | src/runtime/heap_storage.cpp:18-41 | a create hands out a free slot of the table if and only if there is a hole or fewer than 1024 objects were created |
| `HeapStorage.CreateKeeps` | src/runtime/heap_storage.cpp:18-41 | holes stay distinct empty slots below the next id, and the overhead stays 16 times the live count |
| `HeapStorage.ServeKeeps` | src/runtime/heap_storage.cpp:18-54 | over any sequence of requests; the next id counts all creations |
| `HeapStorage.ServedWithinCapacity` | src/runtime/heap_storage.cpp:18-54 | the first 1024 creations are served, whatever is freed in between |
| `HeapStorage.ReuseCostsAnId` | src/runtime/heap_storage.cpp:20-36 | refilling a hole still uses up a fresh id |
| `HeapStorage.Storage.TryCreate` | src/runtime/heap_storage.cpp:18-42 | the slot handed out and the whole new state |
| `HeapStorage.Storage.TryDestroy` | src/runtime/heap_storage.cpp:44-54 | the whole new state; false exactly for an empty slot |
| `Engine.Engine.HandleNeg` | src/runtime/vm.cpp:365-373 | a boolean is flipped and an error reported; anything else is left as it is |
| `Engine.Engine.HandleJumpElse` | src/runtime/vm.cpp:552-558 | reads the register with the operand's number whatever the operand's mode, and goes on exactly if it holds true or a number that is not zero |
| `Engine.Engine.HandleCall` | src/runtime/vm.cpp:567-587 | does the machine's call step on the fixed buffers and the array of call frames |
| `Engine.Engine.HandleRet` | src/runtime/vm.cpp:595-614 | leaves the result at the window base and restores the frame; only returns below the collection threshold |
| `Engine.Engine.Run` | src/runtime/vm.cpp:57-160 | for runs within the buffers that stop: ends in the state the machine reaches, with the exit status it asks for |
| `Engine.Engine.TryMark` | src/runtime/vm.cpp:178-211 | the threshold test and the marking, not the sweep: marks nothing below the threshold, else exactly what the registers up to the frame top reach |
| `ControlFlowGraph.FlowGraph.LinkTo` | src/ir/cfg.cpp:59-73 | a block keeps its first two successors; other blocks are unchanged |
| `AstConversion.Conversion.RecordLocal` | src/ir/convert_ast.cpp:121-129 | false, with nothing changed, for a name that is taken |
| `AstConversion.Conversion.EmitBinary` | src/ir/convert_ast.cpp:277-346 | the right operand is lowered even if the left one failed |
| `AstConversion.Conversion.EmitDef` | src/ir/convert_ast.cpp:442-472 | a rejected redefinition has already emitted its move |
| `AstConversion.Conversion.EmitIf` | src/ir/convert_ast.cpp:482-583 | blocks, markers and links in queue order, also when a branch fails |
| `AstConversion.Conversion.EmitWhile` | src/ir/convert_ast.cpp:600-688 | blocks, markers and links of the loop in queue order, back edge included, also when the body fails |
| `AstConversion.Conversion.EmitBlock` | src/ir/convert_ast.cpp:705-715 | the id of the new block, or -1 after the first failing statement |
| `AstConversion.Conversion.ApplyPendingLinks` | src/ir/convert_ast.cpp:160-178 | the queue applied in order and emptied |
| `AstConversion.Conversion.EmitFunction` | src/ir/convert_ast.cpp:736-766 | one more graph, and all per-function state reset |
| `AstConversion.Conversion.Convert` | src/ir/convert_ast.cpp:33-59 | the whole conversion computes what the two-pass compiler function defines, rejections included |
| `Emitter.WalkableExactly` | src/bcgen/emitter.cpp:418-461 | the walk meets every marker with its construct open if and only if the emission is defined |
| `Emitter.Emitter.PatchFirst` | src/bcgen/emitter.cpp:207-213 | every listed jump gets the target, nothing else changes |
| `Emitter.Emitter.EndWhile` | src/bcgen/emitter.cpp:198-215 | patches the test, every break and the jump back of the innermost loop and pops it |
| `Emitter.Emitter.EndIf` | src/bcgen/emitter.cpp:234-248 | patches the test and the jump of the innermost `if` and pops it |
| `Emitter.Emitter.EmitChunk` | src/bcgen/emitter.cpp:418-461 | the walk with stack and visited set emits the blocks of the depth-first order |
| `Emitter.Emitter.Emit` | src/bcgen/emitter.cpp:26-44 | all chunks of a program, the stacks of open constructs carried from one to the next |
| `ExpressionGrammar.RoundTrip` | src/frontend/parsing.cpp:134-430 | parsing the tokens printed for an expression gives back that expression and exactly the remaining tokens, unless the next token goes on with an expression |
| `ExpressionGrammar.LevelBack` | src/frontend/parsing.cpp:291-430 | a printed expression becomes the left operand of its tier's loop: operators of one tier group to the left |
| `ExpressionGrammar.HeadBack` | src/frontend/parsing.cpp:199-225 | up to a place where a dot may follow |
| `ExpressionGrammar.CallBack` | src/frontend/parsing.cpp:227-263 | one pair of call parentheses; accesses nest to the right unless they end in a call |
| `ExpressionGrammar.PrintInjective` | src/frontend/parsing.cpp:391-430 | different trees print differently |
| `ExpressionGrammar.Reprinted` | src/frontend/parsing.cpp:134-430 | whatever is parsed can be printed, and reads back as the same tree |
| `Precedence.PrecedenceExactly` | src/frontend/parsing.cpp:291-430 | `x o y p z` is read as `x o (y p z)` if and only if `p` is in an earlier group than `o` of products, sums, equalities and comparisons, else as `(x o y) p z`, for any operands |
| `Precedence.PrintedOperand` | src/frontend/parsing.cpp:134-289 | literals, sequences, calls, accesses, negations and anything in parentheses are such operands |
| `KeptTokens.TokensKept` | src/frontend/parsing.cpp:134-430 | reading an expression and printing it changes nothing but parentheses: all other tokens are kept, in order |
| `MinimalParentheses.PrintShortest` | src/frontend/parsing.cpp:134-430 | no parentheses to spare: whatever tokens are read as an expression are at least as many as it is printed with |
| `TextRoundTrip.TextBack` | src/frontend/parsing.cpp:134-430 | an expression whose literals are words and numerals, printed, written out with any blanks, lexed with the driver's table and parsed, is that expression again, whatever follows that cannot go on with it |
| `TextRoundTrip.TokensBack` | src/frontend/lexing.cpp:20-64 | any tokens written out with blanks are seen again by the parser, in order |
| `TextRoundTrip.TextInjective` | src/frontend/parsing.cpp:391-430 | expressions with the same text are equal |
| `ExpressionGrammar.AssignRoundTrip` | src/frontend/parsing.cpp:432-453 | assignments read back |
| `ExpressionGrammar.StatementExactly` | src/frontend/parsing.cpp:432-467 | an expression statement reads back if and only if it is of the unary tier or stronger |
| `Parser.Parser.ParseLhs` | src/frontend/parsing.cpp:199-225 | the loop that rebuilds the left operand computes the grammar's access chain |
| `Parser.Parser.ParseCompare` | src/frontend/parsing.cpp:391-430 | recursive descent over the cursor computes the tree and the remaining tokens of the grammar |
| `Parser.Parser.ParseAssign` | src/frontend/parsing.cpp:432-453 | a unary left side with an optional assigned comparison |
| `Lexing.LexingUndoesJoining` | src/frontend/lexing.cpp:20-64 | lexing lexemes joined by blanks gives back their kinds and texts in order, with the blanks between |
| `Lexing.TokensPartition` | src/frontend/lexing.cpp:20-64 | without comments and strings the token texts make up the source |
| `Lexing.BoundsExactly` | src/frontend/lexing.cpp:133-270 | a token's bounds are those of its characters unless it is read in a loop and ends the source: then the end is one too far |
| `Lexing.DifferenceIsNumeral` | src/frontend/lexing.cpp:161-207 | without blanks a difference of digits is one numeral with the value of the first |
| `TextMeaning.CalculationMeans` | src/frontend/parsing.cpp:291-430 | the text of two integers with an operator sign between, lexed, parsed and evaluated: sum, difference and product modulo 2^32, quotient or remainder, or the comparison, with the math error for a zero divisor |
| `TextMeaning.PointMeans` | src/frontend/lexing.cpp:161-207 | a number with a point before its last `k` digits evaluates to a float that times 10^k is the number |
| `TextMeaning.BooleanMeans` | src/ir/convert_ast.cpp:186-187 | the words `true` and `false` evaluate to the booleans |
| `TextMeaning.SequenceMeans` | src/frontend/parsing.cpp:99-132 | numbers in brackets make a frozen object, numbers in braces one that is not, with the numbers in order |
| `TextMeaning.CommentMeans` | src/frontend/lexing.cpp:40 | a text between number signs is one token, which the parser does not see |
| `TextMeaning.StringMeans` | src/frontend/lexing.cpp:41 | a text between quotes is one string literal with that text |
| `TextMeaning.UnclosedMeans` | src/frontend/lexing.cpp:96-131 | without the second delimiter the rest is one unknown token |
| `TextMeaning.NameMeans` | src/frontend/lexing.cpp:240-269 | letters, digits and underscores that do not begin with a digit are a name if and only if the word is not reserved |
| `Lexing.Lexer.Next` | src/frontend/lexing.cpp:20-64 | one call; it advances before the end and stays there at the end |
| `NameAgreement.AcceptedLowers` | src/ir/convert_ast.cpp:717-766 | a call-free and string-free function that the analyzer accepts, with no local named like a function, is lowered without error, whatever was interned before |
| `NameAgreement.AcceptedProgramLowers` | src/ir/convert_ast.cpp:33-59 | a whole program of such functions that the analyzer accepts is lowered |
| `NameAgreement.ShadowingExactly` | src/ir/convert_ast.cpp:141-154 | the lowering finds a local in its own register if and only if no native procedure and no function has its name; the analyzer always finds the local |
| `NameAgreement.StmtsAgree` | src/semantics/analyzer.cpp:381-389 | the function scope and the local table have the same names after every statement, and no local moves |
| `NameAgreement.RecordAllExactly` | src/semantics/analyzer.cpp:414-425 | parameters are accepted if and only if they are distinct |
| `NameAgreement.ArgumentsUnchecked` | src/semantics/analyzer.cpp:158-185 | a call with an undeclared argument passes the analyzer and fails in the lowering without an error being counted |
| `Analyzer.GlobalsKept` | src/semantics/analyzer.cpp:381-389 | a body changes only the innermost scope |
| `AnalyzerLaws.AcceptedProgramFits` | src/semantics/analyzer.cpp:94-320 | in an accepted program, outside of arguments: every name is one of the function's or declared, a call on a declared name that no name of the function hides has as many arguments as the declaration has parameters, operators do not take sequences and functions unless the other operand is of unknown kind, and parameters, functions and values are not assigned to |
| `AnalyzerLaws.PlainProgramAccepted` | src/semantics/analyzer.cpp:323-512 | programs over numbers and booleans that declare names once, use names after their definition, call declared functions with the declared number of arguments and assign to definitions are accepted |
| `AnalyzerLaws.CallExactly` | src/semantics/analyzer.cpp:158-185 | a call on a name is accepted if and only if the item found may be called and has that arity; an exception gets out if and only if the arity is not known |
| `AnalyzerLaws.ArgumentsIgnored` | src/semantics/analyzer.cpp:158-185 | arguments do not matter but for their number |
| `AnalyzerLaws.ArgumentCallUnchecked` | src/semantics/analyzer.cpp:158-185 | an instance: a program is accepted that calls a function of two parameters with one argument, inside an argument |
| `AnalyzerLaws.ParameterCall` | src/semantics/analyzer.cpp:173 | a call of a parameter lets an exception out, whatever the arguments |
| `AnalyzerLaws.OperatorExactly` | src/semantics/analyzer.cpp:79-85 | an operator is accepted if and only if one operand is of unknown kind or both are numbers or booleans |
| `AnalyzerLaws.NegationExactly` | src/semantics/analyzer.cpp:187-208 | negation takes an operand of unknown kind, a number or a boolean |
| `AnalyzerLaws.AccessExactly` | src/semantics/analyzer.cpp:239-246 | items are read from anything but numbers, booleans and functions, at a place that is no sequence or function |
| `AnalyzerLaws.AssignExactly` | src/semantics/analyzer.cpp:87-91 | assigned to are definitions and items |
| `AnalyzerLaws.DefinitionExactly` | src/semantics/analyzer.cpp:327-343 | a definition is accepted if and only if its name is new in the scope, and is found from then on with the kind of its value |
| `AnalyzerLaws.DeclaredExactly` | src/semantics/analyzer.cpp:391-434 | the first pass succeeds if and only if no name is declared twice |
| `Analyzer.Analyzer.CheckFunction` | src/semantics/analyzer.cpp:391-434 | the verdict and the scopes of the specification; blocks open no scope |
| `Analyzer.Analyzer.Check` | src/semantics/analyzer.cpp:492-512 | the verdict of the specification for a program, in two passes |

## Left out

- Sweeping (src/runtime/vm.cpp:213-222): it neither consults the live set nor skips empty cells. `Machine` never collects, and runs of the engine that reach a collection, with 512 objects or more at a return, are outside `Engine.InstrFits`.
- Unary minus in the compilation theorem: the lowering negates the operand's own register, only booleans can be negated, and the machine reports an error when it succeeds. The lowering, the emitter and the machine model it; the fragment does not have it.
- Sequence access: it puts the address of an item into a register, through which later moves and operators write. It is lowered and emitted here, but running it is `Unmodelled`, and values have no reference constructor.
- Native procedures: calls to them are lowered and emitted, running them is `Unmodelled`.
- Correctness.MeaningPreserved: does not cover calls without arguments (`Conditions.NoArgumentsExactly`), nor calls in a loop with later temporaries (`Counterexamples.LoopCallGoesWrong`): there the machine does something else than the source.
- Correctness.ReturnsExactly: says nothing about programs that read a name before it has a value: the source has no meaning for them, while the machine reads what the register happens to hold.
- Engine.Engine.Run: covers runs that fit the fixed buffers; what the engine does beyond their ends is undefined in the code.
- Engine.Engine.HandleRet: covers returns below the collection threshold, because of the sweep.
- Engine.Engine.TryMark: the threshold test and the marking without the sweep; what it asks for holds in every state by `References.ReadyToMark`.
- Driver.BuildAndRun: covers runs that end within the buffers and below the collection threshold, as `Engine.Engine.Run` does.
- Conditions.LiteralConditionExactly: one step of the machine; what follows for a program is shown at one, `Counterexamples.LiteralConditionGoesWrong`.
- References.NothingDangles: of finished runs only, but from any start memory; `References.NeverDangles` has every state, from a start memory without references.
- TextRoundTrip.TextBack: an unknown token ends the expression here, where the parser reports it; texts written out by the printer have none.
- NameAgreement.AcceptedLowers: does not cover calls and strings; the analyzer does not look at call arguments (`NameAgreement.ArgumentsUnchecked`).
- Sixteen-bit widths of ids, jump targets and register numbers: they are unbounded here.
- Machine arithmetic on floats is arithmetic on reals, without rounding, infinities or NaN. Integer results wrap to 32 bits, which is what the usual hardware does where the language leaves overflow undefined, and so does the quotient of the smallest number by -1, which traps on some hardware; numerals beyond 32 bits, for which the conversion throws, keep their value.
- Linking from a block that does not exist, which happens when a branch fails to lower, is modelled as rejecting the program; the code dereferences null there.
- The two-step update of a destination in `mul`, `add` and `sub` is one step here; operands are read before it.
- Parsing of statements, functions, imports and lambdas, and recovery from errors: expressions carry the difficulty.
- Reads past the end in the front end: the lexer looks one character ahead, which is taken as a null character at the end of the source; the analyzer goes through a missing `else` body, which is accepted, and reports on the last argument of a call that may have none, which is rejected.
- Lines and columns of tokens and all error texts.
- Printing of the intermediate form, the disassembler, timing, reading of source files and the standard library.
- Opcodes that no program of the compiler contains: `load_const`, `inc`, `dec`, `jump_if`, `halt`, `seq_obj_pop`.
- Packing of operand modes into a metadata word: modes are part of an operand here.
