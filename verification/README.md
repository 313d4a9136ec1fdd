# Verified model of a small compiler

The repository compiles a small language to a graph of basic blocks and from there either interprets the graph
at compile time or emits x86-64 bytes. This project models those layers and proves what each one hands to the next:

- `Syntax`, `Source`: resolved syntax trees and what they mean, with loops, `do` expressions and `break value`.
- `Ir`, `Lowering`, `Shape`, `LoweringShape`, `Simulation`, `Correctness`: the block graph, the lowering into it, and the
  theorem that lowering preserves meaning, in both directions. `Arithmetic` says what single operations compute, with
  addition, multiplication and order on the operand words alone; `Example` is one program with its run.
- `Layout`, `Landing`, `Registers`: what lowering keeps true of the graph: the layout chain, the targets of branches and
  the linear use of registers.
- `Evaluator`, `Builder`, `Session`: the interpreter, the block builder and the recycling of blocks as classes that update
  their fields, each method proved against the functions above.
- `Machine`, `Backend`, `Refinement`, `GeneratedRuns`, `PlainLowering`, `NativeCode`: the back end that keeps every register
  in a frame slot, comparisons in the flags and loads in the slot of the local they load.
- `Bytes`, `Jumps`, `Encoder`, `InstructionTable`, `ByteMachine`, `NativeBytes`: the bytes. A processor that fetches, decodes
  and performs runs them, and arrives where the source run ends.
- `Parser`, `Layouts`, `Frames`, `Casts`, `Arena`, `OpStream`, `OpEncoding`, `Decimals`, `NumberBases`, `Align`, `Words`: the
  cores the layers rest on. Operator classes, argument places, layout rules and operation words are also stated without
  the tables and functions of the code, and each pair is proved equal.

The two ends meet in `NativeBytes.NativeBytesPreserveMeaning`: from a source run to a run of the patched bytes.

Words are 64 bits wide and wrap explicitly. Banks of registers and locals are total: reads outside give 0, writes outside
are lost. What the reserved banks of the interpreter hold at the start is arbitrary.

## Findings

Where the code does not do what its layers promise, the code is modelled as it is, one input shows the failure and a
condition says exactly when it is still right.

- A literal as an `if` condition is compared with register zero instead of the immediate zero: `if true` as the first
  thing in a function runs its else branch (`Limits.IfTrueRunsElse`, `Limits.ConditionMeetsRegisterZero`,
  `Limits.LiteralConditionAtStart`).
- A comparison with a literal of more than 28 bits compares a register instead: as the first thing in a function exactly
  `>=` and `<` are right (`Limits.WideGreaterIsFalse`, `Limits.WideComparison`, `Limits.FirstWideComparison`).
- The interpreter orders words as unsigned, the emitted jumps order them as signed: they agree exactly on equal sign bits
  (`Words.UnsignedOrderIsSignedOrder`, `Refinement.SameExec`).
- `&&` on two bools is a bitwise AND of the words in them, and a cast to bool copies the word: `2 as bool && 1 as bool` is
  false (`Limits.RawAndIsFalse`, `Words.LogicalMeaning`).
- A register that stands for a local does not survive a store that changes the local: `x + (x = 5)` is 10 in native code
  (`NativeCode.AssignInsideDiffers`, `Refinement.AliasOutlivesStore`).
- An unconditional jump back over exactly 127 or 128 bytes misses its target (`Jumps.JumpBackLands`, `Jumps.JumpsLand`).
- A displacement above 127 without a SIB byte is truncated to 8 bits (`InstructionTable.LongDisplacementGoesWrong`,
  `Encoder.AddressRoundTrip`); byte registers 4 to 7 without a REX prefix are ah, ch, dh and bh
  (`InstructionTable.HighByteGoesWrong`); the operand-size prefix is written behind REX (`Encoder.RoundTripExactly`).
- A constant whose value is left in the table of wide literals has no value at compile time
  (`Correctness.ConstantIsSourceValue`, `Session.Compilation.EvaluateConstant`).
- A `b` behind a zero inside a hexadecimal literal is taken for the mark of base 2: `0x0b` is 0
  (`NumberBases.ByteIsZero`, `NumberBases.MarkedIsRead`).
- A printed number is read back differently when a digit follows, or a base mark after a number with a zero in it
  (`Decimals.PrintedIsRead`).

## Model

| member | source | states |
|---|---|---|
| NativeBytes.NativeBytesPreserveMeaning | backends/x86_64.c:2533-2545 | a plain function whose source run ends: the patched bytes of its blocks, fetched, decoded and performed from the entry, arrive behind the last block with the source's locals in their slots, if frame and code are within reach, no jump goes back over 127 or 128 bytes and no ordering compares different signs |
| NativeBytes.NativeBytesComeFromSource | backends/x86_64.c:2533-2545 | the converse: when the processor arrives behind the last block, the source run ends with the locals found in the slots |
| NativeBytes.BlockAsBytes | backends/x86_64.c:2111-2173 | the bytes of one block take the processor to the address of the block the slot code goes to, with the same registers and slots |
| NativeBytes.BytesFollow | backends/x86_64.c:2533-2545 | a run of blocks that reaches the epilogue is a run of the bytes |
| NativeBytes.BlocksBehindBytes | backends/x86_64.c:2533-2545 | a run of the bytes that arrives behind the last block is a run of the blocks |
| NativeBytes.OpsTidy | backends/x86_64.c:1636-1660 | what a block emits has at most one jump, last and into its own function, and touches only slots of the frame as it is afterwards |
| ByteMachine.EncodedInDomain | backends/x86_64.c:341-503 | every instruction the integer back end writes is one that encoding and decoding preserve |
| ByteMachine.EncodedMeans | core/machine_code.h:1354-1374 | the fields of an encoded instruction mean that instruction, immediates extended to the word they stand for |
| ByteMachine.StepWritten | core/machine_code.h:2222-2304 | where the bytes of an instruction stand, the processor does what the instruction does |
| ByteMachine.RunWritten | core/machine_code.h:2222-2304 | the bytes of straight code do what the code does |
| ByteMachine.StepJumpIf | backends/x86_64.c:2132-2149 | a conditional jump goes to its target when its condition holds and otherwise to the code behind it |
| Correctness.LoweringPreservesMeaning | backends/ir.c:671-925 | for every supported expression and fuel: the generated blocks halt with the source's locals and value, fault as it does, or outlast its fuel; registers in use before are unchanged |
| Correctness.HaltingComesFromSource | backends/ir.c:1318-1446 | every halting run of the generated blocks is the image of a halting source run with the same locals and value |
| Correctness.SameHalting | src/eval.c:842-848 | the source ends with given locals and value if and only if the interpreted blocks do |
| Correctness.BodyPreservesMeaning | backends/ir.c:399-486 | the same for a function body with its trailing RET |
| Correctness.BodyHaltingComesFromSource | backends/ir.c:399-486 | the converse for a function body |
| Correctness.ConstantIsSourceValue | src/eval.c:975-982 | a constant evaluated at compile time has the source's value if and only if the value is not left in the literal table |
| Simulation.SimExpr | backends/ir.c:671-925 | what any lowered expression does inside any finished code, for every source result, with breaks going to their target blocks |
| Simulation.SimStmt | backends/ir.c:399-429 | the same for statements |
| Simulation.SimIterate | backends/ir.c:1373-1446 | from the condition block of a loop on, the blocks do what the remaining iterations do, however the loop is left |
| Simulation.SimBreak | backends/ir.c:1318-1336 | a break stores its value in the result local of its target and enters the target block, across any nesting |
| Simulation.SimDo | backends/ir.c:671-699 | a `do` expression ends with the value its break carried |
| Example.ProgramRuns | backends/ir.c:671-925 | a `do` around a loop whose `if` breaks out of both levels with a value: the source run ends with 12, whatever the locals held |
| Example.BlocksRun | backends/ir.c:1318-1446 | the blocks of that program, lowered onto any block table, halt with 12 |
| LoweringShape.LowerExtends | backends/ir.c:294-328 | lowering only appends to the current block, adds fresh blocks between it and its successor and touches no other block |
| LoweringShape.LowerOperand | backends/ir.c:330-365 | what lowering returns is an immediate of at most 28 bits, a register in use or a wide literal; a cast that takes over the register of the last operation takes over one that a load has just defined |
| LoweringShape.LowerLocals | backends/ir.c:407-417 | lowering numbers locals as resolution does |
| Lowering.LiteralOperand | backends/ir.c:700-719 | a literal is an operand itself if and only if it is below 2^28; otherwise it goes to the end of the literal table |
| Layout.FunctionLayout | backends/ir.c:294-328 | a finished function is one chain of exactly its own blocks, each once; each has at most one branch, last, and every two-way branch has a target right behind it |
| Layout.ExpressionLayout | src/eval.c:906-960 | the same for an expression evaluated at compile time |
| Layout.LowerPiece | backends/ir.c:671-695 | at every step of lowering the blocks made so far are a sealed stretch of the layout that ends in the open current block |
| Layout.IfPiece | backends/ir.c:1337-1372 | the blocks of an `if` keep that shape |
| Layout.LoopPiece | backends/ir.c:1373-1446 | the blocks of a loop keep that shape |
| Landing.LowerLands | backends/ir.c:1318-1446 | blocks made by lowering branch only to blocks of the same function |
| Landing.FunctionLands | backends/ir.c:430-486 | in a finished function every branch goes to a block of its own chain |
| Landing.ExpressionLands | src/eval.c:955-966 | the same for an expression evaluated at compile time |
| Landing.SameRun | src/eval.c:842-848 | a run inside a closed set of blocks depends on no other block |
| Registers.DefinedOnceReadOnce | backends/ir.c:22-41 | over all blocks of a function, with assignments in statement position, every register is defined by exactly one operation and read by at most one, and no other register is read |
| Registers.ComparisonReadNext | backends/ir.c:846-906 | when no comparison is an operand of arithmetic or of a comparison, whatever reads a comparison is the next operation of the same block, also for logical operands, stored values and values carried out of a `do` |
| Registers.AppendLinear | backends/ir.c:28-41 | appending an operation that reads what is ready to be read keeps the linear use of registers |
| Registers.DependsOnSources | src/eval.c:553-720 | an operation does not depend on a register it does not read: put any word there, and every other result is the same |
| Registers.ChangesDefined | src/eval.c:553-720 | an operation changes no register but the one it defines |
| Evaluator.Eval.EvalOp | src/eval.c:553-720 | one operation updates the frame as the step relation says; false is a divide fault |
| Evaluator.Eval.EvalBlock | src/eval.c:521-552 | the loop over operations runs a block to its end or its branch and leaves the block to go to |
| Evaluator.Eval.EvalFn | src/eval.c:817-855 | the loop over blocks halts exactly as the step relation does |
| Arithmetic.Sum | src/eval.c:585-604 | ADD leaves w in its register, and all else as it was, if and only if w is congruent to the sum of the operands modulo 2^64 |
| Arithmetic.Difference | src/eval.c:585-604 | SUB: congruent to the difference |
| Arithmetic.Product | src/eval.c:585-604 | MUL: congruent to the product |
| Arithmetic.UnsignedDivision | src/eval.c:585-622 | DIV and MOD on unsigned words a and b fault exactly for b = 0 and otherwise leave q and r with a = q * b + r and r < b |
| Arithmetic.SignedDivision | src/eval.c:585-622 | DIV and MOD on signed words fault exactly for a zero divisor and for the one quotient that does not fit, and otherwise leave q and r with a = q * b + r, r smaller than b in magnitude and zero or of the sign of a |
| Arithmetic.Negation | src/eval.c:645-660 | NEG leaves w if and only if w and the operand add up to 0 modulo 2^64 |
| Arithmetic.Comparison | src/eval.c:557-583 | a comparison of two registers leaves 1 or 0 as the order of their words says |
| Builder.IrBuilder.TakeBlock | backends/ir.c:294-326 | a block comes off the recycled chain or grows the table; live and recycled blocks stay apart and both chains acyclic |
| Builder.IrBuilder.CreateBlock | backends/ir.c:294-328 | a new empty block is laid out right after the current one |
| Builder.IrBuilder.Leave | backends/ir.c:1326-1333 | a jump out, and a block threaded in by hand that lies where appending would have put it |
| Builder.IrBuilder.GenerateExpression | backends/ir.c:665-1446 | the builder, updating its tables, does what the lowering function says |
| Builder.IrBuilder.GenerateDo | backends/ir.c:671-699 | the same for `do` |
| Builder.IrBuilder.GenerateIf | backends/ir.c:1337-1372 | the same for `if` |
| Builder.IrBuilder.GenerateLoop | backends/ir.c:1373-1446 | the same for loops |
| Builder.IrBuilder.GenerateStatement | backends/ir.c:399-429 | the same for statements |
| Builder.IrBuilder.BeginFunction | backends/ir.c:438-465 | a function's entry always grows the table |
| Builder.IrBuilder.BeginConstant | src/eval.c:909-917 | a constant's entry comes off the recycled chain when there is one |
| Builder.IrBuilder.Recycle | src/eval.c:968-970 | the chain of an evaluated constant becomes the recycled chain, and nothing live is in it |
| Builder.LinkedByHand | backends/ir.c:1328-1333 | threading an unlinked block in by hand gives what appending it gives |
| Session.Compilation.GenerateFunction | backends/ir.c:430-486 | after any function lowering, the chains of live functions and the recycled chain are disjoint and acyclic, and every function lowered so far still does what its body says |
| Session.Compilation.EvaluateConstant | src/eval.c:906-982 | evaluating a constant gives the source's value if and only if it is not left in the literal table, leaves every live block as it was and keeps every function correct |
| Session.StaysAlive | src/eval.c:968-970 | a function stays correct on any block table that keeps its own blocks |
| Session.GrowsHealthy | backends/ir.c:438-469 | a function lowered onto fresh or recycled blocks joins the others without harming them |
| Words.LogicalMeaning | src/eval.c:624-705 | for all words: OR of the operands after TEST decides the disjunction; AND decides the conjunction if and only if an operand is an integer, is zero, or the two bools share a one bit |
| Source.LogicDecides | src/eval.c:624-705 | for expressions: `||` decides the disjunction of its operands; `&&` decides the conjunction if one of them is of integer form, and for two of bool form if and only if one is zero or they share a one bit |
| Words.CanonicalClosed | src/eval.c:624-705 | on bools from comparisons, literals and logical operators both operators are right and give such a bool again |
| Words.UnsignedOrderIsSignedOrder | src/eval.c:553-571 | the unsigned order of two words is their signed order if and only if their sign bits are equal or the operator is `==` or `!=` |
| Limits.ConditionMeetsRegisterZero | backends/ir.c:1348-1355 | an `if` on an immediate or integer register takes its body exactly when the condition differs from register zero |
| Limits.LiteralConditionAtStart | backends/ir.c:1348-1355 | with no register in use a literal condition never takes the body: right if and only if the literal is zero |
| Limits.IfTrueRunsElse | src/eval.c:562-571 | a program and its run: `if true` runs its else branch |
| Limits.WideComparison | src/eval.c:553-571 | a comparison of a wide literal with a small one compares some register with the small one; right exactly for the words of that register on the literal's side |
| Limits.FirstWideComparison | src/eval.c:553-571 | where no register and no literal is in use yet, right if and only if the operator is `>=` or `<` |
| Limits.WideGreaterIsFalse | src/eval.c:553-571 | a program and its run: a wide literal is not greater than 5 |
| Limits.RawAndIsFalse | src/eval.c:683-709 | a program and its run: two true bools with a false conjunction |
| Machine.Inverse | core/machine_code.h:2117-2138 | the inverse condition holds for exactly the flags for which the condition does not |
| Machine.JumpsDecideSignedOrder | backends/x86_64.c:2039-2083 | after a CMP the chosen jump decides the signed order of the operands, overflow included |
| Backend.Generator.Load | backends/x86_64.c:415-503 | loading an operand writes the code the function gives and marks the register read |
| Backend.Generator.MoveToStack | backends/x86_64.c:704-755 | a result goes to a new slot at the end of the frame |
| Backend.Generator.GenerateCompute | backends/x86_64.c:1889-1960 | arithmetic writes the code the function gives |
| Backend.Generator.GenerateBranch | backends/x86_64.c:2132-2173 | a two-way branch falls into its layout successor and jumps to the other target |
| Backend.Generator.GenerateOp | backends/x86_64.c:1636-2173 | one operation updates places, frame and code as the function says |
| Backend.Generator.GenerateBlock | backends/x86_64.c:1636-1660 | the loop over the operations of a block |
| Backend.Generator.GenerateFunction | backends/x86_64.c:2533-2537 | the loop over the layout chain of a function |
| Backend.LocalsInOrder | backends/x86_64.c:2448-2463 | the slots of locals are those the loop over them hands out, 8 bytes each |
| Refinement.OpRefined | backends/x86_64.c:1394-1401 | one checked operation: the emitted code takes registers, flags and slots from the frame before to the frame after, aliases and pending comparisons included |
| Refinement.OperandLoaded | backends/x86_64.c:415-503 | reading an operand puts the interpreter's value into the machine register and disturbs nothing else |
| Refinement.AliasMade | backends/x86_64.c:1394-1401 | taking over the local's slot needs no code |
| Refinement.AliasOutlivesStore | backends/x86_64.c:1394-1401 | after a store to the local, the register that stands for it still has the interpreter's value if and only if the store did not change the local |
| Refinement.ComparisonMade | backends/x86_64.c:2039-2083 | a comparison waits in the flags with the value the interpreter gives its register |
| Refinement.SameExec | src/eval.c:553-571 | interpreter and machine compare alike if and only if the operands have equal signs or the operator is an equality |
| GeneratedRuns.BranchRefined | backends/x86_64.c:2132-2173 | after the code of a branch, control is where the interpreter goes: fall-through with the inverted condition picks the same successor |
| GeneratedRuns.BlockFollows | backends/x86_64.c:1636-2173 | a block of emitted code and the interpreter arrive at the same block with the same locals |
| GeneratedRuns.GeneratedCodeRuns | backends/x86_64.c:2533-2537 | whenever the interpreter halts, the emitted code of a checked function reaches the epilogue with the same locals |
| GeneratedRuns.GeneratedCodeComesFrom | backends/x86_64.c:2533-2537 | whenever the emitted code reaches the epilogue, the interpreter halts with the same locals |
| GeneratedRuns.ChainEmits | backends/x86_64.c:341-348 | the generator fails no assertion on the chain of a checked function |
| PlainLowering.PlainFunctionChecked | backends/ir.c:22-41 | every block of a lowered plain function reads each register once, before its local is stored to again, and each comparison at once |
| PlainLowering.NumberChecked | backends/ir.c:846-906 | evaluating a number leaves one more register pending and everything else as it was |
| NativeCode.NativeCodePreservesMeaning | backends/x86_64.c:2533-2537 | a plain function whose source run ends: the generator succeeds and the slot code reaches the epilogue with the source's locals |
| NativeCode.NativeCodeComesFromSource | backends/x86_64.c:2533-2537 | when the slot code reaches the epilogue, the source run ends with its locals in the slots |
| NativeCode.AssignInsideOps | backends/ir.c:768-906 | the operations of `x + (x = 5)` |
| NativeCode.AssignInsideEmits | backends/x86_64.c:1394-1401 | the code emitted for them |
| NativeCode.AssignInsideDiffers | backends/x86_64.c:1394-1401 | the code and the interpreter agree on that sum if and only if `x` was 5 already |
| Bytes.SignedRoundTrip | backends/x86_64.c:2539-2545 | a signed little-endian field gives a number back if and only if it fits |
| Jumps.JumpBackLands | backends/x86_64.c:2111-2121 | a jump back lands on its target if and only if the distance is not -127 or -128 |
| Jumps.AllWritten | backends/x86_64.c:2533-2537 | after any number of blocks each lies where the one before it ends, and relocations and open fields belong together one for one |
| Jumps.FieldsApart | backends/x86_64.c:2539-2545 | patch windows never overlap another block |
| Jumps.JumpsLand | backends/x86_64.c:2533-2545 | after back-patching every jump lands on its target and every block falls into the next, except exactly the jumps back over 127 or 128 bytes |
| Jumps.Assembler.GenerateBlock | backends/x86_64.c:2111-2173 | a block is appended with its jump, encoded at once or left open with a relocation |
| Jumps.Assembler.GenerateAll | backends/x86_64.c:2533-2537 | all blocks of a chain |
| Jumps.Assembler.Patch | backends/x86_64.c:2539-2545 | the loop over relocations fills every open field |
| Encoder.AddressRoundTrip | core/machine_code.h:2429-2560 | an address reads back by the ModR/M and SIB rules if and only if a plain base has a displacement of at most 127, an index is below 8 and a bare rbp or r13 base has no index |
| Encoder.RoundTripExactly | core/machine_code.h:2222-2613 | an instruction reads back as its own fields, leaving what follows, if and only if its address is encodable, its byte registers are below 4 or come with REX, its 16-bit form needs no REX, its opcode register is below 8 and its immediate fits |
| Encoder.StreamDecodes | core/machine_code.h:2222-2613 | the bytes of any list of such instructions decode to exactly that list |
| Encoder.CodeWriter.WriteAddress | core/machine_code.h:2429-2560 | the writer appends ModR/M, SIB and displacement as the function says |
| Encoder.CodeWriter.RexPrefix | core/machine_code.h:2236-2304 | the REX prefix built step by step is the one the operands need |
| Encoder.CodeWriter.WriteInstruction | core/machine_code.h:2222-2613 | the writer appends prefixes, opcode, address and immediate |
| InstructionTable.TableIsGood | core/machine_code.h:1062-1083 | every row agrees with the processor's opcode map |
| InstructionTable.TableIsUnambiguous | core/machine_code.h:1062-1083 | no two rows share their bytes: the fields of an instruction name its row |
| InstructionTable.WrittenIsRead | core/machine_code.h:2222-2613 | an instruction of the table is read back with its mnemonic, form, registers, address and immediate |
| InstructionTable.LongDisplacementGoesWrong | core/machine_code.h:2525-2545 | an instruction and its bytes: displacement 200 reads -56 |
| InstructionTable.HighByteGoesWrong | core/machine_code.h:2236-2304 | an instruction and its bytes: spl without REX is ah |
| Parser.PrintThenParse | src/parser.c:545-592 | any tree of operators printed with the minimal parentheses parses back to itself and leaves what follows |
| Parser.PrintIsInjective | src/parser.c:398-450 | no two trees are printed alike |
| Parser.ParseThenPrint | src/parser.c:545-592 | tokens without parentheses are exactly what the tree they parse to is printed as |
| Parser.TableOrdersClasses | src/parser.c:398-430 | the numbers of the table order any two operators as the classes do: assignments, or, and, bit or, bit xor, bit and, equalities, orderings, sums, products |
| Parser.ParsesByClasses | src/parser.c:545-592 | tokens without parentheses are parsed to a tree of those tokens in which every operand binds tighter than its operator, to the left as tight |
| Parser.GroupingIsParsed | src/parser.c:545-592 | every such tree is what its tokens are parsed to |
| Parser.OneGrouping | src/parser.c:545-592 | and the only such tree for them |
| Parser.TwoOperators | src/parser.c:545-592 | for any two operators between three primaries: the second takes the middle one if and only if its class binds tighter |
| Parser.MinusTakesPrimary | src/parser.c:684-736 | prefix minus takes the next primary and nothing more, whatever operator follows |
| Parser.TokenReader.ParsePrimary | src/parser.c:684-736 | a primary consumes the tokens the function says |
| Parser.TokenReader.ParseFrom | src/parser.c:545-592 | the two nested loops of the climb, with `*` looked at again as a postfix token, end and give the function's tree |
| Layouts.CalculateOffsets | backends/ir.c:495-516 | the loop over fields gives every field's offset and the largest alignment: each field at the least multiple of its alignment that is not below the end of the one before |
| Layouts.FieldsArranged | backends/ir.c:495-516 | the offsets follow the rules of layout, stated as a relation without the functions of the code |
| Layouts.TypeTakes | backends/x86_64.c:206-238 | so do alignment and bytes of every type: integers and pointers as aligned as they are large, slices 16 bytes at multiples of 8, structs the least multiple of their largest alignment that holds the last field |
| Layouts.TakesOnce | backends/x86_64.c:206-238 | the rules leave no other alignment or number of bytes |
| Layouts.FieldsApart | backends/ir.c:495-516 | an earlier field ends before a later one starts |
| Layouts.FieldInside | backends/x86_64.c:206-238 | every field lies inside its struct |
| Layouts.ExtentAligned | backends/x86_64.c:206-238 | what an object occupies is a multiple of its alignment, so array elements stay aligned |
| Layouts.PathInside | backends/ir.c:547-590 | the object a path of accesses selects lies inside the whole object and is aligned |
| Layouts.PathsApart | backends/ir.c:547-590 | two paths that diverge denote disjoint bytes |
| Layouts.ScalarPlaced | backends/ir.c:547-590 | wherever a path leads to an integer of b bytes, a pointer or a slice, its offset is a multiple of b, 8 or 8, and its bytes are inside the whole |
| Layouts.ScalarsApart | backends/ir.c:547-590 | no other scalar reaches into those bytes |
| Layouts.FieldStarts | backends/ir.c:547-590 | a path to a field leads where the rules put that field |
| Layouts.ElementStarts | backends/ir.c:547-590 | a path to element k leads k times the bytes of an element further |
| Layouts.SliceStarts | backends/x86_64.c:206-238 | a slice is a data pointer at 0 and a length at 8 |
| Layouts.PathsAdd | backends/ir.c:547-590 | the offsets of a path and of its continuation add up |
| Frames.PlacesSeparate | src/callconv.c:31-67 | distinct arguments get distinct registers or disjoint stack words |
| Frames.PlaceOfArgument | src/callconv.c:3-67 | for any list of kinds: an argument with n < 4 earlier ones of its kind is in register n of its bank, any other at 0x20 + 8 times the number of earlier arguments on the stack |
| Frames.HiddenPointerFirst | backends/x86_64.c:2235-2255 | a hidden pointer to the result is in integer register 0, integers move up by one register and floats stay |
| Frames.ArgumentsArrive | backends/x86_64.c:2235-2294 | for every list of arguments, with or without a hidden result pointer: what the caller writes to each place the callee finds at the offset it records for that parameter, after return address, prologue and homing of register parameters |
| Frames.HomedParameter | backends/x86_64.c:2493-2523 | moving register parameters to slots loses none of them and overwrites no stack parameter |
| Frames.StackNeeded | src/callconv.c:48-56 | the loop over a call's arguments gives exactly the end of its highest stack place, or 0 |
| Frames.Frame.NewSlot | backends/x86_64.c:664-672 | a slot is the least aligned one that does not overlap what is in use; slots are pairwise disjoint |
| Frames.Frame.FrameSize | backends/x86_64.c:2559-2563 | the adjustment of rsp is the least multiple of 16 that covers slots and outgoing arguments |
| Frames.SlotContained | backends/x86_64.c:2559-2563 | every slot lies between the outgoing arguments and rbp |
| Frames.EpilogueRestores | backends/x86_64.c:2468-2476 | the epilogue restores rsp and the five saved registers |
| Casts.CastIsExact | backends/x86_64.c:775-917 | any cast between integer types leaves the source's number modulo the destination's width, whatever the register held before |
| Arena.Arena.Alloc | core/core1.h:597-622 | a new region is inside a chunk and apart from every live one, also when the slow path takes more than the chunk's size |
| Arena.ChunkIsPages | core/core1.h:538-552 | a chunk is the least number of pages that holds its header and the size asked for |
| Arena.Arena.GrowInPlace | core/core1.h:624-666 | the last region grows where it is when its chunk has room |
| Arena.Arena.CopyToEnd | core/core1.h:624-666 | another region is copied behind the last one of the chunk |
| Arena.Arena.CopyToNew | core/core1.h:624-666 | without room it is copied into a new chunk |
| Arena.Arena.Realloc | core/core1.h:624-666 | reallocation keeps the old bytes and every other region as it was |
| OpStream.WalkRecovers | backends/ir.c:43-91 | walking the flat stream of any operations gives them back |
| OpStream.WalkIsFlatten | backends/ir.c:43-91 | a stream that can be walked is the flattening of what it was walked to |
| OpStream.GenerateReverseOps | backends/ir.c:93-104 | the reversing pass gives exactly the flattening of the reversed operations |
| OpStream.AppendInvoke | backends/ir.c:994-1053 | an invocation whose count is filled in after its arguments is well formed |
| OpEncoding.PackRoundTrip | backends/ir.h:6-18 | a packed operand gives its kind and payload back if and only if the payload is below 2^28 |
| OpEncoding.LineMeans | backends/ir.c:22-41 | the words an operation is appended as mean that operation |
| OpEncoding.WalkGivesOperations | backends/ir.c:43-91 | walking the stream of any list of appended operations gives exactly those operations |
| OpEncoding.ReverseBlock | backends/ir.c:93-104 | the reversing pass on the stream of any list gives the stream of the list backwards |
| Decimals.FormatInt | core/core1.h:751-791 | filling the buffer from its end gives the decimal digits |
| Decimals.NumberLexer.NextNumber | src/lexer.c:102-205 | the loop over characters gives the token and stops where it ends |
| Decimals.DigitsValue | core/core1.h:751-791 | the digits of a word add up to the word |
| Decimals.PrintedIsRead | src/lexer.c:102-205 | a printed word is read back as an integer of its value that ends where its digits end, if and only if what follows does not run on |
| NumberBases.MarkedIsRead | src/lexer.c:102-205 | a literal of base 2, 8 or 16 below 2^64 is read as its number and ends where its digits end, whatever delimiter follows, if and only if no `b` comes after a zero among its digits |
| NumberBases.SmallBasesHaveNone | src/lexer.c:102-205 | in bases 2 and 8 that is always so |
| NumberBases.ByteIsZero | src/lexer.c:102-205 | a literal and its token: `0x0b` is 0 |
| Align.MaskAligns | core/core1.h:340-342 | clearing low bits gives the least aligned number that is not smaller |

## Left out

- Name resolution and typing are taken as given: locals have their numbers, types are on the nodes, breaks know their depth.
- Early `return`: the interpreter and the back end do not stop at it; only the trailing RET is modelled.
- Calls in the interpreter, native stubs and executable memory.
- Parameters, pointers, strings, slices, structs and floats in lowering; `continue` has no lowering in the source.
- Negative constants: the sign bits overwrite the operand's tag.
- `if` on something that is not a bool register is outside `Supported`; `Limits` says what it does.
- Comparisons with literals wider than 28 bits are outside `Supported`; `Limits` says what they do.
- Nested evaluation of constants, and functions declared inside functions.
- The frame machine leaves out DIV and MOD, AND, OR, XOR and TEST of values, casts, retyped loads, and comparisons used as
  numbers (SETcc); `PlainLowering.Plain` is the class of programs without them.
- A loop condition that is an immediate, in native code: the back end takes its number for a register.
- The debug assertion that a register is read once is modelled as a failure of the generator.
- Parser: calls, indexing, member access, casts, pointer types and the statement-position flag end the model.
- Encoder: VEX and SSE forms, rip-relative addresses, rep prefixes, SBB and ADC rows, the 16-bit destination of MOVZX and MOVSX.
- Frames: values of parameters are words; the control and status register save of `main` is not modelled.
- Arena: save, restore, reset and aligned allocation; pages from the system are never adjacent to an earlier chunk.
- Decimals: printing in other bases, padding, and a dot behind the number, which starts a float.
- Layout offsets cached in the type: the model computes them anew.
- File output, relocations of functions and data, command line and printing.
