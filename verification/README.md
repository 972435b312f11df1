# Parus: models of compiler passes and runtime protocols

Parus is a compiler toolchain. This project models six of its parts in Dafny and proves what they are for. Each
part is independent of the others.

**SIR to gOIR lowering and placement** (`Sir`, `SirSemantics`, `Goir`, `GoirMachine`, `GoirVerify`, `Lowering`,
`Growth`, `Typing`, `SimulationBase`, `Simulation`, `StmtSimulation`, `Correctness`, `Sites`, `NullCase`, `ValueIds`,
`Fragments`, `OpenBlock`, `BlockEdges`, `UnitPayload`, `Builder`, `Placement`, `Operators`, `Meanings`,
`Checks`, `Subset`). `SirSemantics` gives structured
programs a meaning by evaluation with fuel; `GoirMachine` gives CFG modules a meaning by small steps with a stack of
frames. `Lowering` is the builder as
functions, class `Builder` is the builder as the source writes it, with a module it appends to and a state it moves,
and every method is proved equal to its function. The main theorem says that the source and the CFG, and after it
the placed CFG, end alike and are never stuck. The proof rests on an append-only invariant (`Growth`) and a
simulation through expressions, statements, loops and recursive calls. Apart from it, and without the module checks,
`OpenBlock` decides where the builder keeps exactly one block open and `BlockEdges` where edges lead; `Sites` says
where in the finished module each expression and statement is, and `NullCase` what every run does with absent
optionals. Operators are parameters of all this; `Operators` fixes them to those of integers and booleans and says what
each token comes to, and `Meanings` what literals, patterns, declarations and tables are, `Checks` what the
module checks and placement come to, and `Subset` which programs are built at all. As in the source, `and` and
`or` evaluate both operands.

**C macro import** (`MacroExpr`, `MacroEval`, `MacroPromote`). The recursive-descent parser that evaluates while it
parses, against trees and their minimally parenthesised text; the memoised evaluation of macros that refer to each
other, against a least fixed point; the rounds that promote function-like macros by composing argument maps, against
full expansion.

**The parlib container** (`LittleEndian`, `ParlibFormat`, `ParlibFile`, `ParlibReader`, `ParlibRoundTrip`,
`ParlibText`, `ParlibBuild`, `ParlibBytes`, `ParlibContents`). A file is a sequence of bytes with a position. The stream writer, the validating
reader and the chunk stream are classes or methods over it; build and inspect are put together from them. `ParlibBytes`
and `ParlibContents` say outright what lies at which byte of a file and which chunks a build has.

**Encoded types and alias rewriting** (`TypeSemantic`, `AliasRewrite`). The length-prefixed grammar, its parser
class and serialiser, and the two rewritings of type names.

**The actor runtime** (`Actors`). A machine of single atomic steps over any number of threads. One model serves the
hosted runtime, with its reader/writer lock, and the freestanding one, whose lock is always exclusive.

**Bitfields and C layout** (`Bitfields`, `CLayout`). The importer's layout check with the emitted loads and stores,
on bits of memory; sizes, alignments and offsets of layout(c) records.

`Bits`, `LittleEndian`, `Literals` and `Wrappers` hold what several parts share.

## Where the code falls short

- A value without an id, such as a unit result taken as an optional, is dropped where it is to be stored, and nothing
  says so: in a declaration (goir_builder.cpp:1736-1738) and in an assignment (goir_builder.cpp:1294). `UnitPayload` has
  the exact condition for both, three accepted programs and what their runs come to.
- `a ?? b` whose payload is of unit type, or whose `b` has no id, is given up half-way (goir_builder.cpp:883, 892)
  without a message, and leaves blocks open: `OpenBlock.OneOpenBlock` has the exact condition,
  `UnitPayload.UnwrapLeftOpen` a program. The module checks reject what was built.
- The TOC entry count is cut to 32 bits (Parlib_reader_writer.cpp:470), so a file of 2^32 chunks or more does not open
  again: `ParlibRoundTrip.WrittenThenRead` has the exact condition.
- List entries with unnamed enum values are dropped when the text is read (Parlib_codec_helpers.cpp:350, 377):
  `ParlibText.DepsBackWhole` and `ParlibText.ExportsBackWhole` have the exact condition.
- The importer takes bitfields with 128-bit storage (c_header_import.cpp:1616, 1621), but masks have 64 bits
  (LLVMIRLowering.cpp:3158-3162): `Bitfields.KeepsOthersIff` has the exact condition.
- Two threads can destroy one actor when its last handle is given up by a thread outside while another is in a context
  of it, or while another is at the end of leaving one (prt_hosted.cpp:138-139): `Actors.HarmlessExactly` has the exact
  condition, `Actors.HarmlessPlainly` its plain form where contexts do not wait for one another, `Actors.DestroyedTwice`
  a run. A context is sure to keep the actor only while it waits for a lock that the destroying thread holds, or others
  that wait themselves; one between counting itself and waiting may still run out of memory and go.
- The hash seed of chunks (Parlib_codec_helpers.cpp:22) is the offset basis of FNV-1a without its last digit, so the hashes
  are not those of FNV-1a: `ParlibFormat.FnvVectors` has both for one text. What the hashes are for still holds
  (`ParlibFormat.FnvSeesByte`).
- A bitfield of a packed record may have a storage unit that reaches past the record (c_header_import.cpp:1975-1977):
  `Bitfields.UnitInRecord` has the exact condition.

## Assumptions

Programs are well typed (`Typing.WellTyped`; for the types brought by edges also `BlockEdges.PayloadTyped`, the rule that
`a ?? b` has the payload's type), with unique symbols; operators and external functions are parameters of
the meaning. Files are shorter than 2^63 bytes, the
range of a stream position, and reading and writing them succeeds unless a parameter says otherwise. A thread clones
and enters an actor with a handle of its own. A thread that waits for a lock can take it when it is free. Counters of an
actor stay below 2^64 - 1. Memory is little-endian. Mask constants are taken modulo the width of the storage type.
Record alignments are powers of two, and records do not contain themselves.

## Model

| member | source | states |
|---|---|---|
| Correctness.BuildPreservesMeaning | frontend/src/goir/goir_builder.cpp:194-221 | for every accepted well-typed program, function, arguments and globals, the source ends with a result or a fault, and globals, if and only if the lowered CFG, run from the entry block, ends with the same, whatever the operators mean; which operator a token is, is said by `Operators` |
| Correctness.SourceToMachine | frontend/src/goir/goir_builder.cpp:1817-1851 | whatever a call of the source function comes to, the machine comes to in some number of steps |
| Correctness.MachineToSource | frontend/src/goir/goir_builder.cpp:1817-1851 | a machine that has stopped after k steps stopped with what the source gives, with no more fuel than k |
| Correctness.NeverStuck | frontend/src/goir/goir_builder.cpp:1841-1850 | no run of an accepted program is ever stuck: no undefined value is read, no edge goes astray, no argument count is wrong |
| Correctness.GetsArePresent | frontend/src/goir/goir_builder.cpp:873-887 | in every run `optional.get` is executed only on a present optional |
| Correctness.AllCalls | frontend/src/goir/goir_builder.cpp:1175-1238 | calls, however deeply nested and mutually recursive, run as the source says |
| Correctness.SimFunc | frontend/src/goir/goir_builder.cpp:1817-1851 | the realization of a function, entered with arguments, simulates the call |
| Correctness.AcceptedRunsAsSource | frontend/src/goir/goir_builder.cpp:194-221 | both theorems as one property of the module, for all meanings of operators and external functions |
| Correctness.AcceptedBuilt | frontend/src/goir/goir_builder.cpp:194-221 | an accepted build has, for every function, its whole lowered body in the final module, and tables that agree with the source |
| Simulation.SimValue | frontend/src/goir/goir_builder.cpp:1028-1353 | the code of any expression runs to the value and the effects of the expression, or to its fault |
| Simulation.SimValueAs | frontend/src/goir/goir_builder.cpp:712-758 | the same with the conversion to a target type: null, wrapping, or none |
| Simulation.SimCoalesce | frontend/src/goir/goir_builder.cpp:830-900 | `??` evaluates its left side once, and the fallback, with its effects, exactly when the left side is absent |
| Simulation.SimAssign | frontend/src/goir/goir_builder.cpp:1289-1297 | an assignment evaluates, then writes the cell or global its place names |
| Simulation.SimPlace | frontend/src/goir/goir_builder.cpp:902-955 | the lowered place of an assignment target is the slot or global that stands for it |
| Simulation.SimCall | frontend/src/goir/goir_builder.cpp:1175-1238 | arguments left to right, then the call, then its result; external functions at once, internal ones by their realization |
| Simulation.SimArgs | frontend/src/goir/goir_builder.cpp:1193-1208 | each argument converted to its parameter type, stopping at the first that does not end in a value |
| Simulation.SimBinary | frontend/src/goir/goir_builder.cpp:1151-1163 | the code of an operator runs to what the operator comes to on its operands, left then right, `and` and `or` included; which operator a token is, is said by `Operators` |
| Simulation.SimLocal | frontend/src/goir/goir_builder.cpp:1079-1125 | a local is read from its value or its slot |
| Operators.IntPrograms | frontend/src/goir/goir_builder.cpp:151-168 | with operators that compute on integers: for all x and y, the accepted program `return a tok b`, run as source and run as built, ends with x + y, x - y, x * y, x / y, x % y, x < y, x <= y, x > y, x >= y, x == y, x != y for the eleven tokens, and traps on division by zero |
| Operators.BoolPrograms | frontend/src/goir/goir_builder.cpp:151-168 | the same for `and` and `or` on booleans |
| Operators.UnaryPrograms | frontend/src/goir/goir_builder.cpp:170-178 | the same for the prefixes `+`, `-`, `!` (bitwise complement) and `not` |
| Operators.IntsMean | frontend/src/goir/goir_builder.cpp:1151-1163 | in any program, and for any operands that come to integers, such an expression evaluates to that value in the state its operands leave |
| Operators.BoolsMean | frontend/src/goir/goir_builder.cpp:1151-1163 | the same for `and` and `or`, whose right operand is evaluated in any case |
| Operators.OneMeans | frontend/src/goir/goir_builder.cpp:1142-1150 | the same for the prefixes |
| Operators.ReturnRuns | frontend/src/goir/goir_builder.cpp:1798-1810 | in any accepted well-typed program a function that is `return e` comes to what `e` evaluates to, as source and as built |
| Operators.BinaryAccepted | frontend/src/goir/goir_builder.cpp:1151-1163 | the program `return a tok b` is accepted and well typed, for each of the 13 tokens and all supported types |
| Operators.UnaryAccepted | frontend/src/goir/goir_builder.cpp:1142-1150 | the same for the prefixes |
| Meanings.LiteralsMean | frontend/src/goir/goir_builder.cpp:1036-1078 | what literals evaluate to: integers with their sign, booleans, texts, floats, characters, or a fault for a text that is no character |
| Meanings.CasesTake | frontend/src/goir/goir_builder.cpp:1446-1497 | which values a case takes: the integer, the character, the truth value or the tag it names; `case null` an absent optional |
| Meanings.CaseRun | frontend/src/goir/goir_builder.cpp:1562-1600 | the case that is run is the first that takes the value, and otherwise the last default, if and only if |
| Meanings.LastFunc | frontend/src/goir/goir_builder.cpp:560-577 | a symbol stands for a function if and only if no later one has it |
| Meanings.LastGlobal | frontend/src/goir/goir_builder.cpp:427-429 | the same for globals |
| Meanings.CallsOut | frontend/src/goir/goir_builder.cpp:1175-1238 | a call of an external function gives its result and the globals it leaves, or a fault |
| Meanings.TypesSupported | frontend/src/goir/goir_builder.cpp:287-334 | the types of values: scalars, text, tag enums and optionals of these, but no optionals of optionals |
| Meanings.DeclarationBinds | frontend/src/goir/goir_builder.cpp:1769-1788 | a declaration binds the value of its initialiser, wrapped if and only if the declared type is the optional of its type |
| Meanings.Declared | frontend/src/goir/goir_builder.cpp:373-577 | the declarations pass if and only if each global and each function is one of those listed; the module then has one entry for each, in order, with its types, linkage, ABI and family |
| StmtSimulation.SimStmt | frontend/src/goir/goir_builder.cpp:1762-1815 | the code of any statement ends where the statement does, with the related state, or returns or faults as it does |
| StmtSimulation.SimBlock | frontend/src/goir/goir_builder.cpp:1355-1374 | statements in order, up to the first that closes the path; locals of the block are forgotten after it |
| StmtSimulation.SimIf | frontend/src/goir/goir_builder.cpp:1376-1412 | exactly one branch is taken, then the join, also when one or both branches return |
| StmtSimulation.SimWhile | frontend/src/goir/goir_builder.cpp:1414-1444 | the loop runs as often as the source loop, through the head each time |
| StmtSimulation.SimSwitch | frontend/src/goir/goir_builder.cpp:1499-1600 | exactly the selected case is run, optional scrutinees first split into null and present |
| StmtSimulation.SimVarDecl | frontend/src/goir/goir_builder.cpp:1769-1788 | a declaration evaluates its initial value and binds it, in a slot when it is mutable |
| StmtSimulation.SimBindCell | frontend/src/goir/goir_builder.cpp:1714-1741 | the slot of a mutable local holds exactly what the new source cell holds |
| StmtSimulation.SimReturn | frontend/src/goir/goir_builder.cpp:1798-1810 | a return leaves with the value converted to the result type |
| Growth.GrowsStmt | frontend/src/goir/goir_builder.cpp:1762-1815 | lowering a statement only appends to the module, and touches no block that is terminated or not its own |
| Growth.GrowsValue | frontend/src/goir/goir_builder.cpp:1028-1353 | the same for expressions: values, instructions and old blocks stay, only the current block is extended |
| Growth.GrowsSwitch | frontend/src/goir/goir_builder.cpp:1499-1600 | the same for a switch with all its cases |
| Growth.GrowsWhile | frontend/src/goir/goir_builder.cpp:1414-1444 | the same for a loop, whose three blocks are new |
| Growth.GrowsIf | frontend/src/goir/goir_builder.cpp:1376-1412 | the same for an if |
| NullCase.NullCaseIffAbsent | frontend/src/goir/goir_builder.cpp:1529-1597 | in every run that stands at the switch a `switch` over an optional with a `case null` became: one step before, an optional was tested, and the next block is a null case's if and only if that optional is absent; which block it is, is the case the source selects |
| NullCase.FallbackIffAbsent | frontend/src/goir/goir_builder.cpp:830-900 | in every run that stands at the branch of an `a ?? b` of the program: one step before, an optional was tested, and the next block is that of `b` if and only if it is absent |
| NullCase.EverySwitch | frontend/src/goir/goir_builder.cpp:1529-1560 | and this is so of every switch over an optional that has a value to test, wherever in a function it stands |
| NullCase.EveryFallback | frontend/src/goir/goir_builder.cpp:830-853 | and of every `??` whose left side has a value to test: as a statement, an initial value, a right side, a condition, a scrutinee, an argument, an operand, a returned value, or inside another `??` |
| Sites.EveryPlace | frontend/src/goir/goir_builder.cpp:194-221 | every expression and every statement of a function body that is lowered at all is lowered at a place of the finished module, in a scope of that function with exactly the names in scope there |
| Sites.BodySite | frontend/src/goir/goir_builder.cpp:1817-1851 | to begin with, the body of every function of an accepted well-typed program |
| Sites.BlockSite | frontend/src/goir/goir_builder.cpp:1355-1374 | then, at such a place, the first statement of a list and, unless that is a `return`, the others |
| Sites.IfSites | frontend/src/goir/goir_builder.cpp:1376-1412 | both branches of an `if` |
| Sites.WhileSite | frontend/src/goir/goir_builder.cpp:1414-1444 | the condition and the body of a loop |
| Sites.CaseSite | frontend/src/goir/goir_builder.cpp:1499-1600 | every case of a switch that has a value to test |
| Sites.DirectSite | frontend/src/goir/goir_builder.cpp:1762-1815 | the expression an expression statement, a declaration, a `return`, an `if` or a `switch` begins with |
| Sites.BinarySites | frontend/src/goir/goir_builder.cpp:1151-1163 | both operands of an operator, the second where the first ended |
| Sites.FallbackSite | frontend/src/goir/goir_builder.cpp:888-900 | the fallback of a `??`, in the block for an absent left side |
| Sites.ArgSite | frontend/src/goir/goir_builder.cpp:1193-1208 | the arguments of a call, each where the one before it ended |
| Sites.RightSite | frontend/src/goir/goir_builder.cpp:1289-1297 | the right side of an assignment, after its place |
| NullCase.BackStep | frontend/src/goir/goir_builder.cpp:1541-1550 | a run that stands after an instruction which is not a call came there by executing it, however deep the stack of calls |
| NullCase.SelectsNull | frontend/src/goir/goir_builder.cpp:1446-1459 | on an optional the source selects a null case if and only if it is absent |
| ValueIds.ValueId | frontend/src/goir/goir_builder.cpp:1028-1353 | lowering an expression without a message gives a value id if and only if the expression has one by its form and types |
| ValueIds.ValueAsId | frontend/src/goir/goir_builder.cpp:712-758 | converting to another type neither makes nor loses an id |
| ValueIds.ScopeAfter | frontend/src/goir/goir_builder.cpp:1714-1760 | after a statement the locals have ids as the names in scope say |
| OpenBlock.OneOpenBlock | frontend/src/goir/goir_builder.cpp:194-221 | a program that lowers without a message has a terminator in every block if and only if no `??` that is lowered unwraps a unit or has a fallback without an id |
| OpenBlock.FuncShuts | frontend/src/goir/goir_builder.cpp:1817-1851 | the same for one function and the blocks it made; otherwise one of them is left open |
| OpenBlock.BlockShuts | frontend/src/goir/goir_builder.cpp:1355-1374 | of the blocks a statement list made, and the one it started in, exactly the current one is open, if the path goes on, if and only if every `??` lowered joins; otherwise another is left open |
| OpenBlock.StmtShuts | frontend/src/goir/goir_builder.cpp:1762-1815 | the same for any statement; only a `return` ends the path |
| OpenBlock.ValueShuts | frontend/src/goir/goir_builder.cpp:1028-1353 | the same for any expression |
| OpenBlock.ArmsShut | frontend/src/goir/goir_builder.cpp:856-901 | the two ways of `??`: both reach the join, or the builder gives up and leaves a block open |
| BlockEdges.EdgesStay | frontend/src/goir/goir_builder.cpp:1376-1600 | in a well-typed program that lowers without a message every block belongs to exactly one function, and every edge leads to a block of its own function with the arguments that block expects, in number and type |
| BlockEdges.TailsOk | frontend/src/goir/goir_verify.cpp:398-427 | so of the checks at a block's end those for a missing terminator, for targets and for arguments cannot fail once every `??` joins; what is left to fail are operands and equal switch keys |
| BlockEdges.StmtLinks | frontend/src/goir/goir_builder.cpp:1762-1815 | lowering a statement keeps every edge among the blocks of its function |
| BlockEdges.ValueLinks | frontend/src/goir/goir_builder.cpp:1028-1353 | the same for expressions |
| BlockEdges.ValueTy | frontend/src/goir/goir_builder.cpp:1028-1353 | the value made for a well-typed expression has the type of the expression |
| UnitPayload.DeclStored | frontend/src/goir/goir_builder.cpp:1714-1741 | a declaration of a mutable local, whatever initialises it, makes a slot and stores to it if and only if the initialiser has an id |
| UnitPayload.AssignStored | frontend/src/goir/goir_builder.cpp:1289-1296 | an assignment, whatever its right side, stores if and only if the right side has an id |
| UnitPayload.OnlyUnitsLost | frontend/src/goir/goir_builder.cpp:1028-1353 | in a well-typed program whose `??` join only expressions of unit type have no id |
| UnitPayload.NothingLost | frontend/src/goir/goir_builder.cpp:1714-1741 | so such a program loses no store of another type, and its names keep having ids |
| UnitPayload.AcceptedAnyway | frontend/src/goir/goir_builder.cpp:712-758 | three programs that lose a store, at a declaration, through another local, and at an assignment, pass the build and all module checks |
| UnitPayload.GoesWrong | frontend/src/goir/goir_builder.cpp:1289-1296 | their source calls return a present optional of unit; two of the compiled ones get stuck, the third returns null |
| UnitPayload.UnwrapLeftOpen | frontend/src/goir/goir_builder.cpp:856-893 | a well-typed program with `p ?? f()`, `p` an optional of unit, lowers without a message, leaves blocks open, and is rejected by the module checks only |
| Literals.NatTextRoundTrip | frontend/src/goir/goir_builder.cpp:82-112 | a number printed in decimal is read back as an integer literal |
| Literals.DigitByDigit | frontend/src/goir/goir_builder.cpp:82-102 | a further digit is appended to the number, `_` is skipped, any other character ends it |
| Literals.Signs | frontend/src/goir/goir_builder.cpp:82-102 | a sign in front of the number; no text is zero |
| Literals.PatternNumbers | frontend/src/goir/goir_builder.cpp:104-112 | the numbers a pattern can have: from -2^63 to 2^63 - 1, without a `+` |
| Literals.PatternWithoutDigit | frontend/src/goir/goir_builder.cpp:101-112 | a pattern without digits is zero, whatever its sign |
| Literals.CharTexts | frontend/src/goir/goir_builder.cpp:114-142 | the texts read as a character are exactly the character in quotes, the six escapes, and `\x` with two hexadecimal digits of either case |
| Checks.VerifiesExactly | frontend/src/goir/goir_verify.cpp:83-447 | the module checks find nothing if and only if, for all operations alike: what an instruction reads are values, places where it loads or stores; it has a result where one is needed; what it names exists and is of the right kind; edges carry to each block what it expects; and of a placed module nothing is borrowed or left open |
| Checks.BlockExactly | frontend/src/goir/goir_verify.cpp:180-427 | the same for one block |
| Checks.BuiltFits | frontend/src/goir/goir_builder.cpp:194-221 | whatever is built, accepted or not: every instruction is in a block, calls are of functions of the program, nothing is borrowed or escapes |
| Checks.PlacedUnless | frontend/src/goir/goir_placement.cpp:27-138 | an accepted well-typed program is placed if and only if no raw null is left in its module and every value has a type whose layout is known: no other check of placement can fail |
| Subset.LowersExactly | frontend/src/goir/goir_builder.cpp:194-221 | which programs are built: a well-typed program whose `??` join lowers without a message if and only if its declarations, statements and expressions are of the forms listed, decided from the source alone |
| Subset.FineFuncIff | frontend/src/goir/goir_builder.cpp:1817-1851 | the same for one function; a body with a result must have a `return` in its list |
| Subset.FineStmtIff | frontend/src/goir/goir_builder.cpp:1762-1815 | the same for any statement |
| Subset.FineSwitch | frontend/src/goir/goir_builder.cpp:1499-1600 | in particular for a switch, with the patterns that fit the type of what it tests |
| Subset.FineValue | frontend/src/goir/goir_builder.cpp:1028-1353 | the same for any expression |
| Subset.FineValueAs | frontend/src/goir/goir_builder.cpp:712-758 | the same where a type is wanted: the expression has it, or it is the supported optional of that type or for a `null`; what has no id is never converted |
| GoirBuilder.Builder.constructor | frontend/src/goir/goir_builder.cpp:194-221 | a builder starts with the empty module |
| GoirBuilder.Builder.Build | frontend/src/goir/goir_builder.cpp:194-221 | succeeds exactly for the accepted programs, and then, if the program is well typed, every function of the module built runs as its source does and never gets stuck |
| GoirBuilder.Builder.LowerArgs | frontend/src/goir/goir_builder.cpp:1193-1208 | the arguments from left to right |
| GoirBuilder.Builder.LowerBlock | frontend/src/goir/goir_builder.cpp:1355-1374 | statements up to the first that closes the path |
| GoirBuilder.Builder.AddCases | frontend/src/goir/goir_builder.cpp:1562-1584 | the case blocks and the switch arms |
| GoirBuilder.Builder.DiscoverGlobals | frontend/src/goir/goir_builder.cpp:373-429 | the globals the module takes |
| GoirBuilder.Builder.DiscoverFuncs | frontend/src/goir/goir_builder.cpp:522-577 | signatures, computations and realizations, in the order of the functions |
| GoirVerify.Verify | frontend/src/goir/goir_verify.cpp:83-440 | no message exactly when every check on the module holds |
| GoirVerify.VerifyInsts | frontend/src/goir/goir_verify.cpp:190-396 | no message exactly when every instruction of the block exists, its result, if any, is the index of a value, and its operation passes the operand checks |
| GoirVerify.VerifyOp | frontend/src/goir/goir_verify.cpp:200-396 | operands of an instruction are values of the right kind |
| GoirVerify.VerifyTerm | frontend/src/goir/goir_verify.cpp:403-427 | a block is terminated, and its edges go to blocks with matching parameters |
| GoirVerify.VerifyBlockArgs | frontend/src/goir/goir_verify.cpp:56-81 | edge arguments agree with the parameters in count and type |
| GoirVerify.VerifyRealization | frontend/src/goir/goir_verify.cpp:150-176 | an internal realization has an entry among its blocks |
| GoirVerify.VerifyComputation | frontend/src/goir/goir_verify.cpp:134-148 | realizations of a computation exist |
| GoirVerify.VerifyStage | frontend/src/goir/goir_verify.cpp:429-447 | a placed module has nothing open left |
| Placement.PlaceModule | frontend/src/goir/goir_placement.cpp:27-138 | accepts exactly the placeable modules and returns the placed copy |
| Placement.PlaceInsts | frontend/src/goir/goir_placement.cpp:56-88 | each semantic invoke becomes a direct or external call, or a message |
| Placement.PlaceReals | frontend/src/goir/goir_placement.cpp:44-54 | families of realizations |
| Placement.CheckValues | frontend/src/goir/goir_placement.cpp:89-109 | the checks on values |
| Placement.CheckInsts | frontend/src/goir/goir_placement.cpp:110-135 | the checks on instructions |
| Placement.PlacedClean | frontend/src/goir/goir_placement.cpp:110-122 | no semantic invoke, borrow, escape or raw null is left |
| Placement.StepPlaced | frontend/src/goir/goir_placement.cpp:56-88 | one step of the placed module is one step of the open one, from any configuration |
| Placement.RunsPlaced | frontend/src/goir/goir_placement.cpp:56-88 | the same for runs of any length |
| Placement.PlacedVerifies | frontend/src/goir/goir_placement.cpp:27-138 | the second run of the module checks cannot fail once the first and placement's own checks have passed |
| Placement.CallsNamedFunction | frontend/src/goir/goir_placement.cpp:56-88 | wherever a call is lowered, the block of the placed module in which its code ends calls the function its callee symbol names, with the ids of its arguments, directly or as an external one |
| Placement.EveryCall | frontend/src/goir/goir_placement.cpp:56-88 | and that is so of every call in a function body that is lowered at all |
| Placement.EveryDirectCall | frontend/src/goir/goir_placement.cpp:56-88 | no block of the placed module has a direct call that was not the call of that function's computation |
| Placement.PipelinePreservesMeaning | frontend/src/goir/goir_placement.cpp:27-138 | build, then place: the final module ends as the source does, for all inputs, and is never stuck |
| MacroExpr.ParseIsEval | frontend/src/cimport/c_header_import.cpp:836-1247 | parsing the minimally parenthesised tokens of any tree gives exactly the strict value of the tree, or fails exactly when that does |
| MacroExpr.ParseIsExact | frontend/src/cimport/c_header_import.cpp:836-1247 | and the value on numbers of any size, where no operation leaves the range of a 64-bit integer |
| MacroExpr.Grouping | frontend/src/cimport/c_header_import.cpp:851-1110 | `a p b q c` groups to the right if and only if `q` binds tighter than `p` in the order of sections 6.5.5 to 6.5.14 of ISO/IEC 9899:2018, written out as a list; the results are those of integer and boolean operations |
| MacroExpr.PrefixAndParens | frontend/src/cimport/c_header_import.cpp:1111-1247 | a prefix operator binds tighter than all of them, and parentheses bind what is in them |
| MacroExpr.ApplyMeans | frontend/src/cimport/c_header_import.cpp:851-1110 | the binary operators written out: on truth values, and on integers, wrapped to 64 bits, with the cases without a value |
| MacroExpr.ApplyUnaryMeans | frontend/src/cimport/c_header_import.cpp:1111-1161 | the prefix operators written out |
| MacroExpr.EvalFits | frontend/src/cimport/c_header_import.cpp:836-1247 | from 64-bit numbers evaluation leads to 64-bit numbers |
| MacroExpr.AcceptedIsRendered | frontend/src/cimport/c_header_import.cpp:836-1247 | every accepted token list is the text of such a tree with that value |
| MacroExpr.LevelDerives | frontend/src/cimport/c_header_import.cpp:851-1110 | what a level of the parser accepts is the text of a tree of that level |
| MacroEval.FixIsLeast | frontend/src/cimport/c_header_import.cpp:2622-2698 | the values of the rounds are a fixed point, contained in every closed resolution |
| MacroEval.Stabilises | frontend/src/cimport/c_header_import.cpp:2622-2698 | the rounds come to rest |
| MacroEval.OrderIndependent | frontend/src/cimport/c_header_import.cpp:2692-2698 | what names resolve to does not depend on the order of the macros |
| MacroEval.CycleUnderivable | frontend/src/cimport/c_header_import.cpp:2631-2636 | a macro that hangs on itself has no value |
| MacroEval.Importer.EvalObject | frontend/src/cimport/c_header_import.cpp:2622-2690 | the memoised evaluation succeeds exactly when the least fixed point has a value, and stores that value, or when the macro was classified beforehand with a text that has none |
| MacroEval.Importer.EvalBody | frontend/src/cimport/c_header_import.cpp:2637-2690 | the evaluation of a macro that is not known yet, while it is marked as being visited |
| MacroEval.Importer.BuildIndex | frontend/src/cimport/c_header_import.cpp:2571-2577 | names lead to the macros that bear them |
| MacroEval.Importer.Run | frontend/src/cimport/c_header_import.cpp:2692-2698 | afterwards every object macro has exactly its value in the least fixed point, and of those with a body exactly the ones without a value carry a skip reason that were not classified beforehand |
| MacroEval.Parser.ParseAll | frontend/src/cimport/c_header_import.cpp:843-846 | all tokens must be consumed |
| MacroEval.Parser.ParseLevel | frontend/src/cimport/c_header_import.cpp:851-1110 | agrees with the parser specification under the least fixed point whenever names resolve |
| MacroEval.Parser.ParseUnary | frontend/src/cimport/c_header_import.cpp:1111-1161 | the same for prefix operators |
| MacroEval.Parser.ParsePrimary | frontend/src/cimport/c_header_import.cpp:1162-1247 | the same for literals, names and parentheses |
| MacroEval.Parser.Resolve | frontend/src/cimport/c_header_import.cpp:2645-2657 | a name is resolved by evaluating its macro first |
| MacroPromote.MeansFunction | frontend/src/cimport/c_header_import.cpp:2723-2788 | calling the recorded function through the argument map equals expanding a macro that forwards to it |
| MacroPromote.MeansMacro | frontend/src/cimport/c_header_import.cpp:2790-2889 | the same through a promoted macro: the composed map equals expanding the chain |
| MacroPromote.ComposeBijection | frontend/src/cimport/c_header_import.cpp:2790-2889 | composing two bijections with matching parameter types gives one with matching types |
| MacroPromote.MapParams | frontend/src/cimport/c_header_import.cpp:2735-2775 | succeeds exactly when every parameter is forwarded once, and gives it the type of its place |
| MacroPromote.Compose | frontend/src/cimport/c_header_import.cpp:2798-2830 | composition of the argument maps, with at most one cast to each argument |
| MacroPromote.ComposableIff | frontend/src/cimport/c_header_import.cpp:2798-2830 | two forwardings one after the other are one forwarding if and only if no argument is cast by both |
| MacroPromote.PlainPassesOn | frontend/src/cimport/c_header_import.cpp:2776-2788 | a map passes all arguments on unchanged if and only if it is that of an alias |
| MacroPromote.PassingOnFits | frontend/src/cimport/c_header_import.cpp:2723-2788 | a macro that passes all its parameters on to a function that is not variadic, each once, fits that function |
| MacroPromote.ChainFits | frontend/src/cimport/c_header_import.cpp:2790-2889 | and one that passes them on to a promoted macro fits that macro if and only if no argument is cast by both |
| MacroPromote.Promoter.FromFunction | frontend/src/cimport/c_header_import.cpp:2723-2788 | succeeds exactly when the function fits |
| MacroPromote.Promoter.FromMacro | frontend/src/cimport/c_header_import.cpp:2790-2889 | succeeds exactly when the promoted macro fits, and leaves a skip reason exactly when arguments are cast twice, before one is none of the parameters, or parameters are not forwarded once each |
| MacroPromote.Promoter.TryPromote | frontend/src/cimport/c_header_import.cpp:2904-2943 | one attempt succeeds exactly when some function or promoted macro fits, and leaves a skip reason exactly when there is no callee or a candidate fails before one fits |
| MacroPromote.Promoter.Run | frontend/src/cimport/c_header_import.cpp:2901-2945 | every promoted macro has a bijective, type-preserving map whose call means the full expansion, and no macro is left that could be promoted |
| LittleEndian.UnLEOfLE | backend/src/parlib/Parlib_codec_helpers.cpp:67-113 | a number is read back from its bytes |
| LittleEndian.WriteLE | backend/src/parlib/Parlib_codec_helpers.cpp:66-85 | writes exactly the bytes of the number, and nothing else |
| LittleEndian.ReadLE | backend/src/parlib/Parlib_codec_helpers.cpp:87-113 | reads them, or fails at the end of the input |
| ParlibFormat.AlignUpMask | backend/src/parlib/Parlib_codec_helpers.cpp:50-55 | the mask form finds the next multiple |
| ParlibFormat.AlignUpLeast | backend/src/parlib/Parlib_codec_helpers.cpp:50-55 | which is the least one |
| ParlibFormat.IsPowerOfTwo | backend/src/parlib/Parlib_codec_helpers.cpp:45-48 | the bit test picks out exactly the powers of two |
| ParlibFormat.FnvConcat | backend/src/parlib/Parlib_codec_helpers.cpp:57-64 | hashing in pieces is hashing the whole |
| ParlibFormat.FnvUpdate | backend/src/parlib/Parlib_codec_helpers.cpp:57-64 | the update loop computes the hash |
| ParlibFormat.FnvVectors | backend/src/parlib/Parlib_codec_helpers.cpp:57-64 | the published FNV-1a hash of `a`, and that from the seed used here |
| ParlibFormat.StepInjective | backend/src/parlib/Parlib_codec_helpers.cpp:57-64 | a step of the hash loses nothing, of the hash so far or of the byte |
| ParlibFormat.FnvSeesByte | backend/src/parlib/Parlib_codec_helpers.cpp:57-64 | changing any one byte of a text changes its hash |
| ParlibFormat.WriteCStr | backend/src/parlib/Parlib_codec_helpers.cpp:115-123 | a string cut to its field, a zero, and zeros |
| ParlibFormat.ReadCStr | backend/src/parlib/Parlib_codec_helpers.cpp:125-135 | the bytes up to the first zero |
| ParlibFormat.CStrRead | backend/src/parlib/Parlib_codec_helpers.cpp:115-135 | what of a string survives its field |
| ParlibFormat.Offsets | backend/src/parlib/Parlib_codec_helpers.cpp:413-441 | every number of header and entry lies at its fixed offset |
| ParlibFormat.SerializeHeader | backend/src/parlib/Parlib_codec_helpers.cpp:413-436 | the 256 bytes of a header |
| ParlibFormat.DeserializeHeader | backend/src/parlib/Parlib_codec_helpers.cpp:439-465 | a header from bytes, or none for too few or other magic |
| ParlibFormat.HeaderRoundTrip | backend/src/parlib/Parlib_codec_helpers.cpp:413-465 | all numbers of a header come back, its strings as far as their fields hold them |
| ParlibFormat.EntryRoundTrip | backend/src/parlib/Parlib_codec_helpers.cpp:468-506 | a TOC entry comes back from any place in the TOC |
| ParlibFormat.SerializeEntry | backend/src/parlib/Parlib_codec_helpers.cpp:467-483 | the 64 bytes of an entry |
| ParlibFormat.DeserializeEntry | backend/src/parlib/Parlib_codec_helpers.cpp:485-506 | an entry from bytes |
| ParlibFormat.FooterRoundTrip | backend/src/parlib/Parlib_codec_helpers.cpp:508-541 | the TOC place comes back from a footer, whose checksum holds |
| ParlibFormat.SerializeFooter | backend/src/parlib/Parlib_codec_helpers.cpp:508-521 | the 32 bytes of a footer |
| ParlibFormat.DeserializeFooter | backend/src/parlib/Parlib_codec_helpers.cpp:523-541 | magic, version and checksum are checked |
| ParlibFile.OutFile.Align | backend/src/parlib/Parlib_codec_helpers.cpp:543-555 | pads with zeros to the next multiple |
| ParlibFile.Writer.constructor | backend/src/parlib/Parlib_reader_writer.cpp:266-271 | a writer before its output is opened |
| ParlibFile.Writer.Begin | backend/src/parlib/Parlib_reader_writer.cpp:266-312 | an opened output has room for the header, and all earlier state is gone |
| ParlibFile.Writer.Prepare | backend/src/parlib/Parlib_reader_writer.cpp:314-331 | the checks before a chunk, in their order, then the padding |
| ParlibFile.Writer.AppendChunk | backend/src/parlib/Parlib_reader_writer.cpp:350-360 | accepted exactly when the writer is open, the alignment a power of two and nothing compressed; the file and the records grow by the chunk |
| ParlibFile.Writer.AppendChunkStream | backend/src/parlib/Parlib_reader_writer.cpp:361-393 | the same for a stream; one that fails leaves its bytes without a record |
| ParlibFile.Writer.Copy | backend/src/parlib/Parlib_reader_writer.cpp:366-382 | reading in pieces of 64 KiB copies and hashes the whole stream |
| ParlibFile.Writer.Push | backend/src/parlib/Parlib_reader_writer.cpp:339-392 | the record has place, size, hash and checksum of the bytes |
| ParlibFile.Writer.Finalize | backend/src/parlib/Parlib_reader_writer.cpp:404-501 | the file becomes the finished image; success means that no call before complained; what the header says is in `ParlibBytes.OpenedSays` |
| ParlibFile.Writer.WriteToc | backend/src/parlib/Parlib_reader_writer.cpp:430-436 | the entries in order |
| ParlibFile.Writer.Patch | backend/src/parlib/Parlib_reader_writer.cpp:477-482 | the header takes the place of the first bytes, the rest stays |
| ParlibReader.Open | backend/src/parlib/Parlib_reader_writer.cpp:28-181 | opening gives exactly the reader or the first error of the checks, for any file |
| ParlibReader.OpenToc | backend/src/parlib/Parlib_reader_writer.cpp:145-180 | the TOC is read and every entry checked |
| ParlibReader.ReadEntries | backend/src/parlib/Parlib_reader_writer.cpp:156-173 | the records, or the first entry that points outside |
| ParlibReader.FindChunk | backend/src/parlib/Parlib_reader_writer.cpp:184-195 | the first record that matches |
| ParlibReader.LookupExact | backend/src/parlib/Parlib_reader_writer.cpp:184-195 | without two records alike, each record is found and nothing else |
| ParlibReader.ChunkStream.constructor | backend/src/parlib/Parlib_reader_writer.cpp:227-239 | a stream at the beginning of a chunk |
| ParlibReader.ChunkStream.ReadSome | backend/src/parlib/Parlib_reader_writer.cpp:1-25 | at most so many bytes, at most what remains; a short read ends the stream |
| ParlibReader.ChunkStream.ReadSeries | backend/src/parlib/Parlib_reader_writer.cpp:1-25 | any series of reads brings in a prefix of the chunk, of the length asked for in all |
| ParlibBytes.NumBytes | backend/src/parlib/Parlib_codec_helpers.cpp:87-113 | the numbers of two, four and eight bytes, byte by byte |
| ParlibBytes.HeaderRead | backend/src/parlib/Parlib_codec_helpers.cpp:439-465 | a header is read exactly from 256 bytes that start with `PRLB`; each of its 13 numbers and three texts from the bytes at its offset |
| ParlibBytes.EntryRead | backend/src/parlib/Parlib_codec_helpers.cpp:485-506 | the nine numbers of a TOC entry from the bytes at their offsets |
| ParlibBytes.FooterRead | backend/src/parlib/Parlib_codec_helpers.cpp:523-541 | a footer is read exactly from 32 bytes that are `PFT1`, version 1, the place of the TOC, and the hash of all that |
| ParlibBytes.HeaderWritten | backend/src/parlib/Parlib_codec_helpers.cpp:413-436 | the bytes of a header: magic, numbers, texts cut to 31 bytes with zeros behind, and zeros to the end |
| ParlibBytes.EntryWritten | backend/src/parlib/Parlib_codec_helpers.cpp:467-483 | the bytes of an entry, zeros in the reserved places |
| ParlibBytes.FooterWritten | backend/src/parlib/Parlib_codec_helpers.cpp:508-521 | the bytes of a footer |
| ParlibBytes.OpenedSays | backend/src/parlib/Parlib_reader_writer.cpp:455-475 | opening a finished file gives version 1.1, the flags, feature bits, compiler hash and texts of the options, sizes 256 and 64, the stream at 256 and as long as to the TOC, the TOC at the next multiple of 8, its size, the file size, the count of the chunks, and for each chunk its kind, lane, target, alignment, compression, length and two hashes |
| ParlibBytes.OpenReports | backend/src/parlib/Parlib_reader_writer.cpp:28-145 | opening reports the first of twelve checks on the bytes that fails |
| ParlibBytes.OpensWithItsBytes | backend/src/parlib/Parlib_reader_writer.cpp:145-181 | a file that passes them opens with what its bytes say, or reports the first entry that points outside |
| ParlibBytes.SliceAnywhere | backend/src/parlib/Parlib_reader_writer.cpp:197-224 | a slice of any record, also one that leaves the chunk or the file |
| ParlibBytes.IntactSays | backend/src/parlib/Parlib_build_inspect.cpp:138-153 | a chunk is intact if and only if both hashes are those of its bytes |
| ParlibBytes.DamageIsSeen | backend/src/parlib/Parlib_build_inspect.cpp:138-153 | once any one byte of an intact chunk is changed, it is no longer intact |
| ParlibRoundTrip.OpenedImage | backend/src/parlib/Parlib_reader_writer.cpp:28-181 | for any appends, opening the finished file gives the header and the records written, in order, or the count mismatch when there are too many records; what they say is in `ParlibBytes.OpenedSays` |
| ParlibRoundTrip.WrittenThenRead | backend/src/parlib/Parlib_reader_writer.cpp:404-501 | a finished file opens if and only if it has fewer than 2^32 chunks, and then every chunk is read back in full |
| ParlibRoundTrip.SliceInside | backend/src/parlib/Parlib_reader_writer.cpp:197-224 | a slice of a chunk is that part of its bytes, cut at its end |
| ParlibRoundTrip.ChunkInImage | backend/src/parlib/Parlib_reader_writer.cpp:339-360 | every chunk lies in the finished file, aligned, as its record says, before the TOC |
| ParlibRoundTrip.Layout | backend/src/parlib/Parlib_reader_writer.cpp:314-393 | whatever the run of appends, also where streams failed: the bytes of each lie in order between header and TOC, at the least aligned place after all before; the room between and up to the 8-aligned TOC is zero; a kept append has the record of that place |
| ParlibRoundTrip.ReadBack | backend/src/parlib/Parlib_reader_writer.cpp:1-25 | writing, opening and reading a chunk as a stream, in reads of any sizes, gives as many of its bytes as were asked for |
| ParlibText.SplitOfJoin | backend/src/parlib/Parlib_codec_helpers.cpp:283-296 | splitting joined fields gives the fields |
| ParlibText.SplitView | backend/src/parlib/Parlib_codec_helpers.cpp:283-296 | the split loop |
| ParlibText.SanitizeLineField | backend/src/parlib/Parlib_codec_helpers.cpp:138-146 | tabs and line ends become spaces |
| ParlibText.SanitizedAt | backend/src/parlib/Parlib_codec_helpers.cpp:138-146 | byte by byte |
| ParlibText.NumbersRead | backend/src/parlib/Parlib_codec_helpers.cpp:149-156 | numbers with white space before, a sign, or other text behind; too large ones and texts without digits are zero |
| ParlibText.LastLine | backend/src/parlib/Parlib_codec_helpers.cpp:342-344 | text after the last line end is a line too, unless it is empty |
| ParlibText.NumberRoundTrip | backend/src/parlib/Parlib_codec_helpers.cpp:149-156 | a 64-bit number in decimal is read back |
| ParlibText.LaneNames | backend/src/parlib/Parlib_codec_helpers.cpp:298-305 | a lane is read back from its name exactly when it has one |
| ParlibText.KindNames | backend/src/parlib/Parlib_codec_helpers.cpp:307-321 | the same for chunk kinds |
| ParlibText.DepNames | backend/src/parlib/Parlib_codec_helpers.cpp:323-335 | the same for dependency kinds and modes |
| ParlibText.EncodeExportCIndex | backend/src/parlib/Parlib_codec_helpers.cpp:251-263 | the text of an export list |
| ParlibText.EncodeNativeDeps | backend/src/parlib/Parlib_codec_helpers.cpp:266-280 | the text of a dependency list |
| ParlibText.ParseExportCIndex | backend/src/parlib/Parlib_codec_helpers.cpp:338-362 | the list of a text, line by line |
| ParlibText.ParseNativeDeps | backend/src/parlib/Parlib_codec_helpers.cpp:365-391 | the list of a text, line by line |
| ParlibText.ExportLine | backend/src/parlib/Parlib_codec_helpers.cpp:251-263 | the line of an export: its six fields in order, tabs between, a newline behind |
| ParlibText.DepLine | backend/src/parlib/Parlib_codec_helpers.cpp:266-280 | the line of a dependency: its eight fields |
| ParlibText.ExportRead | backend/src/parlib/Parlib_codec_helpers.cpp:345-360 | what is read from fields: at least six, the target cut to 32 bits, any number but zero visible |
| ParlibText.DepRead | backend/src/parlib/Parlib_codec_helpers.cpp:372-389 | the same with eight |
| ParlibText.ExportsRoundTrip | backend/src/parlib/Parlib_codec_helpers.cpp:251-362 | what comes back of any export list |
| ParlibText.ExportsBackWhole | backend/src/parlib/Parlib_codec_helpers.cpp:251-362 | an export list comes back whole, with its texts sanitised, if and only if all its enum values have names |
| ParlibText.DepsRoundTrip | backend/src/parlib/Parlib_codec_helpers.cpp:266-391 | what comes back of any dependency list |
| ParlibText.DepsBackWhole | backend/src/parlib/Parlib_codec_helpers.cpp:266-391 | the same if and only if for dependency lists |
| ParlibBuild.LastWins | backend/src/parlib/Parlib_build_inspect.cpp:84-86 | the last chunk under a key is the one that stays |
| ParlibBuild.FilledMap | backend/src/parlib/Parlib_build_inspect.cpp:16-86 | defaults first, extra chunks over them |
| ParlibBuild.SortedOnce | backend/src/parlib/Parlib_codec_helpers.cpp:394-410 | there is one sorted order only, whatever order the map is walked in |
| ParlibBuild.SortedChunksSort | backend/src/parlib/Parlib_codec_helpers.cpp:394-410 | strictly sorted by lane, target and kind, and exactly the chunks of the map |
| ParlibBuild.ToSortedChunks | backend/src/parlib/Parlib_codec_helpers.cpp:394-410 | the chunks of the map, sorted |
| ParlibBuild.AppendAll | backend/src/parlib/Parlib_build_inspect.cpp:99-104 | goes on after a rejected chunk |
| ParlibBuild.Build | backend/src/parlib/Parlib_build_inspect.cpp:1-111 | succeeds exactly when a path and a lane are given, the output opens and every chosen chunk is acceptable; the file is the image of the chosen chunks |
| ParlibBuild.Inspect | backend/src/parlib/Parlib_build_inspect.cpp:119-164 | valid exactly when the file opens and every chunk is intact |
| ParlibBuild.BuiltThenInspected | backend/src/parlib/Parlib_build_inspect.cpp:119-164 | a built file inspects as valid if and only if it has fewer than 2^32 chunks, with a strictly sorted TOC |
| ParlibBuild.BuiltLookup | backend/src/parlib/Parlib_reader_writer.cpp:184-195 | a lookup in a built file finds exactly the chosen chunks, with their bytes |
| ParlibContents.LookupFinds | backend/src/parlib/Parlib_build_inspect.cpp:16-86 | a lookup in a built file finds a key if and only if an extra chunk has it or it is one of the default ones, listed by lane and kind for the lanes asked for; a default chunk that is not replaced has its default text |
| ParlibContents.LastExtra | backend/src/parlib/Parlib_build_inspect.cpp:84-86 | of the extra chunks with a key the last is chosen |
| ParlibContents.ListedInOrder | backend/src/parlib/Parlib_codec_helpers.cpp:394-410 | the TOC of a built file is in order of lane, then target, then kind |
| ParlibContents.AcceptableWhen | backend/src/parlib/Parlib_reader_writer.cpp:314-327 | the chunks a writer takes: uncompressed, aligned to one of the 32 powers of two |
| ParlibContents.LaneChunkText | backend/src/parlib/Parlib_codec_helpers.cpp:242-248 | the text of a default chunk of a lane |
| ParlibContents.LanesListed | backend/src/parlib/Parlib_codec_helpers.cpp:205-209 | the list of lanes in the manifest |
| ParlibContents.ManifestLines | backend/src/parlib/Parlib_codec_helpers.cpp:192-212 | the manifest, line by line |
| ParlibContents.TableSplit | backend/src/parlib/Parlib_codec_helpers.cpp:214-239 | the string table, name by name |
| ParlibBuild.ListsComeBack | backend/src/parlib/Parlib_build_inspect.cpp:133-136 | export and dependency lists given to a build come back from the inspection, sanitised, unless an extra chunk replaces them |
| ParlibBuild.ReadExportCIndex | backend/src/parlib/Parlib_reader_writer.cpp:242-247 | the export list of an opened file |
| ParlibBuild.ReadNativeDeps | backend/src/parlib/Parlib_reader_writer.cpp:250-255 | the dependency list of an opened file |
| TypeSemantic.RoundTrip | frontend/src/cimport/type_semantic.cpp:381-391 | a node comes back from its text if and only if it is well-formed |
| TypeSemantic.Reads | frontend/src/cimport/type_semantic.cpp:74-182 | the same inside any text, as long as no `[` follows that could be taken for arguments; a name too long to count makes reading fail |
| TypeSemantic.ReadIsWell | frontend/src/cimport/type_semantic.cpp:74-182 | whatever is accepted is well-formed |
| TypeSemantic.Injective | frontend/src/cimport/type_semantic.cpp:185-253 | no two well-formed nodes have the same text |
| TypeSemantic.Stable | frontend/src/cimport/type_semantic.cpp:381-391 | reading, serialising and reading again changes nothing, for every accepted text |
| TypeSemantic.TextShape | frontend/src/cimport/type_semantic.cpp:185-253 | what the text of a node looks like, kind by kind |
| TypeSemantic.FnText | frontend/src/cimport/type_semantic.cpp:237-253 | the text of a function node: ABI, variadic, calling convention, count, throwing, children |
| TypeSemantic.Conventions | frontend/src/cimport/type_semantic.cpp:10-39 | the letters of the calling conventions, and what other letters are read as |
| TypeSemantic.OlderText | frontend/src/cimport/type_semantic.cpp:164-172 | the text of a function that does not throw, without its digit for that, is read as the same node |
| TypeSemantic.ReadDefaults | frontend/src/cimport/type_semantic.cpp:74-182 | what a kind of node does not use is at its default after reading |
| TypeSemantic.NumberShape | frontend/src/cimport/type_semantic.cpp:50-63 | a number is read if and only if it is one digit or more, leading zeros included, up to the delimiter, and fits 32 bits |
| TypeSemantic.NoArguments | frontend/src/cimport/type_semantic.cpp:83-94 | empty brackets are as good as none |
| TypeSemantic.Parser.EatChar | frontend/src/cimport/type_semantic.cpp:44-48 | one character |
| TypeSemantic.Parser.ParseU32Until | frontend/src/cimport/type_semantic.cpp:50-63 | a number of at most 32 bits up to a delimiter |
| TypeSemantic.Parser.ParseLenString | frontend/src/cimport/type_semantic.cpp:65-72 | a length and a string of that length |
| TypeSemantic.Parser.ParseNode | frontend/src/cimport/type_semantic.cpp:74-182 | reads exactly the node the grammar gives, and stands behind it |
| TypeSemantic.Parser.ParseNamedRest | frontend/src/cimport/type_semantic.cpp:83-94 | the optional arguments of a named node |
| TypeSemantic.Parser.ParseOneChild | frontend/src/cimport/type_semantic.cpp:98-101 | a child and its bracket |
| TypeSemantic.Parser.ParseArrayRest | frontend/src/cimport/type_semantic.cpp:135-147 | an array |
| TypeSemantic.Parser.ParseFnRest | frontend/src/cimport/type_semantic.cpp:148-178 | a function |
| TypeSemantic.Parser.ParseThrowing | frontend/src/cimport/type_semantic.cpp:164-172 | the throwing digit that older texts lack |
| TypeSemantic.Parser.ParseSeveral | frontend/src/cimport/type_semantic.cpp:173-176 | a counted list of nodes |
| TypeSemantic.ParseTypeSemantic | frontend/src/cimport/type_semantic.cpp:381-385 | the whole text must be one node |
| TypeSemantic.SerializeInto | frontend/src/cimport/type_semantic.cpp:185-253 | appends exactly the text of a node |
| AliasRewrite.RewriteCommutes | frontend/src/cimport/type_semantic.cpp:393-403 | rewriting the text of a node gives the text of the rewritten node |
| AliasRewrite.RewriteIdempotent | frontend/src/cimport/type_semantic.cpp:393-403 | rewriting any text twice is rewriting it once |
| AliasRewrite.RewriteNode | frontend/src/cimport/type_semantic.cpp:255-267 | renames the named nodes of a tree |
| AliasRewrite.RenamedNode | frontend/src/cimport/type_semantic.cpp:255-267 | every node of the rewritten tree, at any depth: a named one with a known name without `::` is called alias, `::`, name; all else stays |
| AliasRewrite.TokenRewritten | frontend/src/cimport/cimport_payload.cpp:61-105 | an identifier with any text before and behind it is qualified if and only if it is known, none of the built-in words, and has no `::` on either side; the rest is rewritten by itself |
| AliasRewrite.RewriteTypeSemanticWithAlias | frontend/src/cimport/type_semantic.cpp:393-403 | parses, rewrites and serialises, or leaves the text as it is |
| AliasRewrite.RewriteCImportTypeWithAlias | frontend/src/cimport/cimport_payload.cpp:61-105 | the token loop |
| AliasRewrite.RewriteToken | frontend/src/cimport/cimport_payload.cpp:82-101 | one identifier and its surroundings |
| AliasRewrite.TypeRewrittenTwice | frontend/src/cimport/cimport_payload.cpp:61-105 | idempotent for an identifier as alias |
| AliasRewrite.UnchangedIff | frontend/src/cimport/cimport_payload.cpp:61-105 | a text is left as it is exactly when all its known names are qualified already |
| Actors.Safety | backend/src/prt/prt_hosted.cpp:173-246 | after every run of any number of threads: the reference count is the number of handles, the active contexts are the threads inside, a context that holds the lock exclusively is alone, each actor is destroyed at most once and only when it has no handle and no context left |
| Actors.OnlySharedTogether | backend/src/prt/prt_hosted.cpp:216-222 | after every run: if two contexts of an actor are open together, both were begun with mode 1, in the hosted runtime |
| Actors.WaitsFor | backend/src/prt/prt_freestanding.cpp:108-118 | a waiting thread can take the lock if and only if no context of the actor is open, or it asked with mode 1 in the hosted runtime and all open ones did |
| Actors.TouchesLive | backend/src/prt/prt_hosted.cpp:128-141 | no step works on a destroyed actor |
| Actors.NoneForgotten | backend/src/prt/prt_hosted.cpp:180-191 | when no call is under way exactly the actors with neither a handle nor a context are destroyed, and the count of live actors is right |
| Actors.Keeps | backend/src/prt/prt_hosted.cpp:173-246 | every step of every call keeps the invariant: the counts and the lock agree with the threads, at most one thread is on the way to destroy an actor without contexts, and while there are contexts one of them waits as long as any thread is on that way |
| Actors.KeepsRelease | backend/src/prt/prt_hosted.cpp:180-191 | in particular `release`, which may put a thread on the way to destroy |
| Actors.KeepsLoadActive | backend/src/prt/prt_hosted.cpp:136-141 | and the second check before the destruction |
| Actors.KeepsAcquire | backend/src/prt/prt_freestanding.cpp:108-118 | and taking the lock, shared or exclusive |
| Actors.KeepsLeaveEnd | backend/src/prt/prt_freestanding.cpp:133-143 | and the end of `leave` |
| Actors.LastLeaver | backend/src/prt/prt_hosted.cpp:234-246 | when the last context of an actor without handles is left, no thread is on the way to destroy it |
| Actors.NeverRestores | backend/src/prt/prt_hosted.cpp:184-187 | the branch for an actor without handles is never taken |
| Actors.HarmlessExactly | backend/src/prt/prt_hosted.cpp:180-191 | after every run in which threads give up handles only so: giving up a handle leads to a double destruction in no continuation if and only if it is not the last one; or there is no context and no other thread is at the end of leaving one; or there are contexts, and as long as any thread that will then be on the way to destroy the actor stays there, one of them waits, for a lock that this thread holds or others that wait themselves |
| Actors.HarmlessPlainly | backend/src/prt/prt_hosted.cpp:180-191 | where no context of the actor waits for another lock: it is not the last handle, or no other thread is at the end of leaving a context and no context is open, unless the thread has one itself |
| Actors.ReleaseDestroysTwice | backend/src/prt/prt_hosted.cpp:136-141 | from every other reachable state, however many threads are inside and whatever locks they wait for, the steps by which they leave and the actor is destroyed twice |
| Actors.Drain | backend/src/prt/prt_hosted.cpp:234-246 | if no context of the actor waits for a lock that the thread on the way to destroy it holds, or others that wait themselves, the threads inside leave one by one, each ending its call, and others give back the locks they wait for; the last one to leave checks for handles |
| Actors.DestroyedTwice | backend/src/prt/prt_hosted.cpp:136-141 | such a state is reached by a run in which all promises are kept up to the last release |
| Bitfields.Import | frontend/src/cimport/c_header_import.cpp:1937-1977 | the check accepts exactly the fields that lie in one storage unit |
| Bitfields.AcceptedIff | frontend/src/cimport/c_header_import.cpp:1957-1977 | accepted are exactly the fields with bits whose first and last bit lie in the same aligned storage unit |
| Bitfields.ImportedSays | frontend/src/cimport/c_header_import.cpp:1971-1977 | what an accepted field is imported as: its width, sign and offset, and the unit its first byte lies in |
| Bitfields.ShiftAgain | backend/src/aot/LLVMIRLowering.cpp:2143-2145 | the lowering finds the place in the unit again from 32-bit offsets, also past their wrap |
| Bitfields.StoreBits | backend/src/aot/LLVMIRLowering.cpp:3135-3179 | a store changes exactly the bits of the field in the memory, to those of the value |
| Bitfields.LoadBits | backend/src/aot/LLVMIRLowering.cpp:2141-2172 | a load gives the bits of the field, and above them zeros or copies of the sign |
| Bitfields.StoreThenLoad | backend/src/aot/LLVMIRLowering.cpp:3135-3179 | a load after a store gives the value reduced to the width, with its sign |
| Bitfields.OtherFieldKept | backend/src/aot/LLVMIRLowering.cpp:3135-3179 | a store leaves a disjoint field as it is, also when storage units overlap |
| Bitfields.StoresCommute | backend/src/aot/LLVMIRLowering.cpp:3135-3179 | stores to disjoint fields may be made in either order |
| Bitfields.UnitInRecord | frontend/src/cimport/c_header_import.cpp:1975-1977 | the storage unit lies in a record if and only if the field begins among the record's whole units; so always when the size is a multiple of the unit |
| Bitfields.UnitPastPackedRecord | frontend/src/cimport/c_header_import.cpp:1957-1977 | in a packed record the importer accepts a field whose storage unit ends past the record |
| Bitfields.KeepsOthersIff | frontend/src/cimport/c_header_import.cpp:1605-1626 | stores keep all other bits if and only if the storage type has at most 64 bits |
| Bitfields.WideStoreClears | backend/src/aot/LLVMIRLowering.cpp:3158-3164 | with 128-bit storage a store clears the top of the unit |
| Bitfields.EmitLoad | backend/src/aot/LLVMIRLowering.cpp:2146-2170 | the emitted instructions compute the loaded value |
| Bitfields.Store | backend/src/aot/LLVMIRLowering.cpp:3146-3178 | the store as made on memory |
| CLayout.CAbiAlign | backend/src/mlir/GOIRMLIRLowering.cpp:499-541 | the alignment loop |
| CLayout.CAbiSize | backend/src/mlir/GOIRMLIRLowering.cpp:543-592 | the size loop |
| CLayout.CAbiFieldOffset | backend/src/mlir/GOIRMLIRLowering.cpp:594-611 | the offset loop, up to the first field of the name, the one `CLayout.OffsetByName` speaks of |
| CLayout.HostAbiAlign | backend/src/mlir/GOIRMLIRLowering.cpp:1932-1981 | the second alignment function agrees with the first on all types |
| CLayout.RecordLayout | backend/src/mlir/GOIRMLIRLowering.cpp:543-611 | fields in order without overlap, each at the least place that is a multiple of its alignment; the size is a multiple of the alignment |
| CLayout.OffsetByName | backend/src/mlir/GOIRMLIRLowering.cpp:594-611 | a query by name succeeds if and only if the record has a field of that name, and gives the offset of the first of them, a multiple of its alignment |
| CLayout.Builtins | backend/src/mlir/GOIRMLIRLowering.cpp:499-592 | the sizes and alignments of the builtin types |
| CLayout.HasLayout | backend/src/mlir/GOIRMLIRLowering.cpp:543-592 | which types have a layout: records with layout(c) all of whose fields have one, and tag enums |
| CLayout.FieldIsPlaced | backend/src/mlir/GOIRMLIRLowering.cpp:594-611 | a field lies aligned inside its record, whose alignment is a multiple of the field's |
| CLayout.SizeLeast | backend/src/mlir/GOIRMLIRLowering.cpp:543-592 | the size is the least such multiple |
| CLayout.AlignLeast | backend/src/mlir/GOIRMLIRLowering.cpp:499-541 | the alignment is no larger than the fields and the record ask for |
| CLayout.NestedPlaced | backend/src/mlir/GOIRMLIRLowering.cpp:594-611 | fields of fields, at any depth, stay aligned and inside |
| CLayout.NestedAligned | backend/src/mlir/GOIRMLIRLowering.cpp:594-611 | so a record at an aligned address has all its fields at aligned addresses |
| CLayout.PathsApart | backend/src/mlir/GOIRMLIRLowering.cpp:594-611 | fields reached by paths that part do not overlap, at any depth |

## Left out

gOIR:
- Fields, indexing, array and record aggregates and their places, ranges, borrow and escape values, floats and text as
  values that can be computed with.
- The static initialiser function (goir_builder.cpp:1634-1712) and the early scan for string and payload switches
  (goir_builder.cpp:359-371): the model complains when it lowers such a switch.
- Names, the string table, placement policies, record layouts, and the texts of messages; ids that point nowhere cannot
  occur in trees.
- Labelled and default arguments; calls that spread a pipe.
- Printing of modules; the open and placed pass pipelines, which do nothing.
- GoirVerify.Verify: goes over the blocks twice where the source goes once, so that a parameter is known before it is used.

C macros:
- Splitting text into tokens and telling literals apart; floating-point values; the texts of errors; labels of cycles.
- Constants are kept as values, not printed and read again.
- MacroPromote.Promoter.TryPromote: models that there is a skip reason, not its kind and text.
- C type strings, link names and calling conventions, except the types of arguments.
- What C++ leaves undefined when macro arithmetic overflows, including the remainder of the least number by -1: the model
  wraps around, as the standard does for shifts.
- MacroPromote.Promoter.Run: function and macro names are taken as unique and disjoint.

parlib:
- File systems, opening and closing, input and output errors except a failing input stream; texts of messages.
- ParlibFile.Writer.Finalize: does not model failing writes, because the output is a byte sequence.
- Lookup of one exported C symbol, and names of lanes and kinds in messages.

Encoded types:
- Building types from nodes and nodes from types, which need the type pool.

Actors:
- Memory orders other than interleaving of whole atomic operations; the draft memory; commit and recast, which do nothing.
- Calls as single steps: only the finer steps are modelled.
- Waiting: a thread that cannot take the lock takes no step.

Bitfields and layout:
- Reading declarations from libclang; LLVM text; pointers and addresses other than offsets in a memory.
- Bitfields.EmitLoad: says nothing about masks of 64 bits or more in 128-bit storage, where the C++ shift is undefined.
- CLayout.RecordLayout: does not model offsets past the range of `size_t`.

The rest of the repository: parsing, name resolution, type checking, the other intermediate language, drivers, linking,
the import cache, and the merge of type representations.
