# A verified model of LALVM's lowering passes

LALVM compiles Ada to LLVM. Most of its own code is a chain of small passes that claim to keep the
meaning fixed by the Ada Reference Manual (ISO/IEC 8652). This project models those passes in Dafny
and proves that they do, for every program, input, machine width and depth of recursion.

## What is modelled

* **The intermediate representation** (`Ir`): nested subprograms made of basic blocks, with a
  fuel-indexed interpreter. A run returns, raises, is out of fuel, or is stuck. Lexical scoping is
  explicit: an activation carries the chain of the frames around it. `ada.call` passes by copy
  (section 6.4.1), `func.call` passes values. What expressions compute and what imported
  subprograms, which have no blocks, do to the store and return are arbitrary functions (`Ir.Prim`).
* **Closure conversion** (`Lifting`, `ClosureConversion`): the relation between a nested and a lifted
  module with its simulation proof, and the pass itself, a class whose methods isolate, pass and
  hoist in place, innermost subprogram first.
* **Call lowering** (`Calls`, `ByCopy`, `CallMeaning`, `CallLowering`): the value ABI as functions
  with their simulation proof, what by-copy passing comes to mode by mode, and the verifiers' cursor
  scans and the lowering with its running indices as methods over arrays.
* **Both passes together** (`Passes`): a nested program and the flat program over values end alike.
* **Control-flow generation** (`Statements`, `Outcomes`, `Cfg`, `CfgGrowth`, `CfgSimulation`,
  `CfgMeaning`, `CfgBody`, `CfgShape`, `CfgPoints`, `CfgAccepts`, `CfgBuilder`): a structured
  semantics that knows nothing of blocks, the effect of emitting a statement as a function of the
  builder's state, a step semantics of the graph, and the builder as a class with its insertion
  point, loop stack and label blocks. The semantics has a parameter for the one rule in which the
  code and section 5.5 differ.
* **For loops** (`NullRanges`, `ForLoops`): where that rule makes a difference, and what a loop
  executes.
* **Arithmetic on words of any width** (`Words`, `Conversions`, `Modular`, `Checked`, `Indexing`,
  `Ordering`): integer conversions, modular operators, checked signed expressions, division, array
  indices, and comparisons. A machine word of `w` bits is an integer below `Pow2(w)`; `w` is always a
  variable. `Mod` and `Quot` are Euclidean remainder and quotient (`ModIsRemainder`,
  `QuotIsDivision`), defined by linear steps.
* **Basic-block rewrites** (`Peepholes`): store-to-load forwarding and dead-store removal, where any
  two references may denote one location.
* **Symbols** (`Naming`, `Mangling`): unique names, simple names, GNAT names and the renaming of a
  module in place.
* **Samples** (`SampleBodies`, `SampleCalls`): a few bodies and one nested program whose outcome is
  known for every input. The theorems apply to them, so their graphs and their lowered form have that
  outcome.

## Hypotheses

* A value typed by a subtype lies within the static bounds recorded for that type
  (`Conversions.ValueOf`, `Indexing.ValueOf`), and the bounds elaborated for a dynamic subtype whose
  range is not null lie within those of its base (`Conversions.Elaborated`).
* A run of the source that is stuck (an unelaborated reference is read, written or passed by
  reference) carries no claim after call lowering. Closure conversion needs no such exception: a
  captured value that has not been computed yet is `Undef` in both programs, so access before
  elaboration behaves alike too.
* Expressions of statements are evaluated by an arbitrary function that may write objects and raise.
* A label is placed once in a body (`CfgAccepts.LabelsOnceAll`), as Ada requires.
* An imported subprogram may return, raise and write anything, but leaves the objects it finds
  (`Ir.External`).
* `Passes.NestedSource` asks that the results of a call are not needed by its own callee, as the
  callee is declared before the call.

## What the proofs found

* Closure conversion refuses a program exactly when a nested subprogram calls one that comes later in
  post-order and that needs a value from above, directly or through its own calls
  (`ClosureConversion.Pass.Run`). The captures it adds are exactly the values needed. A module whose
  nested subprograms call only themselves, what is inside them, library level, and what is declared
  before them or before something around them is never refused
  (`ClosureConversion.BackwardsNotRefused`).
* A body is accepted exactly when its if statements have a guard and its exits a loop to leave, *where
  control can reach them* (`CfgAccepts.BodyAccepts`): an `exit` outside of any loop passes without a
  diagnostic after a `return`, because what follows a terminator is skipped
  (`CfgAccepts.DeadExitAccepted`). A body with a guard and a loop everywhere is always accepted
  (`CfgAccepts.WellformedAccepted`).
* A for loop converts both bounds to the parameter's subtype before the test for a null range. So
  `for I in 1 .. 0`, with a parameter of the subtype `1 .. 10`, raises, where section 5.5 skips the
  loop (`NullRanges.NullRangeRaises`). For all bounds the two agree exactly when the range is not null
  or both bounds are values of the subtype (`NullRanges.LoopStandard`, `ForLoops.ForExact`), and a
  body whose run meets no such loop has the outcome of section 5.5 (`NullRanges.BodyStandard`).
* The arity that selects between the unary and binary GNAT names of `+` and `-` counts captures, as
  closure conversion runs first: a nested unary `"+"` or `"-"` that captures something is given the
  name of the binary one, and the unary name is given exactly when there is one input
  (`Mangling.CapturesMakeBinary`). Names stay distinct nevertheless.
* An operator with a collision suffix, such as `+__2`, is longer than three characters and keeps its
  symbol in the mangled name. Names stay distinct here too.
* An array type's extent is computed in 64 bits. It is the number of elements, for a type that is
  accepted, exactly when that number fits (`Indexing.ExtentExact`): an array indexed by all the
  values of a 64-bit type is given extent 0 (`Indexing.FullRangeExtent`).
* The bounds of an existing index check are compared as signed words, also for modular indices; this
  can only miss a case in which the check could be left out (`Indexing.SignedReadingIsSound`).

## Model

| member | source | states |
|---|---|---|
| ClosureConversion.CollectedInnermostFirst | mlir/ClosureConversion.cpp:58-68 | the post-order walk lists every subprogram that is not at library level, each once, and none before one nested in it |
| ClosureConversion.CollectedInDeclarationOrder | mlir/ClosureConversion.cpp:58-68 | the walk goes in declaration order: at every level a subprogram, and everything in it, comes before everything declared after it |
| ClosureConversion.BackwardsNotRefused | mlir/ClosureConversion.cpp:130-145 | a module whose calls go to the caller itself, into it, to library level, or to what is declared before the caller or before something around it, has no call of the refused shape in that walk |
| ClosureConversion.Pass.IsolateFromAbove | mlir/ClosureConversion.cpp:75-108 | captured is every value used in the region and defined above it, each once, in the order of first use by subprogram, block and operand; one new parameter for each replaces it throughout the region, in which no use from above is left |
| ClosureConversion.Pass.PassCaptures | mlir/ClosureConversion.cpp:110-151 | succeeds exactly when no call to the subprogram sits in one that has been hoisted already; then every call passes the captures, or inside the subprogram its own lifted parameters |
| ClosureConversion.Pass.Lift | mlir/ClosureConversion.cpp:74-156 | one iteration as a whole: isolate, pass, hoist, and record the subprogram as processed |
| ClosureConversion.CapturesFound | mlir/ClosureConversion.cpp:75-78 | in any state the pass can be in, what is captured is exactly what the subprogram uses from above once its own calls pass captures |
| ClosureConversion.IterationProgress | mlir/ClosureConversion.cpp:72-156 | every iteration keeps: processed subprograms use only their own values, every call to one of them anywhere passes its source arguments followed by its captures in parameter order, unprocessed ones are unchanged otherwise, and an unprocessed one has only unprocessed ancestors |
| ClosureConversion.RefusalFound | mlir/ClosureConversion.cpp:130-145 | a diagnosed call is of the refused shape in the original program |
| ClosureConversion.SuccessNotRefused | mlir/ClosureConversion.cpp:130-151 | a program that has been lifted has no call of the refused shape |
| ClosureConversion.CapturesAreNeeds | mlir/ClosureConversion.cpp:74-156 | a subprogram captures a value exactly when it uses it from above or calls, through any chain, a subprogram that does |
| ClosureConversion.Pass.Run | mlir/ClosureConversion.cpp:53-157 | the pass fails exactly on the refused call shape, and otherwise leaves a lifting of the module it found, whose captures are exactly the values needed |
| ClosureConversion.Pass.RunOnModule | mlir/ClosureConversion.cpp:53-157 | collecting and lifting together: a module whose calls go backwards in declaration order is lifted, and a module is lifted exactly when it has no call of the refused shape |
| Lifting.LiftedIsFlat | mlir/ClosureConversion.cpp:153-156 | after lifting, every subprogram is at module level, uses only values it defines, and is called with as many arguments as it has parameters |
| Lifting.LiftingKeepsMeaning | mlir/ClosureConversion.cpp:53-157 | the lifted module returns the same results, leaves the same objects and raises alike, for every input, store, operation and recursion depth |
| Lifting.LiftingKeepsActivations | mlir/ClosureConversion.cpp:53-157 | so it does when a library-level subprogram is called by copy, with any formals, up to the final values it copies back |
| CallLowering.VerifyOrder | mlir/Dialect.cpp:1694-1703 | the scan with a `seen` array accepts exactly the permutations |
| CallLowering.VerifyIndices | mlir/Dialect.cpp:1676-1693 | accepts exactly increasing indices, one for each operand, within the arguments |
| CallLowering.VerifyCursors | mlir/Dialect.cpp:1730-1788 | the scan with two cursors accepts exactly when the lists hold the writable formals that need a snapshot, and those with a dynamic range |
| CallLowering.VerifyCall | mlir/Dialect.cpp:1662-1789 | a call is accepted if and only if its order is a permutation of the source formals and its lists name, in increasing order, exactly the formals that get a snapshot or a dynamic range |
| ByCopy.VerifiedCarries | mlir/Dialect.cpp:1752-1777 | a call that is accepted carries a snapshot for every `in out` formal and for each `out` formal whose type has a default value, and for no other; a range for the writable formals whose actual has a dynamic one, and for no other |
| CallLowering.LowerInputs | mlir/LowerAdaCalls.cpp:227-237 | the running index into the snapshots stays in bounds, and every formal that needs an input gets its own, followed by the captures |
| ByCopy.InputsAre | mlir/LowerAdaCalls.cpp:77-96 | the value ABI has one input for each `in` and `in out` formal and each `out` formal with a default, in formal order, then the captures; a writable formal passes its snapshot |
| CallLowering.LowerOutputs | mlir/LowerAdaCalls.cpp:254-260 | the call result found for a writable formal is its own |
| CallLowering.LowerRanges | mlir/LowerAdaCalls.cpp:261-265 | every dynamic range reaches its own formal, and no other formal gets one |
| CallLowering.LowerCopies | mlir/LowerAdaCalls.cpp:266-285 | outputs are copied back in association order, each conversion immediately before its write |
| ByCopy.CopyBackIs | mlir/LowerAdaCalls.cpp:273-284 | after the copy-back an object holds the converted final value of the last formal, in association order, whose actual it is, and every other object is as it was |
| ByCopy.CopyBackRaises | mlir/LowerAdaCalls.cpp:273-284 | a conversion that fails raises after exactly the formals before it in the order were copied back |
| ByCopy.LastFormalDecides | mlir/LowerAdaCalls.cpp:266-272 | without an association order the order is that of the formals: the last formal with a given actual decides its value |
| CallLowering.LowerCaller | mlir/LowerAdaCalls.cpp:225-289 | a verified call becomes a call over values and its copy-back |
| CallLowering.LowerReturn | mlir/LowerAdaCalls.cpp:202-217 | a return also returns the final values of the writable formals, in formal order |
| CallLowering.LowerEntry | mlir/LowerAdaCalls.cpp:157-200 | the new parameters, and an object for every writable formal, started from its snapshot if it has one |
| ByCopy.EntryOfVerified | mlir/LowerAdaCalls.cpp:177-199 | when a call that is accepted is entered, every writable formal denotes an object of its own, which holds the snapshot for an `in out` formal and for an `out` formal with a default, and is undefined otherwise; an `in` formal is its argument |
| CallLowering.Pass.Run | mlir/LowerAdaCalls.cpp:305-345 | the pass fails exactly when some call is not accepted, and otherwise lowers every call and every subprogram |
| CallMeaning.CallsKeepMeaning | mlir/LowerAdaCalls.cpp:38-289 | lowered callers and callees do by-copy parameter passing, from any subprogram, imported ones too: given what the value ABI passes for a by-copy call, the same results, final values of writable formals, objects and point of raise, for every mix of modes, association order, aliased actuals and captures |
| CallMeaning.MainKeepsMeaning | mlir/LowerAdaCalls.cpp:38-289 | in particular a main procedure ends as before |
| CallMeaning.SimPerform | mlir/LowerAdaCalls.cpp:225-289 | one call: snapshots in, results out, the conversions and assignments of the copy-back, against by-copy passing |
| Passes.LiftedIsSource | lalvm.cpp:238-240 | what closure conversion leaves is what call lowering asks for: calls verified in the nested module stay verified |
| Passes.PassesKeepMeaning | lalvm.cpp:238-240 | after both passes any library-level subprogram, called over values, ends as it did when called by copy in the nested program |
| Passes.MainPassesKeepMeaning | lalvm.cpp:238-240 | after both passes a main procedure ends as it did in the nested program |
| SampleCalls.LoweredRuns | lalvm.cpp:238-240 | a procedure with a nested procedure that captures a parameter and is called by copy from another one: for every input, what both passes make of it yields the sum it computes as written |
| CfgBuilder.Builder.Visit | mlir/MLIRGen.cpp:370-460 | emitting a statement in place has the effect `Cfg.Gen` gives it, fails exactly when that has none, and leaves the loop stack as it was |
| CfgBuilder.Builder.VisitAll | mlir/MLIRGen.cpp:468-497 | what follows a terminator is skipped, up to a label |
| CfgBuilder.Builder.GenIf | mlir/MLIRGen.cpp:3095-3160 | guards, else part and merge block, erased when it is dead |
| CfgBuilder.Builder.GenLoop | mlir/MLIRGen.cpp:3167-3226 | while and bare loops, with the loop on the stack for its body only |
| CfgBuilder.Builder.GenForLoop | mlir/MLIRGen.cpp:3328-3418 | bounds, null range test, body, test for the last value and step, or no step when the body never falls through |
| CfgBuilder.Builder.GenExit | mlir/MLIRGen.cpp:3423-3466 | succeeds exactly when some loop on the stack has the name, any for an exit without one; the branch then leads past the last such loop on the stack, taken when the condition holds |
| CfgBuilder.Builder.GenSubpBody | mlir/MLIRGen.cpp:2775-2791 | the body is accepted exactly when what control can reach of it has its guards and loops; the graph left in the builder is well formed, ends in a way exactly when the statements do, for every evaluation of expressions and every state, and runs forever exactly when they do |
| CfgAccepts.ExitTargetIs | mlir/MLIRGen.cpp:3429-3446 | an exit has a target exactly when some enclosing loop has its name, any loop for an exit without one, and the target is that of the innermost such loop |
| CfgAccepts.BodyAccepts | mlir/MLIRGen.cpp:468-497 | a body is accepted exactly when its statements, those that control cannot reach aside, have a guard for each if and a loop for each exit; the graph of a function is left open exactly when control reaches its end |
| CfgAccepts.WellformedAccepted | mlir/MLIRGen.cpp:3423-3446 | a body in which every if has a guard and every exit an enclosing loop, of its name if it has one, is accepted |
| CfgAccepts.DeadExitAccepted | mlir/MLIRGen.cpp:468-497 | an exit outside of any loop is accepted after a return |
| CfgGrowth.GenEvolves | mlir/MLIRGen.cpp:3095-3466 | emitting a statement only appends, only to the current block, to new blocks and to blocks of its own labels, and keeps every label's block |
| CfgBody.BodyRuns | mlir/MLIRGen.cpp:3095-3466 | with enough fuel, graph and statements end alike; without, the graph is still running after as many steps |
| CfgBody.BodyMeans | mlir/MLIRGen.cpp:3095-3466 | the graph of a body ends in a way exactly when its statements do: the same writes and the same return, exception or fall-through; a null range is converted first, as emitted |
| CfgBody.BodyDiverges | mlir/MLIRGen.cpp:3167-3418 | a body runs forever exactly when its graph does |
| SampleBodies.CountDownEnds | mlir/MLIRGen.cpp:3167-3226 | the graph of a while loop that counts down ends with zero, for every start |
| SampleBodies.DrainEnds | mlir/MLIRGen.cpp:3167-3226 | what a loop condition does to the objects stays, also when it fails |
| SampleBodies.JumpBackEnds | mlir/MLIRGen.cpp:2988-3041 | so does that of a jump back out of an if statement |
| SampleBodies.LeaveBothEnds | mlir/MLIRGen.cpp:3423-3446 | an exit that names the outer of two loops leaves both |
| SampleBodies.CountUpYields | mlir/MLIRGen.cpp:3451-3465 | a bare loop with a conditional exit, then an if statement, in a function: it leaves when the condition first holds and returns the first branch's value |
| SampleBodies.ChoiceYields | mlir/MLIRGen.cpp:3095-3160 | the else part is taken exactly when the guard fails |
| SampleBodies.ThriceEnds | mlir/MLIRGen.cpp:3328-3418 | a for loop over X - 1 .. X + 1 that changes X runs three times, forwards and in reverse |
| CfgShape.BodyShape | mlir/MLIRGen.cpp:2975-3041 | when gotos obey section 5.8, every block ends in its one terminator and every branch leads to a block of the graph; only the last block of a function may be open |
| CfgPoints.KeptIfTargeted | mlir/MLIRGen.cpp:3150-3158 | for every if statement and loop of a body, the block after it, and the step of a for loop, are in the finished graph exactly when something leads there: what was erased is not led to and its number not used again |
| CfgPoints.GotoMeetsLabel | mlir/MLIRGen.cpp:2988-3041 | every goto emitted anywhere in a body has its label placed somewhere, before or after it, and its branch is in the finished graph and leads to the block in which emission resumed at the label |
| ForLoops.ForRuns | mlir/MLIRGen.cpp:3380-3416 | from any value on, a body that falls through from the states it meets, each time after as many steps as it needs, runs once for each value left, in order |
| ForLoops.ForExact | mlir/MLIRGen.cpp:3328-3417 | with bounds in its subtype the graph of the loop runs the body once for each of lo .. hi in order, hi .. lo in reverse, and not at all for a null range; with other bounds it raises; this is the end section 5.5 gives exactly when the range is not null or both bounds are in the subtype |
| ForLoops.BoundConverted | mlir/MLIRGen.cpp:3356-3362 | the conversion of a bound, as it is lowered, raises exactly when the bound is outside first .. last of the parameter's subtype, and the graph raises exactly then |
| ForLoops.MachineValues | mlir/MLIRGen.cpp:3398-3402 | the values of a machine type are those of its words |
| NullRanges.LoopStandard | mlir/MLIRGen.cpp:3355-3374 | the emitted order of conversion and test gives a for loop the outcome of section 5.5 exactly when the range is not null or both bounds are values of the subtype, for all bounds and every body that has no such loop itself |
| NullRanges.NullRangeRaises | mlir/MLIRGen.cpp:3355-3374 | 1 .. 0 for a subtype 1 .. 10: section 5.5 skips the loop, the code raises |
| NullRanges.BodyStandard | mlir/MLIRGen.cpp:3095-3466 | the graph of a body whose run meets no such range ends exactly as under the rules of section 5.5 |
| ForLoops.StepExact | mlir/MLIRGen.cpp:3398-3409 | the unchecked step yields the next value of the range, at every width and also at the extreme values of a signed or modular type |
| ForLoops.StepWraps | mlir/MLIRGen.cpp:3398-3409 | the step of the graph is the step on words, from every value of the machine type: it wraps around at the extreme ones |
| Conversions.ClampTo | mlir/LowerAdaConversions.cpp:40-59 | for the values of a word, being in the clamped range is being in the range, and the clamped bounds are words |
| Conversions.CastRuns | mlir/LowerAdaConversions.cpp:61-86 | truncation and either extension yield the target's word for the same integer |
| Conversions.SameRepresentation | mlir/LowerAdaConversions.cpp:96-156 | exact conversion within one base; no result exactly for a dynamic target without a descriptor |
| Conversions.RepresentationChange | mlir/LowerAdaConversions.cpp:169-264 | exact conversion between bases or widths, with the check before a cast that could lose what it needs |
| Conversions.Lower | mlir/LowerAdaConversions.cpp:93-264 | every conversion yields a word that the target reads as the same integer when it is in the target's range, and raises otherwise, for all widths, signedness and ranges, known values and dynamic bounds; a check is emitted exactly when the range of the source, or the constant, is not known to lie within the target's |
| Modular.BitsBelowTwice | mlir/LowerToLLVM.cpp:613-742 | or and xor of values below any modulus m stay below 2m, so one subtraction reduces them |
| Modular.BitsBitwise | mlir/LowerToLLVM.cpp:722-735 | every bit of the result of and, or, xor is 1 exactly when both, either, exactly one of the operands' bits are |
| Modular.BinaryExact | mlir/LowerToLLVM.cpp:613-742 | every binary operator yields the result of sections 3.5.4 and 4.5 for every modulus up to 2**w, whatever sequence is chosen |
| Modular.LogicalMeans | mlir/LowerToLLVM.cpp:613-742 | what is emitted for a logical operator yields the one number whose bits are so related to the operands', modulo m |
| Modular.UnaryExact | mlir/LowerToLLVM.cpp:866-953 | not and unary minus are exact for every modulus up to 2**w |
| Checked.EvalConstMeans | mlir/LowerToLLVM.cpp:422-477 | a constant that is found is what the expression means, so it cannot raise |
| Checked.FoldsExactly | mlir/LowerToLLVM.cpp:422-477 | a constant is found for exactly the checked expressions without variables none of whose results overflows, and it is their mathematical value |
| Checked.LowerMeans | mlir/LowerToLLVM.cpp:511-548 | the emitted operations raise exactly when a checked result does not fit, with or without the tests left out |
| Checked.LoweredExact | mlir/LowerToLLVM.cpp:422-548 | a tree of checked operators raises exactly when the mathematical result of some node does not fit in w bits, and otherwise yields the mathematical value |
| Checked.TestedExactly | mlir/LowerToLLVM.cpp:511-548 | an operator is emitted with an overflow test exactly when it is checked and is not such a constant |
| Checked.UncheckedExact | mlir/LowerToLLVM.cpp:511-548 | with checks suppressed a tree computes the mathematical value modulo 2**w, however often it overflows on the way |
| Checked.QuotientFits | mlir/LowerToLLVM.cpp:550-557 | a quotient is outside its type only for the minimum divided by -1 |
| Checked.TruncatedIs | mlir/LowerToLLVM.cpp:550-557 | the quotient is rounded toward zero: the remainder is smaller than the divisor and has the sign of the dividend |
| Checked.DivisionExact | mlir/LowerToLLVM.cpp:558-602 | guarded division raises exactly for a zero divisor and for that quotient, which is exactly where unguarded division is undefined, and rounds toward zero |
| Checked.GuardElided | mlir/MLIRGen.cpp:653-680 | leaving out the guard for a constant divisor never changes an outcome, it is left out for every divisor but -1 of a signed type, and the rejected constant is exactly zero |
| Indexing.LowerIndex | mlir/LowerAdaIndexing.cpp:31-99 | execution raises exactly for an index outside the bounds, in the three cases without a check too, and those are exactly the cases without one; otherwise the wide offset is index - lower, below the number of elements |
| Indexing.ExtentExact | mlir/MLIRGen.cpp:2348-2354 | the 64-bit element count is right, for a type that is accepted, exactly when the number of elements fits |
| Indexing.FullRangeExtent | mlir/MLIRGen.cpp:2348-2354 | a range of all 64-bit values gets extent 0 |
| Ordering.EnumWidth | mlir/MLIRGen.cpp:3930-3983 | the width found from the least and greatest code is the least that holds every code, signed or unsigned as its order is: one bit for codes 0 and 1, the least signed width otherwise, and 8, 16 or 32 for characters |
| Ordering.ChooseWidth | mlir/MLIRGen.cpp:4027-4033 | every type gets the least width in use that holds its values as its order reads them: of 8, 16, 32, 64, 128 for integers; only a signed range wider than 128 bits is rejected |
| Ordering.OrderAgrees | mlir/LowerToLLVM.cpp:800-843 | the machine predicate chosen, an unsigned one exactly for a type ordered so, compares words as =, /=, <, <=, >, >= compare the values, also in one bit |
| Peepholes.LastWrite | mlir/Dialect.cpp:616-627 | the backward scan finds the one write that can be forwarded, or there is none |
| Peepholes.RewritesAre | mlir/Dialect.cpp:616-714 | what may stand between the two operations of each rewrite: no memory effect for forwarding and for a write of what was read, nothing that could raise either for an overwritten write |
| Peepholes.ForwardSame | mlir/Dialect.cpp:611-630 | forwarding keeps the meaning of the block, whatever aliases |
| Peepholes.OverwrittenSame | mlir/Dialect.cpp:689-699 | so does removing an overwritten write |
| Peepholes.ReadBackSame | mlir/Dialect.cpp:701-714 | so does removing a write of what was read |
| Peepholes.Block.SimplifyObjectWrite | mlir/Dialect.cpp:687-717 | removes a write exactly when one of the two reasons holds |
| Peepholes.RewritesKeepMeaning | mlir/Dialect.cpp:608-717 | any chain of rewrites keeps every value, the final store and the point of raise, and is no longer than the number of reads and writes |
| Peepholes.Block.Canonicalize | mlir/Dialect.cpp:633-636 | applying the rewrites ends in a block with the same meaning to which none applies |
| Naming.Names.MakeUnique | mlir/MLIRGen.cpp:271-280 | ends for every set of used names, and yields the candidate or the first unused numbered one |
| Naming.DigitsDecimal | mlir/MLIRGen.cpp:271-280 | the number appended is in decimal, most significant digit first, without a leading zero |
| Naming.Names.MakeAll | mlir/MLIRGen.cpp:271-280 | no name is given twice over any sequence of requests |
| Naming.BareNameRecovers | mlir/Dialect.cpp:1271-1282 | the simple name comes back from a qualified name, with or without a collision suffix |
| Naming.BareNameSimple | mlir/Dialect.cpp:1271-1282 | for any text, the simple name is what follows the last dot, or all of it if nothing does, without a double underscore and digits at its end |
| Mangling.DemangledMangled | mlir/Dialect.cpp:1291-1350 | the segments of a symbol can be read back from its mangled name, whatever the arity and visibility |
| Mangling.MangledApart | mlir/Dialect.cpp:1324-1350 | distinct symbols have distinct mangled names |
| Mangling.MangledIsNoSymbol | mlir/HoistNestedSymbolOperations.cpp:85-110 | a mangled name is never the not yet mangled symbol of another subprogram |
| Mangling.CapturesMakeBinary | mlir/Dialect.cpp:1330-1337 | "+" and "-", in any scope, are given the unary name exactly when they have one input, captures included |
| Mangling.MangledName | mlir/Dialect.cpp:1324-1350 | the name is the segments' tokens, joined by a double underscore, after `_ada_` exactly for a public symbol of one segment; the token of an operator is its GNAT name, and that of any other segment its own text |
| Mangling.GnatNames | mlir/Dialect.cpp:1291-1315 | the GNAT name of each operator |
| Mangling.MainName | mlir/Dialect.cpp:1341-1350 | a public library procedure main is named `_ada_main` |
| Mangling.PlusName | mlir/Dialect.cpp:1324-1345 | the binary "+" of a package pkg is named `pkg__Oadd` |
| Mangling.Module.RenameAll | mlir/HoistNestedSymbolOperations.cpp:94-110 | renaming one subprogram after the other is renaming all at once: every reference follows the subprogram it named |
| Mangling.MangleModule | mlir/HoistNestedSymbolOperations.cpp:81-110 | after mangling a module the names are distinct and every reference leads to the subprogram it did |

## Left out

- CallLowering.VerifyCall: does not model the comparisons of argument, snapshot, range and result types, because values are untyped in `Ir`.
- CallLowering.Pass.Run: lowers one subprogram at a time, where the code rewrites all calls and then all subprograms; the modules differ at most in the numbers of new values, some of which stay unused.
- CallMeaning.CallsKeepMeaning: says nothing of a source run that is stuck, such as one that copies back through a reference that does not exist, or whose callee returns another number of results than the call names.
- Passes.PassesKeepMeaning: says nothing of stuck runs either, and leaves out the renaming between the two passes, because symbols are numbers in `Ir`; `Mangling` treats it by itself.
- Naming.BareNameRecovers: asks that the simple name does not itself end in a double underscore and digits, which no Ada identifier does.
- Indexing.FullRangeExtent: takes 64-bit arithmetic to wrap around, where the language of the code leaves overflow undefined.
- The types, attributes, locations and debug information of operations, which have no effect on meaning.
- Name resolution, static evaluation and the syntax tree, which come from Libadalang: the model starts from resolved statements.
- How source associations become the operands of a call, and default expressions of parameters.
- If expressions, declare blocks' own declarations, exception handlers, and nested regions of expressions.
- Range constraints of enumerations, arrays with several dimensions, dynamic bounds or enumeration indices, and conversions to and from floating point.
- Floating-point arithmetic and comparisons, which map one to one.
- Lowering of object references to memory, and all passes of upstream MLIR and LLVM.
- Names taken from fully qualified Ada names, which are not reserved against generated ones.
- The driver, the binder, the runtime stub, the printers and parsers of attributes, and the build.
