# TieVM in Dafny

A model of the TieVM bytecode virtual machine and proofs about it: an optimizing compiler over a
register bytecode, the interpreter that gives that bytecode its meaning, the verifier in front
of both, and four independent components (method resolution orders, the garbage collector, the
`.tbc` file format, strict UTF-8).

## The model

**Meaning of bytecode.** `Interpreter` is the dispatch loop of one activation as a small-step
machine over program counter, registers, try frames and a world: the interned strings and a
token for everything else. A value is a tag and 64 bits, and arithmetic reads the bits whatever
the tag. `Thread` is the same loop with its state updated in place, opcode group by opcode
group, proved equal to the machine. What lies outside an activation is an environment that
answers requests (calls, closures, objects, native functions) with a result, a failure or an
exception and a new world. Above that, `Interpreter.Execute` runs whole modules whose calls are
real calls, nested to a given depth, and `Meanings.Meaning` is the outcome once the depth
suffices, or divergence. `Int64` holds the one set of wrapping operators that interpreter and
optimizer share.

**Static contract.** `Verifier` states as a predicate which modules are acceptable and proves
that the checking method accepts exactly those. `TrustedMode` shows that acceptable modules need
no run-time bounds checks.

**Optimizer.** Every pass has its method over a workspace of functions and a growing constant
pool (`Passes`), a description of the code it produces, a proof that the module stays
acceptable, and a proof about runs. `SccpAnalysis` and `Sccp` are the worklist analysis and its
rewriting, `Dce` and `Cleanup` the removal of code and the renumbering of jumps, `Licm` the
retargeting of back edges, `ConstFold`, `CopyProp` and `StrengthReduction` the block-local
passes that also work between handlers, `ConstExec` execution at optimization time, `Peephole`,
`Tailcall` and `LoopFusion` the small rewrites, `FfiBypass` the replacement of calls that only
forward. `IntTags` is a flow analysis of the registers that certainly hold integers, which
states when rewrites that touch tags are correct. Inlining is spread over `Inline` (the code it
builds), `Embedding` and `Widening` (registers inside a larger file), `CallTypes` (the type
checks of a call), `CallSites` (one call), `InlineRuns` (a caller), `InlinePass` (a module),
`InlineOk` and `InlineLimits`. `Pipeline` runs the passes in order, shows that the final
verification cannot fail, and composes what they do to the meaning of the program. `Foresight`
decides on the input: a condition on the module before optimization under which every pass of
levels 0 to 2 is safe on whatever the passes before it have made, so that the optimized program
means what the original meant. `TailTypes` and `SteadyStrings` are what two of these theorems
need of all calls: that they return what is declared, and lose no strings; `Reaching` is what
the second level needs to know about the paths between a copy and its use. `Machines` has the
run and simulation arguments all of this rests on.

**Where the code does less than a reader may expect.** Several passes change the meaning of some
programs the verifier accepts. Each such pass has a condition under which it is correct that can
be read off the code before the pass, and a small program or instruction that shows what happens
without it: `Sccp.HandlersAreLost`, `Cleanup.JumpSentBack`, `Licm.SideEntryMatters`,
`ConstFold.VarArgsAreForgotten`, `CopyProp.CopyIsMistaken`, `CopyProp.VarArgIsMissed`,
`Tailcall.LabelledReturn`, `LoopFusion.LabelledTest`, `LoopFusion.OwnCounterDiffers`,
`InlineLimits.TypesAreForgotten`, `InlineLimits.RegistersAreReused`. Where the fault sits in one
instruction there is an if-and-only-if: `Peephole.SimplifiedStep`, `Tailcall.ReturnTypeExact`,
`StrengthReduction.CopyExact`, `CopyProp.InPlaceExact`, `CopyProp.WindowApartExact`,
`ConstFold.WindowExact`, `LoopFusion.FusedExact`, `CallTypes.TypesExact` with
`InlineRuns.ExpansionExact`, `FfiBypass.BypassExact`, `Cleanup.MappedTargetExact`. For whole
functions the conditions are sufficient, and the theorems about pipelines ask nothing of a pass
that finds nothing to do.

**Exceptions.** `Exceptions` is about the try/catch/finally frames on every run of any bytecode,
acceptable or not. One thing it shows is surprising: leaving a block whose frame is already in
its finally runs the finally again and forgets the exception the frame owed
(`Exceptions.OwedException`). Otherwise that exception is raised when the finally ends, unless
another one passes the frame first.

**The rest.** `C3` and `ObjectModel` are the C3 merge, linearization over registered classes,
the cache and method lookup. `Gc` is the generational collector with its weak and phantom
references and finalizers; ghost fields remember everything that ever died, fired or was
finalized, so that conservation can be stated over all sequences of operations. `Wire`, `Tbc`
and `Serializer` are the file format from single fields to whole modules. `Utf8` is the decoder
against sections 3 and 4 of RFC 3629, `Arithmetic` the integer power.

Conventions: `seq<char>` with characters below 256 stands for byte strings; floating-point
constants are opaque 64-bit patterns; the 32-bit wrap-around of operand arithmetic is written
out.

## Model

| member | source | states |
|---|---|---|
| Interpreter.EntryRegs | src/runtime/vm_thread.cpp:139-147 | the register file has the declared size; arguments come first, the rest is null |
| Interpreter.Find | src/runtime/vm_instance.cpp:57-67 | a string is interned once: the index found is the first that holds it, or the end exactly if none does |
| Runs.ExecKeepsTries | src/runtime/vm_thread.cpp:214-792 | outside the try instructions no instruction touches the stack of try frames |
| Machines.ResultIs | src/runtime/vm_thread.cpp:214-830 | a run has one result, whatever number of steps finds it |
| Machines.SimulatedResult | src/runtime/vm_thread.cpp:214-830 | two machines related by a simulation that may stutter end alike, or both never end |
| Machines.ResultUnder | src/runtime/vm_thread.cpp:214-830 | what every step keeps true of the state, and every outcome from there shows, holds of the result |
| Runs.SameExecutions | src/runtime/vm_thread.cpp:632-700 | if every activation of two modules behaves alike, so do whole executions with their nested calls, to every depth |
| Thread.VmThread.Handle | src/runtime/vm_thread.cpp:793-825 | the popping loop finds the handler that unwinding is specified to find, or empties the try stack |
| Thread.VmThread.ExecuteTry | src/runtime/vm_thread.cpp:510-579 | the try instructions, updating pc and try stack in place, do what the specification of the step says |
| Thread.VmThread.ExecuteCompute | src/runtime/vm_thread.cpp:234-237 | moves, arithmetic and bit operations update pc and registers as specified, or throw |
| Thread.VmThread.ExecuteBranch | src/runtime/vm_thread.cpp:378-509 | the eight jumps count, decide, and move the pc as specified, the out-of-range throw after counting included |
| Thread.VmThread.ExecuteLoadK | src/runtime/vm_thread.cpp:238-261 | loads a constant, interning strings, as specified |
| Thread.VmThread.ExecuteString | src/runtime/vm_thread.cpp:348-377 | length and concatenation intern and store as specified |
| Thread.VmThread.ExecuteVarArg | src/runtime/vm_thread.cpp:619-631 | the copying loop fills the window one register after the other, up to the register that does not exist |
| Thread.VmThread.ExecuteEnd | src/runtime/vm_thread.cpp:727-753 | return, throw and halt, with the check of the declared return type |
| Thread.VmThread.ExecuteCall | src/runtime/vm_thread.cpp:632-699 | the four calls gather their arguments, ask, and store or pass on the answer as specified |
| Thread.VmThread.ExecuteClosure | src/runtime/vm_thread.cpp:580-618 | closures and upvalues do as specified |
| Thread.VmThread.ExecuteNamed | src/runtime/vm_thread.cpp:754-792 | the instructions that name a native function, a class or a method do as specified |
| Thread.VmThread.ExecuteInstruction | src/runtime/vm_thread.cpp:214-792 | whatever the opcode, what happens in place is the specified effect |
| Thread.VmThread.Dispatch | src/runtime/vm_thread.cpp:214-825 | one turn of the dispatch loop, in place, is one step of the small-step machine, exceptions included |
| Thread.VmThread.Execute | src/runtime/vm_thread.cpp:212-835 | the loop is the run of that machine |
| Meanings.Deeper | src/runtime/vm_thread.cpp:109-112 | what has ended under one nesting depth ends the same way under every greater one |
| Meanings.MeaningIs | src/runtime/vm_thread.cpp:109-112 | the depth-free meaning of a call is what any sufficient depth gives |
| Meanings.SameActivationsSameMeaning | src/runtime/vm_thread.cpp:632-700 | modules whose activations behave alike give every call the same meaning |
| Meanings.CaughtBothWays | src/runtime/vm_thread.cpp:632-700 | if each of two modules catches up with the other, perhaps one call deeper, all calls mean the same in both |
| Verifier.InstructionErrorExact | src/bytecode/verifier.cpp:185-497 | the switch over opcodes accepts exactly the instructions whose registers, windows, jump targets and references fit |
| Verifier.VerifyMetadata | src/bytecode/verifier.cpp:60-133 | FFI bindings and class declarations are accepted exactly when well formed and without duplicate names |
| Verifier.VerifyClass | src/bytecode/verifier.cpp:96-133 | a class is accepted exactly when its name, bases and methods are well formed |
| Verifier.VerifyFunction | src/bytecode/verifier.cpp:135-497 | a function is accepted exactly when its signature and every instruction is |
| Verifier.Verify | src/bytecode/verifier.cpp:48-501 | the early-exit loops accept exactly the modules that satisfy the declarative contract |
| TrustedMode.InstructionInBounds | src/runtime/vm_thread.cpp:216-792 | on accepted code the checked and unchecked instruction have the same effect, never leave the register file and keep its size |
| TrustedMode.StepInBounds | src/runtime/vm_thread.cpp:212-227 | the same for a whole step, unwinding included |
| TrustedMode.TrustedRun | src/runtime/vm_thread.cpp:212-227 | validated and trusted runs of an activation end alike |
| TrustedMode.TrustedModule | docs/adr/ADR-0005-fast-path-instruction-set-and-trusted-runtime.md:21-24 | for every accepted module, entry, arguments, world and foreign environment, turning run-time validation off changes nothing |
| Exceptions.UnwindExact | src/runtime/vm_thread.cpp:793-825 | unwinding fails exactly if no frame can catch or owes its finally; else it stops at the topmost that can and discards only frames that can do neither |
| Exceptions.StepDisciplined | src/runtime/vm_thread.cpp:510-579 | every step of any bytecode keeps the frames disciplined (never in catch and finally at once; a frame that will rethrow is in its finally and has the exception) and frames only advance |
| Exceptions.RunDisciplined | src/runtime/vm_thread.cpp:189-198 | so every state of every run is disciplined |
| Exceptions.OwedException | src/runtime/vm_thread.cpp:531-579 | an exception a frame owes stays with it, is raised when its finally ends, or gives way to another that passes the frame; leaving the block again forgets it and runs the finally a second time |
| Exceptions.UnwindOwes | src/runtime/vm_thread.cpp:793-825 | each exception taken uses up one of the two a frame can take |
| Exceptions.HandlersBounded | src/runtime/vm_thread.cpp:793-825 | over any number of steps, the exceptions taken are at most twice the try statements opened plus what the frames at the start could still take |
| Exceptions.RankGrows | src/runtime/vm_thread.cpp:510-579 | as long as a frame stays on the stack it only moves on, from block to catch to finally |
| Exceptions.CatchEnteredOnce | src/runtime/vm_thread.cpp:797-812 | as long as a frame stays, its catch is entered at most once |
| Int64.Wrap | src/runtime/vm_thread.cpp:262-276 | the value in range that differs by a multiple of 2^64; the identity on the range |
| Bytecode.SignedUnsigned | src/bytecode/optimizer.cpp:83-120 | a jump distance written into an operand is read back |
| Effects.StepChanges | src/bytecode/optimizer.cpp:398-444 | without handlers a step changes only registers InstructionWritesReg names, and strings stay interned |
| Effects.VarArgFills | src/runtime/vm_thread.cpp:619-631 | a variadic copy fills its window with the surplus arguments and changes nothing else |
| Relocation.ExecRelocated | src/runtime/vm_thread.cpp:214-792 | an instruction that does not jump does at any place what it does at its own |
| Widening.StepWidened | src/runtime/vm_thread.cpp:139-147 | an accepted step over a longer register file does the same and leaves the added registers alone |
| Blocks.StepStays | src/bytecode/optimizer.cpp:127-154 | control leaves a straight stretch only to a label, handlers included |
| Blocks.StepMoves | src/bytecode/optimizer.cpp:127-154 | a step follows the control flow graph, or an exception arrives at a handler the code names |
| IntTags.ExecTags | src/runtime/vm_thread.cpp:234-509 | an instruction leaves integers where the analysis says so, whatever the path |
| IntTags.StepTagged | src/runtime/vm_thread.cpp:214-825 | on every run, with loops and handlers, the registers the flow analysis names hold integers |
| IntTags.EntryTagged | src/runtime/vm_thread.cpp:113-137 | parameters declared as integers hold integers when a call is admitted |
| CallTypes.CheckedResult | src/runtime/vm_thread.cpp:727-753 | checking the returned value only turns a returned value of the wrong type into a failure |
| CallTypes.TypesExact | src/runtime/vm_thread.cpp:109-137 | the call of an inline-safe function ends as its unchecked body does if and only if the arguments match the parameter types and a returned value matches the return type |
| CallTypes.ResultMatches | src/runtime/vm_thread.cpp:727-739 | a function whose flow analysis finds an integer at its return returns what it declares |
| TailTypes.ExecuteReturns | src/runtime/vm_thread.cpp:632-739 | where tail calls only call functions that declare the same return type, every call, however deep it nests, returns what its callee declares |
| SteadyStrings.ExecuteGrows | src/runtime/vm_instance.cpp:57-67 | where the outside world keeps interned strings, no call loses one, whatever the bytecode |
| Blocks.CollectJumpTargets | src/bytecode/optimizer.cpp:127-154 | collects exactly the targets of relative jumps and try statements |
| KnownValues.AbsComputeSound | src/bytecode/optimizer.cpp:841-867 | what folding claims about a result is true of what the interpreter computes, for operands that fit what is known of them |
| KnownValues.FoldsTheKnown | src/bytecode/optimizer.cpp:1453-1500 | integer operations on known operands are always replaced by the load of what the interpreter would compute, unless they divide by zero |
| KnownValues.DecidesTheKnown | src/bytecode/optimizer.cpp:1502-1533 | a test of a known integer is always decided the way the interpreter would |
| KnownValues.FoldedStep | src/bytecode/optimizer.cpp:1427-1538 | rewriting an instruction from true knowledge of its operands changes no step |
| KnownValues.RealizedOk | src/bytecode/optimizer.cpp:1427-1538 | a rewritten instruction stays acceptable whatever was known |
| SccpAnalysis.MergeIsJoin | src/bytecode/optimizer.cpp:828-840 | merging is the least upper bound of two states |
| SccpAnalysis.Monotone | src/bytecode/optimizer.cpp:1211-1420 | more knowledge in gives more knowledge out and fewer ways to go on |
| SccpAnalysis.MergeProgress | src/bytecode/optimizer.cpp:1170-1192 | a merge covers the incoming flow, loses none of the old, and lowers the measure whenever it pushes |
| SccpAnalysis.MergeStaysLeast | src/bytecode/optimizer.cpp:1170-1192 | a merge never goes above any solution |
| SccpAnalysis.MergeInto | src/bytecode/optimizer.cpp:1170-1192 | the merged analysis, and a push exactly if something changed |
| SccpAnalysis.Propagate | src/bytecode/optimizer.cpp:1204-1420 | one pop keeps the loop invariant, settles the popped pc unless it was pushed again, and pays for its pushes |
| SccpAnalysis.Analyze | src/bytecode/optimizer.cpp:1164-1420 | the worklist ends with the least solution of the flow equations after at most size * (registers + 1) + 1 pushes |
| Sccp.StepExplained | src/bytecode/optimizer.cpp:1164-1420 | a solution that also covers every handler, with nothing known there, explains the state after each step if it explained the state before: the pc is reachable and every known register has its value |
| Sccp.RewrittenRun | src/bytecode/optimizer.cpp:1427-1538 | rewriting from a solution that covers the handlers leaves the result of every run unchanged, exceptions included |
| Sccp.RunSccpPass | src/bytecode/optimizer.cpp:1148-1544 | the pass rewrites from the least solution, the module stays acceptable, and no run changes if that solution covers the handlers, as it does without try instructions |
| Sccp.HandlersAreLost | src/bytecode/optimizer.cpp:1164-1420 | the try opcodes matter: a handler is taken for dead code, and a run that returned falls off the end |
| Sccp.ThrowAndCatchOk | src/bytecode/verifier.cpp:185-497 | the verifier accepts that code |
| Dce.ReachableIffPath | src/bytecode/optimizer.cpp:2164-2208 | what is marked is exactly what a path of the control flow graph reaches |
| Dce.FindReachable | src/bytecode/optimizer.cpp:2164-2208 | the worklist marks exactly the reachable pcs |
| Dce.SweptRun | src/bytecode/optimizer.cpp:2210-2222 | turning code outside any closed set into Nops changes no run |
| Dce.Sweep | src/bytecode/optimizer.cpp:2210-2222 | the loop turns exactly the unmarked instructions into Nops |
| Dce.RunDcePass | src/bytecode/optimizer.cpp:2157-2222 | code with handlers is left alone, else exactly the unreachable instructions become Nops; the module stays acceptable and no run changes |
| Cleanup.NextSurvivor | src/bytecode/optimizer.cpp:2264-2277 | the old place of the new number of p is the next instruction at or after p that is no Nop |
| Cleanup.MappedTargetExact | src/bytecode/optimizer.cpp:2224-2245 | the mapped target is the next survivor exactly if there is one |
| Cleanup.Gather | src/bytecode/optimizer.cpp:2264-2277 | the survivors in order, and the two tables that relate old and new places |
| Cleanup.SkipNops | src/runtime/vm_thread.cpp:231-233 | the old code walks from a target to its next survivor in as many steps as there are Nops |
| Cleanup.FindMappedTarget | src/bytecode/optimizer.cpp:2224-2245 | the search forward, then backward, computes the mapped target |
| Cleanup.RenumberedJump | src/bytecode/optimizer.cpp:2283-2309 | a renumbered jump lands on the new number of its old target |
| Cleanup.SurvivorStep | src/bytecode/optimizer.cpp:2247-2316 | from states related by next survivor, one step of each leads to related states or to the same end |
| Cleanup.CompactedRun | src/bytecode/optimizer.cpp:2247-2316 | deleting the Nops and renumbering gives every run the same result, falling off the end included |
| Cleanup.Compact | src/bytecode/optimizer.cpp:2247-2316 | code is compacted exactly if it is try-free, has something to delete and something to keep, and all jumps can be renumbered |
| Cleanup.RunCleanupPass | src/bytecode/optimizer.cpp:2247-2316 | the module stays acceptable; runs do not change if every jump has a survivor at or after its target |
| Cleanup.JumpSentBack | src/bytecode/optimizer.cpp:2237-2245 | a jump to a trailing Nop is sent back: falling off the end becomes returning |
| Cleanup.JumpOverReturnOk | src/bytecode/verifier.cpp:185-497 | the verifier accepts that code |
| Licm.CollectPredecessors | src/bytecode/optimizer.cpp:869-910 | the predecessor table is exactly that of the control flow graph |
| Licm.Hoist | src/bytecode/optimizer.cpp:919-970 | the edges retargeted one after another are those of the code as it was when the table was computed |
| Licm.StepLoaded | src/bytecode/optimizer.cpp:943-957 | at every visit to header+1 .. back edge, loading the header constant again would change nothing |
| Licm.HeaderLoad | src/bytecode/optimizer.cpp:943-967 | back at the header the old code repeats a load that changes nothing |
| Licm.HoistedRun | src/bytecode/optimizer.cpp:912-976 | with single-entry loops every run is preserved, however many back edges were retargeted |
| Licm.HoistedMeaning | src/bytecode/optimizer.cpp:912-976 | with single-entry loops the program means the same, whatever the headers load, in every outside world that keeps interned strings |
| Licm.HoistedOk | src/bytecode/optimizer.cpp:912-976 | retargeted code stays acceptable |
| Licm.RunLicmHeaderLoadPass | src/bytecode/optimizer.cpp:912-976 | the module stays acceptable; runs of functions with single-entry loops do not change (for string constants: as long as the outside world keeps interned strings) |
| Licm.SideEntryMatters | src/bytecode/optimizer.cpp:934-957 | with a side entry the result can change, and the condition is not met |
| Licm.SideEnteredOk | src/bytecode/verifier.cpp:185-497 | the verifier accepts that code |
| ConstFold.StepInformed | src/bytecode/optimizer.cpp:1833-2076 | on every run, also with handlers, every entry of the known map is the exact value of the register |
| ConstFold.WindowExact | src/bytecode/optimizer.cpp:2035-2041 | what is known stays true whatever a variadic copy brings, forgetting its first register only, if and only if nothing is known about its other registers |
| ConstFold.KnownBeforeSharp | src/bytecode/optimizer.cpp:1833-2076 | an entry of the map always says something: the other direction needs that |
| ConstFold.FoldedRun | src/bytecode/optimizer.cpp:1833-2076 | block-local folding changes no run if nothing is known about the further registers of variadic copies |
| ConstFold.RunConstFoldPass | src/bytecode/optimizer.cpp:1833-2076 | the module stays acceptable, and no run changes if, at every variadic copy, nothing is known about the registers behind its first |
| ConstFold.VarArgsAreForgotten | src/bytecode/optimizer.cpp:2035-2041 | with two surplus arguments folding uses a constant that was overwritten, and the result changes; the condition is not met |
| ConstFold.VarArgOverwritesOk | src/bytecode/verifier.cpp:185-497 | the verifier accepts that code |
| CopyProp.ResolveAlias | src/bytecode/optimizer.cpp:176-190 | on a flat map following the chain is one look-up |
| CopyProp.KillAliasForWrite | src/bytecode/optimizer.cpp:192-207 | removes the written register as key and every entry that points to it |
| CopyProp.RemapSourceRegs | src/bytecode/optimizer.cpp:297-359 | replaces exactly the operands that are read, opcode by opcode |
| CopyProp.CopiesBeforeFlat | src/bytecode/optimizer.cpp:2078-2155 | at every pc no value of the alias map is a key |
| CopyProp.StepCopied | src/bytecode/optimizer.cpp:2078-2155 | on every run, also with handlers, the two registers of every pair are equal |
| CopyProp.RemappedStep | src/bytecode/optimizer.cpp:297-359 | a remapped instruction does what it did |
| CopyProp.InPlaceExact | src/bytecode/optimizer.cpp:333-349 | for an instruction that writes the register it reads, remapping is faithful on all register files the map is true of if and only if none of its registers is a key |
| CopyProp.WindowApartExact | src/bytecode/optimizer.cpp:2133-2136 | the copies stay true whatever a variadic copy brings, killing its first register only, if and only if no other copy reads or writes its further registers |
| CopyProp.PropagatedRun | src/bytecode/optimizer.cpp:2078-2155 | propagating copies changes no run |
| CopyProp.RunCopyPropPass | src/bytecode/optimizer.cpp:2078-2155 | the module stays acceptable, and no run changes if no in-place instruction finds its own register in the map and no variadic copy meets a copy of its further registers |
| CopyProp.CopyIsMistaken | src/bytecode/optimizer.cpp:333-349 | incrementing a copy increments the original: 0 becomes 1; the condition is not met |
| CopyProp.CountInCopyOk | src/bytecode/verifier.cpp:185-497 | the verifier accepts that code |
| CopyProp.VarArgIsMissed | src/bytecode/optimizer.cpp:2133-2136 | with two surplus arguments a copy is believed in after it was overwritten, and another value is returned; the condition is not met |
| CopyProp.VarArgOverCopyOk | src/bytecode/verifier.cpp:185-497 | the verifier accepts that code |
| ConstExec.TryExecute | src/bytecode/optimizer.cpp:1555-1830 | the compile-time loop runs the abstract machine for at most 200000 steps |
| ConstExec.TriedRun | src/bytecode/optimizer.cpp:1546-1815 | if the compile-time run yields a value, the interpreter returns that value within as many steps, from any registers that fit |
| ConstExec.ReplacementReturns | src/bytecode/optimizer.cpp:1801-1823 | the two-instruction replacement returns the constant |
| ConstExec.RunO3ConstExecPass | src/bytecode/optimizer.cpp:1546-1831 | the module stays acceptable, a folded function is the two-instruction one, and its runs return what they always did |
| Inline.IsInlineCandidate | src/bytecode/optimizer.cpp:521-573 | accepts exactly the callees of the declarative description |
| Inline.ScanBody | src/bytecode/optimizer.cpp:541-573 | the scan of a body accepts exactly inline-safe instructions whose jumps stay inside and one return at the end |
| Inline.InlinedAt | src/bytecode/optimizer.cpp:2405-2456 | where each instruction of each expansion ends up |
| Inline.ExpandCode | src/bytecode/optimizer.cpp:2400-2456 | the builder loop produces the expansions in order and the start of each |
| Inline.RedirectJumps | src/bytecode/optimizer.cpp:2462-2490 | every caller jump is redirected to the start of the expansion of its target, unless the distance does not fit |
| Embedding.ComputeShifted | src/bytecode/optimizer.cpp:450-507 | a shifted instruction does to the embedded registers what the original does to its own, and nothing outside |
| Embedding.BranchRemapped | src/bytecode/optimizer.cpp:450-507 | the same for the registers of jumps |
| CallSites.MovesRun | src/bytecode/optimizer.cpp:2433-2436 | the argument moves put the arguments into the first scratch registers and change nothing else |
| CallSites.BodyRuns | src/bytecode/optimizer.cpp:2437-2453 | the shifted body ends as the callee does: in front of the result move with the result, with the same exception, or never |
| CallSites.CallRuns | src/bytecode/optimizer.cpp:2426-2455 | at the expansion of a call the caller ends up where the call would have taken it, with only the result register changed, or ends as the call does |
| InlineRuns.RealCall | src/runtime/vm_thread.cpp:632-646 | an admitted call of such a callee is a run of its code from null registers and the arguments |
| InlineRuns.ExpansionExact | src/bytecode/optimizer.cpp:2426-2455 | the expansion ends as the unchecked body of the callee, and that is how the call ends if and only if arguments and result match their types |
| InlineRuns.OrdinaryMatch | src/bytecode/optimizer.cpp:2405-2418 | an instruction that is neither jump nor inlined call does the same in both callers |
| InlineRuns.JumpMatch | src/bytecode/optimizer.cpp:2462-2490 | a redirected jump lands on the instruction that matches |
| InlineRuns.SiteMatch | src/bytecode/optimizer.cpp:2426-2455 | an inlined call takes both callers to matching states, or to the same end |
| InlineRuns.InlinedRun | src/bytecode/optimizer.cpp:2360-2500 | the expanded caller returns, throws or diverges exactly as the original, whose calls are real calls, if arguments and results certainly have their types |
| InlineOk.RedirectedOk | src/bytecode/optimizer.cpp:2462-2490 | a redirected jump stays inside the new code whether or not its distance could be updated |
| InlineOk.InlinedOk | src/bytecode/optimizer.cpp:2360-2500 | every instruction of the expanded code is acceptable |
| InlinePass.ExpandedMeaning | src/bytecode/optimizer.cpp:2360-2500 | expanding one caller changes the meaning of no function of the module, called from anywhere |
| InlinePass.HalfwayMeaning | src/bytecode/optimizer.cpp:2360-2500 | after any number of callers the module is acceptable and means the same |
| InlinePass.CalleesStay | src/bytecode/optimizer.cpp:2366-2376 | candidates contain no calls, so the callees are the same throughout the pass |
| InlinePass.InlineCaller | src/bytecode/optimizer.cpp:2371-2497 | the loop body leaves the caller as it was or replaces it by its expansion |
| InlinePass.RunInlineSmallPass | src/bytecode/optimizer.cpp:2360-2500 | the module stays acceptable whatever is inlined; the program means the same if the callees read only what they were given or wrote, and typed parameters and results are integers for certain |
| InlineLimits.TypesAreForgotten | src/bytecode/optimizer.cpp:2433-2453 | a call that fails on the type of its argument returns once inlined, and the condition on arguments is not met |
| InlineLimits.RegistersAreReused | src/bytecode/optimizer.cpp:2433-2453 | a callee that reads a register it never wrote sees what an earlier inlined call left there |
| Peephole.SimplifiedStep | src/bytecode/optimizer.cpp:678-727 | a simplified instruction does the same if and only if, when it adds zero, the source is tagged Int64 |
| Peephole.RunPeepholePass | src/bytecode/optimizer.cpp:678-727 | the module stays acceptable, and no run changes if zero is only added to registers that the flow analysis finds to be integers |
| Pairs.MergedRun | src/bytecode/optimizer.cpp:729-818 | merging pairs whose second half is no label preserves runs as soon as each pair matches |
| Tailcall.TailStep | src/bytecode/optimizer.cpp:729-755 | the tail call ends as the call does, or returns what the call stores |
| Tailcall.ReturnTypeExact | src/bytecode/optimizer.cpp:729-755 | call then return and tail call agree if and only if the value matches the return type of the caller, which a tail call does not check |
| Tailcall.LabelledReturn | src/bytecode/optimizer.cpp:732-748 | a jump to the return behind a call finds a Nop, and the activation falls off the end |
| Tailcall.JumpToReturnOk | src/bytecode/verifier.cpp:185-497 | the verifier accepts that code |
| Tailcall.TailCalledMeaning | src/bytecode/optimizer.cpp:729-755 | the program means the same if the caller may return anything, or if it and all tail calls of the module only call functions that declare the return type of their callers, as a typed function that calls itself does |
| Tailcall.RunTailcallPass | src/bytecode/optimizer.cpp:729-755 | the module stays acceptable; no run changes if there is nothing to fuse, or no fused return is a label and the caller may return anything; the meaning stays also where callees declare what callers return |
| LoopFusion.FusedExact | src/bytecode/optimizer.cpp:757-818 | the fused jump decides and counts as the pair does if and only if the counter is not its own addend, or is zero |
| LoopFusion.OwnCounterDiffers | src/bytecode/optimizer.cpp:760-805 | a register that holds 1 is doubled, decremented, and the jump is taken; the fused instruction does not jump |
| LoopFusion.LabelledTest | src/bytecode/optimizer.cpp:760-805 | a jump to the second half finds a Nop, and the other return is taken |
| LoopFusion.JumpToTestOk | src/bytecode/verifier.cpp:185-497 | the verifier accepts that code |
| LoopFusion.RunLoopFusionPass | src/bytecode/optimizer.cpp:757-818 | the module stays acceptable; no run changes if no second half is a label and no sum is its own addend |
| StrengthReduction.ReducedProduct | src/bytecode/optimizer.cpp:978-1146 | the replacement of a multiplication by a known 0, 1 or 2 computes the wrapped product |
| StrengthReduction.CopyExact | src/bytecode/optimizer.cpp:978-1146 | the move that replaces a multiplication by 1 does the same if and only if the other factor is tagged Int64 |
| StrengthReduction.StepKnowing | src/bytecode/optimizer.cpp:978-1146 | known factors are true on every run, and so are the integers the flow analysis finds |
| StrengthReduction.RunStrengthReductionPass | src/bytecode/optimizer.cpp:978-1146 | the module stays acceptable; no run changes if factors next to a 1 are integers by the flow analysis, and nothing is known about the further registers of variadic copies |
| FfiBypass.RunFfiForwarderBypassPass | src/bytecode/optimizer.cpp:2318-2357 | the module stays acceptable, and the calls that are bypassed are those to forwarders with the right number of arguments |
| FfiBypass.ForwarderAnswers | src/bytecode/optimizer.cpp:575-615 | an admitted call of a forwarder is answered as its foreign function answers it, asked with the first argument in every place, with the check of the return type |
| FfiBypass.BypassExact | src/bytecode/optimizer.cpp:2318-2357 | for an untyped forwarder, and foreign functions that answer whoever asks, the bypass gives the answer of the call if and only if the arguments are all the same, as none or one are |
| Pipeline.WithoutCounts | src/bytecode/optimizer.cpp:617-676 | disabling takes out every occurrence of a pass and no other; disabling nothing changes nothing |
| Pipeline.BuildPassPipeline | src/bytecode/optimizer.cpp:617-676 | the passes of the level in their order and multiplicity, then each newly enabled one once in the order given, without the disabled ones |
| Pipeline.StageMeaning | src/bytecode/optimizer.cpp:2624-2683 | every single transformation that is safe where it is applied, or finds nothing to do there, keeps the meaning of every function |
| Pipeline.PipelineMeaning | src/bytecode/optimizer.cpp:2594-2693 | so does any sequence of them |
| Pipeline.OptimizeBytecodeModuleInPlace | src/bytecode/optimizer.cpp:2594-2693 | for any options and any module the verifier accepts, all passes run and the final verification succeeds; the history of the module is that of the transformations of the scheduled passes |
| Pipeline.OptimizedMeaning | src/bytecode/optimizer.cpp:2594-2693 | for any options, if each of them was safe where it was applied or found nothing to do, the optimized program means what the original meant |
| Pipeline.OptimizedSteady | src/bytecode/optimizer.cpp:2594-2693 | in every outside world that keeps interned strings, loops with strings at their headers are among the safe ones |
| Foresight.TailReady | src/bytecode/optimizer.cpp:729-755 | after tail calls no pair to fuse is new or divided, the code still ends firmly and nothing clashes |
| Foresight.FusedReady | src/bytecode/optimizer.cpp:757-818 | after loop fusion the code still ends firmly: control goes on behind no last instruction and no jump aims behind it |
| Foresight.CompactedReady | src/bytecode/optimizer.cpp:2247-2316 | deleting Nops keeps the promises the later passes need |
| Foresight.FoldedReady | src/bytecode/optimizer.cpp:1833-2076 | so does folding, over any constant pool |
| Foresight.PropagatedReady | src/bytecode/optimizer.cpp:2078-2155 | what is copied is not counted in place before control passes a lasting jump or label, so propagation is safe |
| Foresight.SweptSurvives | src/bytecode/optimizer.cpp:2157-2222 | in code that ends firmly, every jump that survives the sweep has a survivor at or after its target |
| Reaching.CopyReaches | src/bytecode/optimizer.cpp:2078-2155 | a copy that propagation believes in was made further up with no lasting jump or label between, and so was one of the register it is a copy of |
| Reaching.KnownReaches | src/bytecode/optimizer.cpp:1833-2076 | a constant that folding believes in was written further up with no lasting jump or label between |
| Reaching.NoClashCopies | src/bytecode/optimizer.cpp:2078-2155 | code without clashes meets the condition of copy propagation |
| Reaching.NoClashKnown | src/bytecode/optimizer.cpp:1833-2076 | code without clashes meets the condition of folding, over any constant pool |
| Reaching.NoClashKept | src/bytecode/optimizer.cpp:617-676 | rewriting that leaves lasting jumps and labels alone makes no new clash |
| Reaching.FusedNoClash | src/bytecode/optimizer.cpp:757-818 | nor does loop fusion |
| Reaching.CompactedNoClash | src/bytecode/optimizer.cpp:2247-2316 | nor does deleting Nops and renumbering the jumps |
| Foresight.WorkAdvances | src/bytecode/optimizer.cpp:617-676 | pass by pass, what has been promised of a function makes the pass safe and the next promise true |
| Foresight.PassesSafe | src/bytecode/optimizer.cpp:2594-2693 | so all passes of the level, any of them disabled, are safe on every module they meet, and leave the next ones safe |
| Foresight.InputDecides | src/bytecode/optimizer.cpp:2594-2693 | for levels 0 to 2, a condition on the module before optimization makes every transformation of every possible history safe or leaves it nothing to do |
| Foresight.OptimizeBytecodeModule | src/bytecode/optimizer.cpp:2698-2708 | the optimized copy is accepted, and means what the module means if the module satisfies the condition of its level |
| Passes.RecodedAccepted | src/bytecode/verifier.cpp:48-501 | giving one function acceptable new code over more constants leaves the whole module acceptable |
| Passes.RecodedActivations | src/runtime/vm_thread.cpp:109-835 | a function that behaves alike makes a module that behaves alike |
| Passes.Workspace.GetOrAddInt64Constant | src/bytecode/optimizer.cpp:285-296 | an index that holds the constant; the pool grows by at most one and keeps what it had |
| Passes.Workspace.Apply | src/bytecode/optimizer.cpp:1427-1440 | carries out one rewrite over the growing pool |
| C3.MergeRespects | src/runtime/object_model.cpp:15-56 | the result has every input as a subsequence and mentions exactly what they mention |
| C3.MergeDistinct | src/runtime/object_model.cpp:15-56 | without repetitions in the inputs there are none in the result |
| C3.CandidateExists | src/runtime/object_model.cpp:27-44 | if one order respects all sequences there is a head no other sequence wants later |
| C3.MergeExact | src/runtime/object_model.cpp:15-56 | on sequences without repetitions the merge succeeds if and only if some order respects them all |
| C3.MergeRepeats | src/runtime/object_model.cpp:15-56 | the result repeats an element if and only if an input does |
| C3.RepeatedBase | src/runtime/object_model.cpp:15-56 | a base written twice is listed twice |
| C3.MergeC3 | src/runtime/object_model.cpp:15-56 | the loop that erases heads computes that merge |
| ObjectModel.OrderKept | src/runtime/object_model.cpp:58-113 | registering more classes changes no order |
| ObjectModel.OrderOfAncestors | src/runtime/object_model.cpp:58-98 | an order starts with the class, lists exactly its ancestors, and keeps the orders of its bases and of the list of bases |
| ObjectModel.OrderMonotone | src/runtime/object_model.cpp:58-98 | the order of every ancestor is a subsequence |
| ObjectModel.OrderDistinct | src/runtime/object_model.cpp:58-98 | nothing is listed twice if and only if no ancestor names a base twice |
| ObjectModel.OrderExists | src/runtime/object_model.cpp:58-98 | a class with distinct bases all the way up has an order if and only if its bases have and one order respects them |
| ObjectModel.LinearizeClass | src/runtime/object_model.cpp:58-98 | the recursion over memo and visiting set terminates without meeting a cycle and computes the order |
| ObjectModel.Lookup | src/runtime/object_model.cpp:202-218 | the first class in the order that has the method decides, also when it denies access; nothing is found exactly if none has it |
| ObjectModel.Model.RegisterClass | src/runtime/object_model.cpp:100-113 | a name is taken once, bases must exist, the cache is cleared; the orders of the classes there were stay |
| ObjectModel.Model.NewObject | src/runtime/object_model.cpp:115-137 | a fresh id, exactly if the class exists |
| ObjectModel.Model.ComputeMro | src/runtime/object_model.cpp:222-237 | the answer is what would be computed afresh, cached or not, and the cache grows by successful answers only |
| ObjectModel.Model.Resolve | src/runtime/object_model.cpp:177-218 | the method a call reaches is the one its order decides |
| Gc.ReachableKept | src/gc/gc_controller.cpp:154-238 | dropping what cannot be reached changes nothing about what can |
| Gc.MinorPhases | src/gc/gc_controller.cpp:251-270 | mark, promote and sweep together leave the reachable and the old, nothing young and nothing marked |
| Gc.MajorPhases | src/gc/gc_controller.cpp:292-311 | mark and sweep together leave exactly the reachable, unmarked |
| Gc.NamesSurvive | src/gc/gc_controller.cpp:213-230 | after a collection roots, weak and phantom references name survivors |
| Gc.FinalizersStillBalance | src/gc/gc_controller.cpp:196-206 | every reclaimed object that had a finalizer is finalized exactly once over all collections |
| Gc.RefsStillBalance | src/gc/gc_controller.cpp:213-227 | phantom references that fire were waiting, had not fired before, and their targets are dead |
| Gc.QueueStillBalances | src/gc/gc_controller.cpp:220-227 | what was drained and what is queued are together the targets of the references that fired, each once for each |
| Gc.GcController.Allocate | src/gc/gc_controller.cpp:25-46 | ids are never used again |
| Gc.GcController.AddReference | src/gc/gc_controller.cpp:48-57 | an edge between live objects |
| Gc.GcController.RemoveReference | src/gc/gc_controller.cpp:59-67 | removes the edge; fails only if the source is unknown |
| Gc.GcController.AddRoot | src/gc/gc_controller.cpp:69-76 | only live objects become roots |
| Gc.GcController.RemoveRoot | src/gc/gc_controller.cpp:78-82 | removes the root and nothing else |
| Gc.GcController.SetPinned | src/gc/gc_controller.cpp:84-102 | pins and unpins live objects |
| Gc.GcController.RegisterFinalizer | src/gc/gc_controller.cpp:104-113 | sets or replaces the finalizer of a live object |
| Gc.GcController.CreateWeakRef | src/gc/gc_controller.cpp:115-123 | a number no reference ever had |
| Gc.GcController.CreatePhantomRef | src/gc/gc_controller.cpp:125-133 | a number no reference ever had |
| Gc.GcController.ResolveWeakRef | src/gc/gc_controller.cpp:135-145 | a weak reference in the table leads to a live object |
| Gc.GcController.DrainPhantomQueue | src/gc/gc_controller.cpp:147-152 | hands out the queue and empties it |
| Gc.GcController.MarkFromRoots | src/gc/gc_controller.cpp:154-184 | breadth-first marking yields exactly what edges reach from roots and pins |
| Gc.GcController.SetMarks | src/gc/gc_controller.cpp:154-184 | sets exactly the marks of the reachable objects |
| Gc.GcController.PromoteYoung | src/gc/gc_controller.cpp:240-249 | marked young objects become old, and the young stay counted |
| Gc.GcController.SweepHeap | src/gc/gc_controller.cpp:189-211 | erases exactly what is neither marked, pinned nor spared, collects one call for each finalizer among it, and clears the marks |
| Gc.GcController.SweepWeakRefs | src/gc/gc_controller.cpp:213-219 | drops exactly the weak references to reclaimed objects |
| Gc.GcController.SweepPhantomRefs | src/gc/gc_controller.cpp:220-227 | drops exactly the phantom references to reclaimed objects and queues each target once for each |
| Gc.GcController.Sweep | src/gc/gc_controller.cpp:186-238 | erases what is neither marked nor spared and everything that names it; each reclaimed object gives at most its one finalizer |
| Gc.GcController.CollectMinor | src/gc/gc_controller.cpp:251-270 | keeps what is reachable and everything old, reclaims every unreachable young object, leaves nothing young; the invariants and the reachable set stay |
| Gc.GcController.CollectMajor | src/gc/gc_controller.cpp:292-311 | keeps exactly what is reachable; the invariants and the reachable set stay |
| Utf8.FirstEncoded | src/utf8/utf8.cpp:7-80 | what is decoded is a Unicode scalar value, and its encoding is what was read |
| Utf8.CharDecoded | src/utf8/utf8.cpp:7-80 | every character of the grammar of section 4 of RFC 3629 is decoded whatever follows |
| Utf8.EncodedDecoded | src/utf8/utf8.cpp:7-80 | the encoding of section 3 is inverted, whatever follows |
| Utf8.DecodeExact | src/utf8/utf8.cpp:106-117 | exactly the well-formed strings decode, and to the code points whose encoding they are |
| Utf8.EncodeDecode | src/utf8/utf8.cpp:106-117 | decoding inverts encoding |
| Utf8.DecodeOne | src/utf8/utf8.cpp:7-80 | moves the index over one character, or leaves it and reports the error, an index outside the text included |
| Utf8.DecodeCodePoints | src/utf8/utf8.cpp:106-117 | the loop computes that decoding |
| Utf8.CountCodePoints | src/utf8/utf8.cpp:93-104 | the number of code points decoding gives, or the same error |
| Utf8.Validate | src/utf8/utf8.cpp:82-91 | succeeds exactly on well-formed strings |
| Arithmetic.ProductOverflows | src/stdlib/native/tievm_std_native.cpp:157-160 | a product that leaves the range takes the power with it |
| Arithmetic.SquareOverflows | src/stdlib/native/tievm_std_native.cpp:161-164 | so does a square that is still needed |
| Arithmetic.PowInt64 | src/stdlib/native/tievm_std_native.cpp:150-167 | the exact power whenever it fits, with every product in range; 0 for negative exponents |
| Wire.Field64 | src/bytecode/serializer.cpp:32-36 | eight little-endian bytes are read back |
| Wire.StringRead | src/bytecode/serializer.cpp:103-116 | a counted string is read back |
| Wire.ManyRead | src/bytecode/serializer.cpp:360-397 | a counted list of records is read back if each record is |
| Wire.Buffer.PutU32 | src/bytecode/serializer.cpp:26-30 | appends exactly the four bytes of the field |
| Wire.Buffer.PutU64 | src/bytecode/serializer.cpp:32-36 | appends exactly the eight bytes of the field |
| Wire.Buffer.PutString | src/bytecode/serializer.cpp:38-41 | appends exactly the length and the bytes |
| Wire.Buffer.PutMany | src/bytecode/serializer.cpp:186-206 | appends exactly the records in order |
| Wire.GetMany | src/bytecode/serializer.cpp:360-397 | the reading loop is the specified list reader, and stops at the first bad record |
| Tbc.OpcodeBack | src/bytecode/serializer.cpp:474-493 | the byte of every opcode is read as that opcode |
| Tbc.ConstantRead | src/bytecode/serializer.cpp:360-397 | a constant of any type is read back, floating-point bits unchanged |
| Tbc.InstructionRead | src/bytecode/serializer.cpp:474-493 | an instruction is read back |
| Tbc.FunctionRead | src/bytecode/serializer.cpp:399-494 | a function is read back with its blocks run together |
| Tbc.AbiTypeRead | src/bytecode/serializer.cpp:118-136 | an ABI type is read back |
| Tbc.StructRead | src/bytecode/serializer.cpp:531-552 | a struct layout is read back |
| Tbc.SignatureRead | src/bytecode/serializer.cpp:558-581 | a foreign signature is read back |
| Tbc.ClassRead | src/bytecode/serializer.cpp:609-650 | a class declaration is read back |
| Serializer.SectionsRead | src/bytecode/serializer.cpp:496-651 | the optional sections are read back exactly when their flags say so |
| Serializer.ImageRead | src/bytecode/serializer.cpp:307-664 | a whole module is read back, wherever in a buffer it was written |
| Serializer.RestoredAccepted | src/bytecode/serializer.cpp:653-663 | the verifier accepts the restored module if it accepted the written one |
| Serializer.Serialize | src/bytecode/serializer.cpp:155-305 | the buffer ends up with the specified bytes; only verified modules are written |
| Serializer.Deserialize | src/bytecode/serializer.cpp:307-664 | any bytes are read to their end or refused; trailing bytes and, if wanted, unverified modules are refused |
| Serializer.RoundTrip | src/bytecode/serializer.cpp:155-305 | what was written from a verified module is read back and verified, blocks run together, debug lines kept exactly if asked for |

## Left out

- Int64.Div: INT64_MIN / -1 wraps here; C++ leaves it undefined.
- Arithmetic.PowInt64: a power that does not fit is reported as no result; C++ leaves the overflow undefined.
- Sccp.RunSccpPass: that the solution covers the handlers is sufficient. Otherwise the pass may take a handler for dead code; whether that shows depends on what is thrown.
- Cleanup.RunCleanupPass: the condition on jump targets is sufficient for the function; it is exact for one jump, and a jump that is never taken does no harm.
- Licm.RunLicmHeaderLoadPass: the condition on side entries is sufficient; a side entry that no run takes does no harm.
- ConstFold.RunConstFoldPass: the condition on variadic copies is exact for each of them over the register files the map is true of, and sufficient for the function: what is wrongly known may never be used.
- CopyProp.RunCopyPropPass: the conditions are exact for each instruction over the register files its copies are true of, and sufficient for the function.
- StrengthReduction.RunStrengthReductionPass: the same condition on variadic copies; that factors next to a known 1 hold integers is exact for each step, and found by a flow analysis for the function.
- Peephole.RunPeepholePass: exact for each step; for whole functions a flow analysis must find the integers zero is added to. It claims nothing where exceptions arrive, nor about results of calls.
- Tailcall.RunTailcallPass: exact for each call that returns. For whole functions with something to fuse no fused return may be a label, and a caller with a return type must only call functions that declare the same one directly, and so must all tail calls of the module; closures, whose type is unknown, are excluded there.
- LoopFusion.RunLoopFusionPass: exact for each jump; for whole functions a second half that is a label, and a sum that is its own addend, are excluded. A jump of the greatest distance, where C++ overflows, is left unfused.
- InlinePass.RunInlineSmallPass: the conditions on types are exact for each call; for whole functions parameter and result types other than integer are excluded, integers must be found by a flow analysis, and callees must not read registers they never wrote. The expanded code must stay below 2^31 instructions, beyond which jumps are not redirected.
- FfiBypass.RunFfiForwarderBypassPass: exact for one call; that the pass keeps the meaning of programs is not shown. It depends on the foreign function, which may ask who calls (src/ffi/ffi_bridge.cpp:591), and on the types the forwarder declares.
- Pipeline.OptimizedMeaning: a stage that bypasses a forwarder is not among the safe ones. One that retargets a back edge to the load of a string is safe only where interned strings are kept, which is Pipeline.OptimizedSteady.
- Foresight.InputDecides: level 3, with inlining, and passes enabled beyond those of the level are not foreseen; for them Pipeline.OptimizedMeaning has its condition on the modules between the passes. The condition is sufficient; at level 2 it relies only on jumps and labels that no pass takes away.
- Pipeline.OptimizeBytecodeModuleInPlace: optimizing a module that was never verified, with input verification switched off, is not modelled, nor are pools of more than 2^32 constants, debug lines and statistics.
- SccpAnalysis.Analyze: hash tables and bit vectors are sequences and maps here.
- Error messages, error stacks and the lines in them; outcomes carry the kind of failure only.
- What native functions, closures and objects do when called: one environment answers for them, the same in both runs that are compared.
- Exceptions raised by native code re-entering the virtual machine.
- The contents of floating-point values.
- ObjectModel.SetField and GetField, and the collector edges they keep; an object that two fields share loses its one edge when one field is overwritten.
- ObjectModel.Model.NewObject: with a collector attached the original takes ids from it and roots the object; ids come from a counter here.
- ObjectModel.Model.Resolve: says which method is reached, not what calling it does.
- Threads and locks. A major collection is one atomic step.
- Gc.GcController.CollectMajor: finalizers are handed out, not run, and may run after waiting for the collection returned.
- Iteration order of hash tables: the order of finalizers and of the phantom queue within one collection is unspecified.
- Serializer.RoundTrip: sizes must fit their fields; reading and writing files on disk is left out.
- Ahead-of-time compilation, the library and bundle containers, the module loader, hot reload, the command line, option parsing, the rest of the standard library.
