# A verified model of minivm

minivm is a bytecode virtual machine with a reference-counted heap, a verifier, optimising passes over
variable-width bytecode, and a compiler to AArch64. This project models the parts of it whose correctness is
hard to see from any one function, and proves what they promise.

| component | files |
|---|---|
| Heap: counting, cascading release, cycle collection, allocation, unwinding | Graphs, Roots, HeapFacts, Interpreter |
| Register allocation with spilling | Machine, AllocFacts, Pressure, Rewriter, FrameRuns, AllocLimits |
| Bytecode, basic blocks and a machine that runs a body | Bytecode, Blocks |
| Dead-code elimination | Compaction, Dce, DceRuns, DcePass, DceLimits |
| Length-changing edits | Edits, Splicer, EditRuns |
| Verifier | Stacks, Verifier, Checker, Dataflow, Opcodes, Heights, Verify, VerifyLimits, KindRuns, KindLimits |
| Global value numbering | Numbering, Numberer, Terms, GroupValues, PureRanges, Avail, Reuse, Orientation, Readings, OrientedReuse, Redundancies, Gvn, GvnPass, GvnLimits |
| Branch relaxation | Arm64, Assembly |
| Instruction encoding and assembly | Codec, Builder, Encodings |
| Strength reduction and integer folding | Integers, IntegerLaws, IntCode, InPlace, Algebra, AlgebraRuns, Sites, Folding |
| Copying aliased arrays | Aliases |
| Compile-request protocol | Cache |

The heap's central equation is that every allocated slot other than null is counted once for each external
reference and once for each reference an allocated slot holds. `HeapFacts` states it for heaps in any
intermediate state of a cascade, with the references still owed; `Interp.Interpreter` is the imperative
heap, proved against it. Null is not exact: its count is only a lower bound that covers the null references
held by allocated slots.

The allocator's claim is a simulation. `Machine` runs virtual and physical instruction lists under any
semantics of the opcodes; `AllocFacts` says when a physical state holds a virtual one; `Rewrites.Rewriter` is
the one-pass allocator, proved to emit, for every instruction, code that executes it from the register table
before it to the one after it, with every label on the code of the instruction it names. Straight-line code
is simulated from any instruction on. `Pressure` says what the list itself decides: when the pass succeeds, when it
spills, and which jumps forward are right. `FrameRuns` runs the framed stream, calls to its own labels included.

The bytecode machine in `Bytecode` takes the meaning of the opcodes as an arbitrary function of an
instruction's bytes, displacements aside, and of the state, so that what is proved about moving code holds
whatever the opcodes compute. `Blocks`, `Dce` and `Splicer` are the passes; `DceRuns` and `EditRuns` prove
that runs are preserved.

`Verifier`, `Checker` and `Dataflow` are the verifier's passes; `Heights` runs a machine of operand heights
in which any instruction may also raise, and proves the verifier's heights against it; `KindRuns` does the same with
the kinds of the operands. `Opcodes` lists what the handlers take and leave, and the verifier's own table is proved
against it.

`Numbering` and `Numberer` name values; `Terms` spells out the expressions behind the names and `GroupValues` gives
them their meaning; `Reuse` proves that capturing a value where it is computed and reloading it where it arrives
computed keeps every result when the two have one value, as an instance of `EditRuns`; `Orientation` and
`OrientedReuse` say exactly when they do; `Gvn` schedules those edits.

`Integers` is wrapping integer arithmetic of two widths and `IntCode` the integer opcodes over it. `InPlace` proves
that overwriting windows in place keeps what a program ends with; `Algebra` and `Folding` are the two passes that
do so, `AlgebraRuns` and `Sites` the proofs that they may.

Where the code does not meet a property, the project says exactly when it does:

- Dead-code elimination misdirects the first surviving branch when the first instruction is deleted, because
  the relinker's read cursor starts at offset 0. `DcePass.Eliminate` gives the exact condition,
  `DceLimits.MisreadLead` the input, `DceLimits.LeadAccepted` its acceptance.
- A jump table that is not the last instruction of its block loses its edges in the block analysis and in the
  verifier. Dead-code elimination then keeps every target exactly under `DceRuns.TargetsKeptIff`'s condition, and
  the verifier's heights are sound exactly under `Heights.SoundIffTablesFit`'s; `DceLimits.TableInsideBlock` and
  `VerifyLimits.TableUnderflows` are the inputs, `VerifyLimits.TableAccepted` their acceptance.
- The termination check passes a function whose body ends in a conditional branch. `Verify.StaysInsideIff` says
  exactly when no run falls off; `VerifyLimits.LoopAccepted` and `VerifyLimits.LoopFallsOff` are the input.
- The verifier's table has every array made of one element, where the machine takes as many as the number on top says
  (interp/jit_plan.go:1353-1357): `VerifyLimits.ArrayAccepted` and `VerifyLimits.ArrayUnderflows` are the input.
- The verifier lets a local be set to a word of any kind and a select be decided by one. Otherwise an operand is misread
  only where no kind is known, `KindRuns.RunsTyped`; `KindLimits.StoredConfuses` and `KindLimits.ChosenConfuses` are the
  inputs, `KindLimits.StoredAccepted` and `KindLimits.ChosenAccepted` their acceptance.
- Available-expression solving is right, whatever the blocks generate, exactly when the entry has no
  predecessor: `Avail.RightIffEntryIsFirst`, with `Avail.EntryNeedsNoPredecessor` the input.
- A value spilled in a region that a branch skips is reloaded at the target from a slot it was not stored to:
  `AllocLimits.SpillSkipped` is the input. Where no instruction runs with too many values, a jump forward is right
  exactly when what is still to be read was defined before it, `Rewrites.ForwardAt`; in general exactly when the
  register tables agree, `Rewrites.EntersAt`.
- Value numbering takes an exclusive or of 32 bits for commutative, as analysis/gvn.go:579-585 says it is, but the
  machine keeps the kind of its left operand (interp/threaded.go:1581). Loads then push what the ranges they replace
  push exactly under `OrientedReuse.OrientedIff`'s condition, and the pass keeps a body's behaviour under it,
  `GvnPass.Run`; whether a run shows a wrong kind depends on what reads it. `GvnLimits.MixedRewritten` and
  `GvnLimits.MixedDiffers` are the input, `GvnLimits.MixedAccepted` its acceptance.
- Strength reduction drops `+ 0` and its like even from a truth value or an i8, which the operation would make an
  i32: `AlgebraRuns.DropIff`, with `AlgebraRuns.DropChangesKind` and `AlgebraRuns.TruthAccepted` the input. Or and
  exclusive or work on the tagged words and keep the left kind against an i32, where
  program/verify.go:706-711 says that a mixed pair widens, so dropping them is right; `IntCode.KindForeseenIff` says
  when the verifier has the kind of their result.
- Folding a comparison writes a pool index in 16 bits without a check: `Folding.InstPushesIff`, with
  `Folding.WideIndexMisreads` the input.
- An instruction reads back as it was built exactly when no counted list has more than 255 items,
  `Codec.RoundTrip`; a jump table of 256 cases, which the builder takes, is the input: `Codec.LongTablesDoNot`,
  `Builder.TableWholeIff`.

`dafny verify dfyconfig.toml` checks everything.

## Model

| member | source | states |
|---|---|---|
| Graphs.ClosedHoldsReachable | interp/interp.go:2739-2764 | A set that holds the roots and is closed under references holds everything reachable: what lets mark's trace stand for reachability. |
| HeapFacts.TrialIsExternal | interp/interp.go:2706-2737 | After subtracting the heap's own references from exact counts, what is left at each slot is exactly its number of external references. |
| HeapFacts.ReleasingDone | interp/interp.go:2798-2834 | When a release has paid every reference it owed, everything still reachable from the remaining external references is alive and unchanged. |
| HeapFacts.MarkingDone | interp/interp.go:2739-2764 | When mark's worklist empties, the marked slots are exactly those reachable from external references. |
| HeapFacts.SweepDone | interp/interp.go:2766-2796 | After the sweep the allocated slots are exactly the reachable ones, unchanged and exactly counted, and the free list is exact. |
| HeapFacts.AcyclicHoldsNoGarbage | interp/interp.go:2798-2834 | When the reference graph has no cycle and the count equation holds, the allocated slots are exactly the reachable ones: reference counting alone leaves no garbage. |
| HeapFacts.AcyclicReleased | interp/interp.go:2798-2834 | A release keeps an acyclic graph acyclic, because it only loses slots, so after it exactly the reachable slots are allocated. |
| HeapFacts.PreservesTrans | interp/interp.go:1965-1978 | Survival composes: what one release keeps, a later one for fewer external references keeps too. |
| Interp.Interpreter.Release | interp/interp.go:2798-2834 | Dropping one external reference terminates on any heap, cyclic ones included, restores the count equation for the remaining references, frees nothing reachable from them, keeps the free list exact, and from an acyclic heap leaves exactly the reachable slots allocated. |
| Interp.Interpreter.Reclaim | interp/interp.go:2836-2849 | Clears one slot and puts it on the free list once. |
| Interp.Interpreter.Scan | interp/interp.go:2706-2737 | Leaves each slot's count less the heap's own references, and fails exactly when a reference dangles or a count is below them; counts that satisfy the equation never fail. |
| Interp.Interpreter.Mark | interp/interp.go:2739-2764 | Marks exactly the slots reachable from those with an external reference. |
| Interp.Interpreter.Sweep | interp/interp.go:2766-2796 | Reclaims every unmarked slot, corrects the survivors' counts, and leaves the equation exact with the same external references. |
| Interp.Interpreter.Gc | interp/interp.go:2684-2700 | From exact counts a collection never panics and leaves exactly the reachable slots allocated, unchanged, exactly counted, with an exact free list; the next collection is due after 64 more allocations, or after as many as the heap has grown by if that is more, but no later than at the limit. |
| Interp.Interpreter.Alloc | interp/interp.go:2377-2418 | Returns a slot that was not allocated, keeps every reachable value and the count equation, never passes a positive limit, and fails exactly when every slot up to the limit is reachable after a collection; when a collection is due, nothing unreachable stays allocated. |
| Interp.Interpreter.Reuse | interp/interp.go:2467-2476 | Pops a free slot for a value, or reports that there is none. |
| Interp.Interpreter.FindHandler | interp/interp.go:1942-1959 | Finds the innermost frame with a covering region, and in it the first covering entry; fails exactly when no frame has one. |
| Interp.Interpreter.Discard | interp/interp.go:1983-1993 | Drops exactly the references the unwound frame holds. |
| Interp.Interpreter.Land | interp/interp.go:1965-1978 | Drops exactly the references of the frames above the handler's and of the slots at or above its depth, delivers the exception with its one reference at height depth + 1, and keeps the count equation through every cascade. |
| Interp.Interpreter.Throw | interp/interp.go:1942-1979 | An empty stack fails with nothing changed; an uncovered throw escapes with nothing changed but the popped exception; a covered one lands in the innermost frame with a covering region and at that region's first covering entry: that frame is active with its ip at the catch, the frames below are unchanged, and the exception alone stands above the entry's depth. Only that entry's depth must be below the height. |
| Interp.ThrowReaches | interp/interp.go:1938-1962 | A throw reaches the innermost frame whose table protects the instruction the frame stands at, in a waiting frame the call itself, and there the entry that a single body's machine goes by; it is uncaught exactly when no frame has one. |
| Interp.Interpreter.ReleaseBox | interp/interp.go:2604-2608 | Releases the slot's reference unless it is null or no reference. |
| Interp.Interpreter.Recount | interp/interp.go:2576-2602 | Rebuilds counts that satisfy the count equation with the constants as external references. |
| HeapFacts.RecountIsExact | interp/interp.go:2576-2602 | Counting constants and held references gives the count equation. |
| Roots.LandDone | interp/interp.go:1965-1978 | The machine's external references after landing are those before, less what unwinding dropped, with the exception moved to its new slot. |
| Rewrites.Prepare | asm/rewriter.go:71-156 | Records for every register its last mention and first declared width, and its pin; rejects exactly unknown registers, bank conflicts and invalid pins. |
| Rewrites.HarmlessPins | asm/rewriter.go:244-253 | A pin leaves automatic allocation alone exactly when it names a scratch integer register. |
| Rewrites.PoolIs | asm/reg.go:147-179 | Automatic allocation hands out exactly the registers the architecture has, up to 64 of a bank, that are neither reserved nor, in the integer bank, scratch; pins may name those and the scratch ones. |
| Rewrites.Arm64Pool | asm/arm64/arch.go:19-38 | On ARM64 that is X2-X9, X16, X17 and X19-X25, and D0-D7 and D16-D31. |
| Rewrites.SparedKept | asm/rewriter.go:158-176 | A register that is reserved, scratch or not there keeps its value through the emitted code, whatever state that starts in, unless the list itself writes it, by name or through a pin. |
| AllocFacts.CarriesSpill | asm/rewriter.go:311-326 | Storing a bound register to a spill slot of its own moves its value there and disturbs no other. |
| AllocFacts.CarriesReload | asm/rewriter.go:210-226 | Reloading moves the value from its spill slot back to the register it owns. |
| AllocFacts.SourceAgrees | asm/rewriter.go:377-413 | A rewritten source operand reads the value the virtual register has. |
| AllocFacts.WriteAgrees | asm/rewriter.go:377-413 | Writing the rewritten destination writes the virtual register and no other. |
| AllocFacts.ExecutesBody | asm/rewriter.go:178-208 | The rewritten instruction, with the traffic before it, does to the physical state what the original does to the virtual one. |
| AllocFacts.SimulatesStep | asm/rewriter.go:178-208 | Rewriting one more instruction extends the simulation. |
| Rewrites.Rewriter.Alloc | asm/rewriter.go:277-290 | Claims the register of the bank that is lowest among the free ones, or fails exactly when none is free. |
| Rewrites.Rewriter.Victim | asm/rewriter.go:292-309 | Picks the bound, unpinned register not used by the current instruction whose last use is farthest; none only when there is none. |
| Rewrites.Rewriter.ReserveSlot | asm/rewriter.go:328-340 | Gives a spill slot nobody holds, reusing freed ones first. |
| Rewrites.Rewriter.Spill | asm/rewriter.go:311-326 | Stores the live value to its own slot, frees the register, and keeps every simulated value. |
| Rewrites.Rewriter.Obtain | asm/rewriter.go:255-275 | Gives a register to v: the lowest free one without emitting anything, or, only when none is free, that of the evictable value whose last use is farthest, stored to its slot first and never one bound for the current instruction; fails only when nothing is free and spilling is off, finds no victim or has no slot left. When it spills, the table it leaves does not agree with the one it found. It fails or spills only for want of room. |
| Rewrites.Rewriter.Bind | asm/rewriter.go:228-242 | Makes v hold a register, keeping the owner table the inverse of the bound registers. |
| Rewrites.Rewriter.Use | asm/rewriter.go:210-226 | Makes v readable with its value in the register it owns. |
| Rewrites.Rewriter.Release | asm/rewriter.go:342-352 | Gives back a dead register and its spill slot. |
| Rewrites.Rewriter.Own | asm/rewriter.go:366-375 | Records a binding in both directions. |
| Rewrites.Rewriter.Free | asm/rewriter.go:354-364 | Returns a slot to the pool, dropping it from the owner table. |
| Rewrites.Rewriter.Reserve | asm/rewriter.go:244-253 | Hands a register its pin and unbinds another register pinned there. |
| Rewrites.Rewriter.Step | asm/rewriter.go:178-208 | Emits code that executes the instruction in every simulated pair of states, and keeps everything still to be read in a register or a slot of its own. |
| Rewrites.Rewriter.BackEdge | asm/rewriter.go:477-488 | Reports whether some branch targets its own or an earlier position. |
| Rewrites.Rewriter.Rewrite | asm/rewriter.go:158-208 | Instruction i becomes exactly the code between moved[i] and moved[i + 1]: spill traffic, then one instruction of the same form, its registers viewed at the widths the original declares, which together execute it from the register table before it to the one after it; every prefix simulates the original's. Fails only when some bank is exhausted at some instruction. |
| Rewrites.PieceLands | asm/rewriter.go:437-475 | In the framed stream the code of instruction n stands, framed, where the label of instruction n is rebased to; the end label is the end of the stream. |
| Rewrites.Rewriter.Inject | asm/rewriter.go:437-475 | Frames the stream with the spill area and rebases every label to where the framed prefix before its instruction ends. |
| Rewrites.Rewriter.Run | asm/rewriter.go:158-176 | The whole pass: each instruction becomes traffic and one body that execute it, and every label lands on the first instruction emitted for the instruction it named, the end label on the end. It succeeds without a spill exactly when no instruction runs with more live values of a bank than there are registers; it succeeds exactly when no instruction is too wide, that is runs with too many values of a bank that does not spill or names too many registers of one that does, the spill slots being as many as the registers; spilling is off exactly when a branch goes back, so that with a spill slot in use every bound branch goes forward. No reserved or scratch register stands for an unpinned one anywhere, and those the list does not write keep their values. |
| FrameRuns.RunsFramed | asm/rewriter.go:428-475 | In every run of a framed stream, its jumps and its calls to its own labels included, the spill area is claimed at every instruction of the list but returns, and nothing is claimed at a return. |
| FrameRuns.Reserve | asm/arm64/frame.go:37-69 | Claims or gives back the area in steps that fit an instruction. |
| FrameRuns.AdjustmentsClaim | asm/arm64/frame.go:22-69 | The steps add up to the area, and each keeps the alignment. |
| FrameRuns.SpillsFramed | asm/arm64/frame.go:22-90 | On ARM64 this holds of what the allocator makes of any list with spills. |
| FrameRuns.ReserveHolds | interp/jit_arm64_test.go:376-403 | The spill area and the records of the deepest native calls fit the stack they are given exactly when the slots keep to the limit. |
| Rewrites.EntersAt | asm/rewriter.go:158-176 | Control may pass from before instruction i to the label of instruction j exactly when every place where j's register table has a value is where i's has it; and from there the code of j and what follows computes what the original computes. |
| Rewrites.ForwardAt | asm/rewriter.go:158-176 | A jump forward from before instruction i to instruction j is right only when every register still to be read at j was defined before i, and, when no instruction runs with too many values, exactly then. |
| AllocLimits.SpillSkipped | asm/rewriter.go:470-488 | What the pass makes of a list with a forward jump over the life of a second value, with one register: it accepts the list, and when the jump is taken the code it emits computes 0 where the list computes 1, because the value that is live across the jump is reloaded from a slot it was not stored to. |
| Pressure.ForwardIff | asm/rewriter.go:158-176 | Without pressure two register tables agree on every place the later one claims exactly when everything still to be read at the later point was defined before the earlier one. |
| Pressure.Stays | asm/rewriter.go:228-290 | Without pressure a value stays in one register from its definition to its last use. |
| Pressure.GoingNext | asm/rewriter.go:178-208 | One more instruction: exactly the values still to be read are held, what is not named is bound only where it was, and nothing is spilled before the first instruction that runs with too many values. |
| Pressure.GoingFails | asm/rewriter.go:255-309 | Where the pass stops, the list is too crowded for it, or has more registers than there are spill slots. |
| Pressure.TakenJams | asm/rewriter.go:255-275 | When every register of a bank is taken, the instruction's own registers and the live values are more than the bank has. |
| Pressure.Served | asm/rewriter.go:178-208 | An instruction that has been bound was not too wide, and without a spill nothing was short. |
| Pressure.PreparedLasts | asm/rewriter.go:110-147 | The prepared table records last mentions that mention the register. |
| AllocFacts.JumpIff | asm/rewriter.go:158-176 | Doing nothing carries one register table to another exactly when every place the second claims is the place the first has. |
| AllocFacts.TailSimulates | asm/rewriter.go:158-208 | From any instruction's register table, what the rest became computes what the rest computes. |
| Bytecode.I16Reads | instr/instr.go:134-179 | A value survives being stored in two bytes exactly when it fits a signed 16-bit field. |
| Blocks.Build | analysis/blocks.go:31-135 | Fails exactly on a branch out of the code; otherwise the blocks start exactly at the leaders, and their edges are exactly the ways a block's last instruction can pass control. |
| Blocks.StepFollowsEdges | analysis/blocks.go:95-127 | A machine step leaves an instruction only to the next one in its block, along an edge, to a handler, or to the end of the code. |
| Blocks.EdgeTaken | analysis/blocks.go:95-127 | And every edge is taken: some machine steps along it from the last instruction of the block. |
| Blocks.SomeFree | analysis/blocks.go:50-65 | Nothing more is asked of a machine: whatever the opcodes do to the state and whichever arms branches take, some machine does so, and there every opcode but six goes on to the next instruction. |
| Blocks.SensibleStops | analysis/blocks.go:108-127 | On no machine does one of these six, unreachable, branch, jump table, return, tail call and throw, go on to the next instruction. |
| Blocks.LeaderIs | analysis/blocks.go:31-73 | A block starts exactly at the start of the code, at a branch's target, after unreachable, branch, conditional branch, return, tail call and throw, and at handler boundaries. |
| Blocks.Leaders | analysis/blocks.go:31-73 | Collects exactly the branch targets, the instructions after terminators and branches, and the handler boundaries. |
| Dce.Stamp | transform/dce.go:32-41 | Overwrites exactly the bytes of blocks without predecessors that no handler catches at, the entry excepted. |
| Dce.DeadIff | transform/dce.go:28-42 | A block is deleted exactly when it is not the first, no edge leads to it and no handler lands on it. |
| Dce.Compact | transform/dce.go:43-65 | Packs every surviving instruction at its compacted place and maps its old offset there, and every other offset to -1. |
| Compaction.RelocateIs | transform/dce.go:143-151 | Relocating an instruction's offset gives where it or the next survivor went. |
| Compaction.DispShrinks | transform/dce.go:70-96 | A branch's displacement never grows in magnitude or changes sign when code is deleted, so the unchecked 16-bit write never truncates it. |
| Compaction.PosMonotone | transform/dce.go:43-65 | Compaction keeps order and never stretches a distance. |
| Dce.Relink | transform/dce.go:67-96 | Rewrites every survivor's displacements from the targets its read cursor computes, failing exactly when one of those is out of bounds, or the end of a function's code. |
| DcePass.Eliminate | transform/dce.go:20-109 | The whole pass on one body in place: its failures exactly, and its result is the compacted body with moved branches and handlers exactly when no survivor lies in the stretch by which the read cursor misjudges the first survivor. |
| DcePass.FirstSurvives | transform/dce.go:67-96 | A body whose first instruction survives is always compacted right, and is rejected exactly when a surviving branch of a function leads to the end of its code. |
| DceLimits.MisreadLead | transform/dce.go:67-96 | A body whose first instruction is deleted: its dead blocks are computed, the relinker accepts it, and its first branch is misdirected. |
| DceLimits.LeadAccepted | program/verify.go:120-138 | The verifier accepts that body. |
| DceLimits.TableInsideBlock | analysis/blocks.go:50-58 | A jump table that does not end its block loses its edges, so what a live instruction jumps to is deleted. |
| VerifyLimits.TableAccepted | program/verify.go:245-250 | The verifier accepts that body, and its twin whose table leads to an instruction that pops, without looking at what the table leads to. |
| DceRuns.TargetsKeptIff | analysis/blocks.go:50-58 | Nothing that a live instruction jumps to is deleted, exactly when every arm of every live table inside a block leads to a block that is the entry, is caught at, or has a predecessor. |
| DcePass.ArmLands | transform/dce.go:67-96 | A relinked branch leads where its target went exactly when nothing survives between the target and what the cursor took for it. |
| DceRuns.SameHandler | transform/dce.go:123-141 | A surviving instruction is inside a protected range afterwards exactly when it was before, and its handler is the old one, moved. |
| DceRuns.KeptStep | transform/dce.go:43-96 | A surviving instruction takes the same step in the compacted body. |
| DceRuns.RunsPreserved | transform/dce.go:20-109 | When the tables inside live blocks lead to live blocks, every run of the original that executes no unreachable instruction is, up to no-ops, a run of the compacted body with offsets moved. |
| DceRuns.ResultsReflected | transform/dce.go:20-109 | Conversely, whatever the compacted body ends with, the original ends with, offsets moved. |
| Edits.Build | transform/rewrite.go:58-89 | The spliced code holds every byte outside the edits at its mapped place and every edit's text, and the map sends each old offset past everything spliced in before it. |
| Edits.PlaceMonotone | transform/rewrite.go:58-89 | The offset map keeps order, strictly so for bytes outside the edits. |
| Edits.Relink | transform/rewrite.go:91-128 | Rewrites every branch of the original for the new layout, failing exactly when a target is outside the code or a displacement does not fit 16 bits. |
| Splicer.Sorted | transform/rewrite.go:61-66 | Orders the edits by position, keeping them as a multiset and pairwise clear. |
| Splicer.Rewriter.Replace | transform/rewrite.go:33-36 | Schedules a replacement. |
| Splicer.Rewriter.Insert | transform/rewrite.go:38-41 | Schedules an insertion. |
| Splicer.Rewriter.Run | transform/rewrite.go:43-56 | Leaves the code alone without edits; otherwise succeeds exactly when every branch still reaches, and then every unedited instruction stands at its mapped place with its branches on the images of their targets. |
| Splicer.HandlerMoves | transform/rewrite.go:130-144 | An unedited offset's handler is its old one, moved. |
| Splicer.TextHandler | transform/rewrite.go:130-144 | New text is protected by exactly the ranges that protected the byte before the edit's end: an insertion at a range's end joins it, one at its start does not. |
| EditRuns.Simulates | transform/rewrite.go:43-144 | When each edit's text and each unedited instruction keeps a relation between the two programs' states, every run of the original is matched by a run of the edited code. |
| EditRuns.ResultsPreserved | transform/rewrite.go:43-144 | What the original halts, escapes or reaches the end of its code with, the edited code halts, escapes or reaches the end of its code with, related. |
| EditRuns.ResultsReflected | transform/rewrite.go:43-144 | What the edited code halts, escapes or reaches its end with, the original does, related. |
| EditRuns.SameResults | transform/rewrite.go:11-16 | Edits whose text computes what it replaced leave every result of the program the same, the state at the end of the code included. |
| EditRuns.SameResultsBack | transform/rewrite.go:11-16 | And the edited code has no results but the original's. |
| Stacks.MergedIsLeast | program/verify.go:657-704 | Joining two stacks of one height gives the least stack that admits both. |
| Stacks.MergeWidens | program/verify.go:657-676 | A join that changes a stack uses up one of its finitely many widenings. |
| Verifier.Stack.Merge | program/verify.go:661-676 | Folds a stack in place, reporting exactly whether anything widened and whether heights agree. |
| Verifier.Step | program/verify.go:454-567 | Each opcode's checks and effect on the abstract stack. |
| Verifier.Call | program/verify.go:572-591 | The effect of a call whose signature is on the stack, and no verdict when it is not. |
| Verifier.Exec | program/verify.go:431-448 | Simulates one block, stopping at a terminator, a violation or an indeterminate effect. |
| Verifier.StepBelow | program/verify.go:454-567 | A narrower stack gets through every instruction that a wider one gets through, ending narrower, unless a kind it knows does not fit. |
| Checker.Structure | program/verify.go:162-178 | Accepts exactly code that decodes to its end through defined, whole instructions with in-range operands. |
| Checker.DecodesIsLayout | program/verify.go:162-178 | Structurally sound code has instruction offsets that tile it. |
| Checker.Handlers | program/verify.go:144-158 | Accepts exactly tables of non-empty ranges on instruction boundaries caught at instructions. |
| Checker.HandlerOkIff | program/verify.go:144-158 | An entry passes exactly when its bounds are instruction boundaries, it protects some instruction, and it is caught at one. |
| Checker.Cfg | program/verify.go:216-295 | Accepts exactly code whose branches lead to instructions, the end only at the top level, and builds the blocks and exactly the edges the dataflow follows. |
| Checker.SameLeaders | program/verify.go:216-262 | A body without tail calls is cut into the same blocks by the verifier and by the passes. |
| Checker.SameEdges | program/verify.go:263-295 | Between blocks cut alike the verifier sees the edges the passes see, and one more where a block ends with a tail call. |
| Checker.IndexesIff | program/verify.go:180-209 | What an index operand must stay below, opcode by opcode. |
| Checker.Terminate | program/verify.go:339-355 | Accepts exactly functions whose blocks without successors end in a terminator. |
| Dataflow.Flow | program/verify.go:363-427 | Terminates; when it passes, its entries are a post-fixpoint that starts empty, admits what handlers deliver and every block's exit; a rejection or an indeterminate end is witnessed by stacks that arrive along the graph. |
| Dataflow.PostFixpointClears | program/verify.go:363-427 | Where a post-fixpoint exists, no two stacks of different heights arrive at one block and no stack that arrives is stuck, except on a kind that does not fit: such a verdict does not depend on the order of the worklist. |
| Dataflow.ArisesBelow | program/verify.go:363-427 | A post-fixpoint admits every stack that arrives at a block along the graph. |
| Dataflow.Roots | program/verify.go:364-397 | Seeds the entry and catch blocks, or finds two seeds of different heights at one block. |
| Dataflow.Propagate | program/verify.go:411-424 | Sends a block's exit to each successor, making progress whenever it changes anything. |
| Opcodes.HandsMatch | instr/type.go:48-313 | The verifier's table lists, for every opcode but the creation of an array, exactly the operands its handler reads, from the top down, and what it leaves. |
| Heights.DefinedIff | instr/opcode.go:274 | The verifier lets through exactly the opcodes that have handlers. |
| Heights.StopsIff | program/verify.go:443-447 | The simulation of a block ends exactly at the opcodes that no machine goes on from, branches aside. |
| Heights.StepHeight | program/verify.go:454-591 | An abstract step has the effect on the operand height that the handler has, and only passes when the operands are there; the handlers' operands are listed opcode by opcode, in the order they are pushed, apart from the table the verifier goes by. |
| Heights.RunsTracked | program/verify.go:363-448 | No run of a body that passes underflows, when the jump tables inside its blocks lead where the computed stacks fit. |
| Heights.HeightsSound | program/verify.go:357-427 | Under the same condition, whenever a run stands at the start of a block, by branch, fall-through or landing, its operand height is the computed one. |
| Heights.SoundIffTablesFit | program/verify.go:245-250 | For any body that passes: every run is at the computed heights and none underflows, exactly when every arm of every table inside a reached block leads to a block whose entry is the height the table leaves. |
| Heights.NoneInterior | program/verify.go:245-250 | A body whose jump tables all end their blocks meets the condition. |
| Verify.Check | program/verify.go:120-138 | Accepts exactly code that is well formed, whose blocks without successors end in a terminator, in which no two arriving stacks differ in height and none that arrives is stuck, whenever the kinds of arriving stacks fit; acceptance always gives all of that and a post-fixpoint, and a refusal always has one of those causes. |
| Verify.StaysInside | program/verify.go:336-355 | A run of a passing function never reaches the end of its code when the last instruction is not a conditional branch or no walk along the edges reaches it. |
| Verify.StaysInsideIff | program/verify.go:336-355 | No run of a passing function reaches the end of its code, exactly when the last instruction is not a conditional branch or no walk along the edges reaches it. |
| VerifyLimits.LoopAccepted | program/verify.go:339-355 | The verifier accepts a function that ends in a conditional branch: the termination check looks only at blocks without successors. |
| VerifyLimits.LoopFallsOff | program/verify.go:339-355 | That function meets every assumption of the exact condition but its right side, and a run falls off its end. |
| VerifyLimits.TableUnderflows | program/verify.go:245-250 | The accepted body with a jump table inside a block fails the condition on tables, and a run underflows at the table's target. |
| VerifyLimits.ArrayAccepted | instr/type.go:269 | The verifier accepts a body that makes an array of two elements with one on the stack: its table has every array made of one. |
| VerifyLimits.ArrayUnderflows | interp/jit_plan.go:1353-1373 | That body meets every assumption of the heights but the one that arrays are made of one element, and its run underflows. |
| KindRuns.AcceptsIff | program/verify.go:683-691 | The verifier's test takes a word exactly where a word of a kind alike is wanted, unless nothing is known of it or anything is wanted. |
| KindRuns.StoreFits | program/verify.go:693-704 | Anything may go into a variable of any type; into another one, when casts keep kinds, only what fits its kind or what nothing is known of. |
| KindRuns.StepCovers | program/verify.go:454-591 | A machine whose words fit what the analysis knows of the stack is left, by every handler, with words that fit what the analysis computes, calls and results of calls included. |
| KindRuns.MisreadUnknown | program/verify.go:454-591 | An operand that a handler reads by another kind than it has is one the analysis knows no kind of, or the condition of a select. |
| KindRuns.RunsTyped | program/verify.go:357-448 | As long as the locals hold what they are declared to, in every state of every run of a body that passes the words on the stack fit what is known of them, no operand is missing, and an operand is misread only there. |
| KindRuns.NeverConfused | program/verify.go:357-448 | A body without select whose stacks the analysis knows all kinds of has no run that misreads an operand or misses one. |
| KindLimits.StoredAccepted | instr/type.go:76 | The verifier accepts a 64-bit integer stored in a local declared to hold a 32-bit one, and then read as one: stores to locals take any kind. |
| KindLimits.StoredConfuses | program/verify.go:454-591 | That body meets every assumption but the one on locals, nothing is unknown of the operand, and its run misreads it. |
| KindLimits.ChosenAccepted | program/verify.go:507-515 | The verifier accepts a select whose condition is a 64-bit integer: it does not look at the condition's kind. |
| KindLimits.ChosenConfuses | program/verify.go:507-515 | That body's run misreads the condition, whatever its locals hold. |
| Avail.Solve | analysis/gvn.go:186-223 | Terminates with a solution of the dataflow equations that is above every other: the change test by size is exact because sets only shrink. |
| Avail.MeetOf | analysis/gvn.go:227-243 | Intersects what the predecessors let out; nothing without predecessors. |
| Avail.AvailableWasGenerated | analysis/gvn.go:182-223 | What is available at a block was generated on every path from the entry to it. |
| Avail.AvailableIff | analysis/gvn.go:182-223 | A group is available at a block exactly when every path from the entry has generated it. |
| Avail.RightIffEntryIsFirst | analysis/gvn.go:186-223 | On a graph whose other blocks have predecessors: whatever the blocks generate, availability means generated on every path, exactly when the entry has no predecessor. |
| Avail.EntryNeedsNoPredecessor | analysis/gvn.go:194-202 | The instance: with an edge back to the entry a group is available there although the path that just entered generated nothing. |
| Numbering.Stable | analysis/gvn.go:109-129 | A local counts as stable exactly when no instruction assigns it. |
| Numbering.PureByOpcode | analysis/gvn.go:559-577 | The computations are, by opcode, the comparisons of references and the arithmetic, tests and conversions of the four kinds of number. |
| Numbering.Classes | analysis/gvn.go:252-352 | Which opcodes end the numbering of a block, which take the top of the stack whether or not it is known, and which always push the same value. |
| Numberers.Numberer.IdOf | analysis/gvn.go:487-500 | Interning gives equal names equal ids and an opaque value none, and never changes an id given before. |
| Numberers.Numberer.Pure | analysis/gvn.go:374-435 | A pure operation gets the group of its name over its operands' groups exactly when all of them have one, and is recorded exactly when it has a group, the block has recorded none for it, and the block has not had the same operation on the same numbers; its code is self-contained exactly when its operands' code is and lies side by side. |
| Numberers.Numberer.Step | analysis/gvn.go:245-372 | Each opcode's effect on the numbered stack with exactly the groups of what it pushes, and exactly when it ends the numbering of its block; only pure operations are recorded, each when new. |
| Numberers.Number | analysis/gvn.go:141-160 | Every block is numbered exactly as far as it has put on the stack what its instructions read, the numbered stacks follow the code, no two groups have one name, every recorded computation leaves its group on top, and every numbered pure operation with a group has its group recorded in its block unless the same operation on the same numbers came before it there. |
| Terms.OneGroup | analysis/gvn.go:531-550 | Two computations of one group are one expression up to the order of the operands the numbering exchanges. |
| Terms.AfterSpelled | analysis/gvn.go:245-435 | Numbered entries have a group exactly when their expression over constants and never-assigned locals is known, and then the expression computes the group. |
| GroupValues.StepMatches | analysis/gvn.go:245-435 | Every machine step takes a stack whose known entries hold their expressions' values to one that does, operands in the order the code pushes them. |
| GroupValues.SomeReading | analysis/gvn.go:245-435 | For every choice of values for leaves and of meanings of pure operations some machine reads the opcodes so, on which everything else does what its handler does: globals and captured variables give what was stored there last, and calls and the heap change what is read afterwards. |
| PureRanges.EntriesCompute | analysis/gvn.go:374-435 | The code of a self-contained entry whose expression is known pushes that expression's value wherever the unassigned locals hold what they held at entry. |
| Reuse.CapturedOnEveryPath | analysis/gvn.go:164-180 | Every path to a block where a group is available passes a block that captures it. |
| Reuse.HeldOver | transform/gvn.go:119-148 | No capture lies strictly inside a replaced range or at its end. |
| Reuse.LoadFlow | transform/gvn.go:60-112 | At every replaced computation the extra local holds what the deleted code would push, if the computation has the value of every capture that can reach it. |
| Reuse.TeeCarries | transform/gvn.go:94-103 | A capture puts the value computed before it into its group's local and disturbs no other. |
| Reuse.ReuseKeepsResults | transform/gvn.go:60-117 | If every reloaded computation has the value of the captures that can reach it, the rewritten body gives every result the original gives, the state at the end of its code included, whatever the extra locals held. |
| Reuse.ReuseAddsNoResults | transform/gvn.go:60-117 | And it gives no others. |
| Orientation.SameOrderValue | analysis/gvn.go:579-594 | Computations that differ in the order of operands only under operations that commute, kinds included, which are all the exchangeable ones but exclusive or of 32 bits, have one value. |
| Orientation.AkinRelated | analysis/gvn.go:531-550 | Computations of one group trap alike and leave one payload, and what they leave has the kind that each one's own order of operands gives: exclusive or keeps the left one's (interp/threaded.go:1581). |
| Orientation.SameValueIff | analysis/gvn.go:579-594 | Whatever kinds locals and pool entries have, two computations of one group leave the same exactly when their kinds agree. |
| Readings.CommutesIff | analysis/gvn.go:579-594 | Of the integer operations the table of commuting ones lists exactly those that commute, and of the floating-point ones the same at both widths. |
| Readings.SomeMachine | types/boxed.go:33-60 | Whatever the locals and the pool hold, there is a machine that does to tagged words what the handlers do, tells the kinds apart, reads loads, captures and pure operations as the pass does, and has globals, captured variables, calls and the heap do what their handlers do: the results about such machines are about something. |
| OrientedReuse.OrientedAgrees | transform/gvn.go:94-107 | On every machine that treats tagged words as the handlers do, every reloaded computation has the value of every capture that can reach it, unless an exchanged exclusive or shows in its kind. |
| OrientedReuse.Misled | transform/gvn.go:94-107 | If it does show, some such machine captures one value and computes another where it is reloaded. |
| OrientedReuse.OrientedIff | transform/gvn.go:94-107 | So every load pushes what the range it replaces pushes, on every machine that treats tagged words as the handlers do and whatever reaching capture filled the local, exactly when no exchanged exclusive or shows in a kind. |
| Redundancies.Available | analysis/gvn.go:164-180 | Marks exactly the self-contained computations whose value arrives computed, and lists exactly the ends of those whose value does not, once each. |
| Redundancies.Choose | transform/gvn.go:119-135 | Takes ranges that do not overlap, and leaves one out only when it starts inside one taken. |
| Redundancies.Covered | transform/gvn.go:137-148 | Finds exactly whether some definition lies strictly inside a chosen range. |
| Redundancies.KindTypeIs | transform/gvn.go:150-171 | An extra local for a value is of the value's kind; there is none for a value of unknown kind. |
| Gvn.CaptureAll | transform/gvn.go:99-103 | Schedules a capture at every definition of a group, all clear of every reload. |
| Gvn.Eliminate | transform/gvn.go:60-117 | Replaces every chosen range unless no local can hold its value or a capture would be lost; only groups of chosen ranges get locals and none is spare; the edits satisfy everything the reuse theorem needs; none exactly for want of a replacement or of a reachable branch. |
| GvnPass.Run | transform/gvn.go:33-53 | Numbering, availability and elimination together: availability is exactly what every path computed, the redundancies are exactly the self-contained computations whose value arrives, and each chosen one is reloaded or has a reason to stay; a rewritten body in which no exchanged exclusive or shows in a kind has every result of the original and no other, on every machine that treats tagged words as the handlers do and whatever the extra locals hold; a body is left alone only when no local may be added, every chosen range has such a reason, or a branch would not fit. |
| GvnPass.BodyOriented | transform/gvn.go:60-117 | Whether an exchanged exclusive or can show is decided by the numbered body: if none of its reloadable computations has one against a capture that can reach it, no rewriting of it does. |
| GvnLimits.MixedRewritten | analysis/gvn.go:531-550 | The pass on a body that computes not x exclusive or 1, and after a branch 1 exclusive or not x: it captures the first and reloads it where the second was. |
| GvnLimits.MixedAccepted | program/verify.go:706-711 | The verifier accepts that body. |
| GvnLimits.MixedDiffers | transform/gvn.go:94-107 | On every machine that treats tagged words as the handlers do and tells kinds apart the original ends with an i32 and the rewritten body with a truth value, so it lacks the original's result. |
| GvnLimits.MixedFails | transform/gvn.go:60-117 | So the pass does not keep that body's behaviour. |
| Arm64.EncodeDecodes | asm/arm64/encoder.go:759-890 | An encoded branch reads back as itself: its field holds the displacement exactly. |
| Arm64.EncodesIff | asm/arm64/encoder.go:1423-1439 | A branch encodes exactly when its displacement is whole instructions and fits its field. |
| Arm64.KnownWords | asm/arm64/encoder.go:759-890 | Five words of the manual. |
| Arm64.InvertedNegates | asm/arm64/relax.go:13-22 | The inverted branch is taken exactly when the original is not. |
| Arm64.RelaxIff | asm/arm64/relax.go:24-64 | A branch is relaxed exactly when it cannot reach its label and the unconditional branch behind it can, where that then stands. |
| Assembly.Draft | asm/assembler.go:143-167 | Measures every instruction's byte offset, failing exactly when one cannot be encoded. |
| Assembly.Collect | asm/assembler.go:169-192 | Finds exactly the label branches relaxation rewrites, in order. |
| Assembly.Splice | asm/assembler.go:221-248 | Splices the replacements in and rebases every label to its instruction's new place. |
| Assembly.ExpandUses | asm/assembler.go:117-141 | Every round that relaxes anything lowers the number of relaxable branches: the loop ends. |
| Assembly.Build | asm/assembler.go:117-141 | The encoded list is the given one with some branches relaxed into pairs, labels following; failures have a cause. |
| Assembly.Resolve | asm/assembler.go:194-219 | Concatenates the encodings with every label branch at its resolved distance, failing exactly when a label is unbound or an instruction does not encode. |
| Assembly.TransfersSame | asm/arm64/relax.go:24-65 | A relaxed pair transfers control as the branch it replaced: to the label when taken, on otherwise. |
| Assembly.SmallStreamsReach | asm/arm64/relax.go:49-58 | Once nothing is left to relax, no label branch of a stream under 128 MiB is out of range. |
| Assembly.BranchEncodesDistance | asm/assembler.go:194-219 | A label branch in the output reads back as the byte distance to its label. |
| Aliases.Grow | interp/trace.go:443-455 | The window grows until nothing sticks out of it, and holds no address outside the target's connected storage. |
| Aliases.OverlapIff | interp/trace.go:443-449 | Two non-empty arrays overlap exactly when they share a cell. |
| Aliases.ComponentIs | interp/trace.go:443-455 | The arrays that meet the final window are exactly those connected to the target by overlaps. |
| Aliases.CloneAliases | interp/trace.go:409-473 | Replaces exactly the connected arrays by copies that read the same elements, and two replacements share a cell exactly when the originals did. |
| Aliases.OutsideApart | interp/trace.go:409-473 | Arrays outside the component share no storage with it or with the target. |
| CacheProtocol.Cache.Warm | interp/cache.go:81-90 | Counts a hit on a cold function and compares it with the threshold. |
| CacheProtocol.Cache.Claim | interp/cache.go:91-104 | Starts the build of the first waiting request, or of the function's entry, exactly when the function is cold. |
| CacheProtocol.Cache.Ask | interp/cache.go:106-141 | Queues a request behind its priority unless the active build or a waiting request covers it. |
| CacheProtocol.AskedOnce | interp/cache.go:106-149 | A request changes nothing exactly when one for the same root, for a side exit if it is for one, is being built or waits; otherwise it waits from then on. |
| CacheProtocol.QueuesBehind | interp/cache.go:129-137 | A new request waits behind every waiting side exit, and behind the hot roots exactly when it is one. |
| CacheProtocol.ExitsBuiltFirst | interp/cache.go:96-103 | Whenever a side exit waits, the build taken up is a side exit's. |
| CacheProtocol.BuiltInOrder | interp/cache.go:91-141 | Of two waiting requests the one in front is built first, whatever steps interleave, unless a side exit takes the place of a hot one of them. |
| CacheProtocol.Cache.Publish | interp/cache.go:157-177 | Ends a build with its module and buffer, and readies the cold, unrequested functions the module enters. |
| CacheProtocol.Cache.Fail | interp/cache.go:151-155 | Ends a build that produced nothing. |
| CacheProtocol.Cache.Close | interp/cache.go:55-63 | Closes once, giving up the cache's own reference. |
| CacheProtocol.Cache.Attach | interp/cache.go:65-73 | Counts a member unless the cache is closed. |
| CacheProtocol.Cache.Detach | interp/cache.go:75-79 | Gives up a member's reference, freeing the buffers with the last. |
| CacheProtocol.StepValid | interp/cache.go:55-202 | Every locked step keeps the protocol: one build at a time, no requests on a ready function, distinct roots, side exits first, references counted. |
| CacheProtocol.RunsValid | interp/cache.go:55-202 | Every state of every interleaving satisfies the protocol. |
| CacheProtocol.OneBuild | interp/cache.go:81-104 | While a function is being built no second build of it starts. |
| CacheProtocol.AskServes | interp/cache.go:106-141 | A request, once made, is covered by the active build or a waiting request. |
| CacheProtocol.ServedStays | interp/cache.go:106-149 | It stays covered until the build that covers it ends. |
| CacheProtocol.BuffersFreedOnce | interp/cache.go:179-191 | Every published buffer is held or freed once, and they are freed exactly when the cache is closed and the last member has left. |
| Codec.New | instr/instr.go:11-61 | Builds the opcode followed by each operand in its declared width, a counted list by its count and then its items. |
| Codec.RoundTrip | instr/instr.go:147-179 | A built instruction reads back as its operands, each cut to its field, whatever follows it, exactly when no counted list has more than 255 items. |
| Encodings.BuiltWhole | instr/type.go:48-313 | What is built from an opcode and operands of its widths is one whole instruction to whoever steps over it, a jump table as long as its count fits a byte. |
| Encodings.IndexIs | instr/type.go:48-313 | The index operand the verifier and the passes read is the one operand its instruction has. |
| Codec.LongTablesDoNot | instr/instr.go:11-61 | A jump table of 256 or more cases reads back with its number of cases cut to a byte. |
| Codec.OperandsOf | instr/instr.go:147-179 | Reads the operands one field after another and the counted list item by item. |
| Codec.SetOperand | instr/instr.go:63-98 | Overwrites the bytes of exactly one operand, and changes nothing when there is none of that number. |
| Codec.SetReads | instr/instr.go:63-98 | Setting an operand that is not a count changes it, cut to its field, and no other. |
| Builder.FlatLayout | instr/code.go:8-14 | Concatenated whole instructions are laid out at their running offsets. |
| Builder.Marshal | instr/code.go:8-14 | Concatenates instructions. |
| Builder.Unmarshal | instr/code.go:55-64 | Cuts code into whole instructions that make it up again, and they are the only ones that do: reading undoes writing. |
| Builder.OneCut | instr/code.go:8-64 | Two lists of whole instructions with the same bytes are the same list. |
| Builder.Assembler.constructor | instr/builder.go:46-49 | Starts empty. |
| Builder.Assembler.Label | instr/builder.go:51-55 | Gives a label not yet placed. |
| Builder.Assembler.Bind | instr/builder.go:57-61 | Places a label at the next instruction. |
| Builder.Assembler.Append | instr/builder.go:68-72 | Appends an instruction. |
| Builder.Assembler.Branch | instr/builder.go:166-170 | Appends a branch and remembers that its one arm leads to the label. |
| Builder.Assembler.Table | instr/builder.go:85-101 | Appends a table and remembers each case's label in order, and the default's last; the stream stays one of whole instructions exactly when the table has fewer than 256 cases. |
| Builder.TableWholeIff | instr/builder.go:85-101 | A table is a whole instruction exactly when it has fewer than 256 cases: a longer one reads as one of fewer cases with more code behind it. |
| Builder.Assembler.Try | instr/builder.go:103-110 | Declares a protected region between labels. |
| Builder.Assembler.Resolve | instr/builder.go:112-149 | Patches every remembered arm with its distance, and succeeds exactly when every label is bound and every distance fits 16 bits; on a failure the arms before it are patched and nothing else is. |
| Builder.Assembler.Assemble | instr/builder.go:112-149 | Succeeds exactly when every branch resolves and every region's labels are bound; then every arm leads to exactly the byte offset of its label, everything else in the code is as appended, and the regions stand at their labels' offsets. |
| Builder.ArmLeads | instr/builder.go:112-149 | A patched arm targets the byte offset of its label. |
| Builder.ArmIsOperand | instr/builder.go:112-149 | Patching an arm is setting the operand that holds it: operand 0 of a branch, operand arm + 1 of a table. |
| IntegerLaws.Orders | transform/cf.go:124-129 | The unsigned order counts up from zero, and the signed one is the unsigned one from the least signed number on. |
| IntegerLaws.Comparisons | transform/cf.go:118-147 | The other comparisons come from the two orders by exchanging operands and by negation. |
| IntegerLaws.SignedDivision | transform/cf.go:72-92 | Quotient times divisor and remainder make up the dividend, the remainder is smaller than the divisor and on the dividend's side of zero; only division by zero traps, and the least number by -1 wraps. |
| IntegerLaws.UnsignedDivision | transform/cf.go:79-99 | The same for the numbers as unsigned ones. |
| IntegerLaws.SumsAndProducts | transform/cf.go:63-71 | Sums count up and wrap once past the greatest number, products add up, and subtracting undoes adding. |
| IntegerLaws.Shifts | transform/cf.go:100-108 | Shifting right with the sign rounds down, and shift counts count modulo the width. |
| IntegerLaws.ByBits | transform/cf.go:109-117 | And, or and exclusive or work bit by bit. |
| IntCode.OpcodesAre | instr/opcode.go:54-138 | Which opcode is which operation of which width. |
| IntCode.SomeReading | interp/threaded.go:1376-1605 | Some machine reads the integer opcodes as the handlers do, keeping and combining the tags of 32-bit words, and tells tags and widths apart: the results about folding are about something. |
| IntCode.TagsAreBits | interp/threaded.go:1581-1605 | And and or combine the tags of their operands bit by bit. |
| IntCode.KindForeseenIff | program/verify.go:706-720 | The verifier foresees the kind of a bitwise result exactly when the operands' kinds agree, the operation is and, or it is exclusive or of an i32: or keeps a narrow kind that is only on one side, and exclusive or keeps the left one. |
| InPlace.BlocksTile | analysis/blocks.go:31-135 | The blocks of a body tile its code. |
| InPlace.ClearInBlocks | transform/as.go:25-51 | What lies inside one block is entered by no branch and no handler boundary. |
| InPlace.InPlaceEnds | transform/as.go:25-51 | Overwriting windows by text of their length that does the same wherever an invariant of the runs holds leaves what a program ends with: the two programs end alike, in both directions. |
| Algebra.ReductionSound | transform/as.go:56-119 | Each reduction computes what the operation does on every operand of the width: dropped, the left operand is the result; turned into a shift, multiplication and unsigned division by 2^n are the shifts by n, with n in range. |
| Algebra.ReductionIff | transform/as.go:56-119 | What reduces: exactly an operation with its neutral constant on the right, and multiplication and unsigned division by a power of two above one. |
| Algebra.Reduce | transform/as.go:25-136 | The pass in place: overwrites exactly the windows of a constant and an operation, inside one block and met going from left to right, that have a reduction, by no-ops or by the shift. |
| AlgebraRuns.ReducedEndsSame | transform/as.go:25-136 | The reduced body ends as the original does, in both directions, whenever an invariant of the original's runs puts an integer of the width under every window, and one that its operation keeps under every window that is dropped. |
| AlgebraRuns.DropIff | transform/as.go:121-129 | Dropping a window does what the window does exactly when its left operand has 64 bits or is an i32, or the operation is or or exclusive or: any other operation makes an i32 of a truth value or an i8. |
| AlgebraRuns.DropChangesKind | transform/as.go:121-129 | The instance: a compared value plus 0 ends as a number, and reduced as a truth value. |
| AlgebraRuns.TruthWindow | transform/as.go:56-129 | What the pass makes of that body is the reduced one. |
| AlgebraRuns.TruthAccepted | program/verify.go:683-704 | The verifier accepts that body: it takes a truth value for an i32. |
| Sites.RelaidLayout | transform/cf.go:507-518 | Code with one window filled with no-ops and one instruction is laid out at its new offsets. |
| Sites.RelaidSited | transform/cf.go:507-518 | Branch targets, handler boundaries and block bounds remain instruction boundaries. |
| Sites.RefilledEnds | transform/cf.go:507-518 | Replacing a window entered nowhere inside by one instruction that pushes what the window pushes leaves what a program ends with. |
| Folding.WindowPushes | transform/cf.go:43-262 | A window of integer constants and an operation pushes the value it folds to. |
| Folding.FoldsIff | transform/cf.go:43-262 | What folds, opcode by opcode: every integer operation on two constants of its width but the 64-bit bitwise ones and divisions by zero, the tests for zero, and the narrowing of a 64-bit constant. |
| Folding.Folder.BoolConst | transform/cf.go:25-35 | A truth value is appended to the pool at most once, and later requests get the same index. |
| Folding.InstPushesIff | transform/cf.go:507-518 | The folded instruction pushes the value exactly when the pool entry it reads, by the index's low 16 bits, is the value. |
| Folding.Folder.Fold | transform/cf.go:21-506 | The pass over the integer windows in place, going on from the constant each window became: every window of the original is folded, the pool only grows, by at most two truth values, and while it has no more than 65536 entries the folded body ends as the original does on every machine. |
| Folding.TestFolds | transform/cf.go:25-35 | A comparison folded to the pool entry 65536. |
| Folding.WideIndexMisreads | transform/cf.go:507-518 | That body reads entry 0 instead and ends differently: the index is written in 16 bits without a check. |

## Left out

- AArch64 instruction selection, executable memory, the assembly trampoline and layout tricks: no machine model to prove them against.
- Host conversion by reflection, the command line, the debugger, profiler counters, pools of reusable structs and arrays, finalizers of closable values.
- Floating point, strings and the boxed encoding of values; heap values are what they refer to plus an opaque payload.
- Null bookkeeping beyond a lower bound: wrapping a failure stores an unretained null, so a cascade may lower null's count.
- The trap path of unwinding, which allocates the error it delivers: only throws are modelled, and a frame marked for release names a slot other than null.
- Rewrites.Rewriter.Rewrite: the simulation is for code that runs straight on from any instruction; a branch taken forward is covered as Rewrites.EntersAt and Rewrites.ForwardAt say, and branches backward only in that spilling is then off; a destination is write-only.
- Rewrites.Rewriter.Run: pins name scratch registers, because claiming a pin unbinds its register without spilling; register masks are sets, the owner-hint index is not modelled, and the frame's own instructions touch no modelled value.
- Blocks.Build: the sorted, duplicate-free successor and predecessor lists are sets.
- DceRuns.RunsPreserved: runs that execute an unreachable instruction are excluded, because the pass deletes it, and so are bodies with a live table inside a block that leads to a dead one.
- EditRuns.Simulates: edits whose text branches, or that a branch or handler boundary enters in the middle, are excluded.
- Dataflow.Flow: an entry stack is a value, not a shared pointer.
- Heights.HeightsSound: callees are taken to match the signature found on the abstract stack, handler depths to be at least the number of locals, and arrays to be made of one element, as the verifier's table has it.
- KindRuns.RunsTyped: globals, captured variables and constants are taken to hold what they are declared to, a variable of any type a reference, and callees to leave what they are declared to; integers of 32 bits and less are one kind of word; jump tables are taken to end their blocks.
- GroupValues.SomeReading: an array is taken to be made of one element, as the table the numbering goes by has it.
- Avail.Solve: a function with handlers is outside its precondition, because catch blocks have no predecessors.
- Redundancies.Available: redundancies inside one block, and the homes that serve them, are not modelled: a value first seen under an opaque name can later be tied to a group.
- Gvn.Eliminate: redundancies with a home are not modelled, and with no handlers there is no handler depth to raise.
- Reuse.ReuseKeepsResults: the locals at entry are as many as the declared ones, and no instruction names another.
- OrientedReuse.OrientedAgrees: sums and products of floating-point numbers are taken to be the same in either order, which the payloads of two NaNs need not be; and where operands are exchanged, locals and pool entries that 32-bit operations read are taken to hold 32-bit integers, as the verifier and the calling convention see to.
- OrientedReuse.OrientedIff: its "only if" half is for plans whose exchanged computations have operands of the kinds their operations read, and for captures that some machine gets to make; that bodies the verifier accepts with locals and constants of known kinds are such is not proved.
- Assembly.TransfersSame: branches with an immediate displacement written by hand are not rebased by relaxation, and are excluded.
- Aliases.CloneAliases: addresses count elements, so arrays of one element type are taken to be aligned to it.
- CacheProtocol.RunsValid: the unlocked read of a function's state and hit counter is a separate step that changes neither.
- Constant folding of floating-point and string windows, and of conversions of integers to floating point; 64-bit bitwise windows are not folded by the code either.
- Folding.Folder.Fold: pool entries are opaque but for the truth values the pass adds, and a window that folding itself makes behind the cursor is not claimed to be folded.
- AlgebraRuns.ReducedEndsSame and Folding.Folder.Fold: a 64-bit integer is its value, although one too wide for a box is a heap slot, and the operand stack has no limit, although folded code needs one slot less.
- Rewrites.Rewriter.Run: with more than 512 virtual registers running out of spill slots is a cause of failure that is not characterised.
- Folding.InstPushesIff: a pool too small for the index it is asked to read is outside its assumption.
- Builder.Assembler.Assemble: a stream with a table of 256 cases or more, which the program assembles wrongly, is not assembled here; the error's position among several unresolvable branches is the first in order of emission, and messages are not modelled.
- Codec.New: an undefined opcode, for which nothing is built, declares no widths to take.
- Text of instructions: parsing and printing.
- Verify.Check: whether it accepts depends on the order of the worklist when the kind of an arriving stack does not fit, so there the verdict is only witnessed, not characterised.
