# bpfsnoop: the expression compiler and the code that must agree with it

bpfsnoop traces Linux kernel functions. It compiles C expressions to eBPF code that filters events and
extracts values, generates code that lays out event records and parses those records again in user
space, and keeps several small state machines between the kernel and the reader. This project models
that core in Dafny and proves what it computes.

## What is modelled

**The machine** (`Words`, `Machine`). eBPF registers, frame, byte-addressed little-endian kernel memory
and the event buffer, with the instruction meanings of RFC 9669: section 4.1 (division by zero gives 0,
modulo by zero keeps the destination, shift counts are masked, 32-bit immediates are sign-extended),
section 4.3 (relative jumps) and section 5.1 (loads and stores, with their 16-bit signed offsets).
Registers hold a 64-bit number, a pointer into one of three known regions, or an unknown word. A helper call leaves R1 to
R5 unknown, and R0 as well unless it is the read-only cast.

**The compiler** (`Types`, `Chains`, `Operators`, `Codegen`, `Filter`, `Spill`, `Discipline`). `Codegen.Compile` says
what code an expression gets for a set of used registers; class `Compiler.Compiler`, with its mutable
register table, instruction buffer and label flag, is proved to emit exactly that. The theorems are in
three layers:

1. `Correctness.CompileRun`: the code of every expression that compiles without destroying a pending
   operand, on every state, computes `Actual`, an exact account of what the emitted instructions do, the
   source's slips included. `SpillExactness.ChainSafeIff` and `Discipline.PendingSafeIff` say exactly when an
   operand is destroyed.
2. `Faithful.FaithfulIff`, `Cuts.BitfieldIff`, `StepExactness.CoreStepIff` and their like: exactly when each
   construct computes what C means by it. All conditions are tests on types, constants and offsets.
3. `CTypes` types expressions and coerces their operands by rules of its own, and `CLang` gives them a meaning
   over places in memory, independent of the compiler's tables, chains and registers. `CLang.ShapesAgree` proves
   that the compiler accepts and types the supported fragment as C does, `Fragment` that the whole filter
   returns the meaning, and `CoreReads` that ordinary member paths are in the fragment.

The meaning is over unsigned 64-bit words with zero-extended loads: comparisons are unsigned, casts
change the type and not the bits, all operands are evaluated, and a null pointer that is read and then
followed makes the whole result Null. A constant takes the type of the operand it meets. Tests are ints,
`?:` has the type of its arms, pointer arithmetic that of the pointer, and other operations that of their
left operand, or of the right one beside a constant; operands are not promoted.

**Writers and readers** (`Buffers`, `FuncArgs`, `Records`, `Display`, `OutputArgs`). The generated functions that
store parameters and output records, run on the machine, the Go loops that read the buffer back, and what
the user sees in the end.

**State machines** (`CallGraph`, `CallRaces`, `GraphParser`, `StackWalk`, `Sessions`, `Timestamps`). Concurrent
call-graph discovery as steps of its tasks in any order; the frame-pointer walk split over tail calls; the
session protocol between kernel and reader over any interleaving; the timestamp stack.

**Data structures** (`FlameGraph`, `Kallsyms`, `Splice`, `Lbr`). The counting tree of heap frames, the
symbol maps of shared entries, splicing of subprograms, and branch-record grouping.

## What the proofs found

Every one of these is stated and proved for all inputs; the members that state it are named.

- Operators that do not compute their C meaning (`Faithful.FaithfulIff`, with values on which they
  differ): a constant on the left of an ordering; a non-zero constant minus a register; `|` and `^` with
  the constant 0, which give 0; division by a register, which gives 0 on both paths; integer plus
  pointer, which is not scaled; pointer minus pointer, which multiplies by the element size; `++` and `--`
  on pointers, which are not scaled; constants that do not survive a 32-bit immediate.
- Bitfields wider than 31 bits that end below the top of the dword are not masked (`Cuts.BitfieldIff`).
- Core and direct mode keep 16 bits of a load offset; core fallback reads, array elements among them, drop their
  offset and, before the end of a chain, the null check (`StepExactness.CoreStepIff`, `StepExactness.DirectStepIff`,
  `CoreReads.CoreChoice`, `CoreReads.ElementFallsBack`).
- Direct mode emits the jump to the exit label and never defines it (`Filter.DirectNeverExits`); it is correct
  on every environment that meets no null pointer (`Fragment.FilterMeans`).
- A null pointer under a top-level `||` of two registers makes the filter return 1, not 0
  (`Filter.FilterRun`).
- Push and pop save a prefix R1 to Rk of the argument registers, whichever of them are in use, while the
  allocator hands registers out from R8 down (`Spill.SpillPreservesIff`), and pop also reloads the register
  just read if it is one of them. A read is right in every state exactly when that register is not reloaded and
  every other used one is (`SpillExactness.ChainSafeIff`); for expressions that means at most three pending
  operands (`Discipline.PendingSafeIff`), two in output records, where R8 holds the buffer
  (`Records.SupportedIff`). `a && (a && (a && (a && (a && (a && (a && p->x))))))` compiles and accepts a call
  with `p->x` equal to 0 (`LostRead.LostReadAccepts`).
- The result of `?:` has the type of its condition, so that a constant beside it is cut to that type
  (`Fragment.ArmTypeWitness`), and a test keeps the type of its left operand, so that adding to the comparison of two
  pointers is scaled (`Fragment.TestTypeWitness`).
- A constant condition of `?:` leaks the register of the arm it does not choose (`Discipline.NeedIff`).
- A number that is cast to a pointer and then followed starts from argument 0 when it is 0, and from its
  low 32 bits otherwise (`Fragment.BaseConstIff`). An element that is itself an array is read where C takes its
  address (`Fragment.ArrayElementReads`), and the address of an array of total size 1, 2 or 4 is cut
  (`Cuts.CutKeepsIff`). Enum names as arms of `?:` read R0 (`Correctness.EnumArmRun`).
- A parameter split over two registers puts the reader of function arguments out of step with the writer
  (`FuncArgs.ReaderInStepIff`).
- Histogram and t-digest values are not consumed by the record reader, so any record after one is read
  from the wrong place (`Records.InStepIff`).
- When another task runs between the two halves of `add`, a (function, depth) pair can be lost, exactly when
  some function is added at two depths and one addition can overtake all those at the other
  (`CallRaces.LossIff`); an example loses a whole function (`CallRaces.InterruptedAddLoses`). Without a
  function at two depths nothing is lost (`CallRaces.InterruptedConfluent`), and what is found is always right
  (`CallGraph.RunSound`).
- The exit of an invocation that the filters refused takes the session an outer invocation left under the same
  caller frame; without that, nested invocations are paired right (`Sessions.LeavePairedIff`,
  `Sessions.StealShows`, `Sessions.StolenPair`). An overwritten session stays with the reader for good
  (`Sessions.RunInStep`).
- Weight that ends in a frame named `root` disappears from the folded stacks (`FlameGraph.FoldedTotalIff`),
  and any frame of that name changes the lines (`FlameGraph.FoldedStacks`).
- A walk decides all stacks without two trampoline frames in a row exactly with two frames for each level, the
  last included (`StackWalk.DecidesIff`): the thousand frames of the tail-called walk decide depths up to 499
  (`StackWalk.BudgetIff`), and the limited walk misses a session at every depth (`StackWalk.LimitedMisses`).
- A second injection overwrites the first only if the first code defines no symbol behind its first
  instruction (`Splice.InjectTwiceIff`). Clearing drops a symbol that sits on an instruction that refers to the
  stub, so that a wrapper that begins with the call of the stub is merged into the subprogram before it
  (`Splice.ClearKeepsOthers`, `Splice.ClearKeepsSymbolsIff`, `Splice.WrapperMerges`).

Two more are in the model as they are in the code, as failures: indexing a cast number or adding to it before
any other step reads from an empty list and crashes the compiler (`Codegen.PrevTy`), and so does the shift of a
constant by a negative one (`Operators.FoldConst`).

## Model

| member | source | states |
|---|---|---|
| `Fragment.FilterCorrect` | internal/cc/expr.go:46-102 | Main result: a supported test that C's typing gives a register, that needs at most nine registers, and that calls no helper or is stack-like with at most three operands pending at every helper call, compiles, and its program, called with the argument array in R1, returns its C value in every environment whose values read do not straddle unmapped memory; on a null pointer it returns 0, or 1 for a top-level `\|\|` of two registers; direct mode, which has no exit label, asks for an environment that meets no null pointer. |
| `Fragment.FilterMeans` | internal/cc/expr.go:46-102 | The same for every filter that compiles with no pending operand destroyed, in all three read modes: called with the argument array in R1, it returns in R0 the C value of its expression in every such environment; if a null pointer is met on the way, in probe or core mode, it returns 0, or 1 for a top-level `\|\|` of two registers. |
| `Fragment.SupportedMeans` | internal/cc/eval.go:1161-1527 | On the supported fragment the value the code computes is the C value of the expression, which is defined without any table of the compiler, by induction over every expression form, null results included. |
| `CLang.ShapesAgree` | internal/cc/eval.go:1161-1527 | On the fragment the compiler accepts an expression if and only if C's own typing does, in every read mode, and gives it a constant, an enumerator or a register exactly where C does, with the same constant. |
| `CLang.LowerTyped` | internal/cc/memory_access.go:57-434 | An lvalue or pointer expression is lowered if and only if it has a type, and to that type, member and start. |
| `CTypes.CoerceAgrees` | internal/cc/eval.go:70-131 | For all operands the compiler's preparation is the coercion that is stated on its own: a constant beside an operand of 1, 2 or 4 bytes is taken modulo 2^8, 2^16 or 2^32, beside a bitfield modulo 2^bits, and otherwise as it is; an enumerator has the value in the other operand's type; other types are refused. |
| `CTypes.EnumeratorIff` | internal/cc/eval.go:55-68 | The value of an enumerator is that of the first one of its name, and there is none if and only if the name does not occur. |
| `CLang.NamesAgree` | internal/cc/eval.go:1361-1385 | `true` is 1, `false` and `NULL` are 0, a parameter is a register of its type, and any other name is an enumerator. |
| `Fragment.ArmTypeWitness` | internal/cc/eval.go:392-433 | The result of `?:` has the type of its condition: beside it a constant that this type cuts compares unequal to the arm that holds it. |
| `Fragment.TestTypeWitness` | internal/cc/eval.go:482-692 | The result of a test keeps the type of its left operand: `(p == q) + 1` adds the size of an object. |
| `Correctness.CompileRun` | internal/cc/eval.go:1161-1527 | For every expression that compiles with no pending operand destroyed, whatever its chains, inside the C fragment or not, running its code from any ready state ends with its value in the result register, or at the exit label exactly when that value is Null; no register that was in use before, R9 or R10 changes, and memory, arguments and buffer stay as they were. |
| `Correctness.CompileBinRun` | internal/cc/eval.go:1166-1525 | The same for every binary operator: both operands are evaluated, a null exit of either ends the run, and the left value survives the evaluation of the right one. |
| `Correctness.CompileCondRun` | internal/cc/eval.go:392-433 | The same for `?:`: both arms are evaluated before the condition selects one, and a constant condition emits no selection. |
| `Correctness.EnumArmRun` | internal/cc/eval.go:392-433 | The excluded case: where the selected arm of `?:` is a bare enum name, the code leaves whatever R0 holds. |
| `Correctness.CompileAccessRun` | internal/cc/memory_access.go:436-491 | The same for memory accesses: start value, chain of reads, final cut, for starts in an argument, an immediate or a computed register and for every chain, the dropped offsets and narrow loads of the read modes included. |
| `Correctness.CompileExtends` | internal/cc/register.go:16-24 | A successful evaluation only adds to the used registers, and its result register is newly used and at most R8; which one it is, is said by `Discipline.StackOrder`. |
| `Correctness.EmitBinRun` | internal/cc/eval.go:96-131 | The code of a binary operator on held operands, after the coercion of enum names and constants, leaves the computed value and keeps every other used register. |
| `Correctness.LowerBase` | internal/cc/memory_access.go:59-79 | A chain that starts from a computed value starts from a binary expression whose result is a register. |
| `Correctness.FinishRun` | internal/cc/memory_access.go:523-561 | The code after a read leaves the read value cut to a bitfield or to its own size. |
| `Codegen.CompileShape` | internal/cc/eval.go:1161-1527 | Whether a result is a constant, an enum name or a register, and its type, depends on the expression alone and not on the registers in use. |
| `Faithful.FaithfulIff` | internal/cc/eval.go:133-1159 | For every binary operator and every pair of operand kinds it accepts, the static guard `FaithfulBin` holds if and only if the emitted code computes the C meaning for all operand values. |
| `Faithful.FaithfulMeans` | internal/cc/eval.go:133-1159 | The first half with the operand values given: under the guard the code's value is the C value. |
| `Faithful.UnfaithfulWitness` | internal/cc/eval.go:133-1159 | The other half, constructively: wherever the guard fails there are operand values on which the code and C differ. |
| `Faithful.FaithfulUnIff` | internal/cc/eval.go:936-974 | Unary operators compute their C meaning for all values if and only if `++` and `--` are not applied to a pointer with an element size other than 1. |
| `Faithful.FoldMeans` | internal/cc/eval.go:133-1159 | Two constants are folded to the 64-bit result of the operator on signed numbers, and refused if and only if the divisor is 0 or the shift count negative. |
| `Faithful.CWordIs` | internal/cc/eval.go:133-1159 | What an operator means on words, stated in arithmetic, is what the machine's instruction or test of that name gives. |
| `Faithful.OrderWitness` | internal/cc/eval.go:514-692 | A constant on the left of `>`, `>=`, `<` or `<=` is compared the wrong way round: for every constant some register value gives the wrong answer. |
| `Faithful.SubWitness` | internal/cc/eval.go:1036-1052 | A non-zero constant minus a register is computed as register minus constant and is wrong for some value. |
| `Faithful.AddRegWitness` | internal/cc/eval.go:144-158 | Adding a pointer on the right to an integer register (unscaled), or scaling by a size that an immediate cannot hold, is wrong for some values. |
| `Faithful.SubRegWitness` | internal/cc/eval.go:1082-1098 | The difference of two pointers is wrong for some values whenever the element size is not 1. |
| `OperatorRuns.BinRun` | internal/cc/eval.go:133-1159 | The instructions of every binary operator on every accepted pair of operands, jumps included, leave exactly the modelled value in the planned register and change no register outside the operands and the planned one. |
| `OperatorRuns.UnRun` | internal/cc/eval.go:694-1120 | The same for `-`, `!`, `--`, `++` and `~`. |
| `OperatorRuns.CondRun` | internal/cc/eval.go:392-433 | The selection code of `?:` leaves the arm chosen by the condition and changes no other register. |
| `OperatorRuns.AndAndRun` | internal/cc/eval.go:258-299 | The two jumps of `&&` skip to the clearing instruction exactly when an operand is zero, and the result is 0 or 1. |
| `OperatorRuns.OrOrRun` | internal/cc/eval.go:889-934 | The two jumps of `\|\|` skip to the setting instruction exactly when an operand is not zero. |
| `OperatorRuns.DivRegRun` | internal/cc/eval.go:435-480 | Division of two registers leaves 0 on both paths, whatever the operands. |
| `OperatorRuns.DivNumRun` | internal/cc/eval.go:435-480 | Division of a constant by a register leaves 0 on both paths. |
| `CLang.LowerMeans` | internal/cc/memory_access.go:57-434 | Main result on lvalues: for every nest of `->`, `.`, `[n]`, `*`, `&`, pointer plus or minus constant, casts and parentheses in the fragment, folding the recorded offsets over the start value gives the place the expression denotes in C, or Null exactly when C meets a null pointer. |
| `CLang.ArrowDenotes` | internal/cc/memory_access.go:94-158 | `->` appends a read at the member's offset, and an array member is its own address. |
| `CLang.DotDenotes` | internal/cc/memory_access.go:94-158 | `.` on a structure merges into the pending read and denotes the member within the same object. |
| `CLang.AddDenotes` | internal/cc/memory_access.go:160-237 | Pointer plus constant moves by the constant times the element size; void counts as one byte. |
| `CLang.IndexDenotes` | internal/cc/memory_access.go:290-342 | `p[n]` denotes the n-th element, unless the element is itself an array. |
| `CLang.IndirDenotes` | internal/cc/memory_access.go:344-368 | `*p` denotes the object pointed to, unless that is an array. |
| `CLang.AddrDenotes` | internal/cc/memory_access.go:239-257 | `&` of an object is its address as a pointer value. |
| `CLang.CastDenotes` | internal/cc/memory_access.go:259-288 | A cast changes the type and keeps the place; an array decays first. |
| `CLang.PlacesSized` | internal/cc/memory_access.go:200-330 | Sizes are what places take: the place behind the last element of an array is the array's plus its size, a pointer is as wide as the value that is followed, and a name has the size of its type. |
| `Fragment.AccessMeans` | internal/cc/memory_access.go:436-561 | Reading the place, with the chain executed and the result cut, gives the C value of the access. |
| `Fragment.SupportedSane` | internal/cc/eval.go:1161-1527 | The C fragment lies inside the expressions that `CompileRun` covers. |
| `Fragment.BaseConstIff` | internal/cc/memory_access.go:436-465 | A number cast to a pointer is the start of its chain in every environment if and only if it is not 0 and is sign-extended from its low 32 bits; 0 starts from the first argument instead. |
| `Fragment.ArrayElementReads` | internal/cc/memory_access.go:290-342 | An indexed element that is itself an array is read from memory, eight bytes of it, where C gives its address. |
| `Cuts.BitfieldIff` | internal/cc/memory_access.go:523-531 | A bitfield is read as in C for every dword if and only if it has at most 31 bits or reaches the top of the dword: wider masks do not survive the 32-bit immediate. |
| `Cuts.FinishNumber` | internal/cc/memory_access.go:533-561 | The cut of a number of 1, 2 or 4 bytes keeps exactly its low 8, 16 or 32 bits, and any other size is left alone. |
| `Cuts.CutKeepsIff` | internal/cc/memory_access.go:533-561 | The cut by size leaves every dword alone, array addresses included, if and only if the size is not 1, 2 or 4. |
| `Cuts.TruncatedReadIff` | internal/cc/memory_access.go:533-561 | An 8-byte little-endian read cut to n bytes equals a read of n bytes if and only if all 8 bytes are mapped or the short read gives 0. |
| `Cuts.WholeReadTruncates` | internal/cc/memory_access.go:533-561 | So the probe mode's cut dword and the core mode's sized load agree wherever no mapped value straddles an unmapped byte. |
| `Cuts.ExtractFromPart` | internal/cc/memory_access.go:523-531 | A bitfield that lies within the bytes core mode loads is the same as in the whole dword. |
| `Backends.ChainRun` | internal/cc/memory_access.go:493-521 | Backend refinement: in all three read modes the code of every chain that compiles leaves what its steps compute in the target register, takes the null exit exactly when they come to Null, and keeps every other used register; on the chains a mode is faithful to, that is one and the same fold. |
| `Backends.ProbeBodyRun` | internal/cc/bpf_probe_read.go:8-56 | The probe-mode body, with its helper calls and the scratch slot, computes the fold and touches no other register from R6 up and no spill slot. |
| `Backends.CoreBodyRun` | internal/cc/bpf_core_read.go:65-127 | The core-mode body, with its casts, direct loads and fallback reads, computes its steps one after the other, for any offsets and widths, and leaves nothing else behind in R1 to R5. |
| `Backends.DirectStepsRun` | internal/cc/bpf_direct_read.go:8-26 | The direct-mode code computes its steps one after the other, for any offsets, and changes only its register. |
| `Backends.SpilledRun` | internal/cc/expr.go:213-256 | A body between push and pop still computes its value if the pop does not reload its target, and every spilled register comes back, unless the null exit is taken. |
| `Chains.ChainComputesFold` | internal/cc/memory_access.go:493-521 | On a chain the read mode is faithful to, the steps compute the fold of the chain, which knows no mode. |
| `Backends.CoreStepRun` | internal/cc/bpf_core_read.go:65-127 | What every single core-mode step computes, for any offset and width, the dropped offset and missing null check of fallback reads included. |
| `StepExactness.CoreStepIff` | internal/cc/bpf_core_read.go:65-127 | A core-mode step computes its meaning in every memory if and only if a fallback read is last and has offset 0, and a cast load has a 16-bit offset and, unless last, reads 8 bytes. |
| `StepExactness.CoreStepWitness` | internal/cc/bpf_core_read.go:94-107 | Where that fails, a memory and a pointer on which the step is wrong. |
| `Backends.DirectStepRun` | internal/cc/bpf_direct_read.go:8-26 | What every single direct-mode step computes, for any offset. |
| `StepExactness.DirectStepIff` | internal/cc/bpf_direct_read.go:8-26 | A direct-mode step computes its meaning in every memory if and only if it is an address step or has a 16-bit offset. |
| `CoreReads.CoreChoice` | internal/cc/bpf_core_read.go:65-127 | A single read in core mode, told from its types: rejected if and only if the struct it starts from has no id or its own type no size; by a cast to that struct's id with a load at its own offset of 1, 2, 4 or 8 bytes if and only if it is a number, enumeration or pointer in a struct and no array element; by the helper otherwise, eight bytes without the offset. |
| `CoreReads.CastComputes` | internal/cc/bpf_core_read.go:104-123 | Such a cast read with a 16-bit offset gives the object at the pointer plus the offset, in its own size, and takes the null exit on zero unless it is last. |
| `CoreReads.Origins` | internal/cc/memory_access.go:94-368 | An arrow and a star start from the pointer they follow, an index and a sum from whatever the step before them started from. |
| `CoreReads.ElementFallsBack` | internal/cc/bpf_core_read.go:110-113 | An element of an array is read by the helper at the address so far, its own offset dropped. |
| `CoreReads.PathSupported` | internal/cc/bpf_core_read.go:65-127 | A path `p->f1->f2->...` of whole members in the first 32 KB of structs with an id compiles and is in the supported fragment in all three modes, in core mode by casts, and has the type of its last member. |
| `Spill.SlotsDisjoint` | internal/cc/expr.go:213-260 | For every set of used registers the spill slots are pairwise disjoint, 8-aligned, within the 512-byte frame and below the reserved stack, hence off the scratch slot. |
| `Spill.PushRun` | internal/cc/expr.go:213-231 | Push stores R1 to Rk and R0 if used into their slots and changes nothing else. |
| `Spill.PopRun` | internal/cc/expr.go:237-256 | Pop reloads exactly those registers and changes no other. |
| `Spill.SpillPreservesIff` | internal/cc/expr.go:213-260 | Push, a clobber of R0 to R5 and pop keep every used register if and only if the used ones among R1 to R5 form a prefix R1 to Rk. A target that was written in between is overwritten if it is one of them; the next row says when a whole read works. |
| `SpillExactness.ChainSafeIff` | internal/cc/expr.go:213-256 | For every read mode, chain, target and set of used registers: the chain's code delivers its value and keeps the used registers in every state if and only if it calls no helper, or the target is above the k registers that the pop reloads, k counted among R1 to R5 or, for fast calls, R1 and R2, and every other used one of R1 to R5 is among those. |
| `SpillExactness.LosingState` | internal/cc/expr.go:213-256 | Where that fails, a state on which the value or a used register is lost. |
| `LostRead.LostReadAccepts` | internal/cc/expr.go:213-256 | A filter with seven operands pending at its last read, `p->x`, which compiles and is supported: it lets the call through although `p->x` is 0, as the pop reloads the register just read. |
| `Types.ReservedStack` | internal/cc/compiler.go:64-68 | The reserved stack is the request rounded up to a multiple of 8, and at least 8. |
| `Codegen.AllocFrom` | internal/cc/register.go:16-24 | Allocation gives the highest free register, and fails only when all are used. |
| `Discipline.NeedIff` | internal/cc/eval.go:1161-1527 | Compilation succeeds if and only if the need, a Sethi-Ullman count that knows the extra register of a constant dividend or shift and the registers that a constant condition leaks, is at most the number of free registers; afterwards exactly the result's and the leaked ones are taken. |
| `Discipline.PendingSafeIff` | internal/cc/expr.go:213-256 | For expressions that release registers in reverse order, no helper call destroys a pending operand, and no pop a value just read, if and only if at most three operands are pending at every call, those taken before the expression included. |
| `Discipline.TopSafeIff` | internal/cc/expr.go:213-256 | With the highest registers in use, the chain of a read is safe if and only if it calls no helper or at most three operands are pending. |
| `Discipline.StackOrder` | internal/cc/register.go:16-24 | Without a constant to the left of a shift, division or modulo by a register and without a constant condition, the result goes to the highest register that was free and nothing else stays taken. |
| `Discipline.TopAfter` | internal/cc/register.go:16-24 | Starting from the top registers the used ones are again the top registers after every evaluation. |
| `Discipline.FilterCompiles` | internal/cc/expr.go:46-102 | A filter is accepted if and only if it is a comparison, `&&`, `\|\|` or `!` whose result is in a register, and needs at most nine registers; if it is stack-like its code is safe if and only if at most three operands are pending at every helper call, and without such a call it always is. |
| `Filter.FilterRun` | internal/cc/expr.go:46-102 | The whole filter program, label included: it returns the value of its expression; on a null pointer it returns 0, or 1 for `\|\|` of two registers; in direct mode it jumps to a label that nothing defines. |
| `Filter.TopLast` | internal/cc/expr.go:85-99 | For every top-level operator the last instruction of the expression, which carries the exit label, clears the result register, but for `\|\|` of two registers, which sets it to 1. |
| `Filter.NullExits` | internal/cc/expr.go:85-99 | Whenever a null pointer is met in probe or core mode the label has been defined. |
| `Filter.NullMarksExit` | internal/cc/bpf_probe_read.go:46-51 | A chain whose steps can come to Null in some memory marks the label as used. |
| `Filter.MarksExitIff` | internal/cc/bpf_probe_read.go:46-51 | The label is marked if and only if the chain comes to Null in some memory. |
| `Filter.DirectNeverExits` | internal/cc/bpf_direct_read.go:8-26 | Direct mode never marks the label, whatever the expression. |
| `Compiler.CompileFilterExpr` | internal/cc/expr.go:46-102 | The method with its register table and instruction buffer returns exactly the program the theorems are about, or rejects exactly the same expressions. |
| `Compiler.CompileEvalExpr` | internal/cc/expr.go:137-203 | The evaluation entry point: with the given registers taken it returns the code, result register and label flag of the specification, and rejects constants unless forced. |
| `Compiler.PreHandleValues` | internal/cc/eval.go:96-131 | Enum names and constants are coerced by the type of the other operand; a register operand stays as it is. |
| `Compiler.RegisterAllocator.constructor` | internal/cc/register.go:12-14 | A new table has no register in use. |
| `Compiler.RegisterAllocator.Alloc` | internal/cc/register.go:16-24 | The downward scan marks and returns the highest free register, or changes nothing and fails. |
| `Compiler.RegisterAllocator.Free` | internal/cc/register.go:26-30 | Freeing clears exactly that mark. |
| `Compiler.RegisterAllocator.IsUsed` | internal/cc/register.go:32-38 | The mark of a register. |
| `Compiler.RegisterAllocator.MarkUsed` | internal/cc/register.go:40-46 | Sets exactly that mark. |
| `Compiler.Compiler.constructor` | internal/cc/compiler.go:41-92 | A new compiler has an empty buffer, a free table and no label. |
| `Compiler.Compiler.Emit` | internal/cc/expr.go:205-207 | Appends to the buffer and changes nothing else. |
| `Compiler.Compiler.EmitLoadArg` | internal/cc/expr.go:209-211 | Appends the load of an argument from the array behind R9. |
| `Compiler.Compiler.PushUsedCallerSavedRegsN` | internal/cc/expr.go:213-231 | The loops emit exactly the push code of the registers in use. |
| `Compiler.Compiler.PopUsedCallerSavedRegsN` | internal/cc/expr.go:237-256 | The loops emit exactly the pop code of the registers in use. |
| `Compiler.Compiler.ProbeReadOffsets` | internal/cc/bpf_probe_read.go:8-56 | The loop emits exactly the probe-mode code and marks the label if and only if some read is not the last. |
| `Compiler.Compiler.CoreReadByProbeRead` | internal/cc/bpf_core_read.go:49-63 | Appends the fallback read. |
| `Compiler.Compiler.CoreReadOffsets` | internal/cc/bpf_core_read.go:65-127 | The loop emits exactly the core-mode code, fails exactly when a type cannot be resolved, and marks the label on cast reads that are not last. |
| `Compiler.Compiler.DirectReadOffsets` | internal/cc/bpf_direct_read.go:8-26 | The loop emits exactly the direct-mode code. |
| `Compiler.Compiler.Offset2insns` | internal/cc/memory_access.go:493-521 | Chooses address additions or the backend of the read mode, with its outcome. |
| `Compiler.Compiler.Bitfield2insns` | internal/cc/memory_access.go:523-531 | Appends shift and mask of a bitfield. |
| `Compiler.Compiler.AdjustRegisterBitwise` | internal/cc/memory_access.go:533-561 | Appends the cut for the size of the type. |
| `Compiler.Compiler.EmitAdd` | internal/cc/eval.go:133-227 | Emits the code, frees the register and returns the value of the specification, or fails with it. |
| `Compiler.Compiler.EmitSub` | internal/cc/eval.go:1025-1100 | The same for `-`. |
| `Compiler.Compiler.EmitAnd` | internal/cc/eval.go:229-256 | The same for `&`. |
| `Compiler.Compiler.EmitOr` | internal/cc/eval.go:850-887 | The same for `\|`, a register with constant 0 dropped. |
| `Compiler.Compiler.EmitXor` | internal/cc/eval.go:1122-1159 | The same for `^`. |
| `Compiler.Compiler.EmitMul` | internal/cc/eval.go:760-795 | The same for `*`. |
| `Compiler.Compiler.EmitDiv` | internal/cc/eval.go:435-480 | The same for `/`, with the extra register of a constant dividend. |
| `Compiler.Compiler.EmitMod` | internal/cc/eval.go:709-758 | The same for `%`. |
| `Compiler.Compiler.EmitLsh` | internal/cc/eval.go:578-628 | The same for `<<`. |
| `Compiler.Compiler.EmitRsh` | internal/cc/eval.go:976-1023 | The same for `>>`. |
| `Compiler.Compiler.EmitAndAnd` | internal/cc/eval.go:258-299 | The same for `&&`. |
| `Compiler.Compiler.EmitOrOr` | internal/cc/eval.go:889-934 | The same for `\|\|`. |
| `Compiler.Compiler.EmitComparison` | internal/cc/eval.go:482-692 | The same for the six comparisons. |
| `Compiler.Compiler.EmitUnary` | internal/cc/eval.go:694-1120 | The same for the unary operators. |
| `Compiler.Compiler.EmitConditional` | internal/cc/eval.go:392-433 | The same for `?:`. |
| `Compiler.Compiler.CastValue` | internal/cc/eval.go:360-390 | The same for casts of registers and constants. |
| `Compiler.Compiler.AccessMemory` | internal/cc/memory_access.go:57-434 | The recursive walk builds exactly the lowered access, editing one record in place, or fails with it. |
| `Compiler.AccessResult.Member` | internal/cc/memory_access.go:94-158 | The edits for `->` and `.` on type, offsets and last index come to the specified access, or fail with it. |
| `Compiler.AccessResult.Add` | internal/cc/memory_access.go:160-237 | The same for pointer arithmetic with a constant. |
| `Compiler.AccessResult.Addr` | internal/cc/memory_access.go:239-257 | The same for `&`. |
| `Compiler.AccessResult.Cast` | internal/cc/memory_access.go:259-288 | The same for casts. |
| `Compiler.AccessResult.Index` | internal/cc/memory_access.go:290-342 | The same for indexing. |
| `Compiler.AccessResult.Indir` | internal/cc/memory_access.go:344-368 | The same for `*`. |
| `Compiler.AccessResult.AddOffset` | internal/cc/memory_access.go:46-49 | Appends a step and makes it the last. |
| `Compiler.Compiler.EvalAccess` | internal/cc/memory_access.go:436-491 | Register, start value, chain and cut of an access, as specified. |
| `Compiler.Compiler.Eval` | internal/cc/eval.go:1161-1527 | The recursive evaluation appends exactly the specified code, ends with the specified used registers and label flag, and fails exactly where specified. |
| `FuncArgs.FuncArgsRoundTrip` | internal/bpfsnoop/func_arg.go:19-132 | Main result: for every parameter list without split parameters and every kind of return value, running the generated writer and reading its buffer shows every raw value, every number with the number it points to, and every string as its characters up to 63, in order; exactly the returned size is written. |
| `FuncArgs.WriterRun` | internal/bpfsnoop/func_arg.go:19-132 | The generated function stores the values one after the other, and R6 to R8 survive every helper call. |
| `FuncArgs.ParamsRun` | internal/bpfsnoop/func_arg.go:39-80 | The same for any number of parameters from any state of the buffer. |
| `FuncArgs.RetRun` | internal/bpfsnoop/func_arg.go:89-125 | The return value follows the parameters: a string, a dword, or a dword and what it points to. |
| `FuncArgs.GenOutputFuncArgs` | internal/bpfsnoop/func_arg.go:19-132 | The loop builds exactly that function and returns the total size. |
| `FuncArgs.OutputFnArgs` | internal/bpfsnoop/bpfsnoop_func_args.go:149-215 | The reading loop returns exactly what the reference reader does, and fails where a slice is too short. |
| `FuncArgs.ParamsReadBack` | internal/bpfsnoop/bpfsnoop_func_args.go:168-203 | Reading from any parameter on gives the rest of the values and leaves the data behind them. |
| `FuncArgs.ReaderInStepIff` | internal/bpfsnoop/bpfsnoop_func_args.go:171-173 | The reader ends where the writer ended if and only if no parameter is split over two registers. |
| `Buffers.ScanNullTerminated` | internal/strx/string.go:8-16 | The scan returns the bytes before the first zero, or all of them. |
| `Buffers.StringTaken` | internal/strx/string.go:8-16 | Out of a terminated string the string itself is taken, whatever follows it, and out of an unterminated one all of it. |
| `Buffers.TextShown` | internal/bpfsnoop/bpfsnoop_func_args.go:140-143 | A text field of n bytes shows the characters in memory before the terminator, but for the last of n, and nothing where unmapped memory comes first. |
| `Buffers.TextUnique` | internal/bpfsnoop/bpfsnoop_func_args.go:140-143 | That determines the text. |
| `Buffers.TerminatedPrefix` | internal/bpfsnoop/bpfsnoop_func_args.go:140-143 | A terminated string reads the same whatever follows it. |
| `Buffers.DwordRoundTrip` | internal/bpfsnoop/bpfsnoop_func_args.go:132-138 | A dword stored byte by byte is read back. |
| `Buffers.ReadCodeRun` | internal/bpfsnoop/func_arg.go:65-77 | A helper call into the buffer writes exactly the bytes read, at its offset, and changes only R0 to R5 besides. |
| `Buffers.StoreRun` | internal/bpfsnoop/func_arg.go:46-50 | A store into the buffer writes exactly the bytes of the value. |
| `Records.RecordsRoundTrip` | internal/bpfsnoop/output_arg.go:349-393 | Main result: for every list of output requests, running the generated function writes all records, each ending in a flag that is 1 exactly when its own evaluation met a null pointer, changes no byte outside them, and the reader recovers every value in order when histogram and t-digest values come last. |
| `Display.RecordsShown` | internal/bpfsnoop/output_arg.go:60-393 | Main result, told from requests, types and values alone: if at most the last request is sampled, the run returns and the reader shows for every request what its type asks for: a char array of n elements up to n - 1 characters, a `const char *` up to 63, `*x` as many bytes as the pointee has, a number pointer with what it points to, any other number its dword, built-ins the bytes or text at their offset and size, and nothing where a null pointer was met or would be followed. |
| `Display.LayoutShows` | internal/bpfsnoop/output_arg.go:177-331 | The same for one record, with the exact number of bytes it occupies; the records the reader does not step over are those of sampled requests. |
| `Display.AcceptedIff` | internal/bpfsnoop/output_arg.go:253-331 | A request is accepted if and only if its expression compiles to a register of a type and member that can be shown. |
| `Records.OutputProgramRun` | internal/bpfsnoop/output_arg.go:372-393 | The generated function returns with the buffer filled by exactly the concatenation of the records, each at its place, whatever the other expressions met. |
| `Records.RequestsRun` | internal/bpfsnoop/output_arg.go:349-370 | The same from any request on, at any place of the program: every label catches the null exits of its own expression only. |
| `Records.OutputRun` | internal/bpfsnoop/output_arg.go:244-331 | One record: data and flag 0, or flag 1 alone, and the run ends behind the flag. |
| `Records.HeadRun` | internal/bpfsnoop/output_arg.go:105-115 | Evaluation and null check reach the data code with the value, or the label exactly on Null. |
| `Records.WriteRun` | internal/bpfsnoop/output_arg.go:105-242 | The data code writes exactly the bytes of its layout. |
| `Records.FlagRun` | internal/bpfsnoop/output_arg.go:314-327 | Falling into the flag code stores 0, entering at the label stores 1. |
| `Records.RelabelRun` | internal/bpfsnoop/output_arg.go:343-347 | Compiling with another exit label changes where the null exit goes and nothing else. |
| `Records.SupportedIff` | internal/bpfsnoop/output_arg.go:253-267 | With the buffer register taken, the code of a stack-like expression is safe if and only if at most two operands are pending at every helper call. |
| `Records.OutputFuncArgAttrs` | internal/bpfsnoop/bpfsnoop_arg.go:41-274 | The reslicing loop returns exactly what the reference reader does, and fails where a slice is too short. |
| `Records.ReadRecordBack` | internal/bpfsnoop/bpfsnoop_arg.go:52-268 | One record is read back, and the reader moves past it unless it is a histogram or t-digest value. |
| `Records.InStepIff` | internal/bpfsnoop/bpfsnoop_arg.go:226-236 | The reader stands at the start of every record up to the n-th if and only if no histogram or t-digest value came before; then all values so far are right. |
| `Records.RecordsReadBack` | internal/bpfsnoop/bpfsnoop_arg.go:41-274 | All records are read back when only the last one can be a histogram or t-digest value. |
| `Records.FilledRecorded` | internal/bpfsnoop/output_arg.go:349-370 | Records written one after the other are all still whole, and nothing else has changed. |
| `OutputArgs.FuncArgumentOutput.GenDerefInsns` | internal/bpfsnoop/output_arg.go:105-134 | Appends null check and read of the pointed-to object, and returns the offset behind it. |
| `OutputArgs.FuncArgumentOutput.GenBufInsns` | internal/bpfsnoop/output_arg.go:136-175 | Appends null check and read of a block or string at an offset, and returns the offset behind it. |
| `OutputArgs.FuncArgumentOutput.GenDefaultInsns` | internal/bpfsnoop/output_arg.go:177-242 | Appends check and stores of a number, a number pointer or a string, and returns the offset behind it. |
| `OutputArgs.FuncArgumentOutput.Compile` | internal/bpfsnoop/output_arg.go:244-331 | Fills in code, label and layout exactly as specified, threads the offset, and fails on the same requests. |
| `OutputArgs.ArgDataOutput.GenExitLabel` | internal/bpfsnoop/output_arg.go:343-347 | Every call gives a new label. |
| `OutputArgs.ArgDataOutput.MatchParams` | internal/bpfsnoop/output_arg.go:349-370 | The loop compiles every request behind the records of the ones before it, each with its own label. |
| `OutputArgs.ArgDataOutput.GenInsns` | internal/bpfsnoop/output_arg.go:372-393 | Joins prologue, records and return into exactly the specified program. |
| `CallGraph.DiscoveryConfluent` | internal/bpfsnoop/func_graph_parser.go:147-213 | Main result: with `add` atomic, every order of running the tasks that finishes has parsed exactly the (function, depth) pairs with a bounded call path from a root, and has begun work on exactly those. |
| `CallGraph.RunSound` | internal/bpfsnoop/func_graph_parser.go:328-443 | In every run, even with `add` interrupted after the placeholder, all parsed pairs have a call path, no pair begins its work twice, and the memo holds the true callees. |
| `CallGraph.NextSound` | internal/bpfsnoop/func_graph_parser.go:328-443 | Every single step keeps that. |
| `CallGraph.MemoIrrelevant` | internal/bpfsnoop/func_graph_parser.go:154-164 | Using the memo of callees changes nothing. |
| `CallGraph.AddSpawns` | internal/bpfsnoop/func_graph_parser.go:328-443 | An uninterrupted `add` of a traceable function within the depth always spawns its parse task. |
| `CallGraph.NextCovered` | internal/bpfsnoop/func_graph_parser.go:103-112 | A pair that is parsed or seen to by some task stays so, whichever task runs next. |
| `CallGraph.RunClosed` | internal/bpfsnoop/func_graph_parser.go:147-213 | In every run with `add` atomic all that parsed pairs and roots lead to is covered. |
| `CallGraph.NextLower` | internal/bpfsnoop/func_graph_parser.go:103-112 | Every step of every task lowers a well-founded rank, so discovery ends under every schedule, recursion in the call graph included. |
| `CallRaces.LossIff` | internal/bpfsnoop/func_graph_parser.go:328-443 | With `add` interrupted after the placeholder, some schedule loses a pair if and only if some traceable function is added at two depths, by a source that can come first, and all sources of the other depth can pass by meanwhile: a condition on call paths alone. |
| `CallRaces.InterruptedConfluent` | internal/bpfsnoop/func_graph_parser.go:328-443 | If no function is added at two depths, every finished run has parsed exactly the pairs with a bounded call path, with `add` interrupted too. |
| `CallRaces.LosingRun` | internal/bpfsnoop/func_graph_parser.go:333-346 | Wherever the condition holds, a schedule that loses the pair. |
| `CallRaces.LostShows` | internal/bpfsnoop/func_graph_parser.go:333-346 | Wherever a finished run has lost a pair, the condition holds. |
| `CallRaces.NextHistory` | internal/bpfsnoop/func_graph_parser.go:328-443 | What every step keeps of a function: not yet claimed, claimed by a task that can come first, or filled in at that task's depth. |
| `CallRaces.NextSteady` | internal/bpfsnoop/func_graph_parser.go:328-443 | Every step keeps claims, tasks and placeholders consistent. |
| `CallRaces.InterruptedAddLoses` | internal/bpfsnoop/func_graph_parser.go:333-346 | An example without extra roots or replaced programs: 1 calls 2 and 3, 2 calls 3, 3 calls 4; under one schedule (3, 1) and (4, 2) are lost and function 4 is not found at any depth. |
| `GraphParser.FuncGraphParser.CheckParsed` | internal/bpfsnoop/func_graph_parser.go:103-112 | Reports whether the pair was there and inserts it. |
| `GraphParser.FuncGraphParser.MarkUntraceable` | internal/bpfsnoop/func_graph_parser.go:322-326 | Inserts the address. |
| `GraphParser.FuncGraphParser.AddParse` | internal/bpfsnoop/func_graph_parser.go:445-449 | Queues exactly one task. |
| `GraphParser.FuncGraphParser.Add` | internal/bpfsnoop/func_graph_parser.go:328-443 | The method on the shared maps does exactly the atomic `add` of the state machine. |
| `GraphParser.FuncGraphParser.Parse` | internal/bpfsnoop/func_graph_parser.go:147-213 | A whole parse task is a schedule of the state machine, and does nothing for a pair parsed before. |
| `GraphParser.FuncGraphParser.Seed` | internal/bpfsnoop/func_graph.go:194-212 | Queues the roots at depth 0 and adds the extra ones at depth 1. |
| `GraphParser.FuncGraphParser.RunOne` | internal/bpfsnoop/func_graph_parser.go:445-449 | Running any queued task is a schedule of the state machine and brings the end nearer. |
| `GraphParser.FuncGraphParser.Discover` | internal/bpfsnoop/func_graph.go:191-217 | Ends with an empty queue and exactly the reachable pairs parsed. |
| `FlameGraph.FlameGraph.AddStack` | internal/bpfsnoop/flamegraph.go:36-66 | On the tree of heap frames: sibling names stay distinct, every frame is the one of its path, its value is the weight of the added stacks with that prefix, and the total is the total. |
| `FlameGraph.FlameGraph.GenerateFoldedStacks` | internal/bpfsnoop/flamegraph.go:70-107 | The recursive walk lists one line for every distinct added stack that does not end in a frame named `root`, with its total weight, and no other line; the lines are the added stacks themselves if and only if no frame is named `root`. |
| `FlameGraph.FoldedStacks` | internal/bpfsnoop/flamegraph.go:70-107 | The lines are exactly the distinct added stacks with their weights, each once, if and only if no added stack has a frame named `root` anywhere; then they sum to the total. |
| `FlameGraph.FoldedTotalIff` | internal/bpfsnoop/flamegraph.go:77-96 | The lines sum to the total if and only if no added stack ends in a frame named `root`; else weight is lost. |
| `FlameGraph.WeightSplits` | internal/bpfsnoop/flamegraph.go:81-85 | The value of a frame is the sum of its children's values plus the weight of the stacks that end there. |
| `FlameGraph.EndsTotal` | internal/bpfsnoop/flamegraph.go:70-107 | The weights at the ends of all shown paths sum to the shown total. |
| `FlameGraph.ShownTotalIff` | internal/bpfsnoop/flamegraph.go:77-96 | With positive values the shown total is the total if and only if no stack ends in a frame named `root`. |
| `FlameGraph.NameTreeGrows` | internal/bpfsnoop/flamegraph.go:56-64 | A new child keeps the tree a tree with distinct sibling names. |
| `FlameGraph.LinkedGrows` | internal/bpfsnoop/flamegraph.go:56-64 | A new frame keeps the frames in one-to-one correspondence with the paths, children in order. |
| `FlameGraph.FlameGraph.constructor` | internal/bpfsnoop/flamegraph.go:28-32 | The empty graph counts nothing. |
| `FlameGraph.FlameGraph.FindChild` | internal/bpfsnoop/flamegraph.go:47-54 | The first child of that name, if there is one. |
| `FlameGraph.FlameGraph.Descend` | internal/bpfsnoop/flamegraph.go:45-65 | One step down counts the value at that child alone, made if it was missing. |
| `FlameGraph.FlameGraph.NewChild` | internal/bpfsnoop/flamegraph.go:56-64 | The new frame stands for the longer path and every other frame is untouched. |
| `FlameGraph.FlameGraph.SelfValue` | internal/bpfsnoop/flamegraph.go:82-85 | The subtraction loop gives the weight of the stacks that end at the frame. |
| `FlameGraph.FlameGraph.Traverse` | internal/bpfsnoop/flamegraph.go:74-102 | The lines from a frame down are those of the shown paths below it, each once. |
| `StackWalk.TailCallData.TailCallee` | bpf/bpfsnoop_fgraph.c:143-175 | One round of the shared record is the walk over at most a hundred frames from where the last one stopped. |
| `StackWalk.TailCallData.TryGetSession` | bpf/bpfsnoop_fgraph.c:185-217 | Ten rounds compute the session and depth, or the give-up, of one walk over a thousand frames, and find a session if and only if the chain of frame pointers has it there. |
| `StackWalk.TryGetSessionLimited` | bpf/bpfsnoop_fgraph.c:110-141 | The limited loop is the walk over twice the depth, finds what the chain of frame pointers has there, and refuses depths above 10. |
| `StackWalk.FindsIff` | bpf/bpfsnoop_fgraph.c:143-175 | A walk over n frames finds a session at a depth if and only if it is the session of the first of those frames whose saved pointer has one, the depth is the number of frames before it that are no trampolines, and it is 0 or at most the largest depth. |
| `StackWalk.WalkMeans` | bpf/bpfsnoop_fgraph.c:143-175 | The same for the other outcomes: too deep at the first frame that counts one too many, and otherwise still under way at the n-th frame. |
| `StackWalk.OneWalk` | bpf/bpfsnoop_fgraph.c:143-175 | No two outcomes fit one chain of frames. |
| `StackWalk.WalkSplits` | bpf/bpfsnoop_fgraph.c:143-175 | A walk over m + n frames is a walk over n frames from where one over m stopped. |
| `StackWalk.LimitedFindsSame` | bpf/bpfsnoop_fgraph.c:110-141 | A session the limited walk finds is found by the tail-called walk at the same depth. |
| `StackWalk.DepthBounded` | bpf/bpfsnoop_fgraph.c:160-163 | A reported depth never exceeds the largest one. |
| `StackWalk.Decides` | bpf/bpfsnoop_fgraph.c:204-214 | Without two trampoline frames in a row, two frames for every level left decide the walk. |
| `StackWalk.DecidesIff` | bpf/bpfsnoop_fgraph.c:110-217 | A walk over n frames decides every such stack if and only if n is at least twice the largest depth plus one. |
| `StackWalk.BudgetIff` | bpf/bpfsnoop_fgraph.c:204-214 | So the thousand frames decide every such stack if and only if the largest depth is at most 499, and the limited walk does for no depth. |
| `StackWalk.LimitedMisses` | bpf/bpfsnoop_fgraph.c:127-138 | For every depth the limited walk accepts, 0 included, a stack whose session it misses and the tail-called walk finds, at that depth. |
| `Sessions.RunPaired` | internal/bpfsnoop/bpfsnoop.go:126-144 | Main result: over any interleaving of nested entries, exits, deliveries and refused events or sessions, unless the exit of a refused invocation takes the session an outer one left under the same frame, every printed exit is paired with the entry of its own invocation and shows exit minus entry modulo 2^32. |
| `Sessions.RunPrints` | internal/bpfsnoop/bpfsnoop.go:126-144 | In every such run no exit is printed twice, and without losses every accepted invocation that has ended and was not overwritten is printed with its own entry and duration, if that reaches the threshold, once the ring is drained. |
| `Sessions.RunBounded` | bpf/bpfsnoop_sess.h:16-28 | In every run the kernel's map holds at most 65536 sessions, and an accepted entry goes without one only if its frame has none and the map is full. |
| `Sessions.RunInStep` | bpf/bpfsnoop.c:97-122 | Over any run without loss, stolen sessions included, the reader's map, once drained, holds exactly the ids open in the kernel's map and those an inner entry overwrote, which stay for good. |
| `Sessions.EnterPaired` | bpf/bpfsnoop.c:97-106 | An entry, nested under the same frame or not, keeps all sessions and events truthful. |
| `Sessions.LeavePairedIff` | bpf/bpfsnoop.c:107-114 | An exit, tagged id - 1, keeps that if and only if it does not steal: the frame has no session, or the leaving invocation was not refused, or the event is dropped. |
| `Sessions.StealShows` | internal/bpfsnoop/bpfsnoop.go:126-144 | A stolen session is printed as a wrong pair once the ring is drained, if the entry event was not lost and the time passes the threshold. |
| `Sessions.StolenPair` | bpf/bpfsnoop.c:97-114 | An example: two invocations under one frame, the inner one refused; its exit is printed with the outer entry and the outer exit never. |
| `Sessions.AloneNotMisled` | bpf/bpfsnoop.c:97-114 | With one traced invocation at a time under each frame nothing is stolen. |
| `Sessions.DeliverPaired` | internal/bpfsnoop/bpfsnoop.go:126-144 | A delivery, looked up as tag + 1 modulo 2^64, keeps that. |
| `Sessions.ActInStep` | bpf/bpfsnoop_sess.h:24-46 | Every action keeps the two maps in step. |
| `Sessions.TagReturns` | internal/bpfsnoop/bpfsnoop.go:133-133 | The tag of every id, 0 included, leads back to it. |
| `Sessions.Tracer.AddSession` | bpf/bpfsnoop_sess.h:24-28 | Inserts or overwrites; a full map refuses a new key. |
| `Sessions.Tracer.GetAndDelSession` | bpf/bpfsnoop_sess.h:36-46 | Returns and removes the entry of that frame alone. |
| `Sessions.Tracer.EmitBpfsnoopEvent` | bpf/bpfsnoop.c:97-158 | The handler does exactly the kernel side of the protocol, filter refusals and failed reservations included. |
| `Sessions.Reader.Add` | internal/bpfsnoop/bpfsnoop_sess.go:23-33 | Stores the session under its id. |
| `Sessions.Reader.GetAndDel` | internal/bpfsnoop/bpfsnoop_sess.go:40-46 | Returns and removes the session of that id alone. |
| `Sessions.Reader.HandleRecord` | internal/bpfsnoop/bpfsnoop.go:126-144 | The handler does exactly the user side of the protocol, exits below the threshold dropped. |
| `Timestamps.BalancedCosts` | internal/bpfsnoop/bpfsnoop_graph.go:35-40 | Over balanced calls every exit costs its time minus the time of its own entry modulo 2^32, and the stack ends as it began. |
| `Timestamps.HandleThen` | internal/bpfsnoop/bpfsnoop_graph.go:35-40 | Costs and stack of two event lists compose. |
| `Timestamps.Session.constructor` | internal/bpfsnoop/bpfsnoop_sess.go:23-33 | A session starts with its own time on the stack. |
| `Timestamps.Session.LastTstamp` | internal/bpfsnoop/bpfsnoop_sess.go:48-50 | The top of the stack; the index is always right. |
| `Timestamps.Session.PushTstamp` | internal/bpfsnoop/bpfsnoop_sess.go:52-55 | Pushes and keeps the index one below the length. |
| `Timestamps.Session.PopTstamp` | internal/bpfsnoop/bpfsnoop_sess.go:57-63 | Pops but for the bottom, and keeps the index. |
| `Timestamps.Session.OutputGraphEvent` | internal/bpfsnoop/bpfsnoop_graph.go:35-40 | The cost is taken before the stack moves. |
| `Timestamps.Session.OutputGraphEvents` | internal/bpfsnoop/bpfsnoop_graph.go:29-55 | Any run of events, balanced or not, follows the reference and never empties the stack. |
| `Kallsyms.Kallsyms.AddLine` | internal/bpfsnoop/kallsyms.go:140-159 | One more symbol line keeps both maps, with their shared entry objects, describing the lines so far. |
| `Kallsyms.Kallsyms.Repeat` | internal/bpfsnoop/kallsyms.go:152-159 | A repeated name marks the first entry and the new one and extends the first one's list. |
| `Kallsyms.Kallsyms.First` | internal/bpfsnoop/kallsyms.go:156-159 | A new name becomes its own entry. |
| `Kallsyms.Kallsyms.DupedIff` | internal/bpfsnoop/kallsyms.go:152-158 | An entry reachable through either map is marked if and only if its name occurred more than once, and the entry of a name lists all its addresses in order. |
| `Kallsyms.Kallsyms.Index` | internal/bpfsnoop/kallsyms.go:236-257 | The binary search returns the greatest index whose address is not above the given one, exactly for addresses in range. |
| `Kallsyms.Kallsyms.Find` | internal/bpfsnoop/kallsyms.go:260-267 | The symbol with the greatest address not above the given one. |
| `Kallsyms.Kallsyms.Next` | internal/bpfsnoop/kallsyms.go:269-281 | The symbol with the least address above the given one. |
| `Splice.InjectReplacesOne` | internal/bpfsnoop/bpf_asm.go:30-43 | Injecting label-free code replaces exactly the stub's subprogram, whose first instruction keeps symbol and reference of the old one, and keeps the order and every other subprogram. |
| `Splice.InjectTwiceIff` | internal/bpfsnoop/bpf_asm.go:30-43 | A second injection overwrites the first if and only if the first code defines no symbol behind its first instruction. |
| `Splice.ClearRemoves` | internal/bpfsnoop/bpf_asm.go:45-53 | After clearing, no instruction defines or calls the stub. |
| `Splice.ClearLoads` | internal/bpfsnoop/bpf_asm.go:45-53 | After clearing a filter stub every former call of it loads 1, after an output stub 0, and every other instruction stays. |
| `Splice.ClearKeepsOthers` | internal/bpfsnoop/bpf_asm.go:45-53 | Every other subprogram keeps its place, length and instructions, calls of the stub rewritten, if and only if no remaining instruction but the first both defines a symbol and refers to the stub. |
| `Splice.ClearKeepsSymbolsIff` | internal/bpfsnoop/bpf_asm.go:45-53 | Every remaining symbol stays where it was if and only if no remaining instruction at all does so. |
| `Splice.WrapperMerges` | internal/bpfsnoop/bpf_asm.go:45-53 | An example: a wrapper that begins with the call of the stub is merged into the subprogram before it. |
| `Splice.SplitUnique` | internal/bpfsnoop/bpf_asm.go:11-28 | A program splits at a defined stub in one way, which is the one the index loops find. |
| `Splice.SplitExists` | internal/bpfsnoop/bpf_asm.go:11-28 | Every program that defines the stub splits. |
| `Splice.BlocksConcat` | internal/bpfsnoop/bpf_asm.go:20-28 | Subprograms of programs that are joined at a symbol. |
| `Splice.Program.FindStartIndex` | internal/bpfsnoop/bpf_asm.go:11-18 | The first instruction with that symbol, found if and only if there is one. |
| `Splice.Program.FindEndIndex` | internal/bpfsnoop/bpf_asm.go:20-28 | The last instruction before the next symbol or the end. |
| `Splice.Program.InjectInsns` | internal/bpfsnoop/bpf_asm.go:30-43 | The in-place splice is the specified one, and does nothing without the stub. |
| `Splice.Program.ClearSubprog` | internal/bpfsnoop/bpf_asm.go:45-53 | Splice and rewriting loop together are the specified clearing. |
| `Lbr.LbrStack.Get` | internal/bpfsnoop/bpfsnoop_lbr.go:75-79 | The records are the maximal call-stack runs of the reversed entries. |
| `Lbr.GroupedIs` | internal/bpfsnoop/lbr_stack.go:149-159 | Flattening the groups gives back the entries in order, every group is a chain, and none continues in the next one. |
| `Lbr.MaximalUnique` | internal/bpfsnoop/lbr_stack.go:149-159 | There is no other way to split a list into maximal runs. |
| `Lbr.WidthsExact` | internal/bpfsnoop/lbr_stack.go:104-112 | The kept widths are exact maxima of the entries' widths. |
| `Lbr.WidthsJoin` | internal/bpfsnoop/lbr_stack.go:175-193 | The widths of joined lists are the wider of both. |
| `Lbr.BranchRecord.AddEntry` | internal/bpfsnoop/lbr_stack.go:104-112 | Appends the entry, keeps the last index and the widths. |
| `Lbr.LbrStack.PushFirstEntry` | internal/bpfsnoop/lbr_stack.go:145-147 | Opens the first record. |
| `Lbr.LbrStack.PushEntry` | internal/bpfsnoop/lbr_stack.go:149-159 | Extends the last record exactly when the branch leaves the function the last one went to, else opens a new one. |
| `Lbr.LbrStack.GetFmt` | internal/bpfsnoop/lbr_stack.go:175-193 | The loops over the records give the maxima over all entries. |
| `Words.LeRoundTrip` | internal/bpfsnoop/bpfsnoop_func_args.go:132-138 | Little-endian bytes of a number denote it modulo their width. |
| `Words.LeValPrefix` | internal/cc/memory_access.go:533-561 | The first k bytes denote the value modulo 2^(8k). |
| `Words.BitsAt` | internal/cc/eval.go:229-256 | Every bit of `&`, `\|` and `^` is what the truth table says. |

## Left out

- Correctness.CompileRun: does not cover enum names as arms or condition of `?:` (`Correctness.EnumArmRun` says what an arm reads), nor a memory read that destroys a pending operand (`SpillExactness.ChainSafeIff` and `Discipline.PendingSafeIff` say which do).
- Correctness.CompileCondRun: enum names as arms or condition are excluded, as they are for `CompileRun`.
- Correctness.CompileAccessRun: the same restriction to reads that destroy no pending operand.
- Correctness.CompileExtends: which register the result gets is not part of it; `Discipline.StackOrder` says so for expressions that release registers in reverse order.
- Fragment.FilterMeans: asks that no mapped value at the end of a chain straddles unmapped memory (`CLang.ReadsWhole`); `Cuts.TruncatedReadIff` is the exact condition for one read. In direct mode the environment must meet no null pointer, as there is no label to go to.
- Fragment.FilterCorrect: an expression that calls a helper must be stack-like (`Discipline.StackLike`); for others the register sets of their calls decide (`SpillExactness.ChainSafeIff`), and `FilterMeans` applies where the code is safe.
- Fragment.SupportedMeans: indexing or dereferencing to an array type, array members of total size 1, 2 or 4, and a `void` array plus a constant are outside the fragment, as the compiler reads or cuts their address (`Fragment.ArrayElementReads`, `Cuts.CutKeepsIff`).
- CLang.ShapesAgree: where the compiler's type of an operand has another effect than C's, for example beside a result of `?:`, the expression is outside the fragment (`CLang.BinOk`).
- SpillExactness.ChainSafeIff: read-only casts marked as fast calls are taken to destroy R1 to R5 like any other helper.
- Spill.SpillPreservesIff: is about the spill code around one call; the register a chain is read into is the subject of `SpillExactness.ChainSafeIff`.
- Discipline.PendingSafeIff: covers expressions without a constant to the left of a shift, division or modulo by a register and without a constant condition of `?:`, after which the used registers are no longer the highest ones.
- Discipline.StackOrder: the same expressions, for the same reason.
- Discipline.TopAfter: the same expressions, for the same reason.
- Discipline.FilterCompiles: its statement about pending operands covers the same expressions.
- Compiler.CompileEvalExpr: the parsing of built-in calls and the checks of their operands come in as the given layout.
- Compiler.Compiler.constructor: the checks of the options and the lookup of kernel functions are inputs.
- Records.RecordsRoundTrip: direct mode is left out, as output records are never compiled in it; record offsets are at most 0x7FFF, the largest an instruction holds, and built-in sizes are not negative.
- FuncArgs.FuncArgsRoundTrip: at most 4095 parameters and offsets up to 0x7FFF, the largest an instruction holds.
- Records.OutputFuncArgAttrs: the formatting of packets, addresses, ports and integers is not modelled.
- OutputArgs.ArgDataOutput.MatchParams: the requests are already matched to the parameters of a function.
- CallRaces.LossIff: asks that no program that replaces another one is replaced itself (`CallRaces.Flat`), which the kernel refuses; the interruption modelled is the one between the placeholder and its filling in.
- GraphParser.FuncGraphParser.Add: the filters that make a function traceable are one verdict of the world.
- GraphParser.FuncGraphParser.Discover: tasks are run one at a time, and neither the deny list before nor the pruning after discovery is modelled.
- CallGraph.DiscoveryConfluent: asks that traceable kernel functions have distinct names, which the marking of repeated symbols provides, and that traceable functions have code.
- Sessions.RunPaired: invocations under one caller frame end in the reverse order of their begin, and ids of accepted entries are fresh within the run; session ids are otherwise arbitrary (the generator's mixing is not modelled). An exit program that the kernel skips is not modelled.
- Sessions.Reader.HandleRecord: only the session branch of the handler is modelled.
- Sessions.Tracer.EmitBpfsnoopEvent: the mode that traces entries or exits alone opens no session and is not modelled. The method reads the map entry before deleting it; the kernel program reads the freed element afterwards, which is taken to hold its old value.
- Display.RecordsShown: whether a result is text, a `const char *` or a `char` array, is part of the request, as types here have no qualifiers and no signedness.
- Kernel memory that is not mapped reads as zeros through the helpers and through cast pointers and the memory does not change during one program run.
- Programs jump forward only, which is all the compiler emits; endless programs are not part of the machine.
- A string that the string helper copies ends with its terminator; the bytes of its field behind it stay as they were, and readers stop at the terminator.
- Parsing of expressions and of built-in calls such as `buf` or `str`: the syntax tree, and for built-ins their argument with offset and size, are inputs. The packet, address, port, hex and integer built-ins have the block layout of `buf` and their formatting is not modelled.
- BTF: types are a small datatype with sizes, member offsets and bitfield positions; `typedef`s and qualifiers are one kind of name. The type that an expression of a cast names is an input.
- The byte encoding of instructions, that of `Neg` and of kfunc calls included. A read-only cast marked as a fast call gets the fewer spills the source gives it, but is taken to destroy R1 to R5 like any other helper.
- Chain offsets are unbounded integers; in the source they wrap at 64 bits, which leaves the low 32 bits that instructions keep unchanged.
- Printing, colours, value formatting, the joining of folded lines with `;`, and the matching of output requests to functions by variable name.
- Disassembly: the callees of a function and the replacement of a BPF program are inputs; include and exclude filters are part of what makes a function traceable.
- Errors and cancellation of the discovery tasks, data races below the granularity of the locks, and the deny list run before it.
- Kallsyms.Kallsyms.AddLine: module names and special symbols are left out.
- Lbr.LbrStack.Get: the entries are already trimmed to the traced program.
- Reading kallsyms lines, the sort of the addresses (the sorted list is a given of `Index`, `Find` and `Next`), and the suffix search of `findBySymbol`.
- Trimming of branch entries to the traced program before they are grouped, `appendRecord` and `reset`.
- Finding the frame pointers of a trampoline, packet tuples, kaslr, perf events, loading and attaching programs, flags and sysctl.
