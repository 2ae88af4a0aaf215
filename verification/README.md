# Verified models of the p4dra filter compiler and attestation core

The repository attests devices from a programmable switch. Two of its components are modelled
here in Dafny, and what they are for is proved for all inputs.

**The classic-BPF filter compiler** that every tool calls through `pcap_compile` (libpcap 1.10.4,
vendored with the prover service). Its four layers are the code generator, which threads unresolved
jumps through the blocks it builds; the optimizer, with its dataflow analyses and rewrites; the
layout of the block graph as an array with 8-bit offsets; and the validator and interpreter. Each
layer has a meaning-preservation theorem and they compose: `Compile.PcapCompile` for compilation
without the optimizer, as the tools call it, and `Optimizer.CompileWithPasses` with any number of
optimizer passes of both kinds.

With the optimizer on, `pcap_compile` does not keep the meaning of every filter:
`0 * len >= 0 and len > len` is false of every packet, and the optimized graph accepts every packet
of nonzero length (`StaleDeletion.MiscompileFilter`). `Optimizer.CompileWithPasses` states when the
passes are right.

**The Forró14 attestation core**: the cipher and its stream mode, the proof state that prover,
verifier and switch share, the switch's tables, and the two packet state machines.

| file | contents |
|---|---|
| `words.dfy` | 32-bit words, wrap-around, and their values as numbers |
| `bits.dfy` | the word operators against digits, powers of 2 and repeated sums |
| `bpf.dfy`, `opcodes.dfy` | instructions, interpreter, validator; the switch number by number |
| `cfg.dfy` | the block graph and its meaning |
| `layout.dfy` | count_stmts, convert_code_r, icode_to_fcode |
| `backpatch.dfy` | the exit lists threaded through JT/JF |
| `arith.dfy`, `gencode.dfy` | arithmetic code with register allocation; the code generator |
| `compile.dfy`, `filters.dfy` | the compiler end to end; what some filters select |
| `digraph.dfy`, `analysis.dfy` | paths and dominance; levels, dominators, edge dominators, closure |
| `liveness.dfy` | liveness and dead stores |
| `valnum.dfy`, `peep.dfy`, `rules.dfy` | value numbering; the peephole rules; what both simplify |
| `optblks.dfy`, `rewriting.dfy` | the hash table and a pass over the blocks; what the pass means |
| `freshness.dfy`, `stale.dfy` | when a statement pass is right; a filter it miscompiles |
| `threading.dfy`, `flip.dfy` | jump threading; where it goes wrong after the peephole step |
| `settling.dfy`, `plain.dfy` | any number of branch-moving passes; the graphs of filter expressions |
| `interning.dfy` | merging of equal blocks |
| `optimizer.dfy` | both kinds of passes composed with the layout and the code generator |
| `forro.dfy`, `vectors.dfy` | cipher and stream mode; its round as a flow of words, and a known answer |
| `hex.dfy`, `attestation.dfy` | text and byte order; proof, prover, verifier |
| `switch.dfy` | the switch's tables and device entries |

Conventions. Blocks live in a sequence and pointers are indices; C structures that the code updates
in place are classes. A failed packet load or a zero divisor in X makes the interpreter return 0 at
once: this outcome, `Reject`, is kept apart from a return of 0. Optimizer theorems speak of runs of
the original that do not reject, because deleting a dead load deletes its rejection; layout,
code generation and interning keep rejection too. Statements are `GoodStmt` when C defines their
effect: scratch indexes below 16, constant divisors not zero, constant shifts below 32.

Results that say where the code falls short of a promise one might expect:

- The validator accepts programs that trap or loop (`Bpf.AcceptedTraps`, `Bpf.AcceptedLoop`);
  `Bpf.StepSafe` says exactly which instructions trap.
- `gen_arth` refuses some expressions whose value is defined (`Arithmetic.RefusalIsNotDivisionByZero`);
  `Gencode.Compiler.CompileArith` says exactly which expressions compile.
- Value numbering is wrong when an unknown number becomes an operand, and for `ldx len`
  (`ValueNumbers.UnknownOperandFails`, `ValueNumbers.LdxLenFails`); `ValueNumbers.OperandsKnown` is
  a condition on the list that excludes both. The code generator never emits `ldx len`, so that list
  cannot reach the optimizer through `pcap_compile`.
- A statement pass is wrong when it deletes a definition as dead in one block and, in a later one,
  a definition of the same atom because the number is already there. This happens to a filter the
  generator accepts (`StaleDeletion.StaleDeletionFails`). The pass is right when every deletion is
  dead in the resulting graph (`Rewriting.AllFresh`); when no block that follows one which loses a
  definition of an atom drops its own, constants apart (`Freshness.Steady`); for graphs in which
  nothing is set twice (`Freshness.NoRedefinition`), among them those of expressions with at most
  one arithmetic comparison (`PlainFilters.Plain`); and always when it alters no statement
  (`Freshness.UnalteredKeepsRuns`). The first condition, and so all of them, is not necessary
  (`StaleDeletion.FreshNotNecessary`).
- A branch-moving pass is wrong when the peephole step has exchanged the sides of a branch, which it
  does where a mask is compared with 0, or has absorbed one of two equal subtractions
  (`FlippedSides.FlipFails`, `FlippedSides.MixedFails`); `Threading.Unflipped` and
  `Threading.Uniform` are the conditions, and generated graphs meet them unless a field test compares
  a mask with 0 (`PlainFilters.NonzeroMasks`).
- The optimizer refuses some programs that have a defined meaning (`ValueNumbers.ShiftRefused`);
  `ValueNumbers.OptListFails` says exactly which lists.
- Jump threading is wrong when a block reads a register of its predecessor
  (`Threading.BypassFails`); `Liveness.SelfContained` is the condition under which it is right, and
  generated code meets it (`Compile.ClosedIsSelfContained`).
- A request that reaches the prover service before its first setup ends it
  (`Attestation.EarlyRequestSilences`).
- The verifier selects the record by counting replies and never looks at the device id, so the
  guarantee is tied to the order of arrival (`Attestation.HonestRunsVerify`).

`dafny verify dfyconfig.toml` checks the project.

## Model

| member | source | states |
|---|---|---|
| `Bpf.DecodeEncode` | optee_dra/dra_service/host/include/libpcap1.10.4/bpf_filter.c:111-388 | Every operation of the intermediate form survives encoding into a 16-bit opcode and decoding by the interpreter's switch; the numbers themselves are fixed by the rows of `Opcodes` |
| `Bpf.RunIsSteps` | optee_dra/dra_service/host/include/libpcap1.10.4/bpf_filter.c:109-388 | A forward run is what iterating the interpreter loop computes, within as many iterations as instructions are left |
| `Bpf.FetchAbs` | optee_dra/dra_service/host/include/libpcap1.10.4/bpf_filter.c:121-169 | The guarded absolute loads return the big-endian field if all of it was captured, and reject otherwise |
| `Bpf.FetchInd` | optee_dra/dra_service/host/include/libpcap1.10.4/bpf_filter.c:179-203 | The indexed loads return the field at the unbounded sum of X and k: the 32-bit wrap-around of the index is never observable |
| `Bpf.ExecInsn` | optee_dra/dra_service/host/include/libpcap1.10.4/bpf_filter.c:111-388 | One instruction of the interpreter computes the straight-line semantics, rejection and undefined cases included |
| `Bpf.PcapFilter` | optee_dra/dra_service/host/include/libpcap1.10.4/bpf_filter.c:87-388 | For every accepted program and any number of iterations, the loop, which indexes program, packet and scratch memory directly, stays in bounds and is where the step semantics says: returned, rejected, stuck on a trapping instruction, or still running |
| `Bpf.ValidateFilter` | optee_dra/dra_service/host/include/libpcap1.10.4/bpf_filter.c:408-530 | The scanning loop accepts a program exactly when every instruction is acceptable and the last one is a return |
| `Bpf.StepSafe` | optee_dra/dra_service/host/include/libpcap1.10.4/bpf_filter.c:408-530 | A step of an accepted program is stuck if and only if the instruction is one of the trapping ones the validator lets through; otherwise pc stays inside, and for ja the unsigned check agrees with the signed jump |
| `Bpf.RunsStayInside` | optee_dra/dra_service/host/include/libpcap1.10.4/bpf_filter.c:408-530 | Over any number of steps an accepted program keeps pc inside; it can only get stuck if it contains a trapping instruction |
| `Bpf.ForwardRunsEnd` | optee_dra/dra_service/host/include/libpcap1.10.4/bpf_filter.c:237-243 | With non-negative ja offsets every run of an accepted program halts within its length |
| `Bpf.AcceptedLoop` | optee_dra/dra_service/host/include/libpcap1.10.4/bpf_filter.c:504-509 | An accepted program that never halts: a ja to itself |
| `Bpf.AcceptedTraps` | optee_dra/dra_service/host/include/libpcap1.10.4/bpf_filter.c:452-530 | Accepted programs on which the interpreter aborts or C leaves the result undefined: ret x, and a constant shift by 32 |
| `Bits.OpsBits` | optee_dra/dra_service/host/include/libpcap1.10.4/bpf_filter.c:301-311 | Digit by digit, the and, or and exclusive or of 32-bit words are conjunction, disjunction and difference |
| `Bits.ShiftLeftMultiplies` | optee_dra/dra_service/host/include/libpcap1.10.4/bpf_filter.c:313-318 | A left shift by n is multiplication by 2^n modulo 2^32 |
| `Bits.ShiftRightDivides` | optee_dra/dra_service/host/include/libpcap1.10.4/bpf_filter.c:320-325 | A right shift by n is division by 2^n |
| `Bits.TimesIsRepeated` | optee_dra/dra_service/host/include/libpcap1.10.4/bpf_filter.c:285-287 | The 32-bit product is what repeated 32-bit addition gives |
| `Opcodes.LoadOpcodes` | optee_dra/dra_service/host/include/libpcap1.10.4/bpf_filter.c:121-203 | What one iteration does at 0x20, 0x28, 0x30, 0x40, 0x48 and 0x50, in packet bytes: the big-endian word, half-word or byte at k or at X + k, or a rejection if it was not all captured |
| `Opcodes.RegisterOpcodes` | optee_dra/dra_service/host/include/libpcap1.10.4/bpf_filter.c:171-235 | The same for 0x00, 0x01, 0x02, 0x03, 0x07, 0x60, 0x61, 0x80, 0x81, 0x84, 0x87 and 0xb1: constants, lengths, scratch memory, moves, negation and the header length |
| `Opcodes.ReturnOpcodes` | optee_dra/dra_service/host/include/libpcap1.10.4/bpf_filter.c:115-243 | The same for 0x05 with its signed offset, 0x06 and 0x16 |
| `Opcodes.SumOpcodes` | optee_dra/dra_service/host/include/libpcap1.10.4/bpf_filter.c:277-337 | The same for 0x04, 0x0c, 0x14, 0x1c, 0x24 and 0x2c: sum, difference and product modulo 2^32 |
| `Opcodes.DivisionOpcodes` | optee_dra/dra_service/host/include/libpcap1.10.4/bpf_filter.c:289-345 | The same for 0x34, 0x3c, 0x94 and 0x9c: quotient and remainder, a zero X rejecting the packet |
| `Opcodes.ShiftOpcodes` | optee_dra/dra_service/host/include/libpcap1.10.4/bpf_filter.c:313-365 | The same for 0x64, 0x6c, 0x74 and 0x7c, in powers of 2, with a count over 31 in X giving 0 |
| `Opcodes.BitOpcodes` | optee_dra/dra_service/host/include/libpcap1.10.4/bpf_filter.c:301-357 | The same for 0x44, 0x4c, 0x54, 0x5c, 0xa4 and 0xac, by the digits of the new accumulator |
| `Opcodes.MaskShares` | optee_dra/dra_service/host/include/libpcap1.10.4/bpf_filter.c:257-275 | The test of jset holds exactly if both words have a 1 in the same place |
| `Opcodes.JumpOpcodes` | optee_dra/dra_service/host/include/libpcap1.10.4/bpf_filter.c:245-275 | Where 0x15, 0x1d, 0x25, 0x2d, 0x35, 0x3d, 0x45 and 0x4d go on, in =, >, >= and common digits |
| `Opcodes.OtherOpcodes` | optee_dra/dra_service/host/include/libpcap1.10.4/bpf_filter.c:111-114 | On every other opcode the interpreter aborts |
| `Opcodes.KnownAccepted` | optee_dra/dra_service/host/include/libpcap1.10.4/bpf_filter.c:423-519 | What the validator asks of each opcode the interpreter knows: scratch index below 16, constant divisor not 0, jump targets inside, and nothing else |
| `Opcodes.UnknownAccepted` | optee_dra/dra_service/host/include/libpcap1.10.4/bpf_filter.c:423-527 | Which of the other byte-sized opcodes it lets through |
| `Cfg.WalkAnyRank` | optee_dra/dra_service/host/include/libpcap1.10.4/optimize.c:2688-2854 | The meaning of an acyclic block graph does not depend on the ranking that witnesses acyclicity |
| `Cfg.ExecConcat` | optee_dra/dra_service/host/include/libpcap1.10.4/gencode.c:7274-7283 | Running appended statement lists is running one after the other |
| `Cfg.LiveExec` | optee_dra/dra_service/host/include/libpcap1.10.4/optimize.c:2434-2442 | Deleted statements do not contribute: the statements slength counts have the effect of the whole list |
| `Layout.Converter.CountStmts` | optee_dra/dra_service/host/include/libpcap1.10.4/optimize.c:2503-2512 | count_stmts returns the total size of the blocks it marks, and marks the smallest successor-closed set holding the root |
| `Layout.Converter.EmitBranch` | optee_dra/dra_service/host/include/libpcap1.10.4/optimize.c:2815-2852 | The branch, its long jumps and unused slots are written as the layout prescribes; on a distance over 255 without a long-jump slot exactly one longjt/longjf flag is set |
| `Layout.Converter.ConvertCodeR` | optee_dra/dra_service/host/include/libpcap1.10.4/optimize.c:2689-2854 | The recursive writer fills the array downwards without overlap, or fails after setting a flag that was clear |
| `Layout.Converter.IcodeToFcode` | optee_dra/dra_service/host/include/libpcap1.10.4/optimize.c:2876-2915 | The retry loop terminates because flags are never cleared; the array is filled exactly to the counted size with the root at index 0, from its end down in the order of the traversal, and up to 256 instructions without long jumps |
| `Layout.RunBlock` | optee_dra/dra_service/host/include/libpcap1.10.4/optimize.c:2689-2854 | From a block's offset the array runs the block and arrives at the successor's offset, directly or through one or two inserted jumps |
| `Layout.LayoutRefines` | optee_dra/dra_service/host/include/libpcap1.10.4/optimize.c:2688-2915 | Running the array from a block's offset gives the outcome of walking the graph from that block, for every packet and state |
| `Layout.LaidOutIsValid` | optee_dra/dra_service/host/include/libpcap1.10.4/optimize.c:2688-2915 | Every laid-out array of good statements is accepted by the validator, jumps only forward and contains no trapping instruction |
| `Layout.FlattenGraph` | optee_dra/dra_service/host/include/libpcap1.10.4/optimize.c:2863-2915 | For every acyclic graph: the produced program is valid, its run equals the walk of the graph on every packet and state, and it consists of the blocks' code, placed from the end down in the order false side, true side, block |
| `Backpatch.AndJoins` | optee_dra/dra_service/host/include/libpcap1.10.4/gencode.c:907-1007 | gen_and on disjoint fragments keeps the representation invariant (two finite lists that share only the representative and hold exactly the unresolved exits) and joins the fragments |
| `Backpatch.NotWellformed` | optee_dra/dra_service/host/include/libpcap1.10.4/gencode.c:1020-1023 | gen_not, by flipping one bit, keeps the invariant with the two lists exchanged |
| `Backpatch.NotRuns` | optee_dra/dra_service/host/include/libpcap1.10.4/gencode.c:1020-1023 | After gen_not a run leaves by the opposite exit |
| `Backpatch.OrWellformed` | optee_dra/dra_service/host/include/libpcap1.10.4/gencode.c:1010-1017 | gen_or keeps the representation invariant |
| `Backpatch.OrRuns` | optee_dra/dra_service/host/include/libpcap1.10.4/gencode.c:1010-1017 | After gen_or a run leaves by a true exit of the first fragment or goes on with the second |
| `Backpatch.RunFirst` | optee_dra/dra_service/host/include/libpcap1.10.4/gencode.c:999-1007 | After gen_and a run of the first fragment continues in the second exactly at its true exits |
| `Backpatch.FrameRuns` | optee_dra/dra_service/host/include/libpcap1.10.4/gencode.c:907-939 | A fragment's behaviour does not change when blocks outside it are added or rewired |
| `Arithmetic.NumberComputes` | optee_dra/dra_service/host/include/libpcap1.10.4/gencode.c:7686-7717 | The list for a constant leaves it in its register and keeps the registers in use |
| `Arithmetic.LengthComputes` | optee_dra/dra_service/host/include/libpcap1.10.4/gencode.c:7661-7683 | The list for the packet length |
| `Arithmetic.LoadComputes` | optee_dra/dra_service/host/include/libpcap1.10.4/gencode.c:7313-7600 | The list for a packet load computes the index, loads or rejects, and keeps the registers in use |
| `Arithmetic.NegComputes` | optee_dra/dra_service/host/include/libpcap1.10.4/gencode.c:7725-7747 | The list for a negation |
| `Arithmetic.BinaryComputes` | optee_dra/dra_service/host/include/libpcap1.10.4/gencode.c:7755-7802 | The list for a binary operator: left operand first, the right one not disturbing the left register; rejects exactly when the value is undefined |
| `Arithmetic.RefusalIsNotDivisionByZero` | optee_dra/dra_service/host/include/libpcap1.10.4/gencode.c:7755-7802 | 1 / (0 + 1) has the value 1 but is refused as a division by zero: the check reads only the first statement of the right operand |
| `Arithmetic.ConstantOperands` | optee_dra/dra_service/host/include/libpcap1.10.4/gencode.c:7755-7802 | A constant right operand is refused exactly if C does not define the operation for it: a zero divisor, a shift by more than 31 |
| `Arithmetic.WideShiftCompiles` | optee_dra/dra_service/host/include/libpcap1.10.4/gencode.c:7755-7802 | `ether[0] << (16 + 16)` is accepted by gen_arth and has the value 0 |
| `Arithmetic.BinarySupplies` | optee_dra/dra_service/host/include/libpcap1.10.4/gencode.c:7755-7802 | Code for a binary operator reads no register or scratch word that it did not set itself |
| `Gencode.Compiler.AllocReg` | optee_dra/dra_service/host/include/libpcap1.10.4/gencode.c:7818-7832 | alloc_reg fails exactly when all sixteen registers are in use, and otherwise hands out a free one |
| `Gencode.Compiler.FreeReg` | optee_dra/dra_service/host/include/libpcap1.10.4/gencode.c:7839-7842 | The register becomes free and the number of free registers grows by one |
| `Gencode.Compiler.GenLoad` | optee_dra/dra_service/host/include/libpcap1.10.4/gencode.c:7589-7600 | gen_load needs a second register while the first is held, and gives one back |
| `Gencode.Compiler.GenArth` | optee_dra/dra_service/host/include/libpcap1.10.4/gencode.c:7755-7802 | gen_arth fails exactly on its refusals; otherwise the appended code computes the operation and one register is left in use |
| `Gencode.Compiler.CompileArith` | optee_dra/dra_service/host/include/libpcap1.10.4/gencode.c:7312-7842 | An arithmetic tree compiles exactly when no operator is refused and enough registers are free; the code leaves the 32-bit value in M[regno] or rejects, and no register in use changes |
| `Gencode.Compiler.Backpatch` | optee_dra/dra_service/host/include/libpcap1.10.4/gencode.c:908-922 | Every block on the list gets the target in the field that was its link, and nothing else changes |
| `Gencode.Compiler.Merge` | optee_dra/dra_service/host/include/libpcap1.10.4/gencode.c:929-939 | Only the end of the first list changes: it continues with the second |
| `Gencode.Compiler.GenAnd` | optee_dra/dra_service/host/include/libpcap1.10.4/gencode.c:999-1007 | The mutation performed is the one whose meaning is proved |
| `Gencode.Compiler.GenOr` | optee_dra/dra_service/host/include/libpcap1.10.4/gencode.c:1010-1017 | The mutation performed is the one whose meaning is proved |
| `Gencode.Compiler.GenNot` | optee_dra/dra_service/host/include/libpcap1.10.4/gencode.c:1020-1023 | Only the sense bit of the representative changes |
| `Gencode.Compiler.GenNcmp` | optee_dra/dra_service/host/include/libpcap1.10.4/gencode.c:1110-1131 | The block for a masked field comparison leaves by its true exit exactly when the comparison holds |
| `Gencode.Compiler.GenBcmp` | optee_dra/dra_service/host/include/libpcap1.10.4/gencode.c:1068-1101 | The chain of word, half-word and byte tests, built from the end, is true exactly when all bytes are equal |
| `Gencode.Compiler.GenRelation` | optee_dra/dra_service/host/include/libpcap1.10.4/gencode.c:7603-7658 | A relation between two compiled operands tests their values, and both registers are given back |
| `Gencode.RelationContained` | optee_dra/dra_service/host/include/libpcap1.10.4/gencode.c:7603-7658 | A relation's block sets every register that its statements and its test read |
| `Gencode.AndMeans` | optee_dra/dra_service/host/include/libpcap1.10.4/gencode.c:999-1007 | gen_and of fragments meaning d and e means left-to-right short-circuit conjunction |
| `Gencode.OrMeans` | optee_dra/dra_service/host/include/libpcap1.10.4/gencode.c:1010-1017 | gen_or means short-circuit disjunction |
| `Gencode.NotMeans` | optee_dra/dra_service/host/include/libpcap1.10.4/gencode.c:1020-1023 | gen_not means negation, rejection included |
| `Gencode.Compiler.CompileExpr` | optee_dra/dra_service/host/include/libpcap1.10.4/gencode.c:907-1131 | Every accepted expression yields a well-formed fragment with its meaning, and leaves the register file as it was |
| `Gencode.Compiler.FinishParse` | optee_dra/dra_service/host/include/libpcap1.10.4/gencode.c:942-996 | True exits lead to a return of the snapshot length, false exits to a return of 0 |
| `Gencode.ClosedSide` | optee_dra/dra_service/host/include/libpcap1.10.4/gencode.c:942-996 | After finish_parse every side of every block leads to its resolved target or to the return block of its exit |
| `Compile.ClosedIsGraph` | optee_dra/dra_service/host/include/libpcap1.10.4/gencode.c:942-996 | The closed fragment is an acyclic graph of good blocks |
| `Compile.WalkIsRunFrag` | optee_dra/dra_service/host/include/libpcap1.10.4/gencode.c:942-996 | Walking that graph is running the fragment and returning by the exit taken |
| `Compile.ClosedIsSelfContained` | optee_dra/dra_service/host/include/libpcap1.10.4/gencode.c:942-996 | Every generated block sets what it reads, and no edge leads back to the first block |
| `Compile.GenerateCode` | optee_dra/dra_service/host/include/libpcap1.10.4/gencode.c:716-865 | The graph of an accepted expression is acyclic and self-contained, consists of the tests of the expression, as many as it calls for, and two returns, and walking it returns the snapshot length, 0 or a rejection exactly as left-to-right evaluation says |
| `Compile.PcapCompile` | optee_dra/dra_service/host/include/libpcap1.10.4/gencode.c:716-865 | End to end, without the optimizer: compilation fails exactly on a zero snapshot length or a refused expression; otherwise the valid program is the layout of the generated graph and returns the snapshot length exactly when left-to-right evaluation is true, 0 when false, and rejects exactly when evaluation rejects |
| `Compile.CompileServiceFilter` | optee_dra/dra_service/host/main.c:266-300 | The filter "ether proto 0x1234" compiles to the four instructions 0x28 12, 0x15 0x1234 with offsets 0 and 1, 0x06 176 and 0x06 0, and passes 176 bytes of exactly the frames with bytes 12 and 13 equal to 0x12 0x34 |
| `Filters.CompileLengthTest` | optee_dra/dra_service/host/include/libpcap1.10.4/gencode.c:7603-7658 | The programs for len = n, len > n, len >= n and their negations return the snapshot length exactly for the packets whose length is so, for every n |
| `Filters.CompileMaskTest` | optee_dra/dra_service/host/include/libpcap1.10.4/gencode.c:7603-7658 | The program for ether[i] & m != 0 accepts exactly the packets whose byte i has a digit in common with m, and rejects those without byte i |
| `Filters.CompileShiftTest` | optee_dra/dra_service/host/include/libpcap1.10.4/gencode.c:7603-7658 | The program for ether[i] >> n = v accepts exactly the packets whose byte i divided by 2^n is v |
| `Filters.CompileByteTest` | optee_dra/dra_service/host/include/libpcap1.10.4/gencode.c:1110-1131 | The program of a byte test, in =, <=, <, >, >= and common digits; only the orderings are reversed |
| `Digraph.DominatesStep` | optee_dra/dra_service/host/include/libpcap1.10.4/optimize.c:419-454 | A node other than a root is dominated by itself and by what dominates all its predecessors |
| `Digraph.ReachesStep` | optee_dra/dra_service/host/include/libpcap1.10.4/optimize.c:506-527 | Reachability in terms of predecessors |
| `Analysis.Analyzer.FindLevels` | optee_dra/dra_service/host/include/libpcap1.10.4/optimize.c:378-412 | After leveling, the lists hold exactly the blocks reachable from the root, each once, under the length of its longest path to a leaf |
| `Analysis.Analyzer.FindDom` | optee_dra/dra_service/host/include/libpcap1.10.4/optimize.c:419-454 | For every reachable block, bit a of dom(b) is set if and only if a lies on every path from the root to b |
| `Analysis.Analyzer.FindEdom` | optee_dra/dra_service/host/include/libpcap1.10.4/optimize.c:457-496 | For every edge leaving a reachable block, edom holds exactly the edges on every edge path from the root |
| `Analysis.Analyzer.FindClosure` | optee_dra/dra_service/host/include/libpcap1.10.4/optimize.c:506-527 | closure(b) holds exactly the reachable blocks from which b can be reached |
| `Liveness.ExecAgree` | optee_dra/dra_service/host/include/libpcap1.10.4/optimize.c:539-610 | A statement depends only on the atoms atomuse reports and changes only the one atomdef reports |
| `Liveness.LiveInReads` | optee_dra/dra_service/host/include/libpcap1.10.4/optimize.c:624-679 | Backward propagation through a list computes exactly the atoms read before being defined |
| `Liveness.LiveAtStep` | optee_dra/dra_service/host/include/libpcap1.10.4/optimize.c:685-707 | Some path from a block reads an atom before defining it exactly when the dataflow equation says so |
| `Liveness.ComputeLocalUd` | optee_dra/dra_service/host/include/libpcap1.10.4/optimize.c:624-679 | in_use is what the block reads before defining, def what it defines, kill their difference |
| `Liveness.FindUd` | optee_dra/dra_service/host/include/libpcap1.10.4/optimize.c:685-707 | in_use and out_use of every reachable block are exact: an atom is in out_use if and only if some path from a successor reads it before defining it |
| `Liveness.DeadRemovalSafe` | optee_dra/dra_service/host/include/libpcap1.10.4/optimize.c:1427-1476 | Deleting definitions that nothing left needs keeps all needed atoms on every run that does not reject, from any two states that agree on what the remaining statements need |
| `Liveness.OptDeadstores` | optee_dra/dra_service/host/include/libpcap1.10.4/optimize.c:1427-1476 | opt_deadstores deletes exactly the dead definitions: those that the rest of the list, the branch and out_use do not read |
| `Liveness.FateIsLive` | optee_dra/dra_service/host/include/libpcap1.10.4/optimize.c:1427-1476 | A value is needed exactly when the scan finds it read first, or untouched and needed afterwards |
| `Liveness.DeadstoresKeepRuns` | optee_dra/dra_service/host/include/libpcap1.10.4/optimize.c:1455-1476 | With exact live-out sets, stripping every block keeps the result of every run that does not reject |
| `Liveness.StripDeadStores` | optee_dra/dra_service/host/include/libpcap1.10.4/optimize.c:624-707 | Levels, liveness and dead-store removal from the root down strip every reachable block of exactly its dead definitions and keep the result of every non-rejecting run, on all packets and states |
| `ValueNumbers.DenNumber` | optee_dra/dra_service/host/include/libpcap1.10.4/optimize.c:727-766 | The number F returns stands for the entry's run-time value, whether found or new |
| `ValueNumbers.DenPrefix` | optee_dra/dra_service/host/include/libpcap1.10.4/optimize.c:727-766 | Entering values never changes what an older number stands for |
| `ValueNumbers.ConstDen` | optee_dra/dra_service/host/include/libpcap1.10.4/optimize.c:751-756 | A number marked constant stands for that constant on every packet |
| `ValueNumbers.IndIsAbs` | optee_dra/dra_service/host/include/libpcap1.10.4/optimize.c:1202-1219 | An indexed load from a known index is the absolute load at the 32-bit sum on every run that does not reject |
| `ValueNumbers.OptAluKRight` | optee_dra/dra_service/host/include/libpcap1.10.4/optimize.c:1267-1316 | The constant-operand rules: zero identities, folding, and numbering |
| `ValueNumbers.OptAluXRight` | optee_dra/dra_service/host/include/libpcap1.10.4/optimize.c:1318-1378 | The register-operand rules: folding, conversion to a constant operand, zero accumulator |
| `ValueNumbers.OptStmtRight` | optee_dra/dra_service/host/include/libpcap1.10.4/optimize.c:1188-1424 | For every case of opt_stmt: the rewritten statement has the same effect and the new numbers are right, if its operands have known numbers |
| `ValueNumbers.OptStmtShape` | optee_dra/dra_service/host/include/libpcap1.10.4/optimize.c:1188-1424 | A statement adds at most two entries, a deleted one none; without alteration the statement is unchanged |
| `ValueNumbers.OptListRight` | optee_dra/dra_service/host/include/libpcap1.10.4/optimize.c:1188-1424 | Over a list whose operands have known numbers, the altered list leaves the same A, X and scratch memory on every non-rejecting run, and equal known numbers mean equal values |
| `ValueNumbers.OptListShape` | optee_dra/dra_service/host/include/libpcap1.10.4/optimize.c:1188-1424 | The table grows by at most two entries per remaining statement, and no statement is added |
| `ValueNumbers.SelfContainedKnown` | optee_dra/dra_service/host/include/libpcap1.10.4/optimize.c:1188-1424 | Lists that read nothing they did not define meet the condition on operands |
| `ValueNumbers.UnknownOperandFails` | optee_dra/dra_service/host/include/libpcap1.10.4/optimize.c:1202-1219 | Without the condition the rewriting is wrong: two indexed loads under different unknown indexes are merged |
| `ValueNumbers.LdxLenFails` | optee_dra/dra_service/host/include/libpcap1.10.4/optimize.c:1188-1424 | opt_stmt has no case for ldx len, so a needed reload of X is deleted |
| `ValueNumbers.UnknownOperandHarmless` | optee_dra/dra_service/host/include/libpcap1.10.4/optimize.c:1188-1424 | The condition on operands is sufficient, not necessary: an unknown operand by itself changes nothing |
| `ValueNumbers.OptListLeaner` | optee_dra/dra_service/host/include/libpcap1.10.4/optimize.c:1188-1424 | A rewritten statement is deleted, or defines what the original defines and uses no more |
| `ValueNumbers.StrippedSound` | optee_dra/dra_service/host/include/libpcap1.10.4/optimize.c:1479-1583 | The numbers computed before dead stores go are right in the state the remaining statements leave, for everything needed afterwards, also on packets only a deleted load would reject |
| `ValueNumbers.OptStmtFails` | optee_dra/dra_service/host/include/libpcap1.10.4/optimize.c:1318-1346 | opt_stmt fails exactly on a known zero divisor of a known dividend and on a known shift count over 31 of an unknown value |
| `ValueNumbers.OptListFails` | optee_dra/dra_service/host/include/libpcap1.10.4/optimize.c:1188-1424 | The rewriting of a list fails exactly when some statement is refused with the numbers the statements before it leave |
| `ValueNumbers.RefusedDivisorRejects` | optee_dra/dra_service/host/include/libpcap1.10.4/optimize.c:782-812 | A statement refused for its divisor rejects every packet in every state its numbers describe |
| `ValueNumbers.ShiftRefused` | optee_dra/dra_service/host/include/libpcap1.10.4/optimize.c:1336-1340 | A shift by a known 32 has a defined result on the machine and is refused |
| `ValueNumbers.LastAluNumber` | optee_dra/dra_service/host/include/libpcap1.10.4/optimize.c:1267-1378 | When only deleted statements follow an arithmetic statement, the number the list leaves in the accumulator is an entry for that operator and operand, so never a constant |
| `Peephole.PeepList` | optee_dra/dra_service/host/include/libpcap1.10.4/optimize.c:892-946 | The loop over neighbouring statements makes exactly the two rewrites (`st M[k]; ldx M[k]` to `tax`, `ld #k; tax` to `ldx #k; txa`), and leaves in `last` the last of two or more statements, otherwise the head of the list |
| `Peephole.PeepKeeps` | optee_dra/dra_service/host/include/libpcap1.10.4/optimize.c:920-946 | The rewrites of neighbours keep what a list does in every state and on every packet, and what it needs |
| `Peephole.MergeKeeps` | optee_dra/dra_service/host/include/libpcap1.10.4/optimize.c:1034-1117 | Moving the last subtraction or mask into the branch, sides exchanged for a mask, keeps the way out of the block; X and scratch memory are kept, and the accumulator lacks exactly what was moved |
| `Peephole.KnownKeeps` | optee_dra/dra_service/host/include/libpcap1.10.4/optimize.c:1118-1178 | The rules for `jset #0`, for a known X and for a known accumulator keep the side that is taken, where the numbers are right |
| `Peephole.PeepRight` | optee_dra/dra_service/host/include/libpcap1.10.4/optimize.c:892-1178 | All of opt_peep together, on a block that has run: the same way out, X and scratch memory kept, the accumulator kept unless a statement was moved into the branch |
| `Peephole.PeepNeeds` | optee_dra/dra_service/host/include/libpcap1.10.4/optimize.c:892-1178 | The block opt_peep leaves needs no atom that the original did not, and not X where X is a known constant |
| `Peephole.AllOnesTaken` | optee_dra/dra_service/host/include/libpcap1.10.4/optimize.c:1118-1127 | `jset #ffffffff` is taken exactly when the accumulator is not 0: the rule that makes it unconditional is wrong for 0 |
| `Peephole.IndexSum` | optee_dra/dra_service/host/include/libpcap1.10.4/optimize.c:948-1031 | Folding `ld #k; add x; tax; ld [x+j]` into one load is right where neither sum wraps; where the index wraps round, the folded load rejects every packet |
| `Peephole.IndexSumFails` | optee_dra/dra_service/host/include/libpcap1.10.4/optimize.c:948-1031 | With 1 in X and k = 0xffffffff the original list reads byte 0 and the folded one rejects the packet |
| `Rules.ConstantsFold` | optee_dra/dra_service/host/include/libpcap1.10.4/optimize.c:1312-1344 | An operator of known values becomes a load of its result, or goes if the accumulator has that value already, and the result is known afterwards |
| `Rules.CopiesFold` | optee_dra/dra_service/host/include/libpcap1.10.4/optimize.c:1241-1414 | The negation of a known value and the load of a scratch word with one become loads of constants |
| `Rules.IndexFolds` | optee_dra/dra_service/host/include/libpcap1.10.4/optimize.c:1202-1219 | An indexed load from a known index is treated as the absolute load at the 32-bit sum |
| `Rules.KnownXFolds` | optee_dra/dra_service/host/include/libpcap1.10.4/optimize.c:1318-1350 | An operator with a known X takes it as its constant; a shift by more than 31 is refused |
| `Rules.ZeroFolds` | optee_dra/dra_service/host/include/libpcap1.10.4/optimize.c:1351-1378 | With 0 in the accumulator, adding X is a move, and other operators but subtraction leave 0 |
| `Rules.NeutralGoes` | optee_dra/dra_service/host/include/libpcap1.10.4/optimize.c:1277-1310 | Adding or shifting by a constant 0 is deleted, and multiplying or masking by it gives 0 |
| `Rules.SubtractionStays` | optee_dra/dra_service/host/include/libpcap1.10.4/optimize.c:1280-1288 | Subtracting a constant 0 from an unknown accumulator is kept, unlike adding it |
| `Rules.RepeatsGo` | optee_dra/dra_service/host/include/libpcap1.10.4/optimize.c:769-775 | A statement that gives its atom the number it already has is deleted |
| `Rules.SecondLoadGoes` | optee_dra/dra_service/host/include/libpcap1.10.4/optimize.c:1195-1239 | Loading the same field, length or constant again is deleted |
| `Rules.ReloadMoves` | optee_dra/dra_service/host/include/libpcap1.10.4/optimize.c:920-933 | A store followed by a reload of X from the same word becomes a store and a move |
| `Rules.ConstantMoves` | optee_dra/dra_service/host/include/libpcap1.10.4/optimize.c:934-946 | A constant moved to X is loaded there and moved back |
| `Rules.EquationsAbsorb` | optee_dra/dra_service/host/include/libpcap1.10.4/optimize.c:1032-1117 | An equation whose accumulator no one needs absorbs the subtraction before it, with its sides as they were, or the mask, with its sides exchanged |
| `Rules.KnownBranches` | optee_dra/dra_service/host/include/libpcap1.10.4/optimize.c:1118-1179 | jset #0 leads to the false side, a known X becomes the constant operand, and a test of known values leads to the side it decides |
| `Rules.IdleBlocksClear` | optee_dra/dra_service/host/include/libpcap1.10.4/optimize.c:1557-1569 | A pass that alters statements empties returns and blocks that change nothing anyone uses |
| `StatementPass.ValueTable.F` | optee_dra/dra_service/host/include/libpcap1.10.4/optimize.c:727-766 | The hash chains implement the numbered table: the entry is found wherever it is, or filed with the next number, and vmap marks exactly the constants; every index is inside the allocated arrays |
| `StatementPass.ValueTable.RewriteStmt` | optee_dra/dra_service/host/include/libpcap1.10.4/optimize.c:1188-1424 | The mutating opt_stmt computes the rewriting whose soundness is proved, including its error exits |
| `StatementPass.RewriteList` | optee_dra/dra_service/host/include/libpcap1.10.4/optimize.c:1528-1529 | The loop over a block's statements computes the list rewriting |
| `StatementPass.OptPeep` | optee_dra/dra_service/host/include/libpcap1.10.4/optimize.c:892-1178 | The branches of opt_peep, reading vmap, compute the block whose meaning is proved in Peephole.PeepRight |
| `StatementPass.OptBlk` | optee_dra/dra_service/host/include/libpcap1.10.4/optimize.c:1479-1583 | opt_blk: statements rewritten from the entry numbers, then the block cleared (a return, or A and X unchanged and out_use empty), or the peephole rules applied and then the dead stores deleted, and the new branch operand numbered; it fails exactly when the rewriting of the list does, or when opt_peep meets a return with statements that leave a known accumulator |
| `StatementPass.FindInedges` | optee_dra/dra_service/host/include/libpcap1.10.4/optimize.c:2128-2154 | The incoming edge lists hold exactly the edges from reachable blocks |
| `StatementPass.MergeIn` | optee_dra/dra_service/host/include/libpcap1.10.4/optimize.c:1494-1525 | A number is known on entry exactly when there is a predecessor and all predecessors leave with it |
| `StatementPass.OptBlks` | optee_dra/dra_service/host/include/libpcap1.10.4/optimize.c:2078-2089 | Either every reachable block is processed from exactly the numbers common to its predecessors, or the pass stops at a block that opt_blk fails on; curval stays below maxval = 3 * max_stmts throughout, in both modes |
| `Rewriting.RewrittenRuns` | optee_dra/dra_service/host/include/libpcap1.10.4/optimize.c:1479-1583 | Original and rewritten statements of a block have the same effect where the entry numbers are right, and the exit numbers are right |
| `Rewriting.PeepholeKeeps` | optee_dra/dra_service/host/include/libpcap1.10.4/optimize.c:1569-1572 | For the numbers of a pass, opt_peep keeps the way out of every block |
| `Rewriting.BlockSimulates` | optee_dra/dra_service/host/include/libpcap1.10.4/optimize.c:1479-1583 | What is left of a block, run in a state that agrees on what it needs, leaves it for the same successor and agrees afterwards on everything live in the resulting graph |
| `Rewriting.PassKeepsRuns` | optee_dra/dra_service/host/include/libpcap1.10.4/optimize.c:2078-2103 | With known operands and no needed deletion, in either mode, the resulting graph returns what the original returns on every non-rejecting run |
| `Rewriting.PassShrinks` | optee_dra/dra_service/host/include/libpcap1.10.4/optimize.c:2651-2659 | No pass adds statements, so the bound computed once by opt_init holds for later passes |
| `Rewriting.RefusalCause` | optee_dra/dra_service/host/include/libpcap1.10.4/optimize.c:1138-1178 | A pass stops only at a division or shift by X if it alters statements, and only at a return with statements if it does not |
| `Freshness.ConstUnread` | optee_dra/dra_service/host/include/libpcap1.10.4/optimize.c:1188-1424 | Every use of an atom with a constant number is rewritten away, except `txa`, `stx` and uses of the accumulator: if it is needed, then after the list |
| `Freshness.RewriteNeeds` | optee_dra/dra_service/host/include/libpcap1.10.4/optimize.c:1188-1424 | A rewritten list needs an atom only if the original does, unless a definition of it was deleted on the strength of a number that is not constant |
| `Freshness.LiveKept` | optee_dra/dra_service/host/include/libpcap1.10.4/optimize.c:1479-1583 | Where no such definition is dropped before another remains, an atom is live after the pass only if it was before |
| `Freshness.SteadyIsFresh` | optee_dra/dra_service/host/include/libpcap1.10.4/optimize.c:1479-1583 | If no block after one that loses its definition of an atom drops its own, nothing the pass deletes is needed |
| `Freshness.NoRedefinitionIsSteady` | optee_dra/dra_service/host/include/libpcap1.10.4/optimize.c:1479-1583 | A condition on the graph before the pass that makes it steady: X and scratch words a block sets for itself are not set again later, and no branch absorbs a statement |
| `Freshness.UnalteredKeepsRuns` | optee_dra/dra_service/host/include/libpcap1.10.4/optimize.c:2078-2089 | With do_stmts clear the first loop of a pass, peephole rules and dead stores included, keeps every non-rejecting run wherever operands are known |
| `Freshness.OptimizeStatements` | optee_dra/dra_service/host/include/libpcap1.10.4/optimize.c:2078-2103 | A pass with do_stmts set, from the root: it succeeds unless a statement is refused, in particular whenever there are no divisions and shifts by X; with known operands every non-rejecting run keeps its result if nothing needed is deleted, in particular if the pass is steady, in particular under the condition on the graph |
| `Threading.AnyState` | optee_dra/dra_service/host/include/libpcap1.10.4/optimize.c:1693-1796 | A block that uses no register from its predecessors rejects and branches independently of the state it is entered in |
| `Threading.LeftAlike` | optee_dra/dra_service/host/include/libpcap1.10.4/optimize.c:1479-1583 | What such a pass leaves of a self-contained block passes every packet the block passes, from any state, and its test comes out the same, unless the sides were exchanged |
| `Threading.NumberedRight` | optee_dra/dra_service/host/include/libpcap1.10.4/optimize.c:1479-1583 | In a pass that alters nothing, for every packet a self-contained block passes, its branch compares the values with the numbers kept for it, the left operand of an absorbed subtraction standing for the accumulator, and decides as the original block |
| `Threading.SameTestSameSide` | optee_dra/dra_service/host/include/libpcap1.10.4/optimize.c:1614-1686 | Equal opcodes with equal numbers take the same side; for jeq with different constants the taken true side of one excludes that of the other |
| `Threading.UseConflict` | optee_dra/dra_service/host/include/libpcap1.10.4/optimize.c:1591-1604 | True exactly when some atom used on exit from the target has different numbers |
| `Threading.FoldJustified` | optee_dra/dra_service/host/include/libpcap1.10.4/optimize.c:1614-1686 | When fold_edge names a target for a dominating edge, every run that takes the edge goes on there |
| `Threading.MoveKeeps` | optee_dra/dra_service/host/include/libpcap1.10.4/optimize.c:1693-1796 | Moving an edge keeps every non-rejecting run although edge dominators are those of the original graph: runs leave the blocks above as they did originally |
| `Threading.OptJ` | optee_dra/dra_service/host/include/libpcap1.10.4/optimize.c:1693-1796 | opt_j terminates because the successor's level falls with every move; it leads the edge exactly where the search of the code does, past a block with one target and then past every block whose test the first unconflicting edge dominator decides; no such dominator is left for the block where the edge stops; and it keeps every non-rejecting run from the root if the numbers are right |
| `Threading.LandsCompletely` | optee_dra/dra_service/host/include/libpcap1.10.4/optimize.c:1693-1796 | Where opt_j leaves an edge no edge dominator decides the test without a conflict, and an edge that one decides, or whose block has one target, has gone down |
| `Threading.ThreadedCompletely` | optee_dra/dra_service/host/include/libpcap1.10.4/optimize.c:2107-2116 | After the sweep every edge leads to a return, or to a block on which every edge dominator that names a target has a conflict; an edge has left its block if a dominator decides that block's test, or both sides of it lead to one block, without a conflict |
| `Threading.RepeatedTestsSkipped` | optee_dra/dra_service/host/include/libpcap1.10.4/optimize.c:1650-1683 | Both edges of a block skip a block that repeats its test, and its true edge skips an equation with another constant, unless a register has another number where they would lead |
| `Threading.Sweep` | optee_dra/dra_service/host/include/libpcap1.10.4/optimize.c:2107-2116 | The leaf-to-root sweep leads both edges of every reachable block where opt_j does, and keeps every non-rejecting run if the numbers are right |
| `Threading.ThreadJumps` | optee_dra/dra_service/host/include/libpcap1.10.4/optimize.c:2078-2116 | A pass with do_stmts clear in the order of the code: levels, edge dominators and liveness computed once, numbering, peephole rules and dead stores block by block, then the sweep, which leads every edge where opt_j does; it fails only at a return with statements, leaves blocks self-contained, and keeps the result of every non-rejecting run if no branch had its sides exchanged and equal tests absorbed equal subtractions |
| `Threading.BypassFails` | optee_dra/dra_service/host/include/libpcap1.10.4/optimize.c:1708-1744 | When a block reads a register of its predecessor, opt_j's test (common target, no used atom with different numbers) lets an edge skip the block that sets it, and the result changes |
| `FlippedSides.FlipFails` | optee_dra/dra_service/host/include/libpcap1.10.4/optimize.c:1099-1117 | Two tests of the same masked bit against 0 with another test between them: after opt_not has turned both round, opt_j takes an edge for a dominator that it no longer is, and a packet that was accepted is dropped |
| `FlippedSides.MixedFails` | optee_dra/dra_service/host/include/libpcap1.10.4/optimize.c:1043-1098 | Of two blocks that subtract alike only one absorbs the subtraction; their accumulator numbers stay equal, opt_j takes their tests for the same, and the result changes |
| `Settling.EquationMerges` | optee_dra/dra_service/host/include/libpcap1.10.4/optimize.c:1043-1098 | `ld M[r]; sub x; jeq #0`, as gen_relation builds it, always has its subtraction absorbed |
| `Settling.MergesTell` | optee_dra/dra_service/host/include/libpcap1.10.4/optimize.c:1614-1686 | Before and after the first pass, blocks with equal tests and equal accumulator numbers both absorbed a subtraction or neither did |
| `Settling.CalmQuiets` | optee_dra/dra_service/host/include/libpcap1.10.4/optimize.c:2181-2257 | After one branch-moving pass no block of a generated graph has anything left to absorb, and that stays so |
| `Settling.SimpleNoRedefinition` | optee_dra/dra_service/host/include/libpcap1.10.4/optimize.c:1479-1583 | Where at most one block sets X or scratch words and equations are plain, the graph meets the condition for a statement pass |
| `Settling.BranchPasses` | optee_dra/dra_service/host/include/libpcap1.10.4/optimize.c:2181-2257 | Any number of branch-moving passes, as opt_loop performs them, each on the graph the one before it left: on a graph of the generator's kind every non-rejecting run keeps its result |
| `PlainFilters.StemsRaw` | optee_dra/dra_service/host/include/libpcap1.10.4/gencode.c:1110-1131 | Every block made for a test of an expression is one the branch-moving passes can handle, if no mask is compared with 0 |
| `PlainFilters.GeneratedRaw` | optee_dra/dra_service/host/include/libpcap1.10.4/gencode.c:942-996 | So is every generated graph of such an expression |
| `PlainFilters.PlainSimple` | optee_dra/dra_service/host/include/libpcap1.10.4/gencode.c:7603-7658 | The graph of an expression with at most one, plain, arithmetic comparison sets X and scratch words in one block at most |
| `Interning.EqSlist` | optee_dra/dra_service/host/include/libpcap1.10.4/optimize.c:2325-2341 | True exactly when the lists are equal up to deleted statements |
| `Interning.DeletedDoNotCount` | optee_dra/dra_service/host/include/libpcap1.10.4/optimize.c:2325-2353 | A deleted statement anywhere leaves a block equal to what it was |
| `Interning.RedirectWalk` | optee_dra/dra_service/host/include/libpcap1.10.4/optimize.c:2355-2396 | Leading edges to an equal block keeps the result of every block on every packet, rejecting runs included |
| `Interning.RedirectShrinks` | optee_dra/dra_service/host/include/libpcap1.10.4/optimize.c:2355-2396 | A repetition that moves an edge loses a reachable block |
| `Interning.NoTwinsLeft` | optee_dra/dra_service/host/include/libpcap1.10.4/optimize.c:2355-2396 | When no edge moves, no two reachable blocks are equal |
| `Interning.Interner.FindLinks` | optee_dra/dra_service/host/include/libpcap1.10.4/optimize.c:2362-2379 | Every reachable block with an equal one further on is linked to a representative that is not linked itself |
| `Interning.Interner.InternBlocks` | optee_dra/dra_service/host/include/libpcap1.10.4/optimize.c:2355-2396 | intern_blocks terminates, keeps the meaning of every block and leaves no two reachable blocks equal up to deleted statements |
| `Optimizer.InternAndFlatten` | optee_dra/dra_service/host/include/libpcap1.10.4/optimize.c:2265-2295 | Interning and layout composed: the program is the layout of a graph without equal blocks and runs as the original graph walks, rejecting runs included |
| `Optimizer.OptimizeAndFlatten` | optee_dra/dra_service/host/include/libpcap1.10.4/optimize.c:2265-2295 | Any number of branch-moving passes, interning and layout composed: the program is valid, comes from these passes, and agrees with a graph of the generator's kind on every packet the graph does not reject |
| `Optimizer.PassGood` | optee_dra/dra_service/host/include/libpcap1.10.4/optimize.c:1318-1346 | After a statement pass every statement has a defined effect, or some divisor was found to be the constant 0; without divisions and shifts always the former |
| `Optimizer.StatementPasses` | optee_dra/dra_service/host/include/libpcap1.10.4/optimize.c:2181-2257 | Any number of statement passes, each on the graph the one before it left: they fail only when one refuses a statement or finds a zero divisor, never without divisions and shifts; every non-rejecting run keeps its result if no pass deletes what is still needed |
| `Optimizer.OptimizeFully` | optee_dra/dra_service/host/include/libpcap1.10.4/optimize.c:2265-2295 | `n` branch-moving and `m` statement passes, interning and layout: a valid program or a stopped pass; on a graph of the generator's kind it agrees with the graph on every packet the graph does not reject if no statement pass deletes what is still needed, in particular for one statement pass where at most one block sets X or scratch words |
| `Optimizer.CompileWithPasses` | optee_dra/dra_service/host/include/libpcap1.10.4/gencode.c:716-865 | From the expression: code generation, `n` branch-moving and `m` statement passes, interning and layout. Wherever the expression has a truth value the program returns the snapshot length or 0 accordingly, if no mask is compared with 0 and no statement pass deletes what is still needed; for a plain expression and one statement pass without that proviso |
| `StaleDeletion.IsGenerated` | optee_dra/dra_service/host/include/libpcap1.10.4/gencode.c:7603-7842 | `0 * len >= 0 and len > len` is accepted, false of every packet, and its graph has the given lists and registers |
| `StaleDeletion.FirstPass` | optee_dra/dra_service/host/include/libpcap1.10.4/optimize.c:892-1178 | Whatever the numbers, a branch-moving pass on that graph turns the reloads of X into `tax`, compares the constant X as a constant and deletes the dead stores |
| `StaleDeletion.SecondPass` | optee_dra/dra_service/host/include/libpcap1.10.4/optimize.c:1455-1476 | ... and a second one deletes the load that became dead |
| `StaleDeletion.ThirdPass` | optee_dra/dra_service/host/include/libpcap1.10.4/optimize.c:1479-1583 | Whatever the numbers, a statement pass then deletes the load of X in block 0 as dead and the load of X in block 1 as redundant: a needed definition is gone |
| `StaleDeletion.StaleDeletionFails` | optee_dra/dra_service/host/include/libpcap1.10.4/optimize.c:1569-1573 | After that statement pass the graph returns the snapshot length for every packet of nonzero length, although the filter is false of it |
| `StaleDeletion.FreshNotNecessary` | optee_dra/dra_service/host/include/libpcap1.10.4/optimize.c:1569-1573 | That nothing needed is deleted is not necessary for the result: the same pass on the same blocks keeps every run where both returns are 0 |
| `StaleDeletion.MiscompileFilter` | optee_dra/dra_service/host/include/libpcap1.10.4/optimize.c:2265-2295 | The passes performed one after the other on the generated graph: two branch-moving ones that move no edge, and one over the statements, end in the wrong graph |
| `Forro.StagesUndone` | forro_cipher/src/forro/ref/forro.c:6-9 | The inverse steps in reverse order undo the steps of Q, and conversely |
| `KnownAnswer.StagesAreQuarterRound` | forro_cipher/src/forro/ref/forro.c:6-9 | The twelve steps are one expression in sums, exclusive ors and rotations of the five words |
| `KnownAnswer.RotatesBy10` | forro_cipher/src/forro/ref/forro.c:5-7 | The first rotation is to the left by 10 |
| `KnownAnswer.RotatesBy27` | forro_cipher/src/forro/ref/forro.c:5-8 | The second by 27 |
| `KnownAnswer.RotatesBy8` | forro_cipher/src/forro/ref/forro.c:5-9 | The third by 8 |
| `KnownAnswer.RowGeometry` | forro_cipher/src/forro/ref/forro.c:23-30 | The n-th quarter-round works on column n, the n+4-th on diagonal n of the 4 by 4 matrix, each with the word of the first row left of its own |
| `KnownAnswer.Columns` | forro_cipher/src/forro/ref/forro.c:23-26 | The words that four column rounds leave in every place, and which words each of them reads |
| `KnownAnswer.Diagonals` | forro_cipher/src/forro/ref/forro.c:27-30 | The same for the four diagonal rounds |
| `KnownAnswer.AnswerWords` | forro_cipher/src/forro/ref/forro.c:11-36 | The sixteen words of the block function for the state with 1 in word 4 |
| `KnownAnswer.AnswerBytes` | forro_cipher/src/forro/ref/forro.c:11-43 | Its key block starts 0c c0 aa dc 7c f8 ff b2 |
| `Forro.QuarterUndone` | forro_cipher/src/forro/ref/forro.c:6-9 | The inverse quarter-round undoes Q on any five distinct words of a 16-word state, and conversely |
| `Forro.QuartersUndone` | forro_cipher/src/forro/ref/forro.c:21-31 | Any number of quarter-rounds is undone by the inverses in reverse order |
| `Forro.RoundsAreBijective` | forro_cipher/src/forro/ref/forro.c:21-31 | Any number of double rounds is injective and surjective on 16-word states |
| `Forro.Q` | forro_cipher/src/forro/ref/forro.c:6-9 | The twelve in-place updates compute the quarter-round |
| `Forro.ForroBlock` | forro_cipher/src/forro/ref/forro.c:11-43 | The loops compute the little-endian bytes of the state plus its 7 double rounds |
| `Forro.TickIsNext` | forro_cipher/src/forro/ref/forro.c:98-102 | The carry from word 4 into word 5 is addition of 1 modulo 2^64 |
| `Forro.AtTwice` | forro_cipher/src/forro/ref/forro.c:98-102 | Advancing the counter by j and then k is advancing by j + k modulo 2^64 |
| `Forro.EncryptBytes` | forro_cipher/src/forro/ref/forro.c:88-115 | For every length, also in place: byte i is m[i] xor byte i%64 of the block at counter + i/64, the rest of the buffer is untouched, and the counter ends advanced by ceil(n/64) |
| `Forro.DecryptBytes` | forro_cipher/src/forro/ref/forro.c:117-120 | Decryption is the same stream |
| `Forro.KeystreamBytes` | forro_cipher/src/forro/ref/forro.c:122-128 | The buffer receives the key stream |
| `Forro.DecryptEncrypt` | forro_cipher/src/forro/ref/forro.c:88-120 | Decrypting from the start state restores the message |
| `Forro.StreamSplit` | forro_cipher/src/forro/ref/forro.c:88-115 | Encryption splits at 64-byte boundaries, with the same final counter |
| `Forro.SetKey` | forro_cipher/src/forro/ref/forro.c:64-78 | Word by word which key bytes and which of the four constants each state word receives, and which words are kept |
| `Forro.SetVerifier` | forro_cipher/src/forro/ref/forro.c:49-62 | Word by word which configuration bytes each state word receives, and which words are kept |
| `Forro.BytesOfLoad` | forro_cipher/src/forro/ref/forro.c:49-78 | Loading four bytes little-endian and storing the word again gives the bytes |
| `Forro.LoadOfBytes` | forro_cipher/src/forro/ref/forro.c:40-43 | Storing a word little-endian and loading it again gives the word |
| `Hex.HexRoundTrip` | optee_dra/dra_service/host/main.c:68-94 | Text of bytes converts back to the bytes |
| `Hex.TextRoundTrip` | optee_dra/dra_service/host/main.c:68-94 | Lower-case text is recovered from its bytes |
| `Hex.SwapEndian` | optee_dra/dra_service/host/main.c:50-65 | The in-place loop reverses the byte pairs of each group of eight characters |
| `Hex.SwapHexTwice` | optee_dra/dra_service/host/main.c:50-65 | Swapping twice restores the text |
| `Hex.SwapHexIsSwapBytes` | tools/src/verifica_p4dra_rede.c:71-121 | On the bytes, swapping the text reverses each 32-bit word |
| `Hex.PairsByName` | tools/src/verifica_p4dra_rede.c:110-121 | What strtoul makes of pairs that are not two digits: blanks, signs and stops |
| `Hex.HexStringToByteArray` | tools/src/verifica_p4dra_rede.c:110-121 | The loop fills the buffer with the bytes strtoul reads from each pair of characters, digits or not |
| `Hex.ByteArrayToHexString` | tools/src/verifica_p4dra_rede.c:123-136 | The loop prints two digits per byte |
| `Attestation.SetupDeterminesState` | optee_dra/dra/ta/dra_ta.c:364-397 | After key and verifier setup no word depends on what the state held before |
| `Attestation.BuildState` | optee_dra/dra/ta/dra_ta.c:358-397 | The four XOR loops and the two setups produce the shared proof state |
| `Attestation.StateWords` | optee_dra/dra/ta/dra_ta.c:364-397 | Every word of the proof state: key bytes in words 0 to 3 and 8 to 11; round, identifier and nonce, each XORed with its configuration word, in words 4 and 5, 6, 7, 14 and 15, and 12 and 13 |
| `Attestation.PlainStateWords` | optee_dra/dra/ta/dra_ta.c:364-397 | With the zero configuration these are the bytes themselves |
| `Attestation.KnownProof` | optee_dra/dra/ta/dra_ta.c:313-405 | The proof of a zero key, identifier and nonce for round 1 starts 0c c0 aa dc 7c f8 ff b2 |
| `Attestation.ReplyProof` | optee_dra/dra/ta/dra_ta.c:313-405 | The trusted application's proof is the block function at the state built from the stored key and id and the two round halves |
| `Attestation.VerifierProof` | forro_cipher/src/forro/forro-args-dra.c:49-129 | Encrypting a zero message from that state gives the same 64 bytes as the block function |
| `Attestation.WireRoundTrip` | optee_dra/dra_service/host/main.c:50-94 | A field received as swapped text and sent again is byte for byte the same |
| `Attestation.Prover.PacketHandler` | optee_dra/dra_service/host/main.c:184-254 | The service's handler performs one step of the prover state machine, dying on a request that comes before any setup |
| `Attestation.ReplyIsHonest` | optee_dra/dra_service/host/main.c:109-159 | The reply echoes the request's round bytes and the setup's id bytes and carries the swapped proof |
| `Attestation.StateIsLatestSetup` | optee_dra/dra_service/host/main.c:230-252 | After any sequence of packets a device is down exactly if a request reached it before its first setup; otherwise its state is that of its latest setup |
| `Attestation.RepliesAreHonest` | optee_dra/dra_service/host/main.c:184-254 | Over any sequence of packets, a device answers a request exactly when none reached it before its first setup, with the proof for its latest key and id |
| `Attestation.EarlyRequestSilences` | optee_dra/dra_service/host/main.c:109-122 | A request before the first setup silences the device for good, whatever setups follow |
| `Attestation.BodyFields` | optee_dra/dra_service/host/main.c:33-48 | Setup, reply and verification frames written field after field are read back as these fields |
| `Attestation.KnownExchange` | optee_dra/dra_service/host/main.c:184-254 | A whole exchange in bytes: the setup with zero key and identifier, the request for round 1, and the reply, whose proof starts dc aa c0 0c b2 ff f8 7c |
| `Attestation.Verifier.PacketHandler` | tools/src/verifica_p4dra_rede.c:274-392 | The verifier's handler performs one step of its state machine: the record is selected by the packet count alone |
| `Attestation.VerificationReports` | tools/src/verifica_p4dra_rede.c:138-177 | The operation 0x4 packet carries round, id and proof as received beside the proof for the selected record's key |
| `Attestation.VerifierSends` | tools/src/verifica_p4dra_rede.c:274-392 | Type 0x1234 with operation 2, and nothing else, makes the verifier count and send, with the addresses exchanged, operation 4, and round, identifier and proof byte for byte |
| `Attestation.CountsReplies` | tools/src/verifica_p4dra_rede.c:384-389 | Over any packets: below the total the loop runs and the count is the number of replies so far; at the total it is left |
| `Attestation.HonestRunsVerify` | tools/src/verifica_p4dra_rede.c:274-392 | For any packets at the devices and any packets at the verifier, a device's reply that arrives before the total is reached yields a verification packet that echoes the request's round and the latest setup's id, and verificacao equals prova whenever the device's key is that of record k mod 20000, k being the replies so far |
| `Attestation.NothingAfterLimit` | tools/src/verifica_p4dra_rede.c:386-389 | Once the total is reached nothing is sent |
| `Switch.Controller.InstallSchedule` | TNA/bfrt_python/setup.py:98-124 | For every positive round count, exactly one entry per stage and traversal is installed, for odd traversals in the ingress and for even ones in the egress, with the quarter-round (rodada - 1) mod 8, and finalisation only at the last |
| `Switch.TraverseIsStages` | TNA/bfrt_python/setup.py:98-124 | A traversal of the installed stages applies the steps of its quarter-round in order |
| `Switch.TablesRefineCipher` | TNA/bfrt_python/setup.py:98-124 | Executing the entries in order of rodada applies the quarter-rounds of forro's loop |
| `Switch.ScheduleIsForro` | TNA/bfrt_python/setup.py:98-124 | For every even round count the run is forro / 2 double rounds; Ingress has the even and Egress the odd quarter-rounds; the last traversal is Egress quarter-round 7 exactly for even counts |
| `Switch.LastStage` | TNA/bfrt_python/setup.py:112-124 | The finalising action fits quarter-rounds 7 and 3 alike: its step only rotates word 3 |
| `Switch.InverterEndianess` | TNA/bfrt_python/setup.py:19-33 | Fails exactly on lengths that are not a multiple of 8; otherwise it is the rearrangement of swapEndian |
| `Switch.BlockAt` | TNA/bfrt_python/setup.py:133-136 | A swapped block of eight digits parses to the little-endian word of the bytes it spells |
| `Switch.ConfWords` | TNA/bfrt_python/setup.py:139-139 | The masks and shifts put the id's words at positions 2, 3, 6 and 7 and zero elsewhere |
| `Switch.EntryMatchesState` | TNA/bfrt_python/setup.py:132-143 | For every device id and key, configuration words 2, 3, 6, 7 and the eight key words equal the words keysetup and versetup load |

## Left out

- Two rules of `opt_peep` (optimize.c:948-1031 and 1125-1126): they change results. The all-ones `jset` rule sends an accumulator of 0 the wrong way (`Peephole.AllOnesTaken`), and folding a constant into an indexed load rejects packets where the index wraps round (`Peephole.IndexSum`) and changes X, which only a remark about the code generator excuses. The pass theorems are about passes in which neither rule applies.
- `or_pullup` and `and_pullup`, which follow the sweep: they rely on facts about generated code that are written down nowhere.
- The stopping rule of `opt_loop`, with its bound of 100 passes: the theorems hold for any number of passes.
- `opt_root`: it drops the statements of blocks it skips, which is right only where nothing after them needs those.
- StatementPass.OptBlk: leaves out the two peephole rules named above.
- Threading.ThreadJumps: requires blocks that read no register of their predecessors, which is where the sweep is right.
- Settling.BranchPasses: requires returns without statements, as the generator builds them; a pass over others may abort.
- Optimizer.OptimizeFully: requires self-contained blocks and returns without statements, as the generator builds them.
- Optimizer.CompileWithPasses: the same bounds as Compile.PcapCompile; for more than one statement pass the condition is on the passes, because later passes start from blocks that rely on their predecessors.
- Freshness.OptimizeStatements: one way only; a deletion that is needed only on paths no packet takes leaves the result alone, so the conditions are not necessary.
- ValueNumbers.OptStmt: the divisions by a constant zero that it reports as errors are excluded by `GoodStmt`; an `alu x` with a known zero divisor may become an `alu k` with a zero constant, which only happens on runs that reject.
- Bpf.PcapFilter: a null program, which accepts everything, is not modelled.
- Compile.PcapCompile: requires the code to stay below two gigabytes and byte strings to be nonempty and to end inside the 32-bit offset range; the optimizer is off, as the tools call it.
- Layout.FlattenGraph: requires the array to stay below two gigabytes, so that long jumps fit their signed 32-bit field.
- Arithmetic.LoadComputes: covers `ether[...]` loads only.
- Gencode.Compiler.GenLoad: models `ether[...]` loads only, without the protocol-check blocks that loads from other headers attach to an operand.
- Gencode.Compiler.GenArth: does not carry protocol-check blocks of its operands.
- Gencode.Compiler.GenRelation: does not and-in protocol-check blocks of its operands, which `ether[...]` loads do not have.
- Bit vectors of blocks, edges and atoms are sets; the pool of value nodes and the arrays of block pointers are sequences.
- Jumps inside statement lists (prism, 802.11, Geneve, protochain, VLAN metadata), and the auxiliary VLAN loads of the interpreter.
- Lexer, grammar and the per-link-type and per-protocol cases of `gencode.c`: expressions are given as trees, fields by absolute offsets in an Ethernet frame.
- Sockets, capture, sub-processes, timing, printing and secure-storage errors: a packet handler is one step, the secrets are a value, a sub-process is a call.
- Attestation.Prover.PacketHandler: captured packets are taken to hold the fields their operation announces.
- Attestation.VerifierProof: message buffer and configuration are all zero, as intended; the program leaves the message uninitialised and reads its configuration past the one-character argument it is given.
- The verifier's other look-ups (by id in memory or in the file) and `swapEndianChunk`, which nothing on the modelled path calls.
- Forro.EncryptBytes: message and output are the same array or different ones; buffers that overlap partly are not modelled.
- Switch.ConfParam: masks and shifts on Python integers are written as division and remainder, with the zero initial configuration.
- Switch.Controller.InstallSchedule: requires at least one round.
- The P4 program: stage n of an action for quarter-round q is taken to be the n-th step of that quarter-round. Clearing tables, forwarding rules and finalisation tables are not modelled.
- Strength of the proof against forgery: only functional correctness is stated.
