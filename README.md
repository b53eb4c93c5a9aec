# x265 testbench: the conformance sweep

This project models the conformance sweep of the x265 pixel-primitive
testbench (`source/test/testbench.cpp`) in Dafny and proves properties of it.
The testbench compares an optimised table of pixel-comparison primitives
(SATD and SAD for each of the 25 block partitions, SA8D 8x8 and SA8D 16x16)
against the reference C table.

- It checks each implemented slot at 101 offsets into a random buffer and stops at the first
  disagreement.
- It prints a pass line with timings or a failure line.
- It returns an exit code after sweeping the vector-class variant and then the assembly variant.

The model keeps the program's imperative shape. The globals are the fields of one class,
`Testbench.Testbench`:

- `pbuf1` and `pbuf2` are arrays;
- `do_singleprimitivecheck` and the `uint16_t` cursor `curpar` are plain fields.

The methods change those fields the way the C functions do: the offset loop, the partition loop that advances
`curpar` in place, the argument loop and the buffer fill loop.

Each method is proved against a specification function:

- `Conformance.Sweep` mirrors `check_pixelprimitives` branch for branch.
- `Args.Parsed` describes the argument scan by the last occurrence of each flag.
- `Pixels.Filled` describes the filled buffers.
- `Testbench.MainOutcome` describes what `main` returns and prints.

These specifications are then related to independent descriptions:

- the sweep is a fail-fast walk (`Conformance.Walk`) over an explicit visiting order (`Conformance.SlotOrder`);
- the scan keeps the last pair naming each flag (`Args.LastPair`);
- masking with `2^k - 1` is reduction modulo `2^k`.

The modules follow the program's parts:

| module | file | contents |
|---|---|---|
| `Primitives` | primitives.dfy | slots, primitive tables, and the cleared table |
| `Output` | output.dfy | `FuncNames`, the output as an event trace, and slot labels |
| `Pixels` | pixels.dfy | bit depth, `PIXEL_MAX`, masking, and the buffer contents |
| `Conformance` | conformance.dfy | the sweep specification and its guarantees |
| `Args` | args.dfy | the command-line scan specification |
| `Testbench` | testbench.dfy | the globals object, the imperative operations, and `main`'s outcome |

Inputs the program takes from outside are parameters:

- the reference table, which is assumed fully populated as `Setup_C_Primitives` leaves it;
- the installer (`Setup_Vector_Primitives`);
- the detected CPU identifier;
- `atoi`;
- the values of successive `rand()` calls;
- whether each `malloc` succeeds;
- which variants are compiled in and the bit depth.

Consequences of the code as written:

- The assembly table is installed with `Setup_Vector_Primitives`, the same installer as the vector table (lines 252 and 264). With the same buffers, the assembly sweep therefore always passes when the vector sweep passed (`AssemblySweepRepeatsVector`).
- The cursor `curpar` is a process-wide global that no sweep resets. After a full passing vector sweep, the assembly sweep therefore checks only the two SA8D slots (`ResumeAfterFullSweep`).
- Single-partition mode is tested inside the partition loop. With `--primitive` at or beyond 25, the loop body never runs and the SA8D slots are checked (`PastPartitions`). In single-partition mode the assembly sweep checks the same partition again.
- The `--primitive` value is stored in a `uint16_t`, so it is kept modulo 65536 (`Args.ToUint16`).
- A failure line names the metric and the partition but not the offset.

## Model

| member | source | states |
|---|---|---|
| Primitives.Table.Entry | source/test/testbench.cpp:155-191 | A table yields a primitive only for an existing slot: a partition index below 25, or one of the two SA8D slots. The per-partition arrays have exactly 25 entries. |
| Primitives.EmptyTable | source/test/testbench.cpp:246-249 | A table cleared with `memset` implements no slot. |
| Output.Label | source/test/testbench.cpp:159-198 | The name a slot is printed under. A SATD or SAD label ends with the partition's `FuncNames` entry in brackets. |
| Output.Line | source/test/testbench.cpp:159-198 | A pass or failure line starts with the slot's label. A failure line ends with a newline; a pass line is left open for the timing figures. |
| Output.LabelsIdentifySlots | source/test/testbench.cpp:94-97 | Distinct slots print distinct labels, so every pass or failure line identifies its metric and partition. |
| Pixels.BitAnd | source/test/testbench.cpp:239-240 | Bitwise `a & b` on the non-negative values involved. The result never exceeds either operand. |
| Pixels.PixelMax | source/test/testbench.cpp:99-103 | `PIXEL_MAX` is 255 at 8-bit depth and 1023 at high bit depth. |
| Pixels.Sample | source/test/testbench.cpp:239-240 | A sample `rand() & PIXEL_MAX` is at most `PIXEL_MAX` and at most the random value. |
| Pixels.MaskIsMod | source/test/testbench.cpp:99-103 | Masking with `2^k - 1` equals reduction modulo `2^k`. |
| Pixels.MaskIsLowBits | source/test/testbench.cpp:99-103 | Masking with `2^k - 1` keeps exactly the low `k` bits. |
| Pixels.LowBitsIsMod | source/test/testbench.cpp:99-103 | The low `k` bits of `x` are `x mod 2^k`. |
| Pixels.BufferSamples | source/test/testbench.cpp:228-229 | Each allocation holds more samples than the 0x1e00 the fill loop writes. |
| Pixels.SampleInRange | source/test/testbench.cpp:236-241 | Each sample `rand() & PIXEL_MAX` lies in [0, PIXEL_MAX], equals the random value modulo PIXEL_MAX + 1, and fits the pixel type. |
| Pixels.FilledInRange | source/test/testbench.cpp:236-241 | Every written sample of both filled buffers lies in [0, PIXEL_MAX]. |
| Args.ToUint16 | source/test/testbench.cpp:220 | Storing into `curpar` keeps the value modulo 2^16, and a value already in range unchanged. |
| Args.PairCount | source/test/testbench.cpp:215 | The loop `i = 1, 3, ...` while `i < argc - 1` reads `(argc - 1) / 2` pairs, so an odd trailing argument is never read. |
| Args.LastPair | source/test/testbench.cpp:215-226 | The pair found is the last one of the first `m` pairs naming the flag; when none is found, no pair names it. |
| Args.ParsedPairs | source/test/testbench.cpp:215-226 | The state after the first `m` pairs: the last `--cpuid` value and the last `--primitive` value (turning single mode on), each kept from the initial state when absent. A 16-bit cursor stays 16-bit. |
| Args.ParsedPairsFlags | source/test/testbench.cpp:215-226 | Single mode is on after the scan exactly when it was on before or some pair is `--primitive`. A flag that occurs in no pair leaves its part of the state unchanged. |
| Args.Parsed | source/test/testbench.cpp:215-226 | The state after the whole scan. With fewer than three arguments no pair is read and the state is unchanged. |
| Args.ParsedPairsStep | source/test/testbench.cpp:216-225 | Reading one more pair applies `--primitive` (single mode on, cursor set), `--cpuid` (identifier set), or nothing. |
| Args.LastPairExtend | source/test/testbench.cpp:215 | Appending arguments does not change which of the existing pairs is last for a flag. |
| Args.TrailingArgumentIgnored | source/test/testbench.cpp:215 | A trailing argument without a value does not change the scan's result. |
| Args.AppendPair | source/test/testbench.cpp:215-226 | A newly appended pair becomes the last pair for its flag and leaves other flags' last pairs unchanged. |
| Args.UnknownFlagIgnored | source/test/testbench.cpp:217-225 | A pair with an unrecognised flag changes nothing. |
| Args.LastCpuidWins | source/test/testbench.cpp:222-225 | A final `--cpuid v` sets the identifier to `atoi(v)` and changes nothing else. |
| Args.LastPrimitiveWins | source/test/testbench.cpp:217-221 | A final `--primitive v` turns single mode on and sets `curpar` to `atoi(v)` mod 2^16, keeping the identifier. |
| Args.FlagInValuePosition | source/test/testbench.cpp:215-226 | A flag written as the value of another pair is not recognised. |
| Conformance.Agrees | source/test/testbench.cpp:140-142 | Candidate and reference return the same value at offset `16 i` into `pbuf1`, with stride 16 for both buffers and `pbuf2` read from its start. |
| Conformance.Conforms | source/test/testbench.cpp:138-146 | Candidate and reference agree at all 101 probed offsets. |
| Conformance.Fails | source/test/testbench.cpp:155-157 | A slot fails when the candidate implements it and it does not conform. A failing slot exists and is implemented. |
| Conformance.SlotEvents | source/test/testbench.cpp:155-164 | One guarded block prints at most two events, and nothing exactly when the candidate's pointer is null. |
| Conformance.SlotEventsAbout | source/test/testbench.cpp:155-164 | What a block prints is about its own slot, and it prints a failure line exactly when the slot fails. |
| Conformance.PartitionLoop | source/test/testbench.cpp:153-178 | The partition loop from cursor `p`: never moves the cursor back. Falling through leaves it at 25 (or where it was if already past). A `return` happens on a partition with code 0 or -1, and code 0 only in single mode. |
| Conformance.Sweep | source/test/testbench.cpp:151-203 | `check_pixelprimitives` branch by branch: returns 0 or -1, never moves the cursor back, and a cursor left on a partition it moved is a failure. |
| Conformance.LoopTurnExit | source/test/testbench.cpp:153-177 | A loop turn whose pair fails returns -1, and one in single mode returns 0. In both cases the cursor stays and the pair's events are printed. |
| Conformance.LoopTurnNext | source/test/testbench.cpp:153-178 | A turn that neither fails nor is in single mode prints the pair's events, then continues at the next partition. |
| Conformance.SweepReturned | source/test/testbench.cpp:153-178 | A `return` inside the partition loop is the sweep's result. |
| Conformance.SweepAfterLoop | source/test/testbench.cpp:180-202 | After the loop falls through, the sweep checks SA8D 8x8 and then, unless it failed, SA8D 16x16. |
| Conformance.LoopIsWalk | source/test/testbench.cpp:153-178 | Outside single mode, the partition loop is the fail-fast walk over SATD then SAD of each partition from the cursor: same outcome, same events. |
| Conformance.SweepIsWalk | source/test/testbench.cpp:151-203 | `check_pixelprimitives` is the fail-fast walk over its visiting order. It returns -1 exactly when the walk fails and prints what the walk prints. |
| Conformance.SlotOrderRank | source/test/testbench.cpp:153-200 | The visiting order is partitions in increasing index with SATD before SAD, then SA8D 8x8, then SA8D 16x16. A cursor past the partitions leaves only the SA8D slots; single mode leaves only the cursor's two slots. |
| Conformance.SweepPassesIff | source/test/testbench.cpp:151-203 | The sweep returns 0 or -1, and 0 exactly when no visited slot fails; it then prints every visited slot's events. |
| Conformance.SweepFailFast | source/test/testbench.cpp:155-200 | At the first failing slot the sweep returns -1 and its output ends with that slot's failure line. Nothing is reported about any later slot. |
| Conformance.SweepReportsVisitedSlots | source/test/testbench.cpp:155-200 | Every report is a pass, timing or failure line about a visited slot that the candidate implements. |
| Conformance.SweepSkipsUnimplemented | source/test/testbench.cpp:155-200 | A slot without a candidate entry is never reported, neither as passed nor as failed. |
| Conformance.LoopCursor | source/test/testbench.cpp:153-178 | Outside single-partition mode, the loop leaves `curpar` past the last partition when it falls through, and on the failing partition when it returns. |
| Conformance.SweepCursor | source/test/testbench.cpp:153-203 | Single mode, or a cursor past the partitions, leaves `curpar` unchanged. Otherwise a passing sweep leaves it at 25, and a cursor left on a partition means the sweep failed there. |
| Conformance.SingleMode | source/test/testbench.cpp:176-177 | In single mode with the cursor on a partition, only that partition's SATD and SAD are checked. The sweep passes exactly when neither fails, and the cursor is unchanged. |
| Conformance.PastPartitions | source/test/testbench.cpp:153-200 | With the cursor past the partitions, single mode makes no difference and only the SA8D slots are checked. |
| Conformance.ResumeAfterFullSweep | source/test/testbench.cpp:251-266 | After a full passing sweep, `curpar` is 25, and a later sweep with any tables reports on the SA8D slots only. |
| Conformance.RepeatSweepPasses | source/test/testbench.cpp:153-203 | Sweeping the same tables again from where a passing sweep left the cursor passes too. |
| Testbench.Installed | source/test/testbench.cpp:246-252 | The variant table: the installer applied to a `memset`-cleared table and the CPU identifier. |
| Testbench.VariantEvents | source/test/testbench.cpp:251-272 | A variant block prints its banner, then the sweep's reports, then the diagnostic exactly on failure. |
| Testbench.MainOutcome | source/test/testbench.cpp:228-277 | `main` after the scan: returns 0 or -1; on an allocation failure it prints only the malloc diagnostic; it returns 0 only with allocation success and the success banner last. |
| Testbench.ExitCode | source/test/testbench.cpp:228-277 | The exit code is 0 or -1. It is -1 with only the malloc diagnostic when an allocation fails. Otherwise it is 0 exactly when every compiled-in variant's sweep passes, and 0 with only the banner when none is compiled in. |
| Testbench.VectorFailureEndsRun | source/test/testbench.cpp:251-260 | A failing vector sweep ends the run with -1 after its reports and the diagnostic; the assembly sweep never starts. |
| Testbench.AssemblySweepRepeatsVector | source/test/testbench.cpp:251-266 | With both variants compiled in, the run passes exactly when the vector sweep passes. |
| Testbench.BrokenSatd8x8Scenario | source/test/testbench.cpp:153-160 | A vector table with only a wrong SATD 8x8: the run prints "satd[8x8]: failed!" and nothing else from the sweep, leaves `curpar` at 3, and exits -1. |
| Testbench.Testbench.constructor | source/test/testbench.cpp:88-90 | The globals at program start: no buffers, single mode off, `curpar` 0, nothing printed. |
| Testbench.Testbench.CheckPixelPrimitive | source/test/testbench.cpp:135-148 | Returns 0 exactly when candidate and reference agree at all 101 offsets `16 i`. On the first disagreement it returns -1, and no later offset is evaluated. |
| Testbench.Testbench.CheckCycleCount | source/test/testbench.cpp:114-133 | Prints the timing figures, as one event. |
| Testbench.Testbench.CheckSlot | source/test/testbench.cpp:155-164 | One slot block: skipped when unimplemented, otherwise checked. It then prints a failure line, or a pass line and the timing. |
| Testbench.Testbench.CheckPair | source/test/testbench.cpp:155-200 | Two guarded slot blocks: the second runs only if the first passed. |
| Testbench.Testbench.CheckPixelPrimitives | source/test/testbench.cpp:151-203 | The return code, the new `curpar` and the output are exactly `Sweep` from the old `curpar`. |
| Testbench.Testbench.CheckAllFuncs | source/test/testbench.cpp:205-208 | The same as `check_pixelprimitives`. |
| Testbench.Testbench.RunVariant | source/test/testbench.cpp:251-272 | One variant block: banner, sweep, and on failure the diagnostic, with the sweep's return code and cursor. |
| Testbench.Testbench.ParseArgs | source/test/testbench.cpp:215-226 | The flags, cursor and identifier are what `Args.Parsed` gives from the initial state. |
| Testbench.Testbench.FillBuffers | source/test/testbench.cpp:236-241 | Sample `i` of `pbuf1` and `pbuf2` is `rand() & PIXEL_MAX` from call `2 i` and `2 i + 1`. The slack after 0x1e00 samples is untouched. |
| Testbench.Testbench.SweepVariants | source/test/testbench.cpp:243-277 | After the fill, the return code and the output are `MainOutcome` with allocation success. |
| Testbench.Testbench.Run | source/test/testbench.cpp:210-278 | `main`: on success the buffers are fresh, sized as allocated and filled. The return code and the output are `MainOutcome` of the scanned arguments. |

## Left out

- `check_cycle_count` and `timevaldiff`: wall-clock timing and `double` arithmetic are not modelled. A pass is followed by one event standing for the timing figures.
- The Windows `gettimeofday` shim: it is a platform time source.
- The metric implementations, `Setup_C_Primitives`, `Setup_Vector_Primitives` and `CpuIDDetect`: foreign code. The reference table is an input assumed fully populated, and the installer is an abstract function from a table and a CPU identifier to a table.
- `malloc`, `rand` and `atoi`: library calls. They are inputs: a success flag per allocation, the value of the n-th `rand()` call, and an abstract string-to-int function. `strcmp` equality is string equality.
- If the first allocation succeeds and the second fails, the first buffer is leaked. The model does not track that memory.
- The byte layout of the `printf`/`fprintf` output: the output is a trace of events. `Output.Label` and `Output.Line` give the labels and lines that the pass and failure events stand for.
- `cycletest` and `cycletest_primitive`: declared globals that the program never uses.
- `do_singleprimitivecheck` is a `uint16_t` in the source. It is a `bool` here because the program only ever stores 0 or 1 in it.
- Testbench.Testbench.FillBuffers: the contents of the alignment slack after the first 0x1e00 samples are left unconstrained, because `malloc` does not initialise them.
- Testbench.Testbench.CheckPixelPrimitive: the pointer arithmetic `pbuf1 + j` is a start offset into the buffer's contents.
- Testbench.Testbench.CheckPixelPrimitive: a primitive reading past the end of a buffer is not modelled.
