/** The testbench program: its globals (`pbuf1`, `pbuf2`,
    `do_singleprimitivecheck`, `curpar`) as the fields of one object, the
    methods that perform the conformance sweep in place, and `main`'s
    sequencing of the vector-class and assembly sweeps into an exit code. */
module Testbench {
  import opened Primitives
  import opened Output
  import opened Pixels
  import opened Conformance
  import opened Args

  /** An installer `Setup_Vector_Primitives(table, cpuid)`: the table it
      leaves, given the table it is handed and the CPU identifier. */
  type Installer = (Table, int) -> Table

  /** The table the installer leaves in a table cleared with `memset`. */
  function Installed(install: Installer, cpuid: int): Table
  {
    install(EmptyTable(), cpuid)
  }

  datatype RunResult = RunResult(ret: int, events: seq<Event>)

  /** The output of one variant's block in `main`: the banner, the
      sweep's reports and, if the sweep failed, the diagnostic. */
  function VariantEvents(v: Variant, r: SweepResult): (t: seq<Event>)
    ensures |t| == |r.events| + (if r.ret != 0 then 2 else 1)
    ensures t[0] == Testing(v) && t[1..1 + |r.events|] == r.events
    ensures r.ret != 0 ==> t[|t| - 1] == VariantFailed(v)
  {
    [Testing(v)] + r.events + (if r.ret != 0 then [VariantFailed(v)] else [])
  }

  /** What `main` does after the argument scan: the return code and the
      output, given the scanned arguments, whether both allocations
      succeeded, the reference table, the installer and the contents of the
      two buffers. Both variants are installed by the same installer from a
      cleared table, and the assembly sweep starts from the cursor the
      vector sweep left. */
  function MainOutcome(cfg: Config, st: ArgState, allocOk: bool, cprim: Table, install: Installer,
                       b1: seq<int>, b2: seq<int>): (r: RunResult)
    requires cprim.Full()
    ensures r.ret == 0 || r.ret == -1
    ensures !allocOk ==> r.events == [MallocFailed]
    ensures r.ret == 0 ==> allocOk && |r.events| >= 1 && r.events[|r.events| - 1] == AllPassed
  {
    if !allocOk then RunResult(-1, [MallocFailed])
    else
      var env := Env(cprim, Installed(install, st.cpuid), b1, b2);
      var vec := Sweep(env, st.curpar, st.single);
      var vEvents := if cfg.vectorEnabled then VariantEvents(VectorClass, vec) else [];
      if cfg.vectorEnabled && vec.ret != 0 then RunResult(-1, vEvents)
      else
        var asm := Sweep(env, if cfg.vectorEnabled then vec.cursor else st.curpar, st.single);
        var aEvents := if cfg.asmEnabled then VariantEvents(Assembly, asm) else [];
        if cfg.asmEnabled && asm.ret != 0 then RunResult(-1, vEvents + aEvents)
        else RunResult(0, vEvents + aEvents + [AllPassed])
  }

  /** The exit code: 0 or -1; -1 with nothing checked when an allocation
      fails; otherwise 0 exactly when every compiled-in variant's sweep
      passes, so also when none is compiled in. */
  lemma ExitCode(cfg: Config, st: ArgState, allocOk: bool, cprim: Table, install: Installer,
                 b1: seq<int>, b2: seq<int>)
    requires cprim.Full()
    ensures var r := MainOutcome(cfg, st, allocOk, cprim, install, b1, b2);
      var env := Env(cprim, Installed(install, st.cpuid), b1, b2);
      var vec := Sweep(env, st.curpar, st.single);
      var cursor := if cfg.vectorEnabled then vec.cursor else st.curpar;
      (r.ret == 0 || r.ret == -1) &&
      (!allocOk ==> r == RunResult(-1, [MallocFailed])) &&
      (r.ret == 0 <==> allocOk && (cfg.vectorEnabled ==> vec.ret == 0) &&
                        (cfg.asmEnabled ==> Sweep(env, cursor, st.single).ret == 0)) &&
      (allocOk && !cfg.vectorEnabled && !cfg.asmEnabled ==> r == RunResult(0, [AllPassed]))
  {
    if allocOk {
      var env := Env(cprim, Installed(install, st.cpuid), b1, b2);
      var vec := Sweep(env, st.curpar, st.single);
      SweepPassesIff(env, st.curpar, st.single);
      if cfg.vectorEnabled {
        SweepPassesIff(env, vec.cursor, st.single);
      }
    }
  }

  /** A failing vector-class sweep ends the run: the output is the banner,
      the sweep's reports and the diagnostic, and the assembly sweep never
      starts. */
  lemma VectorFailureEndsRun(cfg: Config, st: ArgState, cprim: Table, install: Installer,
                             b1: seq<int>, b2: seq<int>)
    requires cprim.Full() && cfg.vectorEnabled
    requires Sweep(Env(cprim, Installed(install, st.cpuid), b1, b2), st.curpar, st.single).ret != 0
    ensures var r := MainOutcome(cfg, st, true, cprim, install, b1, b2);
      var vec := Sweep(Env(cprim, Installed(install, st.cpuid), b1, b2), st.curpar, st.single);
      r == RunResult(-1, [Testing(VectorClass)] + vec.events + [VariantFailed(VectorClass)]) &&
      Testing(Assembly) !in r.events
  {
    var env := Env(cprim, Installed(install, st.cpuid), b1, b2);
    var vec := Sweep(env, st.curpar, st.single);
    SweepReportsVisitedSlots(env, st.curpar, st.single);
    assert Testing(Assembly) !in vec.events;
  }

  /** Because both sweeps use the same installer, tables and buffers, the
      assembly sweep passes whenever the vector sweep passed: with both
      compiled in, the exit code is decided by the vector sweep alone. */
  lemma AssemblySweepRepeatsVector(cfg: Config, st: ArgState, cprim: Table, install: Installer,
                                   b1: seq<int>, b2: seq<int>)
    requires cprim.Full() && cfg.vectorEnabled
    ensures var env := Env(cprim, Installed(install, st.cpuid), b1, b2);
      MainOutcome(cfg, st, true, cprim, install, b1, b2).ret == 0 <==> Sweep(env, st.curpar, st.single).ret == 0
  {
    var env := Env(cprim, Installed(install, st.cpuid), b1, b2);
    if Sweep(env, st.curpar, st.single).ret == 0 {
      RepeatSweepPasses(env, st.curpar, st.single);
    }
  }

  /** A comparison that is off by one from `f`. */
  function OffByOne(f: PixelCmp): (g: PixelCmp)
    ensures forall b1, o, s1, b2, s2 :: g(b1, o, s1, b2, s2) != f(b1, o, s1, b2, s2)
  {
    (b1: seq<int>, o: int, s1: int, b2: seq<int>, s2: int) => f(b1, o, s1, b2, s2) + 1
  }

  /** A vector table that implements SATD at 8x8 only, returning the
      reference result plus one. */
  function BrokenSatd8x8(cprim: Table): Table
    requires cprim.Full()
  {
    var wrong := OffByOne(cprim.Entry(Satd(3)).value);
    Table(seq(NUM_PARTITIONS, (p: int) => if p == 3 then Some(wrong) else None),
          seq(NUM_PARTITIONS, _ => None), None, None)
  }

  /** The injected-mismatch scenario: with only SATD 8x8 implemented and
      wrong, the vector sweep prints exactly "satd[8x8]: failed!", leaves
      the cursor on partition 3, reports nothing else, and the run exits
      with -1 without starting the assembly sweep. */
  lemma BrokenSatd8x8Scenario(cfg: Config, cpuid: int, cprim: Table, b1: seq<int>, b2: seq<int>)
    requires cprim.Full() && cfg.vectorEnabled
    ensures var cand := BrokenSatd8x8(cprim);
      Sweep(Env(cprim, cand, b1, b2), 0, false) == SweepResult(-1, 3, [Failed(Satd(3))]) &&
      Line(Failed(Satd(3))) == "satd[8x8]: failed!\n" &&
      MainOutcome(cfg, ArgState(cpuid, false, 0), true, cprim, (t: Table, c: int) => cand, b1, b2) ==
        RunResult(-1, [Testing(VectorClass), Failed(Satd(3)), VariantFailed(VectorClass)])
  {
    var cand := BrokenSatd8x8(cprim);
    var env := Env(cprim, cand, b1, b2);
    assert cand.Entry(Satd(3)) == Some(OffByOne(cprim.Entry(Satd(3)).value));
    assert !Agrees(cprim.Entry(Satd(3)).value, cand.Entry(Satd(3)).value, b1, b2, 0);
    assert Fails(env, Satd(3));
    assert PartitionLoop(env, 3, false) == LoopResult(Returned(-1), 3, [Failed(Satd(3))]);
    forall p | 0 <= p < 3 ensures cand.Entry(Satd(p)).None? && cand.Entry(Sad(p)).None? {
    }
    assert PartitionLoop(env, 2, false) == PartitionLoop(env, 3, false);
    assert PartitionLoop(env, 1, false) == PartitionLoop(env, 2, false);
    assert PartitionLoop(env, 0, false) == PartitionLoop(env, 1, false);
    assert FuncNames[3] == "8x8";
  }

  /** The testbench's global state. */
  class Testbench {
    /** The two input buffers; null until allocated. */
    var pbuf1: array?<int>
    var pbuf2: array?<int>
    /** `do_singleprimitivecheck`: only ever 0 or 1 in the program. */
    var singlePrimitiveCheck: bool
    /** `curpar`, a `uint16_t` partition cursor that persists across sweeps. */
    var curpar: nat
    /** Everything printed so far, on standard output and standard error. */
    var trace: seq<Event>

    ghost predicate Valid()
      reads this
    {
      curpar < UINT16_LIMIT
    }

    /** The globals at program start. */
    constructor ()
      ensures Valid()
      ensures pbuf1 == null && pbuf2 == null && !singlePrimitiveCheck && curpar == 0 && trace == []
    {
      pbuf1, pbuf2 := null, null;
      singlePrimitiveCheck := false;
      curpar := 0;
      trace := [];
    }

    /** `check_pixelprimitive`: compare candidate and reference at every
      probed offset into `pbuf1`, stopping at the first disagreement.
      `probed` counts the offsets evaluated. */
    method CheckPixelPrimitive(ref: PixelCmp, opt: PixelCmp) returns (r: int, ghost probed: nat)
      requires pbuf1 != null && pbuf2 != null
      ensures r == 0 || r == -1
      ensures r == 0 <==> Conforms(ref, opt, pbuf1[..], pbuf2[..])
      ensures 1 <= probed <= NUM_OFFSETS
      ensures forall i :: 0 <= i < probed - 1 ==> Agrees(ref, opt, pbuf1[..], pbuf2[..], i)
      ensures r == -1 ==> !Agrees(ref, opt, pbuf1[..], pbuf2[..], probed - 1)
      ensures r == 0 ==> probed == NUM_OFFSETS
    {
      var b1, b2 := pbuf1[..], pbuf2[..];
      var j := 0;
      var i := 0;
      while i <= 100
        invariant 0 <= i <= NUM_OFFSETS && j == OFFSET_STEP * i
        invariant forall k :: 0 <= k < i ==> Agrees(ref, opt, b1, b2, k)
      {
        var vres := opt(b1, j, STRIDE, b2, STRIDE);
        var cres := ref(b1, j, STRIDE, b2, STRIDE);
        if vres != cres {
          assert !Agrees(ref, opt, b1, b2, i);
          return -1, i + 1;
        }
        j := j + OFFSET_STEP;
        i := i + 1;
      }
      return 0, NUM_OFFSETS;
    }

    /** `check_cycle_count`: the timing is not modelled, only that its
      figures are printed. */
    method CheckCycleCount(s: Slot)
      modifies this`trace
      ensures trace == old(trace) + [Timed(s)]
    {
      trace := trace + [Timed(s)];
    }

    /** One `if (vectorprimitives.X) { ... }` block of
      `check_pixelprimitives`: skip an unimplemented slot; otherwise check
      it and print "failed!" or "passed" and the timing. */
    method CheckSlot(cprim: Table, vecprim: Table, s: Slot) returns (failed: bool)
      requires pbuf1 != null && pbuf2 != null && cprim.Full()
      modifies this`trace
      ensures var env := Env(cprim, vecprim, pbuf1[..], pbuf2[..]);
        failed == Fails(env, s) && trace == old(trace) + SlotEvents(env, s)
    {
      failed := false;
      match vecprim.Entry(s)
      case None =>
      case Some(opt) =>
        var r, _ := CheckPixelPrimitive(cprim.Entry(s).value, opt);
        if r < 0 {
          trace := trace + [Failed(s)];
          return true;
        }
        trace := trace + [Passed(s)];
        CheckCycleCount(s);
    }

    /** Two consecutive blocks of `check_pixelprimitives` where the
      second runs only if the first did not fail: SATD then SAD inside the
      partition loop, SA8D 8x8 then SA8D 16x16 after it. */
    method CheckPair(cprim: Table, vecprim: Table, a: Slot, b: Slot, ghost env: Env) returns (failed: bool)
      requires pbuf1 != null && pbuf2 != null && cprim.Full()
      requires env == Env(cprim, vecprim, pbuf1[..], pbuf2[..])
      modifies this`trace
      ensures failed == PairFails(env, a, b) && trace == old(trace) + PairEvents(env, a, b)
    {
      failed := CheckSlot(cprim, vecprim, a);
      if !failed {
        failed := CheckSlot(cprim, vecprim, b);
      }
    }

    /** `check_pixelprimitives`: the sweep from the current `curpar`, which
      it advances in place. */
    method CheckPixelPrimitives(cprim: Table, vecprim: Table) returns (ret: int)
      requires pbuf1 != null && pbuf2 != null && cprim.Full() && Valid()
      modifies this`curpar, this`trace
      ensures Valid()
      ensures var r := Sweep(Env(cprim, vecprim, pbuf1[..], pbuf2[..]), old(curpar), singlePrimitiveCheck);
        ret == r.ret && curpar == r.cursor && trace == old(trace) + r.events
    {
      ghost var env := Env(cprim, vecprim, pbuf1[..], pbuf2[..]);
      ghost var start := curpar;
      ghost var done: seq<Event> := [];
      LoopSoFarStart(env, start, singlePrimitiveCheck);
      while curpar < NUM_PARTITIONS
        invariant start <= curpar < UINT16_LIMIT
        invariant singlePrimitiveCheck ==> curpar == start
        invariant trace == old(trace) + done
        invariant env == Env(cprim, vecprim, pbuf1[..], pbuf2[..])
        invariant LoopSoFar(env, start, curpar, singlePrimitiveCheck, done)
        decreases NUM_PARTITIONS - curpar
      {
        ghost var visited := PairEvents(env, Satd(curpar), Sad(curpar));
        var failed := CheckPair(cprim, vecprim, Satd(curpar), Sad(curpar), env);
        ConcatAssoc(old(trace), done, visited);
        if failed || singlePrimitiveCheck {
          LoopSoFarExit(env, start, curpar, singlePrimitiveCheck, done);
          ret := if failed then -1 else 0;
          return;
        }
        LoopSoFarNext(env, start, curpar, singlePrimitiveCheck, done);
        done := done + visited;
        curpar := curpar + 1;
      }
      LoopSoFarEnd(env, start, curpar, singlePrimitiveCheck, done);
      ghost var tail := PairEvents(env, Sa8d8x8, Sa8d16x16);
      var failed := CheckPair(cprim, vecprim, Sa8d8x8, Sa8d16x16, env);
      ConcatAssoc(old(trace), done, tail);
      ret := if failed then -1 else 0;
    }

    /** `check_all_funcs`: the pixel-primitive sweep is the only check. */
    method CheckAllFuncs(cprim: Table, vecprim: Table) returns (ret: int)
      requires pbuf1 != null && pbuf2 != null && cprim.Full() && Valid()
      modifies this`curpar, this`trace
      ensures Valid()
      ensures var r := Sweep(Env(cprim, vecprim, pbuf1[..], pbuf2[..]), old(curpar), singlePrimitiveCheck);
        ret == r.ret && curpar == r.cursor && trace == old(trace) + r.events
    {
      ret := CheckPixelPrimitives(cprim, vecprim);
    }

    /** One variant's block in `main`: print the banner, run the checks
      and, if they fail, print the diagnostic. */
    method RunVariant(cprim: Table, prim: Table, v: Variant) returns (ret: int)
      requires pbuf1 != null && pbuf2 != null && cprim.Full() && Valid()
      modifies this`curpar, this`trace
      ensures Valid()
      ensures var r := Sweep(Env(cprim, prim, pbuf1[..], pbuf2[..]), old(curpar), singlePrimitiveCheck);
        ret == r.ret && curpar == r.cursor && trace == old(trace) + VariantEvents(v, r)
    {
      ghost var t0 := trace;
      trace := trace + [Testing(v)];
      ret := CheckAllFuncs(cprim, prim);
      ghost var r := Sweep(Env(cprim, prim, pbuf1[..], pbuf2[..]), old(curpar), singlePrimitiveCheck);
      ConcatAssoc(t0, [Testing(v)], r.events);
      if ret != 0 {
        trace := trace + [VariantFailed(v)];
      } else {
        ConcatUnit(t0 + [Testing(v)] + r.events);
      }
    }

    /** The argument loop of `main`: read `--name value` pairs; the last
      `--primitive` and the last `--cpuid` win. */
    method ParseArgs(argv: seq<string>, atoi: string -> int, detected: int) returns (cpuid: int)
      requires Valid()
      modifies this`curpar, this`singlePrimitiveCheck
      ensures Valid()
      ensures ArgState(cpuid, singlePrimitiveCheck, curpar) ==
        Parsed(argv, atoi, ArgState(detected, old(singlePrimitiveCheck), old(curpar)))
    {
      ghost var init := ArgState(detected, singlePrimitiveCheck, curpar);
      cpuid := detected;
      var i := 1;
      ghost var m: nat := 0;
      while i < |argv| - 1
        invariant i == 2 * m + 1 && m <= PairCount(|argv|) && Valid()
        invariant ArgState(cpuid, singlePrimitiveCheck, curpar) == ParsedPairs(argv, atoi, init, m)
      {
        ParsedPairsStep(argv, atoi, init, m);
        if argv[i] == PRIMITIVE_FLAG {
          singlePrimitiveCheck := true;
          curpar := ToUint16(atoi(argv[i + 1]));
        } else if argv[i] == CPUID_FLAG {
          cpuid := atoi(argv[i + 1]);
        }
        i := i + 2;
        m := m + 1;
      }
    }

    /** The fill loop of `main`: sample `i` of `pbuf1` and of `pbuf2` from
      the `2 i`-th and `2 i + 1`-th call of `rand`, masked with PIXEL_MAX;
      the slack after the first 0x1e00 samples is not written. */
    method FillBuffers(cfg: Config, rand: nat -> nat)
      requires pbuf1 != null && pbuf2 != null && pbuf1 != pbuf2
      requires pbuf1.Length >= FILL_SAMPLES && pbuf2.Length >= FILL_SAMPLES
      modifies pbuf1, pbuf2
      ensures Filled(cfg, rand, pbuf1[..], pbuf2[..])
      ensures pbuf1[FILL_SAMPLES..] == old(pbuf1[FILL_SAMPLES..])
      ensures pbuf2[FILL_SAMPLES..] == old(pbuf2[FILL_SAMPLES..])
    {
      var i := 0;
      while i < FILL_SAMPLES
        invariant 0 <= i <= FILL_SAMPLES
        invariant forall k :: 0 <= k < i ==> pbuf1[k] == Sample(cfg, rand, 2 * k)
        invariant forall k :: 0 <= k < i ==> pbuf2[k] == Sample(cfg, rand, 2 * k + 1)
        invariant pbuf1[FILL_SAMPLES..] == old(pbuf1[FILL_SAMPLES..])
        invariant pbuf2[FILL_SAMPLES..] == old(pbuf2[FILL_SAMPLES..])
      {
        pbuf1[i] := Sample(cfg, rand, 2 * i);
        pbuf2[i] := Sample(cfg, rand, 2 * i + 1);
        i := i + 1;
      }
    }

    /** The variant blocks of `main` after the buffers are filled: both
      tables come from the installer and a cleared table; a failing sweep
      ends the run with -1. */
    method SweepVariants(cfg: Config, cprim: Table, install: Installer, cpuid: int) returns (ret: int)
      requires pbuf1 != null && pbuf2 != null && cprim.Full() && Valid()
      modifies this`curpar, this`trace
      ensures Valid()
      ensures var o := MainOutcome(cfg, ArgState(cpuid, singlePrimitiveCheck, old(curpar)), true, cprim, install,
                                   pbuf1[..], pbuf2[..]);
        ret == o.ret && trace == old(trace) + o.events
    {
      ghost var start := curpar;
      var vecprim := Installed(install, cpuid);
      var asmprim := Installed(install, cpuid);
      ghost var env := Env(cprim, vecprim, pbuf1[..], pbuf2[..]);
      ghost var t0 := trace;
      ghost var vec := Sweep(env, start, singlePrimitiveCheck);
      ghost var vEvents: seq<Event> := [];
      if cfg.vectorEnabled {
        ret := RunVariant(cprim, vecprim, VectorClass);
        vEvents := VariantEvents(VectorClass, vec);
        if ret != 0 {
          return -1;
        }
      } else {
        ConcatUnit(t0);
      }
      ghost var asm := Sweep(env, curpar, singlePrimitiveCheck);
      ghost var aEvents: seq<Event> := [];
      if cfg.asmEnabled {
        ret := RunVariant(cprim, asmprim, Assembly);
        aEvents := VariantEvents(Assembly, asm);
        ConcatAssoc(t0, vEvents, aEvents);
        if ret != 0 {
          return -1;
        }
      } else {
        ConcatUnit(vEvents);
      }
      trace := trace + [AllPassed];
      ConcatAssoc(t0, vEvents + aEvents, [AllPassed]);
      return 0;
    }

    /** `main`. The detected CPU identifier, the outcome of the two
      allocations, `rand`, `atoi`, the reference table and the installer
      are inputs; which variants are compiled in and the bit depth are in
      `cfg`. */
    method Run(cfg: Config, argv: seq<string>, atoi: string -> int, detected: int,
               alloc1: bool, alloc2: bool, rand: nat -> nat, cprim: Table, install: Installer)
      returns (ret: int)
      requires Valid() && cprim.Full()
      modifies this
      ensures Valid()
      ensures alloc1 && alloc2 ==>
        pbuf1 != null && pbuf2 != null && fresh(pbuf1) && fresh(pbuf2) &&
        pbuf1.Length == BufferSamples(cfg) && pbuf2.Length == BufferSamples(cfg) &&
        Filled(cfg, rand, pbuf1[..], pbuf2[..])
      ensures var st := Parsed(argv, atoi, ArgState(detected, old(singlePrimitiveCheck), old(curpar)));
        var ok := alloc1 && alloc2;
        var o := MainOutcome(cfg, st, ok, cprim, install,
                             if ok then pbuf1[..] else [], if ok then pbuf2[..] else []);
        ret == o.ret && trace == old(trace) + o.events
    {
      var cpuid := ParseArgs(argv, atoi, detected);
      ghost var st := ArgState(cpuid, singlePrimitiveCheck, curpar);
      if alloc1 {
        pbuf1 := new int[BufferSamples(cfg)];
      } else {
        pbuf1 := null;
      }
      if alloc2 {
        pbuf2 := new int[BufferSamples(cfg)];
      } else {
        pbuf2 := null;
      }
      if pbuf1 == null || pbuf2 == null {
        trace := trace + [MallocFailed];
        return -1;
      }
      FillBuffers(cfg, rand);
      ret := SweepVariants(cfg, cprim, install, cpuid);
    }
  }
}
