/** The command-line scanner of the testbench: `argv[1..]` is read as
    `--name value` pairs; `--primitive <index>` selects single-partition
    mode at that partition and `--cpuid <id>` overrides the detected CPU
    identifier. This module states, independently of the scanning loop,
    what the scan leaves behind: the value of the LAST pair naming each
    flag. */
module Args {
  import opened Primitives

  const PRIMITIVE_FLAG: string := "--primitive"
  const CPUID_FLAG: string := "--cpuid"

  /** `curpar` is a `uint16_t`: assigning an `int` keeps it modulo 2^16. */
  const UINT16_LIMIT: nat := 0x1_0000

  function ToUint16(x: int): (r: nat)
    ensures r < UINT16_LIMIT
    ensures (r - x) % UINT16_LIMIT == 0
    ensures 0 <= x < UINT16_LIMIT ==> r == x
  {
    x % UINT16_LIMIT
  }

  /** What the scan decides: the CPU identifier, whether single-partition
      mode is on, and the partition cursor. */
  datatype ArgState = ArgState(cpuid: int, single: bool, curpar: nat)

  /** Pairs read for `argc` arguments: `i = 1, 3, ...` while `i < argc - 1`.
      Pair `m` is the flag `argv[2 m + 1]` with the value `argv[2 m + 2]`. */
  function PairCount(argc: nat): (n: nat)
    ensures 2 * n + 1 <= argc || n == 0
    ensures argc >= 1 ==> 2 * n + 1 == argc || 2 * n + 2 == argc
  {
    if argc < 2 then 0 else (argc - 1) / 2
  }

  /** The last of the first `m` pairs whose flag is `flag`. */
  function LastPair(argv: seq<string>, flag: string, m: nat): (r: Option<nat>)
    requires m <= PairCount(|argv|)
    ensures r.Some? ==> r.value < m && argv[2 * r.value + 1] == flag &&
                        forall j :: r.value < j < m ==> argv[2 * j + 1] != flag
    ensures r.None? ==> forall j :: 0 <= j < m ==> argv[2 * j + 1] != flag
  {
    if m == 0 then None
    else if argv[2 * (m - 1) + 1] == flag then Some(m - 1)
    else LastPair(argv, flag, m - 1)
  }

  /** The state after reading the first `m` pairs from `init`. */
  function ParsedPairs(argv: seq<string>, atoi: string -> int, init: ArgState, m: nat): (r: ArgState)
    requires m <= PairCount(|argv|)
    ensures init.curpar < UINT16_LIMIT ==> r.curpar < UINT16_LIMIT
  {
    var cpuid := match LastPair(argv, CPUID_FLAG, m)
      case None => init.cpuid
      case Some(j) => atoi(argv[2 * j + 2]);
    match LastPair(argv, PRIMITIVE_FLAG, m)
    case None => ArgState(cpuid, init.single, init.curpar)
    case Some(j) => ArgState(cpuid, true, ToUint16(atoi(argv[2 * j + 2])))
  }

  /** Single-partition mode is on after the first `m` pairs exactly when it
      was on before or one of them is `--primitive`; a flag that occurs in
      none of them leaves its part of the state as it was. */
  lemma ParsedPairsFlags(argv: seq<string>, atoi: string -> int, init: ArgState, m: nat)
    requires m <= PairCount(|argv|)
    ensures var r := ParsedPairs(argv, atoi, init, m);
      (r.single <==> init.single || exists j :: 0 <= j < m && argv[2 * j + 1] == PRIMITIVE_FLAG) &&
      ((forall j :: 0 <= j < m ==> argv[2 * j + 1] != PRIMITIVE_FLAG) ==> r.single == init.single && r.curpar == init.curpar) &&
      ((forall j :: 0 <= j < m ==> argv[2 * j + 1] != CPUID_FLAG) ==> r.cpuid == init.cpuid)
  {
    var r := ParsedPairs(argv, atoi, init, m);
    match LastPair(argv, PRIMITIVE_FLAG, m)
    case None =>
    case Some(j) =>
      assert 0 <= j < m && argv[2 * j + 1] == PRIMITIVE_FLAG;
    match LastPair(argv, CPUID_FLAG, m)
    case None =>
    case Some(j) =>
      assert argv[2 * j + 1] == CPUID_FLAG;
  }

  /** Reading pair `m` after the first `m`: `--primitive` turns
      single-partition mode on and sets the cursor, `--cpuid` sets the CPU
      identifier, any other flag changes nothing. */
  lemma ParsedPairsStep(argv: seq<string>, atoi: string -> int, init: ArgState, m: nat)
    requires m < PairCount(|argv|)
    ensures var before, flag, value := ParsedPairs(argv, atoi, init, m), argv[2 * m + 1], argv[2 * m + 2];
      ParsedPairs(argv, atoi, init, m + 1) ==
        if flag == PRIMITIVE_FLAG then ArgState(before.cpuid, true, ToUint16(atoi(value)))
        else if flag == CPUID_FLAG then ArgState(atoi(value), before.single, before.curpar)
        else before
  {
    assert PRIMITIVE_FLAG != CPUID_FLAG by {
      assert PRIMITIVE_FLAG[2] != CPUID_FLAG[2];
    }
  }

  /** The state after the whole scan; with fewer than three arguments no
      pair is read. */
  function Parsed(argv: seq<string>, atoi: string -> int, init: ArgState): (r: ArgState)
    ensures |argv| < 3 ==> r == init
    ensures init.curpar < UINT16_LIMIT ==> r.curpar < UINT16_LIMIT
  {
    ParsedPairs(argv, atoi, init, PairCount(|argv|))
  }

  /** Extra arguments do not change which of the existing pairs is last. */
  lemma {:induction false} LastPairExtend(argv: seq<string>, extra: seq<string>, flag: string, m: nat)
    requires m <= PairCount(|argv|)
    ensures m <= PairCount(|argv + extra|)
    ensures LastPair(argv + extra, flag, m) == LastPair(argv, flag, m)
  {
    if m > 0 {
      assert (argv + extra)[2 * (m - 1) + 1] == argv[2 * (m - 1) + 1];
      LastPairExtend(argv, extra, flag, m - 1);
    }
  }

  /** A trailing argument without a value is ignored. */
  lemma TrailingArgumentIgnored(argv: seq<string>, atoi: string -> int, init: ArgState, x: string)
    requires |argv| % 2 == 1
    ensures Parsed(argv + [x], atoi, init) == Parsed(argv, atoi, init)
  {
    var n := PairCount(|argv|);
    assert PairCount(|argv + [x]|) == n;
    LastPairExtend(argv, [x], CPUID_FLAG, n);
    LastPairExtend(argv, [x], PRIMITIVE_FLAG, n);
  }

  /** Appending the pair `flag value` (to an argument list that has no
      trailing argument) makes it the last pair. */
  lemma AppendPair(argv: seq<string>, flag: string, value: string, f: string)
    requires |argv| % 2 == 1
    ensures PairCount(|argv + [flag, value]|) == PairCount(|argv|) + 1
    ensures LastPair(argv + [flag, value], f, PairCount(|argv|) + 1) ==
      if flag == f then Some(PairCount(|argv|)) else LastPair(argv, f, PairCount(|argv|))
  {
    var n := PairCount(|argv|);
    assert (argv + [flag, value])[2 * n + 1] == flag;
    LastPairExtend(argv, [flag, value], f, n);
  }

  /** A pair whose flag is neither `--primitive` nor `--cpuid` is ignored. */
  lemma UnknownFlagIgnored(argv: seq<string>, atoi: string -> int, init: ArgState, flag: string, value: string)
    requires |argv| % 2 == 1 && flag != PRIMITIVE_FLAG && flag != CPUID_FLAG
    ensures Parsed(argv + [flag, value], atoi, init) == Parsed(argv, atoi, init)
  {
    AppendPair(argv, flag, value, CPUID_FLAG);
    AppendPair(argv, flag, value, PRIMITIVE_FLAG);
  }

  /** The last `--cpuid` wins; it changes nothing else. */
  lemma LastCpuidWins(argv: seq<string>, atoi: string -> int, init: ArgState, value: string)
    requires |argv| % 2 == 1
    ensures var before, after := Parsed(argv, atoi, init), Parsed(argv + [CPUID_FLAG, value], atoi, init);
      after == ArgState(atoi(value), before.single, before.curpar)
  {
    var n := PairCount(|argv|);
    AppendPair(argv, CPUID_FLAG, value, CPUID_FLAG);
    AppendPair(argv, CPUID_FLAG, value, PRIMITIVE_FLAG);
    assert (argv + [CPUID_FLAG, value])[2 * n + 2] == value;
  }

  /** The last `--primitive` wins: it turns single-partition mode on and
      sets the cursor to its value truncated to 16 bits; the CPU identifier
      is unchanged. */
  lemma LastPrimitiveWins(argv: seq<string>, atoi: string -> int, init: ArgState, value: string)
    requires |argv| % 2 == 1
    ensures var before, after := Parsed(argv, atoi, init), Parsed(argv + [PRIMITIVE_FLAG, value], atoi, init);
      after == ArgState(before.cpuid, true, ToUint16(atoi(value)))
  {
    var n := PairCount(|argv|);
    AppendPair(argv, PRIMITIVE_FLAG, value, CPUID_FLAG);
    AppendPair(argv, PRIMITIVE_FLAG, value, PRIMITIVE_FLAG);
    assert (argv + [PRIMITIVE_FLAG, value])[2 * n + 2] == value;
  }

  /** Flags are recognised only in flag position: a `--primitive` read as
      the value of another pair does not select a partition. */
  lemma FlagInValuePosition(atoi: string -> int, init: ArgState)
    ensures Parsed(["testbench", CPUID_FLAG, PRIMITIVE_FLAG, "5"], atoi, init) ==
      ArgState(atoi(PRIMITIVE_FLAG), init.single, init.curpar)
  {
    var argv := ["testbench", CPUID_FLAG, PRIMITIVE_FLAG, "5"];
    assert PairCount(|argv|) == 1;
    assert argv[1] == CPUID_FLAG && argv[1] != PRIMITIVE_FLAG;
  }
}
