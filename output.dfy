/** What the testbench writes to standard output and standard error, kept
    as a trace of events instead of formatted bytes. */
module Output {
  import opened Primitives

  /** Display names of the partitions, in partition index order. */
  const FuncNames: seq<string> := [
    "4x4", "8x4", "4x8", "8x8", "4x16", "16x4", "8x16", "16x8", "16x16", "4x32", "32x4", "8x32",
    "32x8", "16x32", "32x16", "32x32", "4x64", "64x4", "8x64", "64x8", "16x64", "64x16", "32x64", "64x32", "64x64"
  ]

  /** The two optimised variants the testbench can sweep. */
  datatype Variant = VectorClass | Assembly

  datatype Event =
    | Passed(slot: Slot)           // "<label>: passed "
    | Timed(slot: Slot)            // the timing figures check_cycle_count prints after a pass
    | Failed(slot: Slot)           // "<label>: failed!"
    | Testing(variant: Variant)    // "Testing vector class primitives" / "Testing assembly primitives"
    | VariantFailed(variant: Variant)  // the fatal diagnostic on standard error
    | MallocFailed                 // "malloc failed, unable to initiate tests!"
    | AllPassed                    // the final success banner

  predicate IsSlotEvent(e: Event)
  {
    e.Passed? || e.Timed? || e.Failed?
  }

  lemma ConcatAssoc(a: seq<Event>, b: seq<Event>, c: seq<Event>)
    ensures a + (b + c) == (a + b) + c
  {
  }

  lemma ConcatUnit(a: seq<Event>)
    ensures [] + a == a && a + [] == a
  {
  }

  /** The event reports on slot `s`. */
  predicate Mentions(e: Event, s: Slot)
  {
    IsSlotEvent(e) && e.slot == s
  }

  /** The name a slot is reported under: a per-partition metric ends with
      the partition's display name in brackets. */
  function Label(s: Slot): (l: string)
    requires InRange(s)
    ensures (s.Satd? || s.Sad?) ==>
      var n := FuncNames[s.part];
      |l| > |n| + 1 && l[|l| - 1] == ']' && l[|l| - 1 - |n|..|l| - 1] == n
  {
    match s
    case Satd(p) => "satd[" + FuncNames[p] + "]"
    case Sad(p) => "sad[" + FuncNames[p] + "]"
    case Sa8d8x8 => "sa8d_8x8"
    case Sa8d16x16 => "sa8d_16x16"
  }

  /** The line a pass or failure event prints: it starts with the slot's
      label; a failure line ends the line, a pass line leaves it open for
      the timing figures. */
  function Line(e: Event): (r: string)
    requires (e.Passed? || e.Failed?) && InRange(e.slot)
    ensures |Label(e.slot)| < |r| && r[..|Label(e.slot)|] == Label(e.slot)
    ensures e.Failed? <==> r[|r| - 1] == '\n'
  {
    if e.Passed? then Label(e.slot) + ": passed " else Label(e.slot) + ": failed!\n"
  }

  /** A reported label names exactly one slot, so every pass or failure
      line identifies the metric and the partition it is about. */
  lemma LabelsIdentifySlots(s: Slot, t: Slot)
    requires InRange(s) && InRange(t) && Label(s) == Label(t)
    ensures s == t
  {
    var l := Label(s);
    assert l[2] == Label(t)[2];
    match s {
      case Satd(p) =>
        assert l == "satd[" + FuncNames[p] + "]";
        if t.Satd? {
          NameInLabel("satd[", FuncNames[p], FuncNames[t.part]);
          FuncNamesDistinct(p, t.part);
        }
      case Sad(p) =>
        assert l == "sad[" + FuncNames[p] + "]";
        if t.Sad? {
          NameInLabel("sad[", FuncNames[p], FuncNames[t.part]);
          FuncNamesDistinct(p, t.part);
        }
      case Sa8d8x8 =>
      case Sa8d16x16 =>
    }
  }

  lemma NameInLabel(prefix: string, n: string, m: string)
    requires prefix + n + "]" == prefix + m + "]"
    ensures n == m
  {
    var a, b := prefix + n + "]", prefix + m + "]";
    assert |n| == |m|;
    assert n == a[|prefix|..|prefix| + |n|];
    assert m == b[|prefix|..|prefix| + |m|];
  }

  /** No two partitions share a display name. */
  lemma FuncNamesDistinct(p: nat, q: nat)
    requires p < NUM_PARTITIONS && q < NUM_PARTITIONS && FuncNames[p] == FuncNames[q]
    ensures p == q
  {
  }
}
