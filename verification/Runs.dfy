/** Whole runs: the steps the system calls and faults make, and what every run
    of them keeps. */
module Runs {
  import opened VmTypes
  import opened AreaList
  import opened MmStruct
  import opened MergeSpec
  import opened MergeProof
  import opened Munmap
  import opened MmapSpec
  import opened Region
  import opened Brk
  import opened Stack
  import opened DoMmap
  import opened PageCount

  /** The limits a run is under. */
  datatype Env = Env(maxMapCount: int, gap: nat)

  /** What was done: an mmap of len bytes, an unmapping of [x, y), a brk call, a
      fault at page x that may have grown area i, a change of attributes, or a
      fault where there is no VMA. */
  datatype Op =
    | Mapping(len: nat, req: Area, k: nat, prev: bool, next: bool)
    | MappingFailed(x: int, y: int)
    | Unmapping(x: int, y: int)
    | UnmappingFailed(x: int, y: int)
    | Breaking(brk: nat, heap: Area, how: Outcome)
    | Growing(i: nat, x: int, b: Area, grown: bool)
    | Modifying
    | Idle

  /** A request for private anonymous memory that has not been faulted in. */
  predicate Unbacked(req: Area) { RequestOk(req) && req.anon == null && req.chain == [] && req.attr.policy == 0 }

  /** One step of a run, as the contracts of the engine describe it. */
  ghost predicate Step(e: Env, s: State, t: State, op: Op) {
    match op
    case Mapping(len, req, k, prev, next) =>
      && Unbacked(req) && req.end - req.start == PageAlign(len)
      && MappedStep(s, t, req, k, prev, next) && t.mapCount <= e.maxMapCount + 1
    case MappingFailed(x, y) => x <= y && FailedMmap(s, t, x, y) && (s == t || s.mapCount <= e.maxMapCount)
    case Unmapping(x, y) =>
      x < y && t == Unmapped(s, x, y) && (t.mapCount <= s.mapCount || t.mapCount <= e.maxMapCount)
    case UnmappingFailed(x, y) => FailedUnmap(s, t, x, y)
    case Breaking(brk, heap, how) =>
      && heap.start == PageAlign(s.counters.brk) && heap.end == PageAlign(brk) && Unheld(heap)
      && BrkStep(s, t, brk, heap, e.gap, how) && t.mapCount == |t.areas|
      && (how != Refused ==> t.mapCount <= s.mapCount || t.mapCount <= e.maxMapCount + 1)
    case Growing(i, x, b, grown) => GrowStep(s, t, i, x, b, grown) && (grown ==> i == First(s.areas, x))
    case Modifying =>
      && t.counters == s.counters && t.mapCount == |t.areas| && Wf(t.areas) && SameDomain(s.areas, t.areas)
      && (t.mapCount <= s.mapCount || t.mapCount <= e.maxMapCount)
    case Idle => t == s
  }

  predicate Unheld(heap: Area) {
    heap.pgoff == heap.start && 0 <= heap.start && heap.anon == null && heap.chain == [] && heap.attr.policy == 0
  }

  ghost predicate FailedUnmap(s: State, t: State, x: int, y: int) {
    t.counters == s.counters && t.mapCount == |t.areas| && MerelySplit(s.areas, t.areas, x, y)
  }

  /** What `validate_mm` and the counters promise of a state. */
  ghost predicate Accounted(s: State) {
    && Wf(s.areas) && s.mapCount == |s.areas|
    && s.counters.total == Sum(All, s.areas) && s.counters.locked == Sum(Locked, s.areas)
  }

  lemma UnmappedAccounted(s: State, x: int, y: int)
    requires Accounted(s) && x <= y
    ensures Accounted(Unmapped(s, x, y))
  {
    hide Wf; hide Cut; hide Sum;
    CutOk(s.areas, x, y);
  }

  lemma MappedAccounted(c: State, k: nat, req: Area, prev: bool, next: bool)
    requires Accounted(c) && Unbacked(req) && Hole(c.areas, k, req) && Joinable(c.areas, k, req, prev, next)
    ensures Accounted(Mapped(c, k, req, prev, next))
  {
    hide Wf; hide Sum; hide Placed; hide Joinable; hide Weight; hide MappedAs;
    JoinableIndex(c.areas, k, req, prev, next);
    PlacedMaps(c.areas, k, req, prev, next);
    PlacedSum(All, c.areas, k, req, prev, next);
    PlacedSum(Locked, c.areas, k, req, prev, next);
  }

  lemma JoinableIndex(s: seq<Area>, k: nat, req: Area, prev: bool, next: bool)
    requires k <= |s| && Joinable(s, k, req, prev, next)
    ensures (prev ==> k > 0) && (next ==> k < |s|)
  {}

  lemma SplitAccounted(s: State, t: State, x: int, y: int)
    requires Accounted(s) && FailedUnmap(s, t, x, y)
    ensures Accounted(t)
  {
    hide Wf; hide Sum; hide SplitAt;
    MerelySplitSame(s.areas, t.areas, x, y);
    MerelySplitWf(s.areas, t.areas, x, y);
  }

  lemma MerelySplitWf(s: seq<Area>, t: seq<Area>, x: int, y: int)
    requires Wf(s) && MerelySplit(s, t, x, y)
    ensures Wf(t)
  {
    SplitPages(s, x);
    SplitPages(SplitAt(s, x), y);
  }

  lemma {:induction false} SumUpdate(c: Kind, s: seq<Area>, i: nat, a: Area)
    requires i < |s|
    ensures Sum(c, s[i := a]) == Sum(c, s) - Weight(c, s[i]) + Weight(c, a)
  {
    if i > 0 {
      assert s[i := a][1..] == s[1..][i - 1 := a];
      SumUpdate(c, s[1..], i - 1, a);
    } else {
      assert s[0 := a][1..] == s[1..];
    }
  }

  lemma GrownAccounted(s: State, t: State, i: nat, x: int, b: Area, grown: bool)
    requires Accounted(s) && GrowStep(s, t, i, x, b, grown) && (grown ==> i == First(s.areas, x))
    ensures Accounted(t)
  {
    hide Wf; hide Sum; hide First; hide MappedAs;
    var a := if grown then GrownDown(b, x) else b;
    SumUpdate(All, s.areas, i, a);
    SumUpdate(Locked, s.areas, i, a);
    if grown { GrowthMaps(s.areas, i, b, x); } else { PreparedWf(s.areas, i, b); }
  }

  lemma MappingAccounted(s: State, t: State, req: Area, k: nat, prev: bool, next: bool)
    requires Accounted(s) && Unbacked(req) && MappedStep(s, t, req, k, prev, next)
    ensures Accounted(t)
  {
    hide Accounted; hide Mapped; hide Unmapped; hide Joinable;
    UnmappedAccounted(s, req.start, req.end);
    MappedAccounted(Unmapped(s, req.start, req.end), k, req, prev, next);
  }

  lemma MappingFailedAccounted(s: State, t: State, x: int, y: int)
    requires Accounted(s) && x <= y && FailedMmap(s, t, x, y)
    ensures Accounted(t)
  {
    hide Unmapped; hide MerelySplit;
    if t == Unmapped(s, x, y) { UnmappedAccounted(s, x, y); } else if t != s { SplitAccounted(s, t, x, y); }
  }

  lemma BrkMoved(s: State, brk: int)
    requires Accounted(s)
    ensures Accounted(s.(counters := s.counters.(brk := brk)))
  {}

  lemma BreakingAccounted(e: Env, s: State, t: State, brk: nat, heap: Area, how: Outcome)
    requires Accounted(s) && Step(e, s, t, Breaking(brk, heap, how))
    ensures Accounted(t)
  {
    hide Accounted; hide Mapped; hide Unmapped; hide Joinable; hide PageAlign; hide MerelySplit; hide RoomToGrow;
    var o, n := PageAlign(s.counters.brk), PageAlign(brk);
    BrkMoved(s, brk);
    var moved := s.(counters := s.counters.(brk := brk));
    match how
    case Refused => SplitAccounted(s, t, n, o);
    case Kept =>
    case Shrunk => UnmappedAccounted(moved, n, o);
    case Grown(k, joined) =>
      HeapHole(s, heap, e.gap, k, n);
      MappedAccounted(moved, k, heap, joined, false);
  }

  lemma HeapHole(s: State, heap: Area, gap: nat, k: nat, n: int)
    requires Accounted(s) && heap.start < heap.end == n && Unheld(heap) && RoomToGrow(s.areas, k, heap.start, n, gap)
    ensures Unbacked(heap) && Hole(s.areas, k, heap)
  {
    RoomIsHole(s.areas, k, heap, gap);
  }

  lemma ModifyingAccounted(e: Env, s: State, t: State)
    requires Accounted(s) && Step(e, s, t, Modifying)
    ensures t.mapCount == |t.areas| && Wf(t.areas) && t.counters.total == Sum(All, t.areas)
  {
    hide Wf; hide Sum; hide SameDomain;
    SameDomainSameSum(s.areas, t.areas);
  }

  /** Every step but a change of attributes keeps the invariant and the counters
      equal to the page sums. */
  lemma StepAccounted(e: Env, s: State, t: State, op: Op)
    requires Accounted(s) && Step(e, s, t, op) && op != Modifying
    ensures Accounted(t)
  {
    hide Accounted; hide Unmapped; hide MappedStep; hide FailedMmap; hide FailedUnmap; hide BrkStep; hide GrowStep;
    match op
    case Mapping(len, req, k, prev, next) => MappingAccounted(s, t, req, k, prev, next);
    case MappingFailed(x, y) => MappingFailedAccounted(s, t, x, y);
    case Unmapping(x, y) => UnmappedAccounted(s, x, y);
    case UnmappingFailed(x, y) => SplitAccounted(s, t, x, y);
    case Breaking(brk, heap, how) => BreakingAccounted(e, s, t, brk, heap, how);
    case Growing(i, x, b, grown) => GrownAccounted(s, t, i, x, b, grown);
    case Idle =>
  }

  // ---------------------------------------------------------------------
  // Runs
  // ---------------------------------------------------------------------

  ghost predicate IsRun(e: Env, ss: seq<State>, ops: seq<Op>) {
    |ss| == |ops| + 1 && forall i :: 0 <= i < |ops| ==> Step(e, ss[i], ss[i + 1], ops[i])
  }

  lemma RunPrefix(e: Env, ss: seq<State>, ops: seq<Op>)
    requires IsRun(e, ss, ops) && ops != []
    ensures IsRun(e, ss[..|ops|], ops[..|ops| - 1])
    ensures Step(e, ss[..|ops|][|ops| - 1], ss[|ops|], ops[|ops| - 1])
  {
    hide Step;
  }

  /** total_vm and locked_vm are the page sums, and the struct, tree and count
      agree, in every state of every run. */
  lemma {:induction false} RunAccounted(e: Env, ss: seq<State>, ops: seq<Op>)
    requires IsRun(e, ss, ops) && Accounted(ss[0]) && Modifying !in ops
    ensures Accounted(ss[|ops|])
  {
    hide Accounted; hide Step;
    if ops != [] {
      RunPrefix(e, ss, ops);
      RunAccounted(e, ss[..|ops|], ops[..|ops| - 1]);
      StepAccounted(e, ss[|ops| - 1], ss[|ops|], ops[|ops| - 1]);
    }
  }

  // ---------------------------------------------------------------------
  // The commit charge
  // ---------------------------------------------------------------------

  function Drift(s: State): int { s.counters.charged - Sum(Account, s.areas) }

  /** A growth of area i is charged whether or not the area has VM_ACCOUNT: what
      it charges for one that has not, nothing will give back. */
  predicate GrowsUnaccounted(s: State, op: Op) {
    op.Growing? && op.grown && op.i < |s.areas| && !s.areas[op.i].attr.flags.account
  }

  function Leaks(s: State, op: Op): int {
    if GrowsUnaccounted(s, op) then s.areas[op.i].start - op.x else 0
  }

  lemma MappingDrift(s: State, t: State, req: Area, k: nat, prev: bool, next: bool)
    requires Wf(s.areas) && Unbacked(req) && MappedStep(s, t, req, k, prev, next)
    ensures Drift(t) == Drift(s)
  {
    hide Sum; hide Placed; hide Joinable; hide Cut; hide Wf;
    var c := Cut(s.areas, req.start, req.end);
    CutOk(s.areas, req.start, req.end);
    JoinableIndex(c, k, req, prev, next);
    PlacedSum(Account, c, k, req, prev, next);
  }

  lemma SplitDrift(s: State, t: State, x: int, y: int)
    requires Wf(s.areas) && FailedUnmap(s, t, x, y)
    ensures Drift(t) == Drift(s)
  {
    hide Sum; hide MerelySplit; hide Wf;
    MerelySplitSame(s.areas, t.areas, x, y);
  }

  lemma BreakingDrift(e: Env, s: State, t: State, brk: nat, heap: Area, how: Outcome)
    requires Accounted(s) && Step(e, s, t, Breaking(brk, heap, how))
    ensures Drift(t) == Drift(s)
  {
    hide Sum; hide Cut; hide MerelySplit; hide Placed; hide PageAlign; hide RoomToGrow; hide Joinable;
    var o, n := PageAlign(s.counters.brk), PageAlign(brk);
    match how
    case Refused => SplitDrift(s, t, n, o);
    case Kept =>
    case Shrunk =>
    case Grown(k, joined) =>
      HeapHole(s, heap, e.gap, k, n);
      JoinableIndex(s.areas, k, heap, joined, false);
      PlacedSum(Account, s.areas, k, heap, joined, false);
  }

  lemma GrowingDrift(s: State, t: State, op: Op)
    requires op.Growing? && GrowStep(s, t, op.i, op.x, op.b, op.grown)
    ensures Drift(t) == Drift(s) + Leaks(s, op)
  {
    hide Sum;
    SumUpdate(Account, s.areas, op.i, if op.grown then GrownDown(op.b, op.x) else op.b);
  }

  lemma StepDrift(e: Env, s: State, t: State, op: Op)
    requires Accounted(s) && Step(e, s, t, op) && op != Modifying
    ensures Drift(t) == Drift(s) + Leaks(s, op)
  {
    hide Sum; hide MerelySplit; hide MappedStep; hide BrkStep; hide GrowStep; hide Cut; hide FailedUnmap;
    hide Drift; hide Wf;
    match op
    case Mapping(len, req, k, prev, next) => MappingDrift(s, t, req, k, prev, next);
    case MappingFailed(x, y) => FailedDrift(s, t, x, y);
    case Unmapping(x, y) => UnmappedDrift(s, x, y);
    case UnmappingFailed(x, y) => SplitDrift(s, t, x, y);
    case Breaking(brk, heap, how) => BreakingDrift(e, s, t, brk, heap, how);
    case Growing(i, x, b, grown) => GrowingDrift(s, t, op);
    case Idle =>
  }

  lemma UnmappedDrift(s: State, x: int, y: int)
    ensures Drift(Unmapped(s, x, y)) == Drift(s)
  {}

  lemma FailedDrift(s: State, t: State, x: int, y: int)
    requires Wf(s.areas) && FailedMmap(s, t, x, y)
    ensures Drift(t) == Drift(s)
  {
    hide MerelySplit; hide Drift; hide Unmapped; hide Wf;
    UnmappedDrift(s, x, y);
    if t != s && t != Unmapped(s, x, y) { SplitDrift(s, t, x, y); }
  }

  /** What all the growths of a run have leaked. */
  function Leaked(ss: seq<State>, ops: seq<Op>): int
    requires |ss| == |ops| + 1
  {
    if ops == [] then 0
    else Leaked(ss[..|ops|], ops[..|ops| - 1]) + Leaks(ss[|ops| - 1], ops[|ops| - 1])
  }

  /** The commit charge follows the pages of the VM_ACCOUNT areas through every
      run, but for what growths of other areas have leaked. */
  lemma {:induction false} RunCharged(e: Env, ss: seq<State>, ops: seq<Op>)
    requires IsRun(e, ss, ops) && Accounted(ss[0]) && Modifying !in ops
    ensures Drift(ss[|ops|]) == Drift(ss[0]) + Leaked(ss, ops)
  {
    hide Accounted; hide Step; hide Drift;
    if ops != [] {
      RunPrefix(e, ss, ops);
      RunAccounted(e, ss[..|ops|], ops[..|ops| - 1]);
      RunCharged(e, ss[..|ops|], ops[..|ops| - 1]);
      StepDrift(e, ss[|ops| - 1], ss[|ops|], ops[|ops| - 1]);
    }
  }

  lemma {:induction false} LeakedNothing(e: Env, ss: seq<State>, ops: seq<Op>)
    requires IsRun(e, ss, ops)
    ensures Leaked(ss, ops) >= 0
    ensures Leaked(ss, ops) == 0 <==> forall i :: 0 <= i < |ops| ==> !GrowsUnaccounted(ss[i], ops[i])
  {
    hide Step; hide GrowsUnaccounted; hide Leaks;
    if ops != [] {
      RunPrefix(e, ss, ops);
      var n := |ops| - 1;
      var ss', ops' := ss[..|ops|], ops[..n];
      LeakedNothing(e, ss', ops');
      LeakPositive(e, ss[n], ss[n + 1], ops[n]);
      assert forall i :: 0 <= i < n ==> GrowsUnaccounted(ss'[i], ops'[i]) == GrowsUnaccounted(ss[i], ops[i]);
    }
  }

  lemma LeakPositive(e: Env, s: State, t: State, op: Op)
    requires Step(e, s, t, op)
    ensures Leaks(s, op) >= 0 && (Leaks(s, op) == 0 <==> !GrowsUnaccounted(s, op))
  {}

  /** The charge is conserved exactly in the runs that grow no area without
      VM_ACCOUNT. */
  lemma ChargeConserved(e: Env, ss: seq<State>, ops: seq<Op>)
    requires IsRun(e, ss, ops) && Accounted(ss[0]) && Modifying !in ops
    requires ss[0].counters.charged == Sum(Account, ss[0].areas)
    ensures ss[|ops|].counters.charged == Sum(Account, ss[|ops|].areas) <==>
            forall i :: 0 <= i < |ops| ==> !GrowsUnaccounted(ss[i], ops[i])
  {
    hide Accounted; hide Step; hide Sum;
    RunCharged(e, ss, ops);
    LeakedNothing(e, ss, ops);
  }

  /** Such runs exist: private memory that grows down and is not writable is not
      charged when it is mapped, but is when it grows by a page. */
  lemma ChargeLeaks(e: Env, backing: AnonVma, brk: int) returns (ss: seq<State>, ops: seq<Op>)
    requires 0 <= e.maxMapCount
    ensures IsRun(e, ss, ops) && ss[0] == State([], 0, Counters(0, 0, 0, brk))
    ensures |ops| == 2 && ops[0].Mapping? && ops[1].Growing? && ops[1].grown
    ensures ops[0].req == Anonymous(200, 1, ops[0].req.attr.flags, 200) && GrowsUnaccounted(ss[1], ops[1])
    ensures Accounted(ss[2]) && Sum(Account, ss[2].areas) == 0 && ss[2].counters.charged == 1
  {
    var flags := Flags(true, false, false, false, false, false, false, false, true, false, false, 0);
    var req := Anonymous(200, 1, flags, 200);
    var a := Dirtied(req);
    var b := a.(anon := backing, chain := [backing]);
    var s0 := State([], 0, Counters(0, 0, 0, brk));
    var s1 := State([a], 1, Counters(1, 0, 0, brk));
    var s2 := State([GrownDown(b, 199)], 1, Counters(2, 0, 1, brk));
    ss, ops := [s0, s1, s2], [Mapping(PAGE, req, 0, false, false), Growing(0, 199, b, true)];
    assert Unmapped(s0, 200, 201) == s0;
    assert Placed([], 0, req, false, false) == [a];
    assert Step(e, s0, s1, ops[0]);
    assert [a][0 := GrownDown(b, 199)] == [GrownDown(b, 199)];
    assert Step(e, s1, s2, ops[1]);
  }
}
