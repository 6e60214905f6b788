/** A process with a memory limit stays within it: runs of several processes
    under the list of limits. */
module Quota {
  import opened VmTypes
  import opened AreaList
  import opened MmStruct
  import opened Munmap
  import opened MmapSpec
  import opened Mmap
  import opened Region
  import opened Brk
  import opened Limits
  import opened Runs

  /** The list of limits and the address spaces of the processes. */
  datatype World = World(entries: seq<Limit>, procs: map<int, State>)

  datatype Act = AddLimit(pid: int, limit: nat) | RemoveLimit(pid: int) | Runs(pid: int, op: Op)

  /** `total_vm << PAGE_SHIFT` */
  function UsageOf(s: State): int { s.counters.total * PAGE % U64 }

  /** The limiter has let the step pass: it is asked about the length of an mmap
      as it was passed, and about the difference of the aligned breaks. */
  predicate Permitted(entries: seq<Limit>, pid: int, s: State, op: Op) {
    match op
    case Mapping(len, req, k, prev, next) => len < U64 && AcceptedBy(entries, pid, UsageOf(s), len)
    case Breaking(brk, heap, how) =>
      how == Refused ||
      (brk <= TASK_SIZE
       && AcceptedBy(entries, pid, UsageOf(s), Sub64(PageAlign(brk) * PAGE, PageAlign(s.counters.brk) * PAGE)))
    case Growing(i, x, b, grown) => !grown
    case Modifying => false
    case _ => true
  }

  /** One step of the system. Adding a limit reads the usage of the process. */
  ghost predicate WorldStep(e: Env, w: World, v: World, act: Act) {
    match act
    case AddLimit(pid, limit) =>
      && pid in w.procs && UsageOf(w.procs[pid]) <= limit && Find(w.entries, pid) == |w.entries|
      && v == w.(entries := [Limit(pid, limit)] + w.entries)
    case RemoveLimit(pid) =>
      var i := Find(w.entries, pid);
      i < |w.entries| && v == w.(entries := w.entries[..i] + w.entries[i + 1..])
    case Runs(pid, op) =>
      && pid in w.procs && pid in v.procs && v == w.(procs := w.procs[pid := v.procs[pid]])
      && Step(e, w.procs[pid], v.procs[pid], op) && Permitted(w.entries, pid, w.procs[pid], op)
  }

  function RoundUp(limit: nat): nat { (limit + PAGE - 1) / PAGE * PAGE }

  ghost predicate Sane(s: State) { Accounted(s) && 0 <= s.counters.brk <= TASK_SIZE }

  /** No process has two entries, and each one that has an entry uses at most its
      limit, rounded up to a page. */
  ghost predicate WithinQuota(w: World) {
    && NoTwice(w.entries)
    && (forall pid :: pid in w.procs ==> Sane(w.procs[pid]))
    && forall i :: 0 <= i < |w.entries| ==>
         && w.entries[i].pid in w.procs
         && UsageOf(w.procs[w.entries[i].pid]) <= RoundUp(w.entries[i].memoryLimit)
  }

  /** Usage never wraps: an address space has less than 2^35 pages. */
  lemma UsageExact(s: State)
    requires Accounted(s)
    ensures 0 <= s.counters.total <= TASK_PAGES && UsageOf(s) == s.counters.total * PAGE
  {
    forall i | 0 <= i < |s.areas| ensures 0 <= s.areas[i].start && s.areas[i].end <= TASK_PAGES {
      assert AreaOk(s.areas[i]);
    }
    SumBounded(All, s.areas, 0, TASK_PAGES);
  }

  /** The pages a step may add. */
  function Added(s: State, op: Op): int {
    match op
    case Mapping(len, req, k, prev, next) => PageAlign(len)
    case Breaking(brk, heap, how) => if how.Grown? then PageAlign(brk) - PageAlign(s.counters.brk) else 0
    case _ => 0
  }

  lemma UnmappedTotal(s: State, x: int, y: int)
    requires Accounted(s) && x <= y
    ensures Unmapped(s, x, y).counters.total <= s.counters.total
  {
    hide Cut; hide Wf; hide Sum;
    if x < y {
      PagesInBounded(s.areas, x, y);
    } else {
      SumHeadTail(All, s.areas, x);
      SumConcat(All, Head(s.areas, x), Tail(s.areas, x));
      CutIs(s.areas, x);
    }
  }

  lemma CutIs(s: seq<Area>, x: int)
    ensures Cut(s, x, x) == Head(s, x) + Tail(s, x)
  {}

  lemma StepTotal(e: Env, s: State, t: State, op: Op)
    requires Accounted(s) && Step(e, s, t, op) && op != Modifying && !(op.Growing? && op.grown)
    ensures t.counters.total <= s.counters.total + Added(s, op)
    ensures op.Mapping? ==> 0 < PageAlign(op.len) <= TASK_PAGES
  {
    hide Accounted; hide MerelySplit; hide Placed; hide Cut; hide PageAlign; hide Joinable; hide RoomToGrow;
    hide Hole; hide Sum;
    match op
    case Mapping(len, req, k, prev, next) => UnmappedTotal(s, req.start, req.end);
    case MappingFailed(x, y) => UnmappedTotal(s, x, y);
    case Unmapping(x, y) => UnmappedTotal(s, x, y);
    case Breaking(brk, heap, how) =>
      if how == Shrunk { UnmappedTotal(s, PageAlign(brk), PageAlign(s.counters.brk)); }
    case _ =>
  }

  /** A 64-bit wrap in usage plus request lets no mapping through: a request that
      makes it wrap is longer than user space, or wraps to nothing when aligned. */
  lemma MappingWithin(total: int, len: nat, limit: nat)
    requires 0 <= total <= TASK_PAGES && len < U64 && 0 < PageAlign(len) <= TASK_PAGES
    requires Add64(total * PAGE, len) <= limit
    ensures (total + PageAlign(len)) * PAGE <= RoundUp(limit)
  {
    AlignOf(len);
    assert total * PAGE + len < U64;
    assert total + PageAlign(len) <= (total * PAGE + len + PAGE - 1) / PAGE;
  }

  /** A brk that shrinks the heap asks for a negative amount, and the sum wraps
      back to the usage there will be: exactly when that is not negative. */
  lemma ShrinkWraps(usage: int, o: int, n: int)
    requires 0 <= usage < U64 && 0 <= n <= o <= TASK_PAGES
    ensures Add64(usage, Sub64(n * PAGE, o * PAGE)) == usage - (o - n) * PAGE <==> (o - n) * PAGE <= usage
  {
    var d := (o - n) * PAGE;
    if d > 0 {
      assert Sub64(n * PAGE, o * PAGE) == U64 - d;
    }
    if d > usage {
      assert Add64(usage, Sub64(n * PAGE, o * PAGE)) >= 0;
    } else if d > 0 {
      assert (usage + (U64 - d)) % U64 == usage - d;
    }
  }

  lemma GrowthAsked(usage: int, o: int, n: int)
    requires 0 <= usage <= TASK_SIZE && 0 <= o <= n <= TASK_PAGES
    ensures Add64(usage, Sub64(n * PAGE, o * PAGE)) == usage + (n - o) * PAGE
  {
    assert Sub64(n * PAGE, o * PAGE) == (n - o) * PAGE;
  }

  lemma FindOnly(entries: seq<Limit>, i: nat)
    requires NoTwice(entries) && i < |entries|
    ensures Find(entries, entries[i].pid) == i
  {}

  /** A step that the limiter lets pass keeps the process within its limit. */
  lemma StepWithin(e: Env, entries: seq<Limit>, i: nat, s: State, t: State, op: Op)
    requires NoTwice(entries) && i < |entries| && Sane(s) && Step(e, s, t, op) && Permitted(entries, entries[i].pid, s, op)
    requires UsageOf(s) <= RoundUp(entries[i].memoryLimit)
    ensures UsageOf(t) <= RoundUp(entries[i].memoryLimit)
  {
    hide Accounted; hide Step; hide PageAlign; hide RoundUp;
    var limit := entries[i].memoryLimit;
    FindOnly(entries, i);
    UsageExact(s);
    StepTotal(e, s, t, op);
    StepAccounted(e, s, t, op);
    UsageExact(t);
    if op.Mapping? {
      MappingWithin(s.counters.total, op.len, limit);
    } else if op.Breaking? && op.how.Grown? {
      GrownWithin(e, s, t, op, limit);
    }
  }

  lemma GrownWithin(e: Env, s: State, t: State, op: Op, limit: nat)
    requires Sane(s) && Step(e, s, t, op) && op.Breaking? && op.how.Grown? && op.brk <= TASK_SIZE
    requires Add64(UsageOf(s), Sub64(PageAlign(op.brk) * PAGE, PageAlign(s.counters.brk) * PAGE)) <= limit
    ensures (s.counters.total + Added(s, op)) * PAGE <= RoundUp(limit)
  {
    hide Accounted; hide PageAlign; hide Mapped; hide Joinable; hide RoomToGrow;
    UsageExact(s);
    AlignOf(op.brk);
    AlignOf(s.counters.brk);
    GrowthAsked(UsageOf(s), PageAlign(s.counters.brk), PageAlign(op.brk));
  }

  lemma StepSane(e: Env, entries: seq<Limit>, pid: int, s: State, t: State, op: Op)
    requires Sane(s) && Step(e, s, t, op) && Permitted(entries, pid, s, op)
    ensures Sane(t)
  {
    StepAccounted(e, s, t, op);
    hide Accounted; hide PageAlign; hide RoomToGrow; hide Joinable; hide MerelySplit; hide Placed; hide Cut;
    hide Sum; hide Hole;
  }

  lemma {:induction false} WorldStepWithin(e: Env, w: World, v: World, act: Act)
    requires WithinQuota(w) && WorldStep(e, w, v, act)
    ensures WithinQuota(v)
  {
    hide Sane; hide Step; hide Permitted; hide UsageOf; hide Find;
    match act
    case AddLimit(pid, limit) =>
      AddKeeps(w.entries, pid, limit);
      assert limit <= RoundUp(limit);
    case RemoveLimit(pid) =>
    case Runs(pid, op) =>
      var s, t := w.procs[pid], v.procs[pid];
      StepSane(e, w.entries, pid, s, t, op);
      forall i | 0 <= i < |v.entries|
        ensures v.entries[i].pid in v.procs && UsageOf(v.procs[v.entries[i].pid]) <= RoundUp(v.entries[i].memoryLimit)
      {
        if v.entries[i].pid == pid { StepWithin(e, w.entries, i, s, t, op); }
      }
  }

  /** An entry for a process that has none leaves no process with two. */
  lemma AddKeeps(entries: seq<Limit>, pid: int, limit: nat)
    requires NoTwice(entries) && Find(entries, pid) == |entries|
    ensures NoTwice([Limit(pid, limit)] + entries)
  {
    var t := [Limit(pid, limit)] + entries;
    forall i, j | 0 <= i < j < |t| ensures t[i].pid != t[j].pid {
      if i == 0 { assert t[j] == entries[j - 1]; }
    }
  }

  /** Every limited process uses less than a page more than its limit. */
  ghost predicate AllWithin(w: World) {
    forall i :: 0 <= i < |w.entries| ==>
      w.entries[i].pid in w.procs && w.procs[w.entries[i].pid].counters.total * 4096 < w.entries[i].memoryLimit + 4096
  }

  lemma QuotaMeans(w: World)
    requires WithinQuota(w)
    ensures AllWithin(w)
  {
    hide Accounted;
    forall i | 0 <= i < |w.entries|
      ensures w.entries[i].pid in w.procs && w.procs[w.entries[i].pid].counters.total * 4096 < w.entries[i].memoryLimit + 4096
    {
      UsageExact(w.procs[w.entries[i].pid]);
    }
  }

  ghost predicate IsWorldRun(e: Env, ws: seq<World>, acts: seq<Act>) {
    |ws| == |acts| + 1 && forall i :: 0 <= i < |acts| ==> WorldStep(e, ws[i], ws[i + 1], acts[i])
  }

  lemma WorldRunMore(e: Env, ws: seq<World>, acts: seq<Act>, v: World, act: Act)
    requires IsWorldRun(e, ws, acts) && WorldStep(e, ws[|acts|], v, act)
    ensures IsWorldRun(e, ws + [v], acts + [act])
  {
    hide WorldStep;
  }

  lemma StartsWithin(w: World)
    requires w.entries == [] && forall pid :: pid in w.procs ==> Sane(w.procs[pid])
    ensures WithinQuota(w)
  {
    hide Sane;
  }

  /** In every run of a set of processes that starts with an empty list, in
      whatever order limits are added and removed and memory is mapped, unmapped
      and broken, every limited process stays within its quota. */
  lemma {:induction false} RunWithinQuota(e: Env, ws: seq<World>, acts: seq<Act>)
    requires IsWorldRun(e, ws, acts) && ws[0].entries == []
    requires forall pid :: pid in ws[0].procs ==> Sane(ws[0].procs[pid])
    ensures WithinQuota(ws[|acts|]) && AllWithin(ws[|acts|])
  {
    hide WorldStep; hide Sane; hide AllWithin; hide WithinQuota;
    StartsWithin(ws[0]);
    if acts != [] {
      var n := |acts| - 1;
      var ws', acts' := ws[..n + 1], acts[..n];
      assert forall i :: 0 <= i < n ==> WorldStep(e, ws'[i], ws'[i + 1], acts'[i]) == WorldStep(e, ws[i], ws[i + 1], acts[i]);
      RunWithinQuota(e, ws', acts');
      WorldStepWithin(e, ws[n], ws[n + 1], acts[n]);
    }
    QuotaMeans(ws[|acts|]);
  }
}
