/** The system calls and faults of one process, in any sequence. */
module Calls {
  import opened VmTypes
  import opened AreaList
  import opened MmStruct
  import opened MergeSpec
  import opened MergeProof
  import opened Munmap
  import opened MmapSpec
  import opened Region
  import opened Brk
  import opened Stack
  import opened DoMmap
  import opened Limits
  import opened Exit
  import opened Modify
  import opened PageCount
  import opened Runs
  import opened RunShape
  import opened Quota

  datatype Request =
    | MmapCall(call: Call, uf: bool)
    | MunmapCall(start: nat, len: nat, uf: bool)
    | BrkCall(brk: nat)
    | Fault(addr: nat)

  predicate RequestFits(rq: Request) {
    match rq
    case MmapCall(call, uf) => CallOk(call)
    case MunmapCall(start, len, uf) => start < U64 && len < U64
    case BrkCall(brk) => brk < U64
    case Fault(addr) => true
  }

  ghost function EnvOf(mm: Mm): Env { Env(mm.maxMapCount, mm.guardGap) }

  predicate Ready(mm: Mm, lay: Layout)
    reads mm
  {
    SetUp(mm, lay) && 0 < mm.startBrk <= mm.brk <= TASK_SIZE
  }

  /** Only brk moves the break. */
  lemma BrkStays(e: Env, s: State, t: State, op: Op)
    requires Step(e, s, t, op) && !op.Breaking?
    ensures t.counters.brk == s.counters.brk
  {
    hide MerelySplit; hide Placed; hide Cut; hide Sum; hide Hole; hide Joinable; hide PageAlign; hide Wf; hide Prepared;
  }

  /** An mmap is a step of a run. */
  method MmapStep(mm: Mm, lim: MemoryList, pid: int, lay: Layout, call: Call, uf: bool) returns (ghost op: Op)
    requires mm.Valid() && Ready(mm, lay) && CallOk(call) && pid in lim.tasks && lim.tasks[pid] == mm
    modifies mm, mm.repr
    ensures mm.Valid() && fresh(mm.repr - old(mm.repr)) && Ready(mm, lay)
    ensures Step(EnvOf(mm), old(mm.GetState()), mm.GetState(), op)
    ensures op.Mapping? || op.MappingFailed?
    ensures op.Mapping? && !mm.mayFail && !call.flags.special ==> PlainStep(old(mm.GetState()), op)
    ensures Permitted(lim.entries, pid, old(mm.GetState()), op)
  {
    hide Fits; hide Wf; hide MappedStep; hide JoinsAll; hide MerelySplit; hide Unmapped; hide PageAlign; hide Find;
    ghost var s := mm.GetState();
    ghost var x, k, prev, next;
    var r;
    r, x, k, prev, next := KsysMmapPgoff(mm, lim, pid, lay, call, uf);
    var n := PageAlign(call.len);
    op := if r.At? then Mapping(call.len, Anonymous(x, n, call.flags, x), k, prev, next) else MappingFailed(x, x + n);
    BrkStays(EnvOf(mm), s, mm.GetState(), op);
    AnonymousIsPlain(x, n, call.flags);
  }

  /** ... as are an unmapping, */
  method MunmapStep(mm: Mm, lay: Layout, start: nat, len: nat, uf: bool) returns (ghost op: Op)
    requires mm.Valid() && Ready(mm, lay) && start < U64 && len < U64
    modifies mm, mm.repr
    ensures mm.Valid() && fresh(mm.repr - old(mm.repr)) && Ready(mm, lay)
    ensures Step(EnvOf(mm), old(mm.GetState()), mm.GetState(), op) && (op.Unmapping? || op.UnmappingFailed?)
  {
    hide Fits; hide Wf; hide MerelySplit; hide Unmapped;
    ghost var s := mm.GetState();
    var err := DoVmiMunmap(mm, start, len, uf);
    ghost var x, y := start / PAGE, start / PAGE + (len + PAGE - 1) / PAGE;
    op := if err == None then Unmapping(x, y) else UnmappingFailed(x, y);
    BrkStays(EnvOf(mm), s, mm.GetState(), op);
  }

  lemma HeapIsUnheld(mm: Mm, o: int, n: int)
    requires 0 <= o
    ensures Unheld(HeapRequest(mm, o, n - o)) && HeapRequest(mm, o, n - o).end == n && HeapRequest(mm, o, n - o).start == o
  {}

  /** ... a brk, */
  method BrkCallStep(mm: Mm, lim: MemoryList, pid: int, lay: Layout, brk: nat) returns (ghost op: Op)
    requires mm.Valid() && Ready(mm, lay) && brk < U64 && pid in lim.tasks && lim.tasks[pid] == mm
    modifies mm, mm.repr
    ensures mm.Valid() && fresh(mm.repr - old(mm.repr)) && Ready(mm, lay)
    ensures Step(EnvOf(mm), old(mm.GetState()), mm.GetState(), op) && op.Breaking?
    ensures Permitted(lim.entries, pid, old(mm.GetState()), op)
  {
    hide Fits; hide Wf; hide BrkStep; hide PageAlign; hide Find; hide HeapRequest;
    ghost var s := mm.GetState();
    ghost var how;
    var ret;
    ret, how := SysBrk(mm, lim, pid, brk);
    ghost var o, n := PageAlign(s.counters.brk), PageAlign(brk);
    HeapIsUnheld(mm, o, n);
    op := Breaking(brk, HeapRequest(mm, o, n - o), how);
  }

  /** ... and a fault, which may grow a stack. */
  method FaultStep(mm: Mm, lay: Layout, addr: nat) returns (ghost op: Op)
    requires mm.Valid() && Ready(mm, lay)
    modifies mm, mm.repr
    ensures mm.Valid() && fresh(mm.repr - old(mm.repr)) && Ready(mm, lay)
    ensures Step(EnvOf(mm), old(mm.GetState()), mm.GetState(), op)
    ensures op.Growing? || op == Idle
  {
    hide Fits; hide Wf; hide GrowStep; hide First;
    ghost var s := mm.GetState();
    ghost var i, b, grown;
    var vma;
    vma, i, b, grown := FindExtendVma(mm, addr);
    op := if i < |s.areas| then Growing(i, addr / PAGE, b, grown) else Idle;
    BrkStays(EnvOf(mm), s, mm.GetState(), op);
  }

  lemma MappedDomain(s: seq<Area>, t: seq<Area>, i: nat, req: Area)
    requires Wf(s) && i < |s| && s[i].start <= req.start && req.end <= s[i].end && MappedAs(s, t, req)
    ensures SameDomain(s, t)
  {
    forall x: int ensures PageAt(s, x).Some? <==> PageAt(t, x).Some? {
      assert MappedAt(s, t, req, x);
      if In(req, x) { PageAtIn(s, i, x); }
    }
  }

  lemma CarvedDomain(s: seq<Area>, x: int, y: int)
    requires Wf(s)
    ensures SameDomain(s, SplitAt(s, x)) && SameDomain(s, Carved(s, x, y)) && SameDomain(s, s)
  {
    SplitPages(s, x);
    SplitPages(SplitAt(s, x), y);
    hide SplitAt; hide Wf;
    assert forall p: int :: PageAt(s, p) == PageAt(SplitAt(s, x), p) == PageAt(Carved(s, x, y), p);
  }

  /** A change of attributes is a step: it maps and unmaps nothing. */
  method ModifyStep(mm: Mm, prev: Vma?, vma: Vma, start: int, end: int,
                    flags: Flags, policy: int, uffd: int, name: int, ghost i: nat) returns (res: Vma?)
    requires mm.Valid() && i < |mm.tree| && mm.tree[i].vma == vma
    requires vma.start <= start < end <= vma.end
    requires prev == if vma.start < start then vma else if i > 0 then mm.tree[i - 1].vma else null
    modifies mm`tree, mm`mapCount, mm`repr, mm.repr
    ensures mm.Valid() && Step(EnvOf(mm), old(mm.GetState()), mm.GetState(), Modifying)
  {
    hide Fits; hide Wf; hide Merged; hide MappedAs; hide SplitAt; hide Carved; hide SameDomain;
    ghost var s := mm.Areas();
    SoundWf(mm);
    CarvedDomain(s, start, end);
    var err;
    res, err := VmaModify(mm, prev, vma, start, end, flags, policy, uffd, name, i);
    ghost var req := Change(s[i], start, end, flags, policy, uffd, name);
    if MappedAs(s, mm.Areas(), req) { MappedDomain(s, mm.Areas(), i, req); }
    SoundWf(mm);
  }

  /** One request. */
  method Perform(mm: Mm, lim: MemoryList, pid: int, lay: Layout, rq: Request) returns (ghost op: Op)
    requires mm.Valid() && Ready(mm, lay) && RequestFits(rq) && pid in lim.tasks && lim.tasks[pid] == mm
    modifies mm, mm.repr
    ensures mm.Valid() && fresh(mm.repr - old(mm.repr)) && Ready(mm, lay)
    ensures Step(EnvOf(mm), old(mm.GetState()), mm.GetState(), op) && op != Modifying
    ensures op.Growing? ==> rq.Fault?
    ensures op.Growing? || Permitted(lim.entries, pid, old(mm.GetState()), op)
  {
    hide Fits; hide Step; hide AcceptedBy;
    match rq
    case MmapCall(call, uf) => op := MmapStep(mm, lim, pid, lay, call, uf);
    case MunmapCall(start, len, uf) => op := MunmapStep(mm, lay, start, len, uf);
    case BrkCall(brk) => op := BrkCallStep(mm, lim, pid, lay, brk);
    case Fault(addr) => op := FaultStep(mm, lay, addr);
  }

  /** The life of a process: from an empty address space, any requests in any
      order, and the exit. What has been done is a run; in its last state the
      counters are the page sums, and what the exit leaves charged is what growths
      of areas without VM_ACCOUNT have leaked. */
  method Live(mm: Mm, lim: MemoryList, pid: int, lay: Layout, rqs: seq<Request>)
    returns (count: int, ghost ss: seq<State>, ghost ops: seq<Op>)
    requires mm.Valid() && Ready(mm, lay) && pid in lim.tasks && lim.tasks[pid] == mm
    requires mm.Areas() == [] && mm.totalVm == 0 && mm.lockedVm == 0 && mm.charged == 0
    requires forall i :: 0 <= i < |rqs| ==> RequestFits(rqs[i])
    modifies mm, mm.repr
    ensures |ops| == |rqs| && IsRun(EnvOf(mm), ss, ops) && ss[0] == old(mm.GetState())
    ensures Accounted(ss[|rqs|]) && count == |ss[|rqs|].areas|
    ensures mm.charged == Leaked(ss, ops)
  {
    hide Fits; hide Step; hide Accounted; hide Leaked; hide Drift;
    ss, ops := [mm.GetState()], [];
    var i := 0;
    while i < |rqs|
      invariant i <= |rqs| && |ops| == i && IsRun(EnvOf(mm), ss, ops) && Modifying !in ops
      invariant ss[0] == old(mm.GetState()) && ss[i] == mm.GetState()
      invariant mm.Valid() && Ready(mm, lay) && fresh(mm.repr - old(mm.repr))
    {
      ghost var op := Perform(mm, lim, pid, lay, rqs[i]);
      RunMore(EnvOf(mm), ss, ops, mm.GetState(), op);
      ss, ops := ss + [mm.GetState()], ops + [op];
      i := i + 1;
    }
    StartAccounted(ss[0]);
    RunAccounted(EnvOf(mm), ss, ops);
    RunCharged(EnvOf(mm), ss, ops);
    DriftOf(ss[i]);
    count := ExitMmap(mm);
    CountOf(ss[i]);
  }

  lemma RunMore(e: Env, ss: seq<State>, ops: seq<Op>, t: State, op: Op)
    requires IsRun(e, ss, ops) && Step(e, ss[|ops|], t, op)
    ensures IsRun(e, ss + [t], ops + [op])
  {
    hide Step;
  }

  lemma StartAccounted(s: State)
    requires s.areas == [] && s.mapCount == 0 && s.counters.total == 0 && s.counters.locked == 0
    ensures Accounted(s) && Drift(s) == s.counters.charged
  {}

  lemma DriftOf(s: State)
    ensures s.counters.charged == Drift(s) + Sum(Account, s.areas)
  {}

  lemma CountOf(s: State)
    requires Accounted(s)
    ensures s.mapCount == |s.areas|
  {}
}
