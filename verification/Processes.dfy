/** Several processes and the list of limits, served one call after another. */
module Processes {
  import opened VmTypes
  import opened AreaList
  import opened MmStruct
  import opened DoMmap
  import opened Limits
  import opened Runs
  import opened Quota
  import opened Calls

  /** The processes that have an address space. */
  function Mms(lim: MemoryList): (r: set<Mm>)
    ensures forall pid :: pid in lim.tasks && lim.tasks[pid] != null ==> lim.tasks[pid] in r
    ensures forall mm :: mm in r ==> exists pid :: pid in lim.tasks && lim.tasks[pid] == mm
  {
    set pid | pid in lim.tasks && lim.tasks[pid] != null :: lim.tasks[pid]
  }

  /** All VMAs they have ever had. */
  ghost function Reprs(lim: MemoryList): set<Vma>
    reads Mms(lim)
  {
    set mm, v | mm in Mms(lim) && v in mm.repr :: v
  }

  /** No two processes share an address space or a VMA. */
  ghost predicate Separate(lim: MemoryList)
    reads Mms(lim)
  {
    forall p, q :: p in lim.tasks && q in lim.tasks && p != q && lim.tasks[p] != null && lim.tasks[q] != null ==>
      lim.tasks[p] != lim.tasks[q] && lim.tasks[p].repr !! lim.tasks[q].repr
  }

  /** A process's address space is valid and set up, under the limits of the system. */
  ghost predicate InOrder(mm: Mm, e: Env)
    reads mm, mm.Vmas()
  {
    && mm.Valid() && EnvOf(mm) == e && mm.minAddr % PAGE == 0 && mm.minAddr <= TASK_SIZE
    && 0 < mm.startBrk <= mm.brk <= TASK_SIZE
  }

  ghost function AllVmas(lim: MemoryList): set<Vma>
    reads Mms(lim)
  {
    set mm, v | mm in Mms(lim) && v in mm.Vmas() :: v
  }

  ghost predicate AllInOrder(lim: MemoryList, e: Env)
    reads Mms(lim), AllVmas(lim)
  {
    Separate(lim) && forall p :: p in lim.tasks && lim.tasks[p] != null ==> InOrder(lim.tasks[p], e)
  }

  /** The world the list and the processes make. */
  ghost function WorldOf(lim: MemoryList): World
    reads lim, Mms(lim), AllVmas(lim)
  {
    World(lim.entries, map pid | pid in lim.tasks && lim.tasks[pid] != null :: lim.tasks[pid].GetState())
  }

  lemma SameProcs(lim: MemoryList, w: World)
    requires w.procs.Keys == (set pid | pid in lim.tasks && lim.tasks[pid] != null)
    requires forall pid :: pid in lim.tasks && lim.tasks[pid] != null ==> lim.tasks[pid].GetState() == w.procs[pid]
    ensures WorldOf(lim).procs == w.procs
  {
    var v := WorldOf(lim).procs;
    assert v.Keys == w.procs.Keys;
    assert forall p :: p in v ==> v[p] == w.procs[p];
  }

  /** Adding and removing a limit are steps of the system, or change nothing. */
  method AddLimitStep(lim: MemoryList, pid: int, limit: nat, admin: bool, gotMemory: bool, ghost e: Env)
    returns (code: Option<int>)
    requires limit < U64 && AllInOrder(lim, e)
    modifies lim`entries
    ensures AllInOrder(lim, e) && Reprs(lim) == old(Reprs(lim))
    ensures if code == Some(0) then WorldStep(e, old(WorldOf(lim)), WorldOf(lim), AddLimit(pid, limit))
            else WorldOf(lim) == old(WorldOf(lim))
  {
    hide Fits; hide Wf;
    ghost var w := WorldOf(lim);
    code := lim.AddMemoryLimit(pid, limit, admin, gotMemory);
    forall p | p in lim.tasks && lim.tasks[p] != null ensures InOrder(lim.tasks[p], e) {
      assert lim.tasks[p].GetState() == old(lim.tasks[p].GetState());
      assert old(InOrder(lim.tasks[p], e));
    }
    SameProcs(lim, w);
  }

  method RemoveLimitStep(lim: MemoryList, pid: int, admin: bool, ghost e: Env) returns (code: int)
    requires AllInOrder(lim, e)
    modifies lim`entries
    ensures AllInOrder(lim, e) && Reprs(lim) == old(Reprs(lim))
    ensures if code == 0 then WorldStep(e, old(WorldOf(lim)), WorldOf(lim), RemoveLimit(pid))
            else WorldOf(lim) == old(WorldOf(lim))
  {
    hide Fits; hide Wf;
    ghost var w := WorldOf(lim);
    code := lim.RemoveMemoryLimit(pid, admin);
    forall p | p in lim.tasks && lim.tasks[p] != null ensures InOrder(lim.tasks[p], e) {
      assert lim.tasks[p].GetState() == old(lim.tasks[p].GetState());
      assert old(InOrder(lim.tasks[p], e));
    }
    SameProcs(lim, w);
  }

  lemma VmasOwned(mm: Mm)
    requires mm.Sound()
    ensures mm.Vmas() <= mm.repr
  {
    forall v | v in mm.Vmas() ensures v in mm.repr {
      var i :| 0 <= i < |mm.tree| && mm.tree[i].vma == v;
      InRepr(mm, i);
    }
  }

  lemma AllOwned(lim: MemoryList, e: Env)
    requires AllInOrder(lim, e)
    ensures forall p :: p in lim.tasks && lim.tasks[p] != null ==> lim.tasks[p].Vmas() <= lim.tasks[p].repr
  {
    forall p | p in lim.tasks && lim.tasks[p] != null ensures lim.tasks[p].Vmas() <= lim.tasks[p].repr {
      VmasOwned(lim.tasks[p]);
    }
  }

  lemma OrderMeans(mm: Mm, e: Env, lay: Layout)
    requires 0 < lay.base <= TASK_PAGES
    ensures InOrder(mm, e) <==> mm.Valid() && EnvOf(mm) == e && Ready(mm, lay)
  {}

  /** A request of one process is a step of the system, and leaves every other
      process alone. */
  method CallStep(lim: MemoryList, pid: int, mm: Mm, lay: Layout, rq: Request, ghost e: Env) returns (ghost op: Op)
    requires AllInOrder(lim, e) && pid in lim.tasks && lim.tasks[pid] == mm
    requires 0 < lay.base <= TASK_PAGES && RequestFits(rq) && !rq.Fault?
    modifies mm, mm.repr
    ensures AllInOrder(lim, e) && fresh(Reprs(lim) - old(Reprs(lim)))
    ensures WorldStep(e, old(WorldOf(lim)), WorldOf(lim), Act.Runs(pid, op))
  {
    hide Fits; hide Wf; hide Step; hide Permitted; hide AcceptedBy; hide InOrder;
    ghost var w := WorldOf(lim);
    AllOwned(lim, e);
    OrderMeans(mm, e, lay);
    op := Perform(mm, lim, pid, lay, rq);
    forall p | p in lim.tasks && p != pid && lim.tasks[p] != null
      ensures lim.tasks[p].GetState() == w.procs[p] && InOrder(lim.tasks[p], e)
      ensures lim.tasks[p].repr == old(lim.tasks[p].repr)
    {
      assert lim.tasks[p] != mm;
    }
    OrderMeans(mm, e, lay);
    assert WorldOf(lim).procs == w.procs[pid := mm.GetState()];
  }

  datatype Event =
    | AddCall(pid: int, limit: nat, admin: bool, gotMemory: bool)
    | RemoveCall(pid: int, admin: bool)
    | MemoryCall(pid: int, lay: Layout, rq: Request)

  /** The calls that the limiter covers: a fault may grow a stack, which it does not
      look at. */
  predicate EventFits(lim: MemoryList, ev: Event) {
    match ev
    case AddCall(pid, limit, admin, gotMemory) => limit < U64
    case RemoveCall(pid, admin) => true
    case MemoryCall(pid, lay, rq) =>
      && pid in lim.tasks && lim.tasks[pid] != null
      && 0 < lay.base <= TASK_PAGES && RequestFits(rq) && !rq.Fault?
  }

  /** One event: a step of the system, or nothing. */
  method Handle(lim: MemoryList, ev: Event, ghost e: Env) returns (ghost act: Option<Act>)
    requires AllInOrder(lim, e) && EventFits(lim, ev)
    modifies lim`entries, Mms(lim), Reprs(lim)
    ensures AllInOrder(lim, e) && fresh(Reprs(lim) - old(Reprs(lim)))
    ensures if act == None then WorldOf(lim) == old(WorldOf(lim))
            else WorldStep(e, old(WorldOf(lim)), WorldOf(lim), act.value)
  {
    hide WorldStep; hide WorldOf; hide AllInOrder;
    match ev
    case AddCall(pid, limit, admin, gotMemory) =>
      var code := AddLimitStep(lim, pid, limit, admin, gotMemory, e);
      act := if code == Some(0) then Some(AddLimit(pid, limit)) else None;
    case RemoveCall(pid, admin) =>
      var code := RemoveLimitStep(lim, pid, admin, e);
      act := if code == 0 then Some(RemoveLimit(pid)) else None;
    case MemoryCall(pid, lay, rq) =>
      ghost var op := CallStep(lim, pid, lim.tasks[pid], lay, rq, e);
      act := Some(Act.Runs(pid, op));
  }

  /** Any number of processes that start with their counters right and without
      limits, and any events: what has been done is a run of the system, so in the
      end every process is within its quota. */
  method Serve(lim: MemoryList, evs: seq<Event>, ghost e: Env) returns (ghost ws: seq<World>, ghost acts: seq<Act>)
    requires AllInOrder(lim, e) && lim.entries == []
    requires forall p :: p in lim.tasks && lim.tasks[p] != null ==> Accounted(lim.tasks[p].GetState())
    requires forall i :: 0 <= i < |evs| ==> EventFits(lim, evs[i])
    modifies lim`entries, Mms(lim), Reprs(lim)
    ensures AllInOrder(lim, e)
    ensures IsWorldRun(e, ws, acts) && ws[0] == old(WorldOf(lim)) && ws[|acts|] == WorldOf(lim)
    ensures WithinQuota(WorldOf(lim))
    ensures forall i :: 0 <= i < |lim.entries| ==>
      && lim.entries[i].pid in lim.tasks && lim.tasks[lim.entries[i].pid] != null
      && lim.tasks[lim.entries[i].pid].totalVm * 4096 < lim.entries[i].memoryLimit + 4096
  {
    hide WorldStep; hide WorldOf; hide AllInOrder; hide Accounted; hide Sane; hide WithinQuota; hide IsWorldRun;
    hide EventFits; hide AllWithin;
    StartSane(lim, e);
    ws, acts := [WorldOf(lim)], [];
    EmptyRun(e, ws);
    var i := 0;
    while i < |evs|
      invariant i <= |evs| && IsWorldRun(e, ws, acts) && |ws| == |acts| + 1
      invariant ws[0] == old(WorldOf(lim)) && ws[|acts|] == WorldOf(lim)
      invariant AllInOrder(lim, e) && fresh(Reprs(lim) - old(Reprs(lim)))
    {
      ghost var reprs := Reprs(lim);
      ghost var act := Handle(lim, evs[i], e);
      assert Reprs(lim) - old(Reprs(lim)) <= (Reprs(lim) - reprs) + (reprs - old(Reprs(lim)));
      if act.Some? {
        WorldRunMore(e, ws, acts, WorldOf(lim), act.value);
        ws, acts := ws + [WorldOf(lim)], acts + [act.value];
      }
      i := i + 1;
    }
    RunWithinQuota(e, ws, acts);
    AllWithinMeans(lim);
  }

  lemma AllWithinMeans(lim: MemoryList)
    requires AllWithin(WorldOf(lim))
    ensures forall i :: 0 <= i < |lim.entries| ==>
      && lim.entries[i].pid in lim.tasks && lim.tasks[lim.entries[i].pid] != null
      && lim.tasks[lim.entries[i].pid].totalVm * 4096 < lim.entries[i].memoryLimit + 4096
  {}

  lemma EmptyRun(e: Env, ws: seq<World>)
    requires |ws| == 1
    ensures IsWorldRun(e, ws, [])
  {}

  lemma StartSane(lim: MemoryList, e: Env)
    requires AllInOrder(lim, e)
    requires forall p :: p in lim.tasks && lim.tasks[p] != null ==> Accounted(lim.tasks[p].GetState())
    ensures forall p :: p in WorldOf(lim).procs ==> Sane(WorldOf(lim).procs[p])
    ensures WorldOf(lim).entries == lim.entries
  {
    hide Accounted;
  }
}
