/** What runs keep of the shape of the VMA list: how long it gets, and that the
    page map determines it. */
module RunShape {
  import opened VmTypes
  import opened AreaList
  import opened MmStruct
  import opened Munmap
  import opened MmapSpec
  import opened Region
  import opened Brk
  import opened Canonical
  import opened PageCount
  import opened Runs

  // ---------------------------------------------------------------------
  // map_count
  // ---------------------------------------------------------------------

  /** A removal makes the list longer by one at most. */
  lemma CutGrows(s: seq<Area>, x: int, y: int)
    requires x <= y
    ensures |Cut(s, x, y)| <= |s| + 1
  {
    var i, j := First(s, x), First(s, y);
    assert i <= j;
  }

  /** An unmapping, on its own or inside an mmap or a brk, has failed and has left
      extra splits behind. */
  ghost predicate FailsPartWay(s: State, t: State, op: Op) {
    match op
    case MappingFailed(x, y) => t != Unmapped(s, x, y) && t.areas != s.areas
    case UnmappingFailed(x, y) => t.areas != s.areas
    case Breaking(brk, heap, how) => how == Refused && t.areas != s.areas
    case _ => false
  }

  lemma StepCount(e: Env, s: State, t: State, op: Op)
    requires s.mapCount == |s.areas| <= e.maxMapCount + 1 && Step(e, s, t, op) && !FailsPartWay(s, t, op)
    ensures t.mapCount == |t.areas| <= e.maxMapCount + 1
  {
    hide Cut; hide Placed; hide MerelySplit; hide Sum; hide PageAlign; hide SameDomain; hide Wf; hide Joinable;
    hide RoomToGrow;
    match op
    case MappingFailed(x, y) => if t == Unmapped(s, x, y) { CutGrows(s.areas, x, y); }
    case _ =>
  }

  /** In no state of a run has the address space more areas than the limit and one,
      unless an unmapping has failed part-way. */
  lemma {:induction false} RunCount(e: Env, ss: seq<State>, ops: seq<Op>)
    requires IsRun(e, ss, ops) && ss[0].mapCount == |ss[0].areas| <= e.maxMapCount + 1
    requires forall i :: 0 <= i < |ops| ==> !FailsPartWay(ss[i], ss[i + 1], ops[i])
    ensures ss[|ops|].mapCount == |ss[|ops|].areas| <= e.maxMapCount + 1
  {
    hide Step; hide FailsPartWay;
    if ops != [] {
      RunPrefix(e, ss, ops);
      var ss', ops' := ss[..|ops|], ops[..|ops| - 1];
      assert forall i :: 0 <= i < |ops'| ==> FailsPartWay(ss'[i], ss'[i + 1], ops'[i]) == FailsPartWay(ss[i], ss[i + 1], ops[i]);
      RunCount(e, ss', ops');
      StepCount(e, ss[|ops| - 1], ss[|ops|], ops[|ops| - 1]);
    }
  }

  // ---------------------------------------------------------------------
  // Canonical lists
  // ---------------------------------------------------------------------

  /** An unmapping, or a mapping of private anonymous memory that joins every
      neighbour it can join. */
  ghost predicate PlainStep(s: State, op: Op) {
    match op
    case Unmapping(x, y) => true
    case Mapping(len, req, k, prev, next) => PlainRequest(req) && JoinsAll(s.areas, req, k, prev, next)
    case _ => false
  }

  lemma StepCanon(e: Env, s: State, t: State, op: Op)
    requires Canon(s.areas) && Step(e, s, t, op) && PlainStep(s, op)
    ensures Canon(t.areas)
  {
    hide Cut; hide Placed; hide Sum; hide JoinsPrev; hide JoinsNext; hide Canon; hide PlainRequest; hide PageAlign;
    match op
    case Unmapping(x, y) => CutCanon(s.areas, x, y);
    case Mapping(len, req, k, prev, next) =>
      CutCanon(s.areas, req.start, req.end);
      PlacedCanon(Cut(s.areas, req.start, req.end), k, req);
  }

  lemma {:induction false} RunCanon(e: Env, ss: seq<State>, ops: seq<Op>)
    requires IsRun(e, ss, ops) && ss[0].areas == [] && forall i :: 0 <= i < |ops| ==> PlainStep(ss[i], ops[i])
    ensures Canon(ss[|ops|].areas)
  {
    hide Step; hide PlainStep; hide Plain;
    if ops != [] {
      RunPrefix(e, ss, ops);
      var ss', ops' := ss[..|ops|], ops[..|ops| - 1];
      assert forall i :: 0 <= i < |ops'| ==> PlainStep(ss'[i], ops'[i]) == PlainStep(ss[i], ops[i]);
      RunCanon(e, ss', ops');
      StepCanon(e, ss[|ops| - 1], ss[|ops|], ops[|ops| - 1]);
    }
  }

  /** Whatever the two runs did, if they end with the same page map they end with
      the same list of areas. */
  lemma RunsAgree(e: Env, ss: seq<State>, ops: seq<Op>, tt: seq<State>, ops': seq<Op>)
    requires IsRun(e, ss, ops) && ss[0].areas == [] && forall i :: 0 <= i < |ops| ==> PlainStep(ss[i], ops[i])
    requires IsRun(e, tt, ops') && tt[0].areas == [] && forall i :: 0 <= i < |ops'| ==> PlainStep(tt[i], ops'[i])
    requires SamePages(ss[|ops|].areas, tt[|ops'|].areas)
    ensures ss[|ops|].areas == tt[|ops'|].areas
  {
    hide Step; hide PlainStep;
    RunCanon(e, ss, ops);
    RunCanon(e, tt, ops');
    CanonUnique(ss[|ops|].areas, tt[|ops'|].areas);
  }

  /** What `mmap_region` is asked for is such a request, unless it is special. */
  lemma AnonymousIsPlain(addr: int, len: int, flags: Flags)
    ensures PlainRequest(Anonymous(addr, len, flags, addr)) <==> !flags.special
  {}
}
