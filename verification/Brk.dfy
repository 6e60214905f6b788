/** The brk system call. */
module Brk {
  import opened VmTypes
  import opened AreaList
  import opened MmStruct
  import opened Adjust
  import opened Expand
  import opened MergeSpec
  import opened MergeProof
  import opened Munmap
  import opened MmapSpec
  import opened Mmap
  import opened Region
  import opened HoleSpec
  import opened GetArea
  import opened Limits
  import T = RangeTree

  /** The area a grown heap asks for. */
  function HeapRequest(mm: Mm, addr: int, len: int): Area {
    Area(addr, addr + len, addr,
         Attr(mm.defFlags.(read := true, write := true, account := true, softDirty := false), null, 0, 0, 0),
         null, [], false)
  }

  /** Growing the heap VMA in place. */
  method GrowHeapVma(mm: Mm, vma: Vma, req: Area, ghost k: nat) returns (ok: bool)
    requires mm.Valid() && 0 < k <= |mm.tree| && mm.tree[k - 1].vma == vma && Hole(mm.Areas(), k, req)
    requires Joinable(mm.Areas(), k, req, true, false) && req.anon == null && req.chain == []
    modifies mm`tree, mm`mapCount, vma
    ensures mm.Valid()
    ensures ok ==> mm.Areas() == Placed(old(mm.Areas()), k, req, true, false)
    ensures !ok ==> mm.tree == old(mm.tree) && mm.Areas() == old(mm.Areas())
    ensures !mm.mayFail ==> ok
  {
    hide Fits; hide Wf; hide Expanded; hide MappedAs; hide Placed; hide Hole; hide Mergeable;
    ghost var s := mm.Areas();
    SoundWf(mm);
    RawDirtied(s, k, req, true, false);
    EntryAt(mm, k - 1);
    HoleAbove(s, k, req);
    ok := VmaExpand(mm, vma, vma.start, req.end, vma.pgoff, null, k - 1);
    if ok { SetDirty(mm, vma, k - 1); }
  }

  lemma HoleAbove(s: seq<Area>, k: nat, req: Area)
    requires Hole(s, k, req) && 0 < k
    ensures s[k - 1].end <= req.end
  {}

  /** The area that ends at page o can be extended as the heap: it ends above the start
      of the heap, is like the pages of a heap in every field, and has no backing or
      was not cloned. */
  predicate HeapJoins(s: seq<Area>, k: nat, o: int, f: Flags, startBrk: int) {
    && 0 < k <= |s| && s[k - 1].end == o && s[k - 1].end * PAGE > startBrk && s[k - 1].attr.policy == 0
    && Agree(s[k - 1].attr,
         Attr(Flags(true, true, f.exec, f.shared, f.locked, true, f.noReserve, false, f.growsDown, f.special, f.hugetlb, f.other),
              null, 0, 0, 0))
    && s[k - 1].pgoff + (s[k - 1].end - s[k - 1].start) == o && BackingsFit(null, s[k - 1].anon, s[k - 1].chain)
  }

  lemma HeapJoinsIs(mm: Mm, s: seq<Area>, k: nat, o: int, len: int)
    requires k <= |s|
    ensures HeapJoins(s, k, o, mm.defFlags, mm.startBrk) <==>
      && k > 0 && s[k - 1].end * PAGE > mm.startBrk && s[k - 1].end == o && s[k - 1].attr.policy == 0
      && CanMergeAfter(s[k - 1], HeapRequest(mm, o, len))
  {
    if k > 0 { CleanAgree(s[k - 1].attr, HeapRequest(mm, o, len).attr); }
  }

  /** `do_brk_flags`: the heap's VMA is extended if it fits, or else a new VMA is
      made; the pages are charged and counted, or nothing changes. */
  method DoBrkFlags(mm: Mm, brkvma: Vma?, addr: int, len: int, ghost k: nat) returns (err: Status, ghost joined: bool)
    requires mm.Valid() && k <= |mm.tree| && Hole(mm.Areas(), k, HeapRequest(mm, addr, len))
    requires brkvma != null ==> k > 0 && brkvma == mm.tree[k - 1].vma
    modifies mm, mm.repr
    ensures mm.Valid() && fresh(mm.repr - old(mm.repr)) && mm.brk == old(mm.brk)
    ensures err == None ==> Joinable(old(mm.Areas()), k, HeapRequest(mm, addr, len), joined, false)
    ensures err == None ==>
      mm.GetState() == Mapped(old(mm.GetState()), k, HeapRequest(mm, addr, len), joined, false)
    ensures err == None ==> (joined <==>
      && brkvma != null && old(mm.Areas())[k - 1].end == addr && old(mm.Areas())[k - 1].attr.policy == 0
      && CanMergeAfter(old(mm.Areas())[k - 1], HeapRequest(mm, addr, len)))
    ensures err == None ==> mm.totalVm <= mm.limitAs && mm.mapCount <= mm.maxMapCount + 1
    ensures err != None ==> mm.GetState() == old(mm.GetState())
    ensures !mm.mayFail ==> (err == None <==> old(mm.totalVm) + len <= mm.limitAs && old(mm.mapCount) <= mm.maxMapCount)
  {
    hide Fits; hide Wf; hide Placed; hide Hole; hide Mergeable;
    joined := false;
    ghost var s := mm.Areas();
    var req := HeapRequest(mm, addr, len);
    var may := MayExpandVm(mm, len);
    assert mm.Areas() == s;
    if !may || mm.mapCount > mm.maxMapCount { return Some(ENOMEM), joined; }
    var enough :| enough || mm.mayFail;
    if !enough { return Some(ENOMEM), joined; }
    mm.Charge(len);
    var ok;
    if brkvma != null && brkvma.end == addr && brkvma.attr.policy == 0 && CanMergeAfter(brkvma.Snapshot(), req) {
      joined := true;
      InRepr(mm, k - 1);
      ok := GrowHeapVma(mm, brkvma, req, k);
    } else {
      var vma := InsertFresh(mm, req, k);
      ok := vma != null;
    }
    PlacedSize(s, k, req, joined);
    if !ok {
      mm.Charge(-len);
      return Some(ENOMEM), joined;
    }
    mm.Account(len, req.attr.flags.locked);
    err := None;
  }

  lemma PlacedSize(s: seq<Area>, k: nat, req: Area, joined: bool)
    requires k <= |s| && (joined ==> k > 0)
    ensures |Placed(s, k, req, joined, false)| <= |s| + 1
    ensures Weight(All, req) == req.end - req.start
    ensures Weight(Account, req) == if req.attr.flags.account then req.end - req.start else 0
    ensures Weight(Locked, req) == if req.attr.flags.locked then req.end - req.start else 0
  {}

  /** Where the heap may grow: within user space, into a hole that leaves a page
      before the guard gap of the next mapping. */
  ghost predicate RoomToGrow(s: seq<Area>, k: nat, o: int, n: int, gap: nat) {
    && k == First(s, o) && n <= TASK_PAGES
    && (k < |s| ==> Leaves(s[k], n + 1, gap))
  }

  lemma HeapRange(mm: Mm, o: int, n: int)
    requires 0 <= o < n <= TASK_PAGES
    ensures var heap := HeapRequest(mm, o, n - o); RequestOk(heap) && heap.start == o && heap.end == n
  {}

  lemma RoomIsHole(s: seq<Area>, k: nat, req: Area, gap: nat)
    requires Wf(s) && RequestOk(req) && RoomToGrow(s, k, req.start, req.end, gap)
    ensures Hole(s, k, req)
  {}

  /** The test before growing: a VMA that meets the range, a page and a guard gap
      beyond must have its own gap begin a page beyond the range. */
  lemma GapTest(s: seq<Area>, o: int, n: int, gap: nat)
    requires Wf(s) && 0 <= o < n
    ensures var k := First(s, o); k < |s| ==>
      (Leaves(s[k], n + 1, gap) <==> s[k].start < n + 1 + gap ==> n + 1 <= StartGap(s[k], gap))
  {}

  /** `check_brk_limits`: whether a mapping could be fixed there, and whether mlock
      allows it. With MAP_FIXED no search is made, so the layout does not matter. */
  method CheckBrkLimits(mm: Mm, o: nat, len: nat) returns (err: Status)
    requires mm.Valid() && mm.minAddr % PAGE == 0 && mm.minAddr <= TASK_SIZE && 0 < len && o * PAGE < U64
    ensures err == None ==> InLimits(o, len, mm.minAddr / PAGE)
    ensures err != None ==> mm.mayFail || !InLimits(o, len, mm.minAddr / PAGE)
  {
    var r := GetUnmappedArea(mm, o * PAGE, len, true, false, 1);
    if !r.At? { return Some(ENOMEM); }
    var mlockOk :| mlockOk || mm.mayFail;
    err := if mlockOk then None else Some(EAGAIN);
  }

  /** The range fits in user space, and its length in what lies above the minimum. */
  predicate InLimits(o: int, len: int, minPage: int) { len <= TASK_PAGES - minPage && o + len <= TASK_PAGES }

  /** The look-up before a grow: no mapping, and no guard gap of one, comes within a page
      of the range. */
  method RoomAbove(mm: Mm, o: int, n: int) returns (ok: bool)
    requires mm.Valid() && 0 <= o < n
    ensures var s, k := mm.Areas(), First(mm.Areas(), o); ok <==> (k < |s| ==> Leaves(s[k], n + 1, mm.guardGap))
  {
    hide Fits; hide Wf; hide First; hide T.First; hide StartGap; hide Leaves;
    ghost var s, k := mm.Areas(), First(mm.Areas(), o);
    SoundWf(mm);
    SameFirst(mm.tree, s, o);
    GapTest(s, o, n, mm.guardGap);
    if k < |s| { EntryAt(mm, k); }
    var next := mm.FindIntersection(o, n + 1 + mm.guardGap);
    ok := next == null || n + 1 <= StartGap(next.Snapshot(), mm.guardGap);
  }

  /** `vma_prev_limit`: the VMA before page o, if it ends above the start of the heap. */
  method HeapVma(mm: Mm, o: int) returns (vma: Vma?)
    requires mm.Valid()
    ensures var s, k := mm.Areas(), First(mm.Areas(), o);
      vma == if k > 0 && s[k - 1].end * PAGE > mm.startBrk then mm.tree[k - 1].vma else null
  {
    hide Fits; hide First; hide T.First;
    SameFirst(mm.tree, mm.Areas(), o);
    vma := mm.PrevVma(o);
    if vma != null && vma.end * PAGE <= mm.startBrk { vma := null; }
  }

  /** The grow itself, once there is room. */
  method GrowInto(mm: Mm, o: int, n: int, ghost k: nat) returns (err: Status, ghost joined: bool)
    requires mm.Valid() && 0 <= o < n <= TASK_PAGES && k == First(mm.Areas(), o)
    requires Hole(mm.Areas(), k, HeapRequest(mm, o, n - o))
    modifies mm, mm.repr
    ensures mm.Valid() && fresh(mm.repr - old(mm.repr)) && mm.brk == old(mm.brk)
    ensures err == None ==> Joinable(old(mm.Areas()), k, HeapRequest(mm, o, n - o), joined, false)
    ensures err == None ==> mm.GetState() == Mapped(old(mm.GetState()), k, HeapRequest(mm, o, n - o), joined, false)
    ensures err == None ==> HeapGrown(old(mm.Areas()), mm.Areas(), o, n, mm.defFlags)
    ensures err == None ==> (joined <==> HeapJoins(old(mm.Areas()), k, o, mm.defFlags, mm.startBrk))
    ensures err == None ==> mm.totalVm <= mm.limitAs && mm.mapCount <= mm.maxMapCount + 1
    ensures err != None ==> mm.GetState() == old(mm.GetState())
    ensures !mm.mayFail ==>
      (err == None <==> old(mm.totalVm) + (n - o) <= mm.limitAs && old(mm.mapCount) <= mm.maxMapCount)
  {
    hide Fits; hide Wf; hide Placed; hide Mergeable; hide First; hide Hole; hide Joinable;
    hide HeapGrown; hide CanMergeAfter; hide HeapJoins; hide HeapRequest; hide Mapped;
    ghost var s, before := mm.Areas(), mm.GetState();
    SoundWf(mm);
    HeapJoinsIs(mm, s, k, o, n - o);
    HeapRange(mm, o, n);
    var brkvma := HeapVma(mm, o);
    assert mm.Areas() == s;
    err, joined := DoBrkFlags(mm, brkvma, o, n - o, k);
    if err == None { HeapIsGrown(mm, before, mm.GetState(), o, n, k, joined); }
  }

  /** The growing half of brk, from the break at page o to page n. */
  method GrowBrk(mm: Mm, o: int, n: int) returns (err: Status, ghost k: nat, ghost joined: bool)
    requires mm.Valid() && 0 <= o <= TASK_PAGES && 0 <= n < U64_PAGES && o != n
    requires mm.minAddr % PAGE == 0 && mm.minAddr <= TASK_SIZE
    modifies mm, mm.repr
    ensures mm.Valid() && fresh(mm.repr - old(mm.repr)) && mm.brk == old(mm.brk)
    ensures err == None ==> o < n && RoomToGrow(old(mm.Areas()), k, o, n, mm.guardGap) && k <= |old(mm.Areas())|
    ensures err == None ==> Joinable(old(mm.Areas()), k, HeapRequest(mm, o, n - o), joined, false)
    ensures err == None ==> mm.GetState() == Mapped(old(mm.GetState()), k, HeapRequest(mm, o, n - o), joined, false)
    ensures err == None ==> HeapGrown(old(mm.Areas()), mm.Areas(), o, n, mm.defFlags)
    ensures err == None ==> (joined <==> HeapJoins(old(mm.Areas()), k, o, mm.defFlags, mm.startBrk))
    ensures err == None ==> mm.totalVm <= mm.limitAs && mm.mapCount <= mm.maxMapCount + 1
    ensures err != None ==> mm.GetState() == old(mm.GetState())
    ensures !mm.mayFail ==>
      (err == None <==>
        && o < n && RoomToGrow(old(mm.Areas()), First(old(mm.Areas()), o), o, n, mm.guardGap)
        && n - o <= TASK_PAGES - mm.minAddr / PAGE
        && old(mm.totalVm) + (n - o) <= mm.limitAs && old(mm.mapCount) <= mm.maxMapCount)
  {
    hide Fits; hide Wf; hide Placed; hide Mergeable; hide First; hide T.First; hide Hole; hide Joinable; hide Leaves;
    hide HeapGrown; hide CanMergeAfter; hide HeapJoins; hide HeapRequest; hide Mapped;
    ghost var s := mm.Areas();
    SoundWf(mm);
    joined, k := false, First(s, o);
    SameFirst(mm.tree, s, o);
    err := CheckBrkLimits(mm, o, (n - o) % U64_PAGES);
    assert mm.Areas() == s;
    if err != None { return; }
    var room := RoomAbove(mm, o, n);
    assert mm.Areas() == s;
    if !room { return Some(ENOMEM), k, joined; }
    HeapRange(mm, o, n);
    RoomIsHole(s, k, HeapRequest(mm, o, n - o), mm.guardGap);
    err, joined := GrowInto(mm, o, n, k);
  }

  datatype Outcome = Refused | Kept | Shrunk | Grown(k: nat, joined: bool)

  /** What a brk call does to the state: everything it was asked for, or nothing
      but extra splits at most. The break moves with the pages. */
  ghost predicate BrkStep(s: State, t: State, brk: int, heap: Area, gap: nat, how: Outcome) {
    var o, n := PageAlign(s.counters.brk), PageAlign(brk);
    var moved := s.(counters := s.counters.(brk := brk));
    match how
    case Refused => t.counters == s.counters && MerelySplit(s.areas, t.areas, n, o)
    case Kept => n == o && t == moved
    case Shrunk => n < o && t == Unmapped(moved, n, o)
    case Grown(k, joined) =>
      && o < n && RoomToGrow(s.areas, k, o, n, gap) && k <= |s.areas|
      && Joinable(s.areas, k, heap, joined, false) && t == Mapped(moved, k, heap, joined, false)
  }

  /** An area has a page in [x, y). */
  predicate Meets(s: seq<Area>, x: int, y: int) {
    First(s, x) < |s| && s[First(s, x)].start < y
  }

  /** The shrinking half of brk: the range must meet a mapping. */
  method ShrinkBrk(mm: Mm, brk: int, n: int, o: int) returns (err: Status)
    requires mm.Valid() && n < o
    modifies mm, mm.repr
    ensures mm.Valid() && fresh(mm.repr - old(mm.repr))
    ensures err == None ==>
      mm.GetState() == Unmapped(old(mm.GetState()).(counters := old(mm.GetCounters()).(brk := brk)), n, o)
    ensures err == None ==> mm.mapCount <= old(mm.mapCount) || mm.mapCount <= mm.maxMapCount
    ensures err == None ==> mm.brk == brk
    ensures err != None ==>
      mm.GetCounters() == old(mm.GetCounters()) && MerelySplit(old(mm.Areas()), mm.Areas(), n, o)
    ensures !mm.mayFail ==>
      (err == None <==> Meets(old(mm.Areas()), n, o) && !TooMany(old(mm.Areas()), n, o, mm.maxMapCount))
  {
    hide Fits; hide Wf; hide MerelySplit; hide Cut; hide Sum; hide First; hide T.First; hide TooMany;
    ghost var s := mm.Areas();
    StartsSplit(s, n, o);
    SameFirst(mm.tree, s, n);
    if First(s, n) < |s| { EntryAt(mm, First(s, n)); }
    var brkvma := mm.FindIntersection(n, o);
    if brkvma == null || brkvma.start >= o { return Some(EINVAL); }
    err := MunmapPages(mm, n, o, true);
    if err == None { mm.SetBrk(brk); }
  }

  /** Everything but the limiter that decides on a brk: there is something to
      unmap, or room to grow. */
  ghost predicate BrkGoes(s: seq<Area>, total: int, from: int, brk: nat, minPage: int, gap: nat, limit: int,
                          max: int) {
    var o, n := PageAlign(from), PageAlign(brk);
    if o == n then true
    else if brk <= from then Meets(s, n, o) && !TooMany(s, n, o, max)
    else
      && o < n && n - o <= TASK_PAGES - minPage && RoomToGrow(s, First(s, o), o, n, gap)
      && total + (n - o) <= limit && |s| <= max
  }

  /** The pages of [o, n) are mapped as the heap's: private anonymous memory that can
      be read and written and counts as charged, the other flags being the process's
      default ones; no other page changes. */
  ghost predicate HeapGrown(s: seq<Area>, t: seq<Area>, o: int, n: int, defFlags: Flags) {
    var f := defFlags;
    LaidOver(s, t, Area(o, n, o,
      Attr(Flags(true, true, f.exec, f.shared, f.locked, true, f.noReserve, false, f.growsDown, f.special, f.hugetlb, f.other),
           null, 0, 0, 0), null, [], false))
    && BackingSurvives(s, t) && DirtyIn(t, o, n)
  }

  lemma HeapIsGrown(mm: Mm, before: State, after: State, o: int, n: int, k: nat, joined: bool)
    requires var s, heap := before.areas, HeapRequest(mm, o, n - o);
      && Wf(s) && RequestOk(heap) && Hole(s, k, heap) && Joinable(s, k, heap, joined, false)
      && after == Mapped(before, k, heap, joined, false)
    ensures HeapGrown(before.areas, after.areas, o, n, mm.defFlags)
  {
    hide Wf; hide Placed; hide LaidOver; hide BackingSurvives; hide MappedAs; hide DirtyIn;
    var s, heap := before.areas, HeapRequest(mm, o, n - o);
    PlacedMaps(s, k, heap, joined, false);
    MappedLays(s, Placed(s, k, heap, joined, false), heap);
    PlacedDirty(s, k, heap, joined, false);
  }

  /** Moving the break, which the limiter has let pass: within its page, down or up. */
  method MoveBrk(mm: Mm, brk: nat) returns (ghost how: Outcome)
    requires mm.Valid() && brk < U64 && 0 < mm.brk <= TASK_SIZE && mm.minAddr % PAGE == 0 && mm.minAddr <= TASK_SIZE
    modifies mm, mm.repr
    ensures mm.Valid() && fresh(mm.repr - old(mm.repr))
    ensures var o, n := PageAlign(old(mm.brk)), PageAlign(brk);
      BrkStep(old(mm.GetState()), mm.GetState(), brk, HeapRequest(mm, o, n - o), mm.guardGap, how)
    ensures mm.brk == (if how == Refused then old(mm.brk) else brk) && (how != Refused ==> brk <= TASK_SIZE)
    ensures how.Grown? ==> mm.totalVm <= mm.limitAs
    ensures how.Grown? ==> HeapGrown(old(mm.Areas()), mm.Areas(), PageAlign(old(mm.brk)), PageAlign(brk), mm.defFlags)
    ensures how.Grown? ==>
      (how.joined <==> HeapJoins(old(mm.Areas()), how.k, PageAlign(old(mm.brk)), mm.defFlags, mm.startBrk))
    ensures how != Refused ==> mm.mapCount <= old(mm.mapCount) || mm.mapCount <= mm.maxMapCount + 1
    ensures !mm.mayFail ==>
      (how != Refused <==>
        BrkGoes(old(mm.Areas()), old(mm.totalVm), old(mm.brk), brk, mm.minAddr / PAGE, mm.guardGap, mm.limitAs,
                mm.maxMapCount))
  {
    hide Fits; hide Wf; hide MerelySplit; hide Unmapped; hide Placed; hide Sum; hide Joinable; hide HeapGrown;
    hide HeapJoins; hide PageAlign; hide First; hide Meets; hide TooMany;
    AlignOf(brk);
    AlignOf(mm.brk);
    how := Refused;
    var newbrk, oldbrk := PageAlign(brk), PageAlign(mm.brk);
    StartsSplit(mm.Areas(), newbrk, oldbrk);
    if oldbrk == newbrk {
      mm.SetBrk(brk);
      how := Kept;
    } else if brk <= mm.brk {
      var err := ShrinkBrk(mm, brk, newbrk, oldbrk);
      if err == None { how := Shrunk; }
    } else {
      var err, k, joined := GrowBrk(mm, oldbrk, newbrk);
      if err == None {
        mm.SetBrk(brk);
        how := Grown(k, joined);
      }
    }
  }

  /** `brk`: returns the new break with exactly the pages between the aligned
      breaks added or removed, or the old break with nothing changed. Apart from
      memory and what is not modelled it is refused exactly for the reasons listed. */
  method SysBrk(mm: Mm, lim: MemoryList, pid: int, brk: nat) returns (ret: int, ghost how: Outcome)
    requires mm.Valid() && pid in lim.tasks && lim.tasks[pid] == mm
    requires brk < U64 && 0 < mm.startBrk <= mm.brk <= TASK_SIZE
    requires mm.minAddr % PAGE == 0 && mm.minAddr <= TASK_SIZE
    modifies mm, mm.repr
    ensures mm.Valid() && fresh(mm.repr - old(mm.repr))
    ensures var o, n := PageAlign(old(mm.brk)), PageAlign(brk);
      BrkStep(old(mm.GetState()), mm.GetState(), brk, HeapRequest(mm, o, n - o), mm.guardGap, how)
    ensures ret == mm.brk && mm.brk == (if how == Refused then old(mm.brk) else brk)
    ensures how == Refused || mm.startBrk <= brk <= TASK_SIZE
    ensures how.Grown? ==> mm.totalVm <= mm.limitAs
    ensures how.Grown? ==> HeapGrown(old(mm.Areas()), mm.Areas(), PageAlign(old(mm.brk)), PageAlign(brk), mm.defFlags)
    ensures how.Grown? ==>
      (how.joined <==> HeapJoins(old(mm.Areas()), how.k, PageAlign(old(mm.brk)), mm.defFlags, mm.startBrk))
    ensures how != Refused ==> mm.mapCount <= old(mm.mapCount) || mm.mapCount <= mm.maxMapCount + 1
    ensures how != Refused ==> AcceptedBy(old(lim.entries), pid, old(Usage(mm)),
              Sub64(PageAlign(brk) * PAGE, PageAlign(old(mm.brk)) * PAGE))
    ensures !mm.mayFail ==>
      (how != Refused <==>
        && mm.startBrk <= brk
        && AcceptedBy(lim.entries, pid, old(Usage(mm)), Sub64(PageAlign(brk) * PAGE, PageAlign(old(mm.brk)) * PAGE))
        && BrkGoes(old(mm.Areas()), old(mm.totalVm), old(mm.brk), brk, mm.minAddr / PAGE, mm.guardGap, mm.limitAs,
                   mm.maxMapCount))
    // a process that will be within its limit is not refused by it
    ensures var total := old(mm.totalVm) + (PageAlign(brk) - PageAlign(old(mm.brk)));
      !mm.mayFail && 0 <= total && Suffices(lim.entries, pid, total * PAGE) ==>
        (how != Refused <==>
          && mm.startBrk <= brk
          && BrkGoes(old(mm.Areas()), old(mm.totalVm), old(mm.brk), brk, mm.minAddr / PAGE, mm.guardGap, mm.limitAs,
                     mm.maxMapCount))
  {
    hide Fits; hide Wf; hide MerelySplit; hide Unmapped; hide Placed; hide Sum; hide Joinable; hide HeapGrown;
    hide HeapJoins; hide PageAlign; hide First; hide Meets; hide TooMany; hide Suffices; hide AcceptedBy; hide BrkGoes;
    BrkUnlimited(lim.entries, pid, mm.totalVm, PageAlign(brk), PageAlign(mm.brk));
    how, ret := Refused, mm.brk;
    StartsSplit(mm.Areas(), PageAlign(brk), PageAlign(mm.brk));
    ghost var s := mm.Areas();
    if brk < mm.startBrk { return; }
    var dataOk :| dataOk || mm.mayFail;
    if !dataOk { return; }
    var accepted := lim.IsRequestAccepted(pid, Sub64(PageAlign(brk) * PAGE, PageAlign(mm.brk) * PAGE));
    assert mm.Areas() == s;
    if !accepted { return; }
    how := MoveBrk(mm, brk);
    ret := mm.brk;
  }

  lemma BrkUnlimited(s: seq<Limit>, pid: int, pages: int, n: int, o: int)
    ensures var total := pages + (n - o);
      0 <= total && Suffices(s, pid, total * PAGE) ==> AcceptedBy(s, pid, pages * PAGE % U64, Sub64(n * PAGE, o * PAGE))
  {
    var total := pages + (n - o);
    assert total * PAGE == pages * PAGE + (n * PAGE - o * PAGE);
    if 0 <= total && Suffices(s, pid, total * PAGE) {
      WithinIsAccepted(s, pid, pages, n * PAGE - o * PAGE);
    }
  }

  /** Rounding up to pages, which wraps to 0 within a page of the top. */
  lemma AlignOf(x: nat)
    requires x < U64
    ensures if x > U64 - PAGE then PageAlign(x) == 0
            else x <= PageAlign(x) * PAGE < x + PAGE && PageAlign(x) < U64_PAGES
  {}

  /** What a brk call means for the page map: all of the range between the two
      aligned breaks, which must have been unmapped before it is added, or
      nothing. */
  lemma BrkPages(s: State, t: State, brk: int, heap: Area, gap: nat, how: Outcome)
    requires Wf(s.areas) && BrkStep(s, t, brk, heap, gap, how)
    requires heap.start == PageAlign(s.counters.brk) && heap.end == PageAlign(brk) && heap.pgoff == heap.start
    requires heap.anon == null && heap.chain == [] && 0 <= heap.start
    ensures how == Refused || how == Kept ==> SamePages(s.areas, t.areas)
    ensures how == Shrunk ==> forall x: int ::
      PageAt(t.areas, x) == if PageAlign(brk) <= x < PageAlign(s.counters.brk) then None else PageAt(s.areas, x)
    ensures how.Grown? ==> MappedAs(s.areas, t.areas, heap) && Wf(t.areas)
    ensures how.Grown? ==> forall x: int :: In(heap, x) ==> PageAt(s.areas, x) == None
  {
    hide Cut; hide Placed; hide Sum; hide PageAlign; hide Joinable; hide MappedAs; hide SplitAt; hide Carved;
    var o, n := PageAlign(s.counters.brk), PageAlign(brk);
    match how
    case Refused => MerelySplitSame(s.areas, t.areas, n, o);
    case Kept =>
    case Shrunk =>
      forall x: int ensures PageAt(t.areas, x) == if n <= x < o then None else PageAt(s.areas, x) {
        CutPages(s.areas, n, o, x);
      }
    case Grown(k, joined) =>
      assert RequestOk(heap);
      RoomIsHole(s.areas, k, heap, gap);
      PlacedMaps(s.areas, k, heap, joined, false);
      forall x: int | In(heap, x) ensures PageAt(s.areas, x) == None { HoleUnmapped(s.areas, k, heap, x); }
  }

  lemma HoleUnmapped(s: seq<Area>, k: nat, req: Area, x: int)
    requires Wf(s) && Hole(s, k, req) && In(req, x)
    ensures PageAt(s, x) == None
  {
    forall i | 0 <= i < |s| ensures !In(s[i], x) {
      assert i + 1 < k ==> Before(s[i], s[k - 1]) && AreaOk(s[k - 1]);
      assert k < i ==> Before(s[k], s[i]) && AreaOk(s[k]);
    }
    PageAtOutside(s, x);
  }
}
