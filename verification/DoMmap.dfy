/** `do_mmap` and `ksys_mmap_pgoff` for private anonymous memory. */
module DoMmap {
  import opened VmTypes
  import opened AreaList
  import opened MmStruct
  import opened Munmap
  import opened Region
  import opened HoleSpec
  import opened GetArea
  import opened Limits
  import T = RangeTree

  /** What a caller asks for: the hint or address and the length in bytes, the
      offset it passes, the VMA flags its protection and flags amount to. */
  datatype Call = Call(hint: nat, len: nat, pgoff: nat, flags: Flags, isFixed: bool, noReplace: bool)

  /** The arguments are 64-bit words, and the mapping is private. */
  predicate CallOk(c: Call) { c.hint < U64 && c.len < U64 && c.pgoff < U64 && !c.flags.shared }

  /** Choosing from the top downwards or from the bottom upwards, and from where. */
  datatype Layout = Layout(topdown: bool, base: nat)

  predicate SetUp(mm: Mm, lay: Layout)
  {
    mm.minAddr % PAGE == 0 && mm.minAddr <= TASK_SIZE && 0 < lay.base <= TASK_PAGES
  }

  /** `round_hint_to_min` */
  function RoundHint(hint: nat, minAddr: nat): nat {
    var h := hint - hint % PAGE;
    if h != 0 && h < minAddr then PageAlign(minAddr) * PAGE else h
  }

  /** What a failed mmap leaves behind: nothing, the range unmapped, or extra
      splits at most. */
  ghost predicate FailedMmap(s: State, t: State, x: int, y: int) {
    || t == s
    || t == Unmapped(s, x, y)
    || (t.counters == s.counters && t.mapCount == |t.areas| && MerelySplit(s.areas, t.areas, x, y))
  }

  /** No page of the range is mapped. */
  ghost predicate Nothing(s: seq<Area>, x: int, y: int) {
    forall p: int :: x <= p < y ==> PageAt(s, p) == None
  }

  lemma PlaceIsNothing(s: seq<Area>, n: nat, minPage: nat, gap: nat, p: int)
    requires Wf(s) && Place(s, n, minPage, gap, p)
    ensures Nothing(s, p, p + n)
  {
    forall x: int | p <= x < p + n ensures PageAt(s, x) == None { ClearUnmapped(s, p, n, gap, x); }
  }

  lemma NoneIntersects(mm: Mm, x: int, y: int)
    requires mm.Sound() && x < y && mm.FindIntersection(x, y) == null
    ensures Nothing(mm.Areas(), x, y)
  {
    var s, i := mm.Areas(), First(mm.Areas(), x);
    SameFirst(mm.tree, s, x);
    forall p: int | x <= p < y ensures PageAt(s, p) == None {
      forall k | 0 <= k < |s| ensures !In(s[k], p) { assert i < k ==> Before(s[i], s[k]) && AreaOk(s[i]); }
      PageAtOutside(s, p);
    }
  }

  lemma OneIntersects(mm: Mm, x: int, y: int)
    requires mm.Sound() && x < y && mm.FindIntersection(x, y) != null
    ensures !Nothing(mm.Areas(), x, y)
  {
    var s, i := mm.Areas(), First(mm.Areas(), x);
    SameFirst(mm.tree, s, x);
    var p := if s[i].start < x then x else s[i].start;
    assert AreaOk(s[i]);
    PageAtIn(s, i, p);
  }

  /** A failure where nothing was mapped leaves every page as it was. */
  lemma FailedKeeps(s: State, t: State, x: int, y: int)
    requires Wf(s.areas) && x <= y && FailedMmap(s, t, x, y) && Nothing(s.areas, x, y)
    ensures SamePages(s.areas, t.areas)
  {
    hide Cut; hide Wf; hide MerelySplit;
    if t.areas == Cut(s.areas, x, y) {
      forall p: int ensures PageAt(s.areas, p) == PageAt(t.areas, p) { CutPages(s.areas, x, y, p); }
    } else if t != s {
      MerelySplitSame(s.areas, t.areas, x, y);
    }
  }

  /** The length and the offset fit, and there is room for another VMA. */
  predicate Admissible(s: seq<Area>, c: Call, max: int) {
    0 < c.len && 0 < PageAlign(c.len) && c.pgoff + PageAlign(c.len) < U64 && |s| <= max
  }

  /** The fixed address may be used: it is aligned and the mapping fits above it;
      MAP_FIXED_NOREPLACE takes nothing that is mapped. */
  ghost predicate Free(s: seq<Area>, c: Call, minPage: nat) {
    var x, n := c.hint / PAGE, PageAlign(c.len);
    && c.hint % PAGE == 0 && n <= TASK_PAGES - minPage && x + n <= TASK_PAGES
    && (c.noReplace ==> Nothing(s, x, x + n))
  }

  /** Everything that decides on a mapping at a fixed address. */
  ghost predicate FixedGoes(s: seq<Area>, c: Call, total: int, minPage: nat, limit: int, max: int) {
    var x, n := c.hint / PAGE, PageAlign(c.len);
    && Admissible(s, c, max) && Free(s, c, minPage)
    && LimitAllows(s, total, x, n, limit) && !TooMany(s, x, x + n, max)
  }

  lemma NothingInside(s: seq<Area>, total: int, x: int, n: int, limit: int, max: int)
    requires Wf(s) && 0 < n && Nothing(s, x, x + n)
    ensures !TooMany(s, x, x + n, max)
    ensures LimitAllows(s, total, x, n, limit) <==> total + n <= limit
  {
    hide Wf; hide First; hide Cut;
    var i := First(s, x);
    if i < |s| {
      NothingBefore(s, i);
      if s[i].start < x + n { PageAtIn(s, i, if s[i].start < x then x else s[i].start); }
    }
    NothingToCut(s, x, x + n);
  }

  lemma NothingBefore(s: seq<Area>, i: nat)
    requires Wf(s) && i < |s|
    ensures s[i].start < s[i].end
  {
    assert AreaOk(s[i]);
  }

  /** Everything that decides on a mapping for which the kernel chooses the address. */
  ghost predicate ChosenGoes(s: seq<Area>, c: Call, lay: Layout, total: int, minAddr: nat, gap: nat, limit: int, max: int)
    requires 0 < lay.base <= TASK_PAGES
  {
    var n := PageAlign(c.len);
    && Admissible(s, c, max) && total + n <= limit
    && !Nowhere(s, RoundHint(c.hint, minAddr), n, minAddr / PAGE, gap, lay.topdown, lay.base)
  }

  /** Page p is where a mapping without a fixed address belongs: within the limits and
      untouched; at the page the hint is in, or at the lowest page allowed if the hint
      lies below that, if this is untouched; and otherwise where the searches choose. */
  ghost predicate WellChosen(s: seq<Area>, c: Call, lay: Layout, minPage: nat, gap: nat, p: int) {
    var n, hinted := PageAlign(c.len), c.hint / PAGE;
    var x := if 0 < hinted < minPage then minPage else hinted;
    && minPage <= p && p + n <= TASK_PAGES && Untouched(s, p, n, gap)
    && if hinted != 0 && x + n <= TASK_PAGES && Untouched(s, x, n, gap) then p == x
       else Best(s, n, minPage, gap, lay.topdown, lay.base, p)
  }

  lemma RoundedHint(hint: nat, minAddr: nat)
    requires hint < U64 && minAddr % PAGE == 0 && minAddr <= TASK_SIZE
    ensures var h, hinted, minPage := RoundHint(hint, minAddr), hint / PAGE, minAddr / PAGE;
      && h <= U64 - PAGE && (h != 0 <==> hinted != 0)
      && (h + PAGE - 1) / PAGE == (if 0 < hinted < minPage then minPage else hinted)
      && (hinted != 0 ==> minPage <= (h + PAGE - 1) / PAGE)
  {}

  lemma WellChosenIs(s: seq<Area>, c: Call, lay: Layout, minAddr: nat, gap: nat, p: int)
    requires CallOk(c) && minAddr % PAGE == 0 && minAddr <= TASK_SIZE
    requires var n, x, minPage := PageAlign(c.len), (RoundHint(c.hint, minAddr) + PAGE - 1) / PAGE, minAddr / PAGE;
      && minPage <= p && p + n <= TASK_PAGES && Untouched(s, p, n, gap)
      && if RoundHint(c.hint, minAddr) != 0 && minPage <= x && x + n <= TASK_PAGES && Untouched(s, x, n, gap) then p == x
         else Best(s, n, minPage, gap, lay.topdown, lay.base, p)
    ensures WellChosen(s, c, lay, minAddr / PAGE, gap, p)
  {
    hide Untouched; hide Best; hide PageAlign; hide RoundHint;
    RoundedHint(c.hint, minAddr);
  }

  /** The arguments that are refused whatever is mapped, with the error for each. */
  function Rejected(c: Call, count: int, max: int): Option<Errno> {
    if c.len == 0 then Some(EINVAL)
    else if c.len > 0xFFFF_FFFF_FFFF_F000 then Some(ENOMEM)
    else if c.pgoff + (c.len + 4095) / 4096 >= 0x1_0000_0000_0000_0000 then Some(EOVERFLOW)
    else if count > max then Some(ENOMEM)
    else None
  }

  lemma RejectedIs(c: Call, count: int, max: int)
    requires CallOk(c)
    ensures var n := PageAlign(c.len);
      Rejected(c, count, max) == if c.len == 0 then Some(EINVAL) else if n == 0 then Some(ENOMEM)
        else if (c.pgoff + n) % U64 < c.pgoff then Some(EOVERFLOW) else if count > max then Some(ENOMEM) else None
  {}

  /** The checks of `do_mmap` before anything is changed: where the mapping goes. */
  method Choose(mm: Mm, lay: Layout, c: Call) returns (r: Address)
    requires mm.Valid() && CallOk(c) && SetUp(mm, lay)
    ensures Rejected(c, mm.mapCount, mm.maxMapCount) != None ==> r == Error(Rejected(c, mm.mapCount, mm.maxMapCount).value)
    ensures !mm.mayFail && r.Error? && Rejected(c, mm.mapCount, mm.maxMapCount) == None ==>
      r.e == ENOMEM || r.e == EEXIST || (r.e == EINVAL && (c.isFixed || c.noReplace) && c.hint % PAGE != 0)
    ensures r == Error(EEXIST) ==> c.noReplace && !Nothing(mm.Areas(), c.hint / PAGE, c.hint / PAGE + PageAlign(c.len))
    ensures !mm.mayFail && Rejected(c, mm.mapCount, mm.maxMapCount) == None && c.noReplace ==>
      c.hint % PAGE == 0 && PageAlign(c.len) <= TASK_PAGES - mm.minAddr / PAGE
      && c.hint / PAGE + PageAlign(c.len) <= TASK_PAGES
      && !Nothing(mm.Areas(), c.hint / PAGE, c.hint / PAGE + PageAlign(c.len)) ==>
        r == Error(EEXIST)
    ensures r.At? ==> 0 < c.len && 0 < PageAlign(c.len) && c.pgoff + PageAlign(c.len) < U64
    ensures r.At? ==> mm.mapCount <= mm.maxMapCount
    ensures r.At? ==> r.addr % PAGE == 0 && r.addr / PAGE + PageAlign(c.len) <= TASK_PAGES
    ensures r.At? && (c.isFixed || c.noReplace) ==> r.addr == c.hint
    ensures r.At? && (!c.isFixed || c.noReplace) ==>
      Nothing(mm.Areas(), r.addr / PAGE, r.addr / PAGE + PageAlign(c.len))
    ensures r.At? && !c.isFixed && !c.noReplace ==>
      Place(mm.Areas(), PageAlign(c.len), mm.minAddr / PAGE, mm.guardGap, r.addr / PAGE)
    ensures r.At? && !c.isFixed && !c.noReplace ==>
      WellChosen(mm.Areas(), c, lay, mm.minAddr / PAGE, mm.guardGap, r.addr / PAGE)
    ensures !mm.mayFail && (c.isFixed || c.noReplace) ==>
      (r.At? <==> Admissible(mm.Areas(), c, mm.maxMapCount) && Free(mm.Areas(), c, mm.minAddr / PAGE))
    ensures !mm.mayFail && !c.isFixed && !c.noReplace ==>
      (r.At? <==>
        && Admissible(mm.Areas(), c, mm.maxMapCount)
        && !Nowhere(mm.Areas(), RoundHint(c.hint, mm.minAddr), PageAlign(c.len), mm.minAddr / PAGE, mm.guardGap,
                    lay.topdown, lay.base))
  {
    hide Fits; hide Wf; hide Place; hide Nothing; hide Nowhere; hide T.First; hide RoundHint; hide Untouched; hide Best;
    hide Rejected; hide PageAlign; hide WellChosen;
    ghost var s := mm.Areas();
    SoundWf(mm);
    RejectedIs(c, mm.mapCount, mm.maxMapCount);
    if c.len == 0 { return Error(EINVAL); }
    var pinned := c.isFixed || c.noReplace;
    var n := PageAlign(c.len);
    if n == 0 { return Error(ENOMEM); }
    if (c.pgoff + n) % U64 < c.pgoff { return Error(EOVERFLOW); }
    if mm.mapCount > mm.maxMapCount { return Error(ENOMEM); }
    var hint := if pinned then c.hint else RoundHint(c.hint, mm.minAddr);
    RoundedHint(c.hint, mm.minAddr);
    r := GetUnmappedArea(mm, hint, n, pinned, lay.topdown, lay.base);
    assert mm.Areas() == s;
    if !r.At? { return; }
    var x := r.addr / PAGE;
    if !pinned {
      PlaceIsNothing(s, n, mm.minAddr / PAGE, mm.guardGap, x);
      WellChosenIs(s, c, lay, mm.minAddr, mm.guardGap, x);
    }
    if c.noReplace {
      var other := mm.FindIntersection(x, x + n);
      if other != null {
        OneIntersects(mm, x, x + n);
        return Error(EEXIST);
      }
      NoneIntersects(mm, x, x + n);
    }
  }

  /** `do_mmap`: the address a mapping was placed at. Without MAP_FIXED, or with
      MAP_FIXED_NOREPLACE, no page was mapped there. Apart from memory and what is
      not modelled it fails exactly for the reasons listed. */
  method DoMmap(mm: Mm, lay: Layout, c: Call, uf: bool)
    returns (r: Address, ghost x: int, ghost k: nat, ghost prev: bool, ghost next: bool)
    requires mm.Valid() && CallOk(c) && SetUp(mm, lay)
    modifies mm, mm.repr
    ensures mm.Valid() && fresh(mm.repr - old(mm.repr))
    ensures r.At? ==> r.addr == x * PAGE && 0 <= x && x + PageAlign(c.len) <= TASK_PAGES && 0 < PageAlign(c.len)
    ensures r.At? && (c.isFixed || c.noReplace) ==> r.addr == c.hint
    ensures r.At? && (!c.isFixed || c.noReplace) ==> Nothing(old(mm.Areas()), x, x + PageAlign(c.len))
    ensures r.At? && !c.isFixed && !c.noReplace ==>
      Place(old(mm.Areas()), PageAlign(c.len), mm.minAddr / PAGE, mm.guardGap, x)
    ensures r.At? && !c.isFixed && !c.noReplace ==>
      WellChosen(old(mm.Areas()), c, lay, mm.minAddr / PAGE, mm.guardGap, x)
    ensures r.At? ==> Granted(old(mm.GetState()), mm.GetState(), x, PageAlign(c.len), c.flags, x)
    ensures var req := Anonymous(x, PageAlign(c.len), c.flags, x);
      && (r.At? ==> MappedStep(old(mm.GetState()), mm.GetState(), req, k, prev, next))
      && (r.At? ==> Overwritten(old(mm.Areas()), mm.Areas(), req))
      && (r.At? && !mm.mayFail && !c.flags.special ==> JoinsAll(old(mm.Areas()), req, k, prev, next))
    ensures r.At? ==> mm.totalVm <= mm.limitAs && mm.mapCount <= mm.maxMapCount + 1
    ensures Rejected(c, old(mm.mapCount), mm.maxMapCount) != None ==>
      r == Error(Rejected(c, old(mm.mapCount), mm.maxMapCount).value)
    ensures !mm.mayFail && r.Error? && Rejected(c, old(mm.mapCount), mm.maxMapCount) == None ==>
      || r.e == ENOMEM || (r.e == EINVAL && (c.isFixed || c.noReplace) && c.hint % PAGE != 0)
      || (r.e == EEXIST && c.noReplace && !Nothing(old(mm.Areas()), c.hint / PAGE, c.hint / PAGE + PageAlign(c.len)))
    ensures !mm.mayFail && Rejected(c, old(mm.mapCount), mm.maxMapCount) == None && c.noReplace ==>
      c.hint % PAGE == 0 && PageAlign(c.len) <= TASK_PAGES - mm.minAddr / PAGE
      && c.hint / PAGE + PageAlign(c.len) <= TASK_PAGES
      && !Nothing(old(mm.Areas()), c.hint / PAGE, c.hint / PAGE + PageAlign(c.len)) ==>
        r == Error(EEXIST)
    ensures !r.At? ==> FailedMmap(old(mm.GetState()), mm.GetState(), x, x + PageAlign(c.len))
    ensures mm.GetState() == old(mm.GetState()) || old(mm.mapCount) <= mm.maxMapCount
    ensures !mm.mayFail && (c.isFixed || c.noReplace) ==>
      (r.At? <==> FixedGoes(old(mm.Areas()), c, old(mm.totalVm), mm.minAddr / PAGE, mm.limitAs, mm.maxMapCount))
    ensures !mm.mayFail && !c.isFixed && !c.noReplace ==>
      (r.At? <==>
        ChosenGoes(old(mm.Areas()), c, lay, old(mm.totalVm), mm.minAddr, mm.guardGap, mm.limitAs, mm.maxMapCount))
    ensures !r.At? && (!c.isFixed || c.noReplace) ==>
      mm.GetState() == old(mm.GetState()) || Nothing(old(mm.Areas()), x, x + PageAlign(c.len))
  {
    hide WellChosen; hide Granted; hide Rejected;
    hide Fits; hide Wf; hide Place; hide Nothing; hide MappedStep; hide Overwritten; hide JoinsAll; hide MerelySplit;
    hide Unmapped; hide PageAlign; hide Nowhere; hide Free; hide Admissible; hide TooMany; hide LimitAllows;
    x, k, prev, next := 0, 0, false, false;
    ghost var s := mm.Areas();
    SoundWf(mm);
    r := Choose(mm, lay, c);
    assert mm.Areas() == s;
    if !r.At? { return; }
    // mlock and the flags may be refused
    var allowed :| allowed || mm.mayFail;
    if !allowed { return Error(EAGAIN), x, k, prev, next; }
    var n := PageAlign(c.len);
    x := r.addr / PAGE;
    if !c.isFixed || c.noReplace { NothingInside(s, mm.totalVm, x, n, mm.limitAs, mm.maxMapCount); }
    var err;
    err, k, prev, next := MmapRegion(mm, r.addr / PAGE, n, c.flags, r.addr / PAGE, uf);
    if err != None { r := Error(err.value); }
  }

  /** `ksys_mmap_pgoff`: the limiter is asked about the length as it was passed. */
  method KsysMmapPgoff(mm: Mm, lim: MemoryList, pid: int, lay: Layout, c: Call, uf: bool)
    returns (r: Address, ghost x: int, ghost k: nat, ghost prev: bool, ghost next: bool)
    requires mm.Valid() && CallOk(c) && SetUp(mm, lay) && pid in lim.tasks && lim.tasks[pid] == mm
    modifies mm, mm.repr
    ensures mm.Valid() && fresh(mm.repr - old(mm.repr))
    ensures var req := Anonymous(x, PageAlign(c.len), c.flags, x);
      && (r.At? ==> MappedStep(old(mm.GetState()), mm.GetState(), req, k, prev, next))
      && (r.At? && !mm.mayFail && !c.flags.special ==> JoinsAll(old(mm.Areas()), req, k, prev, next))
    ensures r.At? ==> r.addr == x * PAGE && 0 <= x && x + PageAlign(c.len) <= TASK_PAGES && 0 < PageAlign(c.len)
    ensures r.At? ==> mm.totalVm <= mm.limitAs && mm.mapCount <= mm.maxMapCount + 1
    ensures r.At? ==> Granted(old(mm.GetState()), mm.GetState(), x, PageAlign(c.len), c.flags, x)
    ensures r.At? && (c.isFixed || c.noReplace) ==> r.addr == c.hint
    ensures r.At? && (!c.isFixed || c.noReplace) ==> Nothing(old(mm.Areas()), x, x + PageAlign(c.len))
    ensures r.At? && !c.isFixed && !c.noReplace ==>
      WellChosen(old(mm.Areas()), c, lay, mm.minAddr / PAGE, mm.guardGap, x)
    ensures r.At? ==> AcceptedBy(lim.entries, pid, old(Usage(mm)), c.len)
    ensures !mm.mayFail && (c.isFixed || c.noReplace) ==>
      (r.At? <==>
        && AcceptedBy(lim.entries, pid, old(Usage(mm)), c.len)
        && FixedGoes(old(mm.Areas()), c, old(mm.totalVm), mm.minAddr / PAGE, mm.limitAs, mm.maxMapCount))
    ensures !mm.mayFail && !c.isFixed && !c.noReplace ==>
      (r.At? <==>
        && AcceptedBy(lim.entries, pid, old(Usage(mm)), c.len)
        && ChosenGoes(old(mm.Areas()), c, lay, old(mm.totalVm), mm.minAddr, mm.guardGap, mm.limitAs, mm.maxMapCount))
    // a process that stays within its limit is not refused by it
    ensures !mm.mayFail && 0 <= old(mm.totalVm) && Suffices(lim.entries, pid, old(mm.totalVm) * PAGE + c.len) ==>
      (r.At? <==>
        if c.isFixed || c.noReplace then
          FixedGoes(old(mm.Areas()), c, old(mm.totalVm), mm.minAddr / PAGE, mm.limitAs, mm.maxMapCount)
        else
          ChosenGoes(old(mm.Areas()), c, lay, old(mm.totalVm), mm.minAddr, mm.guardGap, mm.limitAs, mm.maxMapCount))
    ensures !r.At? ==> FailedMmap(old(mm.GetState()), mm.GetState(), x, x + PageAlign(c.len))
    ensures mm.GetState() == old(mm.GetState()) || old(mm.mapCount) <= mm.maxMapCount
  {
    hide Fits; hide Wf; hide MappedStep; hide JoinsAll; hide MerelySplit; hide Unmapped; hide PageAlign; hide Find;
    hide Granted; hide WellChosen; hide Suffices;
    hide Place; hide Nothing; hide Overwritten; hide FixedGoes; hide ChosenGoes;
    x, k, prev, next := 0, 0, false, false;
    ghost var s := mm.Areas();
    if 0 <= mm.totalVm && Suffices(lim.entries, pid, mm.totalVm * PAGE + c.len) {
      WithinIsAccepted(lim.entries, pid, mm.totalVm, c.len);
    }
    var accepted := lim.IsRequestAccepted(pid, c.len);
    assert mm.Areas() == s;
    if !accepted { return Error(ENOMEM), x, k, prev, next; }
    var allowed :| allowed || mm.mayFail;
    if !allowed { return Error(EINTR), x, k, prev, next; }
    r, x, k, prev, next := DoMmap(mm, lay, c, uf);
  }
}
