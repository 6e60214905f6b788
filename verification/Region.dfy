/** `mmap_region` for private anonymous memory. */
module Region {
  import opened VmTypes
  import opened AreaList
  import opened MmStruct
  import opened Adjust
  import opened Expand
  import opened MergeSpec
  import opened MergeProof
  import opened Munmap
  import opened MmapSpec
  import opened Mmap
  import T = RangeTree

  /** `vm_flags_set(vma, VM_SOFTDIRTY)` */
  method SetDirty(mm: Mm, vma: Vma, ghost v: nat)
    requires mm.Valid() && v < |mm.tree| && mm.tree[v].vma == vma
    modifies vma`attr
    ensures mm.Valid() && mm.Areas() == old(mm.Areas())[v := Dirtied(old(mm.Areas())[v])]
  {
    ghost var s := mm.Areas();
    DirtyWf(s, v);
    OnlyOnce(mm.tree, s, v);
    hide Wf;
    vma.attr := vma.attr.(flags := vma.attr.flags.(softDirty := true));
    assert mm.Areas() == s[v := Dirtied(s[v])];
  }

  lemma DirtyWf(s: seq<Area>, v: nat)
    requires Wf(s) && v < |s|
    ensures Wf(s[v := Dirtied(s[v])])
  {
    assert AreaOk(s[v]);
  }

  lemma InsertTree(t: seq<Entry>, s: seq<Area>, k: nat, a: Area, v: Vma)
    requires Fits(t, s) && Hole(s, k, a)
    ensures T.Stored(t, a.start, a.end, v) == t[..k] + [Entry(a.start, a.end, v)] + t[k..]
  {
    T.OverWhole(t, k, k, a.start, a.end, v);
  }

  /** Allocating a VMA for a hole and storing it in the tree. */
  method InsertNew(mm: Mm, a: Area, ghost k: nat) returns (vma: Vma?)
    requires mm.Valid() && k <= |mm.tree| && Hole(mm.Areas(), k, a) && Wf(mm.Areas()[..k] + [a] + mm.Areas()[k..])
    modifies mm`tree, mm`mapCount, mm`repr
    ensures mm.Valid() && fresh(mm.repr - old(mm.repr))
    ensures vma != null ==> mm.Areas() == old(mm.Areas())[..k] + [a] + old(mm.Areas())[k..]
    ensures vma != null ==> k < |mm.tree| && mm.tree[k].vma == vma && vma in mm.repr && fresh(vma)
    ensures vma == null ==> mm.tree == old(mm.tree) && mm.Areas() == old(mm.Areas())
    ensures !mm.mayFail ==> vma != null
  {
    hide Fits; hide Wf; hide T.Stored; hide Hole;
    ghost var t, s := mm.tree, mm.Areas();
    vma := null;
    var ok :| ok || mm.mayFail;
    if ok {
      vma := new Vma(a);
      assert mm.Areas() == s && !vma.detached;
      mm.repr := mm.repr + {vma};
      mm.Store(vma);
      mm.mapCount := mm.mapCount + 1;
      InsertTree(t, s, k, a, vma);
      WindowOne(mm, t, s, k, k, Entry(a.start, a.end, vma), a);
      OneAttached(mm, t, k, k, Entry(a.start, a.end, vma));
    }
  }

  /** `Placed` before the VMA is marked as dirty. */
  function Raw(s: seq<Area>, k: nat, req: Area, prev: bool, next: bool): seq<Area>
    requires k <= |s| && (prev ==> k > 0) && (next ==> k < |s|)
  {
    if prev then Expanded(s, k - 1, next, s[k - 1].start, if next then s[k].end else req.end, s[k - 1].pgoff)
    else if next then Expanded(s, k, false, req.start, s[k].end, s[k].pgoff - (req.end - req.start))
    else s[..k] + [req] + s[k..]
  }

  lemma RawDirtied(s: seq<Area>, k: nat, req: Area, prev: bool, next: bool)
    requires Wf(s) && Hole(s, k, req) && Joinable(s, k, req, prev, next) && req.anon == null && req.chain == []
    ensures var t, i := Raw(s, k, req, prev, next), if prev then k - 1 else k;
      && i < |t| && Placed(s, k, req, prev, next) == t[i := Dirtied(t[i])] && Wf(t)
    ensures MappedAs(s, Placed(s, k, req, prev, next), req)
  {
    PlacedMaps(s, k, req, prev, next);
    RawShape(s, k, req, prev, next);
    var t, i := Raw(s, k, req, prev, next), if prev then k - 1 else k;
    hide Raw;
    DirtySame(t, i);
  }

  lemma RawShape(s: seq<Area>, k: nat, req: Area, prev: bool, next: bool)
    requires Wf(s) && Hole(s, k, req) && Joinable(s, k, req, prev, next)
    ensures var t, i := Raw(s, k, req, prev, next), if prev then k - 1 else k;
      && i < |t| && Placed(s, k, req, prev, next) == t[i := Dirtied(t[i])]
  {
    var t, i := Raw(s, k, req, prev, next), if prev then k - 1 else k;
    var p, q := s[..i], s[if next then k + 1 else k..];
    assert t == p + [t[i]] + q;
    assert Dirtied(t[i]) == Holder(s, k, req, prev, next);
    assert t[i := Dirtied(t[i])] == p + [Dirtied(t[i])] + q;
  }

  lemma DirtySame(t: seq<Area>, i: nat)
    requires i < |t| && Wf(t[i := Dirtied(t[i])])
    ensures Wf(t)
  {
    var u := t[i := Dirtied(t[i])];
    assert forall j :: 0 <= j < |t| ==> AreaOk(u[j]) && t[j].start == u[j].start && t[j].end == u[j].end;
    forall j, k | 0 <= j < k < |t| ensures Before(t[j], t[k]) { assert Before(u[j], u[k]); }
  }

  /** The attempt to expand a neighbour: on success the hole is filled. */
  method ExpandNeighbour(mm: Mm, prev: Vma?, next: Vma?, req: Area, joinPrev: bool, joinNext: bool, ghost k: nat)
    returns (vma: Vma?)
    requires mm.Valid() && k <= |mm.tree| && Hole(mm.Areas(), k, req) && req.anon == null && req.chain == []
    requires prev == (if k > 0 then mm.tree[k - 1].vma else null) && next == if k < |mm.tree| then mm.tree[k].vma else null
    requires Joinable(mm.Areas(), k, req, joinPrev, joinNext) && (joinPrev || joinNext)
    requires joinPrev ==> (joinNext <==> JoinsNext(mm.Areas(), k, req))
    modifies mm`tree, mm`mapCount, prev, next
    ensures mm.Valid()
    ensures vma != null ==> mm.Areas() == Raw(old(mm.Areas()), k, req, joinPrev, joinNext)
    ensures vma != null ==> var i := if joinPrev then k - 1 else k; i < |mm.tree| && mm.tree[i].vma == vma
    ensures vma == null ==> mm.tree == old(mm.tree) && mm.Areas() == old(mm.Areas())
    ensures !mm.mayFail ==> vma != null
  {
    hide Fits; hide Wf; hide Expanded; hide MappedAs; hide Mergeable;
    ghost var s := mm.Areas();
    SoundWf(mm);
    RawDirtied(s, k, req, joinPrev, joinNext);
    if k > 0 { EntryAt(mm, k - 1); }
    if k < |mm.tree| { EntryAt(mm, k); OnlyOnce(mm.tree, s, k); }
    var grown;
    if joinPrev {
      grown := VmaExpand(mm, prev, prev.start, if joinNext then next.end else req.end, prev.pgoff, next, k - 1);
      vma := if grown then prev else null;
    } else {
      grown := VmaExpand(mm, next, req.start, next.end, next.pgoff - (req.end - req.start), next, k);
      vma := if grown then next else null;
    }
  }

  /** The tests for expanding the next and the previous VMA. */
  method FindJoins(mm: Mm, req: Area, ghost k: nat) returns (prev: Vma?, next: Vma?, joinPrev: bool, joinNext: bool)
    requires mm.Valid() && k == T.First(mm.tree, req.start) && Hole(mm.Areas(), k, req) && req.attr.policy == 0
    ensures prev == (if k > 0 then mm.tree[k - 1].vma else null) && next == if k < |mm.tree| then mm.tree[k].vma else null
    ensures joinNext == JoinsNext(mm.Areas(), k, req) && joinPrev == JoinsPrev(mm.Areas(), k, req)
  {
    hide Fits; hide Wf; hide T.First; hide CanMergeAfter; hide CanMergeBefore;
    next, prev := mm.FindVma(req.start), mm.PrevVma(req.start);
    joinNext := next != null && next.start == req.end && next.attr.policy == 0 && CanMergeBefore(next.Snapshot(), req);
    joinPrev := prev != null && prev.end == req.start && prev.attr.policy == 0
      && CanMergeAfter(prev.Snapshot(), if joinNext then req.(anon := next.anon) else req);
  }

  /** The attempt to expand a neighbour, which is then marked as dirty. */
  method TryExpand(mm: Mm, req: Area, ghost k: nat) returns (vma: Vma?, ghost joinPrev: bool, ghost joinNext: bool)
    requires mm.Valid() && k == T.First(mm.tree, req.start) && k <= |mm.tree| && Hole(mm.Areas(), k, req)
    requires req.attr.policy == 0 && req.anon == null && req.chain == []
    modifies mm`tree, mm`mapCount, mm.repr
    ensures mm.Valid() && (vma == null ==> mm.tree == old(mm.tree) && mm.Areas() == old(mm.Areas()))
    ensures vma != null ==> Joinable(old(mm.Areas()), k, req, joinPrev, joinNext)
    ensures vma != null ==> mm.Areas() == Placed(old(mm.Areas()), k, req, joinPrev, joinNext)
    ensures joinPrev == JoinsPrev(old(mm.Areas()), k, req) && joinNext == JoinsNext(old(mm.Areas()), k, req)
    ensures !mm.mayFail && (joinPrev || joinNext) ==> vma != null
  {
    hide Fits; hide Wf; hide T.First; hide Hole; hide Raw; hide Placed; hide MappedAs;
    hide CanMergeAfter; hide CanMergeBefore;
    ghost var s := mm.Areas();
    SoundWf(mm);
    var prev, next, jp, jn := FindJoins(mm, req, k);
    assert mm.Areas() == s;
    joinPrev, joinNext, vma := jp, jn, null;
    if jp || jn {
      if k > 0 { InRepr(mm, k - 1); }
      if k < |mm.tree| { InRepr(mm, k); }
      RawDirtied(s, k, req, jp, jn);
      vma := ExpandNeighbour(mm, prev, next, req, jp, jn, k);
      if vma != null { SetDirty(mm, vma, if jp then k - 1 else k); }
    }
  }

  /** A VMA of its own for the mapping, marked as dirty. */
  method InsertFresh(mm: Mm, req: Area, ghost k: nat) returns (vma: Vma?)
    requires mm.Valid() && k <= |mm.tree| && Hole(mm.Areas(), k, req)
    requires req.attr.policy == 0 && req.anon == null && req.chain == []
    modifies mm`tree, mm`mapCount, mm`repr
    ensures mm.Valid() && fresh(mm.repr - old(mm.repr))
    ensures vma != null ==> mm.Areas() == Placed(old(mm.Areas()), k, req, false, false)
    ensures vma == null ==> mm.tree == old(mm.tree) && mm.Areas() == old(mm.Areas()) && mm.mayFail
  {
    hide Fits; hide Wf; hide Hole; hide Placed; hide MappedAs;
    SoundWf(mm);
    RawDirtied(mm.Areas(), k, req, false, false);
    var allowed :| allowed || mm.mayFail;
    if !allowed { return null; }
    vma := InsertNew(mm, req, k);
    if vma != null { SetDirty(mm, vma, k); }
  }

  /** The middle of `mmap_region`: the hole is filled by expanding a neighbour or,
      when neither suits or the expansion fails, by a VMA of its own. */
  method PlaceMapping(mm: Mm, req: Area, ghost k: nat) returns (vma: Vma?, ghost joinPrev: bool, ghost joinNext: bool)
    requires mm.Valid() && k == T.First(mm.tree, req.start) && k <= |mm.tree| && Hole(mm.Areas(), k, req)
    requires req.attr.policy == 0 && req.anon == null && req.chain == []
    modifies mm`tree, mm`mapCount, mm`repr, mm.repr
    ensures mm.Valid() && fresh(mm.repr - old(mm.repr))
    ensures vma != null ==> Joinable(old(mm.Areas()), k, req, joinPrev, joinNext)
    ensures vma != null ==> mm.Areas() == Placed(old(mm.Areas()), k, req, joinPrev, joinNext)
    ensures vma != null && !mm.mayFail && !req.attr.flags.special ==>
      joinPrev == JoinsPrev(old(mm.Areas()), k, req) && joinNext == JoinsNext(old(mm.Areas()), k, req)
    ensures vma == null ==> mm.tree == old(mm.tree) && mm.Areas() == old(mm.Areas()) && mm.mayFail
  {
    hide Fits; hide Wf; hide T.First; hide JoinsPrev; hide JoinsNext; hide Hole; hide Placed;
    joinPrev, joinNext, vma := false, false, null;
    if !req.attr.flags.special { vma, joinPrev, joinNext := TryExpand(mm, req, k); }
    if vma == null {
      joinPrev, joinNext := false, false;
      vma := InsertFresh(mm, req, k);
    }
  }

  /** The page map s overwritten with the request: its pages are mapped as
      requested, every other page keeps its mapping and its backing. */
  ghost predicate Overwritten(s: seq<Area>, t: seq<Area>, req: Area) {
    forall x: int ::
      if In(req, x) then SameMapping(PageAt(t, x), Some(PageOf(req, x)))
      else SameMapping(PageAt(t, x), PageAt(s, x)) && AnonKept(PageAt(s, x), PageAt(t, x))
  }

  lemma PlacedOverwrites(s: seq<Area>, k: nat, req: Area, prev: bool, next: bool)
    requires Wf(s) && RequestOk(req) && Hole(Cut(s, req.start, req.end), k, req)
    requires Joinable(Cut(s, req.start, req.end), k, req, prev, next) && req.anon == null && req.chain == []
    ensures Overwritten(s, Placed(Cut(s, req.start, req.end), k, req, prev, next), req)
  {
    hide Wf; hide Cut; hide Placed;
    var c := Cut(s, req.start, req.end);
    CutOk(s, req.start, req.end);
    PlacedMaps(c, k, req, prev, next);
    var t := Placed(c, k, req, prev, next);
    forall x: int ensures
      if In(req, x) then SameMapping(PageAt(t, x), Some(PageOf(req, x)))
      else SameMapping(PageAt(t, x), PageAt(s, x)) && AnonKept(PageAt(s, x), PageAt(t, x))
    {
      assert MappedAt(c, t, req, x);
      CutPages(s, req.start, req.end, x);
    }
  }

  /** A private anonymous mapping as an area. VM_ACCOUNT is set when the mapping
      is charged; a special mapping does not stay locked. */
  function Anonymous(addr: int, len: int, flags: Flags, pgoff: int): Area {
    Area(addr, addr + len, pgoff,
         Attr(flags.(account := Accountable(flags), locked := flags.locked && !flags.special), null, 0, 0, 0),
         null, [], false)
  }

  /** The state with the request placed in the hole before area k. */
  function Mapped(c: State, k: nat, req: Area, prev: bool, next: bool): State
    requires k <= |c.areas| && (prev ==> k > 0) && (next ==> k < |c.areas|)
  {
    var t := Placed(c.areas, k, req, prev, next);
    State(t, |t|, c.counters.(
      total := c.counters.total + Weight(All, req),
      locked := c.counters.locked + Weight(Locked, req),
      charged := c.counters.charged + Weight(Account, req)))
  }

  /** The limit check of `mmap_region`: what will be unmapped is discounted. */
  method WithinLimit(mm: Mm, x: int, y: int) returns (ok: bool)
    requires mm.Valid() && x < y
    ensures ok ==> mm.totalVm - PagesIn(mm.Areas(), x, y) + (y - x) <= mm.limitAs
    ensures !ok ==> mm.totalVm - PagesIn(mm.Areas(), x, y) + (y - x) > mm.limitAs || mm.mayFail
  {
    hide Fits; hide PagesIn; hide Wf;
    ghost var s := mm.Areas();
    SoundWf(mm);
    PagesInBounded(s, x, y);
    ok := MayExpandVm(mm, y - x);
    if !ok {
      assert mm.Areas() == s;
      var pages := CountVmaPagesRange(mm, x, y);
      assert mm.Areas() == s;
      ok := MayExpandVm(mm, (y - x) - pages);
    }
    assert mm.Areas() == s;
  }

  /** What `mmap_region` has done when it succeeds: the range was unmapped, the
      mapping placed in the hole, and the counters moved with it. */
  ghost predicate MappedStep(s: State, t: State, req: Area, k: nat, prev: bool, next: bool) {
    var c := Unmapped(s, req.start, req.end);
    && Hole(c.areas, k, req) && Joinable(c.areas, k, req, prev, next)
    && t == Mapped(c, k, req, prev, next)
  }

  /** The mapping joins every neighbour it can join. */
  ghost predicate JoinsAll(s: seq<Area>, req: Area, k: nat, prev: bool, next: bool) {
    var c := Cut(s, req.start, req.end);
    k <= |c| && prev == JoinsPrev(c, k, req) && next == JoinsNext(c, k, req)
  }

  /** What an mmap of len pages at page addr leaves behind, in terms of its arguments:
      every page of the range is mapped with its offset, as private anonymous memory
      with the flags asked for, soft-dirty, with VM_ACCOUNT if it can be written to
      and is not MAP_NORESERVE, and VM_LOCKED unless it is special; no other page
      changes; and the counters have moved by its pages and those it replaced. */
  ghost predicate Granted(s: State, t: State, addr: int, len: int, flags: Flags, pgoff: int) {
    var pays, locks := flags.write && !flags.shared && !flags.noReserve, flags.locked && !flags.special;
    var rest := Cut(s.areas, addr, addr + len);
    && LaidOver(s.areas, t.areas,
         Area(addr, addr + len, pgoff, Attr(flags.(account := pays, locked := locks), null, 0, 0, 0), null, [], false))
    && BackingSurvives(rest, t.areas) && DirtyIn(t.areas, addr, addr + len)
    && t.counters.total == s.counters.total - (Sum(All, s.areas) - Sum(All, rest)) + len
    && t.counters.locked == s.counters.locked - (Sum(Locked, s.areas) - Sum(Locked, rest)) + (if locks then len else 0)
    && t.counters.charged == s.counters.charged - (Sum(Account, s.areas) - Sum(Account, rest)) + (if pays then len else 0)
  }

  /** Every area with a page in [x, y) is soft-dirty. */
  ghost predicate DirtyIn(s: seq<Area>, x: int, y: int) {
    forall i :: 0 <= i < |s| && s[i].start < y && x < s[i].end ==> s[i].attr.flags.softDirty
  }

  lemma PlacedDirty(s: seq<Area>, k: nat, req: Area, prev: bool, next: bool)
    requires Wf(s) && Hole(s, k, req) && Joinable(s, k, req, prev, next) && req.anon == null && req.chain == []
    ensures DirtyIn(Placed(s, k, req, prev, next), req.start, req.end)
  {
    PlacedMaps(s, k, req, prev, next);
    HolderExtends(s, k, req, prev, next);
    hide Wf; hide MappedAs; hide Hole; hide Joinable; hide Extends; hide Absorbs;
    var t, h := Placed(s, k, req, prev, next), if prev then k - 1 else k;
    assert t[h] == Holder(s, k, req, prev, next);
    HolderOnly(t, h, req);
  }

  lemma HolderOnly(t: seq<Area>, h: nat, req: Area)
    requires Wf(t) && h < |t| && t[h].start <= req.start && req.end <= t[h].end && t[h].attr.flags.softDirty
    ensures DirtyIn(t, req.start, req.end)
  {
    forall i | 0 <= i < |t| && t[i].start < req.end && req.start < t[i].end ensures t[i].attr.flags.softDirty {
      assert i < h ==> Before(t[i], t[h]);
      assert h < i ==> Before(t[h], t[i]);
    }
  }

  lemma MappedGrants(s: State, t: State, addr: int, len: int, flags: Flags, pgoff: int, k: nat, prev: bool, next: bool)
    requires var req := Anonymous(addr, len, flags, pgoff); RequestOk(req) && MappedStep(s, t, req, k, prev, next)
    requires Wf(s.areas)
    ensures Overwritten(s.areas, t.areas, Anonymous(addr, len, flags, pgoff))
    ensures Granted(s, t, addr, len, flags, pgoff)
  {
    hide Wf; hide Cut; hide Placed; hide Hole; hide Joinable; hide LaidOver; hide BackingSurvives; hide MappedAs;
    hide Sum; hide DirtyIn; hide Overwritten;
    var req, c := Anonymous(addr, len, flags, pgoff), Cut(s.areas, addr, addr + len);
    CutOk(s.areas, addr, addr + len);
    PlacedMaps(c, k, req, prev, next);
    PlacedOverwrites(s.areas, k, req, prev, next);
    OverwrittenLays(s.areas, t.areas, req);
    MappedLays(c, t.areas, req);
    PlacedDirty(c, k, req, prev, next);
  }

  lemma OverwrittenLays(s: seq<Area>, t: seq<Area>, req: Area)
    requires Wf(s) && Wf(t) && Overwritten(s, t, req)
    ensures LaidOver(s, t, req)
  {
    hide Wf; hide SameMapping; hide PageAt; hide LaidOver;
    LaidOverIs(s, t, req);
  }

  /** Charging, placing and accounting, once the range is a hole. */
  method FillHole(mm: Mm, req: Area, ghost k: nat) returns (err: Status, ghost joinPrev: bool, ghost joinNext: bool)
    requires mm.Valid() && k == T.First(mm.tree, req.start) && k <= |mm.tree| && Hole(mm.Areas(), k, req)
    requires req.attr.policy == 0 && req.anon == null && req.chain == []
    modifies mm, mm.repr
    ensures mm.Valid() && fresh(mm.repr - old(mm.repr))
    ensures err == None ==> Joinable(old(mm.Areas()), k, req, joinPrev, joinNext)
    ensures err == None ==> mm.GetState() == Mapped(old(mm.GetState()), k, req, joinPrev, joinNext)
    ensures err == None && !mm.mayFail && !req.attr.flags.special ==>
      joinPrev == JoinsPrev(old(mm.Areas()), k, req) && joinNext == JoinsNext(old(mm.Areas()), k, req)
    ensures err != None ==> err == Some(ENOMEM) && mm.GetState() == old(mm.GetState()) && mm.mayFail
  {
    hide Fits; hide Wf; hide T.First; hide JoinsPrev; hide JoinsNext; hide Hole; hide Placed; hide Joinable;
    var pages, charged := req.end - req.start, 0;
    joinPrev, joinNext := false, false;
    if req.attr.flags.account {
      var enough :| enough || mm.mayFail;
      if !enough { return Some(ENOMEM), joinPrev, joinNext; }
      charged := pages;
    }
    mm.Charge(charged);
    var vma;
    vma, joinPrev, joinNext := PlaceMapping(mm, req, k);
    if vma == null {
      mm.Charge(-charged);
      return Some(ENOMEM), joinPrev, joinNext;
    }
    mm.Account(pages, req.attr.flags.locked);
    err := None;
  }

  lemma HoleAfterCut(s: seq<Area>, req: Area)
    requires Wf(s) && RequestOk(req)
    ensures var c := Cut(s, req.start, req.end); Wf(c) && Hole(c, First(c, req.start), req)
  {
    var x, y := req.start, req.end;
    CutOk(s, x, y);
    HeadOk(s, x);
    TailOk(s, y);
    FirstSkips(Head(s, x), Tail(s, y), x);
    hide Head; hide Tail; hide Wf;
    var c, k := Cut(s, x, y), First(Cut(s, x, y), x);
    if k < |c| { assert c[k] == Tail(s, y)[k - |Head(s, x)|]; }
  }

  /** RLIMIT_AS has room for the mapping once the pages it replaces are gone. */
  predicate LimitAllows(s: seq<Area>, total: int, x: int, n: int, limit: int) {
    total - PagesIn(s, x, x + n) + n <= limit
  }

  /** `mmap_region` for private anonymous memory. On success the page map is
      overwritten with the request, whichever way the range was filled, and the
      address space is within RLIMIT_AS; on failure the range has been unmapped,
      or nothing has changed but extra splits at most; only memory, the limit, or a
      split for which there is no room, makes it fail. */
  method MmapRegion(mm: Mm, addr: int, len: int, flags: Flags, pgoff: int, uf: bool)
    returns (err: Status, ghost k: nat, ghost joinPrev: bool, ghost joinNext: bool)
    requires mm.Valid() && RequestOk(Anonymous(addr, len, flags, pgoff)) && !flags.shared
    modifies mm, mm.repr
    ensures mm.Valid() && fresh(mm.repr - old(mm.repr))
    ensures var req := Anonymous(addr, len, flags, pgoff);
      && (err == None ==> MappedStep(old(mm.GetState()), mm.GetState(), req, k, joinPrev, joinNext))
      && (err == None ==> Overwritten(old(mm.Areas()), mm.Areas(), req))
      && (err == None && !mm.mayFail && !flags.special ==> JoinsAll(old(mm.Areas()), req, k, joinPrev, joinNext))
    ensures err == None ==> Granted(old(mm.GetState()), mm.GetState(), addr, len, flags, pgoff)
    ensures err == None ==> mm.totalVm <= mm.limitAs
    ensures err == None ==> mm.mapCount <= old(mm.mapCount) + 1 || mm.mapCount <= mm.maxMapCount + 1
    ensures err == None || err == Some(ENOMEM)
    ensures err != None ==>
      || mm.GetState() == Unmapped(old(mm.GetState()), addr, addr + len)
      || (mm.GetCounters() == old(mm.GetCounters()) && MerelySplit(old(mm.Areas()), mm.Areas(), addr, addr + len))
    ensures !mm.mayFail ==> (err == None <==>
      && LimitAllows(old(mm.Areas()), old(mm.totalVm), addr, len, mm.limitAs)
      && !TooMany(old(mm.Areas()), addr, addr + len, mm.maxMapCount))
  {
    hide Fits; hide Wf; hide Cut; hide MerelySplit; hide Sum; hide Overwritten; hide Placed;
    hide Hole; hide JoinsPrev; hide JoinsNext; hide First; hide T.First; hide Weight; hide Granted;
    var req := Anonymous(addr, len, flags, pgoff);
    ghost var s := mm.Areas();
    SoundWf(mm);
    StartsSplit(s, addr, addr + len);
    HoleAfterCut(s, req);
    k, joinPrev, joinNext := 0, false, false;
    var within := WithinLimit(mm, addr, addr + len);
    assert mm.Areas() == s;
    if !within { return Some(ENOMEM), k, joinPrev, joinNext; }
    err := MunmapPages(mm, addr, addr + len, uf);
    if err != None { return Some(ENOMEM), k, joinPrev, joinNext; }
    k := First(mm.Areas(), addr);
    SameFirst(mm.tree, mm.Areas(), addr);
    err, joinPrev, joinNext := FillHole(mm, req, k);
    if err == None {
      MappedGrants(old(mm.GetState()), mm.GetState(), addr, len, flags, pgoff, k, joinPrev, joinNext);
      PlacedCount(s, k, req, joinPrev, joinNext);
    }
  }

  lemma PlacedCount(s: seq<Area>, k: nat, req: Area, prev: bool, next: bool)
    requires var c := Cut(s, req.start, req.end); k <= |c| && Joinable(c, k, req, prev, next)
    ensures var c := Cut(s, req.start, req.end); |Placed(c, k, req, prev, next)| <= |c| + 1
    ensures Weight(All, req) == req.end - req.start
  {}
}
