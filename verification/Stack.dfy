/** Growing a stack VMA downwards. */
module Stack {
  import opened VmTypes
  import opened AreaList
  import opened MmStruct
  import opened Adjust
  import opened MergeProof
  import opened Mmap
  import opened Munmap
  import T = RangeTree

  /** The area grown down to page x. */
  function GrownDown(a: Area, x: int): Area { a.(start := x, pgoff := a.pgoff - (a.start - x)) }

  /** The pages a growth adds, as a request. */
  function Growth(a: Area, x: int): Area { GrownDown(a, x).(end := a.start) }

  /** `anon_vma_prepare` changes nothing but a null backing. */
  predicate Prepared(a: Area, b: Area) {
    a.(anon := null, chain := []) == b.(anon := null, chain := []) && (a.anon != null ==> b == a)
    && (b.anon == null ==> b.chain == [])
  }

  /** The test of the gap above the previous mapping, an unsigned comparison. */
  predicate GapOk(prev: Area, x: int, gap: nat) {
    prev.attr.flags.growsDown || !Accessible(prev.attr.flags) || Sub64(x * PAGE, prev.end * PAGE) >= gap * PAGE
  }

  /** Below or inside the previous mapping the difference wraps and the test
      passes, so it is not what keeps the two apart. */
  lemma GapTestWraps(prev: Area, x: int, gap: nat)
    requires 0 <= x < prev.end <= TASK_PAGES && gap * PAGE <= U64 - TASK_SIZE
    ensures GapOk(prev, x, gap)
  {
    assert Sub64(x * PAGE, prev.end * PAGE) == U64 + x * PAGE - prev.end * PAGE;
  }

  /** Above it the gap must be there, unless the previous mapping can itself grow down
      or nobody can access it. */
  lemma GapOkMeans(prev: Area, x: int, gap: nat)
    requires 0 <= prev.end <= x <= TASK_PAGES
    ensures var f := prev.attr.flags;
      GapOk(prev, x, gap) <==> f.growsDown || (!f.read && !f.write && !f.exec) || prev.end + gap <= x
  {
    assert Sub64(x * PAGE, prev.end * PAGE) == x * PAGE - prev.end * PAGE;
  }

  /** A growth keeps the areas disjoint, maps the new pages as the stack's and
      leaves every other page its offset, when it starts from the first area
      that ends above the address. */
  lemma GrowthMaps(s: seq<Area>, i: nat, b: Area, x: int)
    requires Wf(s) && i == First(s, x) < |s| && 0 <= x < s[i].start && s[i].start - x <= s[i].pgoff
    requires Prepared(s[i], b)
    ensures var t := s[i := GrownDown(b, x)]; Wf(t) && MappedAs(s, t, Growth(s[i], x))
  {
    assert AreaOk(s[i]);
    if i + 1 < |s| { assert Before(s[i], s[i + 1]); }
    hide Wf;
    var w := GrownDown(b, x);
    AbsorbCase(s, i, i + 1, w, Growth(s[i], x));
    assert s[i := w] == s[..i] + [w] + s[i + 1..];
  }

  lemma PreparedWf(s: seq<Area>, i: nat, b: Area)
    requires Wf(s) && i < |s| && Prepared(s[i], b)
    ensures Wf(s[i := b])
  {
    assert AreaOk(s[i]);
  }

  /** `anon_vma_prepare` */
  method AnonVmaPrepare(mm: Mm, vma: Vma, ghost i: nat) returns (ok: bool, ghost b: Area)
    requires mm.Valid() && i < |mm.tree| && mm.tree[i].vma == vma
    modifies vma`anon, vma`chain
    ensures mm.Valid() && Prepared(old(mm.Areas()[i]), b) && mm.Areas() == old(mm.Areas())[i := b]
    ensures !ok ==> mm.Areas() == old(mm.Areas())
    ensures ok ==> vma.anon != null
    ensures ok || mm.mayFail
  {
    ghost var s := mm.Areas();
    SoundWf(mm);
    EntryAt(mm, i);
    OnlyOnce(mm.tree, s, i);
    hide Wf;
    ok := true;
    if vma.anon == null {
      ok :| ok || mm.mayFail;
      if ok {
        var root := new AnonRoot();
        var anon := new AnonVma(root);
        vma.anon, vma.chain := anon, [anon];
      }
    }
    b := vma.Snapshot();
    PreparedWf(s, i, b);
    assert mm.Areas() == s[i := b];
  }

  lemma GrowTree(t: seq<Entry>, s: seq<Area>, i: nat, x: int)
    requires Fits(t, s) && i == First(s, x) < |s| && x < s[i].start
    ensures T.Stored(t, x, t[i].hi, t[i].vma) == t[..i] + [t[i].(lo := x)] + t[i + 1..]
    ensures t[i].lo == s[i].start && t[i].hi == s[i].end
  {
    T.OverWhole(t, i, i + 1, x, t[i].hi, t[i].vma);
  }

  /** Moving the start of VMA i down to page x, and its offset with it. */
  method MoveDown(mm: Mm, vma: Vma, x: int, ghost i: nat)
    requires mm.Valid() && i < |mm.tree| && mm.tree[i].vma == vma && i == First(mm.Areas(), x)
    requires 0 <= x < vma.start && vma.start - x <= vma.pgoff
    modifies mm`tree, vma`start, vma`pgoff
    ensures mm.Valid() && mm.Areas() == old(mm.Areas())[i := GrownDown(old(mm.Areas())[i], x)] && vma.start == x
  {
    hide Fits; hide Wf; hide T.Stored; hide First; hide MappedAs;
    ghost var t, s := mm.tree, mm.Areas();
    OnlyOnce(t, s, i);
    SoundWf(mm);
    EntryAt(mm, i);
    GrowTree(t, s, i, x);
    GrowthMaps(s, i, s[i], x);
    vma.pgoff := vma.pgoff - (vma.start - x);
    vma.start := x;
    mm.Store(vma);
    assert s[i := GrownDown(s[i], x)] == s[..i] + [GrownDown(s[i], x)] + s[i + 1..];
    WindowOne(mm, t, s, i, i + 1, t[i].(lo := x), GrownDown(s[i], x));
    OneAttached(mm, t, i, i + 1, t[i].(lo := x));
  }

  /** What growing area i down to page x does to the state; without a growth the
      area may still have been given backing. */
  ghost predicate GrowStep(s: State, t: State, i: nat, x: int, b: Area, grown: bool) {
    && i < |s.areas| && Prepared(s.areas[i], b)
    && if !grown then t == s.(areas := s.areas[i := b]) else
         var pages := s.areas[i].start - x;
         && 0 <= x < s.areas[i].start && pages <= s.areas[i].pgoff && b.anon != null
         && t == s.(areas := s.areas[i := GrownDown(b, x)], counters := s.counters.(
              total := s.counters.total + pages,
              locked := s.counters.locked + if s.areas[i].attr.flags.locked then pages else 0,
              charged := s.counters.charged + pages))
  }

  /** What a fault means for the page map and the guard gaps. A growth maps exactly
      the new pages, with the offsets that go on those of the stack, and keeps every
      page its attributes, offset and backing; it stays clear of the area below by
      the guard gap if that is accessible and cannot grow. Without a growth no page
      changes but for a backing that it did not have. */
  lemma GrowPages(s: State, t: State, i: nat, x: int, b: Area, grown: bool, minAddr: nat, gap: nat)
    requires Wf(s.areas) && GrowStep(s, t, i, x, b, grown)
    requires grown ==> i == First(s.areas, x) && MayLie(s.areas, i, x, minAddr, gap)
    ensures Wf(t.areas)
    ensures grown ==> MappedAs(s.areas, t.areas, Growth(s.areas[i], x))
    ensures grown ==> forall p: int :: x <= p < s.areas[i].start ==> PageAt(s.areas, p) == None
    ensures grown ==> var a := s.areas[i];
      LaidOver(s.areas, t.areas, Area(x, a.start, a.pgoff - (a.start - x), a.attr, a.anon, a.chain, a.close))
    ensures grown && i > 0 ==> var f := s.areas[i - 1].attr.flags;
      s.areas[i - 1].end <= x && (!f.growsDown && (f.read || f.write || f.exec) ==> s.areas[i - 1].end + gap <= x)
    ensures !grown ==> forall p: int ::
      SameMapping(PageAt(s.areas, p), PageAt(t.areas, p)) && AnonKept(PageAt(s.areas, p), PageAt(t.areas, p))
  {
    var u := s.areas;
    if grown {
      GrowthMaps(u, i, b, x);
      GrowthLays(u, t.areas, u[i], x);
      Neighbours(u, i);
      if i > 0 {
        Neighbours(u, i - 1);
        GapOkMeans(u[i - 1], x, gap);
      }
      forall p: int | x <= p < u[i].start ensures PageAt(u, p) == None { BelowFirst(u, i, p); }
    } else {
      PreparedWf(u, i, b);
      forall p: int ensures SameMapping(PageAt(u, p), PageAt(t.areas, p)) && AnonKept(PageAt(u, p), PageAt(t.areas, p)) {
        PreparedPage(u, i, b, p);
      }
    }
  }

  lemma GrowthLays(s: seq<Area>, t: seq<Area>, a: Area, x: int)
    requires Wf(s) && Wf(t) && MappedAs(s, t, Growth(a, x))
    ensures LaidOver(s, t, Area(x, a.start, a.pgoff - (a.start - x), a.attr, a.anon, a.chain, a.close))
  {
    hide Wf; hide MappedAs; hide LaidOver;
    MappedLays(s, t, Growth(a, x));
  }

  lemma BelowFirst(s: seq<Area>, i: nat, p: int)
    requires Wf(s) && i < |s| && (i > 0 ==> s[i - 1].end <= p) && p < s[i].start
    ensures PageAt(s, p) == None
  {
    forall k | 0 <= k < |s| ensures !In(s[k], p) {
      assert k > i ==> Before(s[i], s[k]) && AreaOk(s[i]);
      assert k + 1 < i ==> Before(s[k], s[i - 1]) && AreaOk(s[i - 1]);
    }
    PageAtOutside(s, p);
  }

  lemma {:induction false} PreparedPage(s: seq<Area>, i: nat, b: Area, p: int)
    requires i < |s| && Prepared(s[i], b)
    ensures var t := s[i := b]; SameMapping(PageAt(s, p), PageAt(t, p)) && AnonKept(PageAt(s, p), PageAt(t, p))
  {
    if i > 0 {
      assert s[i := b][1..] == s[1..][i - 1 := b];
      PreparedPage(s[1..], i - 1, b, p);
    } else {
      assert s[0 := b][1..] == s[1..];
    }
  }

  lemma PreparedStep(s: State, t: State, i: nat, x: int, b: Area)
    requires i < |s.areas| && Prepared(s.areas[i], b) && t == s.(areas := s.areas[i := b])
    ensures GrowStep(s, t, i, x, b, false)
  {}

  lemma GrowCompose(s: State, t: State, u: State, i: nat, x: int, b: Area)
    requires i < |s.areas| && Prepared(s.areas[i], b) && t == s.(areas := s.areas[i := b])
    requires GrowStep(t, u, i, x, b, true)
    ensures GrowStep(s, u, i, x, b, true)
  {
    assert s.areas[i := GrownDown(b, x)] == t.areas[i := GrownDown(b, x)];
  }

  /** `acct_stack_growth`: the limits; the pages are charged if all of them hold. */
  method AcctStackGrowth(mm: Mm, grow: int) returns (ok: bool)
    requires mm.Valid()
    modifies mm`charged
    ensures mm.Valid() && mm.Areas() == old(mm.Areas())
    ensures mm.charged == old(mm.charged) + if ok then grow else 0
    ensures ok ==> mm.totalVm + grow <= mm.limitAs
    ensures !ok ==> mm.totalVm + grow > mm.limitAs || mm.mayFail
  {
    hide Fits;
    ghost var s := mm.Areas();
    ok := MayExpandVm(mm, grow);
    assert mm.Areas() == s;
    var otherLimits :| otherLimits || mm.mayFail;
    ok := ok && otherLimits;
    mm.Charge(if ok then grow else 0);
  }

  /** The offset has room for the growth, and so has RLIMIT_AS. */
  predicate Affordable(a: Area, x: int, total: int, limit: int) {
    a.start - x <= a.pgoff && total + (a.start - x) <= limit
  }

  /** The growth itself, once the backing is there. */
  method GrowBy(mm: Mm, vma: Vma, x: int, ghost i: nat) returns (ok: bool)
    requires mm.Valid() && i < |mm.tree| && mm.tree[i].vma == vma && i == First(mm.Areas(), x) && 0 <= x < vma.start
    requires vma.anon != null
    modifies mm, vma
    ensures mm.Valid() && mm.repr == old(mm.repr)
    ensures ok ==> GrowStep(old(mm.GetState()), mm.GetState(), i, x, old(mm.Areas()[i]), true) && mm.totalVm <= mm.limitAs
    ensures ok ==> vma.start == x < vma.end
    ensures !ok ==> mm.GetState() == old(mm.GetState())
    ensures !mm.mayFail ==> (ok <==> Affordable(old(mm.Areas()[i]), x, old(mm.totalVm), mm.limitAs))
  {
    hide Fits; hide Wf; hide First; hide T.First;
    EntryAt(mm, i);
    var grow := vma.start - x;
    if grow > vma.pgoff { return false; }
    ok := AcctStackGrowth(mm, grow);
    if ok {
      mm.Account(grow, vma.attr.flags.locked);
      MoveDown(mm, vma, x, i);
    }
  }

  /** The tests of `expand_downwards`, and the preallocation. */
  method CheckDownwards(mm: Mm, vma: Vma, x: int, ghost i: nat) returns (err: Status)
    requires mm.Valid() && i < |mm.tree| && mm.tree[i].vma == vma && i == First(mm.Areas(), x) && 0 <= x
    ensures err == None ==> MayLie(mm.Areas(), i, x, mm.minAddr, mm.guardGap)
    ensures err != None && !mm.mayFail ==> !MayLie(mm.Areas(), i, x, mm.minAddr, mm.guardGap)
    ensures !vma.attr.flags.growsDown ==> err == Some(EFAULT)
  {
    hide Fits; hide Wf; hide First; hide T.First; hide GapOk;
    ghost var s := mm.Areas();
    SameFirst(mm.tree, s, x);
    if i > 0 { EntryAt(mm, i - 1); }
    if !vma.attr.flags.growsDown { return Some(EFAULT); }
    if x * PAGE < mm.minAddr { return Some(EPERM); }
    var prev := mm.PrevVma(x);
    if prev != null && !GapOk(prev.Snapshot(), x, mm.guardGap) { return Some(ENOMEM); }
    var ok :| ok || mm.mayFail;
    err := if ok then None else Some(ENOMEM);
  }

  /** The rest of it: the backing, and the growth if there is anything to grow. */
  method PrepareAndGrow(mm: Mm, vma: Vma, x: int, ghost i: nat) returns (ok: bool, ghost b: Area)
    requires mm.Valid() && i < |mm.tree| && mm.tree[i].vma == vma && i == First(mm.Areas(), x) && 0 <= x
    modifies mm, vma
    ensures mm.Valid() && mm.repr == old(mm.repr)
    ensures GrowStep(old(mm.GetState()), mm.GetState(), i, x, b, ok && x < old(vma.start))
    ensures ok && x < old(vma.start) ==> mm.totalVm <= mm.limitAs
    ensures ok ==> vma.start <= x < vma.end
    ensures !mm.mayFail ==>
      (ok <==> x < old(vma.start) ==> Affordable(old(mm.Areas()[i]), x, old(mm.totalVm), mm.limitAs))
  {
    hide Fits; hide Wf; hide First; hide T.First; hide GrowStep;
    ghost var s, before := mm.Areas(), mm.GetState();
    SoundWf(mm);
    EntryAt(mm, i);
    FirstEnds(s, i, x);
    ok, b := AnonVmaPrepare(mm, vma, i);
    PreparedStep(before, mm.GetState(), i, x, b);
    if ok && x < vma.start {
      PreparedFirst(s, i, b, x);
      ghost var prepared := mm.GetState();
      ok := GrowBy(mm, vma, x, i);
      if ok { GrowCompose(before, prepared, mm.GetState(), i, x, b); }
    }
  }

  lemma FirstEnds(s: seq<Area>, i: nat, x: int)
    requires i == First(s, x) < |s|
    ensures x < s[i].end
  {}

  /** Area i may lie as low as page x, as far as its kind and its neighbour go. */
  predicate MayLie(s: seq<Area>, i: nat, x: int, minAddr: nat, gap: nat) {
    i < |s| && s[i].attr.flags.growsDown && minAddr <= x * PAGE && (i > 0 ==> GapOk(s[i - 1], x, gap))
  }

  /** Area i may be grown down to page x, if it is not there already. */
  predicate MayReach(s: seq<Area>, i: nat, x: int, minAddr: nat, gap: nat, total: int, limit: int) {
    MayLie(s, i, x, minAddr, gap) && (x < s[i].start ==> Affordable(s[i], x, total, limit))
  }

  /** `expand_downwards`, for the first VMA that ends above page x. Apart from
      memory and what is not modelled it fails only for the reasons listed. */
  method ExpandDownwards(mm: Mm, vma: Vma, x: int, ghost i: nat) returns (err: Status, ghost b: Area)
    requires mm.Valid() && i < |mm.tree| && mm.tree[i].vma == vma && i == First(mm.Areas(), x) && 0 <= x
    modifies mm, vma
    ensures mm.Valid() && mm.repr == old(mm.repr)
    ensures GrowStep(old(mm.GetState()), mm.GetState(), i, x, b, err == None && x < old(vma.start))
    ensures err == None ==> MayLie(old(mm.Areas()), i, x, mm.minAddr, mm.guardGap)
    ensures err == None && x < old(vma.start) ==> mm.totalVm <= mm.limitAs
    ensures err == None ==> vma.start <= x < vma.end
    ensures !old(vma.attr.flags.growsDown) ==> err == Some(EFAULT)
    ensures !mm.mayFail ==>
      (err == None <==> MayReach(old(mm.Areas()), i, x, mm.minAddr, mm.guardGap, old(mm.totalVm), mm.limitAs))
  {
    hide Fits; hide Wf; hide First; hide T.First; hide GrowStep; hide MayLie; hide Affordable;
    b := vma.Snapshot();
    ghost var s := mm.Areas();
    EntryAt(mm, i);
    SoundWf(mm);
    ItselfPrepared(s, i);
    PreparedStep(mm.GetState(), mm.GetState(), i, x, b);
    err := CheckDownwards(mm, vma, x, i);
    assert mm.Areas() == s;
    if err != None { return; }
    var ok;
    ok, b := PrepareAndGrow(mm, vma, x, i);
    if !ok { err := Some(ENOMEM); }
  }

  lemma ItselfPrepared(s: seq<Area>, i: nat)
    requires Wf(s) && i < |s|
    ensures s[i := s[i]] == s && Prepared(s[i], s[i])
  {
    assert AreaOk(s[i]);
  }

  lemma PreparedFirst(s: seq<Area>, i: nat, b: Area, x: int)
    requires Wf(s) && i == First(s, x) < |s| && Prepared(s[i], b)
    ensures First(s[i := b], x) == i
  {
    PreparedWf(s, i, b);
    if i > 0 { assert s[i := b][i - 1] == s[i - 1]; }
    FirstIs(s[i := b], i, x);
  }

  /** The same of the areas alone, for the first area that ends above page x. */
  lemma ReachIs(s: seq<Area>, i: nat, x: int, minAddr: nat, gap: nat, total: int, limit: int)
    requires Wf(s) && i == First(s, x) < |s| && 0 <= x < s[i].start
    ensures MayReach(s, i, x, minAddr, gap, total, limit) <==>
      && s[i].attr.flags.growsDown && minAddr <= x * PAGE
      && (i > 0 ==> var f := s[i - 1].attr.flags;
           f.growsDown || (!f.read && !f.write && !f.exec) || s[i - 1].end + gap <= x)
      && s[i].start - x <= s[i].pgoff && total + (s[i].start - x) <= limit
  {
    if i > 0 {
      Neighbours(s, i - 1);
      Neighbours(s, i);
      GapOkMeans(s[i - 1], x, gap);
    }
  }

  /** `find_extend_vma_locked`: the VMA that contains the address, after growing
      the one above it if that is a stack. */
  method FindExtendVma(mm: Mm, addr: nat) returns (vma: Vma?, ghost i: nat, ghost b: Area, ghost grown: bool)
    requires mm.Valid()
    modifies mm, mm.repr
    ensures mm.Valid() && mm.repr == old(mm.repr)
    ensures if i < |old(mm.tree)| then GrowStep(old(mm.GetState()), mm.GetState(), i, addr / PAGE, b, grown)
            else vma == null && mm.GetState() == old(mm.GetState())
    ensures i == First(old(mm.Areas()), addr / PAGE)
    ensures grown ==> mm.totalVm <= mm.limitAs && MayLie(old(mm.Areas()), i, addr / PAGE, mm.minAddr, mm.guardGap)
    ensures vma != null ==> vma in mm.repr && vma.start <= addr / PAGE < vma.end
    ensures i < |old(mm.tree)| ==> (vma != null <==> grown || old(mm.Areas())[i].start <= addr / PAGE)
    ensures !mm.mayFail && i < |old(mm.tree)| && addr / PAGE < old(mm.Areas())[i].start ==>
      (grown <==> MayReach(old(mm.Areas()), i, addr / PAGE, mm.minAddr, mm.guardGap, old(mm.totalVm), mm.limitAs))
    ensures var s, x := old(mm.Areas()), addr / PAGE;
      !mm.mayFail && i < |old(mm.tree)| && x < s[i].start ==>
        (grown <==>
          && s[i].attr.flags.growsDown && mm.minAddr <= x * PAGE
          && (i > 0 ==> var f := s[i - 1].attr.flags;
               f.growsDown || (!f.read && !f.write && !f.exec) || s[i - 1].end + mm.guardGap <= x)
          && s[i].start - x <= s[i].pgoff && old(mm.totalVm) + (s[i].start - x) <= mm.limitAs)
  {
    hide Fits; hide Wf; hide First; hide T.First; hide MayReach; hide MayLie;
    var x := addr / PAGE;
    ghost var s := mm.Areas();
    i, grown := First(s, x), false;
    SameFirst(mm.tree, s, x);
    b := Area(0, 0, 0, Attr(mm.defFlags, null, 0, 0, 0), null, [], false);
    vma := mm.FindVma(x);
    if vma == null { return; }
    EntryAt(mm, i);
    InRepr(mm, i);
    b := s[i];
    assert s[i := b] == s;
    if vma.start <= x { return; }
    SoundWf(mm);
    ReachIs(s, i, x, mm.minAddr, mm.guardGap, mm.totalVm, mm.limitAs);
    var err;
    err, b := ExpandDownwards(mm, vma, x, i);
    grown := err == None;
    if err != None { return null, i, b, grown; }
    EntryAt(mm, i);
  }
}
