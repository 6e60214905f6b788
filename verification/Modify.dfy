/** `vma_modify`: giving part of one VMA other attributes. */
module Modify {
  import opened VmTypes
  import opened AreaList
  import opened MmStruct
  import opened Adjust
  import opened MergeSpec
  import opened MergeProof
  import opened Merge

  /** `split_vma`: the split, if map_count is below its limit. */
  method SplitVma(mm: Mm, vma: Vma, addr: int, newBelow: bool, ghost i: nat) returns (err: Status)
    requires mm.Valid() && i < |mm.tree| && mm.tree[i].vma == vma
    requires vma.start < addr < vma.end
    modifies mm`tree, mm`mapCount, mm`repr, vma
    ensures mm.Valid()
    ensures err != None ==> mm.tree == old(mm.tree) && mm.Areas() == old(mm.Areas())
    ensures err == None ==> mm.Areas() == SplitAt(old(mm.Areas()), addr) && mm.mapCount <= mm.maxMapCount
    ensures err != None ==> mm.mayFail || old(mm.mapCount) >= mm.maxMapCount
    ensures err == None ==> |mm.tree| == |old(mm.tree)| + 1 && mm.tree[if newBelow then i + 1 else i].vma == vma
    ensures err == None ==>
      vma.Snapshot() == if newBelow then Upper(old(vma.Snapshot()), addr) else Lower(old(vma.Snapshot()), addr)
  {
    hide Fits; hide SplitAt;
    if mm.mapCount >= mm.maxMapCount { return Some(ENOMEM); }
    ghost var t := mm.tree;
    ghost var v;
    err, v := SplitVmaUnchecked(mm, vma, addr, newBelow, i);
    if err == None {
      var e, n := t[i], SplitEntries(t[i], addr, v, newBelow);
      TwoAttached(mm, t, i, i + 1, n[0], n[1]);
    }
  }

  /** The request `vma_modify` makes for pages [start, end) of area a. */
  function Change(a: Area, start: int, end: int, flags: Flags, policy: int, uffd: int, name: int): Area {
    Area(start, end, a.pgoff + (start - a.start), Attr(flags, a.attr.file, policy, uffd, name), a.anon, a.chain, false)
  }

  lemma ChangeSite(s: seq<Area>, i: nat, req: Area)
    requires Wf(s) && i < |s| && s[i].start <= req.start < req.end <= s[i].end && Covers(s[i], req)
    ensures Site(s, if s[i].start < req.start then i + 1 else i, req)
  {
    Neighbours(s, i);
    if i > 0 { Neighbours(s, i - 1); }
  }

  lemma SplitAtStart(s: seq<Area>, i: nat)
    requires Wf(s) && i < |s|
    ensures SplitAt(s, s[i].start) == s && SplitAt(s, s[i].end) == s
  {
    if i > 0 { Neighbours(s, i - 1); }
    Neighbours(s, i);
    hide Wf; hide SplitAt;
    SplitBetween(s, i, s[i].start);
    SplitBetween(s, i + 1, s[i].end);
  }

  lemma CarvedWhole(s: seq<Area>, i: nat, x: int, y: int)
    requires Wf(s) && i < |s| && s[i].start <= x < y <= s[i].end
    ensures s[i].start == x ==> SplitAt(s, x) == s
    ensures s[i].end == y ==> SplitAt(SplitAt(s, x), y) == SplitAt(s, x)
  {
    hide Wf; hide SplitAt;
    SplitAtStart(s, i);
    if s[i].start < x {
      SplitIndexIs(s, i, x);
      SplitAtStart(SplitAt(s, x), i + 1);
    }
  }

  /** Pages [x, y) of area a as an area. */
  function Middle(a: Area, x: int, y: int): Area { Lower(Upper(a, x), y) }

  lemma CarvedInside(s: seq<Area>, i: nat, x: int, y: int)
    requires Wf(s) && i < |s| && s[i].start < x < y < s[i].end
    ensures Carved(s, x, y) == s[..i] + [Lower(s[i], x), Middle(s[i], x, y), Upper(s[i], y)] + s[i + 1..]
    ensures Wf(Carved(s, x, y))
  {
    hide Wf; hide SplitAt;
    SplitIndexIs(s, i, x);
    SplitIndexIs(SplitAt(s, x), i + 1, y);
  }

  /** Asking for other attributes strictly inside an area never merges. */
  lemma InsideNeverMerges(s: seq<Area>, i: nat, req: Area)
    requires Wf(s) && i < |s| && s[i].start < req.start < req.end < s[i].end && Covers(s[i], req)
    ensures Site(s, i + 1, req) && Merged(s, i + 1, req) == None
  {
    ChangeSite(s, i, req);
    if i + 1 < |s| { Neighbours(s, i); }
  }

  /** Changing the flags of an interior range and changing them back restores
      the one area there was, by case 6 of the merge: its bounds, its offset, its
      flags, and with them the number of areas. */
  lemma ChangeBackRestores(s: seq<Area>, i: nat, x: int, y: int, flags: Flags)
    requires Wf(s) && i < |s| && s[i].start < x < y < s[i].end
    requires !s[i].attr.flags.special && !s[i].close
    ensures var t := Carved(s, x, y);
      && i + 1 < |t| && Wf(t) && (t[i + 1].start, t[i + 1].end) == (x, y)
      && var u := t[i + 1 := t[i + 1].(attr := t[i + 1].attr.(flags := flags))];
      && var a := s[i].attr;
      && var req := Change(u[i + 1], x, y, a.flags, a.policy, a.uffd, a.name);
      && Site(u, i + 1, req) && Merged(u, i + 1, req) == Some(s)
  {
    hide Wf; hide Carved; hide Site; hide Merged;
    CarvedInside(s, i, x, y);
    Neighbours(s, i);
    var t, a := Carved(s, x, y), s[i];
    assert t[i + 1] == Middle(a, x, y);
    var m := Middle(a, x, y).(attr := a.attr.(flags := flags));
    var u := s[..i] + [Lower(a, x), m, Upper(a, y)] + s[i + 1..];
    assert u == t[i + 1 := m];
    RestoresByCase6(s, i, x, y, m, u);
  }

  lemma RestoresByCase6(s: seq<Area>, i: nat, x: int, y: int, m: Area, u: seq<Area>)
    requires i < |s| && AreaOk(s[i]) && s[i].start < x < y < s[i].end
    requires !s[i].attr.flags.special && !s[i].close
    requires m == Middle(s[i], x, y).(attr := m.attr) && m.attr.file == s[i].attr.file
    requires u == s[..i] + [Lower(s[i], x), m, Upper(s[i], y)] + s[i + 1..]
    ensures var a := s[i].attr; var req := Change(m, x, y, a.flags, a.policy, a.uffd, a.name);
      Site(u, i + 1, req) && Merged(u, i + 1, req) == Some(s)
  {
    var a := s[i].attr;
    var req := Change(m, x, y, a.flags, a.policy, a.uffd, a.name);
    assert u[i] == Lower(s[i], x) && u[i + 1] == m && u[i + 2] == Upper(s[i], y);
    assert Site(u, i + 1, req) && HasCurr(u, i + 1, req);
    assert MergesBoth(u, i + 1, req);
    assert WithAnon(WithAnon(u[i], u[i + 2]), u[i + 1]).(end := u[i + 2].end) == s[i];
    assert u[..i] == s[..i] && u[i + 3..] == s[i + 1..];
    assert s == s[..i] + [s[i]] + s[i + 1..];
  }

  /** How many splits make [start, end) an area of its own. */
  function SplitsNeeded(a: Area, start: int, end: int): nat {
    (if a.start < start then 1 else 0) + (if end < a.end then 1 else 0)
  }

  /** `vma_modify`: the range is merged with its neighbours if the new attributes
      allow, or else made a VMA of its own, which is `vma`, for the caller to
      change. On failure every page is as before, with at most the lower of the
      two splits left behind; map_count rises above its limit in no case, and is the
      reason for a failure that is not one of memory. */
  method VmaModify(mm: Mm, prev: Vma?, vma: Vma, start: int, end: int,
                   flags: Flags, policy: int, uffd: int, name: int, ghost i: nat) returns (res: Vma?, err: Status)
    requires mm.Valid() && i < |mm.tree| && mm.tree[i].vma == vma
    requires vma.start <= start < end <= vma.end
    requires prev == if vma.start < start then vma else if i > 0 then mm.tree[i - 1].vma else null
    modifies mm`tree, mm`mapCount, mm`repr, mm.repr
    ensures mm.Valid() && mm.mapCount <= if old(mm.mapCount) > mm.maxMapCount then old(mm.mapCount) else mm.maxMapCount
    ensures err == None <==> res != null
    ensures res == null ==>
      mm.mayFail || old(mm.mapCount + SplitsNeeded(vma.Snapshot(), start, end)) > mm.maxMapCount
    ensures res == null ==> mm.mayFail || SplitsNeeded(old(vma.Snapshot()), start, end) > 0
    ensures var s := old(mm.Areas()); var k := if s[i].start < start then i + 1 else i;
      var req := Change(s[i], start, end, flags, policy, uffd, name);
      if res == null then
        mm.Areas() == s || mm.Areas() == SplitAt(s, start)
      else
        || (Some(mm.Areas()) == Merged(s, k, req) && MappedAs(s, mm.Areas(), req) && res in mm.repr && Spans(res.Snapshot(), req))
        || (mm.Areas() == Carved(s, start, end) && (mm.mayFail || Merged(s, k, req) == None)
            && res == vma && vma.start == start && vma.end == end)
    ensures var s := old(mm.Areas());
      res != null && mm.Areas() != Carved(s, start, end) ==>
        && LaidOver(s, mm.Areas(), Area(start, end, s[i].pgoff + (start - s[i].start),
             Attr(flags, s[i].attr.file, policy, uffd, name), s[i].anon, s[i].chain, false))
        && BackingSurvives(s, mm.Areas())
  {
    hide LaidOver; hide BackingSurvives; hide MergeAllowed; hide Fits; hide Wf; hide Site; hide Merged; hide MappedAs; hide SplitAt;
    ghost var s := mm.Areas();
    SoundWf(mm);
    var req := Change(vma.Snapshot(), start, end, flags, policy, uffd, name);
    ChangeSite(s, i, req);
    CarvedWhole(s, i, start, end);
    res := VmaMerge(mm, prev, req, if vma.start < start then i + 1 else i);
    if res != null { return res, None; }
    ghost var j := i;
    if vma.start < start {
      err := SplitVma(mm, vma, start, true, i);
      if err != None { return null, err; }
      j := i + 1;
    }
    if vma.end > end {
      err := SplitVma(mm, vma, end, false, j);
      if err != None { return null, err; }
    }
    return vma, None;
  }
}
