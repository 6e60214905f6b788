/** `vma_merge` and its callers that change a range in place. */
module Merge {
  import opened VmTypes
  import opened AreaList
  import opened MmStruct
  import opened MergeSpec
  import opened MergeProof
  import opened Expand
  import T = RangeTree

  lemma Case1Regrown(s: seq<Area>, k: nat, req: Area)
    requires Wf(s) && Site(s, k, req) && MergesBoth(s, k, req) && !HasCurr(s, k, req)
    ensures var d := Dupped(s, k - 1, k);
      && JoinBoth(s, k, req) == Regrown(d, k - 1, k + 1, k - 1, s[k - 1].start, s[k].end, s[k - 1].pgoff)
      && Wf(Regrown(d, k - 1, k + 1, k - 1, s[k - 1].start, s[k].end, s[k - 1].pgoff))
      && (s[k].anon != null ==> d[k - 1].anon == s[k].anon)
  {
    hide Wf;
    Case1(s, k, req);
  }

  /** Case 1. */
  method MergeAcrossHole(mm: Mm, prev: Vma, next: Vma, req: Area, ghost k: nat) returns (res: Vma?)
    requires mm.Valid() && Site(mm.Areas(), k, req) && MergesBoth(mm.Areas(), k, req) && !HasCurr(mm.Areas(), k, req)
    requires mm.tree[k - 1].vma == prev && mm.tree[k].vma == next
    modifies mm`tree, mm`mapCount, prev, next
    ensures mm.Valid()
    ensures res == null ==> mm.tree == old(mm.tree) && mm.Areas() == old(mm.Areas())
    ensures res != null ==> mm.Areas() == JoinBoth(old(mm.Areas()), k, req)
    ensures res != null ==> res == prev && k - 1 < |mm.tree| && mm.tree[k - 1].vma == prev
    ensures !mm.mayFail ==> res != null
  {
    hide Fits; hide Wf; hide Site; hide JoinBoth; hide Regrown; hide Undup; hide Outside;
    ghost var s := mm.Areas();
    SoundWf(mm);
    Case1Regrown(s, k, req);
    OnlyOnce(mm.tree, s, k);
    OutsideWindow(mm.tree, s, k - 1, k + 1, k);
    EntryAt(mm, k - 1);
    EntryAt(mm, k);
    var ok, dup := DupAnonVma(mm, prev, next, k - 1, k);
    if !ok { return null; }
    ok := Regrow(mm, prev, prev.start, next.end, prev.pgoff, dup, next, null, k - 1, k + 1, k - 1);
    res := if ok then prev else null;
  }

  function Dupped6(s: seq<Area>, k: nat): seq<Area>
    requires 0 < k && k + 1 < |s|
  {
    Dupped(Dupped(s, k - 1, k + 1), k - 1, k)
  }

  lemma Case6Regrown(s: seq<Area>, k: nat, req: Area)
    requires Wf(s) && Site(s, k, req) && MergesBoth(s, k, req) && HasCurr(s, k, req)
    ensures var d := Dupped6(s, k);
      && JoinBoth(s, k, req) == Regrown(d, k - 1, k + 2, k - 1, s[k - 1].start, s[k + 1].end, s[k - 1].pgoff)
      && Wf(Regrown(d, k - 1, k + 2, k - 1, s[k - 1].start, s[k + 1].end, s[k - 1].pgoff))
      && (s[k + 1].anon != null ==> d[k - 1].anon == s[k + 1].anon)
      && (s[k].anon != null ==> d[k - 1].anon == s[k].anon)
  {
    hide Wf;
    Case6(s, k, req);
  }

  /** The two duplications of case 6: `curr` is only asked when `next` has no
      backing to give. */
  method DupFromEither(mm: Mm, prev: Vma, curr: Vma, next: Vma, ghost k: nat) returns (ok: bool, dup: bool)
    requires mm.Valid() && 0 < k && k + 1 < |mm.tree|
    requires mm.tree[k - 1].vma == prev && mm.tree[k].vma == curr && mm.tree[k + 1].vma == next
    modifies prev`anon, prev`chain
    ensures mm.Valid()
    ensures mm.Areas() == if ok then Dupped6(old(mm.Areas()), k) else old(mm.Areas())
    ensures ok ==> Undup(mm.Areas(), k - 1, dup) == old(mm.Areas())
    ensures !mm.mayFail ==> ok
  {
    hide Fits; hide Wf;
    ghost var s := mm.Areas();
    ok, dup := DupAnonVma(mm, prev, next, k - 1, k + 1);
    if ok && next.anon == null {
      assert Dupped(s, k - 1, k + 1) == s;
      ok, dup := DupAnonVma(mm, prev, curr, k - 1, k);
    }
  }

  /** Case 6. */
  method MergeOverCurr(mm: Mm, prev: Vma, curr: Vma, next: Vma, req: Area, ghost k: nat) returns (res: Vma?)
    requires mm.Valid() && Site(mm.Areas(), k, req) && MergesBoth(mm.Areas(), k, req) && HasCurr(mm.Areas(), k, req)
    requires mm.tree[k - 1].vma == prev && mm.tree[k].vma == curr && mm.tree[k + 1].vma == next
    modifies mm`tree, mm`mapCount, prev, curr, next
    ensures mm.Valid()
    ensures res == null ==> mm.tree == old(mm.tree) && mm.Areas() == old(mm.Areas())
    ensures res != null ==> mm.Areas() == JoinBoth(old(mm.Areas()), k, req)
    ensures res != null ==> res == prev && k - 1 < |mm.tree| && mm.tree[k - 1].vma == prev
    ensures !mm.mayFail ==> res != null
  {
    hide Fits; hide Wf; hide Site; hide JoinBoth; hide Regrown; hide Undup; hide Outside;
    ghost var s := mm.Areas();
    SoundWf(mm);
    Case6Regrown(s, k, req);
    OnlyOnce(mm.tree, s, k);
    OnlyOnce(mm.tree, s, k + 1);
    OutsideWindow(mm.tree, s, k - 1, k + 2, k);
    OutsideWindow(mm.tree, s, k - 1, k + 2, k + 1);
    EntryAt(mm, k - 1);
    EntryAt(mm, k + 1);
    var ok, dup := DupFromEither(mm, prev, curr, next, k);
    if !ok { return null; }
    ok := Regrow(mm, prev, prev.start, next.end, prev.pgoff, dup, curr, next, k - 1, k + 2, k - 1);
    res := if ok then prev else null;
  }

  lemma Case2Regrown(s: seq<Area>, k: nat, req: Area)
    requires Wf(s) && Site(s, k, req) && MergesPrev(s, k, req) && !HasCurr(s, k, req)
    ensures JoinPrev(s, k, req) == Some(Regrown(s, k - 1, k, k - 1, s[k - 1].start, req.end, s[k - 1].pgoff))
    ensures Wf(Regrown(s, k - 1, k, k - 1, s[k - 1].start, req.end, s[k - 1].pgoff))
    ensures s[k - 1].end <= req.end
  {
    hide Wf;
    Case2(s, k, req);
  }

  lemma Case7Regrown(s: seq<Area>, k: nat, req: Area)
    requires Wf(s) && Site(s, k, req) && MergesPrev(s, k, req) && HasCurr(s, k, req)
    requires req.end == s[k].end && !s[k].close
    ensures var d := Dupped(s, k - 1, k);
      && JoinPrev(s, k, req) == Some(Regrown(d, k - 1, k + 1, k - 1, s[k - 1].start, req.end, s[k - 1].pgoff))
      && Wf(Regrown(d, k - 1, k + 1, k - 1, s[k - 1].start, req.end, s[k - 1].pgoff))
      && (s[k].anon != null ==> d[k - 1].anon == s[k].anon)
  {
    hide Wf;
    Case7(s, k, req);
  }

  lemma Case5Shifted(s: seq<Area>, k: nat, req: Area)
    requires Wf(s) && Site(s, k, req) && MergesPrev(s, k, req) && HasCurr(s, k, req) && req.end != s[k].end
    ensures JoinPrev(s, k, req) == Some(Shifted(Dupped(s, k - 1, k), k - 1, req.end))
    ensures Wf(Shifted(Dupped(s, k - 1, k), k - 1, req.end))
    ensures s[k - 1].start < s[k - 1].end == s[k].start == req.start < req.end < s[k].end
  {
    Neighbours(s, k - 1);
    Case5(s, k, req);
  }

  /** Case 5. */
  method MergePartOfCurr(mm: Mm, prev: Vma, curr: Vma, req: Area, ghost k: nat) returns (res: Vma?)
    requires mm.Valid() && Site(mm.Areas(), k, req) && MergesPrev(mm.Areas(), k, req) && 0 < k <= |mm.tree|
    requires HasCurr(mm.Areas(), k, req) && req.end != mm.Areas()[k].end
    requires mm.tree[k - 1].vma == prev && curr == mm.tree[k].vma
    modifies mm`tree, prev, curr
    ensures mm.Valid()
    ensures res == null ==> mm.tree == old(mm.tree) && mm.Areas() == old(mm.Areas())
    ensures res != null ==> Some(mm.Areas()) == JoinPrev(old(mm.Areas()), k, req)
    ensures res != null ==> res == prev && k - 1 < |mm.tree| && mm.tree[k - 1].vma == prev
    ensures !mm.mayFail ==> res != null
  {
    hide Fits; hide Wf; hide Site; hide JoinPrev; hide Shifted; hide Undup;
    ghost var s := mm.Areas();
    SoundWf(mm);
    EntryAt(mm, k - 1);
    EntryAt(mm, k);
    OnlyOnce(mm.tree, s, k);
    Case5Shifted(s, k, req);
    var ok, dup := DupAnonVma(mm, prev, curr, k - 1, k);
    if !ok { return null; }
    ok := ShiftBoundary(mm, prev, curr, req.end, dup, k - 1);
    res := if ok then prev else null;
  }

  /** Cases 2 and 7. */
  method MergeIntoPrev(mm: Mm, prev: Vma, curr: Vma?, req: Area, ghost k: nat) returns (res: Vma?)
    requires mm.Valid() && Site(mm.Areas(), k, req) && MergesPrev(mm.Areas(), k, req) && 0 < k <= |mm.tree|
    requires mm.tree[k - 1].vma == prev && curr == if HasCurr(mm.Areas(), k, req) then mm.tree[k].vma else null
    requires curr != null ==> req.end == curr.end
    modifies mm`tree, mm`mapCount, prev, curr
    ensures mm.Valid()
    ensures res == null ==> mm.tree == old(mm.tree) && mm.Areas() == old(mm.Areas())
    ensures res != null ==> Some(mm.Areas()) == JoinPrev(old(mm.Areas()), k, req)
    ensures res != null ==> res == prev && k - 1 < |mm.tree| && mm.tree[k - 1].vma == prev
    ensures !mm.mayFail && JoinPrev(old(mm.Areas()), k, req) != None ==> res != null
  {
    hide Fits; hide Wf; hide Site; hide Regrown; hide Undup; hide Outside;
    ghost var s := mm.Areas();
    SoundWf(mm);
    EntryAt(mm, k - 1);
    if curr == null {
      Case2Regrown(s, k, req);
      OutsideWindow(mm.tree, s, k - 1, k, k - 1);
      var grown := Regrow(mm, prev, prev.start, req.end, prev.pgoff, false, null, null, k - 1, k, k - 1);
      return if grown then prev else null;
    }
    if curr.close { return null; }
    EntryAt(mm, k);
    OnlyOnce(mm.tree, s, k);
    Case7Regrown(s, k, req);
    OutsideWindow(mm.tree, s, k - 1, k + 1, k);
    var ok, dup := DupAnonVma(mm, prev, curr, k - 1, k);
    if !ok { return null; }
    ok := Regrow(mm, prev, prev.start, req.end, prev.pgoff, dup, curr, null, k - 1, k + 1, k - 1);
    res := if ok then prev else null;
  }

  lemma Case4Shifted(s: seq<Area>, k: nat, req: Area)
    requires Wf(s) && Site(s, k, req) && MergesNext(s, k, req) && InsidePrev(s, k, req)
    ensures !HasCurr(s, k, req) && 0 < k < |s|
    ensures JoinNext(s, k, req) == Shifted(Dupped(s, k, k - 1), k - 1, req.start)
    ensures Wf(Shifted(Dupped(s, k, k - 1), k - 1, req.start))
    ensures s[k - 1].start < req.start < s[k - 1].end == s[k].start < s[k].end
  {
    Neighbours(s, k - 1);
    assert !HasCurr(s, k, req);
    Case4Meets(s, k, req);
    Neighbours(s, k);
    Case4(s, k, req);
  }

  lemma Case3Regrown(s: seq<Area>, k: nat, req: Area)
    requires Wf(s) && Site(s, k, req) && MergesNext(s, k, req) && !HasCurr(s, k, req) && !InsidePrev(s, k, req)
    ensures JoinNext(s, k, req) == Regrown(s, k, k + 1, k, req.start, s[k].end, s[k].pgoff - (req.end - req.start))
    ensures Wf(Regrown(s, k, k + 1, k, req.start, s[k].end, s[k].pgoff - (req.end - req.start)))
    ensures req.start <= s[k].start
  {
    hide Wf;
    Case3(s, k, req);
  }

  lemma Case8Regrown(s: seq<Area>, k: nat, req: Area)
    requires Wf(s) && Site(s, k, req) && MergesNext(s, k, req) && HasCurr(s, k, req)
    ensures var d := Dupped(s, k + 1, k);
      && JoinNext(s, k, req) == Regrown(d, k, k + 2, k + 1, req.start, s[k + 1].end, s[k].pgoff)
      && Wf(Regrown(d, k, k + 2, k + 1, req.start, s[k + 1].end, s[k].pgoff))
      && (s[k].anon != null ==> d[k + 1].anon == s[k].anon) && req.start == s[k].start
  {
    Neighbours(s, k);
    hide Wf;
    Case8(s, k, req);
  }

  /** Case 4. */
  method MergePartOfPrev(mm: Mm, prev: Vma, next: Vma, req: Area, ghost k: nat) returns (res: Vma?)
    requires mm.Valid() && Site(mm.Areas(), k, req) && MergesNext(mm.Areas(), k, req)
    requires k <= |mm.tree| && InsidePrev(mm.Areas(), k, req)
    requires prev == mm.tree[k - 1].vma && next == mm.tree[NextIndex(mm.Areas(), k, req)].vma
    modifies mm`tree, prev, next
    ensures mm.Valid()
    ensures res == null ==> mm.tree == old(mm.tree) && mm.Areas() == old(mm.Areas())
    ensures res != null ==> mm.Areas() == JoinNext(old(mm.Areas()), k, req)
    ensures res != null ==> res == next && k < |mm.tree| && mm.tree[k].vma == res
    ensures !mm.mayFail ==> res != null
  {
    hide Fits; hide Wf; hide Site; hide JoinNext; hide Shifted; hide Undup;
    ghost var s := mm.Areas();
    SoundWf(mm);
    Case4Shifted(s, k, req);
    EntryAt(mm, k - 1);
    EntryAt(mm, k);
    OnlyOnce(mm.tree, s, k);
    var ok, dup := DupAnonVma(mm, next, prev, k, k - 1);
    if !ok { return null; }
    ok := ShiftBoundary(mm, prev, next, req.start, dup, k - 1);
    res := if ok then next else null;
  }

  /** Cases 3 and 8. */
  method MergeIntoNext(mm: Mm, curr: Vma?, next: Vma, req: Area, ghost k: nat) returns (res: Vma?)
    requires mm.Valid() && Site(mm.Areas(), k, req) && MergesNext(mm.Areas(), k, req)
    requires k <= |mm.tree| && !InsidePrev(mm.Areas(), k, req)
    requires curr == if HasCurr(mm.Areas(), k, req) then mm.tree[k].vma else null
    requires next == mm.tree[NextIndex(mm.Areas(), k, req)].vma
    modifies mm`tree, mm`mapCount, curr, next
    ensures mm.Valid()
    ensures res == null ==> mm.tree == old(mm.tree) && mm.Areas() == old(mm.Areas())
    ensures res != null ==> mm.Areas() == JoinNext(old(mm.Areas()), k, req)
    ensures res != null ==> res == next && k < |mm.tree| && mm.tree[k].vma == res
    ensures !mm.mayFail ==> res != null
  {
    hide Fits; hide Wf; hide Site; hide JoinNext; hide Regrown; hide Undup; hide Outside;
    ghost var s := mm.Areas();
    SoundWf(mm);
    EntryAt(mm, k);
    if curr == null {
      Case3Regrown(s, k, req);
      OutsideWindow(mm.tree, s, k, k + 1, k);
      var grown := Regrow(mm, next, req.start, next.end, next.pgoff - (req.end - req.start), false, null, null, k, k + 1, k);
      return if grown then next else null;
    }
    Case8Regrown(s, k, req);
    EntryAt(mm, k + 1);
    OnlyOnce(mm.tree, s, k);
    OutsideWindow(mm.tree, s, k, k + 2, k);
    var ok, dup := DupAnonVma(mm, next, curr, k + 1, k);
    if !ok { return null; }
    ok := Regrow(mm, next, req.start, next.end, curr.pgoff, dup, curr, null, k, k + 2, k + 1);
    res := if ok then next else null;
  }

  /** The look-up after the predecessor finds the VMA the request lies on. */
  lemma LookCurr(t: seq<Entry>, s: seq<Area>, k: nat, req: Area, x: int)
    requires Fits(t, s) && Site(s, k, req) && x == if k > 0 then s[k - 1].end else 0
    ensures T.First(t, x) == k
    ensures HasCurr(s, k, req) <==> x < req.end && k < |t| && t[k].lo < req.end
  {
    if k > 0 { Neighbours(s, k - 1); }
    if k < |s| { Neighbours(s, k); }
    T.FirstIs(t, k, x);
  }

  /** The look-up at the end of the request finds the successor, or the
      predecessor itself when the request lies inside it. */
  lemma LookNextIndex(t: seq<Entry>, s: seq<Area>, k: nat, req: Area)
    requires Fits(t, s) && Site(s, k, req)
    ensures InsidePrev(s, k, req) && req.end < s[k - 1].end ==> T.First(t, req.end) == k - 1
    ensures (HasCurr(s, k, req) ==> req.end == s[k].end) && !(InsidePrev(s, k, req) && req.end < s[k - 1].end) ==>
      T.First(t, req.end) == NextIndex(s, k, req)
  {
    var n := NextIndex(s, k, req);
    if k > 0 { Neighbours(s, k - 1); }
    if k < |s| { Neighbours(s, k); }
    if k + 1 < |s| { Neighbours(s, k + 1); }
    if InsidePrev(s, k, req) && req.end < s[k - 1].end {
      if k > 1 { Neighbours(s, k - 2); }
      T.FirstIs(t, k - 1, req.end);
    } else if HasCurr(s, k, req) ==> req.end == s[k].end {
      T.FirstIs(t, n, req.end);
    }
  }

  /** The predecessor never merges as the successor of a request inside it, for
      its offset lies before the request's. */
  lemma LookNext(t: seq<Entry>, s: seq<Area>, k: nat, req: Area, f: nat)
    requires Fits(t, s) && Site(s, k, req) && f == T.First(t, req.end)
    ensures MergesNext(s, k, req) <==>
      && (HasCurr(s, k, req) ==> req.end == s[k].end) && f < |t| && t[f].lo <= req.end
      && s[f].attr.policy == req.attr.policy && CanMergeBefore(s[f], req)
    ensures MergesNext(s, k, req) ==> f == NextIndex(s, k, req)
  {
    LookNextIndex(t, s, k, req);
    var n := NextIndex(s, k, req);
    if k > 0 { Neighbours(s, k - 1); }
    if k < |s| { Neighbours(s, k); }
    if n < |s| { Neighbours(s, n); }
    assert n > 0 && n < |s| ==> s[n - 1].end <= s[n].start;
  }

  lemma MergedMaps(s: seq<Area>, k: nat, req: Area)
    requires Wf(s) && Site(s, k, req)
    ensures Merged(s, k, req).Some? ==> MappedAs(s, Merged(s, k, req).value, req) && |Merged(s, k, req).value| <= |s|
    ensures Merged(s, k, req).Some? ==>
      LaidOver(s, Merged(s, k, req).value, req) && BackingSurvives(s, Merged(s, k, req).value)
    ensures Merged(s, k, req).Some? <==> MergeAllowed(s, k, req)
  {
    hide LaidOver; hide BackingSurvives; hide MappedAs; hide Merged; hide MergeAllowed; hide Wf;
    MergesWhen(s, k, req);
    if Merged(s, k, req).Some? {
      MergedCorrect(s, k, req);
    }
  }

  /** The case analysis of `vma_merge`, the neighbours being known. */
  method MergeWith(mm: Mm, prev: Vma?, curr: Vma?, next: Vma?, mergePrev: bool, mergeNext: bool, req: Area, ghost k: nat)
    returns (res: Vma?)
    requires mm.Valid() && k <= |mm.tree| && Site(mm.Areas(), k, req)
    requires prev == if k > 0 then mm.tree[k - 1].vma else null
    requires curr == if HasCurr(mm.Areas(), k, req) then mm.tree[k].vma else null
    requires mergePrev == MergesPrev(mm.Areas(), k, req) && mergeNext == MergesNext(mm.Areas(), k, req)
    requires mergeNext ==> next != null && NextIndex(mm.Areas(), k, req) < |mm.tree|
    requires mergeNext ==> next == mm.tree[NextIndex(mm.Areas(), k, req)].vma
    requires !req.attr.flags.special && (mergePrev || mergeNext)
    modifies mm`tree, mm`mapCount, prev, curr, next
    ensures mm.Valid()
    ensures res == null ==> mm.tree == old(mm.tree) && mm.Areas() == old(mm.Areas())
    ensures res != null ==> Some(mm.Areas()) == Merged(old(mm.Areas()), k, req)
    ensures res != null ==> var j := HolderIndex(old(mm.Areas()), k, req); j < |mm.tree| && mm.tree[j].vma == res
    ensures !mm.mayFail && Merged(old(mm.Areas()), k, req) != None ==> res != null
  {
    hide Fits; hide Wf; hide Site; hide MergesNext; hide JoinBoth; hide JoinPrev; hide JoinNext; hide CanMergeAfter;
    if k > 0 { EntryAt(mm, k - 1); }
    if mergePrev && mergeNext && MergeableAnon(prev.anon, next.anon, true) {
      if curr != null {
        res := MergeOverCurr(mm, prev, curr, next, req, k);
      } else {
        res := MergeAcrossHole(mm, prev, next, req, k);
      }
    } else if mergePrev {
      if curr == null || req.end == curr.end {
        res := MergeIntoPrev(mm, prev, curr, req, k);
      } else {
        res := MergePartOfCurr(mm, prev, curr, req, k);
      }
    } else if prev != null && req.start < prev.end {
      res := MergePartOfPrev(mm, prev, next, req, k);
    } else {
      res := MergeIntoNext(mm, curr, next, req, k);
    }
  }

  /** The look-ups and tests at the start of `vma_merge`. */
  method FindNeighbours(mm: Mm, prev: Vma?, req: Area, ghost k: nat)
    returns (curr: Vma?, next: Vma?, mergePrev: bool, mergeNext: bool)
    requires mm.Valid() && k <= |mm.tree| && Site(mm.Areas(), k, req)
    requires prev == if k > 0 then mm.tree[k - 1].vma else null
    ensures curr == if HasCurr(mm.Areas(), k, req) then mm.tree[k].vma else null
    ensures mergePrev == MergesPrev(mm.Areas(), k, req) && mergeNext == MergesNext(mm.Areas(), k, req)
    ensures mergeNext ==> next != null && NextIndex(mm.Areas(), k, req) < |mm.tree|
    ensures mergeNext ==> next == mm.tree[NextIndex(mm.Areas(), k, req)].vma
  {
    hide Fits; hide Wf; hide Site; hide MergesNext; hide CanMergeBefore; hide CanMergeAfter; hide T.First;
    ghost var t, s := mm.tree, mm.Areas();
    var after := if prev != null then prev.end else 0;
    LookCurr(t, s, k, req, after);
    LookNext(t, s, k, req, T.First(t, req.end));
    ghost var f := T.First(t, req.end);
    assert f < |t| ==> s[f] == t[f].vma.Snapshot();
    curr, next := mm.FindIntersection(after, req.end), null;
    if curr == null || req.end == curr.end { next := mm.Lookup(req.end); }
    mergePrev := prev != null && req.start == prev.end && prev.attr.policy == req.attr.policy
                 && CanMergeAfter(prev.Snapshot(), req);
    mergeNext := next != null && next.attr.policy == req.attr.policy && CanMergeBefore(next.Snapshot(), req);
  }

  /** `vma_merge`: merge the request with its neighbours as `Merged` says, which
      maps exactly the request, and return the VMA it is in. When an allocation
      fails nothing changes. */
  method VmaMerge(mm: Mm, prev: Vma?, req: Area, ghost k: nat) returns (res: Vma?)
    requires mm.Valid() && k <= |mm.tree| && Site(mm.Areas(), k, req)
    requires prev == if k > 0 then mm.tree[k - 1].vma else null
    modifies mm`tree, mm`mapCount, mm.repr
    ensures mm.Valid()
    ensures res == null ==> mm.tree == old(mm.tree) && mm.Areas() == old(mm.Areas())
    ensures res != null ==> Some(mm.Areas()) == Merged(old(mm.Areas()), k, req)
    ensures res != null ==> MappedAs(old(mm.Areas()), mm.Areas(), req) && mm.mapCount <= old(mm.mapCount)
    ensures res != null ==> res in mm.Vmas() && res in mm.repr && Spans(res.Snapshot(), req)
    ensures res != null ==> LaidOver(old(mm.Areas()), mm.Areas(), req) && BackingSurvives(old(mm.Areas()), mm.Areas())
    ensures res != null ==> MergeAllowed(old(mm.Areas()), k, req)
    ensures !mm.mayFail && MergeAllowed(old(mm.Areas()), k, req) ==> res != null
    ensures !mm.mayFail && Merged(old(mm.Areas()), k, req) != None ==> res != null
  {
    hide Fits; hide Wf; hide Site; hide MergesPrev; hide MergesNext; hide MappedAs; hide NextIndex; hide LaidOver;
    hide BackingSurvives; hide MergeAllowed;
    ghost var s := mm.Areas();
    SoundWf(mm);
    MergedMaps(s, k, req);
    if req.attr.flags.special { return null; }
    var curr, next, mergePrev, mergeNext := FindNeighbours(mm, prev, req, k);
    assert mm.Areas() == s;
    if !mergePrev && !mergeNext { return null; }
    if k > 0 { InRepr(mm, k - 1); }
    if curr != null { InRepr(mm, k); }
    if mergeNext { InRepr(mm, NextIndex(s, k, req)); }
    res := MergeWith(mm, prev, curr, if mergeNext then next else null, mergePrev, mergeNext, req, k);
    if res != null {
      HolderSpans(s, k, req);
      InRepr(mm, HolderIndex(s, k, req));
    }
  }
}
