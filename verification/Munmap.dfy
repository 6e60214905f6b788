/** `do_vmi_align_munmap` and `do_vmi_munmap`. */
module Munmap {
  import opened VmTypes
  import opened AreaList
  import opened MmStruct
  import opened Adjust
  import T = RangeTree

  /** The gather loop has detached exactly the VMAs of `detach`, which are those
      of the tree from j on, all ending at or below `end`; `locked` is the number
      of their pages that are in VM_LOCKED areas. */
  ghost predicate Gathering(mm: Mm, j: nat, detach: seq<Vma>, locked: int, end: int)
    reads mm, mm.Vmas()
  {
    && mm.Sound() && mm.mapCount == |mm.tree| && j + |detach| <= |mm.tree|
    && Gathered(mm.tree, j, detach, end) && Marked(mm, j, |detach|)
    && locked == Sum(Locked, mm.Areas()[j..j + |detach|])
  }

  ghost predicate Gathered(t: seq<Entry>, j: nat, detach: seq<Vma>, end: int)
    requires j + |detach| <= |t|
  {
    forall k :: 0 <= k < |detach| ==> t[j + k].vma == detach[k] && t[j + k].hi <= end
  }

  /** Exactly the VMAs from j to j + n - 1 are marked as detached. */
  ghost predicate Marked(mm: Mm, j: nat, n: nat)
    reads mm, mm.Vmas()
  {
    forall k :: 0 <= k < |mm.tree| ==> (mm.tree[k].vma.detached <==> j <= k < j + n)
  }

  lemma MarkedTwo(mm: Mm, t: seq<Entry>, j: nat, n: nat, e: Entry, f: Entry)
    requires j + n < |t| && mm.tree == t[..j + n] + [e, f] + t[j + n + 1..]
    requires !e.vma.detached && !f.vma.detached
    requires forall k :: 0 <= k < |t| ==> (t[k].vma.detached <==> j <= k < j + n)
    ensures Marked(mm, j, n)
  {}

  lemma GatheredTwo(t: seq<Entry>, u: seq<Entry>, c: nat, j: nat, detach: seq<Vma>, end: int)
    requires j + |detach| <= c <= |t| && c <= |u| && t[..c] == u[..c] && Gathered(t, j, detach, end)
    ensures Gathered(u, j, detach, end)
  {
    forall k | 0 <= k < |detach| ensures u[j + k].vma == detach[k] && u[j + k].hi <= end {
      assert u[j + k] == u[..c][j + k] && t[j + k] == t[..c][j + k];
    }
  }

  lemma StillGathering(mm: Mm, t: seq<Entry>, s: seq<Area>, e: Entry, f: Entry,
                       j: nat, detach: seq<Vma>, locked: int, end: int)
    requires j + |detach| < |t| == |s|
    requires mm.tree == t[..j + |detach|] + [e, f] + t[j + |detach| + 1..]
    requires mm.Sound() && mm.mapCount == |mm.tree| && mm.Areas()[..j + |detach|] == s[..j + |detach|]
    requires Gathered(t, j, detach, end) && locked == Sum(Locked, s[j..j + |detach|])
    requires !e.vma.detached && !f.vma.detached
    requires forall k :: 0 <= k < |t| ==> (t[k].vma.detached <==> j <= k < j + |detach|)
    ensures Gathering(mm, j, detach, locked, end)
  {
    hide Fits; hide Sum;
    var c := j + |detach|;
    MarkedTwo(mm, t, j, |detach|, e, f);
    GatheredTwo(t, mm.tree, c, j, detach, end);
    assert mm.Areas()[j..c] == mm.Areas()[..c][j..];
    assert s[j..c] == s[..c][j..];
  }

  /** The split at the end of the range, if the next VMA reaches beyond it. */
  method TrimEnd(mm: Mm, next: Vma, end: int, ghost j: nat, ghost detach: seq<Vma>, ghost locked: int)
    returns (err: Status)
    requires Gathering(mm, j, detach, locked, end) && j + |detach| < |mm.tree|
    requires mm.tree[j + |detach|].vma == next && mm.tree[j + |detach|].lo < end
    modifies mm`tree, mm`mapCount, mm`repr, next
    ensures Gathering(mm, j, detach, locked, end) && fresh(mm.repr - old(mm.repr))
    ensures err != None ==> mm.mayFail
    ensures err != None || old(mm.tree[j + |detach|].hi) <= end ==> mm.tree == old(mm.tree) && mm.Areas() == old(mm.Areas())
    ensures err == None ==> j + |detach| < |mm.tree| && mm.tree[j + |detach|].vma == next
    ensures err == None ==> mm.tree[j + |detach|].lo < mm.tree[j + |detach|].hi <= end
    ensures err == None && old(mm.tree[j + |detach|].hi) > end ==> mm.Areas() == SplitAt(old(mm.Areas()), end)
    ensures err == None && old(mm.tree[j + |detach|].hi) > end ==>
      j + |detach| + 1 < |mm.tree| && mm.tree[j + |detach| + 1].lo == end
  {
    hide Fits; hide SplitAt; hide Gathered; hide Wf; hide Sum;
    ghost var t, s, c := mm.tree, mm.Areas(), j + |detach|;
    EntryAt(mm, c);
    SoundWf(mm);
    if next.end <= end { return None; }
    SplitIndexIs(s, c, end);
    ghost var v;
    err, v := SplitVmaUnchecked(mm, next, end, false, c);
    if err != None { return; }
    var n := SplitEntries(t[c], end, v, false);
    StillGathering(mm, t, s, n[0], n[1], j, detach, locked, end);
  }

  lemma GatheredMore(t: seq<Entry>, j: nat, detach: seq<Vma>, next: Vma, end: int)
    requires j + |detach| < |t| && Gathered(t, j, detach, end)
    requires t[j + |detach|].vma == next && t[j + |detach|].hi <= end
    ensures Gathered(t, j, detach + [next], end)
  {
    var d := detach + [next];
    forall k | 0 <= k < |d| ensures t[j + k].vma == d[k] && t[j + k].hi <= end {
      if k < |detach| { assert d[k] == detach[k]; } else { assert d[k] == next; }
    }
  }

  /** `vma_mark_detached`, and the count of locked pages. */
  method MarkNext(mm: Mm, next: Vma, end: int, ghost j: nat, ghost detach: seq<Vma>, locked: int) returns (sum: int)
    requires Gathering(mm, j, detach, locked, end) && j + |detach| < |mm.tree|
    requires mm.tree[j + |detach|].vma == next && mm.tree[j + |detach|].hi <= end
    modifies next`detached
    ensures Gathering(mm, j, detach + [next], sum, end)
    ensures mm.Areas() == old(mm.Areas())
  {
    hide Fits; hide Wf; hide Gathered;
    ghost var t, s, c := mm.tree, mm.Areas(), j + |detach|;
    OnlyOnce(t, s, c);
    next.detached := true;
    sum := locked + if next.attr.flags.locked then next.end - next.start else 0;
    assert mm.Areas() == s;
    assert s[j..c + 1] == s[j..c] + [s[c]];
    SumConcat(Locked, s[j..c], [s[c]]);
    SumOne(Locked, s[c]);
    assert |detach + [next]| == |detach| + 1;
    GatheredMore(t, j, detach, next, end);
    assert Marked(mm, j, |detach| + 1);
  }

  /** `for_each_vma_range` finds the VMA after range c, if it starts before `end`. */
  lemma NextInRange(mm: Mm, c: nat, end: int)
    requires mm.Sound() && c < |mm.tree| && mm.tree[c].hi <= end
    ensures mm.FindIntersection(mm.tree[c].hi, end) ==
      if c + 1 < |mm.tree| && mm.tree[c + 1].lo < end then mm.tree[c + 1].vma else null
  {
    T.FirstIs(mm.tree, c + 1, mm.tree[c].hi);
    assert c + 1 < |mm.tree| ==> T.Before(mm.tree[c], mm.tree[c + 1]);
  }

  /** The gather loop stands before `next`, the list being s or, once the range
      is exhausted, s with a boundary at its end. */
  ghost predicate Standing(mm: Mm, s: seq<Area>, j: nat, detach: seq<Vma>, locked: int, end: int, next: Vma?)
    reads mm, mm.Vmas()
  {
    && Gathering(mm, j, detach, locked, end)
    && (mm.Areas() == s || (next == null && mm.Areas() == SplitAt(s, end)))
    && var c := j + |detach|;
      if next == null then c < |mm.tree| ==> end <= mm.tree[c].lo
      else c < |mm.tree| && mm.tree[c].vma == next && mm.tree[c].lo < end
  }

  /** One round of the gather loop, up to finding the next VMA. */
  method TrimAndMark(mm: Mm, next: Vma, end: int, uf: bool, detach: seq<Vma>, locked: int, ghost j: nat)
    returns (err: Status, detach': seq<Vma>, locked': int)
    requires Gathering(mm, j, detach, locked, end) && j + |detach| < |mm.tree|
    requires mm.tree[j + |detach|].vma == next && mm.tree[j + |detach|].lo < end
    modifies mm`tree, mm`mapCount, mm`repr, next
    ensures Gathering(mm, j, detach', locked', end) && fresh(mm.repr - old(mm.repr))
    ensures err != None ==> mm.mayFail
    ensures mm.Areas() == old(mm.Areas()) || mm.Areas() == SplitAt(old(mm.Areas()), end)
    ensures err == None ==> |detach'| == |detach| + 1
    ensures err == None ==> mm.tree[j + |detach|].vma == next && mm.tree[j + |detach|].hi <= end
    ensures err == None ==>
      || (mm.tree == old(mm.tree) && mm.Areas() == old(mm.Areas()))
      || (mm.Areas() == SplitAt(old(mm.Areas()), end) && j + |detach'| < |mm.tree| && mm.tree[j + |detach'|].lo == end)
  {
    hide Fits; hide Wf; hide SplitAt; hide Gathered; hide Marked; hide Sum;
    detach', locked' := detach, locked;
    err := TrimEnd(mm, next, end, j, detach, locked);
    if err != None { return; }
    var ok :| ok || mm.mayFail;
    if !ok { return Some(ENOMEM), detach', locked'; }
    locked' := MarkNext(mm, next, end, j, detach, locked);
    detach' := detach + [next];
    ok :| ok || mm.mayFail;
    if uf && !ok { err := Some(ENOMEM); }
  }

  /** One round of the gather loop. */
  method GatherStep(mm: Mm, next: Vma, end: int, uf: bool, detach: seq<Vma>, locked: int, ghost j: nat, ghost s: seq<Area>)
    returns (err: Status, detach': seq<Vma>, locked': int, next': Vma?)
    requires Standing(mm, s, j, detach, locked, end, next)
    modifies mm`tree, mm`mapCount, mm`repr, next
    ensures Gathering(mm, j, detach', locked', end) && (err != None ==> mm.mayFail)
    ensures err == None ==> Standing(mm, s, j, detach', locked', end, next')
    ensures mm.Areas() == s || mm.Areas() == SplitAt(s, end)
    ensures fresh(mm.repr - old(mm.repr))
    ensures err == None ==> |detach'| == |detach| + 1
    ensures err == None && next' != null ==> |detach'| <= |mm.tree| && next' in mm.repr
    ensures err == None && next' != null ==> mm.tree == old(mm.tree)
  {
    hide Fits; hide Wf; hide SplitAt; hide Gathered; hide Marked; hide Sum; hide T.First;
    err, detach', locked' := TrimAndMark(mm, next, end, uf, detach, locked, j);
    next' := next;
    if err != None { return; }
    ghost var c := j + |detach|;
    EntryAt(mm, c);
    NextInRange(mm, c, end);
    next' := mm.FindIntersection(next.end, end);
    if next' != null { InRepr(mm, c + 1); }
  }

  /** The gather loop. On success what it has gathered is what lies in the range,
      which then has a boundary at its end. */
  method Gather(mm: Mm, vma: Vma, end: int, uf: bool, ghost j: nat)
    returns (err: Status, detach: seq<Vma>, locked: int)
    requires mm.Valid() && j < |mm.tree| && mm.tree[j].vma == vma && mm.tree[j].lo < end
    modifies mm`tree, mm`mapCount, mm`repr, mm.repr
    ensures Gathering(mm, j, detach, locked, end) && (err != None ==> mm.mayFail)
    ensures mm.Areas() == old(mm.Areas()) || mm.Areas() == SplitAt(old(mm.Areas()), end)
    ensures fresh(mm.repr - old(mm.repr))
    ensures err == None ==> Standing(mm, old(mm.Areas()), j, detach, locked, end, null)
    ensures err == None ==> 0 < |detach|
  {
    hide Fits; hide Wf; hide Gathering; hide Standing; hide SplitAt;
    ghost var s := mm.Areas();
    detach, locked, err := [], 0, None;
    var next: Vma? := vma;
    StartGathering(mm, j, end);
    while err == None && next != null
      invariant Gathering(mm, j, detach, locked, end) && (err != None ==> mm.mayFail)
      invariant mm.Areas() == s || mm.Areas() == SplitAt(s, end)
      invariant err == None ==> Standing(mm, s, j, detach, locked, end, next)
      invariant fresh(mm.repr - old(mm.repr))
      invariant err == None && next != null ==> |detach| <= |mm.tree| && next in mm.repr
      invariant err == None && next == null ==> 0 < |detach|
      decreases err == None, if next == null then 0 else 1 + |mm.tree| - |detach|
    {
      err, detach, locked, next := GatherStep(mm, next, end, uf, detach, locked, j, s);
    }
  }

  lemma StartGathering(mm: Mm, j: nat, end: int)
    requires mm.Valid() && j < |mm.tree| && mm.tree[j].lo < end
    ensures Standing(mm, mm.Areas(), j, [], 0, end, mm.tree[j].vma)
    ensures mm.tree[j].vma in mm.repr
  {}

  /** The rollback: the detached marks of everything gathered are taken back. */
  method Reattach(mm: Mm, detach: seq<Vma>, ghost j: nat, ghost locked: int, ghost end: int)
    requires Gathering(mm, j, detach, locked, end)
    modifies (set v | v in detach)`detached
    ensures mm.Valid() && mm.Areas() == old(mm.Areas())
  {
    hide Fits; hide Wf; hide Sum;
    ghost var t, s := mm.tree, mm.Areas();
    var i := 0;
    while i < |detach|
      invariant i <= |detach|
      invariant forall k :: 0 <= k < |t| ==> (t[k].vma.detached <==> j + i <= k < j + |detach|)
    {
      assert t[j + i].vma == detach[i];
      OnlyOnce(t, s, j + i);
      detach[i].detached := false;
      i := i + 1;
    }
    assert mm.Areas() == s;
  }

  /** `remove_mt`: the counters give back the pages of the detached VMAs, whose
      areas are w. */
  method RemoveMt(mm: Mm, detach: seq<Vma>, ghost w: seq<Area>)
    requires |detach| == |w| && forall k :: 0 <= k < |w| ==> detach[k].Snapshot() == w[k]
    modifies mm`totalVm, mm`charged
    ensures mm.totalVm == old(mm.totalVm) - Sum(All, w)
    ensures mm.charged == old(mm.charged) - Sum(Account, w)
  {
    var i, accounted := 0, 0;
    while i < |detach|
      invariant i <= |detach|
      invariant mm.totalVm == old(mm.totalVm) - Sum(All, w[..i]) && accounted == Sum(Account, w[..i])
      invariant mm.charged == old(mm.charged)
    {
      var pages := detach[i].end - detach[i].start;
      if detach[i].attr.flags.account { accounted := accounted + pages; }
      mm.totalVm := mm.totalVm - pages;
      SumNext(All, w, i);
      SumNext(Account, w, i);
      i := i + 1;
    }
    assert w[..i] == w;
    mm.charged := mm.charged - accounted;
  }

  lemma SumNext(k: Kind, w: seq<Area>, i: nat)
    requires i < |w|
    ensures Sum(k, w[..i + 1]) == Sum(k, w[..i]) + Weight(k, w[i])
  {
    assert w[..i + 1] == w[..i] + [w[i]];
    SumConcat(k, w[..i], [w[i]]);
    SumOne(k, w[i]);
  }

  /** The gathered window is exactly what the tree has in [start, end). */
  ghost predicate Bounded(t: seq<Entry>, j: nat, n: nat, start: int, end: int) {
    && 0 < n && j + n <= |t|
    && (j > 0 ==> t[j - 1].hi <= start) && start <= t[j].lo
    && t[j + n - 1].hi <= end && (j + n < |t| ==> end <= t[j + n].lo)
  }

  lemma ClearDone(mm: Mm, t: seq<Entry>, s: seq<Area>, j: nat, n: nat, start: int, end: int)
    requires Fits(t, s) && Bounded(t, j, n, start, end) && mm.tree == T.Cleared(t, start, end) && Owned(t, mm.repr)
    requires forall k :: 0 <= k < |t| ==> t[k].vma.Snapshot() == s[k] && (t[k].vma.detached <==> j <= k < j + n)
    ensures mm.Sound() && mm.Attached() && mm.Areas() == s[..j] + s[j + n..]
    ensures mm.tree == t[..j] + t[j + n..]
  {
    hide Fits; hide Bounded; hide T.Cleared;
    ClearedIs(t, s, j, n, start, end);
    WindowNone(mm, t, s, j, j + n);
  }

  lemma ClearedIs(t: seq<Entry>, s: seq<Area>, j: nat, n: nat, start: int, end: int)
    requires Fits(t, s) && Bounded(t, j, n, start, end)
    ensures T.Cleared(t, start, end) == t[..j] + t[j + n..] && j + n <= |t|
  {
    hide T.Cleared;
    if n > 1 { assert T.Before(t[j], t[j + n - 1]); }
    T.OverWhole(t, j, j + n, start, end, t[j].vma);
  }

  /** Past the point of no return: the range leaves the tree and the counters. */
  method CommitMunmap(mm: Mm, start: int, end: int, detach: seq<Vma>, locked: int, ghost j: nat)
    requires Gathering(mm, j, detach, locked, end) && Bounded(mm.tree, j, |detach|, start, end)
    modifies mm
    ensures mm.Valid() && mm.Areas() == old(mm.Areas())[..j] + old(mm.Areas())[j + |detach|..]
    ensures mm.totalVm == old(mm.totalVm) - Sum(All, old(mm.Areas())[j..j + |detach|])
    ensures mm.lockedVm == old(mm.lockedVm) - Sum(Locked, old(mm.Areas())[j..j + |detach|])
    ensures mm.charged == old(mm.charged) - Sum(Account, old(mm.Areas())[j..j + |detach|])
    ensures mm.brk == old(mm.brk)
    ensures mm.repr == old(mm.repr)
  {
    hide Fits; hide Wf; hide Sum; hide T.Cleared; hide Bounded;
    ghost var t, s, n := mm.tree, mm.Areas(), |detach|;
    mm.tree := T.Cleared(mm.tree, start, end);
    ClearDone(mm, t, s, j, n, start, end);
    mm.lockedVm := mm.lockedVm - locked;
    mm.mapCount := mm.mapCount - |detach|;
    RemoveMt(mm, detach, s[j..j + n]);
    assert mm.Areas() == s[..j] + s[j + n..];
  }

  /** The state with [x, y) unmapped: its pages leave the map, and the counters
      give back the pages of theirs that were in it. */
  function Unmapped(s: State, x: int, y: int): State {
    var cut := Cut(s.areas, x, y);
    State(cut, |cut|, s.counters.(
      total := s.counters.total - (Sum(All, s.areas) - Sum(All, cut)),
      locked := s.counters.locked - (Sum(Locked, s.areas) - Sum(Locked, cut)),
      charged := s.counters.charged - (Sum(Account, s.areas) - Sum(Account, cut))))
  }

  lemma SplitKeepsFront(s: seq<Area>, j: nat, y: int)
    requires Wf(s) && j < |s| && s[j].start < y
    ensures var t := SplitAt(s, y); j < |t| && t[..j] == s[..j] && t[j].start == s[j].start
  {
    hide SplitAt;
    if SplitAt(s, y) != s {
      var p, a, q := Straddling(s, y);
      assert s == p + [a] + q;
      assert forall k :: |p| < k < |s| ==> s[k] == q[k - |p| - 1];
    }
  }

  /** After the splits the window from j on is what removing [x, y) removes. */
  lemma WindowIsCut(s: seq<Area>, x: int, y: int, t: seq<Area>, j: nat, n: nat)
    requires Wf(s) && x < y && t == Carved(s, x, y) && j + n <= |t|
    requires (j > 0 ==> t[j - 1].end <= x) && (j < |t| ==> x <= t[j].start)
    requires (j + n > 0 ==> t[j + n - 1].end <= y) && (j + n < |t| ==> y <= t[j + n].start)
    ensures t[..j] + t[j + n..] == Cut(s, x, y)
    ensures forall k :: Sum(k, t[j..j + n]) == Sum(k, s) - Sum(k, Cut(s, x, y))
  {
    hide Wf; hide Carved; hide Head; hide Tail; hide Sum;
    CutCarved(s, x, y);
    CutBetween(t, j, x);
    CutBetween(t, j + n, y);
    forall k ensures Sum(k, t[j..j + n]) == Sum(k, s) - Sum(k, Cut(s, x, y)) {
      SumCarved(k, s, x, y);
      SumWindow(k, t, j, n);
    }
  }

  lemma SumWindow(k: Kind, t: seq<Area>, j: nat, n: nat)
    requires j + n <= |t|
    ensures Sum(k, t[j..j + n]) == Sum(k, t) - Sum(k, t[..j] + t[j + n..])
  {
    hide Sum;
    SumConcat(k, t[..j], t[j + n..]);
    SumConcat(k, t[..j], t[j..j + n]);
    SumConcat(k, t[..j] + t[j..j + n], t[j + n..]);
    assert t == t[..j] + t[j..j + n] + t[j + n..];
  }

  lemma SumCarved(k: Kind, s: seq<Area>, x: int, y: int)
    requires Wf(s)
    ensures Sum(k, Carved(s, x, y)) == Sum(k, s)
  {
    hide Head; hide Tail; hide Sum; hide Wf;
    var t := SplitAt(s, x);
    SplitPages(s, x);
    SumConcat(k, Head(s, x), Tail(s, x));
    SumHeadTail(k, s, x);
    SumConcat(k, Head(t, y), Tail(t, y));
    SumHeadTail(k, t, y);
  }

  /** A removal makes the list longer only when it lies inside one area. */
  lemma CutCount(s: seq<Area>, i: nat, x: int, y: int)
    requires Wf(s) && i == First(s, x) < |s| && s[i].start < y && x < y
    ensures |Cut(s, x, y)| <= |s| || (s[i].start < x && y < s[i].end && |Cut(s, x, y)| == |s| + 1)
  {
    var f := First(s, y);
    assert f >= i;
  }

  /** What a failed unmapping leaves behind: extra boundaries at most. */
  ghost predicate MerelySplit(s: seq<Area>, t: seq<Area>, x: int, y: int) {
    t == s || t == SplitAt(s, x) || t == Carved(s, x, y)
  }

  /** Extra boundaries are invisible in the page map and in the page sums. */
  lemma MerelySplitSame(s: seq<Area>, t: seq<Area>, x: int, y: int)
    requires Wf(s) && MerelySplit(s, t, x, y)
    ensures SamePages(s, t) && forall k :: Sum(k, t) == Sum(k, s)
  {
    SplitPages(s, x);
    SplitPages(SplitAt(s, x), y);
    forall k ensures Sum(k, Carved(s, x, y)) == Sum(k, s) && Sum(k, SplitAt(s, x)) == Sum(k, s) {
      SumCarved(k, s, x, y);
      SumCarved(k, s, x, x);
      SplitTwice(s, x);
    }
  }

  lemma SplitTwice(s: seq<Area>, x: int)
    requires Wf(s)
    ensures Carved(s, x, x) == SplitAt(s, x)
  {
    hide Head; hide Tail;
    SplitPages(s, x);
    HeadBeforeSplit(s, x, x);
    TailAfterSplit(s, x, x);
  }

  /** The lower split, if the range starts inside its first VMA. */
  method TrimStart(mm: Mm, vma: Vma, start: int, end: int, ghost i: nat) returns (err: Status, ghost j: nat)
    requires mm.Valid() && i < |mm.tree| && mm.tree[i].vma == vma && i == First(mm.Areas(), start)
    requires mm.tree[i].lo < end && start < end && start < mm.tree[i].hi
    modifies mm`tree, mm`mapCount, mm`repr, vma
    ensures mm.Valid() && fresh(mm.repr - old(mm.repr))
    ensures err != None ==> mm.Areas() == old(mm.Areas())
    ensures err == None ==> mm.Areas() == SplitAt(old(mm.Areas()), start)
    ensures err == None ==> j < |mm.tree| && mm.tree[j].vma == vma && start <= mm.tree[j].lo < end
    ensures err == None ==> j == 0 || mm.Areas()[j - 1].end <= start
    ensures err == None && old(mm.tree[i].lo) < start && end < old(mm.tree[i].hi) ==> old(mm.mapCount) < mm.maxMapCount
    ensures err != None && !mm.mayFail ==>
      old(mm.tree[i].lo) < start && end < old(mm.tree[i].hi) && old(mm.mapCount) >= mm.maxMapCount
  {
    hide Fits; hide Wf; hide SplitAt; hide First;
    ghost var s := mm.Areas();
    EntryAt(mm, i);
    SoundWf(mm);
    j := i;
    if start > vma.start {
      if end < vma.end && mm.mapCount >= mm.maxMapCount { return Some(ENOMEM), j; }
      SplitIndexIs(s, i, start);
      ghost var v, t := vma, mm.tree;
      err, v := SplitVmaUnchecked(mm, vma, start, true, i);
      if err != None { return; }
      ghost var n := SplitEntries(t[i], start, v, true);
      TwoAttached(mm, t, i, i + 1, n[0], n[1]);
      j := i + 1;
    } else {
      SplitNothing(s, start);
      err := None;
    }
  }

  lemma GatheredVmas(mm: Mm, j: nat, detach: seq<Vma>, locked: int, end: int)
    requires Gathering(mm, j, detach, locked, end)
    ensures (set v | v in detach) <= mm.repr
  {
    forall v | v in detach ensures v in mm.repr {
      var k :| 0 <= k < |detach| && detach[k] == v;
      InRepr(mm, j + k);
    }
  }

  /** The gather loop and the preallocation for clearing the tree, and the
      rollback when either fails. */
  method GatherOrUndo(mm: Mm, vma: Vma, end: int, uf: bool, ghost j: nat)
    returns (err: Status, detach: seq<Vma>, locked: int)
    requires mm.Valid() && j < |mm.tree| && mm.tree[j].vma == vma && mm.tree[j].lo < end
    modifies mm`tree, mm`mapCount, mm`repr, mm.repr
    ensures fresh(mm.repr - old(mm.repr))
    ensures mm.Areas() == old(mm.Areas()) || mm.Areas() == SplitAt(old(mm.Areas()), end)
    ensures err == None ==> Standing(mm, old(mm.Areas()), j, detach, locked, end, null) && 0 < |detach|
    ensures err != None ==> mm.Valid() && mm.mayFail
  {
    hide Fits; hide Wf; hide Gathering; hide SplitAt; hide Standing;
    err, detach, locked := Gather(mm, vma, end, uf, j);
    var ok :| ok || mm.mayFail;
    if err == None && !ok { err := Some(ENOMEM); }
    if err != None {
      GatheredVmas(mm, j, detach, locked, end);
      Reattach(mm, detach, j, locked, end);
    }
  }

  /** Where the window gathered for [x, y) begins and ends. */
  lemma GatheredBounds(mm: Mm, s1: seq<Area>, x: int, y: int, j: nat, detach: seq<Vma>, locked: int)
    requires Standing(mm, s1, j, detach, locked, y, null) && 0 < |detach|
    requires Wf(s1) && j < |s1| && x <= s1[j].start < y && (j == 0 || s1[j - 1].end <= x)
    ensures j + |detach| <= |mm.tree| && Bounded(mm.tree, j, |detach|, x, y)
    ensures var t, n := mm.Areas(), |detach|;
      && (j == 0 || t[j - 1].end <= x) && x <= t[j].start
      && t[j + n - 1].end <= y && (j + n < |t| ==> y <= t[j + n].start)
  {
    hide Fits; hide Wf; hide SplitAt; hide Sum; hide Gathered; hide Marked;
    var t, n := mm.Areas(), |detach|;
    SplitKeepsFront(s1, j, y);
    assert j > 0 ==> s1[..j][j - 1] == s1[j - 1] && t[..j][j - 1] == t[j - 1];
    GatheredLast(mm, j, detach, y);
    if j > 0 { EntryAt(mm, j - 1); }
    EntryAt(mm, j);
    if j + n < |t| { EntryAt(mm, j + n); }
  }

  /** When the gather loop has succeeded, clearing what it gathered is removing
      [x, y) from the list s, which the splits turned into that of mm. */
  lemma GatheredIsCut(mm: Mm, s: seq<Area>, s1: seq<Area>, x: int, y: int, j: nat, detach: seq<Vma>, locked: int)
    requires Wf(s) && x < y && Standing(mm, s1, j, detach, locked, y, null) && 0 < |detach|
    requires s1 == SplitAt(s, x) && Wf(s1) && j < |s1| && x <= s1[j].start < y && (j == 0 || s1[j - 1].end <= x)
    ensures Isolated(mm, s, x, y, j, detach, locked)
  {
    hide Fits; hide Wf; hide SplitAt; hide Sum; hide Cut; hide Gathered; hide Marked; hide Bounded;
    var t, n := mm.Areas(), |detach|;
    GatheredBounds(mm, s1, x, y, j, detach, locked);
    if t == s1 { SplitBetween(s1, j + n, y); }
    WindowIsCut(s, x, y, t, j, n);
  }

  lemma GatheredLast(mm: Mm, j: nat, detach: seq<Vma>, y: int)
    requires mm.Sound() && 0 < |detach| && j + |detach| <= |mm.tree| && Gathered(mm.tree, j, detach, y)
    ensures mm.tree[j + |detach| - 1].hi <= y && mm.Areas()[j + |detach| - 1].end <= y
  {
    var k := |detach| - 1;
    assert mm.tree[j + k].vma == detach[k];
  }

  /** Everything in `do_vmi_align_munmap` before the point of no return. */
  method Isolate(mm: Mm, vma: Vma, start: int, end: int, uf: bool, ghost i: nat)
    returns (err: Status, detach: seq<Vma>, locked: int, ghost j: nat)
    requires mm.Valid() && i < |mm.tree| && mm.tree[i].vma == vma && i == First(mm.Areas(), start)
    requires mm.tree[i].lo < end && start < end && start < mm.tree[i].hi
    modifies mm`tree, mm`mapCount, mm`repr, mm.repr
    ensures fresh(mm.repr - old(mm.repr))
    ensures err != None ==> mm.Valid() && MerelySplit(old(mm.Areas()), mm.Areas(), start, end)
    ensures err == None ==> Isolated(mm, old(mm.Areas()), start, end, j, detach, locked)
    ensures err == None && old(mm.tree[i].lo) < start && end < old(mm.tree[i].hi) ==> old(mm.mapCount) < mm.maxMapCount
    ensures err != None && !mm.mayFail ==>
      old(mm.tree[i].lo) < start && end < old(mm.tree[i].hi) && old(mm.mapCount) >= mm.maxMapCount
  {
    hide Fits; hide Wf; hide SplitAt; hide Gathering; hide Standing; hide Isolated; hide First;
    detach, locked := [], 0;
    ghost var s := mm.Areas();
    SoundWf(mm);
    InRepr(mm, i);
    err, j := TrimStart(mm, vma, start, end, i);
    if err != None { return; }
    ghost var s1 := mm.Areas();
    SoundWf(mm);
    EntryAt(mm, j);
    InRepr(mm, j);
    err, detach, locked := GatherOrUndo(mm, vma, end, uf, j);
    if err == None { GatheredIsCut(mm, s, s1, start, end, j, detach, locked); }
  }

  ghost predicate Isolated(mm: Mm, s: seq<Area>, x: int, y: int, j: nat, detach: seq<Vma>, locked: int)
    reads mm, mm.Vmas()
  {
    && Gathering(mm, j, detach, locked, y) && Bounded(mm.tree, j, |detach|, x, y)
    && j + |detach| <= |mm.tree|
    && mm.Areas()[..j] + mm.Areas()[j + |detach|..] == Cut(s, x, y)
    && forall k :: Sum(k, mm.Areas()[j..j + |detach|]) == Sum(k, s) - Sum(k, Cut(s, x, y))
  }

  /** The range lies strictly inside one VMA, which unmapping it would split in
      two, and there are as many VMAs as there may be. */
  predicate TooMany(s: seq<Area>, x: int, y: int, max: int) {
    var i := First(s, x);
    i < |s| && s[i].start < x && y < s[i].end && |s| >= max
  }

  /** `do_vmi_align_munmap`: on success exactly the pages of [start, end) leave
      the map and the counters; on failure, wherever it comes from, every page,
      counter and detached mark is as before, with extra splits at most. A
      success leaves map_count at or below what it was, or below its limit; only
      memory, or a split for which there is no room, makes it fail. */
  method DoVmiAlignMunmap(mm: Mm, vma: Vma, start: int, end: int, uf: bool, ghost i: nat) returns (err: Status)
    requires mm.Valid() && i < |mm.tree| && mm.tree[i].vma == vma && i == First(mm.Areas(), start)
    requires mm.tree[i].lo < end && start < end && start < mm.tree[i].hi
    modifies mm, mm.repr
    ensures mm.Valid() && fresh(mm.repr - old(mm.repr))
    ensures err == None ==> mm.GetState() == Unmapped(old(mm.GetState()), start, end)
    ensures err == None ==> mm.mapCount <= old(mm.mapCount) || mm.mapCount <= mm.maxMapCount
    ensures err != None ==> mm.GetCounters() == old(mm.GetCounters())
    ensures err != None ==> MerelySplit(old(mm.Areas()), mm.Areas(), start, end)
    ensures !mm.mayFail ==> (err != None <==> TooMany(old(mm.Areas()), start, end, mm.maxMapCount))
  {
    hide Fits; hide Wf; hide Gathering; hide Sum; hide Cut; hide Bounded; hide MerelySplit; hide First;
    hide T.First; hide Gathered;
    ghost var s := mm.Areas();
    SoundWf(mm);
    EntryAt(mm, i);
    CutCount(s, i, start, end);
    var detach, locked;
    ghost var j;
    err, detach, locked, j := Isolate(mm, vma, start, end, uf, i);
    if err == None { CommitMunmap(mm, start, end, detach, locked, j); }
  }

  lemma NothingToCut(s: seq<Area>, x: int, y: int)
    requires Wf(s) && x < y && (First(s, x) < |s| ==> y <= s[First(s, x)].start)
    ensures Cut(s, x, y) == s
  {
    hide Head; hide Tail;
    CutBetween(s, First(s, x), x);
    CutBetween(s, First(s, x), y);
    assert s == s[..First(s, x)] + s[First(s, x)..];
  }

  lemma SameFirst(t: seq<Entry>, s: seq<Area>, x: int)
    requires Fits(t, s)
    ensures T.First(t, x) == First(s, x)
  {
    if t != [] && t[0].hi <= x {
      var i := First(s, x);
      T.FirstIs(t, i, x);
    }
  }

  /** `do_vmi_munmap` on the pages [start, end). */
  method MunmapPages(mm: Mm, start: int, end: int, uf: bool) returns (err: Status)
    requires mm.Valid() && start < end
    modifies mm, mm.repr
    ensures mm.Valid() && fresh(mm.repr - old(mm.repr))
    ensures err == None ==> mm.GetState() == Unmapped(old(mm.GetState()), start, end)
    ensures err == None ==> mm.mapCount <= old(mm.mapCount) || mm.mapCount <= mm.maxMapCount
    ensures err != None ==> mm.GetCounters() == old(mm.GetCounters())
    ensures err != None ==> MerelySplit(old(mm.Areas()), mm.Areas(), start, end)
    ensures !mm.mayFail ==> (err != None <==> TooMany(old(mm.Areas()), start, end, mm.maxMapCount))
  {
    hide Fits; hide Wf; hide Sum; hide Cut; hide MerelySplit; hide First; hide T.First;
    ghost var i := First(mm.Areas(), start);
    SameFirst(mm.tree, mm.Areas(), start);
    if i < |mm.tree| {
      EntryAt(mm, i);
      InRepr(mm, i);
    }
    var vma := mm.FindIntersection(start, end);
    if vma == null {
      SoundWf(mm);
      NothingToCut(mm.Areas(), start, end);
      return None;
    }
    err := DoVmiAlignMunmap(mm, vma, start, end, uf, i);
  }

  /** `do_vmi_munmap`, on a byte range: the length is rounded up to pages, and a
      range that is empty, unaligned or outside user space is refused. */
  method DoVmiMunmap(mm: Mm, start: nat, len: nat, uf: bool) returns (err: Status)
    requires mm.Valid() && start < U64 && len < U64
    modifies mm, mm.repr
    ensures mm.Valid() && fresh(mm.repr - old(mm.repr))
    ensures start % PAGE != 0 || len == 0 || start + len > TASK_SIZE ==>
      err == Some(EINVAL) && mm.GetState() == old(mm.GetState())
    ensures err == None ==> start % PAGE == 0 && 0 < len && start + len <= TASK_SIZE
    ensures var x, y := start / PAGE, start / PAGE + (len + PAGE - 1) / PAGE;
      && (err == None ==> mm.GetState() == Unmapped(old(mm.GetState()), x, y))
      && (err != None ==> mm.GetCounters() == old(mm.GetCounters()) && MerelySplit(old(mm.Areas()), mm.Areas(), x, y))
    ensures err == None ==> mm.mapCount <= old(mm.mapCount) || mm.mapCount <= mm.maxMapCount
    ensures !mm.mayFail ==> (err == None <==>
      && start % PAGE == 0 && 0 < len && start + len <= TASK_SIZE
      && !TooMany(old(mm.Areas()), start / PAGE, start / PAGE + (len + PAGE - 1) / PAGE, mm.maxMapCount))
  {
    hide MerelySplit; hide Unmapped; hide TooMany;
    StartsSplit(mm.Areas(), start / PAGE, start / PAGE + (len + PAGE - 1) / PAGE);
    if start % PAGE != 0 || start > TASK_SIZE || len > TASK_SIZE - start { return Some(EINVAL); }
    var end := start / PAGE + PageAlign(len);
    if end == start / PAGE { return Some(EINVAL); }
    err := MunmapPages(mm, start / PAGE, end, uf);
  }

  lemma StartsSplit(s: seq<Area>, x: int, y: int)
    ensures MerelySplit(s, s, x, y)
  {}
}
