/** Changing one VMA in place: splitting, shrinking and expanding it. */
module Adjust {
  import opened VmTypes
  import opened AreaList
  import opened MmStruct
  import T = RangeTree

  type Status = Option<Errno>

  /** `vma_complete` inserting the VMA split off another. */
  method CompleteInsert(mm: Mm, insert: Vma)
    modifies mm`tree, mm`mapCount
    ensures mm.tree == T.Stored(old(mm.tree), insert.start, insert.end, insert)
    ensures mm.mapCount == old(mm.mapCount) + 1
  {
    mm.Store(insert);
    mm.mapCount := mm.mapCount + 1;
  }

  /** `vma_complete` disposing of a VMA merged into `vma`. If it has anonymous
      backing, `vma` must have that backing too (anon_vma_merge). */
  method CompleteRemove(mm: Mm, vma: Vma, remove: Vma)
    requires mm.Sound() && remove !in mm.Vmas() && vma != remove
    requires remove.anon != null ==> vma.anon == remove.anon
    modifies mm`mapCount, remove
    ensures mm.Sound() && mm.Areas() == old(mm.Areas()) && (old(mm.Attached()) ==> mm.Attached())
    ensures mm.mapCount == old(mm.mapCount) - 1 && remove.detached
  {
    remove.detached, remove.anon, remove.chain := true, null, [];
    mm.mapCount := mm.mapCount - 1;
    assert mm.Areas() == old(mm.Areas());
  }

  /** The list after area i is split at x. */
  function SplitIndex(s: seq<Area>, i: nat, x: int): seq<Area>
    requires i < |s|
  {
    s[..i] + [Lower(s[i], x), Upper(s[i], x)] + s[i + 1..]
  }

  lemma SplitIndexIs(s: seq<Area>, i: nat, x: int)
    requires Wf(s) && i < |s| && s[i].start < x < s[i].end
    ensures SplitIndex(s, i, x) == SplitAt(s, x) && Wf(SplitAt(s, x))
  {
    CutOk(s, x, x);
    CutInside(s, i, x);
    var p, l, u, q := s[..i], Lower(s[i], x), Upper(s[i], x), s[i + 1..];
    assert (p + [l]) + ([u] + q) == p + [l, u] + q;
  }

  /** The tree after the store of either part of a split. */
  lemma SplitTree(t: seq<Entry>, i: nat, x: int, v: Vma, below: bool)
    requires T.Ordered(t) && i < |t| && t[i].lo < x < t[i].hi
    ensures (if below then T.Stored(t, t[i].lo, x, v) else T.Stored(t, x, t[i].hi, v))
         == t[..i] + SplitEntries(t[i], x, v, below) + t[i + 1..]
  {
    if below { T.OverFront(t, i, x, v); } else { T.OverBack(t, i, x, v); }
  }

  function SplitEntries(e: Entry, x: int, v: Vma, below: bool): seq<Entry> {
    if below then [Entry(e.lo, x, v), e.(lo := x)] else [e.(hi := x), Entry(x, e.hi, v)]
  }

  lemma SplitDone(mm: Mm, t: seq<Entry>, s: seq<Area>, i: nat, x: int, v: Vma, below: bool)
    requires Fits(t, s) && i < |t| && t[i].lo < x < t[i].hi
    requires mm.tree == if below then T.Stored(t, t[i].lo, x, v) else T.Stored(t, x, t[i].hi, v)
    requires t[i].vma.Snapshot() == if below then Upper(s[i], x) else Lower(s[i], x)
    requires v.Snapshot() == if below then Lower(s[i], x) else Upper(s[i], x)
    requires forall k :: 0 <= k < |t| ==> t[k].vma != v
    requires Owned(t, mm.repr) && v in mm.repr
    requires forall k :: 0 <= k < |t| && k != i ==> t[k].vma.Snapshot() == s[k]
    ensures mm.Sound() && mm.Areas() == SplitAt(s, x)
    ensures mm.tree == t[..i] + SplitEntries(t[i], x, v, below) + t[i + 1..]
  {
    hide T.Stored; hide SplitAt; hide Cut;
    SplitTree(t, i, x, v, below);
    SplitIndexIs(s, i, x);
    var n := SplitEntries(t[i], x, v, below);
    WindowTwo(mm, t, s, i, i + 1, n[0], n[1], Lower(s[i], x), Upper(s[i], x));
  }

  /** `vm_area_dup`, `vma_dup_policy` and `anon_vma_clone`: a copy of `vma` that
      shares its anonymous backing, or null. */
  method DupVma(mm: Mm, vma: Vma) returns (copy: Vma?)
    ensures copy != null ==> fresh(copy) && copy.Snapshot() == vma.Snapshot() && !copy.detached
    ensures !mm.mayFail ==> copy != null
  {
    var ok :| ok || mm.mayFail;
    if !ok { return null; }
    copy := new Vma(vma.Snapshot().(chain := []));
    ok :| ok || mm.mayFail;
    if !ok { return null; }
    copy.chain := vma.chain;
  }

  /** `__split_vma`: on success the two parts keep every page, the new VMA `v`
      being the lower or the upper one as asked; otherwise nothing changes. */
  method SplitVmaUnchecked(mm: Mm, vma: Vma, addr: int, newBelow: bool, ghost i: nat)
    returns (err: Status, ghost v: Vma)
    requires mm.Sound() && i < |mm.tree| && mm.tree[i].vma == vma
    requires vma.start < addr < vma.end
    modifies mm`tree, mm`mapCount, mm`repr, vma
    ensures mm.Sound()
    ensures err != None ==> mm.tree == old(mm.tree) && mm.mapCount == old(mm.mapCount)
    ensures err == None ==>
      && mm.tree == old(mm.tree)[..i] + SplitEntries(old(mm.tree)[i], addr, v, newBelow) + old(mm.tree)[i + 1..]
      && mm.mapCount == old(mm.mapCount) + 1 && fresh(v) && !v.detached
    ensures mm.Areas() == if err == None then SplitAt(old(mm.Areas()), addr) else old(mm.Areas())
    ensures err == None ==>
      vma.Snapshot() == if newBelow then Upper(old(vma.Snapshot()), addr) else Lower(old(vma.Snapshot()), addr)
    ensures vma.detached == old(vma.detached) && fresh(mm.repr - old(mm.repr))
    ensures !mm.mayFail ==> err == None
  {
    hide Fits; hide T.Stored; hide SplitAt;
    ghost var t, s := mm.tree, mm.Areas();
    EntryAt(mm, i);
    OnlyOnce(t, s, i);
    v := vma;
    var maySplit :| maySplit || mm.mayFail;
    if !maySplit { return Some(EINVAL), v; }
    var copy := DupVma(mm, vma);
    assert mm.Areas() == s;
    if copy == null { return Some(ENOMEM), v; }
    if newBelow {
      copy.end := addr;
      vma.start := addr;
      vma.pgoff := vma.pgoff + (addr - copy.start);
    } else {
      copy.start := addr;
      copy.pgoff := copy.pgoff + (addr - vma.start);
      vma.end := addr;
    }
    mm.repr := mm.repr + {copy};
    CompleteInsert(mm, copy);
    SplitDone(mm, t, s, i, addr, copy, newBelow);
    return None, copy;
  }
}
