/** The address-space descriptor, and the tree look-ups the engine is built on. */
module MmStruct {
  import opened VmTypes
  import opened AreaList
  import T = RangeTree

  /** The counters of an mm: pages mapped, pages in VM_LOCKED areas, pages
      charged to the commit limit, and the program break in bytes. */
  datatype Counters = Counters(total: int, locked: int, charged: int, brk: int)

  /** The whole abstract state of an mm. */
  datatype State = State(areas: seq<Area>, mapCount: int, counters: Counters)

  /** The tree t holds exactly the areas s: sorted and disjoint, each tree range
      being the range its VMA claims, and no VMA twice. */
  ghost predicate Fits(t: seq<Entry>, s: seq<Area>) {
    && |t| == |s| && T.Ordered(t) && T.Distinct(t) && Wf(s)
    && forall i :: 0 <= i < |t| ==> t[i].lo == s[i].start && t[i].hi == s[i].end
  }

  ghost predicate Owned(t: seq<Entry>, r: set<Vma>) {
    forall i :: 0 <= i < |t| ==> t[i].vma in r
  }

  /** `struct mm_struct`, with the limits that apply to it. `mayFail` tells
      whether allocations may fail, signals may come, and limits, hooks and policies
      outside the model may refuse. */
  class Mm {
    var tree: seq<Entry>
    ghost var repr: set<Vma>  // the VMAs this mm has ever had
    var mapCount: int
    var totalVm: int
    var lockedVm: int
    var charged: int
    var brk: int
    const mayFail: bool
    const maxMapCount: int
    const limitAs: int
    const guardGap: nat
    const minAddr: nat
    const startBrk: int
    const defFlags: Flags

    /** An address space without mappings. */
    constructor (mayFail: bool, maxMapCount: int, limitAs: int, guardGap: nat, minAddr: nat,
                 startBrk: int, defFlags: Flags)
      ensures Valid() && GetState() == State([], 0, Counters(0, 0, 0, startBrk))
      ensures this.mayFail == mayFail && this.maxMapCount == maxMapCount && this.limitAs == limitAs
      ensures this.guardGap == guardGap && this.minAddr == minAddr
      ensures this.startBrk == startBrk && this.defFlags == defFlags
    {
      repr := {};
      tree, mapCount, totalVm, lockedVm, charged, brk := [], 0, 0, 0, 0, startBrk;
      this.mayFail, this.maxMapCount, this.limitAs := mayFail, maxMapCount, limitAs;
      this.guardGap, this.minAddr, this.startBrk, this.defFlags := guardGap, minAddr, startBrk, defFlags;
    }

    ghost function Vmas(): set<Vma>
      reads this
    {
      set e | e in tree :: e.vma
    }

    ghost function Areas(): (s: seq<Area>)
      reads this, Vmas()
      ensures |s| == |tree| && forall i :: 0 <= i < |s| ==> s[i] == tree[i].vma.Snapshot()
    {
      seq(|tree|, i requires 0 <= i < |tree| reads this, Vmas() => tree[i].vma.Snapshot())
    }

    ghost function GetCounters(): Counters
      reads this
    {
      Counters(totalVm, lockedVm, charged, brk)
    }

    ghost function GetState(): State
      reads this, Vmas()
    {
      State(Areas(), mapCount, GetCounters())
    }

    /** What `validate_mm` checks of the tree and the structs, without regard to
        map_count and detached marks. */
    ghost predicate Sound()
      reads this, Vmas()
    {
      Fits(tree, Areas()) && Owned(tree, repr)
    }

    ghost predicate Valid()
      reads this, Vmas()
    {
      Sound() && Attached() && mapCount == |tree|
    }

    ghost predicate Attached()
      reads this, Vmas()
    {
      forall i :: 0 <= i < |tree| ==> !tree[i].vma.detached
    }

    /** Charging pages to the commit limit, or giving them back. */
    method Charge(pages: int)
      requires Valid()
      modifies `charged
      ensures Valid() && Areas() == old(Areas()) && charged == old(charged) + pages
    {
      hide Fits;
      ghost var s := Areas();
      charged := charged + pages;
      assert Areas() == s;
    }

    method SetBrk(b: int)
      requires Valid()
      modifies `brk
      ensures Valid() && Areas() == old(Areas()) && brk == b
    {
      hide Fits;
      ghost var s := Areas();
      brk := b;
      assert Areas() == s;
    }

    /** `vm_stat_account`, and the count of locked pages. */
    method Account(pages: int, isLocked: bool)
      requires Valid()
      modifies `totalVm, `lockedVm
      ensures Valid() && Areas() == old(Areas()) && totalVm == old(totalVm) + pages
      ensures lockedVm == old(lockedVm) + if isLocked then pages else 0
    {
      hide Fits;
      ghost var s := Areas();
      totalVm := totalVm + pages;
      if isLocked { lockedVm := lockedVm + pages; }
      assert Areas() == s;
    }

    /** `vma_iter_store`: the tree takes the VMA's own range. */
    method Store(vma: Vma)
      modifies this`tree
      ensures tree == T.Stored(old(tree), vma.start, vma.end, vma)
    {
      tree := T.Stored(tree, vma.start, vma.end, vma);
    }

    /** `find_vma`: the first VMA that ends above x. */
    function FindVma(x: int): Vma?
      reads this
    {
      var i := T.First(tree, x);
      if i < |tree| then tree[i].vma else null
    }

    /** `vma_prev` from x: the last VMA that ends at or below x. */
    function PrevVma(x: int): Vma?
      reads this
    {
      var i := T.First(tree, x);
      if i > 0 then tree[i - 1].vma else null
    }

    /** `find_vma_intersection`: the first VMA with a page in [x, y). */
    function FindIntersection(x: int, y: int): Vma?
      reads this
    {
      var i := T.First(tree, x);
      if x < y && i < |tree| && tree[i].lo < y then tree[i].vma else null
    }

    /** `vma_lookup`: the VMA that contains x. */
    function Lookup(x: int): Vma?
      reads this
    {
      var i := T.First(tree, x);
      if i < |tree| && tree[i].lo <= x then tree[i].vma else null
    }
  }

  lemma OrderedLike(t: seq<Entry>, s: seq<Area>)
    requires |t| == |s| && Wf(s)
    requires forall i :: 0 <= i < |t| ==> t[i].lo == s[i].start && t[i].hi == s[i].end
    ensures T.Ordered(t)
  {
    assert forall i :: 0 <= i < |t| ==> AreaOk(s[i]);
  }

  /** The VMAs of n are distinct, and none of them is outside the window. */
  ghost predicate NewOnes(t: seq<Entry>, i: nat, j: nat, n: seq<Entry>)
    requires i <= j <= |t|
  {
    && T.Distinct(n)
    && forall k, l :: (0 <= k < i || j <= k < |t|) && 0 <= l < |n| ==> t[k].vma != n[l].vma
  }

  lemma DistinctWindow(t: seq<Entry>, i: nat, j: nat, n: seq<Entry>)
    requires i <= j <= |t| && T.Distinct(t) && NewOnes(t, i, j, n)
    ensures T.Distinct(t[..i] + n + t[j..])
  {}

  /** An mm had tree t and areas s. Now ranges i to j - 1 are replaced by n, whose
      VMAs read a, and the VMAs outside the window read as before: then the same
      window of the area list is replaced, and the mm is sound when the new list
      is well-formed. */
  lemma WindowSound(mm: Mm, t: seq<Entry>, s: seq<Area>, i: nat, j: nat, n: seq<Entry>, a: seq<Area>)
    requires Fits(t, s) && i <= j <= |t| && |n| == |a|
    requires mm.tree == t[..i] + n + t[j..]
    requires forall k :: 0 <= k < |n| ==>
      n[k].vma.Snapshot() == a[k] && n[k].lo == a[k].start && n[k].hi == a[k].end
    requires forall k :: 0 <= k < i || j <= k < |t| ==> t[k].vma.Snapshot() == s[k]
    requires NewOnes(t, i, j, n)
    requires Owned(t, mm.repr) && Owned(n, mm.repr)
    requires Wf(s[..i] + a + s[j..])
    ensures mm.Areas() == s[..i] + a + s[j..]
    ensures mm.Sound()
  {
    assert mm.Areas() == s[..i] + a + s[j..];
    DistinctWindow(t, i, j, n);
    OrderedLike(mm.tree, mm.Areas());
  }

  lemma WindowOne(mm: Mm, t: seq<Entry>, s: seq<Area>, i: nat, j: nat, e: Entry, a: Area)
    requires Fits(t, s) && i <= j <= |t|
    requires mm.tree == t[..i] + [e] + t[j..]
    requires e.vma.Snapshot() == a && e.lo == a.start && e.hi == a.end
    requires forall k :: 0 <= k < i || j <= k < |t| ==> t[k].vma.Snapshot() == s[k] && t[k].vma != e.vma
    requires Owned(t, mm.repr) && e.vma in mm.repr
    requires Wf(s[..i] + [a] + s[j..])
    ensures mm.Areas() == s[..i] + [a] + s[j..]
    ensures mm.Sound()
  {
    WindowSound(mm, t, s, i, j, [e], [a]);
  }

  lemma WindowTwo(mm: Mm, t: seq<Entry>, s: seq<Area>, i: nat, j: nat, e: Entry, f: Entry, a: Area, b: Area)
    requires Fits(t, s) && i <= j <= |t|
    requires mm.tree == t[..i] + [e, f] + t[j..]
    requires e.vma.Snapshot() == a && e.lo == a.start && e.hi == a.end
    requires f.vma.Snapshot() == b && f.lo == b.start && f.hi == b.end && e.vma != f.vma
    requires forall k :: 0 <= k < i || j <= k < |t| ==>
      t[k].vma.Snapshot() == s[k] && t[k].vma != e.vma && t[k].vma != f.vma
    requires Owned(t, mm.repr) && e.vma in mm.repr && f.vma in mm.repr
    requires Wf(s[..i] + [a, b] + s[j..])
    ensures mm.Areas() == s[..i] + [a, b] + s[j..]
    ensures mm.Sound()
  {
    WindowSound(mm, t, s, i, j, [e, f], [a, b]);
  }

  lemma OnlyOnce(t: seq<Entry>, s: seq<Area>, v: nat)
    requires Fits(t, s) && v < |t|
    ensures forall k :: 0 <= k < |t| && k != v ==> t[k].vma != t[v].vma
  {}

  lemma OneAttached(mm: Mm, t: seq<Entry>, i: nat, j: nat, e: Entry)
    requires i <= j <= |t| && mm.tree == t[..i] + [e] + t[j..] && !e.vma.detached
    requires forall k :: 0 <= k < |t| ==> !t[k].vma.detached
    ensures mm.Attached()
  {}

  lemma EntryAt(mm: Mm, i: nat)
    requires mm.Sound() && i < |mm.tree|
    ensures mm.tree[i].lo == mm.tree[i].vma.start && mm.tree[i].hi == mm.tree[i].vma.end
    ensures AreaOk(mm.Areas()[i])
  {}

  lemma InRepr(mm: Mm, i: nat)
    requires mm.Sound() && i < |mm.tree|
    ensures mm.tree[i].vma in mm.repr
  {}

  lemma SoundWf(mm: Mm)
    requires mm.Sound()
    ensures Wf(mm.Areas())
  {}

  lemma FitsOrdered(t: seq<Entry>, s: seq<Area>)
    requires Fits(t, s)
    ensures T.Ordered(t)
  {}

  lemma OutsideWindow(t: seq<Entry>, s: seq<Area>, i: nat, j: nat, v: nat)
    requires Fits(t, s) && i <= v < j <= |t|
    ensures Outside(t, i, j, t[v].vma) && Outside(t, i, j, null)
  {}

  /** x is not among the VMAs outside ranges i to j - 1. */
  ghost predicate Outside(t: seq<Entry>, i: nat, j: nat, x: Vma?) {
    forall k :: 0 <= k < |t| && !(i <= k < j) ==> t[k].vma != x
  }

  lemma OutsideTree(mm: Mm, t: seq<Entry>, i: nat, j: nat, e: Entry, x: Vma)
    requires i <= j <= |t| && mm.tree == t[..i] + [e] + t[j..]
    requires Outside(t, i, j, x) && e.vma != x
    ensures x !in mm.Vmas()
  {}

  lemma TwoAttached(mm: Mm, t: seq<Entry>, i: nat, j: nat, e: Entry, f: Entry)
    requires i <= j <= |t| && mm.tree == t[..i] + [e, f] + t[j..] && !e.vma.detached && !f.vma.detached
    requires forall k :: 0 <= k < |t| ==> !t[k].vma.detached
    ensures mm.Attached()
  {}

  lemma WindowNone(mm: Mm, t: seq<Entry>, s: seq<Area>, i: nat, j: nat)
    requires Fits(t, s) && i <= j <= |t|
    requires mm.tree == t[..i] + t[j..] && Owned(t, mm.repr)
    requires forall k :: 0 <= k < i || j <= k < |t| ==> t[k].vma.Snapshot() == s[k]
    ensures mm.Areas() == s[..i] + s[j..]
    ensures mm.Sound()
  {
    assert t[..i] + [] + t[j..] == t[..i] + t[j..];
    assert s[..i] + [] + s[j..] == s[..i] + s[j..];
    WfDrop(s, i, j);
    WindowSound(mm, t, s, i, j, [], []);
  }

  lemma WfDrop(s: seq<Area>, i: nat, j: nat)
    requires Wf(s) && i <= j <= |s|
    ensures Wf(s[..i] + s[j..])
  {
    if 0 < i && j < |s| { assert Before(s[i - 1], s[j]); }
    assert s == s[..i] + s[i..] && s == s[..j] + s[j..];
    WfParts(s[..i], s[i..]);
    WfParts(s[..j], s[j..]);
    WfConcat(s[..i], s[j..]);
  }
}
