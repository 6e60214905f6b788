/** `mmap_region` for private anonymous memory, and the limits around it. */
module Mmap {
  import opened VmTypes
  import opened AreaList
  import opened MmStruct
  import opened MergeProof
  import opened Munmap
  import T = RangeTree

  /** `may_expand_vm`: whether n more pages keep within RLIMIT_AS. The test of
      RLIMIT_DATA may refuse as well. */
  method MayExpandVm(mm: Mm, n: int) returns (ok: bool)
    ensures ok ==> mm.totalVm + n <= mm.limitAs
    ensures !ok ==> mm.totalVm + n > mm.limitAs || mm.mayFail
  {
    var dataOk :| dataOk || mm.mayFail;
    ok := mm.totalVm + n <= mm.limitAs && dataOk;
  }

  function Min(a: int, b: int): int { if a < b then a else b }
  function Max(a: int, b: int): int { if a > b then a else b }

  /** The pages of s below z. */
  function PagesBelow(s: seq<Area>, z: int): int { Sum(All, Head(s, z)) }

  lemma PagesBelowIn(s: seq<Area>, i: nat, z: int)
    requires Wf(s) && i < |s| && s[i].start <= z <= s[i].end
    ensures PagesBelow(s, z) == Sum(All, s[..i]) + (z - s[i].start)
  {
    Neighbours(s, i);
    hide Wf; hide Head; hide Tail; hide Sum;
    SumConcat(All, s[..i], [s[i]]);
    SumConcat(All, s[..i], [Lower(s[i], z)]);
    SumOne(All, s[i]);
    SumOne(All, Lower(s[i], z));
    if z == s[i].start {
      CutBetween(s, i, z);
    } else if z == s[i].end {
      CutBetween(s, i + 1, z);
      assert s[..i + 1] == s[..i] + [s[i]];
    } else {
      CutInside(s, i, z);
    }
  }

  lemma PagesBelowGap(s: seq<Area>, i: nat, z: int)
    requires Wf(s) && i <= |s| && (i > 0 ==> s[i - 1].end <= z) && (i < |s| ==> z <= s[i].start)
    ensures PagesBelow(s, z) == Sum(All, s[..i])
  {
    CutBetween(s, i, z);
  }

  /** What the counting loop has counted when it stands before area i. */
  function Counted(s: seq<Area>, f: nat, i: nat, x: int, y: int): int
    requires f <= i <= |s|
  {
    if i == f then 0 else PagesBelow(s, Min(y, s[i - 1].end)) - PagesBelow(s, x)
  }

  lemma CountStep(s: seq<Area>, f: nat, i: nat, x: int, y: int)
    requires Wf(s) && f == First(s, x) <= i < |s| && x < y && s[i].start < y && (i > f ==> s[i - 1].end < y)
    ensures Counted(s, f, i + 1, x, y) == Counted(s, f, i, x, y) + (Min(y, s[i].end) - Max(x, s[i].start))
    ensures 0 < Min(y, s[i].end) - Max(x, s[i].start)
  {
    Neighbours(s, i);
    if i > f { assert Before(s[f], s[i]); assert AreaOk(s[f]); }
    PagesBelowIn(s, i, Min(y, s[i].end));
    if i == f && s[i].start < x {
      PagesBelowIn(s, i, x);
    } else {
      PagesBelowGap(s, i, if i == f then x else s[i - 1].end);
    }
  }

  /** The pages of s that removing [x, y) removes. */
  function PagesIn(s: seq<Area>, x: int, y: int): int { Sum(All, s) - Sum(All, Cut(s, x, y)) }

  lemma CountDone(s: seq<Area>, f: nat, i: nat, x: int, y: int)
    requires Wf(s) && f == First(s, x) <= i <= |s| && x < y
    requires (i < |s| ==> y <= s[i].start) && (i > f ==> s[i - 1].start < y)
    ensures Counted(s, f, i, x, y) == PagesIn(s, x, y)
  {
    SumHeadTail(All, s, y);
    SumConcat(All, Head(s, x), Tail(s, y));
    if i > f {
      if s[i - 1].end < y {
        PagesBelowGap(s, i, y);
        PagesBelowGap(s, i, s[i - 1].end);
      }
    } else {
      PagesBelowGap(s, i, x);
      PagesBelowGap(s, i, y);
    }
  }

  /** They are no more than the range has room for. */
  lemma PagesInBounded(s: seq<Area>, x: int, y: int)
    requires Wf(s) && x < y
    ensures 0 <= PagesIn(s, x, y) <= y - x
  {
    var t := Tail(s, x);
    TailOk(s, x);
    SumHeadTail(All, s, x);
    SumConcat(All, Head(s, x), Tail(s, y));
    SumHeadTail(All, t, y);
    TailOfTail(s, x, y);
    var m := Head(t, y);
    HeadOk(t, y);
    HeadKeepsStart(t, x, y);
    SumBounded(All, m, x, y);
  }

  lemma HeadKeepsStart(t: seq<Area>, x: int, y: int)
    requires forall k :: 0 <= k < |t| ==> x <= t[k].start
    ensures forall k :: 0 <= k < |Head(t, y)| ==> x <= Head(t, y)[k].start
  {}

  lemma TailOfTail(s: seq<Area>, x: int, y: int)
    requires Wf(s) && x <= y
    ensures Tail(Tail(s, x), y) == Tail(s, y)
  {
    TailAfterSplit(s, x, y);
    HeadOk(s, x);
    TailSkips(Head(s, x), Tail(s, x), y);
  }

  /** `count_vma_pages_range`: exactly what the unmapping of the range will give
      back, so that the subtraction that uses it never wraps. */
  method CountVmaPagesRange(mm: Mm, x: int, y: int) returns (n: int)
    requires mm.Valid() && x < y
    ensures n == PagesIn(mm.Areas(), x, y) && 0 <= n <= y - x
  {
    hide Fits; hide Wf; hide First; hide T.First; hide PagesIn; hide Counted;
    ghost var s, f := mm.Areas(), First(mm.Areas(), x);
    SoundWf(mm);
    SameFirst(mm.tree, s, x);
    var i := T.First(mm.tree, x);
    n := 0;
    CountedNothing(s, f, x, y);
    while i < |mm.tree| && mm.tree[i].vma.start < y
      invariant f <= i <= |mm.tree| && n == Counted(s, f, i, x, y)
      invariant i > f ==> s[i - 1].start < y
      invariant i > f && i < |mm.tree| ==> s[i - 1].end <= s[i].start
    {
      CountStep(s, f, i, x, y);
      Neighbours(s, i);
      var vma := mm.tree[i].vma;
      n := n + (Min(y, vma.end) - Max(x, vma.start));
      i := i + 1;
    }
    CountDone(s, f, i, x, y);
    PagesInBounded(s, x, y);
    assert mm.Areas() == s;
  }

  lemma CountedNothing(s: seq<Area>, f: nat, x: int, y: int)
    requires f <= |s|
    ensures Counted(s, f, f, x, y) == 0
  {}
}
