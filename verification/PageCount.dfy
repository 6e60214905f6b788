/** The sum of the area sizes is the number of mapped pages, so it depends on
    the page map alone. */
module PageCount {
  import opened VmTypes
  import opened AreaList
  import opened Mmap

  /** How many of the pages below z are mapped. */
  function MappedBelow(s: seq<Area>, z: nat): nat {
    if z == 0 then 0 else MappedBelow(s, z - 1) + if PageAt(s, z - 1).Some? then 1 else 0
  }

  lemma NoneBelowZero(s: seq<Area>)
    requires Wf(s)
    ensures PagesBelow(s, 0) == 0
  {
    if s != [] { assert AreaOk(s[0]); }
    CutBetween(s, 0, 0);
  }

  lemma OneMore(s: seq<Area>, z: nat)
    requires Wf(s)
    ensures PagesBelow(s, z + 1) == PagesBelow(s, z) + if PageAt(s, z).Some? then 1 else 0
  {
    hide PagesBelow;
    var i := First(s, z);
    if i < |s| && s[i].start <= z {
      PageAtIn(s, i, z);
      PagesBelowIn(s, i, z);
      PagesBelowIn(s, i, z + 1);
    } else {
      forall k | 0 <= k < |s| ensures !In(s[k], z) { assert i < k ==> Before(s[i], s[k]) && AreaOk(s[i]); }
      PageAtOutside(s, z);
      PagesBelowGap(s, i, z);
      PagesBelowGap(s, i, z + 1);
    }
  }

  lemma {:induction false} PagesBelowCounts(s: seq<Area>, z: nat)
    requires Wf(s)
    ensures PagesBelow(s, z) == MappedBelow(s, z)
  {
    hide PagesBelow; hide Wf;
    if z == 0 {
      NoneBelowZero(s);
    } else {
      PagesBelowCounts(s, z - 1);
      OneMore(s, z - 1);
    }
  }

  /** The pages of all areas are the mapped pages. */
  lemma SumIsMapped(s: seq<Area>)
    requires Wf(s)
    ensures Sum(All, s) == MappedBelow(s, TASK_PAGES)
  {
    PagesBelowCounts(s, TASK_PAGES);
    assert s != [] ==> AreaOk(s[|s| - 1]);
    CutBetween(s, |s|, TASK_PAGES);
    assert s[..|s|] == s;
  }

  ghost predicate SameDomain(s: seq<Area>, t: seq<Area>) {
    forall x: int :: PageAt(s, x).Some? <==> PageAt(t, x).Some?
  }

  lemma {:induction false} MappedSame(s: seq<Area>, t: seq<Area>, z: nat)
    requires SameDomain(s, t)
    ensures MappedBelow(s, z) == MappedBelow(t, z)
  {
    if z != 0 { MappedSame(s, t, z - 1); }
  }

  /** Lists that map the same pages have the same number of them. */
  lemma SameDomainSameSum(s: seq<Area>, t: seq<Area>)
    requires Wf(s) && Wf(t) && SameDomain(s, t)
    ensures Sum(All, s) == Sum(All, t)
  {
    SumIsMapped(s);
    SumIsMapped(t);
    MappedSame(s, t, TASK_PAGES);
  }
}
