/** When mmap, munmap and brk succeed, said of pages, sizes and counts alone. */
module Outcomes {
  import opened VmTypes
  import opened AreaList
  import opened Munmap
  import opened Mmap
  import opened Region
  import opened HoleSpec
  import opened GetArea
  import opened DoMmap
  import opened Brk
  import opened PageCount

  /** How many pages of [x, y) are mapped. */
  function MappedIn(s: seq<Area>, x: nat, y: nat): int { MappedBelow(s, y) - MappedBelow(s, x) }

  /** The pages a range would give back are the mapped pages in it. */
  lemma PagesInIs(s: seq<Area>, x: nat, y: nat)
    requires Wf(s) && x <= y
    ensures PagesIn(s, x, y) == MappedIn(s, x, y)
  {
    hide Wf; hide Head; hide Tail; hide Sum;
    PagesBelowCounts(s, x);
    PagesBelowCounts(s, y);
    SumHeadTail(All, s, y);
    SumConcat(All, Head(s, x), Tail(s, y));
  }

  /** Unmapping [x, y) would split an area in two, and there are max areas or more. */
  ghost predicate SplitsTooMany(s: seq<Area>, x: int, y: int, max: int) {
    |s| >= max && exists i :: 0 <= i < |s| && s[i].start < x && y < s[i].end
  }

  lemma TooManyIs(s: seq<Area>, x: int, y: int, max: int)
    requires Wf(s) && x <= y
    ensures TooMany(s, x, y, max) <==> SplitsTooMany(s, x, y, max)
  {
    if i :| 0 <= i < |s| && s[i].start < x && y < s[i].end {
      if i > 0 { assert Before(s[i - 1], s[i]); }
      FirstIs(s, i, x);
    }
  }

  /** A mapping at a fixed address: its length and offset fit, there are not too many
      areas, it is aligned and within user space, with MAP_FIXED_NOREPLACE nothing is
      mapped there, RLIMIT_AS allows the pages that are not mapped yet, and what it
      replaces is not in the middle of an area with too many areas already. */
  lemma FixedGoesIs(s: seq<Area>, c: Call, total: int, minPage: nat, limit: int, max: int)
    requires Wf(s) && CallOk(c)
    ensures var x, n := c.hint / 4096, (c.len + 4095) / 4096;
      FixedGoes(s, c, total, minPage, limit, max) <==>
        && 0 < c.len && c.pgoff + n < U64 && |s| <= max
        && c.hint % 4096 == 0 && n + minPage <= TASK_PAGES && x + n <= TASK_PAGES
        && (c.noReplace ==> Nothing(s, x, x + n))
        && total + n - MappedIn(s, x, x + n) <= limit && !SplitsTooMany(s, x, x + n, max)
  {
    hide Wf; hide MappedIn; hide PagesIn; hide SplitsTooMany; hide TooMany; hide PageAlign; hide Nothing;
    var x, n := c.hint / PAGE, (c.len + 4095) / 4096;
    AlignsUp(c.len);
    if c.len <= U64 - 4096 {
      PagesInIs(s, x, x + n);
      TooManyIs(s, x, x + n, max);
    }
  }

  /** Rounding up to a page wraps to 0 in the last page of the 64-bit space. */
  lemma AlignsUp(x: nat)
    requires x < U64
    ensures PageAlign(x) == if x <= U64 - 4096 then (x + 4095) / 4096 else 0
  {}

  /** A mapping for which the address is chosen from below: there is an untouched range
      from the base on, or at the hint. */
  lemma ChosenGoesIs(s: seq<Area>, c: Call, lay: Layout, total: int, minAddr: nat, gap: nat, limit: int, max: int)
    requires Wf(s) && CallOk(c) && 0 < lay.base <= TASK_PAGES && minAddr % PAGE == 0 && minAddr <= TASK_SIZE
    requires !lay.topdown
    ensures var n, minPage, hinted := (c.len + 4095) / 4096, minAddr / 4096, c.hint / 4096;
      var x := if 0 < hinted < minPage then minPage else hinted;
      ChosenGoes(s, c, lay, total, minAddr, gap, limit, max) <==>
        && 0 < c.len && c.len <= U64 - 4096 && c.pgoff + n < U64 && |s| <= max && total + n <= limit
        && ((hinted != 0 && x + n <= TASK_PAGES && Untouched(s, x, n, gap)) || HasPlace(s, n, minPage, gap, lay.base))
  {
    hide Wf; hide NoPlace; hide HasPlace; hide Untouched; hide PageAlign; hide HintSuits; hide RoundHint;
    var n, minPage := (c.len + 4095) / 4096, minAddr / PAGE;
    AlignsUp(c.len);
    RoundedHint(c.hint, minAddr);
    if 0 < n {
      HintIs(s, RoundHint(c.hint, minAddr), n, minPage, gap);
      PlaceOrNot(s, n, minPage, gap, lay.base);
    }
  }

  /** Some range of n pages from the base on is untouched. */
  ghost predicate HasPlace(s: seq<Area>, n: nat, minPage: nat, gap: nat, base: nat) {
    exists d: int :: base <= d && minPage <= d && d + n <= TASK_PAGES && Untouched(s, d, n, gap)
  }

  lemma PlaceOrNot(s: seq<Area>, n: nat, minPage: nat, gap: nat, base: nat)
    requires Wf(s)
    ensures HasPlace(s, n, minPage, gap, base) <==> !NoPlace(s, n, minPage, gap, base, TASK_PAGES)
    ensures HasPlace(s, n, minPage, gap, base) ==> n <= TASK_PAGES - minPage
  {
    hide Wf; hide Untouched; hide Clear;
    if d: int :| base <= d && minPage <= d && d + n <= TASK_PAGES && Untouched(s, d, n, gap) {
      UntouchedIs(s, d, n, gap);
      assert Place(s, n, minPage, gap, d);
    }
    if !NoPlace(s, n, minPage, gap, base, TASK_PAGES) {
      var d: int :| base <= d && d + n <= TASK_PAGES && Place(s, n, minPage, gap, d);
      UntouchedIs(s, d, n, gap);
    }
  }

  /** A brk to a break in user space: in its page it always succeeds; a shrink if a
      page between the aligned breaks is mapped and the unmapping has room; a grow if
      no page is mapped up to a page beyond and a guard gap is left to the next area,
      and the limits allow the pages. */
  lemma BrkGoesIs(s: seq<Area>, total: int, from: nat, brk: nat, minPage: int, gap: nat, limit: int, max: int)
    requires Wf(s) && from <= TASK_SIZE && brk <= TASK_SIZE
    ensures var o, n := (from + 4095) / 4096, (brk + 4095) / 4096;
      BrkGoes(s, total, from, brk, minPage, gap, limit, max) <==>
        || n == o
        || (n < o && !SplitsTooMany(s, n, o, max) && exists p: int :: n <= p < o && PageAt(s, p) != None)
        || (o < n && n - o <= TASK_PAGES - minPage && Untouched(s, o, n + 1 - o, gap)
            && total + (n - o) <= limit && |s| <= max)
  {
    hide Wf; hide SplitsTooMany; hide TooMany; hide Untouched; hide PageAlign; hide Meets; hide First; hide Leaves;
    var o, n := (from + 4095) / 4096, (brk + 4095) / 4096;
    AlignsUp(from);
    AlignsUp(brk);
    if n < o {
      TooManyIs(s, n, o, max);
      MeetsIs(s, n, o);
    }
    UntouchedIs(s, o, n + 1 - o, gap);
  }

  lemma MeetsIs(s: seq<Area>, x: int, y: int)
    requires Wf(s) && x < y
    ensures Meets(s, x, y) <==> exists p: int :: x <= p < y && PageAt(s, p) != None
  {
    var i := First(s, x);
    if Meets(s, x, y) {
      var p := if s[i].start < x then x else s[i].start;
      assert AreaOk(s[i]);
      PageAtIn(s, i, p);
    }
    if p: int :| x <= p < y && PageAt(s, p) != None {
      var k := PageAtSome(s, p);
      assert i < k ==> Before(s[i], s[k]) && AreaOk(s[i]);
    }
  }
}
