/** The searches for an unmapped area, in pages. */
module HoleSearch {
  import opened VmTypes
  import opened AreaList
  import opened MmStruct
  import opened Munmap
  import opened HoleSpec
  import T = RangeTree

  /** No range of the tree meets [c, c + n). */
  predicate Vacant(t: seq<Entry>, c: int, n: int) {
    var i := T.First(t, c);
    i < |t| ==> c + n <= t[i].lo
  }

  lemma NextVacant(t: seq<Entry>, i: nat, c: int, n: int)
    requires T.Ordered(t) && i == T.First(t, c) < |t| && t[i].lo < c + n
    ensures c < t[i].hi && T.First(t, t[i].hi) == i + 1
    ensures forall d: int :: c <= d < t[i].hi ==> !Vacant(t, d, n)
  {
    if i + 1 < |t| { assert T.Before(t[i], t[i + 1]); }
    T.FirstIs(t, i + 1, t[i].hi);
    forall d: int | c <= d < t[i].hi ensures !Vacant(t, d, n) { T.FirstIs(t, i, d); }
  }

  /** `mas_empty_area`: the lowest vacant range of the given size in [min, max]. */
  method EmptyArea(t: seq<Entry>, min: nat, max: nat, size: nat) returns (r: Option<nat>)
    requires T.Ordered(t)
    ensures r.Some? ==> 0 < size && min <= r.value && r.value + size - 1 <= max && Vacant(t, r.value, size)
    ensures forall c: int {:trigger Vacant(t, c, size)} ::
      0 < size && min <= c && c + size - 1 <= max && Vacant(t, c, size) ==> r.Some? && r.value <= c
  {
    if min > max || size == 0 || max - min < size - 1 { return None; }
    var cur, i := min, T.First(t, min);
    while i < |t| && t[i].lo < cur + size
      invariant min <= cur && i == T.First(t, cur)
      invariant forall c: int :: min <= c < cur ==> !Vacant(t, c, size)
      decreases |t| - i
    {
      NextVacant(t, i, cur, size);
      cur, i := t[i].hi, i + 1;
    }
    r := if cur + size - 1 <= max then Some(cur) else None;
  }

  lemma PreviousVacant(t: seq<Entry>, i: nat, c: int, n: int)
    requires T.Ordered(t) && i == T.First(t, c) < |t| && t[i].lo < c + n
    ensures forall d: int :: t[i].lo - n < d <= c ==> !Vacant(t, d, n)
  {
    forall d: int | t[i].lo - n < d <= c ensures !Vacant(t, d, n) {
      var j := T.First(t, d);
      if j < i { assert T.Before(t[j], t[i]); }
    }
  }

  /** `mas_empty_area_rev`: the highest such range. */
  method EmptyAreaRev(t: seq<Entry>, min: nat, max: nat, size: nat) returns (r: Option<nat>)
    requires T.Ordered(t)
    ensures r.Some? ==> 0 < size && min <= r.value && r.value + size - 1 <= max && Vacant(t, r.value, size)
    ensures forall c: int {:trigger Vacant(t, c, size)} ::
      0 < size && min <= c && c + size - 1 <= max && Vacant(t, c, size) ==> r.Some? && c <= r.value
  {
    if min > max || size == 0 || max - min < size - 1 { return None; }
    var cur := max + 1 - size;
    var i := T.First(t, cur);
    while i < |t| && t[i].lo < cur + size
      invariant min <= cur <= max + 1 - size && i == T.First(t, cur)
      invariant forall c: int :: cur < c <= max + 1 - size ==> !Vacant(t, c, size)
      decreases cur
    {
      PreviousVacant(t, i, cur, size);
      cur := t[i].lo - size;
      if cur < min { return None; }
      i := T.First(t, cur);
    }
    r := Some(cur);
  }

  /** The lowest vacant range from the limit on, and the VMA above it. */
  method GapAbove(mm: Mm, low: nat, high: nat, n: nat) returns (c: Option<nat>, next: Vma?)
    requires mm.Valid() && 0 < n && 0 < high
    ensures Bottommost(mm.Areas(), n, low, high, c)
    ensures c.Some? ==> var i := First(mm.Areas(), c.value);
      next == if i < |mm.tree| then mm.tree[i].vma else null
  {
    hide Fits; hide Wf; hide First; hide T.First; hide Vacant; hide Unoccupied;
    ghost var s, t := mm.Areas(), mm.tree;
    FitsOrdered(t, s);
    next := null;
    c := EmptyArea(mm.tree, low, high - 1, n);
    assert mm.Areas() == s;
    BelowVacant(t, s, low, high, n, c);
    if c.Some? {
      NextOf(mm, c.value, n);
      next := mm.FindVma(c.value);
    }
  }

  lemma BelowVacant(t: seq<Entry>, s: seq<Area>, low: int, high: int, n: nat, c: Option<nat>)
    requires Fits(t, s)
    requires c.Some? ==> low <= c.value && c.value + n <= high && Vacant(t, c.value, n)
    requires forall d: int {:trigger Vacant(t, d, n)} :: low <= d && d + n <= high && Vacant(t, d, n) ==> c.Some? && c.value <= d
    ensures Bottommost(s, n, low, high, c)
  {
    if c.Some? { SameFirst(t, s, c.value); }
    forall d: int | low <= d && d + n <= high && Unoccupied(s, d, n) ensures c.Some? && c.value <= d {
      SameFirst(t, s, d);
      assert Vacant(t, d, n);
    }
  }

  /** `unmapped_area`, the search from below: it finds what the walk up the holes
      finds. */
  method UnmappedArea(mm: Mm, q: Search) returns (r: Option<nat>)
    requires mm.Valid() && SearchOk(q)
    ensures r == Climb(mm.Areas(), 0, q, Low(q, mm.minAddr / PAGE), mm.guardGap)
    ensures FoundUp(mm.Areas(), q, mm.minAddr / PAGE, mm.guardGap, r)
  {
    hide FoundUp; hide Fits; hide Wf; hide First; hide T.First; hide StartGap; hide Bottommost; hide Climb; hide Floor;
    ghost var s, first, gap := mm.Areas(), Low(q, mm.minAddr / PAGE), mm.guardGap;
    SoundWf(mm);
    ClimbFound(s, q, mm.minAddr / PAGE, gap);
    var length := Padded(q);
    if length >= U64_PAGES {
      NoRoomUp(s, q, first, gap);
      return None;
    }
    var low := if q.low < mm.minAddr / PAGE then mm.minAddr / PAGE else q.low;
    ghost var k := 0;
    FloorStart(s, first);
    while true
      invariant k <= |s| && 0 <= low == Floor(s, k, first) && mm.Areas() == s && mm.Valid()
      invariant Climb(s, 0, q, first, gap) == Climb(s, k, q, first, gap)
      decreases |s| - k
    {
      var c, next := GapAbove(mm, low, q.high, length);
      assert mm.Areas() == s;
      if c == None {
        ClimbMissing(s, k, q, first, gap);
        return None;
      }
      var g := c.value + (q.offset - c.value) % q.align;
      ClimbRound(s, k, q, first, gap, c.value);
      if next == null || !next.attr.flags.growsDown || StartGap(next.Snapshot(), mm.guardGap) >= g + length {
        return Some(g);
      }
      k := First(s, c.value) + 1;
      low := next.end;
    }
  }

  lemma FloorStart(s: seq<Area>, low: nat)
    ensures Floor(s, 0, low) == low
  {}

  lemma NoRoomUp(s: seq<Area>, q: Search, low: nat, gap: nat)
    requires Wf(s) && SearchOk(q) && Padded(q) > q.high
    ensures Climb(s, 0, q, low, gap) == None
  {
    ClimbMissing(s, 0, q, low, gap);
  }

  /** The VMA above a vacant range. */
  lemma NextOf(mm: Mm, c: int, n: int)
    requires mm.Sound() && Vacant(mm.tree, c, n)
    ensures var s, i := mm.Areas(), First(mm.Areas(), c);
      if i < |s| then mm.FindVma(c) == mm.tree[i].vma && c + n <= s[i].start && c < s[i].end else mm.FindVma(c) == null
  {
    SameFirst(mm.tree, mm.Areas(), c);
  }

  /** The topmost pages of the 64-bit space are never mapped. */
  lemma TopVacant(t: seq<Entry>, s: seq<Area>, n: nat)
    requires Fits(t, s) && n <= TASK_PAGES
    ensures Vacant(t, U64_PAGES - n, n)
  {
    assert T.First(t, U64_PAGES - n) < |t| ==> AreaOk(s[T.First(t, U64_PAGES - n)]);
  }

  /** Where nothing is mapped, there is no next VMA. */
  lemma NothingAbove(mm: Mm, c: int)
    requires mm.Sound() && TASK_PAGES <= c
    ensures mm.FindVma(c) == null
  {
    assert T.First(mm.tree, c) < |mm.tree| ==> AreaOk(mm.Areas()[T.First(mm.tree, c)]);
  }

  /** The highest vacant range below the limit, and the VMA above it. */
  method GapBelow(mm: Mm, low: nat, high: nat, n: nat) returns (c: Option<nat>, next: Vma?)
    requires mm.Valid() && 0 < n && high <= U64_PAGES
    ensures Topmost(mm.Areas(), n, low, high, c)
    ensures c.Some? ==> var i := First(mm.Areas(), c.value);
      next == if i < |mm.tree| then mm.tree[i].vma else null
    ensures low + n <= TASK_PAGES && high == U64_PAGES ==> c == Some(U64_PAGES - n) && next == null
  {
    hide Fits; hide Wf; hide First; hide T.First; hide Vacant; hide Unoccupied;
    ghost var s, t := mm.Areas(), mm.tree;
    FitsOrdered(t, s);
    next := null;
    if high == 0 {
      AboveVacant(t, s, low, high, n, None);
      return None, next;
    }
    c := EmptyAreaRev(mm.tree, low, high - 1, n);
    assert mm.Areas() == s;
    AboveVacant(t, s, low, high, n, c);
    if low + n <= TASK_PAGES && high == U64_PAGES {
      TopVacant(t, s, n);
      NothingAbove(mm, U64_PAGES - n);
    }
    if c.Some? {
      NextOf(mm, c.value, n);
      next := mm.FindVma(c.value);
    }
  }

  lemma AboveVacant(t: seq<Entry>, s: seq<Area>, low: int, high: int, n: nat, c: Option<nat>)
    requires Fits(t, s)
    requires c.Some? ==> low <= c.value && c.value + n <= high && Vacant(t, c.value, n)
    requires forall d: int {:trigger Vacant(t, d, n)} :: low <= d && d + n <= high && Vacant(t, d, n) ==> c.Some? && d <= c.value
    ensures Topmost(s, n, low, high, c)
  {
    if c.Some? { SameFirst(t, s, c.value); }
    forall d: int | low <= d && d + n <= high && Unoccupied(s, d, n) ensures c.Some? && d <= c.value {
      SameFirst(t, s, d);
      assert Vacant(t, d, n);
    }
  }

  /** `unmapped_area_topdown`, the search from above: it finds what the walk down the
      holes finds. */
  method UnmappedAreaTopdown(mm: Mm, q: Search) returns (r: Option<nat>)
    requires mm.Valid() && SearchOk(q)
    ensures r == AnswerOf(q, Walk(mm.Areas(), q, mm.minAddr / PAGE, mm.guardGap))
    ensures FoundDown(mm.Areas(), q, mm.minAddr / PAGE, mm.guardGap, r)
  {
    hide FoundDown; hide Fits; hide Wf; hide First; hide T.First; hide StartGap; hide Topmost; hide Clear; hide Descend;
    ghost var s, minPage, gap := mm.Areas(), mm.minAddr / PAGE, mm.guardGap;
    SoundWf(mm);
    var length := Padded(q);
    if length >= U64_PAGES {
      NoRoom(s, length, Low(q, minPage), q.high, gap);
      WalkFound(s, q, minPage, gap);
      return None;
    }
    var low := if q.low < mm.minAddr / PAGE then mm.minAddr / PAGE else q.low;
    var high := q.high;
    ghost var w := Walk(s, q, minPage, gap);
    while true
      invariant 0 <= high <= q.high && mm.Areas() == s && mm.Valid()
      invariant high > 0 ==> w == Descend(s, |s|, length, low, high, gap)
      invariant high == 0 ==> w == Beyond && low + length <= TASK_PAGES
      decreases high
    {
      // the search is up to high - 1, which wraps at 0
      var c, next := GapBelow(mm, low, if high == 0 then U64_PAGES else high, length);
      assert mm.Areas() == s;
      if c == None {
        RoundMissing(s, length, low, high, gap);
        WalkFound(s, q, minPage, gap);
        return None;
      }
      var last := c.value + length;
      var g := last - q.length;
      g := g - (g - q.offset) % q.align;
      Settled(q, c.value);
      ClearIs(s, c.value, length, low, if high == 0 then U64_PAGES else high, gap);
      if next == null || !next.attr.flags.growsDown || StartGap(next.Snapshot(), mm.guardGap) >= last {
        if high > 0 { RoundSpot(s, c.value, length, low, high, gap); }
        WalkFound(s, q, minPage, gap);
        return Some(g);
      }
      RoundRetry(s, c.value, length, low, high, gap);
      high := StartGap(next.Snapshot(), mm.guardGap);
    }
  }

  lemma NoRoom(s: seq<Area>, n: nat, low: nat, high: int, gap: nat)
    requires Wf(s) && 0 <= high < n
    ensures Descend(s, |s|, n, low, high, gap) == Missing
  {
    RoundMissing(s, n, low, high, gap);
  }

  /** The test the code makes of the VMA above decides whether the range is clear. */
  lemma ClearIs(s: seq<Area>, c: nat, n: nat, low: int, high: int, gap: nat)
    requires Wf(s) && 0 < n && Topmost(s, n, low, high, Some(c))
    ensures var i := First(s, c); Clear(s, c, n, gap) <==>
      (i < |s| && s[i].attr.flags.growsDown ==> c + n <= StartGap(s[i], gap))
    ensures low <= c && c + n <= high
  {}
}
