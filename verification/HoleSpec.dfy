/** What the searches for an unmapped area look for, and a reference for the one
    from above: a walk down the holes between the areas. Addresses, lengths and
    alignment masks are multiples of the page size, and are counted in pages. */
module HoleSpec {
  import opened VmTypes
  import opened AreaList

  const U64_PAGES: nat := 0x10_0000_0000_0000

  /** Area a leaves room below it up to y: it begins there or above, and by a guard
      gap more if it may grow down. */
  predicate Leaves(a: Area, y: int, gap: nat) {
    y <= a.start && (a.attr.flags.growsDown ==> y + gap <= a.start)
  }

  /** `vm_start_gap` is the last address up to which an area leaves room. */
  lemma StartGapIs(a: Area, y: int, gap: nat)
    requires 0 < y
    ensures Leaves(a, y, gap) <==> y <= StartGap(a, gap)
  {}

  /** No area meets [c, c + n), and the area above begins a guard gap above it if it
      may grow down. */
  predicate Clear(s: seq<Area>, c: int, n: int, gap: nat) {
    var i := First(s, c);
    i < |s| ==> Leaves(s[i], c + n, gap)
  }

  /** A clear range has no page mapped. */
  lemma ClearUnmapped(s: seq<Area>, c: int, n: int, gap: nat, x: int)
    requires Wf(s) && Clear(s, c, n, gap) && c <= x < c + n
    ensures PageAt(s, x) == None
  {
    forall k | 0 <= k < |s| ensures !In(s[k], x) {
      assert First(s, c) < k ==> Before(s[First(s, c)], s[k]) && AreaOk(s[First(s, c)]);
    }
    PageAtOutside(s, x);
  }

  /** No area meets [c, c + n); a guard gap may. */
  predicate Unoccupied(s: seq<Area>, c: int, n: int) {
    var i := First(s, c);
    i < |s| ==> c + n <= s[i].start
  }

  /** `struct vm_unmapped_area_info`; `align` is the alignment mask plus one page. */
  datatype Search = Search(length: nat, low: nat, high: nat, align: nat, offset: nat)

  predicate SearchOk(q: Search) { 0 < q.length && 0 < q.high <= TASK_PAGES && 0 < q.align <= U64_PAGES }

  /** The length that has room for any alignment. */
  function Padded(q: Search): nat
    requires SearchOk(q)
  {
    q.length + (q.align - 1)
  }

  predicate Congruent(q: Search, c: int)
    requires SearchOk(q)
  {
    c % q.align == q.offset % q.align
  }

  /** A range within the limits of the search that has `extra` pages to spare. */
  predicate Roomy(s: seq<Area>, q: Search, minPage: nat, gap: nat, extra: nat, c: int) {
    && q.low <= c && minPage <= c && c + (q.length + extra) <= q.high
    && Clear(s, c, q.length + extra, gap)
  }

  /** What a search promises of the address it returns: within the limits, with
      the alignment asked for, unmapped, and clear of the next guard gap. */
  predicate Suits(s: seq<Area>, q: Search, minPage: nat, gap: nat, c: int)
    requires SearchOk(q)
  {
    Roomy(s, q, minPage, gap, 0, c) && Congruent(q, c)
  }

  lemma AlignUp(q: Search, c: int)
    requires SearchOk(q)
    ensures var g := c + (q.offset - c) % q.align; c <= g < c + q.align && Congruent(q, g)
  {
    var a := q.align;
    var k := (q.offset - c) / a;
    assert q.offset == (c + (q.offset - c) % a) + k * a;
    ModShift(c + (q.offset - c) % a, k, a);
  }

  lemma AlignDown(q: Search, c: int)
    requires SearchOk(q)
    ensures var g := c - (c - q.offset) % q.align; c - q.align < g <= c && Congruent(q, g)
  {
    var a := q.align;
    var k := (c - q.offset) / a;
    assert c - (c - q.offset) % a == q.offset + k * a;
    ModShift(q.offset, k, a);
  }

  lemma ModShift(x: int, k: int, a: int)
    requires 0 < a
    ensures (x + k * a) % a == x % a
  {
    assert x + k * a == (x / a + k) * a + x % a;
    Remainder(x + k * a, x / a + k, x % a, a);
  }

  lemma Remainder(x: int, k: int, r: int, a: int)
    requires 0 <= r < a && x == k * a + r
    ensures x % a == r
  {
    var d := x / a - k;
    assert d * a == r - x % a;
    assert d >= 1 ==> d * a >= a;
    assert d <= -1 ==> d * a <= -a;
  }

  /** No range with `extra` pages to spare lies more than `slack` pages below r. */
  ghost predicate Lowest(s: seq<Area>, q: Search, minPage: nat, gap: nat, extra: nat, slack: int, r: Option<int>) {
    forall d: int :: Roomy(s, q, minPage, gap, extra, d) ==> r.Some? && r.value <= d + slack
  }

  lemma SuitsAbove(s: seq<Area>, q: Search, minPage: nat, gap: nat, c: int, g: int)
    requires Wf(s) && SearchOk(q) && c <= g < c + q.align && Congruent(q, g)
    requires q.low <= c && minPage <= c && c + Padded(q) <= q.high
    requires var i := First(s, c); i < |s| ==>
      && c + Padded(q) <= s[i].start
      && (s[i].attr.flags.growsDown ==> g + q.length + gap <= s[i].start)
    ensures Suits(s, q, minPage, gap, g)
  {
    FirstIs(s, First(s, c), g);
  }

  /** No area lies in the guard gap of another. */
  ghost predicate GapsFree(s: seq<Area>, gap: nat) {
    forall i, j :: 0 <= i < j < |s| && s[j].attr.flags.growsDown ==> s[i].end + gap <= s[j].start
  }

  // ---------------------------------------------------------------------
  // The search from above
  // ---------------------------------------------------------------------

  /** What a walk down the holes finds: nothing, a place, or an upper limit of 0. */
  datatype Found = Missing | Spot(c: int) | Beyond

  /** The hole below area i, or above the last area: where it begins, where it ends,
      and where the guard gap in it begins. */
  function Floor(s: seq<Area>, i: nat, low: nat): (r: int)
    requires i <= |s|
    ensures low <= r
  {
    if i > 0 && s[i - 1].end > low then s[i - 1].end else low
  }

  function Ceiling(s: seq<Area>, i: nat, high: int): int {
    if i < |s| && s[i].start < high then s[i].start else high
  }

  function ClearTop(s: seq<Area>, i: nat, high: int, gap: nat): int {
    if i < |s| && StartGap(s[i], gap) < high then StartGap(s[i], gap) else high
  }

  /** The reference for the search from above, hole by hole: n pages go to the top
      of a hole that has room for them below the guard gap. A hole that has room,
      but not below the gap, lowers the limit for all that follow to where the gap
      begins; a limit of 0 ends the walk. */
  function Descend(s: seq<Area>, i: nat, n: nat, low: nat, high: int, gap: nat): Found
    requires i <= |s|
  {
    var bottom := Floor(s, i, low);
    if bottom + n <= ClearTop(s, i, high, gap) then Spot(ClearTop(s, i, high, gap) - n)
    else if bottom + n <= Ceiling(s, i, high) then
      var limit := ClearTop(s, i, high, gap);
      if limit == 0 then Beyond
      else if i == 0 then Missing
      else Descend(s, i - 1, n, low, limit, gap)
    else if i == 0 then Missing
    else Descend(s, i - 1, n, low, high, gap)
  }

  /** The walk that stands for a search, and the address it is answered with. */
  function Low(q: Search, minPage: nat): nat { if q.low < minPage then minPage else q.low }

  function Walk(s: seq<Area>, q: Search, minPage: nat, gap: nat): Found
    requires SearchOk(q)
  {
    Descend(s, |s|, Padded(q), Low(q, minPage), q.high, gap)
  }

  /** The last address in n + align - 1 pages from c on that meets the offset. */
  function Settle(q: Search, c: int): int
    requires SearchOk(q)
  {
    var g := c + (q.align - 1);
    g - (g - q.offset) % q.align
  }

  lemma Settled(q: Search, c: int)
    requires SearchOk(q)
    ensures c <= Settle(q, c) < c + q.align && Congruent(q, Settle(q, c))
  {
    AlignDown(q, c + (q.align - 1));
  }

  /** What the walk finds lies in the hole below some area, within the limits, and
      is clear. */
  lemma {:induction false} SpotClear(s: seq<Area>, i: nat, n: nat, low: nat, high: int, gap: nat)
    requires Wf(s) && i <= |s| && 0 < n
    ensures var w := Descend(s, i, n, low, high, gap);
      w.Spot? ==> low <= w.c && w.c + n <= high && First(s, w.c) <= i && Clear(s, w.c, n, gap)
  {
    hide Wf; hide First;
    var bottom := Floor(s, i, low);
    ClearBelowCeiling(s, i, high, gap);
    if bottom + n <= ClearTop(s, i, high, gap) {
      InHole(s, i, ClearTop(s, i, high, gap) - n, n, low);
    } else if i > 0 {
      SpotClear(s, i - 1, n, low, high, gap);
      SpotClear(s, i - 1, n, low, ClearTop(s, i, high, gap), gap);
    }
  }

  /** A range in the hole below area i. */
  lemma InHole(s: seq<Area>, i: nat, c: int, n: nat, low: nat)
    requires Wf(s) && i <= |s| && Floor(s, i, low) <= c && 0 < n && (i < |s| ==> c + n <= s[i].start)
    ensures First(s, c) == i
  {
    if i < |s| { assert AreaOk(s[i]); }
    FirstIs(s, i, c);
  }

  /** The area before the hole at area i ends above every address that belongs to a
      lower hole. */
  lemma BelowHole(s: seq<Area>, i: nat, d: int, low: nat)
    requires Wf(s) && First(s, d) < i <= |s|
    ensures d < s[i - 1].end <= Floor(s, i, low)
  {
    var f := First(s, d);
    if f < i - 1 { assert Before(s[f], s[i - 1]) && AreaOk(s[i - 1]); }
  }

  /** The answer to a search suits it. */
  lemma WalkSuits(s: seq<Area>, q: Search, minPage: nat, gap: nat)
    requires Wf(s) && SearchOk(q)
    ensures var w := Walk(s, q, minPage, gap); w.Spot? ==>
      && Roomy(s, q, minPage, gap, q.align - 1, w.c)
      && Suits(s, q, minPage, gap, Settle(q, w.c))
  {
    SpotClear(s, |s|, Padded(q), Low(q, minPage), q.high, gap);
    var w := Walk(s, q, minPage, gap);
    if w.Spot? {
      Settled(q, w.c);
      SuitsAbove(s, q, minPage, gap, w.c, Settle(q, w.c));
    }
  }

  /** Every area that ends above c leaves room for n pages there. */
  ghost predicate GapFree(s: seq<Area>, c: int, n: int, gap: nat) {
    forall j :: 0 <= j < |s| && c < s[j].end ==> Leaves(s[j], c + n, gap)
  }

  lemma EndsAbove(s: seq<Area>, i: nat, d: int)
    requires Wf(s) && First(s, d) <= i < |s|
    ensures d < s[i].end
  {
    var f := First(s, d);
    if f < i { assert Before(s[f], s[i]) && AreaOk(s[f]) && AreaOk(s[i]); }
  }

  lemma {:induction false} DescendReaches(s: seq<Area>, i: nat, n: nat, low: nat, high: int, gap: nat, d: int)
    requires Wf(s) && First(s, d) <= i <= |s| && 0 < n && low <= d && d + n <= high && GapFree(s, d, n, gap)
    ensures var w := Descend(s, i, n, low, high, gap); w.Spot? && d <= w.c
  {
    hide Wf; hide First;
    var f, bottom, limit := First(s, d), Floor(s, i, low), ClearTop(s, i, high, gap);
    if i < |s| { EndsAbove(s, i, d); }
    assert d + n <= limit;
    if f == i {
      assert bottom <= d;
    } else {
      BelowHole(s, i, d, low);
      if bottom + n > limit {
        DescendReaches(s, i - 1, n, low, high, gap, d);
        DescendReaches(s, i - 1, n, low, limit, gap, d);
      }
    }
  }

  /** The walk is ended by a stack whose guard gap reaches down to address 0 and
      below which there would be room. */
  lemma {:induction false} BeyondMeans(s: seq<Area>, i: nat, n: nat, low: nat, high: int, gap: nat) returns (j: nat)
    requires Wf(s) && i <= |s| && 0 < high && Descend(s, i, n, low, high, gap) == Beyond
    ensures j < |s| && j <= i && s[j].attr.flags.growsDown && s[j].start <= gap
    ensures Floor(s, j, low) + n <= Ceiling(s, j, high)
  {
    var bottom, limit := Floor(s, i, low), ClearTop(s, i, high, gap);
    if i < |s| { assert AreaOk(s[i]); }
    if bottom + n <= Ceiling(s, i, high) {
      if limit == 0 { j := i; } else { j := BeyondMeans(s, i - 1, n, low, limit, gap); }
    } else {
      j := BeyondMeans(s, i - 1, n, low, high, gap);
    }
  }

  /** The lowest area is a stack whose guard gap reaches down to address 0, and there
      is room below it for n pages. */
  predicate RoomBelowZero(s: seq<Area>, n: nat, low: nat, high: int, gap: nat) {
    && s != [] && s[0].attr.flags.growsDown && s[0].start <= gap
    && low + n <= high && low + n <= s[0].start
  }

  lemma {:induction false} ZeroIsMet(s: seq<Area>, i: nat, n: nat, low: nat, high: int, gap: nat)
    requires Wf(s) && i <= |s| && 0 < n && GapsFree(s, gap) && RoomBelowZero(s, n, low, high, gap)
    ensures Descend(s, i, n, low, high, gap) != Missing
  {
    assert AreaOk(s[0]);
    var bottom, limit := Floor(s, i, low), ClearTop(s, i, high, gap);
    if i > 0 {
      assert i < |s| ==> Before(s[0], s[i]);
      ZeroIsMet(s, i - 1, n, low, high, gap);
      ZeroIsMet(s, i - 1, n, low, limit, gap);
    }
  }

  /** Where no area lies in another's guard gap, clear means free of all gaps. */
  lemma ClearIsGapFree(s: seq<Area>, d: int, n: nat, gap: nat)
    requires Wf(s) && GapsFree(s, gap) && Clear(s, d, n, gap)
    ensures GapFree(s, d, n, gap)
  {
    var f := First(s, d);
    forall j | 0 <= j < |s| && d < s[j].end ensures Leaves(s[j], d + n, gap) {
      if f < j { assert Before(s[f], s[j]) && AreaOk(s[f]); }
    }
  }

  /** Whatever the guard gaps, a range within the limits that none of them covers is
      not above the address found. */
  lemma WalkReaches(s: seq<Area>, q: Search, minPage: nat, gap: nat, d: int)
    requires Wf(s) && SearchOk(q)
    requires q.low <= d && minPage <= d && d + Padded(q) <= q.high && GapFree(s, d, Padded(q), gap)
    ensures var w := Walk(s, q, minPage, gap); w.Spot? && d <= w.c
  {
    DescendReaches(s, |s|, Padded(q), Low(q, minPage), q.high, gap, d);
  }

  /** No range has room for the search and its alignment. */
  ghost predicate NoneRoomy(s: seq<Area>, q: Search, minPage: nat, gap: nat)
    requires SearchOk(q)
  {
    var extra := q.align - 1;
    forall d: int :: !Roomy(s, q, minPage, gap, extra, d)
  }

  /** Where no area lies in another's guard gap the walk finds the highest range that
      has room; it finds none exactly when there is none; and it ends at address 0
      exactly when there is none and the lowest area is a stack whose gap reaches
      down there and hides room. */
  lemma WalkExact(s: seq<Area>, q: Search, minPage: nat, gap: nat)
    requires Wf(s) && SearchOk(q) && GapsFree(s, gap)
    ensures var w, zero := Walk(s, q, minPage, gap), RoomBelowZero(s, Padded(q), Low(q, minPage), q.high, gap);
      && (w.Beyond? <==> zero && NoneRoomy(s, q, minPage, gap))
      && (w.Missing? <==> !zero && NoneRoomy(s, q, minPage, gap))
      && (w.Spot? ==> forall d: int {:trigger Clear(s, d, Padded(q), gap)} ::
           q.low <= d && minPage <= d && d + Padded(q) <= q.high && Clear(s, d, Padded(q), gap) ==> d <= w.c)
  {
    var n, low := Padded(q), Low(q, minPage);
    var w := Walk(s, q, minPage, gap);
    hide Descend; hide Wf; hide First; hide Clear; hide GapsFree; hide GapFree; hide RoomBelowZero; hide Suits; hide Settle;
    forall d: int | q.low <= d && minPage <= d && d + n <= q.high && Clear(s, d, n, gap) ensures w.Spot? && d <= w.c {
      ClearIsGapFree(s, d, n, gap);
      WalkReaches(s, q, minPage, gap, d);
    }
    SpotRoomy(s, q, minPage, gap);
    if w.Beyond? { ZeroIsLowest(s, q, minPage, gap); }
    if RoomBelowZero(s, n, low, q.high, gap) { ZeroIsMet(s, |s|, n, low, q.high, gap); }
  }

  lemma SpotRoomy(s: seq<Area>, q: Search, minPage: nat, gap: nat)
    requires Wf(s) && SearchOk(q)
    ensures Walk(s, q, minPage, gap).Spot? ==> !NoneRoomy(s, q, minPage, gap)
  {
    hide Walk; hide Wf; hide Clear; hide Suits; hide Settle;
    WalkSuits(s, q, minPage, gap);
    var w := Walk(s, q, minPage, gap);
    if w.Spot? { assert Roomy(s, q, minPage, gap, q.align - 1, w.c); }
  }

  lemma NothingUnderGap(s: seq<Area>, j: nat, gap: nat)
    requires Wf(s) && GapsFree(s, gap) && j < |s| && s[j].attr.flags.growsDown && s[j].start <= gap
    ensures j == 0
  {
    assert AreaOk(s[0]);
  }

  lemma ZeroIsLowest(s: seq<Area>, q: Search, minPage: nat, gap: nat)
    requires Wf(s) && SearchOk(q) && GapsFree(s, gap) && Walk(s, q, minPage, gap) == Beyond
    ensures RoomBelowZero(s, Padded(q), Low(q, minPage), q.high, gap)
  {
    var j := BeyondMeans(s, |s|, Padded(q), Low(q, minPage), q.high, gap);
    NothingUnderGap(s, j, gap);
    assert AreaOk(s[0]);
  }

  // ---------------------------------------------------------------------
  // The rounds of the search
  // ---------------------------------------------------------------------

  /** c is the highest unoccupied range between the limits. */
  ghost predicate Topmost(s: seq<Area>, n: int, low: int, high: int, c: Option<nat>) {
    && (c.Some? ==> low <= c.value && c.value + n <= high && Unoccupied(s, c.value, n))
    && forall d: int :: low <= d && d + n <= high && Unoccupied(s, d, n) ==> c.Some? && d <= c.value
  }

  /** The holes above the highest unoccupied range have no room, under the limit it
      was found with or a lower one. */
  lemma {:induction false} DescendSkips(s: seq<Area>, i: nat, j: nat, n: nat, low: nat, high: int, limit: int, gap: nat,
                                        c: Option<nat>)
    requires Wf(s) && j <= i <= |s| && 0 < n && 0 <= limit <= high && Topmost(s, n, low, high, c)
    requires c.Some? ==> First(s, c.value) <= j
    ensures Descend(s, i, n, low, limit, gap) == Descend(s, j, n, low, limit, gap)
  {
    if j < i {
      NoRoomAt(s, i, n, low, high, c);
      ClearBelowCeiling(s, i, limit, gap);
      DescendSkips(s, i - 1, j, n, low, high, limit, gap, c);
    }
  }

  lemma ClearBelowCeiling(s: seq<Area>, i: nat, high: int, gap: nat)
    requires Wf(s) && i <= |s|
    ensures ClearTop(s, i, high, gap) <= Ceiling(s, i, high)
  {
    if i < |s| { assert AreaOk(s[i]); }
  }

  lemma NoRoomAt(s: seq<Area>, i: nat, n: nat, low: nat, high: int, c: Option<nat>)
    requires Wf(s) && i <= |s| && 0 < n && Topmost(s, n, low, high, c)
    requires c.Some? ==> First(s, c.value) < i
    ensures Floor(s, i, low) + n > Ceiling(s, i, high)
  {
    var d := Floor(s, i, low);
    if d + n <= Ceiling(s, i, high) {
      InHole(s, i, d, n, low);
      if c.Some? { BelowHole(s, i, c.value, low); }
      assert Unoccupied(s, d, n);
      assert false;
    }
  }

  /** The hole the highest unoccupied range is in ends with it. */
  lemma TopmostHole(s: seq<Area>, c: nat, n: nat, low: nat, high: int)
    requires Wf(s) && 0 < n && Topmost(s, n, low, high, Some(c))
    ensures Floor(s, First(s, c), low) <= c == Ceiling(s, First(s, c), high) - n
  {
    var i := First(s, c);
    var d := Ceiling(s, i, high) - n;
    assert i > 0 ==> s[i - 1].end <= c;
    InHole(s, i, d, n, low);
    assert Unoccupied(s, d, n);
  }

  /** A round that finds nothing, one that finds a clear range, and one that has to
      go on below the guard gap of the next VMA. */
  lemma RoundMissing(s: seq<Area>, n: nat, low: nat, high: int, gap: nat)
    requires Wf(s) && 0 < n && 0 <= high && Topmost(s, n, low, high, None)
    ensures Descend(s, |s|, n, low, high, gap) == Missing
  {
    DescendSkips(s, |s|, 0, n, low, high, high, gap, None);
    NoRoomAt(s, 0, n, low, high, None);
    ClearBelowCeiling(s, 0, high, gap);
  }

  lemma RoundSpot(s: seq<Area>, c: nat, n: nat, low: nat, high: int, gap: nat)
    requires Wf(s) && 0 < n && Topmost(s, n, low, high, Some(c)) && Clear(s, c, n, gap)
    ensures Descend(s, |s|, n, low, high, gap) == Spot(c)
  {
    hide Topmost; hide Wf;
    TopmostHole(s, c, n, low, high);
    DescendSkips(s, |s|, First(s, c), n, low, high, high, gap, Some(c));
    ClearBelowCeiling(s, First(s, c), high, gap);
  }

  lemma RoundRetry(s: seq<Area>, c: nat, n: nat, low: nat, high: int, gap: nat)
    requires Wf(s) && 0 < n && Topmost(s, n, low, high, Some(c)) && !Clear(s, c, n, gap)
    ensures var limit := StartGap(s[First(s, c)], gap);
      && 0 <= limit < c + n
      && Descend(s, |s|, n, low, high, gap) == if limit == 0 then Beyond else Descend(s, |s|, n, low, limit, gap)
  {
    var i := First(s, c);
    var limit := StartGap(s[i], gap);
    assert AreaOk(s[i]);
    TopmostHole(s, c, n, low, high);
    DescendSkips(s, |s|, i, n, low, high, high, gap, Some(c));
    if limit > 0 {
      RetriedSame(s, i, n, low, high, gap, limit);
      DescendSkips(s, |s|, i, n, low, high, limit, gap, Some(c));
    }
  }

  lemma RetriedSame(s: seq<Area>, i: nat, n: nat, low: nat, high: int, gap: nat, limit: int)
    requires Wf(s) && i < |s| && 0 < n && limit == StartGap(s[i], gap) && 0 < limit < Ceiling(s, i, high)
    requires Floor(s, i, low) + n <= Ceiling(s, i, high)
    ensures Descend(s, i, n, low, high, gap) == Descend(s, i, n, low, limit, gap)
  {
    assert AreaOk(s[i]);
  }

  // ---------------------------------------------------------------------
  // The search from below
  // ---------------------------------------------------------------------

  /** The first address from c on that meets the offset. */
  function SettleUp(q: Search, c: int): int
    requires SearchOk(q)
  {
    c + (q.offset - c) % q.align
  }

  /** The address y is not in the guard gap of area i. */
  predicate Passes(s: seq<Area>, i: nat, y: int, gap: nat) {
    i < |s| && s[i].attr.flags.growsDown ==> y <= StartGap(s[i], gap)
  }

  /** The reference for the search from below: the first hole that has room, with the
      padding for the alignment both before and after the address is settled. */
  function Climb(s: seq<Area>, i: nat, q: Search, low: nat, gap: nat): Option<int>
    requires SearchOk(q) && i <= |s|
    decreases |s| - i
  {
    var n, c := Padded(q), Floor(s, i, low);
    if c + n <= Ceiling(s, i, q.high) && Passes(s, i, SettleUp(q, c) + n, gap) then Some(SettleUp(q, c))
    else if i == |s| then None
    else Climb(s, i + 1, q, low, gap)
  }

  /** c is the lowest unoccupied range between the limits. */
  ghost predicate Bottommost(s: seq<Area>, n: int, low: int, high: int, c: Option<nat>) {
    && (c.Some? ==> low <= c.value && c.value + n <= high && Unoccupied(s, c.value, n))
    && forall d: int :: low <= d && d + n <= high && Unoccupied(s, d, n) ==> c.Some? && c.value <= d
  }

  lemma FloorRises(s: seq<Area>, k: nat, j: nat, low: nat)
    requires Wf(s) && k <= j <= |s|
    ensures Floor(s, k, low) <= Floor(s, j, low)
  {
    if 0 < k < j { assert Before(s[k - 1], s[j - 1]) && AreaOk(s[j - 1]); }
  }

  /** The holes below the lowest unoccupied range have no room. */
  lemma {:induction false} ClimbSkips(s: seq<Area>, k: nat, j: nat, q: Search, low: nat, gap: nat, c: Option<nat>)
    requires Wf(s) && SearchOk(q) && k <= j <= |s| && (c.Some? ==> j <= First(s, c.value))
    requires Bottommost(s, Padded(q), Floor(s, k, low), q.high, c)
    ensures Climb(s, k, q, low, gap) == Climb(s, j, q, low, gap)
    decreases j
  {
    hide Wf; hide First; hide Bottommost; hide Floor; hide Ceiling; hide SettleUp; hide Passes;
    if k < j {
      ClimbSkips(s, k, j - 1, q, low, gap, c);
      NoRoomBelow(s, k, j - 1, Padded(q), low, q.high, c);
    }
  }

  lemma NoRoomBelow(s: seq<Area>, k: nat, j: nat, n: nat, low: nat, high: int, c: Option<nat>)
    requires Wf(s) && k <= j <= |s| && 0 < n && (c.Some? ==> j < First(s, c.value))
    requires Bottommost(s, n, Floor(s, k, low), high, c)
    ensures Floor(s, j, low) + n > Ceiling(s, j, high)
  {
    var d := Floor(s, j, low);
    FloorRises(s, k, j, low);
    if d + n <= Ceiling(s, j, high) {
      InHole(s, j, d, n, low);
      assert Unoccupied(s, d, n);
      assert false;
    }
  }

  /** A round of the search from below. */
  lemma ClimbRound(s: seq<Area>, k: nat, q: Search, low: nat, gap: nat, c: nat)
    requires Wf(s) && SearchOk(q) && k <= |s| && Bottommost(s, Padded(q), Floor(s, k, low), q.high, Some(c))
    ensures var i, g := First(s, c), SettleUp(q, c);
      && k <= i && (i < |s| ==> Floor(s, i + 1, low) == s[i].end)
      && (Passes(s, i, g + Padded(q), gap) ==> Climb(s, k, q, low, gap) == Some(g))
      && (!Passes(s, i, g + Padded(q), gap) ==> i < |s| && Climb(s, k, q, low, gap) == Climb(s, i + 1, q, low, gap))
  {
    var i := First(s, c);
    assert k > 0 ==> s[k - 1].end <= c;
    FirstBeyond(s, k, c);
    BottommostHole(s, k, c, Padded(q), low, q.high);
    hide First; hide Wf; hide Bottommost; hide SettleUp;
    ClimbSkips(s, k, i, q, low, gap, Some(c));
  }

  lemma FirstBeyond(s: seq<Area>, k: nat, c: int)
    requires Wf(s) && k <= |s| && (k > 0 ==> s[k - 1].end <= c)
    ensures k <= First(s, c)
  {
    forall j | 0 <= j < k ensures s[j].end <= c {
      if j < k - 1 { assert Before(s[j], s[k - 1]) && AreaOk(s[k - 1]); }
    }
  }

  /** The lowest unoccupied range begins the hole it is in. */
  lemma BottommostHole(s: seq<Area>, k: nat, c: nat, n: nat, low: nat, high: int)
    requires Wf(s) && 0 < n && k <= First(s, c) && Bottommost(s, n, Floor(s, k, low), high, Some(c))
    ensures Floor(s, First(s, c), low) == c && c + n <= Ceiling(s, First(s, c), high)
  {
    var i := First(s, c);
    var d := Floor(s, i, low);
    FloorRises(s, k, i, low);
    assert i > 0 ==> s[i - 1].end <= c;
    InHole(s, i, d, n, low);
    assert Unoccupied(s, d, n);
  }

  lemma ClimbMissing(s: seq<Area>, k: nat, q: Search, low: nat, gap: nat)
    requires Wf(s) && SearchOk(q) && k <= |s| && Bottommost(s, Padded(q), Floor(s, k, low), q.high, None)
    ensures Climb(s, k, q, low, gap) == None
  {
    ClimbSkips(s, k, |s|, q, low, gap, None);
    NoRoomBelow(s, k, |s|, Padded(q), low, q.high, None);
  }

  lemma SettledUp(q: Search, c: int)
    requires SearchOk(q)
    ensures c <= SettleUp(q, c) < c + q.align && Congruent(q, SettleUp(q, c))
  {
    AlignUp(q, c);
  }

  /** What the walk up finds suits the search. */
  lemma {:induction false} ClimbSuits(s: seq<Area>, i: nat, q: Search, minPage: nat, gap: nat)
    requires Wf(s) && SearchOk(q) && i <= |s|
    ensures var r := Climb(s, i, q, Low(q, minPage), gap); r.Some? ==> Suits(s, q, minPage, gap, r.value)
    decreases |s| - i
  {
    hide Wf; hide First; hide Suits; hide Congruent; hide SettleUp;
    var n, c := Padded(q), Floor(s, i, Low(q, minPage));
    if c + n <= Ceiling(s, i, q.high) && Passes(s, i, SettleUp(q, c) + n, gap) {
      InHole(s, i, c, n, Low(q, minPage));
      SettledUp(q, c);
      SuitsAbove(s, q, minPage, gap, c, SettleUp(q, c));
    } else if i < |s| {
      ClimbSuits(s, i + 1, q, minPage, gap);
    }
  }

  lemma {:induction false} ClimbReaches(s: seq<Area>, i: nat, q: Search, minPage: nat, gap: nat, d: int)
    requires Wf(s) && SearchOk(q) && i <= First(s, d) && Roomy(s, q, minPage, gap, 2 * (q.align - 1), d)
    ensures var r := Climb(s, i, q, Low(q, minPage), gap); r.Some? && r.value < d + q.align
    decreases |s| - i
  {
    var f, low := First(s, d), Low(q, minPage);
    FloorRises(s, i, f, low);
    assert f > 0 ==> s[f - 1].end <= d;
    if f < |s| { assert AreaOk(s[f]); }
    hide Wf; hide First; hide SettleUp; hide Congruent;
    SettledUp(q, Floor(s, i, low));
    if i < f { ClimbReaches(s, i + 1, q, minPage, gap, d); }
  }

  /** It is below every range that has twice the alignment to spare, up to the
      alignment; without one it is the lowest place there is, and finding nothing
      means that there is none. */
  lemma ClimbLowest(s: seq<Area>, q: Search, minPage: nat, gap: nat)
    requires Wf(s) && SearchOk(q)
    ensures Lowest(s, q, minPage, gap, 2 * (q.align - 1), q.align - 1, Climb(s, 0, q, Low(q, minPage), gap))
  {
    var extra := 2 * (q.align - 1);
    forall d: int | Roomy(s, q, minPage, gap, extra, d)
      ensures var r := Climb(s, 0, q, Low(q, minPage), gap); r.Some? && r.value < d + q.align
    {
      ClimbReaches(s, 0, q, minPage, gap, d);
    }
  }

  // ---------------------------------------------------------------------
  // What the searches promise, of the areas alone
  // ---------------------------------------------------------------------

  /** The first area that ends above page p begins n pages above p, and if it may
      grow down by a guard gap more. */
  ghost predicate Untouched(s: seq<Area>, p: int, n: int, gap: nat) {
    forall i {:trigger s[i]} :: 0 <= i < |s| && p < s[i].end && (i > 0 ==> s[i - 1].end <= p) ==>
      p + n <= s[i].start && (s[i].attr.flags.growsDown ==> p + n + gap <= s[i].start)
  }

  lemma UntouchedIs(s: seq<Area>, p: int, n: int, gap: nat)
    requires Wf(s)
    ensures Untouched(s, p, n, gap) <==> Clear(s, p, n, gap)
  {
    hide Wf; hide First;
    var f := First(s, p);
    forall i | 0 <= i < |s| && p < s[i].end && (i > 0 ==> s[i - 1].end <= p) ensures i == f { FirstIs(s, i, p); }
    if f < |s| { assert p < s[f].end && (f > 0 ==> s[f - 1].end <= p); }
  }

  /** There is an answer, less than `slack` above any untouched range of `room` pages
      within the limits; or no less than any such range, or any that is free of gaps. */
  ghost predicate NotAbove(s: seq<Area>, q: Search, minPage: nat, gap: nat, room: int, slack: int, r: Option<int>) {
    forall d: int :: q.low <= d && minPage <= d && d + room <= q.high && Untouched(s, d, room, gap) ==>
      r.Some? && r.value < d + slack
  }

  ghost predicate NotBelow(s: seq<Area>, q: Search, minPage: nat, gap: nat, room: int, r: Option<int>) {
    forall d: int :: q.low <= d && minPage <= d && d + room <= q.high && Untouched(s, d, room, gap) ==>
      r.Some? && d <= r.value <= TASK_PAGES
  }

  ghost predicate NotBelowFree(s: seq<Area>, q: Search, minPage: nat, gap: nat, room: int, r: Option<int>) {
    forall d: int :: q.low <= d && minPage <= d && d + room <= q.high && GapFree(s, d, room, gap) ==>
      r.Some? && d <= r.value <= TASK_PAGES
  }

  /** The answer of the search from below is within the limits, meets the offset and
      is untouched; it is at most the alignment above any range that is untouched with
      twice the alignment to spare, and there is an answer if there is such a range. */
  ghost predicate FoundUp(s: seq<Area>, q: Search, minPage: nat, gap: nat, r: Option<int>)
    requires SearchOk(q)
  {
    && (r.Some? ==>
         && q.low <= r.value && minPage <= r.value && r.value + q.length <= q.high
         && r.value % q.align == q.offset % q.align && Untouched(s, r.value, q.length, gap))
    && NotAbove(s, q, minPage, gap, q.length + 2 * (q.align - 1), q.align, r)
  }

  lemma ClimbFound(s: seq<Area>, q: Search, minPage: nat, gap: nat)
    requires Wf(s) && SearchOk(q)
    ensures FoundUp(s, q, minPage, gap, Climb(s, 0, q, Low(q, minPage), gap))
  {
    hide Wf; hide Climb; hide Untouched; hide Clear;
    var r, room := Climb(s, 0, q, Low(q, minPage), gap), q.length + 2 * (q.align - 1);
    ClimbSuits(s, 0, q, minPage, gap);
    ClimbLowest(s, q, minPage, gap);
    if r.Some? { UntouchedIs(s, r.value, q.length, gap); }
    forall d: int | q.low <= d && minPage <= d && d + room <= q.high && Untouched(s, d, room, gap)
      ensures r.Some? && r.value < d + q.align
    {
      UntouchedIs(s, d, room, gap);
      assert Roomy(s, q, minPage, gap, 2 * (q.align - 1), d);
    }
  }

  /** The answer of the search from above meets the offset. In user space it is within
      the limits and untouched; beyond it, it comes of a stack that begins within a
      guard gap of address 0. It is no less than any range that all areas above leave
      free, and where no area is in the guard gap of another, no less than any range
      that is untouched, each with the alignment to spare; there, an answer beyond user
      space means that the lowest area is such a stack with room below it, and no
      answer that it is not. */
  ghost predicate FoundDown(s: seq<Area>, q: Search, minPage: nat, gap: nat, r: Option<int>)
    requires SearchOk(q)
  {
    var room, zero := q.length + (q.align - 1), RoomBelowZero(s, Padded(q), Low(q, minPage), q.high, gap);
    && (r.Some? ==> r.value % q.align == q.offset % q.align)
    && (r.Some? && r.value <= TASK_PAGES ==>
         && q.low <= r.value && minPage <= r.value && r.value + q.length <= q.high
         && Untouched(s, r.value, q.length, gap))
    && (r.Some? && r.value > TASK_PAGES ==> exists i :: 0 <= i < |s| && s[i].attr.flags.growsDown && s[i].start <= gap)
    && NotBelowFree(s, q, minPage, gap, room, r)
    && (GapsFree(s, gap) ==>
         && NotBelow(s, q, minPage, gap, room, r)
         && (r == None ==> !zero) && (r.Some? && r.value > TASK_PAGES ==> zero))
  }

  /** The answer that goes with what the walk finds; when the upper limit has come
      down to 0, the limit minus one wraps and the topmost pages of the 64-bit space
      are found. */
  function AnswerOf(q: Search, w: Found): Option<int>
    requires SearchOk(q)
  {
    match w
    case Missing => None
    case Spot(c) => Some(Settle(q, c))
    case Beyond => Some(Settle(q, U64_PAGES - Padded(q)))
  }

  lemma WalkFound(s: seq<Area>, q: Search, minPage: nat, gap: nat)
    requires Wf(s) && SearchOk(q)
    ensures FoundDown(s, q, minPage, gap, AnswerOf(q, Walk(s, q, minPage, gap)))
  {
    hide Wf; hide Walk; hide Untouched; hide Clear; hide GapFree; hide GapsFree; hide RoomBelowZero; hide NotBelow;
    hide NotBelowFree;
    var w, room := Walk(s, q, minPage, gap), q.length + (q.align - 1);
    var r := AnswerOf(q, w);
    WalkSuits(s, q, minPage, gap);
    if w.Spot? {
      Settled(q, w.c);
      UntouchedIs(s, r.value, q.length, gap);
    }
    if w.Beyond? { BeyondAnswer(s, q, minPage, gap); }
    FreeFound(s, q, minPage, gap);
    if GapsFree(s, gap) { ExactFound(s, q, minPage, gap); }
  }

  lemma SpotAnswer(s: seq<Area>, q: Search, minPage: nat, gap: nat)
    requires Wf(s) && SearchOk(q)
    ensures var w := Walk(s, q, minPage, gap); w.Spot? ==> w.c <= Settle(q, w.c) <= TASK_PAGES
  {
    WalkSuits(s, q, minPage, gap);
    var w := Walk(s, q, minPage, gap);
    if w.Spot? { Settled(q, w.c); }
  }

  lemma FreeFound(s: seq<Area>, q: Search, minPage: nat, gap: nat)
    requires Wf(s) && SearchOk(q)
    ensures NotBelowFree(s, q, minPage, gap, q.length + (q.align - 1), AnswerOf(q, Walk(s, q, minPage, gap)))
  {
    hide Wf; hide Walk; hide GapFree; hide Settle;
    var w, room := Walk(s, q, minPage, gap), Padded(q);
    SpotAnswer(s, q, minPage, gap);
    forall d: int | q.low <= d && minPage <= d && d + room <= q.high && GapFree(s, d, room, gap)
      ensures w.Spot? && d <= w.c
    {
      WalkReaches(s, q, minPage, gap, d);
    }
  }

  lemma ExactFound(s: seq<Area>, q: Search, minPage: nat, gap: nat)
    requires Wf(s) && SearchOk(q) && GapsFree(s, gap)
    ensures var w, room := Walk(s, q, minPage, gap), q.length + (q.align - 1);
      && (w.Missing? ==> !RoomBelowZero(s, Padded(q), Low(q, minPage), q.high, gap))
      && (w.Beyond? ==> RoomBelowZero(s, Padded(q), Low(q, minPage), q.high, gap))
      && NotBelow(s, q, minPage, gap, room, AnswerOf(q, w))
  {
    hide Wf; hide Walk; hide Untouched; hide Clear; hide GapsFree; hide RoomBelowZero;
    var w, room := Walk(s, q, minPage, gap), Padded(q);
    WalkExact(s, q, minPage, gap);
    SpotAnswer(s, q, minPage, gap);
    forall d: int | q.low <= d && minPage <= d && d + room <= q.high && Untouched(s, d, room, gap)
      ensures w.Spot? && d <= w.c
    {
      UntouchedIs(s, d, room, gap);
      assert Roomy(s, q, minPage, gap, q.align - 1, d);
    }
  }

  lemma BeyondAnswer(s: seq<Area>, q: Search, minPage: nat, gap: nat)
    requires Wf(s) && SearchOk(q) && Walk(s, q, minPage, gap) == Beyond
    ensures TASK_PAGES < Settle(q, U64_PAGES - Padded(q)) && Congruent(q, Settle(q, U64_PAGES - Padded(q)))
    ensures exists i :: 0 <= i < |s| && s[i].attr.flags.growsDown && s[i].start <= gap
  {
    var j := BeyondMeans(s, |s|, Padded(q), Low(q, minPage), q.high, gap);
    Settled(q, U64_PAGES - Padded(q));
  }
}
