/** The abstract address space: a sorted list of areas, the page map it stands
    for, and the page sums the counters are compared with. */
module AreaList {
  import opened VmTypes

  ghost predicate AreaOk(a: Area) {
    && 0 <= a.start < a.end <= TASK_PAGES
    && 0 <= a.pgoff && a.pgoff + (a.end - a.start) < U64
    && (a.anon == null ==> a.chain == [])
  }

  predicate Before(a: Area, b: Area) { a.end <= b.start }

  /** Sorted, disjoint, well-formed areas. */
  ghost predicate Wf(s: seq<Area>) {
    && (forall i :: 0 <= i < |s| ==> AreaOk(s[i]))
    && (forall i, j :: 0 <= i < j < |s| ==> Before(s[i], s[j]))
  }

  predicate In(a: Area, x: int) { a.start <= x < a.end }

  /** `vm_start_gap`: where the guard gap below a VMA begins. */
  function StartGap(a: Area, gap: nat): int {
    if !a.attr.flags.growsDown then a.start else if gap > a.start then 0 else a.start - gap
  }

  // ---------------------------------------------------------------------
  // The page map
  // ---------------------------------------------------------------------

  /** What a page is mapped to: its attributes, with the flags taken up to
      VM_SOFTDIRTY, its page offset in the backing object, and its anonymous
      backing. */
  datatype Page = Page(attr: Attr, offset: int, anon: AnonVma?)

  function PageOf(a: Area, x: int): Page {
    Page(CleanAttr(a.attr), a.pgoff + (x - a.start), a.anon)
  }

  function PageAt(s: seq<Area>, x: int): Option<Page> {
    if s == [] then None
    else if In(s[0], x) then Some(PageOf(s[0], x))
    else PageAt(s[1..], x)
  }

  /** Two areas say the same of a page they both contain, but for VM_SOFTDIRTY and
      the backing. Every field is named here, whatever a page map compares. */
  predicate Agree(a: Attr, b: Attr) {
    && a.file == b.file && a.policy == b.policy && a.uffd == b.uffd && a.name == b.name
    && a.flags.read == b.flags.read && a.flags.write == b.flags.write && a.flags.exec == b.flags.exec
    && a.flags.shared == b.flags.shared && a.flags.locked == b.flags.locked && a.flags.account == b.flags.account
    && a.flags.noReserve == b.flags.noReserve && a.flags.growsDown == b.flags.growsDown
    && a.flags.special == b.flags.special && a.flags.hugetlb == b.flags.hugetlb && a.flags.other == b.flags.other
  }

  predicate AgreeOn(a: Area, b: Area) { Agree(a.attr, b.attr) && a.pgoff - a.start == b.pgoff - b.start }

  /** The areas t lay the request over the areas s: an area of t says of the pages of
      the request what it says, and of every other page what the area of s that
      contained it said; no page is lost and none is gained but those requested. */
  ghost predicate LaidOver(s: seq<Area>, t: seq<Area>, req: Area) {
    && (forall j, x: int :: 0 <= j < |t| && In(t[j], x) && In(req, x) ==> AgreeOn(t[j], req))
    && (forall j, x: int :: 0 <= j < |t| && In(t[j], x) && !In(req, x) ==>
          exists i :: 0 <= i < |s| && In(s[i], x) && AgreeOn(t[j], s[i]))
    && (forall x: int :: In(req, x) ==> exists j :: 0 <= j < |t| && In(t[j], x))
    && (forall i, x: int :: 0 <= i < |s| && In(s[i], x) ==> exists j :: 0 <= j < |t| && In(t[j], x))
  }

  /** A page whose area had anonymous backing is in an area with that backing. */
  ghost predicate BackingSurvives(s: seq<Area>, t: seq<Area>) {
    forall i, j, x: int :: 0 <= i < |s| && 0 <= j < |t| && In(s[i], x) && In(t[j], x) && s[i].anon != null ==>
      t[j].anon == s[i].anon
  }

  /** The same attributes and offset, whatever the anonymous backing. */
  predicate SameMapping(p: Option<Page>, q: Option<Page>) {
    (p.None? && q.None?) || (p.Some? && q.Some? && p.value.(anon := null) == q.value.(anon := null))
  }

  /** Anonymous backing is neither lost nor exchanged from p to q. */
  predicate AnonKept(p: Option<Page>, q: Option<Page>) {
    p.Some? && p.value.anon != null ==> q.Some? && q.value.anon == p.value.anon
  }

  ghost predicate SamePages(s: seq<Area>, t: seq<Area>) {
    forall x: int :: PageAt(s, x) == PageAt(t, x)
  }

  lemma PageAtIn(s: seq<Area>, k: nat, x: int)
    requires Wf(s) && k < |s| && In(s[k], x)
    ensures PageAt(s, x) == Some(PageOf(s[k], x))
  {
    if k > 0 {
      assert s[0].end <= s[k].start;
      PageAtIn(s[1..], k - 1, x);
    }
  }

  lemma PageAtSome(s: seq<Area>, x: int) returns (k: nat)
    requires PageAt(s, x).Some?
    ensures k < |s| && In(s[k], x) && PageAt(s, x) == Some(PageOf(s[k], x))
  {
    if In(s[0], x) { k := 0; } else { k := PageAtSome(s[1..], x); k := k + 1; }
  }

  lemma {:induction false} PageAtConcat(s: seq<Area>, t: seq<Area>, x: int)
    ensures PageAt(s + t, x) == if PageAt(s, x).Some? then PageAt(s, x) else PageAt(t, x)
  {
    if s == [] {
      assert s + t == t;
    } else {
      assert (s + t)[1..] == s[1..] + t;
      PageAtConcat(s[1..], t, x);
    }
  }

  lemma PageAtOutside(s: seq<Area>, a: int)
    requires forall k :: 0 <= k < |s| ==> !In(s[k], a)
    ensures PageAt(s, a) == None
  {}

  /** In a sorted list the middle window may be consulted first. */
  lemma PageAtWindow(s: seq<Area>, m: seq<Area>, t: seq<Area>, x: int)
    requires Wf(s + m + t)
    ensures PageAt(s + m + t, x) ==
      if PageAt(m, x).Some? then PageAt(m, x)
      else if PageAt(s, x).Some? then PageAt(s, x) else PageAt(t, x)
    ensures PageAt(m, x).Some? ==> PageAt(s, x).None? && PageAt(t, x).None?
  {
    PageAtConcat(s + m, t, x);
    PageAtConcat(s, m, x);
    if PageAt(m, x).Some? {
      var w := s + m + t;
      var j := PageAtSome(m, x);
      assert w[|s| + j] == m[j];
      forall i | 0 <= i < |s| ensures !In(s[i], x) { assert w[i] == s[i]; }
      forall i | 0 <= i < |t| ensures !In(t[i], x) { assert w[|s| + |m| + i] == t[i]; }
      PageAtOutside(s, x);
      PageAtOutside(t, x);
    }
  }

  lemma CleanAgree(a: Attr, b: Attr)
    ensures CleanAttr(a) == CleanAttr(b) <==> Agree(a, b)
  {}

  /** What the page maps have to do with each other for one list to lay a request
      over another. */
  lemma LaidOverIs(s: seq<Area>, t: seq<Area>, req: Area)
    requires Wf(s) && Wf(t)
    requires forall x: int :: SameMapping(PageAt(t, x), if In(req, x) then Some(PageOf(req, x)) else PageAt(s, x))
    ensures LaidOver(s, t, req)
  {
    hide Wf; hide Agree; hide SameMapping; hide PageAt; hide In;
    forall j, x: int | 0 <= j < |t| && In(t[j], x)
      ensures if In(req, x) then AgreeOn(t[j], req) else exists i :: 0 <= i < |s| && In(s[i], x) && AgreeOn(t[j], s[i])
    {
      PageAtIn(t, j, x);
      if In(req, x) {
        SameMeansAgree(t[j], req, x);
      } else {
        SameIsSome(PageAt(t, x), PageAt(s, x));
        var i := PageAtSome(s, x);
        SameMeansAgree(t[j], s[i], x);
      }
    }
    forall x: int | In(req, x) ensures exists j :: 0 <= j < |t| && In(t[j], x) {
      SameIsSome(PageAt(t, x), Some(PageOf(req, x)));
      var j := PageAtSome(t, x);
    }
    forall i, x: int | 0 <= i < |s| && In(s[i], x) ensures exists j :: 0 <= j < |t| && In(t[j], x) {
      PageAtIn(s, i, x);
      SameIsSome(PageAt(t, x), if In(req, x) then Some(PageOf(req, x)) else PageAt(s, x));
      var j := PageAtSome(t, x);
    }
  }

  lemma SameIsSome(p: Option<Page>, q: Option<Page>)
    requires SameMapping(p, q)
    ensures p.Some? <==> q.Some?
  {}

  lemma SameMeansAgree(a: Area, b: Area, x: int)
    requires SameMapping(Some(PageOf(a, x)), Some(PageOf(b, x)))
    ensures AgreeOn(a, b)
  {
    CleanAgree(a.attr, b.attr);
  }

  lemma BackingSurvivesIs(s: seq<Area>, t: seq<Area>)
    requires Wf(s) && Wf(t) && forall x: int :: AnonKept(PageAt(s, x), PageAt(t, x))
    ensures BackingSurvives(s, t)
  {
    hide Wf; hide PageAt; hide In; hide CleanAttr;
    forall i, j, x: int | 0 <= i < |s| && 0 <= j < |t| && In(s[i], x) && In(t[j], x) && s[i].anon != null
      ensures t[j].anon == s[i].anon
    {
      PageAtIn(s, i, x);
      PageAtIn(t, j, x);
    }
  }

  lemma WfConcat(s: seq<Area>, t: seq<Area>)
    requires Wf(s) && Wf(t)
    requires s != [] && t != [] ==> s[|s| - 1].end <= t[0].start
    ensures Wf(s + t)
  {
    var w := s + t;
    forall i, j | 0 <= i < j < |w| ensures Before(w[i], w[j]) {
      if i < |s| <= j {
        assert AreaOk(s[|s| - 1]) && AreaOk(t[0]);
        assert s[i].end <= s[|s| - 1].end && t[0].start <= t[j - |s|].start;
      }
    }
  }

  lemma WfParts(s: seq<Area>, t: seq<Area>)
    requires Wf(s + t)
    ensures Wf(s) && Wf(t)
  {
    var w := s + t;
    assert forall i :: 0 <= i < |s| ==> s[i] == w[i];
    assert forall i :: 0 <= i < |t| ==> t[i] == w[|s| + i];
  }

  // ---------------------------------------------------------------------
  // Cutting at an address
  // ---------------------------------------------------------------------

  /** The two parts of an area that x falls inside; the upper part keeps the
      file offset of each of its pages. */
  function Lower(a: Area, x: int): Area { a.(end := x) }
  function Upper(a: Area, x: int): Area { a.(start := x, pgoff := a.pgoff + (x - a.start)) }

  /** The index of the first area that ends above x. */
  function First(s: seq<Area>, x: int): (r: nat)
    ensures r <= |s|
    ensures forall k :: 0 <= k < r ==> s[k].end <= x
    ensures r < |s| ==> x < s[r].end
  {
    if s == [] || x < s[0].end then 0 else 1 + First(s[1..], x)
  }

  lemma FirstIs(s: seq<Area>, i: nat, x: int)
    requires Wf(s) && i <= |s|
    requires i > 0 ==> s[i - 1].end <= x
    requires i < |s| ==> x < s[i].end
    ensures First(s, x) == i
  {}

  /** The areas, and parts of areas, below x and from x on. */
  function Head(s: seq<Area>, x: int): seq<Area> {
    var i := First(s, x);
    if i < |s| && s[i].start < x then s[..i] + [Lower(s[i], x)] else s[..i]
  }

  function Tail(s: seq<Area>, x: int): seq<Area> {
    var i := First(s, x);
    if i < |s| && s[i].start < x then [Upper(s[i], x)] + s[i + 1..] else s[i..]
  }

  /** The list with a boundary at x, and the list with [x, y) removed. */
  function SplitAt(s: seq<Area>, x: int): seq<Area> { Cut(s, x, x) }
  function Cut(s: seq<Area>, x: int, y: int): seq<Area> { Head(s, x) + Tail(s, y) }

  /** Cutting inside area i, and cutting between areas i - 1 and i. */
  lemma CutInside(s: seq<Area>, i: nat, x: int)
    requires Wf(s) && i < |s| && s[i].start < x < s[i].end
    ensures Head(s, x) == s[..i] + [Lower(s[i], x)]
    ensures Tail(s, x) == [Upper(s[i], x)] + s[i + 1..]
  {
    FirstIs(s, i, x);
  }

  lemma CutBetween(s: seq<Area>, i: nat, x: int)
    requires Wf(s) && i <= |s|
    requires i > 0 ==> s[i - 1].end <= x
    requires i < |s| ==> x <= s[i].start
    ensures Head(s, x) == s[..i] && Tail(s, x) == s[i..]
  {
    assert i < |s| ==> AreaOk(s[i]);
    FirstIs(s, i, x);
  }

  /** Where there is a boundary, or no area, a split changes nothing. */
  lemma SplitBetween(s: seq<Area>, i: nat, x: int)
    requires Wf(s) && i <= |s|
    requires i > 0 ==> s[i - 1].end <= x
    requires i < |s| ==> x <= s[i].start
    ensures SplitAt(s, x) == s
  {
    CutBetween(s, i, x);
  }

  lemma HeadOk(s: seq<Area>, x: int)
    requires Wf(s)
    ensures Wf(Head(s, x)) && (forall k :: 0 <= k < |Head(s, x)| ==> Head(s, x)[k].end <= x)
  {
    var h, i := Head(s, x), First(s, x);
    assert |h| <= i + 1 && forall k :: 0 <= k < i ==> h[k] == s[k];
    assert |h| == i + 1 ==> h[i] == Lower(s[i], x);
  }

  lemma TailOk(s: seq<Area>, x: int)
    requires Wf(s)
    ensures Wf(Tail(s, x)) && (forall k :: 0 <= k < |Tail(s, x)| ==> x <= Tail(s, x)[k].start)
  {
    var t, i := Tail(s, x), First(s, x);
    hide First;
    assert |t| == |s| - i && forall k :: 1 <= k < |t| ==> t[k] == s[i + k];
    assert |t| > 0 ==> t[0] == s[i] || t[0] == Upper(s[i], x);
  }

  lemma CutOk(s: seq<Area>, x: int, y: int)
    requires Wf(s) && x <= y
    ensures Wf(Cut(s, x, y))
  {
    HeadOk(s, x);
    TailOk(s, y);
  }

  /** Cutting a list is cutting the one area x falls inside, if any. */
  lemma CutParts(s: seq<Area>, x: int) returns (p: seq<Area>, m: seq<Area>, q: seq<Area>)
    requires Wf(s)
    ensures s == p + m + q && |m| <= 1 && (m != [] ==> m[0].start < x < m[0].end)
    ensures Head(s, x) == if m == [] then p else p + [Lower(m[0], x)]
    ensures Tail(s, x) == if m == [] then q else [Upper(m[0], x)] + q
    ensures forall k :: 0 <= k < |p| ==> p[k].end <= x
    ensures forall k :: 0 <= k < |q| ==> x <= q[k].start
  {
    var i := First(s, x);
    hide First; hide AreaOk;
    var j := if i < |s| && s[i].start < x then i + 1 else i;
    p, m, q := s[..i], s[i..j], s[j..];
    forall k | 0 <= k < |q| ensures x <= q[k].start {
      assert q[k] == s[j + k];
      if j + k > i { assert s[i].end <= s[j + k].start; }
    }
  }

  lemma HeadPages(s: seq<Area>, x: int, a: int)
    requires Wf(s)
    ensures PageAt(Head(s, x), a) == if a < x then PageAt(s, a) else None
    ensures PageAt(Tail(s, x), a) == if x <= a then PageAt(s, a) else None
  {
    hide Head; hide Tail; hide Wf;
    var p, m, q := CutParts(s, x);
    if a < x { PageAtOutside(q, a); } else { PageAtOutside(p, a); }
    PageAtConcat(p + m, q, a);
    PageAtConcat(p, m, a);
    if m != [] {
      PageAtConcat(p, [Lower(m[0], x)], a);
      PageAtConcat([Upper(m[0], x)], q, a);
    }
  }

  /** Removing [x, y) removes its pages and no others. */
  lemma CutPages(s: seq<Area>, x: int, y: int, a: int)
    requires Wf(s) && x <= y
    ensures PageAt(Cut(s, x, y), a) == if x <= a < y then None else PageAt(s, a)
  {
    HeadPages(s, x, a);
    HeadPages(s, y, a);
    PageAtConcat(Head(s, x), Tail(s, y), a);
  }

  /** A split is invisible in the page map. */
  lemma SplitPages(s: seq<Area>, x: int)
    requires Wf(s)
    ensures Wf(SplitAt(s, x)) && SamePages(s, SplitAt(s, x))
  {
    CutOk(s, x, x);
    forall a: int ensures PageAt(s, a) == PageAt(SplitAt(s, x), a) { CutPages(s, x, x, a); }
  }

  // ---------------------------------------------------------------------
  // Page sums
  // ---------------------------------------------------------------------

  datatype Kind = All | Locked | Account

  predicate Counts(k: Kind, f: Flags) {
    match k case All => true case Locked => f.locked case Account => f.account
  }

  /** `vma_pages`, for the areas that count. */
  function Weight(k: Kind, a: Area): int {
    if Counts(k, a.attr.flags) then a.end - a.start else 0
  }

  function Sum(k: Kind, s: seq<Area>): int {
    if s == [] then 0 else Weight(k, s[0]) + Sum(k, s[1..])
  }

  lemma {:induction false} SumConcat(k: Kind, s: seq<Area>, t: seq<Area>)
    ensures Sum(k, s + t) == Sum(k, s) + Sum(k, t)
  {
    if s == [] {
      assert s + t == t;
    } else {
      assert (s + t)[1..] == s[1..] + t;
      SumConcat(k, s[1..], t);
    }
  }

  lemma SumOne(k: Kind, a: Area)
    ensures Sum(k, [a]) == Weight(k, a)
  {}

  lemma WeightSplit(k: Kind, a: Area, x: int)
    ensures Weight(k, a) == Weight(k, Lower(a, x)) + Weight(k, Upper(a, x))
  {}

  lemma SumHeadTail(k: Kind, s: seq<Area>, x: int)
    requires Wf(s)
    ensures Sum(k, Head(s, x)) + Sum(k, Tail(s, x)) == Sum(k, s)
  {
    hide Head; hide Tail; hide Wf; hide Weight;
    var p, m, q := CutParts(s, x);
    if m != [] { WeightSplit(k, m[0], x); }
    SumConcat(k, p + m, q);
    SumConcat(k, p, m);
    if m != [] {
      SumConcat(k, p, [Lower(m[0], x)]);
      SumConcat(k, [Upper(m[0], x)], q);
    }
  }

  /** Disjoint areas inside [x, y) have no more pages than it. */
  lemma {:induction false} SumBounded(k: Kind, s: seq<Area>, x: int, y: int)
    requires Wf(s) && x <= y
    requires forall i :: 0 <= i < |s| ==> x <= s[i].start && s[i].end <= y
    ensures 0 <= Sum(k, s) <= y - x
  {
    if s != [] {
      var e := s[0].end;
      SumBounded(k, s[1..], e, y);
    }
  }

  // ---------------------------------------------------------------------
  // A cut after splits
  // ---------------------------------------------------------------------

  /** The list with boundaries at both ends of [x, y). */
  function Carved(s: seq<Area>, x: int, y: int): seq<Area> { SplitAt(SplitAt(s, x), y) }

  lemma SplitNothing(s: seq<Area>, x: int)
    requires Wf(s)
    ensures var i := First(s, x); !(i < |s| && s[i].start < x) ==> SplitAt(s, x) == s
  {}

  lemma {:induction false} FirstSkips(p: seq<Area>, q: seq<Area>, y: int)
    requires forall k :: 0 <= k < |p| ==> p[k].end <= y
    ensures First(p + q, y) == |p| + First(q, y)
  {
    if p == [] {
      assert p + q == q;
    } else {
      assert (p + q)[1..] == p[1..] + q;
      FirstSkips(p[1..], q, y);
    }
  }

  lemma TailSkips(p: seq<Area>, q: seq<Area>, y: int)
    requires forall k :: 0 <= k < |p| ==> p[k].end <= y
    ensures Tail(p + q, y) == Tail(q, y)
  {
    FirstSkips(p, q, y);
    hide First;
    var i := First(q, y);
    assert i < |q| ==> (p + q)[|p| + i] == q[i];
    assert (p + q)[|p| + i..] == q[i..];
    assert i < |q| ==> (p + q)[|p| + i + 1..] == q[i + 1..];
  }

  lemma HeadStops(p: seq<Area>, q: seq<Area>, x: int)
    requires Wf(p + q) && forall k :: 0 <= k < |q| ==> x <= q[k].start
    ensures Head(p + q, x) == Head(p, x)
  {
    var i, s := First(p, x), p + q;
    hide First;
    if i > 0 { assert s[i - 1] == p[i - 1]; }
    if i < |p| { assert s[i] == p[i]; } else if q != [] { assert s[|p|] == q[0] && AreaOk(s[|p|]); }
    FirstIs(s, i, x);
    hide Wf;
    assert s[..i] == p[..i];
  }

  lemma TailInFirst(a: Area, q: seq<Area>, y: int)
    requires y < a.end
    ensures Tail([a] + q, y) == if a.start < y then [Upper(a, y)] + q else [a] + q
  {
    assert ([a] + q)[1..] == q;
  }

  lemma TailOfParts(p: seq<Area>, a: Area, q: seq<Area>, x: int, y: int)
    requires a.start < x < a.end && x <= y && forall k :: 0 <= k < |p| ==> p[k].end <= x
    ensures Tail((p + [Lower(a, x)]) + ([Upper(a, x)] + q), y) == Tail(p + ([a] + q), y)
  {
    hide Tail;
    var l, u := Lower(a, x), Upper(a, x);
    TailSkips(p, [a] + q, y);
    TailSkips(p + [l], [u] + q, y);
    if a.end <= y {
      TailSkips([a], q, y);
      TailSkips([u], q, y);
    } else {
      TailInFirst(a, q, y);
      TailInFirst(u, q, y);
    }
  }

  /** The area x falls inside, if any, with the lists around it. */
  lemma Straddling(s: seq<Area>, x: int) returns (p: seq<Area>, a: Area, q: seq<Area>)
    requires Wf(s) && SplitAt(s, x) != s
    ensures s == p + ([a] + q) && a.start < x < a.end
    ensures SplitAt(s, x) == (p + [Lower(a, x)]) + ([Upper(a, x)] + q)
    ensures forall k :: 0 <= k < |p| ==> p[k].end <= x
    ensures forall k :: 0 <= k < |q| ==> x <= q[k].start
  {
    hide Head; hide Tail; hide First;
    SplitNothing(s, x);
    var i := First(s, x);
    p, a, q := s[..i], s[i], s[i + 1..];
    CutInside(s, i, x);
    forall k | 0 <= k < |q| ensures x <= q[k].start { assert Before(s[i], s[i + 1 + k]); }
  }

  /** A split at x is not seen from above y, nor one at y from below x. */
  lemma TailAfterSplit(s: seq<Area>, x: int, y: int)
    requires Wf(s) && x <= y
    ensures Tail(SplitAt(s, x), y) == Tail(s, y)
  {
    hide Tail; hide SplitAt;
    if SplitAt(s, x) != s {
      var p, a, q := Straddling(s, x);
      TailOfParts(p, a, q, x, y);
    }
  }

  lemma HeadBeforeSplit(s: seq<Area>, x: int, y: int)
    requires Wf(s) && x <= y
    ensures Head(SplitAt(s, y), x) == Head(s, x)
  {
    hide Head; hide SplitAt; hide Wf;
    if SplitAt(s, y) != s {
      var p, a, q := Straddling(s, y);
      SplitPages(s, y);
      var l, u := Lower(a, y), Upper(a, y);
      assert p + ([a] + q) == (p + [a]) + q;
      HeadStops(p + [l], [u] + q, x);
      HeadStops(p + [a], q, x);
      WfParts(p + [a], q);
      WfParts(p + [l], [u] + q);
      HeadOfLast(p, a, x, y);
    }
  }

  lemma HeadOfLast(p: seq<Area>, a: Area, x: int, y: int)
    requires Wf(p + [a]) && Wf(p + [Lower(a, y)]) && x <= y < a.end && a.start < y
    ensures Head(p + [Lower(a, y)], x) == Head(p + [a], x)
  {
    var s, t := p + [a], p + [Lower(a, y)];
    if x <= a.start {
      HeadStops(p, [a], x);
      HeadStops(p, [Lower(a, y)], x);
    } else {
      CutInside(s, |p|, x);
      if x < y { CutInside(t, |p|, x); } else { CutBetween(t, |t|, x); }
    }
  }

  /** Removing [x, y) after splitting at both its ends is removing it. */
  lemma CutCarved(s: seq<Area>, x: int, y: int)
    requires Wf(s) && x <= y
    ensures Wf(Carved(s, x, y)) && Cut(Carved(s, x, y), x, y) == Cut(s, x, y)
  {
    hide Head; hide Tail; hide SplitAt; hide Wf;
    SplitPages(s, x);
    SplitPages(SplitAt(s, x), y);
    HeadBeforeSplit(s, x, x);
    HeadBeforeSplit(SplitAt(s, x), x, y);
    TailAfterSplit(s, x, y);
    TailAfterSplit(SplitAt(s, x), y, y);
  }
}
