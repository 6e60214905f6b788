/** Choosing the address of a mapping. Addresses are bytes here; lengths have
    been rounded up and are given in pages. */
module GetArea {
  import opened VmTypes
  import opened AreaList
  import opened MmStruct
  import opened Munmap
  import opened HoleSpec
  import opened HoleSearch
  import T = RangeTree

  /** TASK_UNMAPPED_BASE, in pages. */
  const UNMAPPED_BASE: nat := (TASK_SIZE / 3 + PAGE - 1) / PAGE

  /** The address, or an error; an address in the range of the error codes is
      handed on as if it were one. */
  datatype Address = At(addr: nat) | Error(e: Errno) | AsIs(code: nat)

  /** A search for n pages without an alignment. */
  function Plainly(n: nat, low: nat, high: nat): Search { Search(n, low, high, 1, 0) }

  /** The hinted address can be used as it is. */
  predicate HintSuits(s: seq<Area>, hint: nat, n: nat, minPage: nat, gap: nat) {
    hint != 0 && minPage <= PageAlign(hint) <= TASK_PAGES - n && Clear(s, PageAlign(hint), n, gap)
  }

  /** The hint is looked at with `find_vma_prev`. */
  method TryHint(mm: Mm, hint: nat, n: nat) returns (ok: bool)
    requires mm.Valid() && mm.minAddr % PAGE == 0 && 0 < n
    ensures ok == HintSuits(mm.Areas(), hint, n, mm.minAddr / PAGE, mm.guardGap)
  {
    hide Fits; hide Wf; hide First; hide T.First; hide StartGap; hide Leaves;
    var x := PageAlign(hint);
    SameFirst(mm.tree, mm.Areas(), x);
    if First(mm.Areas(), x) > 0 { EntryAt(mm, First(mm.Areas(), x) - 1); }
    var vma, prev := mm.FindVma(x), mm.PrevVma(x);
    if vma != null { StartGapIs(vma.Snapshot(), x + n, mm.guardGap); }
    ok := hint != 0 && TASK_PAGES - n >= x && x * PAGE >= mm.minAddr
      && (vma == null || x + n <= StartGap(vma.Snapshot(), mm.guardGap))
      && (prev == null || x >= prev.end);
  }

  /** What both generic choices do first: fixed addresses are taken as they are,
      and a suitable hint is followed. */
  method Given(mm: Mm, hint: nat, n: nat, isFixed: bool) returns (done: bool, r: Option<nat>)
    requires mm.Valid() && mm.minAddr % PAGE == 0 && mm.minAddr <= TASK_SIZE && 0 < n
    ensures done == (n > TASK_PAGES - mm.minAddr / PAGE || isFixed || HintSuits(mm.Areas(), hint, n, mm.minAddr / PAGE, mm.guardGap))
    ensures done && n > TASK_PAGES - mm.minAddr / PAGE ==> r == None
    ensures done && n <= TASK_PAGES - mm.minAddr / PAGE ==> r == Some(if isFixed then hint else PageAlign(hint) * PAGE)
  {
    hide HintSuits; hide Fits;
    ghost var s := mm.Areas();
    if n * PAGE > TASK_SIZE - mm.minAddr { return true, None; }
    if isFixed { return true, Some(hint); }
    done := TryHint(mm, hint, n);
    assert mm.Areas() == s;
    r := Some(PageAlign(hint) * PAGE);
  }

  /** Page p is a place for n pages: unmapped, and clear of the next guard gap. */
  predicate Place(s: seq<Area>, n: nat, minPage: nat, gap: nat, p: int) {
    minPage <= p && p + n <= TASK_PAGES && Clear(s, p, n, gap)
  }

  /** There is no place for n pages from `low` up to `high`. */
  ghost predicate NoPlace(s: seq<Area>, n: nat, minPage: nat, gap: nat, low: nat, high: nat) {
    forall d: int :: low <= d && d + n <= high ==> !Place(s, n, minPage, gap, d)
  }

  /** The search from below for n pages finds a place, or there is none. */
  lemma ClimbPlace(s: seq<Area>, n: nat, minPage: nat, gap: nat, low: nat)
    requires Wf(s) && 0 < n
    ensures var q := Plainly(n, low, TASK_PAGES);
      var r := Climb(s, 0, q, Low(q, minPage), gap);
      if r.Some? then Place(s, n, minPage, gap, r.value) && !NoPlace(s, n, minPage, gap, low, TASK_PAGES)
      else NoPlace(s, n, minPage, gap, low, TASK_PAGES)
  {
    hide Climb; hide Clear; hide Wf;
    var q := Plainly(n, low, TASK_PAGES);
    ClimbSuits(s, 0, q, minPage, gap);
    ClimbLowest(s, q, minPage, gap);
    var r := Climb(s, 0, q, Low(q, minPage), gap);
    if r.Some? {
      assert Place(s, n, minPage, gap, r.value);
    } else {
      forall d: int | low <= d && d + n <= TASK_PAGES ensures !Place(s, n, minPage, gap, d) {
        assert !Roomy(s, q, minPage, gap, 0, d);
      }
    }
  }

  /** What the searches choose for n pages. From below it is the lowest untouched range
      from the base on. From above it is no lower than any range below the base that
      all areas leave free, and, where no area is in the guard gap of another, than any
      that is untouched; if it is not below the base it is the lowest from
      TASK_UNMAPPED_BASE on. */
  ghost predicate Best(s: seq<Area>, n: nat, minPage: nat, gap: nat, topdown: bool, base: nat, p: int) {
    if !topdown then LowestFrom(s, n, minPage, gap, base, p)
    else
      && (forall d: int :: 1 <= d && minPage <= d && d + n <= base && GapFree(s, d, n, gap) ==> d <= p && p + n <= base)
      && (GapsFree(s, gap) ==> forall d: int :: 1 <= d && minPage <= d && d + n <= base && Untouched(s, d, n, gap) ==>
           d <= p && p + n <= base)
      && (p + n > base ==> LowestFrom(s, n, minPage, gap, 0x2_AAAA_AAAB, p))
  }

  ghost predicate LowestFrom(s: seq<Area>, n: nat, minPage: nat, gap: nat, base: nat, p: int) {
    && base <= p
    && forall d: int :: base <= d && minPage <= d && d + n <= TASK_PAGES && Untouched(s, d, n, gap) ==> p <= d
  }

  lemma BestUp(s: seq<Area>, n: nat, minPage: nat, gap: nat, base: nat, r: Option<nat>)
    requires 0 < n && FoundUp(s, Plainly(n, base, TASK_PAGES), minPage, gap, r)
    ensures r.Some? ==> LowestFrom(s, n, minPage, gap, base, r.value)
  {
    hide Untouched;
    var q, room := Plainly(n, base, TASK_PAGES), n + 2 * (1 - 1);
    assert room == n && NotAbove(s, q, minPage, gap, room, 1, r);
  }

  lemma BestDown(s: seq<Area>, n: nat, minPage: nat, gap: nat, base: nat, r: Option<nat>, u: Option<nat>)
    requires 0 < n && 0 < base <= TASK_PAGES && FoundDown(s, Plainly(n, 1, base), minPage, gap, r)
    requires r == None ==> FoundUp(s, Plainly(n, UNMAPPED_BASE, TASK_PAGES), minPage, gap, u)
    ensures r.Some? && r.value <= TASK_PAGES ==> Best(s, n, minPage, gap, true, base, r.value)
    ensures r == None && u.Some? ==> Best(s, n, minPage, gap, true, base, u.value)
  {
    hide Untouched; hide GapFree; hide GapsFree; hide RoomBelowZero;
    if r == None { BestUp(s, n, minPage, gap, UNMAPPED_BASE, u); }
  }

  /** What both choices find for a mapping without a fixed address: the place
      `Given` knows of, or one the searches find. */
  predicate Known(s: seq<Area>, hint: nat, n: nat, minPage: nat, gap: nat) {
    n > TASK_PAGES - minPage || HintSuits(s, hint, n, minPage, gap)
  }

  /** `generic_get_unmapped_area`: the search is from mmap_base upwards. */
  method Generic(mm: Mm, hint: nat, n: nat, isFixed: bool, base: nat) returns (r: Option<nat>)
    requires mm.Valid() && mm.minAddr % PAGE == 0 && mm.minAddr <= TASK_SIZE && 0 < n
    ensures isFixed ==> r == if n > TASK_PAGES - mm.minAddr / PAGE then None else Some(hint)
    ensures !isFixed && r.Some? ==>
      r.value % PAGE == 0 && Place(mm.Areas(), n, mm.minAddr / PAGE, mm.guardGap, r.value / PAGE)
    ensures !isFixed ==> (r == None <==> Nowhere(mm.Areas(), hint, n, mm.minAddr / PAGE, mm.guardGap, false, base))
    ensures !isFixed && r.Some? ==>
      if HintSuits(mm.Areas(), hint, n, mm.minAddr / PAGE, mm.guardGap) then r.value == PageAlign(hint) * PAGE
      else Best(mm.Areas(), n, mm.minAddr / PAGE, mm.guardGap, false, base, r.value / PAGE)
  {
    hide FoundUp; hide LowestFrom; hide Fits; hide Clear; hide PageAlign; hide NoPlace; hide Climb; hide Wf;
    ghost var s := mm.Areas();
    SoundWf(mm);
    var done;
    done, r := Given(mm, hint, n, isFixed);
    assert mm.Areas() == s;
    if done { return; }
    var p := UnmappedArea(mm, Plainly(n, base, TASK_PAGES));
    assert mm.Areas() == s;
    ClimbPlace(s, n, mm.minAddr / PAGE, mm.guardGap, base);
    BestUp(s, n, mm.minAddr / PAGE, mm.guardGap, base, p);
    r := if p.Some? then Some(p.value * PAGE) else None;
  }

  /** What the search from above finds for n pages below the base. */
  function WalkFrom(s: seq<Area>, n: nat, minPage: nat, gap: nat, base: nat): Found
    requires 0 < n && 0 < base <= TASK_PAGES
  {
    Walk(s, Plainly(n, 1, base), minPage, gap)
  }

  lemma WalkPlace(s: seq<Area>, n: nat, minPage: nat, gap: nat, base: nat)
    requires Wf(s) && 0 < n && 0 < base <= TASK_PAGES
    ensures var q, w := Plainly(n, 1, base), WalkFrom(s, n, minPage, gap, base);
      && (w.Spot? ==> AnswerOf(q, w) == Some(w.c) && Place(s, n, minPage, gap, w.c))
      && (w.Beyond? ==> AnswerOf(q, w) == Some(U64_PAGES - n))
  {
    WalkSuits(s, Plainly(n, 1, base), minPage, gap);
  }

  /** `generic_get_unmapped_area_topdown`: the search is from mmap_base downwards,
      and when that fails from TASK_UNMAPPED_BASE upwards. */
  method GenericTopdown(mm: Mm, hint: nat, n: nat, isFixed: bool, base: nat) returns (r: Option<nat>)
    requires mm.Valid() && mm.minAddr % PAGE == 0 && mm.minAddr <= TASK_SIZE && 0 < n && 0 < base <= TASK_PAGES
    ensures isFixed ==> r == if n > TASK_PAGES - mm.minAddr / PAGE then None else Some(hint)
    ensures var s, minPage, gap := mm.Areas(), mm.minAddr / PAGE, mm.guardGap;
      !isFixed ==>
        if !Known(s, hint, n, minPage, gap) && WalkFrom(s, n, minPage, gap, base).Beyond? then
          r == Some((U64_PAGES - n) * PAGE)
        else
          && (r.Some? ==> r.value % PAGE == 0 && Place(s, n, minPage, gap, r.value / PAGE))
          && (r == None <==> Nowhere(s, hint, n, minPage, gap, true, base))
    ensures !isFixed && r.Some? && n <= TASK_PAGES - mm.minAddr / PAGE && r.value <= TASK_SIZE ==>
      if HintSuits(mm.Areas(), hint, n, mm.minAddr / PAGE, mm.guardGap) then r.value == PageAlign(hint) * PAGE
      else Best(mm.Areas(), n, mm.minAddr / PAGE, mm.guardGap, true, base, r.value / PAGE)
  {
    hide FoundUp; hide FoundDown; hide Best; hide Fits; hide Clear; hide PageAlign; hide Walk; hide AnswerOf; hide NoPlace; hide Wf; hide Climb;
    ghost var s := mm.Areas();
    SoundWf(mm);
    var done;
    done, r := Given(mm, hint, n, isFixed);
    assert mm.Areas() == s;
    if done { return; }
    WalkPlace(s, n, mm.minAddr / PAGE, mm.guardGap, base);
    MissingIsNone(s, n, mm.minAddr / PAGE, mm.guardGap, base);
    var p := UnmappedAreaTopdown(mm, Plainly(n, 1, base));
    assert mm.Areas() == s;
    ghost var above := p;
    if p == None {
      p := UnmappedArea(mm, Plainly(n, UNMAPPED_BASE, TASK_PAGES));
      assert mm.Areas() == s;
      ClimbPlace(s, n, mm.minAddr / PAGE, mm.guardGap, UNMAPPED_BASE);
    }
    BestDown(s, n, mm.minAddr / PAGE, mm.guardGap, base, above, p);
    r := if p.Some? then Some(p.value * PAGE) else None;
  }

  lemma MissingIsNone(s: seq<Area>, n: nat, minPage: nat, gap: nat, base: nat)
    requires 0 < n && 0 < base <= TASK_PAGES
    ensures AnswerOf(Plainly(n, 1, base), WalkFrom(s, n, minPage, gap, base)) == None <==>
      WalkFrom(s, n, minPage, gap, base) == Missing
  {}

  /** A mapping without a fixed address is refused: it is too long, or the hint does
      not suit and the searches fail. The one from above fails for good when it comes
      down to address 0, and is otherwise followed by one from TASK_UNMAPPED_BASE. */
  ghost predicate Nowhere(s: seq<Area>, hint: nat, n: nat, minPage: nat, gap: nat, topdown: bool, base: nat)
    requires topdown ==> 0 < n && 0 < base <= TASK_PAGES
  {
    n > TASK_PAGES - minPage ||
    (!HintSuits(s, hint, n, minPage, gap) &&
      if !topdown then
        NoPlace(s, n, minPage, gap, base, TASK_PAGES)
      else
        var w := WalkFrom(s, n, minPage, gap, base);
        w.Beyond? || (w.Missing? && NoPlace(s, n, minPage, gap, UNMAPPED_BASE, TASK_PAGES)))
  }

  /** No range below the base is free of all guard gaps. */
  ghost predicate NoneGapFree(s: seq<Area>, n: nat, minPage: nat, gap: nat, base: nat) {
    forall d: int :: 1 <= d && minPage <= d && d + n <= base ==> !GapFree(s, d, n, gap)
  }

  /** What a refusal of the search from above means. Whatever the areas, no range
      below the base is free of guard gaps. Where no area lies in the guard gap of
      another, there is no place below the base at all, and there is none above
      TASK_UNMAPPED_BASE either, or the lowest area is a stack near address 0 with
      room below it; and these are exactly the refusals. */
  lemma NowhereMeans(s: seq<Area>, hint: nat, n: nat, minPage: nat, gap: nat, base: nat)
    requires Wf(s) && 0 < n && 0 < base <= TASK_PAGES
    ensures Nowhere(s, hint, n, minPage, gap, true, base) ==>
      Known(s, hint, n, minPage, gap) || NoneGapFree(s, n, minPage, gap, base)
    ensures GapsFree(s, gap) ==>
      (Nowhere(s, hint, n, minPage, gap, true, base) <==>
        || n > TASK_PAGES - minPage
        || (&& !HintSuits(s, hint, n, minPage, gap) && NoPlace(s, n, minPage, gap, 1, base)
            && (|| NoPlace(s, n, minPage, gap, UNMAPPED_BASE, TASK_PAGES)
                || RoomBelowZero(s, n, if minPage > 1 then minPage else 1, base, gap))))
  {
    hide HintSuits; hide Walk; hide GapsFree; hide Wf; hide Clear; hide GapFree;
    var q := Plainly(n, 1, base);
    forall d: int | 1 <= d && minPage <= d && d + n <= base && GapFree(s, d, n, gap)
      ensures WalkFrom(s, n, minPage, gap, base).Spot?
    {
      WalkReaches(s, q, minPage, gap, d);
    }
    if GapsFree(s, gap) {
      WalkExact(s, q, minPage, gap);
      RoomyIsPlace(s, n, minPage, gap, base);
    }
  }

  lemma RoomyIsPlace(s: seq<Area>, n: nat, minPage: nat, gap: nat, base: nat)
    requires 0 < n && 0 < base <= TASK_PAGES
    ensures NoneRoomy(s, Plainly(n, 1, base), minPage, gap) <==> NoPlace(s, n, minPage, gap, 1, base)
  {
    hide Clear;
    var q := Plainly(n, 1, base);
    if NoPlace(s, n, minPage, gap, 1, base) {
      forall d: int ensures !Roomy(s, q, minPage, gap, 0, d) { assert 1 <= d && d + n <= base ==> !Place(s, n, minPage, gap, d); }
    } else {
      var d: int :| 1 <= d && d + n <= base && Place(s, n, minPage, gap, d);
      assert Roomy(s, q, minPage, gap, 0, d);
    }
  }

  /** Such a stack can hide places from both searches: here the request is refused
      and the search from below would have found one. */
  lemma WrapHidesPlace() returns (s: seq<Area>, base: nat, p: int)
    ensures Wf(s) && GapsFree(s, 256) && UNMAPPED_BASE < base <= TASK_PAGES
    ensures Nowhere(s, 0, 1, 16, 256, true, base)
    ensures UNMAPPED_BASE <= p && Place(s, 1, 16, 256, p)
  {
    var flags := Flags(true, true, false, false, false, true, false, false, true, false, false, 0);
    var stack := Area(100, 101, 100, Attr(flags, null, 0, 0, 0), null, [], false);
    base := 0x7_F000_0000;
    s := [stack, Area(101, base, 101, Attr(flags.(growsDown := false), null, 0, 0, 0), null, [], false)];
    p := base;
    assert Descend(s, 0, 1, 16, base, 256) == Beyond;
    assert Descend(s, 1, 1, 16, base, 256) == Beyond;
    assert First(s[1..], p) == 1 && First(s, p) == 2;
  }

  /** What a refusal says of the areas. */
  ghost predicate Refuses(s: seq<Area>, n: nat, minPage: nat, gap: nat, topdown: bool, base: nat) {
    if topdown then
      forall d: int :: 1 <= d && minPage <= d && d + n <= base ==> !GapFree(s, d, n, gap)
    else
      forall d: int :: base <= d && minPage <= d && d + n <= TASK_PAGES ==> !Untouched(s, d, n, gap)
  }

  lemma NowhereRefuses(s: seq<Area>, hint: nat, n: nat, minPage: nat, gap: nat, topdown: bool, base: nat)
    requires Wf(s) && 0 < n && 0 < base <= TASK_PAGES
    ensures Nowhere(s, hint, n, minPage, gap, topdown, base) ==> Refuses(s, n, minPage, gap, topdown, base)
  {
    hide Wf; hide Clear; hide GapFree; hide Untouched; hide HintSuits;
    if topdown {
      NowhereMeans(s, hint, n, minPage, gap, base);
    } else if Nowhere(s, hint, n, minPage, gap, topdown, base) {
      forall d: int | base <= d && minPage <= d && d + n <= TASK_PAGES ensures !Untouched(s, d, n, gap) {
        UntouchedIs(s, d, n, gap);
        assert !Place(s, n, minPage, gap, d);
      }
    }
  }

  /** A hint rounded up to a page suits if it is untouched. */
  lemma HintIs(s: seq<Area>, hint: nat, n: nat, minPage: nat, gap: nat)
    requires Wf(s) && hint < U64 && 0 < n
    ensures var x := (hint + PAGE - 1) / PAGE; hint <= U64 - PAGE ==>
      && PageAlign(hint) == x
      && (HintSuits(s, hint, n, minPage, gap) <==>
          hint != 0 && minPage <= x && x + n <= TASK_PAGES && Untouched(s, x, n, gap))
  {
    UntouchedIs(s, (hint + PAGE - 1) / PAGE, n, gap);
  }

  /** `get_unmapped_area` for anonymous memory. The address returned is aligned
      and in user space; unless it was given as fixed it is a place where nothing
      is mapped, and one is found unless there is `Nowhere` to be found. */
  method GetUnmappedArea(mm: Mm, hint: nat, n: nat, isFixed: bool, topdown: bool, base: nat) returns (r: Address)
    requires mm.Valid() && mm.minAddr % PAGE == 0 && mm.minAddr <= TASK_SIZE && 0 < n && 0 < base <= TASK_PAGES
    requires hint < U64
    ensures r.At? ==> r.addr % PAGE == 0 && r.addr / PAGE + n <= TASK_PAGES
    ensures r.At? && isFixed ==> r.addr == hint && n <= TASK_PAGES - mm.minAddr / PAGE
    ensures r.At? && !isFixed ==> Place(mm.Areas(), n, mm.minAddr / PAGE, mm.guardGap, r.addr / PAGE)
    ensures !mm.mayFail && isFixed ==>
      (r.At? <==> hint % PAGE == 0 && n <= TASK_PAGES - mm.minAddr / PAGE && hint / PAGE + n <= TASK_PAGES)
    ensures !isFixed ==>
      (r == Error(ENOMEM) <==> Nowhere(mm.Areas(), hint, n, mm.minAddr / PAGE, mm.guardGap, topdown, base))
    ensures !isFixed && r != Error(ENOMEM) ==> r.At? || mm.mayFail
    ensures r.Error? ==> r.e == ENOMEM || (r.e == EINVAL && isFixed && hint % PAGE != 0) || (r.e == EPERM && mm.mayFail)
    // the same of the areas alone: what is returned, when a hint is, and what is
    // returned or refused when there is none or it is not untouched
    ensures r.At? && !isFixed ==> var p := r.addr / PAGE;
      mm.minAddr / PAGE <= p && p + n <= TASK_PAGES && Untouched(mm.Areas(), p, n, mm.guardGap)
    ensures var x, minPage := (hint + PAGE - 1) / PAGE, mm.minAddr / PAGE;
      !isFixed && hint <= U64 - PAGE ==>
        if hint != 0 && minPage <= x && x + n <= TASK_PAGES && Untouched(mm.Areas(), x, n, mm.guardGap) then
          r == At(x * PAGE) || (mm.mayFail && !r.At?)
        else
          r.At? ==> Best(mm.Areas(), n, minPage, mm.guardGap, topdown, base, r.addr / PAGE)
    ensures !isFixed && r == Error(ENOMEM) ==> Refuses(mm.Areas(), n, mm.minAddr / PAGE, mm.guardGap, topdown, base)
  {
    hide Fits; hide Place; hide NoPlace; hide Walk; hide HintSuits; hide Best; hide Refuses; hide Untouched; hide PageAlign;
    ghost var s := mm.Areas();
    SoundWf(mm);
    HintIs(s, hint, n, mm.minAddr / PAGE, mm.guardGap);
    NowhereRefuses(s, hint, n, mm.minAddr / PAGE, mm.guardGap, topdown, base);
    if n * PAGE > TASK_SIZE { return Error(ENOMEM); }
    var a;
    if topdown {
      a := GenericTopdown(mm, hint, n, isFixed, base);
    } else {
      a := Generic(mm, hint, n, isFixed, base);
    }
    assert mm.Areas() == s;
    if a == None { return Error(ENOMEM); }
    if !isFixed { PlaceFits(s, n, mm.minAddr / PAGE, mm.guardGap, a.value); }
    if a.value > U64 - PAGE { return AsIs(a.value); }
    if a.value > TASK_SIZE - n * PAGE { return Error(ENOMEM); }
    if a.value % PAGE != 0 { return Error(EINVAL); }
    var allowed :| allowed || mm.mayFail;
    r := if allowed then At(a.value) else Error(EPERM);
  }

  lemma PlaceFits(s: seq<Area>, n: nat, minPage: nat, gap: nat, a: nat)
    requires Wf(s)
    ensures a % PAGE == 0 && Place(s, n, minPage, gap, a / PAGE) ==>
      && a <= TASK_SIZE - n * PAGE
      && minPage <= a / PAGE && a / PAGE + n <= TASK_PAGES && Untouched(s, a / PAGE, n, gap)
  {
    UntouchedIs(s, a / PAGE, n, gap);
  }
}
