/** A successful merge maps exactly what was asked for. */
module MergeProof {
  import opened VmTypes
  import opened AreaList
  import opened MergeSpec

  /** What mapping `req` over the list s must do at page x, t being the list
      after it: the pages of the request are mapped as requested, every other
      page is as before, and anonymous backing survives. */
  predicate MappedAt(s: seq<Area>, t: seq<Area>, req: Area, x: int) {
    && AnonKept(PageAt(s, x), PageAt(t, x))
    && SameMapping(PageAt(t, x), if In(req, x) then Some(PageOf(req, x)) else PageAt(s, x))
  }

  ghost predicate MappedAs(s: seq<Area>, t: seq<Area>, req: Area) {
    forall x: int :: MappedAt(s, t, req, x)
  }

  /** a's pages have in w the offsets and the backing they have in a. */
  predicate Continues(a: Area, w: Area) {
    && w.start <= a.start && a.end <= w.end
    && a.pgoff - a.start == w.pgoff - w.start
    && (a.anon != null ==> w.anon == a.anon)
  }

  /** An absorbed area agrees with w, unless the request replaces it. */
  predicate Absorbs(a: Area, w: Area, req: Area) {
    Continues(a, w) && (CleanAttr(a.attr) == CleanAttr(w.attr) || (req.start <= a.start && a.end <= req.end))
  }

  predicate Extends(req: Area, w: Area) {
    && w.start <= req.start && req.end <= w.end
    && req.pgoff - req.start == w.pgoff - w.start && CleanAttr(req.attr) == CleanAttr(w.attr)
  }

  lemma PageAtOne(a: Area, x: int)
    ensures PageAt([a], x) == if In(a, x) then Some(PageOf(a, x)) else None
  {}

  /** Replacing a window by one area that absorbs it and extends the request. */
  lemma AbsorbMaps(p: seq<Area>, m: seq<Area>, w: Area, q: seq<Area>, req: Area)
    requires Wf(p + m + q) && Wf(p + [w] + q)
    requires Extends(req, w)
    requires forall k :: 0 <= k < |m| ==> Absorbs(m[k], w, req)
    requires forall x :: In(w, x) && !In(req, x) ==> PageAt(m, x).Some?
    ensures MappedAs(p + m + q, p + [w] + q, req)
  {
    forall x: int ensures MappedAt(p + m + q, p + [w] + q, req, x) {
      PageAtWindow(p, m, q, x);
      PageAtWindow(p, [w], q, x);
      PageAtOne(w, x);
      if PageAt(m, x).Some? { var k := PageAtSome(m, x); }
    }
  }

  lemma PageAtTwo(a: Area, b: Area, x: int)
    ensures PageAt([a, b], x) == if In(a, x) then Some(PageOf(a, x)) else if In(b, x) then Some(PageOf(b, x)) else None
  {
    assert [a, b] == [a] + [b];
    PageAtConcat([a], [b], x);
  }

  /** Moving the boundary between two touching areas to y, the one that grows
      extending the request. */
  lemma ShiftMaps(p: seq<Area>, a: Area, b: Area, v: Area, w: Area, q: seq<Area>, req: Area)
    requires Wf(p + [a, b] + q) && Wf(p + [v, w] + q)
    requires req.start < req.end
    requires a.start == v.start < v.end == w.start < w.end == b.end && a.start < a.end == b.start < b.end
    requires CleanAttr(a.attr) == CleanAttr(v.attr) && CleanAttr(b.attr) == CleanAttr(w.attr)
    requires a.pgoff == v.pgoff && b.pgoff - b.start == w.pgoff - w.start
    requires (a.anon != null ==> v.anon == a.anon) && (b.anon != null ==> w.anon == b.anon)
    requires (v.end == req.end && a.end == req.start && Extends(req, v) && (b.anon != null ==> v.anon == b.anon))
          || (v.end == req.start && a.end == req.end && Extends(req, w) && (a.anon != null ==> w.anon == a.anon))
    ensures MappedAs(p + [a, b] + q, p + [v, w] + q, req)
  {
    forall x: int ensures MappedAt(p + [a, b] + q, p + [v, w] + q, req, x) {
      PageAtWindow(p, [a, b], q, x);
      PageAtWindow(p, [v, w], q, x);
      PageAtTwo(a, b, x);
      PageAtTwo(v, w, x);
    }
  }

  /** `WithAnon` keeps everything but a null backing. */
  lemma WithAnonKeeps(a: Area, b: Area)
    ensures var d := WithAnon(a, b);
      && d.(anon := null, chain := []) == a.(anon := null, chain := [])
      && (a.anon != null ==> d.anon == a.anon) && (a.anon == null ==> d.anon == b.anon)
      && (AreaOk(a) ==> AreaOk(d))
  {}

  /** A window of a well-formed list may be exchanged for one that fits. */
  lemma WfWindow(p: seq<Area>, m: seq<Area>, m': seq<Area>, q: seq<Area>)
    requires Wf(p + m + q) && Wf(m')
    requires |p| > 0 && |m'| > 0 ==> p[|p| - 1].end <= m'[0].start
    requires |m'| > 0 && |q| > 0 ==> m'[|m'| - 1].end <= q[0].start
    ensures Wf(p + m' + q)
  {
    hide Wf;
    WfParts(p + m, q);
    WfParts(p, m);
    if m' == [] && p != [] && q != [] {
      assert (p + m + q)[|p| - 1] == p[|p| - 1] && (p + m + q)[|p| + |m|] == q[0];
      Neighbour2(p + m + q, |p| - 1, |p| + |m|);
    }
    WfConcat(p, m');
    WfConcat(p + m', q);
  }

  lemma Neighbour2(s: seq<Area>, i: nat, j: nat)
    requires Wf(s) && i < j < |s|
    ensures s[i].end <= s[j].start
  {}

  // ---------------------------------------------------------------------
  // The eight cases
  // ---------------------------------------------------------------------

  lemma Around(s: seq<Area>, i: nat, j: nat)
    requires i <= j <= |s|
    ensures s == s[..i] + s[i..j] + s[j..]
  {}

  /** Cases 1, 2, 3, 6, 7 and 8: areas i to j - 1 become w. */
  lemma AbsorbCase(s: seq<Area>, i: nat, j: nat, w: Area, req: Area)
    requires Wf(s) && i <= j <= |s| && AreaOk(w) && Extends(req, w)
    requires i > 0 ==> s[i - 1].end <= w.start
    requires j < |s| ==> w.end <= s[j].start
    requires forall k :: i <= k < j ==> Absorbs(s[k], w, req)
    requires w.start == req.start || (i < j && s[i].start == w.start && req.start <= s[i].end)
    requires w.end == req.end || (i < j && s[j - 1].end == w.end && s[j - 1].start <= req.end)
    ensures Wf(s[..i] + [w] + s[j..]) && MappedAs(s, s[..i] + [w] + s[j..], req)
  {
    var p, m, q := s[..i], s[i..j], s[j..];
    Around(s, i, j);
    WfWindow(p, m, [w], q);
    AbsorbCover(s, i, j, w, req);
    AbsorbMaps(p, m, w, q, req);
  }

  lemma AbsorbCover(s: seq<Area>, i: nat, j: nat, w: Area, req: Area)
    requires Wf(s) && i <= j <= |s|
    requires w.start == req.start || (i < j && s[i].start == w.start && req.start <= s[i].end)
    requires w.end == req.end || (i < j && s[j - 1].end == w.end && s[j - 1].start <= req.end)
    ensures forall x :: In(w, x) && !In(req, x) ==> PageAt(s[i..j], x).Some?
  {
    var m := s[i..j];
    forall x | In(w, x) && !In(req, x) ensures PageAt(m, x).Some? {
      if x < req.start { PageAtIn(m, 0, x); } else { PageAtIn(m, j - 1 - i, x); }
    }
  }

  /** Cases 4 and 5: the boundary between areas i and i + 1 moves. */
  lemma ShiftCase(s: seq<Area>, i: nat, v: Area, w: Area, req: Area)
    requires Wf(s) && i + 1 < |s| && AreaOk(v) && AreaOk(w)
    requires req.start < req.end
    requires s[i].start == v.start && s[i].end == s[i + 1].start && v.end == w.start && s[i + 1].end == w.end
    requires CleanAttr(s[i].attr) == CleanAttr(v.attr) && CleanAttr(s[i + 1].attr) == CleanAttr(w.attr)
    requires s[i].pgoff == v.pgoff && s[i + 1].pgoff - s[i + 1].start == w.pgoff - w.start
    requires (s[i].anon != null ==> v.anon == s[i].anon) && (s[i + 1].anon != null ==> w.anon == s[i + 1].anon)
    requires (v.end == req.end && s[i].end == req.start && Extends(req, v) && (s[i + 1].anon != null ==> v.anon == s[i + 1].anon))
          || (v.end == req.start && s[i].end == req.end && Extends(req, w) && (s[i].anon != null ==> w.anon == s[i].anon))
    ensures Wf(s[..i] + [v, w] + s[i + 2..]) && MappedAs(s, s[..i] + [v, w] + s[i + 2..], req)
  {
    var p, m, q := s[..i], s[i..i + 2], s[i + 2..];
    Around(s, i, i + 2);
    assert m == [s[i], s[i + 1]];
    assert AreaOk(s[i]) && AreaOk(s[i + 1]);
    WfWindow(p, m, [v, w], q);
    ShiftMaps(p, s[i], s[i + 1], v, w, q, req);
  }

  lemma Neighbours(s: seq<Area>, i: nat)
    requires Wf(s) && i < |s|
    ensures AreaOk(s[i])
    ensures i > 0 ==> s[i - 1].end <= s[i].start
    ensures i + 1 < |s| ==> s[i].end <= s[i + 1].start
  {}

  lemma Case1(s: seq<Area>, k: nat, req: Area)
    requires Wf(s) && Site(s, k, req) && MergesBoth(s, k, req) && !HasCurr(s, k, req)
    ensures var t := JoinBoth(s, k, req); Wf(t) && MappedAs(s, t, req)
  {
    Neighbours(s, k - 1);
    Neighbours(s, k);
    hide Wf; hide MappedAs;
    WithAnonKeeps(s[k - 1], s[k]);
    AbsorbCase(s, k - 1, k + 1, WithAnon(s[k - 1], s[k]).(end := s[k].end), req);
  }

  lemma Case6(s: seq<Area>, k: nat, req: Area)
    requires Wf(s) && Site(s, k, req) && MergesBoth(s, k, req) && HasCurr(s, k, req)
    ensures var t := JoinBoth(s, k, req); Wf(t) && MappedAs(s, t, req)
  {
    Neighbours(s, k - 1);
    Neighbours(s, k);
    Neighbours(s, k + 1);
    hide Wf; hide MappedAs;
    WithAnonKeeps(s[k - 1], s[k + 1]);
    WithAnonKeeps(WithAnon(s[k - 1], s[k + 1]), s[k]);
    AbsorbCase(s, k - 1, k + 2, WithAnon(WithAnon(s[k - 1], s[k + 1]), s[k]).(end := s[k + 1].end), req);
  }

  lemma Case2(s: seq<Area>, k: nat, req: Area)
    requires Wf(s) && Site(s, k, req) && MergesPrev(s, k, req) && !HasCurr(s, k, req)
    ensures var t := JoinPrev(s, k, req).value; Wf(t) && MappedAs(s, t, req)
  {
    Neighbours(s, k - 1);
    hide Wf; hide MappedAs;
    AbsorbCase(s, k - 1, k, s[k - 1].(end := req.end), req);
  }

  lemma Case7(s: seq<Area>, k: nat, req: Area)
    requires Wf(s) && Site(s, k, req) && MergesPrev(s, k, req) && HasCurr(s, k, req)
    requires req.end == s[k].end && !s[k].close
    ensures var t := JoinPrev(s, k, req).value; Wf(t) && MappedAs(s, t, req)
  {
    Neighbours(s, k - 1);
    Neighbours(s, k);
    hide Wf; hide MappedAs;
    WithAnonKeeps(s[k - 1], s[k]);
    AbsorbCase(s, k - 1, k + 1, WithAnon(s[k - 1], s[k]).(end := req.end), req);
  }

  lemma Case5(s: seq<Area>, k: nat, req: Area)
    requires Wf(s) && Site(s, k, req) && MergesPrev(s, k, req) && HasCurr(s, k, req)
    requires req.end != s[k].end
    ensures var t := JoinPrev(s, k, req).value; Wf(t) && MappedAs(s, t, req)
  {
    Neighbours(s, k - 1);
    Neighbours(s, k);
    hide Wf; hide MappedAs;
    WithAnonKeeps(s[k - 1], s[k]);
    ShiftCase(s, k - 1, WithAnon(s[k - 1], s[k]).(end := req.end), Upper(s[k], req.end), req);
  }

  lemma Case4Meets(s: seq<Area>, k: nat, req: Area)
    requires Wf(s) && Site(s, k, req) && MergesNext(s, k, req) && !HasCurr(s, k, req) && InsidePrev(s, k, req)
    ensures s[k - 1].start < req.start && s[k - 1].end == s[k].start == req.end
    ensures Covers(s[k - 1], req) && CleanAttr(s[k].attr) == CleanAttr(req.attr)
    ensures s[k].pgoff == req.pgoff + (req.end - req.start)
    ensures s[k - 1].anon == null || s[k].anon == null || s[k - 1].anon == s[k].anon
  {
    Neighbours(s, k - 1);
  }

  lemma Case4(s: seq<Area>, k: nat, req: Area)
    requires Wf(s) && Site(s, k, req) && MergesNext(s, k, req) && !HasCurr(s, k, req) && InsidePrev(s, k, req)
    ensures var t := JoinNext(s, k, req); Wf(t) && MappedAs(s, t, req)
  {
    Neighbours(s, k - 1);
    Neighbours(s, k);
    Case4Meets(s, k, req);
    var p, n := s[k - 1], s[k];
    WithAnonKeeps(n, p);
    var w := WithAnon(n, p).(start := req.start, pgoff := n.pgoff - (p.end - req.start));
    assert JoinNext(s, k, req) == s[..k - 1] + [Lower(p, req.start), w] + s[k + 1..];
    hide Wf; hide MappedAs; hide Site; hide MergesNext; hide JoinNext; hide WithAnon;
    ShiftCase(s, k - 1, Lower(p, req.start), w, req);
  }

  lemma Case3(s: seq<Area>, k: nat, req: Area)
    requires Wf(s) && Site(s, k, req) && MergesNext(s, k, req) && !HasCurr(s, k, req) && !InsidePrev(s, k, req)
    ensures var t := JoinNext(s, k, req); Wf(t) && MappedAs(s, t, req)
  {
    Neighbours(s, k);
    hide Wf; hide MappedAs;
    AbsorbCase(s, k, k + 1, s[k].(start := req.start, pgoff := s[k].pgoff - (req.end - req.start)), req);
  }

  lemma Case8(s: seq<Area>, k: nat, req: Area)
    requires Wf(s) && Site(s, k, req) && MergesNext(s, k, req) && HasCurr(s, k, req)
    ensures var t := JoinNext(s, k, req); Wf(t) && MappedAs(s, t, req)
  {
    Neighbours(s, k);
    Neighbours(s, k + 1);
    hide Wf; hide MappedAs;
    WithAnonKeeps(s[k + 1], s[k]);
    AbsorbCase(s, k, k + 2, WithAnon(s[k + 1], s[k]).(start := req.start, pgoff := s[k].pgoff), req);
  }

  /** Where in the merged list the request ends up. */
  function HolderIndex(s: seq<Area>, k: nat, req: Area): nat
    requires k <= |s|
  {
    if MergesPrev(s, k, req) then k - 1 else k
  }

  predicate Spans(a: Area, req: Area) { a.start <= req.start && req.end <= a.end }

  lemma BothSpans(s: seq<Area>, k: nat, req: Area)
    requires Wf(s) && Site(s, k, req) && MergesBoth(s, k, req)
    ensures var t := JoinBoth(s, k, req); k - 1 < |t| && Spans(t[k - 1], req)
  {
    Neighbours(s, k - 1);
    hide Wf; hide CanMergeAfter; hide CanMergeBefore; hide MergeableAnon; hide WithAnon;
    var n := NextIndex(s, k, req);
    Neighbours(s, n);
    WithAnonKeeps(s[k - 1], s[n]);
    WithAnonKeeps(WithAnon(s[k - 1], s[n]), s[k]);
  }

  lemma PrevSpans(s: seq<Area>, k: nat, req: Area)
    requires Wf(s) && Site(s, k, req) && MergesPrev(s, k, req) && JoinPrev(s, k, req).Some?
    ensures var t := JoinPrev(s, k, req).value; k - 1 < |t| && Spans(t[k - 1], req)
  {
    Neighbours(s, k - 1);
    hide Wf; hide CanMergeAfter; hide WithAnon;
    if HasCurr(s, k, req) { WithAnonKeeps(s[k - 1], s[k]); }
  }

  lemma NextSpans(s: seq<Area>, k: nat, req: Area)
    requires Wf(s) && Site(s, k, req) && MergesNext(s, k, req)
    ensures var t := JoinNext(s, k, req); k < |t| && Spans(t[k], req)
  {
    var n := NextIndex(s, k, req);
    Neighbours(s, n);
    hide Wf; hide CanMergeBefore; hide WithAnon;
    if n > 0 { WithAnonKeeps(s[n], s[n - 1]); }
  }

  lemma HolderSpans(s: seq<Area>, k: nat, req: Area)
    requires Wf(s) && Site(s, k, req) && Merged(s, k, req).Some?
    ensures var t, j := Merged(s, k, req).value, HolderIndex(s, k, req); j < |t| && Spans(t[j], req)
  {
    hide Wf; hide JoinBoth; hide JoinPrev; hide JoinNext; hide CanMergeAfter; hide CanMergeBefore; hide Spans;
    if MergesBoth(s, k, req) {
      BothSpans(s, k, req);
    } else if MergesPrev(s, k, req) {
      PrevSpans(s, k, req);
    } else {
      NextSpans(s, k, req);
    }
  }

  /** Whichever of the eight cases applies, the merge maps exactly the request:
      its pages get the requested attributes and offsets, every other page keeps
      its own, and no page loses or exchanges its anonymous backing; in terms of the
      page maps, and of every field of the areas. */
  lemma MergedCorrect(s: seq<Area>, k: nat, req: Area)
    requires Wf(s) && Site(s, k, req) && Merged(s, k, req).Some?
    ensures var t := Merged(s, k, req).value; Wf(t) && MappedAs(s, t, req) && |t| <= |s|
    ensures var t := Merged(s, k, req).value; LaidOver(s, t, req) && BackingSurvives(s, t)
  {
    hide Wf; hide MappedAs; hide LaidOver; hide BackingSurvives;
    if MergesBoth(s, k, req) {
      if HasCurr(s, k, req) { Case6(s, k, req); } else { Case1(s, k, req); }
    } else if MergesPrev(s, k, req) {
      if !HasCurr(s, k, req) { Case2(s, k, req); }
      else if req.end == s[k].end { Case7(s, k, req); } else { Case5(s, k, req); }
    } else if HasCurr(s, k, req) {
      Case8(s, k, req);
    } else if InsidePrev(s, k, req) {
      Case4(s, k, req);
    } else {
      Case3(s, k, req);
    }
    MappedLays(s, Merged(s, k, req).value, req);
  }

  // ---------------------------------------------------------------------
  // The same, field by field
  // ---------------------------------------------------------------------

  /** Two backings do not keep VMAs apart: they are one, or one is missing and the
      VMA was not cloned from a parent's. */
  predicate BackingsFit(a: AnonVma?, b: AnonVma?, chain: seq<AnonVma>) {
    a == b || ((a == null || b == null) && |chain| == 1)
  }

  /** The area before the request, or the one after it, can take it. */
  predicate PrevTakes(s: seq<Area>, k: nat, req: Area) {
    && 0 < k <= |s| && s[k - 1].end == req.start && Agree(s[k - 1].attr, req.attr)
    && s[k - 1].pgoff + (s[k - 1].end - s[k - 1].start) == req.pgoff
    && BackingsFit(req.anon, s[k - 1].anon, s[k - 1].chain)
  }

  predicate NextTakes(s: seq<Area>, k: nat, req: Area) {
    var on := k < |s| && s[k].start < req.end;
    var n := if on then k + 1 else k;
    && n < |s| && s[n].start == req.end && (on ==> s[k].end == req.end) && Agree(s[n].attr, req.attr)
    && s[n].pgoff == req.pgoff + (req.end - req.start) && !s[n].close
    && BackingsFit(req.anon, s[n].anon, s[n].chain)
  }

  /** When there is a merge: the request is not special, and the area after it takes
      it, or the one before it does; that one must not replace the whole of an area
      with a close hook, unless both take it and their backings do not clash. */
  predicate MergeAllowed(s: seq<Area>, k: nat, req: Area) {
    var on := k < |s| && s[k].start < req.end;
    var n := if on then k + 1 else k;
    !req.attr.flags.special &&
    if PrevTakes(s, k, req) then
      || (NextTakes(s, k, req) && (s[k - 1].anon == null || s[n].anon == null || s[k - 1].anon == s[n].anon))
      || !(on && s[k].end == req.end && s[k].close)
    else NextTakes(s, k, req)
  }

  lemma TakesAre(s: seq<Area>, k: nat, req: Area)
    requires k <= |s|
    ensures PrevTakes(s, k, req) <==> MergesPrev(s, k, req)
    ensures NextTakes(s, k, req) <==> MergesNext(s, k, req)
  {
    if k > 0 { CleanAgree(s[k - 1].attr, req.attr); }
    var n := NextIndex(s, k, req);
    if n < |s| { CleanAgree(s[n].attr, req.attr); }
  }

  lemma MergesWhen(s: seq<Area>, k: nat, req: Area)
    requires Site(s, k, req)
    ensures Merged(s, k, req).Some? <==> MergeAllowed(s, k, req)
  {
    TakesAre(s, k, req);
    hide PrevTakes; hide NextTakes; hide CanMergeAfter; hide CanMergeBefore; hide Covers; hide RequestOk; hide JoinBoth;
    hide JoinNext;
  }

  /** A VMA with a backing that was cloned from a parent takes no request without. */
  lemma ClonedTakesNothing(s: seq<Area>, k: nat, req: Area, i: nat)
    requires Site(s, k, req) && i < |s| && req.anon == null && s[i].anon != null && |s[i].chain| != 1
    ensures i + 1 == k ==> !MergesPrev(s, k, req)
    ensures i == NextIndex(s, k, req) ==> !MergesNext(s, k, req)
  {}

  /** Mapping a request over a page map, field by field. */
  lemma MappedLays(s: seq<Area>, t: seq<Area>, req: Area)
    requires Wf(s) && Wf(t) && MappedAs(s, t, req)
    ensures LaidOver(s, t, req) && BackingSurvives(s, t)
  {
    hide Wf; hide LaidOver; hide BackingSurvives; hide SameMapping; hide AnonKept;
    forall x: int ensures SameMapping(PageAt(t, x), if In(req, x) then Some(PageOf(req, x)) else PageAt(s, x))
      && AnonKept(PageAt(s, x), PageAt(t, x))
    {
      assert MappedAt(s, t, req, x);
    }
    LaidOverIs(s, t, req);
    BackingSurvivesIs(s, t);
  }
}
