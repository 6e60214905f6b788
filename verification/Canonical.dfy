/** Address spaces made by private anonymous mmap and munmap alone: no two
    touching areas could be one, so the page map determines the list. */
module Canonical {
  import opened VmTypes
  import opened AreaList
  import opened MergeSpec
  import opened MergeProof
  import opened MmapSpec
  import opened Region

  /** An area of private anonymous memory that was never faulted in. */
  predicate Plain(a: Area) {
    && a.anon == null && a.chain == [] && !a.close && a.pgoff == a.start
    && a.attr == Attr(a.attr.flags, null, 0, 0, 0) && a.attr.flags.softDirty && !a.attr.flags.special
  }

  predicate Apart(a: Area, b: Area) { a.end == b.start ==> a.attr != b.attr }

  ghost predicate Canon(s: seq<Area>) {
    && Wf(s) && (forall i :: 0 <= i < |s| ==> Plain(s[i]))
    && forall i :: 0 <= i < |s| - 1 ==> Apart(s[i], s[i + 1])
  }

  lemma CanonParts(s: seq<Area>, t: seq<Area>)
    requires Canon(s + t)
    ensures Canon(s) && Canon(t)
  {
    var w := s + t;
    WfParts(s, t);
    assert forall i :: 0 <= i < |s| ==> s[i] == w[i];
    assert forall i :: 0 <= i < |t| ==> t[i] == w[|s| + i];
    forall i | 0 <= i < |t| - 1 ensures Apart(t[i], t[i + 1]) { assert Apart(w[|s| + i], w[|s| + i + 1]); }
  }

  lemma CanonConcat(s: seq<Area>, t: seq<Area>)
    requires Canon(s) && Canon(t) && Wf(s + t)
    requires s != [] && t != [] ==> Apart(s[|s| - 1], t[0])
    ensures Canon(s + t)
  {
    var w := s + t;
    forall i | 0 <= i < |w| - 1 ensures Apart(w[i], w[i + 1]) {
      if i + 1 < |s| { assert Apart(s[i], s[i + 1]); }
      else if i >= |s| { assert Apart(t[i - |s|], t[i - |s| + 1]); }
    }
  }

  lemma CanonOne(a: Area)
    requires Plain(a) && AreaOk(a)
    ensures Canon([a])
  {}

  /** Unmapping keeps the list canonical. */
  lemma CutCanon(s: seq<Area>, x: int, y: int)
    requires Canon(s) && x < y
    ensures Canon(Cut(s, x, y))
  {
    CutOk(s, x, y);
    HeadCanon(s, x);
    TailCanon(s, y);
    HeadOk(s, x);
    TailOk(s, y);
    CanonConcat(Head(s, x), Tail(s, y));
  }

  lemma HeadCanon(s: seq<Area>, x: int)
    requires Canon(s)
    ensures Canon(Head(s, x))
  {
    HeadOk(s, x);
    var i := First(s, x);
    if i < |s| && s[i].start < x {
      assert s == s[..i] + s[i..];
      CanonParts(s[..i], s[i..]);
      CanonOne(Lower(s[i], x));
      if i > 0 { assert Apart(s[i - 1], s[i]); }
      CanonConcat(s[..i], [Lower(s[i], x)]);
    } else {
      assert s == s[..i] + s[i..];
      CanonParts(s[..i], s[i..]);
    }
  }

  lemma TailCanon(s: seq<Area>, x: int)
    requires Canon(s)
    ensures Canon(Tail(s, x))
  {
    TailOk(s, x);
    var i := First(s, x);
    if i < |s| && s[i].start < x {
      assert s == s[..i + 1] + s[i + 1..];
      CanonParts(s[..i + 1], s[i + 1..]);
      CanonOne(Upper(s[i], x));
      if i + 1 < |s| { assert Apart(s[i], s[i + 1]); }
      CanonConcat([Upper(s[i], x)], s[i + 1..]);
    } else {
      assert s == s[..i] + s[i..];
      CanonParts(s[..i], s[i..]);
    }
  }

  /** A request for private anonymous memory that is not special. */
  predicate PlainRequest(req: Area) {
    Plain(Dirtied(req))
  }

  lemma JoinsMeans(c: seq<Area>, k: nat, req: Area)
    requires Canon(c) && Hole(c, k, req) && PlainRequest(req)
    ensures JoinsNext(c, k, req) <==> k < |c| && c[k].start == req.end && c[k].attr == Dirtied(req).attr
    ensures JoinsPrev(c, k, req) <==> k > 0 && c[k - 1].end == req.start && c[k - 1].attr == Dirtied(req).attr
  {}

  /** Mapping into a hole and joining what can be joined keeps it canonical. */
  lemma PlacedCanon(c: seq<Area>, k: nat, req: Area)
    requires Canon(c) && Hole(c, k, req) && PlainRequest(req)
    ensures Canon(Placed(c, k, req, JoinsPrev(c, k, req), JoinsNext(c, k, req)))
  {
    hide Wf; hide Holder; hide JoinsPrev; hide JoinsNext; hide MappedAs; hide Plain;
    JoinAll(c, k, req);
    PlainIs(req);
    var prev, next := JoinsPrev(c, k, req), JoinsNext(c, k, req);
    var i, j := if prev then k - 1 else k, if next then k + 1 else k;
    var w, p, q := Holder(c, k, req, prev, next), c[..i], c[j..];
    CanonAround(c, i, j);
    PlacedMaps(c, k, req, prev, next);
    JoinsMeans(c, k, req);
    HolderPlain(c, k, req);
    if p != [] && prev { assert Apart(c[i - 1], c[i]); }
    if q != [] && next { assert Apart(c[j - 1], c[j]); }
    JoinThree(p, w, q);
  }

  lemma CanonAround(c: seq<Area>, i: nat, j: nat)
    requires Canon(c) && i <= j <= |c|
    ensures Canon(c[..i]) && Canon(c[j..])
  {
    assert c == c[..i] + c[i..] && c == c[..j] + c[j..];
    CanonParts(c[..i], c[i..]);
    CanonParts(c[..j], c[j..]);
  }

  lemma HolderPlain(c: seq<Area>, k: nat, req: Area)
    requires Canon(c) && Hole(c, k, req) && PlainRequest(req)
    ensures var w := Holder(c, k, req, JoinsPrev(c, k, req), JoinsNext(c, k, req));
      && Plain(w) && w.attr == Dirtied(req).attr
      && w.start == (if JoinsPrev(c, k, req) then c[k - 1].start else req.start)
      && w.end == (if JoinsNext(c, k, req) then c[k].end else req.end)
  {
    JoinsMeans(c, k, req);
  }

  lemma JoinThree(p: seq<Area>, w: Area, q: seq<Area>)
    requires Canon(p) && Canon(q) && Plain(w) && Wf(p + [w] + q)
    requires (p != [] ==> Apart(p[|p| - 1], w)) && (q != [] ==> Apart(w, q[0]))
    ensures Canon(p + [w] + q)
  {
    WfParts(p + [w], q);
    assert (p + [w])[|p|] == w;
    CanonOne(w);
    CanonConcat(p, [w]);
    CanonConcat(p + [w], q);
  }

  lemma StartLe(s: seq<Area>, t: seq<Area>)
    requires Wf(s) && Wf(t) && s != [] && SamePages(s, t)
    ensures t != [] && t[0].start <= s[0].start
  {
    var x := s[0].start;
    assert AreaOk(s[0]);
    PageAtIn(s, 0, x);
    assert PageAt(t, x) == PageAt(s, x);
    var k := PageAtSome(t, x);
    if k > 0 { assert Before(t[0], t[k]); assert AreaOk(t[0]); }
  }

  /** What follows the first area immediately, if anything, is not like it. */
  lemma NextDiffers(s: seq<Area>)
    requires Canon(s) && s != []
    ensures PageAt(s, s[0].end).Some? ==> PageAt(s, s[0].end).value.attr != CleanAttr(s[0].attr)
  {
    var x := s[0].end;
    if PageAt(s, x).Some? {
      var k := PageAtSome(s, x);
      assert Apart(s[0], s[1]) && Before(s[0], s[1]) && AreaOk(s[1]);
      assert k == 1 || Before(s[1], s[k]);
    }
  }

  lemma EndLe(s: seq<Area>, t: seq<Area>)
    requires Canon(s) && Canon(t) && s != [] && t != [] && SamePages(s, t)
    requires s[0].start == t[0].start && s[0].attr == t[0].attr
    ensures t[0].end <= s[0].end
  {
    NextDiffers(s);
    assert AreaOk(s[0]);
    assert PageAt(t, s[0].end) == PageAt(s, s[0].end);
  }

  lemma FirstSame(s: seq<Area>, t: seq<Area>)
    requires Canon(s) && Canon(t) && s != [] && t != [] && SamePages(s, t)
    ensures s[0] == t[0]
  {
    StartLe(s, t);
    StartLe(t, s);
    assert AreaOk(s[0]) && AreaOk(t[0]);
    PageAtIn(s, 0, s[0].start);
    PageAtIn(t, 0, s[0].start);
    assert PageAt(t, s[0].start) == PageAt(s, s[0].start);
    assert CleanAttr(s[0].attr) == CleanAttr(t[0].attr);
    EndLe(s, t);
    EndLe(t, s);
  }

  lemma TailSame(s: seq<Area>, t: seq<Area>)
    requires Wf(s) && Wf(t) && s != [] && t != [] && SamePages(s, t) && s[0] == t[0]
    ensures SamePages(s[1..], t[1..])
  {
    forall x: int ensures PageAt(s[1..], x) == PageAt(t[1..], x) {
      assert PageAt(s, x) == PageAt(t, x);
      if In(s[0], x) {
        assert forall k :: 0 < k < |s| ==> Before(s[0], s[k]);
        assert forall k :: 0 < k < |t| ==> Before(t[0], t[k]);
        PageAtOutside(s[1..], x);
        PageAtOutside(t[1..], x);
      }
    }
  }

  /** The page map determines a canonical list. */
  lemma {:induction false} CanonUnique(s: seq<Area>, t: seq<Area>)
    requires Canon(s) && Canon(t) && SamePages(s, t)
    ensures s == t
  {
    if s != [] { StartLe(s, t); }
    if t != [] { StartLe(t, s); }
    if s != [] {
      FirstSame(s, t);
      TailSame(s, t);
      assert s == [s[0]] + s[1..] && t == [t[0]] + t[1..];
      CanonParts([s[0]], s[1..]);
      CanonParts([t[0]], t[1..]);
      CanonUnique(s[1..], t[1..]);
    }
  }

  /** Mapping part of an area again, with the attributes it has, restores the
      list as it was. */
  lemma RemapRestores(s: seq<Area>, i: nat, req: Area)
    requires Canon(s) && i < |s| && PlainRequest(req) && RequestOk(req)
    requires s[i].start <= req.start && req.end <= s[i].end && Dirtied(req).attr == s[i].attr
    ensures var c := Cut(s, req.start, req.end); var k := First(c, req.start);
      && Hole(c, k, req) && Placed(c, k, req, JoinsPrev(c, k, req), JoinsNext(c, k, req)) == s
  {
    hide Wf; hide Cut; hide Placed; hide JoinsPrev; hide JoinsNext; hide Overwritten; hide Plain; hide Hole;
    var c, k := Cut(s, req.start, req.end), First(Cut(s, req.start, req.end), req.start);
    HoleAfterCut(s, req);
    CutCanon(s, req.start, req.end);
    PlacedCanon(c, k, req);
    JoinAll(c, k, req);
    PlainIs(req);
    var t := Placed(c, k, req, JoinsPrev(c, k, req), JoinsNext(c, k, req));
    PlacedOverwrites(s, k, req, JoinsPrev(c, k, req), JoinsNext(c, k, req));
    SameOverwritten(s, t, i, req);
    CanonUnique(s, t);
  }

  lemma PlainIs(req: Area)
    requires PlainRequest(req)
    ensures req.anon == null && req.chain == [] && req.attr.policy == 0
  {}

  lemma JoinAll(c: seq<Area>, k: nat, req: Area)
    requires Hole(c, k, req) && PlainRequest(req)
    ensures k <= |c| && Joinable(c, k, req, JoinsPrev(c, k, req), JoinsNext(c, k, req))
    ensures (JoinsPrev(c, k, req) ==> k > 0) && (JoinsNext(c, k, req) ==> k < |c|)
  {}

  lemma SameOverwritten(s: seq<Area>, t: seq<Area>, i: nat, req: Area)
    requires Canon(s) && Canon(t) && Overwritten(s, t, req) && i < |s| && PlainRequest(req)
    requires s[i].start <= req.start && req.end <= s[i].end && Dirtied(req).attr == s[i].attr
    ensures SamePages(s, t)
  {
    assert Plain(s[i]);
    forall x: int ensures PageAt(s, x) == PageAt(t, x) {
      if In(req, x) { PageAtIn(s, i, x); }
      PlainPage(s, x);
      PlainPage(t, x);
    }
  }

  lemma PlainPage(s: seq<Area>, x: int)
    requires Canon(s)
    ensures PageAt(s, x).Some? ==> PageAt(s, x).value.anon == null
  {
    if PageAt(s, x).Some? { var k := PageAtSome(s, x); }
  }
}
