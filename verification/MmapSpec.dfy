/** Where a new private anonymous mapping goes in a list that has a hole for it,
    and what that does to the page map, the page sums and touching areas. */
module MmapSpec {
  import opened VmTypes
  import opened AreaList
  import opened MergeSpec
  import opened MergeProof

  /** The request lies in the hole before area k. */
  predicate Hole(s: seq<Area>, k: nat, req: Area) {
    && k <= |s| && RequestOk(req)
    && (k > 0 ==> s[k - 1].end <= req.start) && (k < |s| ==> req.end <= s[k].start)
  }

  predicate JoinsNext(s: seq<Area>, k: nat, req: Area) {
    k < |s| && s[k].start == req.end && s[k].attr.policy == 0 && CanMergeBefore(s[k], req)
  }

  /** The previous area joins; when the next one joins as well it is the next
      one's backing the previous one must suit. */
  predicate JoinsPrevWith(s: seq<Area>, k: nat, req: Area, next: bool)
    requires k <= |s| && (next ==> k < |s|)
  {
    k > 0 && s[k - 1].end == req.start && s[k - 1].attr.policy == 0
    && CanMergeAfter(s[k - 1], if next then req.(anon := s[k].anon) else req)
  }

  predicate JoinsPrev(s: seq<Area>, k: nat, req: Area)
    requires k <= |s|
  {
    JoinsPrevWith(s, k, req, JoinsNext(s, k, req))
  }

  /** `vm_flags_set(vma, VM_SOFTDIRTY)` */
  function Dirtied(a: Area): Area { a.(attr := a.attr.(flags := a.attr.flags.(softDirty := true))) }

  /** The area the mapping ends up in, and the list, when it is joined with the
      area before it, the area after it, both, or neither. */
  function Holder(s: seq<Area>, k: nat, req: Area, prev: bool, next: bool): Area
    requires k <= |s| && (prev ==> k > 0) && (next ==> k < |s|)
  {
    Dirtied(
      if prev && next then WithAnon(s[k - 1], s[k]).(end := s[k].end)
      else if prev then s[k - 1].(end := req.end)
      else if next then s[k].(start := req.start, pgoff := s[k].pgoff - (req.end - req.start))
      else req)
  }

  function Placed(s: seq<Area>, k: nat, req: Area, prev: bool, next: bool): seq<Area>
    requires k <= |s| && (prev ==> k > 0) && (next ==> k < |s|)
  {
    s[..if prev then k - 1 else k] + [Holder(s, k, req, prev, next)] + s[if next then k + 1 else k..]
  }

  /** A join that the code would make. */
  predicate Joinable(s: seq<Area>, k: nat, req: Area, prev: bool, next: bool)
    requires k <= |s|
  {
    (next ==> JoinsNext(s, k, req)) && (prev ==> JoinsPrevWith(s, k, req, next)) && req.attr.policy == 0
  }

  lemma HolderExtends(s: seq<Area>, k: nat, req: Area, prev: bool, next: bool)
    requires Wf(s) && Hole(s, k, req) && Joinable(s, k, req, prev, next) && req.anon == null && req.chain == []
    ensures var w := Holder(s, k, req, prev, next);
      && AreaOk(w) && Extends(req, w)
      && (prev ==> Absorbs(s[k - 1], w, req) && w.start == s[k - 1].start)
      && (next ==> Absorbs(s[k], w, req) && w.end == s[k].end)
      && (!prev ==> w.start == req.start) && (!next ==> w.end == req.end)
  {
    if k > 0 { Neighbours(s, k - 1); }
    if k < |s| { Neighbours(s, k); }
    hide Wf;
    if prev && next { WithAnonKeeps(s[k - 1], s[k]); }
  }

  /** Placing a mapping in a hole maps exactly the request. */
  lemma PlacedMaps(s: seq<Area>, k: nat, req: Area, prev: bool, next: bool)
    requires Wf(s) && Hole(s, k, req) && Joinable(s, k, req, prev, next) && req.anon == null && req.chain == []
    ensures var t := Placed(s, k, req, prev, next); Wf(t) && MappedAs(s, t, req) && |t| <= |s| + 1
  {
    hide Wf; hide MappedAs; hide Absorbs; hide Holder;
    HolderExtends(s, k, req, prev, next);
    var i, j := if prev then k - 1 else k, if next then k + 1 else k;
    var w := Holder(s, k, req, prev, next);
    if i > 0 { Neighbours(s, i - 1); }
    if j > 0 && j < |s| { Neighbours(s, j); }
    if k > 0 { Neighbours(s, k - 1); }
    if k < |s| { Neighbours(s, k); }
    AbsorbCase(s, i, j, w, req);
  }

  /** ... and adds its pages to each of the sums it counts in. */
  lemma PlacedSum(c: Kind, s: seq<Area>, k: nat, req: Area, prev: bool, next: bool)
    requires Wf(s) && Hole(s, k, req) && Joinable(s, k, req, prev, next)
    ensures Sum(c, Placed(s, k, req, prev, next)) == Sum(c, s) + Weight(c, req)
  {
    hide Wf; hide Sum; hide MergeableAnon;
    var i, j := if prev then k - 1 else k, if next then k + 1 else k;
    var w := Holder(s, k, req, prev, next);
    SumConcat(c, s[..i] + [w], s[j..]);
    SumConcat(c, s[..i], [w]);
    SumOne(c, w);
    SumBetween(c, s, i, j);
    if prev { SumOne(c, s[k - 1]); assert s[i..k] == [s[k - 1]]; }
    if next { SumOne(c, s[k]); assert s[k..j] == [s[k]]; }
    assert s[i..j] == s[i..k] + s[k..j];
    SumConcat(c, s[i..k], s[k..j]);
    SumNil(c);
  }

  lemma SumNil(c: Kind)
    ensures Sum(c, []) == 0
  {}

  lemma SumBetween(c: Kind, s: seq<Area>, i: nat, j: nat)
    requires i <= j <= |s|
    ensures Sum(c, s) == Sum(c, s[..i]) + Sum(c, s[i..j]) + Sum(c, s[j..])
  {
    hide Sum;
    Around(s, i, j);
    SumConcat(c, s[..i] + s[i..j], s[j..]);
    SumConcat(c, s[..i], s[i..j]);
  }
}
