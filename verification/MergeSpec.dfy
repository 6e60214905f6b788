/** When a request can be merged with its neighbours and what the merge does to
    the area list, with the proof that it maps exactly what was asked for. A
    request is written as the area it would be by itself. */
module MergeSpec {
  import opened VmTypes
  import opened AreaList

  /** `is_mergeable_vma`; the policy is compared by the callers. */
  predicate Mergeable(v: Area, attr: Attr, mayRemove: bool) {
    CleanAttr(v.attr).(policy := 0) == CleanAttr(attr).(policy := 0) && !(mayRemove && v.close)
  }

  /** `is_mergeable_anon_vma`; `solo` tells whether there is no VMA to look at or
      its anon_vma_chain has one element. */
  predicate MergeableAnon(a: AnonVma?, b: AnonVma?, solo: bool) {
    ((a == null || b == null) && solo) || a == b
  }

  predicate CanMergeBefore(v: Area, req: Area) {
    && Mergeable(v, req.attr, true) && MergeableAnon(req.anon, v.anon, |v.chain| == 1)
    && v.pgoff == req.pgoff + (req.end - req.start)
  }

  predicate CanMergeAfter(v: Area, req: Area) {
    && Mergeable(v, req.attr, false) && MergeableAnon(req.anon, v.anon, |v.chain| == 1)
    && v.pgoff + (v.end - v.start) == req.pgoff
  }

  /** `dup_anon_vma`: dst takes over the backing of src if it has none. */
  function WithAnon(dst: Area, src: Area): Area {
    if dst.anon == null && src.anon != null then dst.(anon := src.anon, chain := src.chain) else dst
  }

  predicate RequestOk(req: Area) {
    0 <= req.start < req.end <= TASK_PAGES && 0 <= req.pgoff && req.pgoff + (req.end - req.start) < U64
  }

  /** A request for mapped pages names their offset, backing and file. */
  predicate Covers(a: Area, req: Area) {
    && req.pgoff == a.pgoff + (req.start - a.start) && req.anon == a.anon
    && req.attr.file == a.attr.file
  }

  predicate InsidePrev(s: seq<Area>, k: nat, req: Area)
    requires k <= |s|
  {
    k > 0 && req.start < s[k - 1].end
  }

  predicate HasCurr(s: seq<Area>, k: nat, req: Area) {
    k < |s| && s[k].start < req.end
  }

  /** Area k - 1 is the predecessor of the request, which lies in a hole, or at
      the front of area k, or inside area k - 1 but not at its front. */
  predicate Site(s: seq<Area>, k: nat, req: Area) {
    && k <= |s| && RequestOk(req)
    && (k > 0 ==> s[k - 1].start < req.start)
    && (InsidePrev(s, k, req) ==> req.end <= s[k - 1].end && Covers(s[k - 1], req))
    && (HasCurr(s, k, req) ==> req.start == s[k].start && req.end <= s[k].end && Covers(s[k], req))
  }

  function NextIndex(s: seq<Area>, k: nat, req: Area): nat {
    if HasCurr(s, k, req) then k + 1 else k
  }

  predicate MergesPrev(s: seq<Area>, k: nat, req: Area)
    requires k <= |s|
  {
    k > 0 && s[k - 1].end == req.start && s[k - 1].attr.policy == req.attr.policy && CanMergeAfter(s[k - 1], req)
  }

  predicate MergesNext(s: seq<Area>, k: nat, req: Area) {
    var n := NextIndex(s, k, req);
    && n < |s| && s[n].start == req.end && (HasCurr(s, k, req) ==> req.end == s[k].end)
    && s[n].attr.policy == req.attr.policy && CanMergeBefore(s[n], req)
  }

  predicate MergesBoth(s: seq<Area>, k: nat, req: Area)
    requires k <= |s|
  {
    && MergesPrev(s, k, req) && MergesNext(s, k, req)
    && MergeableAnon(s[k - 1].anon, s[NextIndex(s, k, req)].anon, true)
  }

  /** The list `vma_merge` leaves when no allocation fails, or None when it does
      not merge; the numbers are those of the cases in its description. */
  function Merged(s: seq<Area>, k: nat, req: Area): Option<seq<Area>>
    requires Site(s, k, req)
  {
    if req.attr.flags.special then None
    else if MergesBoth(s, k, req) then Some(JoinBoth(s, k, req))
    else if MergesPrev(s, k, req) then JoinPrev(s, k, req)
    else if MergesNext(s, k, req) then Some(JoinNext(s, k, req))
    else None
  }

  function JoinBoth(s: seq<Area>, k: nat, req: Area): seq<Area>
    requires k <= |s| && MergesBoth(s, k, req)
  {
    var p := s[k - 1];
    if HasCurr(s, k, req) then                                                            // case 6
      s[..k - 1] + [WithAnon(WithAnon(p, s[k + 1]), s[k]).(end := s[k + 1].end)] + s[k + 2..]
    else                                                                                  // case 1
      s[..k - 1] + [WithAnon(p, s[k]).(end := s[k].end)] + s[k + 1..]
  }

  function JoinPrev(s: seq<Area>, k: nat, req: Area): Option<seq<Area>>
    requires k <= |s| && MergesPrev(s, k, req)
  {
    var p := s[k - 1];
    if !HasCurr(s, k, req) then                                                           // case 2
      Some(s[..k - 1] + [p.(end := req.end)] + s[k..])
    else if req.end == s[k].end then                                                      // case 7
      if s[k].close then None
      else Some(s[..k - 1] + [WithAnon(p, s[k]).(end := req.end)] + s[k + 1..])
    else                                                                                  // case 5
      Some(s[..k - 1] + [WithAnon(p, s[k]).(end := req.end), Upper(s[k], req.end)] + s[k + 1..])
  }

  function JoinNext(s: seq<Area>, k: nat, req: Area): seq<Area>
    requires k <= |s| && MergesNext(s, k, req)
  {
    var n := s[NextIndex(s, k, req)];
    if InsidePrev(s, k, req) && !HasCurr(s, k, req) then                                  // case 4
      s[..k - 1] + [Lower(s[k - 1], req.start),
                    WithAnon(n, s[k - 1]).(start := req.start, pgoff := n.pgoff - (s[k - 1].end - req.start))]
                 + s[k + 1..]
    else if !HasCurr(s, k, req) then                                                      // case 3
      s[..k] + [n.(start := req.start, pgoff := n.pgoff - (req.end - req.start))] + s[k + 1..]
    else                                                                                  // case 8
      s[..k] + [WithAnon(n, s[k]).(start := req.start, pgoff := s[k].pgoff)] + s[k + 2..]
  }
}
