/** `vma_shrink`: taking pages off one end of a VMA. */
module Shrink {
  import opened VmTypes
  import opened AreaList
  import opened MmStruct
  import opened MergeProof
  import T = RangeTree

  function Shrunken(s: seq<Area>, v: nat, start: int, end: int, pgoff: int): seq<Area>
    requires v < |s|
  {
    s[v := s[v].(start := start, end := end, pgoff := pgoff)]
  }

  lemma ShrunkenWf(s: seq<Area>, v: nat, start: int, end: int, pgoff: int)
    requires Wf(s) && v < |s| && s[v].start <= start < end <= s[v].end && 0 <= pgoff && pgoff + (end - start) < U64
    ensures Wf(Shrunken(s, v, start, end, pgoff))
  {
    assert AreaOk(s[v]);
  }

  lemma Replaced(s: seq<Area>, v: nat, a: Area)
    requires v < |s|
    ensures s[v := a] == s[..v] + [a] + s[v + 1..]
    ensures s[..v] + ([a] + s[v + 1..]) == s[v := a] && (s[..v] + [a]) + s[v + 1..] == s[v := a]
  {}

  /** With the offset moved along, the pages taken off leave the map and no other
      page changes. */
  lemma ShrunkenIsCut(s: seq<Area>, v: nat, x: int)
    requires Wf(s) && v < |s| && s[v].start < x < s[v].end
    ensures Shrunken(s, v, x, s[v].end, s[v].pgoff + (x - s[v].start)) == Cut(s, s[v].start, x)
    ensures Shrunken(s, v, s[v].start, x, s[v].pgoff) == Cut(s, x, s[v].end)
  {
    Neighbours(s, v);
    if v > 0 { Neighbours(s, v - 1); }
    hide Wf; hide Head; hide Tail;
    CutInside(s, v, x);
    CutBetween(s, v, s[v].start);
    CutBetween(s, v + 1, s[v].end);
    Replaced(s, v, Upper(s[v], x));
    Replaced(s, v, Lower(s[v], x));
  }

  lemma ClearedFront(t: seq<Entry>, v: nat, x: int)
    requires T.Ordered(t) && v < |t| && t[v].lo < x < t[v].hi
    ensures T.Cleared(t, t[v].lo, x) == t[..v] + [t[v].(lo := x)] + t[v + 1..]
  {
    if v > 0 { assert T.Before(t[v - 1], t[v]); }
    T.FirstIs(t, v, t[v].lo);
    T.FirstIs(t, v, x);
    hide T.First; hide T.Ordered;
    assert T.Below(t, t[v].lo) == t[..v];
    assert T.Above(t, x) == [t[v].(lo := x)] + t[v + 1..];
  }

  lemma ClearedBack(t: seq<Entry>, v: nat, x: int)
    requires T.Ordered(t) && v < |t| && t[v].lo < x < t[v].hi
    ensures T.Cleared(t, x, t[v].hi) == t[..v] + [t[v].(hi := x)] + t[v + 1..]
  {
    if v + 1 < |t| { assert T.Before(t[v], t[v + 1]); }
    T.FirstIs(t, v, x);
    T.FirstIs(t, v + 1, t[v].hi);
    hide T.First; hide T.Ordered;
    assert T.Below(t, x) == t[..v] + [t[v].(hi := x)];
    assert T.Above(t, t[v].hi) == t[v + 1..];
  }

  /** `vma_shrink`: the range leaves the tree and the VMA's own fields follow, or
      nothing changes. Only one of its ends may move. */
  method VmaShrink(mm: Mm, vma: Vma, start: int, end: int, pgoff: int, ghost v: nat) returns (ok: bool)
    requires mm.Valid() && v < |mm.tree| && mm.tree[v].vma == vma
    requires vma.start <= start < end <= vma.end && ((vma.start < start) != (end < vma.end))
    requires 0 <= pgoff && pgoff + (end - start) < U64
    modifies mm`tree, vma`start, vma`end, vma`pgoff
    ensures ok || mm.mayFail
    ensures mm.Valid() && mm.mapCount == old(mm.mapCount)
    ensures ok ==> mm.Areas() == Shrunken(old(mm.Areas()), v, start, end, pgoff)
    ensures !ok ==> mm.tree == old(mm.tree) && mm.Areas() == old(mm.Areas())
  {
    hide Fits; hide Wf; hide T.Cleared;
    ghost var t, s := mm.tree, mm.Areas();
    EntryAt(mm, v);
    OnlyOnce(t, s, v);
    SoundWf(mm);
    FitsOrdered(t, s);
    ShrunkenWf(s, v, start, end, pgoff);
    ok :| ok || mm.mayFail;
    if !ok { return; }
    if vma.start < start {
      ClearedFront(t, v, start);
      mm.tree := T.Cleared(mm.tree, vma.start, start);
    } else {
      ClearedBack(t, v, end);
      mm.tree := T.Cleared(mm.tree, end, vma.end);
    }
    vma.start, vma.end, vma.pgoff := start, end, pgoff;
    ghost var a := s[v].(start := start, end := end, pgoff := pgoff);
    assert Shrunken(s, v, start, end, pgoff) == s[..v] + [a] + s[v + 1..];
    WindowOne(mm, t, s, v, v + 1, Entry(start, end, vma), a);
    OneAttached(mm, t, v, v + 1, Entry(start, end, vma));
  }
}
