/** The steps that merging and expanding share: taking over anonymous backing,
    letting one VMA take the place of several, and moving a boundary. */
module Expand {
  import opened VmTypes
  import opened AreaList
  import opened MmStruct
  import opened Adjust
  import opened MergeSpec
  import T = RangeTree

  /** `dup_anon_vma`: area d takes over the backing of area c if it has none.
      When the clone fails it leaves dst without backing, which is what dst had. */
  method DupAnonVma(mm: Mm, dst: Vma, src: Vma, ghost d: nat, ghost c: nat) returns (ok: bool, dup: bool)
    requires mm.Valid() && d < |mm.tree| && c < |mm.tree| && d != c
    requires mm.tree[d].vma == dst && mm.tree[c].vma == src
    modifies dst`anon, dst`chain
    ensures mm.Valid()
    ensures mm.Areas() == if ok then Dupped(old(mm.Areas()), d, c) else old(mm.Areas())
    ensures ok ==> Undup(mm.Areas(), d, dup) == old(mm.Areas())
    ensures !mm.mayFail ==> ok
  {
    ghost var s := mm.Areas();
    assert AreaOk(s[d]);
    OnlyOnce(mm.tree, s, d);
    DuppedWf(s, d, c);
    ok, dup := true, false;
    if src.anon != null && dst.anon == null {
      dst.anon := src.anon;
      ok :| ok || mm.mayFail;
      if ok {
        assert dst.chain + src.chain == src.chain;
        dst.chain := dst.chain + src.chain;
        dup := true;
      } else {
        dst.anon := null;
      }
    }
    assert mm.Areas() == if ok then Dupped(s, d, c) else s;
  }

  function Dupped(s: seq<Area>, d: nat, c: nat): seq<Area>
    requires d < |s| && c < |s|
  {
    s[d := WithAnon(s[d], s[c])]
  }

  lemma DuppedWf(s: seq<Area>, d: nat, c: nat)
    requires Wf(s) && d < |s| && c < |s|
    ensures Wf(Dupped(s, d, c))
  {
    assert AreaOk(s[d]);
  }

  /** What the list becomes when areas i to j - 1 give way to area v, moved. */
  function Regrown(s: seq<Area>, i: nat, j: nat, v: nat, start: int, end: int, pgoff: int): seq<Area>
    requires i <= v < j <= |s|
  {
    s[..i] + [s[v].(start := start, end := end, pgoff := pgoff)] + s[j..]
  }

  /** `unlink_anon_vmas` for a backing that was taken over in vain. */
  function Undup(s: seq<Area>, v: nat, dup: bool): seq<Area>
    requires v < |s|
  {
    if dup then s[v := s[v].(anon := null, chain := [])] else s
  }

  lemma UndupWf(s: seq<Area>, v: nat, dup: bool)
    requires Wf(s) && v < |s|
    ensures Wf(Undup(s, v, dup))
  {
    assert AreaOk(s[v]);
  }

  /** `unlink_anon_vmas` on the failure path, if backing was taken over. */
  method UnlinkAnonVmas(mm: Mm, vma: Vma, dup: bool, ghost v: nat)
    requires mm.Valid() && v < |mm.tree| && mm.tree[v].vma == vma
    modifies vma`anon, vma`chain
    ensures mm.Valid() && mm.Areas() == Undup(old(mm.Areas()), v, dup)
    ensures !dup ==> mm.Areas() == old(mm.Areas())
  {
    ghost var s := mm.Areas();
    UndupWf(s, v, dup);
    hide Wf;
    if dup { vma.anon, vma.chain := null, []; }
    assert mm.Areas() == Undup(s, v, dup);
  }

  /** The middle of the tail of `vma_merge` and `vma_expand`: `vma` takes
      [start, end), which drops the other VMAs of the window from the tree. */
  method MoveOver(mm: Mm, vma: Vma, start: int, end: int, pgoff: int, ghost i: nat, ghost j: nat, ghost v: nat)
    requires mm.Valid() && i <= v < j <= |mm.tree| && mm.tree[v].vma == vma
    requires start <= mm.tree[i].lo && mm.tree[j - 1].hi <= end
    requires Wf(Regrown(mm.Areas(), i, j, v, start, end, pgoff))
    modifies mm`tree, vma`start, vma`end, vma`pgoff
    ensures mm.Sound() && mm.Attached() && mm.mapCount == old(mm.mapCount)
    ensures mm.Areas() == Regrown(old(mm.Areas()), i, j, v, start, end, pgoff)
    ensures mm.tree == old(mm.tree)[..i] + [Entry(start, end, vma)] + old(mm.tree)[j..]
  {
    hide Fits; hide Wf; hide Regrown; hide T.Stored;
    ghost var t, s := mm.tree, mm.Areas();
    OnlyOnce(t, s, v);
    vma.start, vma.end, vma.pgoff := start, end, pgoff;
    mm.tree := T.Stored(mm.tree, vma.start, vma.end, vma);
    RegrowDone(mm, t, s, i, j, v, start, end, pgoff);
    OneAttached(mm, t, i, j, Entry(start, end, vma));
  }

  /** The tail of `vma_merge` and `vma_expand`: unless the preallocation fails,
      `vma` takes [start, end) and the other VMAs of the window are disposed of. */
  method Regrow(mm: Mm, vma: Vma, start: int, end: int, pgoff: int, dup: bool,
                remove: Vma?, remove2: Vma?, ghost i: nat, ghost j: nat, ghost v: nat) returns (ok: bool)
    requires mm.Valid() && i <= v < j <= |mm.tree| && mm.tree[v].vma == vma
    requires j - i == 1 + (if remove != null then 1 else 0) + (if remove2 != null then 1 else 0)
    requires Outside(mm.tree, i, j, remove) && Outside(mm.tree, i, j, remove2)
    requires vma != remove && vma != remove2 && (remove2 != null ==> remove2 != remove)
    requires start <= mm.tree[i].lo && mm.tree[j - 1].hi <= end
    requires Wf(Regrown(mm.Areas(), i, j, v, start, end, pgoff))
    requires remove != null && remove.anon != null ==> vma.anon == remove.anon
    requires remove2 != null && remove2.anon != null ==> vma.anon == remove2.anon
    modifies mm`tree, mm`mapCount, vma, remove, remove2
    ensures mm.Valid()
    ensures ok ==> mm.Areas() == Regrown(old(mm.Areas()), i, j, v, start, end, pgoff)
    ensures ok ==> mm.tree == old(mm.tree)[..i] + [Entry(start, end, vma)] + old(mm.tree)[j..]
    ensures !ok ==> mm.tree == old(mm.tree) && mm.Areas() == Undup(old(mm.Areas()), v, dup)
    ensures !ok && !dup ==> mm.Areas() == old(mm.Areas())
    ensures !mm.mayFail ==> ok
  {
    hide Fits; hide Wf; hide Regrown; hide Undup; hide Outside;
    ok :| ok || mm.mayFail;
    if !ok {
      UnlinkAnonVmas(mm, vma, dup, v);
      return;
    }
    ghost var t, e := mm.tree, Entry(start, end, vma);
    MoveOver(mm, vma, start, end, pgoff, i, j, v);
    if remove != null {
      OutsideTree(mm, t, i, j, e, remove);
      CompleteRemove(mm, vma, remove);
    }
    if remove2 != null {
      OutsideTree(mm, t, i, j, e, remove2);
      CompleteRemove(mm, vma, remove2);
    }
  }

  lemma RegrowTree(t: seq<Entry>, s: seq<Area>, i: nat, j: nat, v: nat, start: int, end: int, pgoff: int)
    requires Fits(t, s) && i <= v < j <= |t|
    requires start <= t[i].lo && t[j - 1].hi <= end
    requires Wf(Regrown(s, i, j, v, start, end, pgoff))
    ensures start < end
    ensures T.Stored(t, start, end, t[v].vma) == t[..i] + [Entry(start, end, t[v].vma)] + t[j..]
  {
    var n := Regrown(s, i, j, v, start, end, pgoff);
    assert n[i].start == start && n[i].end == end && AreaOk(n[i]);
    assert i > 0 ==> n[i - 1] == s[i - 1] && t[i - 1].hi <= start;
    assert j < |t| ==> n[i + 1] == s[j] && end <= t[j].lo;
    hide Regrown; hide Wf;
    T.OverWhole(t, i, j, start, end, t[v].vma);
  }

  lemma RegrowDone(mm: Mm, t: seq<Entry>, s: seq<Area>, i: nat, j: nat, v: nat, start: int, end: int, pgoff: int)
    requires Fits(t, s) && i <= v < j <= |t|
    requires start <= t[i].lo && t[j - 1].hi <= end
    requires Wf(Regrown(s, i, j, v, start, end, pgoff))
    requires mm.tree == T.Stored(t, start, end, t[v].vma) && Owned(t, mm.repr)
    requires t[v].vma.Snapshot() == s[v].(start := start, end := end, pgoff := pgoff)
    requires forall k :: 0 <= k < |t| && k != v ==> t[k].vma.Snapshot() == s[k]
    ensures mm.Sound() && mm.Areas() == Regrown(s, i, j, v, start, end, pgoff)
    ensures mm.tree == t[..i] + [Entry(start, end, t[v].vma)] + t[j..]
  {
    RegrowTree(t, s, i, j, v, start, end, pgoff);
    hide T.Stored; hide Wf; hide T.Ordered; hide First;
    WindowOne(mm, t, s, i, j, Entry(start, end, t[v].vma), s[v].(start := start, end := end, pgoff := pgoff));
  }

  /** What the list becomes when the boundary between areas i and i + 1 moves. */
  function Shifted(s: seq<Area>, i: nat, y: int): seq<Area>
    requires i + 1 < |s|
  {
    s[..i] + [s[i].(end := y), Upper(s[i + 1], y)] + s[i + 2..]
  }

  lemma ShiftDone(mm: Mm, t: seq<Entry>, s: seq<Area>, i: nat, y: int)
    requires Fits(t, s) && i + 1 < |t| && t[i].hi == t[i + 1].lo && Wf(Shifted(s, i, y))
    requires t[i].lo < y < t[i + 1].hi && y != t[i].hi && Owned(t, mm.repr)
    requires mm.tree == if y > t[i].hi then T.Stored(t, t[i].lo, y, t[i].vma)
                                       else T.Stored(t, y, t[i + 1].hi, t[i + 1].vma)
    requires t[i].vma.Snapshot() == s[i].(end := y) && t[i + 1].vma.Snapshot() == Upper(s[i + 1], y)
    requires forall k :: 0 <= k < |t| && k != i && k != i + 1 ==> t[k].vma.Snapshot() == s[k]
    ensures mm.Sound() && mm.Areas() == Shifted(s, i, y)
    ensures mm.tree == t[..i] + [t[i].(hi := y), t[i + 1].(lo := y)] + t[i + 2..]
  {
    hide First; hide Wf; hide T.Stored; hide T.Ordered;
    if y > t[i].hi { T.OverNextFront(t, i, y); } else { T.OverPrevBack(t, i, y); }
    WindowTwo(mm, t, s, i, i + 2, t[i].(hi := y), t[i + 1].(lo := y), s[i].(end := y), Upper(s[i + 1], y));
  }

  /** The tail of `vma_merge` in cases 4 and 5: the boundary between `prev` and
      the VMA after it moves to y, unless the preallocation fails. */
  method ShiftBoundary(mm: Mm, prev: Vma, adjust: Vma, y: int, dup: bool, ghost i: nat) returns (ok: bool)
    requires mm.Valid() && i + 1 < |mm.tree| && mm.tree[i].vma == prev && mm.tree[i + 1].vma == adjust
    requires mm.tree[i].lo < y < mm.tree[i + 1].hi && y != mm.tree[i].hi == mm.tree[i + 1].lo
    requires prev.end == adjust.start == mm.tree[i].hi && prev.start == mm.tree[i].lo && adjust.end == mm.tree[i + 1].hi
    requires Wf(Shifted(mm.Areas(), i, y))
    modifies mm`tree, prev, adjust
    ensures mm.Valid()
    ensures ok ==> mm.Areas() == Shifted(old(mm.Areas()), i, y)
    ensures ok ==> mm.tree[..i] == old(mm.tree)[..i] && mm.tree[i + 2..] == old(mm.tree)[i + 2..]
    ensures ok ==> |mm.tree| == |old(mm.tree)| && mm.tree[i].vma == prev && mm.tree[i + 1].vma == adjust
    ensures !ok ==> mm.tree == old(mm.tree)
    ensures !ok ==> mm.Areas() == Undup(old(mm.Areas()), if y > old(prev.end) then i else i + 1, dup)
    ensures !mm.mayFail ==> ok
  {
    hide Fits; hide Wf; hide Shifted; hide Undup; hide T.Stored;
    ghost var t, s := mm.tree, mm.Areas();
    OnlyOnce(t, s, i);
    OnlyOnce(t, s, i + 1);
    var grow := y > prev.end;
    ok :| ok || mm.mayFail;
    if !ok {
      UnlinkAnonVmas(mm, if grow then prev else adjust, dup, if grow then i else i + 1);
      return;
    }
    var adjStart := y - adjust.start;
    prev.end := y;
    if grow { mm.Store(prev); }
    adjust.start := adjust.start + adjStart;
    adjust.pgoff := adjust.pgoff + adjStart;
    if !grow { mm.Store(adjust); }
    ShiftDone(mm, t, s, i, y);
    TwoAttached(mm, t, i, i + 2, t[i].(hi := y), t[i + 1].(lo := y));
  }

  /** `vma_expand`: `vma` takes [start, end), in place of `next` too when the
      range ends where `next` does; when an allocation fails nothing changes. */
  method VmaExpand(mm: Mm, vma: Vma, start: int, end: int, pgoff: int, next: Vma?, ghost v: nat) returns (ok: bool)
    requires mm.Valid() && v < |mm.tree| && mm.tree[v].vma == vma
    requires start <= mm.tree[v].lo && mm.tree[v].hi <= end
    requires var over := next != null && vma != next && end == next.end;
      && (over ==> v + 1 < |mm.tree| && mm.tree[v + 1].vma == next)
      && Wf(Expanded(mm.Areas(), v, over, start, end, pgoff))
      && (over ==> next.anon == null || vma.anon == null || next.anon == vma.anon)
    modifies mm`tree, mm`mapCount, vma, next
    ensures mm.Valid()
    ensures var over := old(next != null && vma != next && end == next.end);
      && (ok ==> mm.Areas() == Expanded(old(mm.Areas()), v, over, start, end, pgoff))
    ensures ok ==> v < |mm.tree| && mm.tree[v].vma == vma
    ensures !ok ==> mm.tree == old(mm.tree) && mm.Areas() == old(mm.Areas())
    ensures !mm.mayFail ==> ok
  {
    hide Fits; hide Wf; hide Regrown; hide Undup; hide Outside;
    ghost var s := mm.Areas();
    if next != null && vma != next && end == next.end {
      OnlyOnce(mm.tree, s, v);
      OutsideWindow(mm.tree, s, v, v + 2, v + 1);
      EntryAt(mm, v + 1);
      var dup;
      ok, dup := DupAnonVma(mm, vma, next, v, v + 1);
      if !ok { return; }
      ok := Regrow(mm, vma, start, end, pgoff, dup, next, null, v, v + 2, v);
    } else {
      OutsideWindow(mm.tree, s, v, v + 1, v);
      ok := Regrow(mm, vma, start, end, pgoff, false, null, null, v, v + 1, v);
    }
  }

  function Expanded(s: seq<Area>, v: nat, over: bool, start: int, end: int, pgoff: int): seq<Area>
    requires v < |s| && (over ==> v + 1 < |s|)
  {
    if over then Regrown(Dupped(s, v, v + 1), v, v + 2, v, start, end, pgoff)
    else Regrown(s, v, v + 1, v, start, end, pgoff)
  }
}
