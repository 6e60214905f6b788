/** The tree that indexes address ranges to VMAs, as a sorted sequence of
    ranges. A store overwrites whatever lies in its range, trimming the ranges
    it partly covers; a clear does the same and stores nothing. */
module RangeTree {
  import opened VmTypes

  predicate Before(e: Entry, f: Entry) { e.hi <= f.lo }

  ghost predicate Ordered(t: seq<Entry>) {
    && (forall i :: 0 <= i < |t| ==> t[i].lo < t[i].hi)
    && (forall i, j :: 0 <= i < j < |t| ==> Before(t[i], t[j]))
  }

  predicate Differ(e: Entry, f: Entry) { e.vma != f.vma }

  ghost predicate Distinct(t: seq<Entry>) {
    forall i, j :: 0 <= i < j < |t| ==> Differ(t[i], t[j])
  }

  /** The index of the first range that ends above x. */
  function First(t: seq<Entry>, x: int): (r: nat)
    ensures r <= |t|
    ensures forall k :: 0 <= k < r ==> t[k].hi <= x
    ensures r < |t| ==> x < t[r].hi
  {
    if t == [] || x < t[0].hi then 0 else 1 + First(t[1..], x)
  }

  lemma FirstIs(t: seq<Entry>, i: nat, x: int)
    requires Ordered(t) && i <= |t|
    requires i > 0 ==> t[i - 1].hi <= x
    requires i < |t| ==> x < t[i].hi
    ensures First(t, x) == i
  {
  }

  function Below(t: seq<Entry>, x: int): seq<Entry> {
    var i := First(t, x);
    if i < |t| && t[i].lo < x then t[..i] + [t[i].(hi := x)] else t[..i]
  }

  function Above(t: seq<Entry>, x: int): seq<Entry> {
    var i := First(t, x);
    if i < |t| && t[i].lo < x then [t[i].(lo := x)] + t[i + 1..] else t[i..]
  }

  function Stored(t: seq<Entry>, lo: int, hi: int, v: Vma): seq<Entry> {
    Below(t, lo) + [Entry(lo, hi, v)] + Above(t, hi)
  }

  function Cleared(t: seq<Entry>, lo: int, hi: int): seq<Entry> {
    Below(t, lo) + Above(t, hi)
  }

  /** Storing or clearing over whole ranges i..j replaces exactly these. */
  lemma OverWhole(t: seq<Entry>, i: nat, j: nat, lo: int, hi: int, v: Vma)
    requires Ordered(t) && i <= j <= |t| && lo < hi
    requires i > 0 ==> t[i - 1].hi <= lo
    requires j < |t| ==> hi <= t[j].lo
    requires i < j ==> lo <= t[i].lo && t[j - 1].hi <= hi
    ensures Stored(t, lo, hi, v) == t[..i] + [Entry(lo, hi, v)] + t[j..]
    ensures Cleared(t, lo, hi) == t[..i] + t[j..]
  {
    FirstIs(t, i, lo);
    FirstIs(t, j, hi);
  }

  /** Storing a front part of range i leaves its rest in place. */
  lemma OverFront(t: seq<Entry>, i: nat, x: int, v: Vma)
    requires Ordered(t) && i < |t| && t[i].lo < x < t[i].hi
    ensures Stored(t, t[i].lo, x, v) == t[..i] + [Entry(t[i].lo, x, v), t[i].(lo := x)] + t[i + 1..]
  {
    FirstIs(t, i, t[i].lo);
    FirstIs(t, i, x);
  }

  lemma OverBack(t: seq<Entry>, i: nat, x: int, v: Vma)
    requires Ordered(t) && i < |t| && t[i].lo < x < t[i].hi
    ensures Stored(t, x, t[i].hi, v) == t[..i] + [t[i].(hi := x), Entry(x, t[i].hi, v)] + t[i + 1..]
  {
    FirstIs(t, i, x);
    FirstIs(t, i + 1, t[i].hi);
  }

  /** Growing range i into the front of range i + 1, and the other way round. */
  lemma OverNextFront(t: seq<Entry>, i: nat, x: int)
    requires Ordered(t) && i + 1 < |t| && t[i].hi == t[i + 1].lo < x < t[i + 1].hi
    ensures Stored(t, t[i].lo, x, t[i].vma) == t[..i] + [t[i].(hi := x), t[i + 1].(lo := x)] + t[i + 2..]
  {
    FirstIs(t, i, t[i].lo);
    FirstIs(t, i + 1, x);
  }

  lemma OverPrevBack(t: seq<Entry>, i: nat, x: int)
    requires Ordered(t) && i + 1 < |t| && t[i].hi == t[i + 1].lo && t[i].lo < x < t[i].hi
    ensures Stored(t, x, t[i + 1].hi, t[i + 1].vma) == t[..i] + [t[i].(hi := x), t[i + 1].(lo := x)] + t[i + 2..]
  {
    FirstIs(t, i, x);
    FirstIs(t, i + 2, t[i + 1].hi);
  }
}
