/** Tearing an address space down. */
module Exit {
  import opened AreaList
  import opened MmStruct
  import opened Munmap

  /** `exit_mmap`: every VMA is visited once, as many as map_count says, and what
      the VM_ACCOUNT ones were charged is given back. */
  method ExitMmap(mm: Mm) returns (count: int)
    requires mm.Valid()
    modifies mm
    ensures mm.tree == [] && count == old(mm.mapCount)
    ensures mm.charged == old(mm.charged) - Sum(Account, old(mm.Areas()))
    ensures old(mm.charged) == Sum(Account, old(mm.Areas())) ==> mm.charged == 0
  {
    hide Fits;
    ghost var s := mm.Areas();
    var accounted, i := 0, 0;
    count := 0;
    while i < |mm.tree|
      invariant i <= |mm.tree| && count == i && accounted == Sum(Account, s[..i])
      modifies {}
    {
      var vma := mm.tree[i].vma;
      if vma.attr.flags.account { accounted := accounted + (vma.end - vma.start); }
      SumNext(Account, s, i);
      count, i := count + 1, i + 1;
    }
    assert s[..i] == s;
    assert count == mm.mapCount;
    mm.tree := [];
    mm.charged := mm.charged - accounted;
  }
}
