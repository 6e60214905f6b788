/** The per-process memory limiter: the list of limits, the four administrative
    calls, and the test made before a process is given memory. */
module Limits {
  import opened VmTypes
  import opened MmStruct

  datatype Limit = Limit(pid: int, memoryLimit: nat)

  const LONG_MAX: nat := 0x7FFF_FFFF_FFFF_FFFF

  /** The return codes of the administrative calls. */
  const EPERM_CODE := -1
  const ESRCH_CODE := -3
  const ENOMEM_CODE := -12
  const EFAULT_CODE := -14
  const EINVAL_CODE := -22
  const BELOW_USAGE := -100
  const ALREADY_LIMITED := -101
  const NOT_LIMITED := -102

  /** The index of the first entry for pid, or the length of the list. */
  function Find(s: seq<Limit>, pid: int): (r: nat)
    ensures r <= |s| && (r < |s| ==> s[r].pid == pid)
    ensures forall i :: 0 <= i < r ==> s[i].pid != pid
  {
    if s == [] || s[0].pid == pid then 0 else 1 + Find(s[1..], pid)
  }

  ghost predicate NoTwice(s: seq<Limit>) {
    forall i, j :: 0 <= i < j < |s| ==> s[i].pid != s[j].pid
  }

  /** `total_vm << PAGE_SHIFT` */
  function Usage(mm: Mm): int
    reads mm
  {
    mm.totalVm * PAGE % U64
  }

  /** Whether the list lets a process with that usage have that much more: the
      sum is an unsigned 64-bit sum. */
  predicate AcceptedBy(s: seq<Limit>, pid: int, usage: int, requested: int) {
    var i := Find(s, pid);
    i < |s| ==> Add64(usage, requested) <= s[i].memoryLimit
  }

  /** A usage that has wrapped adds up as if it had not. */
  lemma UsageAdds(pages: int, requested: int)
    ensures Add64(pages * PAGE % U64, requested) == (pages * PAGE + requested) % U64
  {
    assert pages * PAGE == pages * PAGE / U64 * U64 + pages * PAGE % U64;
    WholeTimes(pages * PAGE % U64 + requested, pages * PAGE / U64);
  }

  lemma WholeTimes(x: int, k: int)
    ensures (x + k * U64) % U64 == x % U64
  {}

  /** The comparison that denies a request, for the first entry of the process. */
  lemma DeniedIs(s: seq<Limit>, pid: int, pages: int, requested: int)
    ensures !AcceptedBy(s, pid, pages * PAGE % U64, requested) <==>
      (exists i ::
        && 0 <= i < |s| && s[i].pid == pid && (forall j :: 0 <= j < i ==> s[j].pid != pid)
        && s[i].memoryLimit < (pages * PAGE + requested) % U64)
  {
    UsageAdds(pages, requested);
    var f := Find(s, pid);
    forall i | 0 <= i < |s| && s[i].pid == pid && (forall j :: 0 <= j < i ==> s[j].pid != pid) ensures i == f {}
  }

  /** No entry of the process is below so many bytes. */
  ghost predicate Suffices(s: seq<Limit>, pid: int, bytes: int) {
    forall i :: 0 <= i < |s| && s[i].pid == pid ==> bytes <= s[i].memoryLimit
  }

  /** A process that would still be within its limit with so many more bytes, or fewer,
      is not denied them, and one without an entry is denied nothing. */
  lemma WithinIsAccepted(s: seq<Limit>, pid: int, pages: int, more: int)
    requires 0 <= pages * PAGE + more && Suffices(s, pid, pages * PAGE + more)
    ensures AcceptedBy(s, pid, pages * PAGE % U64, more % U64)
  {
    UsageAdds(pages, more % U64);
    assert more == more / U64 * U64 + more % U64;
    WholeTimes(pages * PAGE + more % U64, more / U64);
    assert (pages * PAGE + more) % U64 <= pages * PAGE + more;
  }

  /** `memory_list` and the processes that `find_task_by_vpid` knows; a kernel
      thread has no mm. */
  class MemoryList {
    var entries: seq<Limit>
    const tasks: map<int, Mm?>

    constructor (tasks: map<int, Mm?>)
      ensures entries == [] && this.tasks == tasks
    {
      entries := [];
      this.tasks := tasks;
    }

    /** The loops over the list look for the first entry of a process. */
    method Search(pid: int) returns (i: nat)
      ensures i == Find(entries, pid)
    {
      i := 0;
      while i < |entries| && entries[i].pid != pid
        invariant i <= |entries| && Find(entries, pid) == i + Find(entries[i..], pid)
      {
        assert entries[i..][1..] == entries[i + 1..];
        i := i + 1;
      }
    }

    /** `is_request_accepted`: the sum of usage and request is an unsigned 64-bit
        sum, and a process without an entry is never denied. */
    method IsRequestAccepted(pid: int, requested: nat) returns (ok: bool)
      requires requested < U64
      ensures ok <==> pid in tasks && tasks[pid] != null && AcceptedBy(entries, pid, Usage(tasks[pid]), requested)
      ensures pid !in tasks || tasks[pid] == null ==> !ok
      ensures pid in tasks && tasks[pid] != null ==>
        (!ok <==>
          (exists i ::
            && 0 <= i < |entries| && entries[i].pid == pid && (forall j :: 0 <= j < i ==> entries[j].pid != pid)
            && entries[i].memoryLimit < (tasks[pid].totalVm * 4096 + requested) % 0x1_0000_0000_0000_0000))
    {
      if pid !in tasks || tasks[pid] == null { return false; }
      DeniedIs(entries, pid, tasks[pid].totalVm, requested);
      var i := Search(pid);
      ok := i == |entries| || Add64(Usage(tasks[pid]), requested) <= entries[i].memoryLimit;
    }

    /** `matus_add_memory_limit`. It reads the usage of the process through its mm
        without looking whether there is one: for a kernel thread the call does not
        return, which is the outcome None. */
    method AddMemoryLimit(pid: int, limit: nat, admin: bool, gotMemory: bool) returns (code: Option<int>)
      requires limit < U64
      modifies `entries
      ensures code == None <==> pid >= 0 && pid in tasks && admin && limit <= LONG_MAX && tasks[pid] == null
      ensures code == Some(0) <==>
        && pid >= 0 && pid in tasks && admin && limit <= LONG_MAX && tasks[pid] != null && Usage(tasks[pid]) <= limit
        && Find(old(entries), pid) == |old(entries)| && gotMemory
      ensures entries == if code == Some(0) then [Limit(pid, limit)] + old(entries) else old(entries)
      ensures code == Some(-22) <==> pid < 0 || (pid in tasks && admin && limit >= 0x8000_0000_0000_0000)
      ensures code == Some(-3) <==> pid >= 0 && pid !in tasks
      ensures code == Some(-1) <==> pid >= 0 && pid in tasks && !admin
      ensures code == Some(-100) <==>
        && pid >= 0 && pid in tasks && admin && limit < 0x8000_0000_0000_0000 && tasks[pid] != null
        && limit < tasks[pid].totalVm * 4096 % 0x1_0000_0000_0000_0000
      ensures code.Some? ==> code.value in {0, -1, -3, -12, -22, -100, -101}
      ensures code in {Some(0), Some(-12), Some(-101)} ==>
        if exists i :: 0 <= i < |old(entries)| && old(entries)[i].pid == pid then code == Some(-101)
        else code == Some(if gotMemory then 0 else -12)
    {
      if pid < 0 { return Some(EINVAL_CODE); }
      if pid !in tasks { return Some(ESRCH_CODE); }
      if !admin { return Some(EPERM_CODE); }
      if limit > LONG_MAX { return Some(EINVAL_CODE); }
      var mm := tasks[pid];
      if mm == null { return None; }
      if limit < Usage(mm) { return Some(BELOW_USAGE); }
      var i := Search(pid);
      if i < |entries| { return Some(ALREADY_LIMITED); }
      if !gotMemory { return Some(ENOMEM_CODE); }
      entries := [Limit(pid, limit)] + entries;
      code := Some(0);
    }

    /** `matus_get_memory_limits`: the first entries of the list, as many as the
        caller has room for, in its buffer, and their number. A copy that fails may
        have written some of them; when only the number cannot be written the
        entries have been. */
    method GetMemoryLimits(hasBuffers: bool, maxEntries: nat, gotMemory: bool, copied: bool, put: bool)
      returns (code: int, buffer: seq<Limit>, number: Option<nat>)
      ensures code ==
        if !hasBuffers || maxEntries == 0 then -22 else if !gotMemory then -12 else if !copied || !put then -14 else 0
      ensures buffer <= entries && (buffer != [] ==> hasBuffers && |buffer| <= maxEntries && gotMemory)
      ensures hasBuffers && maxEntries > 0 && gotMemory && copied ==>
        |buffer| == if maxEntries < |entries| then maxEntries else |entries|
      ensures number == if code == 0 then Some(|buffer|) else None
    {
      buffer, number := [], None;
      if !hasBuffers || maxEntries <= 0 { return EINVAL_CODE, buffer, number; }
      if !gotMemory { return ENOMEM_CODE, buffer, number; }
      var k, count := [], 0;
      while count < |entries| && count < maxEntries
        invariant count <= |entries| && count <= maxEntries && k == entries[..count]
      {
        k := k + [entries[count]];
        count := count + 1;
      }
      if !copied {
        var part: nat :| part <= |k|;
        return EFAULT_CODE, k[..part], number;
      }
      if !put { return EFAULT_CODE, k, number; }
      return 0, k, Some(count);
    }

    /** `matus_update_memory_limit`: the test for a negative limit is made on an
        unsigned number, so every limit passes it; nor is usage looked at. */
    method UpdateMemoryLimit(pid: int, limit: nat, admin: bool) returns (code: int)
      requires limit < U64
      modifies `entries
      ensures code == 0 <==> admin && pid >= 0 && Find(old(entries), pid) < |old(entries)|
      ensures code != 0 ==> code == if !admin then -1 else if pid < 0 then -22 else -102
      ensures code == 0 ==> entries == old(entries)[Find(old(entries), pid) := Limit(pid, limit)]
      ensures code != 0 ==> entries == old(entries)
    {
      if !admin { return EPERM_CODE; }
      if pid < 0 { return EINVAL_CODE; }
      var i := Search(pid);
      if i == |entries| { return NOT_LIMITED; }
      entries := entries[i := entries[i].(memoryLimit := limit)];
      code := 0;
    }

    /** `matus_remove_memory_limit` */
    method RemoveMemoryLimit(pid: int, admin: bool) returns (code: int)
      modifies `entries
      ensures code == 0 <==> admin && pid >= 0 && Find(old(entries), pid) < |old(entries)|
      ensures code != 0 ==> code == if !admin then -1 else if pid < 0 then -22 else -102
      ensures var i := Find(old(entries), pid);
        entries == if code == 0 then old(entries)[..i] + old(entries)[i + 1..] else old(entries)
    {
      if !admin { return EPERM_CODE; }
      if pid < 0 { return EINVAL_CODE; }
      var i := Search(pid);
      if i == |entries| { return NOT_LIMITED; }
      entries := entries[..i] + entries[i + 1..];
      code := 0;
    }
  }
}
