/** The values and objects the address-space engine works on: page arithmetic,
    VMA flags, the lockable objects behind a VMA, and the VMA object itself. */
module VmTypes {

  const PAGE: nat := 4096
  const TASK_SIZE: nat := 0x7FFF_FFFF_F000
  const TASK_PAGES: nat := 0x7_FFFF_FFFF
  const U64: nat := 0x1_0000_0000_0000_0000

  datatype Option<+T> = None | Some(value: T)

  datatype Errno = EPERM | EINTR | EAGAIN | ENOMEM | EFAULT | EEXIST | EINVAL | EOVERFLOW | ESRCH

  /** `PAGE_ALIGN(x) >> PAGE_SHIFT` for an unsigned 64-bit x: adding PAGE - 1
      may wrap, and the result is then 0. */
  function PageAlign(x: int): (r: int)
    ensures 0 <= r
  {
    (x + PAGE - 1) % U64 / PAGE
  }

  /** Unsigned 64-bit addition and subtraction. */
  function Add64(x: int, y: int): int { (x + y) % U64 }
  function Sub64(x: int, y: int): int { (x - y) % U64 }

  /** `vm_flags`, one field for each bit the engine tests; `special` stands for
      any bit of VM_SPECIAL, `other` for the bits that are only compared. */
  datatype Flags = Flags(
    read: bool, write: bool, exec: bool, shared: bool,
    locked: bool, account: bool, noReserve: bool, softDirty: bool,
    growsDown: bool, special: bool, hugetlb: bool, other: nat)

  /** The flags up to VM_SOFTDIRTY, which never prevents a merge. */
  function Clean(f: Flags): Flags { f.(softDirty := false) }

  /** `vma_is_accessible` */
  predicate Accessible(f: Flags) { f.read || f.write || f.exec }

  /** `accountable_mapping` for a mapping without a huge-page file. */
  predicate Accountable(f: Flags) { f.write && !f.shared && !f.noReserve }

  /** `struct address_space`: the AS_MM_ALL_LOCKS bit and the i_mmap_rwsem. */
  class AddressSpace {
    var marked: bool
    var held: bool
    constructor () ensures !marked && !held { marked, held := false, false; }
  }

  class File {
    const mapping: AddressSpace?
    constructor (m: AddressSpace?) ensures mapping == m { mapping := m; }
  }

  /** A root anon_vma: bit 0 of its rb_root node pointer and its rwsem. */
  class AnonRoot {
    var marked: bool
    var held: bool
    constructor () ensures !marked && !held { marked, held := false, false; }
  }

  class AnonVma {
    const root: AnonRoot
    constructor (r: AnonRoot) ensures root == r { root := r; }
  }

  /** What two VMAs have to agree on to be merged, besides their offsets and
      anonymous backing. `policy`, `uffd` and `name` are the identities of the
      memory policy, the userfaultfd context and the anonymous name, 0 for NULL. */
  datatype Attr = Attr(flags: Flags, file: File?, policy: int, uffd: int, name: int)

  function CleanAttr(t: Attr): Attr { t.(flags := Clean(t.flags)) }

  /** What a VMA says about itself. `start` and `end` are page numbers: vm_start
      and vm_end are multiples of the page size throughout. `chain` is the
      anon_vma_chain; `close` tells whether vm_ops has a close hook. */
  datatype Area = Area(
    start: int, end: int, pgoff: int, attr: Attr, anon: AnonVma?, chain: seq<AnonVma>, close: bool)

  /** `struct vm_area_struct` */
  class Vma {
    var start: int
    var end: int
    var pgoff: int
    var attr: Attr
    var anon: AnonVma?
    var chain: seq<AnonVma>
    var close: bool
    var detached: bool

    /** `vm_area_alloc` followed by filling in the fields, or `vm_area_dup`. */
    constructor (a: Area)
      ensures Snapshot() == a && !detached
    {
      start, end, pgoff, attr := a.start, a.end, a.pgoff, a.attr;
      anon, chain, close, detached := a.anon, a.chain, a.close, false;
    }

    function Snapshot(): Area
      reads this
    {
      Area(start, end, pgoff, attr, anon, chain, close)
    }
  }

  /** One range of the tree that indexes addresses to VMAs: the pages lo to hi - 1. */
  datatype Entry = Entry(lo: int, hi: int, vma: Vma)
}
