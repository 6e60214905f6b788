/** Taking, and dropping, the locks of everything an address space is backed by. */
module AllLocks {
  import opened VmTypes
  import opened MmStruct
  import opened Adjust

  /** The i_mmap_rwsem of a file mapping, or the rwsem of a root anon_vma. */
  datatype Lock = Map(m: AddressSpace) | Root(r: AnonRoot)

  datatype Phase = Huge | Other | Anon

  function MappingOf(a: Area): AddressSpace? {
    if a.attr.file == null then null else a.attr.file.mapping
  }

  function RootsOf(chain: seq<AnonVma>): (r: seq<Lock>)
    ensures |r| == |chain| && forall i :: 0 <= i < |r| ==> r[i] == Root(chain[i].root)
  {
    seq(|chain|, i requires 0 <= i < |chain| => Root(chain[i].root))
  }

  /** The locks an area asks for in a phase. */
  function Asked(a: Area, p: Phase): seq<Lock> {
    match p
    case Huge => if MappingOf(a) != null && a.attr.flags.hugetlb then [Map(MappingOf(a))] else []
    case Other => if MappingOf(a) != null && !a.attr.flags.hugetlb then [Map(MappingOf(a))] else []
    case Anon => if a.anon != null then RootsOf(a.chain) else []
  }

  function AskedIn(s: seq<Area>, p: Phase): seq<Lock> {
    if s == [] then [] else AskedIn(s[..|s| - 1], p) + Asked(s[|s| - 1], p)
  }

  function Order(s: seq<Area>): seq<Lock> { AskedIn(s, Huge) + AskedIn(s, Other) + AskedIn(s, Anon) }

  /** The locks taken when those of `asked` are asked for in turn, each being
      passed over if it has been taken before. */
  function Taken(log: seq<Lock>, asked: seq<Lock>): seq<Lock> {
    if asked == [] then log
    else
      var t, l := Taken(log, asked[..|asked| - 1]), asked[|asked| - 1];
      if l in t then t else t + [l]
  }

  ghost function Set(log: seq<Lock>): set<Lock> { set l | l in log }

  ghost predicate NoRepeat(log: seq<Lock>) { forall i, j :: 0 <= i < j < |log| ==> log[i] != log[j] }

  lemma {:induction false} TakenIs(log: seq<Lock>, asked: seq<Lock>)
    requires NoRepeat(log)
    ensures var t := Taken(log, asked);
      && NoRepeat(t) && log <= t
      && (forall l :: l in t <==> l in log || l in asked)
      && Set(t) == Set(log) + Set(asked)
      && forall i :: |log| <= i < |t| ==> t[i] in asked
  {
    if asked != [] {
      var n := |asked| - 1;
      TakenIs(log, asked[..n]);
      assert asked == asked[..n] + [asked[n]];
      assert Set(asked) == Set(asked[..n]) + {asked[n]};
    }
  }

  lemma {:induction false} TakenConcat(log: seq<Lock>, a: seq<Lock>, b: seq<Lock>)
    ensures Taken(log, a + b) == Taken(Taken(log, a), b)
  {
    if b == [] {
      assert a + b == a;
    } else {
      TakenConcat(log, a, b[..|b| - 1]);
      assert (a + b)[..|a + b| - 1] == a + b[..|b| - 1];
    }
  }

  lemma {:induction false} AskedIs(s: seq<Area>, p: Phase)
    ensures forall l :: l in AskedIn(s, p) <==> exists i :: 0 <= i < |s| && l in Asked(s[i], p)
    ensures forall l :: l in AskedIn(s, p) ==> (l.Root? <==> p == Anon)
  {
    if s != [] {
      var t := s[..|s| - 1];
      AskedIs(t, p);
      forall l ensures l in AskedIn(s, p) <==> exists i :: 0 <= i < |s| && l in Asked(s[i], p) {
        if i :| 0 <= i < |t| && l in Asked(t[i], p) { assert l in Asked(s[i], p); }
        if i :| 0 <= i < |s| && l in Asked(s[i], p) { assert i < |t| ==> l in Asked(t[i], p); }
      }
    }
  }

  /** The rank of a lock in the locking order. */
  function Rank(s: seq<Area>, l: Lock): nat {
    if l.Root? then 2 else if l in AskedIn(s, Huge) then 0 else 1
  }

  lemma LaterIsNew(log: seq<Lock>, h: seq<Lock>)
    requires NoRepeat(log) && h <= log
    ensures forall i :: |h| <= i < |log| ==> log[i] !in h
  {}

  lemma Ranked(s: seq<Area>, h: seq<Lock>, o: seq<Lock>, log: seq<Lock>)
    requires NoRepeat(log) && h <= o <= log
    requires forall l :: l in h <==> l in AskedIn(s, Huge)
    requires forall i :: |h| <= i < |o| ==> o[i].Map?
    requires forall i :: |o| <= i < |log| ==> log[i].Root?
    requires forall l :: l in AskedIn(s, Huge) ==> l.Map?
    ensures forall i, j :: 0 <= i < j < |log| ==> Rank(s, log[i]) <= Rank(s, log[j])
  {
    LaterIsNew(log, h);
    assert forall i :: 0 <= i < |h| ==> log[i] == h[i] && log[i] in h;
    assert forall i :: |h| <= i < |o| ==> log[i] == o[i];
    hide NoRepeat;
    assert forall i :: 0 <= i < |log| ==> Rank(s, log[i]) == if i < |h| then 0 else if i < |o| then 1 else 2;
  }

  /** Taking everything takes each lock that any area asks for exactly once, the
      mappings of huge-page areas before the other mappings before the roots. */
  lemma EachOnceInOrder(s: seq<Area>)
    ensures var log := Taken([], Order(s));
      && NoRepeat(log) && Set(log) == Set(Order(s))
      && forall i, j :: 0 <= i < j < |log| ==> Rank(s, log[i]) <= Rank(s, log[j])
  {
    hide Taken; hide AskedIn; hide Rank; hide NoRepeat;
    assert NoRepeat([]) by { NothingRepeats(); }
    var h := Taken([], AskedIn(s, Huge));
    var o := Taken(h, AskedIn(s, Other));
    TakenConcat([], AskedIn(s, Huge), AskedIn(s, Other));
    TakenConcat([], AskedIn(s, Huge) + AskedIn(s, Other), AskedIn(s, Anon));
    TakenIs([], AskedIn(s, Huge));
    TakenIs(h, AskedIn(s, Other));
    TakenIs(o, AskedIn(s, Anon));
    AskedIs(s, Huge);
    AskedIs(s, Other);
    AskedIs(s, Anon);
    Ranked(s, h, o, Taken([], Order(s)));
    TakenIs([], Order(s));
  }

  lemma NothingRepeats()
    ensures NoRepeat([])
  {}

  // ---------------------------------------------------------------------
  // The same, said of the areas alone
  // ---------------------------------------------------------------------

  /** Area a maps a file with mapping m; area a has a backing with root r in its chain. */
  predicate FileMapped(a: Area, m: AddressSpace) { a.attr.file != null && a.attr.file.mapping == m }

  predicate BackedBy(a: Area, r: AnonRoot) { a.anon != null && exists j :: 0 <= j < |a.chain| && a.chain[j].root == r }

  /** Some area maps m, being for huge pages or not; some area is backed by r. */
  ghost predicate MappedIn(s: seq<Area>, m: AddressSpace, huge: bool) {
    exists i :: 0 <= i < |s| && FileMapped(s[i], m) && s[i].attr.flags.hugetlb == huge
  }

  ghost predicate BackedIn(s: seq<Area>, r: AnonRoot) { exists i :: 0 <= i < |s| && BackedBy(s[i], r) }

  /** The log has exactly the mappings of the areas that map a file and the roots of
      the chains of the areas that have a backing, each once; a mapping of a huge-page
      area comes before one of no such area, and every mapping before every root. */
  ghost predicate LockingOrder(s: seq<Area>, log: seq<Lock>) {
    && (forall i, j :: 0 <= i < j < |log| ==> log[i] != log[j])
    && (forall i :: 0 <= i < |log| ==>
         if log[i].Map? then MappedIn(s, log[i].m, true) || MappedIn(s, log[i].m, false) else BackedIn(s, log[i].r))
    && (forall i :: 0 <= i < |s| && s[i].attr.file != null && s[i].attr.file.mapping != null ==>
         Map(s[i].attr.file.mapping) in log)
    && (forall i, j :: 0 <= i < |s| && s[i].anon != null && 0 <= j < |s[i].chain| ==> Root(s[i].chain[j].root) in log)
    && (forall i, j :: 0 <= i < |log| && 0 <= j < |log| && log[i].Map? && log[j].Root? ==> i < j)
    && forall i, j :: 0 <= i < |log| && 0 <= j < |log| && log[i].Map? && log[j].Map? ==>
         MappedIn(s, log[i].m, true) && !MappedIn(s, log[j].m, true) ==> i < j
  }

  lemma MappingAsked(s: seq<Area>, m: AddressSpace, huge: bool)
    ensures Map(m) in AskedIn(s, if huge then Huge else Other) <==> MappedIn(s, m, huge)
  {
    hide AskedIn;
    var p := if huge then Huge else Other;
    AskedIs(s, p);
    if i :| 0 <= i < |s| && Map(m) in Asked(s[i], p) { assert FileMapped(s[i], m); }
    if i :| 0 <= i < |s| && FileMapped(s[i], m) && s[i].attr.flags.hugetlb == huge { assert Map(m) in Asked(s[i], p); }
  }

  lemma RootAsked(s: seq<Area>, r: AnonRoot)
    ensures Root(r) in AskedIn(s, Anon) <==> BackedIn(s, r)
  {
    hide AskedIn;
    AskedIs(s, Anon);
    if i :| 0 <= i < |s| && Root(r) in Asked(s[i], Anon) {
      var j :| 0 <= j < |s[i].chain| && RootsOf(s[i].chain)[j] == Root(r);
      assert s[i].chain[j].root == r;
      assert BackedBy(s[i], r);
    }
    if i :| 0 <= i < |s| && BackedBy(s[i], r) {
      var j :| 0 <= j < |s[i].chain| && s[i].chain[j].root == r;
      assert RootsOf(s[i].chain)[j] == Root(r);
      assert Root(r) in Asked(s[i], Anon);
    }
  }

  /** What each phase asks for. */
  lemma AskedMeans(s: seq<Area>)
    ensures forall m :: Map(m) in AskedIn(s, Huge) <==> MappedIn(s, m, true)
    ensures forall m :: Map(m) in AskedIn(s, Other) <==> MappedIn(s, m, false)
    ensures forall r :: Root(r) in AskedIn(s, Anon) <==> BackedIn(s, r)
    ensures forall p, l :: l in AskedIn(s, p) ==> (l.Root? <==> p == Anon)
  {
    hide AskedIn; hide MappedIn; hide BackedIn;
    forall m ensures Map(m) in AskedIn(s, Huge) <==> MappedIn(s, m, true) { MappingAsked(s, m, true); }
    forall m ensures Map(m) in AskedIn(s, Other) <==> MappedIn(s, m, false) { MappingAsked(s, m, false); }
    forall r ensures Root(r) in AskedIn(s, Anon) <==> BackedIn(s, r) { RootAsked(s, r); }
    forall p, l | l in AskedIn(s, p) ensures l.Root? <==> p == Anon { AskedIs(s, p); }
  }

  lemma AllAsked(s: seq<Area>, i: nat)
    requires i < |s|
    ensures s[i].attr.file != null && s[i].attr.file.mapping != null ==> Map(s[i].attr.file.mapping) in Order(s)
    ensures s[i].anon != null ==> forall j :: 0 <= j < |s[i].chain| ==> Root(s[i].chain[j].root) in Order(s)
  {
    hide AskedIn;
    AreaAsks(s, i);
  }

  lemma AreaAsks(s: seq<Area>, i: nat)
    requires i < |s|
    ensures s[i].attr.file != null && s[i].attr.file.mapping != null ==>
      Map(s[i].attr.file.mapping) in AskedIn(s, if s[i].attr.flags.hugetlb then Huge else Other)
    ensures s[i].anon != null ==> forall j :: 0 <= j < |s[i].chain| ==> Root(s[i].chain[j].root) in AskedIn(s, Anon)
  {
    hide AskedIn;
    AskedMeans(s);
    if s[i].anon != null {
      forall j | 0 <= j < |s[i].chain| ensures Root(s[i].chain[j].root) in AskedIn(s, Anon) {
        assert BackedBy(s[i], s[i].chain[j].root);
      }
    }
    if s[i].attr.file != null && s[i].attr.file.mapping != null {
      assert FileMapped(s[i], s[i].attr.file.mapping);
      assert MappedIn(s, s[i].attr.file.mapping, s[i].attr.flags.hugetlb);
    }
  }

  /** All the locks behind an address space are taken, once each and in order. */
  lemma TakenInLockingOrder(s: seq<Area>)
    ensures LockingOrder(s, Taken([], Order(s)))
  {
    hide Taken; hide AskedIn; hide MappedIn; hide BackedIn; hide Order; hide Rank;
    EachOnceInOrder(s);
    var log := Taken([], Order(s));
    forall i | 0 <= i < |log|
      ensures Rank(s, log[i]) == if log[i].Root? then 2 else if MappedIn(s, log[i].m, true) then 0 else 1
      ensures if log[i].Map? then MappedIn(s, log[i].m, true) || MappedIn(s, log[i].m, false) else BackedIn(s, log[i].r)
    {
      assert log[i] in Set(log);
      LockMeans(s, log[i]);
    }
    RankedApart(s, log);
    forall i | 0 <= i < |s|
      ensures s[i].attr.file != null && s[i].attr.file.mapping != null ==> Map(s[i].attr.file.mapping) in log
      ensures s[i].anon != null ==> forall j :: 0 <= j < |s[i].chain| ==> Root(s[i].chain[j].root) in log
    {
      AllAsked(s, i);
      assert forall l :: l in Set(Order(s)) ==> l in log;
    }
  }

  lemma LockMeans(s: seq<Area>, l: Lock)
    requires l in Order(s)
    ensures Rank(s, l) == if l.Root? then 2 else if MappedIn(s, l.m, true) then 0 else 1
    ensures if l.Map? then MappedIn(s, l.m, true) || MappedIn(s, l.m, false) else BackedIn(s, l.r)
  {
    hide AskedIn; hide MappedIn; hide BackedIn;
    assert l in AskedIn(s, Huge) || l in AskedIn(s, Other) || l in AskedIn(s, Anon);
    AskedMeans(s);
    if l.Map? {
      MappingAsked(s, l.m, true);
      MappingAsked(s, l.m, false);
    } else {
      RootAsked(s, l.r);
    }
  }

  lemma RankedApart(s: seq<Area>, log: seq<Lock>)
    requires forall i, j :: 0 <= i < j < |log| ==> Rank(s, log[i]) <= Rank(s, log[j])
    ensures forall i, j :: 0 <= i < |log| && 0 <= j < |log| && Rank(s, log[i]) < Rank(s, log[j]) ==> i < j
  {
    hide Rank;
  }

  // ---------------------------------------------------------------------
  // The locks themselves
  // ---------------------------------------------------------------------

  /** `mm_all_locks_mutex` */
  class Mutex {
    var locked: bool
    constructor () ensures !locked { locked := false; }
  }

  ghost function Mappings(s: seq<Area>): set<AddressSpace> { set l | l in Order(s) && l.Map? :: l.m }
  ghost function Roots(s: seq<Area>): set<AnonRoot> { set l | l in Order(s) && l.Root? :: l.r }
  /** Of the locks behind ms and rs exactly those in h are held, and exactly
      these are marked. */
  ghost predicate Holding(ms: set<AddressSpace>, rs: set<AnonRoot>, h: set<Lock>)
    reads ms, rs
  {
    && (forall m :: m in ms ==> (m.marked <==> Map(m) in h) && (m.held <==> Map(m) in h))
    && (forall r :: r in rs ==> (r.marked <==> Root(r) in h) && (r.held <==> Root(r) in h))
  }

  /** `down_write` on a lock this task holds would never return, and `up_write`
      on one it does not hold is an error. */
  method DownWriteMapping(m: AddressSpace)
    requires !m.held
    modifies m`held
    ensures m.held
  {
    m.held := true;
  }

  method DownWriteRoot(r: AnonRoot)
    requires !r.held
    modifies r`held
    ensures r.held
  {
    r.held := true;
  }

  method UpWriteMapping(m: AddressSpace)
    requires m.held
    modifies m`held
    ensures !m.held
  {
    m.held := false;
  }

  method UpWriteRoot(r: AnonRoot)
    requires r.held
    modifies r`held
    ensures !r.held
  {
    r.held := false;
  }

  lemma TakenOne(log: seq<Lock>, l: Lock)
    ensures Taken(log, [l]) == if l in log then log else log + [l]
    ensures Set(Taken(log, [l])) == Set(log) + {l}
  {
    assert [l][..0] == [];
  }

  /** `vm_lock_mapping` */
  method VmLockMapping(m: AddressSpace, ghost ms: set<AddressSpace>, ghost rs: set<AnonRoot>, ghost log: seq<Lock>)
    returns (ghost log': seq<Lock>)
    requires m in ms && Holding(ms, rs, Set(log))
    modifies m
    ensures log' == Taken(log, [Map(m)]) && Holding(ms, rs, Set(log'))
  {
    hide Taken;
    log' := Taken(log, [Map(m)]);
    TakenOne(log, Map(m));
    if !m.marked {
      m.marked := true;
      DownWriteMapping(m);
    }
  }

  /** `vm_lock_anon_vma` */
  method VmLockAnonVma(r: AnonRoot, ghost ms: set<AddressSpace>, ghost rs: set<AnonRoot>, ghost log: seq<Lock>)
    returns (ghost log': seq<Lock>)
    requires r in rs && Holding(ms, rs, Set(log))
    modifies r
    ensures log' == Taken(log, [Root(r)]) && Holding(ms, rs, Set(log'))
  {
    hide Taken;
    log' := Taken(log, [Root(r)]);
    TakenOne(log, Root(r));
    if !r.marked {
      DownWriteRoot(r);
      r.marked := true;
    }
  }

  lemma AskedNext(s: seq<Area>, i: nat, p: Phase, log: seq<Lock>)
    requires i < |s|
    ensures Taken(log, AskedIn(s[..i + 1], p)) == Taken(Taken(log, AskedIn(s[..i], p)), Asked(s[i], p))
  {
    hide Taken;
    assert s[..i + 1][..i] == s[..i];
    TakenConcat(log, AskedIn(s[..i], p), Asked(s[i], p));
  }

  lemma AskedFor(s: seq<Area>, i: nat, p: Phase)
    requires i < |s|
    ensures forall l :: l in Asked(s[i], p) ==> l in Order(s)
  {
    AskedIs(s, p);
  }

  lemma TakenNone(log: seq<Lock>)
    ensures Taken(log, []) == log
  {}

  /** What a loop adds to the log: mappings of areas that are huge, or are not, and
      all of them that were not taken before; or roots, all of them. */
  ghost predicate TookMappings(s: seq<Area>, huge: bool, log: seq<Lock>, log': seq<Lock>) {
    && log <= log'
    && (forall i :: |log| <= i < |log'| ==> log'[i].Map? && MappedIn(s, log'[i].m, huge))
    && forall i :: 0 <= i < |s| && s[i].attr.flags.hugetlb == huge ==>
         s[i].attr.file != null && s[i].attr.file.mapping != null ==> Map(s[i].attr.file.mapping) in log'
  }

  ghost predicate TookRoots(s: seq<Area>, log: seq<Lock>, log': seq<Lock>) {
    && log <= log'
    && (forall i :: |log| <= i < |log'| ==> log'[i].Root? && BackedIn(s, log'[i].r))
    && forall i, j :: 0 <= i < |s| && s[i].anon != null && 0 <= j < |s[i].chain| ==> Root(s[i].chain[j].root) in log'
  }

  lemma PhaseTakes(s: seq<Area>, huge: bool, log: seq<Lock>)
    requires NoRepeat(log)
    ensures TookMappings(s, huge, log, Taken(log, AskedIn(s, if huge then Huge else Other)))
    ensures TookRoots(s, log, Taken(log, AskedIn(s, Anon)))
  {
    hide Taken; hide AskedIn; hide MappedIn; hide BackedIn; hide NoRepeat;
    var p := if huge then Huge else Other;
    var t, u := Taken(log, AskedIn(s, p)), Taken(log, AskedIn(s, Anon));
    TakenIs(log, AskedIn(s, p));
    TakenIs(log, AskedIn(s, Anon));
    AskedMeans(s);
    forall i | |log| <= i < |t| ensures t[i].Map? && MappedIn(s, t[i].m, huge) {
      AskedIs(s, p);
      assert t[i].Map?;
      MappingAsked(s, t[i].m, huge);
    }
    forall i | |log| <= i < |u| ensures u[i].Root? && BackedIn(s, u[i].r) {
      AskedIs(s, Anon);
      assert u[i].Root?;
      RootAsked(s, u[i].r);
    }
    forall i | 0 <= i < |s|
      ensures s[i].attr.flags.hugetlb == huge ==> s[i].attr.file != null && s[i].attr.file.mapping != null ==>
        Map(s[i].attr.file.mapping) in t
      ensures s[i].anon != null ==> forall j :: 0 <= j < |s[i].chain| ==> Root(s[i].chain[j].root) in u
    {
      AreaAsks(s, i);
      assert forall l :: l in Set(AskedIn(s, p)) ==> l in t;
      assert forall l :: l in Set(AskedIn(s, Anon)) ==> l in u;
    }
  }

  /** The second and the third loop: the mappings of the areas that are huge, or
      are not. */
  method TakeMappings(mm: Mm, huge: bool, ghost ms: set<AddressSpace>, ghost rs: set<AnonRoot>, ghost log: seq<Lock>)
    returns (interrupted: bool, ghost log': seq<Lock>)
    requires mm.Valid() && ms == Mappings(mm.Areas()) && Holding(ms, rs, Set(log)) && NoRepeat(log)
    requires forall l :: l in log ==> l in Order(mm.Areas())
    modifies ms
    ensures mm.Valid() && mm.Areas() == old(mm.Areas())
    ensures Holding(ms, rs, Set(log')) && NoRepeat(log') && forall l :: l in log' ==> l in Order(mm.Areas())
    ensures interrupted ==> mm.mayFail
    ensures !interrupted ==> log' == Taken(log, AskedIn(mm.Areas(), if huge then Huge else Other))
    ensures !interrupted ==> TookMappings(mm.Areas(), huge, log, log')
  {
    hide TookMappings; hide TookRoots;
    hide Fits; hide Taken; hide AskedIn; hide Order; hide Holding; hide NoRepeat;
    ghost var s, p := mm.Areas(), if huge then Huge else Other;
    log' := log;
    var i := 0;
    AskedNone(p);
    TakenNone(log);
    while i < |mm.tree|
      invariant i <= |mm.tree| && mm.Valid() && mm.Areas() == s
      invariant Holding(ms, rs, Set(log')) && log' == Taken(log, AskedIn(s[..i], p)) && NoRepeat(log')
      invariant forall l :: l in log' ==> l in Order(s)
    {
      var signal :| !signal || mm.mayFail;
      if signal { return true, log'; }
      var vma := mm.tree[i].vma;
      AskedNext(s, i, p, log);
      AskedFor(s, i, p);
      TakenIs(log', Asked(s[i], p));
      TakenNone(log');
      if vma.attr.file != null && vma.attr.file.mapping != null && vma.attr.flags.hugetlb == huge {
        assert Asked(s[i], p) == [Map(vma.attr.file.mapping)];
        log' := VmLockMapping(vma.attr.file.mapping, ms, rs, log');
        assert mm.Areas() == s;
      }
      i := i + 1;
    }
    assert s[..i] == s;
    PhaseTakes(s, huge, log);
    interrupted := false;
  }

  lemma AskedNone(p: Phase)
    ensures AskedIn([], p) == []
  {}

  /** The roots of one VMA's chain. */
  method TakeChain(chain: seq<AnonVma>, ghost ms: set<AddressSpace>, ghost rs: set<AnonRoot>, ghost log: seq<Lock>)
    returns (ghost log': seq<Lock>)
    requires Holding(ms, rs, Set(log)) && forall i :: 0 <= i < |chain| ==> chain[i].root in rs
    modifies rs
    ensures log' == Taken(log, RootsOf(chain)) && Holding(ms, rs, Set(log'))
  {
    hide Taken; hide Holding;
    log' := log;
    var j := 0;
    TakenNone(log);
    while j < |chain|
      invariant j <= |chain| && log' == Taken(log, RootsOf(chain)[..j]) && Holding(ms, rs, Set(log'))
    {
      assert RootsOf(chain)[..j + 1] == RootsOf(chain)[..j] + [Root(chain[j].root)];
      TakenConcat(log, RootsOf(chain)[..j], [Root(chain[j].root)]);
      log' := VmLockAnonVma(chain[j].root, ms, rs, log');
      j := j + 1;
    }
    assert RootsOf(chain)[..j] == RootsOf(chain);
  }

  lemma ChainRoots(s: seq<Area>, i: nat)
    requires i < |s| && s[i].anon != null
    ensures Asked(s[i], Anon) == RootsOf(s[i].chain)
    ensures forall j :: 0 <= j < |s[i].chain| ==> s[i].chain[j].root in Roots(s)
  {
    hide Order;
    AskedFor(s, i, Anon);
    forall j | 0 <= j < |s[i].chain| ensures s[i].chain[j].root in Roots(s) {
      assert RootsOf(s[i].chain)[j] in Asked(s[i], Anon);
    }
  }

  /** The last loop: the roots behind every area. */
  method TakeRoots(mm: Mm, ghost ms: set<AddressSpace>, ghost rs: set<AnonRoot>, ghost log: seq<Lock>)
    returns (interrupted: bool, ghost log': seq<Lock>)
    requires mm.Valid() && rs == Roots(mm.Areas()) && Holding(ms, rs, Set(log)) && NoRepeat(log)
    requires forall l :: l in log ==> l in Order(mm.Areas())
    modifies rs
    ensures mm.Valid() && mm.Areas() == old(mm.Areas())
    ensures Holding(ms, rs, Set(log')) && NoRepeat(log') && forall l :: l in log' ==> l in Order(mm.Areas())
    ensures interrupted ==> mm.mayFail
    ensures !interrupted ==> log' == Taken(log, AskedIn(mm.Areas(), Anon))
    ensures !interrupted ==> TookRoots(mm.Areas(), log, log')
  {
    hide TookMappings; hide TookRoots;
    hide Fits; hide Taken; hide AskedIn; hide Order; hide Holding; hide NoRepeat;
    ghost var s := mm.Areas();
    log' := log;
    var i := 0;
    AskedNone(Anon);
    TakenNone(log);
    while i < |mm.tree|
      invariant i <= |mm.tree| && mm.Valid() && mm.Areas() == s
      invariant Holding(ms, rs, Set(log')) && log' == Taken(log, AskedIn(s[..i], Anon)) && NoRepeat(log')
      invariant forall l :: l in log' ==> l in Order(s)
    {
      var signal :| !signal || mm.mayFail;
      if signal { return true, log'; }
      var vma := mm.tree[i].vma;
      AskedNext(s, i, Anon, log);
      AskedFor(s, i, Anon);
      TakenIs(log', Asked(s[i], Anon));
      TakenNone(log');
      if vma.anon != null {
        ChainRoots(s, i);
        log' := TakeChain(vma.chain, ms, rs, log');
        assert mm.Areas() == s;
      }
      i := i + 1;
    }
    assert s[..i] == s;
    PhaseTakes(s, false, log);
    interrupted := false;
  }

  /** `vm_unlock_mapping` */
  method VmUnlockMapping(m: AddressSpace, ghost ms: set<AddressSpace>, ghost rs: set<AnonRoot>,
                         ghost h: set<Lock>, ghost dropped: seq<Lock>) returns (ghost dropped': seq<Lock>)
    requires m in ms && Holding(ms, rs, h)
    modifies m
    ensures Holding(ms, rs, h - {Map(m)})
    ensures dropped' == if Map(m) in h then dropped + [Map(m)] else dropped
  {
    dropped' := dropped;
    if m.marked {
      UpWriteMapping(m);
      m.marked := false;
      dropped' := dropped + [Map(m)];
    }
  }

  /** `vm_unlock_anon_vma` */
  method VmUnlockAnonVma(r: AnonRoot, ghost ms: set<AddressSpace>, ghost rs: set<AnonRoot>,
                         ghost h: set<Lock>, ghost dropped: seq<Lock>) returns (ghost dropped': seq<Lock>)
    requires r in rs && Holding(ms, rs, h)
    modifies r
    ensures Holding(ms, rs, h - {Root(r)})
    ensures dropped' == if Root(r) in h then dropped + [Root(r)] else dropped
  {
    dropped' := dropped;
    if r.marked {
      r.marked := false;
      UpWriteRoot(r);
      dropped' := dropped + [Root(r)];
    }
  }

  /** The locks of `all` that have been dropped, each once, are those not in h. */
  ghost predicate Dropping(all: set<Lock>, h: set<Lock>, dropped: seq<Lock>) {
    h <= all && NoRepeat(dropped) && Set(dropped) == all - h
  }

  lemma DropOne(all: set<Lock>, h: set<Lock>, dropped: seq<Lock>, l: Lock)
    requires Dropping(all, h, dropped)
    ensures Dropping(all, h - {l}, if l in h then dropped + [l] else dropped)
  {
    if l in h { assert l !in Set(dropped); assert Set(dropped + [l]) == Set(dropped) + {l}; }
  }

  /** The roots of one VMA's chain. */
  method DropChain(chain: seq<AnonVma>, ghost ms: set<AddressSpace>, ghost rs: set<AnonRoot>,
                   ghost all: set<Lock>, ghost h: set<Lock>, ghost dropped: seq<Lock>)
    returns (ghost h': set<Lock>, ghost dropped': seq<Lock>)
    requires Holding(ms, rs, h) && Dropping(all, h, dropped) && forall i :: 0 <= i < |chain| ==> chain[i].root in rs
    modifies rs
    ensures Holding(ms, rs, h') && Dropping(all, h', dropped') && h' == h - Set(RootsOf(chain))
  {
    hide Holding; hide Dropping;
    h', dropped' := h, dropped;
    var j := 0;
    while j < |chain|
      invariant j <= |chain| && h' == h - Set(RootsOf(chain)[..j])
      invariant Holding(ms, rs, h') && Dropping(all, h', dropped')
    {
      assert Set(RootsOf(chain)[..j + 1]) == Set(RootsOf(chain)[..j]) + {Root(chain[j].root)};
      DropOne(all, h', dropped', Root(chain[j].root));
      dropped' := VmUnlockAnonVma(chain[j].root, ms, rs, h', dropped');
      h' := h' - {Root(chain[j].root)};
      j := j + 1;
    }
    assert RootsOf(chain)[..j] == RootsOf(chain);
  }

  /** All that area i asks for. */
  ghost function AskedByArea(a: Area): set<Lock> { Set(Asked(a, Huge)) + Set(Asked(a, Other)) + Set(Asked(a, Anon)) }

  /** The body of the loop: everything one VMA is backed by. */
  method DropArea(vma: Vma, ghost ms: set<AddressSpace>, ghost rs: set<AnonRoot>,
                  ghost all: set<Lock>, ghost h: set<Lock>, ghost dropped: seq<Lock>)
    returns (ghost h': set<Lock>, ghost dropped': seq<Lock>)
    requires Holding(ms, rs, h) && Dropping(all, h, dropped)
    requires MappingOf(vma.Snapshot()) != null ==> MappingOf(vma.Snapshot()) in ms
    requires vma.anon != null ==> forall i :: 0 <= i < |vma.chain| ==> vma.chain[i].root in rs
    modifies ms, rs
    ensures Holding(ms, rs, h') && Dropping(all, h', dropped') && h' == h - AskedByArea(vma.Snapshot())
  {
    hide Holding; hide Dropping;
    ghost var a := vma.Snapshot();
    h', dropped' := h, dropped;
    if vma.anon != null {
      h', dropped' := DropChain(vma.chain, ms, rs, all, h', dropped');
    }
    assert h' == h - Set(Asked(a, Anon));
    if vma.attr.file != null && vma.attr.file.mapping != null {
      assert Set(Asked(a, Huge)) + Set(Asked(a, Other)) == {Map(vma.attr.file.mapping)};
      DropOne(all, h', dropped', Map(vma.attr.file.mapping));
      dropped' := VmUnlockMapping(vma.attr.file.mapping, ms, rs, h', dropped');
      h' := h' - {Map(vma.attr.file.mapping)};
    }
  }

  /** `mm_drop_all_locks`: each lock that is held is released exactly once. */
  method MmDropAllLocks(mm: Mm, mutex: Mutex, ghost ms: set<AddressSpace>, ghost rs: set<AnonRoot>, ghost log: seq<Lock>)
    returns (ghost dropped: seq<Lock>)
    requires mm.Valid() && mutex.locked && ms == Mappings(mm.Areas()) && rs == Roots(mm.Areas())
    requires Holding(ms, rs, Set(log)) && forall l :: l in log ==> l in Order(mm.Areas())
    modifies ms, rs, mutex
    ensures mm.Valid() && mm.Areas() == old(mm.Areas()) && !mutex.locked
    ensures Holding(ms, rs, {}) && NoRepeat(dropped) && Set(dropped) == Set(log)
  {
    hide Fits; hide Holding; hide Order; hide Dropping; hide AskedByArea;
    ghost var s, h := mm.Areas(), Set(log);
    dropped := [];
    StartDropping(h);
    var i := 0;
    while i < |mm.tree|
      invariant i <= |mm.tree| && mm.Valid() && mm.Areas() == s && mutex.locked
      invariant Holding(ms, rs, h) && Dropping(Set(log), h, dropped) && h <= Set(log)
      invariant forall k, l :: 0 <= k < i && l in h ==> l !in AskedByArea(s[k])
    {
      var vma := mm.tree[i].vma;
      AskedReached(s, i);
      h, dropped := DropArea(vma, ms, rs, Set(log), h, dropped);
      assert mm.Areas() == s;
      i := i + 1;
    }
    NothingLeft(s, h, log);
    AllDropped(Set(log), dropped);
    mutex.locked := false;
    assert mm.Areas() == s;
  }

  lemma StartDropping(h: set<Lock>)
    ensures Dropping(h, h, [])
  {}

  lemma AllDropped(all: set<Lock>, dropped: seq<Lock>)
    requires Dropping(all, {}, dropped)
    ensures NoRepeat(dropped) && Set(dropped) == all
  {}

  lemma AskedReached(s: seq<Area>, i: nat)
    requires i < |s|
    ensures MappingOf(s[i]) != null ==> MappingOf(s[i]) in Mappings(s)
    ensures s[i].anon != null ==> forall j :: 0 <= j < |s[i].chain| ==> s[i].chain[j].root in Roots(s)
  {
    hide Order;
    if MappingOf(s[i]) != null {
      var p := if s[i].attr.flags.hugetlb then Huge else Other;
      AskedFor(s, i, p);
      assert Map(MappingOf(s[i])) in Asked(s[i], p);
    }
    if s[i].anon != null { ChainRoots(s, i); }
  }

  lemma AskedByOne(s: seq<Area>, p: Phase, l: Lock)
    requires l in AskedIn(s, p)
    ensures exists k :: 0 <= k < |s| && l in AskedByArea(s[k])
  {
    AskedIs(s, p);
    var k :| 0 <= k < |s| && l in Asked(s[k], p);
    assert l in AskedByArea(s[k]);
  }

  lemma OrderAsked(s: seq<Area>, l: Lock)
    requires l in Order(s)
    ensures exists k :: 0 <= k < |s| && l in AskedByArea(s[k])
  {
    var p := if l in AskedIn(s, Huge) then Huge else if l in AskedIn(s, Other) then Other else Anon;
    AskedByOne(s, p, l);
  }

  lemma NothingLeft(s: seq<Area>, h: set<Lock>, log: seq<Lock>)
    requires forall k, l :: 0 <= k < |s| && l in h ==> l !in AskedByArea(s[k])
    requires h <= Set(log) && forall l :: l in log ==> l in Order(s)
    ensures h == {}
  {
    hide Order; hide AskedByArea;
    forall l ensures l !in h {
      if l in Order(s) { OrderAsked(s, l); }
    }
  }

  /** `mm_take_all_locks`: on success every lock behind the address space is held,
      each taken exactly once and in the locking order. A signal at any point of
      any loop leaves none of them held. */
  method MmTakeAllLocks(mm: Mm, mutex: Mutex, ghost ms: set<AddressSpace>, ghost rs: set<AnonRoot>)
    returns (err: Status, ghost log: seq<Lock>)
    requires mm.Valid() && !mutex.locked && ms == Mappings(mm.Areas()) && rs == Roots(mm.Areas()) && Holding(ms, rs, {})
    modifies ms, rs, mutex
    ensures mm.Valid() && mm.Areas() == old(mm.Areas())
    ensures err == None ==> mutex.locked && Holding(ms, rs, Set(log)) && log == Taken([], Order(mm.Areas()))
    ensures err == None ==> LockingOrder(mm.Areas(), log)
    ensures err != None ==> err == Some(EINTR) && !mutex.locked && Holding(ms, rs, {}) && mm.mayFail
  {
    hide TookMappings; hide TookRoots; hide LockingOrder;
    hide Fits; hide Holding; hide Order; hide Taken; hide AskedIn; hide NoRepeat;
    ghost var s := mm.Areas();
    TakenInLockingOrder(s);
    mutex.locked := true;
    assert mm.Areas() == s && Set([]) == {};
    NothingRepeats();
    OrderOf(s);
    log := [];
    // the loop that marks every VMA as being written
    var stop :| !stop || mm.mayFail;
    if !stop {
      stop, log := TakeMappings(mm, true, ms, rs, log);
      assert mm.Areas() == s;
    }
    if !stop {
      stop, log := TakeMappings(mm, false, ms, rs, log);
      assert mm.Areas() == s;
    }
    if !stop {
      stop, log := TakeRoots(mm, ms, rs, log);
      assert mm.Areas() == s;
    }
    err := None;
    if stop {
      ghost var dropped := MmDropAllLocks(mm, mutex, ms, rs, log);
      err := Some(EINTR);
    }
  }

  lemma OrderOf(s: seq<Area>)
    ensures Taken([], Order(s)) == Taken(Taken(Taken([], AskedIn(s, Huge)), AskedIn(s, Other)), AskedIn(s, Anon))
  {
    hide Taken; hide AskedIn;
    TakenConcat([], AskedIn(s, Huge), AskedIn(s, Other));
    TakenConcat([], AskedIn(s, Huge) + AskedIn(s, Other), AskedIn(s, Anon));
  }
}
