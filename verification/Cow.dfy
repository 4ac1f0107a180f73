/**
  Copy-on-write memory at the grain of one page: physical pages with reference counts, and the page-table
  entries of all processes.
 */
module Cow {
  import opened Prelude

  const PGSIZE: nat := 4096
  const NPROC: nat := 64

  type Content = seq<int>

  /** A virtual page of a process. */
  datatype Addr = Addr(pid: nat, vpn: nat)

  datatype Pte = Pte(page: nat, r: bool, w: bool, x: bool, u: bool, cow: bool)

  /** `kernel` holds the pages in use that are not user memory: page tables, stacks, buffers. */
  datatype Mem = Mem(ptes: map<Addr, Pte>, refcnt: seq<nat>, data: seq<Content>, kernel: set<nat>)

  // ----- What processes see -----

  /** What a process reads at one of its pages. */
  function Reads(m: Mem, a: Addr): Option<Content> {
    if a in m.ptes && m.ptes[a].page < |m.data| then Some(m.data[m.ptes[a].page]) else None
  }

  // ----- The invariant -----

  ghost function Mappers(ptes: map<Addr, Pte>, page: nat): set<Addr> {
    set a | a in ptes && ptes[a].page == page
  }

  /** The reference count of a page is the number of entries that map it. */
  ghost predicate CountOk(m: Mem, page: nat)
    requires page < |m.refcnt|
  {
    && m.refcnt[page] == |Mappers(m.ptes, page)| + (if page in m.kernel then 1 else 0)
    && (page in m.kernel ==> Mappers(m.ptes, page) == {})
  }

  /** A page mapped writable is mapped once; every entry that maps a page is for the same virtual page. */
  ghost predicate PteOk(m: Mem, a: Addr)
    requires a in m.ptes
  {
    && m.ptes[a].page < |m.refcnt| && a.pid < NPROC
    && (m.ptes[a].w ==> !m.ptes[a].cow && Mappers(m.ptes, m.ptes[a].page) == {a})
  }

  ghost predicate SameVpn(ptes: map<Addr, Pte>, a: Addr, b: Addr)
    requires a in ptes && b in ptes
  {
    ptes[a].page == ptes[b].page ==> a.vpn == b.vpn
  }

  ghost predicate Inv(m: Mem) {
    && |m.data| == |m.refcnt|
    && (forall page :: 0 <= page < |m.data| ==> |m.data[page]| == PGSIZE)
    && (forall page: nat {:trigger CountOk(m, page)} :: page < |m.refcnt| ==> CountOk(m, page))
    && (forall a {:trigger PteOk(m, a)} :: a in m.ptes ==> PteOk(m, a))
    && (forall a, b {:trigger SameVpn(m.ptes, a, b)} :: a in m.ptes && b in m.ptes ==> SameVpn(m.ptes, a, b))
  }

  // ----- One page at a time -----

  function Filled(v: int): (r: Content)
    ensures |r| == PGSIZE
  {
    seq(PGSIZE, _ => v)
  }

  /** kfree: the last reference gone, the page is filled with junk. */
  function Release(m: Mem, page: nat): Mem
    requires page < |m.refcnt| == |m.data| && m.refcnt[page] > 0
  {
    m.(refcnt := m.refcnt[page := m.refcnt[page] - 1],
       data := if m.refcnt[page] == 1 then m.data[page := Filled(1)] else m.data)
  }

  /** as_copy takes the right to write a page away from its owner before it shares the page. */
  function Mark(m: Mem, a: Addr): Mem
    requires a in m.ptes
  {
    if m.ptes[a].w then m.(ptes := m.ptes[a := m.ptes[a].(w := false, cow := true)]) else m
  }

  /** as_copy, for one page that nobody may write: the child maps the parent's page. */
  function Share(m: Mem, src: nat, dst: nat, vpn: nat): Mem
    requires Addr(src, vpn) in m.ptes && m.ptes[Addr(src, vpn)].page < |m.refcnt|
  {
    var pte := m.ptes[Addr(src, vpn)];
    m.(ptes := m.ptes[Addr(dst, vpn) := pte], refcnt := m.refcnt[pte.page := m.refcnt[pte.page] + 1])
  }

  /** uvmunmap, for one page. */
  function Unmap(m: Mem, a: Addr): Mem
    requires a in m.ptes && m.ptes[a].page < |m.refcnt| == |m.data| && m.refcnt[m.ptes[a].page] > 0
  {
    Release(m, m.ptes[a].page).(ptes := m.ptes - {a})
  }

  /** vmfault on an unmapped heap page: a page of zeros is mapped. */
  function MapZero(m: Mem, a: Addr, pte: Pte): Mem
    requires pte.page < |m.refcnt| == |m.data|
  {
    m.(ptes := m.ptes[a := pte], refcnt := m.refcnt[pte.page := 1], data := m.data[pte.page := Filled(0)])
  }

  /** vmfault on a copy-on-write page: the process gets a writable copy of its own. */
  function Break(m: Mem, a: Addr, page: nat): Mem
    requires a in m.ptes && m.ptes[a].page < |m.refcnt| == |m.data| && page < |m.refcnt|
    requires m.ptes[a].page != page && m.refcnt[m.ptes[a].page] > 0
  {
    var shared := m.ptes[a].page;
    var m1 := m.(ptes := m.ptes[a := m.ptes[a].(page := page, w := true, cow := false)],
                 refcnt := m.refcnt[page := 1], data := m.data[page := m.data[shared]]);
    Release(m1, shared)
  }

  /** A store by a user program, or by the kernel on its behalf. */
  function Store(m: Mem, a: Addr, offset: nat, v: int): Mem
    requires a in m.ptes && m.ptes[a].page < |m.data| && offset < |m.data[m.ptes[a].page]|
  {
    var page := m.ptes[a].page;
    m.(data := m.data[page := m.data[page][offset := v]])
  }

  function KernelTake(m: Mem, page: nat, content: Content): Mem
    requires page < |m.refcnt| == |m.data|
  {
    m.(refcnt := m.refcnt[page := 1], data := m.data[page := content], kernel := m.kernel + {page})
  }

  function KernelGive(m: Mem, page: nat): Mem
    requires page < |m.refcnt| == |m.data| && m.refcnt[page] > 0
  {
    Release(m, page).(kernel := m.kernel - {page})
  }

  // ----- Counting mappers -----

  lemma MappersAdd(ptes: map<Addr, Pte>, a: Addr, pte: Pte, page: nat)
    requires a !in ptes
    ensures Mappers(ptes[a := pte], page) == Mappers(ptes, page) + (if pte.page == page then {a} else {})
    ensures |Mappers(ptes[a := pte], page)| == |Mappers(ptes, page)| + (if pte.page == page then 1 else 0)
  {
  }

  lemma MappersDrop(ptes: map<Addr, Pte>, a: Addr, page: nat)
    requires a in ptes
    ensures Mappers(ptes - {a}, page) == Mappers(ptes, page) - {a}
    ensures |Mappers(ptes - {a}, page)| == |Mappers(ptes, page)| - (if ptes[a].page == page then 1 else 0)
  {
    assert Mappers(ptes - {a}, page) == Mappers(ptes, page) - {a};
  }

  lemma MappersSame(ptes: map<Addr, Pte>, a: Addr, pte: Pte, page: nat)
    requires a in ptes && ptes[a].page == pte.page
    ensures Mappers(ptes[a := pte], page) == Mappers(ptes, page)
  {
  }

  lemma SharedEnough(m: Mem, a: Addr)
    requires Inv(m) && a in m.ptes
    ensures m.ptes[a].page < |m.refcnt| && m.refcnt[m.ptes[a].page] > 0 && m.ptes[a].page !in m.kernel
    ensures m.refcnt[m.ptes[a].page] == 1 ==> Mappers(m.ptes, m.ptes[a].page) == {a}
  {
    assert PteOk(m, a) && CountOk(m, m.ptes[a].page);
    var users := Mappers(m.ptes, m.ptes[a].page);
    assert a in users;
    if |users| == 1 {
      assert |users - {a}| == 0;
    }
  }

  /** The mappings of one page are in different processes, so a 16-bit count cannot overflow. */
  lemma CountBounded(m: Mem, page: nat)
    requires Inv(m) && page < |m.refcnt|
    ensures m.refcnt[page] <= NPROC < 0x1_0000
  {
    assert CountOk(m, page);
    var users := Mappers(m.ptes, page);
    forall a, b | a in users && b in users && a.pid == b.pid ensures a == b {
      assert SameVpn(m.ptes, a, b);
    }
    forall a | a in users ensures a.pid < NPROC {
      assert PteOk(m, a);
    }
    PidsBound(users, NPROC);
  }

  lemma {:induction false} PidsBound(users: set<Addr>, n: nat)
    requires forall a, b :: a in users && b in users && a.pid == b.pid ==> a == b
    requires forall a :: a in users ==> a.pid < n
    ensures |users| <= n
  {
    if n > 0 {
      var last := set a | a in users && a.pid == n - 1;
      assert |last| <= 1 by {
        if a :| a in last {
          assert last == {a};
        }
      }
      PidsBound(users - last, n - 1);
    } else {
      assert users == {};
    }
  }

  // ----- What each operation keeps -----

  lemma MarkKeeps(m: Mem, a: Addr)
    requires Inv(m) && a in m.ptes
    ensures Inv(Mark(m, a)) && Mark(m, a).ptes.Keys == m.ptes.Keys && !Mark(m, a).ptes[a].w
    ensures forall b :: Reads(Mark(m, a), b) == Reads(m, b)
  {
    assert PteOk(m, a);
    var m' := Mark(m, a);
    forall page: nat ensures Mappers(m'.ptes, page) == Mappers(m.ptes, page) {
      MappersSame(m.ptes, a, m'.ptes[a], page);
    }
    forall page: nat | page < |m.refcnt| ensures CountOk(m', page) {
      assert CountOk(m, page);
    }
    forall c | c in m'.ptes ensures PteOk(m', c) {
      assert PteOk(m, c);
    }
    forall c, d | c in m'.ptes && d in m'.ptes ensures SameVpn(m'.ptes, c, d) {
      assert SameVpn(m.ptes, c, d);
    }
    forall b ensures Reads(m', b) == Reads(m, b) {
    }
  }

  lemma ShareReads(m: Mem, src: nat, dst: nat, vpn: nat, b: Addr)
    requires Addr(src, vpn) in m.ptes && m.ptes[Addr(src, vpn)].page < |m.refcnt|
    ensures Reads(Share(m, src, dst, vpn), b) == Reads(m, if b == Addr(dst, vpn) then Addr(src, vpn) else b)
  {
  }

  lemma SharePteOk(m: Mem, src: nat, dst: nat, vpn: nat, c: Addr)
    requires Addr(src, vpn) in m.ptes && PteOk(m, Addr(src, vpn)) && !m.ptes[Addr(src, vpn)].w
    requires Addr(dst, vpn) !in m.ptes
    requires dst < NPROC && c in Share(m, src, dst, vpn).ptes && (c != Addr(dst, vpn) ==> PteOk(m, c))
    ensures PteOk(Share(m, src, dst, vpn), c)
  {
    var a := Addr(src, vpn);
    if c != Addr(dst, vpn) {
      assert m.ptes[c].page == m.ptes[a].page ==> a in Mappers(m.ptes, m.ptes[c].page);
      MappersAdd(m.ptes, Addr(dst, vpn), m.ptes[a], m.ptes[c].page);
    }
  }

  lemma ShareKeeps(m: Mem, src: nat, dst: nat, vpn: nat)
    requires Inv(m) && Addr(src, vpn) in m.ptes && !m.ptes[Addr(src, vpn)].w && Addr(dst, vpn) !in m.ptes && dst < NPROC
    ensures PteOk(m, Addr(src, vpn)) && Inv(Share(m, src, dst, vpn))
    ensures forall b :: Reads(Share(m, src, dst, vpn), b) == Reads(m, if b == Addr(dst, vpn) then Addr(src, vpn) else b)
  {
    var a, b := Addr(src, vpn), Addr(dst, vpn);
    SharedEnough(m, a);
    assert PteOk(m, a);
    var pte, m' := m.ptes[a], Share(m, src, dst, vpn);
    forall page: nat | page < |m.refcnt| ensures CountOk(m', page) {
      assert CountOk(m, page);
      MappersAdd(m.ptes, b, pte, page);
    }
    forall c | c in m'.ptes ensures PteOk(m', c) {
      assert c != b ==> PteOk(m, c);
      SharePteOk(m, src, dst, vpn, c);
    }
    forall c, d | c in m'.ptes && d in m'.ptes ensures SameVpn(m'.ptes, c, d) {
      assert SameVpn(m.ptes, if c == b then a else c, if d == b then a else d);
    }
    forall c ensures Reads(m', c) == Reads(m, if c == b then a else c) {
      ShareReads(m, src, dst, vpn, c);
    }
  }

  lemma ReleaseData(m: Mem, page: nat, other: nat)
    requires page < |m.refcnt| == |m.data| && m.refcnt[page] > 0 && other < |m.data|
    requires m.refcnt[page] == 1 ==> other != page
    ensures Release(m, page).data[other] == m.data[other]
  {
  }

  lemma UnmapKeeps(m: Mem, a: Addr)
    requires Inv(m) && a in m.ptes
    ensures PteOk(m, a) && m.refcnt[m.ptes[a].page] > 0 && Inv(Unmap(m, a))
    ensures forall b :: Reads(Unmap(m, a), b) == if b == a then None else Reads(m, b)
  {
    SharedEnough(m, a);
    assert PteOk(m, a);
    var m' := Unmap(m, a);
    forall page: nat | page < |m.refcnt| ensures CountOk(m', page) {
      assert CountOk(m, page);
      MappersDrop(m.ptes, a, page);
    }
    forall c | c in m'.ptes ensures PteOk(m', c) {
      assert PteOk(m, c);
      MappersDrop(m.ptes, a, m.ptes[c].page);
    }
    forall c, d | c in m'.ptes && d in m'.ptes ensures SameVpn(m'.ptes, c, d) {
      assert SameVpn(m.ptes, c, d);
    }
    forall b ensures Reads(m', b) == if b == a then None else Reads(m, b) {
      if b != a && b in m.ptes {
        assert PteOk(m, b) && (m.ptes[b].page == m.ptes[a].page ==> b in Mappers(m.ptes, m.ptes[a].page));
        ReleaseData(m, m.ptes[a].page, m.ptes[b].page);
      }
    }
  }

  /** Nobody maps a page whose count is zero. */
  lemma FreePage(m: Mem, page: nat)
    requires Inv(m) && page < |m.refcnt| && m.refcnt[page] == 0
    ensures Mappers(m.ptes, page) == {} && page !in m.kernel
    ensures forall b :: b in m.ptes ==> m.ptes[b].page != page
  {
    assert CountOk(m, page);
    forall b | b in m.ptes ensures m.ptes[b].page != page {
      assert b !in Mappers(m.ptes, page);
    }
  }

  lemma MapZeroKeeps(m: Mem, a: Addr, pte: Pte)
    requires Inv(m) && a !in m.ptes && a.pid < NPROC && pte.page < |m.refcnt| && m.refcnt[pte.page] == 0 && !pte.cow
    ensures Inv(MapZero(m, a, pte))
    ensures forall b :: Reads(MapZero(m, a, pte), b) == if b == a then Some(Filled(0)) else Reads(m, b)
  {
    FreePage(m, pte.page);
    var m' := MapZero(m, a, pte);
    forall page: nat | page < |m.refcnt| ensures CountOk(m', page) {
      assert CountOk(m, page);
      MappersAdd(m.ptes, a, pte, page);
    }
    forall c | c in m'.ptes ensures PteOk(m', c) {
      assert c != a ==> PteOk(m, c);
      MappersAdd(m.ptes, a, pte, m'.ptes[c].page);
    }
    forall c, d | c in m'.ptes && d in m'.ptes ensures SameVpn(m'.ptes, c, d) {
      assert c != a && d != a ==> SameVpn(m.ptes, c, d);
    }
    forall b ensures Reads(m', b) == if b == a then Some(Filled(0)) else Reads(m, b) {
    }
  }

  lemma BreakKeeps(m: Mem, a: Addr, page: nat)
    requires Inv(m) && a in m.ptes && page < |m.refcnt| && m.refcnt[page] == 0
    ensures PteOk(m, a) && m.ptes[a].page != page && m.refcnt[m.ptes[a].page] > 0 && Inv(Break(m, a, page))
    ensures Break(m, a, page).ptes[a].w && Break(m, a, page).ptes[a].page == page
    ensures forall b :: Reads(Break(m, a, page), b) == Reads(m, b)
  {
    SharedEnough(m, a);
    FreePage(m, page);
    assert PteOk(m, a);
    BreakIsRemap(m, a, page);
    UnmapKeeps(m, a);
    var gone := Unmap(m, a);
    var pte := m.ptes[a].(page := page, w := true, cow := false);
    MapZeroKeeps(gone, a, pte);
    CopyInKeeps(MapZero(gone, a, pte), a, m.data[m.ptes[a].page]);
  }

  /** Breaking a share is unmapping, mapping a new page and copying the contents in. */
  lemma BreakIsRemap(m: Mem, a: Addr, page: nat)
    requires |m.refcnt| == |m.data| && a in m.ptes && m.ptes[a].page < |m.refcnt| && page < |m.refcnt|
    requires m.ptes[a].page != page && m.refcnt[m.ptes[a].page] > 0 && m.refcnt[page] == 0
    ensures var pte := m.ptes[a].(page := page, w := true, cow := false);
            Break(m, a, page) == CopyIn(MapZero(Unmap(m, a), a, pte), page, m.data[m.ptes[a].page])
  {
    var pte := m.ptes[a].(page := page, w := true, cow := false);
    var m', m'' := Break(m, a, page), CopyIn(MapZero(Unmap(m, a), a, pte), page, m.data[m.ptes[a].page]);
    assert m'.ptes == m''.ptes;
    assert m'.refcnt == m''.refcnt;
    assert m'.data == m''.data;
  }

  function CopyIn(m: Mem, page: nat, content: Content): Mem
    requires page < |m.data|
  {
    m.(data := m.data[page := content])
  }

  /** Changing a page that one entry maps writable changes what that entry's process reads there, and nothing else. */
  lemma CopyInKeeps(m: Mem, a: Addr, content: Content)
    requires Inv(m) && a in m.ptes && m.ptes[a].w && |content| == PGSIZE
    ensures PteOk(m, a) && Inv(CopyIn(m, m.ptes[a].page, content))
    ensures forall b :: Reads(CopyIn(m, m.ptes[a].page, content), b) == if b == a then Some(content) else Reads(m, b)
  {
    assert PteOk(m, a);
    var page := m.ptes[a].page;
    var m' := CopyIn(m, page, content);
    forall q: nat | q < |m.refcnt| ensures CountOk(m', q) {
      assert CountOk(m, q);
    }
    forall c | c in m'.ptes ensures PteOk(m', c) {
      assert PteOk(m, c);
    }
    forall b ensures Reads(m', b) == if b == a then Some(content) else Reads(m, b) {
      assert b in m.ptes && m.ptes[b].page == page ==> b in Mappers(m.ptes, page);
    }
  }

  lemma KernelTakeKeeps(m: Mem, page: nat, content: Content)
    requires Inv(m) && page < |m.refcnt| && m.refcnt[page] == 0 && |content| == PGSIZE
    ensures Inv(KernelTake(m, page, content))
    ensures forall b :: Reads(KernelTake(m, page, content), b) == Reads(m, b)
  {
    FreePage(m, page);
    var m' := KernelTake(m, page, content);
    forall q: nat | q < |m.refcnt| ensures CountOk(m', q) {
      assert CountOk(m, q);
    }
    forall c | c in m'.ptes ensures PteOk(m', c) {
      assert PteOk(m, c);
    }
    forall b ensures Reads(m', b) == Reads(m, b) {
    }
  }

  lemma KernelGiveKeeps(m: Mem, page: nat)
    requires Inv(m) && page < |m.refcnt| && page in m.kernel
    ensures m.refcnt[page] > 0 && Inv(KernelGive(m, page))
    ensures forall b :: Reads(KernelGive(m, page), b) == Reads(m, b)
  {
    assert CountOk(m, page);
    var m' := KernelGive(m, page);
    forall q: nat | q < |m.refcnt| ensures CountOk(m', q) {
      assert CountOk(m, q);
    }
    forall c | c in m'.ptes ensures PteOk(m', c) {
      assert PteOk(m, c);
    }
    forall b ensures Reads(m', b) == Reads(m, b) {
      assert b in m.ptes && m.ptes[b].page == page ==> b in Mappers(m.ptes, page);
    }
  }

  // ----- Runs -----

  datatype Step =
    | MarkPage(a: Addr)
    | SharePage(src: nat, dst: nat, vpn: nat)
    | UnmapPage(a: Addr)
    | ZeroPage(a: Addr, pte: Pte)
    | BreakPage(a: Addr, page: nat)
    | StoreByte(a: Addr, offset: nat, v: int)
    | TakePage(page: nat, content: Content)
    | GivePage(page: nat)

  ghost predicate Enabled(m: Mem, step: Step)
    requires Inv(m)
  {
    match step
    case MarkPage(a) => a in m.ptes
    case SharePage(src, dst, vpn) =>
      Addr(src, vpn) in m.ptes && !m.ptes[Addr(src, vpn)].w && Addr(dst, vpn) !in m.ptes && dst < NPROC
    case UnmapPage(a) => a in m.ptes
    case ZeroPage(a, pte) =>
      a !in m.ptes && a.pid < NPROC && pte.page < |m.refcnt| && m.refcnt[pte.page] == 0 && !pte.cow
    case BreakPage(a, page) => a in m.ptes && m.ptes[a].cow && page < |m.refcnt| && m.refcnt[page] == 0
    case StoreByte(a, offset, _) => a in m.ptes && m.ptes[a].w && offset < PGSIZE
    case TakePage(page, content) => page < |m.refcnt| && m.refcnt[page] == 0 && |content| == PGSIZE
    case GivePage(page) => page < |m.refcnt| && page in m.kernel
  }

  ghost function Do(m: Mem, step: Step): Mem
    requires Inv(m) && Enabled(m, step)
  {
    match step
    case MarkPage(a) => Mark(m, a)
    case SharePage(src, dst, vpn) => assert PteOk(m, Addr(src, vpn)); Share(m, src, dst, vpn)
    case UnmapPage(a) => UnmapKeeps(m, a); Unmap(m, a)
    case ZeroPage(a, pte) => MapZero(m, a, pte)
    case BreakPage(a, page) => BreakKeeps(m, a, page); Break(m, a, page)
    case StoreByte(a, offset, v) => assert PteOk(m, a); Store(m, a, offset, v)
    case TakePage(page, content) => KernelTake(m, page, content)
    case GivePage(page) => KernelGiveKeeps(m, page); KernelGive(m, page)
  }

  /** Process `pid` is the one that a step acts for: the forked child, or whoever faults, stores or unmaps. */
  predicate ActsFor(step: Step, pid: nat) {
    match step
    case SharePage(_, dst, _) => dst == pid
    case UnmapPage(a) => a.pid == pid
    case ZeroPage(a, _) => a.pid == pid
    case BreakPage(a, _) => a.pid == pid
    case StoreByte(a, _, _) => a.pid == pid
    case _ => false
  }

  lemma StoreIsCopyIn(m: Mem, a: Addr, offset: nat, v: int)
    requires Inv(m) && a in m.ptes && m.ptes[a].w && offset < PGSIZE
    ensures PteOk(m, a) && Inv(Store(m, a, offset, v))
    ensures forall b :: b != a ==> Reads(Store(m, a, offset, v), b) == Reads(m, b)
    ensures Reads(Store(m, a, offset, v), a) == Some(Reads(m, a).value[offset := v])
  {
    assert PteOk(m, a);
    CopyInKeeps(m, a, m.data[m.ptes[a].page][offset := v]);
  }

  /** Every step keeps the invariant, and changes what is read only by the process it acts for. */
  lemma StepKeeps(m: Mem, step: Step)
    requires Inv(m) && Enabled(m, step)
    ensures Inv(Do(m, step))
    ensures forall b: Addr :: !ActsFor(step, b.pid) ==> Reads(Do(m, step), b) == Reads(m, b)
  {
    match step
    case MarkPage(a) => MarkKeeps(m, a);
    case SharePage(src, dst, vpn) => ShareKeeps(m, src, dst, vpn);
    case UnmapPage(a) => UnmapKeeps(m, a);
    case ZeroPage(a, pte) => MapZeroKeeps(m, a, pte);
    case BreakPage(a, page) => BreakKeeps(m, a, page);
    case StoreByte(a, offset, v) => StoreIsCopyIn(m, a, offset, v);
    case TakePage(page, content) => KernelTakeKeeps(m, page, content);
    case GivePage(page) => KernelGiveKeeps(m, page);
  }

  ghost predicate StepAt(states: seq<Mem>, steps: seq<Step>, i: nat)
    requires |states| == |steps| + 1 && i < |steps|
  {
    Inv(states[i]) ==> Enabled(states[i], steps[i]) && states[i + 1] == Do(states[i], steps[i])
  }

  ghost predicate IsRun(states: seq<Mem>, steps: seq<Step>) {
    && |states| == |steps| + 1 && Inv(states[0])
    && forall i: nat {:trigger StepAt(states, steps, i)} :: i < |steps| ==> StepAt(states, steps, i)
  }

  lemma {:induction false} RunInv(states: seq<Mem>, steps: seq<Step>, i: nat)
    requires IsRun(states, steps) && i < |states|
    ensures Inv(states[i])
    decreases i
  {
    if i > 0 {
      RunInv(states, steps, i - 1);
      assert StepAt(states, steps, i - 1);
      StepKeeps(states[i - 1], steps[i - 1]);
    }
  }

  /** Copy-on-write isolation: over any run, a process for which no step acts reads at the end what it read at the
      start, whatever the others share, write, fault or unmap. */
  lemma {:induction false} Isolation(states: seq<Mem>, steps: seq<Step>, b: Addr, i: nat, j: nat)
    requires IsRun(states, steps) && i <= j < |states|
    requires forall k :: i <= k < j ==> !ActsFor(steps[k], b.pid)
    ensures Reads(states[j], b) == Reads(states[i], b)
    decreases j
  {
    if i < j {
      Isolation(states, steps, b, i, j - 1);
      RunInv(states, steps, j - 1);
      assert StepAt(states, steps, j - 1);
      StepKeeps(states[j - 1], steps[j - 1]);
    }
  }

  /** A page that a run has mapped writable somewhere has one mapping and one reference there. */
  lemma WritableIsPrivate(states: seq<Mem>, steps: seq<Step>, i: nat, a: Addr)
    requires IsRun(states, steps) && i < |states| && a in states[i].ptes && states[i].ptes[a].w
    ensures var m := states[i];
            && Mappers(m.ptes, m.ptes[a].page) == {a}
            && m.ptes[a].page < |m.refcnt| && m.refcnt[m.ptes[a].page] == 1
  {
    RunInv(states, steps, i);
    assert PteOk(states[i], a) && CountOk(states[i], states[i].ptes[a].page);
  }
}
