/** Address spaces: the regions of each process, and the loops over pages that fork, fault and unmap run. */
module AddrSpace {
  import opened Prelude
  import opened Cow

  const TRAPFRAME: nat := 0x1_0000_0000 - 2 * PGSIZE
  const MAX_MREGIONS: nat := 16

  datatype Kind = Text | Heap | Stack

  datatype Region = Region(start: nat, end: nat, kind: Kind, r: bool, w: bool, x: bool)

  function PageUp(n: nat): (p: nat)
    ensures p % PGSIZE == 0 && n <= p < n + PGSIZE
  {
    (n + PGSIZE - 1) / PGSIZE * PGSIZE
  }

  function FirstPage(r: Region): nat {
    r.start / PGSIZE
  }

  function EndPage(r: Region): nat {
    PageUp(r.end) / PGSIZE
  }

  predicate InRegion(r: Region, vpn: nat) {
    FirstPage(r) <= vpn < EndPage(r)
  }

  ghost predicate InSome(rs: seq<Region>, vpn: nat) {
    exists i :: 0 <= i < |rs| && InRegion(rs[i], vpn)
  }

  predicate Apart(q: Region, r: Region) {
    q.end <= r.start || q.start >= r.end
  }

  predicate RegionOk(r: Region) {
    r.start % PGSIZE == 0 && r.start <= r.end <= TRAPFRAME
  }

  predicate Clash(rs: seq<Region>, i: nat, j: nat) {
    i < |rs| && j < |rs| && (!Apart(rs[i], rs[j]) || rs[i].kind == rs[j].kind || rs[i].start > rs[j].start)
  }

  /** Regions are aligned, in order of their start, of different kinds and disjoint. */
  ghost predicate RegionsOk(rs: seq<Region>) {
    && |rs| <= MAX_MREGIONS
    && (forall i :: 0 <= i < |rs| ==> RegionOk(rs[i]))
    && (forall i: nat, j: nat {:trigger Clash(rs, i, j)} :: i < j < |rs| ==> !Clash(rs, i, j))
  }

  /** Disjoint regions have no page in common. */
  lemma PagesApart(q: Region, r: Region, vpn: nat)
    requires RegionOk(q) && RegionOk(r) && Apart(q, r) && InRegion(q, vpn)
    ensures !InRegion(r, vpn)
  {
    if q.end <= r.start {
      assert PageUp(q.end) <= r.start;
    } else {
      assert PageUp(r.end) <= q.start;
    }
  }

  // ----- Counting free pages -----

  function FreePages(refcnt: seq<nat>): nat {
    if refcnt == [] then 0
    else FreePages(refcnt[..|refcnt| - 1]) + if refcnt[|refcnt| - 1] == 0 then 1 else 0
  }

  lemma {:induction false} FreeChange(refcnt: seq<nat>, i: nat, v: nat)
    requires i < |refcnt|
    ensures FreePages(refcnt[i := v]) + (if refcnt[i] == 0 then 1 else 0)
            == FreePages(refcnt) + if v == 0 then 1 else 0
  {
    var n := |refcnt| - 1;
    var refcnt' := refcnt[i := v];
    if i < n {
      FreeChange(refcnt[..n], i, v);
      assert refcnt'[..n] == refcnt[..n][i := v];
    } else {
      assert refcnt'[..n] == refcnt[..n];
    }
  }

  lemma {:induction false} NoneFreeCount(refcnt: seq<nat>)
    requires forall page :: 0 <= page < |refcnt| ==> refcnt[page] > 0
    ensures FreePages(refcnt) == 0
  {
    if refcnt != [] {
      NoneFreeCount(refcnt[..|refcnt| - 1]);
    }
  }

  function Pages(r: Region): nat {
    if FirstPage(r) < EndPage(r) then EndPage(r) - FirstPage(r) else 0
  }

  function TotalPages(rs: seq<Region>): nat {
    if rs == [] then 0 else TotalPages(rs[..|rs| - 1]) + Pages(rs[|rs| - 1])
  }

  lemma {:induction false} TotalGrows(rs: seq<Region>, i: nat)
    requires i <= |rs|
    ensures TotalPages(rs[..i]) <= TotalPages(rs)
    ensures i < |rs| ==> TotalPages(rs[..i + 1]) == TotalPages(rs[..i]) + Pages(rs[i]) <= TotalPages(rs)
    decreases |rs|
  {
    var n := |rs| - 1;
    if i == |rs| {
      assert rs[..i] == rs;
    } else {
      assert rs[..i + 1][..i] == rs[..i];
      if i < n {
        TotalGrows(rs[..n], i);
        assert rs[..n][..i] == rs[..i] && rs[..n][..i + 1] == rs[..i + 1];
      } else {
        assert rs[..i + 1] == rs;
      }
    }
  }

  // ----- Adding a region -----

  /** Only the heap may end inside a page when it is added. */
  predicate EndsOk(r: Region) {
    r.kind != Heap ==> r.end % PGSIZE == 0
  }

  /** What as_add_region accepts. */
  ghost predicate CanAdd(rs: seq<Region>, r: Region) {
    && RegionOk(r) && EndsOk(r) && |rs| < MAX_MREGIONS
    && forall i :: 0 <= i < |rs| ==> rs[i].kind != r.kind && Apart(r, rs[i])
  }

  /** `rs` with `r` before the first region that starts later. */
  function Inserted(rs: seq<Region>, r: Region): seq<Region> {
    if rs == [] then [r]
    else if r.start < rs[0].start then [r] + rs
    else [rs[0]] + Inserted(rs[1..], r)
  }

  lemma {:induction false} InsertedAt(rs: seq<Region>, r: Region, k: nat)
    requires k <= |rs| && (forall i :: 0 <= i < k ==> rs[i].start <= r.start) && (k < |rs| ==> r.start < rs[k].start)
    ensures Inserted(rs, r) == rs[..k] + [r] + rs[k..]
  {
    if k > 0 {
      InsertedAt(rs[1..], r, k - 1);
      assert rs == [rs[0]] + rs[1..];
    }
  }

  lemma InsertedOk(rs: seq<Region>, r: Region, k: nat)
    requires RegionsOk(rs) && CanAdd(rs, r)
    requires k <= |rs| && (forall i :: 0 <= i < k ==> rs[i].start <= r.start) && (k < |rs| ==> r.start < rs[k].start)
    ensures RegionsOk(rs[..k] + [r] + rs[k..])
  {
    var rs' := rs[..k] + [r] + rs[k..];
    forall i: nat, j: nat | i < j < |rs'| ensures !Clash(rs', i, j) {
      if i != k && j != k {
        assert !Clash(rs, if i < k then i else i - 1, if j < k then j else j - 1);
      } else if i == k {
        assert rs'[j] == rs[j - 1];
        assert k < j - 1 ==> !Clash(rs, k, j - 1);
      }
    }
  }

  class AddressSpaces {
    var mem: Mem
    var regions: map<nat, seq<Region>>

    ghost predicate Valid()
      reads this
    {
      Inv(mem) && forall p :: p in regions ==> p < NPROC && RegionsOk(regions[p])
    }

    method AddRegion(pid: nat, r: Region) returns (ok: bool)
      requires Valid() && pid in regions
      modifies this`regions
      ensures Valid()
      ensures ok <==> CanAdd(old(regions[pid]), r)
      ensures regions == if ok then old(regions)[pid := Inserted(old(regions[pid]), r)] else old(regions)
    {
      var rs := regions[pid];
      if r.start % PGSIZE != 0 || (r.kind != Heap && r.end % PGSIZE != 0) || r.end < r.start || r.end > TRAPFRAME
         || |rs| >= MAX_MREGIONS {
        return false;
      }
      for i := 0 to |rs|
        invariant forall k :: 0 <= k < i ==> rs[k].kind != r.kind
      {
        if rs[i].kind == r.kind {
          return false;
        }
      }
      for i := 0 to |rs|
        invariant forall k :: 0 <= k < i ==> Apart(r, rs[k])
      {
        if !(r.end <= rs[i].start || r.start >= rs[i].end) {
          return false;
        }
      }
      var ins := 0;
      while ins < |rs| && r.start >= rs[ins].start
        invariant ins <= |rs| && forall i :: 0 <= i < ins ==> rs[i].start <= r.start
      {
        ins := ins + 1;
      }
      InsertedAt(rs, r, ins);
      InsertedOk(rs, r, ins);
      regions := regions[pid := rs[..ins] + [r] + rs[ins..]];
      return true;
    }

    /** Moves the end of a region, unless that would run into another. */
    method ResizeRegion(pid: nat, kind: Kind, newEnd: nat) returns (ok: bool)
      requires Valid() && pid in regions
      modifies this`regions
      ensures Valid()
      ensures ok <==> exists i :: 0 <= i < |old(regions[pid])| && old(regions[pid])[i].kind == kind
                        && CanResize(old(regions[pid]), i, newEnd)
      ensures !ok ==> regions == old(regions)
      ensures ok ==> exists i :: 0 <= i < |old(regions[pid])| && old(regions[pid])[i].kind == kind
                       && regions == old(regions)[pid := old(regions[pid])[i := old(regions[pid])[i].(end := newEnd)]]
    {
      var rs := regions[pid];
      if newEnd > TRAPFRAME {
        return false;
      }
      var idx := RegionIndex(rs, kind);
      if idx.None? {
        return false;
      }
      var at := idx.value;
      OneOfKind(rs, at);
      var r := rs[at].(end := newEnd);
      if newEnd < r.start {
        return false;
      }
      for i := 0 to |rs|
        invariant forall k :: 0 <= k < i && k != at ==> Apart(r, rs[k])
      {
        if i != at && !(newEnd <= rs[i].start || r.start >= rs[i].end) {
          return false;
        }
      }
      ResizedOk(rs, at, newEnd);
      regions := regions[pid := rs[at := r]];
      return true;
    }

    // ----- Unmapping -----

    /** uvmunmap. */
    method UnmapRange(pid: nat, first: nat, n: nat)
      requires Valid()
      modifies this`mem
      ensures Valid()
      ensures forall b :: Reads(mem, b) == if b.pid == pid && first <= b.vpn < first + n then None
                                           else old(Reads(mem, b))
      ensures Kept(old(mem), mem)
    {
      ghost var m0 := mem;
      for i := 0 to n
        invariant Valid() && Kept(m0, mem)
        invariant forall b :: Reads(mem, b) == if b.pid == pid && first <= b.vpn < first + i then None else Reads(m0, b)
      {
        var a := Addr(pid, first + i);
        if a in mem.ptes {
          UnmapKeeps(mem, a);
          FreeChange(mem.refcnt, mem.ptes[a].page, mem.refcnt[mem.ptes[a].page] - 1);
          mem := Unmap(mem, a);
        }
      }
    }

    method UnmapRegion(pid: nat, r: Region)
      requires Valid() && RegionOk(r)
      modifies this`mem
      ensures Valid()
      ensures forall b :: Reads(mem, b) == if b.pid == pid && InRegion(r, b.vpn) then None else old(Reads(mem, b))
      ensures Kept(old(mem), mem)
    {
      if r.end > r.start {
        PagesCount(r);
        UnmapRange(pid, FirstPage(r), EndPage(r) - FirstPage(r));
      } else {
        NoPages(r);
      }
    }

    /** Unmaps every region of a process. */
    method UnmapRegions(pid: nat)
      requires Valid() && pid in regions
      modifies this`mem
      ensures Valid()
      ensures forall b :: Reads(mem, b) == if b.pid == pid && InSome(regions[pid], b.vpn) then None
                                           else old(Reads(mem, b))
      ensures Kept(old(mem), mem)
    {
      ghost var m0 := mem;
      var rs := regions[pid];
      for i := 0 to |rs|
        invariant Valid() && Kept(m0, mem)
        invariant forall b :: Reads(mem, b) == if b.pid == pid && InSome(rs[..i], b.vpn) then None else Reads(m0, b)
      {
        UnmapRegion(pid, rs[i]);
        InSomeNext(rs, i);
      }
      assert rs[..|rs|] == rs;
    }

    method RemoveRegion(pid: nat, kind: Kind)
      requires Valid() && pid in regions
      modifies this
      ensures Valid()
      ensures (forall i :: 0 <= i < |old(regions[pid])| ==> old(regions[pid])[i].kind != kind) ==>
                regions == old(regions) && mem == old(mem)
      ensures forall i :: 0 <= i < |old(regions[pid])| && old(regions[pid])[i].kind == kind ==>
                && regions == old(regions)[pid := old(regions[pid])[..i] + old(regions[pid])[i + 1..]]
                && forall b :: Reads(mem, b) == if b.pid == pid && InRegion(old(regions[pid])[i], b.vpn) then None
                                                else old(Reads(mem, b))
    {
      var rs := regions[pid];
      var idx := RegionIndex(rs, kind);
      if idx.None? {
        return;
      }
      var at := idx.value;
      OneOfKind(rs, at);
      UnmapRegion(pid, rs[at]);
      RemovedOk(rs, at);
      regions := regions[pid := rs[..at] + rs[at + 1..]];
    }

    // ----- Copying -----

    /** walk may have to allocate a page-table page, and there may be none. */
    method TableFor() returns (ok: bool)
      requires Valid()
      modifies this`mem
      ensures Valid() && mem.ptes == old(mem.ptes) && mem.kernel >= old(mem.kernel) && |mem.refcnt| == |old(mem.refcnt)|
      ensures forall b :: Reads(mem, b) == old(Reads(mem, b))
      ensures FreePages(mem.refcnt) + 1 >= old(FreePages(mem.refcnt))
      ensures !ok ==> mem == old(mem) && NoneFree(mem)
    {
      var needed: bool := *;
      if !needed {
        return true;
      }
      if page :| 0 <= page < |mem.refcnt| && mem.refcnt[page] == 0 {
        KernelTakeKeeps(mem, page, Filled(0));
        FreeChange(mem.refcnt, page, 1);
        mem := KernelTake(mem, page, Filled(0));
        return true;
      }
      return false;
    }

    /** as_copy for one page. */
    method CopyPage(dst: nat, src: nat, vpn: nat) returns (ok: bool)
      requires Valid() && dst != src && dst < NPROC && Addr(dst, vpn) !in mem.ptes && Twins(mem, dst, src)
      modifies this`mem
      ensures Valid() && Twins(mem, dst, src) && OnlyMarked(old(mem), mem, dst)
      ensures forall b :: Reads(mem, b) == old(Reads(mem, if ok && b == Addr(dst, vpn) then Addr(src, vpn) else b))
      ensures FreePages(mem.refcnt) + 1 >= old(FreePages(mem.refcnt))
      ensures !ok ==> NoneFree(mem) && old(FreePages(mem.refcnt)) == 0
    {
      var a := Addr(src, vpn);
      ReadsMapped(mem, a);
      ReadsMapped(mem, Addr(dst, vpn));
      if a !in mem.ptes {
        return true;
      }
      MarkKeeps(mem, a);
      mem := Mark(mem, a);
      // The reference that kaddref adds here is dropped again if the table cannot be had.
      ok := TableFor();
      if ok {
        ShareKeeps(mem, src, dst, vpn);
        ShareTakesNone(mem, src, dst, vpn);
        mem := Share(mem, src, dst, vpn);
      } else {
        NoneFreeCount(mem.refcnt);
      }
    }

    /** The inner loop of as_copy. */
    method CopyRegion(dst: nat, src: nat, r: Region) returns (ok: bool)
      requires Valid() && dst != src && dst < NPROC && RegionOk(r)
      requires Twins(mem, dst, src) && forall vpn: nat :: InRegion(r, vpn) ==> Reads(mem, Addr(dst, vpn)) == None
      modifies this`mem
      ensures Valid()
      ensures ok ==>
                forall b :: Reads(mem, b)
                            == if b.pid == dst && InRegion(r, b.vpn) then old(Reads(mem, Addr(src, b.vpn)))
                               else old(Reads(mem, b))
      ensures forall b: Addr :: b.pid != dst || !InRegion(r, b.vpn) ==> Reads(mem, b) == old(Reads(mem, b))
      ensures Twins(mem, dst, src) && OnlyMarked(old(mem), mem, dst)
      ensures FreePages(mem.refcnt) + Pages(r) >= old(FreePages(mem.refcnt))
      ensures !ok ==> NoneFree(mem) && old(FreePages(mem.refcnt)) < Pages(r)
    {
      ghost var m0 := mem;
      var vpn := FirstPage(r);
      while vpn < EndPage(r)
        invariant FirstPage(r) <= vpn && Valid() && Twins(mem, dst, src) && OnlyMarked(m0, mem, dst)
        invariant FreePages(mem.refcnt) + (vpn - FirstPage(r)) >= FreePages(m0.refcnt)
        invariant vpn - FirstPage(r) <= Pages(r)
        invariant forall b :: Reads(mem, b) == if b.pid == dst && FirstPage(r) <= b.vpn < vpn && InRegion(r, b.vpn)
                                               then Reads(m0, Addr(src, b.vpn)) else Reads(m0, b)
      {
        ghost var m1 := mem;
        ReadsMapped(mem, Addr(dst, vpn));
        ok := CopyPage(dst, src, vpn);
        MarkedTwice(m0, m1, mem, dst);
        if !ok {
          return;
        }
        vpn := vpn + 1;
      }
      ok := true;
    }

    /** Empties an address space. */
    method Clear(pid: nat)
      requires Valid() && pid in regions && Confined(mem, pid, regions[pid])
      modifies this
      ensures Valid() && regions == old(regions)[pid := []]
      ensures forall b :: Reads(mem, b) == if b.pid == pid then None else old(Reads(mem, b))
      ensures Kept(old(mem), mem)
    {
      ghost var m0 := mem;
      UnmapRegions(pid);
      ConfinedGone(m0, mem, pid, regions[pid]);
      regions := regions[pid := []];
    }

    /** as_copy: on success the child reads what the parent reads, on failure it has nothing; nobody else is affected.
        It fails only for a region that may not be added, or with fewer free pages than pages to copy. */
    method AsCopy(dst: nat, src: nat) returns (ok: bool)
      requires Valid() && dst in regions && src in regions && dst != src
      requires Confined(mem, dst, regions[dst])
      modifies this
      ensures Valid()
      ensures regions == old(regions)[dst := if ok then old(regions[src]) else []]
      ensures forall b :: Reads(mem, b) ==
                          if b.pid != dst then old(Reads(mem, b))
                          else if ok && InSome(old(regions[src]), b.vpn) then old(Reads(mem, Addr(src, b.vpn)))
                          else None
      ensures Twins(mem, dst, src) && OnlyMarked(old(mem), mem, dst)
      ensures ok ==> AllEndOk(old(regions[src]))
      ensures !ok ==> !AllEndOk(old(regions[src])) || old(FreePages(mem.refcnt)) < TotalPages(old(regions[src]))
    {
      ghost var m0 := mem;
      var rs := regions[src];
      Clear(dst);
      NoTwins(mem, dst, src);
      for i := 0 to |rs|
        invariant Valid() && regions == old(regions)[dst := rs[..i]] && CopyOk(m0, mem, dst, src, rs[..i])
        invariant AllEndOk(rs[..i]) && FreePages(mem.refcnt) + TotalPages(rs[..i]) >= FreePages(m0.refcnt)
      {
        ghost var free := FreePages(mem.refcnt);
        ok := AddCopy(dst, src, rs, i, m0);
        CopyBudget(rs, i, FreePages(m0.refcnt), free, FreePages(mem.refcnt), ok);
        if !ok {
          Abandon(dst, src, m0);
          return;
        }
      }
      assert rs[..|rs|] == rs;
      return true;
    }

    /** The error path of as_copy: the child is emptied again. */
    method Abandon(dst: nat, src: nat, ghost m0: Mem)
      requires Valid() && dst in regions && Confined(mem, dst, regions[dst]) && OnlyMarked(m0, mem, dst)
      requires forall b: Addr :: b.pid != dst ==> Reads(mem, b) == Reads(m0, b)
      modifies this
      ensures Valid() && regions == old(regions)[dst := []]
      ensures forall b :: Reads(mem, b) == if b.pid == dst then None else Reads(m0, b)
      ensures Twins(mem, dst, src) && OnlyMarked(m0, mem, dst)
    {
      ghost var m1 := mem;
      Clear(dst);
      NoTwins(mem, dst, src);
      MarkedKept(m0, m1, mem, dst);
    }

    /** Adds one region of the parent to the child and copies its pages. */
    method AddCopy(dst: nat, src: nat, rs: seq<Region>, i: nat, ghost m0: Mem) returns (ok: bool)
      requires Valid() && dst in regions && dst != src && RegionsOk(rs) && i < |rs|
      requires regions[dst] == rs[..i] && CopyOk(m0, mem, dst, src, rs[..i])
      modifies this
      ensures Valid() && dst in regions && regions == old(regions)[dst := regions[dst]]
      ensures ok ==> regions[dst] == rs[..i + 1] && CopyOk(m0, mem, dst, src, rs[..i + 1])
      ensures Confined(mem, dst, regions[dst]) && OnlyMarked(m0, mem, dst)
      ensures forall b: Addr :: b.pid != dst ==> Reads(mem, b) == Reads(m0, b)
      ensures ok ==> EndsOk(rs[i]) && FreePages(mem.refcnt) + Pages(rs[i]) >= old(FreePages(mem.refcnt))
      ensures !ok ==> !EndsOk(rs[i]) || (NoneFree(mem) && old(FreePages(mem.refcnt)) < Pages(rs[i]))
    {
      CopiedConfined(m0, mem, dst, src, rs[..i]);
      AppendedLast(rs, i);
      NextFits(rs, i);
      ok := AddRegion(dst, rs[i]);
      if ok {
        NewPages(rs, i, m0, mem, dst, src);
        ghost var m1 := mem;
        ok := CopyRegion(dst, src, rs[i]);
        CopiedNext(rs, i, m0, m1, mem, dst, src, ok);
        MarkedTwice(m0, m1, mem, dst);
      }
    }

    // ----- Faults -----

    /** vmfault: a private copy for a write to a shared page, a page of zeros for a touch of the heap. */
    method VmFault(pid: nat, va: nat, read: bool) returns (page: Option<nat>)
      requires Valid() && pid in regions && va < 0x1_0000_0000
      modifies this`mem
      ensures Valid()
      ensures Refuses(old(mem), old(regions[pid]), Addr(pid, va / PGSIZE), va, read) ==> page == None
      ensures page == None ==> mem.ptes == old(mem.ptes)
      ensures forall b :: b != Addr(pid, va / PGSIZE) ==>
                            && (b in mem.ptes <==> b in old(mem.ptes))
                            && (b in mem.ptes ==> mem.ptes[b] == old(mem.ptes)[b])
      ensures page == None && !Refuses(old(mem), old(regions[pid]), Addr(pid, va / PGSIZE), va, read) ==>
                OneFree(old(mem))
      ensures page.Some? ==>
                var a := Addr(pid, va / PGSIZE);
                && a in mem.ptes && mem.ptes[a].page == page.value && !mem.ptes[a].cow
                && (a in old(mem.ptes) ==>
                      mem.ptes[a] == old(mem.ptes)[a].(page := page.value, w := true, cow := false))
                && (a !in old(mem.ptes) ==> Reads(mem, a) == Some(Filled(0)))
      ensures forall b :: Reads(mem, b) == old(Reads(mem, b)) || (b == Addr(pid, va / PGSIZE) && b !in old(mem.ptes))
    {
      var rs := regions[pid];
      var a := Addr(pid, va / PGSIZE);
      var heap := RegionIndex(rs, Heap);
      HeapEndAt(rs, heap);
      if va >= (if heap.Some? then rs[heap.value].end else 0) {
        return None;
      }
      if a in mem.ptes {
        if !mem.ptes[a].cow || read {
          return None;
        }
        page := BreakShare(a);
      } else {
        var r := FindRegion(rs, va / PGSIZE * PGSIZE);
        HeapHolds(rs, heap.value, r, va / PGSIZE * PGSIZE);
        if r.None? || rs[r.value].kind != Heap {
          return None;
        }
        page := GrowHeap(a, rs[r.value]);
      }
    }

    method BreakShare(a: Addr) returns (page: Option<nat>)
      requires Valid() && a in mem.ptes
      modifies this`mem
      ensures Valid()
      ensures page == None ==> mem == old(mem) && NoneFree(mem)
      ensures page.Some? ==>
                mem.ptes == old(mem.ptes)[a := old(mem.ptes)[a].(page := page.value, w := true, cow := false)]
      ensures forall b :: Reads(mem, b) == old(Reads(mem, b))
    {
      if q :| 0 <= q < |mem.refcnt| && mem.refcnt[q] == 0 {
        BreakKeeps(mem, a, q);
        mem := Break(mem, a, q);
        return Some(q);
      }
      return None;
    }

    method GrowHeap(a: Addr, r: Region) returns (page: Option<nat>)
      requires Valid() && a !in mem.ptes && a.pid < NPROC
      modifies this`mem
      ensures Valid()
      ensures page == None ==> mem.ptes == old(mem.ptes) && OneFree(old(mem))
      ensures page.Some? ==> mem.ptes == old(mem.ptes)[a := Pte(page.value, r.r, r.w, r.x, true, false)]
      ensures page.Some? ==> Reads(mem, a) == Some(Filled(0))
      ensures forall b :: b != a ==> Reads(mem, b) == old(Reads(mem, b))
    {
      if q :| 0 <= q < |mem.refcnt| && mem.refcnt[q] == 0 {
        KernelTakeKeeps(mem, q, Filled(0));
        mem := KernelTake(mem, q, Filled(0));
        ghost var taken := mem;
        var ok := TableFor();
        assert forall p :: 0 <= p < |taken.refcnt| && p != q ==> old(mem).refcnt[p] == taken.refcnt[p];
        assert CountOk(mem, q);
        KernelGiveKeeps(mem, q);
        if !ok {
          mem := KernelGive(mem, q);
          return None;
        }
        MapZeroKeeps(KernelGive(mem, q), a, Pte(q, r.r, r.w, r.x, true, false));
        mem := MapZero(KernelGive(mem, q), a, Pte(q, r.r, r.w, r.x, true, false));
        return Some(q);
      }
      return None;
    }
  }

  ghost predicate CanResize(rs: seq<Region>, at: nat, newEnd: nat)
    requires at < |rs|
  {
    && rs[at].start <= newEnd <= TRAPFRAME
    && forall i :: 0 <= i < |rs| && i != at ==> Apart(rs[at].(end := newEnd), rs[i])
  }

  lemma ResizedOk(rs: seq<Region>, at: nat, newEnd: nat)
    requires RegionsOk(rs) && at < |rs| && CanResize(rs, at, newEnd)
    ensures RegionsOk(rs[at := rs[at].(end := newEnd)])
  {
    var rs' := rs[at := rs[at].(end := newEnd)];
    forall i: nat, j: nat | i < j < |rs'| ensures !Clash(rs', i, j) {
      assert !Clash(rs, i, j);
    }
  }

  lemma OneOfKind(rs: seq<Region>, at: nat)
    requires RegionsOk(rs) && at < |rs|
    ensures forall i: nat :: i < |rs| && rs[i].kind == rs[at].kind ==> i == at
  {
    forall i: nat | i < |rs| && rs[i].kind == rs[at].kind ensures i == at {
      assert i < at ==> !Clash(rs, i, at);
      assert at < i ==> !Clash(rs, at, i);
    }
  }

  lemma RemovedOk(rs: seq<Region>, at: nat)
    requires RegionsOk(rs) && at < |rs|
    ensures RegionsOk(rs[..at] + rs[at + 1..])
  {
    var rs' := rs[..at] + rs[at + 1..];
    forall i: nat, j: nat | i < j < |rs'| ensures !Clash(rs', i, j) {
      assert !Clash(rs, if i < at then i else i + 1, if j < at then j else j + 1);
    }
  }

  lemma PagesCount(r: Region)
    requires RegionOk(r) && r.start < r.end
    ensures FirstPage(r) < EndPage(r)
  {
  }

  lemma NoPages(r: Region)
    requires RegionOk(r) && r.start == r.end
    ensures forall vpn: nat :: !InRegion(r, vpn)
  {
    assert PageUp(r.end) == r.start;
  }

  lemma InSomeNext(rs: seq<Region>, i: nat)
    requires i < |rs|
    ensures forall vpn: nat :: InSome(rs[..i + 1], vpn) <==> InSome(rs[..i], vpn) || InRegion(rs[i], vpn)
  {
    forall vpn: nat ensures InSome(rs[..i + 1], vpn) <==> InSome(rs[..i], vpn) || InRegion(rs[i], vpn) {
      if InSome(rs[..i], vpn) {
        var k :| 0 <= k < i && InRegion(rs[..i][k], vpn);
        assert InRegion(rs[..i + 1][k], vpn);
      }
      if InRegion(rs[i], vpn) {
        assert InRegion(rs[..i + 1][i], vpn);
      }
      if InSome(rs[..i + 1], vpn) && !InRegion(rs[i], vpn) {
        var k :| 0 <= k < i + 1 && InRegion(rs[..i + 1][k], vpn);
        assert InRegion(rs[..i][k], vpn);
      }
    }
  }

  function HeapEnd(rs: seq<Region>): nat {
    if rs == [] then 0 else if rs[0].kind == Heap then rs[0].end else HeapEnd(rs[1..])
  }

  function HeapStart(rs: seq<Region>): nat {
    if rs == [] then 0 else if rs[0].kind == Heap then rs[0].start else HeapStart(rs[1..])
  }

  /** The faults that are not resolved however much memory there is: above the heap, to a page that may be written
      already or is only read, or to an unmapped page that is not the heap's. */
  ghost predicate Refuses(m: Mem, rs: seq<Region>, a: Addr, va: nat, read: bool) {
    || va >= HeapEnd(rs)
    || (a in m.ptes && (!m.ptes[a].cow || read))
    || (a !in m.ptes && a.vpn * PGSIZE < HeapStart(rs))
  }

  lemma {:induction false} HeapEndAt(rs: seq<Region>, i: Option<nat>)
    requires i.Some? ==> i.value < |rs| && rs[i.value].kind == Heap
    requires i.Some? ==> forall k :: 0 <= k < i.value ==> rs[k].kind != Heap
    requires i.None? ==> forall k :: 0 <= k < |rs| ==> rs[k].kind != Heap
    ensures HeapEnd(rs) == (if i.Some? then rs[i.value].end else 0)
    ensures HeapStart(rs) == (if i.Some? then rs[i.value].start else 0)
  {
    if rs != [] && rs[0].kind != Heap {
      HeapEndAt(rs[1..], if i.Some? then Some(i.value - 1) else None);
    }
  }

  /** At most one page is free. */
  ghost predicate OneFree(m: Mem) {
    forall p, q :: 0 <= p < q < |m.refcnt| ==> m.refcnt[p] > 0 || m.refcnt[q] > 0
  }

  /** Entries may go, but none is changed or added, and no free page is taken. */
  ghost predicate Kept(m0: Mem, m: Mem) {
    && FreePages(m.refcnt) >= FreePages(m0.refcnt)
    && forall b :: b in m.ptes ==> b in m0.ptes && m.ptes[b] == m0.ptes[b]
  }

  /** The entries of `dst` are those of `src`, and neither may write. */
  ghost predicate Twins(m: Mem, dst: nat, src: nat) {
    forall vpn: nat :: Addr(dst, vpn) in m.ptes ==>
      Addr(src, vpn) in m.ptes && m.ptes[Addr(dst, vpn)] == m.ptes[Addr(src, vpn)] && !m.ptes[Addr(src, vpn)].w
  }

  /** Outside `dst`, an entry changes only from writable to copy-on-write. */
  ghost predicate OnlyMarked(m0: Mem, m: Mem, dst: nat) {
    forall b: Addr :: b.pid != dst && b in m.ptes ==>
      && b in m0.ptes
      && (m.ptes[b] == m0.ptes[b] || (m0.ptes[b].w && m.ptes[b] == m0.ptes[b].(w := false, cow := true)))
  }

  /** No page is free. */
  ghost predicate NoneFree(m: Mem) {
    forall page :: 0 <= page < |m.refcnt| ==> m.refcnt[page] > 0
  }

  /** A process maps nothing outside its regions. */
  ghost predicate Confined(m: Mem, pid: nat, rs: seq<Region>) {
    forall vpn: nat :: Reads(m, Addr(pid, vpn)).Some? ==> InSome(rs, vpn)
  }

  lemma ReadsMapped(m: Mem, a: Addr)
    requires Inv(m)
    ensures Reads(m, a).Some? <==> a in m.ptes
  {
    if a in m.ptes {
      assert PteOk(m, a);
    }
  }

  /** The state of the copy after the regions `rs`. */
  ghost predicate CopyOk(m0: Mem, m: Mem, dst: nat, src: nat, rs: seq<Region>) {
    Copied(m0, m, dst, src, rs) && Twins(m, dst, src) && OnlyMarked(m0, m, dst)
  }

  lemma MarkedTwice(m0: Mem, m1: Mem, m2: Mem, dst: nat)
    requires OnlyMarked(m0, m1, dst) && OnlyMarked(m1, m2, dst)
    ensures OnlyMarked(m0, m2, dst)
  {
  }

  lemma MarkedKept(m0: Mem, m1: Mem, m2: Mem, dst: nat)
    requires OnlyMarked(m0, m1, dst) && Kept(m1, m2)
    ensures OnlyMarked(m0, m2, dst)
  {
  }

  lemma NoTwins(m: Mem, dst: nat, src: nat)
    requires Inv(m) && forall b: Addr :: b.pid == dst ==> Reads(m, b) == None
    ensures Twins(m, dst, src)
  {
    forall vpn: nat ensures Addr(dst, vpn) !in m.ptes {
      ReadsMapped(m, Addr(dst, vpn));
    }
  }

  lemma ConfinedGone(m: Mem, m': Mem, pid: nat, rs: seq<Region>)
    requires Confined(m, pid, rs)
    requires forall b :: Reads(m', b) == if b.pid == pid && InSome(rs, b.vpn) then None else Reads(m, b)
    ensures forall b :: Reads(m', b) == if b.pid == pid then None else Reads(m, b)
  {
    forall b: Addr ensures Reads(m', b) == if b.pid == pid then None else Reads(m, b) {
      if b.pid == pid {
        assert b == Addr(pid, b.vpn);
      }
    }
  }

  /** `dst` reads what `src` reads in the regions `rs`, and nothing elsewhere; the others read what they did. */
  ghost predicate Copied(m0: Mem, m: Mem, dst: nat, src: nat, rs: seq<Region>) {
    forall b :: Reads(m, b) == if b.pid != dst then Reads(m0, b)
                               else if InSome(rs, b.vpn) then Reads(m0, Addr(src, b.vpn)) else None
  }

  lemma CopiedConfined(m0: Mem, m: Mem, dst: nat, src: nat, rs: seq<Region>)
    requires Copied(m0, m, dst, src, rs)
    ensures Confined(m, dst, rs)
  {
  }

  /** What copying one more region, or failing to, makes of the copy. */
  lemma CopiedNext(rs: seq<Region>, i: nat, m0: Mem, m: Mem, m': Mem, dst: nat, src: nat, ok: bool)
    requires i < |rs| && dst != src && Copied(m0, m, dst, src, rs[..i])
    requires ok ==>
               forall b :: Reads(m', b) == if b.pid == dst && InRegion(rs[i], b.vpn) then Reads(m, Addr(src, b.vpn))
                                           else Reads(m, b)
    requires forall b: Addr :: b.pid != dst || !InRegion(rs[i], b.vpn) ==> Reads(m', b) == Reads(m, b)
    ensures ok ==> Copied(m0, m', dst, src, rs[..i + 1])
    ensures Confined(m', dst, rs[..i + 1])
    ensures forall b: Addr :: b.pid != dst ==> Reads(m', b) == Reads(m0, b)
  {
    InSomeNext(rs, i);
  }

  /** The regions of the parent come in order, so each is added to the child's at the end. */
  lemma {:induction false} InsertedLast(rs: seq<Region>, r: Region)
    requires forall i :: 0 <= i < |rs| ==> rs[i].start <= r.start
    ensures Inserted(rs, r) == rs + [r]
  {
    InsertedAt(rs, r, |rs|);
  }

  lemma AppendedLast(rs: seq<Region>, i: nat)
    requires RegionsOk(rs) && i < |rs|
    ensures Inserted(rs[..i], rs[i]) == rs[..i + 1]
  {
    forall k: nat | k < i ensures rs[..i][k].start <= rs[i].start {
      assert !Clash(rs, k, i);
    }
    InsertedLast(rs[..i], rs[i]);
  }

  /** The regions of the parent are refused to the child only for ending inside a page. */
  lemma NextFits(rs: seq<Region>, i: nat)
    requires RegionsOk(rs) && i < |rs|
    ensures CanAdd(rs[..i], rs[i]) <==> EndsOk(rs[i])
  {
    forall k: nat | k < i ensures rs[..i][k].kind != rs[i].kind && Apart(rs[i], rs[..i][k]) {
      assert !Clash(rs, k, i);
    }
  }

  ghost predicate AllEndOk(rs: seq<Region>) {
    forall i :: 0 <= i < |rs| ==> EndsOk(rs[i])
  }

  /** A copy that takes at most one free page for each page it copies fails only for want of that many. */
  lemma CopyBudget(rs: seq<Region>, i: nat, free: nat, before: nat, after: nat, ok: bool)
    requires i < |rs| && AllEndOk(rs[..i]) && before + TotalPages(rs[..i]) >= free
    requires ok ==> EndsOk(rs[i]) && after + Pages(rs[i]) >= before
    requires !ok ==> !EndsOk(rs[i]) || before < Pages(rs[i])
    ensures ok ==> AllEndOk(rs[..i + 1]) && after + TotalPages(rs[..i + 1]) >= free
    ensures !ok ==> !AllEndOk(rs) || free < TotalPages(rs)
  {
    TotalGrows(rs, i);
    if ok {
      assert rs[..i + 1] == rs[..i] + [rs[i]];
    }
  }

  /** Sharing a page that is in use takes no free page. */
  lemma ShareTakesNone(m: Mem, src: nat, dst: nat, vpn: nat)
    requires Inv(m) && Addr(src, vpn) in m.ptes && m.ptes[Addr(src, vpn)].page < |m.refcnt|
    ensures FreePages(Share(m, src, dst, vpn).refcnt) == FreePages(m.refcnt)
  {
    SharedEnough(m, Addr(src, vpn));
    var page := m.ptes[Addr(src, vpn)].page;
    FreeChange(m.refcnt, page, m.refcnt[page] + 1);
  }

  /** The pages of the next region have not been copied yet. */
  lemma NewPages(rs: seq<Region>, i: nat, m0: Mem, m: Mem, dst: nat, src: nat)
    requires RegionsOk(rs) && i < |rs| && Copied(m0, m, dst, src, rs[..i])
    ensures forall vpn: nat :: InRegion(rs[i], vpn) ==> Reads(m, Addr(dst, vpn)) == None
  {
    forall vpn: nat | InRegion(rs[i], vpn) ensures Reads(m, Addr(dst, vpn)) == None {
      if InSome(rs[..i], vpn) {
        var k :| 0 <= k < i && InRegion(rs[..i][k], vpn);
        assert !Clash(rs, k, i);
        PagesApart(rs[k], rs[i], vpn);
      }
    }
  }

  method RegionIndex(rs: seq<Region>, kind: Kind) returns (i: Option<nat>)
    ensures i.Some? ==> i.value < |rs| && rs[i.value].kind == kind
    ensures i.Some? ==> forall k :: 0 <= k < i.value ==> rs[k].kind != kind
    ensures i.None? ==> forall k :: 0 <= k < |rs| ==> rs[k].kind != kind
  {
    for k := 0 to |rs|
      invariant forall j :: 0 <= j < k ==> rs[j].kind != kind
    {
      if rs[k].kind == kind {
        return Some(k);
      }
    }
    return None;
  }

  /** The region found is the heap exactly when the address is in the heap. */
  lemma HeapHolds(rs: seq<Region>, heap: nat, found: Option<nat>, va: nat)
    requires RegionsOk(rs) && heap < |rs| && rs[heap].kind == Heap && va < rs[heap].end
    requires found.Some? ==> found.value < |rs| && Contains(rs[found.value], va)
    requires found.None? ==> forall k :: 0 <= k < |rs| ==> !Contains(rs[k], va)
    ensures va >= rs[heap].start <==> found.Some? && rs[found.value].kind == Heap
  {
    OneOfKind(rs, heap);
    if found.Some? && found.value != heap {
      assert found.value < heap ==> !Clash(rs, found.value, heap);
      assert heap < found.value ==> !Clash(rs, heap, found.value);
    }
  }

  predicate Contains(r: Region, va: nat) {
    r.start <= va < r.end
  }

  /** as_find_region. */
  method FindRegion(rs: seq<Region>, va: nat) returns (i: Option<nat>)
    ensures i.Some? ==> i.value < |rs| && Contains(rs[i.value], va)
    ensures i.Some? ==> forall k :: 0 <= k < i.value ==> !Contains(rs[k], va)
    ensures i.None? ==> forall k :: 0 <= k < |rs| ==> !Contains(rs[k], va)
  {
    for k := 0 to |rs|
      invariant forall j :: 0 <= j < k ==> !Contains(rs[j], va)
    {
      if va >= rs[k].start && va < rs[k].end {
        return Some(k);
      }
    }
    return None;
  }
}
