/** malloc and free over a circular list of headers in memory. */
module UserHeap {
  import opened Prelude
  import opened FreeList

  const HEADER: nat := 8
  const UINT: nat := 0x1_0000_0000

  datatype Header = Header(ptr: nat, size: nat)

  function NextOf(list: seq<Blk>, i: nat): nat
    requires i < |list|
  {
    if i + 1 < |list| then list[i + 1].a else list[0].a
  }

  ghost predicate LinkOk(hdr: map<nat, Header>, list: seq<Blk>, i: nat)
    requires i < |list|
  {
    list[i].a in hdr && hdr[list[i].a] == Header(NextOf(list, i), list[i].n)
  }

  /** The headers link the blocks of the list in a circle. */
  ghost predicate Linked(hdr: map<nat, Header>, list: seq<Blk>) {
    forall i: nat {:trigger LinkOk(hdr, list, i)} :: i < |list| ==> LinkOk(hdr, list, i)
  }

  ghost predicate LiveCovers(live: map<nat, nat>, u: nat) {
    exists a :: a in live && Inside(Blk(a, live[a]), u)
  }

  ghost predicate LiveOk(list: seq<Blk>, live: map<nat, nat>, top: nat) {
    && top > 0
    && (forall a :: a in live ==> a > 0 && live[a] > 0 && a + live[a] <= top)
    && (forall i :: 0 <= i < |list| ==> list[i].a + list[i].n <= top)
    && (forall a, b {:trigger Apart(Blk(a, live[a]), Blk(b, live[b]))} ::
          a in live && b in live && a != b ==> Apart(Blk(a, live[a]), Blk(b, live[b])))
    && (forall a, i {:trigger Apart(list[i], Blk(a, live[a]))} ::
          a in live && 0 <= i < |list| ==> Apart(list[i], Blk(a, live[a])))
  }

  /** The headers obtained from sbrk are those of the free and of the live blocks. */
  ghost predicate Accounted(list: seq<Blk>, live: map<nat, nat>, arena: set<nat>) {
    forall u: nat {:trigger u in arena} :: u in arena <==> Covered(list, u) || LiveCovers(live, u)
  }

  ghost predicate Sized(hdr: map<nat, Header>, live: map<nat, nat>) {
    forall a :: a in live ==> a in hdr && hdr[a].size == live[a]
  }

  // ----- Steps on the lists -----

  lemma FitsLive(list: seq<Blk>, live: map<nat, nat>, top: nat, t: nat, a: nat)
    requires ListOk(list) && LiveOk(list, live, top) && a in live && Place(list, t, a)
    ensures Fits(list, t, Blk(a, live[a]))
  {
    assert Apart(list[t], Blk(a, live[a]));
    if t + 1 < |list| {
      assert Apart(list[t + 1], Blk(a, live[a]));
    }
  }

  lemma FreedLive(list: seq<Blk>, live: map<nat, nat>, top: nat, t: nat, a: nat)
    requires ListOk(list) && LiveOk(list, live, top) && a in live && Fits(list, t, Blk(a, live[a]))
    ensures LiveOk(Freed(list, t, Blk(a, live[a])), live - {a}, top)
  {
    var b := Blk(a, live[a]);
    var list' := Freed(list, t, b);
    forall i: nat | i < |list'| ensures list'[i].a + list'[i].n <= top {
      FreedAt(list, t, b, i);
    }
    forall c, i: nat | c in live - {a} && i < |list'| ensures Apart(list'[i], Blk(c, live[c])) {
      FreedAt(list, t, b, i);
      assert Apart(b, Blk(c, live[c])) && Apart(list[t], Blk(c, live[c]));
      assert t + 1 < |list| ==> Apart(list[t + 1], Blk(c, live[c]));
    }
  }

  lemma FreedAccounted(list: seq<Blk>, live: map<nat, nat>, arena: set<nat>, t: nat, a: nat)
    requires Accounted(list, live, arena) && a in live && Fits(list, t, Blk(a, live[a]))
    ensures Accounted(Freed(list, t, Blk(a, live[a])), live - {a}, arena)
  {
    var b := Blk(a, live[a]);
    forall u: nat ensures u in arena <==> Covered(Freed(list, t, b), u) || LiveCovers(live - {a}, u) {
      FreedCovers(list, t, b, u);
      if LiveCovers(live, u) && !Inside(b, u) {
        var c :| c in live && Inside(Blk(c, live[c]), u);
        assert c in live - {a};
      }
      if LiveCovers(live - {a}, u) {
        var c :| c in live - {a} && Inside(Blk(c, (live - {a})[c]), u);
        assert c in live;
      }
    }
  }

  lemma TakenLive(list: seq<Blk>, live: map<nat, nat>, top: nat, k: nat, n: nat)
    requires ListOk(list) && LiveOk(list, live, top) && 0 < k < |list| && 0 < n <= list[k].n
    ensures Taken(list, k, n).a !in live
    ensures LiveOk(Carved(list, k, n), live[Taken(list, k, n).a := n], top)
  {
    var b, list' := Taken(list, k, n), Carved(list, k, n);
    assert Gap(list, 0, k);
    forall c | c in live ensures Apart(b, Blk(c, live[c])) && c != b.a {
      assert Apart(list[k], Blk(c, live[c]));
    }
    forall i: nat | i < |list'|
      ensures list'[i].a + list'[i].n <= top && Apart(list'[i], b)
      ensures forall c :: c in live ==> Apart(list'[i], Blk(c, live[c]))
    {
      var j := if list[k].n == n && i >= k then i + 1 else i;
      assert j < k ==> Gap(list, j, k);
      assert k < j ==> Gap(list, k, j);
      assert forall c :: c in live ==> Apart(list[j], Blk(c, live[c]));
    }
  }

  lemma TakenAccounted(list: seq<Blk>, live: map<nat, nat>, arena: set<nat>, k: nat, n: nat)
    requires ListOk(list) && Accounted(list, live, arena) && k < |list| && 0 < n <= list[k].n
    requires Taken(list, k, n).a !in live
    ensures Accounted(Carved(list, k, n), live[Taken(list, k, n).a := n], arena)
  {
    var b := Taken(list, k, n);
    var live' := live[b.a := n];
    forall u: nat ensures u in arena <==> Covered(Carved(list, k, n), u) || LiveCovers(live', u) {
      CarvedCovers(list, k, n, u);
      if LiveCovers(live, u) {
        var c :| c in live && Inside(Blk(c, live[c]), u);
        assert Inside(Blk(c, live'[c]), u);
      }
      if Inside(b, u) {
        assert Inside(Blk(b.a, live'[b.a]), u);
      }
      if LiveCovers(live', u) && !Inside(b, u) {
        var c :| c in live' && Inside(Blk(c, live'[c]), u);
        assert c in live;
      }
    }
  }

  // ----- Links -----

  /** The headers that free writes. */
  function FreeLinks(hdr: map<nat, Header>, p: nat, bp: nat, size: nat): map<nat, Header>
    requires p in hdr && hdr[p].ptr in hdr
  {
    var next := hdr[p].ptr;
    var b := if bp + size == next then Header(hdr[next].ptr, size + hdr[next].size) else Header(next, size);
    var q := if p + hdr[p].size == bp then Header(b.ptr, hdr[p].size + b.size) else Header(bp, hdr[p].size);
    hdr[bp := b][p := q]
  }

  lemma DistinctAddresses(list: seq<Blk>, i: nat, j: nat)
    requires ListOk(list) && i < |list| && j < |list| && list[i].a == list[j].a
    ensures i == j
  {
    assert i < j ==> Gap(list, i, j);
    assert j < i ==> Gap(list, j, i);
  }

  lemma FreeLinksOk(hdr: map<nat, Header>, list: seq<Blk>, t: nat, b: Blk)
    requires ListOk(list) && Linked(hdr, list) && Fits(list, t, b)
    ensures LinkOk(hdr, list, t) && NextOf(list, t) in hdr
    ensures Linked(FreeLinks(hdr, list[t].a, b.a, b.n), Freed(list, t, b))
  {
    assert LinkOk(hdr, list, t) && LinkOk(hdr, list, 0);
    if t + 1 < |list| {
      assert LinkOk(hdr, list, t + 1);
    }
    var hdr', list' := FreeLinks(hdr, list[t].a, b.a, b.n), Freed(list, t, b);
    forall i: nat | i < |list'| ensures LinkOk(hdr', list', i) {
      FreeLinkAt(hdr, list, t, b, i);
    }
  }

  lemma FreeLinkAt(hdr: map<nat, Header>, list: seq<Blk>, t: nat, b: Blk, i: nat)
    requires ListOk(list) && Linked(hdr, list) && Fits(list, t, b) && i < |Freed(list, t, b)|
    requires LinkOk(hdr, list, t) && NextOf(list, t) in hdr && (t + 1 < |list| ==> LinkOk(hdr, list, t + 1))
    ensures LinkOk(FreeLinks(hdr, list[t].a, b.a, b.n), Freed(list, t, b), i)
  {
    var list' := Freed(list, t, b);
    var at := if JoinsDown(list, t, b) then t else t + 1;
    FreedAt(list, t, b, i);
    if i + 1 < |list'| {
      FreedAt(list, t, b, i + 1);
    }
    FreedAt(list, t, b, 0);
    if i != at {
      var x := Source(list, t, b, i);
      assert LinkOk(hdr, list, x);
      PlaceUnique(list, t, b.a, x);
      if x != t {
        assert x < t ==> Gap(list, x, t);
        assert t < x ==> Gap(list, t, x);
      }
    }
  }

  /** The headers that malloc writes when it takes `n` headers from `p`, whose predecessor is `prev`. */
  function TakeLinks(hdr: map<nat, Header>, prev: nat, p: nat, n: nat): map<nat, Header>
    requires p in hdr && prev in hdr && hdr[p].size >= n
  {
    if hdr[p].size == n then hdr[prev := Header(hdr[p].ptr, hdr[prev].size)]
    else hdr[p := Header(hdr[p].ptr, hdr[p].size - n)][p + hdr[p].size - n := Header(0, n)]
  }

  lemma TakeLinksOk(hdr: map<nat, Header>, list: seq<Blk>, k: nat, n: nat)
    requires ListOk(list) && Linked(hdr, list) && 0 < k < |list| && 0 < n <= list[k].n
    ensures LinkOk(hdr, list, k) && LinkOk(hdr, list, k - 1)
    ensures Linked(TakeLinks(hdr, list[k - 1].a, list[k].a, n), Carved(list, k, n))
    ensures var hdr' := TakeLinks(hdr, list[k - 1].a, list[k].a, n);
            Taken(list, k, n).a in hdr' && hdr'[Taken(list, k, n).a].size == n
  {
    assert LinkOk(hdr, list, k) && LinkOk(hdr, list, k - 1);
    var hdr', list' := TakeLinks(hdr, list[k - 1].a, list[k].a, n), Carved(list, k, n);
    forall i: nat | i < |list'| ensures LinkOk(hdr', list', i) {
      var j := if list[k].n == n && i >= k then i + 1 else i;
      assert LinkOk(hdr, list, j);
      assert j < k ==> Gap(list, j, k);
      assert k < j ==> Gap(list, k, j);
      if j != k - 1 && list[j].a == list[k - 1].a {
        DistinctAddresses(list, j, k - 1);
      }
    }
  }

  /** Headers of live blocks are not touched by changes to other headers. */
  lemma StillSized(hdr: map<nat, Header>, hdr': map<nat, Header>, live: map<nat, nat>)
    requires Sized(hdr, live) && forall a :: a in live ==> a in hdr' && hdr'[a] == hdr[a]
    ensures Sized(hdr', live)
  {
  }

  /** Steps along the circle from entry `i` to entry `t`. */
  function Ahead(i: nat, t: nat, n: nat): (r: nat)
    requires i < n && t < n
    ensures r < n && (r == 0 <==> i == t)
  {
    if i <= t then t - i else n - i + t
  }

  function Step(i: nat, n: nat): (r: nat)
    requires i < n
    ensures r < n
  {
    if i + 1 < n then i + 1 else 0
  }

  /** The test that ends the search of free holds at the place where the block belongs, and nowhere else. */
  lemma SearchEnds(hdr: map<nat, Header>, list: seq<Blk>, t: nat, bp: nat, i: nat)
    requires ListOk(list) && Linked(hdr, list) && Place(list, t, bp) && i < |list|
    ensures LinkOk(hdr, list, i)
    ensures var p, next := list[i].a, hdr[list[i].a].ptr;
            ((bp > p && bp < next) || (p >= next && (bp > p || bp < next))) <==> i == t
  {
    assert LinkOk(hdr, list, i);
    PlaceUnique(list, t, bp, i);
    if i + 1 < |list| {
      PlaceUnique(list, t, bp, i + 1);
      assert Gap(list, i, i + 1);
    } else if i > 0 {
      assert Gap(list, 0, i);
    }
  }

  /** The free list is ordered, gapped, linked and disjoint from the live blocks, and nothing obtained is lost. */
  ghost predicate HeapOk(hdr: map<nat, Header>, freep: Option<nat>, top: nat, list: seq<Blk>, live: map<nat, nat>,
                         arena: set<nat>)
  {
    && ListOk(list) && LiveOk(list, live, top) && Accounted(list, live, arena) && Sized(hdr, live)
    && (freep.None? ==> list == [Blk(0, 0)] && live == map[])
    && (freep.Some? ==> Linked(hdr, list) && InList(list, freep.value))
  }

  ghost predicate InList(list: seq<Blk>, a: nat) {
    exists i :: 0 <= i < |list| && list[i].a == a
  }

  lemma FreeKeeps(hdr: map<nat, Header>, freep: Option<nat>, top: nat, list: seq<Blk>, live: map<nat, nat>,
                  arena: set<nat>, t: nat, bp: nat)
    requires HeapOk(hdr, freep, top, list, live, arena) && freep.Some? && bp in live && Fits(list, t, Blk(bp, live[bp]))
    ensures LinkOk(hdr, list, t) && NextOf(list, t) in hdr
    ensures HeapOk(FreeLinks(hdr, list[t].a, bp, live[bp]), Some(list[t].a), top, Freed(list, t, Blk(bp, live[bp])),
                   live - {bp}, arena)
  {
    var b := Blk(bp, live[bp]);
    FreeLinksOk(hdr, list, t, b);
    FreedOk(list, t, b);
    FreedLive(list, live, top, t, bp);
    FreedAccounted(list, live, arena, t, bp);
    OthersSized(hdr, list, live, top, t, bp);
    KeptEntry(list, t, b);
  }

  lemma GrowKeeps(hdr: map<nat, Header>, freep: Option<nat>, top: nat, list: seq<Blk>, live: map<nat, nat>,
                  arena: set<nat>, start: nat, n: nat)
    requires HeapOk(hdr, freep, top, list, live, arena) && freep.Some? && top <= start && n > 0
    ensures start !in live && arena !! Span(start, n)
    ensures HeapOk(hdr[start := Header(0, n)], freep, start + n, list, live[start := n], arena + Span(start, n))
  {
    Obtained(list, live, arena, top, start, n);
    BelowBreak(list, live, arena, top);
    LinksUntouched(hdr, list, start, Header(0, n), hdr[start := Header(0, n)]);
  }

  /** The search of free, from `start` around the circle. */
  method FindPrev(hdr: map<nat, Header>, start: nat, bp: nat, ghost list: seq<Blk>, ghost t: nat, ghost at: nat)
    returns (p: nat)
    requires ListOk(list) && Linked(hdr, list) && Place(list, t, bp) && at < |list| && list[at].a == start
    ensures p == list[t].a
  {
    p := start;
    ghost var i: nat := at;
    SearchEnds(hdr, list, t, bp, i);
    while !(bp > p && bp < hdr[p].ptr) && !(p >= hdr[p].ptr && (bp > p || bp < hdr[p].ptr))
      invariant i < |list| && p == list[i].a && LinkOk(hdr, list, i)
      invariant ((bp > p && bp < hdr[p].ptr) || (p >= hdr[p].ptr && (bp > p || bp < hdr[p].ptr))) <==> i == t
      decreases Ahead(i, t, |list|)
    {
      p := hdr[p].ptr;
      i := Step(i, |list|);
      SearchEnds(hdr, list, t, bp, i);
    }
  }

  /** The assignments with which free links a block in after `p`. */
  method LinkHeaders(hdr: map<nat, Header>, p: nat, bp: nat) returns (r: map<nat, Header>)
    requires p in hdr && bp in hdr && hdr[p].ptr in hdr && p != bp
    ensures r == FreeLinks(hdr, p, bp, hdr[bp].size)
  {
    var next := hdr[p].ptr;
    r := hdr;
    if bp + r[bp].size == next {
      r := r[bp := Header(hdr[next].ptr, r[bp].size + hdr[next].size)];
    } else {
      r := r[bp := Header(next, r[bp].size)];
    }
    if p + r[p].size == bp {
      r := r[p := Header(r[bp].ptr, r[p].size + r[bp].size)];
    } else {
      r := r[p := Header(bp, r[p].size)];
    }
  }

  /** The assignments with which malloc takes all of a block, or its tail. */
  method CarveHeaders(hdr: map<nat, Header>, prev: nat, p: nat, n: nat) returns (r: map<nat, Header>, bp: nat)
    requires p in hdr && prev in hdr && hdr[p].size >= n
    ensures r == TakeLinks(hdr, prev, p, n) && bp == p + hdr[p].size - n
  {
    if hdr[p].size == n {
      r, bp := hdr[prev := Header(hdr[p].ptr, hdr[prev].size)], p;
    } else {
      r := hdr[p := Header(hdr[p].ptr, hdr[p].size - n)];
      bp := p + r[p].size;
      r := r[bp := Header(0, n)];
    }
  }

  class Heap {
    var hdr: map<nat, Header>
    var freep: Option<nat>
    /** The break: everything the heap has obtained lies below. */
    var top: nat
    ghost var list: seq<Blk>
    ghost var live: map<nat, nat>
    ghost var arena: set<nat>

    ghost predicate Valid()
      reads this
    {
      HeapOk(hdr, freep, top, list, live, arena)
    }

    constructor (brk: nat)
      requires brk > 0
      ensures Valid() && live == map[] && arena == {}
    {
      hdr, freep, top := map[], None, brk;
      list, live, arena := [Blk(0, 0)], map[], {};
    }

    /** free: the search ends, and the block joins the free list, merged with the blocks it touches. */
    method Free(bp: nat)
      requires Valid() && bp in live
      modifies this
      ensures Valid() && live == old(live) - {bp} && arena == old(arena) && top == old(top) && freep.Some?
      ensures exists t: nat :: Fits(old(list), t, Blk(bp, old(live)[bp]))
                               && list == Freed(old(list), t, Blk(bp, old(live)[bp]))
                               && freep == Some(old(list)[t].a)
    {
      ghost var b := Blk(bp, live[bp]);
      ghost var t := FindPlace(list, live, top, bp);
      ghost var i: nat :| i < |list| && list[i].a == freep.value;
      var p := FindPrev(hdr, freep.value, bp, list, t, i);
      FreeKeeps(hdr, freep, top, list, live, arena, t, bp);
      var linked := LinkHeaders(hdr, p, bp);
      hdr, freep := linked, Some(p);
      list, live := Freed(list, t, b), live - {bp};
    }

    /** morecore: at least 4096 headers more, freed into the list.  sbrk fails, or answers with a place at
        or above the break. */
    method Morecore(nu: nat, sbrk: Option<nat>) returns (ok: bool)
      requires Valid() && freep.Some? && nu > 0
      modifies this
      ensures Valid() && live == old(live) && freep.Some?
      ensures ok <==> sbrk.Some?
      ensures !ok ==> list == old(list) && arena == old(arena) && freep == old(freep) && hdr == old(hdr)
      ensures ok ==> arena == old(arena) + Growth(old(top), sbrk, nu) && old(arena) !! Growth(old(top), sbrk, nu)
      ensures ok ==> exists g: nat, f: nat :: Grown(list, freep, g, f, nu)
    {
      if sbrk.None? {
        return false;
      }
      var n := if nu < 4096 then 4096 else nu;
      var start := top + sbrk.value;
      ghost var before := list;
      Extend(start, n);
      Free(start);
      ghost var t: nat :| Fits(before, t, Blk(start, n)) && list == Freed(before, t, Blk(start, n))
                          && freep == Some(before[t].a);
      GrownBy(before, t, start, n, nu);
      return true;
    }

    /** The headers that sbrk answered with become one block, as if malloc had handed it out. */
    method Extend(start: nat, n: nat)
      requires Valid() && freep.Some? && top <= start && n > 0
      modifies this
      ensures Valid() && list == old(list) && freep == old(freep) && top == start + n
      ensures live == old(live)[start := n] && start !in old(live)
      ensures arena == old(arena) + Span(start, n) && old(arena) !! Span(start, n)
    {
      GrowKeeps(hdr, freep, top, list, live, arena, start, n);
      hdr := hdr[start := Header(0, n)];
      top := start + n;
      arena := arena + Span(start, n);
      live := live[start := n];
    }

    /** malloc: first fit from freep on, growing the heap once if a round finds nothing. */
    method Malloc(nbytes: nat, sbrk: Option<nat>) returns (ap: Option<nat>)
      requires Valid() && nbytes < UINT
      modifies this
      ensures Valid()
      ensures ap == None <==> sbrk == None && forall k :: 0 <= k < |old(list)| ==> old(list)[k].n < Units(nbytes)
      ensures ap == None ==> live == old(live)
      ensures arena == if exists k :: 0 <= k < |old(list)| && old(list)[k].n >= Units(nbytes) then old(arena)
                       else old(arena) + Growth(old(top), sbrk, Units(nbytes))
      ensures ap.Some? ==> var bp := ap.value - 1;
                           ap.value > 0 && bp !in old(live) && live == old(live)[bp := Units(nbytes)]
                           && (nbytes <= (live[bp] - 1) * HEADER <==> nbytes + HEADER - 1 < UINT)
    {
      var nunits := Units(nbytes);
      UnitsExact(nbytes);
      if freep == None {
        hdr := hdr[0 := Header(0, 0)];
        freep := Some(0);
        assert LinkOk(hdr, list, 0);
        StillSized(old(hdr), hdr, live);
      }
      ghost var f: nat :| f < |list| && list[f].a == freep.value;
      var prev, p, found := FirstFit(hdr, freep.value, nunits, list, f, None);
      if !found {
        var more := Morecore(nunits, sbrk);
        if !more {
          return None;
        }
        ghost var g: nat, f': nat :| Grown(list, freep, g, f', nunits);
        prev, p, found := FirstFit(hdr, freep.value, nunits, list, f', Some(g));
      }
      ghost var k: nat :| FoundAt(list, prev, p, k, nunits);
      ap := Carve(prev, p, k, nunits);
    }

    /** Takes `n` headers from entry `k` of the free list. */
    method Carve(prev: nat, p: nat, ghost k: nat, n: nat) returns (ap: Option<nat>)
      requires Valid() && freep.Some? && n > 0 && FoundAt(list, prev, p, k, n)
      modifies this
      ensures Valid() && arena == old(arena)
      ensures ap == Some(Taken(old(list), k, n).a + 1) && Taken(old(list), k, n).a !in old(live)
      ensures live == old(live)[Taken(old(list), k, n).a := n]
    {
      FoundPositive(list, prev, p, k, n);
      CarveKeeps(hdr, freep, top, list, live, arena, k, n);
      var carved, bp := CarveHeaders(hdr, prev, p, n);
      hdr, freep := carved, Some(prev);
      live, list := live[bp := n], Carved(list, k, n);
      ap := Some(bp + 1);
    }
  }

  lemma GrownBy(before: seq<Blk>, t: nat, start: nat, n: nat, nu: nat)
    requires ListOk(before) && Fits(before, t, Blk(start, n)) && n >= nu
    ensures exists g: nat, f: nat :: Grown(Freed(before, t, Blk(start, n)), Some(before[t].a), g, f, nu)
  {
    var b := Blk(start, n);
    JoinedAt(before, t, b);
    assert Grown(Freed(before, t, b), Some(before[t].a), if JoinsDown(before, t, b) then t else t + 1, t, nu);
  }

  /** The headers that one successful growth obtains from sbrk. */
  ghost function Growth(top: nat, sbrk: Option<nat>, nu: nat): set<nat> {
    if sbrk.None? then {} else Span(top + sbrk.value, if nu < 4096 then 4096 else nu)
  }

  ghost predicate FoundAt(list: seq<Blk>, prev: nat, p: nat, k: nat, n: nat) {
    k < |list| && list[k].a == p && list[k].n >= n && prev == list[Back(k, |list|)].a
  }

  lemma FoundPositive(list: seq<Blk>, prev: nat, p: nat, k: nat, n: nat)
    requires ListOk(list) && n > 0 && FoundAt(list, prev, p, k, n)
    ensures 0 < k < |list| && prev == list[k - 1].a
  {
  }

  /** One round of malloc's search, from the block after the one `freep` points to up to that one.  A block known to
      have room, at `freep` or just after it, is found. */
  method FirstFit(hdr: map<nat, Header>, freep: nat, n: nat, ghost list: seq<Blk>, ghost f: nat,
                  ghost known: Option<nat>) returns (prev: nat, p: nat, found: bool)
    requires ListOk(list) && Linked(hdr, list) && f < |list| && list[f].a == freep && n > 0
    requires known.Some? ==>
               known.value < |list| && list[known.value].n >= n && (known.value == f || known.value == f + 1)
    ensures found ==> exists k: nat :: FoundAt(list, prev, p, k, n)
    ensures !found ==> known == None && forall k :: 0 <= k < |list| ==> list[k].n < n
  {
    ghost var i: nat := Step(f, |list|);
    assert LinkOk(hdr, list, f) && LinkOk(hdr, list, i);
    prev := freep;
    p := hdr[prev].ptr;
    ghost var seen: nat := 1;
    while hdr[p].size < n
      invariant i < |list| && list[i].a == p && LinkOk(hdr, list, i) && prev == list[Back(i, |list|)].a
      invariant 1 <= seen <= |list| && Ahead(i, f, |list|) == |list| - seen
      invariant forall k: nat :: k < |list| && Ahead(k, f, |list|) > Ahead(i, f, |list|) ==> list[k].n < n
      decreases Ahead(i, f, |list|)
    {
      if p == freep {
        DistinctAddresses(list, i, f);
        forall k: nat | k < |list| ensures list[k].n < n {
          assert k != f ==> Ahead(k, f, |list|) > 0;
        }
        return prev, p, false;
      }
      prev := p;
      p := hdr[p].ptr;
      i, seen := Step(i, |list|), seen + 1;
      assert LinkOk(hdr, list, i);
    }
    assert FoundAt(list, prev, p, i, n);
    return prev, p, true;
  }

  /** Everything that taking `n` headers from entry `k` keeps. */
  lemma CarveKeeps(hdr: map<nat, Header>, freep: Option<nat>, top: nat, list: seq<Blk>, live: map<nat, nat>,
                   arena: set<nat>, k: nat, n: nat)
    requires HeapOk(hdr, freep, top, list, live, arena) && freep.Some? && 0 < k < |list| && 0 < n <= list[k].n
    ensures LinkOk(hdr, list, k) && LinkOk(hdr, list, k - 1) && Taken(list, k, n).a !in live
    ensures HeapOk(TakeLinks(hdr, list[k - 1].a, list[k].a, n), Some(list[k - 1].a), top, Carved(list, k, n),
                   live[Taken(list, k, n).a := n], arena)
  {
    TakeLinksOk(hdr, list, k, n);
    CarvedOk(list, k, n);
    TakenLive(list, live, top, k, n);
    TakenAccounted(list, live, arena, k, n);
    TakenSized(hdr, list, live, top, k, n);
    CarvedKeeps(list, k, n);
  }

  /** The number of headers malloc takes for `nbytes`, rounded up, and one header more; the sum has 32 bits. */
  function Units(nbytes: nat): (n: nat)
    requires nbytes < UINT
    ensures 0 < n <= UINT / HEADER
  {
    (nbytes + HEADER - 1) % UINT / HEADER + 1
  }

  /** What a block of that many headers holds beside its own is enough, and less than a header too much, if and only
      if the sum does not wrap. */
  lemma UnitsExact(nbytes: nat)
    requires nbytes < UINT
    ensures nbytes <= (Units(nbytes) - 1) * HEADER <==> nbytes + HEADER - 1 < UINT
    ensures nbytes + HEADER - 1 < UINT ==> (Units(nbytes) - 1) * HEADER < nbytes + HEADER
  {
    var sum := nbytes + HEADER - 1;
    if sum >= UINT {
      assert sum % UINT == sum - UINT;
    }
  }

  /** The largest request gets a header and nothing else. */
  lemma LargestRequestWraps()
    ensures Units(UINT - 1) == 1
  {
    assert (UINT - 1 + HEADER - 1) % UINT == HEADER - 2;
  }

  /** The signed number with the given 32 bits. */
  function AsInt(u: nat): int {
    if u < UINT / 2 then u else u - UINT
  }

  /** morecore asks sbrk for as many bytes as it will record headers if and only if that count fits an int. */
  lemma RequestExact(nu: nat)
    requires nu < UINT
    ensures AsInt(nu * HEADER % UINT) == nu * HEADER <==> nu < UINT / 2 / HEADER
  {
  }

  function Back(i: nat, n: nat): (r: nat)
    requires i < n
    ensures r < n
  {
    if i == 0 then n - 1 else i - 1
  }

  lemma TakenSized(hdr: map<nat, Header>, list: seq<Blk>, live: map<nat, nat>, top: nat, k: nat, n: nat)
    requires ListOk(list) && LiveOk(list, live, top) && Sized(hdr, live) && 0 < k < |list| && 0 < n <= list[k].n
    requires LinkOk(hdr, list, k) && LinkOk(hdr, list, k - 1)
    requires var hdr' := TakeLinks(hdr, list[k - 1].a, list[k].a, n);
             Taken(list, k, n).a in hdr' && hdr'[Taken(list, k, n).a].size == n
    ensures Sized(TakeLinks(hdr, list[k - 1].a, list[k].a, n), live[Taken(list, k, n).a := n])
  {
    forall c | c in live ensures c != list[k].a && c != list[k - 1].a && c != Taken(list, k, n).a {
      assert Apart(list[k], Blk(c, live[c])) && Apart(list[k - 1], Blk(c, live[c]));
    }
  }

  /** The entry before the one taken from stays in the list. */
  lemma CarvedKeeps(list: seq<Blk>, k: nat, n: nat)
    requires 0 < k < |list| && list[k].n >= n
    ensures k - 1 < |Carved(list, k, n)| && Carved(list, k, n)[k - 1] == list[k - 1]
  {
  }

  /** Entry `f` is where freep points, and it or the next has room for `n`. */
  ghost predicate Grown(list: seq<Blk>, freep: Option<nat>, g: nat, f: nat, n: nat) {
    f < |list| && g < |list| && freep == Some(list[f].a) && list[g].n >= n && (g == f || g == f + 1)
  }

  lemma LinksUntouched(hdr: map<nat, Header>, list: seq<Blk>, a: nat, h: Header, hdr': map<nat, Header>)
    requires Linked(hdr, list) && (forall i :: 0 <= i < |list| ==> list[i].a != a) && hdr' == hdr[a := h]
    ensures Linked(hdr', list)
  {
    forall i: nat | i < |list| ensures LinkOk(hdr', list, i) {
      assert LinkOk(hdr, list, i);
    }
  }

  lemma FindPlace(list: seq<Blk>, live: map<nat, nat>, top: nat, bp: nat) returns (t: nat)
    requires ListOk(list) && LiveOk(list, live, top) && bp in live
    ensures Place(list, t, bp) && Fits(list, t, Blk(bp, live[bp]))
  {
    forall i: nat | i < |list| ensures list[i].a != bp {
      assert Apart(list[i], Blk(bp, live[bp]));
    }
    t := PlaceFrom(list, bp, 0);
    FitsLive(list, live, top, t, bp);
  }

  lemma OthersSized(hdr: map<nat, Header>, list: seq<Blk>, live: map<nat, nat>, top: nat, t: nat, bp: nat)
    requires ListOk(list) && Linked(hdr, list) && LiveOk(list, live, top) && Sized(hdr, live) && bp in live
    requires Fits(list, t, Blk(bp, live[bp])) && LinkOk(hdr, list, t) && NextOf(list, t) in hdr
    ensures Sized(FreeLinks(hdr, list[t].a, bp, live[bp]), live - {bp})
  {
    forall a | a in live - {bp} ensures a != list[t].a {
      assert Apart(list[t], Blk(a, live[a]));
    }
  }

  /** The block before the freed one keeps its address. */
  lemma KeptEntry(list: seq<Blk>, t: nat, b: Blk)
    requires Fits(list, t, b)
    ensures t < |Freed(list, t, b)| && Freed(list, t, b)[t].a == list[t].a
  {
    FreedAt(list, t, b, t);
  }

  lemma JoinedAt(list: seq<Blk>, t: nat, b: Blk)
    requires Fits(list, t, b)
    ensures var g := if JoinsDown(list, t, b) then t else t + 1;
            && t < |Freed(list, t, b)| && Freed(list, t, b)[t].a == list[t].a
            && g < |Freed(list, t, b)| && Freed(list, t, b)[g].n >= b.n
  {
    KeptEntry(list, t, b);
    FreedAt(list, t, b, if JoinsDown(list, t, b) then t else t + 1);
  }

  ghost function Span(start: nat, n: nat): (r: set<nat>)
    ensures forall u: nat :: u in r <==> start <= u < start + n
  {
    set u: nat | start <= u < start + n && Inside(Blk(start, n), u)
  }

  /** Every header obtained so far lies below the break. */
  lemma BelowBreak(list: seq<Blk>, live: map<nat, nat>, arena: set<nat>, top: nat)
    requires LiveOk(list, live, top) && Accounted(list, live, arena)
    ensures forall u :: u in arena ==> u < top
  {
  }

  /** Headers above the break belong to nobody yet. */
  lemma Obtained(list: seq<Blk>, live: map<nat, nat>, arena: set<nat>, top: nat, start: nat, n: nat)
    requires ListOk(list) && LiveOk(list, live, top) && Accounted(list, live, arena) && top <= start && n > 0
    ensures start !in live && LiveOk(list, live[start := n], start + n)
    ensures Accounted(list, live[start := n], arena + Span(start, n))
    ensures forall i :: 0 <= i < |list| ==> list[i].a != start
  {
    var live' := live[start := n];
    forall u: nat ensures u in arena + Span(start, n) <==> Covered(list, u) || LiveCovers(live', u) {
      if LiveCovers(live, u) {
        var c :| c in live && Inside(Blk(c, live[c]), u);
        assert Inside(Blk(c, live'[c]), u);
      }
      if u in Span(start, n) {
        assert Inside(Blk(start, live'[start]), u);
      }
      if LiveCovers(live', u) && u !in Span(start, n) {
        var c :| c in live' && Inside(Blk(c, live'[c]), u);
        assert c in live;
      }
    }
  }
}
