/** The page allocator: free lists per order, page states and reference counts, updated in place. */
module Kalloc {
  import opened Prelude
  import opened Buddy

  const MAX_REFS: nat := 0xffff

  // ----- Steps on the lists -----

  lemma {:induction false} DroppedAt(xs: seq<nat>, i: nat)
    requires NoRepeats(xs) && i < |xs|
    ensures NoRepeats(xs[..i] + xs[i + 1..])
    ensures forall x :: x in xs[..i] + xs[i + 1..] <==> x in xs && x != xs[i]
  {
    var rest := xs[..i] + xs[i + 1..];
    forall a: nat, b: nat | a < b < |rest| ensures !Repeats(rest, a, b) {
      assert !Repeats(xs, if a < i then a else a + 1, if b < i then b else b + 1);
    }
    forall x ensures x in rest <==> x in xs && x != xs[i] {
      if x in xs && x != xs[i] {
        var j :| 0 <= j < |xs| && xs[j] == x;
        assert rest[if j < i then j else j - 1] == x;
      }
      if x in rest {
        var j :| 0 <= j < |rest| && rest[j] == x;
        assert j < i ==> !Repeats(xs, j, i);
        assert j >= i ==> !Repeats(xs, i, j + 1);
      }
    }
  }

  /** The lists are canonical for the free pages, and stand for as many pages as there are free ones. */
  ghost predicate Balanced(free: seq<bool>, lists: Lists) {
    Canonical(free, lists) && Units(lists, |lists|) == |FreePages(free)|
  }

  lemma TakeBlock(free: seq<bool>, lists: Lists, o: nat, i: nat)
    requires Balanced(free, lists) && o <= MAX_ORDER && i < |lists[o]|
    ensures lists[o][i] < Blocks(o) && AllFree(free, lists[o][i], o)
    ensures Balanced(Marked(free, lists[o][i], o, false), lists[o := lists[o][..i] + lists[o][i + 1..]])
  {
    var k := lists[o][i];
    var rest := lists[o][..i] + lists[o][i + 1..];
    var free', lists' := Marked(free, k, o, false), lists[o := rest];
    assert Listed(lists, k, o);
    DroppedAt(lists[o], i);
    RemoveBlock(free, lists, k, o, rest);
    UnitsOneMore(lists', lists, o, |lists|);
    MarkedPages(free', k, o);
    MarkedBack(free, k, o);
  }

  lemma MarkedBack(free: seq<bool>, k: nat, o: nat)
    requires |free| == NPAGES && AllFree(free, k, o)
    ensures Marked(Marked(free, k, o, false), k, o, true) == free
  {
  }

  lemma GiveBlock(free: seq<bool>, lists: Lists, k: nat, o: nat)
    requires Balanced(free, lists) && o <= MAX_ORDER && k < Blocks(o)
    requires AllUsed(free, k, o)
    requires o < MAX_ORDER ==> !AllFree(free, BuddyOf(k), o)
    ensures Balanced(Marked(free, k, o, true), lists[o := [k] + lists[o]])
  {
    AddBlock(free, lists, k, o);
    UnitsOneMore(lists, lists[o := [k] + lists[o]], o, |lists|);
    MarkedPages(free, k, o);
  }

  /** The pages free before are free now, except those of block `(k, o)`. */
  ghost predicate FreeBut(was: seq<bool>, free: seq<bool>, k: nat, o: nat) {
    |was| == |free| && forall p: nat :: p < |free| ==> free[p] == (was[p] && !InBlock(p, k, o))
  }

  lemma Halves(p: nat, k: nat, o: nat)
    requires o > 0
    ensures InBlock(p, k, o) <==> InBlock(p, 2 * k, o - 1) || InBlock(p, 2 * k + 1, o - 1)
    ensures !(InBlock(p, 2 * k, o - 1) && InBlock(p, 2 * k + 1, o - 1))
  {
  }

  lemma SplitFree(was: seq<bool>, free: seq<bool>, k: nat, o: nat)
    requires |free| == NPAGES && 0 < o <= MAX_ORDER && FreeBut(was, free, k, o) && AllFree(was, k, o)
    ensures AllFree(was, 2 * k, o - 1) && FreeBut(was, Marked(free, 2 * k + 1, o - 1, true), 2 * k, o - 1)
    ensures AllUsed(free, 2 * k, o - 1) && AllUsed(free, 2 * k + 1, o - 1)
  {
    forall p: nat | p < NPAGES
      ensures InBlock(p, 2 * k, o - 1) ==> was[p]
      ensures InBlock(p, 2 * k, o - 1) || InBlock(p, 2 * k + 1, o - 1) ==> !free[p]
      ensures Marked(free, 2 * k + 1, o - 1, true)[p] == (was[p] && !InBlock(p, 2 * k, o - 1))
    {
      Halves(p, k, o);
    }
  }

  lemma ChildInRange(k: nat, o: nat)
    requires 0 < o <= MAX_ORDER && k < Blocks(o)
    ensures 2 * k + 1 < Blocks(o - 1)
  {
    assert Blocks(o - 1) == 2 * Blocks(o);
  }

  lemma NotAllFree(free: seq<bool>, k: nat, o: nat)
    requires |free| == NPAGES && o <= MAX_ORDER && k < Blocks(o)
    requires AllUsed(free, k, o)
    ensures !AllFree(free, k, o)
  {
    FirstInBlock(k, o);
  }

  /** Splitting: the right half of a taken block goes to its list, the left half stays taken. */
  lemma SplitStep(was: seq<bool>, free: seq<bool>, lists: Lists, k: nat, o: nat)
    requires Balanced(free, lists) && 0 < o <= MAX_ORDER && k < Blocks(o)
    requires FreeBut(was, free, k, o) && AllFree(was, k, o)
    ensures 2 * k + 1 < Blocks(o - 1) && AllFree(was, 2 * k, o - 1)
    ensures FreeBut(was, Marked(free, 2 * k + 1, o - 1, true), 2 * k, o - 1)
    ensures Balanced(Marked(free, 2 * k + 1, o - 1, true), lists[o - 1 := [2 * k + 1] + lists[o - 1]])
  {
    ChildInRange(k, o);
    SplitFree(was, free, k, o);
    GiveHalf(free, lists, 2 * k, 2 * k + 1, o - 1);
  }

  /** One half of a taken block goes to its list. */
  lemma GiveHalf(free: seq<bool>, lists: Lists, left: nat, right: nat, o: nat)
    requires Balanced(free, lists) && o <= MAX_ORDER && left < Blocks(o) && right < Blocks(o) && BuddyOf(right) == left
    requires AllUsed(free, left, o) && AllUsed(free, right, o)
    ensures Balanced(Marked(free, right, o, true), lists[o := [right] + lists[o]])
  {
    NotAllFree(free, left, o);
    GiveBlock(free, lists, right, o);
  }

  /** Merging: a listed buddy is taken off its list and joined to the block being freed. */
  lemma MergeStep(free: seq<bool>, lists: Lists, k: nat, o: nat, i: nat)
    requires |free| == NPAGES && o < MAX_ORDER && k < Blocks(o) && AllFree(free, k, o)
    requires Balanced(Marked(free, k, o, false), lists) && i < |lists[o]| && lists[o][i] == BuddyOf(k)
    ensures k / 2 < Blocks(o + 1) && AllFree(free, k / 2, o + 1)
    ensures Balanced(Marked(free, k / 2, o + 1, false), lists[o := lists[o][..i] + lists[o][i + 1..]])
  {
    var b, without := BuddyOf(k), Marked(free, k, o, false);
    ParentInRange(k, o);
    TakeBlock(without, lists, o, i);
    forall p: nat | p < NPAGES ensures InBlock(p, k / 2, o + 1) <==> InBlock(p, k, o) || InBlock(p, b, o) {
    }
    forall p: nat | p < NPAGES && InBlock(p, k / 2, o + 1) ensures free[p] {
      assert InBlock(p, b, o) ==> without[p];
    }
    assert Marked(without, b, o, false) == Marked(free, k / 2, o + 1, false);
  }

  /** A buddy that is not on its list, or whose first page is in use, is not wholly free. */
  lemma CannotMerge(free: seq<bool>, lists: Lists, k: nat, o: nat)
    requires |free| == NPAGES && o < MAX_ORDER && k < Blocks(o)
    requires Balanced(Marked(free, k, o, false), lists)
    requires BuddyOf(k) !in lists[o] || (FirstPage(BuddyOf(k), o) < NPAGES && !free[FirstPage(BuddyOf(k), o)])
    ensures !AllFree(Marked(free, k, o, false), BuddyOf(k), o)
  {
    var b, without := BuddyOf(k), Marked(free, k, o, false);
    BuddyInRange(k, o);
    if b in lists[o] {
      FirstInBlock(b, o);
      FirstUsed(without, b, o);
    } else {
      ParentUsed(free, k, o);
      Unlisted(without, lists, b, o);
    }
  }

  lemma FirstUsed(free: seq<bool>, k: nat, o: nat)
    requires |free| == NPAGES && FirstPage(k, o) < NPAGES && InBlock(FirstPage(k, o), k, o) && !free[FirstPage(k, o)]
    ensures !AllFree(free, k, o)
  {
  }

  /** A block that is not listed, and whose parent is not wholly free, is not wholly free either. */
  lemma Unlisted(free: seq<bool>, lists: Lists, k: nat, o: nat)
    requires Canonical(free, lists) && o < MAX_ORDER && k < Blocks(o) && k !in lists[o]
    requires !AllFree(free, k / 2, o + 1)
    ensures !AllFree(free, k, o)
  {
    assert Listed(lists, k, o) <==> Canon(free, k, o);
  }

  /** With a block in use, its parent is not wholly free. */
  lemma ParentUsed(free: seq<bool>, k: nat, o: nat)
    requires |free| == NPAGES && o < MAX_ORDER && k < Blocks(o)
    ensures !AllFree(Marked(free, k, o, false), k / 2, o + 1)
  {
    FirstInBlock(k, o);
    assert InBlock(FirstPage(k, o), k / 2, o + 1);
  }

  /** Once merging stops, the block being freed goes to its list. */
  lemma MergeEnds(free: seq<bool>, lists: Lists, k: nat, o: nat)
    requires |free| == NPAGES && o <= MAX_ORDER && k < Blocks(o) && AllFree(free, k, o)
    requires Balanced(Marked(free, k, o, false), lists)
    requires o < MAX_ORDER ==> !AllFree(Marked(free, k, o, false), BuddyOf(k), o)
    ensures Balanced(free, lists[o := [k] + lists[o]])
  {
    GiveBlock(Marked(free, k, o, false), lists, k, o);
    MarkedBack(free, k, o);
  }

  class Kmem {
    var lists: Lists
    var nrFree: seq<nat>
    const pageState: array<bool>
    const refcnt: array<nat>
    /** Pages below this one belong to the kernel image and are never handed out. */
    const first: nat

    ghost predicate Shape()
      reads this
    {
      && pageState.Length == NPAGES == refcnt.Length && first <= NPAGES
      && |lists| == MAX_ORDER + 1 == |nrFree| && forall o :: 0 <= o <= MAX_ORDER ==> nrFree[o] == |lists[o]|
    }

    ghost predicate Valid()
      reads this, pageState, refcnt
    {
      && Shape()
      && Balanced(pageState[..], lists)
      && (forall p :: first <= p < NPAGES ==> (pageState[p] <==> refcnt[p] == 0))
      && (forall p :: 0 <= p < first ==> !pageState[p])
      && (forall p :: 0 <= p < NPAGES ==> refcnt[p] <= MAX_REFS)
    }

    method SetBlockState(k: nat, o: nat, v: bool)
      requires Shape() && o <= MAX_ORDER && k < Blocks(o)
      modifies pageState
      ensures pageState[..] == Marked(old(pageState[..]), k, o, v)
    {
      ghost var was := pageState[..];
      var idx := FirstPage(k, o);
      BlockFits(k, o);
      for i := 0 to Pow2(o)
        invariant forall p :: 0 <= p < NPAGES ==> pageState[p] == if idx <= p < idx + i then v else was[p]
      {
        pageState[idx + i] := v;
      }
      forall p: nat | p < NPAGES ensures pageState[p] == Marked(was, k, o, v)[p] {
        BlockRange(p, k, o);
      }
    }

    method FreelistPush(o: nat, k: nat)
      requires Shape() && o <= MAX_ORDER
      modifies this
      ensures Shape() && lists == old(lists)[o := [k] + old(lists[o])]
    {
      lists := lists[o := [k] + lists[o]];
      nrFree := nrFree[o := nrFree[o] + 1];
    }

    method FreelistPop(o: nat) returns (k: Option<nat>)
      requires Shape() && o <= MAX_ORDER
      modifies this
      ensures Shape()
      ensures k == None <==> old(lists[o]) == []
      ensures k == None ==> lists == old(lists)
      ensures k.Some? ==> k.value == old(lists[o])[0] && lists == old(lists)[o := old(lists[o])[1..]]
    {
      if lists[o] == [] {
        return None;
      }
      k := Some(lists[o][0]);
      lists := lists[o := lists[o][1..]];
      nrFree := nrFree[o := nrFree[o] - 1];
    }

    /** Unlinks the first entry for `k`. */
    method FreelistRemove(o: nat, k: nat) returns (found: bool)
      requires Shape() && o <= MAX_ORDER
      modifies this
      ensures Shape()
      ensures found <==> k in old(lists[o])
      ensures !found ==> lists == old(lists)
      ensures found ==> exists i :: 0 <= i < |old(lists[o])| && old(lists[o])[i] == k
                          && lists == old(lists)[o := old(lists[o])[..i] + old(lists[o])[i + 1..]]
    {
      var xs := lists[o];
      for i := 0 to |xs|
        invariant k !in xs[..i]
      {
        if xs[i] == k {
          lists := lists[o := xs[..i] + xs[i + 1..]];
          nrFree := nrFree[o := nrFree[o] - 1];
          return true;
        }
      }
      return false;
    }

    /** Takes a block of the smallest order that has one. */
    method TakeSmallest() returns (k: nat, order: nat)
      requires Shape() && Balanced(pageState[..], lists)
      modifies this, pageState
      ensures Shape() && Balanced(pageState[..], lists)
      ensures order > MAX_ORDER <==> forall p :: 0 <= p < NPAGES ==> !old(pageState[p])
      ensures order > MAX_ORDER ==> pageState[..] == old(pageState[..])
      ensures order <= MAX_ORDER ==> k < Blocks(order) && AllFree(old(pageState[..]), k, order)
                                     && FreeBut(old(pageState[..]), pageState[..], k, order)
    {
      ghost var was := pageState[..];
      k, order := 0, 0;
      while order <= MAX_ORDER && lists[order] == []
        invariant order <= MAX_ORDER + 1 && forall o :: 0 <= o < order ==> lists[o] == []
      {
        order := order + 1;
      }
      if order > MAX_ORDER {
        NothingListed(was, lists);
        return;
      }
      TakeBlock(was, lists, order, 0);
      assert lists[order][..0] + lists[order][1..] == lists[order][1..];
      var head := FreelistPop(order);
      k := head.value;
      SetBlockState(k, order, false);
      SomeFree(was, k, order);
    }

    /** Frees the right half of a taken block. */
    method SplitOnce(k: nat, o: nat, ghost was: seq<bool>)
      requires Shape() && 0 < o <= MAX_ORDER && k < Blocks(o) && Balanced(pageState[..], lists)
      requires FreeBut(was, pageState[..], k, o) && AllFree(was, k, o)
      modifies this, pageState
      ensures Shape() && 2 * k + 1 < Blocks(o - 1) && Balanced(pageState[..], lists)
      ensures FreeBut(was, pageState[..], 2 * k, o - 1) && AllFree(was, 2 * k, o - 1)
    {
      ghost var free, before := pageState[..], lists;
      SplitStep(was, free, before, k, o);
      var right, half := 2 * k + 1, o - 1;
      SetBlockState(right, half, true);
      FreelistPush(half, right);
    }

    /** Takes a page from the smallest block there is, splitting it down. */
    method BuddyAlloc() returns (page: Option<nat>)
      requires Shape() && Balanced(pageState[..], lists)
      modifies this, pageState
      ensures Shape() && Balanced(pageState[..], lists)
      ensures page == None <==> forall p :: 0 <= p < NPAGES ==> !old(pageState[p])
      ensures page == None ==> pageState[..] == old(pageState[..])
      ensures page.Some? ==> page.value < NPAGES && old(pageState[..])[page.value]
                             && pageState[..] == old(pageState[..])[page.value := false]
    {
      ghost var was := pageState[..];
      var k: nat, order: nat := TakeSmallest();
      if order > MAX_ORDER {
        return None;
      }
      while order > 0
        invariant Shape() && order <= MAX_ORDER && k < Blocks(order) && Balanced(pageState[..], lists)
        invariant FreeBut(was, pageState[..], k, order) && AllFree(was, k, order)
      {
        SplitOnce(k, order, was);
        k, order := 2 * k, order - 1;
      }
      TakenPage(was, pageState[..], k);
      return Some(k);
    }

    /** Joins a free block with its buddy if that is on its list. */
    method MergeOnce(k: nat, o: nat) returns (found: bool)
      requires Shape() && o < MAX_ORDER && k < Blocks(o) && AllFree(pageState[..], k, o)
      requires Balanced(Marked(pageState[..], k, o, false), lists)
      modifies this, pageState
      ensures Shape() && pageState[..] == old(pageState[..])
      ensures found <==> BuddyOf(k) in old(lists[o])
      ensures !found ==> lists == old(lists)
      ensures found ==> k / 2 < Blocks(o + 1) && AllFree(pageState[..], k / 2, o + 1)
                        && Balanced(Marked(pageState[..], k / 2, o + 1, false), lists)
    {
      ghost var free, before := pageState[..], lists;
      var buddy := BuddyOf(k);
      BuddyInRange(k, o);
      found := FreelistRemove(o, buddy);
      if !found {
        return;
      }
      ghost var i :| 0 <= i < |before[o]| && before[o][i] == buddy
                     && lists == before[o := before[o][..i] + before[o][i + 1..]];
      MergeStep(free, before, k, o, i);
      MarkMerged(k, buddy, o);
    }

    /** The page states of two halves that become one block; they were and stay free. */
    method MarkMerged(k: nat, buddy: nat, o: nat)
      requires Shape() && o < MAX_ORDER && k < Blocks(o) && buddy == BuddyOf(k) && buddy < Blocks(o)
      requires k / 2 < Blocks(o + 1) && AllFree(pageState[..], k / 2, o + 1)
      modifies pageState
      ensures pageState[..] == old(pageState[..])
    {
      ghost var free := pageState[..];
      SetBlockState(k, o, false);
      SetBlockState(buddy, o, false);
      SetBlockState(if buddy < k then buddy / 2 else k / 2, o + 1, true);
      Remarked(free, k, o);
    }

    /** One round of merging: the block joins its buddy, or the buddy is not wholly free. */
    method TryMerge(k: nat, o: nat) returns (merged: bool)
      requires Shape() && o < MAX_ORDER && k < Blocks(o) && AllFree(pageState[..], k, o)
      requires Balanced(Marked(pageState[..], k, o, false), lists)
      modifies this, pageState
      ensures Shape() && pageState[..] == old(pageState[..])
      ensures !merged ==> lists == old(lists) && !AllFree(Marked(pageState[..], k, o, false), BuddyOf(k), o)
      ensures merged ==> k / 2 < Blocks(o + 1) && AllFree(pageState[..], k / 2, o + 1)
                         && Balanced(Marked(pageState[..], k / 2, o + 1, false), lists)
    {
      BuddyInRange(k, o);
      FirstInBlock(BuddyOf(k), o);
      merged := pageState[FirstPage(BuddyOf(k), o)];
      if merged {
        merged := MergeOnce(k, o);
      }
      if !merged {
        CannotMerge(pageState[..], lists, k, o);
      }
    }

    /** Gives a page back, merging it with free buddies as far as they go. */
    method BuddyFree(page: nat)
      requires Shape() && Balanced(pageState[..], lists) && page < NPAGES && !pageState[page]
      modifies this, pageState
      ensures Shape() && Balanced(pageState[..], lists)
      ensures pageState[..] == old(pageState[..])[page := true]
    {
      var k: nat, order: nat := page, 0;
      GivenPage(pageState[..], page);
      SetBlockState(k, order, true);
      ghost var free := pageState[..];
      while order < MAX_ORDER
        invariant Shape() && order <= MAX_ORDER && k < Blocks(order) && pageState[..] == free
        invariant AllFree(free, k, order) && Balanced(Marked(free, k, order, false), lists)
      {
        var merged := TryMerge(k, order);
        if !merged {
          break;
        }
        k, order := k / 2, order + 1;
      }
      MergeEnds(free, lists, k, order);
      FreelistPush(order, k);
    }

    // ----- Pages -----

    /** kalloc: fails exactly when every managed page is in use. */
    method Alloc() returns (page: Option<nat>)
      requires Valid()
      modifies this, pageState, refcnt
      ensures Valid()
      ensures page == None <==> forall p :: first <= p < NPAGES ==> old(refcnt[p]) > 0
      ensures page == None ==> refcnt[..] == old(refcnt[..])
      ensures page.Some? ==> first <= page.value < NPAGES && old(refcnt[..])[page.value] == 0
                             && refcnt[..] == old(refcnt[..])[page.value := 1]
    {
      page := BuddyAlloc();
      if page.Some? {
        refcnt[page.value] := 1;
      }
    }

    /** kfree: the page returns to the free lists with its last reference.  A page without one is a panic. */
    method Free(page: nat)
      requires Valid() && first <= page < NPAGES && refcnt[page] >= 1
      modifies this, pageState, refcnt
      ensures Valid() && refcnt[..] == old(refcnt[..])[page := old(refcnt[page]) - 1]
    {
      refcnt[page] := refcnt[page] - 1;
      if refcnt[page] > 0 {
        return;
      }
      BuddyFree(page);
    }

    /** kaddref: a free page is a panic.  The count has 16 bits; the allocator stays sound exactly if it does not
        wrap. */
    method AddRef(page: nat)
      requires Valid() && first <= page < NPAGES && refcnt[page] != 0
      modifies refcnt
      ensures Shape() && refcnt[..] == old(refcnt[..])[page := (old(refcnt[page]) + 1) % (MAX_REFS + 1)]
      ensures Valid() <==> old(refcnt[page]) < MAX_REFS
    {
      refcnt[page] := (refcnt[page] + 1) % (MAX_REFS + 1);
    }

    /** kinit: every page from the end of the kernel on is freed, one by one. */
    constructor (end: nat)
      requires end <= NPAGES
      ensures Valid() && first == end && fresh(pageState) && fresh(refcnt)
      ensures forall p :: end <= p < NPAGES ==> refcnt[p] == 0 && pageState[p]
    {
      first := end;
      lists := seq(MAX_ORDER + 1, _ => []);
      nrFree := seq(MAX_ORDER + 1, _ => 0);
      pageState := new bool[NPAGES](_ => false);
      refcnt := new nat[NPAGES](_ => 0);
      new;
      NothingFree(pageState[..], lists);
      for p := end to NPAGES
        invariant Shape() && Balanced(pageState[..], lists) && fresh(pageState) && fresh(refcnt)
        invariant forall q :: 0 <= q < NPAGES ==> refcnt[q] == 0 && (pageState[q] <==> end <= q < p)
      {
        refcnt[p] := 1;
        refcnt[p] := refcnt[p] - 1;
        BuddyFree(p);
      }
    }
  }

  lemma NothingFree(free: seq<bool>, lists: Lists)
    requires |free| == NPAGES && (forall p :: 0 <= p < NPAGES ==> !free[p])
    requires |lists| == MAX_ORDER + 1 && forall o :: 0 <= o <= MAX_ORDER ==> lists[o] == []
    ensures Balanced(free, lists)
  {
    forall k: nat, o: nat | o <= MAX_ORDER && k < Blocks(o) ensures !Canon(free, k, o) {
      NotAllFree(free, k, o);
    }
    NoUnits(lists, |lists|);
    assert FreePages(free) == {};
  }

  lemma {:induction false} NoUnits(lists: Lists, n: nat)
    requires n <= |lists| && forall o :: 0 <= o < |lists| ==> lists[o] == []
    ensures Units(lists, n) == 0
  {
    if n > 0 {
      NoUnits(lists, n - 1);
    }
  }

  /** The managed pages with references. */
  ghost function InUse(refs: seq<nat>, first: nat): set<nat> {
    set p: nat | first <= p < |refs| && refs[p] > 0
  }

  /** Page conservation: the pages on the free lists and the pages with references are all the managed pages. */
  lemma Conservation(m: Kmem)
    requires m.Valid()
    ensures Units(m.lists, |m.lists|) + |InUse(m.refcnt[..], m.first)| == NPAGES - m.first
  {
    var all := Range(m.first, NPAGES);
    var free, used := FreePages(m.pageState[..]), InUse(m.refcnt[..], m.first);
    assert free + used == all;
    assert free !! used;
  }

  ghost function Range(a: nat, b: nat): (r: set<nat>)
    requires a <= b
    ensures |r| == b - a && forall x: nat :: x in r <==> a <= x < b
    decreases b - a
  {
    if a == b then {} else {a} + Range(a + 1, b)
  }

  /** A managed page lies in a listed block exactly when it has no references. */
  lemma FreeIffUnreferenced(m: Kmem, p: nat)
    requires m.Valid() && m.first <= p < NPAGES
    ensures m.refcnt[p] == 0 <==> exists o: nat :: o <= MAX_ORDER && Up(p, o) in m.lists[o]
  {
    var free := m.pageState[..];
    if m.refcnt[p] == 0 {
      assert AllFree(free, p, 0);
      var o := FreePageListed(free, m.lists, p, p, 0);
    }
    if o: nat :| o <= MAX_ORDER && Up(p, o) in m.lists[o] {
      ListedDisjoint(free, m.lists, p, o, o);
    }
  }

  lemma SomeFree(free: seq<bool>, k: nat, o: nat)
    requires |free| == NPAGES && o <= MAX_ORDER && k < Blocks(o) && AllFree(free, k, o)
    ensures exists p :: 0 <= p < NPAGES && free[p]
  {
    FirstInBlock(k, o);
  }

  lemma Remarked(free: seq<bool>, k: nat, o: nat)
    requires |free| == NPAGES && AllFree(free, k / 2, o + 1)
    ensures Marked(Marked(Marked(free, k, o, false), BuddyOf(k), o, false), k / 2, o + 1, true) == free
  {
    var f := Marked(Marked(Marked(free, k, o, false), BuddyOf(k), o, false), k / 2, o + 1, true);
    forall p: nat | p < NPAGES ensures f[p] == free[p] {
      Halves(p, k / 2, o + 1);
    }
  }

  /** With every list empty, no page is free. */
  lemma NothingListed(free: seq<bool>, lists: Lists)
    requires Canonical(free, lists) && forall o :: 0 <= o <= MAX_ORDER ==> lists[o] == []
    ensures forall p :: 0 <= p < NPAGES ==> !free[p]
  {
    forall p: nat | p < NPAGES ensures !free[p] {
      if free[p] {
        var o := FreePageListed(free, lists, p, p, 0);
      }
    }
  }

  lemma TakenPage(was: seq<bool>, free: seq<bool>, k: nat)
    requires |was| == NPAGES && k < NPAGES && FreeBut(was, free, k, 0) && AllFree(was, k, 0)
    ensures was[k] && free == was[k := false]
  {
    assert InBlock(k, k, 0);
  }

  lemma GivenPage(free: seq<bool>, page: nat)
    requires |free| == NPAGES && page < NPAGES && !free[page]
    ensures Marked(free, page, 0, true) == free[page := true] && AllFree(free[page := true], page, 0)
    ensures Marked(free[page := true], page, 0, false) == free
  {
  }
}
