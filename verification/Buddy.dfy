/**
  The buddy allocator's blocks.  Block `k` of order `o` is pages `k * 2^o` up to `(k + 1) * 2^o`; its halves are blocks
  `2k` and `2k + 1` of order `o - 1`, its buddy is the other half of block `k / 2` of order `o + 1`.
 */
module Buddy {

  const MAX_ORDER: nat := 15

  function Pow2(n: nat): (r: nat)
    ensures r > 0
  {
    if n == 0 then 1 else 2 * Pow2(n - 1)
  }

  const NPAGES: nat := Pow2(MAX_ORDER)

  /** The number of blocks of an order. */
  function Blocks(o: nat): nat
    requires o <= MAX_ORDER
  {
    Pow2(MAX_ORDER - o)
  }

  /** The block `n` orders up that holds `k`. */
  function Up(k: nat, n: nat): nat {
    if n == 0 then k else Up(k, n - 1) / 2
  }

  predicate InBlock(p: nat, k: nat, o: nat) {
    Up(p, o) == k
  }

  function BuddyOf(k: nat): nat {
    if k % 2 == 0 then k + 1 else k - 1
  }

  /** The first page of a block. */
  function FirstPage(k: nat, o: nat): nat
    decreases o
  {
    if o == 0 then k else FirstPage(2 * k, o - 1)
  }

  // ----- Where blocks lie -----

  lemma {:induction false} UpUp(k: nat, a: nat, b: nat)
    ensures Up(Up(k, a), b) == Up(k, a + b)
  {
    if b > 0 {
      UpUp(k, a, b - 1);
    }
  }

  lemma {:induction false} FirstInBlock(k: nat, o: nat)
    requires o <= MAX_ORDER && k < Blocks(o)
    ensures FirstPage(k, o) < NPAGES && InBlock(FirstPage(k, o), k, o)
    decreases o
  {
    if o > 0 {
      FirstInBlock(2 * k, o - 1);
    }
  }

  lemma {:induction false} UpInRange(p: nat, o: nat)
    requires p < NPAGES && o <= MAX_ORDER
    ensures Up(p, o) < Blocks(o)
  {
    if o > 0 {
      UpInRange(p, o - 1);
    }
  }

  lemma {:induction false} FirstPageIs(k: nat, o: nat)
    ensures FirstPage(k, o) == k * Pow2(o)
    decreases o
  {
    if o > 0 {
      FirstPageIs(2 * k, o - 1);
      assert 2 * k * Pow2(o - 1) == k * (2 * Pow2(o - 1));
    }
  }

  lemma {:induction false} NextBlock(k: nat, o: nat)
    ensures FirstPage(k + 1, o) == FirstPage(k, o) + Pow2(o)
    decreases o
  {
    if o > 0 {
      NextBlock(2 * k, o - 1);
      NextBlock(2 * k + 1, o - 1);
    }
  }

  /** The pages of a block are consecutive. */
  lemma {:induction false} BlockRange(p: nat, k: nat, o: nat)
    ensures InBlock(p, k, o) <==> FirstPage(k, o) <= p < FirstPage(k, o) + Pow2(o)
    decreases o
  {
    if o > 0 {
      BlockRange(p, 2 * k, o - 1);
      BlockRange(p, 2 * k + 1, o - 1);
      NextBlock(2 * k, o - 1);
      assert InBlock(p, k, o) <==> InBlock(p, 2 * k, o - 1) || InBlock(p, 2 * k + 1, o - 1);
    }
  }

  lemma BlockFits(k: nat, o: nat)
    requires o <= MAX_ORDER && k < Blocks(o)
    ensures FirstPage(k, o) + Pow2(o) <= NPAGES
  {
    var last := FirstPage(k, o) + Pow2(o) - 1;
    BlockRange(last, k, o);
    BlockBelow(last, k, o);
  }

  /** A smaller block lies inside a larger one or has no page in common with it. */
  lemma Nested(p: nat, k: nat, o: nat, k': nat, o': nat)
    requires o' <= o && InBlock(p, k', o')
    ensures InBlock(p, k, o) <==> Up(k', o - o') == k
  {
    UpUp(p, o', o - o');
  }

  // ----- Free pages -----

  ghost predicate AllFree(free: seq<bool>, k: nat, o: nat)
    requires |free| == NPAGES
  {
    forall p: nat {:trigger InBlock(p, k, o)} :: p < NPAGES && InBlock(p, k, o) ==> free[p]
  }

  /** No page of the block is free. */
  ghost predicate AllUsed(free: seq<bool>, k: nat, o: nat)
    requires |free| == NPAGES
  {
    forall p: nat {:trigger InBlock(p, k, o)} :: p < NPAGES && InBlock(p, k, o) ==> !free[p]
  }

  /** A block that the free lists should hold: wholly free, and not half of a larger free block. */
  ghost predicate Canon(free: seq<bool>, k: nat, o: nat)
    requires |free| == NPAGES
  {
    AllFree(free, k, o) && (o < MAX_ORDER ==> !AllFree(free, k / 2, o + 1))
  }

  /** The free lists, one per order, each without repetition. */
  type Lists = seq<seq<nat>>

  predicate Repeats(xs: seq<nat>, i: nat, j: nat) {
    i < |xs| && j < |xs| && xs[i] == xs[j]
  }

  ghost predicate NoRepeats(xs: seq<nat>) {
    forall i: nat, j: nat {:trigger Repeats(xs, i, j)} :: i < j < |xs| ==> !Repeats(xs, i, j)
  }

  ghost predicate Listed(lists: Lists, k: nat, o: nat) {
    o < |lists| && k in lists[o]
  }

  /** The lists hold exactly the blocks they should. */
  ghost predicate Canonical(free: seq<bool>, lists: Lists) {
    && |free| == NPAGES && |lists| == MAX_ORDER + 1
    && (forall o: nat, i :: o <= MAX_ORDER && 0 <= i < |lists[o]| ==> lists[o][i] < Blocks(o))
    && (forall o: nat :: o <= MAX_ORDER ==> NoRepeats(lists[o]))
    && (forall k: nat, o: nat {:trigger Listed(lists, k, o)} {:trigger Canon(free, k, o)} ::
          o <= MAX_ORDER && k < Blocks(o) ==> (Listed(lists, k, o) <==> Canon(free, k, o)))
  }

  /** The pages of a block marked free or not. */
  function Marked(free: seq<bool>, k: nat, o: nat, v: bool): (r: seq<bool>)
    ensures |r| == |free| && forall p: nat :: p < |free| ==> r[p] == if InBlock(p, k, o) then v else free[p]
  {
    seq(|free|, p requires 0 <= p < |free| => if InBlock(p, k, o) then v else free[p])
  }

  lemma SubBlockFree(free: seq<bool>, k: nat, o: nat, k': nat, o': nat)
    requires |free| == NPAGES && o' <= o && Up(k', o - o') == k && AllFree(free, k, o)
    ensures AllFree(free, k', o')
  {
    forall p: nat | p < NPAGES && InBlock(p, k', o') ensures free[p] {
      Nested(p, k, o, k', o');
      assert InBlock(p, k, o);
    }
  }

  /** What marking block `(k, o)` as used does to whether another block is wholly free. */
  lemma MarkedUsed(free: seq<bool>, k: nat, o: nat, k': nat, o': nat)
    requires |free| == NPAGES && o <= MAX_ORDER && k < Blocks(o) && o' <= MAX_ORDER && k' < Blocks(o')
    ensures AllFree(Marked(free, k, o, false), k', o') <==>
            AllFree(free, k', o') && (if o <= o' then Up(k, o' - o) != k' else Up(k', o - o') != k)
  {
    var free' := Marked(free, k, o, false);
    FirstInBlock(k, o);
    FirstInBlock(k', o');
    var p := if o <= o' then FirstPage(k, o) else FirstPage(k', o');
    if o <= o' {
      Nested(p, k', o', k, o);
    } else {
      Nested(p, k, o, k', o');
    }
    if AllFree(free', k', o') {
      forall q: nat | q < NPAGES && InBlock(q, k', o') ensures free[q] {
        assert free'[q];
      }
    }
    if AllFree(free, k', o') && (if o <= o' then Up(k, o' - o) != k' else Up(k', o - o') != k) {
      forall q: nat | q < NPAGES && InBlock(q, k', o') ensures free'[q] {
        if InBlock(q, k, o) {
          if o <= o' {
            Nested(q, k', o', k, o);
          } else {
            Nested(q, k, o, k', o');
          }
        }
      }
    }
  }

  /** What marking block `(k, o)` as free does to whether another block is wholly free. */
  lemma MarkedFree(free: seq<bool>, k: nat, o: nat, k': nat, o': nat)
    requires |free| == NPAGES && o <= MAX_ORDER && k < Blocks(o) && o' <= MAX_ORDER && k' < Blocks(o')
    ensures AllFree(free, k', o') ==> AllFree(Marked(free, k, o, true), k', o')
    ensures o' <= o && Up(k', o - o') == k ==> AllFree(Marked(free, k, o, true), k', o')
    ensures (if o <= o' then Up(k, o' - o) != k' else Up(k', o - o') != k) ==>
            (AllFree(Marked(free, k, o, true), k', o') <==> AllFree(free, k', o'))
  {
    var free' := Marked(free, k, o, true);
    if o' <= o && Up(k', o - o') == k {
      forall q: nat | q < NPAGES && InBlock(q, k', o') ensures free'[q] {
        Nested(q, k, o, k', o');
      }
    }
    if (if o <= o' then Up(k, o' - o) != k' else Up(k', o - o') != k) && AllFree(free', k', o') {
      forall q: nat | q < NPAGES && InBlock(q, k', o') ensures free[q] {
        assert free'[q];
        if o <= o' && InBlock(q, k, o) {
          Nested(q, k', o', k, o);
        } else if o > o' {
          Nested(q, k, o, k', o');
        }
      }
    }
  }

  lemma UpNext(k: nat, n: nat)
    requires n > 0
    ensures Up(k, n) == Up(k / 2, n - 1)
  {
    UpUp(k, 1, n - 1);
    assert Up(k, 1) == Up(k, 0) / 2;
  }

  // ----- Taking a block off a list -----

  /** Whether two blocks have a page in common. */
  predicate Overlap(k: nat, o: nat, k': nat, o': nat) {
    if o <= o' then Up(k, o' - o) == k' else Up(k', o - o') == k
  }

  /** Blocks that overlap one on the lists, other than itself, should not be on the lists. */
  lemma OverlapNotCanon(free: seq<bool>, k: nat, o: nat, k': nat, o': nat)
    requires |free| == NPAGES && o <= MAX_ORDER && o' <= MAX_ORDER && Canon(free, k, o)
    requires Overlap(k, o, k', o') && (k, o) != (k', o')
    ensures !Canon(free, k', o')
  {
    if o < o' {
      UpNext(k, o' - o);
      if AllFree(free, k', o') {
        SubBlockFree(free, k', o', k / 2, o + 1);
      }
    } else {
      UpNext(k', o - o');
      SubBlockFree(free, k, o, k' / 2, o' + 1);
    }
  }

  /** Marking a listed block as used leaves a block that does not overlap it as it was. */
  lemma ApartCanon(free: seq<bool>, k: nat, o: nat, k': nat, o': nat)
    requires |free| == NPAGES && o <= MAX_ORDER && k < Blocks(o) && o' <= MAX_ORDER && k' < Blocks(o')
    requires Canon(free, k, o) && !Overlap(k, o, k', o')
    ensures Canon(Marked(free, k, o, false), k', o') <==> Canon(free, k', o')
  {
    MarkedUsed(free, k, o, k', o');
    if o' < MAX_ORDER {
      ParentInRange(k', o');
      MarkedUsed(free, k, o, k' / 2, o' + 1);
      if Overlap(k, o, k' / 2, o' + 1) && AllFree(free, k' / 2, o' + 1) {
        if o <= o' {
          UpNext(k, o' + 1 - o);
          SubBlockFree(free, k' / 2, o' + 1, k / 2, o + 1);
        } else {
          UpNext(k', o - o');
        }
      }
    }
  }

  /** Taking a block off its list and marking it used keeps the lists canonical. */
  lemma RemoveBlock(free: seq<bool>, lists: Lists, k: nat, o: nat, rest: seq<nat>)
    requires Canonical(free, lists) && o <= MAX_ORDER && k < Blocks(o) && k in lists[o]
    requires NoRepeats(rest) && forall x :: x in rest <==> x in lists[o] && x != k
    ensures Canonical(Marked(free, k, o, false), lists[o := rest])
  {
    var free', lists' := Marked(free, k, o, false), lists[o := rest];
    assert Listed(lists, k, o);
    forall k': nat, o': nat | o' <= MAX_ORDER && k' < Blocks(o')
      ensures Listed(lists', k', o') <==> Canon(free', k', o')
    {
      assert Listed(lists, k', o') <==> Canon(free, k', o');
      if Overlap(k, o, k', o') {
        MarkedUsed(free, k, o, k', o');
        if (k, o) != (k', o') {
          OverlapNotCanon(free, k, o, k', o');
        }
      } else {
        ApartCanon(free, k, o, k', o');
      }
    }
    forall q: nat, i | q <= MAX_ORDER && 0 <= i < |lists'[q]| ensures lists'[q][i] < Blocks(q) {
      assert lists'[q][i] in lists[q];
    }
  }

  // ----- Putting a block on a list -----

  /** Once block `(k, o)` is free and its buddy is not, no larger block around it is free. */
  lemma AroundNotFree(free: seq<bool>, k: nat, o: nat, k': nat, o': nat)
    requires |free| == NPAGES && o < o' <= MAX_ORDER && k < Blocks(o) && k' < Blocks(o') && Up(k, o' - o) == k'
    requires !AllFree(free, BuddyOf(k), o)
    ensures !AllFree(Marked(free, k, o, true), k', o')
  {
    UpNext(k, o' - o);
    UpNext(BuddyOf(k), o' - o);
    BuddyInRange(k, o);
    assert !Overlap(k, o, BuddyOf(k), o);
    MarkedFree(free, k, o, BuddyOf(k), o);
    if AllFree(Marked(free, k, o, true), k', o') {
      SubBlockFree(Marked(free, k, o, true), k', o', BuddyOf(k), o);
    }
  }

  lemma ParentInRange(k: nat, o: nat)
    requires o < MAX_ORDER && k < Blocks(o)
    ensures k / 2 < Blocks(o + 1)
  {
    assert Blocks(o) == 2 * Blocks(o + 1);
  }

  lemma BuddyInRange(k: nat, o: nat)
    requires o < MAX_ORDER && k < Blocks(o)
    ensures BuddyOf(k) < Blocks(o)
  {
    assert Blocks(o) == 2 * Blocks(o + 1);
  }

  /** Marking a block free that has no free page leaves a block that does not overlap it as it was. */
  lemma AddApart(free: seq<bool>, k: nat, o: nat, k': nat, o': nat)
    requires |free| == NPAGES && o <= MAX_ORDER && k < Blocks(o) && o' <= MAX_ORDER && k' < Blocks(o')
    requires !Overlap(k, o, k', o') && AllUsed(free, k, o)
    requires o < MAX_ORDER ==> !AllFree(free, BuddyOf(k), o)
    ensures Canon(Marked(free, k, o, true), k', o') <==> Canon(free, k', o')
  {
    MarkedFree(free, k, o, k', o');
    if o' < MAX_ORDER {
      ParentInRange(k', o');
      MarkedFree(free, k, o, k' / 2, o' + 1);
      if Overlap(k, o, k' / 2, o' + 1) {
        if o > o' {
          UpNext(k', o - o');
        } else {
          assert Up(k, o' + 1 - o) == k' / 2;
          AroundNotFree(free, k, o, k' / 2, o' + 1);
        }
      }
    }
  }

  /** Putting a block on its list and marking it free keeps the lists canonical, if its buddy is not free. */
  lemma AddBlock(free: seq<bool>, lists: Lists, k: nat, o: nat)
    requires Canonical(free, lists) && o <= MAX_ORDER && k < Blocks(o)
    requires AllUsed(free, k, o)
    requires o < MAX_ORDER ==> !AllFree(free, BuddyOf(k), o)
    ensures Canonical(Marked(free, k, o, true), lists[o := [k] + lists[o]])
  {
    var free', lists' := Marked(free, k, o, true), lists[o := [k] + lists[o]];
    FirstInBlock(k, o);
    forall k': nat, o': nat | o' <= MAX_ORDER && k' < Blocks(o')
      ensures Listed(lists', k', o') <==> Canon(free', k', o')
    {
      assert Listed(lists, k', o') <==> Canon(free, k', o');
      if Overlap(k, o, k', o') {
        OverlapUsed(free, k, o, k', o');
        AddOverlap(free, k, o, k', o');
      } else {
        AddApart(free, k, o, k', o');
      }
    }
    assert !Listed(lists, k, o) by {
      assert !AllFree(free, k, o);
    }
    AddNoRepeat(lists[o], k);
  }

  lemma AddNoRepeat(xs: seq<nat>, x: nat)
    requires NoRepeats(xs) && x !in xs
    ensures NoRepeats([x] + xs)
  {
    forall i: nat, j: nat | i < j < |xs| + 1 ensures !Repeats([x] + xs, i, j) {
      assert i > 0 ==> !Repeats(xs, i - 1, j - 1);
    }
  }

  /** A block that overlaps one with no free page is not wholly free. */
  lemma OverlapUsed(free: seq<bool>, k: nat, o: nat, k': nat, o': nat)
    requires |free| == NPAGES && o <= MAX_ORDER && k < Blocks(o) && o' <= MAX_ORDER && k' < Blocks(o')
    requires Overlap(k, o, k', o') && AllUsed(free, k, o)
    ensures !AllFree(free, k', o')
  {
    FirstInBlock(k, o);
    FirstInBlock(k', o');
    if o <= o' {
      Nested(FirstPage(k, o), k', o', k, o);
    } else {
      Nested(FirstPage(k', o'), k, o, k', o');
    }
  }

  lemma AddOverlap(free: seq<bool>, k: nat, o: nat, k': nat, o': nat)
    requires |free| == NPAGES && o <= MAX_ORDER && k < Blocks(o) && o' <= MAX_ORDER && k' < Blocks(o')
    requires Overlap(k, o, k', o') && (o < MAX_ORDER ==> !AllFree(free, BuddyOf(k), o))
    ensures Canon(Marked(free, k, o, true), k', o') <==> (k', o') == (k, o)
  {
    MarkedFree(free, k, o, k', o');
    if o' < o {
      UpNext(k', o - o');
      ParentInRange(k', o');
      MarkedFree(free, k, o, k' / 2, o' + 1);
    } else if o < o' {
      AroundNotFree(free, k, o, k', o');
    } else if o < MAX_ORDER {
      UpNext(k, 1);
      ParentInRange(k, o);
      AroundNotFree(free, k, o, k / 2, o + 1);
    }
  }

  // ----- Counting -----

  /** The pages of a block. */
  ghost function PagesOf(k: nat, o: nat): set<nat>
    decreases o
  {
    if o == 0 then {k} else PagesOf(2 * k, o - 1) + PagesOf(2 * k + 1, o - 1)
  }

  lemma {:induction false} PagesOfBlock(p: nat, k: nat, o: nat)
    ensures p in PagesOf(k, o) <==> InBlock(p, k, o)
    decreases o
  {
    if o > 0 {
      PagesOfBlock(p, 2 * k, o - 1);
      PagesOfBlock(p, 2 * k + 1, o - 1);
    }
  }

  lemma {:induction false} PagesOfSize(k: nat, o: nat)
    ensures |PagesOf(k, o)| == Pow2(o)
    decreases o
  {
    if o > 0 {
      var left, right := PagesOf(2 * k, o - 1), PagesOf(2 * k + 1, o - 1);
      PagesOfSize(2 * k, o - 1);
      PagesOfSize(2 * k + 1, o - 1);
      forall p: nat | p in left ensures p !in right {
        PagesOfBlock(p, 2 * k, o - 1);
        PagesOfBlock(p, 2 * k + 1, o - 1);
      }
      assert |left + right| == |left| + |right|;
    }
  }

  ghost function FreePages(free: seq<bool>): set<nat> {
    set p: nat | p < |free| && free[p]
  }

  /** The pages that the first `n` lists stand for. */
  function Units(lists: Lists, n: nat): nat
    requires n <= |lists|
  {
    if n == 0 then 0 else Units(lists, n - 1) + |lists[n - 1]| * Pow2(n - 1)
  }

  lemma {:induction false} UnitsOneMore(lists: Lists, lists': Lists, o: nat, n: nat)
    requires n <= |lists| == |lists'| && o < |lists| && |lists'[o]| == |lists[o]| + 1
    requires forall i :: 0 <= i < |lists| && i != o ==> |lists'[i]| == |lists[i]|
    ensures Units(lists', n) == Units(lists, n) + (if o < n then Pow2(o) else 0)
  {
    if n > 0 {
      UnitsOneMore(lists, lists', o, n - 1);
      if n - 1 == o {
        assert (|lists[o]| + 1) * Pow2(o) == |lists[o]| * Pow2(o) + Pow2(o);
      }
    }
  }

  /** Marking a block with no free page as free adds its pages to the free ones. */
  lemma MarkedPages(free: seq<bool>, k: nat, o: nat)
    requires |free| == NPAGES && o <= MAX_ORDER && k < Blocks(o)
    requires AllUsed(free, k, o)
    ensures |FreePages(Marked(free, k, o, true))| == |FreePages(free)| + Pow2(o)
  {
    PagesOfSize(k, o);
    forall p: nat ensures p in PagesOf(k, o) <==> InBlock(p, k, o)
                  ensures InBlock(p, k, o) ==> p < NPAGES
    {
      PagesOfBlock(p, k, o);
      if InBlock(p, k, o) {
        BlockBelow(p, k, o);
      }
    }
    assert FreePages(Marked(free, k, o, true)) == FreePages(free) + PagesOf(k, o);
    assert FreePages(free) !! PagesOf(k, o);
  }

  lemma {:induction false} BlockBelow(p: nat, k: nat, o: nat)
    requires o <= MAX_ORDER && k < Blocks(o) && InBlock(p, k, o)
    ensures p < NPAGES
    decreases o
  {
    if o > 0 {
      assert Blocks(o - 1) == 2 * Blocks(o);
      BlockBelow(p, Up(p, o - 1), o - 1);
    }
  }

  // ----- What canonical lists say -----

  /** A free page lies in a listed block. */
  lemma {:induction false} FreePageListed(free: seq<bool>, lists: Lists, p: nat, k: nat, o: nat) returns (o': nat)
    requires Canonical(free, lists) && o <= MAX_ORDER && k < Blocks(o) && InBlock(p, k, o) && AllFree(free, k, o)
    ensures o <= o' <= MAX_ORDER && Up(p, o') in lists[o']
    decreases MAX_ORDER - o
  {
    if Canon(free, k, o) {
      assert Listed(lists, k, o);
      o' := o;
    } else {
      ParentInRange(k, o);
      o' := FreePageListed(free, lists, p, k / 2, o + 1);
    }
  }

  /** A listed block starts at a multiple of its size and lies within the managed pages, all of them free. */
  lemma ListedAligned(free: seq<bool>, lists: Lists, k: nat, o: nat)
    requires Canonical(free, lists) && o <= MAX_ORDER && k in lists[o]
    ensures FirstPage(k, o) == k * Pow2(o) && FirstPage(k, o) + Pow2(o) <= NPAGES
    ensures forall p: nat :: FirstPage(k, o) <= p < FirstPage(k, o) + Pow2(o) ==> p < |free| && free[p]
  {
    FirstPageIs(k, o);
    assert Listed(lists, k, o);
    BlockFits(k, o);
    forall p: nat | FirstPage(k, o) <= p < FirstPage(k, o) + Pow2(o) ensures p < |free| && free[p] {
      BlockRange(p, k, o);
      ListedDisjoint(free, lists, p, o, o);
    }
  }

  /** A page in a listed block is free, and no two listed blocks share a page; the block holds the pages from the
      multiple of its size at or below the page on. */
  lemma ListedDisjoint(free: seq<bool>, lists: Lists, p: nat, o: nat, o': nat)
    requires Canonical(free, lists) && p < NPAGES && o <= o' <= MAX_ORDER
    requires Up(p, o) in lists[o] && Up(p, o') in lists[o']
    ensures o == o' && free[p]
    ensures Up(p, o) * Pow2(o) <= p < Up(p, o) * Pow2(o) + Pow2(o)
  {
    FirstPageIs(Up(p, o), o);
    BlockRange(p, Up(p, o), o);
    UpInRange(p, o);
    UpInRange(p, o');
    assert Listed(lists, Up(p, o), o) && Listed(lists, Up(p, o'), o');
    assert InBlock(p, Up(p, o), o);
    UpUp(p, o, o' - o);
    if o < o' {
      OverlapNotCanon(free, Up(p, o), o, Up(p, o'), o');
    }
  }

  /** The free lists, as sets, depend only on which pages are free. */
  lemma ListsDetermined(free: seq<bool>, lists: Lists, lists': Lists, k: nat, o: nat)
    requires Canonical(free, lists) && Canonical(free, lists') && o <= MAX_ORDER
    ensures k in lists[o] <==> k in lists'[o]
  {
    if k < Blocks(o) {
      assert Listed(lists, k, o) <==> Canon(free, k, o);
      assert Listed(lists', k, o) <==> Canon(free, k, o);
    } else {
      forall xs: seq<nat> | xs == lists[o] || xs == lists'[o] ensures k !in xs {
        assert forall i :: 0 <= i < |xs| ==> xs[i] < Blocks(o);
      }
    }
  }
}
