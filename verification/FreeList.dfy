/** The user heap's free list as an ordered list of blocks; sizes and addresses count headers. */
module FreeList {
  datatype Blk = Blk(a: nat, n: nat)

  /** Block `i` ends before block `j` begins, with at least one header between them. */
  predicate Gap(list: seq<Blk>, i: nat, j: nat) {
    i < |list| && j < |list| && list[i].a + list[i].n < list[j].a
  }

  /** In address order from the empty base block on, no two blocks adjacent. */
  ghost predicate ListOk(list: seq<Blk>) {
    && list != [] && list[0] == Blk(0, 0)
    && (forall i :: 0 < i < |list| ==> list[i].n > 0)
    && (forall i: nat, j: nat {:trigger Gap(list, i, j)} :: i < j < |list| ==> Gap(list, i, j))
  }

  ghost predicate Covered(list: seq<Blk>, u: nat) {
    exists i :: 0 <= i < |list| && Inside(list[i], u)
  }

  predicate Inside(b: Blk, u: nat) {
    b.a <= u < b.a + b.n
  }

  predicate Apart(b: Blk, c: Blk) {
    b.a + b.n <= c.a || c.a + c.n <= b.a
  }

  /** Where a block at `a` belongs: after block `t`, before the next. */
  predicate Place(list: seq<Blk>, t: nat, a: nat) {
    t < |list| && list[t].a < a && (t + 1 < |list| ==> a < list[t + 1].a)
  }

  lemma {:induction false} PlaceFrom(list: seq<Blk>, a: nat, k: nat) returns (t: nat)
    requires k < |list| && list[k].a < a && forall i :: 0 <= i < |list| ==> list[i].a != a
    ensures Place(list, t, a)
    decreases |list| - k
  {
    if k + 1 == |list| || a < list[k + 1].a {
      t := k;
    } else {
      t := PlaceFrom(list, a, k + 1);
    }
  }

  lemma PlaceUnique(list: seq<Blk>, t: nat, a: nat, i: nat)
    requires ListOk(list) && Place(list, t, a) && i < |list|
    ensures i <= t <==> list[i].a < a
    ensures i > t <==> list[i].a > a
  {
    if i < t {
      assert Gap(list, i, t);
    } else if i > t + 1 {
      assert Gap(list, t + 1, i);
    }
  }

  predicate JoinsUp(list: seq<Blk>, t: nat, b: Blk) {
    t + 1 < |list| && b.a + b.n == list[t + 1].a
  }

  predicate JoinsDown(list: seq<Blk>, t: nat, b: Blk) {
    t < |list| && list[t].a + list[t].n == b.a
  }

  /** The block that `b` becomes part of when it is freed after block `t`. */
  function Joined(list: seq<Blk>, t: nat, b: Blk): Blk
    requires t < |list|
  {
    var up := if JoinsUp(list, t, b) then list[t + 1].n else 0;
    if JoinsDown(list, t, b) then Blk(list[t].a, list[t].n + b.n + up) else Blk(b.a, b.n + up)
  }

  /** The list with `b` freed after block `t`. */
  function Freed(list: seq<Blk>, t: nat, b: Blk): seq<Blk>
    requires t < |list|
  {
    list[..if JoinsDown(list, t, b) then t else t + 1]
    + [Joined(list, t, b)]
    + list[if JoinsUp(list, t, b) then t + 2 else t + 1..]
  }

  /** `b` lies between blocks `t` and `t + 1`. */
  predicate Fits(list: seq<Blk>, t: nat, b: Blk) {
    Place(list, t, b.a) && b.n > 0 && list[t].a + list[t].n <= b.a && (t + 1 < |list| ==> b.a + b.n <= list[t + 1].a)
  }

  /** Position in the old list of entry `i` of the new, for entries other than the joined one. */
  function Source(list: seq<Blk>, t: nat, b: Blk, i: nat): (r: int) {
    var at := if JoinsDown(list, t, b) then t else t + 1;
    var next := if JoinsUp(list, t, b) then t + 2 else t + 1;
    if i < at then i else next + (i - at - 1)
  }

  lemma FreedAt(list: seq<Blk>, t: nat, b: Blk, i: nat)
    requires Fits(list, t, b) && i < |Freed(list, t, b)|
    ensures var at := if JoinsDown(list, t, b) then t else t + 1;
            && (i == at ==> Freed(list, t, b)[i] == Joined(list, t, b))
            && (i != at ==> 0 <= Source(list, t, b, i) < |list| && Freed(list, t, b)[i] == list[Source(list, t, b, i)])
  {
  }

  lemma FreedOk(list: seq<Blk>, t: nat, b: Blk)
    requires ListOk(list) && Fits(list, t, b)
    ensures ListOk(Freed(list, t, b))
  {
    var list' := Freed(list, t, b);
    var at := if JoinsDown(list, t, b) then t else t + 1;
    if t == 0 {
      assert !JoinsDown(list, t, b);
    }
    FreedAt(list, t, b, 0);
    forall i: nat | 0 < i < |list'| ensures list'[i].n > 0 {
      FreedAt(list, t, b, i);
    }
    forall i: nat, j: nat | i < j < |list'| ensures Gap(list', i, j) {
      FreedAt(list, t, b, i);
      FreedAt(list, t, b, j);
      var x, y := Source(list, t, b, i), Source(list, t, b, j);
      if i == at {
        assert t + 1 < y ==> Gap(list, t + 1, y);
      } else if j == at {
        assert x < t ==> Gap(list, x, t);
      } else {
        assert Gap(list, x, y);
      }
    }
  }

  /** Freeing a block adds its headers to those covered, and no others. */
  lemma FreedCovers(list: seq<Blk>, t: nat, b: Blk, u: nat)
    requires Fits(list, t, b)
    ensures Covered(Freed(list, t, b), u) <==> Covered(list, u) || Inside(b, u)
  {
    var list' := Freed(list, t, b);
    var at := if JoinsDown(list, t, b) then t else t + 1;
    assert list'[at] == Joined(list, t, b);
    if Covered(list', u) {
      var i :| 0 <= i < |list'| && Inside(list'[i], u);
      FreedAt(list, t, b, i);
      if i != at {
        assert Inside(list[Source(list, t, b, i)], u);
      } else if !Inside(b, u) {
        assert Inside(list[t], u) || Inside(list[t + 1], u);
      }
    }
    if Covered(list, u) {
      var i :| 0 <= i < |list| && Inside(list[i], u);
      if (JoinsDown(list, t, b) && i == t) || (JoinsUp(list, t, b) && i == t + 1) {
        assert Inside(list'[at], u);
      } else {
        var k := if i <= t then i else i - (if JoinsUp(list, t, b) then t + 2 else t + 1) + at + 1;
        assert list'[k] == list[i];
      }
    }
    if Inside(b, u) {
      assert Inside(list'[at], u);
    }
  }

  // ----- Taking a block -----

  /** The tail of block `k`, or all of it. */
  function Taken(list: seq<Blk>, k: nat, n: nat): Blk
    requires k < |list| && list[k].n >= n
  {
    Blk(list[k].a + list[k].n - n, n)
  }

  function Carved(list: seq<Blk>, k: nat, n: nat): seq<Blk>
    requires k < |list| && list[k].n >= n
  {
    if list[k].n == n then list[..k] + list[k + 1..] else list[k := Blk(list[k].a, list[k].n - n)]
  }

  lemma CarvedOk(list: seq<Blk>, k: nat, n: nat)
    requires ListOk(list) && 0 < k < |list| && 0 < n <= list[k].n
    ensures ListOk(Carved(list, k, n))
  {
    var list' := Carved(list, k, n);
    forall i: nat, j: nat | i < j < |list'| ensures Gap(list', i, j) {
      if list[k].n == n {
        assert Gap(list, if i < k then i else i + 1, if j < k then j else j + 1);
      } else {
        assert Gap(list, i, j);
      }
    }
  }

  lemma CarvedCovers(list: seq<Blk>, k: nat, n: nat, u: nat)
    requires ListOk(list) && k < |list| && 0 < n <= list[k].n
    ensures Covered(list, u) <==> Covered(Carved(list, k, n), u) || Inside(Taken(list, k, n), u)
    ensures !(Covered(Carved(list, k, n), u) && Inside(Taken(list, k, n), u))
  {
    var list' := Carved(list, k, n);
    if Covered(list, u) {
      var i :| 0 <= i < |list| && Inside(list[i], u);
      if i != k {
        assert list'[if list[k].n == n && i > k then i - 1 else i] == list[i];
      } else if !Inside(Taken(list, k, n), u) {
        assert Inside(list'[k], u);
      }
    }
    if Covered(list', u) {
      var i :| 0 <= i < |list'| && Inside(list'[i], u);
      var j := if list[k].n == n && i >= k then i + 1 else i;
      assert Inside(list[j], u);
      assert j < k ==> Gap(list, j, k);
      assert k < j ==> Gap(list, k, j);
    }
    if Inside(Taken(list, k, n), u) {
      assert Inside(list[k], u);
    }
  }
}
