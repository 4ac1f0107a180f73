/** The file operations of the block layer, as loops over blocks. */
module FileSystem {
  import opened Fs

  const UINT_MAX: nat := 0xffff_ffff

  ghost predicate Full(d: Disk) {
    forall b :: 0 <= b < |d.used| ==> d.used[b]
  }

  /** Nothing that a file shows has changed, and no block has left its slot. */
  ghost predicate Unseen(d: Disk, d': Disk) {
    && |d'.inodes| == |d.inodes| && (forall i :: 0 <= i < |d.inodes| ==> d'.inodes[i].size == d.inodes[i].size)
    && (forall i: nat, n: nat :: BlockAt(d, i, n) != 0 ==> BlockAt(d', i, n) == BlockAt(d, i, n))
    && (forall i: nat, off: nat :: ByteAt(d', i, off) == ByteAt(d, i, off))
  }

  lemma AttachUnseen(d: Disk, i: nat, n: nat, b: nat)
    requires CanAttach(d, i, n, b) && (n > NDIRECT ==> d.inodes[i].addrs[NDIRECT] < |d.data|)
    ensures Unseen(d, Attach(d, i, n, b)) && BlockAt(Attach(d, i, n, b), i, n) == b
  {
    AttachSlots(d, i, n, b, i, n);
    var d' := Attach(d, i, n, b);
    forall j: nat, m: nat | BlockAt(d, j, m) != 0 ensures BlockAt(d', j, m) == BlockAt(d, j, m) {
      AttachSlots(d, i, n, b, j, m);
    }
    forall j: nat, off: nat ensures ByteAt(d', j, off) == ByteAt(d, j, off) {
      AttachBytes(d, i, n, b, j, off);
    }
  }

  class Blocks {
    var d: Disk

    /** Takes the first free block, zeroed; 0 if there is none. */
    method Balloc() returns (b: nat)
      requires Inv(d)
      modifies this
      ensures b == 0 ==> d == old(d) && Full(d)
      ensures b != 0 ==> b < |old(d).used| && !old(d).used[b] && d == Take(old(d), b)
      ensures b != 0 ==> forall c :: 0 <= c < b ==> old(d).used[c]
    {
      for c := 0 to |d.used|
        invariant d == old(d) && forall k :: 0 <= k < c ==> d.used[k]
      {
        if !d.used[c] {
          d := Take(d, c);
          return c;
        }
      }
      return 0;
    }

    /** Frees a block.  Freeing a free block is a panic.  No file loses a byte, but the disk stays in order only if
        the block is in no slot. */
    method Bfree(b: nat)
      requires b < |d.used| && d.used[b]
      modifies this
      ensures d == old(d).(used := old(d).used[b := false])
      ensures forall i: nat, off: nat :: ByteAt(d, i, off) == ByteAt(old(d), i, off)
      ensures Inv(old(d)) && old(d).meta <= b ==> (Inv(d) <==> !Held(old(d), b))
    {
      if Inv(d) && d.meta <= b {
        FreeExact(d, b);
      }
      d := d.(used := d.used[b := false]);
    }

    /** The block in a slot, allocated if there was none; 0 if the disk is full. */
    method EnsureSlot(i: nat, n: nat) returns (b: nat)
      requires Inv(d) && i < |d.inodes| && n < SLOTS && (n > NDIRECT ==> d.inodes[i].addrs[NDIRECT] != 0)
      modifies this
      ensures Inv(d) && Unseen(old(d), d) && NoNewLeak(old(d), d)
      ensures b == BlockAt(d, i, n) && (b == 0 ==> Full(d))
      ensures BlockAt(old(d), i, n) != 0 ==> d == old(d)
    {
      b := BlockAt(d, i, n);
      if b == 0 {
        ghost var d0 := d;
        b := Balloc();
        if b != 0 {
          AttachKeeps(d0, i, n, b);
          AttachUnseen(d0, i, n, b);
          AttachLosesNone(d0, i, n, b);
          d := Record(d, i, n, b);
        }
      }
    }

    /** bmap: the block that holds block `bn` of a file, allocated if need be together with the indirect block. */
    method Bmap(i: nat, bn: nat) returns (b: nat)
      requires Inv(d) && i < |d.inodes| && bn < MAXFILE
      modifies this
      ensures Inv(d) && Unseen(old(d), d) && NoNewLeak(old(d), d)
      ensures b == FileBlock(d, i, bn) && (b == 0 ==> Full(d))
      ensures FileBlock(old(d), i, bn) != 0 ==> d == old(d)
    {
      if bn < NDIRECT {
        b := EnsureSlot(i, bn);
        return;
      }
      var ind := EnsureSlot(i, NDIRECT);
      if ind == 0 {
        return 0;
      }
      b := EnsureSlot(i, bn + 1);
    }

    /** The bytes of the file from `pos` to the end of its block, at most `max` of them; none if the disk is full. */
    method ReadSome(i: nat, pos: nat, max: nat) returns (bytes: seq<nat>)
      requires Inv(d) && i < |d.inodes| && pos / BSIZE < MAXFILE && max > 0
      modifies this
      ensures Inv(d) && Unseen(old(d), d) && NoNewLeak(old(d), d)
      ensures Holds(d, i, pos, bytes) && |bytes| <= max && (bytes == [] ==> Full(d))
      ensures FileBlock(old(d), i, pos / BSIZE) != 0 ==> d == old(d) && bytes != []
    {
      var b := Bmap(i, pos / BSIZE);
      if b == 0 {
        return [];
      }
      var k := pos % BSIZE;
      var m := if max < BSIZE - k then max else BSIZE - k;
      ReadChunk(d, i, pos, m);
      bytes := d.data[b][k..k + m];
    }

    /** readi: the bytes of the file from `off`, at most `n` of them.  A hole-free file is only read. */
    method Readi(i: nat, off: nat, n: nat) returns (r: seq<nat>)
      requires Inv(d) && i < |d.inodes| && off <= UINT_MAX && n <= UINT_MAX
      modifies this
      ensures Inv(d) && Unseen(old(d), d) && NoNewLeak(old(d), d)
      ensures |r| <= Wanted(old(d).inodes[i].size, off, n)
      ensures Holds(old(d), i, off, r)
      ensures |r| == Wanted(old(d).inodes[i].size, off, n) || Full(d)
      ensures HoleFree(old(d), i) ==> d == old(d) && |r| == Wanted(old(d).inodes[i].size, off, n)
    {
      r := [];
      var size := d.inodes[i].size;
      if off > size || off + n > UINT_MAX {
        return;
      }
      var want := if off + n > size then size - off else n;
      ghost var d0 := d;
      while |r| < want
        invariant Inv(d) && Unseen(d0, d) && NoNewLeak(d0, d) && |r| <= want && (HoleFree(d0, i) ==> d == d0)
        invariant Holds(d0, i, off, r)
      {
        InFile(off + |r|, size);
        var bytes := ReadSome(i, off + |r|, want - |r|);
        if bytes == [] {
          return;
        }
        HoldsMore(d0, d, i, off, r, bytes);
        r := r + bytes;
      }
    }

    /** Writes the bytes from `tot` on that go into the next block; none if the disk is full. */
    method WriteSome(i: nat, off: nat, src: seq<nat>, tot: nat, ghost d0: Disk) returns (m: nat)
      requires Inv(d) && i < |d.inodes| && tot < |src| && off + |src| <= MAXFILE * BSIZE
      requires Spliced(d0, d, i, off, src[..tot]) && NoNewLeak(d0, d)
      modifies this
      ensures Inv(d) && i < |d.inodes| && tot + m <= |src| && (m == 0 ==> Full(d))
      ensures Spliced(d0, d, i, off, src[..tot + m]) && NoNewLeak(d0, d)
    {
      var pos := off + tot;
      InFile(pos, MAXFILE * BSIZE);
      ghost var d1 := d;
      var b := Bmap(i, pos / BSIZE);
      SplicedUnseen(d0, d1, d, i, off, src[..tot]);
      if b == 0 {
        return 0;
      }
      var k := pos % BSIZE;
      m := if |src| - tot < BSIZE - k then |src| - tot else BSIZE - k;
      PokeKeeps(d, i, pos / BSIZE, k, src[tot..tot + m]);
      PokeLosesNone(d, i, pos / BSIZE, k, src[tot..tot + m]);
      SplicedNext(d0, d, i, off, src, tot, m);
      d := Poke(d, b, k, src[tot..tot + m]);
    }

    /** writei: splices bytes into the file, as many as the disk has room for; -1 if the write cannot be started. */
    method Writei(i: nat, off: nat, src: seq<nat>) returns (r: int)
      requires Inv(d) && i < |d.inodes| && off <= UINT_MAX && |src| <= UINT_MAX
      modifies this
      ensures Inv(d) && |d.inodes| == |old(d).inodes| && NoNewLeak(old(d), d)
      ensures r == -1 <==> off > old(d).inodes[i].size || off + |src| > UINT_MAX || off + |src| > MAXFILE * BSIZE
      ensures r == -1 ==> d == old(d)
      ensures r != -1 ==> 0 <= r <= |src| && Written(old(d), d, i, off, src[..r])
      ensures r != -1 ==> r == |src| || Full(d)
    {
      if off > d.inodes[i].size || off + |src| > UINT_MAX || off + |src| > MAXFILE * BSIZE {
        return -1;
      }
      var tot := 0;
      ghost var d0 := d;
      while tot < |src|
        invariant tot <= |src| && Inv(d) && i < |d.inodes|
        invariant Spliced(d0, d, i, off, src[..tot]) && NoNewLeak(d0, d)
      {
        var m := WriteSome(i, off, src, tot, d0);
        if m == 0 {
          break;
        }
        tot := tot + m;
      }
      ghost var d2 := d;
      if off + tot > d.inodes[i].size {
        SizeKeeps(d, i, off + tot);
        SizeLosesNone(d, i, off + tot);
        d := d.(inodes := d.inodes[i := d.inodes[i].(size := off + tot)]);
      }
      SplicedDone(d0, d2, d, i, off, src[..tot]);
      return tot;
    }

    /** itrunc: every block of the file goes back to the free map. */
    method Itrunc(i: nat)
      requires Inv(d) && i < |d.inodes|
      modifies this
      ensures Inv(d) && Emptied(old(d), d, i) && NoNewLeak(old(d), d)
    {
      ghost var d0 := d;
      FreeDirect(i);
      FreeIndirect(i, d0);
      EmptiedKeeps(d0, d.(inodes := d.inodes[i := Inode(seq(NDIRECT + 1, _ => 0), 0)]), i);
      d := d.(inodes := d.inodes[i := d.inodes[i].(size := 0)]);
      EmptiedLosesNone(d0, d, i);
    }

    method FreeDirect(i: nat)
      requires Inv(d) && i < |d.inodes|
      modifies this
      ensures Released(old(d), d, i, 0, NDIRECT)
      ensures |d.inodes| == |old(d).inodes|
      ensures d.inodes == old(d).inodes[i := old(d).inodes[i].(addrs := d.inodes[i].addrs)]
      ensures |d.inodes[i].addrs| == NDIRECT + 1 && d.inodes[i].addrs[NDIRECT] == old(d).inodes[i].addrs[NDIRECT]
      ensures forall k :: 0 <= k < NDIRECT ==> d.inodes[i].addrs[k] == 0
    {
      ghost var d0 := d;
      for k := 0 to NDIRECT
        invariant Released(d0, d, i, 0, k) && |d.inodes| == |d0.inodes|
        invariant d.inodes == d0.inodes[i := d0.inodes[i].(addrs := d.inodes[i].addrs)]
        invariant |d.inodes[i].addrs| == NDIRECT + 1 && d.inodes[i].addrs[k..] == d0.inodes[i].addrs[k..]
        invariant forall j :: 0 <= j < k ==> d.inodes[i].addrs[j] == 0
      {
        ghost var d1 := d;
        var b := d.inodes[i].addrs[k];
        assert b == d.inodes[i].addrs[k..][0] == BlockAt(d0, i, k);
        if b != 0 {
          StillUsed(d0, d, i, 0, k);
          Bfree(b);
        }
        ReleasedNext(d0, d1, d, i, 0, k);
        d := d.(inodes := d.inodes[i := d.inodes[i].(addrs := d.inodes[i].addrs[k := 0])]);
      }
    }

    /** Frees the blocks in the indirect block, then the indirect block itself. */
    method FreeIndirect(i: nat, ghost d0: Disk)
      requires Inv(d0) && i < |d0.inodes| && Released(d0, d, i, 0, NDIRECT)
      requires |d.inodes| == |d0.inodes| && d.inodes == d0.inodes[i := d0.inodes[i].(addrs := d.inodes[i].addrs)]
      requires |d.inodes[i].addrs| == NDIRECT + 1 && d.inodes[i].addrs[NDIRECT] == d0.inodes[i].addrs[NDIRECT]
      requires forall k :: 0 <= k < NDIRECT ==> d.inodes[i].addrs[k] == 0
      modifies this
      ensures d == d0.(used := d.used, inodes := d0.inodes[i := d0.inodes[i].(addrs := seq(NDIRECT + 1, _ => 0))])
      ensures |d.used| == |d0.used|
      ensures forall b: nat :: b < |d.used| ==> d.used[b] == (d0.used[b] && !OwnedIn(d0, i, 0, SLOTS, b))
    {
      var ind := d.inodes[i].addrs[NDIRECT];
      ghost var inodes := d.inodes;
      if ind != 0 {
        assert SlotOk(d0, i, NDIRECT);
        for j := 0 to NINDIRECT
          invariant d.inodes == inodes && d.data == d0.data && d.meta == d0.meta && |d.used| == |d0.used|
          invariant forall b: nat :: b < |d.used| ==>
                      d.used[b] == (d0.used[b] && !OwnedIn(d0, i, 0, NDIRECT, b)
                                    && !OwnedIn(d0, i, NDIRECT + 1, NDIRECT + 1 + j, b))
        {
          ghost var d1 := d;
          var b := GetWord(d.data[ind], j);
          assert b == BlockAt(d0, i, NDIRECT + 1 + j);
          if b != 0 {
            EntryUsed(d0, d, i, NDIRECT + 1 + j);
            Bfree(b);
          }
          EntryReleased(d0, d1, d, i, NDIRECT + 1 + j);
        }
        EntryUsed(d0, d, i, NDIRECT);
        Bfree(ind);
      }
      AllReleased(d0, d, i);
      d := d.(inodes := d.inodes[i := d.inodes[i].(addrs := d.inodes[i].addrs[NDIRECT := 0])]);
      assert d.inodes[i].addrs == seq(NDIRECT + 1, _ => 0);
    }
  }

  /** The blocks in slots `lo` to `hi` have gone back to the free map. */
  ghost predicate Released(d0: Disk, d: Disk, i: nat, lo: nat, hi: nat) {
    && d.data == d0.data && d.meta == d0.meta && |d.used| == |d0.used|
    && forall b: nat :: b < |d.used| ==> d.used[b] == (d0.used[b] && !OwnedIn(d0, i, lo, hi, b))
  }

  lemma StillUsed(d0: Disk, d: Disk, i: nat, lo: nat, n: nat)
    requires Inv(d0) && Released(d0, d, i, lo, n) && BlockAt(d0, i, n) != 0
    ensures BlockAt(d0, i, n) < |d.used| && d.used[BlockAt(d0, i, n)]
  {
    assert SlotOk(d0, i, n);
    forall m: nat | m < n ensures BlockAt(d0, i, m) != BlockAt(d0, i, n) {
      assert !Share(d0, i, m, i, n);
    }
  }

  lemma ReleasedNext(d0: Disk, d: Disk, d': Disk, i: nat, lo: nat, n: nat)
    requires Released(d0, d, i, lo, n) && lo <= n
    requires d' == if BlockAt(d0, i, n) != 0 && BlockAt(d0, i, n) < |d.used|
                   then d.(used := d.used[BlockAt(d0, i, n) := false]) else d
    requires BlockAt(d0, i, n) < |d.used|
    ensures Released(d0, d', i, lo, n + 1)
  {
    OwnedNext(d0, i, lo, n);
  }

  lemma OwnedNext(d: Disk, i: nat, lo: nat, n: nat)
    requires lo <= n
    ensures forall b: nat ::
              OwnedIn(d, i, lo, n + 1, b) <==> OwnedIn(d, i, lo, n, b) || (b != 0 && BlockAt(d, i, n) == b)
  {
    forall b: nat
      ensures OwnedIn(d, i, lo, n + 1, b) <==> OwnedIn(d, i, lo, n, b) || (b != 0 && BlockAt(d, i, n) == b)
    {
      if OwnedIn(d, i, lo, n, b) {
        var m: nat :| lo <= m < n && BlockAt(d, i, m) == b && b != 0;
        assert OwnedIn(d, i, lo, n + 1, b);
      }
    }
  }

  lemma EntryUsed(d0: Disk, d: Disk, i: nat, n: nat)
    requires Inv(d0) && NDIRECT <= n && BlockAt(d0, i, n) != 0 && |d.used| == |d0.used|
    requires forall b: nat :: b < |d.used| ==>
               d.used[b] == (d0.used[b] && !OwnedIn(d0, i, 0, NDIRECT, b)
                             && !OwnedIn(d0, i, NDIRECT + 1, if n == NDIRECT then SLOTS else n, b))
    ensures BlockAt(d0, i, n) < |d.used| && d.used[BlockAt(d0, i, n)]
  {
    assert SlotOk(d0, i, n);
    forall m: nat | m != n ensures BlockAt(d0, i, m) != BlockAt(d0, i, n) {
      assert !Share(d0, i, m, i, n);
    }
  }

  lemma EntryReleased(d0: Disk, d: Disk, d': Disk, i: nat, n: nat)
    requires NDIRECT < n && |d.used| == |d0.used|
    requires forall b: nat :: b < |d.used| ==>
               d.used[b] == (d0.used[b] && !OwnedIn(d0, i, 0, NDIRECT, b) && !OwnedIn(d0, i, NDIRECT + 1, n, b))
    requires BlockAt(d0, i, n) != 0 ==> BlockAt(d0, i, n) < |d.used|
    requires d' == if BlockAt(d0, i, n) != 0 then d.(used := d.used[BlockAt(d0, i, n) := false]) else d
    ensures forall b: nat :: b < |d'.used| ==>
               d'.used[b] == (d0.used[b] && !OwnedIn(d0, i, 0, NDIRECT, b) && !OwnedIn(d0, i, NDIRECT + 1, n + 1, b))
  {
    OwnedNext(d0, i, NDIRECT + 1, n);
  }

  lemma AllReleased(d0: Disk, d: Disk, i: nat)
    requires i < |d0.inodes| && Shape(d0) && |d.used| == |d0.used|
    requires var ind := BlockAt(d0, i, NDIRECT);
             forall b: nat :: b < |d.used| ==>
               d.used[b] == (d0.used[b] && !OwnedIn(d0, i, 0, NDIRECT, b)
                             && (ind != 0 ==> b != ind && !OwnedIn(d0, i, NDIRECT + 1, SLOTS, b)))
    ensures forall b: nat :: b < |d.used| ==> d.used[b] == (d0.used[b] && !OwnedIn(d0, i, 0, SLOTS, b))
  {
    var ind := BlockAt(d0, i, NDIRECT);
    forall b: nat
      ensures OwnedIn(d0, i, 0, SLOTS, b) <==>
              OwnedIn(d0, i, 0, NDIRECT, b) || (ind != 0 && (b == ind || OwnedIn(d0, i, NDIRECT + 1, SLOTS, b)))
    {
      if OwnedIn(d0, i, 0, SLOTS, b) {
        var n: nat :| n < SLOTS && BlockAt(d0, i, n) == b && b != 0;
        assert n < NDIRECT ==> OwnedIn(d0, i, 0, NDIRECT, b);
        assert n > NDIRECT ==> OwnedIn(d0, i, NDIRECT + 1, SLOTS, b);
      }
      if OwnedIn(d0, i, 0, NDIRECT, b) {
        var n: nat :| n < NDIRECT && BlockAt(d0, i, n) == b && b != 0;
        assert OwnedIn(d0, i, 0, SLOTS, b);
      }
      if OwnedIn(d0, i, NDIRECT + 1, SLOTS, b) {
        var n: nat :| NDIRECT + 1 <= n < SLOTS && BlockAt(d0, i, n) == b && b != 0;
        assert OwnedIn(d0, i, 0, SLOTS, b);
      }
    }
  }

  function Wanted(size: nat, off: nat, n: nat): nat {
    if off > size || off + n > UINT_MAX then 0 else if off + n > size then size - off else n
  }

  lemma InFile(pos: nat, size: nat)
    requires pos < size <= MAXFILE * BSIZE
    ensures pos / BSIZE < MAXFILE
  {
  }

  /** File `i` holds `bytes` at `off`. */
  ghost predicate Holds(d: Disk, i: nat, off: nat, bytes: seq<nat>) {
    forall o: nat :: off <= o < off + |bytes| ==> ByteAt(d, i, o) == bytes[o - off]
  }

  lemma HoldsMore(d0: Disk, d: Disk, i: nat, off: nat, r: seq<nat>, bytes: seq<nat>)
    requires Unseen(d0, d) && Holds(d0, i, off, r) && Holds(d, i, off + |r|, bytes)
    ensures Holds(d0, i, off, r + bytes)
  {
  }

  /** A stretch of a file within one block. */
  lemma ReadChunk(d: Disk, i: nat, pos: nat, m: nat)
    requires Inv(d) && FileBlock(d, i, pos / BSIZE) != 0 && pos % BSIZE + m <= BSIZE
    ensures FileBlock(d, i, pos / BSIZE) < |d.data|
    ensures forall o: nat :: pos <= o < pos + m ==>
              d.data[FileBlock(d, i, pos / BSIZE)][pos % BSIZE..pos % BSIZE + m][o - pos] == ByteAt(d, i, o)
  {
    assert SlotOk(d, i, SlotOf(pos / BSIZE));
    forall o: nat | pos <= o < pos + m
      ensures d.data[FileBlock(d, i, pos / BSIZE)][pos % BSIZE..pos % BSIZE + m][o - pos] == ByteAt(d, i, o)
    {
      InChunk(pos, m, o);
    }
  }

  predicate HasBlock(d: Disk, i: nat, off: nat) {
    FileBlock(d, i, off / BSIZE) != 0
  }

  /** File `i` holds `bytes` at `off` and is otherwise as before, its size aside; every other file is as before. */
  ghost predicate Spliced(d0: Disk, d: Disk, i: nat, off: nat, bytes: seq<nat>) {
    && |d.inodes| == |d0.inodes| && (forall j :: 0 <= j < |d0.inodes| ==> d.inodes[j].size == d0.inodes[j].size)
    && (forall j: nat, n: nat :: BlockAt(d0, j, n) != 0 ==> BlockAt(d, j, n) != 0)
    && (forall j: nat, o: nat ::
          ByteAt(d, j, o) == if j == i && off <= o < off + |bytes| then bytes[o - off] else ByteAt(d0, j, o))
    && (forall o: nat :: off <= o < off + |bytes| ==> HasBlock(d, i, o))
  }

  /** What a write promises: the bytes are in place, the size has grown to hold them, nothing else has changed, and a
      file without holes still has none. */
  ghost predicate Written(d0: Disk, d: Disk, i: nat, off: nat, bytes: seq<nat>)
    requires i < |d0.inodes| == |d.inodes|
  {
    && d.inodes[i].size == (if off + |bytes| > d0.inodes[i].size then off + |bytes| else d0.inodes[i].size)
    && (forall j :: 0 <= j < |d0.inodes| && j != i ==> d.inodes[j].size == d0.inodes[j].size)
    && (forall j: nat, o: nat ::
          ByteAt(d, j, o) == if j == i && off <= o < off + |bytes| then bytes[o - off] else ByteAt(d0, j, o))
    && (HoleFree(d0, i) ==> HoleFree(d, i))
  }

  lemma SplicedUnseen(d0: Disk, d: Disk, d': Disk, i: nat, off: nat, bytes: seq<nat>)
    requires Spliced(d0, d, i, off, bytes) && Unseen(d, d')
    ensures Spliced(d0, d', i, off, bytes)
  {
    forall o: nat | off <= o < off + |bytes| ensures HasBlock(d', i, o) {
      assert HasBlock(d, i, o);
    }
  }

  lemma SplicedNext(d0: Disk, d: Disk, i: nat, off: nat, src: seq<nat>, tot: nat, m: nat)
    requires Inv(d) && tot + m <= |src| && Spliced(d0, d, i, off, src[..tot])
    requires FileBlock(d, i, (off + tot) / BSIZE) != 0 && (off + tot) % BSIZE + m <= BSIZE
    requires FileBlock(d, i, (off + tot) / BSIZE) < |d.data|
    ensures Spliced(d0, Poke(d, FileBlock(d, i, (off + tot) / BSIZE), (off + tot) % BSIZE, src[tot..tot + m]), i, off,
                    src[..tot + m])
  {
    var pos := off + tot;
    var bn, k, bytes := pos / BSIZE, pos % BSIZE, src[tot..tot + m];
    var d' := Poke(d, FileBlock(d, i, bn), k, bytes);
    forall j: nat, n: nat ensures BlockAt(d', j, n) == BlockAt(d, j, n) {
      PokeSlots(d, i, bn, k, bytes, j, n);
    }
    forall j: nat, o: nat
      ensures ByteAt(d', j, o)
              == if j == i && off <= o < off + tot + m then src[..tot + m][o - off] else ByteAt(d0, j, o)
    {
      PokeBytes(d, i, bn, k, bytes, j, o);
      InChunk(pos, m, o);
    }
    forall o: nat | off <= o < off + tot + m ensures HasBlock(d', i, o) {
      InChunk(pos, m, o);
      assert o < pos ==> HasBlock(d, i, o);
    }
  }

  lemma InChunk(pos: nat, m: nat, o: nat)
    requires pos % BSIZE + m <= BSIZE
    ensures pos <= o < pos + m <==> o / BSIZE == pos / BSIZE && pos % BSIZE <= o % BSIZE < pos % BSIZE + m
    ensures pos <= o < pos + m ==> o % BSIZE - pos % BSIZE == o - pos
  {
  }

  lemma SizeKeeps(d: Disk, i: nat, size: nat)
    requires Inv(d) && i < |d.inodes| && size <= MAXFILE * BSIZE
    ensures Inv(d.(inodes := d.inodes[i := d.inodes[i].(size := size)]))
  {
    var d' := d.(inodes := d.inodes[i := d.inodes[i].(size := size)]);
    forall j: nat, n: nat ensures SlotOk(d', j, n) && BlockAt(d', j, n) == BlockAt(d, j, n) {
      assert SlotOk(d, j, n);
    }
    forall j: nat, n: nat, j': nat, n': nat ensures !Share(d', j, n, j', n') {
      assert !Share(d, j, n, j', n');
    }
  }

  lemma SizeLosesNone(d: Disk, i: nat, size: nat)
    requires i < |d.inodes|
    ensures NoNewLeak(d, d.(inodes := d.inodes[i := d.inodes[i].(size := size)]))
  {
    var d' := d.(inodes := d.inodes[i := d.inodes[i].(size := size)]);
    assert forall j: nat, m: nat :: BlockAt(d', j, m) == BlockAt(d, j, m);
    SameSlotsLoseNone(d, d');
  }

  lemma SplicedDone(d0: Disk, d: Disk, d': Disk, i: nat, off: nat, bytes: seq<nat>)
    requires Spliced(d0, d, i, off, bytes) && i < |d.inodes| && off <= d0.inodes[i].size
    requires d' == if off + |bytes| > d.inodes[i].size
                   then d.(inodes := d.inodes[i := d.inodes[i].(size := off + |bytes|)]) else d
    ensures Written(d0, d', i, off, bytes)
  {
    forall j: nat, n: nat ensures BlockAt(d', j, n) == BlockAt(d, j, n) {
    }
    forall j: nat, o: nat ensures ByteAt(d', j, o) == ByteAt(d, j, o) {
    }
    if HoleFree(d0, i) {
      forall bn: nat | bn * BSIZE < d'.inodes[i].size ensures FileBlock(d', i, bn) != 0 {
        if bn * BSIZE >= d0.inodes[i].size {
          assert bn * BSIZE / BSIZE == bn;
          assert HasBlock(d, i, bn * BSIZE);
        } else {
          assert FileBlock(d0, i, bn) != 0;
        }
      }
    }
  }
}
