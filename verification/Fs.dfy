/** The block layer of the file system: the free map, block ownership and the bytes of files. */
module Fs {
  const BSIZE: nat := 1024
  const NDIRECT: nat := 12
  const NINDIRECT: nat := 256
  const MAXFILE: nat := NDIRECT + NINDIRECT

  type Block = seq<nat>

  datatype Inode = Inode(addrs: seq<nat>, size: nat)

  /** `used` is the free map; blocks below `meta` hold the file system's own data. */
  datatype Disk = Disk(used: seq<bool>, data: seq<Block>, inodes: seq<Inode>, meta: nat)

  // ----- Words in blocks -----

  /** The `j`th 32-bit word of a block, least significant byte first. */
  function GetWord(b: Block, j: nat): nat
    requires 4 * j + 4 <= |b|
  {
    b[4 * j] + 256 * b[4 * j + 1] + 65536 * b[4 * j + 2] + 16777216 * b[4 * j + 3]
  }

  function PutWord(b: Block, j: nat, v: nat): (r: Block)
    requires 4 * j + 4 <= |b|
    ensures |r| == |b|
  {
    b[4 * j := v % 256][4 * j + 1 := v / 256 % 256][4 * j + 2 := v / 65536 % 256][4 * j + 3 := v / 16777216 % 256]
  }

  lemma WordBytes(v: nat)
    requires v < 0x1_0000_0000
    ensures v == v % 256 + 256 * (v / 256 % 256) + 65536 * (v / 65536 % 256) + 16777216 * (v / 16777216 % 256)
  {
    var a := v / 256;
    var b := a / 256;
    var c := b / 256;
    assert v / 65536 == b && v / 16777216 == c;
    assert c < 256;
  }

  lemma WordRoundTrip(b: Block, j: nat, v: nat, k: nat)
    requires 4 * j + 4 <= |b| && 4 * k + 4 <= |b| && v < 0x1_0000_0000
    ensures GetWord(PutWord(b, j, v), k) == if k == j then v else GetWord(b, k)
  {
    WordBytes(v);
  }

  function Zeros(): (r: Block)
    ensures |r| == BSIZE && forall i :: 0 <= i < BSIZE ==> r[i] == 0
  {
    seq(BSIZE, _ => 0)
  }

  // ----- Who owns a block -----

  /** The slots of an inode: its direct blocks, its indirect block, and the entries of that. */
  const SLOTS: nat := NDIRECT + 1 + NINDIRECT

  /** The block in a slot, 0 if there is none. */
  function BlockAt(d: Disk, i: nat, n: nat): nat {
    if i >= |d.inodes| || |d.inodes[i].addrs| != NDIRECT + 1 || n >= SLOTS then 0
    else if n <= NDIRECT then d.inodes[i].addrs[n]
    else
      var ind := d.inodes[i].addrs[NDIRECT];
      if ind == 0 || ind >= |d.data| || |d.data[ind]| != BSIZE then 0 else GetWord(d.data[ind], n - NDIRECT - 1)
  }

  ghost predicate SlotOk(d: Disk, i: nat, n: nat) {
    var b := BlockAt(d, i, n);
    b != 0 ==> d.meta <= b < |d.used| && d.used[b]
  }

  /** Two slots hold the same block. */
  predicate Share(d: Disk, i: nat, n: nat, j: nat, m: nat) {
    (i != j || n != m) && BlockAt(d, i, n) != 0 && BlockAt(d, i, n) == BlockAt(d, j, m)
  }

  ghost predicate Shape(d: Disk) {
    && 0 < d.meta <= |d.used| == |d.data| < 0x1_0000_0000
    && (forall b :: 0 <= b < |d.data| ==> |d.data[b]| == BSIZE)
    && (forall b :: 0 <= b < d.meta ==> d.used[b])
    && (forall i :: 0 <= i < |d.inodes| ==> |d.inodes[i].addrs| == NDIRECT + 1 && d.inodes[i].size <= MAXFILE * BSIZE)
  }

  /** Every owned block is marked in use, and no block has two owners. */
  ghost predicate Inv(d: Disk) {
    && Shape(d)
    && (forall i: nat, n: nat {:trigger SlotOk(d, i, n)} :: SlotOk(d, i, n))
    && (forall i: nat, n: nat, j: nat, m: nat {:trigger Share(d, i, n, j, m)} :: !Share(d, i, n, j, m))
  }

  /** Some slot holds the block. */
  ghost predicate Held(d: Disk, b: nat) {
    exists i: nat, n: nat :: BlockAt(d, i, n) == b
  }

  /** A block is lost: marked in use, and in no slot. */
  ghost predicate Leaks(d: Disk, b: nat) {
    d.meta <= b < |d.used| && d.used[b] && !Held(d, b)
  }

  /** No block has been lost on the way from `d` to `d'`. */
  ghost predicate NoNewLeak(d: Disk, d': Disk) {
    forall b: nat {:trigger Leaks(d', b)} {:trigger Leaks(d, b)} :: Leaks(d', b) ==> Leaks(d, b)
  }

  /** Clearing a block's bit keeps the invariant if and only if no slot holds the block. */
  lemma FreeExact(d: Disk, b: nat)
    requires Inv(d) && d.meta <= b < |d.used|
    ensures Inv(d.(used := d.used[b := false])) <==> !Held(d, b)
  {
    var d' := d.(used := d.used[b := false]);
    forall j: nat, m: nat ensures BlockAt(d', j, m) == BlockAt(d, j, m) {
    }
    if Held(d, b) {
      var i: nat, n: nat :| BlockAt(d, i, n) == b;
      assert !SlotOk(d', i, n);
    } else {
      forall j: nat, m: nat ensures SlotOk(d', j, m) {
        assert SlotOk(d, j, m);
      }
      forall j: nat, m: nat, j': nat, m': nat ensures !Share(d', j, m, j', m') {
        assert !Share(d, j, m, j', m');
      }
    }
  }

  // ----- The bytes of a file -----

  function SlotOf(bn: nat): nat {
    if bn < NDIRECT then bn else bn + 1
  }

  function FileBlock(d: Disk, i: nat, bn: nat): nat {
    BlockAt(d, i, SlotOf(bn))
  }

  /** The byte of file `i` at an offset; 0 where no block has been allocated. */
  function ByteAt(d: Disk, i: nat, off: nat): nat {
    var b := FileBlock(d, i, off / BSIZE);
    if b == 0 || b >= |d.data| || |d.data[b]| != BSIZE then 0 else d.data[b][off % BSIZE]
  }

  ghost predicate HoleFree(d: Disk, i: nat)
    requires i < |d.inodes|
  {
    forall bn: nat :: bn * BSIZE < d.inodes[i].size ==> FileBlock(d, i, bn) != 0
  }

  // ----- Changing the disk -----

  /** balloc: a free block is marked in use and zeroed. */
  function Take(d: Disk, b: nat): Disk
    requires b < |d.used| == |d.data|
  {
    d.(used := d.used[b := true], data := d.data[b := Zeros()])
  }

  /** bmap: a block is recorded in slot `n` of inode `i`. */
  function Record(d: Disk, i: nat, n: nat, b: nat): Disk
    requires i < |d.inodes| && |d.inodes[i].addrs| == NDIRECT + 1 && n < SLOTS
    requires n > NDIRECT ==> d.inodes[i].addrs[NDIRECT] < |d.data| && |d.data[d.inodes[i].addrs[NDIRECT]]| == BSIZE
  {
    if n <= NDIRECT then d.(inodes := d.inodes[i := d.inodes[i].(addrs := d.inodes[i].addrs[n := b])])
    else
      var ind := d.inodes[i].addrs[NDIRECT];
      d.(data := d.data[ind := PutWord(d.data[ind], n - NDIRECT - 1, b)])
  }

  function Attach(d: Disk, i: nat, n: nat, b: nat): Disk
    requires i < |d.inodes| && |d.inodes[i].addrs| == NDIRECT + 1 && n < SLOTS && b < |d.used| == |d.data|
    requires n > NDIRECT ==> d.inodes[i].addrs[NDIRECT] < |d.data| && |d.data[d.inodes[i].addrs[NDIRECT]]| == BSIZE
  {
    Record(Take(d, b), i, n, b)
  }

  /** Slot `n` of inode `i` is empty and can take block `b`, which is free. */
  ghost predicate CanAttach(d: Disk, i: nat, n: nat, b: nat) {
    && Inv(d) && i < |d.inodes| && n < SLOTS && b < |d.used| && !d.used[b] && BlockAt(d, i, n) == 0
    && (n > NDIRECT ==> d.inodes[i].addrs[NDIRECT] != 0)
  }

  /** A free block is in no slot. */
  lemma FreeIsUnowned(d: Disk, b: nat, i: nat, n: nat)
    requires Inv(d) && b < |d.used| && !d.used[b]
    ensures b != 0 && b >= d.meta && BlockAt(d, i, n) != b
  {
    assert SlotOk(d, i, n);
  }

  /** Attaching a block changes what is in that slot and in no other. */
  lemma AttachSlots(d: Disk, i: nat, n: nat, b: nat, j: nat, m: nat)
    requires CanAttach(d, i, n, b)
    ensures n > NDIRECT ==> d.inodes[i].addrs[NDIRECT] < |d.data|
    ensures BlockAt(Attach(d, i, n, b), j, m) == if j == i && m == n then b else BlockAt(d, j, m)
  {
    assert SlotOk(d, i, NDIRECT) && SlotOk(d, j, NDIRECT);
    FreeIsUnowned(d, b, i, NDIRECT);
    FreeIsUnowned(d, b, j, NDIRECT);
    if n > NDIRECT {
      var ind := d.inodes[i].addrs[NDIRECT];
      assert !Share(d, i, NDIRECT, j, NDIRECT);
      if j == i && NDIRECT < m < SLOTS {
        WordRoundTrip(d.data[ind], n - NDIRECT - 1, b, m - NDIRECT - 1);
      }
    }
  }

  lemma AttachShape(d: Disk, i: nat, n: nat, b: nat)
    requires CanAttach(d, i, n, b) && (n > NDIRECT ==> d.inodes[i].addrs[NDIRECT] < |d.data|)
    ensures Shape(Attach(d, i, n, b))
  {
  }

  lemma AttachKeeps(d: Disk, i: nat, n: nat, b: nat)
    requires CanAttach(d, i, n, b)
    ensures n > NDIRECT ==> d.inodes[i].addrs[NDIRECT] < |d.data|
    ensures Inv(Attach(d, i, n, b))
  {
    AttachSlots(d, i, n, b, i, n);
    var d' := Attach(d, i, n, b);
    AttachShape(d, i, n, b);
    forall j: nat, m: nat ensures SlotOk(d', j, m) {
      AttachSlots(d, i, n, b, j, m);
      FreeIsUnowned(d, b, j, m);
      assert SlotOk(d, j, m);
    }
    forall j: nat, m: nat, j': nat, m': nat ensures !Share(d', j, m, j', m') {
      AttachSlots(d, i, n, b, j, m);
      AttachSlots(d, i, n, b, j', m');
      FreeIsUnowned(d, b, j, m);
      FreeIsUnowned(d, b, j', m');
      assert !Share(d, j, m, j', m');
    }
  }

  lemma AttachLosesNone(d: Disk, i: nat, n: nat, b: nat)
    requires CanAttach(d, i, n, b) && (n > NDIRECT ==> d.inodes[i].addrs[NDIRECT] < |d.data|)
    ensures NoNewLeak(d, Attach(d, i, n, b))
  {
    var d' := Attach(d, i, n, b);
    AttachSlots(d, i, n, b, i, n);
    assert Held(d', b);
    forall c: nat | c != 0 && Held(d, c) ensures Held(d', c) {
      var j: nat, m: nat :| BlockAt(d, j, m) == c;
      AttachSlots(d, i, n, b, j, m);
    }
  }

  /** A new block reads as zeros, as the hole it fills did. */
  lemma AttachBytes(d: Disk, i: nat, n: nat, b: nat, j: nat, off: nat)
    requires CanAttach(d, i, n, b) && (n > NDIRECT ==> d.inodes[i].addrs[NDIRECT] < |d.data|)
    ensures ByteAt(Attach(d, i, n, b), j, off) == ByteAt(d, j, off)
  {
    var m := SlotOf(off / BSIZE);
    AttachSlots(d, i, n, b, j, m);
    FreeIsUnowned(d, b, j, m);
    FreeIsUnowned(d, b, i, NDIRECT);
    assert !Share(d, i, NDIRECT, j, m);
  }

  // ----- Writing into a file block -----

  function Splice(s: seq<nat>, k: nat, bytes: seq<nat>): seq<nat>
    requires k + |bytes| <= |s|
  {
    s[..k] + bytes + s[k + |bytes|..]
  }

  function Poke(d: Disk, b: nat, k: nat, bytes: seq<nat>): Disk
    requires b < |d.data| && k + |bytes| <= |d.data[b]|
  {
    d.(data := d.data[b := Splice(d.data[b], k, bytes)])
  }

  lemma PokeSlots(d: Disk, i: nat, bn: nat, k: nat, bytes: seq<nat>, j: nat, m: nat)
    requires Inv(d) && FileBlock(d, i, bn) != 0 && k + |bytes| <= BSIZE
    ensures FileBlock(d, i, bn) < |d.data|
    ensures BlockAt(Poke(d, FileBlock(d, i, bn), k, bytes), j, m) == BlockAt(d, j, m)
  {
    assert SlotOk(d, i, SlotOf(bn));
    assert !Share(d, i, SlotOf(bn), j, NDIRECT);
  }

  lemma PokeKeeps(d: Disk, i: nat, bn: nat, k: nat, bytes: seq<nat>)
    requires Inv(d) && FileBlock(d, i, bn) != 0 && k + |bytes| <= BSIZE
    ensures FileBlock(d, i, bn) < |d.data| && Inv(Poke(d, FileBlock(d, i, bn), k, bytes))
  {
    PokeSlots(d, i, bn, k, bytes, i, bn);
    var d' := Poke(d, FileBlock(d, i, bn), k, bytes);
    forall j: nat, m: nat ensures SlotOk(d', j, m) {
      PokeSlots(d, i, bn, k, bytes, j, m);
      assert SlotOk(d, j, m);
    }
    forall j: nat, m: nat, j': nat, m': nat ensures !Share(d', j, m, j', m') {
      PokeSlots(d, i, bn, k, bytes, j, m);
      PokeSlots(d, i, bn, k, bytes, j', m');
      assert !Share(d, j, m, j', m');
    }
  }

  /** A disk with the same slots and the same free map has lost nothing. */
  lemma SameSlotsLoseNone(d: Disk, d': Disk)
    requires d'.used == d.used && d'.meta == d.meta
    requires forall j: nat, m: nat :: BlockAt(d', j, m) == BlockAt(d, j, m)
    ensures NoNewLeak(d, d')
  {
    forall c: nat | Held(d, c) ensures Held(d', c) {
      var j: nat, m: nat :| BlockAt(d, j, m) == c;
      assert BlockAt(d', j, m) == c;
    }
  }

  lemma PokeLosesNone(d: Disk, i: nat, bn: nat, k: nat, bytes: seq<nat>)
    requires Inv(d) && FileBlock(d, i, bn) != 0 && k + |bytes| <= BSIZE && FileBlock(d, i, bn) < |d.data|
    ensures NoNewLeak(d, Poke(d, FileBlock(d, i, bn), k, bytes))
  {
    var d' := Poke(d, FileBlock(d, i, bn), k, bytes);
    forall j: nat, m: nat ensures BlockAt(d', j, m) == BlockAt(d, j, m) {
      PokeSlots(d, i, bn, k, bytes, j, m);
    }
    SameSlotsLoseNone(d, d');
  }

  /** Writing into a block of a file changes those bytes of that file and no others. */
  lemma PokeBytes(d: Disk, i: nat, bn: nat, k: nat, bytes: seq<nat>, j: nat, off: nat)
    requires Inv(d) && FileBlock(d, i, bn) != 0 && k + |bytes| <= BSIZE && FileBlock(d, i, bn) < |d.data|
    ensures ByteAt(Poke(d, FileBlock(d, i, bn), k, bytes), j, off)
         == if j == i && off / BSIZE == bn && k <= off % BSIZE < k + |bytes| then bytes[off % BSIZE - k]
            else ByteAt(d, j, off)
  {
    PokeSlots(d, i, bn, k, bytes, j, SlotOf(off / BSIZE));
    assert !Share(d, i, SlotOf(bn), j, SlotOf(off / BSIZE));
    assert SlotOk(d, j, SlotOf(off / BSIZE));
  }

  // ----- Emptying a file -----

  ghost predicate OwnedIn(d: Disk, i: nat, lo: nat, hi: nat, b: nat) {
    exists n: nat :: lo <= n < hi && BlockAt(d, i, n) == b && b != 0
  }

  /** The disk with file `i` emptied and its blocks returned to the free map. */
  ghost predicate Emptied(d: Disk, d': Disk, i: nat)
    requires i < |d.inodes|
  {
    && d' == d.(inodes := d.inodes[i := Inode(seq(NDIRECT + 1, _ => 0), 0)], used := d'.used)
    && |d'.used| == |d.used|
    && forall b: nat :: b < |d.used| ==> d'.used[b] == (d.used[b] && !OwnedIn(d, i, 0, SLOTS, b))
  }

  lemma EmptiedKeeps(d: Disk, d': Disk, i: nat)
    requires Inv(d) && i < |d.inodes| && Emptied(d, d', i)
    ensures Inv(d') && forall n: nat :: BlockAt(d', i, n) == 0
    ensures forall j: nat, n: nat :: j != i ==> BlockAt(d', j, n) == BlockAt(d, j, n)
    ensures forall j: nat, off: nat :: j != i ==> ByteAt(d', j, off) == ByteAt(d, j, off)
  {
    forall j: nat, n: nat ensures SlotOk(d', j, n) {
      assert SlotOk(d, j, n);
      if j != i {
        forall n': nat ensures BlockAt(d, i, n') != BlockAt(d, j, n) || BlockAt(d, j, n) == 0 {
          assert !Share(d, j, n, i, n');
        }
      }
    }
    forall j: nat, n: nat, j': nat, n': nat ensures !Share(d', j, n, j', n') {
      assert !Share(d, j, n, j', n');
    }
    forall n: nat ensures BlockAt(d, i, n) == 0 || BlockAt(d, i, n) >= d.meta {
      assert SlotOk(d, i, n);
    }
  }

  /** Emptying a file loses no block. */
  lemma EmptiedLosesNone(d: Disk, d': Disk, i: nat)
    requires Inv(d) && i < |d.inodes| && Emptied(d, d', i)
    ensures NoNewLeak(d, d')
  {
    forall c: nat | d.meta <= c < |d.used| && Held(d, c) && d'.used[c] ensures Held(d', c) {
      var j: nat, m: nat :| BlockAt(d, j, m) == c;
      assert BlockAt(d', j, m) == c;
    }
  }
}
