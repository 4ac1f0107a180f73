/**
  The pipe.  Each method is one stretch of pipewrite, piperead or pipeclose between two points at which another process
  may run; a process that has to wait joins the set of sleepers and starts its next stretch when woken.
 */
module Pipe {
  const PIPESIZE: nat := 512
  const WRAP: nat := 0x1_0000_0000

  /** 32-bit subtraction. */
  function Distance(nread: nat, nwrite: nat): (r: nat)
    requires nread < WRAP && nwrite < WRAP
    ensures r < WRAP
  {
    if nwrite >= nread then nwrite - nread else nwrite + WRAP - nread
  }

  function Next(n: nat): (r: nat)
    requires n < WRAP
    ensures r < WRAP
  {
    (n + 1) % WRAP
  }

  /** The bytes in flight, oldest first. */
  function InFlight(data: seq<int>, nread: nat, count: nat): (r: seq<int>)
    requires |data| == PIPESIZE
    ensures |r| == count
  {
    seq(count, (k: nat) => data[SlotAt(nread, k)])
  }

  function SlotAt(n: nat, k: nat): (r: nat)
    ensures r < PIPESIZE
  {
    (n + k) % PIPESIZE
  }

  lemma StoreByte(data: seq<int>, nread: nat, nwrite: nat, ch: int)
    requires |data| == PIPESIZE && nread < WRAP && nwrite < WRAP && Distance(nread, nwrite) < PIPESIZE
    ensures Distance(nread, Next(nwrite)) == Distance(nread, nwrite) + 1
    ensures InFlight(data[nwrite % PIPESIZE := ch], nread, Distance(nread, nwrite) + 1)
         == InFlight(data, nread, Distance(nread, nwrite)) + [ch]
  {
    var count := Distance(nread, nwrite);
    Slot(nread, nwrite, count);
    forall k: nat | k < count ensures SlotAt(nread, k) != nwrite % PIPESIZE {
      Slot(nread, nwrite, k);
    }
  }

  /** Within the ring, the slot of the `k`th byte in flight is the write slot only for `k` the distance. */
  lemma Slot(nread: nat, nwrite: nat, k: nat)
    requires nread < WRAP && nwrite < WRAP && Distance(nread, nwrite) < PIPESIZE && k < PIPESIZE
    ensures SlotAt(nread, k) == nwrite % PIPESIZE <==> k == Distance(nread, nwrite)
  {
    var count := Distance(nread, nwrite);
    assert WRAP == PIPESIZE * 8388608;
    if nwrite >= nread {
      assert nwrite == nread + count;
    } else {
      assert nwrite + PIPESIZE * 8388608 == nread + count;
      assert (nwrite + PIPESIZE * 8388608) % PIPESIZE == nwrite % PIPESIZE;
    }
    assert (nread + count) % PIPESIZE == nwrite % PIPESIZE;
    assert (nread + k) % PIPESIZE == (nread + count) % PIPESIZE <==> k == count;
  }

  lemma TakeByte(data: seq<int>, nread: nat, nwrite: nat)
    requires |data| == PIPESIZE && nread < WRAP && nwrite < WRAP && 0 < Distance(nread, nwrite) <= PIPESIZE
    ensures Distance(Next(nread), nwrite) == Distance(nread, nwrite) - 1
    ensures InFlight(data, nread, Distance(nread, nwrite))
         == [data[nread % PIPESIZE]] + InFlight(data, Next(nread), Distance(nread, nwrite) - 1)
  {
    var count := Distance(nread, nwrite);
    var all, rest := InFlight(data, nread, count), InFlight(data, Next(nread), count - 1);
    forall k: nat | k < count ensures all[k] == ([data[nread % PIPESIZE]] + rest)[k] {
      if k > 0 {
        NextSlot(nread, k - 1);
      }
    }
  }

  lemma NextSlot(n: nat, k: nat)
    requires n < WRAP
    ensures SlotAt(Next(n), k) == SlotAt(n, k + 1)
  {
    if n + 1 == WRAP {
      Multiple(8388608, k);
    } else {
      assert Next(n) + k == n + (k + 1);
    }
  }

  lemma Multiple(q: nat, k: nat)
    ensures (PIPESIZE * q + k) % PIPESIZE == k % PIPESIZE
  {
  }

  datatype Outcome = Slept | Returned(value: int)

  class Buffer {
    const data: array<int>
    var nread: nat
    var nwrite: nat
    var readOpen: bool
    var writeOpen: bool
    ghost var stored: seq<int>
    ghost var consumed: seq<int>
    ghost var readers: set<nat>   // asleep on nread
    ghost var writers: set<nat>   // asleep on nwrite

    ghost function Pending(): (r: seq<int>)
      requires data.Length == PIPESIZE && nread < WRAP && nwrite < WRAP
      reads this, data
    {
      InFlight(data[..], nread, Distance(nread, nwrite))
    }

    ghost predicate Fifo()
      reads this, data
    {
      && data.Length == PIPESIZE && nread < WRAP && nwrite < WRAP && Distance(nread, nwrite) <= PIPESIZE
      && stored == consumed + Pending()
    }

    /** Bytes come out as they went in, and nobody sleeps who could go on. */
    ghost predicate Valid()
      reads this, data
    {
      && Fifo()
      && (readers != {} ==> nread == nwrite && writeOpen)
      && (writers != {} ==> Distance(nread, nwrite) == PIPESIZE && readOpen)
    }

    constructor ()
      ensures Valid() && readOpen && writeOpen && stored == [] && readers == {} && writers == {}
    {
      data := new int[PIPESIZE];
      nread, nwrite, readOpen, writeOpen := 0, 0, true, true;
      stored, consumed, readers, writers := [], [], {}, {};
    }

    method Put(ch: int)
      requires Fifo() && Distance(nread, nwrite) < PIPESIZE
      modifies this`nwrite, this`stored, data
      ensures Fifo() && stored == old(stored) + [ch] && Distance(nread, nwrite) == old(Distance(nread, nwrite)) + 1
    {
      StoreByte(data[..], nread, nwrite, ch);
      data[nwrite % PIPESIZE] := ch;
      nwrite := Next(nwrite);
      stored := stored + [ch];
    }

    method Get() returns (ch: int)
      requires Fifo() && nread != nwrite
      modifies this`nread, this`consumed
      ensures Fifo() && consumed == old(consumed) + [ch] && old(Pending()) == [ch] + Pending()
      ensures Distance(nread, nwrite) == old(Distance(nread, nwrite)) - 1
    {
      TakeByte(data[..], nread, nwrite);
      ch := data[nread % PIPESIZE];
      nread := Next(nread);
      consumed := consumed + [ch];
    }

    /** A stretch of pipewrite by process `p` with `src` left to write, of which `good` bytes can be fetched. */
    method Write(p: nat, src: seq<int>, good: nat, killed: bool) returns (i: nat, out: Outcome)
      requires Valid() && p !in writers && p !in readers
      modifies this, data
      ensures Valid() && i <= |src| && stored == old(stored) + src[..i] && consumed == old(consumed)
      ensures readOpen == old(readOpen) && writeOpen == old(writeOpen)
      ensures out == Slept <==> p in writers
      ensures out == Slept ==> i < |src| && Distance(nread, nwrite) == PIPESIZE
      ensures writers == old(writers) + (if out == Slept then {p} else {})
      ensures out.Returned? ==> out.value == (if |src| > 0 && (!old(readOpen) || killed) then -1 else i)
      ensures out.Returned? && out.value != -1 ==> i == |src| || i == good
      ensures readers == (if out == Returned(-1) then old(readers) else {})
    {
      i := 0;
      while i < |src|
        invariant i <= |src| && i <= good && Fifo() && stored == old(stored) + src[..i] && consumed == old(consumed)
        invariant readOpen == old(readOpen) && writeOpen == old(writeOpen)
        invariant readers == old(readers) && writers == old(writers)
        invariant i > 0 ==> readOpen && !killed && writers == {}
        invariant i == 0 ==> nread == old(nread) && nwrite == old(nwrite)
      {
        if !readOpen || killed {
          return i, Returned(-1);
        }
        if Distance(nread, nwrite) == PIPESIZE {
          readers := {};
          writers := writers + {p};
          return i, Slept;
        }
        if i >= good {
          break;
        }
        Put(src[i]);
        i := i + 1;
      }
      readers := {};
      out := Returned(i);
    }

    /** A stretch of piperead by process `p`, of at most `n` bytes, of which `good` can be delivered. */
    method Read(p: nat, n: int, good: nat, killed: bool) returns (bytes: seq<int>, out: Outcome)
      requires Valid() && p !in readers && p !in writers
      modifies this
      ensures Valid() && stored == old(stored) && consumed == old(consumed) + bytes
      ensures readOpen == old(readOpen) && writeOpen == old(writeOpen)
      ensures bytes <= old(Pending()) && |bytes| <= (if n > 0 then n else 0)
      ensures out == Slept <==> p in readers
      ensures readers == old(readers) + (if out == Slept then {p} else {})
      ensures out == Slept <==> old(nread) == old(nwrite) && old(writeOpen) && !killed
      ensures out.Returned? ==>
                out.value == if || (old(nread) == old(nwrite) && old(writeOpen))
                                || (n > 0 && good == 0 && old(Pending()) != [])
                             then -1 else |bytes|
      ensures out.Returned? && |bytes| < n && |bytes| < good ==> bytes == old(Pending())
      ensures writers == if old(nread) == old(nwrite) && old(writeOpen) then old(writers) else {}
    {
      bytes := [];
      if nread == nwrite && writeOpen {
        if killed {
          return bytes, Returned(-1);
        }
        readers := readers + {p};
        return bytes, Slept;
      }
      bytes := Drain(n, good);
      writers := {};
      out := Returned(if bytes == [] && n > 0 && nread != nwrite then -1 else |bytes|);
    }

    /** The copying loop of piperead: stops at `n` bytes, at an empty pipe or at a byte that cannot be delivered. */
    method Drain(n: int, good: nat) returns (bytes: seq<int>)
      requires Fifo()
      modifies this`nread, this`consumed
      ensures Fifo() && consumed == old(consumed) + bytes && old(Pending()) == bytes + Pending()
      ensures |bytes| <= (if n > 0 then n else 0) && |bytes| <= good
      ensures |bytes| < n && |bytes| < good ==> nread == nwrite
      ensures bytes == [] ==> nread == old(nread)
    {
      bytes := [];
      ghost var pending := Pending();
      while |bytes| < n && nread != nwrite && |bytes| < good
        invariant |bytes| <= (if n > 0 then n else 0) && |bytes| <= good && Fifo()
        invariant consumed == old(consumed) + bytes && pending == bytes + Pending()
        invariant bytes == [] ==> nread == old(nread)
      {
        ghost var before := Pending();
        var ch := Get();
        assert bytes + before == (bytes + [ch]) + Pending();
        bytes := bytes + [ch];
      }
    }

    /** pipeclose: those who wait for the other end are woken. */
    method Close(writable: bool)
      requires Valid()
      modifies this
      ensures Valid() && stored == old(stored) && consumed == old(consumed)
      ensures writeOpen == (old(writeOpen) && !writable) && readOpen == (old(readOpen) && writable)
      ensures readers == (if writable then {} else old(readers)) && writers == (if writable then old(writers) else {})
    {
      if writable {
        writeOpen := false;
        readers := {};
      } else {
        readOpen := false;
        writers := {};
      }
    }

    /** kkill takes a process out of its sleep. */
    method Kill(p: nat)
      requires Valid()
      modifies this
      ensures Valid() && stored == old(stored) && consumed == old(consumed)
      ensures readers == old(readers) - {p} && writers == old(writers) - {p}
      ensures readOpen == old(readOpen) && writeOpen == old(writeOpen)
    {
      readers, writers := readers - {p}, writers - {p};
    }
  }
}
