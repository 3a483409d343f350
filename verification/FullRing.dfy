/** The ring of drivers/audio/audio_utility/audio_ringbuf.c, which uses its whole memory.

    Equal pointers mean empty or full, and only the explicit data count tells which.  The
    other processor sees the same memory through a bridge with its own pair of indices; the
    ring catches up with an index of the bridge from the distance between the two. */
module FullRing {
  import opened Circular

  datatype Ring = Ring(buf: seq<Byte>, read: nat, write: nat, count: nat) {

    function Size(): nat { |buf| }

    ghost predicate Valid() {
      && 0 < Size() && read < Size() && write < Size() && count <= Size()
      && At(Size(), read, count) == write
    }

    function Free(): int { Size() - count }

    /** The queued bytes, oldest first. */
    ghost function Contents(): seq<Byte>
      requires Valid()
    {
      Window(buf, read, count)
    }

    /** With k bytes taken from the front. */
    ghost function Took(k: nat): Ring
      requires Valid() && k <= count
    {
      this.(read := At(Size(), read, k), count := count - k)
    }

    /** With bytes put at the back. */
    ghost function Put(bytes: seq<Byte>): Ring
      requires Valid() && |bytes| <= Free()
    {
      Ring(Stored(buf, write, bytes), read, At(Size(), write, |bytes|), count + |bytes|)
    }

    /** With k bytes at the back that somebody else put into the memory. */
    ghost function Grew(k: nat): Ring
      requires Valid() && k <= Free()
    {
      this.(write := At(Size(), write, k), count := count + k)
    }
  }

  /** The pointers leave open exactly whether a ring is empty or full; the count decides. */
  lemma CountDecides(r: Ring, s: Ring)
    requires r.Valid() && s.Valid() && s == r.(count := s.count)
    ensures r.count == s.count || (r.read == r.write && {r.count, s.count} == {0, r.Size()})
  {
  }

  /** The self-check of the source, with counting switched on. */
  predicate Checked(r: Ring) {
    && r.read <= r.Size() && r.write <= r.Size()
    && (r.read == r.write ==> r.count == 0 || r.count == r.Size())
    && (r.write > r.read ==> r.write - r.read == r.count)
    && (r.read > r.write ==> r.Size() - (r.read - r.write) == r.count)
  }

  /** It accepts the valid rings and, besides, only rings with a pointer at the very end. */
  lemma CheckIsValid(r: Ring)
    requires r.Size() > 0
    ensures r.Valid() <==> Checked(r) && r.read < r.Size() && r.write < r.Size()
  {
  }

  lemma TookDrops(r: Ring, k: nat)
    requires r.Valid() && k <= r.count
    ensures r.Took(k).Valid() && r.Took(k).Contents() == r.Contents()[k..]
    ensures r.Contents()[..k] == Window(r.buf, r.read, k)
  {
    hide Window;
    WindowSplit(r.buf, r.read, k, r.count - k);
    AtTwice(r.Size(), r.read, k, r.count - k);
  }

  lemma PutAppends(r: Ring, bytes: seq<Byte>)
    requires r.Valid() && |bytes| <= r.Free()
    ensures r.Put(bytes).Valid() && r.Put(bytes).Contents() == r.Contents() + bytes
  {
    hide Window, Stored;
    AtTwice(r.Size(), r.read, r.count, |bytes|);
    WindowSplit(r.Put(bytes).buf, r.read, r.count, |bytes|);
    WindowApart(r.buf, r.read, r.count, r.count, bytes);
    WindowStored(r.buf, r.write, bytes);
  }

  lemma GrewAppends(r: Ring, k: nat)
    requires r.Valid() && k <= r.Free()
    ensures r.Grew(k).Valid() && r.Grew(k).Contents() == r.Contents() + Window(r.buf, r.write, k)
  {
    hide Window;
    AtTwice(r.Size(), r.read, r.count, k);
    WindowSplit(r.buf, r.read, r.count, k);
  }

  /** Putting bytes is one copy, or two when the end of the memory is in the way; while the
      data itself passes the end, the end is never in the way. */
  lemma PutCopies(r: Ring, bytes: seq<Byte>)
    requires r.Valid() && |bytes| <= r.Free()
    ensures var end := r.Size() - r.write;
      && (r.read > r.write ==> |bytes| < end)
      && (|bytes| <= end ==> r.Put(bytes) == Ring(Splice(r.buf, r.write, bytes), r.read,
            if |bytes| == end then 0 else r.write + |bytes|, r.count + |bytes|))
      && (|bytes| > end ==> r.Put(bytes) == Ring(Splice(Splice(r.buf, r.write, bytes[..end]), 0, bytes[end..]), r.read,
            |bytes| - end, r.count + |bytes|))
  {
    hide Window, Stored, Splice;
    StoredSplices(r.buf, r.write, bytes);
  }

  // ---------------------------------------------------------------- the mirror, and pointers moved too far

  /** By how much a ring takes itself to be behind a bridge with this write index and count:
      the distance of the indices, or what the bridge counts more where they agree. */
  function Lag(r: Ring, write: nat, count: nat): nat
    requires r.Valid() && write < r.Size()
  {
    if r.count == r.Size() then 0
    else if write != r.write then Dist(r.Size(), r.write, write)
    else if count > r.count then count - r.count
    else 0
  }

  /** A ring whose bridge is ahead by k catches up by exactly k when the index of the bridge
      has moved, when the ring is full, or when the counts differ by k. */
  lemma LagExact(r: Ring, k: nat, count: nat)
    requires r.Valid() && k <= r.Free() && count <= r.Size()
    ensures var write := At(r.Size(), r.write, k);
      && Lag(r, write, count) <= r.Free()
      && (Lag(r, write, count) == k <==> (
            || write != r.write || r.count == r.Size()
            || (if count > r.count then count - r.count else 0) == k))
      && (Lag(r, write, count) != k ==> Lag(r, write, count) == count - r.count)
  {
  }

  /** So what was taken comes back: when ring and bridge agree, k bytes are taken and the read
      index is published, the next catching up puts the k bytes in again, although nothing was
      written, because publishing leaves the count of the bridge. */
  lemma TakenComesBack(r: Ring, k: nat)
    requires r.Valid() && k <= r.count
    ensures r.Took(k).Valid() && Lag(r.Took(k), r.write, r.count) == k
    ensures r.Took(k).Grew(k).Valid() && r.Took(k).Grew(k).write == At(r.Size(), r.write, k)
    ensures 0 < k < r.Size() ==> r.Took(k).Grew(k).write != r.write
  {
    TookDrops(r, k);
    GrewAppends(r.Took(k), k);
  }

  /** An example: four bytes arrive, two are taken, nothing more arrives, and the ring finds two
      bytes beyond those that the bridge has. */
  lemma PhantomBytes()
    ensures var r := Ring([0, 0, 0, 0, 0, 0, 0, 0], 0, 0, 0);
      && r.Valid() && Lag(r, 4, 4) == 4
      && var taken := r.Grew(4).Took(2);
         taken.Valid() && Lag(taken, 4, 4) == 2 && taken.Grew(2).write == 6
  {
  }

  /** The index of a bridge that moves without its count makes no valid ring of the bridge,
      unless it comes round to where it was. */
  lemma CountMustFollow(r: Ring, k: nat)
    requires r.Valid() && k <= r.Free()
    ensures r.(write := At(r.Size(), r.write, k)).Valid() <==> k == 0 || k == r.Size()
  {
  }

  /** Where the write pointer comes to lie, moved by more than the free space or not. */
  function WriteLands(r: Ring, count: nat): nat
    requires r.Valid()
  {
    var past := r.write + count;
    if r.read <= r.write && past > r.Size() then
      if past - r.Size() <= r.read then past - r.Size() else 0
    else if past >= r.Size() then past - r.Size()
    else past
  }

  /** One turn is taken off at the end of the memory; a pointer that would pass the read pointer
      on the way from behind it goes to the front instead. */
  lemma WriteLandsAt(r: Ring, count: nat)
    requires r.Valid()
    ensures var past := r.write + count;
      WriteLands(r, count)
      == if r.read <= r.write && past > r.Size() + r.read then 0 else if past >= r.Size() then past - r.Size() else past
  {
  }

  /** Moved too far, the pointers leave a valid ring only by chance, because the recount is of
      the free space: where they agree, or lie half the memory apart. */
  predicate OverrunHarmless(r: Ring, count: nat)
    requires r.Valid()
  {
    var write := WriteLands(r, count);
    write == r.read || (write < r.read && 2 * (r.read - write) == r.Size())
  }

  /** A read pointer moved past the data leaves a valid ring when it comes round to the data's
      end or before it. */
  predicate UnderrunHarmless(r: Ring, count: nat)
    requires r.Valid()
  {
    var turns := if r.read <= r.write then r.Size() else 2 * r.Size();
    turns <= r.read + count <= turns + r.write
  }

  // ---------------------------------------------------------------- the ring in memory

  /** The indices that the other processor publishes, as offsets from its base. */
  class Bridge {
    var read: nat
    var write: nat
    var datacount: nat
  }

  class FullRing {
    const buf: array<Byte>
    var read: int
    var write: int
    var datacount: int

    ghost predicate Positive()
      reads this
    {
      read >= 0 && write >= 0 && datacount >= 0
    }

    ghost function Now(): Ring
      reads this, buf
      requires Positive()
    {
      Ring(buf[..], read, write, datacount)
    }

    ghost predicate Valid()
      reads this, buf
    {
      Positive() && Now().Valid()
    }

    ghost function Contents(): seq<Byte>
      reads this, buf
      requires Valid()
    {
      Now().Contents()
    }

    constructor (memory: array<Byte>)
      requires memory.Length > 0
      ensures Valid() && buf == memory && Contents() == []
    {
      buf, read, write, datacount := memory, 0, 0, 0;
    }

    /** Moves the read pointer on and, once it has reached the end, back to the front. */
    method StepRead(count: int)
      modifies `read
      ensures read == old(read) + count - (if old(read) + count >= buf.Length then buf.Length else 0)
    {
      read := read + count;
      if read >= buf.Length {
        read := read - buf.Length;
      }
    }

    method StepWrite(count: int)
      modifies `write
      ensures write == old(write) + count - (if old(write) + count >= buf.Length then buf.Length else 0)
    {
      write := write + count;
      if write >= buf.Length {
        write := write - buf.Length;
      }
    }

    /** Reads count bytes; a count beyond the data changes nothing. */
    method CopyToLinear(count: nat) returns (linear: seq<Byte>)
      requires Valid()
      modifies this
      ensures Valid()
      ensures count <= |old(Contents())| ==> linear == old(Contents())[..count] && Now() == old(Now()).Took(count)
      ensures count <= |old(Contents())| ==> Contents() == old(Contents())[count..]
      ensures count > |old(Contents())| ==> linear == [] && Now() == old(Now())
    {
      hide Window, Ring.Contents;
      assert |Contents()| == datacount by { Counts(Now()); }
      linear := [];
      if count == 0 {
        TookDrops(Now(), 0);
        return;
      }
      if datacount < count {
        return;
      }
      TookDrops(Now(), count);
      WindowSlices(buf[..], read, count);
      if read < write {
        linear := buf[read..read + count];
        StepRead(count);
      } else {
        var r2e := buf.Length - read;
        if count <= r2e {
          linear := buf[read..read + count];
          StepRead(count);
        } else {
          linear := buf[read..] + buf[..count - r2e];
          read := count - r2e;
        }
      }
      datacount := datacount - count;
    }

    /** Writes bytes; more than fit change nothing. */
    method CopyFromLinear(bytes: seq<Byte>)
      requires Valid()
      modifies this, buf
      ensures Valid()
      ensures |bytes| <= old(Now()).Free() ==>
                Now() == old(Now()).Put(bytes) && Contents() == old(Contents()) + bytes
      ensures |bytes| > old(Now()).Free() ==> Now() == old(Now())
    {
      hide Window, Stored, Splice, Ring.Contents;
      var count := |bytes|;
      var space := buf.Length - datacount;
      if space < count {
        return;
      }
      PutAppends(Now(), bytes);
      PutCopies(Now(), bytes);
      if read <= write {
        var w2e := buf.Length - write;
        if count <= w2e {
          CopyBytes(buf, write, bytes);
          StepWrite(count);
        } else {
          CopyBytes(buf, write, bytes[..w2e]);
          CopyBytes(buf, 0, bytes[w2e..]);
          write := count - w2e;
        }
      } else {
        CopyBytes(buf, write, bytes);
        StepWrite(count);
      }
      datacount := datacount + count;
    }

    /** Writes count copies of a value.  Too many are only logged: the ring stays valid exactly
        when they fit.  The caller sees to it that the stores stay in the memory. */
    method WriteDataValue(value: Byte, count: nat)
      requires Valid()
      requires count <= buf.Length - write + (if read <= write then buf.Length else 0)
      modifies this, buf
      ensures Valid() <==> count <= old(Now()).Free()
      ensures count <= old(Now()).Free() ==>
                Now() == old(Now()).Put(Repeat(value, count)) && Contents() == old(Contents()) + Repeat(value, count)
    {
      hide Window, Stored, Splice, Ring.Contents, Repeat;
      if count <= Now().Free() {
        PutAppends(Now(), Repeat(value, count));
        PutCopies(Now(), Repeat(value, count));
        if count > buf.Length - write {
          FillParts(value, buf.Length - write, count);
        }
      }
      if count == 0 {
        PutNothing(Now());
        return;
      }
      if read <= write {
        var w2e := buf.Length - write;
        if count <= w2e {
          FillBytes(buf, write, value, count);
          StepWrite(count);
        } else {
          FillBytes(buf, write, value, w2e);
          FillBytes(buf, 0, value, count - w2e);
          write := count - w2e;
        }
      } else {
        FillBytes(buf, write, value, count);
        StepWrite(count);
      }
      datacount := datacount + count;
    }

    /** Moves the write pointer over bytes that are already in the memory. */
    method UpdateWritePtr(count: int)
      requires Valid()
      modifies this
      ensures count <= 0 ==> Valid() && Now() == old(Now())
      ensures 0 <= count <= old(Now()).Free() ==> Valid() && Now() == old(Now()).Grew(count)
      ensures count > old(Now()).Free() ==> (Valid() <==> OverrunHarmless(old(Now()), count))
      ensures count > old(Now()).Free() ==>
                && write == WriteLands(old(Now()), count)
                && datacount == (if read >= write then read - write else write - read + buf.Length)
                && read == old(read)
    {
      hide Window, Ring.Contents;
      if 0 <= count <= Now().Free() {
        GrewAppends(Now(), count);
      }
      if count <= 0 {
        return;
      }
      MoveWrite(count);
      if datacount + count > buf.Length {
        if read >= write {
          datacount := read - write;
        } else {
          datacount := write + buf.Length - read;
        }
      } else {
        datacount := datacount + count;
      }
    }

    /** The part of the above that is about the pointer. */
    method MoveWrite(count: nat)
      requires Valid()
      modifies `write
      ensures write == WriteLands(old(Now()), count)
    {
      if read <= write {
        var w2e := buf.Length - write;
        if count <= w2e {
          StepWrite(count);
        } else {
          write := count - w2e;
          if write > read {
            write := 0;
          }
        }
      } else {
        StepWrite(count);
      }
    }

    /** Moves the read pointer over bytes that somebody else has read. */
    method UpdateReadPtr(count: int)
      requires Valid()
      modifies this
      ensures count <= 0 ==> Valid() && Now() == old(Now())
      ensures 0 <= count <= old(datacount) ==> Valid() && Now() == old(Now()).Took(count)
      ensures count > old(datacount) ==> (Valid() <==> UnderrunHarmless(old(Now()), count))
      ensures count > old(datacount) ==>
                var past := old(read) + count;
                && read == (if past < buf.Length then past
                            else if old(read) <= old(write) || past < 2 * buf.Length then past - buf.Length
                            else past - 2 * buf.Length)
                && datacount == (if write >= read then write - read else read - write + buf.Length)
                && write == old(write)
    {
      hide Window, Ring.Contents;
      if 0 <= count <= datacount {
        TookDrops(Now(), count);
      }
      if count <= 0 {
        return;
      }
      if read <= write {
        StepRead(count);
      } else {
        var r2e := buf.Length - read;
        if count <= r2e {
          StepRead(count);
        } else {
          read := count - r2e;
          if read >= buf.Length {
            read := read - buf.Length;
          }
        }
      }
      if count > datacount {
        if write >= read {
          datacount := write - read;
        } else {
          datacount := read + buf.Length - write;
        }
      } else {
        datacount := datacount - count;
      }
    }

    /** Catches up with a bridge whose read index is ahead by k bytes of the data.  That is
        done exactly when k is less than the whole memory: when everything in a full ring was
        read, the indices are equal again and nothing is noticed. */
    method SyncReadIdx(b: Bridge, ghost k: nat)
      requires Valid() && k <= datacount && b.read == At(buf.Length, read, k)
      modifies this
      ensures Valid() && read == b.read
      ensures Now() == old(Now()).Took(k) <==> k < buf.Length
      ensures k == buf.Length ==> Now() == old(Now())
      ensures k < buf.Length ==> Contents() == old(Contents())[k..]
    {
      hide Window, Ring.Contents;
      TookDrops(Now(), k);
      var readidx := b.read;
      var count;
      if readidx >= read {
        count := readidx - read;
      } else {
        count := buf.Length - (read - readidx);
      }
      UpdateReadPtr(count);
    }

    /** Catches up with a bridge whose write index is ahead by k bytes of the free space; where
        the index alone says nothing, the count of the bridge does, so that a whole memory
        written at once is noticed.  That goes wrong exactly when the index has not moved, the
        ring is not full and the bridge does not count k more than the ring. */
    method SyncWriteIdx(b: Bridge, ghost k: nat)
      requires Valid() && k <= Now().Free() && b.write == At(buf.Length, write, k)
      requires b.datacount <= buf.Length
      modifies this
      ensures Valid() && Lag(old(Now()), b.write, b.datacount) <= old(Now()).Free()
      ensures Now() == old(Now()).Grew(Lag(old(Now()), b.write, b.datacount))
      ensures Now() == old(Now()).Grew(k) <==> (
                || b.write != old(write) || old(datacount) == buf.Length
                || (if b.datacount > old(datacount) then b.datacount - old(datacount) else 0) == k)
      ensures Now() == old(Now()).Grew(k) ==>
                write == b.write && Contents() == old(Contents()) + Window(old(buf[..]), old(write), k)
    {
      hide Window, Ring.Contents;
      GrewAppends(Now(), k);
      LagExact(Now(), k, b.datacount);
      if read == write && datacount == buf.Length {
        return;
      }
      var writeidx := b.write;
      var count;
      if writeidx > write {
        count := writeidx - write;
      } else if writeidx < write {
        count := buf.Length - (write - writeidx);
      } else if b.datacount > datacount {
        count := b.datacount - datacount;
      } else {
        count := 0;
      }
      UpdateWritePtr(count);
    }

    /** Publishes the read index; the count of the bridge is left as it was. */
    method SyncBridgeReadIdx(b: Bridge)
      requires Valid()
      modifies b`read
      ensures b.read == read
    {
      b.read := read;
    }

    /** Publishes the write index; the count of the bridge is left as it was. */
    method SyncBridgeWriteIdx(b: Bridge)
      requires Valid()
      modifies b`write
      ensures b.write == write
    {
      b.write := write;
    }
  }

  lemma Counts(r: Ring)
    requires r.Valid()
    ensures |r.Contents()| == r.count
  {
  }

  lemma PutNothing(r: Ring)
    requires r.Valid()
    ensures r.Put([]) == r
  {
    StoredNothing(r.buf, r.write);
  }
}
