/** The resizing byte FIFO of drivers/audio/audio_utility/audio_ringbuf_pure.c.

    A ring of `size` bytes keeps a gap of 16 bytes free, so that equal pointers always mean
    empty.  Pointers are offsets from the base; a ring without a base holds nothing. */
module ElasticRing {
  import opened Circular
  import opened Rounding

  const GAP: nat := 16

  // ---------------------------------------------------------------- the ring as a value

  datatype Ring = Ring(buf: seq<Byte>, read: nat, write: nat) {

    function Size(): nat { |buf| }

    /** Bytes queued. */
    function Count(): nat
      requires buf == [] || (read < Size() && write < Size())
    {
      if buf == [] then 0
      else if write >= read then write - read
      else Size() - (read - write)
    }

    /** Bytes that may still be written. */
    function Free(): nat
      requires buf == [] || (read < Size() && write < Size())
    {
      if Size() - Count() > GAP then Size() - Count() - GAP else 0
    }

    ghost predicate Valid() {
      && (buf == [] ==> read == 0 && write == 0)
      && (buf != [] ==> Size() > GAP && read < Size() && write < Size() && Count() + GAP <= Size())
    }

    /** The queued bytes, oldest first. */
    ghost function Contents(): seq<Byte>
      requires Valid()
    {
      if buf == [] then [] else Window(buf, read, Count())
    }

    // What the operations do to the memory, without saying how they split at the end.

    ghost function Advance(k: nat): Ring
      requires Valid() && k <= Count()
    {
      if buf == [] then this else this.(read := At(Size(), read, k))
    }

    ghost function Append(bytes: seq<Byte>): Ring
      requires Valid() && |bytes| <= Free()
    {
      if buf == [] then this else Ring(Stored(buf, write, bytes), read, At(Size(), write, |bytes|))
    }

    ghost function Retreat(k: nat): Ring
      requires Valid() && k <= Free()
    {
      if buf == [] then this else this.(read := Before(Size(), read, k))
    }

    ghost function Prepend(bytes: seq<Byte>): Ring
      requires Valid() && |bytes| <= Free()
    {
      if buf == [] then this
      else
        var front := Before(Size(), read, |bytes|);
        Ring(Stored(buf, front, bytes), front, write)
    }
  }

  /** What a valid ring amounts to in numbers. */
  lemma Shape(r: Ring)
    requires r.Valid()
    ensures r.buf == [] ==> r.Count() == r.Free() == 0
    ensures r.buf != [] ==> r.read < r.Size() && r.write < r.Size() && r.Count() == Dist(r.Size(), r.read, r.write)
    ensures r.buf != [] ==> r.Count() + r.Free() + GAP == r.Size() > GAP
    ensures |r.Contents()| == r.Count()
  {
    hide Window;
  }

  /** Equal pointers always mean empty. */
  lemma EqualMeansEmpty(r: Ring)
    requires r.Valid()
    ensures r.read == r.write <==> r.Contents() == []
  {
  }

  /** Moving the read pointer on removes a prefix. */
  lemma AdvanceDrops(r: Ring, k: nat)
    requires r.Valid() && k <= r.Count()
    ensures r.Advance(k).Valid() && r.Advance(k).Contents() == r.Contents()[k..]
    ensures r.Advance(k).Free() == if r.buf == [] then 0 else r.Free() + k
  {
    hide Window;
    if r.buf != [] {
      WindowSplit(r.buf, r.read, k, r.Count() - k);
    }
  }

  /** The first bytes queued, as they lie in memory. */
  lemma FrontBytes(r: Ring, k: nat)
    requires r.Valid() && r.buf != [] && k <= r.Count()
    ensures r.read + k <= r.Size() ==> r.Contents()[..k] == r.buf[r.read..r.read + k]
    ensures r.read + k > r.Size() ==> r.Contents()[..k] == r.buf[r.read..] + r.buf[..r.read + k - r.Size()]
  {
    hide Window;
    WindowSplit(r.buf, r.read, k, r.Count() - k);
    WindowSlices(r.buf, r.read, k);
  }

  /** Storing at the write pointer appends. */
  lemma AppendAppends(r: Ring, bytes: seq<Byte>)
    requires r.Valid() && |bytes| <= r.Free()
    ensures r.Append(bytes).Valid() && r.Append(bytes).Contents() == r.Contents() + bytes
    ensures r.Append(bytes).Size() == r.Size() && r.Append(bytes).Free() == r.Free() - |bytes|
    ensures bytes == [] ==> r.Append(bytes) == r
  {
    hide Window, Stored;
    if r.buf != [] {
      WindowSplit(r.Append(bytes).buf, r.read, r.Count(), |bytes|);
      WindowApart(r.buf, r.read, r.Count(), r.Count(), bytes);
      WindowStored(r.buf, r.write, bytes);
      StoredNothing(r.buf, r.write);
    }
  }

  lemma AppendNothing(r: Ring)
    requires r.Valid()
    ensures r.Append([]) == r
  {
    AppendAppends(r, []);
  }

  /** Stepping back over bytes is not disturbed by what is appended meanwhile, as long as that
      leaves them in the memory. */
  lemma AppendBehind(r: Ring, bytes: seq<Byte>, k: nat)
    requires r.Valid() && k + |bytes| <= r.Free()
    ensures r.Append(bytes).Valid() && k <= r.Append(bytes).Free() && r.Append(bytes).Size() == r.Size()
    ensures r.Retreat(k).Valid() && |bytes| <= r.Retreat(k).Free()
    ensures r.Append(bytes).Retreat(k) == r.Retreat(k).Append(bytes)
  {
    hide Stored, Window;
    AppendAppends(r, bytes);
  }

  /** Appending in two parts is appending the whole. */
  lemma AppendTwice(r: Ring, a: seq<Byte>, b: seq<Byte>)
    requires r.Valid() && |a| + |b| <= r.Free()
    ensures r.Append(a).Valid() && |b| <= r.Append(a).Free()
    ensures r.Append(a).Append(b) == r.Append(a + b)
  {
    hide Window, Stored;
    AppendAppends(r, a);
    if r.buf != [] {
      StoredTwice(r.buf, r.write, a, b);
    }
  }

  /** Storing before the read pointer prepends. */
  lemma PrependPrepends(r: Ring, bytes: seq<Byte>)
    requires r.Valid() && |bytes| <= r.Free()
    ensures r.Prepend(bytes).Valid() && r.Prepend(bytes).Contents() == bytes + r.Contents()
    ensures r.Prepend(bytes).Size() == r.Size()
    ensures bytes == [] ==> r.Prepend(bytes) == r
  {
    hide Window, Stored;
    if r.buf != [] {
      var t := r.Prepend(bytes);
      WindowSplit(t.buf, t.read, |bytes|, r.Count());
      WindowApart(r.buf, r.read, r.Count(), r.Size() - |bytes|, bytes);
      WindowStored(r.buf, t.read, bytes);
      StoredNothing(r.buf, r.read);
    }
  }

  /** Reading any bytes available and rolling as many back restores the whole ring, pointer
      and contents, and the free-space guard of the roll-back never rejects it. */
  lemma RollbackUndoesRead(r: Ring, k: nat)
    requires r.Valid() && k <= r.Count()
    ensures r.Advance(k).Valid() && k <= r.Advance(k).Free()
    ensures r.Advance(k).Retreat(k) == r
  {
  }

  /** Rolling back without an earlier read makes the bytes reappear that lie before the read
      pointer, whatever they are, in front of the queued ones. */
  lemma RollbackExposes(r: Ring, k: nat)
    requires r.Valid() && k <= r.Free()
    ensures r.Retreat(k).Valid() && r.Retreat(k).Count() == r.Count() + (if r.buf == [] then 0 else k)
    ensures r.buf != [] ==> r.Retreat(k).Contents()[k..] == r.Contents()
  {
    hide Window;
    if r.buf != [] {
      AdvanceDrops(r.Retreat(k), k);
    }
  }

  /** Prepending a run of values is one fill below the read pointer or, when it lies too close
      to the base, one fill below it and one at the end of the memory. */
  lemma PrependFills(r: Ring, value: Byte, n: nat)
    requires r.Valid() && r.buf != [] && n <= r.Free()
    ensures r.read > r.write ==> n < r.read
    ensures n <= r.read ==>
              r.Prepend(Repeat(value, n)) == Ring(Splice(r.buf, r.read - n, Repeat(value, n)), r.read - n, r.write)
    ensures n > r.read ==>
              var at := r.Size() - (n - r.read);
              r.read <= at < r.Size()
              && (r.read == 0 ==> Splice(r.buf, 0, Repeat(value, r.read)) == r.buf)
              && r.Prepend(Repeat(value, n))
                 == Ring(Splice(Splice(r.buf, 0, Repeat(value, r.read)), at, Repeat(value, n - r.read)), at, r.write)
  {
    hide Window, Stored, Splice, Repeat;
    StoredSplices(r.buf, Before(r.Size(), r.read, n), Repeat(value, n));
    if n > r.read {
      FillParts(value, n - r.read, n);
      SplicesCommute(r.buf, Repeat(value, r.read), Repeat(value, n - r.read));
    }
  }

  /** Appending is one copy at the write pointer, or two when the end of the memory is in the
      way, which cannot be while the data itself passes the end. */
  lemma AppendCopies(r: Ring, bytes: seq<Byte>)
    requires r.Valid() && r.buf != [] && |bytes| <= r.Free()
    ensures r.read > r.write ==> r.write + |bytes| < r.Size()
    ensures r.write + |bytes| <= r.Size() ==>
              r.Append(bytes) == Ring(Splice(r.buf, r.write, bytes), r.read, At(r.Size(), r.write, |bytes|))
    ensures r.write + |bytes| > r.Size() ==>
              var end := r.Size() - r.write;
              r.Append(bytes)
              == Ring(Splice(Splice(r.buf, r.write, bytes[..end]), 0, bytes[end..]), r.read, |bytes| - end)
  {
    hide Window, Stored, Splice;
    StoredSplices(r.buf, r.write, bytes);
  }

  // ---------------------------------------------------------------- how the size follows the need

  /** Doubles until w bytes fit beside d. */
  function Grow(change: nat, d: nat, w: nat): (r: nat)
    requires 0 < change && d <= change
    ensures r >= d + w && r >= change
    ensures change < d + w ==> r < 2 * (d + w)
    decreases d + w - change
  {
    if change - d < w then Grow(2 * change, d, w) else change
  }

  /** Halves until at most eight times the need is free. */
  function Shrink(change: nat, d: nat, w: nat): (r: nat)
    requires d <= change
    ensures d <= r <= change && r - d <= 8 * (d + w)
    ensures change - d > 8 * (d + w) ==> r >= d + w && 2 * r + 1 - d > 8 * (d + w)
    decreases change
  {
    if change - d > 8 * (d + w) then Shrink(change / 2, d, w) else change
  }

  /** The doubling loop; the new room stays below twice the need, so below 32 bits with it. */
  method DoubleUntil(start: nat, d: nat, w: nat) returns (change: nat)
    requires 0 < start && d <= start
    ensures change == Grow(start, d, w)
  {
    change := start;
    while change - d < w
      invariant 0 < change && d <= change
      invariant Grow(change, d, w) == Grow(start, d, w)
      decreases d + w - change
    {
      change := change * 2;
    }
  }

  /** The halving loop. */
  method HalveUntil(start: nat, d: nat, w: nat) returns (change: nat)
    requires d <= start
    ensures change == Shrink(start, d, w)
  {
    change := start;
    while change - d > 8 * (d + w)
      invariant d <= change
      invariant Shrink(change, d, w) == Shrink(start, d, w)
      decreases change
    {
      change := change / 2;
    }
  }

  /** The size of a ring of the given size, holding d bytes, when w more are to be written. */
  function Fit(size: nat, d: nat, w: nat): nat
    requires size > GAP && d + GAP <= size
  {
    var room := size - GAP;
    if room - d < w then Grow(room, d, w) + GAP
    else if room - d > 8 * (d + w) then Shrink(room, d, w) + GAP
    else size
  }

  /** The size of a ring of any size, 0 for one without memory, that is about to get w bytes. */
  function Sized(size: nat, d: nat, w: nat): nat
    requires if size == 0 then d == 0 else size > GAP && d + GAP <= size
  {
    if w == 0 then size else if size == 0 then 2 * w + GAP else Fit(size, d, w)
  }

  /** After a resize the w bytes fit, at most eight times the need is free, and asking again
      changes nothing. */
  lemma FitMeetsNeed(size: nat, d: nat, w: nat)
    requires size > GAP && d + GAP <= size && w >= 1
    ensures d + w + GAP <= Fit(size, d, w) <= d + 8 * (d + w) + GAP
    ensures Fit(Fit(size, d, w), d, w) == Fit(size, d, w)
  {
  }

  /** And the room follows in steps of two: it is doubled as often as it takes for the data and w
      bytes more, and halved until no more than eight times that is free, but not once more. */
  lemma FitByTwos(size: nat, d: nat, w: nat)
    requires size > 16 && d + 16 <= size && w >= 1
    ensures size - 16 < d + w ==>
              exists k: nat :: k > 0 && (size - 16) * Pow2(k - 1) < d + w && Fit(size, d, w) == (size - 16) * Pow2(k) + 16
    ensures size - 16 - d > 8 * (d + w) ==>
              exists k: nat :: k > 0 && (size - 16) / Pow2(k - 1) - d > 8 * (d + w)
                               && Fit(size, d, w) == (size - 16) / Pow2(k) + 16
  {
    var room := size - GAP;
    if room < d + w {
      var k := GrowByTwos(room, d, w);
    } else if room - d > 8 * (d + w) {
      var k := ShrinkByTwos(room, d, w);
    }
  }

  lemma {:induction false} GrowByTwos(change: nat, d: nat, w: nat) returns (k: nat)
    requires 0 < change && d <= change < d + w
    ensures k > 0 && change * Pow2(k - 1) < d + w && Grow(change, d, w) == change * Pow2(k)
    decreases d + w - change
  {
    if 2 * change < d + w {
      k := GrowByTwos(2 * change, d, w);
      Twice(change, k);
      Twice(change, k - 1);
      k := k + 1;
    } else {
      k := 1;
    }
  }

  lemma Twice(n: nat, k: nat)
    ensures 2 * n * Pow2(k) == n * Pow2(k + 1)
  {
  }

  lemma {:induction false} ShrinkByTwos(change: nat, d: nat, w: nat) returns (k: nat)
    requires d <= change && change - d > 8 * (d + w)
    ensures k > 0 && change / Pow2(k - 1) - d > 8 * (d + w) && Shrink(change, d, w) == change / Pow2(k)
    decreases change
  {
    if change / 2 - d > 8 * (d + w) {
      k := ShrinkByTwos(change / 2, d, w);
      HalveTwice(change, Pow2(k));
      HalveTwice(change, Pow2(k - 1));
      k := k + 1;
    } else {
      k := 1;
    }
  }

  /** The size stays exactly when w bytes fit and no more than eight times the need is free. */
  lemma FitMoves(size: nat, d: nat, w: nat)
    requires size > GAP && d + GAP <= size && w >= 1
    ensures Fit(size, d, w) == size <==> w <= size - GAP - d <= 8 * (d + w)
  {
  }

  // ---------------------------------------------------------------- the ring in memory

  const TOP: nat := 0x1_0000_0000   // one more than the largest uint32_t

  class ElasticRing {
    var base: array?<Byte>
    var read: nat
    var write: nat
    var size: nat

    /** What the memory holds. */
    ghost function Bytes(): (b: seq<Byte>)
      reads this`base, base
      ensures |b| == if base == null then 0 else base.Length
    {
      if base == null then [] else base[..]
    }

    ghost function Now(): Ring
      reads this, base
    {
      Ring(Bytes(), read, write)
    }

    ghost predicate Valid()
      reads this, base
    {
      && Now().Valid()
      && (if base == null then size == 0 else size == base.Length > 0)
      && size < TOP
    }

    ghost function Contents(): seq<Byte>
      reads this, base
      requires Valid()
    {
      Now().Contents()
    }

    /** What a valid ring amounts to in sizes. */
    ghost predicate Sizes()
      reads this, base
      requires Valid()
    {
      if size == 0 then |Contents()| == 0 else size > GAP && |Contents()| + GAP <= size
    }

    /** The tape of a run that begins now. */
    ghost function Begin(): (t: Tape)
      reads this, base
      requires Valid()
      ensures t.Valid() && t == Tape(Contents(), 0, 0, size)
    {
      Shape(Now());
      Start(Contents(), size)
    }

    /** A ring without memory. */
    constructor ()
      ensures Valid() && base == null && Contents() == []
    {
      base, read, write, size := null, 0, 0, 0;
    }

    /** A ring of zeroed memory. */
    constructor Alloc(n: nat)
      requires GAP < n < TOP
      ensures Valid() && fresh(base) && Contents() == [] && size == n
    {
      base := new Byte[n](_ => 0);
      read, write, size := 0, 0, n;
    }

    method DataCount() returns (count: int)
      requires Valid()
      ensures count == Now().Count() == |Contents()|
    {
      count := 0;
      if base == null || size == 0 {
        return;
      }
      if write >= read {
        count := write - read;
      } else {
        var w2r := read - write;
        count := if size > w2r then size - w2r else 0;
      }
    }

    method FreeSpace() returns (space: int)
      requires Valid()
      ensures space == Now().Free()
      ensures if base == null then space == 0 else space + |Contents()| + 16 == size
    {
      Shape(Now());
      if base == null || size == 0 {
        return 0;
      }
      var count := DataCount();
      space := if size > count then size - count else 0;
      space := if space > GAP then space - GAP else 0;
    }

    /** Reads count bytes; a count beyond the data changes nothing. */
    method CopyToLinear(count: nat) returns (linear: seq<Byte>)
      requires Valid()
      modifies this`read
      ensures Valid()
      ensures count <= |old(Contents())| ==> linear == old(Contents())[..count] && Now() == old(Now()).Advance(count)
      ensures count > |old(Contents())| ==> linear == [] && Now() == old(Now())
    {
      hide Ring.Contents, Ring.Count, Ring.Free, Ring.Valid;
      Shape(Now());
      linear := [];
      var data := DataCount();
      if count <= data {
        AdvanceDrops(Now(), count);
        assert Contents()[..0] == [];
      }
      if count == 0 || base == null || size == 0 || count > data {
        return;
      }
      FrontBytes(Now(), count);
      if read <= write {
        linear := base[read..read + count];
        read := read + count;
      } else {
        var r2e := size - read;
        if count <= r2e {
          linear := base[read..read + count];
          read := read + count;
          if read == size {
            read := 0;
          }
        } else {
          linear := base[read..] + base[..count - r2e];
          read := count - r2e;
        }
      }
    }

    /** Writes without resizing; a count beyond the free space changes nothing. */
    method CopyFromLinearImpl(linear: seq<Byte>)
      requires Valid()
      modifies this`write, base
      ensures Valid()
      ensures |linear| <= old(Now()).Free() ==> Now() == old(Now()).Append(linear)
      ensures |linear| > old(Now()).Free() ==> Now() == old(Now())
    {
      hide Ring.Contents, Ring.Count, Ring.Free, Ring.Valid, Ring.Append, Splice;
      Shape(Now());
      if |linear| <= Now().Free() {
        AppendAppends(Now(), linear);
      }
      var count := |linear|;
      var space := FreeSpace();
      if count == 0 || base == null || size == 0 || count > space {
        return;
      }
      AppendCopies(Now(), linear);
      if read <= write {
        var w2e := size - write;
        if count <= w2e {
          CopyBytes(base, write, linear);
          write := write + count;
          if write == size {
            write := 0;
          }
        } else {
          CopyBytes(base, write, linear[..w2e]);
          CopyBytes(base, 0, linear[w2e..]);
          write := count - w2e;
        }
      } else {
        CopyBytes(base, write, linear);
        write := write + count;
      }
    }

    method DropData(count: nat)
      requires Valid()
      modifies this`read
      ensures Valid()
      ensures Now() == if count <= |old(Contents())| then old(Now()).Advance(count) else old(Now())
    {
      var data := DataCount();
      if count == 0 || count > data {
        return;
      }
      if read <= write {
        read := read + count;
      } else {
        var r2e := size - read;
        if count <= r2e {
          read := read + count;
          if read == size {
            read := 0;
          }
        } else {
          read := count - r2e;
        }
      }
    }

    /** Steps the read pointer back over bytes read before. */
    method Rollback(count: nat)
      requires Valid()
      modifies this`read
      ensures Valid()
      ensures Now() == if count <= old(Now()).Free() then old(Now()).Retreat(count) else old(Now())
    {
      var space := FreeSpace();
      if count == 0 || count > space {
        return;
      }
      if read <= write {
        var b2r := read;
        if b2r >= count {
          read := read - count;
        } else if b2r > 0 {
          var left := count - b2r;
          read := size - left;
        } else {
          read := size - count;
        }
      } else {
        read := read - count;
      }
    }

    /** Puts count copies of a value in front of the data, without resizing. */
    method CompensateImpl(value: Byte, count: nat)
      requires Valid()
      modifies this`read, base
      ensures Valid()
      ensures count <= old(Now()).Free() ==> Now() == old(Now()).Prepend(Repeat(value, count))
      ensures count > old(Now()).Free() ==> Now() == old(Now())
    {
      hide Ring.Prepend, Ring.Contents, Ring.Count, Ring.Free, Ring.Valid, Splice, Repeat;
      Shape(Now());
      if count <= Now().Free() {
        PrependPrepends(Now(), Repeat(value, count));
      }
      var space := FreeSpace();
      if count == 0 || base == null || size == 0 || count > space {
        return;
      }
      PrependFills(Now(), value, count);
      if read <= write {
        var b2r := read;
        if b2r >= count {
          read := read - count;
          FillBytes(base, read, value, count);
        } else if b2r > 0 {
          FillBytes(base, 0, value, b2r);
          var left := count - b2r;
          read := size - left;
          FillBytes(base, read, value, left);
        } else {
          read := size - count;
          FillBytes(base, read, value, count);
        }
      } else {
        read := read - count;
        FillBytes(base, read, value, count);
      }
    }

    /** Resizes to the need: a ring without memory gets twice the need, one that is too small
        doubles, one that is much too large halves; the data stays. */
    method DynamicChange(w: nat)
      requires Valid() && (w > 0 ==> 8 * (|Contents()| + w) + GAP < TOP)
      modifies this, base
      ensures Valid() && Contents() == old(Contents())
      ensures base == old(base) || fresh(base)
      ensures w == 0 ==> Now() == old(Now()) && base == old(base)
      ensures old(base) != null && Fit(old(size), |old(Contents())|, w) == old(size) ==>
                Now() == old(Now()) && base == old(base)
      ensures w > 0 ==> size == if old(base) == null then 2 * w + 16 else Fit(old(size), |Contents()|, w)
      ensures old(Sizes()) && size == Sized(old(size), |old(Contents())|, w)
      ensures size == old(size) ==> Now() == old(Now()) && base == old(base)
      ensures w > 0 ==> w <= Now().Free() <= 8 * (|Contents()| + w)
    {
      if w == 0 {
        return;
      }
      if base == null || size == 0 {
        var change := 2 * w + GAP;
        base := new Byte[change](_ => 0);
        read, write, size := 0, 0, change;
      } else {
        var change := ChangeSize(w);
        FitMeetsNeed(size, |Contents()|, w);
        if change != 0 {
          Move(change + GAP);
        }
      }
    }

    /** The room the data should have, or 0 when the present one will do. */
    method ChangeSize(w: nat) returns (change: nat)
      requires Valid() && base != null && w > 0 && 8 * (|Contents()| + w) + GAP < TOP
      ensures change == 0 <==> Fit(size, |Contents()|, w) == size
      ensures change != 0 ==> Fit(size, |Contents()|, w) == change + GAP < TOP
    {
      hide Ring.Contents, Ring.Count, Ring.Free, Ring.Valid, Grow, Shrink;
      Shape(Now());
      FitMoves(size, |Contents()|, w);
      var data := DataCount();
      var space := FreeSpace();
      change := 0;
      if space < w {
        change := DoubleUntil(data + space, data, w);
      } else if space > 8 * (data + w) {
        change := HalveUntil(data + space, data, w);
      }
    }

    /** Copies the data into fresh memory of the given size and takes that memory over. */
    method Move(change: nat)
      requires Valid() && base != null && |Contents()| + GAP <= change && GAP < change < TOP
      modifies this, base
      ensures Valid() && Contents() == old(Contents()) && size == change
      ensures base != null && fresh(base)
    {
      hide Ring.Contents, Ring.Count, Ring.Free, Ring.Valid, Ring.Append;
      var data := DataCount();
      var other := new ElasticRing.Alloc(change);
      Shape(other.Now());
      assert Contents()[..data] == Contents();
      AppendAppends(other.Now(), Contents());
      other.CopyFromRingImpl(this, data);
      base, read, write, size := other.base, other.read, other.write, other.size;
      assert Now() == other.Now();
    }

    /** Moves count bytes from the front of one ring to the back of another, without resizing;
        a count beyond the data or the free space changes nothing. */
    method CopyFromRingImpl(src: ElasticRing, count: nat)
      requires Valid() && src.Valid() && src != this && (base != null ==> src.base != base)
      modifies this`write, base, src`read
      ensures Valid() && src.Valid()
      ensures count <= |old(src.Contents())| && count <= old(Now()).Free() ==>
                && Now() == old(Now()).Append(old(src.Contents())[..count])
                && src.Now() == old(src.Now()).Advance(count)
      ensures count > |old(src.Contents())| || count > old(Now()).Free() ==>
                Now() == old(Now()) && src.Now() == old(src.Now())
    {
      hide Ring.Contents, Ring.Count, Ring.Free, Ring.Valid, Ring.Append;
      ghost var from, to := src.Now(), Now();
      Shape(from);
      Shape(to);
      var data := src.DataCount();
      var space := FreeSpace();
      if count <= data && count <= space {
        AppendAppends(to, from.Contents()[..count]);
        AdvanceDrops(from, count);
      }
      if count == 0 || src.base == null || src.size == 0 || count > data || count > space {
        return;
      }
      FrontBytes(from, count);
      if src.read <= src.write {
        CopyFromLinearImpl(src.base[src.read..src.read + count]);
        src.read := src.read + count;
      } else {
        CopyWrapped(src, count);
      }
      assert src.Now() == from.Advance(count);
    }

    /** The part of the above in which the data of the source passes its end. */
    method CopyWrapped(src: ElasticRing, count: nat)
      requires Valid() && src.Valid() && src != this && (base != null ==> src.base != base)
      requires src.base != null && src.write < src.read && count <= src.Now().Count() && count <= Now().Free()
      modifies this`write, base, src`read
      ensures Now() == old(Now()).Append(old(src.Contents())[..count])
      ensures src.Now() == old(src.Now()).Advance(count)
    {
      hide Ring.Contents, Ring.Count, Ring.Free, Ring.Valid, Ring.Append;
      Shape(src.Now());
      Shape(Now());
      FrontBytes(src.Now(), count);
      var r2e := src.size - src.read;
      if r2e >= count {
        CopyFromLinearImpl(src.base[src.read..src.read + count]);
        src.read := src.read + count;
        if src.read == src.size {
          src.read := 0;
        }
      } else {
        AppendTwice(Now(), src.base[src.read..], src.base[..count - r2e]);
        CopyFromLinearImpl(src.base[src.read..]);
        CopyFromLinearImpl(src.base[..count - r2e]);
        src.read := count - r2e;
      }
    }

    // What callers use: nothing is refused for want of room, because the ring resizes first.

    /** Appends any bytes. */
    method CopyFromLinear(linear: seq<Byte>)
      requires Valid() && (|linear| > 0 ==> 8 * (|Contents()| + |linear|) + GAP < TOP)
      modifies this, base
      ensures Valid() && Contents() == old(Contents()) + linear
      ensures base == old(base) || fresh(base)
      ensures old(Sizes()) && size == Sized(old(size), |old(Contents())|, |linear|)
      ensures size == old(size) ==> Now() == old(Now()).Append(linear)
    {
      hide Ring.Contents, Ring.Count, Ring.Free, Ring.Valid, Ring.Append;
      Shape(Now());
      AppendNothing(Now());
      if |linear| == 0 {
        return;
      }
      DynamicChange(|linear|);
      AppendAppends(Now(), linear);
      CopyFromLinearImpl(linear);
    }

    /** Moves bytes from the front of one ring to the back of another; a count beyond the data
        changes nothing. */
    method CopyFromRing(src: ElasticRing, count: nat)
      requires Valid() && src.Valid() && src != this && (base != null ==> src.base != base)
      requires count > 0 ==> 8 * (|Contents()| + count) + GAP < TOP
      modifies this, base, src`read
      ensures Valid() && src.Valid()
      ensures count <= |old(src.Contents())| ==>
                && Contents() == old(Contents()) + old(src.Contents())[..count]
                && src.Contents() == old(src.Contents())[count..]
      ensures count > |old(src.Contents())| ==> Contents() == old(Contents()) && src.Contents() == old(src.Contents())
    {
      hide Ring.Contents, Ring.Count, Ring.Free, Ring.Valid, Ring.Append, Ring.Advance;
      var data := src.DataCount();
      Shape(src.Now());
      if count == 0 || src.base == null || src.size == 0 || count > data {
        return;
      }
      DynamicChange(count);
      AppendAppends(Now(), src.Contents()[..count]);
      AdvanceDrops(src.Now(), count);
      CopyFromRingImpl(src, count);
    }

    /** Moves everything. */
    method CopyFromRingAll(src: ElasticRing)
      requires Valid() && src.Valid() && src != this && (base != null ==> src.base != base)
      requires |src.Contents()| > 0 ==> 8 * (|Contents()| + |src.Contents()|) + GAP < TOP
      modifies this, base, src`read
      ensures Valid() && src.Valid()
      ensures Contents() == old(Contents()) + old(src.Contents()) && src.Contents() == []
    {
      hide Ring.Contents, Ring.Count, Ring.Free, Ring.Valid;
      var data := src.DataCount();
      assert src.Contents()[..data] == src.Contents();
      CopyFromRing(src, data);
    }

    /** Appends count copies of a value. */
    method WriteValue(value: Byte, count: nat)
      requires Valid() && (count > 0 ==> 8 * (|Contents()| + count) + GAP < TOP)
      modifies this, base
      ensures Valid() && Contents() == old(Contents()) + Repeat(value, count)
      ensures base == old(base) || fresh(base)
      ensures old(Sizes()) && size == Sized(old(size), |old(Contents())|, count)
      ensures size == old(size) ==> Now() == old(Now()).Append(Repeat(value, count))
    {
      hide Ring.Contents, Ring.Count, Ring.Free, Ring.Valid, Ring.Append;
      Shape(Now());
      AppendNothing(Now());
      if count == 0 {
        assert Repeat(value, 0) == [];
        return;
      }
      DynamicChange(count);
      Shape(Now());
      AppendAppends(Now(), Repeat(value, count));
      var space := FreeSpace();
      if base == null || size == 0 || count > space {
        return;
      }
      WriteValueImpl(value, count);
    }

    /** The part of the above that writes. */
    method WriteValueImpl(value: Byte, count: nat)
      requires Valid() && base != null && 0 < count <= Now().Free()
      modifies this`write, base
      ensures Now() == old(Now()).Append(Repeat(value, count))
    {
      hide Ring.Contents, Ring.Count, Ring.Free, Ring.Valid, Ring.Append, Splice, Repeat;
      Shape(Now());
      AppendCopies(Now(), Repeat(value, count));
      if read <= write {
        var w2e := size - write;
        if count <= w2e {
          FillBytes(base, write, value, count);
          write := write + count;
          if write == size {
            write := 0;
          }
        } else {
          FillParts(value, w2e, count);
          FillBytes(base, write, value, w2e);
          FillBytes(base, 0, value, count - w2e);
          write := count - w2e;
        }
      } else {
        FillBytes(base, write, value, count);
        write := write + count;
      }
    }

    method WriteZero(count: nat)
      requires Valid() && (count > 0 ==> 8 * (|Contents()| + count) + GAP < TOP)
      modifies this, base
      ensures Valid() && Contents() == old(Contents()) + Repeat(0, count)
    {
      hide Ring.Contents, Ring.Valid;
      if count == 0 {
        return;
      }
      WriteValue(0, count);
    }

    /** Puts count copies of a value in front of the data. */
    method Compensate(value: Byte, count: nat)
      requires Valid() && (count > 0 ==> 8 * (|Contents()| + count) + GAP < TOP)
      modifies this, base
      ensures Valid() && Contents() == Repeat(value, count) + old(Contents())
      ensures base == old(base) || fresh(base)
      ensures old(Sizes()) && size == Sized(old(size), |old(Contents())|, count)
      ensures count == 0 ==> Now() == old(Now())
    {
      hide Ring.Contents, Ring.Count, Ring.Free, Ring.Valid, Ring.Prepend;
      Shape(Now());
      if count == 0 {
        return;
      }
      DynamicChange(count);
      PrependPrepends(Now(), Repeat(value, count));
      CompensateImpl(value, count);
    }

    /** One step of a user of the ring, and what a read hands out. */
    method Perform(op: Op, ghost t: Tape) returns (out: seq<Byte>)
      requires Valid() && Tracks(Now(), t) && Allowed(t, op)
      modifies this, base
      ensures Valid() && Tracks(Now(), After(t, op)) && out == Out(t, op)
      ensures base == old(base) || fresh(base)
    {
      hide Ring.Contents, Ring.Count, Ring.Free, Ring.Valid, Ring.Advance, Ring.Retreat, Ring.Append, Tracks, Fit;
      TrackedContents(Now(), t);
      AfterRest(t, op);
      out := [];
      match op
      case Write(bytes) =>
        TracksAppend(Now(), t, bytes);
        CopyFromLinear(bytes);
        TracksFresh(Now(), t, op);
      case Fill(value, count) =>
        TracksAppend(Now(), t, Repeat(value, count));
        WriteValue(value, count);
        TracksFresh(Now(), t, op);
      case Compensate(value, count) =>
        if count == 0 {
          TracksNothing(Now(), t, op);
        }
        Compensate(value, count);
        TracksFresh(Now(), t, op);
      case Read(count) =>
        TracksAdvance(Now(), t, count);
        out := CopyToLinear(count);
      case Drop(count) =>
        TracksAdvance(Now(), t, count);
        DropData(count);
      case Rollback(count) =>
        TracksRetreat(Now(), t, count);
        Rollback(count);
    }

    /** A whole run: the ring holds what lies on the tape from the cursor on, and every read
        has handed out what lay there; so if nothing is compensated, dropped or rolled back,
        what was there and was written is what the reads have handed out and what is left. */
    method PerformAll(ops: seq<Op>) returns (outs: seq<seq<Byte>>)
      requires Valid() && AllAllowed(Begin(), ops)
      modifies this, base
      ensures Valid() && Contents() == Final(old(Begin()), ops).Rest()
      ensures outs == Outs(old(Begin()), ops)
      ensures (forall i :: 0 <= i < |ops| ==> ops[i].Write? || ops[i].Fill? || ops[i].Read?) ==>
                Flat(outs) + Contents() == old(Contents()) + Brought(ops)
    {
      hide Ring.Contents, Ring.Count, Ring.Free, Ring.Valid, Ring.Retreat, Tracks, After, Out, Brought, Flat, In;
      ghost var start := Begin();
      ghost var t := start;
      Untracked(Now(), t);
      outs := [];
      for i := 0 to |ops|
        invariant Valid() && t.Valid() && Tracks(Now(), t) && AllAllowed(t, ops[i..])
        invariant base == old(base) || fresh(base)
        invariant Final(t, ops[i..]) == Final(start, ops) && outs + Outs(t, ops[i..]) == Outs(start, ops)
      {
        assert ops[i..][1..] == ops[i + 1..];
        var out := Perform(ops[i], t);
        assert outs + Outs(t, ops[i..]) == outs + [out] + Outs(After(t, ops[i]), ops[i + 1..]);
        outs := outs + [out];
        t := After(t, ops[i]);
      }
      TrackedContents(Now(), t);
      RunConserves(old(Contents()), old(size), ops);
    }
  }

  // ---------------------------------------------------------------- the queue over whole runs

  datatype Op =
    | Write(bytes: seq<Byte>) | Fill(value: Byte, count: nat) | Compensate(value: Byte, count: nat)
    | Read(count: nat) | Drop(count: nat) | Rollback(count: nat)

  /** All bytes that ever were in the ring, in order, with a cursor before the one to be read
      next; the last `back` ones before it can be rolled back.  size is that of the memory. */
  datatype Tape = Tape(s: seq<Byte>, c: nat, back: nat, size: nat) {
    ghost predicate Valid() {
      && back <= c <= |s|
      && (if size == 0 then c == |s| && back == 0 else size > GAP && |s| - c + back + GAP <= size)
    }

    function Rest(): seq<Byte>
      requires c <= |s|
    {
      s[c..]
    }

    /** The bytes that may still be written. */
    function Free(): nat
      requires Valid()
    {
      if size == 0 then 0 else size - GAP - (|s| - c)
    }

    /** The size after w bytes more have been asked for. */
    function Size(w: nat): nat
      requires Valid()
    {
      Sized(size, |s| - c, w)
    }

    /** What can be rolled back after they have been appended: nothing in a new memory, else what
        they have left of it. */
    function Kept(w: nat): nat
      requires Valid()
    {
      if Size(w) != size then 0
      else if back + w <= Free() then back
      else if w <= Free() then Free() - w
      else 0
    }
  }

  function Start(q: seq<Byte>, size: nat): (t: Tape)
    requires if size == 0 then |q| == 0 else size > GAP && |q| + GAP <= size
    ensures t.Valid() && t.Rest() == q
  {
    Tape(q, 0, 0, size)
  }

  lemma SizedFits(size: nat, d: nat, w: nat)
    requires if size == 0 then d == 0 else size > GAP && d + GAP <= size
    ensures if Sized(size, d, w) == 0 then d == 0 && w == 0 else Sized(size, d, w) > GAP && d + w + GAP <= Sized(size, d, w)
  {
    if w > 0 && size > 0 {
      FitMeetsNeed(size, d, w);
    }
  }

  /** The tape with so many bytes more behind the cursor. */
  function Longer(t: Tape, s: seq<Byte>, w: nat, back: nat): (r: Tape)
    requires t.Valid() && |s| == |t.s| + w && back <= t.Kept(w)
    ensures r.Valid()
  {
    SizedFits(t.size, |t.s| - t.c, w);
    Tape(s, t.c, back, t.Size(w))
  }

  /** What a step does to the tape: writing goes to the end, compensating to the cursor, and
      reading, dropping and rolling back move the cursor alone, unless refused. */
  function After(t: Tape, op: Op): (r: Tape)
    requires t.Valid() && (op.Rollback? ==> op.count <= t.back || op.count > t.Free())
    ensures r.Valid()
  {
    match op
    case Write(bytes) => Longer(t, t.s + bytes, |bytes|, t.Kept(|bytes|))
    case Fill(value, count) => Longer(t, t.s + Repeat(value, count), count, t.Kept(count))
    case Compensate(value, count) =>
      Longer(t, t.s[..t.c] + Repeat(value, count) + t.s[t.c..], count, if count == 0 then t.back else 0)
    case Rollback(count) => if count <= t.back then t.(c := t.c - count, back := t.back - count) else t
    case _ =>
      if op.count <= |t.s| - t.c then t.(c := t.c + op.count, back := t.back + op.count) else t
  }

  /** The bytes a step hands out. */
  function Out(t: Tape, op: Op): seq<Byte>
    requires t.Valid()
  {
    if op.Read? && op.count <= |t.s| - t.c then t.s[t.c..t.c + op.count] else []
  }

  /** How many bytes a step brings in. */
  function Width(op: Op): nat {
    match op
    case Write(bytes) => |bytes|
    case Fill(_, count) => count
    case Compensate(_, count) => count
    case _ => 0
  }

  /** The sizes stay within 32 bits, and a roll-back steps over bytes that are still in the memory,
      or is refused. */
  ghost predicate Allowed(t: Tape, op: Op)
    requires t.Valid()
  {
    && (op.Rollback? ==> op.count <= t.back || op.count > t.Free())
    && (Width(op) > 0 ==> 8 * (|t.s| - t.c + Width(op)) + GAP < TOP)
  }

  ghost predicate AllAllowed(t: Tape, ops: seq<Op>)
    requires t.Valid()
    decreases |ops|
  {
    ops == [] || (Allowed(t, ops[0]) && AllAllowed(After(t, ops[0]), ops[1..]))
  }

  ghost function Final(t: Tape, ops: seq<Op>): (r: Tape)
    requires t.Valid() && AllAllowed(t, ops)
    ensures r.Valid()
    decreases |ops|
  {
    if ops == [] then t else Final(After(t, ops[0]), ops[1..])
  }

  ghost function Outs(t: Tape, ops: seq<Op>): seq<seq<Byte>>
    requires t.Valid() && AllAllowed(t, ops)
    decreases |ops|
  {
    if ops == [] then [] else [Out(t, ops[0])] + Outs(After(t, ops[0]), ops[1..])
  }

  // The ring follows the tape.

  /** The ring holds the rest of the tape, and before it in memory what may be rolled back. */
  ghost predicate Tracks(r: Ring, t: Tape) {
    && r.Valid() && t.Valid() && r.Contents() == t.Rest() && r.Size() == t.size
    && t.back <= r.Free() && r.Retreat(t.back).Valid() && r.Retreat(t.back).Contents() == t.s[t.c - t.back..]
  }

  lemma TrackedContents(r: Ring, t: Tape)
    requires Tracks(r, t)
    ensures r.Valid() && t.Valid() && r.Contents() == t.Rest() && r.Size() == t.size && r.Free() == t.Free()
  {
    hide Ring.Contents, Ring.Count, Ring.Free;
    Shape(r);
  }

  /** What a step leaves of the tape behind the cursor. */
  lemma AfterRest(t: Tape, op: Op)
    requires t.Valid() && Allowed(t, op)
    ensures match op
            case Write(bytes) => After(t, op).Rest() == t.Rest() + bytes
            case Fill(value, count) => After(t, op).Rest() == t.Rest() + Repeat(value, count)
            case Compensate(value, count) => After(t, op).Rest() == Repeat(value, count) + t.Rest()
            case Read(count) => count <= |t.Rest()| ==> Out(t, op) == t.Rest()[..count]
            case _ => true
  {
    hide Repeat;
  }

  /** Nothing to roll back: only the contents count. */
  lemma Untracked(r: Ring, t: Tape)
    requires r.Valid() && t.Valid() && t.back == 0 && r.Contents() == t.Rest() && r.Size() == t.size
    ensures Tracks(r, t)
  {
    hide Ring.Contents;
    assert r.Retreat(0) == r;
  }

  /** Stepping back over more than was stepped forward. */
  lemma RetreatAdvanced(r: Ring, j: nat, k: nat)
    requires r.Valid() && j <= r.Count() && k <= r.Free()
    ensures r.Advance(j).Valid() && (r.buf != [] ==> j + k <= r.Advance(j).Free())
    ensures r.buf != [] ==> r.Advance(j).Retreat(j + k) == r.Retreat(k)
  {
  }

  /** Stepping back in two parts. */
  lemma RetreatTwice(r: Ring, j: nat, k: nat)
    requires r.Valid() && j + k <= r.Free()
    ensures r.Retreat(j).Valid() && k <= r.Retreat(j).Free()
    ensures r.Retreat(j).Retreat(k) == r.Retreat(j + k)
    ensures k <= r.Retreat(j + k).Count() && r.Retreat(j + k).Valid() && r.Retreat(j + k).Advance(k) == r.Retreat(j)
  {
  }

  /** Bytes appended in the same memory. */
  lemma TracksAppend(r: Ring, t: Tape, bytes: seq<Byte>)
    requires Tracks(r, t)
    ensures t.Size(|bytes|) == t.size ==>
              |bytes| <= r.Free() && Tracks(r.Append(bytes), Tape(t.s + bytes, t.c, t.Kept(|bytes|), t.size))
  {
    hide Ring.Contents, Ring.Count, Ring.Free, Ring.Valid, Ring.Advance, Ring.Retreat, Ring.Append, Fit;
    TrackedContents(r, t);
    SizedFits(t.size, |t.s| - t.c, |bytes|);
    if t.Size(|bytes|) == t.size {
      var k := t.Kept(|bytes|);
      KeptBack(r, t, k);
      AppendBehind(r, bytes, k);
      AppendAppends(r, bytes);
      AppendAppends(r.Retreat(k), bytes);
      assert (t.s + bytes)[t.c..] == t.s[t.c..] + bytes;
      assert (t.s + bytes)[t.c - k..] == t.s[t.c - k..] + bytes;
    }
  }

  /** The last of the bytes that can be rolled back. */
  lemma KeptBack(r: Ring, t: Tape, k: nat)
    requires Tracks(r, t) && k <= t.back
    ensures k <= r.Free() && r.Retreat(k).Valid() && r.Retreat(k).Contents() == t.s[t.c - k..]
  {
    hide Ring.Contents, Ring.Count, Ring.Free, Ring.Valid, Ring.Advance, Ring.Retreat;
    RetreatTwice(r, k, t.back - k);
    AdvanceDrops(r.Retreat(t.back), t.back - k);
  }

  /** Bytes brought into a new memory, or in front of the data: nothing can be rolled back. */
  lemma TracksFresh(r: Ring, t: Tape, op: Op)
    requires t.Valid() && Allowed(t, op) && r.Valid() && r.Contents() == After(t, op).Rest() && r.Size() == After(t, op).size
    ensures After(t, op).back == 0 ==> Tracks(r, After(t, op))
  {
    hide Ring.Contents;
    if After(t, op).back == 0 {
      Untracked(r, After(t, op));
    }
  }

  lemma TracksNothing(r: Ring, t: Tape, op: Op)
    requires Tracks(r, t) && op.Compensate? && op.count == 0
    ensures After(t, op) == t
  {
    assert t.s[..t.c] + Repeat(op.value, 0) + t.s[t.c..] == t.s;
  }

  lemma TracksAdvance(r: Ring, t: Tape, n: nat)
    requires Tracks(r, t)
    ensures n <= |r.Contents()| ==> Tracks(r.Advance(n), After(t, Read(n)))
    ensures After(t, Drop(n)) == After(t, Read(n)) && (n > |r.Contents()| ==> After(t, Read(n)) == t)
  {
    hide Ring.Contents, Ring.Count, Ring.Free, Ring.Valid, Ring.Advance, Ring.Retreat;
    Shape(r);
    if n <= r.Count() {
      AdvanceDrops(r, n);
      AdvanceSize(r, n);
      RetreatAdvanced(r, n, t.back);
      if r.buf == [] {
        Untracked(r.Advance(n), After(t, Read(n)));
      }
    }
  }

  lemma TracksRetreat(r: Ring, t: Tape, n: nat)
    requires Tracks(r, t) && (n <= t.back || n > t.Free())
    ensures n <= t.back ==> n <= r.Free() && Tracks(r.Retreat(n), After(t, Rollback(n)))
    ensures n > t.back ==> n > r.Free() && After(t, Rollback(n)) == t
  {
    hide Ring.Contents, Ring.Count, Ring.Free, Ring.Valid, Ring.Advance, Ring.Retreat;
    TrackedContents(r, t);
    if n <= t.back {
      RetreatTwice(r, n, t.back - n);
      RetreatSize(r, n);
      KeptBack(r, t, n);
      KeptBack(r, t, t.back);
    }
  }

  lemma AdvanceSize(r: Ring, k: nat)
    requires r.Valid() && k <= r.Count()
    ensures r.Advance(k).Size() == r.Size() && (r.buf == [] ==> r.Advance(k) == r)
  {
  }

  lemma RetreatSize(r: Ring, k: nat)
    requires r.Valid() && k <= r.Free()
    ensures r.Retreat(k).Size() == r.Size()
  {
  }

  // What the tape says of a run.

  /** The bytes brought in by a run. */
  function Brought(ops: seq<Op>): seq<Byte> {
    if ops == [] then [] else In(ops[0]) + Brought(ops[1..])
  }

  function In(op: Op): seq<Byte> {
    match op
    case Write(bytes) => bytes
    case Fill(value, count) => Repeat(value, count)
    case Compensate(value, count) => Repeat(value, count)
    case _ => []
  }

  /** All bytes handed out. */
  function Flat(outs: seq<seq<Byte>>): seq<Byte> {
    if outs == [] then [] else outs[0] + Flat(outs[1..])
  }

  lemma StepConserves(t: Tape, op: Op)
    requires t.Valid() && Allowed(t, op)
    ensures multiset(After(t, op).s) == multiset(t.s) + multiset(In(op))
    ensures !op.Compensate? ==> After(t, op).s == t.s + In(op)
    ensures op.Write? || op.Fill? || op.Read? ==>
              After(t, op).s[..After(t, op).c] == t.s[..t.c] + Out(t, op)
  {
    hide Repeat;
    if op.Compensate? {
      assert t.s == t.s[..t.c] + t.s[t.c..];
    }
  }

  /** No byte is lost or doubled over a run. */
  lemma {:induction false} RunKeepsBytes(t: Tape, ops: seq<Op>)
    requires t.Valid() && AllAllowed(t, ops)
    ensures multiset(Final(t, ops).s) == multiset(t.s) + multiset(Brought(ops))
    decreases |ops|
  {
    hide After, In;
    if ops != [] {
      RunKeepsBytes(After(t, ops[0]), ops[1..]);
      StepConserves(t, ops[0]);
    }
  }

  /** Nor reordered, unless by a compensation. */
  lemma {:induction false} RunKeepsOrder(t: Tape, ops: seq<Op>)
    requires t.Valid() && AllAllowed(t, ops) && forall i :: 0 <= i < |ops| ==> !ops[i].Compensate?
    ensures Final(t, ops).s == t.s + Brought(ops)
    decreases |ops|
  {
    hide After, In;
    if ops == [] {
      assert t.s + [] == t.s;
    } else {
      RunKeepsOrder(After(t, ops[0]), ops[1..]);
      StepConserves(t, ops[0]);
      assert t.s + In(ops[0]) + Brought(ops[1..]) == t.s + Brought(ops);
    }
  }

  /** Without dropping and rolling back, what lies before the cursor is what was handed out. */
  lemma {:induction false} RunHandsOut(t: Tape, ops: seq<Op>)
    requires t.Valid() && AllAllowed(t, ops)
    requires forall i :: 0 <= i < |ops| ==> ops[i].Write? || ops[i].Fill? || ops[i].Read?
    ensures var f := Final(t, ops);
            f.s[..f.c] == t.s[..t.c] + Flat(Outs(t, ops))
    decreases |ops|
  {
    hide After, Out;
    if ops == [] {
      assert t.s[..t.c] + [] == t.s[..t.c];
    } else {
      var u, o := After(t, ops[0]), Out(t, ops[0]);
      RunHandsOut(u, ops[1..]);
      StepConserves(t, ops[0]);
      assert ([o] + Outs(u, ops[1..]))[1..] == Outs(u, ops[1..]);
      assert t.s[..t.c] + o + Flat(Outs(u, ops[1..])) == t.s[..t.c] + (o + Flat(Outs(u, ops[1..])));
    }
  }

  /** Over any run of a ring that holds q no byte is lost or doubled; without compensation the
      tape is q and what was written, in order, however often it is rolled back; and if nothing
      is dropped or rolled back either, what was read and what is left is q and what was
      written. */
  lemma RunConserves(q: seq<Byte>, size: nat, ops: seq<Op>)
    requires if size == 0 then |q| == 0 else size > GAP && |q| + GAP <= size
    requires AllAllowed(Start(q, size), ops)
    ensures var f := Final(Start(q, size), ops);
      && multiset(f.s) == multiset(q) + multiset(Brought(ops))
      && ((forall i :: 0 <= i < |ops| ==> !ops[i].Compensate?) ==> f.s == q + Brought(ops))
      && ((forall i :: 0 <= i < |ops| ==> ops[i].Write? || ops[i].Fill? || ops[i].Read?) ==>
            Flat(Outs(Start(q, size), ops)) + f.Rest() == q + Brought(ops))
  {
    hide Final, Outs, Brought, AllAllowed;
    var f := Final(Start(q, size), ops);
    RunKeepsBytes(Start(q, size), ops);
    if forall i :: 0 <= i < |ops| ==> !ops[i].Compensate? {
      RunKeepsOrder(Start(q, size), ops);
    }
    if forall i :: 0 <= i < |ops| ==> ops[i].Write? || ops[i].Fill? || ops[i].Read? {
      RunHandsOut(Start(q, size), ops);
      assert f.s == f.s[..f.c] + f.Rest();
      assert q[..0] == [];
    }
  }
}
