/** The shared-memory region between two processors, drivers/audio/framework/audio_ipi_dma.c.

    One side writes messages and tells the other the index at which each begins; the other
    reads them there.  What a message takes is padded to whole cache lines, its bytes are
    not.  The code splits a transfer at the end of the memory by the padded length but copies
    the real one, which is sound only because sizes and indices are whole cache lines. */
module IpiRegion {
  import opened Circular

  const ALIGN: nat := 128
  const GAP: nat := 16
  const WORD: nat := 0x1_0000_0000   // 2^32

  /** A length rounded up to whole cache lines, in 32 bits. */
  function Pad(count: nat): (p: nat)
    ensures p % ALIGN == 0
  {
    (count + (ALIGN - 1)) % WORD / ALIGN * ALIGN
  }

  /** The rounding wraps exactly for the last lengths that 32 bits can hold. */
  lemma PadCovers(count: nat)
    requires count < WORD
    ensures Pad(count) >= count <==> count <= 0xFFFF_FF80
    ensures count <= 0xFFFF_FF80 ==> Pad(count) < count + 128 && Pad(count) % 128 == 0
  {
  }

  /** A transfer that is split because its padded length passes the end has real bytes beyond
      the end, for every length, exactly when the end is a whole number of lines away. */
  lemma SplitsWhenAligned(end: nat)
    requires end < WORD - ALIGN
    ensures end % ALIGN == 0
       <==> (forall count: nat :: count <= WORD - ALIGN && Pad(count) > end ==> count > end)
  {
    if end % ALIGN == 0 {
      forall count: nat | count <= WORD - ALIGN && Pad(count) > end
        ensures count > end
      {
        LinesApart(Pad(count), end);
        PadCovers(count);
      }
    } else {
      assert Pad(end) > end by { PadCovers(end); }
    }
  }

  /** Two different multiples of the line size are a line apart. */
  lemma LinesApart(a: nat, b: nat)
    requires a % ALIGN == 0 && b % ALIGN == 0
    ensures a > b <==> a >= b + ALIGN
  {
  }

  /** An index taken into a memory of n bytes. */
  function Wrap(x: nat, n: nat): (y: nat)
    requires n > 0
    ensures y < n && (x < n ==> y == x)
  {
    x % n
  }

  /** Whole turns are taken off. */
  lemma WrapTurns(x: nat, n: nat)
    requires n > 0
    ensures exists k: nat :: x == Wrap(x, n) + k * n
  {
    var k := x / n;
    assert x == Wrap(x, n) + k * n;
  }

  datatype Status = Ok | Enodev | Eoverflow | Enomem | Enodata

  datatype Region = Region(mem: seq<Byte>, read: nat, write: nat) {

    function Size(): nat { |mem| }

    predicate InRange() { read < Size() && write < Size() }

    /** Both indices taken into the memory, as every operation does first. */
    function Normal(): (r: Region)
      requires Size() > 0
      ensures r.InRange() && r.mem == mem
    {
      Region(mem, Wrap(read, Size()), Wrap(write, Size()))
    }

    ghost predicate Aligned() {
      Size() % ALIGN == 0 && read % ALIGN == 0 && write % ALIGN == 0
    }

    ghost predicate Sound() { InRange() && Aligned() }

    function Count(): nat
      requires InRange()
    {
      if write >= read then write - read else Size() - (read - write)
    }

    function Free(): nat
      requires InRange()
    {
      if Size() - Count() >= GAP then Size() - Count() - GAP else 0
    }

    /** With a message stored at the write index. */
    function Stored(bytes: seq<Byte>): Region
      requires InRange() && |bytes| <= Pad(|bytes|) <= Size()
    {
      Region(Circular.Stored(mem, write, bytes), read, At(Size(), write, Pad(|bytes|)))
    }

    /** With the lines of so many bytes behind. */
    function Past(count: nat): Region
      requires InRange() && Pad(count) <= Size()
    {
      this.(read := At(Size(), read, Pad(count)))
    }
  }

  // ---------------------------------------------------------------- what the calls do

  function Write(r: Region, bytes: seq<Byte>): (Status, Region)
    requires |bytes| <= WORD - ALIGN
  {
    if r.Size() == 0 then (Enodev, r)
    else if r.Normal().Free() < Pad(|bytes|) then (Eoverflow, r.Normal())
    else
      PadCovers(|bytes|);
      (Ok, r.Normal().Stored(bytes))
  }

  function Read(r: Region, count: nat): (Status, seq<Byte>, Region)
    requires count <= WORD - ALIGN
  {
    if r.Size() == 0 then (Enodev, [], r)
    else if Pad(count) > r.Normal().Count() then (Enomem, [], r.Normal())
    else
      PadCovers(count);
      (Ok, Window(r.mem, r.Normal().read, count), r.Normal().Past(count))
  }

  function Drop(r: Region, count: nat): (Status, Region)
    requires count <= WORD - ALIGN
  {
    (Read(r, count).0, Read(r, count).2)
  }

  // ---------------------------------------------------------------- alignment is kept

  /** Taking indices into the memory keeps them whole lines. */
  lemma NormalAligned(r: Region)
    requires r.Aligned() && r.Size() > 0
    ensures r.Normal().Sound() && (r.InRange() ==> r.Normal() == r)
  {
    hide Wrap;
    WrapAligned(r.read, r.Size());
    WrapAligned(r.write, r.Size());
  }

  lemma WrapAligned(x: nat, n: nat)
    requires n > 0 && x % ALIGN == 0 && n % ALIGN == 0
    ensures Wrap(x, n) % ALIGN == 0
  {
    var a, b := n / ALIGN, x / n;
    assert x % n == x - b * n;
    assert b * n == (b * a) * ALIGN by { assert n == a * ALIGN; }
  }

  /** Every write, accepted or not, keeps sizes and indices whole lines; an accepted message
      leaves at least one line free, so that indices never become equal by a write. */
  lemma WriteKeeps(r: Region, bytes: seq<Byte>)
    requires r.Aligned() && r.Size() > 0 && |bytes| <= WORD - ALIGN
    ensures var (s, t) := Write(r, bytes);
      && t.Sound() && t.Size() == r.Size()
      && (s == Ok <==> r.Normal().Count() + Pad(|bytes|) + ALIGN <= r.Size())
      && (s == Ok ==> t.Count() == r.Normal().Count() + Pad(|bytes|))
      && (s != Ok ==> s == Eoverflow && t == r.Normal())
      && (s == Ok && bytes != [] ==> t.read != t.write)
  {
    hide Circular.Stored, Pad, Region.Normal, Region.Free, Region.Count, Region.Aligned, Region.Stored;
    var n := r.Normal();
    NormalAligned(r);
    PadCovers(|bytes|);
    RoomInLines(n, Pad(|bytes|));
    if Pad(|bytes|) <= n.Free() {
      StoredSound(n, bytes);
    }
  }

  /** A padded length fits beside the gap when it fits beside a whole free line. */
  lemma RoomInLines(r: Region, p: nat)
    requires r.Sound() && p % ALIGN == 0
    ensures p <= r.Free() <==> r.Count() + p + ALIGN <= r.Size()
  {
    LinesApart(r.Size(), r.Count());
    LinesApart(r.Size(), r.Count() + p);
  }

  lemma StoredSound(r: Region, bytes: seq<Byte>)
    requires r.Sound() && |bytes| <= Pad(|bytes|) && r.Count() + Pad(|bytes|) + ALIGN <= r.Size()
    ensures var t := r.Stored(bytes);
      && t.Sound() && t.Size() == r.Size() && t.Count() == r.Count() + Pad(|bytes|)
      && (bytes != [] ==> t.read != t.write)
  {
    hide Circular.Stored, Pad, Region.Aligned;
    assert r.Stored(bytes).Aligned() by { StoredAligned(r, bytes); }
  }

  lemma StoredAligned(r: Region, bytes: seq<Byte>)
    requires r.Sound() && |bytes| <= Pad(|bytes|) <= r.Size()
    ensures r.Stored(bytes).Aligned()
  {
    hide Circular.Stored, Pad, At;
    AtAligned(r.Size(), r.write, Pad(|bytes|));
  }

  lemma AtAligned(n: nat, i: nat, k: nat)
    requires i < n && k <= n && n % ALIGN == 0 && i % ALIGN == 0 && k % ALIGN == 0
    ensures At(n, i, k) % ALIGN == 0
  {
    var a, b, c := n / ALIGN, i / ALIGN, k / ALIGN;
    if i + k < n {
      WholeLines(b + c);
    } else {
      WholeLines(b + c - a);
    }
  }

  lemma WholeLines(q: int)
    ensures q * ALIGN % ALIGN == 0
  {
  }

  /** Every read or drop keeps them as well, and takes the lines of its bytes. */
  lemma ReadKeeps(r: Region, count: nat)
    requires r.Aligned() && r.Size() > 0 && count <= WORD - ALIGN
    ensures var (s, out, t) := Read(r, count);
      && t.Sound() && t.mem == r.mem
      && (s == Ok <==> Pad(count) <= r.Normal().Count())
      && (s == Ok ==> t.Count() == r.Normal().Count() - Pad(count) && |out| == count)
      && (s != Ok ==> s == Enomem && out == [] && t == r.Normal())
  {
    hide Window, Pad, Region.Normal, Region.Count, Region.Aligned, Region.Past;
    NormalAligned(r);
    PadCovers(count);
    if Pad(count) <= r.Normal().Count() {
      PastSound(r.Normal(), count);
    }
  }

  lemma PastSound(r: Region, count: nat)
    requires r.Sound() && Pad(count) <= r.Count()
    ensures r.Count() < r.Size() && r.Past(count).Sound() && r.Past(count).mem == r.mem
    ensures r.Past(count).Count() == r.Count() - Pad(count)
  {
    hide Pad;
  }

  // ---------------------------------------------------------------- messages arrive

  /** A message on its way: its bytes and the index that its write reported. */
  datatype Message = Message(idx: nat, bytes: seq<Byte>)

  ghost predicate Sendable(bytes: seq<Byte>) { 0 < |bytes| <= WORD - ALIGN }

  /** From a position on, the memory holds these messages one after another, and they use so
      many bytes of it. */
  ghost predicate Queued(mem: seq<Byte>, at: nat, used: nat, q: seq<Message>)
    requires at < |mem| && used <= |mem|
    decreases q
  {
    if q == [] then used == 0
    else
      var head := q[0];
      && head.idx == at && Sendable(head.bytes) && |head.bytes| <= Pad(|head.bytes|) <= used
      && Window(mem, at, |head.bytes|) == head.bytes
      && Queued(mem, At(|mem|, at, Pad(|head.bytes|)), used - Pad(|head.bytes|), q[1..])
  }

  /** Storing a message behind the others queues it and leaves them as they are. */
  lemma {:induction false} QueuedPush(mem: seq<Byte>, at: nat, used: nat, q: seq<Message>, bytes: seq<Byte>)
    requires at < |mem| && Sendable(bytes) && |bytes| <= Pad(|bytes|) && used + Pad(|bytes|) <= |mem|
    requires Queued(mem, at, used, q)
    ensures var end := At(|mem|, at, used);
      Queued(Circular.Stored(mem, end, bytes), at, used + Pad(|bytes|), q + [Message(end, bytes)])
    decreases q
  {
    hide Circular.Stored, Window, Pad;
    var end := At(|mem|, at, used);
    var mem' := Circular.Stored(mem, end, bytes);
    if q == [] {
      WindowStored(mem, end, bytes);
      assert (q + [Message(end, bytes)])[1..] == [];
    } else {
      var head := q[0];
      var p := Pad(|head.bytes|);
      WindowApart(mem, at, |head.bytes|, used, bytes);
      AtTwice(|mem|, at, p, used - p);
      QueuedPush(mem, At(|mem|, at, p), used - p, q[1..], bytes);
      assert (q + [Message(end, bytes)])[1..] == q[1..] + [Message(end, bytes)];
    }
  }

  /** The two ends and what is between them: messages written and not yet taken, those sent
      so far, and what became of those taken. */
  datatype Link = Link(region: Region, pending: seq<Message>, sent: seq<seq<Byte>>, taken: seq<Outcome>)

  datatype Outcome = Got(bytes: seq<Byte>) | Dropped | Failed(status: Status)

  datatype Op = Send(bytes: seq<Byte>) | Receive | Discard

  /** The writer sends when there is room; the reader takes or drops the oldest message, with
      the index and the length that it was told. */
  function Step(l: Link, op: Op): Link
    requires op.Send? ==> |op.bytes| <= WORD - ALIGN
    requires forall m :: m in l.pending ==> |m.bytes| <= WORD - ALIGN
  {
    match op
    case Send(bytes) =>
      if bytes == [] then l
      else
        var (s, r) := Write(l.region, bytes);
        if s == Ok then Link(r, l.pending + [Message(l.region.write, bytes)], l.sent + [bytes], l.taken)
        else l.(region := r)
    case Receive =>
      if l.pending == [] then l
      else
        var m := l.pending[0];
        var (s, out, r) := Read(l.region.(read := m.idx), |m.bytes|);
        Link(r, l.pending[1..], l.sent, l.taken + [if s == Ok then Got(out) else Failed(s)])
    case Discard =>
      if l.pending == [] then l
      else
        var m := l.pending[0];
        var (s, r) := Drop(l.region.(read := m.idx), |m.bytes|);
        Link(r, l.pending[1..], l.sent, l.taken + [if s == Ok then Dropped else Failed(s)])
  }

  /** The messages sent are those taken and those pending, in order; none was refused or
      changed; and the memory holds the pending ones where their writes said. */
  ghost predicate Faithful(l: Link) {
    && l.region.Sound()
    && Queued(l.region.mem, l.region.read, l.region.Count(), l.pending)
    && (forall m :: m in l.pending ==> Sendable(m.bytes))
    && |l.sent| == |l.taken| + |l.pending|
    && (forall i :: 0 <= i < |l.taken| ==> l.taken[i] == Got(l.sent[i]) || l.taken[i] == Dropped)
    && (forall j :: 0 <= j < |l.pending| ==> l.pending[j].bytes == l.sent[|l.taken| + j])
  }

  lemma SendKeeps(l: Link, bytes: seq<Byte>)
    requires Faithful(l) && Sendable(bytes)
    ensures Faithful(Step(l, Send(bytes)))
  {
    hide Circular.Stored, Window, Pad;
    var r := l.region;
    NormalAligned(r);
    PadCovers(|bytes|);
    WriteKeeps(r, bytes);
    if Write(r, bytes).0 == Ok {
      QueuedPush(r.mem, r.read, r.Count(), l.pending, bytes);
    }
  }

  /** The head of the queue is what reading there gives; the reader is already there. */
  lemma TakeHead(l: Link)
    requires Faithful(l) && l.pending != []
    ensures var m := l.pending[0];
      && m.idx == l.region.read && |m.bytes| <= WORD - ALIGN
      && var (s, out, r) := Read(l.region, |m.bytes|);
         s == Ok && out == m.bytes && r.Sound() && Queued(r.mem, r.read, r.Count(), l.pending[1..])
  {
    hide Window, Pad;
    NormalAligned(l.region);
    ReadKeeps(l.region, |l.pending[0].bytes|);
  }

  lemma TakeKeeps(l: Link, op: Op)
    requires Faithful(l) && (op == Receive || op == Discard)
    ensures Faithful(Step(l, op))
  {
    hide Window, Pad, Queued, Read;
    if l.pending != [] {
      TakeHead(l);
      assert l.region.(read := l.pending[0].idx) == l.region;
      assert l.pending[0].bytes == l.sent[|l.taken| + 0];
    }
  }

  function Run(l: Link, ops: seq<Op>): Link
    requires Faithful(l) && forall op :: op in ops && op.Send? ==> |op.bytes| <= WORD - ALIGN
    decreases |ops|
  {
    if ops == [] then l
    else
      StepKeeps(l, ops[0]);
      Run(Step(l, ops[0]), ops[1..])
  }

  lemma StepKeeps(l: Link, op: Op)
    requires Faithful(l) && (op.Send? ==> |op.bytes| <= WORD - ALIGN)
    ensures Faithful(Step(l, op))
  {
    hide Faithful, Queued;
    match op
    case Send(bytes) =>
      if bytes != [] { SendKeeps(l, bytes); }
    case Receive => TakeKeeps(l, op);
    case Discard => TakeKeeps(l, op);
  }

  /** Over any run of sends and in-order takes, every message taken has exactly the bytes sent,
      in the order sent, and no take of a message is ever refused. */
  lemma {:induction false} RunDelivers(l: Link, ops: seq<Op>)
    requires Faithful(l) && forall op :: op in ops && op.Send? ==> |op.bytes| <= WORD - ALIGN
    ensures Faithful(Run(l, ops))
    decreases |ops|
  {
    if ops != [] {
      StepKeeps(l, ops[0]);
      RunDelivers(Step(l, ops[0]), ops[1..]);
    }
  }

  /** A region whose indices agree is a faithful link with nothing on its way. */
  lemma FreshLink(r: Region)
    requires r.Sound() && r.read == r.write
    ensures Faithful(Link(r, [], [], []))
  {
  }

  // ---------------------------------------------------------------- calls that overlap

  // Each side fetches the other's index once, at the beginning of its call, and goes by that;
  // its own index it publishes at the end.  In between the other side may go on.

  datatype Sending = NoSend | Sending(bytes: seq<Byte>, read: nat)     // the reader's index as fetched

  datatype Taking = NoTake | Taking(write: nat, keep: bool)            // the writer's index as fetched

  datatype Sides = Sides(l: Link, s: Sending, t: Taking)

  datatype Part = BeginSend(bytes: seq<Byte>) | EndSend | BeginTake(keep: bool) | EndTake

  /** What the writer publishes: what its write does with the index it has fetched, if that is
      accepted. */
  function EndOfSend(l: Link, bytes: seq<Byte>, read: nat): Link
    requires |bytes| <= WORD - ALIGN
  {
    var (s, r) := Write(l.region.(read := read), bytes);
    if s == Ok
    then Link(r.(read := l.region.read), l.pending + [Message(l.region.write, bytes)], l.sent + [bytes], l.taken)
    else l
  }

  /** What the reader publishes. */
  function EndOfTake(l: Link, write: nat, keep: bool): Link
    requires l.pending != [] && |l.pending[0].bytes| <= WORD - ALIGN
  {
    var m := l.pending[0];
    var (s, out, r) := Read(l.region.(read := m.idx, write := write), |m.bytes|);
    Link(r.(write := l.region.write), l.pending[1..], l.sent,
         l.taken + [if s != Ok then Failed(s) else if keep then Got(out) else Dropped])
  }

  /** Going on from a to b and from there to c is going on from a to c. */
  predicate InTurn(n: nat, a: nat, b: nat, c: nat) {
    a < n && b < n && c < n && Dist(n, a, b) + Dist(n, b, c) == Dist(n, a, c)
  }

  /** The indices fetched are out of date only in being behind: more seems to be queued to the
      writer than is, and less to the reader, but the message it is after is there. */
  ghost predicate Fine(b: Sides) {
    && Faithful(b.l)
    && (b.s.Sending? ==>
          && Sendable(b.s.bytes) && b.s.read % ALIGN == 0
          && InTurn(b.l.region.Size(), b.s.read, b.l.region.read, b.l.region.write))
    && (b.t.Taking? ==>
          && b.l.pending != [] && InTurn(b.l.region.Size(), b.l.region.read, b.t.write, b.l.region.write)
          && b.t.write % ALIGN == 0
          && Pad(|b.l.pending[0].bytes|) <= Dist(b.l.region.Size(), b.l.region.read, b.t.write))
  }

  function Do(b: Sides, part: Part): Sides
    requires b.s.Sending? ==> |b.s.bytes| <= WORD - ALIGN
    requires b.t.Taking? ==> b.l.pending != [] && |b.l.pending[0].bytes| <= WORD - ALIGN
  {
    match part
    case BeginSend(bytes) => if b.s.NoSend? && bytes != [] then b.(s := Sending(bytes, b.l.region.read)) else b
    case EndSend => if b.s.Sending? then Sides(EndOfSend(b.l, b.s.bytes, b.s.read), NoSend, b.t) else b
    case BeginTake(keep) => if b.t.NoTake? && b.l.pending != [] then b.(t := Taking(b.l.region.write, keep)) else b
    case EndTake => if b.t.Taking? then Sides(EndOfTake(b.l, b.t.write, b.t.keep), b.s, NoTake) else b
  }

  /** The call that a part completes: that is when it takes effect. */
  function Effect(b: Sides, part: Part): seq<Op>
    requires b.s.Sending? ==> |b.s.bytes| <= WORD - ALIGN
  {
    if part.EndSend? && b.s.Sending? then
      if Write(b.l.region.(read := b.s.read), b.s.bytes).0 == Ok then [Send(b.s.bytes)] else []
    else if part.EndTake? && b.t.Taking? then [if b.t.keep then Receive else Discard]
    else []
  }

  /** A write that fits by an index that is behind fits all the more now, and stores the same. */
  lemma EndSendIs(b: Sides)
    requires Fine(b) && b.s.Sending?
    ensures |b.s.bytes| <= WORD - ALIGN
    ensures var l := EndOfSend(b.l, b.s.bytes, b.s.read);
      if Write(b.l.region.(read := b.s.read), b.s.bytes).0 == Ok then l == Step(b.l, Send(b.s.bytes)) else l == b.l
  {
    hide Circular.Stored, Window, Pad, Queued;
    var r := b.l.region;
    var seen := r.(read := b.s.read);
    NormalAligned(r);
    NormalAligned(seen);
    WriteKeeps(r, b.s.bytes);
    WriteKeeps(seen, b.s.bytes);
  }

  /** A read by an index that is behind finds its message all the same. */
  lemma EndTakeIs(b: Sides)
    requires Fine(b) && b.t.Taking?
    ensures b.l.pending != [] && |b.l.pending[0].bytes| <= WORD - ALIGN
    ensures EndOfTake(b.l, b.t.write, b.t.keep) == Step(b.l, if b.t.keep then Receive else Discard)
  {
    hide Window, Pad, Queued;
    TakeHead(b.l);
    var r, m := b.l.region, b.l.pending[0];
    var seen := r.(write := b.t.write);
    NormalAligned(r);
    NormalAligned(seen);
    ReadKeeps(r, |m.bytes|);
    ReadKeeps(seen, |m.bytes|);
    assert r.(read := m.idx) == r;
  }

  /** The writer goes on: the reader's view falls further behind. */
  lemma WriterMoves(n: nat, read: nat, seen: nat, write: nat, p: nat)
    requires InTurn(n, read, seen, write) && Dist(n, read, write) + p < n
    ensures InTurn(n, read, seen, At(n, write, p)) && Dist(n, read, At(n, write, p)) == Dist(n, read, write) + p
  {
  }

  /** The reader goes on: so does the writer's. */
  lemma ReaderMoves(n: nat, seen: nat, read: nat, write: nat, p: nat)
    requires InTurn(n, seen, read, write) && p <= Dist(n, read, write)
    ensures InTurn(n, seen, At(n, read, p), write)
  {
  }

  lemma FetchedNow(n: nat, a: nat, c: nat)
    requires a < n && c < n
    ensures InTurn(n, a, a, c) && InTurn(n, a, c, c)
  {
  }

  /** Where a send leaves the indices. */
  lemma SentAt(l: Link, bytes: seq<Byte>)
    requires Faithful(l) && Sendable(bytes)
    ensures |bytes| <= WORD - ALIGN
    ensures var (s, r) := Write(l.region, bytes);
      && (s == Ok ==>
            && r.Size() == l.region.Size() && r.read == l.region.read
            && r.write == At(r.Size(), l.region.write, Pad(|bytes|))
            && Dist(r.Size(), r.read, l.region.write) + Pad(|bytes|) < r.Size())
      && (s != Ok ==> r == l.region)
  {
    hide Circular.Stored, Pad, Queued;
    NormalAligned(l.region);
    WriteKeeps(l.region, bytes);
  }

  lemma HeadFirst(l: Link)
    requires Faithful(l) && l.pending != []
    ensures Sendable(l.pending[0].bytes)
    ensures Pad(|l.pending[0].bytes|) <= Dist(l.region.Size(), l.region.read, l.region.write)
  {
    hide Pad, Window;
  }

  /** Where a take leaves them. */
  lemma TakenAt(l: Link)
    requires Faithful(l) && l.pending != []
    ensures var p := Pad(|l.pending[0].bytes|);
      && |l.pending[0].bytes| <= WORD - ALIGN && p <= Dist(l.region.Size(), l.region.read, l.region.write)
      && forall op :: op == Receive || op == Discard ==>
           Step(l, op).region == l.region.(read := At(l.region.Size(), l.region.read, p))
  {
    hide Pad, Window, Queued;
    HeadFirst(l);
    NormalAligned(l.region);
    TakeHead(l);
    assert l.region.(read := l.pending[0].idx) == l.region;
  }

  lemma BeginKeeps(b: Sides, part: Part)
    requires Fine(b) && (part.BeginSend? || part.BeginTake?) && (part.BeginSend? ==> |part.bytes| <= WORD - ALIGN)
    ensures Fine(Do(b, part))
  {
    hide Queued, Pad;
    var r := b.l.region;
    FetchedNow(r.Size(), r.read, r.write);
    if b.l.pending != [] {
      HeadFirst(b.l);
    }
  }

  lemma EndSendKeeps(b: Sides)
    requires Fine(b) && b.s.Sending?
    ensures Fine(Do(b, EndSend))
  {
    hide Queued, Pad, Faithful, Write;
    EndSendIs(b);
    SentAt(b.l, b.s.bytes);
    SendKeeps(b.l, b.s.bytes);
    if b.t.Taking? && Write(b.l.region, b.s.bytes).0 == Ok {
      WriterMoves(b.l.region.Size(), b.l.region.read, b.t.write, b.l.region.write, Pad(|b.s.bytes|));
    }
  }

  lemma EndTakeKeeps(b: Sides)
    requires Fine(b) && b.t.Taking?
    ensures Fine(Do(b, EndTake))
  {
    hide Queued, Pad, Faithful, Step;
    EndTakeIs(b);
    TakenAt(b.l);
    TakeKeeps(b.l, if b.t.keep then Receive else Discard);
    if b.s.Sending? {
      ReaderMoves(b.l.region.Size(), b.s.read, b.l.region.read, b.l.region.write, Pad(|b.l.pending[0].bytes|));
    }
  }

  /** Every part keeps that, and what it completes is the whole call, made at that moment. */
  lemma DoKeeps(b: Sides, part: Part)
    requires Fine(b) && (part.BeginSend? ==> |part.bytes| <= WORD - ALIGN)
    ensures b.s.Sending? ==> |b.s.bytes| <= WORD - ALIGN
    ensures b.t.Taking? ==> b.l.pending != [] && |b.l.pending[0].bytes| <= WORD - ALIGN
    ensures Fine(Do(b, part))
    ensures var ops := Effect(b, part);
      |ops| <= 1 && Do(b, part).l == if ops == [] then b.l else Step(b.l, ops[0])
    ensures forall op :: op in Effect(b, part) && op.Send? ==> |op.bytes| <= WORD - ALIGN
  {
    hide Queued, Pad, Step, Write, EndOfSend, EndOfTake;
    if part.EndSend? && b.s.Sending? {
      EndSendIs(b);
      EndSendKeeps(b);
    } else if part.EndTake? && b.t.Taking? {
      EndTakeIs(b);
      EndTakeKeeps(b);
    } else if part.BeginSend? || part.BeginTake? {
      BeginKeeps(b, part);
    }
  }

  ghost predicate Sizes(parts: seq<Part>) {
    forall p :: p in parts && p.BeginSend? ==> |p.bytes| <= WORD - ALIGN
  }

  function DoAll(b: Sides, parts: seq<Part>): (r: Sides)
    requires Fine(b) && Sizes(parts)
    ensures Fine(r)
    decreases |parts|
  {
    if parts == [] then b
    else
      DoKeeps(b, parts[0]);
      DoAll(Do(b, parts[0]), parts[1..])
  }

  /** The calls that a run of parts completes, in the order in which they take effect. */
  function Effects(b: Sides, parts: seq<Part>): (ops: seq<Op>)
    requires Fine(b) && Sizes(parts)
    ensures forall op :: op in ops && op.Send? ==> |op.bytes| <= WORD - ALIGN
    decreases |parts|
  {
    if parts == [] then []
    else
      DoKeeps(b, parts[0]);
      Effect(b, parts[0]) + Effects(Do(b, parts[0]), parts[1..])
  }

  /** However the calls of the two sides overlap, the link is what a run of whole calls makes of
      it, one for each that was accepted, at the moment at which it ended. */
  lemma {:induction false} OverlapIsHarmless(b: Sides, parts: seq<Part>)
    requires Fine(b) && Sizes(parts)
    ensures DoAll(b, parts).l == Run(b.l, Effects(b, parts)) && Faithful(DoAll(b, parts).l)
    decreases |parts|
  {
    hide Fine, Step, Do, Effect;
    FineLink(b);
    if parts != [] {
      DoKeeps(b, parts[0]);
      OverlapIsHarmless(Do(b, parts[0]), parts[1..]);
      var ops := Effect(b, parts[0]);
      if ops == [] {
        assert ops + Effects(Do(b, parts[0]), parts[1..]) == Effects(Do(b, parts[0]), parts[1..]);
      } else {
        assert (ops + Effects(Do(b, parts[0]), parts[1..]))[1..] == Effects(Do(b, parts[0]), parts[1..]);
      }
    }
  }

  lemma FineLink(b: Sides)
    requires Fine(b)
    ensures Faithful(b.l)
  {
  }

  // ---------------------------------------------------------------- the region in memory

  class SharedRegion {
    const mem: array<Byte>
    var read: nat
    var write: nat

    ghost function Now(): Region
      reads this, mem
    {
      Region(mem[..], read, write)
    }

    constructor (m: array<Byte>)
      requires m.Length % ALIGN == 0
      ensures mem == m && Now().Aligned() && read == write == 0
    {
      mem, read, write := m, 0, 0;
    }

    /** Takes a stray index into the memory, one at a time, and counts the data. */
    method DataCount() returns (count: int)
      requires mem.Length > 0
      modifies this
      ensures old(Now()).InRange() ==> Now() == old(Now()) && count == Now().Count()
      ensures read == Wrap(old(read), mem.Length)
      ensures write == if old(read) < mem.Length then Wrap(old(write), mem.Length) else old(write)
    {
      if read >= mem.Length {
        read := read % mem.Length;
      } else if write >= mem.Length {
        write := write % mem.Length;
      }
      if write >= read {
        count := write - read;
      } else {
        count := mem.Length - (read - write);
      }
    }

    method FreeSpace() returns (count: int)
      requires mem.Length > 0 && Now().InRange()
      modifies this
      ensures Now() == old(Now()) && count == Now().Free()
      ensures count + Now().Count() + 16 == mem.Length || (count == 0 && Now().Count() + 16 > mem.Length)
    {
      var data := DataCount();
      count := mem.Length - data;
      if count >= GAP {
        count := count - GAP;
      } else {
        count := 0;
      }
    }

    /** Takes both indices into the memory. */
    method Normalise()
      requires mem.Length > 0
      modifies this
      ensures Now() == old(Now()).Normal()
    {
      if read >= mem.Length {
        read := read % mem.Length;
      }
      if write >= mem.Length {
        write := write % mem.Length;
      }
    }

    method WriteFromLinear(bytes: seq<Byte>) returns (s: Status)
      requires Now().Aligned() && |bytes| <= WORD - ALIGN
      modifies this, mem
      ensures Write(old(Now()), bytes) == (s, Now()) && Now().Aligned()
    {
      hide Pad, Splice, Circular.Stored, Region.Aligned, Region.Normal, Region.Free;
      var padded := Pad(|bytes|);
      if mem.Length == 0 {
        return Enodev;
      }
      WriteKeeps(Now(), bytes);
      NormalAligned(Now());
      if padded <= Now().Normal().Free() {
        WriteSplits(Now().Normal(), bytes);
      }
      Normalise();
      var space := FreeSpace();
      if space < padded {
        return Eoverflow;
      }
      if read <= write {
        var w2e := mem.Length - write;
        if padded <= w2e {
          CopyBytes(mem, write, bytes);
          write := write + padded;
          if write == mem.Length {
            write := 0;
          }
        } else {
          CopyBytes(mem, write, bytes[..w2e]);
          CopyBytes(mem, 0, bytes[w2e..]);
          write := padded - w2e;
        }
      } else {
        CopyBytes(mem, write, bytes);
        write := write + padded;
      }
      s := Ok;
    }

    method ReadToLinear(count: nat) returns (s: Status, linear: seq<Byte>)
      requires Now().Aligned() && count <= WORD - ALIGN
      modifies this
      ensures Read(old(Now()), count) == (s, linear, Now()) && Now().Aligned()
    {
      hide Pad, Window, Region.Aligned, Region.Normal;
      var padded := Pad(count);
      linear := [];
      if mem.Length == 0 {
        return Enodev, [];
      }
      ReadKeeps(Now(), count);
      NormalAligned(Now());
      if padded <= Now().Normal().Count() {
        ReadSplits(Now().Normal(), count);
      }
      Normalise();
      var available := DataCount();
      if padded > available {
        return Enomem, [];
      }
      if read <= write {
        linear := mem[read..read + count];
        read := read + padded;
      } else {
        var r2e := mem.Length - read;
        if r2e >= padded {
          linear := mem[read..read + count];
          read := read + padded;
          if read == mem.Length {
            read := 0;
          }
        } else {
          linear := mem[read..] + mem[..count - r2e];
          read := padded - r2e;
        }
      }
      s := Ok;
    }

    method DropData(count: nat) returns (s: Status)
      requires Now().Aligned() && count <= WORD - ALIGN
      modifies this
      ensures Drop(old(Now()), count) == (s, Now()) && Now().Aligned()
    {
      hide Pad, Window, Region.Aligned, Region.Normal;
      var padded := Pad(count);
      if mem.Length == 0 {
        return Enodev;
      }
      ReadKeeps(Now(), count);
      NormalAligned(Now());
      Normalise();
      var available := DataCount();
      if padded > available {
        return Enomem;
      }
      if read <= write {
        read := read + padded;
      } else {
        var r2e := mem.Length - read;
        if r2e >= padded {
          read := read + padded;
          if read == mem.Length {
            read := 0;
          }
        } else {
          read := padded - r2e;
        }
      }
      s := Ok;
    }

    /** Writes a message and reports the index at which it begins. */
    method WriteRegion(bytes: seq<Byte>) returns (s: Status, idx: nat)
      requires Now().Aligned() && |bytes| <= WORD - ALIGN
      modifies this, mem
      ensures Now().Aligned()
      ensures bytes == [] ==> s == Enodata && Now() == old(Now()) && idx == 0
      ensures bytes != [] && mem.Length == 0 ==> s == Enodev && Now() == old(Now())
      ensures bytes != [] ==> Write(old(Now()), bytes) == (s, Now()) && idx == old(write)
    {
      idx := 0;
      if |bytes| == 0 {
        return Enodata, 0;
      }
      idx := write;
      s := WriteFromLinear(bytes);
    }

    /** Reads a message at the index that its writer reported. */
    method ReadRegion(count: nat, idx: nat) returns (s: Status, linear: seq<Byte>)
      requires Now().Aligned() && count <= WORD - ALIGN && idx % ALIGN == 0
      modifies this
      ensures Now().Aligned()
      ensures count == 0 ==> s == Enodata && linear == [] && Now() == old(Now())
      ensures count > 0 && mem.Length == 0 ==> s == Enodev && linear == [] && Now() == old(Now()).(read := idx)
      ensures count > 0 ==> Read(old(Now()).(read := idx), count) == (s, linear, Now())
    {
      if count == 0 {
        return Enodata, [];
      }
      if idx != read {
        read := idx;
      }
      s, linear := ReadToLinear(count);
    }

    /** Drops a message at the index that its writer reported. */
    method DropRegion(count: nat, idx: nat) returns (s: Status)
      requires Now().Aligned() && count <= WORD - ALIGN && idx % ALIGN == 0
      modifies this
      ensures Now().Aligned()
      ensures count == 0 ==> s == Enodata && Now() == old(Now())
      ensures count > 0 && mem.Length == 0 ==> s == Enodev && Now() == old(Now()).(read := idx)
      ensures count > 0 ==> Drop(old(Now()).(read := idx), count) == (s, Now())
    {
      if count == 0 {
        return Enodata;
      }
      if idx != read {
        read := idx;
      }
      s := DropData(count);
    }
  }

  /** Storing a message is one transfer of its bytes, or two with some in each, and split by
      the padded length. */
  lemma WriteSplits(r: Region, bytes: seq<Byte>)
    requires r.Sound() && |bytes| <= WORD - ALIGN && Pad(|bytes|) <= r.Free()
    ensures var p, end := Pad(|bytes|), r.Size() - r.write;
      && |bytes| <= p <= r.Size()
      && (r.write < r.read ==> p < end)
      && (p <= end ==>
            r.Stored(bytes) == Region(Splice(r.mem, r.write, bytes), r.read, if p == end then 0 else r.write + p))
      && (p > end ==>
            end < |bytes|
            && r.Stored(bytes) == Region(Splice(Splice(r.mem, r.write, bytes[..end]), 0, bytes[end..]), r.read, p - end))
  {
    hide Pad, Splice, Circular.Stored;
    PadCovers(|bytes|);
    LinesApart(Pad(|bytes|), r.Size() - r.write);
    StoredSplices(r.mem, r.write, bytes);
  }

  /** And so is reading one. */
  lemma ReadSplits(r: Region, count: nat)
    requires r.Sound() && count <= WORD - ALIGN && Pad(count) <= r.Count()
    ensures var p, end := Pad(count), r.Size() - r.read;
      && count <= p
      && (p <= end ==> Window(r.mem, r.read, count) == r.mem[r.read..r.read + count])
      && (p > end ==> end < count && Window(r.mem, r.read, count) == r.mem[r.read..] + r.mem[..count - end])
  {
    hide Pad;
    PadCovers(count);
    LinesApart(Pad(count), r.Size() - r.read);
    WindowSlices(r.mem, r.read, count);
  }
}
