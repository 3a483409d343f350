/** The overwriting event recorder of middleware/pbfr/pbfr_rec.c.

    Every record carries the time since the one before it in 32 bits; a longer time is split
    over two records, the high word first.  The absolute time of the latest event is kept
    beside the buffer, so times are recovered from the end backwards. */
module FlightRecorder {

  const WORD: nat := 0x1_0000_0000            // 2^32
  const TIME: nat := 0x1_0000_0000_0000_0000  // 2^64

  /** The event type that marks the high word of the next record's time. */
  const DTS_H: nat := 0x84

  /** The four bytes of an event: a type, and the parts of the rest. */
  datatype Event = Event(kind: nat, taskno: nat, unused: nat)

  datatype Record = Record(event: Event, dts: nat)

  /** An event with its absolute time. */
  datatype Timed = Timed(event: Event, time: nat)

  ghost predicate Real(e: Timed) {
    e.event.kind != DTS_H && e.time < TIME
  }

  /** The last n elements, or all when there are fewer. */
  function Last<T>(s: seq<T>, n: nat): (r: seq<T>)
    ensures |r| == if |s| <= n then |s| else n
  {
    if |s| <= n then s else s[|s| - n..]
  }

  /** Forgetting in between makes no difference to what is remembered in the end. */
  lemma LastOfLast<T>(s: seq<T>, t: seq<T>, n: nat)
    ensures Last(Last(s, n) + t, n) == Last(s + t, n)
  {
    if |s| > n {
      assert Last(s, n) + t == (s + t)[|s| - n..];
    }
  }

  // ---------------------------------------------------------------- what one event appends

  /** The time since the previous event, in 64 bits. */
  function Delta(before: nat, now: nat): (d: nat)
    requires before < TIME && now < TIME
    ensures d < TIME && (before + d) % TIME == now
  {
    if now >= before then now - before else now + TIME - before
  }

  /** The records of one event.  The high-word record reuses the scratch record of the event
      before, of which it overwrites type, filler and time only. */
  function Emitted(before: nat, scratch: Event, e: Timed): seq<Record>
    requires before < TIME && e.time < TIME
  {
    var d := Delta(before, e.time);
    (if d >= WORD then [Record(scratch.(kind := DTS_H, unused := 0), d / WORD)] else [])
    + [Record(e.event, d % WORD)]
  }

  /** Where the recorder starts: the time and the scratch record before the first event. */
  datatype Start = Start(time: nat, scratch: Event)

  function Before(s: Start, es: seq<Timed>): nat {
    if es == [] then s.time else es[|es| - 1].time
  }

  function Scratch(s: Start, es: seq<Timed>): Event {
    if es == [] then s.scratch else es[|es| - 1].event
  }

  ghost predicate Log(s: Start, es: seq<Timed>) {
    s.time < TIME && forall i :: 0 <= i < |es| ==> Real(es[i])
  }

  /** All records ever made of a run of events. */
  function Records(s: Start, es: seq<Timed>): seq<Record>
    requires Log(s, es)
  {
    if es == [] then []
    else
      var front := es[..|es| - 1];
      Records(s, front) + Emitted(Before(s, front), Scratch(s, front), es[|es| - 1])
  }

  // ---------------------------------------------------------------- reading it back

  /** How many of the records belong to the last event: two when a high word precedes. */
  function Width(records: seq<Record>): (w: nat)
    requires records != []
    ensures 0 < w <= |records|
  {
    if |records| >= 2 && records[|records| - 2].event.kind == DTS_H then 2 else 1
  }

  /** The time that the last event took, as its records say. */
  function Span(records: seq<Record>): nat
    requires records != []
  {
    var n := |records|;
    (if Width(records) == 2 then records[n - 2].dts * WORD else 0) + records[n - 1].dts
  }

  /** Reads records backwards from the absolute time of the last event. */
  function Decode(records: seq<Record>, time: nat): seq<Timed>
    decreases |records|
  {
    if records == [] then []
    else
      var n := |records|;
      if records[n - 1].event.kind == DTS_H then []
      else
        Decode(records[..n - Width(records)], (time - Span(records)) % TIME)
        + [Timed(records[n - 1].event, time)]
  }

  /** How many events the last m of the records of a run belong to. */
  function Kept(s: Start, es: seq<Timed>, m: nat): (k: nat)
    requires Log(s, es) && m <= |Records(s, es)|
    ensures k <= |es| && k <= m <= 2 * k && (m > 0 ==> k > 0)
    decreases |es|
  {
    if es == [] || m == 0 then 0
    else
      var front := es[..|es| - 1];
      var w := |Emitted(Before(s, front), Scratch(s, front), es[|es| - 1])|;
      1 + Kept(s, front, if m <= w then 0 else m - w)
  }

  /** The last record of a run is that of its last event, so it is no high word. */
  lemma {:induction false} EndsReal(s: Start, es: seq<Timed>)
    requires Log(s, es) && es != []
    ensures Records(s, es) != []
    ensures Records(s, es)[|Records(s, es)| - 1].event.kind != DTS_H
  {
  }

  /** Whatever was evicted, and even when that cuts a high word from its event: decoding the
      last m records from the time of the last event gives the last events of the run, each
      with its exact 64-bit time; no more than every second record is a high word. */
  lemma {:induction false} DecodesSuffix(s: Start, es: seq<Timed>, m: nat)
    requires Log(s, es) && m <= |Records(s, es)|
    ensures Decode(Last(Records(s, es), m), Before(s, es)) == Last(es, Kept(s, es, m))
    decreases |es|
  {
    hide Delta, Decode, Log, Real, Last, Emitted;
    if es == [] || m == 0 {
      DecodesNothing(Before(s, es));
      LastNone(Records(s, es));
      LastNone(es);
    } else {
      var front := es[..|es| - 1];
      LogFront(s, es);
      var w := |Emitted(Before(s, front), Scratch(s, front), es[|es| - 1])|;
      if m <= w {
        SuffixOne(s, es, m);
      } else {
        DecodesSuffix(s, front, m - w);
        SuffixStep(s, es, m);
      }
    }
  }

  lemma LastNone<T>(s: seq<T>)
    ensures Last(s, 0) == []
  {
  }

  /** The case of the induction above in which only the last event is held. */
  lemma SuffixOne(s: Start, es: seq<Timed>, m: nat)
    requires Log(s, es) && es != []
    requires var front := es[..|es| - 1];
      0 < m <= |Emitted(Before(s, front), Scratch(s, front), es[|es| - 1])|
    ensures Decode(Last(Records(s, es), m), Before(s, es)) == Last(es, Kept(s, es, m))
  {
    hide Delta, Emitted, Decode, Log, Real, Last;
    var front, e := es[..|es| - 1], es[|es| - 1];
    LogFront(s, es);
    EmittedShape(Before(s, front), Scratch(s, front), e);
    var tail := Emitted(Before(s, front), Scratch(s, front), e);
    LastOfSum(Records(s, front), tail, m);
    OneEvent(tail, m, e.time);
    LastPlusOne(es, 0);
    LastNone(front);
  }

  /** The step of the induction above in which an earlier event is held as well. */
  lemma SuffixStep(s: Start, es: seq<Timed>, m: nat)
    requires Log(s, es) && es != [] && m <= |Records(s, es)|
    requires var front, e := es[..|es| - 1], es[|es| - 1];
      var w := |Emitted(Before(s, front), Scratch(s, front), e)|;
      && m > w
      && Decode(Last(Records(s, front), m - w), Before(s, front)) == Last(front, Kept(s, front, m - w))
    ensures Decode(Last(Records(s, es), m), Before(s, es)) == Last(es, Kept(s, es, m))
  {
    hide Delta, Emitted, Decode, Log, Real, Last, Records, Kept, Scratch;
    var front, e := es[..|es| - 1], es[|es| - 1];
    LogFront(s, es);
    RecordsStep(s, es);
    var tail := Emitted(Before(s, front), Scratch(s, front), e);
    var rest, left := Records(s, front), m - |tail|;
    KeptStep(s, es, m);
    EndsReal(s, front);
    LastEnds(rest, left);
    LastOfSum(rest, tail, m);
    TailDecodes(Last(rest, left), Before(s, front), Scratch(s, front), e);
    LastPlusOne(es, Kept(s, front, left));
  }

  lemma RecordsStep(s: Start, es: seq<Timed>)
    requires Log(s, es) && es != []
    ensures var front := es[..|es| - 1];
      && Records(s, es) == Records(s, front) + Emitted(Before(s, front), Scratch(s, front), es[|es| - 1])
      && (front == [] ==> Records(s, front) == [])
  {
  }

  lemma KeptStep(s: Start, es: seq<Timed>, m: nat)
    requires Log(s, es) && es != [] && m <= |Records(s, es)|
    requires m > |Emitted(Before(s, es[..|es| - 1]), Scratch(s, es[..|es| - 1]), es[|es| - 1])|
    ensures var front := es[..|es| - 1];
      Kept(s, es, m) == 1 + Kept(s, front, m - |Emitted(Before(s, front), Scratch(s, front), es[|es| - 1])|)
  {
  }

  lemma LastPlusOne<T>(s: seq<T>, k: nat)
    requires s != [] && k < |s|
    ensures Last(s, 1 + k) == Last(s[..|s| - 1], k) + [s[|s| - 1]]
  {
  }

  lemma LastEnds<T>(s: seq<T>, k: nat)
    requires 0 < k && s != []
    ensures Last(s, k) != [] && Last(s, k)[|Last(s, k)| - 1] == s[|s| - 1]
  {
  }

  lemma DecodesNothing(time: nat)
    ensures Decode([], time) == []
  {
  }

  lemma LogFront(s: Start, es: seq<Timed>)
    requires Log(s, es) && es != []
    ensures Log(s, es[..|es| - 1]) && Real(es[|es| - 1]) && Before(s, es[..|es| - 1]) < TIME
  {
  }

  /** The bytes of it: an event less than 2^32 ticks after the one before is one record; any other
      has its high word in a record of type 0x84 before it, which keeps the task number of the
      event before and no filler. */
  lemma EmittedIs(before: nat, scratch: Event, e: Timed)
    requires before < TIME && e.time < TIME
    ensures var d := (e.time - before) % 0x1_0000_0000_0000_0000;
      Emitted(before, scratch, e)
      == if d < 0x1_0000_0000 then [Record(e.event, d)]
         else [Record(Event(0x84, scratch.taskno, 0), d / 0x1_0000_0000), Record(e.event, d % 0x1_0000_0000)]
  {
  }

  lemma EmittedShape(before: nat, scratch: Event, e: Timed)
    requires before < TIME && Real(e)
    ensures var tail := Emitted(before, scratch, e);
      && 1 <= |tail| <= 2 && tail[|tail| - 1].event == e.event && e.event.kind != DTS_H
      && (|tail| == 2 ==> tail[0].event.kind == DTS_H)
  {
  }

  /** The last elements of a sum. */
  lemma LastOfSum<T>(s: seq<T>, t: seq<T>, m: nat)
    requires m <= |s| + |t|
    ensures Last(s + t, m) == if m <= |t| then t[|t| - m..] else Last(s, m - |t|) + t
  {
  }

  /** From no more records than the last event has, that event alone is decoded. */
  lemma OneEvent(tail: seq<Record>, m: nat, time: nat)
    requires 0 < m <= |tail| <= 2
    requires tail[|tail| - 1].event.kind != DTS_H && (|tail| == 2 ==> tail[0].event.kind == DTS_H)
    ensures Decode(tail[|tail| - m..], time) == [Timed(tail[|tail| - 1].event, time)]
  {
    var held := tail[|tail| - m..];
    DecodesNothing((time - Span(held)) % TIME);
    assert held[..|held| - Width(held)] == [];
  }

  /** Decoding takes the records of the last event off and steps back to the time before it. */
  lemma {:induction false} TailDecodes(older: seq<Record>, before: nat, scratch: Event, e: Timed)
    requires before < TIME && Real(e)
    requires older != [] && older[|older| - 1].event.kind != DTS_H
    ensures Decode(older + Emitted(before, scratch, e), e.time) == Decode(older, before) + [e]
  {
    var tail := Emitted(before, scratch, e);
    var held := older + tail;
    var d := Delta(before, e.time);
    assert held[|held| - 1] == tail[|tail| - 1];
    assert held[|held| - 2] == if d >= WORD then tail[0] else older[|older| - 1];
    assert Width(held) == |tail| && held[..|held| - |tail|] == older;
    assert Span(held) == d;
    StepBack(before, e.time);
  }

  lemma StepBack(before: nat, now: nat)
    requires before < TIME && now < TIME
    ensures (now - Delta(before, now)) % TIME == before
  {
    if now < before {
      assert now - Delta(before, now) == before - TIME;
    }
  }

  /** Adding the records of an event one at a time. */
  lemma EmittedRecords(held: seq<Record>, before: nat, scratch: Event, e: Timed, n: nat)
    requires before < TIME && e.time < TIME
    ensures var d := Delta(before, e.time);
      var high, low := Record(scratch.(kind := DTS_H, unused := 0), d / WORD), Record(e.event, d % WORD);
      Last(held + Emitted(before, scratch, e), n)
      == if d >= WORD then Last(Last(held + [high], n) + [low], n) else Last(held + [low], n)
  {
    hide Last;
    var d := Delta(before, e.time);
    var high, low := Record(scratch.(kind := DTS_H, unused := 0), d / WORD), Record(e.event, d % WORD);
    if d >= WORD {
      LastOfLast(held + [high], [low], n);
      assert Emitted(before, scratch, e) == [high, low];
      assert held + [high] + [low] == held + [high, low];
    } else {
      assert Emitted(before, scratch, e) == [low];
    }
  }

  // ---------------------------------------------------------------- whole runs

  /** What a buffer of n records holds after a run of events, one event at a time. */
  function Buffer(s: Start, es: seq<Timed>, n: nat): seq<Record>
    requires Log(s, es)
  {
    if es == [] then []
    else
      var front := es[..|es| - 1];
      Last(Buffer(s, front, n) + Emitted(Before(s, front), Scratch(s, front), es[|es| - 1]), n)
  }

  /** However often it was overwritten, the buffer holds exactly the last n records made. */
  lemma {:induction false} HoldsLast(s: Start, es: seq<Timed>, n: nat)
    requires Log(s, es)
    ensures Buffer(s, es, n) == Last(Records(s, es), n)
  {
    hide Delta, Emitted, Real, Last;
    if es == [] {
      assert Last<Record>([], n) == [] by { LastOfSum<Record>([], [], 0); LastShort<Record>([], n); }
    } else {
      var front := es[..|es| - 1];
      LogFront(s, es);
      HoldsLast(s, front, n);
      LastOfLast(Records(s, front), Emitted(Before(s, front), Scratch(s, front), es[|es| - 1]), n);
    }
  }

  /** One more event. */
  lemma OneMore(s: Start, es: seq<Timed>, e: Timed, n: nat)
    requires Log(s, es) && Real(e)
    ensures Log(s, es + [e]) && Before(s, es + [e]) == e.time && Scratch(s, es + [e]) == e.event
    ensures Before(s, es) < TIME
    ensures Buffer(s, es + [e], n) == Last(Buffer(s, es, n) + Emitted(Before(s, es), Scratch(s, es), e), n)
  {
    assert (es + [e])[..|es + [e]| - 1] == es;
  }

  lemma LastShort<T>(s: seq<T>, n: nat)
    requires |s| <= n
    ensures Last(s, n) == s
  {
  }

  /** The number of records a buffer of n holds. */
  function Fill(s: Start, es: seq<Timed>, n: nat): nat
    requires Log(s, es)
  {
    if |Records(s, es)| <= n then |Records(s, es)| else n
  }

  /** After any run of events, reading the buffer back from the time of the last event gives
      the latest events with their exact times, at least half as many as records are held. */
  lemma Recovers(s: Start, es: seq<Timed>, n: nat)
    requires Log(s, es)
    ensures |Buffer(s, es, n)| == Fill(s, es, n)
    ensures Decode(Buffer(s, es, n), Before(s, es)) == Last(es, Kept(s, es, Fill(s, es, n)))
    ensures Fill(s, es, n) <= 2 * Kept(s, es, Fill(s, es, n))
  {
    hide Records, Decode, Buffer, Kept, Log;
    HoldsLast(s, es, n);
    DecodesSuffix(s, es, Fill(s, es, n));
  }

  // ---------------------------------------------------------------- the recorder in memory

  class Recorder {
    const buf: array<Record>
    var wp: nat
    var rp: nat
    var full: bool
    var last: nat
    var scratch: Event
    ghost const start: Start      // where it began
    ghost var log: seq<Timed>     // every event so far

    ghost predicate Fits()
      reads `wp, `rp, `full
    {
      && 0 < buf.Length < 256 && wp < buf.Length && rp < buf.Length
      && (if full then rp == wp else rp == 0)
    }

    /** The records held, oldest first. */
    ghost function Held(): seq<Record>
      reads `wp, `rp, `full, buf
      requires Fits()
    {
      if full then buf[rp..] + buf[..rp] else buf[..wp]
    }

    ghost predicate Valid()
      reads this, buf
    {
      && Fits() && Log(start, log) && last == Before(start, log) && scratch == Scratch(start, log)
      && Held() == Buffer(start, log, buf.Length)
    }

    constructor (len: nat, time: nat, event: Event)
      requires 0 < len < 256 && time < TIME
      ensures Valid() && log == [] && Held() == [] && buf.Length == len && fresh(buf)
    {
      buf := new Record[len](_ => Record(Event(0, 0, 0), 0));
      wp, rp, full := 0, 0, false;
      last, scratch := time, event;
      start, log := Start(time, event), [];
    }

    /** Adds a record, over the oldest one when the buffer is full. */
    method InsertBuffer(r: Record)
      requires Fits()
      modifies this`wp, this`rp, this`full, buf
      ensures Fits() && Held() == Last(old(Held()) + [r], buf.Length)
    {
      ghost var was := Held();
      buf[wp] := r;
      wp := wp + 1;
      if wp >= buf.Length {
        wp := 0;
      }
      if full {
        rp := wp;
      } else if wp == rp {
        full := true;
      }
      assert Held() == Last(was + [r], buf.Length) by {
        assert |Held()| == |Last(was + [r], buf.Length)|;
      }
    }

    /** Records an event that happened at the given time. */
    method AddEvent(e: Event, now: nat)
      requires Valid() && Real(Timed(e, now))
      modifies this, buf
      ensures Valid() && log == old(log) + [Timed(e, now)] && last == now
      ensures Held() == Last(old(Held()) + Emitted(old(last), old(scratch), Timed(e, now)), buf.Length)
      ensures Decode(Held(), last) == Last(log, Kept(start, log, Fill(start, log, buf.Length)))
    {
      hide Held, Last, Emitted, Decode, Kept, Fill, Records, Buffer, Log, Before, Scratch;
      OneMore(start, log, Timed(e, now), buf.Length);
      Recovers(start, log + [Timed(e, now)], buf.Length);
      EmittedRecords(Held(), last, scratch, Timed(e, now), buf.Length);
      var dts := if now >= last then now - last else now + TIME - last;
      if dts >= WORD {
        scratch := scratch.(kind := DTS_H);
        scratch := scratch.(unused := 0);
        InsertBuffer(Record(scratch, dts / WORD));
      }
      scratch := e;
      InsertBuffer(Record(scratch, dts % WORD));
      last := now;
      log := log + [Timed(e, now)];
    }
  }
}
