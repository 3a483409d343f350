/** What one round of the software mixer computes, drivers/audio/framework/audio_sw_mixer.c:
    which paths join, what is taken from each, and the limited sum that is written. */
module MixerSum {
  import opened Circular
  import Rounding

  datatype Format = Pcm16 | Pcm8_24 | Pcm32

  function Width(f: Format): (w: nat)
    ensures w > 0
  {
    if f == Pcm16 then 2 else 4
  }

  /** The values that the memory of one sample can hold. */
  predicate Holds(f: Format, x: int) {
    if f == Pcm16 then -0x8000 <= x < 0x8000 else -0x8000_0000 <= x < 0x8000_0000
  }

  function Lowest(f: Format): int {
    match f case Pcm16 => -32768 case Pcm8_24 => -8388608 case Pcm32 => -0x8000_0000
  }

  function Highest(f: Format): int {
    match f case Pcm16 => 32767 case Pcm8_24 => 8388607 case Pcm32 => 0x7FFF_FFFF
  }

  /** The bits of a sample that count. */
  function Bits(f: Format): (n: nat)
    ensures n >= 16
  {
    match f case Pcm16 => 16 case Pcm8_24 => 24 case Pcm32 => 32
  }

  /** The limits are those of a signed number of so many bits, and its memory holds them. */
  lemma Rails(f: Format)
    ensures Highest(f) == Rounding.Pow2(Bits(f) - 1) - 1 && Lowest(f) + Rounding.Pow2(Bits(f) - 1) == 0
    ensures Bits(f) <= 8 * Width(f) && (f == Pcm8_24 || Bits(f) == 8 * Width(f))
  {
    Rounding.Pow2Add(8, 7);
    Rounding.Pow2Add(15, 8);
    Rounding.Pow2Add(23, 8);
    assert Rounding.Pow2(7) == 128 && Rounding.Pow2(8) == 256;
  }

  /** The limiter: a sum beyond a limit becomes that limit. */
  function Limit(f: Format, x: int): (y: int)
    ensures Holds(f, y) && Lowest(f) <= y <= Highest(f)
    ensures Lowest(f) <= x <= Highest(f) ==> y == x
    ensures x > Highest(f) ==> y == Highest(f)
    ensures x < Lowest(f) ==> y == Lowest(f)
  {
    if x > 0 && x > Highest(f) then Highest(f)
    else if x < 0 && x < Lowest(f) then Lowest(f)
    else x
  }

  function Apart(x: int, y: int): nat { if x < y then y - x else x - y }

  /** It writes the value of the format that is nearest to the sum, and no other. */
  lemma LimitIsNearest(f: Format, x: int, z: int)
    requires Lowest(f) <= z <= Highest(f) && z != Limit(f, x)
    ensures Apart(x, Limit(f, x)) < Apart(x, z)
  {
  }

  // ---------------------------------------------------------------- samples in bytes

  /** A number from its bytes, the lowest first. */
  function Unsigned(b: seq<Byte>): nat {
    if b == [] then 0 else b[0] as int + 0x100 * Unsigned(b[1..])
  }

  function Digits(u: nat, n: nat): (b: seq<Byte>)
    ensures |b| == n
  {
    if n == 0 then [] else [(u % 0x100) as Byte] + Digits(u / 0x100, n - 1)
  }

  lemma {:induction false} DigitsUnsigned(b: seq<Byte>)
    ensures Digits(Unsigned(b), |b|) == b
    ensures |b| == 2 ==> Unsigned(b) < 0x1_0000
    ensures |b| == 4 ==> Unsigned(b) < 0x1_0000_0000
    ensures |b| == 1 ==> Unsigned(b) < 0x100
    ensures |b| == 3 ==> Unsigned(b) < 0x100_0000
  {
    if b != [] {
      DigitsUnsigned(b[1..]);
    }
  }

  lemma {:induction false} UnsignedDigits(u: nat, n: nat)
    requires n == 0 ==> u == 0
    requires n == 1 ==> u < 0x100
    requires n == 2 ==> u < 0x1_0000
    requires n == 3 ==> u < 0x100_0000
    requires n == 4 ==> u < 0x1_0000_0000
    requires n <= 4
    ensures Unsigned(Digits(u, n)) == u
  {
    if n > 0 {
      UnsignedDigits(u / 0x100, n - 1);
      assert Digits(u, n)[1..] == Digits(u / 0x100, n - 1);
    }
  }

  /** One sample from its bytes, in two's complement. */
  function Decode(f: Format, b: seq<Byte>): int
    requires |b| == Width(f)
  {
    var u := Unsigned(b);
    if f == Pcm16 then
      if u >= 0x8000 then u - 0x1_0000 else u
    else
      if u >= 0x8000_0000 then u - 0x1_0000_0000 else u
  }

  function Encode(f: Format, x: int): (b: seq<Byte>)
    requires Holds(f, x)
    ensures |b| == Width(f)
  {
    Digits(if x >= 0 then x else if f == Pcm16 then x + 0x1_0000 else x + 0x1_0000_0000, Width(f))
  }

  lemma EncodeDecode(f: Format, b: seq<Byte>)
    requires |b| == Width(f)
    ensures Holds(f, Decode(f, b)) && Encode(f, Decode(f, b)) == b
  {
    hide Unsigned, Digits;
    DigitsUnsigned(b);
  }

  lemma DecodeEncode(f: Format, x: int)
    requires Holds(f, x)
    ensures Decode(f, Encode(f, x)) == x
  {
    hide Unsigned, Digits;
    UnsignedDigits(if x >= 0 then x else if f == Pcm16 then x + 0x1_0000 else x + 0x1_0000_0000, Width(f));
  }

  /** A sample is its bytes, the lowest first and the highest with a sign. */
  lemma TwosComplement(f: Format, b: seq<Byte>)
    requires |b| == Width(f)
    ensures var top := b[|b| - 1] as int - (if b[|b| - 1] >= 0x80 then 0x100 else 0);
      Decode(f, b) == if f == Pcm16 then b[0] as int + 0x100 * top
                      else b[0] as int + 0x100 * b[1] as int + 0x1_0000 * b[2] as int + 0x100_0000 * top
  {
    if f == Pcm16 {
      assert b[1..][0] == b[1] && b[1..][1..] == [];
      assert Unsigned(b[1..]) == b[1] as int;
    } else {
      var c, d, e := b[1..], b[1..][1..], b[1..][1..][1..];
      assert c[0] == b[1] && d[0] == b[2] && e[0] == b[3] && e[1..] == [];
      assert Unsigned(e) == b[3] as int;
      assert Unsigned(d) == b[2] as int + 0x100 * Unsigned(e);
      assert Unsigned(c) == b[1] as int + 0x100 * Unsigned(d);
    }
  }

  /** The samples of a run of bytes lie there one behind the other. */
  lemma {:induction false} SampleAt(f: Format, b: seq<Byte>, i: nat)
    requires i < |b| / Width(f)
    ensures i * Width(f) + Width(f) <= |b|
    ensures Samples(f, b)[i] == Decode(f, b[i * Width(f)..i * Width(f) + Width(f)])
    decreases i
  {
    hide Decode;
    var w := Width(f);
    if i > 0 {
      SampleAt(f, b[w..], i - 1);
      assert b[w..][(i - 1) * w..(i - 1) * w + w] == b[i * w..i * w + w];
    }
  }

  /** The whole samples in a run of bytes. */
  function Samples(f: Format, b: seq<Byte>): (xs: seq<int>)
    ensures |xs| == |b| / Width(f)
    ensures forall i :: 0 <= i < |xs| ==> Holds(f, xs[i])
  {
    if |b| < Width(f) then []
    else
      EncodeDecode(f, b[..Width(f)]);
      [Decode(f, b[..Width(f)])] + Samples(f, b[Width(f)..])
  }

  function Render(f: Format, xs: seq<int>): seq<Byte>
    requires forall i :: 0 <= i < |xs| ==> Holds(f, xs[i])
  {
    if xs == [] then [] else Encode(f, xs[0]) + Render(f, xs[1..])
  }

  lemma {:induction false} RenderSamples(f: Format, b: seq<Byte>)
    requires |b| % Width(f) == 0
    ensures Render(f, Samples(f, b)) == b
  {
    hide Encode, Decode, Width;
    FirstUnit(f, |b|);
    if b == [] {
      assert Samples(f, b) == [];
    } else {
      var w := Width(f);
      EncodeDecode(f, b[..w]);
      RenderSamples(f, b[w..]);
      assert Samples(f, b) == [Decode(f, b[..w])] + Samples(f, b[w..]);
      assert Samples(f, b)[1..] == Samples(f, b[w..]);
      assert b == b[..w] + b[w..];
    }
  }

  lemma FirstUnit(f: Format, n: nat)
    requires n % Width(f) == 0
    ensures n > 0 ==> n >= Width(f) && (n - Width(f)) % Width(f) == 0
  {
  }

  lemma {:induction false} SamplesRender(f: Format, xs: seq<int>)
    requires forall i :: 0 <= i < |xs| ==> Holds(f, xs[i])
    ensures Samples(f, Render(f, xs)) == xs
    ensures |Render(f, xs)| == |xs| * Width(f)
  {
    hide Encode, Decode;
    if xs != [] {
      var w, b := Width(f), Render(f, xs);
      DecodeEncode(f, xs[0]);
      SamplesRender(f, xs[1..]);
      assert b[..w] == Encode(f, xs[0]) && b[w..] == Render(f, xs[1..]);
    }
  }

  // ---------------------------------------------------------------- sums

  function Sum(xs: seq<int>): int {
    if xs == [] then 0 else Sum(xs[..|xs| - 1]) + xs[|xs| - 1]
  }

  /** Addition in the accumulator: 32 bits for 16-bit samples, else 64. */
  function AccAdd(f: Format, a: int, x: int): int {
    if f == Pcm16 then (a + x + 0x8000_0000) % 0x1_0000_0000 - 0x8000_0000
    else (a + x + 0x8000_0000_0000_0000) % 0x1_0000_0000_0000_0000 - 0x8000_0000_0000_0000
  }

  function Accumulate(f: Format, xs: seq<int>): int {
    if xs == [] then 0 else AccAdd(f, Accumulate(f, xs[..|xs| - 1]), xs[|xs| - 1])
  }

  /** How many samples the accumulator takes, whatever they are. */
  function Most(f: Format): nat { if f == Pcm16 then 0x1_0000 else 0x1_0000_0000 }

  lemma {:induction false} SumBound(f: Format, xs: seq<int>)
    requires forall i :: 0 <= i < |xs| ==> Holds(f, xs[i])
    ensures f == Pcm16 ==> -0x8000 * |xs| <= Sum(xs) <= 0x8000 * |xs| - |xs|
    ensures f != Pcm16 ==> -0x8000_0000 * |xs| <= Sum(xs) <= 0x8000_0000 * |xs| - |xs|
  {
    if xs != [] {
      SumBound(f, xs[..|xs| - 1]);
    }
  }

  /** The accumulator holds the exact sum of up to that many. */
  lemma {:induction false} AccumulateExact(f: Format, xs: seq<int>)
    requires |xs| <= Most(f) && forall i :: 0 <= i < |xs| ==> Holds(f, xs[i])
    ensures Accumulate(f, xs) == Sum(xs)
  {
    if xs != [] {
      AccumulateExact(f, xs[..|xs| - 1]);
      SumBound(f, xs);
    }
  }

  /** For 16-bit samples that is exactly the number that it takes. */
  lemma AccumulatorRoom(n: nat)
    ensures n <= 0x1_0000 <==>
      (forall xs :: |xs| == n && (forall i :: 0 <= i < n ==> Holds(Pcm16, xs[i])) ==>
         Accumulate(Pcm16, xs) == Sum(xs))
  {
    hide Accumulate, Sum;
    if n <= 0x1_0000 {
      forall xs: seq<int> | |xs| == n && (forall i :: 0 <= i < n ==> Holds(Pcm16, xs[i]))
        ensures Accumulate(Pcm16, xs) == Sum(xs)
      {
        AccumulateExact(Pcm16, xs);
      }
    } else {
      var xs := seq(n, _ => -0x8000);
      LastStep(Pcm16, xs);
      SumOfSame(xs, -0x8000);
      assert Accumulate(Pcm16, xs) >= -0x8000_0000 > Sum(xs);
    }
  }

  lemma LastStep(f: Format, xs: seq<int>)
    requires xs != []
    ensures Accumulate(f, xs) == AccAdd(f, Accumulate(f, xs[..|xs| - 1]), xs[|xs| - 1])
    ensures Sum(xs) == Sum(xs[..|xs| - 1]) + xs[|xs| - 1]
  {
  }

  lemma {:induction false} SumOfSame(xs: seq<int>, x: int)
    requires forall i :: 0 <= i < |xs| ==> xs[i] == x
    ensures Sum(xs) == |xs| * x
  {
    if xs != [] {
      SumOfSame(xs[..|xs| - 1], x);
      assert |xs| * x == (|xs| - 1) * x + x;
    }
  }

  lemma {:induction false} SumSplit(xs: seq<int>, ys: seq<int>)
    ensures Sum(xs + ys) == Sum(xs) + Sum(ys)
  {
    if ys == [] {
      assert xs + ys == xs;
    } else {
      SumSplit(xs, ys[..|ys| - 1]);
      assert (xs + ys)[..|xs + ys| - 1] == xs + ys[..|ys| - 1];
    }
  }

  /** Taking the last of one arrangement out of both leaves two arrangements of the rest. */
  lemma SameWithout<T>(xs: seq<T>, ys: seq<T>, k: nat)
    requires multiset(xs) == multiset(ys) && xs != [] && k < |ys| && ys[k] == xs[|xs| - 1]
    ensures multiset(xs[..|xs| - 1]) == multiset(ys[..k] + ys[k + 1..])
  {
    var x, front, rest := ys[k], xs[..|xs| - 1], ys[..k] + ys[k + 1..];
    assert xs == front + [x];
    assert ys == ys[..k] + ([x] + ys[k + 1..]);
    forall e
      ensures multiset(front)[e] == multiset(rest)[e]
    {
      assert multiset(xs)[e] == multiset(front)[e] + multiset{x}[e];
      assert multiset(ys)[e] == multiset(rest)[e] + multiset{x}[e];
    }
  }

  /** Where the last of one arrangement is in the other. */
  lemma FindLast<T>(xs: seq<T>, ys: seq<T>) returns (k: nat)
    requires multiset(xs) == multiset(ys) && xs != []
    ensures k < |ys| && ys[k] == xs[|xs| - 1]
  {
    assert xs[|xs| - 1] in multiset(ys);
    k :| 0 <= k < |ys| && ys[k] == xs[|xs| - 1];
  }

  // ---------------------------------------------------------------- one round

  /** A path of the target: what the round looks at and changes. */
  datatype Path = Path(start: bool, underflow: bool, doMix: bool, dataEnough: bool, queue: seq<Byte>)

  /** A path joins when it is started and holds a whole buffer. */
  predicate Joins(p: Path, size: nat) { p.start && |p.queue| >= size }

  /** The buffers of the paths that join, in list order. */
  function Blocks(paths: seq<Path>, size: nat): (b: seq<seq<Byte>>)
    ensures |b| <= |paths|
    ensures forall i :: 0 <= i < |b| ==> |b[i]| == size
  {
    if paths == [] then []
    else
      var last := paths[|paths| - 1];
      Blocks(paths[..|paths| - 1], size) + if Joins(last, size) then [last.queue[..size]] else []
  }

  /** A path after the round: it lost exactly its first buffer, or it was stopped for want of
      one, or it was not touched. */
  function Mixed(p: Path, size: nat): Path {
    if !p.start then p
    else if |p.queue| < size then p.(start := false, underflow := true)
    else p.(queue := p.queue[size..], dataEnough := if |p.queue| - size < size then false else p.dataEnough)
  }

  /** Which is to say: a started path with a whole buffer loses just that and goes on, with its
      flag as true as it was; one without is stopped and keeps what it has; others stay. */
  lemma MixedMeans(p: Path, size: nat)
    ensures var q := Mixed(p, size);
      && (p.start && |p.queue| >= size ==>
            && p.queue == p.queue[..size] + q.queue && |p.queue[..size]| == size && q.start && q.underflow == p.underflow
            && ((p.dataEnough <==> |p.queue| >= size) ==> (q.dataEnough <==> |q.queue| >= size)))
      && (p.start && |p.queue| < size ==>
            !q.start && q.underflow && q.queue == p.queue && q.dataEnough == p.dataEnough)
      && (!p.start ==> q == p) && q.doMix == p.doMix
  {
  }

  /** The buffers are those of just these paths: one more path in front of the others. */
  lemma {:induction false} BlocksAre(p: Path, rest: seq<Path>, size: nat)
    ensures Blocks([p] + rest, size)
         == (if p.start && |p.queue| >= size then [p.queue[..size]] else []) + Blocks(rest, size)
    decreases |rest|
  {
    var all := [p] + rest;
    if rest == [] {
      assert all[..|all| - 1] == [];
    } else {
      assert all[..|all| - 1] == [p] + rest[..|rest| - 1];
      BlocksAre(p, rest[..|rest| - 1], size);
    }
  }

  function Unit(f: Format, block: seq<Byte>, i: nat): int
    requires i < |block| / Width(f)
  {
    Samples(f, block)[i]
  }

  /** The i-th sample of every block. */
  function Column(f: Format, blocks: seq<seq<Byte>>, i: nat): (c: seq<int>)
    requires forall b :: b in blocks ==> i < |b| / Width(f)
    ensures |c| == |blocks| && forall k :: 0 <= k < |c| ==> Holds(f, c[k])
  {
    if blocks == [] then []
    else Column(f, blocks[..|blocks| - 1], i) + [Unit(f, blocks[|blocks| - 1], i)]
  }

  /** Every block is so many whole samples. */
  predicate Whole(f: Format, blocks: seq<seq<Byte>>, units: nat) {
    forall b :: b in blocks ==> |b| == units * Width(f) && |b| / Width(f) == units
  }

  /** The limited sums of all blocks. */
  function Limited(f: Format, blocks: seq<seq<Byte>>, units: nat): (xs: seq<int>)
    requires Whole(f, blocks, units)
    ensures |xs| == units && forall i :: 0 <= i < units ==> Holds(f, xs[i])
  {
    seq(units, i requires 0 <= i < units => Limit(f, Sum(Column(f, blocks, i))))
  }

  /** What the round writes: nothing, the only block as it is, or the limited sums. */
  function Output(f: Format, blocks: seq<seq<Byte>>, units: nat): seq<Byte>
    requires Whole(f, blocks, units)
  {
    if blocks == [] then [] else if |blocks| == 1 then blocks[0] else Render(f, Limited(f, blocks, units))
  }

  /** Every sample written is the mathematical sum of the paths' samples, cut off at the limits
      of the format; a single path's buffer is written as it is. */
  lemma OutputIsLimitedSum(f: Format, blocks: seq<seq<Byte>>, units: nat, i: nat)
    requires i < units && Whole(f, blocks, units)
    ensures |blocks| >= 2 ==>
              |Output(f, blocks, units)| == units * Width(f) && |Samples(f, Output(f, blocks, units))| == units
    ensures |blocks| >= 2 ==>
              var x, y := Sum(Column(f, blocks, i)), Samples(f, Output(f, blocks, units))[i];
              && (x > Highest(f) ==> y == Highest(f))
              && (x < Lowest(f) ==> y == Lowest(f))
              && (Lowest(f) <= x <= Highest(f) ==> y == x)
    ensures |blocks| == 1 ==> Output(f, blocks, units) == blocks[0]
    ensures |blocks| == 0 ==> Output(f, blocks, units) == []
  {
    hide Samples, Render, Limit, Sum, Column, Width, Lowest, Highest;
    SamplesRender(f, Limited(f, blocks, units));
    LimitCuts(f, Sum(Column(f, blocks, i)));
  }

  lemma LimitCuts(f: Format, x: int)
    ensures x > Highest(f) ==> Limit(f, x) == Highest(f)
    ensures x < Lowest(f) ==> Limit(f, x) == Lowest(f)
    ensures Lowest(f) <= x <= Highest(f) ==> Limit(f, x) == x
  {
  }

  /** The order of the paths does not matter. */
  lemma OutputOrder(f: Format, a: seq<seq<Byte>>, b: seq<seq<Byte>>, units: nat)
    requires multiset(a) == multiset(b)
    requires Whole(f, a, units) && Whole(f, b, units)
    ensures Output(f, a, units) == Output(f, b, units)
  {
    hide Samples, Render, Limit, Sum;
    assert |a| == |multiset(a)| == |multiset(b)| == |b|;
    if |a| == 1 {
      assert a[0] in multiset(b);
    } else if |a| >= 2 {
      forall i | 0 <= i < units
        ensures Sum(Column(f, a, i)) == Sum(Column(f, b, i))
      {
        ColumnOrder(f, a, b, i);
      }
      assert Limited(f, a, units) == Limited(f, b, units);
    }
  }

  lemma {:induction false} ColumnSplit(f: Format, a: seq<seq<Byte>>, b: seq<seq<Byte>>, i: nat)
    requires forall x :: x in a ==> i < |x| / Width(f)
    requires forall x :: x in b ==> i < |x| / Width(f)
    ensures Column(f, a + b, i) == Column(f, a, i) + Column(f, b, i)
    decreases |b|
  {
    hide Unit, Width;
    if b == [] {
      assert a + b == a;
    } else {
      ColumnSplit(f, a, b[..|b| - 1], i);
      assert (a + b)[..|a + b| - 1] == a + b[..|b| - 1];
    }
  }

  lemma {:induction false} ColumnOrder(f: Format, a: seq<seq<Byte>>, b: seq<seq<Byte>>, i: nat)
    requires multiset(a) == multiset(b)
    requires forall x :: x in a ==> i < |x| / Width(f)
    requires forall x :: x in b ==> i < |x| / Width(f)
    ensures Sum(Column(f, a, i)) == Sum(Column(f, b, i))
    decreases |a|
  {
    hide Unit, Sum;
    if a == [] {
      assert |b| == |multiset(b)| == 0;
    } else {
      var x, front := a[|a| - 1], a[..|a| - 1];
      var k := FindLast(a, b);
      SameWithout(a, b, k);
      ColumnOrder(f, front, b[..k] + b[k + 1..], i);
      LastStep(Pcm16, Column(f, a, i));
      ColumnRemove(f, b, k, i);
    }
  }

  lemma ColumnRemove(f: Format, b: seq<seq<Byte>>, k: nat, i: nat)
    requires k < |b| && forall x :: x in b ==> i < |x| / Width(f)
    ensures Sum(Column(f, b, i)) == Sum(Column(f, b[..k] + b[k + 1..], i)) + Unit(f, b[k], i)
  {
    hide Unit, Sum;
    assert b == b[..k] + ([b[k]] + b[k + 1..]);
    ColumnSplit(f, b[..k], [b[k]] + b[k + 1..], i);
    ColumnSplit(f, [b[k]], b[k + 1..], i);
    ColumnSplit(f, b[..k], b[k + 1..], i);
    var left, one, right := Column(f, b[..k], i), Column(f, [b[k]], i), Column(f, b[k + 1..], i);
    SumSplit(left, one + right);
    SumSplit(one, right);
    SumSplit(left, right);
    SumOfSame(one, Unit(f, b[k], i));
  }

  /** Writing the only block as it is equals mixing it alone exactly when its samples lie within
      the limits, which only 24 bits in 32 leave open. */
  lemma ShortcutAgrees(f: Format, block: seq<Byte>, units: nat)
    requires Whole(f, [block], units)
    ensures Render(f, Limited(f, [block], units)) == block
       <==> (forall i :: 0 <= i < units ==> Lowest(f) <= Unit(f, block, i) <= Highest(f))
    ensures f != Pcm8_24 ==> Render(f, Limited(f, [block], units)) == block
  {
    hide Samples, Render, Sum, Limit, Decode, Encode, Width;
    var xs := Limited(f, [block], units);
    assert block in [block];
    WholeSamples(f, units);
    RenderSamples(f, block);
    SamplesRender(f, xs);
    forall i | 0 <= i < units
      ensures xs[i] == Limit(f, Unit(f, block, i))
    {
      SumOfSame(Column(f, [block], i), Unit(f, block, i));
    }
    if forall i :: 0 <= i < units ==> Lowest(f) <= Unit(f, block, i) <= Highest(f) {
      assert xs == Samples(f, block);
    }
    if Render(f, xs) == block {
      forall i | 0 <= i < units
        ensures Lowest(f) <= Unit(f, block, i) <= Highest(f)
      {
        assert xs[i] == Samples(f, block)[i];
      }
    }
  }

  // ---------------------------------------------------------------- the round in memory

  /** A path in the course of a round: found ready, or stopped. */
  function Marked(p: Path, size: nat): Path {
    if !p.start then p
    else if |p.queue| < size then p.(start := false, underflow := true)
    else p.(doMix := true)
  }

  /** A ready path after its first buffer was taken. */
  function Taken(p: Path, size: nat): Path
    requires |p.queue| >= size
  {
    p.(queue := p.queue[size..], dataEnough := if |p.queue| - size < size then false else p.dataEnough)
  }

  /** Where a path stands when its turn in the summing loop is over. */
  function Summed(p: Path, size: nat): Path {
    if Joins(p, size) then Taken(Marked(p, size), size) else Marked(p, size)
  }

  lemma BlocksStep(paths: seq<Path>, i: nat, size: nat)
    requires i < |paths|
    ensures Blocks(paths[..i + 1], size)
         == if Joins(paths[i], size) then Blocks(paths[..i], size) + [paths[i].queue[..size]] else Blocks(paths[..i], size)
  {
    assert paths[..i + 1][..i] == paths[..i];
  }

  lemma NoBlocks(paths: seq<Path>, size: nat)
    requires paths == []
    ensures Blocks(paths, size) == []
  {
  }

  lemma NoSum(f: Format)
    ensures forall j: nat :: Sum(Column(f, [], j)) == 0
  {
  }

  lemma BlocksWhole(f: Format, paths: seq<Path>, size: nat, units: nat)
    requires size == units * Width(f)
    ensures Whole(f, Blocks(paths, size), units)
  {
    WholeUnits(f, units);
  }

  lemma WholeSamples(f: Format, units: nat)
    ensures units * Width(f) % Width(f) == 0
  {
  }

  lemma WholeUnits(f: Format, units: nat)
    ensures units * Width(f) / Width(f) == units
  {
  }

  class MixTarget {
    const format: Format
    const size: nat           // of the target's buffer, in bytes
    const units: nat          // and in samples
    const outBuf: array<int>
    const mixBuf: array<int>
    var paths: seq<Path>

    ghost predicate Valid()
      reads this
    {
      && size == units * Width(format) && outBuf.Length == units && mixBuf.Length == units && outBuf != mixBuf
      && |paths| <= Most(format)
      && forall i :: 0 <= i < |paths| ==> !paths[i].doMix
    }

    /** The accumulators hold the exact sums of these blocks. */
    ghost predicate Totals(blocks: seq<seq<Byte>>)
      reads mixBuf
    {
      && mixBuf.Length == units
      && (forall b :: b in blocks ==> units == |b| / Width(format))
      && (forall j :: 0 <= j < units ==> mixBuf[j] == Sum(Column(format, blocks, j)))
    }

    constructor (f: Format, units: nat, paths: seq<Path>)
      requires |paths| <= Most(f) && forall i :: 0 <= i < |paths| ==> !paths[i].doMix
      ensures Valid() && this.paths == paths && format == f && this.units == units
    {
      format, size, this.units, this.paths := f, units * Width(f), units, paths;
      outBuf := new int[units];
      mixBuf := new int[units];
    }

    /** One round: every path that joins loses its first buffer, a started path without one is
        stopped, no other path changes; and the output of those buffers is written. */
    method DoMix() returns (wrote: bool, written: seq<Byte>)
      requires Valid()
      modifies this, outBuf, mixBuf
      ensures Valid() && |paths| == |old(paths)|
      ensures forall i :: 0 <= i < |paths| ==> paths[i] == Mixed(old(paths)[i], size)
      ensures Whole(format, Blocks(old(paths), size), units)
      ensures wrote <==> Blocks(old(paths), size) != []
      ensures written == Output(format, Blocks(old(paths), size), units)
    {
      hide Blocks, Render, Samples, Limited, Limit;
      ghost var was := paths;
      BlocksWhole(format, was, size, units);
      var num, ready := Mark();
      written := [];
      if num == 0 {
        wrote := false;
      } else {
        wrote := true;
        if num == 1 {
          written := paths[ready].queue[..size];
          paths := paths[ready := Taken(paths[ready], size)];
        } else {
          AddAll(was);
          LimitAll(Blocks(was, size));
          written := Render(format, outBuf[..]);
        }
        Clear();
      }
    }

    /** Marks the paths that join and stops those that ran dry. */
    method Mark() returns (num: nat, ready: nat)
      requires Valid()
      modifies this
      ensures |paths| == |old(paths)| && forall i :: 0 <= i < |paths| ==> paths[i] == Marked(old(paths)[i], size)
      ensures num == |Blocks(old(paths), size)|
      ensures num == 0 ==> forall i :: 0 <= i < |paths| ==> !Joins(old(paths)[i], size)
      ensures num > 0 ==> ready < |paths| && Joins(old(paths)[ready], size)
      ensures num == 1 ==> Blocks(old(paths), size) == [old(paths)[ready].queue[..size]]
      ensures num == 1 ==> forall i :: 0 <= i < |paths| && i != ready ==> !Joins(old(paths)[i], size)
    {
      hide Blocks;
      NoBlocks(paths[..0], size);
      num, ready := 0, 0;
      var i := 0;
      while i < |paths|
        invariant 0 <= i <= |paths| == |old(paths)|
        invariant forall k :: 0 <= k < i ==> paths[k] == Marked(old(paths)[k], size)
        invariant forall k :: i <= k < |paths| ==> paths[k] == old(paths)[k]
        invariant num == |Blocks(old(paths)[..i], size)|
        invariant num == 0 ==> forall k :: 0 <= k < i ==> !Joins(old(paths)[k], size)
        invariant num > 0 ==> ready < i && Joins(old(paths)[ready], size)
        invariant num == 1 ==> Blocks(old(paths)[..i], size) == [old(paths)[ready].queue[..size]]
        invariant num == 1 ==> forall k :: 0 <= k < i && k != ready ==> !Joins(old(paths)[k], size)
      {
        BlocksStep(old(paths), i, size);
        var p := paths[i];
        if p.start {
          if |p.queue| < size {
            paths := paths[i := p.(start := false, underflow := true)];
          } else {
            paths := paths[i := p.(doMix := true)];
            num := num + 1;
            ready := i;
          }
        }
        i := i + 1;
      }
      assert old(paths)[..i] == old(paths);
    }

    /** Takes a buffer from every marked path and sums them up. */
    method AddAll(ghost was: seq<Path>)
      requires size == units * Width(format) && outBuf.Length == units && mixBuf.Length == units && outBuf != mixBuf
      requires |paths| == |was| <= Most(format)
      requires forall i :: 0 <= i < |was| ==> !was[i].doMix && paths[i] == Marked(was[i], size)
      modifies this, outBuf, mixBuf
      ensures |paths| == |was| && forall i :: 0 <= i < |was| ==> paths[i] == Summed(was[i], size)
      ensures Totals(Blocks(was, size))
    {
      hide Samples, Width, Sum, Column, AccAdd, Holds, Blocks;
      forall j | 0 <= j < units {
        mixBuf[j] := 0;
      }
      WholeUnits(format, units);
      NoBlocks(was[..0], size);
      NoSum(format);
      assert Totals([]);
      var i := 0;
      while i < |paths|
        invariant 0 <= i <= |paths| == |was|
        invariant forall k :: 0 <= k < i ==> paths[k] == Summed(was[k], size)
        invariant forall k :: i <= k < |paths| ==> paths[k] == Marked(was[k], size)
        invariant Totals(Blocks(was[..i], size))
      {
        BlocksStep(was, i, size);
        if paths[i].doMix {
          var block := paths[i].queue[..size];
          paths := paths[i := Taken(paths[i], size)];
          AddBlock(block, Blocks(was[..i], size));
        }
        i := i + 1;
      }
      assert was[..i] == was;
    }

    /** Copies a buffer and adds it, sample by sample, in the width of the accumulator. */
    method AddBlock(block: seq<Byte>, ghost blocks: seq<seq<Byte>>)
      requires outBuf.Length == units && mixBuf.Length == units && outBuf != mixBuf
      requires units == |block| / Width(format) && |blocks| < Most(format)
      requires Totals(blocks)
      modifies outBuf, mixBuf
      ensures Totals(blocks + [block])
    {
      hide Width, Sum, Column, AccAdd, Holds, Samples;
      var samples := Samples(format, block);
      forall j | 0 <= j < units {
        outBuf[j] := samples[j];
      }
      var j := 0;
      while j < units
        invariant 0 <= j <= units
        invariant forall k :: 0 <= k < j ==> mixBuf[k] == Sum(Column(format, blocks + [block], k))
        invariant forall k :: j <= k < units ==> mixBuf[k] == Sum(Column(format, blocks, k))
        invariant forall k :: 0 <= k < units ==> outBuf[k] == samples[k]
      {
        AddExact(format, blocks, block, j);
        mixBuf[j] := AccAdd(format, mixBuf[j], outBuf[j]);
        j := j + 1;
      }
    }

    /** Limits every sum into the output buffer. */
    method LimitAll(ghost blocks: seq<seq<Byte>>)
      requires outBuf.Length == units && mixBuf.Length == units && outBuf != mixBuf
      requires Whole(format, blocks, units)
      requires Totals(blocks)
      modifies outBuf
      ensures outBuf[..] == Limited(format, blocks, units)
      ensures forall j :: 0 <= j < units ==>
                && (mixBuf[j] > Highest(format) ==> outBuf[j] == Highest(format))
                && (mixBuf[j] < Lowest(format) ==> outBuf[j] == Lowest(format))
                && (Lowest(format) <= mixBuf[j] <= Highest(format) ==> outBuf[j] == mixBuf[j])
    {
      hide Width, Sum, Column, Limit, Holds, Highest, Lowest;
      var j := 0;
      while j < units
        invariant 0 <= j <= units
        invariant forall k :: 0 <= k < j ==> outBuf[k] == Limit(format, Sum(Column(format, blocks, k)))
      {
        outBuf[j] := Limit(format, mixBuf[j]);
        j := j + 1;
      }
    }

    /** Forgets which paths joined. */
    method Clear()
      modifies this
      ensures |paths| == |old(paths)|
      ensures forall i :: 0 <= i < |paths| ==> paths[i] == old(paths)[i].(doMix := false)
    {
      var i := 0;
      while i < |paths|
        invariant 0 <= i <= |paths| == |old(paths)|
        invariant forall k :: 0 <= k < i ==> paths[k] == old(paths)[k].(doMix := false)
        invariant forall k :: i <= k < |paths| ==> paths[k] == old(paths)[k]
      {
        if paths[i].doMix {
          paths := paths[i := paths[i].(doMix := false)];
        }
        i := i + 1;
      }
    }
  }

  /** One more sample in the accumulator is one more in the exact sum. */
  lemma AddExact(f: Format, blocks: seq<seq<Byte>>, block: seq<Byte>, j: nat)
    requires |blocks| < Most(f) && j < |block| / Width(f)
    requires forall b :: b in blocks ==> j < |b| / Width(f)
    ensures forall b :: b in blocks + [block] ==> j < |b| / Width(f)
    ensures AccAdd(f, Sum(Column(f, blocks, j)), Unit(f, block, j)) == Sum(Column(f, blocks + [block], j))
  {
    hide Width, Sum, AccAdd, Holds, Unit;
    var all := blocks + [block];
    assert all[..|all| - 1] == blocks;
    var c := Column(f, blocks, j);
    assert Column(f, all, j) == c + [Unit(f, block, j)];
    AccumulateExact(f, c);
    AccumulateExact(f, Column(f, all, j));
    LastStep(f, Column(f, all, j));
    assert Column(f, all, j)[..|blocks|] == c;
  }
}
