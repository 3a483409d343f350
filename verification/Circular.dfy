/** Bytes in a memory that wraps: positions, runs of bytes that may pass the end, and the
    one or two straight copies that such a run amounts to. */
module Circular {

  newtype Byte = x: int | 0 <= x < 256

  /** The position k after i. */
  function At(n: nat, i: nat, k: nat): (j: nat)
    requires i < n && k <= n
    ensures j < n
  {
    if i + k < n then i + k else i + k - n
  }

  /** The position k before i. */
  function Before(n: nat, i: nat, k: nat): (j: nat)
    requires i < n && k <= n
    ensures j < n && At(n, j, k) == i
  {
    if i >= k then i - k else i + n - k
  }

  /** How far j lies after i. */
  function Dist(n: nat, i: nat, j: nat): (k: nat)
    requires i < n && j < n
    ensures k < n && At(n, i, k) == j
  {
    if j >= i then j - i else j + n - i
  }

  /** The k bytes from a position on. */
  function Window(buf: seq<Byte>, at: nat, k: nat): (w: seq<Byte>)
    requires at < |buf| && k <= |buf|
    ensures |w| == k
  {
    seq(k, i requires 0 <= i < k => buf[At(|buf|, at, i)])
  }

  /** The memory with bytes stored from a position on. */
  function Stored(buf: seq<Byte>, at: nat, bytes: seq<Byte>): (s: seq<Byte>)
    requires at < |buf| && |bytes| <= |buf|
    ensures |s| == |buf|
  {
    seq(|buf|, i requires 0 <= i < |buf| =>
      if Dist(|buf|, at, i) < |bytes| then bytes[Dist(|buf|, at, i)] else buf[i])
  }

  /** bytes in place of what lies at a position. */
  function Splice(buf: seq<Byte>, at: nat, bytes: seq<Byte>): (s: seq<Byte>)
    requires at + |bytes| <= |buf|
    ensures |s| == |buf|
  {
    buf[..at] + bytes + buf[at + |bytes|..]
  }

  /** n copies of a value. */
  function Repeat(value: Byte, n: nat): (r: seq<Byte>)
    ensures |r| == n && forall b :: b in r ==> b == value
  {
    seq(n, _ => value)
  }

  lemma AtTwice(n: nat, i: nat, j: nat, k: nat)
    requires i < n && j + k <= n
    ensures At(n, At(n, i, j), k) == At(n, i, j + k)
  {
  }

  /** A window in two parts. */
  lemma WindowSplit(buf: seq<Byte>, at: nat, j: nat, k: nat)
    requires at < |buf| && j + k <= |buf|
    ensures Window(buf, at, j + k) == Window(buf, at, j) + Window(buf, At(|buf|, at, j), k)
  {
    var one, two := Window(buf, at, j), Window(buf, At(|buf|, at, j), k);
    forall i | 0 <= i < j + k
      ensures Window(buf, at, j + k)[i] == (one + two)[i]
    {
      if i >= j {
        AtTwice(|buf|, at, j, i - j);
      }
    }
  }

  /** What was stored can be seen. */
  lemma WindowStored(buf: seq<Byte>, at: nat, bytes: seq<Byte>)
    requires at < |buf| && |bytes| <= |buf|
    ensures Window(Stored(buf, at, bytes), at, |bytes|) == bytes
  {
    forall i | 0 <= i < |bytes|
      ensures Dist(|buf|, at, At(|buf|, at, i)) == i
    {
    }
  }

  /** Storing d after the start of a window no longer than that, and not so much as to come
      round to it, leaves the window alone. */
  lemma WindowApart(buf: seq<Byte>, from: nat, k: nat, d: nat, bytes: seq<Byte>)
    requires from < |buf| && k <= d && d + |bytes| <= |buf|
    ensures Window(Stored(buf, At(|buf|, from, d), bytes), from, k) == Window(buf, from, k)
  {
    forall i | 0 <= i < k
      ensures Dist(|buf|, At(|buf|, from, d), At(|buf|, from, i)) >= |bytes|
    {
    }
  }

  /** A window is one stretch of the memory, or two when the end is in the way. */
  lemma WindowSlices(buf: seq<Byte>, at: nat, k: nat)
    requires at < |buf| && k <= |buf|
    ensures at + k <= |buf| ==> Window(buf, at, k) == buf[at..at + k]
    ensures at + k > |buf| ==> Window(buf, at, k) == buf[at..] + buf[..at + k - |buf|]
  {
  }

  /** Storing is one splice, or two when the end of the memory is in the way. */
  lemma StoredSplices(buf: seq<Byte>, at: nat, bytes: seq<Byte>)
    requires at < |buf| && |bytes| <= |buf|
    ensures at + |bytes| <= |buf| ==> Stored(buf, at, bytes) == Splice(buf, at, bytes)
    ensures at + |bytes| > |buf| ==>
              Stored(buf, at, bytes)
              == Splice(Splice(buf, at, bytes[..|buf| - at]), 0, bytes[|buf| - at..])
  {
    if at + |bytes| <= |buf| {
      var want := Splice(buf, at, bytes);
      forall i | 0 <= i < |buf| ensures Stored(buf, at, bytes)[i] == want[i] {
      }
    } else {
      var end := |buf| - at;
      var one := Splice(buf, at, bytes[..end]);
      var want := Splice(one, 0, bytes[end..]);
      forall i | 0 <= i < |buf| ensures Stored(buf, at, bytes)[i] == want[i] {
        assert one[i] == if i < at then buf[i] else bytes[i - at];
      }
    }
  }

  /** Storing in two parts is storing the whole. */
  lemma StoredTwice(buf: seq<Byte>, at: nat, a: seq<Byte>, b: seq<Byte>)
    requires at < |buf| && |a| + |b| <= |buf|
    ensures Stored(Stored(buf, at, a), At(|buf|, at, |a|), b) == Stored(buf, at, a + b)
  {
    var next := At(|buf|, at, |a|);
    forall i | 0 <= i < |buf|
      ensures Stored(Stored(buf, at, a), next, b)[i] == Stored(buf, at, a + b)[i]
    {
      var d := Dist(|buf|, at, i);
      if |b| > 0 {
        assert Dist(|buf|, next, i) == if d >= |a| then d - |a| else d + |buf| - |a|;
      }
    }
  }

  lemma StoredNothing(buf: seq<Byte>, at: nat)
    requires at < |buf|
    ensures Stored(buf, at, []) == buf
  {
  }

  /** Writing the front of the memory and writing its end commute. */
  lemma SplicesCommute(buf: seq<Byte>, front: seq<Byte>, back: seq<Byte>)
    requires |front| + |back| <= |buf|
    ensures Splice(Splice(buf, 0, front), |buf| - |back|, back) == Splice(Splice(buf, |buf| - |back|, back), 0, front)
    ensures front == [] ==> Splice(buf, 0, front) == buf
  {
    var middle := buf[|front|..|buf| - |back|];
    assert Splice(Splice(buf, 0, front), |buf| - |back|, back) == front + middle + back;
    assert Splice(Splice(buf, |buf| - |back|, back), 0, front) == front + middle + back;
  }

  /** The two parts of one run of values. */
  lemma FillParts(value: Byte, end: nat, n: nat)
    requires end <= n
    ensures Repeat(value, n)[..end] == Repeat(value, end) && Repeat(value, n)[end..] == Repeat(value, n - end)
  {
  }

  /** memcpy into a memory. */
  method CopyBytes(mem: array<Byte>, at: nat, bytes: seq<Byte>)
    requires at + |bytes| <= mem.Length
    modifies mem
    ensures mem[..] == Splice(old(mem[..]), at, bytes)
  {
    forall i | 0 <= i < |bytes| {
      mem[at + i] := bytes[i];
    }
  }

  /** memset into a memory. */
  method FillBytes(mem: array<Byte>, at: nat, value: Byte, n: nat)
    requires at + n <= mem.Length
    modifies mem
    ensures mem[..] == Splice(old(mem[..]), at, Repeat(value, n))
  {
    forall i | 0 <= i < n {
      mem[at + i] := value;
    }
  }
}
