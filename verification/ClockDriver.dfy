/** The counters of drivers/clk/v1/mtk_clk.c in memory: 8-bit numbers, switches and the selections
    of the multiplexers, updated in place. */
module ClockDriver {
  import opened Bags
  import opened ClockTree
  import opened ClockRuns

  ghost predicate InByte(cnt: seq<int>) {
    forall x :: 0 <= x < |cnt| ==> -128 <= cnt[x] <= 127
  }

  ghost predicate NoneAbove(cnt: seq<int>) {
    forall x :: 0 <= x < |cnt| ==> cnt[x] <= 127
  }

  lemma NoLowerOn(a: seq<int>, b: seq<int>, c: seq<int>)
    requires NoLower(a, b) && NoLower(b, c)
    ensures NoLower(a, c)
  {
  }

  lemma OneMore(cnt: seq<int>, c: nat)
    requires c < |cnt|
    ensures NoLower(cnt, cnt) && NoLower(cnt, cnt[c := cnt[c] + 1])
  {
  }

  /** Acquiring lowers no counter, whatever the state. */
  lemma {:induction false} AcquireRaises(t: Tree, sel: seq<nat>, kind: Kind, ch: Channel, c: nat)
    requires Fits(t, sel, ch) && c < t.Size()
    ensures NoLower(ch.cnt, Acquire(t, sel, kind, ch, c).cnt)
    decreases t.rank[c] + 1, 0
  {
    hide NoLower, AcquireAll, Tree.Valid, Tree.Needs;
    Ranked(t);
    OneMore(ch.cnt, c);
    if !t.clocks[c].alwaysOn && ch.cnt[c] == 0 {
      NeedsBelow(t, sel, kind, c);
      var up, needs := ch.Count(c, 1), t.Needs(sel, kind, c);
      AcquireAllRaises(t, sel, kind, up, needs, t.rank[c], 0);
      NoLowerOn(ch.cnt, up.cnt, AcquireAll(t, sel, kind, up, needs, t.rank[c]).cnt);
    }
  }

  lemma {:induction false} AcquireAllRaises(t: Tree, sel: seq<nat>, kind: Kind, ch: Channel, ms: seq<nat>, bound: nat, i: nat)
    requires Fits(t, sel, ch) && Below(t, ms, bound) && i <= |ms|
    ensures NoLower(AcquireAll(t, sel, kind, ch, ms[..i], bound).cnt, AcquireAll(t, sel, kind, ch, ms, bound).cnt)
    ensures NoLower(ch.cnt, AcquireAll(t, sel, kind, ch, ms, bound).cnt)
    decreases bound, |ms|
  {
    hide NoLower, Acquire;
    SameIsNoLower(AcquireAll(t, sel, kind, ch, ms, bound).cnt);
    if i == |ms| {
      assert ms[..i] == ms;
    }
    if ms != [] {
      var last := |ms| - 1;
      var init := ms[..last];
      var mid := AcquireAll(t, sel, kind, ch, init, bound);
      var end := AcquireAll(t, sel, kind, ch, ms, bound);
      NeedBelow(t, ms, bound, last);
      AcquireRaises(t, sel, kind, mid, ms[last]);
      AcquireAllRaises(t, sel, kind, ch, init, bound, if i <= last then i else last);
      NoLowerOn(ch.cnt, mid.cnt, end.cnt);
      if i <= last {
        assert init[..i] == ms[..i];
        NoLowerOn(AcquireAll(t, sel, kind, ch, ms[..i], bound).cnt, mid.cnt, end.cnt);
      }
    }
  }

  lemma SameIsNoLower(cnt: seq<int>)
    ensures NoLower(cnt, cnt)
  {
  }

  lemma NoneAboveLower(a: seq<int>, b: seq<int>)
    requires NoLower(a, b) && NoneAbove(b)
    ensures NoneAbove(a)
  {
  }

  lemma StandInFirst(t: Tree, sel: seq<nat>, kind: Kind, c: nat)
    requires t.Selects(sel) && c < t.Size() && t.clocks[c].hc.Some?
    ensures var back := t.Returns(sel, kind, c);
            |back| > 0 && back[0] == t.clocks[c].hc.value < t.Size()
  {
  }

  lemma NeedBelow(t: Tree, ms: seq<nat>, bound: nat, i: nat)
    requires t.Valid() && Below(t, ms, bound) && i < |ms|
    ensures ms[i] < t.Size() == |t.rank| && t.rank[ms[i]] < bound
  {
  }

  lemma InByteNoneAbove(cnt: seq<int>)
    requires InByte(cnt)
    ensures NoneAbove(cnt)
  {
  }

  /** Releasing keeps 8-bit counters what they are. */
  lemma {:induction false} ReleaseInByte(t: Tree, sel: seq<nat>, kind: Kind, ch: Channel, c: nat)
    requires Fits(t, sel, ch) && InByte(ch.cnt) && c < t.Size()
    ensures InByte(Release(t, sel, kind, ch, c).cnt)
    decreases t.rank[c] + 1, 0
  {
    hide InByte, ReleaseAll, Tree.Needs, Tree.Returns, Tree.Valid;
    Ranked(t);
    OneLess(ch.cnt, c);
    if !t.clocks[c].alwaysOn && ch.cnt[c] == 1 {
      NeedsBelow(t, sel, kind, c);
      ReleaseAllInByte(t, sel, kind, ch.Count(c, 0).Switch(sel, c, false), t.Returns(sel, kind, c), t.rank[c]);
    }
  }

  lemma OneLess(cnt: seq<int>, c: nat)
    requires InByte(cnt) && c < |cnt|
    ensures cnt[c] > 0 ==> InByte(cnt[c := cnt[c] - 1])
  {
  }

  lemma {:induction false} ReleaseAllInByte(t: Tree, sel: seq<nat>, kind: Kind, ch: Channel, ms: seq<nat>, bound: nat)
    requires Fits(t, sel, ch) && InByte(ch.cnt) && Below(t, ms, bound)
    ensures InByte(ReleaseAll(t, sel, kind, ch, ms, bound).cnt)
    decreases bound, |ms|
  {
    if ms != [] {
      var i := |ms| - 1;
      ReleaseAllInByte(t, sel, kind, ch, ms[..i], bound);
      ReleaseInByte(t, sel, kind, ReleaseAll(t, sel, kind, ch, ms[..i], bound), ms[i]);
    }
  }

  /** One more vote of a list, with counters that agree up to there if none had to pass 127. */
  lemma AcquireOneMore(t: Tree, sel: seq<nat>, kind: Kind, ch: Channel, needs: seq<nat>, bound: nat, i: nat,
                       now: Channel, next: Channel)
    requires Fits(t, sel, ch) && Fits(t, sel, now) && Below(t, needs, bound) && i < |needs|
    requires now == AcquireAll(t, sel, kind, ch, needs[..i], bound)
        <==> NoneAbove(AcquireAll(t, sel, kind, ch, needs[..i], bound).cnt)
    requires next == Acquire(t, sel, kind, now, needs[i]) <==> NoneAbove(Acquire(t, sel, kind, now, needs[i]).cnt)
    requires InByte(next.cnt)
    ensures next == AcquireAll(t, sel, kind, ch, needs[..i + 1], bound)
       <==> NoneAbove(AcquireAll(t, sel, kind, ch, needs[..i + 1], bound).cnt)
  {
    hide Acquire, InByte, NoneAbove, NoLower, Tree.Valid, Tree.Needs;
    var more := needs[..i + 1];
    assert more[..i] == needs[..i] && more[i] == needs[i];
    InByteNoneAbove(next.cnt);
    AcquireAllRaises(t, sel, kind, ch, more, bound, i);
    if NoneAbove(AcquireAll(t, sel, kind, ch, more, bound).cnt) {
      NoneAboveLower(AcquireAll(t, sel, kind, ch, needs[..i], bound).cnt, AcquireAll(t, sel, kind, ch, more, bound).cnt);
    }
  }

  // ---------------------------------------------------------------- what a release answers

  /** The k-th stand-in of a clock, the clock itself being the first. */
  function StandIn(t: Tree, c: nat, k: nat): Option<nat>
    decreases k
  {
    if k == 0 then Some(c)
    else if c < t.Size() && t.clocks[c].hc.Some? then StandIn(t, t.clocks[c].hc.value, k - 1)
    else None
  }

  /** Its last vote being released gets to a clock that is counted for the last time as well. */
  predicate LastVoteOf(t: Tree, cnt: seq<int>, x: Option<nat>) {
    x.Some? && x.value < t.Size() == |cnt| && !t.clocks[x.value].alwaysOn && cnt[x.value] == 1
  }

  /** Or to one that is not counted at all. */
  predicate NoVoteOf(t: Tree, cnt: seq<int>, x: Option<nat>) {
    x.Some? && x.value < t.Size() == |cnt| && !t.clocks[x.value].alwaysOn && cnt[x.value] <= 0
  }

  ghost predicate RefusedAt(t: Tree, cnt: seq<int>, c: nat, k: nat) {
    NoVoteOf(t, cnt, StandIn(t, c, k)) && forall j :: 0 <= j < k ==> LastVoteOf(t, cnt, StandIn(t, c, j))
  }

  lemma {:induction false} StandInBelow(t: Tree, c: nat, k: nat)
    requires t.Valid() && c < t.Size()
    ensures var x := StandIn(t, c, k);
            x.Some? ==> x.value < t.Size() && (k > 0 ==> t.rank[x.value] < t.rank[c])
    decreases k
  {
    if k > 0 && t.clocks[c].hc.Some? {
      StandInBelow(t, t.clocks[c].hc.value, k - 1);
    }
  }

  /** A release is refused exactly if, along the chain of stand-ins, one counter is at zero behind
      nothing but last votes. */
  lemma {:induction false} RefusedIff(t: Tree, sel: seq<nat>, kind: Kind, ch: Channel, c: nat)
    requires Fits(t, sel, ch) && c < t.Size()
    ensures Accepted(t, sel, kind, ch, c) <==> !exists k: nat :: RefusedAt(t, ch.cnt, c, k)
    decreases t.rank[c]
  {
    var deeper := !t.clocks[c].alwaysOn && ch.cnt[c] == 1 && t.clocks[c].hc.Some?;
    if deeper {
      RefusedIff(t, sel, kind, ch.Count(c, 0).Switch(sel, c, false), t.clocks[c].hc.value);
    }
    forall k: nat
      ensures RefusedAt(t, ch.cnt, c, k) <==>
                if k == 0 then NoVoteOf(t, ch.cnt, Some(c))
                else deeper && RefusedAt(t, ch.Count(c, 0).cnt, t.clocks[c].hc.value, k - 1)
    {
      if k > 0 && t.clocks[c].hc.Some? {
        RefusedDeeper(t, ch.cnt, c, k);
      }
    }
    if deeper && !Accepted(t, sel, kind, ch, c) {
      var k: nat :| RefusedAt(t, ch.Count(c, 0).cnt, t.clocks[c].hc.value, k);
      assert RefusedAt(t, ch.cnt, c, k + 1);
    } else if !Accepted(t, sel, kind, ch, c) {
      assert RefusedAt(t, ch.cnt, c, 0);
    }
  }

  lemma RefusedDeeper(t: Tree, cnt: seq<int>, c: nat, k: nat)
    requires t.Valid() && |cnt| == t.Size() && c < t.Size() && k > 0 && t.clocks[c].hc.Some?
    ensures RefusedAt(t, cnt, c, k)
       <==> LastVoteOf(t, cnt, Some(c)) && RefusedAt(t, cnt[c := 0], t.clocks[c].hc.value, k - 1)
  {
    var h, low := t.clocks[c].hc.value, cnt[c := 0];
    forall j: nat
      ensures LastVoteOf(t, low, StandIn(t, h, j)) <==> LastVoteOf(t, cnt, StandIn(t, c, j + 1))
      ensures NoVoteOf(t, low, StandIn(t, h, j)) <==> NoVoteOf(t, cnt, StandIn(t, c, j + 1))
    {
      StandInBelow(t, c, j + 1);
    }
    assert StandIn(t, c, 0) == Some(c);
    if RefusedAt(t, cnt, c, k) {
      assert LastVoteOf(t, cnt, StandIn(t, c, 0));
      forall j | 0 <= j < k - 1 ensures LastVoteOf(t, low, StandIn(t, h, j)) {
        assert LastVoteOf(t, cnt, StandIn(t, c, j + 1));
      }
    }
    if LastVoteOf(t, cnt, Some(c)) && RefusedAt(t, low, h, k - 1) {
      forall j | 0 <= j < k ensures LastVoteOf(t, cnt, StandIn(t, c, j)) {
        assert j > 0 ==> LastVoteOf(t, low, StandIn(t, h, j - 1));
      }
    }
  }

  /** int8_t conversion. */
  function ToInt8(v: int): int {
    (v + 128) % 256 - 128
  }

  /** Clock 0 enabled so many times. */
  function TakenTimes(n: nat): (ops: seq<Op>)
    ensures |ops| == n && forall i :: 0 <= i < n ==> ops[i] == Take(Enable, 0)
  {
    seq(n, _ => Take(Enable, 0))
  }

  lemma {:induction false} CountsUp(n: nat)
    ensures FOUR.Selects(ON_ONE) && InRange(FOUR, TakenTimes(n))
    ensures Run(FOUR, ON_ONE, TakenTimes(n)).sel == ON_ONE && Run(FOUR, ON_ONE, TakenTimes(n)).en.cnt[0] == n
  {
    hide AcquireAll;
    FourIsValid();
    var ops := TakenTimes(n);
    if n > 0 {
      CountsUp(n - 1);
      assert ops[..|ops| - 1] == TakenTimes(n - 1);
      var w := Run(FOUR, ON_ONE, TakenTimes(n - 1));
      assert Run(FOUR, ON_ONE, ops) == Step(FOUR, w, Take(Enable, 0));
      if n == 1 {
        LoneWakes(ON_ONE, w.en, 0);
      }
    }
  }

  /** A clock enabled 127 times is enabled once more: the 8-bit counter becomes -128 instead of
      128. */
  lemma FullCounter()
    ensures FOUR.Selects(ON_ONE) && InRange(FOUR, TakenTimes(127))
    ensures var w := Run(FOUR, ON_ONE, TakenTimes(127));
            w.en.cnt[0] == 127 && !NoneAbove(Acquire(FOUR, ON_ONE, Enable, w.en, 0).cnt) && ToInt8(w.en.cnt[0] + 1) == -128
  {
    CountsUp(127);
    CountsUp(128);
    assert TakenTimes(128)[..127] == TakenTimes(127);
    assert Acquire(FOUR, ON_ONE, Enable, Run(FOUR, ON_ONE, TakenTimes(127)).en, 0).cnt[0] == 128;
  }

  /** One kind of counter for every clock, and the switches it drives. */
  class Counters {
    const kind: Kind
    var cnt: seq<int>
    var on: seq<bool>
    ghost var log: seq<Shot>

    ghost function Now(): Channel
      reads this
    {
      Channel(cnt, on, log)
    }

    constructor (kind: Kind, n: nat)
      ensures this.kind == kind && fresh(this)
      ensures Now() == Channel(seq(n, _ => 0), seq(n, _ => false), [])
    {
      this.kind := kind;
      cnt, on, log := seq(n, _ => 0), seq(n, _ => false), [];
    }

    method Switch(sel: seq<nat>, c: nat, up: bool)
      requires c < |on|
      modifies this`on, this`log
      ensures Now() == old(Now()).Switch(sel, c, up)
    {
      on := on[c := up];
      log := log + [Shot(sel, on)];
    }

    /** The 8-bit counters behave as counters exactly as long as none has to pass 127. */
    method AcquireNolock(t: Tree, sel: seq<nat>, c: nat)
      requires Fits(t, sel, Now()) && InByte(cnt) && c < t.Size()
      modifies this
      ensures Fits(t, sel, Now()) && InByte(cnt)
      ensures Now() == Acquire(t, sel, kind, old(Now()), c)
         <==> NoneAbove(Acquire(t, sel, kind, old(Now()), c).cnt)
      decreases t.rank[c] + 1, 0
    {
      if t.clocks[c].alwaysOn {
        return;
      }
      AcquireRaises(t, sel, kind, Now(), c);
      ghost var up := Now().Count(c, cnt[c] + 1);
      cnt := cnt[c := ToInt8(cnt[c] + 1)];
      if cnt[c] != 1 {
        assert up.cnt[c] == cnt[c] || up.cnt[c] == 128;
        return;
      }
      AcquireNeeds(t, sel, c);
      Switch(sel, c, true);
    }

    method AcquireNeeds(t: Tree, sel: seq<nat>, c: nat)
      requires Fits(t, sel, Now()) && InByte(cnt) && c < t.Size()
      modifies this
      ensures Fits(t, sel, Now()) && InByte(cnt) && Below(t, t.Needs(sel, kind, c), t.rank[c])
      ensures Now() == AcquireAll(t, sel, kind, old(Now()), t.Needs(sel, kind, c), t.rank[c])
         <==> NoneAbove(AcquireAll(t, sel, kind, old(Now()), t.Needs(sel, kind, c), t.rank[c]).cnt)
      decreases t.rank[c], |t.Needs(sel, kind, c)| + 1
    {
      hide Acquire, InByte, NoneAbove, NoLower, Tree.Valid, Tree.Needs, Tree.Returns;
      var needs := t.Needs(sel, kind, c);
      Ranked(t);
      NeedsBelow(t, sel, kind, c);
      InByteNoneAbove(cnt);
      for i := 0 to |needs|
        invariant Fits(t, sel, Now()) && InByte(cnt)
        invariant Now() == AcquireAll(t, sel, kind, old(Now()), needs[..i], t.rank[c])
             <==> NoneAbove(AcquireAll(t, sel, kind, old(Now()), needs[..i], t.rank[c]).cnt)
      {
        ghost var now := Now();
        NeedBelow(t, needs, t.rank[c], i);
        AcquireNolock(t, sel, needs[i]);
        AcquireOneMore(t, sel, kind, old(Now()), needs, t.rank[c], i, now, Now());
      }
      assert needs[..|needs|] == needs;
    }

    method ReleaseNolock(t: Tree, sel: seq<nat>, c: nat) returns (ret: int)
      requires Fits(t, sel, Now()) && c < t.Size()
      modifies this
      ensures Fits(t, sel, Now()) && Now() == Release(t, sel, kind, old(Now()), c)
      ensures ret == if Accepted(t, sel, kind, old(Now()), c) then 0 else -22
      decreases t.rank[c] + 1, 0
    {
      if t.clocks[c].alwaysOn {
        return 0;
      }
      if cnt[c] <= 0 {
        return -EINVAL;
      }
      cnt := cnt[c := cnt[c] - 1];
      if cnt[c] != 0 {
        return 0;
      }
      Switch(sel, c, false);
      ret := ReleaseReturns(t, sel, c);
    }

    /** Only the stand-in's answer is reported; the other releases are not looked at. */
    method ReleaseReturns(t: Tree, sel: seq<nat>, c: nat) returns (ret: int)
      requires Fits(t, sel, Now()) && c < t.Size()
      modifies this
      ensures Fits(t, sel, Now()) && Below(t, t.Returns(sel, kind, c), t.rank[c])
      ensures Now() == ReleaseAll(t, sel, kind, old(Now()), t.Returns(sel, kind, c), t.rank[c])
      ensures ret == if t.clocks[c].hc.Some? && !Accepted(t, sel, kind, old(Now()), t.clocks[c].hc.value)
                     then -22 else 0
      decreases t.rank[c], |t.Returns(sel, kind, c)| + 1
    {
      hide Release, Accepted, Tree.Valid, Tree.Needs, Tree.Returns;
      var back := t.Returns(sel, kind, c);
      Ranked(t);
      NeedsBelow(t, sel, kind, c);
      if t.clocks[c].hc.Some? {
        StandInFirst(t, sel, kind, c);
      }
      ret := 0;
      for i := 0 to |back|
        invariant Fits(t, sel, Now())
        invariant Now() == ReleaseAll(t, sel, kind, old(Now()), back[..i], t.rank[c])
        invariant ret == if i > 0 && t.clocks[c].hc.Some? && !Accepted(t, sel, kind, old(Now()), back[0])
                         then -EINVAL else 0
      {
        NeedBelow(t, back, t.rank[c], i);
        assert back[..i + 1][..i] == back[..i];
        var r := ReleaseNolock(t, sel, back[i]);
        if i == 0 && t.clocks[c].hc.Some? {
          ret := r;
        }
      }
      assert back[..|back|] == back;
    }

    /** A clock that is counted votes for the parent it is about to get. */
    method VoteFor(t: Tree, sel: seq<nat>, c: nat, p: nat)
      requires Fits(t, sel, Now()) && InByte(cnt) && c < t.Size() && p < t.Size()
      modifies this
      ensures Fits(t, sel, Now()) && InByte(cnt)
      ensures Now() == Vote(t, sel, kind, old(Now()), c, p)
         <==> NoneAbove(Vote(t, sel, kind, old(Now()), c, p).cnt)
    {
      hide Acquire;
      if cnt[c] > 0 {
        AcquireNolock(t, sel, p);
      }
    }

    /** The past is handed over. */
    ghost method Forget()
      modifies this`log
      ensures Now() == old(Now()).Forget()
    {
      log := [];
    }

    /** And gives back its vote on the former one. */
    method GiveBack(t: Tree, turned: seq<nat>, c: nat, former: Option<nat>)
      requires Fits(t, turned, Now()) && InByte(cnt) && c < t.Size() && (former.Some? ==> former.value < t.Size())
      modifies this
      ensures Fits(t, turned, Now()) && InByte(cnt) && Now() == Finish(t, turned, kind, old(Now()), c, former)
    {
      hide Release, InByte;
      if cnt[c] > 0 && former.Some? {
        ReleaseInByte(t, turned, kind, Now(), former.value);
        var _ := ReleaseNolock(t, turned, former.value);
      }
    }
  }

  /** The whole driver: what the multiplexers select, and both kinds of counters. */
  class Driver {
    const t: Tree
    var sel: seq<nat>
    const prep: Counters
    const en: Counters
    ghost var log: seq<Scene>

    ghost function Now(): World
      reads this, prep, en
    {
      World(sel, prep.Now(), en.Now(), log)
    }

    ghost predicate Valid()
      reads this, prep, en
    {
      && prep != en && prep.kind == Prepare && en.kind == Enable
      && Whole(t, Now()) && InByte(prep.cnt) && InByte(en.cnt)
    }

    constructor (t: Tree, sel: seq<nat>)
      requires t.Selects(sel)
      ensures Valid() && this.t == t && Now() == Idle(sel, t.Size())
    {
      this.t, this.sel, this.log := t, sel, [];
      prep := new Counters(Prepare, |t.clocks|);
      en := new Counters(Enable, |t.clocks|);
    }

    /** What a call on one kind of counters has gone through belongs to the past of the whole. */
    ghost method Record(kind: Kind)
      requires prep != en
      modifies this`log, prep`log, en`log
      ensures Now() == old(Now()).With(kind, old(Now()).Of(kind))
    {
      if kind.Prepare? {
        log := log + AllSeen(kind, prep.log, en.on);
        prep.Forget();
      } else {
        log := log + AllSeen(kind, en.log, prep.on);
        en.Forget();
      }
    }

    /** clk_prepare and clk_enable. */
    method Acquire(kind: Kind, c: nat)
      requires Valid() && c < t.Size()
      modifies this`log, prep, en
      ensures Valid()
      ensures NoneAbove(Moves(t, old(Now()), Take(kind, c)).cnt) ==> Now() == Step(t, old(Now()), Take(kind, c))
    {
      hide ClockTree.Acquire, NoneAbove, InByte, Tree.Valid;
      if kind.Prepare? {
        prep.AcquireNolock(t, sel, c);
      } else {
        en.AcquireNolock(t, sel, c);
      }
      Record(kind);
    }

    /** clk_unprepare and clk_disable. */
    method Release(kind: Kind, c: nat) returns (ret: int)
      requires Valid() && c < t.Size()
      modifies this`log, prep, en
      ensures Valid() && Now() == Step(t, old(Now()), Give(kind, c))
      ensures ret == if Accepted(t, sel, kind, old(Now()).Of(kind), c) then 0 else -22
    {
      hide ClockTree.Release, Accepted, InByte, Tree.Valid;
      if kind.Prepare? {
        ReleaseInByte(t, sel, kind, prep.Now(), c);
        ret := prep.ReleaseNolock(t, sel, c);
      } else {
        ReleaseInByte(t, sel, kind, en.Now(), c);
        ret := en.ReleaseNolock(t, sel, c);
      }
      Record(kind);
    }

    /** One write to the register of a multiplexer. */
    method Write(s: seq<nat>)
      modifies this`sel, this`log
      ensures Now() == old(Now()).Select(s)
    {
      sel := s;
      log := log + [Scene(s, prep.on, en.on)];
    }

    /** What is selected and returned is always that of the reparenting proved above; so are all
        counters and switches, and every hardware state in its order, as long as no counter has
        to pass 127. */
    method SetParentNolock(c: nat, p: nat) returns (ret: int)
      requires Valid() && c < t.Size() && p < t.Size()
      modifies this`sel, this`log, prep, en
      ensures Valid()
      ensures ret == if t.clocks[c].muxed && Some(p) in t.clocks[c].parents then 0 else -22
      ensures ret != 0 || old(t.Parent(sel, c)) == Some(p) ==> Now() == old(Now())
      ensures ret == SetParent(t, old(Now()), c, p).ret && sel == SetParent(t, old(Now()), c, p).w.sel
      ensures NoneAbove(Vote(t, old(sel), Prepare, old(prep.Now()), c, p).cnt)
           && NoneAbove(Vote(t, old(sel), Enable, old(en.Now()), c, p).cnt)
          ==> Now() == SetParent(t, old(Now()), c, p).w
    {
      hide Vote, Borrow, Turn, Restore, NoneAbove, InByte, Tree.Valid;
      if !t.clocks[c].muxed {
        return -EINVAL;
      }
      var ps := t.clocks[c].parents;
      if |ps| == 1 {
        return if ps[0] == Some(p) then 0 else -EINVAL;
      }
      var former := t.Parent(sel, c);
      if former == Some(p) {
        return 0;
      }
      var i := 0;
      while i < |ps| && ps[i] != Some(p)
        invariant i <= |ps| && forall j :: 0 <= j < i ==> ps[j] != Some(p)
      {
        i := i + 1;
      }
      if i == |ps| {
        return -EINVAL;
      }
      MoveTo(c, i, p, former);
      ret := 0;
    }

    /** The part of the above that gets as far as turning the multiplexer. */
    method MoveTo(c: nat, i: nat, p: nat, former: Option<nat>)
      requires Valid() && c < t.Size() && p < t.Size() && former == t.Parent(sel, c)
      modifies this`sel, this`log, prep, en
      ensures Valid() && sel == old(sel)[c := i]
      ensures NoneAbove(Vote(t, old(sel), Prepare, old(prep.Now()), c, p).cnt)
           && NoneAbove(Vote(t, old(sel), Enable, old(en.Now()), c, p).cnt)
          ==> Now() == Restore(t, Turn(t, Borrow(t, old(Now()), c, p), c, i), c, former)
    {
      hide Vote, Finish, NoneAbove, InByte, Tree.Valid, Turn;
      ParentExists(t, sel, c);
      VoteBoth(c, p);
      TurnTo(c, i);
      en.GiveBack(t, sel, c, former);
      Record(Enable);
      prep.GiveBack(t, sel, c, former);
      Record(Prepare);
    }

    method VoteBoth(c: nat, p: nat)
      requires Valid() && c < t.Size() && p < t.Size()
      modifies this`log, prep, en
      ensures Valid()
      ensures NoneAbove(Vote(t, sel, Prepare, old(prep.Now()), c, p).cnt)
           && NoneAbove(Vote(t, sel, Enable, old(en.Now()), c, p).cnt)
          ==> Now() == Borrow(t, old(Now()), c, p)
    {
      hide Vote, NoneAbove, InByte, Tree.Valid;
      prep.VoteFor(t, sel, c, p);
      Record(Prepare);
      en.VoteFor(t, sel, c, p);
      Record(Enable);
    }

    /** The set_parent op of a multiplexer. */
    method TurnTo(c: nat, i: nat)
      requires Whole(t, Now()) && c < t.Size()
      modifies this`sel, this`log
      ensures Now() == Turn(t, old(Now()), c, i) && sel == old(sel)[c := i]
    {
      assert sel[c := 0][c := i] == sel[c := i];
      if t.clocks[c].twoStep {
        Write(sel[c := 0]);
      }
      Write(sel[c := i]);
    }
  }

}
