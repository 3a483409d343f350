/** The reference-counted clock tree of drivers/clk/v1/mtk_clk.c.

    Clocks are indices into a table.  A clock votes on its current parent, and on the clock
    that switches it in hardware or on the clocks of its group, only when its own counter
    leaves or reaches zero.  The parent of a multiplexer can be changed while it is in use.
    The prepare counters and the enable counters are two channels with the same rules, and this
    module is about one of them; ClockRuns puts the two together. */
module ClockTree {
  import opened Bags

  datatype Option<T> = None | Some(value: T)

  datatype Kind = Prepare | Enable

  /** Which op of a clock touches the hardware: that of a PLL is prepare, that of a gate or a
      set/clear multiplexer is enable, and other clocks have none. */
  datatype HwOp = ByPrepare | ByEnable | Nowhere

  /** The fixed part of a clock.  `hc` is the hardware-switched stand-in, `group` the list of
      a power-domain clock, `muxed` says that the parent can be read back and set, and
      `twoStep` that setting it clears the field in one write and sets it in the next, without
      an update bit that makes both take effect at once. */
  datatype Clock = Clock(
    parents: seq<Option<nat>>, hc: Option<nat>, group: seq<nat>, muxed: bool, twoStep: bool, alwaysOn: bool,
    op: HwOp)

  datatype Tree = Tree(clocks: seq<Clock>, rank: seq<nat>) {
    function Size(): nat { |clocks| }

    /** Anything a clock may ever vote on ranks below it, whatever the multiplexers select. */
    ghost predicate Valid() {
      && |rank| == Size()
      && (forall c, i :: 0 <= c < Size() && 0 <= i < |clocks[c].parents| && clocks[c].parents[i].Some? ==>
            Under(clocks[c].parents[i].value, rank[c]))
      && (forall c :: 0 <= c < Size() && clocks[c].hc.Some? ==> Under(clocks[c].hc.value, rank[c]))
      && (forall c, i :: 0 <= c < Size() && 0 <= i < |clocks[c].group| ==>
            Under(clocks[c].group[i], rank[c]))
    }

    ghost predicate Under(d: nat, bound: nat)
      requires |rank| == Size()
    {
      d < Size() && rank[d] < bound
    }

    ghost predicate Selects(sel: seq<nat>) { Valid() && |sel| == Size() }

    /** The present parent of a clock, given what every multiplexer selects. */
    function Parent(sel: seq<nat>, c: nat): Option<nat>
      requires c < Size() && |sel| == Size()
    {
      var ps := clocks[c].parents;
      if |ps| == 0 then None
      else if |ps| == 1 then ps[0]
      else if clocks[c].muxed && sel[c] < |ps| then ps[sel[c]]
      else None
    }

    function ParentList(sel: seq<nat>, c: nat): seq<nat>
      requires c < Size() && |sel| == Size()
    {
      var p := Parent(sel, c);
      if p.Some? then [p.value] else []
    }

    function Others(kind: Kind, c: nat): seq<nat>
      requires c < Size()
    {
      if clocks[c].hc.Some? then [clocks[c].hc.value]
      else if kind.Enable? then clocks[c].group
      else []
    }

    /** The clocks that c votes on while its counter is not zero, in the order of voting. */
    function Needs(sel: seq<nat>, kind: Kind, c: nat): seq<nat>
      requires c < Size() && |sel| == Size()
    {
      ParentList(sel, c) + Others(kind, c)
    }

    /** The same clocks in the order in which the votes are taken back. */
    function Returns(sel: seq<nat>, kind: Kind, c: nat): seq<nat>
      requires c < Size() && |sel| == Size()
    {
      Others(kind, c) + ParentList(sel, c)
    }
  }

  /** All listed clocks exist and rank below the bound. */
  ghost predicate Below(t: Tree, ms: seq<nat>, bound: nat)
    requires t.Valid()
  {
    forall i :: 0 <= i < |ms| ==> t.Under(ms[i], bound)
  }

  lemma Ranked(t: Tree)
    requires t.Valid()
    ensures |t.rank| == t.Size()
  {
  }

  lemma NeedsBelow(t: Tree, sel: seq<nat>, kind: Kind, c: nat)
    requires t.Selects(sel) && c < t.Size()
    ensures Below(t, t.Needs(sel, kind, c), t.rank[c])
    ensures Below(t, t.Returns(sel, kind, c), t.rank[c])
  {
  }

  lemma SameVotes(t: Tree, sel: seq<nat>, kind: Kind, c: nat, x: nat)
    requires t.Selects(sel) && c < t.Size()
    ensures Count(t.Needs(sel, kind, c), x) == Count(t.Returns(sel, kind, c), x)
  {
    CountAppend(t.ParentList(sel, c), t.Others(kind, c), x);
    CountAppend(t.Others(kind, c), t.ParentList(sel, c), x);
  }

  // ---------------------------------------------------------------- one channel

  /** One instant of a channel: selections, and the clocks that have been switched on in it. */
  datatype Shot = Shot(sel: seq<nat>, on: seq<bool>)

  /** Counters, clocks switched on, and every state gone through. */
  datatype Channel = Channel(cnt: seq<int>, on: seq<bool>, log: seq<Shot>) {
    predicate Sized(n: nat) { |cnt| == |on| == n }

    function Count(c: nat, k: int): Channel
      requires c < |cnt|
    {
      this.(cnt := cnt[c := k])
    }

    /** The same channel with a longer past. */
    ghost function Behind(past: seq<Shot>): Channel { this.(log := past + log) }

    ghost function Forget(): Channel { this.(log := []) }

    /** The step that switches clock c, by its op if that is the one of this channel. */
    function Switch(sel: seq<nat>, c: nat, up: bool): Channel
      requires c < |on|
    {
      Channel(cnt, on[c := up], log + [Shot(sel, on[c := up])])
    }
  }

  ghost predicate Fits(t: Tree, sel: seq<nat>, ch: Channel) {
    t.Selects(sel) && ch.Sized(t.Size())
  }

  /** mtk_clk_enable_nolock and mtk_clk_prepare_nolock. */
  ghost function Acquire(t: Tree, sel: seq<nat>, kind: Kind, ch: Channel, c: nat): (r: Channel)
    requires Fits(t, sel, ch) && c < t.Size()
    ensures r.Sized(t.Size())
    decreases t.rank[c] + 1, 0
  {
    if t.clocks[c].alwaysOn then ch
    else
      var up := ch.Count(c, ch.cnt[c] + 1);
      if up.cnt[c] != 1 then up
      else
        NeedsBelow(t, sel, kind, c);
        AcquireAll(t, sel, kind, up, t.Needs(sel, kind, c), t.rank[c]).Switch(sel, c, true)
  }

  ghost function AcquireAll(t: Tree, sel: seq<nat>, kind: Kind, ch: Channel, ms: seq<nat>, bound: nat): (r: Channel)
    requires Fits(t, sel, ch) && Below(t, ms, bound)
    ensures r.Sized(t.Size())
    decreases bound, |ms|
  {
    if ms == [] then ch
    else
      var i := |ms| - 1;
      Acquire(t, sel, kind, AcquireAll(t, sel, kind, ch, ms[..i], bound), ms[i])
  }

  /** mtk_clk_disable_nolock and mtk_clk_unprepare_nolock. */
  ghost function Release(t: Tree, sel: seq<nat>, kind: Kind, ch: Channel, c: nat): (r: Channel)
    requires Fits(t, sel, ch) && c < t.Size()
    ensures r.Sized(t.Size())
    decreases t.rank[c] + 1, 0
  {
    if t.clocks[c].alwaysOn || ch.cnt[c] <= 0 then ch
    else
      var down := ch.Count(c, ch.cnt[c] - 1);
      if down.cnt[c] != 0 then down
      else
        NeedsBelow(t, sel, kind, c);
        ReleaseAll(t, sel, kind, down.Switch(sel, c, false), t.Returns(sel, kind, c), t.rank[c])
  }

  ghost function ReleaseAll(t: Tree, sel: seq<nat>, kind: Kind, ch: Channel, ms: seq<nat>, bound: nat): (r: Channel)
    requires Fits(t, sel, ch) && Below(t, ms, bound)
    ensures r.Sized(t.Size())
    decreases bound, |ms|
  {
    if ms == [] then ch
    else
      var i := |ms| - 1;
      Release(t, sel, kind, ReleaseAll(t, sel, kind, ch, ms[..i], bound), ms[i])
  }

  /** Whether a release returns success: an always-on clock, or a counter above zero; the
      last vote also reports what its hardware stand-in reports. */
  ghost predicate Accepted(t: Tree, sel: seq<nat>, kind: Kind, ch: Channel, c: nat)
    requires Fits(t, sel, ch) && c < t.Size()
    decreases t.rank[c]
  {
    || t.clocks[c].alwaysOn
    || (&& ch.cnt[c] > 0
        && (ch.cnt[c] == 1 && t.clocks[c].hc.Some? ==>
              Accepted(t, sel, kind, ch.Count(c, 0).Switch(sel, c, false), t.clocks[c].hc.value)))
  }

  // ---------------------------------------------------------------- the order within one call

  lemma {:induction false} AcquireParts(t: Tree, sel: seq<nat>, kind: Kind, ch: Channel, a: seq<nat>, b: seq<nat>, bound: nat)
    requires Fits(t, sel, ch) && Below(t, a + b, bound)
    ensures Below(t, a, bound) && Below(t, b, bound)
    ensures AcquireAll(t, sel, kind, ch, a + b, bound)
         == AcquireAll(t, sel, kind, AcquireAll(t, sel, kind, ch, a, bound), b, bound)
    decreases |b|
  {
    hide Acquire, Tree.Valid;
    PartsBelow(t, a, b, bound);
    if b == [] {
      assert a + b == a;
    } else {
      var init := b[..|b| - 1];
      assert (a + b)[..|a + b| - 1] == a + init;
      PartsBelow(t, a + init, [b[|b| - 1]], bound);
      assert a + init + [b[|b| - 1]] == a + b;
      AcquireParts(t, sel, kind, ch, a, init, bound);
    }
  }

  lemma {:induction false} ReleaseParts(t: Tree, sel: seq<nat>, kind: Kind, ch: Channel, a: seq<nat>, b: seq<nat>, bound: nat)
    requires Fits(t, sel, ch) && Below(t, a + b, bound)
    ensures Below(t, a, bound) && Below(t, b, bound)
    ensures ReleaseAll(t, sel, kind, ch, a + b, bound)
         == ReleaseAll(t, sel, kind, ReleaseAll(t, sel, kind, ch, a, bound), b, bound)
    decreases |b|
  {
    hide Release, Tree.Valid;
    PartsBelow(t, a, b, bound);
    if b == [] {
      assert a + b == a;
    } else {
      var init := b[..|b| - 1];
      assert (a + b)[..|a + b| - 1] == a + init;
      PartsBelow(t, a + init, [b[|b| - 1]], bound);
      assert a + init + [b[|b| - 1]] == a + b;
      ReleaseParts(t, sel, kind, ch, a, init, bound);
    }
  }

  lemma PartsBelow(t: Tree, a: seq<nat>, b: seq<nat>, bound: nat)
    requires t.Valid() && (Below(t, a + b, bound) || (Below(t, a, bound) && Below(t, b, bound)))
    ensures Below(t, a, bound) && Below(t, b, bound) && Below(t, a + b, bound)
  {
    if Below(t, a + b, bound) {
      forall i | 0 <= i < |a| ensures t.Under(a[i], bound) {
        assert (a + b)[i] == a[i];
      }
      forall i | 0 <= i < |b| ensures t.Under(b[i], bound) {
        assert (a + b)[|a| + i] == b[i];
      }
    }
  }

  lemma OneNeed(t: Tree, sel: seq<nat>, kind: Kind, ch: Channel, m: nat, bound: nat)
    requires Fits(t, sel, ch) && Below(t, [m], bound)
    ensures m < t.Size() && AcquireAll(t, sel, kind, ch, [m], bound) == Acquire(t, sel, kind, ch, m)
    ensures ReleaseAll(t, sel, kind, ch, [m], bound) == Release(t, sel, kind, ch, m)
  {
    hide Acquire, Release;
    assert t.Under([m][0], bound) && [m][..0] == [];
  }

  /** A clock that nobody used yet: first its parent is acquired, then its stand-in or, when
      enabling, its group, and last it is switched on itself. */
  lemma FirstUse(t: Tree, sel: seq<nat>, kind: Kind, ch: Channel, c: nat)
    requires Fits(t, sel, ch) && c < t.Size() && !t.clocks[c].alwaysOn && ch.cnt[c] == 0
    ensures var p, h := t.Parent(sel, c), t.clocks[c].hc;
      && (p.Some? ==> p.value < t.Size()) && (h.Some? ==> h.value < t.Size())
      && |t.rank| == t.Size() && Below(t, t.clocks[c].group, t.rank[c])
      && var up := ch.Count(c, 1);
         var fed := if p.Some? then Acquire(t, sel, kind, up, p.value) else up;
         var whole := if h.Some? then Acquire(t, sel, kind, fed, h.value)
                      else if kind == Enable then AcquireAll(t, sel, kind, fed, t.clocks[c].group, t.rank[c]) else fed;
         Acquire(t, sel, kind, ch, c) == whole.Switch(sel, c, true)
  {
    var ps, os := t.ParentList(sel, c), t.Others(kind, c);
    NeedsBelow(t, sel, kind, c);
    var up := ch.Count(c, 1);
    AcquireParts(t, sel, kind, up, ps, os, t.rank[c]);
    hide Acquire, AcquireAll;
    if ps != [] {
      OneNeed(t, sel, kind, up, ps[0], t.rank[c]);
    }
    if t.clocks[c].hc.Some? {
      OneNeed(t, sel, kind, AcquireAll(t, sel, kind, up, ps, t.rank[c]), os[0], t.rank[c]);
    }
  }

  /** The last use of a clock ends the other way round: it is switched off itself, then the
      stand-in or the group is released, and last the parent. */
  lemma LastUse(t: Tree, sel: seq<nat>, kind: Kind, ch: Channel, c: nat)
    requires Fits(t, sel, ch) && c < t.Size() && !t.clocks[c].alwaysOn && ch.cnt[c] == 1
    ensures var p, h := t.Parent(sel, c), t.clocks[c].hc;
      && (p.Some? ==> p.value < t.Size()) && (h.Some? ==> h.value < t.Size())
      && |t.rank| == t.Size() && Below(t, t.clocks[c].group, t.rank[c])
      && var off := ch.Count(c, 0).Switch(sel, c, false);
         var left := if h.Some? then Release(t, sel, kind, off, h.value)
                     else if kind == Enable then ReleaseAll(t, sel, kind, off, t.clocks[c].group, t.rank[c]) else off;
         Release(t, sel, kind, ch, c) == if p.Some? then Release(t, sel, kind, left, p.value) else left
  {
    var ps, os := t.ParentList(sel, c), t.Others(kind, c);
    NeedsBelow(t, sel, kind, c);
    var off := ch.Count(c, 0).Switch(sel, c, false);
    ReleaseParts(t, sel, kind, off, os, ps, t.rank[c]);
    hide Release, ReleaseAll;
    if ps != [] {
      OneNeed(t, sel, kind, ReleaseAll(t, sel, kind, off, os, t.rank[c]), ps[0], t.rank[c]);
    }
    if t.clocks[c].hc.Some? {
      OneNeed(t, sel, kind, off, os[0], t.rank[c]);
    }
  }

  // ---------------------------------------------------------------- the past plays no part

  lemma SwitchBehind(ch: Channel, sel: seq<nat>, c: nat, up: bool, past: seq<Shot>)
    requires c < |ch.on|
    ensures ch.Behind(past).Switch(sel, c, up) == ch.Switch(sel, c, up).Behind(past)
  {
    assert past + ch.log + [Shot(sel, ch.on[c := up])] == past + (ch.log + [Shot(sel, ch.on[c := up])]);
  }

  lemma {:induction false} ReleaseBehind(t: Tree, sel: seq<nat>, kind: Kind, ch: Channel, c: nat, past: seq<Shot>)
    requires Fits(t, sel, ch) && c < t.Size()
    ensures Release(t, sel, kind, ch.Behind(past), c) == Release(t, sel, kind, ch, c).Behind(past)
    decreases t.rank[c] + 1, 0
  {
    if !t.clocks[c].alwaysOn && ch.cnt[c] == 1 {
      NeedsBelow(t, sel, kind, c);
      var down := ch.Count(c, 0);
      assert ch.Behind(past).Count(c, 0) == down.Behind(past);
      SwitchBehind(down, sel, c, false, past);
      ReleaseAllBehind(t, sel, kind, down.Switch(sel, c, false), t.Returns(sel, kind, c), t.rank[c], past);
    }
  }

  lemma {:induction false} ReleaseAllBehind(t: Tree, sel: seq<nat>, kind: Kind, ch: Channel, ms: seq<nat>,
                              bound: nat, past: seq<Shot>)
    requires Fits(t, sel, ch) && Below(t, ms, bound)
    ensures ReleaseAll(t, sel, kind, ch.Behind(past), ms, bound) == ReleaseAll(t, sel, kind, ch, ms, bound).Behind(past)
    decreases bound, |ms|
  {
    if ms != [] {
      var i := |ms| - 1;
      ReleaseAllBehind(t, sel, kind, ch, ms[..i], bound, past);
      ReleaseBehind(t, sel, kind, ReleaseAll(t, sel, kind, ch, ms[..i], bound), ms[i], past);
    }
  }

  lemma OwnPast(ch: Channel)
    ensures ch.Forget().Behind(ch.log) == ch
  {
    assert ch.log + [] == ch.log;
  }

  // ---------------------------------------------------------------- one call moves one way

  predicate Within(a: seq<bool>, b: seq<bool>) {
    |a| == |b| && forall x :: 0 <= x < |a| && a[x] ==> b[x]
  }

  /** What a call adds to the past: states with what it found selected, each between the first
      and the last, the last one among them if anything was switched. */
  ghost predicate Passes(sel: seq<nat>, a: Channel, b: Channel, up: bool) {
    && a.log <= b.log && (if up then Within(a.on, b.on) else Within(b.on, a.on))
    && (forall i :: |a.log| <= i < |b.log| ==> b.log[i].sel == sel && Between(a.on, b.log[i].on, b.on, up))
    && (b.on == a.on || (|b.log| > |a.log| && b.log[|b.log| - 1].on == b.on))
  }

  predicate Between(a: seq<bool>, m: seq<bool>, b: seq<bool>, up: bool) {
    if up then Within(a, m) && Within(m, b) else Within(b, m) && Within(m, a)
  }

  lemma PassesOn(sel: seq<nat>, a: Channel, m: Channel, b: Channel, up: bool)
    requires Passes(sel, a, m, up) && Passes(sel, m, b, up)
    ensures Passes(sel, a, b, up)
  {
    forall i | |a.log| <= i < |b.log|
      ensures b.log[i].sel == sel && Between(a.on, b.log[i].on, b.on, up)
    {
      if i < |m.log| {
        assert b.log[i] == m.log[i];
      }
    }
  }

  lemma PassesSwitch(sel: seq<nat>, ch: Channel, c: nat, up: bool)
    requires c < |ch.on|
    ensures Passes(sel, ch, ch.Switch(sel, c, up), up)
  {
  }

  /** Acquiring only switches on. */
  lemma {:induction false} AcquirePasses(t: Tree, sel: seq<nat>, kind: Kind, ch: Channel, c: nat)
    requires Fits(t, sel, ch) && c < t.Size()
    ensures Passes(sel, ch, Acquire(t, sel, kind, ch, c), true)
    decreases t.rank[c] + 1, 0
  {
    hide Passes, Tree.Needs, Tree.Valid;
    Ranked(t);
    PassesNothing(sel, ch, ch.Count(c, ch.cnt[c] + 1), true);
    PassesNothing(sel, ch, ch, true);
    if !t.clocks[c].alwaysOn && ch.cnt[c] == 0 {
      NeedsBelow(t, sel, kind, c);
      var up, needs := ch.Count(c, 1), t.Needs(sel, kind, c);
      AcquireAllPasses(t, sel, kind, up, needs, t.rank[c]);
      var mid := AcquireAll(t, sel, kind, up, needs, t.rank[c]);
      PassesSwitch(sel, mid, c, true);
      PassesOn(sel, ch, up, mid, true);
      PassesOn(sel, ch, mid, mid.Switch(sel, c, true), true);
    }
  }

  lemma PassesNothing(sel: seq<nat>, a: Channel, b: Channel, up: bool)
    requires b.on == a.on && b.log == a.log
    ensures Passes(sel, a, b, up)
  {
  }

  lemma {:induction false} AcquireAllPasses(t: Tree, sel: seq<nat>, kind: Kind, ch: Channel, ms: seq<nat>, bound: nat)
    requires Fits(t, sel, ch) && Below(t, ms, bound)
    ensures Passes(sel, ch, AcquireAll(t, sel, kind, ch, ms, bound), true)
    decreases bound, |ms|
  {
    hide Passes, Acquire;
    PassesNothing(sel, ch, ch, true);
    if ms != [] {
      var i := |ms| - 1;
      AcquireAllPasses(t, sel, kind, ch, ms[..i], bound);
      var mid := AcquireAll(t, sel, kind, ch, ms[..i], bound);
      AcquirePasses(t, sel, kind, mid, ms[i]);
      PassesOn(sel, ch, mid, Acquire(t, sel, kind, mid, ms[i]), true);
    }
  }

  /** Releasing only switches off. */
  lemma {:induction false} ReleasePasses(t: Tree, sel: seq<nat>, kind: Kind, ch: Channel, c: nat)
    requires Fits(t, sel, ch) && c < t.Size()
    ensures Passes(sel, ch, Release(t, sel, kind, ch, c), false)
    decreases t.rank[c] + 1, 0
  {
    hide Passes, Tree.Returns, Tree.Valid;
    Ranked(t);
    PassesNothing(sel, ch, ch.Count(c, ch.cnt[c] - 1), false);
    PassesNothing(sel, ch, ch, false);
    if !t.clocks[c].alwaysOn && ch.cnt[c] == 1 {
      NeedsBelow(t, sel, kind, c);
      var down, back := ch.Count(c, 0), t.Returns(sel, kind, c);
      var off := down.Switch(sel, c, false);
      PassesSwitch(sel, down, c, false);
      PassesOn(sel, ch, down, off, false);
      ReleaseAllPasses(t, sel, kind, off, back, t.rank[c]);
      PassesOn(sel, ch, off, ReleaseAll(t, sel, kind, off, back, t.rank[c]), false);
    }
  }

  lemma {:induction false} ReleaseAllPasses(t: Tree, sel: seq<nat>, kind: Kind, ch: Channel, ms: seq<nat>, bound: nat)
    requires Fits(t, sel, ch) && Below(t, ms, bound)
    ensures Passes(sel, ch, ReleaseAll(t, sel, kind, ch, ms, bound), false)
    decreases bound, |ms|
  {
    hide Passes, Release;
    PassesNothing(sel, ch, ch, false);
    if ms != [] {
      var i := |ms| - 1;
      ReleaseAllPasses(t, sel, kind, ch, ms[..i], bound);
      var mid := ReleaseAll(t, sel, kind, ch, ms[..i], bound);
      ReleasePasses(t, sel, kind, mid, ms[i]);
      PassesOn(sel, ch, mid, Release(t, sel, kind, mid, ms[i]), false);
    }
  }

  // ---------------------------------------------------------------- vote conservation

  /** How many votes the first k clocks place on x: each clock with a nonzero counter votes
      on what it needs. */
  ghost function Users(t: Tree, sel: seq<nat>, kind: Kind, cnt: seq<int>, x: nat, k: nat): nat
    requires t.Selects(sel) && |cnt| == t.Size() && k <= t.Size()
  {
    if k == 0 then 0
    else
      Users(t, sel, kind, cnt, x, k - 1)
      + (if cnt[k - 1] != 0 then Count(t.Needs(sel, kind, k - 1), x) else 0)
  }

  /** Every counter is the votes of callers plus the clocks in use that need it. */
  ghost predicate Conserved(t: Tree, sel: seq<nat>, kind: Kind, cnt: seq<int>, votes: seq<int>) {
    && t.Selects(sel) && |cnt| == |votes| == t.Size()
    && forall x :: 0 <= x < t.Size() && !t.clocks[x].alwaysOn ==>
         cnt[x] == votes[x] + Users(t, sel, kind, cnt, x, t.Size())
  }

  ghost predicate Live(t: Tree, on: seq<bool>, x: nat) {
    x < t.Size() && |on| == t.Size() && (t.clocks[x].alwaysOn || on[x])
  }

  /** No clock is on while a clock that it needs is off. */
  ghost predicate Ordered(t: Tree, kind: Kind, shot: Shot) {
    && t.Selects(shot.sel) && |shot.on| == t.Size()
    && forall c, i :: 0 <= c < t.Size() && shot.on[c] && 0 <= i < |t.Needs(shot.sel, kind, c)| ==>
         Live(t, shot.on, t.Needs(shot.sel, kind, c)[i])
  }

  ghost predicate AllOrdered(t: Tree, kind: Kind, log: seq<Shot>) {
    forall i :: 0 <= i < |log| ==> Ordered(t, kind, log[i])
  }

  /** Counters are not negative, always-on clocks are not counted, and only counted clocks
      are on; below the bound every counted clock is on. */
  ghost predicate InStep(t: Tree, ch: Channel, bound: nat)
    requires t.Valid() && ch.Sized(t.Size())
  {
    forall x :: 0 <= x < t.Size() ==>
      && ch.cnt[x] >= 0
      && (t.clocks[x].alwaysOn ==> ch.cnt[x] == 0)
      && (ch.on[x] ==> ch.cnt[x] > 0)
      && (t.rank[x] < bound && ch.cnt[x] > 0 ==> ch.on[x])
  }

  /** The invariant of a channel; clocks at or above the bound may be half way through. */
  ghost predicate Good(t: Tree, sel: seq<nat>, kind: Kind, ch: Channel, votes: seq<int>, bound: nat) {
    && Fits(t, sel, ch)
    && Conserved(t, sel, kind, ch.cnt, votes)
    && InStep(t, ch, bound)
    && Ordered(t, kind, Shot(sel, ch.on))
    && AllOrdered(t, kind, ch.log)
  }

  lemma {:induction false} UsersSame(t: Tree, sel: seq<nat>, kind: Kind, a: seq<int>, b: seq<int>, x: nat, k: nat)
    requires t.Selects(sel) && |a| == |b| == t.Size() && k <= t.Size()
    requires forall c :: 0 <= c < k && x in t.Needs(sel, kind, c) ==> (a[c] == 0 <==> b[c] == 0)
    ensures Users(t, sel, kind, a, x, k) == Users(t, sel, kind, b, x, k)
  {
    hide Tree.Needs, Count;
    if k != 0 {
      UsersSame(t, sel, kind, a, b, x, k - 1);
    }
  }

  /** Taking a counter off zero adds the clock's own votes. */
  lemma {:induction false} UsersWake(t: Tree, sel: seq<nat>, kind: Kind, a: seq<int>, b: seq<int>, x: nat, k: nat, c: nat)
    requires t.Selects(sel) && |a| == |b| == t.Size() && c < k <= t.Size()
    requires a[c] == 0 && b[c] != 0 && forall y :: 0 <= y < k && y != c ==> (a[y] == 0 <==> b[y] == 0)
    ensures Users(t, sel, kind, b, x, k)
         == Users(t, sel, kind, a, x, k) + Count(t.Needs(sel, kind, c), x)
  {
    hide Tree.Needs, Count;
    if c == k - 1 {
      UsersSame(t, sel, kind, a, b, x, k - 1);
    } else {
      UsersWake(t, sel, kind, a, b, x, k - 1, c);
    }
  }

  lemma {:induction false} UsersPositive(t: Tree, sel: seq<nat>, kind: Kind, cnt: seq<int>, x: nat, k: nat)
    requires t.Selects(sel) && |cnt| == t.Size() && k <= t.Size()
    ensures Users(t, sel, kind, cnt, x, k) > 0 <==>
              exists c :: 0 <= c < k && cnt[c] != 0 && x in t.Needs(sel, kind, c)
  {
    hide Tree.Needs, Count;
    if k != 0 {
      var last := k - 1;
      UsersPositive(t, sel, kind, cnt, x, last);
      if cnt[last] != 0 && x in t.Needs(sel, kind, last) {
        assert Users(t, sel, kind, cnt, x, k) > 0;
      } else {
        assert Users(t, sel, kind, cnt, x, k) == Users(t, sel, kind, cnt, x, last);
      }
    }
  }

  // ---------------------------------------------------------------- one counter moves

  /** A counter that stays off zero moves only the caller's vote. */
  lemma CountConserves(t: Tree, sel: seq<nat>, kind: Kind, cnt: seq<int>, votes: seq<int>, c: nat, k: int)
    requires c < t.Size() && Conserved(t, sel, kind, cnt, votes)
    requires cnt[c] != 0 && cnt[c] + k != 0
    ensures Conserved(t, sel, kind, cnt[c := cnt[c] + k], votes[c := votes[c] + k])
  {
    hide Users, Count, Tree.Needs, Tree.Valid;
    forall x | 0 <= x < t.Size()
      ensures Users(t, sel, kind, cnt[c := cnt[c] + k], x, t.Size()) == Users(t, sel, kind, cnt, x, t.Size())
    {
      UsersSame(t, sel, kind, cnt, cnt[c := cnt[c] + k], x, t.Size());
    }
  }

  /** A counter leaving zero owes one vote to everything the clock needs. */
  lemma WakeConserves(t: Tree, sel: seq<nat>, kind: Kind, cnt: seq<int>, votes: seq<int>, c: nat)
    requires c < t.Size() && Conserved(t, sel, kind, cnt, votes) && cnt[c] == 0
    ensures Conserved(t, sel, kind, cnt[c := 1], Minus(votes[c := votes[c] + 1], t.Needs(sel, kind, c)))
  {
    hide Users, Count, Tree.Needs, Tree.Valid;
    forall x | 0 <= x < t.Size()
      ensures Users(t, sel, kind, cnt[c := 1], x, t.Size())
           == Users(t, sel, kind, cnt, x, t.Size()) + Count(t.Needs(sel, kind, c), x)
    {
      UsersWake(t, sel, kind, cnt, cnt[c := 1], x, t.Size(), c);
    }
  }

  /** A counter reaching zero frees one vote on everything the clock needs. */
  lemma SleepConserves(t: Tree, sel: seq<nat>, kind: Kind, cnt: seq<int>, votes: seq<int>, c: nat)
    requires c < t.Size() && Conserved(t, sel, kind, cnt, votes) && cnt[c] == 1
    ensures Conserved(t, sel, kind, cnt[c := 0], Plus(votes[c := votes[c] - 1], t.Returns(sel, kind, c)))
  {
    hide Users, Count, Tree.Needs, Tree.Returns, Tree.Valid;
    forall x | 0 <= x < t.Size()
      ensures Users(t, sel, kind, cnt, x, t.Size())
           == Users(t, sel, kind, cnt[c := 0], x, t.Size()) + Count(t.Returns(sel, kind, c), x)
    {
      UsersWake(t, sel, kind, cnt[c := 0], cnt, x, t.Size(), c);
      SameVotes(t, sel, kind, c, x);
    }
  }

  // ---------------------------------------------------------------- acquiring

  /** Nothing is lowered and nothing is switched off. */
  ghost predicate Grows(a: Channel, b: Channel) {
    && a.Sized(|a.cnt|) && b.Sized(|a.cnt|)
    && forall x :: 0 <= x < |a.cnt| ==> a.cnt[x] <= b.cnt[x] && (a.on[x] ==> b.on[x])
  }

  /** Clocks at or above the bound, except the one named, are as before. */
  ghost predicate Untouched(t: Tree, a: Channel, b: Channel, bound: nat, c: nat)
    requires t.Valid() && a.Sized(t.Size()) && b.Sized(t.Size())
  {
    forall x :: 0 <= x < t.Size() && t.rank[x] >= bound && x != c ==>
      a.cnt[x] == b.cnt[x] && a.on[x] == b.on[x]
  }

  ghost predicate AllLive(t: Tree, ms: seq<nat>, on: seq<bool>) {
    forall i :: 0 <= i < |ms| ==> Live(t, on, ms[i])
  }

  lemma AllLiveSnoc(t: Tree, init: seq<nat>, m: nat, mid: Channel, end: Channel)
    requires mid.Sized(t.Size()) && AllLive(t, init, mid.on) && Grows(mid, end) && Live(t, end.on, m)
    ensures AllLive(t, init + [m], end.on)
  {
    forall i | 0 <= i < |init| ensures Live(t, end.on, init[i]) {
      assert Live(t, mid.on, init[i]);
    }
  }

  lemma SwitchOnOrdered(t: Tree, sel: seq<nat>, kind: Kind, on: seq<bool>, c: nat)
    requires c < t.Size() && Ordered(t, kind, Shot(sel, on)) && AllLive(t, t.Needs(sel, kind, c), on)
    ensures Ordered(t, kind, Shot(sel, on[c := true]))
  {
    var now := on[c := true];
    forall y, i | 0 <= y < t.Size() && now[y] && 0 <= i < |t.Needs(sel, kind, y)|
      ensures Live(t, now, t.Needs(sel, kind, y)[i])
    {
      assert Live(t, on, t.Needs(sel, kind, y)[i]);
    }
  }

  /** Votes on an always-on clock do not matter. */
  lemma FreeVote(t: Tree, sel: seq<nat>, kind: Kind, ch: Channel, votes: seq<int>, c: nat, v: int, bound: nat)
    requires c < t.Size() && Good(t, sel, kind, ch, votes, bound) && t.clocks[c].alwaysOn
    ensures Good(t, sel, kind, ch, votes[c := v], bound)
    ensures Fits(t, sel, ch) && |votes| == t.Size()
  {
  }

  /** A vote that neither wakes the clock nor puts it to sleep. */
  lemma CountKeeps(t: Tree, sel: seq<nat>, kind: Kind, ch: Channel, votes: seq<int>, c: nat, k: int, bound: nat)
    requires c < t.Size() && Good(t, sel, kind, ch, votes, bound) && !t.clocks[c].alwaysOn
    requires ch.cnt[c] != 0 && ch.cnt[c] + k > 0
    ensures Good(t, sel, kind, ch.Count(c, ch.cnt[c] + k), votes[c := votes[c] + k], bound)
    ensures t.rank[c] < bound ==> ch.on[c]
  {
    CountConserves(t, sel, kind, ch.cnt, votes, c, k);
  }

  /** The last step of waking a clock, once everything it needs is live. */
  lemma SwitchOnKeeps(t: Tree, sel: seq<nat>, kind: Kind, ch: Channel, mid: Channel, votes: seq<int>, c: nat, bound: nat)
    requires c < t.Size() && Fits(t, sel, ch) && InStep(t, ch, bound) && ch.cnt[c] == 0
    requires !t.clocks[c].alwaysOn
    requires Good(t, sel, kind, mid, votes, t.rank[c])
    requires Grows(ch.Count(c, 1), mid) && Untouched(t, ch.Count(c, 1), mid, t.rank[c], t.Size())
    requires AllLive(t, t.Needs(sel, kind, c), mid.on)
    ensures Good(t, sel, kind, mid.Switch(sel, c, true), votes, bound)
    ensures Grows(ch, mid.Switch(sel, c, true))
    ensures Untouched(t, ch, mid.Switch(sel, c, true), t.rank[c], c)
  {
    SwitchOnOrdered(t, sel, kind, mid.on, c);
    var up := ch.Count(c, 1);
    forall x | 0 <= x < t.Size() ensures ch.cnt[x] <= up.cnt[x] && (ch.on[x] ==> up.on[x]) {
    }
    assert mid.cnt[c] == up.cnt[c];
  }

  /** Acquiring a clock adds one vote to it, keeps every state of the channel ordered on the way,
      and leaves the clock running. */
  lemma {:induction false} AcquireKeeps(t: Tree, sel: seq<nat>, kind: Kind, ch: Channel, votes: seq<int>, c: nat, bound: nat)
    requires c < t.Size() && Good(t, sel, kind, ch, votes, bound) && t.rank[c] < bound
    ensures Good(t, sel, kind, Acquire(t, sel, kind, ch, c), votes[c := votes[c] + 1], bound)
    ensures Grows(ch, Acquire(t, sel, kind, ch, c))
    ensures Untouched(t, ch, Acquire(t, sel, kind, ch, c), t.rank[c], c)
    ensures Live(t, Acquire(t, sel, kind, ch, c).on, c)
    decreases t.rank[c] + 1, 0
  {
    if t.clocks[c].alwaysOn || ch.cnt[c] != 0 {
      AcquireCounts(t, sel, kind, ch, votes, c, bound);
    } else {
      AcquireWakes(t, sel, kind, ch, votes, c, bound);
    }
  }

  lemma GoodFits(t: Tree, sel: seq<nat>, kind: Kind, ch: Channel, votes: seq<int>, c: nat, bound: nat)
    requires c < t.Size() && Good(t, sel, kind, ch, votes, bound)
    ensures Fits(t, sel, ch) && |votes| == t.Size() && (!t.clocks[c].alwaysOn ==> ch.cnt[c] >= 0)
  {
  }

  lemma AcquireCounts(t: Tree, sel: seq<nat>, kind: Kind, ch: Channel, votes: seq<int>, c: nat, bound: nat)
    requires c < t.Size() && Good(t, sel, kind, ch, votes, bound) && t.rank[c] < bound
    requires t.clocks[c].alwaysOn || ch.cnt[c] != 0
    ensures Good(t, sel, kind, Acquire(t, sel, kind, ch, c), votes[c := votes[c] + 1], bound)
    ensures Grows(ch, Acquire(t, sel, kind, ch, c))
    ensures Untouched(t, ch, Acquire(t, sel, kind, ch, c), t.rank[c], c)
    ensures Live(t, Acquire(t, sel, kind, ch, c).on, c)
  {
    hide Good, Conserved, InStep, Ordered, AllOrdered;
    GoodFits(t, sel, kind, ch, votes, c, bound);
    if t.clocks[c].alwaysOn {
      FreeVote(t, sel, kind, ch, votes, c, votes[c] + 1, bound);
    } else {
      CountKeeps(t, sel, kind, ch, votes, c, 1, bound);
      assert Acquire(t, sel, kind, ch, c) == ch.Count(c, ch.cnt[c] + 1);
    }
  }

  lemma {:induction false} AcquireWakes(t: Tree, sel: seq<nat>, kind: Kind, ch: Channel, votes: seq<int>, c: nat, bound: nat)
    requires c < t.Size() && Good(t, sel, kind, ch, votes, bound) && t.rank[c] < bound
    requires !t.clocks[c].alwaysOn && ch.cnt[c] == 0
    ensures Good(t, sel, kind, Acquire(t, sel, kind, ch, c), votes[c := votes[c] + 1], bound)
    ensures Grows(ch, Acquire(t, sel, kind, ch, c))
    ensures Untouched(t, ch, Acquire(t, sel, kind, ch, c), t.rank[c], c)
    ensures Live(t, Acquire(t, sel, kind, ch, c).on, c)
    decreases t.rank[c], |t.Needs(sel, kind, c)| + 1
  {
    var up, needs := ch.Count(c, 1), t.Needs(sel, kind, c);
    var more := votes[c := votes[c] + 1];
    NeedsBelow(t, sel, kind, c);
    WakeConserves(t, sel, kind, ch.cnt, votes, c);
    AcquireAllKeeps(t, sel, kind, up, Minus(more, needs), needs, t.rank[c]);
    var mid := AcquireAll(t, sel, kind, up, needs, t.rank[c]);
    PlusMinus(more, needs);
    SwitchOnKeeps(t, sel, kind, ch, mid, more, c, bound);
    assert Acquire(t, sel, kind, ch, c) == mid.Switch(sel, c, true);
  }

  lemma {:induction false} AcquireAllKeeps(t: Tree, sel: seq<nat>, kind: Kind, ch: Channel, votes: seq<int>,
                              ms: seq<nat>, bound: nat)
    requires Good(t, sel, kind, ch, votes, bound) && Below(t, ms, bound)
    ensures Good(t, sel, kind, AcquireAll(t, sel, kind, ch, ms, bound), Plus(votes, ms), bound)
    ensures Grows(ch, AcquireAll(t, sel, kind, ch, ms, bound))
    ensures Untouched(t, ch, AcquireAll(t, sel, kind, ch, ms, bound), bound, t.Size())
    ensures AllLive(t, ms, AcquireAll(t, sel, kind, ch, ms, bound).on)
    decreases bound, |ms|
  {
    if ms == [] {
      PlusNone(votes);
    } else {
      var init, m := ms[..|ms| - 1], ms[|ms| - 1];
      assert ms == init + [m];
      AcquireAllKeeps(t, sel, kind, ch, votes, init, bound);
      var mid := AcquireAll(t, sel, kind, ch, init, bound);
      AcquireKeeps(t, sel, kind, mid, Plus(votes, init), m, bound);
      var end := Acquire(t, sel, kind, mid, m);
      assert AcquireAll(t, sel, kind, ch, ms, bound) == end;
      PlusSnoc(votes, init, m);
      AllLiveSnoc(t, init, m, mid, end);
    }
  }

  // ---------------------------------------------------------------- releasing

  /** Below the bound, every counted clock has at least the listed votes. */
  ghost predicate Covers(t: Tree, votes: seq<int>, ms: seq<nat>, bound: nat)
    requires t.Valid()
  {
    && |votes| == t.Size()
    && forall x :: 0 <= x < t.Size() && t.rank[x] < bound && !t.clocks[x].alwaysOn ==>
         votes[x] >= Count(ms, x)
  }

  lemma CoversInit(t: Tree, votes: seq<int>, init: seq<nat>, m: nat, bound: nat)
    requires t.Valid() && t.Under(m, bound) && Covers(t, votes, init + [m], bound)
    ensures Covers(t, votes, init, bound)
    ensures Covers(t, Minus(votes, init), [], t.rank[m])
    ensures !t.clocks[m].alwaysOn ==> Minus(votes, init)[m] >= 1
  {
    forall x | 0 <= x < t.Size() && t.rank[x] < bound && !t.clocks[x].alwaysOn
      ensures votes[x] >= Count(init, x) && (x == m ==> votes[x] > Count(init, x))
    {
      assert (init + [m])[..|init|] == init;
    }
  }

  lemma SwitchOffOrdered(t: Tree, sel: seq<nat>, kind: Kind, on: seq<bool>, c: nat)
    requires c < t.Size() && Ordered(t, kind, Shot(sel, on))
    requires forall y :: 0 <= y < t.Size() && on[y] ==> c !in t.Needs(sel, kind, y)
    ensures Ordered(t, kind, Shot(sel, on[c := false]))
  {
    var now := on[c := false];
    forall y, i | 0 <= y < t.Size() && now[y] && 0 <= i < |t.Needs(sel, kind, y)|
      ensures Live(t, now, t.Needs(sel, kind, y)[i])
    {
      assert Live(t, on, t.Needs(sel, kind, y)[i]);
      assert t.Needs(sel, kind, y)[i] in t.Needs(sel, kind, y);
    }
  }

  /** Taking the last counted vote of a clock whose caller really holds it. */
  lemma SleepKeeps(t: Tree, sel: seq<nat>, kind: Kind, ch: Channel, votes: seq<int>, c: nat, bound: nat)
    requires c < t.Size() && Good(t, sel, kind, ch, votes, bound)
    requires !t.clocks[c].alwaysOn && votes[c] >= 1 && ch.cnt[c] == 1
    ensures Good(t, sel, kind, ch.Count(c, 0).Switch(sel, c, false),
                 Plus(votes[c := votes[c] - 1], t.Returns(sel, kind, c)), bound)
  {
    SleepConserves(t, sel, kind, ch.cnt, votes, c);
    UsersPositive(t, sel, kind, ch.cnt, c, t.Size());
    SwitchOffOrdered(t, sel, kind, ch.on, c);
  }

  /** Releasing a held vote succeeds, takes that vote off, and keeps every state
      ordered on the way. */
  lemma {:induction false} ReleaseKeeps(t: Tree, sel: seq<nat>, kind: Kind, ch: Channel, votes: seq<int>, c: nat, bound: nat)
    requires c < t.Size() && Good(t, sel, kind, ch, votes, bound)
    requires t.clocks[c].alwaysOn || votes[c] >= 1
    requires Covers(t, votes, [], t.rank[c])
    ensures Good(t, sel, kind, Release(t, sel, kind, ch, c), votes[c := votes[c] - 1], bound)
    decreases t.rank[c] + 1, 0
  {
    hide Good, Covers, ReleaseAll, Tree.Needs, Tree.Returns;
    GoodFits(t, sel, kind, ch, votes, c, bound);
    if t.clocks[c].alwaysOn {
      FreeVote(t, sel, kind, ch, votes, c, votes[c] - 1, bound);
    } else if ch.cnt[c] != 1 {
      HeldIsCounted(t, sel, kind, ch, votes, c, bound);
      CountKeeps(t, sel, kind, ch, votes, c, -1, bound);
    } else {
      ReleaseSleeps(t, sel, kind, ch, votes, c, bound);
    }
  }

  lemma HeldIsCounted(t: Tree, sel: seq<nat>, kind: Kind, ch: Channel, votes: seq<int>, c: nat, bound: nat)
    requires c < t.Size() && Good(t, sel, kind, ch, votes, bound) && !t.clocks[c].alwaysOn && votes[c] >= 1
    ensures Fits(t, sel, ch) && ch.cnt[c] >= 1
  {
    hide Users;
  }

  /** The last count goes, and with it the clock and one vote on everything that it needed. */
  lemma {:induction false} ReleaseSleeps(t: Tree, sel: seq<nat>, kind: Kind, ch: Channel, votes: seq<int>, c: nat, bound: nat)
    requires c < t.Size() && Good(t, sel, kind, ch, votes, bound)
    requires !t.clocks[c].alwaysOn && votes[c] >= 1 && ch.cnt[c] == 1
    requires Covers(t, votes, [], t.rank[c])
    ensures Good(t, sel, kind, Release(t, sel, kind, ch, c), votes[c := votes[c] - 1], bound)
    decreases t.rank[c], |t.Returns(sel, kind, c)| + 1
  {
    hide Good, Covers, ReleaseAll, Tree.Needs, Tree.Returns, Tree.Valid;
    GoodFits(t, sel, kind, ch, votes, c, bound);
    SleepKeeps(t, sel, kind, ch, votes, c, bound);
    var low, less := ch.Count(c, 0).Switch(sel, c, false), votes[c := votes[c] - 1];
    var back := t.Returns(sel, kind, c);
    Ranked(t);
    NeedsBelow(t, sel, kind, c);
    LessCovers(t, votes, c, back);
    ReleaseAllKeeps(t, sel, kind, low, Plus(less, back), back, t.rank[c], bound);
    PlusMinus(less, back);
  }

  lemma LessCovers(t: Tree, votes: seq<int>, c: nat, back: seq<nat>)
    requires t.Valid() && c < t.Size() && Covers(t, votes, [], t.rank[c])
    ensures Covers(t, Plus(votes[c := votes[c] - 1], back), back, t.rank[c])
  {
  }

  lemma {:induction false} ReleaseAllKeeps(t: Tree, sel: seq<nat>, kind: Kind, ch: Channel, votes: seq<int>,
                              ms: seq<nat>, lim: nat, bound: nat)
    requires Good(t, sel, kind, ch, votes, bound) && Below(t, ms, lim) && Covers(t, votes, ms, lim)
    ensures Good(t, sel, kind, ReleaseAll(t, sel, kind, ch, ms, lim), Minus(votes, ms), bound)
    decreases lim, |ms|
  {
    if ms == [] {
      PlusNone(votes);
    } else {
      var init, m := ms[..|ms| - 1], ms[|ms| - 1];
      assert ms == init + [m];
      PlusSnoc(votes, init, m);
      CoversInit(t, votes, init, m, lim);
      ReleaseAllKeeps(t, sel, kind, ch, votes, init, lim, bound);
      var mid := ReleaseAll(t, sel, kind, ch, init, lim);
      ReleaseKeeps(t, sel, kind, mid, Minus(votes, init), m, bound);
      assert ReleaseAll(t, sel, kind, ch, ms, lim) == Release(t, sel, kind, mid, m);
    }
  }

  /** A held vote is never refused, nor is any vote returned along the way. */
  lemma {:induction false} HeldIsAccepted(t: Tree, sel: seq<nat>, kind: Kind, ch: Channel, votes: seq<int>, c: nat,
                              bound: nat)
    requires c < t.Size() && Good(t, sel, kind, ch, votes, bound)
    requires t.clocks[c].alwaysOn || votes[c] >= 1
    requires Covers(t, votes, [], t.rank[c])
    ensures Accepted(t, sel, kind, ch, c)
    decreases t.rank[c]
  {
    if !t.clocks[c].alwaysOn && ch.cnt[c] == 1 && t.clocks[c].hc.Some? {
      var h, back := t.clocks[c].hc.value, t.Returns(sel, kind, c);
      SleepKeeps(t, sel, kind, ch, votes, c, bound);
      assert back[0] == h;
      assert h in back;
      HeldIsAccepted(t, sel, kind, ch.Count(c, 0).Switch(sel, c, false), Plus(votes[c := votes[c] - 1], back), h, bound);
    }
  }

  // ---------------------------------------------------------------- releasing what is not held

  /** Switching off a clock that another clock in use needs breaks the order. */
  lemma SwitchOffBreaks(t: Tree, sel: seq<nat>, kind: Kind, ch: Channel, votes: seq<int>, c: nat, bound: nat)
    requires c < t.Size() && Good(t, sel, kind, ch, votes, bound) && Top(t, bound)
    requires !t.clocks[c].alwaysOn && votes[c] < 1 && ch.cnt[c] == 1
    ensures !Ordered(t, kind, Shot(sel, ch.on[c := false]))
  {
    UsersPositive(t, sel, kind, ch.cnt, c, t.Size());
    var y :| 0 <= y < t.Size() && ch.cnt[y] != 0 && c in t.Needs(sel, kind, y);
    var i :| 0 <= i < |t.Needs(sel, kind, y)| && t.Needs(sel, kind, y)[i] == c;
    NeedsBelow(t, sel, kind, y);
    assert !Live(t, ch.on[c := false], t.Needs(sel, kind, y)[i]);
  }

  ghost predicate Top(t: Tree, bound: nat)
    requires t.Valid()
  {
    forall x :: 0 <= x < t.Size() ==> t.rank[x] < bound
  }

  /** Unlike the power domains, a release never looks at the clocks that still need this one:
      the channel stays ordered exactly when the vote was held or others keep the count up. */
  lemma ReleaseOrderedIff(t: Tree, sel: seq<nat>, kind: Kind, ch: Channel, votes: seq<int>, c: nat, bound: nat)
    requires c < t.Size() && Good(t, sel, kind, ch, votes, bound) && Top(t, bound)
    requires Covers(t, votes, [], t.rank[c])
    ensures AllOrdered(t, kind, Release(t, sel, kind, ch, c).log) <==>
              (t.clocks[c].alwaysOn || votes[c] >= 1 || ch.cnt[c] != 1)
  {
    hide Conserved, InStep, Ordered;
    if t.clocks[c].alwaysOn || votes[c] >= 1 {
      ReleaseKeeps(t, sel, kind, ch, votes, c, bound);
    } else if ch.cnt[c] == 1 {
      SwitchOffBreaks(t, sel, kind, ch, votes, c, bound);
      NeedsBelow(t, sel, kind, c);
      var low := ch.Count(c, 0).Switch(sel, c, false);
      OwnPast(low);
      ReleaseAllBehind(t, sel, kind, low.Forget(), t.Returns(sel, kind, c), t.rank[c], low.log);
      assert Release(t, sel, kind, ch, c).log[|ch.log|] == Shot(sel, low.on);
    }
  }

  // ---------------------------------------------------------------- reparenting in use

  /** The vote on the former parent is given back. */
  ghost function Finish(t: Tree, turned: seq<nat>, kind: Kind, ch: Channel, c: nat, former: Option<nat>): (r: Channel)
    requires Fits(t, turned, ch) && c < t.Size()
    ensures r.Sized(t.Size())
  {
    if ch.cnt[c] > 0 && former.Some? && former.value < t.Size()
    then Release(t, turned, kind, ch, former.value)
    else ch
  }

  ghost function Vote(t: Tree, sel: seq<nat>, kind: Kind, ch: Channel, c: nat, p: nat): (r: Channel)
    requires Fits(t, sel, ch) && c < t.Size() && p < t.Size()
    ensures r.Sized(t.Size())
  {
    if ch.cnt[c] > 0 then Acquire(t, sel, kind, ch, p) else ch
  }

  /** One channel while the parent of c changes from what sel selects to p: a vote for the new
      parent, and after the multiplexer has turned the vote on the former one back. */
  ghost function Switchover(t: Tree, sel: seq<nat>, kind: Kind, ch: Channel, c: nat, i: nat, p: nat): (r: Channel)
    requires Fits(t, sel, ch) && c < t.Size() && p < t.Size()
    ensures r.Sized(t.Size())
  {
    Finish(t, sel[c := i], kind, Vote(t, sel, kind, ch, c, p).Forget(), c, t.Parent(sel, c))
  }

  lemma {:induction false} UsersReparent(t: Tree, sel: seq<nat>, turned: seq<nat>, kind: Kind, cnt: seq<int>, c: nat,
                              x: nat, k: nat)
    requires t.Selects(sel) && t.Selects(turned) && |cnt| == t.Size() && c < t.Size() && k <= t.Size()
    requires forall y :: 0 <= y < t.Size() && y != c ==> sel[y] == turned[y]
    ensures Users(t, turned, kind, cnt, x, k) == Users(t, sel, kind, cnt, x, k)
          + (if c < k && cnt[c] != 0
             then Count(t.ParentList(turned, c), x) - Count(t.ParentList(sel, c), x) else 0)
  {
    hide Tree.ParentList, Tree.Needs, Tree.Others;
    if k != 0 {
      UsersReparent(t, sel, turned, kind, cnt, c, x, k - 1);
      NeedsCount(t, sel, kind, k - 1, x);
      NeedsCount(t, turned, kind, k - 1, x);
      if k - 1 != c {
        SameElsewhere(t, sel, turned, kind, k - 1);
      }
    }
  }

  lemma SameElsewhere(t: Tree, sel: seq<nat>, turned: seq<nat>, kind: Kind, y: nat)
    requires t.Selects(sel) && t.Selects(turned) && y < t.Size() && sel[y] == turned[y]
    ensures t.ParentList(sel, y) == t.ParentList(turned, y)
  {
  }

  lemma NeedsCount(t: Tree, sel: seq<nat>, kind: Kind, c: nat, x: nat)
    requires t.Selects(sel) && c < t.Size()
    ensures Count(t.Needs(sel, kind, c), x) == Count(t.ParentList(sel, c), x) + Count(t.Others(kind, c), x)
  {
    CountAppend(t.ParentList(sel, c), t.Others(kind, c), x);
  }

  /** Turning the multiplexer of a counted clock moves its vote to the new parent. */
  lemma TurnConserves(t: Tree, sel: seq<nat>, kind: Kind, cnt: seq<int>, votes: seq<int>, c: nat, i: nat)
    requires c < t.Size() && Conserved(t, sel, kind, cnt, votes)
    ensures cnt[c] == 0 ==> Conserved(t, sel[c := i], kind, cnt, votes)
    ensures cnt[c] != 0 ==> Conserved(t, sel[c := i], kind, cnt,
              Plus(Minus(votes, t.ParentList(sel[c := i], c)), t.ParentList(sel, c)))
  {
    forall x | 0 <= x < t.Size()
      ensures Users(t, sel[c := i], kind, cnt, x, t.Size())
           == Users(t, sel, kind, cnt, x, t.Size())
            + (if cnt[c] != 0
               then Count(t.ParentList(sel[c := i], c), x) - Count(t.ParentList(sel, c), x) else 0)
    {
      UsersReparent(t, sel, sel[c := i], kind, cnt, c, x, t.Size());
    }
  }

  lemma TurnOrdered(t: Tree, sel: seq<nat>, kind: Kind, on: seq<bool>, c: nat, i: nat)
    requires c < t.Size() && Ordered(t, kind, Shot(sel, on))
    requires on[c] ==> AllLive(t, t.ParentList(sel[c := i], c), on)
    ensures Ordered(t, kind, Shot(sel[c := i], on))
  {
    var turned := sel[c := i];
    forall y, j | 0 <= y < t.Size() && on[y] && 0 <= j < |t.Needs(turned, kind, y)|
      ensures Live(t, on, t.Needs(turned, kind, y)[j])
    {
      if y != c {
        assert t.Needs(turned, kind, y) == t.Needs(sel, kind, y);
      } else if j >= |t.ParentList(turned, c)| {
        var k := j - |t.ParentList(turned, c)|;
        assert t.Needs(turned, kind, c)[j] == t.Others(kind, c)[k];
        assert t.Needs(sel, kind, c)[k + |t.ParentList(sel, c)|] == t.Others(kind, c)[k];
        assert Live(t, on, t.Needs(sel, kind, c)[k + |t.ParentList(sel, c)|]);
      } else {
        assert t.Needs(turned, kind, c)[j] == t.ParentList(turned, c)[j];
      }
    }
  }

  /** The multiplexer turns only once the new parent is live. */
  lemma TurnKeeps(t: Tree, sel: seq<nat>, kind: Kind, ch: Channel, votes: seq<int>, c: nat, i: nat, bound: nat)
    requires c < t.Size() && |votes| == t.Size()
    requires ch.Sized(t.Size()) && t.Selects(sel)
    requires ch.cnt[c] == 0 ==> Good(t, sel, kind, ch, votes, bound)
    requires ch.cnt[c] != 0 ==> Good(t, sel, kind, ch, Plus(votes, t.ParentList(sel[c := i], c)), bound)
    requires ch.on[c] ==> AllLive(t, t.ParentList(sel[c := i], c), ch.on)
    ensures ch.cnt[c] == 0 ==>
              Good(t, sel[c := i], kind, ch.(log := ch.log + [Shot(sel[c := i], ch.on)]), votes, bound)
    ensures ch.cnt[c] != 0 ==>
              Good(t, sel[c := i], kind, ch.(log := ch.log + [Shot(sel[c := i], ch.on)]),
                   Plus(votes, t.ParentList(sel, c)), bound)
  {
    TurnOrdered(t, sel, kind, ch.on, c, i);
    if ch.cnt[c] == 0 {
      TurnConserves(t, sel, kind, ch.cnt, votes, c, i);
    } else {
      TurnConserves(t, sel, kind, ch.cnt, Plus(votes, t.ParentList(sel[c := i], c)), c, i);
      PlusMinus(votes, t.ParentList(sel[c := i], c));
    }
  }

  /** Votes of callers are not negative on counted clocks. */
  ghost predicate NonNegative(t: Tree, votes: seq<int>) {
    |votes| == t.Size() && forall x :: 0 <= x < t.Size() && !t.clocks[x].alwaysOn ==> votes[x] >= 0
  }

  lemma PlusOne(votes: seq<int>, p: nat)
    requires p < |votes|
    ensures Plus(votes, [p]) == votes[p := votes[p] + 1]
  {
    PlusSnoc(votes, [], p);
    PlusNone(votes);
    assert [] + [p] == [p];
  }

  /** The new parent is voted for before the multiplexer turns. */
  lemma VoteThenTurn(t: Tree, sel: seq<nat>, kind: Kind, ch: Channel, votes: seq<int>, c: nat, i: nat, p: nat, bound: nat)
    requires c < t.Size() && Good(t, sel, kind, ch, votes, bound) && Top(t, bound) && ch.cnt[c] > 0
    requires t.Parent(sel[c := i], c) == Some(p) && p < t.Size() && t.rank[p] < t.rank[c]
    ensures var voted := Acquire(t, sel, kind, ch, p);
            voted.cnt[c] == ch.cnt[c]
            && Good(t, sel[c := i], kind, voted.(log := voted.log + [Shot(sel[c := i], voted.on)]),
                    Plus(votes, t.ParentList(sel, c)), bound)
  {
    AcquireKeeps(t, sel, kind, ch, votes, p, bound);
    PlusOne(votes, p);
    var voted := Acquire(t, sel, kind, ch, p);
    assert t.ParentList(sel[c := i], c) == [p];
    assert AllLive(t, [p], voted.on);
    TurnKeeps(t, sel, kind, voted, votes, c, i, bound);
  }

  /** The vote on the former parent is taken back after the multiplexer has turned. */
  lemma LetGo(t: Tree, sel: seq<nat>, turned: seq<nat>, kind: Kind, moved: Channel, votes: seq<int>, o: nat, bound: nat)
    requires o < t.Size() && Good(t, turned, kind, moved, Plus(votes, [o]), bound)
    requires |votes| == t.Size() && NonNegative(t, votes)
    ensures Good(t, turned, kind, Release(t, turned, kind, moved, o), votes, bound)
  {
    PlusOne(votes, o);
    var more := votes[o := votes[o] + 1];
    ReleaseKeeps(t, turned, kind, moved, more, o, bound);
    assert more[o := more[o] - 1] == votes;
  }

  /** The votes while c counts for both parents. */
  function Lent(votes: seq<int>, counted: bool, p: nat): (v: seq<int>)
    requires p < |votes|
    ensures |v| == |votes|
  {
    if counted then votes[p := votes[p] + 1] else votes
  }

  /** What is so before and after the multiplexer turns: the new parent is voted for, and the
      former one still is. */
  lemma VoteKeeps(t: Tree, sel: seq<nat>, kind: Kind, ch: Channel, votes: seq<int>, c: nat, i: nat, p: nat, bound: nat)
    requires c < t.Size() && Good(t, sel, kind, ch, votes, bound) && Top(t, bound)
    requires t.Parent(sel[c := i], c) == Some(p) && p < t.Size() && t.rank[p] < t.rank[c]
    ensures Fits(t, sel, ch) && |votes| == t.Size()
    ensures var voted := Vote(t, sel, kind, ch, c, p);
      && Good(t, sel, kind, voted, Lent(votes, ch.cnt[c] > 0, p), bound) && voted.cnt[c] == ch.cnt[c]
      && Good(t, sel[c := i], kind, voted.Forget(),
              if ch.cnt[c] > 0 then Plus(votes, t.ParentList(sel, c)) else votes, bound)
  {
    hide Good;
    GoodFits(t, sel, kind, ch, votes, c, bound);
    var voted, turned := Vote(t, sel, kind, ch, c, p), sel[c := i];
    if ch.cnt[c] > 0 {
      VoteThenTurn(t, sel, kind, ch, votes, c, i, p, bound);
      AcquireKeeps(t, sel, kind, ch, votes, p, bound);
    } else {
      UncountedIsOff(t, sel, kind, ch, votes, c, bound);
      TurnKeeps(t, sel, kind, ch, votes, c, i, bound);
    }
    GoodForgets(t, turned, kind, voted.(log := voted.log + [Shot(turned, voted.on)]), voted,
                if ch.cnt[c] > 0 then Plus(votes, t.ParentList(sel, c)) else votes, bound);
  }

  lemma UncountedIsOff(t: Tree, sel: seq<nat>, kind: Kind, ch: Channel, votes: seq<int>, c: nat, bound: nat)
    requires c < t.Size() && Good(t, sel, kind, ch, votes, bound) && ch.cnt[c] <= 0
    ensures ch.cnt[c] == 0 && !ch.on[c]
  {
  }

  lemma GoodForgets(t: Tree, sel: seq<nat>, kind: Kind, a: Channel, b: Channel, votes: seq<int>, bound: nat)
    requires Good(t, sel, kind, a, votes, bound) && b.Forget() == a.Forget()
    ensures Good(t, sel, kind, b.Forget(), votes, bound) && AllOrdered(t, kind, a.log)
  {
  }

  /** Changing the parent of a clock, in use or not, keeps every vote, and the order of the
      channel before and after the multiplexer turns. */
  lemma SwitchoverKeeps(t: Tree, sel: seq<nat>, kind: Kind, ch: Channel, votes: seq<int>, c: nat, i: nat, p: nat, bound: nat)
    requires c < t.Size() && Good(t, sel, kind, ch, votes, bound) && Top(t, bound) && NonNegative(t, votes)
    requires t.Parent(sel[c := i], c) == Some(p) && p < t.Size() && t.rank[p] < t.rank[c]
    ensures Good(t, sel[c := i], kind, Switchover(t, sel, kind, ch, c, i, p), votes, bound)
  {
    hide Conserved, Ordered, AllOrdered, Vote;
    var former := t.Parent(sel, c);
    VoteKeeps(t, sel, kind, ch, votes, c, i, p, bound);
    if ch.cnt[c] > 0 {
      if former.Some? {
        NeedsBelow(t, sel, kind, c);
        assert t.Needs(sel, kind, c)[0] == former.value;
        LetGo(t, sel, sel[c := i], kind, Vote(t, sel, kind, ch, c, p).Forget(), votes, former.value, bound);
      } else {
        PlusNone(votes);
      }
    }
  }

  // ---------------------------------------------------------------- what the votes determine

  lemma {:induction false} CounterDetermined(t: Tree, sel: seq<nat>, kind: Kind, a: Channel, b: Channel,
                              votes: seq<int>, x: nat, bound: nat)
    requires x < t.Size() && Good(t, sel, kind, a, votes, bound) && Good(t, sel, kind, b, votes, bound)
    requires Top(t, bound)
    ensures a.cnt[x] == b.cnt[x]
    decreases bound - t.rank[x]
  {
    if !t.clocks[x].alwaysOn {
      forall c | 0 <= c < t.Size() && x in t.Needs(sel, kind, c) ensures a.cnt[c] == b.cnt[c] {
        NeedsBelow(t, sel, kind, c);
        CounterDetermined(t, sel, kind, a, b, votes, c, bound);
      }
      UsersSame(t, sel, kind, a.cnt, b.cnt, x, t.Size());
    }
  }

  /** With the same selections, the votes alone determine every counter and every switch. */
  lemma VotesDetermine(t: Tree, sel: seq<nat>, kind: Kind, a: Channel, b: Channel, votes: seq<int>, bound: nat)
    requires Good(t, sel, kind, a, votes, bound) && Good(t, sel, kind, b, votes, bound) && Top(t, bound)
    ensures a.cnt == b.cnt && a.on == b.on
  {
    forall x | 0 <= x < t.Size() ensures a.cnt[x] == b.cnt[x] && a.on[x] == b.on[x] {
      CounterDetermined(t, sel, kind, a, b, votes, x, bound);
    }
  }

  /** Enabling a clock and disabling it again restores every counter in the tree. */
  lemma AcquireThenRelease(t: Tree, sel: seq<nat>, kind: Kind, ch: Channel, votes: seq<int>, c: nat, bound: nat)
    requires c < t.Size() && Good(t, sel, kind, ch, votes, bound) && Top(t, bound) && NonNegative(t, votes)
    ensures var up := Acquire(t, sel, kind, ch, c);
            Accepted(t, sel, kind, up, c)
            && Release(t, sel, kind, up, c).cnt == ch.cnt && Release(t, sel, kind, up, c).on == ch.on
  {
    var up, more := Acquire(t, sel, kind, ch, c), votes[c := votes[c] + 1];
    AcquireKeeps(t, sel, kind, ch, votes, c, bound);
    HeldIsAccepted(t, sel, kind, up, more, c, bound);
    ReleaseKeeps(t, sel, kind, up, more, c, bound);
    assert more[c := more[c] - 1] == votes;
    VotesDetermine(t, sel, kind, Release(t, sel, kind, up, c), ch, votes, bound);
  }

  /** Moving a clock to another parent and back restores every counter in the tree. */
  lemma ThereAndBack(t: Tree, sel: seq<nat>, kind: Kind, ch: Channel, votes: seq<int>, c: nat, i: nat, p: nat,
                     q: nat, bound: nat)
    requires c < t.Size() && Good(t, sel, kind, ch, votes, bound) && Top(t, bound) && NonNegative(t, votes)
    requires t.Parent(sel, c) == Some(q) && q < t.Size() && t.rank[q] < t.rank[c]
    requires t.Parent(sel[c := i], c) == Some(p) && p < t.Size() && t.rank[p] < t.rank[c]
    ensures var there := Switchover(t, sel, kind, ch, c, i, p);
            var back := Switchover(t, sel[c := i], kind, there, c, sel[c], q);
            back.cnt == ch.cnt && back.on == ch.on
  {
    hide Good, Switchover;
    GoodFits(t, sel, kind, ch, votes, c, bound);
    SwitchoverKeeps(t, sel, kind, ch, votes, c, i, p, bound);
    var there := Switchover(t, sel, kind, ch, c, i, p);
    assert sel[c := i][c := sel[c]] == sel;
    GoodFits(t, sel[c := i], kind, there, votes, c, bound);
    SwitchoverKeeps(t, sel[c := i], kind, there, votes, c, sel[c], q, bound);
    VotesDetermine(t, sel, kind, Switchover(t, sel[c := i], kind, there, c, sel[c], q), ch, votes, bound);
  }

  /** Somebody holds a vote on the clock or on a clock that needs it, over at most so many
      links; always-on clocks neither take votes nor pass them on. */
  ghost predicate Wanted(t: Tree, sel: seq<nat>, kind: Kind, votes: seq<int>, x: nat, depth: nat)
    requires t.Selects(sel) && |votes| == t.Size() && x < t.Size()
    decreases depth
  {
    && !t.clocks[x].alwaysOn
    && (|| votes[x] > 0
        || (depth > 0 && exists c :: 0 <= c < t.Size() && x in t.Needs(sel, kind, c)
                                  && Wanted(t, sel, kind, votes, c, depth - 1)))
  }

  /** A clock is switched on exactly when it, or a clock needing it over any chain of present
      parents and stand-ins, is voted for. */
  lemma {:induction false} OnIffWanted(t: Tree, sel: seq<nat>, kind: Kind, ch: Channel, votes: seq<int>, x: nat,
                              depth: nat, bound: nat)
    requires x < t.Size() && Good(t, sel, kind, ch, votes, bound) && Top(t, bound) && NonNegative(t, votes)
    requires depth + t.rank[x] + 1 >= bound
    ensures ch.on[x] <==> Wanted(t, sel, kind, votes, x, depth)
    decreases depth
  {
    UsersPositive(t, sel, kind, ch.cnt, x, t.Size());
    forall c | 0 <= c < t.Size() && x in t.Needs(sel, kind, c)
      ensures depth > 0 && (ch.on[c] <==> Wanted(t, sel, kind, votes, c, depth - 1))
    {
      NeedsBelow(t, sel, kind, c);
      OnIffWanted(t, sel, kind, ch, votes, c, depth - 1, bound);
    }
  }

  /** Some chain of present parents and stand-ins leads from p down to x, which is gated. */
  ghost predicate Feeds(t: Tree, sel: seq<nat>, kind: Kind, x: nat, p: nat, depth: nat)
    requires t.Selects(sel) && x < t.Size()
    decreases depth
  {
    && !t.clocks[x].alwaysOn
    && (|| x == p
        || (depth > 0 && exists c :: 0 <= c < t.Size() && x in t.Needs(sel, kind, c)
                                  && Feeds(t, sel, kind, c, p, depth - 1)))
  }

  lemma {:induction false} WantedMore(t: Tree, sel: seq<nat>, kind: Kind, votes: seq<int>, x: nat, p: nat, depth: nat)
    requires t.Selects(sel) && NonNegative(t, votes) && x < t.Size() && p < t.Size()
    ensures Wanted(t, sel, kind, votes[p := votes[p] + 1], x, depth)
       <==> Wanted(t, sel, kind, votes, x, depth) || Feeds(t, sel, kind, x, p, depth)
    decreases depth
  {
    hide Tree.Needs;
    if depth > 0 {
      forall c | 0 <= c < t.Size() && x in t.Needs(sel, kind, c)
        ensures Wanted(t, sel, kind, votes[p := votes[p] + 1], c, depth - 1)
           <==> Wanted(t, sel, kind, votes, c, depth - 1) || Feeds(t, sel, kind, c, p, depth - 1)
      {
        WantedMore(t, sel, kind, votes, c, p, depth - 1);
      }
    }
  }

  /** A vote for p wakes exactly what p depends on. */
  lemma LiveOnceVoted(t: Tree, sel: seq<nat>, kind: Kind, ch: Channel, votes: seq<int>, p: nat, x: nat, bound: nat)
    requires Good(t, sel, kind, ch, votes, bound) && Top(t, bound) && NonNegative(t, votes)
    requires p < t.Size() && x < t.Size()
    ensures Live(t, Acquire(t, sel, kind, ch, p).on, x) <==> Live(t, ch.on, x) || Feeds(t, sel, kind, x, p, bound)
  {
    hide Wanted, Conserved, InStep, Ordered, AllOrdered;
    AcquireKeeps(t, sel, kind, ch, votes, p, bound);
    OnIffWanted(t, sel, kind, ch, votes, x, bound, bound);
    OnIffWanted(t, sel, kind, Acquire(t, sel, kind, ch, p), votes[p := votes[p] + 1], x, bound, bound);
    WantedMore(t, sel, kind, votes, x, p, bound);
  }

  lemma ParentExists(t: Tree, sel: seq<nat>, c: nat)
    requires t.Selects(sel) && c < t.Size()
    ensures t.Parent(sel, c).Some? ==> t.Parent(sel, c).value < t.Size()
  {
  }

  /** The clocks that are switched on once p is voted for. */
  ghost function Woken(t: Tree, sel: seq<nat>, kind: Kind, on: seq<bool>, p: nat, bound: nat): (w: seq<bool>)
    requires t.Selects(sel) && |on| == t.Size()
    ensures |w| == t.Size()
  {
    seq(t.Size(), x requires 0 <= x < t.Size() => on[x] || Feeds(t, sel, kind, x, p, bound))
  }

  lemma VoteWakes(t: Tree, sel: seq<nat>, kind: Kind, ch: Channel, votes: seq<int>, c: nat, p: nat, bound: nat)
    requires Good(t, sel, kind, ch, votes, bound) && Top(t, bound) && NonNegative(t, votes)
    requires c < t.Size() && p < t.Size()
    ensures Vote(t, sel, kind, ch, c, p).on == if ch.cnt[c] > 0 then Woken(t, sel, kind, ch.on, p, bound) else ch.on
  {
    hide Conserved, Ordered, AllOrdered, Acquire, Feeds;
    if ch.cnt[c] > 0 {
      AcquireKeeps(t, sel, kind, ch, votes, p, bound);
      forall x | 0 <= x < t.Size()
        ensures Acquire(t, sel, kind, ch, p).on[x] <==> ch.on[x] || Feeds(t, sel, kind, x, p, bound)
      {
        LiveOnceVoted(t, sel, kind, ch, votes, p, x, bound);
        if Feeds(t, sel, kind, x, p, bound) {
          FeedsGated(t, sel, kind, x, p, bound);
        }
      }
    }
  }

  lemma FeedsGated(t: Tree, sel: seq<nat>, kind: Kind, x: nat, p: nat, depth: nat)
    requires t.Selects(sel) && x < t.Size() && Feeds(t, sel, kind, x, p, depth)
    ensures !t.clocks[x].alwaysOn
  {
  }
}
