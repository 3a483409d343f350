/** Runs of the clock framework of drivers/clk/v1/mtk_clk.c: preparing, enabling, their inverses
    and changing parents, and what the hardware goes through on the way.

    A clock is switched in hardware by one of its ops only, so what is on in hardware depends on
    both channels: a gate is opened by enable and the PLL above it is started by prepare. */
module ClockRuns {
  import opened Bags
  import opened ClockTree

  // ---------------------------------------------------------------- what the hardware looks like

  /** One instant of the whole: selections, and the clocks prepared and enabled. */
  datatype Scene = Scene(sel: seq<nat>, prep: seq<bool>, en: seq<bool>)

  ghost predicate Shown(t: Tree, s: Scene) {
    t.Selects(s.sel) && |s.prep| == |s.en| == t.Size()
  }

  /** The op that switches a clock; one with a stand-in leaves that to the stand-in. */
  function Gating(t: Tree, c: nat): HwOp
    requires c < t.Size()
  {
    if t.clocks[c].hc.Some? then Nowhere else t.clocks[c].op
  }

  /** The clock itself lets a signal through; with gates false, gates are taken to be open. */
  predicate Open(t: Tree, s: Scene, c: nat, gates: bool)
    requires c < t.Size() && |s.prep| == |s.en| == t.Size()
  {
    match Gating(t, c)
    case ByPrepare => s.prep[c]
    case ByEnable => gates ==> s.en[c]
    case Nowhere => true
  }

  /** And so do its present parent and its stand-in, and theirs, up to where nothing is needed. */
  ghost predicate Flows(t: Tree, s: Scene, c: nat, gates: bool)
    requires Shown(t, s) && c < t.Size()
    decreases t.rank[c]
  {
    NeedsBelow(t, s.sel, Prepare, c);
    || t.clocks[c].alwaysOn
    || (&& Open(t, s, c, gates)
        && forall i :: 0 <= i < |t.Needs(s.sel, Prepare, c)| ==> Flows(t, s, t.Needs(s.sel, Prepare, c)[i], gates))
  }

  ghost predicate AllFlow(t: Tree, s: Scene, ms: seq<nat>, gates: bool)
    requires Shown(t, s)
  {
    forall i :: 0 <= i < |ms| ==> ms[i] < t.Size() && Flows(t, s, ms[i], gates)
  }

  /** Every clock in use gets its signal through running PLLs and open gates, and every
      prepared one has running PLLs above it. */
  ghost predicate Running(t: Tree, s: Scene) {
    && Shown(t, s)
    && (forall c :: 0 <= c < t.Size() && s.en[c] ==> Flows(t, s, c, true))
    && (forall c :: 0 <= c < t.Size() && s.prep[c] ==> Flows(t, s, c, false))
  }

  ghost predicate AllRunning(t: Tree, log: seq<Scene>) {
    forall i :: 0 <= i < |log| ==> Running(t, log[i])
  }

  /** So no gate in use is open under a PLL that is off or a gate that is shut, however far
      above. */
  lemma {:induction false} NoneShutAbove(t: Tree, s: Scene, c: nat, u: nat, depth: nat)
    requires Running(t, s) && c < t.Size() && s.en[c] && u < t.Size() && Feeds(t, s.sel, Prepare, u, c, depth)
    ensures Flows(t, s, u, true) && Open(t, s, u, true)
    decreases depth
  {
    if u != c {
      var d :| 0 <= d < t.Size() && u in t.Needs(s.sel, Prepare, d) && Feeds(t, s.sel, Prepare, d, c, depth - 1);
      NoneShutAbove(t, s, c, d, depth - 1);
      FeedsGated(t, s.sel, Prepare, d, c, depth - 1);
      var i :| 0 <= i < |t.Needs(s.sel, Prepare, d)| && t.Needs(s.sel, Prepare, d)[i] == u;
      assert Flows(t, s, t.Needs(s.sel, Prepare, d)[i], true);
    }
    FeedsGated(t, s.sel, Prepare, u, c, depth);
  }

  /** The clock's own op, unless a stand-in takes its place, has been called. */
  predicate Lets(t: Tree, s: Scene, u: nat, gates: bool)
    requires u < t.Size() && |s.prep| == |s.en| == t.Size()
  {
    t.clocks[u].hc == None ==>
      (t.clocks[u].op == ByPrepare ==> s.prep[u]) && (gates && t.clocks[u].op == ByEnable ==> s.en[u])
  }

  lemma {:induction false} FeedsFurther(t: Tree, sel: seq<nat>, u: nat, n: nat, c: nat, depth: nat)
    requires t.Selects(sel) && u < t.Size() && c < t.Size() && !t.clocks[c].alwaysOn
    requires n in t.Needs(sel, Prepare, c) && Feeds(t, sel, Prepare, u, n, depth)
    ensures Feeds(t, sel, Prepare, u, c, depth + 1)
    decreases depth
  {
    hide Tree.Needs;
    if u == n {
      assert Feeds(t, sel, Prepare, c, c, depth);
    } else {
      var d :| 0 <= d < t.Size() && u in t.Needs(sel, Prepare, d) && Feeds(t, sel, Prepare, d, n, depth - 1);
      FeedsFurther(t, sel, d, n, c, depth - 1);
    }
  }

  lemma {:induction false} FlowsDown(t: Tree, s: Scene, c: nat, gates: bool, u: nat, depth: nat)
    requires Shown(t, s) && c < t.Size() && Flows(t, s, c, gates) && u < t.Size()
    requires Feeds(t, s.sel, Prepare, u, c, depth)
    ensures Flows(t, s, u, gates) && Lets(t, s, u, gates)
    decreases depth
  {
    if u != c {
      var d :| 0 <= d < t.Size() && u in t.Needs(s.sel, Prepare, d) && Feeds(t, s.sel, Prepare, d, c, depth - 1);
      FlowsDown(t, s, c, gates, d, depth - 1);
      FeedsGated(t, s.sel, Prepare, d, c, depth - 1);
      var i :| 0 <= i < |t.Needs(s.sel, Prepare, d)| && t.Needs(s.sel, Prepare, d)[i] == u;
      assert Flows(t, s, t.Needs(s.sel, Prepare, d)[i], gates);
    }
    FeedsGated(t, s.sel, Prepare, u, c, depth);
  }

  /** A signal gets to a clock exactly if no op on any chain of parents and stand-ins above it,
      up to what is always on, keeps it back. */
  lemma {:induction false} FlowsIff(t: Tree, s: Scene, c: nat, gates: bool)
    requires Shown(t, s) && c < t.Size()
    ensures Flows(t, s, c, gates)
       <==> forall u: nat, depth: nat ::
              u < t.Size() && Feeds(t, s.sel, Prepare, u, c, depth) ==> Lets(t, s, u, gates)
    decreases t.rank[c]
  {
    hide Tree.Needs;
    if Flows(t, s, c, gates) {
      forall u: nat, depth: nat | u < t.Size() && Feeds(t, s.sel, Prepare, u, c, depth)
        ensures Lets(t, s, u, gates)
      {
        FlowsDown(t, s, c, gates, u, depth);
      }
    } else {
      NeedsBelow(t, s.sel, Prepare, c);
      if Open(t, s, c, gates) {
        var i :| 0 <= i < |t.Needs(s.sel, Prepare, c)| && !Flows(t, s, t.Needs(s.sel, Prepare, c)[i], gates);
        var n := t.Needs(s.sel, Prepare, c)[i];
        FlowsIff(t, s, n, gates);
        var u: nat, depth: nat :| u < t.Size() && Feeds(t, s.sel, Prepare, u, n, depth) && !Lets(t, s, u, gates);
        FeedsFurther(t, s.sel, u, n, c, depth);
      } else {
        assert Feeds(t, s.sel, Prepare, c, c, 0);
      }
    }
  }

  /** Every PLL that is enabled is prepared. */
  ghost predicate Fed(t: Tree, prep: seq<bool>, en: seq<bool>) {
    && |prep| == |en| == t.Size()
    && forall x :: 0 <= x < t.Size() && Gating(t, x) == ByPrepare && !t.clocks[x].alwaysOn && en[x] ==> prep[x]
  }

  /** Both channels are in order by themselves. */
  ghost predicate BothOrdered(t: Tree, s: Scene) {
    Ordered(t, Prepare, Shot(s.sel, s.prep)) && Ordered(t, Enable, Shot(s.sel, s.en))
  }

  function OnOf(s: Scene, gates: bool): seq<bool> { if gates then s.en else s.prep }

  function KindOf(gates: bool): Kind { if gates then Enable else Prepare }

  /** What preparing needs is the first part of what enabling needs. */
  lemma NeededByBoth(t: Tree, sel: seq<nat>, kind: Kind, c: nat, i: nat)
    requires t.Selects(sel) && c < t.Size() && i < |t.Needs(sel, Prepare, c)|
    ensures i < |t.Needs(sel, kind, c)| && t.Needs(sel, kind, c)[i] == t.Needs(sel, Prepare, c)[i]
  {
  }

  lemma NeedLive(t: Tree, s: Scene, c: nat, i: nat, gates: bool)
    requires BothOrdered(t, s) && Shown(t, s) && c < t.Size() && OnOf(s, gates)[c] && i < |t.Needs(s.sel, Prepare, c)|
    ensures Live(t, OnOf(s, gates), t.Needs(s.sel, Prepare, c)[i])
  {
    NeededByBoth(t, s.sel, KindOf(gates), c, i);
    assert Ordered(t, KindOf(gates), Shot(s.sel, OnOf(s, gates)));
    assert Live(t, OnOf(s, gates), t.Needs(s.sel, KindOf(gates), c)[i]);
  }

  lemma {:induction false} LiveFlows(t: Tree, s: Scene, c: nat, gates: bool)
    requires Shown(t, s) && BothOrdered(t, s) && Fed(t, s.prep, s.en) && Live(t, OnOf(s, gates), c)
    ensures Flows(t, s, c, gates)
    decreases t.rank[c]
  {
    if !t.clocks[c].alwaysOn {
      NeedsBelow(t, s.sel, Prepare, c);
      forall i | 0 <= i < |t.Needs(s.sel, Prepare, c)|
        ensures Flows(t, s, t.Needs(s.sel, Prepare, c)[i], gates)
      {
        NeedLive(t, s, c, i, gates);
        LiveFlows(t, s, t.Needs(s.sel, Prepare, c)[i], gates);
      }
    }
  }

  /** With the channels in order, the hardware is exactly if every enabled PLL is prepared. */
  lemma RunningIffFed(t: Tree, s: Scene)
    requires Shown(t, s) && BothOrdered(t, s)
    ensures Running(t, s) <==> Fed(t, s.prep, s.en)
  {
    hide Ordered;
    if Fed(t, s.prep, s.en) {
      forall c | 0 <= c < t.Size()
        ensures (s.en[c] ==> Flows(t, s, c, true)) && (s.prep[c] ==> Flows(t, s, c, false))
      {
        if s.en[c] { LiveFlows(t, s, c, true); }
        if s.prep[c] { LiveFlows(t, s, c, false); }
      }
    } else {
      var x :| 0 <= x < t.Size() && Gating(t, x) == ByPrepare && !t.clocks[x].alwaysOn && s.en[x] && !s.prep[x];
      assert !Flows(t, s, x, true);
    }
  }

  // ---------------------------------------------------------------- between two writes of a multiplexer

  /** Below a clock nothing depends on what that clock selects. */
  lemma {:induction false} FlowsBelow(t: Tree, a: Scene, b: Scene, c: nat, x: nat, gates: bool)
    requires Shown(t, a) && Shown(t, b) && a.prep == b.prep && a.en == b.en && c < t.Size() && x < t.Size()
    requires forall y :: 0 <= y < t.Size() && y != c ==> a.sel[y] == b.sel[y]
    requires t.rank[x] < t.rank[c]
    ensures Flows(t, a, x, gates) <==> Flows(t, b, x, gates)
    decreases t.rank[x]
  {
    NeedsBelow(t, a.sel, Prepare, x);
    assert t.Needs(a.sel, Prepare, x) == t.Needs(b.sel, Prepare, x);
    forall i | 0 <= i < |t.Needs(a.sel, Prepare, x)|
      ensures Flows(t, a, t.Needs(a.sel, Prepare, x)[i], gates) <==> Flows(t, b, t.Needs(a.sel, Prepare, x)[i], gates)
    {
      FlowsBelow(t, a, b, c, t.Needs(a.sel, Prepare, x)[i], gates);
    }
  }

  /** Clearing the field of c takes the signal from nothing in use: c is not in use, or the
      first of its candidate parents has one; and likewise for its PLLs when it is prepared. */
  ghost predicate ClearSafe(t: Tree, s: Scene, c: nat)
    requires Shown(t, s) && c < t.Size()
  {
    t.clocks[c].twoStep && !t.clocks[c].alwaysOn ==>
      && (s.en[c] ==> AllFlow(t, s, t.ParentList(s.sel[c := 0], c), true))
      && (s.prep[c] ==> AllFlow(t, s, t.ParentList(s.sel[c := 0], c), false))
  }

  lemma ParentsFlow(t: Tree, a: Scene, b: Scene, c: nat, gates: bool)
    requires Shown(t, a) && c < t.Size() && b == a.(sel := a.sel[c := 0])
    ensures AllFlow(t, a, t.ParentList(b.sel, c), gates) <==> AllFlow(t, b, t.ParentList(b.sel, c), gates)
  {
    hide Flows;
    ParentExists(t, b.sel, c);
    NeedsBelow(t, b.sel, Prepare, c);
    var ps := t.ParentList(b.sel, c);
    if |ps| > 0 {
      assert t.Needs(b.sel, Prepare, c)[0] == ps[0];
      FlowsBelow(t, a, b, c, ps[0], gates);
    }
  }

  /** What c needs after the clearing: the first candidate, and what it needed besides. */
  lemma ClearedNeeds(t: Tree, a: Scene, b: Scene, c: nat, i: nat, gates: bool)
    requires Shown(t, a) && BothOrdered(t, a) && c < t.Size() && b == a.(sel := a.sel[c := 0])
    requires OnOf(a, gates)[c] && i < |t.Needs(b.sel, Prepare, c)|
    ensures i < |t.ParentList(b.sel, c)| ==> t.Needs(b.sel, Prepare, c)[i] == t.ParentList(b.sel, c)[i]
    ensures i >= |t.ParentList(b.sel, c)| ==> Live(t, OnOf(a, gates), t.Needs(b.sel, Prepare, c)[i])
  {
    if i >= |t.ParentList(b.sel, c)| {
      var k := i - |t.ParentList(b.sel, c)|;
      assert t.Needs(b.sel, Prepare, c)[i] == t.Others(Prepare, c)[k];
      assert t.Needs(a.sel, Prepare, c)[k + |t.ParentList(a.sel, c)|] == t.Others(Prepare, c)[k];
      NeedLive(t, a, c, k + |t.ParentList(a.sel, c)|, gates);
    }
  }

  lemma {:induction false} LiveFlowsCleared(t: Tree, a: Scene, b: Scene, c: nat, y: nat, gates: bool)
    requires Shown(t, a) && BothOrdered(t, a) && Fed(t, a.prep, a.en) && c < t.Size()
    requires b == a.(sel := a.sel[c := 0]) && Live(t, OnOf(a, gates), y)
    requires OnOf(a, gates)[c] && !t.clocks[c].alwaysOn ==> AllFlow(t, b, t.ParentList(b.sel, c), gates)
    ensures Flows(t, b, y, gates)
    decreases t.rank[y]
  {
    if !t.clocks[y].alwaysOn {
      NeedsBelow(t, b.sel, Prepare, y);
      forall i | 0 <= i < |t.Needs(b.sel, Prepare, y)|
        ensures Flows(t, b, t.Needs(b.sel, Prepare, y)[i], gates)
      {
        if y != c {
          assert t.Needs(b.sel, Prepare, y) == t.Needs(a.sel, Prepare, y);
          NeedLive(t, a, y, i, gates);
          LiveFlowsCleared(t, a, b, c, t.Needs(b.sel, Prepare, y)[i], gates);
        } else {
          ClearedNeeds(t, a, b, c, i, gates);
          if i >= |t.ParentList(b.sel, c)| {
            LiveFlowsCleared(t, a, b, c, t.Needs(b.sel, Prepare, y)[i], gates);
          }
        }
      }
    }
  }

  /** A clock that runs has a signal at the parent it selects. */
  lemma FlowsNeeds(t: Tree, s: Scene, c: nat, gates: bool)
    requires Shown(t, s) && c < t.Size() && Flows(t, s, c, gates) && !t.clocks[c].alwaysOn
    ensures AllFlow(t, s, t.ParentList(s.sel, c), gates)
  {
    NeedsBelow(t, s.sel, Prepare, c);
    forall i | 0 <= i < |t.ParentList(s.sel, c)|
      ensures t.ParentList(s.sel, c)[i] < t.Size() && Flows(t, s, t.ParentList(s.sel, c)[i], gates)
    {
      assert t.Needs(s.sel, Prepare, c)[i] == t.ParentList(s.sel, c)[i];
      assert Flows(t, s, t.Needs(s.sel, Prepare, c)[i], gates);
    }
  }

  /** While the field is cleared the first candidate parent is selected, and the hardware is in
      order exactly when that is safe. */
  lemma ClearRunsIff(t: Tree, s: Scene, c: nat)
    requires Shown(t, s) && BothOrdered(t, s) && Fed(t, s.prep, s.en) && c < t.Size() && t.clocks[c].twoStep
    ensures Running(t, s.(sel := s.sel[c := 0])) <==> ClearSafe(t, s, c)
  {
    hide Flows, Ordered, AllFlow;
    var b := s.(sel := s.sel[c := 0]);
    ParentsFlow(t, s, b, c, true);
    ParentsFlow(t, s, b, c, false);
    if ClearSafe(t, s, c) {
      forall y | 0 <= y < t.Size()
        ensures (b.en[y] ==> Flows(t, b, y, true)) && (b.prep[y] ==> Flows(t, b, y, false))
      {
        if s.en[y] { LiveFlowsCleared(t, s, b, c, y, true); }
        if s.prep[y] { LiveFlowsCleared(t, s, b, c, y, false); }
      }
    }
    if Running(t, b) && !t.clocks[c].alwaysOn {
      if s.en[c] { FlowsNeeds(t, b, c, true); }
      if s.prep[c] { FlowsNeeds(t, b, c, false); }
    }
  }

  // ---------------------------------------------------------------- what the votes say of the hardware

  /** Every PLL that some enable vote depends on is one that some prepare vote depends on. */
  ghost predicate VotesFeed(t: Tree, sel: seq<nat>, prep: seq<int>, en: seq<int>, bound: nat)
    requires t.Selects(sel) && |prep| == |en| == t.Size()
  {
    forall x :: 0 <= x < t.Size() && Gating(t, x) == ByPrepare && Wanted(t, sel, Enable, en, x, bound) ==>
      Wanted(t, sel, Prepare, prep, x, bound)
  }

  lemma FedIffVotes(t: Tree, sel: seq<nat>, p: Channel, e: Channel, prep: seq<int>, en: seq<int>, bound: nat)
    requires Good(t, sel, Prepare, p, prep, bound) && Good(t, sel, Enable, e, en, bound) && Top(t, bound)
    requires NonNegative(t, prep) && NonNegative(t, en)
    ensures Fed(t, p.on, e.on) <==> VotesFeed(t, sel, prep, en, bound)
  {
    hide Good, Wanted;
    GoodSized(t, sel, Prepare, p, prep, bound);
    GoodSized(t, sel, Enable, e, en, bound);
    forall x | 0 <= x < t.Size()
      ensures p.on[x] <==> Wanted(t, sel, Prepare, prep, x, bound)
      ensures e.on[x] <==> Wanted(t, sel, Enable, en, x, bound)
      ensures e.on[x] ==> !t.clocks[x].alwaysOn
    {
      OnIffWanted(t, sel, Prepare, p, prep, x, bound, bound);
      OnIffWanted(t, sel, Enable, e, en, x, bound, bound);
      WantedGated(t, sel, Enable, en, x, bound);
    }
  }

  lemma GoodSized(t: Tree, sel: seq<nat>, kind: Kind, ch: Channel, votes: seq<int>, bound: nat)
    requires Good(t, sel, kind, ch, votes, bound)
    ensures Fits(t, sel, ch) && |votes| == t.Size() && Ordered(t, kind, Shot(sel, ch.on))
    ensures AllOrdered(t, kind, ch.log)
  {
  }

  lemma WantedGated(t: Tree, sel: seq<nat>, kind: Kind, votes: seq<int>, x: nat, depth: nat)
    requires t.Selects(sel) && |votes| == t.Size() && x < t.Size()
    ensures Wanted(t, sel, kind, votes, x, depth) ==> !t.clocks[x].alwaysOn
  {
  }

  /** Enabled clocks are prepared ones exactly when those are that somebody enables, and those in
      the groups of enabled clocks, which nothing else prepares. */
  lemma PreparedIff(t: Tree, sel: seq<nat>, p: Channel, e: Channel, prep: seq<int>, en: seq<int>, bound: nat)
    requires Good(t, sel, Prepare, p, prep, bound) && Good(t, sel, Enable, e, en, bound) && Top(t, bound)
    requires NonNegative(t, prep) && NonNegative(t, en)
    ensures Within(e.on, p.on) <==> VotedPrepared(t, p.on, en) && GroupsPrepared(t, p.on, e.on)
  {
    hide Conserved, AllOrdered;
    if Within(e.on, p.on) {
      forall x | 0 <= x < t.Size() && !t.clocks[x].alwaysOn && en[x] > 0
        ensures p.on[x]
      {
        VotedIsOn(t, sel, Enable, e, en, x, bound);
      }
      forall c, i | 0 <= c < t.Size() && e.on[c] && t.clocks[c].hc.None? && 0 <= i < |t.clocks[c].group|
        ensures Live(t, p.on, t.clocks[c].group[i])
      {
        var k := i + |t.ParentList(sel, c)|;
        assert t.Needs(sel, Enable, c)[k] == t.clocks[c].group[i];
        assert Live(t, e.on, t.Needs(sel, Enable, c)[k]);
      }
    } else if VotedPrepared(t, p.on, en) && GroupsPrepared(t, p.on, e.on) {
      forall x | 0 <= x < t.Size() && e.on[x]
        ensures p.on[x]
      {
        EnabledIsPrepared(t, sel, p, e, prep, en, x, bound);
      }
    }
  }

  ghost predicate VotedPrepared(t: Tree, prep: seq<bool>, en: seq<int>) {
    && |prep| == |en| == t.Size()
    && forall x :: 0 <= x < t.Size() && !t.clocks[x].alwaysOn && en[x] > 0 ==> prep[x]
  }

  ghost predicate GroupsPrepared(t: Tree, prep: seq<bool>, on: seq<bool>) {
    && |on| == t.Size()
    && forall c, i :: 0 <= c < t.Size() && on[c] && t.clocks[c].hc.None? && 0 <= i < |t.clocks[c].group| ==>
         Live(t, prep, t.clocks[c].group[i])
  }

  lemma VotedIsOn(t: Tree, sel: seq<nat>, kind: Kind, ch: Channel, votes: seq<int>, x: nat, bound: nat)
    requires x < t.Size() && Good(t, sel, kind, ch, votes, bound) && Top(t, bound)
    requires !t.clocks[x].alwaysOn && votes[x] > 0
    ensures ch.on[x]
  {
  }

  lemma {:induction false} EnabledIsPrepared(t: Tree, sel: seq<nat>, p: Channel, e: Channel, prep: seq<int>, en: seq<int>,
                                    x: nat, bound: nat)
    requires Good(t, sel, Prepare, p, prep, bound) && Good(t, sel, Enable, e, en, bound) && Top(t, bound)
    requires NonNegative(t, en) && VotedPrepared(t, p.on, en) && GroupsPrepared(t, p.on, e.on)
    requires x < t.Size() && e.on[x]
    ensures p.on[x]
    decreases bound - t.rank[x]
  {
    hide AllOrdered, NonNegative;
    if en[x] <= 0 {
      UsersPositive(t, sel, Enable, e.cnt, x, t.Size());
      var c :| 0 <= c < t.Size() && e.cnt[c] != 0 && x in t.Needs(sel, Enable, c);
      NeedsBelow(t, sel, Enable, c);
      EnabledIsPrepared(t, sel, p, e, prep, en, c, bound);
      NeededIsPrepared(t, sel, p.on, e.on, c, x);
    }
  }

  lemma NeededIsPrepared(t: Tree, sel: seq<nat>, prep: seq<bool>, on: seq<bool>, c: nat, x: nat)
    requires Ordered(t, Prepare, Shot(sel, prep)) && GroupsPrepared(t, prep, on)
    requires c < t.Size() && on[c] && prep[c] && x in t.Needs(sel, Enable, c)
    ensures Live(t, prep, x)
  {
    var j :| 0 <= j < |t.Needs(sel, Enable, c)| && t.Needs(sel, Enable, c)[j] == x;
    if j < |t.Needs(sel, Prepare, c)| {
      NeededByBoth(t, sel, Enable, c, j);
      assert Live(t, prep, t.Needs(sel, Prepare, c)[j]);
    } else {
      var i := j - |t.ParentList(sel, c)|;
      assert t.clocks[c].group[i] == x;
    }
  }

  // ---------------------------------------------------------------- both channels, one past

  /** What a call on one channel shows of the whole. */
  function Seen(kind: Kind, s: Shot, other: seq<bool>): Scene {
    if kind.Prepare? then Scene(s.sel, s.on, other) else Scene(s.sel, other, s.on)
  }

  function AllSeen(kind: Kind, log: seq<Shot>, other: seq<bool>): (r: seq<Scene>)
    ensures |r| == |log|
  {
    seq(|log|, i requires 0 <= i < |log| => Seen(kind, log[i], other))
  }

  /** Both channels, what every multiplexer selects, and every hardware state gone through.  The
      channels keep no past of their own between calls. */
  datatype World = World(sel: seq<nat>, prep: Channel, en: Channel, log: seq<Scene>) {

    function Of(kind: Kind): Channel { if kind.Prepare? then prep else en }

    function Other(kind: Kind): Channel { if kind.Prepare? then en else prep }

    /** After one channel has gone on to r, by itself. */
    ghost function With(kind: Kind, r: Channel): World {
      var seen := log + AllSeen(kind, r.log, Other(kind).on);
      if kind.Prepare? then World(sel, r.Forget(), en, seen) else World(sel, prep, r.Forget(), seen)
    }

    /** After one write to a multiplexer. */
    function Select(s: seq<nat>): World {
      World(s, prep, en, log + [Scene(s, prep.on, en.on)])
    }
  }

  ghost predicate Whole(t: Tree, w: World) {
    Fits(t, w.sel, w.prep) && Fits(t, w.sel, w.en) && w.prep.log == [] && w.en.log == []
  }

  /** The invariant of both channels. */
  ghost predicate Sound(t: Tree, w: World, prep: seq<int>, en: seq<int>, bound: nat) {
    && Good(t, w.sel, Prepare, w.prep, prep, bound) && Good(t, w.sel, Enable, w.en, en, bound)
    && w.prep.log == [] && w.en.log == [] && Top(t, bound) && NonNegative(t, prep) && NonNegative(t, en)
  }

  ghost predicate InOrder(t: Tree, w: World) { AllRunning(t, w.log) }

  lemma SoundIsWhole(t: Tree, w: World, prep: seq<int>, en: seq<int>, bound: nat)
    requires Sound(t, w, prep, en, bound)
    ensures Whole(t, w) && |prep| == |en| == t.Size()
    ensures BothOrdered(t, Scene(w.sel, w.prep.on, w.en.on)) && Shown(t, Scene(w.sel, w.prep.on, w.en.on))
  {
  }

  lemma AllRunningAppend(t: Tree, a: seq<Scene>, b: seq<Scene>)
    ensures AllRunning(t, a + b) <==> AllRunning(t, a) && AllRunning(t, b)
  {
    hide Running;
    if AllRunning(t, a + b) {
      forall i | 0 <= i < |a| ensures Running(t, a[i]) {
        assert (a + b)[i] == a[i];
      }
      forall i | 0 <= i < |b| ensures Running(t, b[i]) {
        assert (a + b)[|a| + i] == b[i];
      }
    }
  }

  /** Whether the PLLs of what is enabled are prepared, with the channels given in either order. */
  ghost predicate FedBy(t: Tree, kind: Kind, on: seq<bool>, other: seq<bool>) {
    if kind.Prepare? then Fed(t, on, other) else Fed(t, other, on)
  }

  lemma FedBetween(t: Tree, kind: Kind, a: seq<bool>, m: seq<bool>, b: seq<bool>, up: bool, other: seq<bool>)
    requires Between(a, m, b, up) && FedBy(t, kind, a, other) && FedBy(t, kind, b, other)
    ensures FedBy(t, kind, m, other)
  {
  }

  /** Every state that a call on one channel goes through is in order exactly when its last one
      is. */
  lemma CallRunning(t: Tree, sel: seq<nat>, kind: Kind, a: Channel, b: Channel, up: bool, other: seq<bool>)
    requires a.log == [] && Passes(sel, a, b, up) && FedBy(t, kind, a.on, other)
    requires t.Selects(sel) && |a.on| == |other| == t.Size() && AllOrdered(t, kind, b.log)
    requires Ordered(t, if kind.Prepare? then Enable else Prepare, Shot(sel, other))
    ensures AllRunning(t, AllSeen(kind, b.log, other)) <==> FedBy(t, kind, b.on, other)
  {
    hide Running, Fed, Ordered;
    var seen := AllSeen(kind, b.log, other);
    forall i | 0 <= i < |b.log|
      ensures Running(t, seen[i]) <==> FedBy(t, kind, b.log[i].on, other)
      ensures FedBy(t, kind, b.on, other) ==> Running(t, seen[i])
    {
      SeenRunning(t, sel, kind, b.log[i], other);
      if FedBy(t, kind, b.on, other) {
        FedBetween(t, kind, a.on, b.log[i].on, b.on, up, other);
      }
    }
    if AllRunning(t, seen) && b.on != a.on {
      assert Running(t, seen[|b.log| - 1]);
    }
  }

  lemma SeenRunning(t: Tree, sel: seq<nat>, kind: Kind, s: Shot, other: seq<bool>)
    requires t.Selects(sel) && s.sel == sel && |s.on| == |other| == t.Size() && Ordered(t, kind, s)
    requires Ordered(t, if kind.Prepare? then Enable else Prepare, Shot(sel, other))
    ensures Running(t, Seen(kind, s, other)) <==> FedBy(t, kind, s.on, other)
  {
    hide Running, Fed, Ordered;
    RunningIffFed(t, Seen(kind, s, other));
  }

  ghost predicate FedNow(t: Tree, w: World) { Fed(t, w.prep.on, w.en.on) }

  /** A call on one channel keeps the hardware in order exactly if it leaves it so. */
  lemma WithInOrder(t: Tree, w: World, kind: Kind, r: Channel, up: bool)
    requires Whole(t, w) && FedNow(t, w) && Passes(w.sel, w.Of(kind), r, up) && AllOrdered(t, kind, r.log)
    requires Ordered(t, if kind.Prepare? then Enable else Prepare, Shot(w.sel, w.Other(kind).on))
    ensures InOrder(t, w.With(kind, r)) <==> InOrder(t, w) && FedNow(t, w.With(kind, r))
  {
    hide Running, Fed, Ordered, AllOrdered, Passes;
    CallRunning(t, w.sel, kind, w.Of(kind), r, up, w.Other(kind).on);
    AllRunningAppend(t, w.log, AllSeen(kind, r.log, w.Other(kind).on));
  }

  // ---------------------------------------------------------------- set_parent

  const EINVAL: int := 22

  /** The first position of p among the candidate parents, or their number. */
  function FirstIndex(ps: seq<Option<nat>>, p: nat): (i: nat)
    ensures i <= |ps|
    ensures i < |ps| ==> ps[i] == Some(p)
    ensures forall j :: 0 <= j < i ==> ps[j] != Some(p)
  {
    if ps == [] then 0
    else if ps[0] == Some(p) then 0
    else 1 + FirstIndex(ps[1..], p)
  }

  datatype Reply = Reply(w: World, ret: int)

  /** Whether a call of set_parent gets as far as turning the multiplexer. */
  predicate Turns(t: Tree, sel: seq<nat>, c: nat, p: nat)
    requires |sel| == t.Size() && c < t.Size()
  {
    && t.clocks[c].muxed && |t.clocks[c].parents| != 1 && t.Parent(sel, c) != Some(p)
    && FirstIndex(t.clocks[c].parents, p) < |t.clocks[c].parents|
  }

  /** The new parent is voted for: prepared first, then enabled. */
  ghost function Borrow(t: Tree, w: World, c: nat, p: nat): (r: World)
    requires Whole(t, w) && c < t.Size() && p < t.Size()
    ensures Whole(t, r) && r.sel == w.sel
  {
    w.With(Prepare, Vote(t, w.sel, Prepare, w.prep, c, p)).With(Enable, Vote(t, w.sel, Enable, w.en, c, p))
  }

  /** The multiplexer turns; some clear the field first. */
  ghost function Turn(t: Tree, w: World, c: nat, i: nat): (r: World)
    requires Whole(t, w) && c < t.Size()
    ensures Whole(t, r) && r.sel == w.sel[c := i]
  {
    (if t.clocks[c].twoStep then w.Select(w.sel[c := 0]) else w).Select(w.sel[c := i])
  }

  /** The votes on the former parent go back: enabling first, then preparing. */
  ghost function Restore(t: Tree, w: World, c: nat, former: Option<nat>): (r: World)
    requires Whole(t, w) && c < t.Size()
    ensures Whole(t, r) && r.sel == w.sel
  {
    w.With(Enable, Finish(t, w.sel, Enable, w.en, c, former)).With(Prepare, Finish(t, w.sel, Prepare, w.prep, c, former))
  }

  /** mtk_clk_set_parent_nolock. */
  ghost function SetParent(t: Tree, w: World, c: nat, p: nat): (r: Reply)
    requires Whole(t, w) && c < t.Size() && p < t.Size()
    ensures Whole(t, r.w)
  {
    var ps := t.clocks[c].parents;
    var i := FirstIndex(ps, p);
    if !t.clocks[c].muxed then Reply(w, -EINVAL)
    else if |ps| == 1 then Reply(w, if ps[0] == Some(p) then 0 else -EINVAL)
    else if t.Parent(w.sel, c) == Some(p) then Reply(w, 0)
    else if i == |ps| then Reply(w, -EINVAL)
    else Reply(Restore(t, Turn(t, Borrow(t, w, c, p), c, i), c, t.Parent(w.sel, c)), 0)
  }

  lemma ParentBelow(t: Tree, sel: seq<nat>, c: nat, i: nat, p: nat)
    requires t.Selects(sel) && c < t.Size() && t.clocks[c].muxed && |t.clocks[c].parents| != 1
    requires i < |t.clocks[c].parents| && t.clocks[c].parents[i] == Some(p)
    ensures p < t.Size() && t.rank[p] < t.rank[c] && t.Parent(sel[c := i], c) == Some(p)
  {
    assert t.clocks[c].parents[i].Some?;
  }

  lemma FedMore(t: Tree, prep: seq<bool>, more: seq<bool>, en: seq<bool>, fewer: seq<bool>)
    requires Fed(t, prep, en) && Within(prep, more) && Within(fewer, en)
    ensures Fed(t, more, fewer)
  {
  }

  lemma VotePasses(t: Tree, sel: seq<nat>, kind: Kind, ch: Channel, c: nat, p: nat)
    requires Fits(t, sel, ch) && c < t.Size() && p < t.Size()
    ensures Passes(sel, ch, Vote(t, sel, kind, ch, c, p), true)
    ensures Within(ch.on, Vote(t, sel, kind, ch, c, p).on)
  {
    hide Acquire;
    AcquirePasses(t, sel, kind, ch, p);
    PassesNothing(sel, ch, ch, true);
  }

  lemma FinishPasses(t: Tree, sel: seq<nat>, kind: Kind, ch: Channel, c: nat, former: Option<nat>)
    requires Fits(t, sel, ch) && c < t.Size()
    ensures Passes(sel, ch, Finish(t, sel, kind, ch, c, former), false)
    ensures Within(Finish(t, sel, kind, ch, c, former).on, ch.on)
  {
    hide Release;
    PassesNothing(sel, ch, ch, false);
    if former.Some? && former.value < t.Size() {
      ReleasePasses(t, sel, kind, ch, former.value);
    }
  }

  /** While both parents are voted for: the PLLs of what is enabled are prepared exactly if the
      votes say so, and that is all that matters so far. */
  lemma BorrowKeeps(t: Tree, w: World, prep: seq<int>, en: seq<int>, c: nat, i: nat, p: nat, bound: nat)
    requires Sound(t, w, prep, en, bound) && FedNow(t, w) && c < t.Size() && p < t.Size()
    requires t.Parent(w.sel[c := i], c) == Some(p) && t.rank[p] < t.rank[c]
    ensures Whole(t, w) && |prep| == |en| == t.Size()
    ensures var lent := Borrow(t, w, c, p);
      && (InOrder(t, lent) <==> InOrder(t, w) && FedNow(t, lent))
      && Sound(t, lent, Lent(prep, w.prep.cnt[c] > 0, p), Lent(en, w.en.cnt[c] > 0, p), bound)
  {
    hide Good, Running, AllRunning, Fed, Passes, Vote, Ordered;
    SoundIsWhole(t, w, prep, en, bound);
    VoteKeeps(t, w.sel, Prepare, w.prep, prep, c, i, p, bound);
    VoteKeeps(t, w.sel, Enable, w.en, en, c, i, p, bound);
    VotePasses(t, w.sel, Prepare, w.prep, c, p);
    VotePasses(t, w.sel, Enable, w.en, c, p);
    var r, q := Vote(t, w.sel, Prepare, w.prep, c, p), Vote(t, w.sel, Enable, w.en, c, p);
    var w1 := w.With(Prepare, r);
    GoodForgets(t, w.sel, Prepare, r, r, Lent(prep, w.prep.cnt[c] > 0, p), bound);
    GoodForgets(t, w.sel, Enable, q, q, Lent(en, w.en.cnt[c] > 0, p), bound);
    GoodSized(t, w.sel, Prepare, r.Forget(), Lent(prep, w.prep.cnt[c] > 0, p), bound);
    WithInOrder(t, w, Prepare, r, true);
    FedMore(t, w.prep.on, r.on, w.en.on, w.en.on);
    WithInOrder(t, w1, Enable, q, true);
    LentNonNegative(t, prep, w.prep.cnt[c] > 0, p);
    LentNonNegative(t, en, w.en.cnt[c] > 0, p);
  }

  lemma LentNonNegative(t: Tree, votes: seq<int>, counted: bool, p: nat)
    requires NonNegative(t, votes) && p < |votes|
    ensures NonNegative(t, Lent(votes, counted, p))
  {
  }

  /** The turn itself: only the clearing of the field can take a signal away. */
  lemma TurnInOrder(t: Tree, w: World, c: nat, i: nat)
    requires Whole(t, w) && FedNow(t, w) && c < t.Size()
    requires BothOrdered(t, Scene(w.sel, w.prep.on, w.en.on)) && BothOrdered(t, Scene(w.sel[c := i], w.prep.on, w.en.on))
    ensures InOrder(t, Turn(t, w, c, i)) <==> InOrder(t, w) && ClearSafe(t, Scene(w.sel, w.prep.on, w.en.on), c)
    ensures FedNow(t, Turn(t, w, c, i))
  {
    hide Running, Fed, Ordered, AllFlow;
    var s := Scene(w.sel, w.prep.on, w.en.on);
    var last := Scene(w.sel[c := i], w.prep.on, w.en.on);
    RunningIffFed(t, last);
    if t.clocks[c].twoStep {
      ClearRunsIff(t, s, c);
      OneMore(t, w.log, s.(sel := w.sel[c := 0]));
      OneMore(t, w.log + [s.(sel := w.sel[c := 0])], last);
      assert w.sel[c := 0][c := i] == w.sel[c := i];
    } else {
      OneMore(t, w.log, last);
    }
  }

  lemma OneMore(t: Tree, log: seq<Scene>, s: Scene)
    ensures AllRunning(t, log + [s]) <==> AllRunning(t, log) && Running(t, s)
  {
    hide Running;
    AllRunningAppend(t, log, [s]);
    assert [s][0] == s;
  }

  /** The way back: enabled clocks go first, so only what is left in the end matters. */
  lemma RestoreInOrder(t: Tree, w: World, c: nat, former: Option<nat>)
    requires Whole(t, w) && FedNow(t, w) && c < t.Size() && BothOrdered(t, Scene(w.sel, w.prep.on, w.en.on))
    requires AllOrdered(t, Enable, Finish(t, w.sel, Enable, w.en, c, former).log)
    requires AllOrdered(t, Prepare, Finish(t, w.sel, Prepare, w.prep, c, former).log)
    requires Ordered(t, Enable, Shot(w.sel, Finish(t, w.sel, Enable, w.en, c, former).on))
    ensures InOrder(t, Restore(t, w, c, former)) <==> InOrder(t, w) && FedNow(t, Restore(t, w, c, former))
  {
    hide Running, AllRunning, Fed, Passes, Finish, Ordered, AllOrdered;
    var e, r := Finish(t, w.sel, Enable, w.en, c, former), Finish(t, w.sel, Prepare, w.prep, c, former);
    FinishPasses(t, w.sel, Enable, w.en, c, former);
    FinishPasses(t, w.sel, Prepare, w.prep, c, former);
    WithInOrder(t, w, Enable, e, false);
    FedMore(t, w.prep.on, w.prep.on, w.en.on, e.on);
    WithInOrder(t, w.With(Enable, e), Prepare, r, false);
  }

  /** What a change of parent needs, said of the state before: while both parents are voted for,
      and afterwards, the votes must feed every PLL in use, and clearing the field must be safe. */
  ghost predicate TurnSafe(t: Tree, w: World, prep: seq<int>, en: seq<int>, c: nat, i: nat, p: nat, bound: nat)
    requires Whole(t, w) && |prep| == |en| == t.Size() && c < t.Size() && p < t.Size()
  {
    && VotesFeed(t, w.sel, Lent(prep, w.prep.cnt[c] > 0, p), Lent(en, w.en.cnt[c] > 0, p), bound)
    && VotesFeed(t, w.sel[c := i], prep, en, bound)
    && ClearSafe(t, AsVoted(t, w, c, p, bound), c)
  }

  /** What is prepared and enabled once the new parent is voted for. */
  ghost function AsVoted(t: Tree, w: World, c: nat, p: nat, bound: nat): (s: Scene)
    requires Whole(t, w) && c < t.Size()
    ensures Shown(t, s) && s.sel == w.sel
  {
    Scene(w.sel,
          if w.prep.cnt[c] > 0 then Woken(t, w.sel, Prepare, w.prep.on, p, bound) else w.prep.on,
          if w.en.cnt[c] > 0 then Woken(t, w.sel, Enable, w.en.on, p, bound) else w.en.on)
  }

  /** A change of parent keeps every vote, and the hardware in order exactly when it is safe. */
  lemma TurnKeepsAll(t: Tree, w: World, prep: seq<int>, en: seq<int>, c: nat, i: nat, p: nat, bound: nat)
    requires Sound(t, w, prep, en, bound) && c < t.Size() && p < t.Size()
    requires t.Parent(w.sel[c := i], c) == Some(p) && t.rank[p] < t.rank[c]
    ensures Whole(t, w) && |prep| == |en| == t.Size()
    ensures var done := Restore(t, Turn(t, Borrow(t, w, c, p), c, i), c, t.Parent(w.sel, c));
      && Sound(t, done, prep, en, bound)
      && (FedNow(t, done) <==> VotesFeed(t, w.sel[c := i], prep, en, bound))
      && (FedNow(t, w) ==> (InOrder(t, done) <==> InOrder(t, w) && TurnSafe(t, w, prep, en, c, i, p, bound)))
      && (InOrder(t, done) ==> InOrder(t, w))
  {
    hide Good, Running, Fed, Vote, Finish, Ordered, ClearSafe, VotesFeed;
    SoundIsWhole(t, w, prep, en, bound);
    var former, turned := t.Parent(w.sel, c), w.sel[c := i];
    var lent := Borrow(t, w, c, p);
    var mid := Turn(t, lent, c, i);
    var done := Restore(t, mid, c, former);
    OneSide(t, w.sel, Prepare, w.prep, prep, c, i, p, bound);
    OneSide(t, w.sel, Enable, w.en, en, c, i, p, bound);
    FedIffVotes(t, turned, done.prep, done.en, prep, en, bound);
    assert w.log <= lent.log <= mid.log <= done.log;
    if FedNow(t, w) {
      BorrowKeeps(t, w, prep, en, c, i, p, bound);
      FedIffVotes(t, w.sel, lent.prep, lent.en, Lent(prep, w.prep.cnt[c] > 0, p), Lent(en, w.en.cnt[c] > 0, p), bound);
      VoteWakes(t, w.sel, Prepare, w.prep, prep, c, p, bound);
      VoteWakes(t, w.sel, Enable, w.en, en, c, p, bound);
      if FedNow(t, lent) {
        TurnInOrder(t, lent, c, i);
        RestoreInOrder(t, mid, c, former);
      }
    }
  }

  /** Each channel by itself. */
  lemma OneSide(t: Tree, sel: seq<nat>, kind: Kind, ch: Channel, votes: seq<int>, c: nat, i: nat, p: nat, bound: nat)
    requires c < t.Size() && Good(t, sel, kind, ch, votes, bound) && Top(t, bound) && NonNegative(t, votes)
    requires t.Parent(sel[c := i], c) == Some(p) && p < t.Size() && t.rank[p] < t.rank[c]
    ensures Fits(t, sel, ch)
    ensures var voted := Vote(t, sel, kind, ch, c, p);
      && Fits(t, sel[c := i], voted.Forget())
      && Ordered(t, kind, Shot(sel, voted.on)) && Ordered(t, kind, Shot(sel[c := i], voted.on))
      && var r := Finish(t, sel[c := i], kind, voted.Forget(), c, t.Parent(sel, c));
         Good(t, sel[c := i], kind, r.Forget(), votes, bound) && AllOrdered(t, kind, r.log)
         && Ordered(t, kind, Shot(sel[c := i], r.on))
  {
    hide Good, Vote, Finish, Ordered, AllOrdered;
    VoteKeeps(t, sel, kind, ch, votes, c, i, p, bound);
    SwitchoverKeeps(t, sel, kind, ch, votes, c, i, p, bound);
    var voted := Vote(t, sel, kind, ch, c, p);
    GoodSized(t, sel, kind, voted, Lent(votes, ch.cnt[c] > 0, p), bound);
    GoodSized(t, sel[c := i], kind, voted.Forget(),
              if ch.cnt[c] > 0 then Plus(votes, t.ParentList(sel, c)) else votes, bound);
    var r := Switchover(t, sel, kind, ch, c, i, p);
    GoodSized(t, sel[c := i], kind, r, votes, bound);
    GoodForgets(t, sel[c := i], kind, r, r, votes, bound);
  }

  // ---------------------------------------------------------------- whole runs

  datatype Op = Take(kind: Kind, c: nat) | Give(kind: Kind, c: nat) | Reparent(c: nat, p: nat)

  ghost predicate InRange(t: Tree, ops: seq<Op>) {
    forall i :: 0 <= i < |ops| ==> ops[i].c < t.Size() && (ops[i].Reparent? ==> ops[i].p < t.Size())
  }

  ghost function Idle(sel: seq<nat>, n: nat): World {
    var none := Channel(seq(n, _ => 0), seq(n, _ => false), []);
    World(sel, none, none, [])
  }

  ghost function Moves(t: Tree, w: World, op: Op): (r: Channel)
    requires Whole(t, w) && op.c < t.Size() && !op.Reparent?
    ensures r.Sized(t.Size())
  {
    if op.Take? then Acquire(t, w.sel, op.kind, w.Of(op.kind), op.c) else Release(t, w.sel, op.kind, w.Of(op.kind), op.c)
  }

  ghost function Step(t: Tree, w: World, op: Op): (r: World)
    requires Whole(t, w) && op.c < t.Size() && (op.Reparent? ==> op.p < t.Size())
    ensures Whole(t, r)
  {
    if op.Reparent? then SetParent(t, w, op.c, op.p).w else w.With(op.kind, Moves(t, w, op))
  }

  /** Everything is off at first; the multiplexers select what they were left at. */
  ghost function Run(t: Tree, sel: seq<nat>, ops: seq<Op>): (w: World)
    requires t.Selects(sel) && InRange(t, ops)
    ensures Whole(t, w)
  {
    if ops == [] then Idle(sel, t.Size())
    else Step(t, Run(t, sel, ops[..|ops| - 1]), ops[|ops| - 1])
  }

  ghost function Moved(votes: seq<int>, kind: Kind, op: Op): (v: seq<int>)
    requires op.c < |votes|
    ensures |v| == |votes|
  {
    if op.Reparent? || op.kind != kind then votes
    else votes[op.c := votes[op.c] + (if op.Take? then 1 else -1)]
  }

  /** The votes of one kind outstanding after a run. */
  ghost function Ledger(n: nat, kind: Kind, ops: seq<Op>): (v: seq<int>)
    requires forall i :: 0 <= i < |ops| ==> ops[i].c < n
    ensures |v| == n
  {
    if ops == [] then seq(n, _ => 0)
    else
      Moved(Ledger(n, kind, ops[..|ops| - 1]), kind, ops[|ops| - 1])
  }

  /** Every vote given back is held at that time. */
  ghost predicate OnlyHeld(n: nat, ops: seq<Op>)
    requires forall i :: 0 <= i < |ops| ==> ops[i].c < n
  {
    ops == [] ||
    var init, op := ops[..|ops| - 1], ops[|ops| - 1];
    OnlyHeld(n, init) && (op.Give? ==> Ledger(n, op.kind, init)[op.c] >= 1)
  }

  /** What a call needs of the votes then outstanding, so that the hardware stays in order: that
      they feed every PLL in use afterwards.  Preparing and disabling always leave that so. */
  ghost predicate Safe(t: Tree, w: World, prep: seq<int>, en: seq<int>, op: Op, bound: nat)
    requires Whole(t, w) && |prep| == |en| == t.Size() && op.c < t.Size() && (op.Reparent? ==> op.p < t.Size())
  {
    if op.Reparent? then
      Turns(t, w.sel, op.c, op.p) ==>
        TurnSafe(t, w, prep, en, op.c, FirstIndex(t.clocks[op.c].parents, op.p), op.p, bound)
    else VotesFeed(t, w.sel, Moved(prep, Prepare, op), Moved(en, Enable, op), bound)
  }

  /** Which calls succeed, and what they leave selected: any candidate parent is accepted, also the
      one selected already, and anything else is refused without a change. */
  lemma SetParentAnswers(t: Tree, w: World, c: nat, p: nat)
    requires Whole(t, w) && c < t.Size() && p < t.Size()
    ensures var r := SetParent(t, w, c, p); var ps := t.clocks[c].parents;
      && (r.ret == 0 <==> t.clocks[c].muxed && Some(p) in ps)
      && (r.ret != 0 ==> r.ret == -22 && r.w == w)
      && (r.ret == 0 && (|ps| == 1 || t.Parent(w.sel, c) == Some(p)) ==> r.w == w)
      && (r.ret == 0 && |ps| != 1 && t.Parent(w.sel, c) != Some(p) ==>
            exists i :: 0 <= i < |ps| && ps[i] == Some(p) && Some(p) !in ps[..i] && r.w.sel == w.sel[c := i])
  {
    hide Borrow, Turn, Restore;
    var ps, i := t.clocks[c].parents, FirstIndex(t.clocks[c].parents, p);
    assert i < |ps| <==> Some(p) in ps;
    assert |ps| == 1 ==> (ps[0] == Some(p) <==> Some(p) in ps);
    assert Some(p) !in ps[..i];
  }

  /** A change of parent, whether it succeeds or is refused, keeps every vote in both channels,
      and the hardware in order exactly when it is safe. */
  lemma SetParentKeeps(t: Tree, w: World, prep: seq<int>, en: seq<int>, c: nat, p: nat, bound: nat)
    requires c < t.Size() && p < t.Size() && Sound(t, w, prep, en, bound)
    ensures Whole(t, w) && |prep| == |en| == t.Size() && Sound(t, SetParent(t, w, c, p).w, prep, en, bound)
    ensures SetParent(t, w, c, p).ret == 0 ==> t.Parent(SetParent(t, w, c, p).w.sel, c) == Some(p)
    ensures SetParent(t, w, c, p).ret == (if t.clocks[c].muxed && Some(p) in t.clocks[c].parents then 0 else -22)
    ensures SetParent(t, w, c, p).ret != 0 ==> SetParent(t, w, c, p).w == w
    ensures InOrder(t, SetParent(t, w, c, p).w) ==> InOrder(t, w)
    ensures FedNow(t, w) ==>
              (InOrder(t, SetParent(t, w, c, p).w) <==> InOrder(t, w) && Safe(t, w, prep, en, Reparent(c, p), bound))
              && (Safe(t, w, prep, en, Reparent(c, p), bound) ==> FedNow(t, SetParent(t, w, c, p).w))
  {
    hide Good, Running, AllRunning, Fed, Borrow, Turn, Restore, ClearSafe, VotesFeed;
    SoundIsWhole(t, w, prep, en, bound);
    SetParentAnswers(t, w, c, p);
    if Turns(t, w.sel, c, p) {
      var i := FirstIndex(t.clocks[c].parents, p);
      ParentBelow(t, w.sel, c, i, p);
      TurnKeepsAll(t, w, prep, en, c, i, p, bound);
    }
  }

  /** Every other call moves one channel alone. */
  lemma CallKeeps(t: Tree, w: World, prep: seq<int>, en: seq<int>, op: Op, bound: nat)
    requires Sound(t, w, prep, en, bound) && op.c < t.Size() && !op.Reparent?
    requires op.Give? ==> (if op.kind.Prepare? then prep else en)[op.c] >= 1
    ensures Whole(t, w) && |prep| == |en| == t.Size()
    ensures Sound(t, Step(t, w, op), Moved(prep, Prepare, op), Moved(en, Enable, op), bound)
    ensures InOrder(t, Step(t, w, op)) ==> InOrder(t, w)
    ensures FedNow(t, w) ==>
              (InOrder(t, Step(t, w, op)) <==> InOrder(t, w) && Safe(t, w, prep, en, op, bound))
              && (Safe(t, w, prep, en, op, bound) ==> FedNow(t, Step(t, w, op)))
  {
    hide Good, Running, Fed, Passes, Ordered, Acquire, Release, VotesFeed;
    SoundIsWhole(t, w, prep, en, bound);
    var votes, r := if op.kind.Prepare? then prep else en, Moves(t, w, op);
    ChannelKeeps(t, w.sel, op.kind, w.Of(op.kind), votes, op, bound);
    GoodForgets(t, w.sel, op.kind, r, r, Moved(votes, op.kind, op), bound);
    var next := Step(t, w, op);
    assert w.log <= next.log;
    FedIffVotes(t, w.sel, next.prep, next.en, Moved(prep, Prepare, op), Moved(en, Enable, op), bound);
    if FedNow(t, w) {
      WithInOrder(t, w, op.kind, r, op.Take?);
    }
  }

  lemma ChannelKeeps(t: Tree, sel: seq<nat>, kind: Kind, ch: Channel, votes: seq<int>, op: Op, bound: nat)
    requires op.c < t.Size() && !op.Reparent? && op.kind == kind
    requires Good(t, sel, kind, ch, votes, bound) && Top(t, bound) && NonNegative(t, votes)
    requires op.Give? ==> votes[op.c] >= 1
    ensures Fits(t, sel, ch)
    ensures var next := if op.Take? then Acquire(t, sel, kind, ch, op.c) else Release(t, sel, kind, ch, op.c);
            && Good(t, sel, kind, next, Moved(votes, kind, op), bound) && NonNegative(t, Moved(votes, kind, op))
            && Passes(sel, ch, next, op.Take?)
  {
    hide Good, Acquire, Release, Passes;
    GoodFits(t, sel, kind, ch, votes, op.c, bound);
    if op.Take? {
      AcquireKeeps(t, sel, kind, ch, votes, op.c, bound);
      AcquirePasses(t, sel, kind, ch, op.c);
    } else {
      ReleaseKeeps(t, sel, kind, ch, votes, op.c, bound);
      ReleasePasses(t, sel, kind, ch, op.c);
    }
  }

  lemma StepKeeps(t: Tree, w: World, prep: seq<int>, en: seq<int>, op: Op, bound: nat)
    requires Sound(t, w, prep, en, bound)
    requires op.c < t.Size() && (op.Reparent? ==> op.p < t.Size())
    requires op.Give? ==> (if op.kind.Prepare? then prep else en)[op.c] >= 1
    ensures Whole(t, w) && |prep| == |en| == t.Size()
    ensures Sound(t, Step(t, w, op), Moved(prep, Prepare, op), Moved(en, Enable, op), bound)
    ensures InOrder(t, Step(t, w, op)) ==> InOrder(t, w)
    ensures FedNow(t, w) ==>
              (InOrder(t, Step(t, w, op)) <==> InOrder(t, w) && Safe(t, w, prep, en, op, bound))
              && (Safe(t, w, prep, en, op, bound) ==> FedNow(t, Step(t, w, op)))
  {
    hide Sound, Running, AllRunning, Fed, SetParent, Moves, VotesFeed, ClearSafe;
    SoundIsWhole(t, w, prep, en, bound);
    if op.Reparent? {
      SetParentKeeps(t, w, prep, en, op.c, op.p, bound);
    } else {
      CallKeeps(t, w, prep, en, op, bound);
    }
  }

  lemma {:induction false} IdleUsers(t: Tree, sel: seq<nat>, kind: Kind, cnt: seq<int>, x: nat, k: nat)
    requires t.Selects(sel) && |cnt| == t.Size() && k <= t.Size()
    requires forall c :: 0 <= c < k ==> cnt[c] == 0
    ensures Users(t, sel, kind, cnt, x, k) == 0
  {
    if k != 0 {
      IdleUsers(t, sel, kind, cnt, x, k - 1);
    }
  }

  lemma IdleIsSound(t: Tree, sel: seq<nat>, bound: nat)
    requires t.Selects(sel) && Top(t, bound)
    ensures Sound(t, Idle(sel, t.Size()), seq(t.Size(), _ => 0), seq(t.Size(), _ => 0), bound)
    ensures InOrder(t, Idle(sel, t.Size())) && FedNow(t, Idle(sel, t.Size()))
  {
    var cnt := Idle(sel, t.Size()).en.cnt;
    forall x, kind | 0 <= x < t.Size() ensures Users(t, sel, kind, cnt, x, t.Size()) == 0 {
      IdleUsers(t, sel, kind, cnt, x, t.Size());
    }
  }

  /** Every call of a run was safe with the votes outstanding at its time. */
  ghost predicate AllSafe(t: Tree, sel: seq<nat>, ops: seq<Op>, bound: nat)
    requires t.Selects(sel) && InRange(t, ops)
  {
    ops == [] ||
    var init, op := ops[..|ops| - 1], ops[|ops| - 1];
    && AllSafe(t, sel, init, bound)
    && Safe(t, Run(t, sel, init), Ledger(t.Size(), Prepare, init), Ledger(t.Size(), Enable, init), op, bound)
  }

  /** In every run that gives back only held votes, with parents changing at any time, votes
      are conserved in both channels; and at every hardware step every clock in use had its
      signal, through running PLLs and open gates, exactly when every call was safe. */
  lemma {:induction false} RunKeeps(t: Tree, sel: seq<nat>, ops: seq<Op>, bound: nat)
    requires t.Selects(sel) && Top(t, bound) && InRange(t, ops) && OnlyHeld(t.Size(), ops)
    ensures Sound(t, Run(t, sel, ops), Ledger(t.Size(), Prepare, ops), Ledger(t.Size(), Enable, ops), bound)
    ensures InOrder(t, Run(t, sel, ops)) <==> AllSafe(t, sel, ops, bound)
    ensures AllSafe(t, sel, ops, bound) ==> FedNow(t, Run(t, sel, ops))
  {
    hide Safe, Step, Sound, InOrder, FedNow;
    if ops == [] {
      IdleIsSound(t, sel, bound);
    } else {
      var init, op := ops[..|ops| - 1], ops[|ops| - 1];
      RunKeeps(t, sel, init, bound);
      HeldNow(t, ops);
      StepKeeps(t, Run(t, sel, init), Ledger(t.Size(), Prepare, init), Ledger(t.Size(), Enable, init), op, bound);
    }
  }

  lemma HeldNow(t: Tree, ops: seq<Op>)
    requires ops != [] && InRange(t, ops) && OnlyHeld(t.Size(), ops)
    ensures var init, op := ops[..|ops| - 1], ops[|ops| - 1];
            && (op.Give? && op.kind == Prepare ==> Ledger(t.Size(), Prepare, init)[op.c] >= 1)
            && (op.Give? && op.kind == Enable ==> Ledger(t.Size(), Enable, init)[op.c] >= 1)
  {
  }

  /** Runs that end with the same votes outstanding and the same parents selected end with
      the same counters and the same clocks on, however they got there. */
  lemma RunsAgree(t: Tree, selA: seq<nat>, selB: seq<nat>, a: seq<Op>, b: seq<Op>, bound: nat)
    requires t.Selects(selA) && t.Selects(selB) && Top(t, bound)
    requires InRange(t, a) && OnlyHeld(t.Size(), a) && InRange(t, b) && OnlyHeld(t.Size(), b)
    requires Run(t, selA, a).sel == Run(t, selB, b).sel
    ensures Ledger(t.Size(), Prepare, a) == Ledger(t.Size(), Prepare, b) ==>
              Run(t, selA, a).prep.cnt == Run(t, selB, b).prep.cnt && Run(t, selA, a).prep.on == Run(t, selB, b).prep.on
    ensures Ledger(t.Size(), Enable, a) == Ledger(t.Size(), Enable, b) ==>
              Run(t, selA, a).en.cnt == Run(t, selB, b).en.cnt && Run(t, selA, a).en.on == Run(t, selB, b).en.on
  {
    hide Run, Ledger, Good, AllSafe, InOrder;
    RunKeeps(t, selA, a, bound);
    RunKeeps(t, selB, b, bound);
    var u, v := Run(t, selA, a), Run(t, selB, b);
    if Ledger(t.Size(), Prepare, a) == Ledger(t.Size(), Prepare, b) {
      VotesDetermine(t, u.sel, Prepare, u.prep, v.prep, Ledger(t.Size(), Prepare, a), bound);
    }
    if Ledger(t.Size(), Enable, a) == Ledger(t.Size(), Enable, b) {
      VotesDetermine(t, u.sel, Enable, u.en, v.en, Ledger(t.Size(), Enable, a), bound);
    }
  }

  // ---------------------------------------------------------------- which calls are safe

  /** Preparing and disabling always are; enabling is exactly when every PLL that the clock
      depends on is prepared; unpreparing exactly when the prepare votes left over hold every
      PLL in use. */
  lemma CallSafeIff(t: Tree, w: World, prep: seq<int>, en: seq<int>, op: Op, bound: nat)
    requires Sound(t, w, prep, en, bound) && FedNow(t, w) && op.c < t.Size() && !op.Reparent?
    requires op.Give? ==> (if op.kind.Prepare? then prep else en)[op.c] >= 1
    ensures Whole(t, w) && |prep| == |en| == t.Size()
    ensures op.Take? == op.kind.Prepare? ==> Safe(t, w, prep, en, op, bound)
    ensures op == Take(Enable, op.c) ==>
              (Safe(t, w, prep, en, op, bound) <==>
               forall x :: 0 <= x < t.Size() && Gating(t, x) == ByPrepare && Feeds(t, w.sel, Enable, x, op.c, bound) ==>
                 w.prep.on[x])
    ensures op == Give(Prepare, op.c) ==>
              (Safe(t, w, prep, en, op, bound) <==>
               forall x :: 0 <= x < t.Size() && Gating(t, x) == ByPrepare && w.en.on[x] ==>
                 Wanted(t, w.sel, Prepare, prep[op.c := prep[op.c] - 1], x, bound))
  {
    hide Good, Feeds, Wanted, Passes, Acquire, Release, Running, AllRunning, Ordered;
    SoundIsWhole(t, w, prep, en, bound);
    var votes, r := if op.kind.Prepare? then prep else en, Moves(t, w, op);
    ChannelKeeps(t, w.sel, op.kind, w.Of(op.kind), votes, op, bound);
    PassesWithin(w.sel, w.Of(op.kind), r, op.Take?);
    GoodForgets(t, w.sel, op.kind, r, r, Moved(votes, op.kind, op), bound);
    var next := Step(t, w, op);
    FedIffVotes(t, w.sel, next.prep, next.en, Moved(prep, Prepare, op), Moved(en, Enable, op), bound);
    if op.Take? == op.kind.Prepare? {
      FedMore(t, w.prep.on, next.prep.on, w.en.on, next.en.on);
    } else {
      forall x | 0 <= x < t.Size()
        ensures op.Take? ==> (next.en.on[x] <==> w.en.on[x] || Feeds(t, w.sel, Enable, x, op.c, bound))
        ensures w.en.on[x] ==> !t.clocks[x].alwaysOn
        ensures Feeds(t, w.sel, Enable, x, op.c, bound) ==> !t.clocks[x].alwaysOn
        ensures op.Give? ==> (next.prep.on[x] <==> Wanted(t, w.sel, Prepare, prep[op.c := prep[op.c] - 1], x, bound))
      {
        OnIsGated(t, w.sel, Enable, w.en, en, x, bound);
        OnIsGated(t, w.sel, Enable, next.en, Moved(en, Enable, op), x, bound);
        if Feeds(t, w.sel, Enable, x, op.c, bound) {
          FeedsGated(t, w.sel, Enable, x, op.c, bound);
        }
        if op.Take? {
          LiveOnceVoted(t, w.sel, Enable, w.en, en, op.c, x, bound);
        } else {
          OnIffWanted(t, w.sel, Prepare, next.prep, Moved(prep, Prepare, op), x, bound, bound);
        }
      }
    }
  }

  lemma PassesWithin(sel: seq<nat>, a: Channel, b: Channel, up: bool)
    requires Passes(sel, a, b, up)
    ensures if up then Within(a.on, b.on) else Within(b.on, a.on)
  {
  }

  lemma OnIsGated(t: Tree, sel: seq<nat>, kind: Kind, ch: Channel, votes: seq<int>, x: nat, bound: nat)
    requires x < t.Size() && Good(t, sel, kind, ch, votes, bound)
    ensures Fits(t, sel, ch) && (ch.on[x] ==> !t.clocks[x].alwaysOn)
  {
  }

  // ---------------------------------------------------------------- callers that keep to the rules

  /** Whoever enables a clock holds a prepare vote on it as well. */
  ghost predicate Backed(t: Tree, prep: seq<int>, en: seq<int>) {
    && |prep| == |en| == t.Size()
    && forall x :: 0 <= x < t.Size() && !t.clocks[x].alwaysOn && en[x] > 0 ==> prep[x] > 0
  }

  ghost predicate AlwaysBacked(t: Tree, ops: seq<Op>)
    requires InRange(t, ops)
  {
    && Backed(t, Ledger(t.Size(), Prepare, ops), Ledger(t.Size(), Enable, ops))
    && (ops == [] || AlwaysBacked(t, ops[..|ops| - 1]))
  }

  /** No clock stands for a group; enabling one would enable its members without preparing them. */
  ghost predicate GroupFree(t: Tree) {
    forall c :: 0 <= c < t.Size() ==> t.clocks[c].group == []
  }

  /** A clock that has its signal whatever is selected, prepared or enabled. */
  predicate FreeRunning(t: Tree, x: nat)
    requires x < t.Size()
  {
    t.clocks[x].alwaysOn || (t.clocks[x].op == Nowhere && t.clocks[x].hc.None? && t.clocks[x].parents == [])
  }

  /** Multiplexers that are cleared first have such a clock, or none, as their first candidate. */
  ghost predicate Steady(t: Tree, sel: seq<nat>)
    requires t.Selects(sel)
  {
    forall c :: 0 <= c < t.Size() && t.clocks[c].twoStep ==>
      var first := t.Parent(sel[c := 0], c);
      first.Some? ==> first.value < t.Size() && FreeRunning(t, first.value)
  }

  lemma SteadyElsewhere(t: Tree, a: seq<nat>, b: seq<nat>)
    requires t.Selects(a) && t.Selects(b) && Steady(t, a)
    ensures Steady(t, b)
  {
    forall c | 0 <= c < t.Size() && t.clocks[c].twoStep ensures t.Parent(b[c := 0], c) == t.Parent(a[c := 0], c) {
    }
  }

  lemma SteadyClears(t: Tree, s: Scene, c: nat)
    requires Shown(t, s) && c < t.Size() && Steady(t, s.sel)
    ensures ClearSafe(t, s, c)
  {
    var ps := t.ParentList(s.sel[c := 0], c);
    if t.clocks[c].twoStep && |ps| > 0 {
      FreeFlows(t, s, ps[0], true);
      FreeFlows(t, s, ps[0], false);
    }
  }

  lemma FreeFlows(t: Tree, s: Scene, x: nat, gates: bool)
    requires Shown(t, s) && x < t.Size() && FreeRunning(t, x)
    ensures Flows(t, s, x, gates)
  {
  }

  lemma {:induction false} BackedWanted(t: Tree, sel: seq<nat>, prep: seq<int>, en: seq<int>, x: nat, depth: nat)
    requires t.Selects(sel) && GroupFree(t) && Backed(t, prep, en) && x < t.Size() && Wanted(t, sel, Enable, en, x, depth)
    ensures Wanted(t, sel, Prepare, prep, x, depth)
    decreases depth
  {
    if en[x] <= 0 {
      var c :| 0 <= c < t.Size() && x in t.Needs(sel, Enable, c) && Wanted(t, sel, Enable, en, c, depth - 1);
      BackedWanted(t, sel, prep, en, c, depth - 1);
      assert x in t.Needs(sel, Prepare, c);
    }
  }

  lemma BackedFeeds(t: Tree, sel: seq<nat>, prep: seq<int>, en: seq<int>, bound: nat)
    requires t.Selects(sel) && GroupFree(t) && Backed(t, prep, en)
    ensures VotesFeed(t, sel, prep, en, bound)
  {
    hide Wanted;
    forall x | 0 <= x < t.Size() && Wanted(t, sel, Enable, en, x, bound)
      ensures Wanted(t, sel, Prepare, prep, x, bound)
    {
      BackedWanted(t, sel, prep, en, x, bound);
    }
  }

  /** Then a clock that is enabled is prepared, so a new parent is prepared before it is enabled. */
  lemma BackedCounts(t: Tree, w: World, prep: seq<int>, en: seq<int>, c: nat, bound: nat)
    requires Sound(t, w, prep, en, bound) && GroupFree(t) && Backed(t, prep, en) && c < t.Size()
    ensures w.en.cnt[c] > 0 ==> w.prep.cnt[c] > 0
  {
    hide Wanted, Conserved, Ordered, AllOrdered;
    if w.en.cnt[c] > 0 {
      OnIffWanted(t, w.sel, Enable, w.en, en, c, bound, bound);
      BackedWanted(t, w.sel, prep, en, c, bound);
      OnIffWanted(t, w.sel, Prepare, w.prep, prep, c, bound, bound);
    }
  }

  lemma BackedIsSafe(t: Tree, w: World, prep: seq<int>, en: seq<int>, op: Op, bound: nat)
    requires Sound(t, w, prep, en, bound) && op.c < t.Size() && (op.Reparent? ==> op.p < t.Size())
    requires GroupFree(t) && Backed(t, prep, en) && Backed(t, Moved(prep, Prepare, op), Moved(en, Enable, op))
    requires Whole(t, w) && Steady(t, w.sel)
    ensures Safe(t, w, prep, en, op, bound)
  {
    hide Good, VotesFeed, ClearSafe, Wanted, GroupFree, Steady, Woken;
    if op.Reparent? {
      if Turns(t, w.sel, op.c, op.p) {
        var i := FirstIndex(t.clocks[op.c].parents, op.p);
        BackedCounts(t, w, prep, en, op.c, bound);
        BackedFeeds(t, w.sel, Lent(prep, w.prep.cnt[op.c] > 0, op.p), Lent(en, w.en.cnt[op.c] > 0, op.p), bound);
        BackedFeeds(t, w.sel[op.c := i], prep, en, bound);
        SteadyClears(t, AsVoted(t, w, op.c, op.p, bound), op.c);
      }
    } else {
      BackedFeeds(t, w.sel, Moved(prep, Prepare, op), Moved(en, Enable, op), bound);
    }
  }

  /** With such callers and such a table, changes of parent in use included, every clock in use
      has its signal at every hardware step of every run. */
  lemma {:induction false} BackedKeepsOrder(t: Tree, sel: seq<nat>, ops: seq<Op>, bound: nat)
    requires t.Selects(sel) && Top(t, bound) && InRange(t, ops) && OnlyHeld(t.Size(), ops)
    requires GroupFree(t) && Steady(t, sel) && AlwaysBacked(t, ops)
    ensures AllSafe(t, sel, ops, bound) && InOrder(t, Run(t, sel, ops))
  {
    hide Safe, Step, Steady, InOrder, GroupFree, Backed, FedNow, Sound;
    RunKeeps(t, sel, ops, bound);
    if ops != [] {
      var init, op := ops[..|ops| - 1], ops[|ops| - 1];
      BackedKeepsOrder(t, sel, init, bound);
      RunKeeps(t, sel, init, bound);
      SteadyElsewhere(t, sel, Run(t, sel, init).sel);
      BackedBefore(t, ops);
      BackedIsSafe(t, Run(t, sel, init), Ledger(t.Size(), Prepare, init), Ledger(t.Size(), Enable, init), op, bound);
    }
  }

  lemma BackedBefore(t: Tree, ops: seq<Op>)
    requires ops != [] && InRange(t, ops) && AlwaysBacked(t, ops)
    ensures var init, op := ops[..|ops| - 1], ops[|ops| - 1];
      && Backed(t, Ledger(t.Size(), Prepare, init), Ledger(t.Size(), Enable, init))
      && Backed(t, Moved(Ledger(t.Size(), Prepare, init), Prepare, op), Moved(Ledger(t.Size(), Enable, init), Enable, op))
  {
    hide Backed;
    assert AlwaysBacked(t, ops[..|ops| - 1]);
  }

  // ---------------------------------------------------------------- where the hardware is not in order

  const PLL := Clock([], None, [], false, false, false, ByPrepare)
  const LEAF := Clock([Some(0)], None, [], false, false, false, ByEnable)
  const PLL_AND_LEAF := Tree([PLL, LEAF], [0, 1])
  const NO_MUX := [0, 0]

  /** A gate under a PLL: enabling it by itself is accepted and opens it while the PLL is off;
      preparing it first is in order. */
  lemma EnableAlone()
    ensures var t, alone, both := PLL_AND_LEAF, [Take(Enable, 1)], [Take(Prepare, 1), Take(Enable, 1)];
      && t.Selects(NO_MUX) && InRange(t, alone) && OnlyHeld(2, alone) && InRange(t, both) && OnlyHeld(2, both)
      && !InOrder(t, Run(t, NO_MUX, alone)) && Run(t, NO_MUX, alone).en.on[1] && !Run(t, NO_MUX, alone).prep.on[0]
      && InOrder(t, Run(t, NO_MUX, both))
  {
    hide InOrder, Step, Sound, FedNow, Backed, Wanted, VotesFeed, GroupFree, Steady, Tree.Valid, Top;
    var t, alone, both := PLL_AND_LEAF, [Take(Enable, 1)], [Take(Prepare, 1), Take(Enable, 1)];
    LeafTable();
    assert alone[..0] == [] && both[..1] == [Take(Prepare, 1)] && both[..1][..0] == [];
    ExampleLedgers();
    RunKeeps(t, NO_MUX, alone, 2);
    AloneIsWanted();
    assert alone[..|alone| - 1] == [] && Run(t, NO_MUX, []) == Idle(NO_MUX, 2);
    SelectionStays(t, Idle(NO_MUX, 2), alone[0]);
    AloneIsOn(Run(t, NO_MUX, alone));
    assert !AllSafe(t, NO_MUX, alone, 2);
    BackedKeepsOrder(t, NO_MUX, both, 2);
  }

  lemma SelectionStays(t: Tree, w: World, op: Op)
    requires Whole(t, w) && op.c < t.Size() && !op.Reparent?
    ensures Step(t, w, op).sel == w.sel
  {
  }

  lemma LeafTable()
    ensures PLL_AND_LEAF.Selects(NO_MUX) && Top(PLL_AND_LEAF, 2) && GroupFree(PLL_AND_LEAF) && Steady(PLL_AND_LEAF, NO_MUX)
  {
  }

  lemma ExampleLedgers()
    ensures Ledger(2, Prepare, [Take(Enable, 1)]) == [0, 0] && Ledger(2, Enable, [Take(Enable, 1)]) == [0, 1]
    ensures AlwaysBacked(PLL_AND_LEAF, [Take(Prepare, 1), Take(Enable, 1)])
  {
    var both, first := [Take(Prepare, 1), Take(Enable, 1)], [Take(Prepare, 1)];
    assert both[..1] == first && first[..0] == [];
    assert [Take(Enable, 1)][..0] == [];
    assert Ledger(2, Prepare, []) == [0, 0] && Ledger(2, Enable, []) == [0, 0];
    assert Ledger(2, Prepare, first) == [0, 1] && Ledger(2, Enable, first) == [0, 0];
    assert Ledger(2, Prepare, both) == [0, 1] && Ledger(2, Enable, both) == [0, 1];
    assert AlwaysBacked(PLL_AND_LEAF, []);
    assert AlwaysBacked(PLL_AND_LEAF, first);
  }

  lemma AloneIsWanted()
    ensures Wanted(PLL_AND_LEAF, NO_MUX, Enable, [0, 1], 0, 2) && Wanted(PLL_AND_LEAF, NO_MUX, Enable, [0, 1], 1, 2)
    ensures !Wanted(PLL_AND_LEAF, NO_MUX, Prepare, [0, 0], 0, 2)
    ensures !VotesFeed(PLL_AND_LEAF, NO_MUX, [0, 0], [0, 1], 2)
  {
    assert PLL_AND_LEAF.Needs(NO_MUX, Enable, 1) == [0];
    assert Wanted(PLL_AND_LEAF, NO_MUX, Enable, [0, 1], 1, 1);
    forall c | 0 <= c < 2 ensures !Wanted(PLL_AND_LEAF, NO_MUX, Prepare, [0, 0], c, 2) {
      NobodyWants(PLL_AND_LEAF, NO_MUX, Prepare, [0, 0], c, 2);
    }
  }

  lemma {:induction false} NobodyWants(t: Tree, sel: seq<nat>, kind: Kind, votes: seq<int>, x: nat, depth: nat)
    requires t.Selects(sel) && |votes| == t.Size() && x < t.Size() && forall y :: 0 <= y < t.Size() ==> votes[y] <= 0
    ensures !Wanted(t, sel, kind, votes, x, depth)
    decreases depth
  {
    if Wanted(t, sel, kind, votes, x, depth) {
      var c :| 0 <= c < t.Size() && x in t.Needs(sel, kind, c) && Wanted(t, sel, kind, votes, c, depth - 1);
      NobodyWants(t, sel, kind, votes, c, depth - 1);
    }
  }

  lemma AloneIsOn(w: World)
    requires PLL_AND_LEAF.Selects(NO_MUX) && w.sel == NO_MUX && Sound(PLL_AND_LEAF, w, [0, 0], [0, 1], 2)
    ensures w.en.on[1] && !w.prep.on[0]
  {
    hide Wanted, Conserved, Ordered, AllOrdered;
    AloneIsWanted();
    OnIffWanted(PLL_AND_LEAF, NO_MUX, Enable, w.en, [0, 1], 1, 2, 2);
    OnIffWanted(PLL_AND_LEAF, NO_MUX, Prepare, w.prep, [0, 0], 0, 2, 2);
  }

  const GATE := Clock([], None, [], false, false, false, ByEnable)
  const MUX := Clock([Some(0), Some(1), Some(2)], None, [], true, true, false, ByEnable)
  const FOUR := Tree([GATE, GATE, GATE, MUX], [0, 0, 0, 1])
  const ON_ONE := [0, 0, 0, 1]

  lemma FourIsValid()
    ensures FOUR.Selects(ON_ONE) && Top(FOUR, 2)
  {
  }

  /** A clock that needs nothing wakes alone. */
  lemma LoneWakes(sel: seq<nat>, ch: Channel, c: nat)
    requires FOUR.Selects(sel) && ch.Sized(4) && c < 3 && ch.cnt[c] == 0
    ensures Acquire(FOUR, sel, Enable, ch, c) == ch.Count(c, 1).Switch(sel, c, true)
  {
    assert FOUR.Needs(sel, Enable, c) == [];
  }

  lemma VoteForOne(t: Tree, sel: seq<nat>, kind: Kind, ch: Channel, m: nat, bound: nat)
    requires Fits(t, sel, ch) && Below(t, [m], bound) && m < t.Size()
    ensures AcquireAll(t, sel, kind, ch, [m], bound) == Acquire(t, sel, kind, ch, m)
  {
    hide Acquire, Tree.Valid;
    var one := [m];
    assert one[..|one| - 1] == [] && one[|one| - 1] == m;
    assert AcquireAll(t, sel, kind, ch, [], bound) == ch;
  }

  lemma MuxNeeds()
    ensures FOUR.Needs(ON_ONE, Enable, 3) == [1]
  {
  }

  /** Taking clock 3 under parent 1 wakes these two. */
  lemma MuxWakes(ch: Channel)
    requires FOUR.Selects(ON_ONE) && ch.Sized(4) && ch.cnt == [0, 0, 0, 0] && ch.on == [false, false, false, false]
    ensures var up := Acquire(FOUR, ON_ONE, Enable, ch, 3);
            up.cnt == [0, 1, 0, 1] && up.on == [false, true, false, true]
  {
    hide AcquireAll, Tree.Needs, Tree.Valid;
    var up := ch.Count(3, 1);
    MuxNeeds();
    NeedsBelow(FOUR, ON_ONE, Enable, 3);
    VoteForOne(FOUR, ON_ONE, Enable, up, 1, FOUR.rank[3]);
    LoneWakes(ON_ONE, up, 1);
  }

  /** After that call. */
  lemma MuxTaken() returns (w: World)
    ensures FOUR.Selects(ON_ONE) && InRange(FOUR, [Take(Enable, 3)]) && w == Run(FOUR, ON_ONE, [Take(Enable, 3)])
    ensures w.sel == ON_ONE && w.en.cnt == [0, 1, 0, 1] && w.en.on == [false, true, false, true]
    ensures w.prep.cnt == [0, 0, 0, 0] && w.prep.on == [false, false, false, false]
  {
    hide Acquire, SetParent;
    FourIsValid();
    var first := [Take(Enable, 3)];
    MuxWakes(Idle(ON_ONE, 4).en);
    assert first[..|first| - 1] == [] && first[|first| - 1] == Take(Enable, 3);
    assert Run(FOUR, ON_ONE, []) == Idle(ON_ONE, 4);
    w := Run(FOUR, ON_ONE, first);
    assert w == Step(FOUR, Idle(ON_ONE, 4), Take(Enable, 3));
  }

  lemma ClearingUnsafe(w: World, prep: seq<int>, en: seq<int>)
    requires Whole(FOUR, w) && w.sel == ON_ONE && |prep| == |en| == 4
    requires w.en.cnt == [0, 1, 0, 1] && w.en.on == [false, true, false, true]
    ensures !Safe(FOUR, w, prep, en, Reparent(3, 2), 2)
  {
    hide VotesFeed;
    assert MUX.parents[1..] == [Some(1), Some(2)] && MUX.parents[1..][1..] == [Some(2)];
    assert FirstIndex([Some(2)], 2) == 0;
    var s := AsVoted(FOUR, w, 3, 2, 2);
    var ps := FOUR.ParentList(ON_ONE[3 := 0], 3);
    NotFed(s.sel);
    assert ps == [0] && s.en[3] && !s.en[0] && !Flows(FOUR, s, ps[0], true);
  }

  /** Clock 0 is not something that clock 2 depends on. */
  lemma NotFed(sel: seq<nat>)
    requires FOUR.Selects(sel) && sel == ON_ONE
    ensures !Feeds(FOUR, sel, Enable, 0, 2, 2)
  {
    forall c | 0 <= c < 4 ensures 0 !in FOUR.Needs(sel, Enable, c) {
      MuxNeeds();
    }
  }

  /** Clock 3 is in use under parent 1 and moves to parent 2 while parent 0 is off: at the write
      that clears the field, 3 is in use without a signal. */
  lemma ClearingGates()
    ensures var ops := [Take(Enable, 3), Reparent(3, 2)];
            FOUR.Selects(ON_ONE) && InRange(FOUR, ops) && OnlyHeld(4, ops) && !InOrder(FOUR, Run(FOUR, ON_ONE, ops))
  {
    hide Safe, InOrder, Step, Sound, FedNow;
    FourIsValid();
    var first, ops := [Take(Enable, 3)], [Take(Enable, 3), Reparent(3, 2)];
    assert ops[..1] == first && first[..0] == [];
    var w := MuxTaken();
    ClearingUnsafe(w, Ledger(4, Prepare, first), Ledger(4, Enable, first));
    assert !AllSafe(FOUR, ON_ONE, ops, 2);
    RunKeeps(FOUR, ON_ONE, ops, 2);
  }

  /** And somebody who holds no vote on clock 1 disables it: that is accepted, and gates it under
      clock 3. */
  lemma UnheldGates()
    ensures FOUR.Selects(ON_ONE) && InRange(FOUR, [Take(Enable, 3)])
    ensures var w := Run(FOUR, ON_ONE, [Take(Enable, 3)]);
            && Ledger(4, Enable, [Take(Enable, 3)])[1] == 0 && Accepted(FOUR, ON_ONE, Enable, w.en, 1)
            && !AllOrdered(FOUR, Enable, Release(FOUR, ON_ONE, Enable, w.en, 1).log)
  {
    hide InOrder, Step, FedNow, AllSafe, Release, AllOrdered, Run;
    FourIsValid();
    var first := [Take(Enable, 3)];
    assert first[..|first| - 1] == [];
    var w := MuxTaken();
    RunKeeps(FOUR, ON_ONE, first, 2);
    ReleaseOrderedIff(FOUR, ON_ONE, Enable, w.en, Ledger(4, Enable, first), 1, 2);
  }
}
