/** The reference-counted power-domain graph of drivers/clk/v1/mtk_pd.c.

    Domains are indices into a table.  A link says that one domain (the sub) needs another
    (the origin, its master).  Enabling a domain votes on every master on every call, over
    a graph in which several paths may lead to the same master. */
module PowerDomains {
  import opened Bags

  /** What the hardware supplies to a domain: nothing, its main clock, or clock and power. */
  datatype Rail = Off | Clocked | Powered

  datatype Link = Link(origin: nat, sub: nat)

  /** The link tables.  Ranks exist only to say that the master relation is acyclic. */
  datatype Graph = Graph(masters: seq<seq<nat>>, slaves: seq<seq<nat>>, rank: seq<nat>) {
    function Size(): nat { |masters| }

    /** Every slave list mirrors the master lists, and masters have a smaller rank. */
    ghost predicate Valid() {
      && |slaves| == |rank| == Size()
      && (forall d, i :: 0 <= d < Size() && 0 <= i < |masters[d]| ==>
            masters[d][i] < Size() && rank[masters[d][i]] < rank[d])
      && (forall d, i :: 0 <= d < Size() && 0 <= i < |slaves[d]| ==> slaves[d][i] < Size())
      && (forall d, x :: 0 <= d < Size() && 0 <= x < Size() ==>
            Count(masters[d], x) == Count(slaves[x], d))
    }
  }

  // ---------------------------------------------------------------- building the link tables

  /** The masters of domain d, in link order. */
  function MastersOf(links: seq<Link>, d: nat): seq<nat> {
    if links == [] then []
    else
      var l := links[|links| - 1];
      MastersOf(links[..|links| - 1], d) + (if l.sub == d then [l.origin] else [])
  }

  /** The slaves of domain d, in link order. */
  function SlavesOf(links: seq<Link>, d: nat): seq<nat> {
    if links == [] then []
    else
      var l := links[|links| - 1];
      SlavesOf(links[..|links| - 1], d) + (if l.origin == d then [l.sub] else [])
  }

  /** x is listed as a master of d exactly as often as d is listed as a slave of x. */
  lemma {:induction false} TablesMirror(links: seq<Link>, d: nat, x: nat)
    ensures Count(MastersOf(links, d), x) == Count(SlavesOf(links, x), d)
  {
    if links != [] {
      var init, l := links[..|links| - 1], links[|links| - 1];
      TablesMirror(init, d, x);
      CountAppend(MastersOf(init, d), if l.sub == d then [l.origin] else [], x);
      CountAppend(SlavesOf(init, x), if l.origin == x then [l.sub] else [], d);
    }
  }

  /** A link stands once in the table of its origin and once in that of its sub, in no others, and
      behind whatever earlier links put there. */
  lemma {:induction false} TablesInOrder(a: seq<Link>, l: Link, b: seq<Link>, d: nat)
    ensures MastersOf(a + [l] + b, d)
         == MastersOf(a, d) + (if l.sub == d then [l.origin] else []) + MastersOf(b, d)
    ensures SlavesOf(a + [l] + b, d)
         == SlavesOf(a, d) + (if l.origin == d then [l.sub] else []) + SlavesOf(b, d)
  {
    var all := a + [l] + b;
    if b == [] {
      assert all == a + [l] && all[..|a|] == a;
    } else {
      var init := b[..|b| - 1];
      assert all[..|all| - 1] == a + [l] + init && all[|all| - 1] == b[|b| - 1];
      TablesInOrder(a, l, init, d);
    }
  }

  lemma {:induction false} TablesRange(links: seq<Link>, d: nat, n: nat, rank: seq<nat>)
    requires |rank| == n && d < n
    requires forall l :: l in links ==> l.origin < n && l.sub < n && rank[l.origin] < rank[l.sub]
    ensures forall m :: m in MastersOf(links, d) ==> m < n && rank[m] < rank[d]
    ensures forall s :: s in SlavesOf(links, d) ==> s < n
  {
    if links != [] {
      var l := links[|links| - 1];
      assert l in links;
      TablesRange(links[..|links| - 1], d, n, rank);
    }
  }

  lemma TablesValid(links: seq<Link>, g: Graph)
    requires |g.rank| == |g.slaves| == g.Size()
    requires forall l :: l in links ==>
               l.origin < g.Size() && l.sub < g.Size() && g.rank[l.origin] < g.rank[l.sub]
    requires forall d :: 0 <= d < g.Size() ==>
               g.masters[d] == MastersOf(links, d) && g.slaves[d] == SlavesOf(links, d)
    ensures g.Valid()
  {
    forall d, x | 0 <= d < g.Size() && 0 <= x < g.Size()
      ensures Count(g.masters[d], x) == Count(g.slaves[x], d)
    {
      TablesMirror(links, d, x);
    }
    forall d | 0 <= d < g.Size()
      ensures forall i :: 0 <= i < |g.masters[d]| ==>
                g.masters[d][i] < g.Size() && g.rank[g.masters[d][i]] < g.rank[d]
      ensures forall i :: 0 <= i < |g.slaves[d]| ==> g.slaves[d][i] < g.Size()
    {
      TablesRange(links, d, g.Size(), g.rank);
      assert forall i :: 0 <= i < |g.masters[d]| ==> g.masters[d][i] in MastersOf(links, d);
      assert forall i :: 0 <= i < |g.slaves[d]| ==> g.slaves[d][i] in SlavesOf(links, d);
    }
  }

  // ---------------------------------------------------------------- state and single steps

  /** Counters, present rails, and every rail state the hardware went through. */
  datatype State = State(cnt: seq<int>, rail: seq<Rail>, history: seq<seq<Rail>>) {
    predicate Sized(n: nat) { |cnt| == |rail| == n }

    /** One register write that puts domain d in state r. */
    function Write(d: nat, r: Rail): State
      requires d < |rail|
    {
      var now := rail[d := r];
      State(cnt, now, history + [now])
    }

    function Count(d: nat, c: int): State
      requires d < |cnt|
    {
      this.(cnt := cnt[d := c])
    }
  }

  /** Outcome of a disable: the error returns leave the counters as they then are. */
  datatype Outcome = Outcome(s: State, ok: bool)

  // ---------------------------------------------------------------- enable and disable

  /** All listed domains exist and have a rank below the bound. */
  ghost predicate Below(g: Graph, ms: seq<nat>, bound: nat)
    requires g.Valid()
  {
    forall i :: 0 <= i < |ms| ==> ms[i] < g.Size() && g.rank[ms[i]] < bound
  }

  ghost function Raise(s: State, d: nat): State
    requires s.Sized(|s.cnt|) && d < |s.cnt|
  {
    var up := s.Count(d, s.cnt[d] + 1);
    if up.cnt[d] != 1 then up else up.Write(d, Clocked).Write(d, Powered)
  }

  ghost function Enable(g: Graph, s: State, d: nat): (r: State)
    requires g.Valid() && s.Sized(g.Size()) && d < g.Size()
    ensures r.Sized(g.Size())
    decreases g.rank[d] + 1, 0
  {
    Raise(EnableAll(g, s, g.masters[d], g.rank[d]), d)
  }

  ghost function EnableAll(g: Graph, s: State, ms: seq<nat>, bound: nat): (r: State)
    requires g.Valid() && s.Sized(g.Size())
    requires Below(g, ms, bound)
    ensures r.Sized(g.Size())
    decreases bound, |ms|
  {
    if ms == [] then s
    else
      var i := |ms| - 1;
      Enable(g, EnableAll(g, s, ms[..i], bound), ms[i])
  }

  ghost predicate SlaveOn(g: Graph, cnt: seq<int>, d: nat)
    requires g.Valid() && |cnt| == g.Size() && d < g.Size()
  {
    exists i :: 0 <= i < |g.slaves[d]| && cnt[g.slaves[d][i]] > 0
  }

  ghost function Disable(g: Graph, s: State, d: nat): (r: Outcome)
    requires g.Valid() && s.Sized(g.Size()) && d < g.Size()
    ensures r.s.Sized(g.Size())
    decreases g.rank[d] + 1, 0
  {
    if s.cnt[d] <= 0 then Outcome(s, false)
    else
      var down := s.Count(d, s.cnt[d] - 1);
      if down.cnt[d] != 0 then DisableAll(g, down, g.masters[d], g.rank[d])
      else if SlaveOn(g, down.cnt, d) then Outcome(down, false)
      else DisableAll(g, down.Write(d, Clocked).Write(d, Off), g.masters[d], g.rank[d])
  }

  ghost function DisableAll(g: Graph, s: State, ms: seq<nat>, bound: nat): (r: Outcome)
    requires g.Valid() && s.Sized(g.Size())
    requires Below(g, ms, bound)
    ensures r.s.Sized(g.Size())
    decreases bound, |ms|
  {
    if ms == [] then Outcome(s, true)
    else
      var i := |ms| - 1;
      var prev := DisableAll(g, s, ms[..i], bound);
      if prev.ok then Disable(g, prev.s, ms[i]) else prev
  }

  /** Masters are enabled in the order of their list, and disabled in that order too. */
  lemma {:induction false} InListOrder(g: Graph, s: State, a: seq<nat>, b: seq<nat>, bound: nat)
    requires g.Valid() && s.Sized(g.Size()) && Below(g, a, bound) && Below(g, b, bound)
    ensures Below(g, a + b, bound)
    ensures EnableAll(g, s, a + b, bound) == EnableAll(g, EnableAll(g, s, a, bound), b, bound)
    ensures DisableAll(g, s, a + b, bound)
         == if DisableAll(g, s, a, bound).ok then DisableAll(g, DisableAll(g, s, a, bound).s, b, bound)
            else DisableAll(g, s, a, bound)
    decreases |b|
  {
    hide Enable, Disable, Graph.Valid;
    if b == [] {
      assert a + b == a;
    } else {
      var init := b[..|b| - 1];
      assert (a + b)[..|a + b| - 1] == a + init;
      InListOrder(g, s, a, init, bound);
    }
  }

  // ---------------------------------------------------------------- vote conservation

  /** The sum of the counters of the listed domains. */
  ghost function Demand(ss: seq<nat>, cnt: seq<int>): int
    requires forall i :: 0 <= i < |ss| ==> ss[i] < |cnt|
  {
    if ss == [] then 0 else Demand(ss[..|ss| - 1], cnt) + cnt[ss[|ss| - 1]]
  }

  /** Every counter is the votes placed on the domain itself plus its slaves' counters. */
  ghost predicate Conserved(g: Graph, cnt: seq<int>, votes: seq<int>)
    requires g.Valid()
  {
    && |cnt| == |votes| == g.Size()
    && forall x :: 0 <= x < g.Size() ==> cnt[x] == votes[x] + Demand(g.slaves[x], cnt)
  }

  /** No powered domain has a master without power. */
  ghost predicate Ordered(g: Graph, rail: seq<Rail>)
    requires g.Valid()
  {
    && |rail| == g.Size()
    && forall d, i :: 0 <= d < g.Size() && 0 <= i < |g.masters[d]| && rail[d] == Powered ==>
         rail[g.masters[d][i]] == Powered
  }

  /** Votes conserved, rails in step with counters, and all rail states so far ordered. */
  ghost predicate Good(g: Graph, s: State, votes: seq<int>) {
    && g.Valid() && s.Sized(g.Size())
    && Conserved(g, s.cnt, votes)
    && (forall x :: 0 <= x < g.Size() ==> s.cnt[x] >= 0)
    && (forall x :: 0 <= x < g.Size() ==> s.rail[x] == (if s.cnt[x] > 0 then Powered else Off))
    && Ordered(g, s.rail)
    && (forall i :: 0 <= i < |s.history| ==> Ordered(g, s.history[i]))
  }

  lemma {:induction false} DemandStep(ss: seq<nat>, cnt: seq<int>, d: nat)
    requires d < |cnt|
    requires forall i :: 0 <= i < |ss| ==> ss[i] < |cnt|
    ensures Demand(ss, cnt[d := cnt[d] + 1]) == Demand(ss, cnt) + Count(ss, d)
  {
    if ss != [] {
      DemandStep(ss[..|ss| - 1], cnt, d);
    }
  }

  /** Raising one counter turns one vote on each master into one vote on the domain. */
  lemma RaiseMovesVotes(g: Graph, cnt: seq<int>, votes: seq<int>, d: nat)
    requires g.Valid() && d < g.Size()
    requires Conserved(g, cnt, Plus(votes, g.masters[d]))
    ensures Conserved(g, cnt[d := cnt[d] + 1], votes[d := votes[d] + 1])
  {
    var next := cnt[d := cnt[d] + 1];
    forall x | 0 <= x < g.Size()
      ensures next[x] == votes[d := votes[d] + 1][x] + Demand(g.slaves[x], next)
    {
      DemandStep(g.slaves[x], cnt, d);
      assert Count(g.masters[d], x) == Count(g.slaves[x], d);
    }
  }

  /** Lowering one counter turns one vote on the domain into one vote on each master. */
  lemma LowerMovesVotes(g: Graph, cnt: seq<int>, votes: seq<int>, d: nat)
    requires g.Valid() && d < g.Size()
    requires Conserved(g, cnt, votes)
    ensures Conserved(g, cnt[d := cnt[d] - 1], Plus(votes[d := votes[d] - 1], g.masters[d]))
  {
    var next := cnt[d := cnt[d] - 1];
    var v := Plus(votes[d := votes[d] - 1], g.masters[d]);
    forall x | 0 <= x < g.Size()
      ensures next[x] == v[x] + Demand(g.slaves[x], next)
    {
      assert next[d := next[d] + 1] == cnt;
      DemandStep(g.slaves[x], next, d);
      assert Count(g.masters[d], x) == Count(g.slaves[x], d);
    }
  }

  lemma {:induction false} DemandSign(ss: seq<nat>, cnt: seq<int>)
    requires forall i :: 0 <= i < |ss| ==> ss[i] < |cnt|
    requires forall x :: 0 <= x < |cnt| ==> cnt[x] >= 0
    ensures Demand(ss, cnt) >= 0
    ensures Demand(ss, cnt) > 0 <==> exists i :: 0 <= i < |ss| && cnt[ss[i]] > 0
  {
    if ss != [] {
      var init := ss[..|ss| - 1];
      DemandSign(init, cnt);
      if i :| 0 <= i < |ss| && cnt[ss[i]] > 0 {
        assert i < |init| ==> cnt[init[i]] > 0;
      }
      if i :| 0 <= i < |init| && cnt[init[i]] > 0 {
        assert cnt[ss[i]] > 0;
      }
    }
  }

  // ---------------------------------------------------------------- what one call keeps

  /** A slave of d has d among its masters, so it ranks above d and is powered only with d. */
  lemma SlaveFacts(g: Graph, d: nat, i: nat)
    requires g.Valid() && d < g.Size() && i < |g.slaves[d]|
    ensures d in g.masters[g.slaves[d][i]] && g.rank[d] < g.rank[g.slaves[d][i]]
  {
    var s := g.slaves[d][i];
    assert Count(g.masters[s], d) == Count(g.slaves[d], s);
    assert s in g.slaves[d];
    var k :| 0 <= k < |g.masters[s]| && g.masters[s][k] == d;
  }

  /** Writing one rail keeps the order when the masters of a domain being powered are on,
      and no slave of a domain losing power is. */
  lemma WriteKeepsOrder(g: Graph, rail: seq<Rail>, d: nat, r: Rail)
    requires g.Valid() && d < g.Size() && Ordered(g, rail)
    requires r == Powered ==> forall i :: 0 <= i < |g.masters[d]| ==> rail[g.masters[d][i]] == Powered
    requires r != Powered ==> forall i :: 0 <= i < |g.slaves[d]| ==> rail[g.slaves[d][i]] != Powered
    ensures Ordered(g, rail[d := r])
  {
    var now := rail[d := r];
    forall x, i | 0 <= x < g.Size() && 0 <= i < |g.masters[x]| && now[x] == Powered
      ensures now[g.masters[x][i]] == Powered
    {
      if g.masters[x][i] == d {
        assert d in g.masters[x];
        assert Count(g.masters[x], d) == Count(g.slaves[d], x);
        var k :| 0 <= k < |g.slaves[d]| && g.slaves[d][k] == x;
      }
    }
  }

  /** Both writes of a power-up are ordered when the masters are powered. */
  lemma PowerUpOrdered(g: Graph, rail: seq<Rail>, d: nat)
    requires g.Valid() && d < g.Size() && Ordered(g, rail) && rail[d] != Powered
    requires forall i :: 0 <= i < |g.masters[d]| ==> rail[g.masters[d][i]] == Powered
    ensures Ordered(g, rail[d := Clocked]) && Ordered(g, rail[d := Clocked][d := Powered])
  {
    forall i | 0 <= i < |g.slaves[d]| ensures rail[g.slaves[d][i]] != Powered {
      SlaveFacts(g, d, i);
      var x := g.slaves[d][i];
      var k :| 0 <= k < |g.masters[x]| && g.masters[x][k] == d;
    }
    WriteKeepsOrder(g, rail, d, Clocked);
    WriteKeepsOrder(g, rail[d := Clocked], d, Powered);
  }

  /** The step that follows the votes on the masters. */
  lemma RaiseKeeps(g: Graph, s: State, votes: seq<int>, d: nat)
    requires d < g.Size() && Good(g, s, Plus(votes, g.masters[d]))
    requires |votes| == g.Size()
    requires AllOn(g.masters[d], s.cnt)
    ensures Good(g, Raise(s, d), votes[d := votes[d] + 1])
  {
    hide Conserved, Graph.Valid, Plus, Ordered;
    RaiseMovesVotes(g, s.cnt, votes, d);
    if s.cnt[d] == 0 {
      PowerUpOrdered(g, s.rail, d);
    }
  }

  /** Below the bound, every domain has at least the listed votes. */
  ghost predicate Covers(g: Graph, votes: seq<int>, ms: seq<nat>, bound: nat)
    requires g.Valid()
  {
    && |votes| == g.Size()
    && forall x :: 0 <= x < g.Size() && g.rank[x] < bound ==> votes[x] >= Count(ms, x)
  }

  lemma CoversInit(g: Graph, votes: seq<int>, init: seq<nat>, m: nat, bound: nat)
    requires g.Valid() && m < g.Size() && g.rank[m] < bound && Covers(g, votes, init + [m], bound)
    ensures Covers(g, votes, init, bound)
    ensures Covers(g, Minus(votes, init), [], g.rank[m]) && Minus(votes, init)[m] >= 1
  {
    forall x | 0 <= x < g.Size() && g.rank[x] < bound
      ensures votes[x] >= Count(init, x) && (x == m ==> votes[x] > Count(init, x))
    {
      assert (init + [m])[..|init|] == init;
    }
  }

  ghost predicate AllOn(ms: seq<nat>, cnt: seq<int>) {
    forall i :: 0 <= i < |ms| ==> ms[i] < |cnt| && cnt[ms[i]] > 0
  }

  lemma AllOnSnoc(init: seq<nat>, m: nat, mid: seq<int>, end: seq<int>)
    requires AllOn(init, mid) && NoLower(mid, end) && m < |end| && end[m] > 0
    ensures AllOn(init + [m], end)
  {
    forall i | 0 <= i < |init| ensures init[i] < |end| && end[init[i]] > 0 {
      assert mid[init[i]] > 0;
    }
  }

  /** Enabling a domain adds one vote to it, keeps every rail state ordered on the way,
      and lowers no counter. */
  lemma {:induction false} EnableKeeps(g: Graph, s: State, votes: seq<int>, d: nat)
    requires d < g.Size() && Good(g, s, votes)
    ensures Good(g, Enable(g, s, d), votes[d := votes[d] + 1])
    ensures NoLower(s.cnt, Enable(g, s, d).cnt)
    ensures Enable(g, s, d).cnt[d] > 0
    decreases g.rank[d] + 1, 0
  {
    EnableAllKeeps(g, s, votes, g.masters[d], g.rank[d]);
    RaiseKeeps(g, EnableAll(g, s, g.masters[d], g.rank[d]), votes, d);
  }

  lemma EnableAllSnoc(g: Graph, s: State, init: seq<nat>, m: nat, bound: nat)
    requires g.Valid() && s.Sized(g.Size()) && Below(g, init + [m], bound)
    ensures Below(g, init, bound) && m < g.Size() && g.rank[m] < bound
    ensures EnableAll(g, s, init + [m], bound) == Enable(g, EnableAll(g, s, init, bound), m)
  {
    assert (init + [m])[..|init|] == init;
    assert (init + [m])[|init|] == m;
    forall i | 0 <= i < |init| ensures init[i] < g.Size() && g.rank[init[i]] < bound {
      assert init[i] == (init + [m])[i];
    }
  }

  lemma NoLowerTrans(a: seq<int>, b: seq<int>, c: seq<int>)
    requires NoLower(a, b) && NoLower(b, c)
    ensures NoLower(a, c)
  {
  }

  lemma {:induction false} EnableAllKeeps(g: Graph, s: State, votes: seq<int>, ms: seq<nat>, bound: nat)
    requires Good(g, s, votes) && Below(g, ms, bound)
    ensures Good(g, EnableAll(g, s, ms, bound), Plus(votes, ms))
    ensures NoLower(s.cnt, EnableAll(g, s, ms, bound).cnt)
    ensures AllOn(ms, EnableAll(g, s, ms, bound).cnt)
    decreases bound, |ms|
  {
    if ms == [] {
      PlusNone(votes);
    } else {
      var init, m := ms[..|ms| - 1], ms[|ms| - 1];
      assert ms == init + [m];
      assert s.Sized(g.Size()) && |votes| == g.Size();
      EnableAllSnoc(g, s, init, m, bound);
      hide Good, Conserved, Ordered, Enable, EnableAll, NoLower, AllOn, Below;
      EnableAllKeeps(g, s, votes, init, bound);
      var mid := EnableAll(g, s, init, bound);
      EnableKeeps(g, mid, Plus(votes, init), m);
      PlusSnoc(votes, init, m);
      NoLowerTrans(s.cnt, mid.cnt, Enable(g, mid, m).cnt);
      AllOnSnoc(init, m, mid.cnt, Enable(g, mid, m).cnt);
    }
  }

  /** The last count of a domain is held by a caller exactly if no slave is counted. */
  lemma LastVote(g: Graph, s: State, votes: seq<int>, d: nat)
    requires d < g.Size() && Good(g, s, votes) && s.cnt[d] == 1
    ensures SlaveOn(g, s.Count(d, 0).cnt, d) <==> votes[d] < 1
    ensures votes[d] >= 1 ==> forall i :: 0 <= i < |g.slaves[d]| ==>
              g.slaves[d][i] < g.Size() && s.rail[g.slaves[d][i]] != Powered
  {
    hide Ordered;
    LowerMovesVotes(g, s.cnt, votes, d);
    var down := s.Count(d, 0);
    DemandSign(g.slaves[d], down.cnt);
    assert !(d in g.masters[d]);
    assert Count(g.masters[d], d) == 0;
    forall i | 0 <= i < |g.slaves[d]|
      ensures g.slaves[d][i] != d
    {
      SlaveFacts(g, d, i);
    }
  }

  /** The step that precedes taking the votes back from the masters. */
  lemma LowerKeeps(g: Graph, s: State, votes: seq<int>, d: nat)
    requires d < g.Size() && Good(g, s, votes) && s.cnt[d] > 0
    ensures s.cnt[d] == 1 ==> (SlaveOn(g, s.Count(d, 0).cnt, d) <==> votes[d] < 1)
    ensures s.cnt[d] == 1 && votes[d] >= 1 ==>
              Good(g, s.Count(d, 0).Write(d, Clocked).Write(d, Off),
                   Plus(votes[d := votes[d] - 1], g.masters[d]))
    ensures s.cnt[d] != 1 ==>
              Good(g, s.Count(d, s.cnt[d] - 1), Plus(votes[d := votes[d] - 1], g.masters[d]))
  {
    hide Plus, Ordered;
    LowerMovesVotes(g, s.cnt, votes, d);
    if s.cnt[d] == 1 {
      LastVote(g, s, votes, d);
      if votes[d] >= 1 {
        WriteKeepsOrder(g, s.rail, d, Clocked);
        WriteKeepsOrder(g, s.Count(d, 0).Write(d, Clocked).rail, d, Off);
      }
    }
  }

  /** Disabling succeeds exactly when the caller holds a vote or two votes are on the domain
      in all; success takes one vote off, and a refusal touches no rail. */
  lemma {:induction false} DisableKeeps(g: Graph, s: State, votes: seq<int>, d: nat)
    requires d < g.Size() && Good(g, s, votes)
    requires Covers(g, votes, [], g.rank[d])
    ensures Disable(g, s, d).ok <==> (votes[d] >= 1 || s.cnt[d] >= 2)
    ensures Disable(g, s, d).ok ==> Good(g, Disable(g, s, d).s, votes[d := votes[d] - 1])
    ensures !Disable(g, s, d).ok ==> Disable(g, s, d).s == s.Count(d, 0)
    decreases g.rank[d] + 1, 0
  {
    if s.cnt[d] <= 0 {
      NoneHeld(g, s, votes, d);
    } else {
      LowerKeeps(g, s, votes, d);
      hide Good, Conserved, Ordered, SlaveOn;
      if s.cnt[d] != 1 || votes[d] >= 1 {
        DisableMasters(g, Lowered(s, d), votes[d := votes[d] - 1], d);
      }
    }
  }

  /** A counter at zero means that nobody holds a vote. */
  lemma NoneHeld(g: Graph, s: State, votes: seq<int>, d: nat)
    requires d < g.Size() && Good(g, s, votes) && s.cnt[d] <= 0
    ensures votes[d] < 1 && s.Count(d, 0) == s
  {
    DemandSign(g.slaves[d], s.cnt);
    assert s.cnt == s.cnt[d := 0];
  }

  /** The state in which a disable that is not refused turns to the masters. */
  ghost function Lowered(s: State, d: nat): State
    requires s.Sized(|s.cnt|) && d < |s.cnt|
  {
    var low := s.Count(d, s.cnt[d] - 1);
    if low.cnt[d] == 0 then low.Write(d, Clocked).Write(d, Off) else low
  }

  lemma {:induction false} DisableMasters(g: Graph, s: State, votes: seq<int>, d: nat)
    requires d < g.Size() && |votes| == g.Size() && Good(g, s, Plus(votes, g.masters[d]))
    requires Covers(g, votes, [], g.rank[d])
    ensures DisableAll(g, s, g.masters[d], g.rank[d]).ok
    ensures Good(g, DisableAll(g, s, g.masters[d], g.rank[d]).s, votes)
    decreases g.rank[d], |g.masters[d]| + 1
  {
    var v := Plus(votes, g.masters[d]);
    assert Covers(g, v, g.masters[d], g.rank[d]);
    DisableAllKeeps(g, s, v, g.masters[d], g.rank[d]);
    PlusMinus(votes, g.masters[d]);
  }

  lemma {:induction false} DisableAllKeeps(g: Graph, s: State, votes: seq<int>, ms: seq<nat>, bound: nat)
    requires Good(g, s, votes) && Below(g, ms, bound)
    requires Covers(g, votes, ms, bound)
    ensures DisableAll(g, s, ms, bound).ok
    ensures Good(g, DisableAll(g, s, ms, bound).s, Minus(votes, ms))
    decreases bound, |ms|
  {
    if ms == [] {
      PlusNone(votes);
    } else {
      var init, m := ms[..|ms| - 1], ms[|ms| - 1];
      assert ms == init + [m];
      PlusSnoc(votes, init, m);
      CoversInit(g, votes, init, m, bound);
      DisableAllKeeps(g, s, votes, init, bound);
      var mid := DisableAll(g, s, init, bound).s;
      DisableKeeps(g, mid, Minus(votes, init), m);
      assert DisableAll(g, s, ms, bound) == Disable(g, mid, m);
    }
  }

  // ---------------------------------------------------------------- what the votes determine

  lemma {:induction false} SameDemand(ss: seq<nat>, a: seq<int>, b: seq<int>)
    requires |a| == |b| && forall i :: 0 <= i < |ss| ==> ss[i] < |a| && a[ss[i]] == b[ss[i]]
    ensures Demand(ss, a) == Demand(ss, b)
  {
    if ss != [] {
      SameDemand(ss[..|ss| - 1], a, b);
    }
  }

  /** The votes alone determine a counter. */
  lemma {:induction false} CounterDetermined(g: Graph, a: seq<int>, b: seq<int>, votes: seq<int>, x: nat, top: nat)
    requires g.Valid() && x < g.Size() && Conserved(g, a, votes) && Conserved(g, b, votes)
    requires forall y :: 0 <= y < g.Size() ==> g.rank[y] <= top
    ensures a[x] == b[x]
    decreases top - g.rank[x]
  {
    forall i | 0 <= i < |g.slaves[x]| ensures a[g.slaves[x][i]] == b[g.slaves[x][i]] {
      SlaveFacts(g, x, i);
      CounterDetermined(g, a, b, votes, g.slaves[x][i], top);
    }
    SameDemand(g.slaves[x], a, b);
  }

  lemma {:induction false} HighestRank(rank: seq<nat>) returns (top: nat)
    ensures forall y :: 0 <= y < |rank| ==> rank[y] <= top
  {
    top := 0;
    for i := 0 to |rank|
      invariant forall y :: 0 <= y < i ==> rank[y] <= top
    {
      top := if rank[i] > top then rank[i] else top;
    }
  }

  /** Two states with the same votes have the same counters and the same rails. */
  lemma VotesDetermine(g: Graph, s: State, t: State, votes: seq<int>)
    requires Good(g, s, votes) && Good(g, t, votes)
    ensures s.cnt == t.cnt && s.rail == t.rail
  {
    var top := HighestRank(g.rank);
    forall x | 0 <= x < g.Size() ensures s.cnt[x] == t.cnt[x] {
      CounterDetermined(g, s.cnt, t.cnt, votes, x, top);
    }
  }

  /** Enabling a domain and then disabling it restores every counter and every rail. */
  lemma EnableThenDisable(g: Graph, s: State, votes: seq<int>, d: nat)
    requires d < g.Size() && Good(g, s, votes)
    requires forall x :: 0 <= x < g.Size() ==> votes[x] >= 0
    ensures Disable(g, Enable(g, s, d), d).ok
    ensures Disable(g, Enable(g, s, d), d).s.cnt == s.cnt
    ensures Disable(g, Enable(g, s, d), d).s.rail == s.rail
  {
    EnableKeeps(g, s, votes, d);
    var more := votes[d := votes[d] + 1];
    DisableKeeps(g, Enable(g, s, d), more, d);
    assert more[d := more[d] - 1] == votes;
    VotesDetermine(g, Disable(g, Enable(g, s, d), d).s, s, votes);
  }

  /** Somebody holds a vote on the domain or on a domain that depends on it, however far. */
  ghost predicate Needed(g: Graph, votes: seq<int>, d: nat, depth: nat)
    requires g.Valid() && |votes| == g.Size() && d < g.Size()
    decreases depth
  {
    || votes[d] > 0
    || (depth > 0 && exists i :: 0 <= i < |g.slaves[d]| && Needed(g, votes, g.slaves[d][i], depth - 1))
  }

  lemma {:induction false} CountedMeansNeeded(g: Graph, cnt: seq<int>, votes: seq<int>, d: nat, depth: nat, top: nat)
    requires g.Valid() && d < g.Size() && Conserved(g, cnt, votes)
    requires forall x :: 0 <= x < g.Size() ==> cnt[x] >= 0 && votes[x] >= 0 && g.rank[x] <= top
    requires depth + g.rank[d] >= top
    ensures cnt[d] > 0 <==> Needed(g, votes, d, depth)
    decreases depth
  {
    DemandSign(g.slaves[d], cnt);
    forall i | 0 <= i < |g.slaves[d]|
      ensures depth > 0 && (cnt[g.slaves[d][i]] > 0 <==> Needed(g, votes, g.slaves[d][i], depth - 1))
    {
      SlaveFacts(g, d, i);
      CountedMeansNeeded(g, cnt, votes, g.slaves[d][i], depth - 1, top);
    }
  }

  /** A domain has power exactly when it, or a domain depending on it over any chain of
      links, is voted for. */
  lemma PoweredIffNeeded(g: Graph, s: State, votes: seq<int>, d: nat)
    requires d < g.Size() && Good(g, s, votes)
    requires forall x :: 0 <= x < g.Size() ==> votes[x] >= 0
    ensures s.rail[d] == Powered <==> exists depth: nat :: Needed(g, votes, d, depth)
  {
    var top := HighestRank(g.rank);
    CountedMeansNeeded(g, s.cnt, votes, d, top, top);
    if depth: nat :| Needed(g, votes, d, depth) {
      NeededDeeper(g, votes, d, depth, depth + top);
      CountedMeansNeeded(g, s.cnt, votes, d, depth + top, top);
    }
  }

  lemma {:induction false} NeededDeeper(g: Graph, votes: seq<int>, d: nat, depth: nat, more: nat)
    requires g.Valid() && |votes| == g.Size() && d < g.Size() && depth <= more
    requires Needed(g, votes, d, depth)
    ensures Needed(g, votes, d, more)
    decreases depth
  {
    if votes[d] <= 0 {
      var i :| 0 <= i < |g.slaves[d]| && Needed(g, votes, g.slaves[d][i], depth - 1);
      NeededDeeper(g, votes, g.slaves[d][i], depth - 1, more - 1);
    }
  }

  // ---------------------------------------------------------------- whole runs

  datatype Op = Take(d: nat) | Release(d: nat)

  ghost predicate InRange(g: Graph, ops: seq<Op>) {
    forall i :: 0 <= i < |ops| ==> ops[i].d < g.Size()
  }

  ghost function AllOff(n: nat): State {
    State(seq(n, _ => 0), seq(n, _ => Off), [])
  }

  /** The calls of a run in order; a refused call stops the system (the driver asserts). */
  ghost function Run(g: Graph, ops: seq<Op>): (r: Outcome)
    requires g.Valid() && InRange(g, ops)
    ensures r.s.Sized(g.Size())
  {
    if ops == [] then Outcome(AllOff(g.Size()), true)
    else
      var prev := Run(g, ops[..|ops| - 1]);
      var op := ops[|ops| - 1];
      if !prev.ok then prev
      else if op.Take? then Outcome(Enable(g, prev.s, op.d), true)
      else Disable(g, prev.s, op.d)
  }

  /** The votes outstanding after a run. */
  ghost function Ledger(n: nat, ops: seq<Op>): (v: seq<int>)
    requires forall i :: 0 <= i < |ops| ==> ops[i].d < n
    ensures |v| == n
  {
    if ops == [] then seq(n, _ => 0)
    else
      var v, op := Ledger(n, ops[..|ops| - 1]), ops[|ops| - 1];
      v[op.d := v[op.d] + (if op.Take? then 1 else -1)]
  }

  /** Every release gives back a vote that is held at that time. */
  ghost predicate OnlyHeld(n: nat, ops: seq<Op>)
    requires forall i :: 0 <= i < |ops| ==> ops[i].d < n
  {
    ops == [] ||
    var init, op := ops[..|ops| - 1], ops[|ops| - 1];
    OnlyHeld(n, init) && (op.Release? ==> Ledger(n, init)[op.d] >= 1)
  }

  lemma {:induction false} NoDemand(ss: seq<nat>, cnt: seq<int>)
    requires forall i :: 0 <= i < |ss| ==> ss[i] < |cnt| && cnt[ss[i]] == 0
    ensures Demand(ss, cnt) == 0
  {
    if ss != [] {
      NoDemand(ss[..|ss| - 1], cnt);
    }
  }

  /** In every run whose users release only what they hold, no call is refused, votes are
      conserved at the end, and no domain was ever powered while a master was off. */
  lemma {:induction false} RunKeeps(g: Graph, ops: seq<Op>)
    requires g.Valid() && InRange(g, ops) && OnlyHeld(g.Size(), ops)
    ensures Run(g, ops).ok
    ensures Good(g, Run(g, ops).s, Ledger(g.Size(), ops))
    ensures forall x :: 0 <= x < g.Size() ==> Ledger(g.Size(), ops)[x] >= 0
  {
    if ops == [] {
      forall x | 0 <= x < g.Size() ensures Demand(g.slaves[x], AllOff(g.Size()).cnt) == 0 {
        NoDemand(g.slaves[x], AllOff(g.Size()).cnt);
      }
    } else {
      var init, op := ops[..|ops| - 1], ops[|ops| - 1];
      RunKeeps(g, init);
      var v := Ledger(g.Size(), init);
      if op.Take? {
        EnableKeeps(g, Run(g, init).s, v, op.d);
      } else {
        DisableKeeps(g, Run(g, init).s, v, op.d);
      }
    }
  }

  /** Runs that leave the same votes outstanding leave the same counters and rails. */
  lemma RunsAgree(g: Graph, a: seq<Op>, b: seq<Op>)
    requires g.Valid() && InRange(g, a) && InRange(g, b)
    requires OnlyHeld(g.Size(), a) && OnlyHeld(g.Size(), b)
    requires Ledger(g.Size(), a) == Ledger(g.Size(), b)
    ensures Run(g, a).s.cnt == Run(g, b).s.cnt && Run(g, a).s.rail == Run(g, b).s.rail
  {
    RunKeeps(g, a);
    RunKeeps(g, b);
    VotesDetermine(g, Run(g, a).s, Run(g, b).s, Ledger(g.Size(), a));
  }

  /** The first release of a vote that is not held goes through unnoticed exactly when two
      votes of others are on the domain. */
  lemma FirstBadRelease(g: Graph, ops: seq<Op>, d: nat)
    requires g.Valid() && InRange(g, ops) && OnlyHeld(g.Size(), ops)
    requires d < g.Size() && Ledger(g.Size(), ops)[d] == 0
    ensures Run(g, ops + [Release(d)]).ok <==> Run(g, ops).s.cnt[d] >= 2
    ensures !Run(g, ops + [Release(d)]).ok ==>
              Run(g, ops + [Release(d)]).s.rail == Run(g, ops).s.rail
  {
    RunKeeps(g, ops);
    assert (ops + [Release(d)])[..|ops|] == ops;
    DisableKeeps(g, Run(g, ops).s, Ledger(g.Size(), ops), d);
  }

  // ---------------------------------------------------------------- one write at a time

  /** What one write may do to a domain: the main clock comes on before the power and goes off
      after it. */
  predicate Next(a: Rail, b: Rail) {
    (a, b) in {(Off, Clocked), (Clocked, Powered), (Powered, Clocked), (Clocked, Off)}
  }

  /** One domain takes one such step, and no other changes. */
  ghost predicate OneStep(a: seq<Rail>, b: seq<Rail>) {
    |a| == |b| && exists d :: 0 <= d < |a| && Next(a[d], b[d]) && b == a[d := b[d]]
  }

  function Before(from: seq<Rail>, log: seq<seq<Rail>>, i: nat): seq<Rail>
    requires i <= |log|
  {
    if i == 0 then from else log[i - 1]
  }

  /** Each state follows from the one before by one step, the first from where it began, and the
      last is where it ended. */
  ghost predicate Paced(from: seq<Rail>, log: seq<seq<Rail>>, to: seq<Rail>) {
    && (forall i :: 0 <= i < |log| ==> OneStep(Before(from, log, i), log[i]))
    && to == Before(from, log, |log|)
  }

  ghost predicate Follows(a: State, b: State) {
    a.history <= b.history && Paced(a.rail, b.history[|a.history|..], b.rail)
  }

  lemma BeforeIn(x: seq<Rail>, l: seq<seq<Rail>>, y: seq<Rail>, k: seq<seq<Rail>>, i: nat)
    requires y == Before(x, l, |l|) && i <= |l| + |k|
    ensures Before(x, l + k, i) == if i <= |l| then Before(x, l, i) else Before(y, k, i - |l|)
    ensures i == |l| ==> Before(x, l + k, i) == Before(y, k, 0)
  {
  }

  lemma PacedOn(x: seq<Rail>, l: seq<seq<Rail>>, y: seq<Rail>, k: seq<seq<Rail>>, z: seq<Rail>)
    requires Paced(x, l, y) && Paced(y, k, z)
    ensures Paced(x, l + k, z)
  {
    hide OneStep, Before;
    var all := l + k;
    forall i | 0 <= i < |all|
      ensures OneStep(Before(x, all, i), all[i])
    {
      BeforeIn(x, l, y, k, i);
      if i < |l| {
        assert OneStep(Before(x, l, i), l[i]);
      } else {
        assert OneStep(Before(y, k, i - |l|), k[i - |l|]);
      }
    }
    BeforeIn(x, l, y, k, |all|);
  }

  lemma Cut(x: seq<seq<Rail>>, y: seq<seq<Rail>>, z: seq<seq<Rail>>)
    requires x <= y && y <= z
    ensures x <= z && z[|x|..] == y[|x|..] + z[|y|..]
  {
  }

  lemma FollowsOn(a: State, m: State, b: State)
    requires Follows(a, m) && Follows(m, b)
    ensures Follows(a, b)
  {
    hide Paced;
    Cut(a.history, m.history, b.history);
    PacedOn(a.rail, m.history[|a.history|..], m.rail, b.history[|m.history|..], b.rail);
  }

  lemma FollowsItself(a: State, b: State)
    requires b.rail == a.rail && b.history == a.history
    ensures Follows(a, b)
  {
  }

  lemma WriteFollows(s: State, d: nat, r: Rail)
    requires d < |s.rail| && Next(s.rail[d], r)
    ensures Follows(s, s.Write(d, r))
  {
    var now := s.Write(d, r);
    assert now.history[|s.history|..] == [now.rail];
    assert Next(s.rail[d], now.rail[d]) && now.rail == s.rail[d := now.rail[d]];
  }

  /** A domain has power exactly while it is counted. */
  ghost predicate InStep(s: State) {
    && |s.cnt| == |s.rail|
    && forall x :: 0 <= x < |s.cnt| ==> s.cnt[x] >= 0 && s.rail[x] == (if s.cnt[x] > 0 then Powered else Off)
  }

  lemma RaiseFollows(s: State, d: nat)
    requires InStep(s) && d < |s.cnt|
    ensures InStep(Raise(s, d)) && Follows(s, Raise(s, d))
  {
    hide Follows;
    var up := s.Count(d, s.cnt[d] + 1);
    FollowsItself(s, up);
    if up.cnt[d] == 1 {
      WriteFollows(up, d, Clocked);
      WriteFollows(up.Write(d, Clocked), d, Powered);
      FollowsOn(s, up, up.Write(d, Clocked));
      FollowsOn(s, up.Write(d, Clocked), Raise(s, d));
    }
  }

  lemma {:induction false} EnableFollows(g: Graph, s: State, d: nat)
    requires g.Valid() && s.Sized(g.Size()) && d < g.Size() && InStep(s)
    ensures InStep(Enable(g, s, d)) && Follows(s, Enable(g, s, d))
    decreases g.rank[d] + 1, 0
  {
    hide Follows, InStep, Raise;
    var mid := EnableAll(g, s, g.masters[d], g.rank[d]);
    EnableAllFollows(g, s, g.masters[d], g.rank[d]);
    RaiseFollows(mid, d);
    FollowsOn(s, mid, Raise(mid, d));
  }

  lemma {:induction false} EnableAllFollows(g: Graph, s: State, ms: seq<nat>, bound: nat)
    requires g.Valid() && s.Sized(g.Size()) && Below(g, ms, bound) && InStep(s)
    ensures InStep(EnableAll(g, s, ms, bound)) && Follows(s, EnableAll(g, s, ms, bound))
    decreases bound, |ms|
  {
    hide Follows, InStep, Enable;
    FollowsItself(s, s);
    if ms != [] {
      var i := |ms| - 1;
      var mid := EnableAll(g, s, ms[..i], bound);
      EnableAllFollows(g, s, ms[..i], bound);
      EnableFollows(g, mid, ms[i]);
      FollowsOn(s, mid, Enable(g, mid, ms[i]));
    }
  }

  /** The write part of a release. */
  lemma LoweredFollows(s: State, d: nat)
    requires InStep(s) && d < |s.cnt| && s.cnt[d] > 0
    ensures var down := s.Count(d, s.cnt[d] - 1);
      && Follows(s, down)
      && (down.cnt[d] != 0 ==> InStep(down))
      && (down.cnt[d] == 0 ==>
            InStep(down.Write(d, Clocked).Write(d, Off)) && Follows(s, down.Write(d, Clocked).Write(d, Off)))
  {
    hide Follows;
    var down := s.Count(d, s.cnt[d] - 1);
    FollowsItself(s, down);
    if down.cnt[d] == 0 {
      WriteFollows(down, d, Clocked);
      WriteFollows(down.Write(d, Clocked), d, Off);
      FollowsOn(s, down, down.Write(d, Clocked));
      FollowsOn(s, down.Write(d, Clocked), down.Write(d, Clocked).Write(d, Off));
    }
  }

  /** Held or not, accepted or refused. */
  lemma {:induction false} DisableFollows(g: Graph, s: State, d: nat)
    requires g.Valid() && s.Sized(g.Size()) && d < g.Size() && InStep(s)
    ensures Follows(s, Disable(g, s, d).s) && (Disable(g, s, d).ok ==> InStep(Disable(g, s, d).s))
    decreases g.rank[d] + 1, 0
  {
    hide Follows, InStep, DisableAll, SlaveOn;
    FollowsItself(s, s);
    if s.cnt[d] > 0 {
      LoweredFollows(s, d);
      var down := s.Count(d, s.cnt[d] - 1);
      if down.cnt[d] != 0 {
        DisableAllFollows(g, down, g.masters[d], g.rank[d]);
        FollowsOn(s, down, DisableAll(g, down, g.masters[d], g.rank[d]).s);
      } else if !SlaveOn(g, down.cnt, d) {
        var off := down.Write(d, Clocked).Write(d, Off);
        DisableAllFollows(g, off, g.masters[d], g.rank[d]);
        FollowsOn(s, off, DisableAll(g, off, g.masters[d], g.rank[d]).s);
      }
    }
  }

  lemma {:induction false} DisableAllFollows(g: Graph, s: State, ms: seq<nat>, bound: nat)
    requires g.Valid() && s.Sized(g.Size()) && Below(g, ms, bound) && InStep(s)
    ensures Follows(s, DisableAll(g, s, ms, bound).s)
    ensures DisableAll(g, s, ms, bound).ok ==> InStep(DisableAll(g, s, ms, bound).s)
    decreases bound, |ms|
  {
    hide Follows, InStep, Disable;
    FollowsItself(s, s);
    if ms != [] {
      var i := |ms| - 1;
      var mid := DisableAll(g, s, ms[..i], bound);
      DisableAllFollows(g, s, ms[..i], bound);
      if mid.ok {
        DisableFollows(g, mid.s, ms[i]);
        FollowsOn(s, mid.s, Disable(g, mid.s, ms[i]).s);
      }
    }
  }

  /** In every run, whoever releases what, each hardware state follows from the one before by one
      write to one domain, between off and clock on or between clock on and power on. */
  lemma {:induction false} RunPaces(g: Graph, ops: seq<Op>)
    requires g.Valid() && InRange(g, ops)
    ensures Paced(AllOff(g.Size()).rail, Run(g, ops).s.history, Run(g, ops).s.rail)
    ensures Run(g, ops).ok ==> InStep(Run(g, ops).s)
  {
    hide OneStep, Enable, Disable;
    if ops != [] {
      var init, op := ops[..|ops| - 1], ops[|ops| - 1];
      RunPaces(g, init);
      var prev := Run(g, init);
      var none := AllOff(g.Size());
      FollowsAll(none, prev.s);
      if prev.ok {
        if op.Take? {
          EnableFollows(g, prev.s, op.d);
        } else {
          DisableFollows(g, prev.s, op.d);
        }
        FollowsOn(none, prev.s, Run(g, ops).s);
      }
      FollowsAll(none, Run(g, ops).s);
    }
  }

  lemma FollowsAll(none: State, s: State)
    requires none.history == []
    ensures Follows(none, s) <==> Paced(none.rail, s.history, s.rail)
  {
    assert s.history[0..] == s.history;
  }

  const FORK := Graph([[], [0], [0]], [[1, 2], [], []], [0, 1, 1])

  lemma ForkIsValid()
    ensures FORK.Valid()
  {
    forall d, x | 0 <= d < 3 && 0 <= x < 3 ensures Count(FORK.masters[d], x) == Count(FORK.slaves[x], d) {
      assert FORK.slaves[0][..1] == [1] && FORK.slaves[0][..1][..0] == [] && [0][..0] == [] && [1][..0] == [];
    }
  }

  lemma ForkCounts(s: State)
    requires Good(FORK, s, [0, 1, 1])
    ensures s.cnt == [2, 1, 1]
  {
    hide Ordered;
    var ss := FORK.slaves[0];
    assert ss[..|ss| - 1] == [1] && [1][..0] == [];
    assert Demand([1], s.cnt) == s.cnt[1];
    assert Demand(ss, s.cnt) == s.cnt[1] + s.cnt[2];
    assert Demand(FORK.slaves[1], s.cnt) == 0 && Demand(FORK.slaves[2], s.cnt) == 0;
  }

  /** Two domains under domain 0 are enabled, and somebody who holds no vote on 0 releases it:
      that is accepted, although it was not held. */
  lemma UnheldRelease()
    ensures var ops := [Take(1), Take(2)];
      && FORK.Valid() && InRange(FORK, ops) && OnlyHeld(3, ops) && Ledger(3, ops)[0] == 0
      && Run(FORK, ops).s.cnt == [2, 1, 1] && Run(FORK, ops + [Release(0)]).ok
  {
    hide Run;
    ForkIsValid();
    var ops := [Take(1), Take(2)];
    assert ops[..1] == [Take(1)] && ops[..1][..0] == [];
    assert Ledger(3, []) == [0, 0, 0] && Ledger(3, [Take(1)]) == [0, 1, 0] && Ledger(3, ops) == [0, 1, 1];
    RunKeeps(FORK, ops);
    ForkCounts(Run(FORK, ops).s);
    FirstBadRelease(FORK, ops, 0);
  }

  // ---------------------------------------------------------------- the provider

  const NR_PD: nat := 64
  const MAX_LINK: nat := 10
  const EINVAL: int := 22
  const EINVSTEP: int := 5

  /** No domain has more links of either kind than its arrays have entries. */
  ghost predicate LinksFit(links: seq<Link>, n: nat) {
    forall d :: 0 <= d < n ==> |MastersOf(links, d)| <= 10 && |SlavesOf(links, d)| <= 10
  }

  lemma {:induction false} FewerBefore(links: seq<Link>, d: nat, j: nat)
    requires j <= |links|
    ensures |MastersOf(links[..j], d)| <= |MastersOf(links, d)| && |SlavesOf(links[..j], d)| <= |SlavesOf(links, d)|
    decreases |links|
  {
    if j == |links| {
      assert links[..j] == links;
    } else {
      var init := links[..|links| - 1];
      FewerBefore(init, d, j);
      assert init[..j] == links[..j];
    }
  }

  /** So a link, when it comes, finds room behind those before it. */
  lemma LinkFits(links: seq<Link>, n: nat, d: nat, j: nat)
    requires LinksFit(links, n) && d < n && j < |links|
    ensures MastersOf(links[..j + 1], d) == MastersOf(links[..j], d) + (if links[j].sub == d then [links[j].origin] else [])
    ensures SlavesOf(links[..j + 1], d) == SlavesOf(links[..j], d) + (if links[j].origin == d then [links[j].sub] else [])
    ensures links[j].sub == d ==> |MastersOf(links[..j], d)| < MAX_LINK
    ensures links[j].origin == d ==> |SlavesOf(links[..j], d)| < MAX_LINK
  {
    FewerBefore(links, d, j + 1);
    assert links[..j + 1][..j] == links[..j];
  }

  /** The provider table: counters in memory, rails in hardware. */
  class Provider {
    var masters: seq<seq<nat>>
    var slaves: seq<seq<nat>>
    var enableCnt: seq<int>
    var rail: seq<Rail>
    ghost var rank: seq<nat>
    ghost var history: seq<seq<Rail>>

    ghost function Tables(): Graph
      reads this
    {
      Graph(masters, slaves, rank)
    }

    ghost function Now(): State
      reads this
    {
      State(enableCnt, rail, history)
    }

    ghost predicate Valid()
      reads this
    {
      Tables().Valid() && Now().Sized(Tables().Size())
    }

    /** A provider with no domains yet. */
    constructor ()
      ensures Valid() && Tables().Size() == 0
    {
      masters, slaves, enableCnt, rail, rank, history := [], [], [], [], [], [];
    }

    /** Builds both link tables in one pass over the links for every domain.  A domain has room
        for MAX_LINK of either kind, which nothing checks: the links must keep to it, and then
        every store stays within it. */
    method AddProvider(numPds: nat, links: seq<Link>, ghost order: seq<nat>) returns (ret: int)
      requires |order| == numPds
      requires forall l :: l in links ==> l.origin < numPds && l.sub < numPds && order[l.origin] < order[l.sub]
      requires numPds <= 64 ==> LinksFit(links, numPds)
      modifies this
      ensures numPds > 64 ==> ret == -22 && Tables() == old(Tables()) && Now() == old(Now())
      ensures numPds <= 64 ==> ret == 0 && Valid() && Now() == AllOff(numPds)
      ensures numPds <= 64 ==> |masters| == |slaves| == numPds
      ensures numPds <= 64 ==> forall d :: 0 <= d < numPds ==>
                masters[d] == MastersOf(links, d) && slaves[d] == SlavesOf(links, d)
    {
      if numPds > NR_PD {
        return -EINVAL;
      }
      masters, slaves := [], [];
      for i := 0 to numPds
        invariant |masters| == |slaves| == i
        invariant forall d :: 0 <= d < i ==>
                    masters[d] == MastersOf(links, d) && slaves[d] == SlavesOf(links, d)
      {
        var m: seq<nat>, s: seq<nat> := [], [];
        for j := 0 to |links|
          invariant m == MastersOf(links[..j], i) && s == SlavesOf(links[..j], i)
          modifies {}
        {
          LinkFits(links, numPds, i, j);
          if links[j].sub == i {
            assert |m| < MAX_LINK;
            m := m + [links[j].origin];
          }
          if links[j].origin == i {
            assert |s| < MAX_LINK;
            s := s + [links[j].sub];
          }
        }
        assert links[..|links|] == links;
        masters, slaves := masters + [m], slaves + [s];
      }
      enableCnt, rail := seq(numPds, _ => 0), seq(numPds, _ => Off);
      rank, history := order, [];
      TablesValid(links, Tables());
      ret := 0;
    }

    method WriteRail(d: nat, r: Rail)
      requires d < |rail|
      modifies this`rail, this`history
      ensures Now() == old(Now()).Write(d, r)
    {
      rail := rail[d := r];
      history := history + [rail];
    }

    method EnableNolock(d: nat)
      requires Valid() && d < |masters|
      modifies this`enableCnt, this`rail, this`history
      ensures Valid() && Now() == Enable(Tables(), old(Now()), d)
      decreases rank[d] + 1, 0
    {
      for i := 0 to |masters[d]|
        invariant Valid()
        invariant Now() == EnableAll(Tables(), old(Now()), masters[d][..i], rank[d])
      {
        assert masters[d][..i + 1][..i] == masters[d][..i];
        EnableNolock(masters[d][i]);
      }
      assert masters[d][..|masters[d]|] == masters[d];
      enableCnt := enableCnt[d := enableCnt[d] + 1];
      if enableCnt[d] != 1 {
        return;
      }
      WriteRail(d, Clocked);
      WriteRail(d, Powered);
    }

    method DisableNolock(d: nat) returns (ret: int)
      requires Valid() && d < |masters|
      modifies this`enableCnt, this`rail, this`history
      ensures Valid() && Outcome(Now(), ret == 0) == Disable(Tables(), old(Now()), d)
      ensures ret == 0 || ret == -5
      decreases rank[d] + 1, 0
    {
      if enableCnt[d] <= 0 {
        return -EINVSTEP;
      }
      enableCnt := enableCnt[d := enableCnt[d] - 1];
      if enableCnt[d] == 0 {
        var on := AnySlaveOn(d);
        if on {
          return -EINVSTEP;
        }
        WriteRail(d, Clocked);
        WriteRail(d, Off);
      }
      ret := DisableMasters(d);
    }

    method AnySlaveOn(d: nat) returns (on: bool)
      requires Valid() && d < |masters|
      ensures on <==> SlaveOn(Tables(), enableCnt, d)
    {
      for i := 0 to |slaves[d]|
        invariant forall j :: 0 <= j < i ==> enableCnt[slaves[d][j]] <= 0
      {
        if enableCnt[slaves[d][i]] > 0 {
          return true;
        }
      }
      on := false;
    }

    method DisableMasters(d: nat) returns (ret: int)
      requires Valid() && d < |masters|
      modifies this`enableCnt, this`rail, this`history
      ensures Valid()
      ensures Outcome(Now(), ret == 0) == DisableAll(Tables(), old(Now()), masters[d], rank[d])
      ensures ret == 0 || ret == -5
      decreases rank[d], |masters[d]| + 1
    {
      for i := 0 to |masters[d]|
        invariant Valid()
        invariant DisableAll(Tables(), old(Now()), masters[d][..i], rank[d]) == Outcome(Now(), true)
      {
        assert masters[d][..i + 1][..i] == masters[d][..i];
        ret := DisableNolock(masters[d][i]);
        if ret != 0 {
          DisableAllStops(Tables(), old(Now()), masters[d], rank[d], i + 1);
          return;
        }
      }
      assert masters[d][..|masters[d]|] == masters[d];
      ret := 0;
    }
  }

  /** Once a master refuses, the rest of the list is not visited. */
  lemma {:induction false} DisableAllStops(g: Graph, s: State, ms: seq<nat>, bound: nat, i: nat)
    requires g.Valid() && s.Sized(g.Size()) && Below(g, ms, bound) && i <= |ms|
    requires !DisableAll(g, s, ms[..i], bound).ok
    ensures DisableAll(g, s, ms, bound) == DisableAll(g, s, ms[..i], bound)
    decreases |ms|
  {
    if i < |ms| {
      var init := ms[..|ms| - 1];
      assert init[..i] == ms[..i];
      DisableAllStops(g, s, init, bound, i);
    } else {
      assert ms[..i] == ms;
    }
  }
}
