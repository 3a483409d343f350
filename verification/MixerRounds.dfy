/** The rounds of a mixer target over whole interleavings: which paths a round takes a buffer
    from, and what the mixing thread waits, sleeps and ends for. */
module MixerRounds {

  import opened MixerWakeup
  import opened MixerMoves

  // ---------------------------------------------------------------- what a round takes

  /** The paths looked at since the last round began. */
  ghost function LookedIn(tr: Trace): set<Pid> {
    match tr
    case Nil => {}
    case Then(before, a) =>
      if a == OfMix(Start) then {}
      else LookedIn(before) + if a.OfMix? && a.mix.Check? then {a.mix.p} else {}
  }

  /** Those among them that were started and held a target buffer then. */
  ghost function JoinedIn(c: Config, tr: Trace): set<Pid> {
    match tr
    case Nil => {}
    case Then(before, a) =>
      if a == OfMix(Start) then {}
      else JoinedIn(c, before) + if Run(c, before).Some? then Joins(c, Run(c, before).value, a) else {}
  }

  ghost function Joins(c: Config, s: State, a: Act): set<Pid> {
    if a.OfMix? && a.mix.Check? && a.mix.p in s.paths && s.paths[a.mix.p].start && s.paths[a.mix.p].count >= c.T
    then {a.mix.p} else {}
  }

  /** The paths that a buffer was taken from since then, as often as that happened. */
  ghost function TakenFrom(tr: Trace): multiset<Pid> {
    match tr
    case Nil => multiset{}
    case Then(before, a) =>
      if a == OfMix(Start) then multiset{}
      else TakenFrom(before) + if a.OfMix? && a.mix.One? then multiset{a.mix.p} else multiset{}
  }

  ghost predicate Round(s: State, looked: set<Pid>, joined: set<Pid>, taken: multiset<Pid>) {
    match s.m
    case Checking(_, unseen, chosen) =>
      chosen == joined && taken == multiset{} && unseen + looked == s.paths.Keys && unseen !! looked
    case Mixing(todo) =>
      multiset(joined) == taken + multiset(todo) && joined != {} && looked == s.paths.Keys
    case Writing => multiset(joined) == taken && joined != {}
    case _ => true
  }

  lemma StartRound(s: State)
    requires MixStart(s).Some?
    ensures Round(MixStart(s).value, {}, {}, multiset{})
  {
  }

  lemma CheckRound(c: Config, s: State, p: Pid, looked: set<Pid>, joined: set<Pid>, taken: multiset<Pid>)
    requires MixCheck(c, s, p).Some? && Round(s, looked, joined, taken)
    ensures Round(MixCheck(c, s, p).value, looked + {p}, joined + Joins(c, s, OfMix(Check(p))), taken)
  {
    hide HoldsPathLock;
  }

  lemma CheckEndRound(s: State, looked: set<Pid>, joined: set<Pid>, taken: multiset<Pid>)
    requires MixCheckEnd(s).Some? && Round(s, looked, joined, taken)
    ensures Round(MixCheckEnd(s).value, looked, joined, taken)
  {
  }

  lemma OneRound(c: Config, s: State, p: Pid, looked: set<Pid>, joined: set<Pid>, taken: multiset<Pid>)
    requires MixOne(c, s, p).Some? && Round(s, looked, joined, taken)
    ensures Round(MixOne(c, s, p).value, looked, joined, taken + multiset{p})
  {
    hide HoldsPathLock;
    var todo := s.m.todo;
    assert multiset(todo) == multiset(todo - {p}) + multiset{p};
  }

  lemma MixRound(c: Config, s: State, b: MixAct, looked: set<Pid>, joined: set<Pid>, taken: multiset<Pid>)
    requires MixStep(c, s, b).Some? && Round(s, looked, joined, taken) && !b.Start?
    ensures Round(MixStep(c, s, b).value, looked + (if b.Check? then {b.p} else {}),
                  joined + Joins(c, s, OfMix(b)), taken + if b.One? then multiset{b.p} else multiset{})
  {
    hide MixStart, MixCheck, MixCheckEnd, MixOne;
    match b
    case Check(p) => CheckRound(c, s, p, looked, joined, taken);
    case CheckEnd =>
      CheckEndRound(s, looked, joined, taken);
      NothingMore(looked, joined, taken);
    case One(p) =>
      OneRound(c, s, p, looked, joined, taken);
      NothingMore(looked, joined, taken);
    case _ => NothingMore(looked, joined, taken);
  }

  lemma NothingMore(looked: set<Pid>, joined: set<Pid>, taken: multiset<Pid>)
    ensures looked + {} == looked && joined + {} == joined && taken + multiset{} == taken
  {
  }

  lemma KeysKept(c: Config, s: State, a: Act)
    requires Next(c, s, a).Some? && s.list == ByMixer && !a.OfMix?
    ensures Next(c, s, a).value.paths.Keys == s.paths.Keys
  {
    hide WaitStep, LeaveStep, WriteStep, ProbeStep, Choose, LookAt;
    match a
    case OfWait(b) => WaitAlike(s, b);
    case OfLeaver(b) => LeaveAlike(s, b);
    case OfManager(b) =>
    case OfChoose(q) => WriterAlike(c, s, q);
    case OfProbe(q, _) => WriterAlike(c, s, q);
    case OfWrite(q, _) => WriterAlike(c, s, q);
  }

  lemma WaitIsElsewhere(s: State, b: WaitAct)
    requires WaitStep(s, b).Some?
    ensures var m := WaitStep(s, b).value.m; !m.Checking? && !m.Mixing? && m != Writing
  {
    hide LookAt;
  }

  lemma MixerHoldsList(c: Config, s: State)
    requires Invariant(c, s) && (s.m.Checking? || s.m.Mixing?)
    ensures s.list == ByMixer
  {
  }

  /** In every interleaving a round looks at every path once the list is locked, and what it
      writes was made of exactly one buffer of each path that was started and full at its turn,
      one path at least. */
  lemma {:induction false} RoundIs(c: Config, tr: Trace)
    requires c.Valid() && Run(c, tr).Some?
    ensures Round(Run(c, tr).value, LookedIn(tr), JoinedIn(c, tr), TakenFrom(tr))
  {
    hide Next, Round, Joins, MixStep, MixStart;
    if tr.Nil? {
      AtFirst();
    } else {
      var s := Run(c, tr.before).value;
      RunKeeps(c, tr.before);
      RoundIs(c, tr.before);
      RoundGoesOn(c, s, tr.act, LookedIn(tr.before), JoinedIn(c, tr.before), TakenFrom(tr.before));
    }
  }

  lemma AtFirst()
    ensures Round(START, {}, {}, multiset{})
  {
  }

  lemma RoundGoesOn(c: Config, s: State, a: Act, looked: set<Pid>, joined: set<Pid>, taken: multiset<Pid>)
    requires Invariant(c, s) && Next(c, s, a).Some? && Round(s, looked, joined, taken)
    ensures var t := Next(c, s, a).value;
            if a == OfMix(Start) then Round(t, {}, {}, multiset{})
            else Round(t, looked + (if a.OfMix? && a.mix.Check? then {a.mix.p} else {}), joined + Joins(c, s, a),
                       taken + if a.OfMix? && a.mix.One? then multiset{a.mix.p} else multiset{})
  {
    hide Invariant, MixStep, MixStart, WaitStep, Round;
    if a == OfMix(Start) {
      StartsARound(c, s);
    } else if a.OfMix? {
      MixRound(c, s, a.mix, looked, joined, taken);
    } else {
      NothingMore(looked, joined, taken);
      KeepsRound(c, s, a, looked, joined, taken);
    }
  }

  lemma StartsARound(c: Config, s: State)
    requires MixStep(c, s, Start).Some?
    ensures Round(MixStep(c, s, Start).value, {}, {}, multiset{})
  {
    StartRound(s);
  }

  lemma KeepsRound(c: Config, s: State, a: Act, looked: set<Pid>, joined: set<Pid>, taken: multiset<Pid>)
    requires Invariant(c, s) && Next(c, s, a).Some? && !a.OfMix? && Round(s, looked, joined, taken)
    ensures Round(Next(c, s, a).value, looked, joined, taken)
  {
    hide Invariant, Next;
    var t := Next(c, s, a).value;
    if a.OfWait? {
      WaitActIs(c, s, a);
      WaitIsElsewhere(s, a.wait);
    } else {
      OthersWait(c, s, a);
      if s.m.Checking? || s.m.Mixing? {
        MixerHoldsList(c, s);
        KeysKept(c, s, a);
      }
    }
  }

  lemma WaitActIs(c: Config, s: State, a: Act)
    requires a.OfWait?
    ensures Next(c, s, a) == WaitStep(s, a.wait)
  {
  }

  // ---------------------------------------------------------------- what the mixing thread does it for

  /** It gives up a wait only when the target goes away or the time has run out, falls asleep
      without a time-out exactly in direct mode, and never so when the target is to go away. */
  ghost predicate Reasoned(s: State, b: WaitAct, t: State) {
    && (t.m == Returned(false) ==> s.Exit() || b == Arm(false))
    && (t.m.Blocked? ==> t.m.untimed == s.direct && !(s.direct && s.Exit()) && t.wait && t.mix == Free)
    && (b == Arm(true) ==> t.m == if s.direct && s.Exit() then Returned(false) else Blocked(s.direct))
    && (b == Arm(false) ==> t.m == Returned(false))
    && (b == After ==> (t.m.Scanning? <==> !s.Exit() && !s.direct) && (t.m.Blocked? <==> !s.Exit() && s.direct))
    && (BeginsScan(OfWait(b)) && t.m.Scanning? ==> t.m == Scanning(s.paths.Keys, false) && t.mix == ByMixer)
    && (b == Lock || b == Pass ==> t.m.Scanning?)
  }

  lemma WaitReasons(s: State, b: WaitAct)
    requires ThreadsOk(s) && WaitStep(s, b).Some?
    ensures Reasoned(s, b, WaitStep(s, b).value)
  {
    hide LookAt;
    match b
    case Scan(p) =>
    case _ =>
  }

  /** It ends exactly when the target goes away, and mixes exactly when the target was started and
      goes on; what found nothing to mix waits again and writes nothing. */
  lemma RoundReasons(c: Config, s: State, b: MixAct)
    requires MixStep(c, s, b).Some?
    ensures var t := MixStep(c, s, b).value;
      && (b == Start ==> t.m == if s.Exit() then Exited else if !s.started then WantMix
                                else Checking(s.m.ready, s.paths.Keys, {}))
      && (t.m == Exited ==> b == Start)
      && (b == CheckEnd ==> t.m == if s.m.chosen == {} then WantMix else Mixing(s.m.chosen))
      && (b == Finish ==> t.m == WantMix)
  {
    hide HoldsPathLock;
    match b
    case Check(p) =>
    case One(p) =>
    case _ =>
  }

  // ---------------------------------------------------------------- who may begin when

  /** A write begins whenever the last one of its path has returned, and only a mute write to an
      underflown synchronous path is passed over. */
  lemma WritesBegin(c: Config, s: State, p: Pid)
    requires p in s.paths
    ensures Next(c, s, OfWrite(p, Begin)).Some? <==> s.paths[p].w == Idle
    ensures Next(c, s, OfWrite(p, SeeMute)).Some?
       <==> s.paths[p].w == Write && s.paths[p].mode == Sync && s.paths[p].underflow
    ensures Next(c, s, OfWrite(p, DirectGo)).Some? <==> s.paths[p].w == Direct && !s.directLock
    ensures Next(c, s, OfWrite(p, DirectGo)).Some? ==>
              var t := Next(c, s, OfWrite(p, DirectGo)).value; t.directLock && t.paths[p].w == InDirect
  {
  }

  /** Sources come whenever manager and list are free, without data and not started; they go, once
      their writers are away, under the same locks, and leave the others as they are but for the
      mode of a path left alone. */
  lemma SourcesComeAndGo(c: Config, s: State, p: Pid, mode: Mode, sync: bool)
    ensures Next(c, s, OfManager(In(p, mode, sync))).Some?
       <==> s.g == Rest && (s.leave == Staying || s.leave == Raised) && s.list == Free && p !in s.paths
    ensures Next(c, s, OfManager(In(p, mode, sync))).Some? ==>
              Next(c, s, OfManager(In(p, mode, sync))).value.paths
              == s.paths[p := Path(Idle, false, false, false, 0, mode, sync)]
    ensures Next(c, s, OfManager(Out(p, mode, sync))).Some?
       <==> s.g == Rest && (s.leave == Staying || s.leave == Raised) && s.list == Free
            && p in s.paths && s.paths[p].w == Idle
  {
  }

  lemma WhoStays(c: Config, s: State, p: Pid, mode: Mode, sync: bool)
    requires Next(c, s, OfManager(Out(p, mode, sync))).Some?
    ensures var t := Next(c, s, OfManager(Out(p, mode, sync))).value;
      && t.paths.Keys == s.paths.Keys - {p} && t.list == ByManager && t.g == Removed
      && forall q :: q in t.paths ==>
           t.paths[q] == if t.paths.Keys == {q} then s.paths[q].(mode := mode, sync := sync) else s.paths[q]
  {
    var left := Others(s.paths, p);
    var t := Next(c, s, OfManager(Out(p, mode, sync))).value;
    assert t.paths.Keys == left.Keys;
    forall q | q in t.paths
      ensures |left| == 1 <==> t.paths.Keys == {q}
    {
      Alone(t, q);
      assert |t.paths| == |t.paths.Keys| == |left.Keys| == |left|;
    }
  }
}
