/** What each flag and count of a mixer target turns on, step by step, and the bytes queued in its
    paths over whole interleavings: what is published is queued unless the queue is over its
    limit, and leaves it one target buffer at a time. */
module MixerMoves {

  import opened MixerWakeup

  // ---------------------------------------------------------------- one write

  lemma FlagsOf(c: Config, s: State, p: Pid)
    requires Invariant(c, s) && p in s.paths
    ensures c.Valid() && (s.paths[p].enough <==> s.paths[p].count >= c.T)
    ensures s.paths[p].w.Direct? || s.paths[p].w.InDirect? ==> s.paths[p].count == 0
  {
    assert PathOk(c, s.mix, s.wait, s.direct, p, s.paths[p]);
  }

  /** Every other path is left alone, and the rest of the target too. */
  ghost predicate OnlyPathOf(s: State, t: State, p: Pid) {
    && t == s.(paths := t.paths) && t.paths.Keys == s.paths.Keys
    && forall q :: q in s.paths && q != p ==> t.paths[q] == s.paths[q]
  }

  /** A write of n bytes: it is dropped exactly when the queue held more than eight target buffers,
      and the path is started and on the way to its signal exactly when one is queued then. */
  ghost predicate Written(c: Config, x: Path, n: nat, y: Path) {
    if x.count > 8 * c.T then y == x.(w := Idle)
    else
      && y.count == x.count + n && y.mode == x.mode && y.sync == x.sync
      && (y.count >= c.T ==> y.start && !y.underflow && y.enough && y.w == Signal)
      && (y.count < c.T ==> y.start == x.start && y.underflow == x.underflow && !y.enough && y.w == Release)
  }

  lemma LocalPublish(c: Config, x: Path, alone: bool, free: bool, n: nat)
    requires c.T > 0 && x.w == Write && n <= c.W && (x.enough <==> x.count >= c.T)
    ensures WriteLocal(c, alone, free, x, Publish(n)).Some?
    ensures Written(c, x, n, WriteLocal(c, alone, free, x, Publish(n)).value)
  {
  }

  /** A writer that has got so far is never kept from writing. */
  lemma PublishIs(c: Config, s: State, p: Pid, n: nat)
    requires Invariant(c, s) && p in s.paths && s.paths[p].w == Write && n <= c.W
    ensures Next(c, s, OfWrite(p, Publish(n))).Some?
    ensures var t := Next(c, s, OfWrite(p, Publish(n))).value;
            OnlyPathOf(s, t, p) && Written(c, s.paths[p], n, t.paths[p])
  {
    hide Invariant, WriteLocal;
    FlagsOf(c, s, p);
    LocalPublish(c, s.paths[p], |s.paths| == 1, !s.directLock, n);
  }

  /** Before it gets there: whoever is the only path, synchronous and empty, and only that, goes to
      the target directly. */
  lemma ChoiceIs(c: Config, s: State, p: Pid)
    requires p in s.paths && s.paths[p].w == Enter
    ensures Next(c, s, OfChoose(p)).Some? <==> s.mix == Free
    ensures s.mix == Free ==>
              var t := Next(c, s, OfChoose(p)).value;
              t.paths == s.paths[p := s.paths[p].(w := if MayGoDirect(s, p) then Direct else Indirect)]
  {
    Alone(s, p);
  }

  /** Any other write keeps to its mode, unless the path underflowed beside other paths: then a
      synchronous writer becomes unsynchronous. */
  lemma PrepareIs(c: Config, s: State, p: Pid, mode: Mode, sync: bool)
    requires p in s.paths && s.paths[p].w == Indirect
    ensures Next(c, s, OfWrite(p, Prepare(mode, sync))).Some?
    ensures var t := Next(c, s, OfWrite(p, Prepare(mode, sync))).value;
            var gives := sync && s.paths[p].underflow && s.paths.Keys != {p};
            && t.started && OnlyPathOf(s, t.(started := s.started), p)
            && t.paths[p] == s.paths[p].(w := Write, mode := if gives then Unsync else mode, sync := sync && !gives)
  {
    Alone(s, p);
  }

  /** The only path there is, synchronous and empty, may go to the target directly. */
  ghost predicate MayGoDirect(s: State, p: Pid) {
    p in s.paths && s.paths.Keys == {p} && s.paths[p].sync && s.paths[p].count == 0
  }

  lemma Alone(s: State, p: Pid)
    requires p in s.paths
    ensures |s.paths| == 1 <==> s.paths.Keys == {p}
  {
    if |s.paths| == 1 {
      OnlyPath(s, p);
    }
  }

  // ---------------------------------------------------------------- what moves a path

  /** What a step publishes to the path and the queue takes. */
  ghost function Taken(c: Config, p: Pid, count: int, a: Act): nat {
    if a.OfWrite? && a.p == p && a.write.Publish? && count <= 8 * c.T then a.write.n else 0
  }

  /** What a step of the mix takes out of the queue. */
  ghost function Mixed(c: Config, p: Pid, a: Act): nat {
    if a == OfMix(One(p)) then c.T else 0
  }

  /** A write that leaves a target buffer in the queue, or goes to the target directly. */
  ghost predicate Starts(c: Config, p: Pid, x: Path, a: Act) {
    || a == OfWrite(p, DirectGo)
    || (a.OfWrite? && a.p == p && a.write.Publish? && x.count <= 8 * c.T && x.count + a.write.n >= c.T)
  }

  /** The mix finds the started path without a buffer. */
  ghost predicate RunsDry(c: Config, p: Pid, x: Path, a: Act) {
    a == OfMix(Check(p)) && x.start && x.count < c.T
  }

  /** Everything that any thread can do to a path that stays attached, flag by flag. */
  ghost predicate Moved(c: Config, p: Pid, x: Path, a: Act, y: Path) {
    && y.start == (Starts(c, p, x, a) || (x.start && !RunsDry(c, p, x, a) && a != OfWrite(p, MuteEnd)))
    && y.underflow == (RunsDry(c, p, x, a) || (x.underflow && !Starts(c, p, x, a)))
    && y.enough == (y.count >= c.T)
    && y.count == x.count + Taken(c, p, x.count, a) - Mixed(c, p, a)
  }

  lemma WriterMoves(c: Config, s: State, p: Pid, b: WriteAct, q: Pid)
    requires Invariant(c, s) && p in s.paths && q in s.paths && WriteStep(c, s, p, b).Some?
    ensures q in WriteStep(c, s, p, b).value.paths
    ensures Moved(c, q, s.paths[q], OfWrite(p, b), WriteStep(c, s, p, b).value.paths[q])
  {
    hide Invariant;
    FlagsOf(c, s, p);
    FlagsOf(c, s, q);
  }

  lemma MixTakes(c: Config, s: State, p: Pid)
    requires Invariant(c, s) && MixOne(c, s, p).Some?
    ensures p in s.paths && s.paths[p].count >= c.T
  {
  }

  lemma OneMixes(c: Config, s: State, p: Pid, q: Pid)
    requires Invariant(c, s) && q in s.paths && MixOne(c, s, p).Some?
    ensures q in MixOne(c, s, p).value.paths
    ensures Moved(c, q, s.paths[q], OfMix(One(p)), MixOne(c, s, p).value.paths[q])
  {
    hide Invariant, HoldsPathLock;
    FlagsOf(c, s, q);
    MixTakes(c, s, p);
  }

  lemma CheckIs(c: Config, s: State, p: Pid)
    requires MixCheck(c, s, p).Some?
    ensures var t := MixCheck(c, s, p).value;
            && p in s.paths && t == s.(m := t.m, paths := t.paths) && t.m.Checking?
            && t.paths == s.paths[p := if RunsDry(c, p, s.paths[p], OfMix(Check(p)))
                                       then s.paths[p].(start := false, underflow := true) else s.paths[p]]
  {
    hide HoldsPathLock;
    assert s.paths[p := s.paths[p]] == s.paths;
  }

  lemma OneChecks(c: Config, s: State, p: Pid, q: Pid)
    requires Invariant(c, s) && q in s.paths && MixCheck(c, s, p).Some?
    ensures q in MixCheck(c, s, p).value.paths
    ensures Moved(c, q, s.paths[q], OfMix(Check(p)), MixCheck(c, s, p).value.paths[q])
  {
    hide Invariant, MixCheck;
    FlagsOf(c, s, q);
    CheckIs(c, s, p);
  }

  lemma MixMoves(c: Config, s: State, b: MixAct, q: Pid)
    requires Invariant(c, s) && q in s.paths && MixStep(c, s, b).Some?
    ensures q in MixStep(c, s, b).value.paths
    ensures Moved(c, q, s.paths[q], OfMix(b), MixStep(c, s, b).value.paths[q])
  {
    hide Invariant, MixStart, MixCheck, MixCheckEnd, MixOne, MixEnd, MixFinish;
    match b
    case One(p) => OneMixes(c, s, p, q);
    case Check(p) => OneChecks(c, s, p, q);
    case _ =>
      FlagsOf(c, s, q);
      MixKeepsPaths(c, s, b);
  }

  lemma MixKeepsPaths(c: Config, s: State, b: MixAct)
    requires MixStep(c, s, b).Some? && !b.Check? && !b.One?
    ensures MixStep(c, s, b).value.paths == s.paths
  {
  }

  /** Nothing of the path has changed but its writer and the choice of its mode. */
  ghost predicate Alike(x: Path, y: Path) {
    y == x.(w := y.w, mode := y.mode, sync := y.sync)
  }

  lemma WaitAlike(s: State, b: WaitAct)
    requires WaitStep(s, b).Some?
    ensures WaitStep(s, b).value.paths == s.paths
  {
    hide LookAt;
  }

  lemma LeaveAlike(s: State, b: LeaveAct)
    requires LeaveStep(s, b).Some?
    ensures LeaveStep(s, b).value.paths == s.paths
  {
  }

  /** A writer alone moves on. */
  lemma OneMoves(before: map<Pid, Path>, after: map<Pid, Path>, q: Pid, v: Writer, p: Pid)
    requires p in before && q in before && after == before[q := before[q].(w := v)]
    ensures p in after && Alike(before[p], after[p])
  {
  }

  lemma ChooseAlike(s: State, q: Pid, p: Pid)
    requires q in s.paths && p in s.paths && Choose(s, q).Some?
    ensures p in Choose(s, q).value.paths && Alike(s.paths[p], Choose(s, q).value.paths[p])
  {
    hide Alike;
    OneMoves(s.paths, Choose(s, q).value.paths, q,
             if |s.paths| == 1 && s.paths[q].sync && s.paths[q].count == 0 then Direct else Indirect, p);
  }

  lemma LookAlike(s: State, q: Pid, r: Pid, p: Pid)
    requires q in s.paths && p in s.paths && ProbeLook(s, q, r).Some?
    ensures p in ProbeLook(s, q, r).value.paths && Alike(s.paths[p], ProbeLook(s, q, r).value.paths[p])
  {
    hide Alike, LookAt;
    var v := s.paths[q].w;
    OneMoves(s.paths, ProbeLook(s, q, r).value.paths, q,
             if LookAt(s, r).Short? then Release else Probe(v.unseen - {r}, v.found || LookAt(s, r).Enough?), p);
  }

  lemma ProbeAlike(s: State, q: Pid, b: ScanAct, p: Pid)
    requires q in s.paths && p in s.paths && ProbeStep(s, q, b).Some?
    ensures p in ProbeStep(s, q, b).value.paths && Alike(s.paths[p], ProbeStep(s, q, b).value.paths[p])
  {
    hide Alike, LookAt, ProbeLook;
    match b
    case Take => OneMoves(s.paths, ProbeTake(s, q).value.paths, q, if s.wait then Probe(s.paths.Keys, false) else Release, p);
    case LookOne(r) => LookAlike(s, q, r, p);
    case Verdict => OneMoves(s.paths, ProbeVerdict(s, q).value.paths, q, Release, p);
  }

  lemma DetachAlike(s: State, q: Pid, mode: Mode, sync: bool, p: Pid)
    requires p in s.paths && Detach(s, q, mode, sync).Some?
    ensures p !in Detach(s, q, mode, sync).value.paths <==> q == p
    ensures p in Detach(s, q, mode, sync).value.paths ==> Alike(s.paths[p], Detach(s, q, mode, sync).value.paths[p])
  {
  }

  lemma ManagerAlike(s: State, b: ManageAct, p: Pid)
    requires p in s.paths && ManagerStep(s, b).Some?
    ensures p !in ManagerStep(s, b).value.paths <==> b.Out? && b.p == p
    ensures p in ManagerStep(s, b).value.paths ==> Alike(s.paths[p], ManagerStep(s, b).value.paths[p])
  {
    hide LookAt, Detach;
    if b.Out? {
      DetachAlike(s, b.p, b.mode, b.sync, p);
    }
  }

  /** No other step touches what a path holds or its flags, and only a detach takes it out. */
  lemma OthersMove(c: Config, s: State, a: Act, p: Pid)
    requires p in s.paths && !a.OfMix? && !a.OfWrite? && Next(c, s, a).Some?
    ensures p !in Next(c, s, a).value.paths <==> a.OfManager? && a.manage.Out? && a.manage.p == p
    ensures p in Next(c, s, a).value.paths ==> Alike(s.paths[p], Next(c, s, a).value.paths[p])
  {
    hide WaitStep, Choose, ProbeStep, ManagerStep, LeaveStep;
    match a
    case OfWait(b) => WaitAlike(s, b);
    case OfChoose(q) => ChooseAlike(s, q, p);
    case OfProbe(q, b) => ProbeAlike(s, q, b, p);
    case OfManager(b) => ManagerAlike(s, b, p);
    case OfLeaver(b) => LeaveAlike(s, b);
  }

  lemma PathMoves(c: Config, s: State, a: Act, p: Pid)
    requires Invariant(c, s) && Next(c, s, a).Some? && p in s.paths && p in Next(c, s, a).value.paths
    ensures Moved(c, p, s.paths[p], a, Next(c, s, a).value.paths[p])
  {
    hide Invariant, WriteStep, MixStep, Moved;
    match a
    case OfWrite(q, b) => WriterMoves(c, s, q, b, p);
    case OfMix(b) => MixMoves(c, s, b, p);
    case _ =>
      OthersMove(c, s, a, p);
      SameFlags(c, s, p, a, Next(c, s, a).value.paths[p]);
  }

  lemma SameFlags(c: Config, s: State, p: Pid, a: Act, y: Path)
    requires Invariant(c, s) && p in s.paths && !a.OfMix? && !a.OfWrite?
    requires Alike(s.paths[p], y)
    ensures Moved(c, p, s.paths[p], a, y)
  {
    hide Invariant;
    FlagsOf(c, s, p);
  }

  // ---------------------------------------------------------------- what moves the target

  /** What sends the mixing thread a token: a change of mode, a scan that found the target ready,
      or the end of the target; and only while the thread waits. */
  ghost predicate Signals(s: State, a: Act) {
    && s.wait
    && match a
       case OfChoose(p) => s.direct != MayGoDirect(s, p)
       case OfProbe(p, b) => b.Verdict? && p in s.paths && s.paths[p].w == Probe({}, true)
       case OfManager(b) => b.SVerdict? && s.g == Survey({}, true)
       case OfLeaver(b) => b.SendExit?
       case _ => false
  }

  /** Everything that any thread can do to the flags of the target. */
  ghost predicate TargetMoved(s: State, a: Act, t: State) {
    && t.token == (Signals(s, a) || (s.token && a != OfWait(Wake)))
    && t.wait == ((t.m.Blocked? && !s.m.Blocked?) || (s.wait && !Signals(s, a) && a != OfWait(Relock)))
    && t.direct == (if a.OfChoose? then MayGoDirect(s, a.p) else s.direct)
    && t.Exit() == (s.Exit() || a == OfLeaver(Raise))
    && t.started == (if a.OfWrite? && a.write.Prepare? then true
                     else s.started && !(a.OfManager? && a.manage.Out? && s.paths.Keys == {a.manage.p}))
  }

  lemma ScanUnmoved(s: State, p: Pid)
    requires WaitScan(s, p).Some?
    ensures var t := WaitScan(s, p).value; t == s.(m := t.m) && !t.m.Blocked?
  {
    hide LookAt;
  }

  lemma WaitMoves(c: Config, s: State, b: WaitAct)
    requires Invariant(c, s) && WaitStep(s, b).Some?
    ensures TargetMoved(s, OfWait(b), WaitStep(s, b).value)
  {
    hide WaitScan, PathsOk, WakeOk, MixOk;
    match b
    case Scan(p) => ScanUnmoved(s, p);
    case _ =>
  }

  lemma MixUnmoved(c: Config, s: State, b: MixAct)
    requires MixStep(c, s, b).Some?
    ensures var t := MixStep(c, s, b).value;
            t == s.(m := t.m, paths := t.paths, list := t.list) && !t.m.Blocked?
  {
    hide HoldsPathLock, MixCheck;
    match b
    case Check(p) => CheckIs(c, s, p);
    case One(p) =>
    case _ =>
  }

  lemma MixMovesTarget(c: Config, s: State, b: MixAct)
    requires MixStep(c, s, b).Some?
    ensures TargetMoved(s, OfMix(b), MixStep(c, s, b).value)
  {
    hide MixStep;
    MixUnmoved(c, s, b);
  }

  lemma ChooseMoves(c: Config, s: State, p: Pid)
    requires Invariant(c, s) && p in s.paths && Choose(s, p).Some?
    ensures TargetMoved(s, OfChoose(p), Choose(s, p).value)
  {
    hide PathsOk, WakeOk, MixOk;
    Alone(s, p);
  }

  lemma WriteMovesTarget(c: Config, s: State, p: Pid, b: WriteAct)
    requires p in s.paths && WriteStep(c, s, p, b).Some?
    ensures TargetMoved(s, OfWrite(p, b), WriteStep(c, s, p, b).value)
  {
    hide WriteLocal;
  }

  lemma ProbeEnds(s: State, p: Pid, b: ScanAct)
    requires p in s.paths && ProbeStep(s, p, b).Some? && (s.paths[p].w.Probe? ==> s.wait)
    ensures var t, sends := ProbeStep(s, p, b).value, b.Verdict? && s.paths[p].w == Probe({}, true);
            && t == s.(mix := t.mix, paths := t.paths, token := s.token || sends, wait := s.wait && !sends)
            && (sends ==> s.wait)
  {
    hide LookAt;
  }

  lemma ProbeMoves(c: Config, s: State, p: Pid, b: ScanAct)
    requires PathsOk(c, s) && p in s.paths && ProbeStep(s, p, b).Some?
    ensures TargetMoved(s, OfProbe(p, b), ProbeStep(s, p, b).value)
  {
    hide ProbeStep;
    assert PathOk(c, s.mix, s.wait, s.direct, p, s.paths[p]);
    ProbeEnds(s, p, b);
  }

  lemma DetachMoves(s: State, p: Pid, mode: Mode, sync: bool)
    requires Detach(s, p, mode, sync).Some?
    ensures TargetMoved(s, OfManager(Out(p, mode, sync)), Detach(s, p, mode, sync).value)
  {
    var t := Detach(s, p, mode, sync).value;
    assert t.paths.Keys == s.paths.Keys - {p} && t.started == (s.started && t.paths.Keys != {});
    assert s.paths.Keys == {p} <==> s.paths.Keys - {p} == {};
  }

  lemma ManagerMoves(c: Config, s: State, b: ManageAct)
    requires ThreadsOk(s) && ManagerStep(s, b).Some?
    ensures TargetMoved(s, OfManager(b), ManagerStep(s, b).value)
  {
    hide LookAt, Detach;
    match b
    case Out(p, mode, sync) => DetachMoves(s, p, mode, sync);
    case _ =>
  }

  lemma ThreadsOf(c: Config, s: State)
    requires Invariant(c, s)
    ensures ThreadsOk(s) && PathsOk(c, s)
  {
  }

  lemma LeaveMoves(s: State, b: LeaveAct)
    requires LeaveStep(s, b).Some?
    ensures TargetMoved(s, OfLeaver(b), LeaveStep(s, b).value)
  {
  }

  lemma TargetMoves(c: Config, s: State, a: Act)
    requires Invariant(c, s) && Next(c, s, a).Some?
    ensures TargetMoved(s, a, Next(c, s, a).value)
  {
    hide Invariant, ThreadsOk, PathsOk, TargetMoved, WaitStep, MixStep, Choose, WriteStep, ProbeStep, ManagerStep, LeaveStep;
    ThreadsOf(c, s);
    match a
    case OfWait(b) => WaitMoves(c, s, b);
    case OfMix(b) => MixMovesTarget(c, s, b);
    case OfChoose(p) => ChooseMoves(c, s, p);
    case OfWrite(p, b) => WriteMovesTarget(c, s, p, b);
    case OfProbe(p, b) => ProbeMoves(c, s, p, b);
    case OfManager(b) => ManagerMoves(c, s, b);
    case OfLeaver(b) => LeaveMoves(s, b);
  }

  // ---------------------------------------------------------------- the bytes over a run

  /** The bytes taken from the writer of p since p was last attached. */
  ghost function TakenIn(c: Config, tr: Trace, p: Pid): nat {
    match tr
    case Nil => 0
    case Then(before, a) =>
      if a.OfManager? && a.manage.In? && a.manage.p == p then 0
      else TakenIn(c, before, p) + Taken(c, p, TakenIn(c, before, p) - MixedOut(c, before, p), a)
  }

  /** The bytes mixed out of p since then. */
  ghost function MixedOut(c: Config, tr: Trace, p: Pid): nat {
    match tr
    case Nil => 0
    case Then(before, a) =>
      if a.OfManager? && a.manage.In? && a.manage.p == p then 0
      else MixedOut(c, before, p) + Mixed(c, p, a)
  }

  lemma MixAlike(c: Config, s: State, b: MixAct)
    requires MixStep(c, s, b).Some?
    ensures MixStep(c, s, b).value.paths.Keys == s.paths.Keys
  {
    hide HoldsPathLock;
    match b
    case Check(p) =>
    case One(p) =>
    case _ => MixKeepsPaths(c, s, b);
  }

  lemma WriterAlike(c: Config, s: State, q: Pid)
    requires q in s.paths
    ensures forall b :: WriteStep(c, s, q, b).Some? ==> WriteStep(c, s, q, b).value.paths.Keys == s.paths.Keys
    ensures forall b :: ProbeStep(s, q, b).Some? ==> ProbeStep(s, q, b).value.paths.Keys == s.paths.Keys
    ensures Choose(s, q).Some? ==> Choose(s, q).value.paths.Keys == s.paths.Keys
  {
    hide WriteLocal, LookAt;
  }

  lemma ManagerAdds(s: State, b: ManageAct, p: Pid)
    requires ManagerStep(s, b).Some? && p !in s.paths && p in ManagerStep(s, b).value.paths
    ensures b.In? && b.p == p && ManagerStep(s, b).value.paths[p].count == 0
  {
    hide LookAt;
  }

  lemma AttachIs(c: Config, s: State, a: Act, p: Pid)
    requires Next(c, s, a).Some? && p !in s.paths && p in Next(c, s, a).value.paths
    ensures a.OfManager? && a.manage.In? && a.manage.p == p && Next(c, s, a).value.paths[p].count == 0
  {
    hide WaitStep, MixStep, LeaveStep, WriteStep, ProbeStep, Choose, ManagerStep;
    match a
    case OfWait(b) => WaitAlike(s, b);
    case OfMix(b) => MixAlike(c, s, b);
    case OfLeaver(b) => LeaveAlike(s, b);
    case OfManager(b) => ManagerAdds(s, b, p);
    case OfChoose(q) => WriterAlike(c, s, q);
    case OfProbe(q, _) => WriterAlike(c, s, q);
    case OfWrite(q, _) => WriterAlike(c, s, q);
  }

  lemma InIs(c: Config, s: State, p: Pid, mode: Mode, sync: bool)
    requires Next(c, s, OfManager(In(p, mode, sync))).Some?
    ensures p !in s.paths
  {
  }

  /** Conservation: in every interleaving a path holds exactly the bytes taken from its writer
      less those mixed. */
  lemma {:induction false} QueueConserves(c: Config, tr: Trace, p: Pid)
    requires c.Valid() && Run(c, tr).Some? && p in Run(c, tr).value.paths
    ensures Run(c, tr).value.paths[p].count == TakenIn(c, tr, p) - MixedOut(c, tr, p)
  {
    hide Next, Taken, Mixed;
    if tr.Then? {
      var s := Run(c, tr.before).value;
      RunKeeps(c, tr.before);
      if p in s.paths {
        QueueConserves(c, tr.before, p);
        PathMoves(c, s, tr.act, p);
        if tr.act.OfManager? && tr.act.manage.In? && tr.act.manage.p == p {
          InIs(c, s, p, tr.act.manage.mode, tr.act.manage.sync);
        }
      } else {
        AttachIs(c, s, tr.act, p);
      }
    }
  }

  // ---------------------------------------------------------------- what a verdict rests on

  /** The step that begins a scan of the mixing thread, if it begins one. */
  predicate BeginsScan(a: Act) {
    a == OfWait(Lock) || a == OfWait(After) || a == OfWait(Pass)
  }

  /** Since its scan began the mixing thread has looked at a path when that was short. */
  ghost predicate SawShort(c: Config, tr: Trace) {
    tr.Then? && !BeginsScan(tr.act)
    && (SawShort(c, tr.before) || (Run(c, tr.before).Some? && LooksAtShort(Run(c, tr.before).value, tr.act)))
  }

  /** Since its scan began it has looked at a path when that was started and had enough. */
  ghost predicate SawMixable(c: Config, tr: Trace) {
    tr.Then? && !BeginsScan(tr.act)
    && (SawMixable(c, tr.before) || (Run(c, tr.before).Some? && LooksAtMixable(Run(c, tr.before).value, tr.act)))
  }

  ghost predicate LooksAtShort(s: State, a: Act) {
    a.OfWait? && a.wait.Scan? && a.wait.p in s.paths && s.paths[a.wait.p].start && !s.paths[a.wait.p].enough
  }

  ghost predicate LooksAtMixable(s: State, a: Act) {
    a.OfWait? && a.wait.Scan? && a.wait.p in s.paths && Mixable(s.paths[a.wait.p])
  }

  /** What the mixing thread takes the target for is what it saw. */
  ghost predicate Rests(m: Mixer, short: bool, mixable: bool) {
    match m
    case Scanning(_, found) => !short && (found <==> mixable)
    case Arming => short || !mixable
    case Returned(ready) => ready ==> !short && mixable
    case _ => true
  }

  lemma WriterWaits(c: Config, s: State, p: Pid)
    requires p in s.paths
    ensures Choose(s, p).Some? ==> Choose(s, p).value.m == s.m
    ensures forall b :: WriteStep(c, s, p, b).Some? ==> WriteStep(c, s, p, b).value.m == s.m
    ensures forall b :: ProbeStep(s, p, b).Some? ==> ProbeStep(s, p, b).value.m == s.m
  {
    hide LookAt, WriteLocal;
  }

  lemma ManagerWaits(s: State, b: ManageAct)
    requires ManagerStep(s, b).Some?
    ensures ManagerStep(s, b).value.m == s.m
  {
    hide LookAt;
  }

  lemma LeaverWaits(s: State, b: LeaveAct)
    requires LeaveStep(s, b).Some?
    ensures LeaveStep(s, b).value.m == s.m
  {
  }

  lemma OthersWait(c: Config, s: State, a: Act)
    requires Next(c, s, a).Some? && !a.OfWait? && !a.OfMix?
    ensures Next(c, s, a).value.m == s.m
  {
    hide Choose, WriteStep, ProbeStep, ManagerStep, LeaveStep;
    match a
    case OfChoose(p) => WriterWaits(c, s, p);
    case OfProbe(p, _) => WriterWaits(c, s, p);
    case OfWrite(p, _) => WriterWaits(c, s, p);
    case OfManager(b) => ManagerWaits(s, b);
    case OfLeaver(b) => LeaverWaits(s, b);
  }

  lemma ScanRests(s: State, p: Pid, short: bool, mixable: bool)
    requires WaitScan(s, p).Some? && Rests(s.m, short, mixable)
    ensures var a := OfWait(Scan(p));
            Rests(WaitScan(s, p).value.m, short || LooksAtShort(s, a), mixable || LooksAtMixable(s, a))
  {
  }

  lemma WaitRests(s: State, b: WaitAct, short: bool, mixable: bool)
    requires WaitStep(s, b).Some? && Rests(s.m, short, mixable)
    ensures var begun, a := BeginsScan(OfWait(b)), OfWait(b);
            Rests(WaitStep(s, b).value.m, !begun && (short || LooksAtShort(s, a)), !begun && (mixable || LooksAtMixable(s, a)))
  {
    hide WaitScan;
    match b
    case Scan(p) => ScanRests(s, p, short, mixable);
    case _ =>
  }

  lemma MixRests(c: Config, s: State, b: MixAct)
    requires MixStep(c, s, b).Some?
    ensures var m := MixStep(c, s, b).value.m;
            m.Checking? || m.Mixing? || m == WantMix || m == Writing || m == Exited
  {
    hide HoldsPathLock;
    match b
    case Start =>
    case Check(p) =>
    case CheckEnd =>
    case One(p) =>
    case End =>
    case Finish =>
  }

  /** The mixing thread goes on to mix with the answer "ready" exactly on what it has seen, path
      by path, since its last scan began: one at least with enough data and none short. */
  lemma {:induction false} VerdictRests(c: Config, tr: Trace)
    requires Run(c, tr).Some?
    ensures Rests(Run(c, tr).value.m, SawShort(c, tr), SawMixable(c, tr))
  {
    hide Rests, WaitStep, MixStep, LooksAtShort, LooksAtMixable;
    if tr.Then? {
      var s := Run(c, tr.before).value;
      VerdictRests(c, tr.before);
      match tr.act
      case OfWait(b) => WaitRests(s, b, SawShort(c, tr.before), SawMixable(c, tr.before));
      case OfMix(b) =>
        MixRests(c, s, b);
        RestsElsewhere(Run(c, tr).value.m, SawShort(c, tr), SawMixable(c, tr));
      case _ =>
        OthersWait(c, s, tr.act);
        NoLook(s, tr.act);
    } else {
      AtStart(c);
    }
  }

  lemma NoLook(s: State, a: Act)
    requires !a.OfWait?
    ensures !LooksAtShort(s, a) && !LooksAtMixable(s, a) && !BeginsScan(a)
  {
  }

  lemma RestsElsewhere(m: Mixer, short: bool, mixable: bool)
    requires !m.Scanning? && m != Arming && !m.Returned?
    ensures Rests(m, short, mixable)
  {
  }

  lemma AtStart(c: Config)
    ensures Rests(START.m, false, false)
  {
  }
}
