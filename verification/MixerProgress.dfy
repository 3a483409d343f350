/** The threads of a mixer target never block one another for good: the direct lock, the lock of
    the path list, each path's lock, the mix lock and the manager's lock are always held by a
    thread that can go on, or that waits for one that can. */
module MixerProgress {

  import opened MixerWakeup
  import opened MixerMoves

  // ---------------------------------------------------------------- who holds the direct lock

  ghost predicate InDirectWrite(s: State, p: Pid) {
    p in s.paths && s.paths[p].w == InDirect
  }

  ghost predicate DirectHeld(s: State) {
    && (s.directLock <==> exists p :: InDirectWrite(s, p))
    && (forall p, q :: InDirectWrite(s, p) && InDirectWrite(s, q) ==> p == q)
    && !s.list.ByWriter?
  }

  lemma SameDirect(s: State, t: State)
    requires DirectHeld(s) && t.directLock == s.directLock && !t.list.ByWriter?
    requires forall p :: InDirectWrite(s, p) <==> InDirectWrite(t, p)
    ensures DirectHeld(t)
  {
  }

  lemma WriteLeaves(c: Config, s: State, p: Pid, b: WriteAct)
    requires p in s.paths && WriteStep(c, s, p, b).Some?
    ensures var t := WriteStep(c, s, p, b).value;
      && t.list == s.list && (forall q :: q != p ==> (InDirectWrite(s, q) <==> InDirectWrite(t, q)))
      && (if b.DirectGo? then !s.directLock && t.directLock && InDirectWrite(t, p)
          else if b.DirectEnd? then InDirectWrite(s, p) && !InDirectWrite(t, p) && !t.directLock
          else t.directLock == s.directLock && (InDirectWrite(s, p) <==> InDirectWrite(t, p)))
  {
  }

  lemma WriteDirect(c: Config, s: State, p: Pid, b: WriteAct)
    requires DirectHeld(s) && p in s.paths && WriteStep(c, s, p, b).Some?
    ensures DirectHeld(WriteStep(c, s, p, b).value)
  {
    hide WriteStep, InDirectWrite;
    WriteLeaves(c, s, p, b);
    var t := WriteStep(c, s, p, b).value;
    if !b.DirectGo? && !b.DirectEnd? {
      assert forall q :: InDirectWrite(s, q) <==> InDirectWrite(t, q);
      SameDirect(s, t);
    }
  }

  lemma PathsDirect(s: State, t: State)
    requires DirectHeld(s) && t.directLock == s.directLock && t.paths == s.paths && !t.list.ByWriter?
    ensures DirectHeld(t)
  {
    assert forall p :: InDirectWrite(s, p) <==> InDirectWrite(t, p);
  }

  lemma WaitLeaves(s: State, b: WaitAct)
    requires WaitStep(s, b).Some?
    ensures WaitStep(s, b).value.directLock == s.directLock && WaitStep(s, b).value.list == s.list
  {
    hide LookAt;
  }

  lemma LeaverLeaves(s: State, b: LeaveAct)
    requires LeaveStep(s, b).Some?
    ensures LeaveStep(s, b).value.directLock == s.directLock && LeaveStep(s, b).value.list == s.list
  {
  }

  /** Neither before nor after is the writer of p in a direct write. */
  lemma NotDirect(s: State, t: State, p: Pid, y: Path, q: Pid)
    requires p in s.paths && t.paths == s.paths[p := y]
    requires y.w == InDirect <==> s.paths[p].w == InDirect
    ensures InDirectWrite(s, q) <==> InDirectWrite(t, q)
  {
  }

  lemma MixPathLeaves(c: Config, s: State, p: Pid, q: Pid)
    ensures MixCheck(c, s, p).Some? ==> var t := MixCheck(c, s, p).value;
      t.directLock == s.directLock && t.list == s.list && (InDirectWrite(s, q) <==> InDirectWrite(t, q))
    ensures MixOne(c, s, p).Some? ==> var t := MixOne(c, s, p).value;
      t.directLock == s.directLock && t.list == s.list && (InDirectWrite(s, q) <==> InDirectWrite(t, q))
  {
    hide HoldsPathLock;
  }

  lemma MixLeaves(c: Config, s: State, b: MixAct, p: Pid)
    requires MixStep(c, s, b).Some?
    ensures var t := MixStep(c, s, b).value;
      t.directLock == s.directLock && (t.list == s.list || t.list == Free || t.list == ByMixer)
      && (InDirectWrite(s, p) <==> InDirectWrite(t, p))
  {
    hide MixCheck, MixOne;
    match b
    case Check(q) => MixPathLeaves(c, s, q, p);
    case One(q) => MixPathLeaves(c, s, q, p);
    case _ =>
  }

  lemma ComingLeaves(s: State, q: Pid, mode: Mode, sync: bool, p: Pid)
    ensures Attach(s, q, mode, sync).Some? ==> var t := Attach(s, q, mode, sync).value;
      t.directLock == s.directLock && t.list == s.list && (InDirectWrite(s, p) <==> InDirectWrite(t, p))
  {
  }

  lemma GoingLeaves(s: State, q: Pid, mode: Mode, sync: bool, p: Pid)
    ensures Detach(s, q, mode, sync).Some? ==> var t := Detach(s, q, mode, sync).value;
      t.directLock == s.directLock && t.list == ByManager && (InDirectWrite(s, p) <==> InDirectWrite(t, p))
  {
  }

  lemma ManagerLeaves(s: State, b: ManageAct, p: Pid)
    requires ManagerStep(s, b).Some?
    ensures var t := ManagerStep(s, b).value;
      t.directLock == s.directLock && (t.list == s.list || t.list == Free || t.list == ByManager)
      && (InDirectWrite(s, p) <==> InDirectWrite(t, p))
  {
    hide LookAt, Attach, Detach;
    match b
    case In(q, mode, sync) => ComingLeaves(s, q, mode, sync, p);
    case Out(q, mode, sync) => GoingLeaves(s, q, mode, sync, p);
    case _ =>
  }

  lemma ProbeLeaves(s: State, p: Pid, b: ScanAct, q: Pid)
    requires p in s.paths && ProbeStep(s, p, b).Some?
    ensures var t := ProbeStep(s, p, b).value;
      t.directLock == s.directLock && t.list == s.list && (InDirectWrite(s, q) <==> InDirectWrite(t, q))
  {
    hide LookAt, InDirectWrite;
    var t := ProbeStep(s, p, b).value;
    NotDirect(s, t, p, t.paths[p], q);
  }

  lemma ChooseLeaves(s: State, p: Pid, q: Pid)
    requires p in s.paths && Choose(s, p).Some?
    ensures var t := Choose(s, p).value;
      t.directLock == s.directLock && t.list == s.list && (InDirectWrite(s, q) <==> InDirectWrite(t, q))
  {
    hide InDirectWrite;
    var t := Choose(s, p).value;
    NotDirect(s, t, p, t.paths[p], q);
  }

  lemma OtherLeaves(c: Config, s: State, a: Act, q: Pid)
    requires Next(c, s, a).Some? && !a.OfWait? && !a.OfWrite? && !a.OfLeaver?
    ensures var t := Next(c, s, a).value;
      t.directLock == s.directLock && (t.list.ByWriter? ==> t.list == s.list)
      && (InDirectWrite(s, q) <==> InDirectWrite(t, q))
  {
    hide InDirectWrite, MixStep, Choose, ProbeStep, ManagerStep;
    match a
    case OfMix(b) => MixLeaves(c, s, b, q);
    case OfManager(b) => ManagerLeaves(s, b, q);
    case OfProbe(p, b) => ProbeLeaves(s, p, b, q);
    case OfChoose(p) => ChooseLeaves(s, p, q);
  }

  lemma NextDirect(c: Config, s: State, a: Act)
    requires DirectHeld(s) && Next(c, s, a).Some?
    ensures DirectHeld(Next(c, s, a).value)
  {
    hide InDirectWrite, WaitStep, MixStep, Choose, WriteStep, ProbeStep, ManagerStep, LeaveStep;
    var t := Next(c, s, a).value;
    if a.OfWrite? {
      WriteDirect(c, s, a.p, a.write);
    } else if a.OfWait? {
      WaitAlike(s, a.wait);
      WaitLeaves(s, a.wait);
      PathsDirect(s, t);
    } else if a.OfLeaver? {
      LeaveAlike(s, a.leave);
      LeaverLeaves(s, a.leave);
      PathsDirect(s, t);
    } else {
      OtherLeaves(c, s, a, 0);
      forall q ensures InDirectWrite(s, q) <==> InDirectWrite(t, q) {
        OtherLeaves(c, s, a, q);
      }
      SameDirect(s, t);
    }
  }

  lemma {:induction false} RunDirect(c: Config, tr: Trace)
    requires Run(c, tr).Some?
    ensures DirectHeld(Run(c, tr).value)
  {
    hide Next;
    if tr.Then? {
      RunDirect(c, tr.before);
      NextDirect(c, Run(c, tr.before).value, tr.act);
    }
  }

  // ---------------------------------------------------------------- who can go on

  /** A step of work already begun: no new write, no source coming or going, no time-out. */
  predicate Finishing(a: Act) {
    && !(a.OfWrite? && a.write.Begin?) && !(a.OfManager? && (a.manage.In? || a.manage.Out?))
    && a != OfLeaver(Raise) && a != OfWait(Timeout)
  }

  ghost predicate Can(c: Config, s: State, a: Act) {
    Finishing(a) && Next(c, s, a).Some?
  }

  ghost predicate SomeoneCan(c: Config, s: State) {
    exists a :: Can(c, s, a)
  }

  /** Every call has returned, and the mixing thread is gone or asleep without a token. */
  ghost predicate AtRest(s: State) {
    && (s.m == Exited || (s.m.Blocked? && !s.token))
    && (forall p :: p in s.paths ==> s.paths[p].w == Idle)
    && s.g == Rest && (s.leave == Staying || s.leave == Signalled)
  }

  lemma DirectWriteEnds(c: Config, s: State)
    requires DirectHeld(s) && s.directLock
    ensures SomeoneCan(c, s)
  {
    var p :| InDirectWrite(s, p);
    assert Can(c, s, OfWrite(p, DirectEnd));
  }

  lemma ProbeGoesOn(c: Config, s: State, p: Pid)
    requires p in s.paths && s.paths[p].w.Probe?
    ensures SomeoneCan(c, s)
  {
    var unseen := s.paths[p].w.unseen;
    if unseen == {} {
      assert Can(c, s, OfProbe(p, Verdict));
    } else {
      var q :| q in unseen;
      assert Can(c, s, OfProbe(p, LookOne(q)));
    }
  }

  lemma SurveyGoesOn(c: Config, s: State)
    requires s.g.Survey?
    ensures SomeoneCan(c, s)
  {
    if s.g.unseen == {} {
      assert Can(c, s, OfManager(SVerdict));
    } else {
      var q :| q in s.g.unseen;
      assert Can(c, s, OfManager(SLook(q)));
    }
  }

  lemma WaitGoesOn(c: Config, s: State)
    requires DirectHeld(s) && (s.m.Scanning? || s.m == Arming || s.m.Relocked?)
    ensures SomeoneCan(c, s)
  {
    match s.m
    case Scanning(unseen, _) =>
      if unseen == {} {
        assert Can(c, s, OfWait(ScanEnd));
      } else {
        var p :| p in unseen;
        assert Can(c, s, OfWait(Scan(p)));
      }
    case Arming => assert Can(c, s, OfWait(Arm(true)));
    case Relocked(untimed) =>
      if !untimed {
        assert Can(c, s, OfWait(After));
      } else if s.directLock {
        DirectWriteEnds(c, s);
      } else {
        assert Can(c, s, OfWait(Pass));
      }
  }

  /** Whoever holds the mix lock goes on, or waits for a direct write that does. */
  lemma MixLockMoves(c: Config, s: State)
    requires ThreadsOk(s) && PathsOk(c, s) && DirectHeld(s) && s.mix != Free
    ensures SomeoneCan(c, s)
  {
    hide DirectHeld;
    match s.mix
    case ByMixer => WaitGoesOn(c, s);
    case ByManager => SurveyGoesOn(c, s);
    case ByWriter(p) =>
      assert PathOk(c, s.mix, s.wait, s.direct, p, s.paths[p]);
      ProbeGoesOn(c, s, p);
  }

  /** A write under way goes on, or waits for the mix lock or the direct lock. */
  lemma WriterGoesOn(c: Config, s: State, p: Pid)
    requires ThreadsOk(s) && PathsOk(c, s) && DirectHeld(s) && p in s.paths && s.paths[p].w != Idle
    ensures SomeoneCan(c, s)
  {
    hide DirectHeld, ThreadsOk, PathsOk;
    var w := s.paths[p].w;
    if (w == Enter || w == Signal) && s.mix != Free {
      MixLockMoves(c, s);
    } else if w == Direct && s.directLock {
      DirectWriteEnds(c, s);
    } else {
      match w
      case Enter => assert Can(c, s, OfChoose(p));
      case Direct => assert Can(c, s, OfWrite(p, DirectGo));
      case InDirect => assert Can(c, s, OfWrite(p, DirectEnd));
      case Indirect => assert Can(c, s, OfWrite(p, Prepare(Unsync, false)));
      case Write => assert Can(c, s, OfWrite(p, Publish(0)));
      case Mute => assert Can(c, s, OfWrite(p, MuteEnd));
      case Signal => assert Can(c, s, OfProbe(p, Take));
      case Probe(_, _) => ProbeGoesOn(c, s, p);
      case Release => assert Can(c, s, OfWrite(p, Done));
      case _ =>
    }
  }

  /** So does the manager's thread. */
  lemma ManagerGoesOn(c: Config, s: State)
    requires ThreadsOk(s) && PathsOk(c, s) && DirectHeld(s)
    requires s.g != Rest || (s.leave != Staying && s.leave != Signalled)
    ensures SomeoneCan(c, s)
  {
    hide DirectHeld, ThreadsOk, PathsOk;
    if s.g == Unlock {
      assert Can(c, s, OfManager(SUnlock));
    } else if s.g.Survey? {
      SurveyGoesOn(c, s);
    } else if s.g == Rest && s.leave == Raised {
      assert Can(c, s, OfLeaver(TakeManager));
    } else if s.mix != Free {
      MixLockMoves(c, s);
    } else if s.g == Removed {
      assert Can(c, s, OfManager(STake));
    } else {
      assert Can(c, s, OfLeaver(SendExit));
    }
  }

  /** Whoever holds the lock of the path list goes on. */
  lemma ListLockMoves(c: Config, s: State)
    requires Invariant(c, s) && DirectHeld(s) && s.list != Free
    ensures SomeoneCan(c, s)
  {
    hide PathsOk, WakeOk;
    if s.list == ByManager {
      ManagerGoesOn(c, s);
    } else if s.m.Checking? {
      CheckGoesOn(c, s);
    } else {
      MixGoesOn(c, s);
    }
  }

  lemma CheckGoesOn(c: Config, s: State)
    requires ThreadsOk(s) && PathsOk(c, s) && DirectHeld(s) && s.m.Checking? && s.m.unseen <= s.paths.Keys
    ensures SomeoneCan(c, s)
  {
    hide PathsOk, ThreadsOk, DirectHeld;
    if s.m.unseen == {} {
      assert Can(c, s, OfMix(CheckEnd));
    } else {
      var p :| p in s.m.unseen;
      if HoldsPathLock(s.paths[p].w) {
        WriterGoesOn(c, s, p);
      } else {
        assert Can(c, s, OfMix(Check(p)));
      }
    }
  }

  lemma MixGoesOn(c: Config, s: State)
    requires ThreadsOk(s) && PathsOk(c, s) && DirectHeld(s) && s.m.Mixing? && Filled(c, s, s.m.todo)
    ensures SomeoneCan(c, s)
  {
    hide PathsOk, ThreadsOk, DirectHeld;
    if s.m.todo == {} {
      assert Can(c, s, OfMix(End));
    } else {
      var p :| p in s.m.todo;
      if HoldsPathLock(s.paths[p].w) {
        WriterGoesOn(c, s, p);
      } else {
        assert Can(c, s, OfMix(One(p)));
      }
    }
  }

  /** And so does the mixing thread, unless it is gone or asleep without a token. */
  lemma MixerGoesOn(c: Config, s: State)
    requires Invariant(c, s) && DirectHeld(s) && s.m != Exited && !(s.m.Blocked? && !s.token)
    ensures SomeoneCan(c, s)
  {
    hide Invariant, DirectHeld;
    LocksOf(c, s);
    match s.m
    case WantMix =>
      if s.mix == Free {
        assert Can(c, s, OfWait(Lock));
      } else {
        MixLockMoves(c, s);
      }
    case Blocked(_) => assert Can(c, s, OfWait(Wake));
    case Woken(_) =>
      if s.mix == Free {
        assert Can(c, s, OfWait(Relock));
      } else {
        MixLockMoves(c, s);
      }
    case Returned(_) =>
      if s.list == Free || s.Exit() || !s.started {
        assert Can(c, s, OfMix(Start));
      } else {
        ListLockMoves(c, s);
      }
    case Checking(_, _, _) => CheckGoesOn(c, s);
    case Mixing(_) => MixGoesOn(c, s);
    case Writing =>
      if s.list == Free {
        assert Can(c, s, OfMix(Finish));
      } else {
        ListLockMoves(c, s);
      }
    case _ => WaitGoesOn(c, s);
  }

  lemma LocksOf(c: Config, s: State)
    requires Invariant(c, s)
    ensures ThreadsOk(s) && PathsOk(c, s) && MixOk(c, s)
  {
  }

  lemma RestIsRest(c: Config, s: State, a: Act)
    requires AtRest(s)
    ensures !Can(c, s, a)
  {
  }

  /** Asleep over data ready to mix, or kept from leaving: neither is a state of rest. */
  lemma RestIsQuiet(c: Config, s: State)
    requires Invariant(c, s) && AtRest(s)
    ensures s.m == Exited || !Ready(s)
    ensures s.leave == Signalled ==> s.m == Exited || s.m == Blocked(false)
  {
    assert !Pending(s);
  }

  /** No deadlock: in every interleaving some thread can go on with what it has begun, unless
      every call has returned and the mixing thread is gone, or asleep with nothing ready to mix;
      and then nothing but a new call or a time-out goes on. */
  lemma NoDeadlock(c: Config, tr: Trace)
    requires c.Valid() && Run(c, tr).Some?
    ensures var s := Run(c, tr).value;
            && (SomeoneCan(c, s) <==> !AtRest(s))
            && (AtRest(s) ==> s.m == Exited || !Ready(s))
            && (AtRest(s) && s.leave == Signalled ==> s.m == Exited || s.m == Blocked(false))
  {
    hide Invariant, DirectHeld, Can, Ready;
    RunKeeps(c, tr);
    RunDirect(c, tr);
    var s := Run(c, tr).value;
    LocksOf(c, s);
    if AtRest(s) {
      RestIsQuiet(c, s);
      forall a ensures !Can(c, s, a) {
        RestIsRest(c, s, a);
      }
    } else if s.m != Exited && !(s.m.Blocked? && !s.token) {
      MixerGoesOn(c, s);
    } else if p :| p in s.paths && s.paths[p].w != Idle {
      WriterGoesOn(c, s, p);
    } else {
      ManagerGoesOn(c, s);
    }
  }
}
