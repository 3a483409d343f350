/** One mixer target of drivers/audio/framework/audio_sw_mixer.c: its mixing thread, one
    writer for each path, the thread that attaches and detaches sources, and the one that takes
    the target away, in every interleaving.

    A path's flags are guarded by the path's own lock, but the readiness scan reads them under
    the target's mix lock only, one path at a time; so other threads run between two reads of
    one scan.  The condition variable is the one-slot queue of audio_utility/audio_lock.c. */
module MixerWakeup {

  type Pid = nat

  /** T: the target's buffer size; W: the longest converted write. */
  datatype Config = Config(T: nat, W: nat) {
    predicate Valid() { T > 0 }
  }

  datatype Mode = Sync | Unsync | Dup

  datatype Owner = Free | ByMixer | ByWriter(p: Pid) | ByManager

  datatype Mixer =
    | WantMix
    | Scanning(unseen: set<Pid>, found: bool)
    | Arming
    | Blocked(untimed: bool)
    | Woken(untimed: bool)
    | Relocked(untimed: bool)
    | Returned(ready: bool)
    | Checking(ready: bool, unseen: set<Pid>, chosen: set<Pid>)   // ready: how the wait ended
    | Mixing(todo: set<Pid>)
    | Writing
    | Exited

  datatype Writer =
    | Idle
    | Enter                                       // wants the mix lock to choose its mode
    | Direct                                      // chose direct mode, wants the direct lock
    | InDirect                                    // writes to the target itself
    | Indirect
    | Write
    | Mute                                        // found the path underflown and the data mute
    | Signal                                      // published its flags, wants the mix lock
    | Probe(unseen: set<Pid>, found: bool)        // scans, holding the mix lock
    | Release                                     // about to let go of the path lock

  datatype Manager =
    | Rest
    | Removed                                     // took a path out, wants the mix lock
    | Survey(unseen: set<Pid>, found: bool)       // scans, holding the mix lock
    | Unlock

  datatype Leaver =
    | Staying
    | Raised                                      // set exit, wants the manager's lock
    | Locked                                      // has it, wants the mix lock
    | Signalled                                   // still has it, waits for the mixing thread

  /** A path with its flags, and where its writer is.  mode is the chosen writer function,
      sync the is_sync flag: the source sets the two apart. */
  datatype Path = Path(
    w: Writer, start: bool, enough: bool, underflow: bool, count: nat, mode: Mode, sync: bool)

  datatype State = State(
    paths: map<Pid, Path>, m: Mixer, g: Manager, leave: Leaver, mix: Owner, list: Owner,
    directLock: bool, wait: bool, token: bool, direct: bool, started: bool,
    late: set<Pid>)   // history only: the paths written directly since the last scan began
  {
    /** target->exit */
    predicate Exit() { leave != Staying }

    /** Nobody holds the manager's lock. */
    predicate ManagerFree() { g == Rest && (leave == Staying || leave == Raised) }
  }

  datatype Option<T> = None | Some(value: T)

  // ---------------------------------------------------------------- what the threads read

  ghost predicate Mixable(x: Path) { x.start && x.enough }

  /** sw_mixer_check_ready_to_mix, were it one atomic look. */
  ghost predicate Ready(s: State) {
    && (exists p :: p in s.paths && s.paths[p].start)
    && (forall p :: p in s.paths && s.paths[p].start ==> s.paths[p].enough)
  }

  predicate Signalling(w: Writer) { w.Signal? || w.Probe? }

  /** A thread that changed what readiness depends on has yet to finish its own signal. */
  ghost predicate Pending(s: State) {
    || s.g.Removed? || s.g.Survey?
    || exists p :: p in s.paths && Signalling(s.paths[p].w)
  }

  predicate HoldsPathLock(w: Writer) {
    w.InDirect? || w.Signal? || w.Probe? || w.Release?
  }

  /** The answer of one look at path p in a scan. */
  datatype Look = Skip | Enough | Short

  function LookAt(s: State, p: Pid): Look {
    if p !in s.paths || !s.paths[p].start then Skip
    else if s.paths[p].enough then Enough
    else Short
  }

  /** Sends the token, which is lost if the slot is full, and clears the waiting flag. */
  function Notify(s: State): State {
    if s.wait then s.(token := true, wait := false) else s
  }

  ghost function Put(s: State, p: Pid, x: Path): State {
    s.(paths := s.paths[p := x])
  }

  // ---------------------------------------------------------------- the wait, sw_mixer_wait_to_mix

  ghost function BeginScan(s: State): State {
    s.(m := Scanning(s.paths.Keys, false), late := {})
  }

  ghost function WaitLock(s: State): Option<State> {
    if s.m == WantMix && s.mix == Free then Some(BeginScan(s.(mix := ByMixer))) else None
  }

  ghost function WaitScan(s: State, p: Pid): Option<State> {
    if s.m.Scanning? && p in s.m.unseen then
      if LookAt(s, p).Short? then Some(s.(m := Arming))
      else Some(s.(m := Scanning(s.m.unseen - {p}, s.m.found || LookAt(s, p).Enough?)))
    else None
  }

  ghost function WaitScanEnd(s: State): Option<State> {
    if s.m.Scanning? && s.m.unseen == {} then
      if s.m.found then Some(s.(m := Returned(true), mix := Free)) else Some(s.(m := Arming))
    else None
  }

  ghost function WaitArm(s: State, timeLeft: bool): Option<State> {
    if s.m != Arming then None
    else if !timeLeft || (s.direct && s.Exit()) then Some(s.(m := Returned(false), mix := Free))
    else Some(s.(m := Blocked(s.direct), wait := true, mix := Free))
  }

  ghost function WaitWake(s: State): Option<State> {
    if s.m.Blocked? && s.token then Some(s.(m := Woken(s.m.untimed), token := false)) else None
  }

  ghost function WaitTimeout(s: State): Option<State> {
    if s.m == Blocked(false) then Some(s.(m := Woken(false))) else None
  }

  ghost function WaitRelock(s: State): Option<State> {
    if s.m.Woken? && s.mix == Free
    then Some(s.(m := Relocked(s.m.untimed), mix := ByMixer, wait := false)) else None
  }

  /** After the timed sleep: leave, sleep on without timeout in direct mode, or look again. */
  ghost function WaitAfter(s: State): Option<State> {
    if s.m != Relocked(false) then None
    else if s.Exit() then Some(s.(m := Returned(false), mix := Free))
    else if s.direct then Some(s.(m := Blocked(true), wait := true, mix := Free))
    else Some(BeginScan(s))
  }

  /** After the untimed sleep: let a direct write finish, then look again. */
  ghost function WaitPass(s: State): Option<State> {
    if s.m == Relocked(true) && !s.directLock then Some(BeginScan(s)) else None
  }

  datatype WaitAct =
    | Lock | Scan(p: Pid) | ScanEnd | Arm(timeLeft: bool) | Wake | Timeout | Relock | After | Pass

  ghost function WaitStep(s: State, a: WaitAct): Option<State> {
    match a
    case Lock => WaitLock(s)
    case Scan(p) => WaitScan(s, p)
    case ScanEnd => WaitScanEnd(s)
    case Arm(timeLeft) => WaitArm(s, timeLeft)
    case Wake => WaitWake(s)
    case Timeout => WaitTimeout(s)
    case Relock => WaitRelock(s)
    case After => WaitAfter(s)
    case Pass => WaitPass(s)
  }

  // ---------------------------------------------------------------- the mix, sw_mixer_do_mix

  ghost function MixStart(s: State): Option<State> {
    if !s.m.Returned? then None
    else if s.Exit() then Some(s.(m := Exited))
    else if !s.started then Some(s.(m := WantMix))
    else if s.list == Free then Some(s.(m := Checking(s.m.ready, s.paths.Keys, {}), list := ByMixer))
    else None
  }

  ghost function MixCheck(c: Config, s: State, p: Pid): Option<State> {
    if s.m.Checking? && p in s.m.unseen && p in s.paths && !HoldsPathLock(s.paths[p].w) then
      var x, rest := s.paths[p], s.m.unseen - {p};
      if !x.start then Some(s.(m := Checking(s.m.ready, rest, s.m.chosen)))
      else if x.count < c.T then
        Some(Put(s.(m := Checking(s.m.ready, rest, s.m.chosen)), p, x.(start := false, underflow := true)))
      else Some(s.(m := Checking(s.m.ready, rest, s.m.chosen + {p})))
    else None
  }

  ghost function MixCheckEnd(s: State): Option<State> {
    if s.m.Checking? && s.m.unseen == {} then
      if s.m.chosen == {} then Some(s.(m := WantMix, list := Free))
      else Some(s.(m := Mixing(s.m.chosen)))
    else None
  }

  /** One path gives up one target buffer of data. */
  ghost function MixOne(c: Config, s: State, p: Pid): Option<State> {
    if s.m.Mixing? && p in s.m.todo && p in s.paths && !HoldsPathLock(s.paths[p].w) then
      var x := s.paths[p];
      var left := if x.count >= c.T then x.count - c.T else x.count;
      Some(Put(s.(m := Mixing(s.m.todo - {p})), p, x.(count := left, enough := x.enough && left >= c.T)))
    else None
  }

  ghost function MixEnd(s: State): Option<State> {
    if s.m == Mixing({}) then Some(s.(m := Writing, list := Free)) else None
  }

  /** The write callback is done; the signals to the writers change no flag modelled here. */
  ghost function MixFinish(s: State): Option<State> {
    if s.m == Writing && s.list == Free then Some(s.(m := WantMix)) else None
  }

  datatype MixAct = Start | Check(p: Pid) | CheckEnd | One(p: Pid) | End | Finish

  ghost function MixStep(c: Config, s: State, a: MixAct): Option<State> {
    match a
    case Start => MixStart(s)
    case Check(p) => MixCheck(c, s, p)
    case CheckEnd => MixCheckEnd(s)
    case One(p) => MixOne(c, s, p)
    case End => MixEnd(s)
    case Finish => MixFinish(s)
  }

  // ---------------------------------------------------------------- the writers

  /** The choice of the mode in sw_mixer_source_write, one block under the mix lock. */
  ghost function Choose(s: State, p: Pid): Option<State>
    requires p in s.paths
  {
    var x := s.paths[p];
    if x.w != Enter || s.mix != Free then None
    else if |s.paths| == 1 && x.sync && x.count == 0 then
      Some(Put(if s.direct then s else Notify(s.(direct := true)), p, x.(w := Direct)))
    else
      Some(Put(if s.direct then Notify(s.(direct := false)) else s, p, x.(w := Indirect)))
  }

  datatype WriteAct =
    | Begin | DirectGo | DirectEnd | Prepare(mode: Mode, sync: bool)
    | SeeMute | MuteEnd | Publish(n: nat) | Done

  /** What the rest of sw_mixer_source_write and the writer functions do to their path. */
  function WriteLocal(c: Config, alone: bool, directFree: bool, x: Path, a: WriteAct): Option<Path> {
    match a
    case Begin =>
      if x.w == Idle then Some(x.(w := Enter)) else None
    case DirectGo =>
      if x.w == Direct && directFree
      then Some(x.(w := InDirect, start := true, underflow := false, enough := false)) else None
    case DirectEnd =>
      if x.w == InDirect then Some(x.(w := Idle)) else None
    case Prepare(mode, sync) =>
      if x.w != Indirect then None
      else
        var y := x.(w := Write, mode := mode, sync := sync);
        Some(if y.underflow && y.sync && !alone then y.(mode := Unsync, sync := false) else y)
    case SeeMute =>
      if x.w == Write && x.mode == Sync && x.underflow then Some(x.(w := Mute)) else None
    case MuteEnd =>
      if x.w == Mute then Some(x.(w := Idle, start := false)) else None
    case Publish(n) =>
      if x.w != Write || n > c.W then None
      else if x.count > 8 * c.T then Some(x.(w := Idle))
      else
        var y := x.(count := x.count + n);
        var z := if y.count >= c.T then y.(start := true, underflow := false, enough := true) else y;
        Some(z.(w := if z.enough then Signal else Release))
    case Done =>
      if x.w == Release then Some(x.(w := Idle)) else None
  }

  ghost function WriteStep(c: Config, s: State, p: Pid, a: WriteAct): Option<State>
    requires p in s.paths
  {
    match WriteLocal(c, |s.paths| == 1, !s.directLock, s.paths[p], a)
    case None => None
    case Some(y) =>
      Some(Put(s, p, y).(directLock := a.DirectGo? || (s.directLock && !a.DirectEnd?),
                         started := s.started || a.Prepare?,
                         late := if a.DirectGo? then s.late + {p} else s.late))
  }

  // ---------------------------------------------------------------- a writer's sw_mixer_signal_to_mix

  ghost function ProbeTake(s: State, p: Pid): Option<State>
    requires p in s.paths
  {
    var x := s.paths[p];
    if x.w != Signal || s.mix != Free then None
    else if s.wait then Some(Put(s.(mix := ByWriter(p)), p, x.(w := Probe(s.paths.Keys, false))))
    else Some(Put(s, p, x.(w := Release)))
  }

  ghost function ProbeLook(s: State, p: Pid, q: Pid): Option<State>
    requires p in s.paths
  {
    var x := s.paths[p];
    if x.w.Probe? && q in x.w.unseen then
      if LookAt(s, q).Short? then Some(Put(s.(mix := Free), p, x.(w := Release)))
      else Some(Put(s, p, x.(w := Probe(x.w.unseen - {q}, x.w.found || LookAt(s, q).Enough?))))
    else None
  }

  ghost function ProbeVerdict(s: State, p: Pid): Option<State>
    requires p in s.paths
  {
    var x := s.paths[p];
    if x.w.Probe? && x.w.unseen == {} then
      Some(Put((if x.w.found then s.(token := true, wait := false) else s).(mix := Free), p, x.(w := Release)))
    else None
  }

  datatype ScanAct = Take | LookOne(q: Pid) | Verdict

  ghost function ProbeStep(s: State, p: Pid, a: ScanAct): Option<State>
    requires p in s.paths
  {
    match a
    case Take => ProbeTake(s, p)
    case LookOne(q) => ProbeLook(s, p, q)
    case Verdict => ProbeVerdict(s, p)
  }

  // ---------------------------------------------------------------- attaching and detaching

  ghost function Attach(s: State, p: Pid, mode: Mode, sync: bool): Option<State> {
    if s.ManagerFree() && s.list == Free && p !in s.paths
    then Some(Put(s, p, Path(Idle, false, false, false, 0, mode, sync))) else None
  }

  /** The paths but one. */
  ghost function Others(paths: map<Pid, Path>, p: Pid): (left: map<Pid, Path>)
    ensures left.Keys == paths.Keys - {p} && forall q :: q in left ==> left[q] == paths[q]
  {
    map q | q in paths && q != p :: paths[q]
  }

  /** Takes a path out while its writer is away; the writer function of a path left alone is
      chosen anew. */
  ghost function Detach(s: State, p: Pid, mode: Mode, sync: bool): Option<State> {
    if s.ManagerFree() && s.list == Free && p in s.paths && s.paths[p].w == Idle then
      var left := Others(s.paths, p);
      var fixed := if |left| == 1 then map q | q in left :: left[q].(mode := mode, sync := sync) else left;
      Some(s.(paths := fixed, g := Removed, list := ByManager,
              started := s.started && left != map[], late := s.late - {p}))
    else None
  }

  ghost function SurveyTake(s: State): Option<State> {
    if s.g != Removed || s.mix != Free then None
    else if s.wait then Some(s.(g := Survey(s.paths.Keys, false), mix := ByManager))
    else Some(s.(g := Unlock))
  }

  ghost function SurveyLook(s: State, q: Pid): Option<State> {
    if s.g.Survey? && q in s.g.unseen then
      if LookAt(s, q).Short? then Some(s.(g := Unlock, mix := Free))
      else Some(s.(g := Survey(s.g.unseen - {q}, s.g.found || LookAt(s, q).Enough?)))
    else None
  }

  ghost function SurveyVerdict(s: State): Option<State> {
    if s.g.Survey? && s.g.unseen == {} then
      Some((if s.g.found then s.(token := true, wait := false) else s).(g := Unlock, mix := Free))
    else None
  }

  ghost function LetGo(s: State): Option<State> {
    if s.g == Unlock then Some(s.(g := Rest, list := Free)) else None
  }

  datatype ManageAct =
    | In(p: Pid, mode: Mode, sync: bool) | Out(p: Pid, mode: Mode, sync: bool)
    | STake | SLook(q: Pid) | SVerdict | SUnlock

  ghost function ManagerStep(s: State, a: ManageAct): Option<State> {
    match a
    case In(p, mode, sync) => Attach(s, p, mode, sync)
    case Out(p, mode, sync) => Detach(s, p, mode, sync)
    case STake => SurveyTake(s)
    case SLook(q) => SurveyLook(s, q)
    case SVerdict => SurveyVerdict(s)
    case SUnlock => LetGo(s)
  }

  // ---------------------------------------------------------------- taking the target away

  datatype LeaveAct = Raise | TakeManager | SendExit

  /** sw_mixer_target_detach up to where it waits for the mixing thread: exit is raised with no
      lock held, whatever the other threads are doing. */
  ghost function LeaveStep(s: State, a: LeaveAct): Option<State> {
    match a
    case Raise => if s.leave == Staying then Some(s.(leave := Raised)) else None
    case TakeManager => if s.leave == Raised && s.ManagerFree() then Some(s.(leave := Locked)) else None
    case SendExit => if s.leave == Locked && s.mix == Free then Some(Notify(s).(leave := Signalled)) else None
  }

  // ---------------------------------------------------------------- the invariant

  /** What holds of the locks and of one path and its writer at all times. */
  ghost predicate PathOk(c: Config, mix: Owner, wait: bool, direct: bool, p: Pid, x: Path) {
    && (x.underflow ==> !x.start)
    && (x.enough <==> x.count >= c.T)
    && x.count <= 8 * c.T + c.W
    && (x.w == Mute ==> !x.start)
    && (x.w.Direct? || x.w.InDirect? ==> x.count == 0)
    && (Signalling(x.w) ==> Mixable(x))
    && (mix == ByWriter(p) <==> x.w.Probe?)
    && (x.w.Probe? ==> wait && (x.w.found || p in x.w.unseen))
    && (direct ==> x.count == 0 && (x.w == Idle || x.w == Enter || x.w == Direct || x.w == InDirect))
  }

  ghost predicate PathsOk(c: Config, s: State) {
    forall p :: p in s.paths ==> PathOk(c, s.mix, s.wait, s.direct, p, s.paths[p])
  }

  ghost predicate ThreadsOk(s: State) {
    && (s.mix == ByMixer <==> s.m.Scanning? || s.m == Arming || s.m.Relocked?)
    && (s.mix == ByManager <==> s.g.Survey?)
    && (s.mix.ByWriter? ==> s.mix.p in s.paths)
    && (s.list == ByMixer <==> s.m.Checking? || s.m.Mixing?)
    && (s.list == ByManager <==> s.g == Removed || s.g.Survey? || s.g == Unlock)
    && (s.wait ==> s.m.Blocked? || s.m.Woken?)
    && (s.g.Survey? ==> s.wait)
    && (s.m.Blocked? && !s.wait ==> s.token)
    && (s.m.Blocked? && s.wait ==> (s.direct <==> s.m.untimed))
    && (s.m.Blocked? && s.wait && s.m.untimed && s.Exit() ==> s.token || s.leave == Raised || s.leave == Locked)
  }

  ghost predicate Filled(c: Config, s: State, ps: set<Pid>) {
    forall p :: p in ps ==> p in s.paths && s.paths[p].count >= c.T
  }

  ghost predicate MixOk(c: Config, s: State) {
    && (s.m.Checking? ==> s.m.unseen <= s.paths.Keys && Filled(c, s, s.m.chosen))
    && (s.m.Mixing? ==> Filled(c, s, s.m.todo))
  }

  /** The paths already looked at are mixable only if their writer has yet to signal. */
  ghost predicate Covered(s: State, unseen: set<Pid>) {
    forall p :: p in s.paths && p !in unseen && Mixable(s.paths[p]) ==> s.paths[p].w == Signal
  }

  /** A verdict "not ready" was right, or a signal is on the way; and a thread blocked with
      the waiting flag set while the target is ready has a token or a signal on the way. */
  ghost predicate WakeOk(s: State) {
    && (s.m.Scanning? && !s.m.found ==> Covered(s, s.m.unseen))
    && (s.g.Survey? && !s.g.found ==> Covered(s, s.g.unseen))
    && (s.m == Arming && Ready(s) ==> Pending(s))
    && (s.m.Blocked? && s.wait && Ready(s) ==> s.token || Pending(s))
  }

  ghost predicate Invariant(c: Config, s: State) {
    c.Valid() && PathsOk(c, s) && ThreadsOk(s) && MixOk(c, s) && WakeOk(s)
  }


  // ---------------------------------------------------------------- changing one path

  /** A change of one path by its writer or by the mixing thread that needs no signal, or is
      followed by one: it makes the path mixable, or takes it out of the way, only on the way
      to a signal. */
  ghost predicate Gentle(x: Path, y: Path) {
    && !Signalling(x.w) && !y.w.Probe?
    && (Mixable(y) && !Mixable(x) ==> y.w == Signal)
    && (x.start && !x.enough && !(y.start && !y.enough) ==> y.w == Signal)
    && (y.start && !x.start ==> y.w == Signal || !y.enough)
  }

  lemma PutPaths(c: Config, s: State, p: Pid, y: Path)
    requires p in s.paths && PathsOk(c, s) && PathOk(c, s.mix, s.wait, s.direct, p, y)
    ensures PathsOk(c, Put(s, p, y))
  {
  }

  lemma PutReady(s: State, p: Pid, y: Path)
    requires p in s.paths && Gentle(s.paths[p], y)
    ensures Ready(Put(s, p, y)) ==> Ready(s) || Pending(Put(s, p, y))
    ensures Pending(s) ==> Pending(Put(s, p, y))
  {
    var t := Put(s, p, y);
    assert p in t.paths && t.paths[p] == y;
    if Pending(s) && !s.g.Removed? && !s.g.Survey? {
      var q :| q in s.paths && Signalling(s.paths[q].w);
      assert q in t.paths && Signalling(t.paths[q].w);
    }
    if Ready(t) && y.w != Signal {
      var q :| q in t.paths && t.paths[q].start;
      forall r | r in s.paths && s.paths[r].start ensures s.paths[r].enough {
        assert r in t.paths;
      }
      assert s.paths[q].start;
    }
  }

  lemma PutCovered(s: State, p: Pid, y: Path, unseen: set<Pid>)
    requires p in s.paths && Gentle(s.paths[p], y) && Covered(s, unseen)
    ensures Covered(Put(s, p, y), unseen)
  {
  }

  lemma PutKeeps(c: Config, s: State, p: Pid, y: Path)
    requires p in s.paths && Invariant(c, s) && Gentle(s.paths[p], y)
    requires PathOk(c, s.mix, s.wait, s.direct, p, y) && y.count >= s.paths[p].count
    ensures Invariant(c, Put(s, p, y))
  {
    PutPaths(c, s, p, y);
    PutReady(s, p, y);
    if s.m.Scanning? && !s.m.found {
      PutCovered(s, p, y, s.m.unseen);
    }
    if s.g.Survey? && !s.g.found {
      PutCovered(s, p, y, s.g.unseen);
    }
  }

  lemma LocalIsGentle(c: Config, mix: Owner, wait: bool, direct: bool, p: Pid, x: Path, alone: bool, free: bool, a: WriteAct)
    requires c.Valid() && PathOk(c, mix, wait, direct, p, x) && WriteLocal(c, alone, free, x, a).Some?
    ensures var y := WriteLocal(c, alone, free, x, a).value;
            PathOk(c, mix, wait, direct, p, y) && Gentle(x, y) && y.count >= x.count
  {
  }

  lemma WriteKeeps(c: Config, s: State, p: Pid, a: WriteAct)
    requires p in s.paths && Invariant(c, s) && WriteStep(c, s, p, a).Some?
    ensures Invariant(c, WriteStep(c, s, p, a).value)
  {
    assert c.Valid() && PathOk(c, s.mix, s.wait, s.direct, p, s.paths[p]);
    hide WriteLocal, Gentle, Invariant, PathOk;
    LocalIsGentle(c, s.mix, s.wait, s.direct, p, s.paths[p], |s.paths| == 1, !s.directLock, a);
    var y := WriteLocal(c, |s.paths| == 1, !s.directLock, s.paths[p], a).value;
    var d, b := a.DirectGo? || (s.directLock && !a.DirectEnd?), s.started || a.Prepare?;
    PutKeeps(c, s, p, y);
    hide Put;
    FreeFields(c, Put(s, p, y), d, b, if a.DirectGo? then s.late + {p} else s.late);
  }

  /** The direct lock, the start flag and the history play no part in the invariant. */
  lemma FreeFields(c: Config, s: State, d: bool, b: bool, late: set<Pid>)
    requires Invariant(c, s)
    ensures Invariant(c, s.(directLock := d, started := b, late := late))
  {
  }

  // ---------------------------------------------------------------- scans

  lemma LookFacts(s: State, unseen: set<Pid>, q: Pid)
    ensures LookAt(s, q).Short? ==> !Ready(s)
    ensures LookAt(s, q).Skip? && Covered(s, unseen) ==> Covered(s, unseen - {q})
  {
  }

  lemma CoveredMeansPending(s: State)
    requires Covered(s, {}) && Ready(s)
    ensures exists p :: p in s.paths && s.paths[p].w == Signal
    ensures Pending(s)
  {
    var p :| p in s.paths && s.paths[p].start;
    assert Mixable(s.paths[p]);
  }

  lemma ScanShortKeeps(c: Config, s: State, p: Pid)
    requires Invariant(c, s) && WaitScan(s, p).Some? && LookAt(s, p).Short?
    ensures Invariant(c, s.(m := Arming))
  {
    LookFacts(s, {}, p);
    assert Ready(s.(m := Arming)) <==> Ready(s);
  }

  lemma ScanOnKeeps(c: Config, s: State, p: Pid)
    requires Invariant(c, s) && s.m.Scanning?
    ensures LookAt(s, p).Skip? ==> Invariant(c, s.(m := Scanning(s.m.unseen - {p}, s.m.found)))
    ensures Invariant(c, s.(m := Scanning(s.m.unseen - {p}, true)))
  {
    LookFacts(s, s.m.unseen, p);
  }

  lemma ScanKeeps(c: Config, s: State, p: Pid)
    requires Invariant(c, s) && WaitScan(s, p).Some?
    ensures Invariant(c, WaitScan(s, p).value)
  {
    hide Invariant;
    if LookAt(s, p).Short? {
      ScanShortKeeps(c, s, p);
    } else {
      ScanOnKeeps(c, s, p);
    }
  }

  lemma ScanEndKeeps(c: Config, s: State)
    requires Invariant(c, s) && WaitScanEnd(s).Some?
    ensures Invariant(c, WaitScanEnd(s).value)
  {
    if !s.m.found && Ready(s) {
      CoveredMeansPending(s);
    }
  }

  lemma LockKeeps(c: Config, s: State)
    requires Invariant(c, s) && WaitLock(s).Some?
    ensures Invariant(c, WaitLock(s).value)
  {
  }

  lemma ArmKeeps(c: Config, s: State, timeLeft: bool)
    requires Invariant(c, s) && WaitArm(s, timeLeft).Some?
    ensures Invariant(c, WaitArm(s, timeLeft).value)
  {
  }

  lemma WakeKeeps(c: Config, s: State)
    requires Invariant(c, s)
    ensures WaitWake(s).Some? ==> Invariant(c, WaitWake(s).value)
    ensures WaitTimeout(s).Some? ==> Invariant(c, WaitTimeout(s).value)
  {
  }

  lemma RelockKeeps(c: Config, s: State)
    requires Invariant(c, s) && WaitRelock(s).Some?
    ensures Invariant(c, WaitRelock(s).value)
  {
  }

  /** In direct mode nothing is mixable, so going to sleep needs no look at the paths. */
  lemma DirectNotReady(c: Config, s: State)
    requires PathsOk(c, s) && c.Valid() && s.direct
    ensures !Ready(s)
  {
    assert forall p :: p in s.paths ==> !s.paths[p].enough;
  }

  lemma BeginKeeps(c: Config, s: State)
    requires Invariant(c, s) && s.m.Relocked?
    ensures Invariant(c, BeginScan(s))
  {
  }

  lemma SleepOnKeeps(c: Config, s: State)
    requires Invariant(c, s) && s.m.Relocked? && s.direct && !s.Exit()
    ensures Invariant(c, s.(m := Blocked(true), wait := true, mix := Free))
  {
    DirectNotReady(c, s);
  }

  lemma GiveUpKeeps(c: Config, s: State)
    requires Invariant(c, s) && s.m.Relocked?
    ensures Invariant(c, s.(m := Returned(false), mix := Free))
  {
  }

  lemma AfterKeeps(c: Config, s: State)
    requires Invariant(c, s) && WaitAfter(s).Some?
    ensures Invariant(c, WaitAfter(s).value)
  {
    hide Invariant;
    if s.Exit() {
      GiveUpKeeps(c, s);
    } else if s.direct {
      SleepOnKeeps(c, s);
    } else {
      BeginKeeps(c, s);
    }
  }

  lemma PassKeeps(c: Config, s: State)
    requires Invariant(c, s) && WaitPass(s).Some?
    ensures Invariant(c, WaitPass(s).value)
  {
    hide Invariant;
    BeginKeeps(c, s);
  }

  lemma WaitKeeps(c: Config, s: State, a: WaitAct)
    requires Invariant(c, s) && WaitStep(s, a).Some?
    ensures Invariant(c, WaitStep(s, a).value)
  {
    hide Invariant, WaitLock, WaitScan, WaitScanEnd, WaitArm, WaitWake, WaitTimeout, WaitRelock, WaitAfter, WaitPass;
    match a
    case Lock => LockKeeps(c, s);
    case Scan(p) => ScanKeeps(c, s, p);
    case ScanEnd => ScanEndKeeps(c, s);
    case Arm(timeLeft) => ArmKeeps(c, s, timeLeft);
    case Wake => WakeKeeps(c, s);
    case Timeout => WakeKeeps(c, s);
    case Relock => RelockKeeps(c, s);
    case After => AfterKeeps(c, s);
    case Pass => PassKeeps(c, s);
  }

  // ---------------------------------------------------------------- mixing

  /** The mixing thread changes a path only between its own scans. */
  lemma MixerPut(c: Config, s: State, p: Pid, y: Path)
    requires p in s.paths && Invariant(c, s) && (s.m.Checking? || s.m.Mixing?)
    requires PathOk(c, s.mix, s.wait, s.direct, p, y) && y.w == s.paths[p].w
    requires Mixable(y) ==> Mixable(s.paths[p])
    requires s.m.Checking? && p in s.m.chosen ==> y.count >= c.T
    requires s.m.Mixing? ==> p !in s.m.todo
    ensures Invariant(c, Put(s, p, y))
  {
    PutPaths(c, s, p, y);
  }

  /** The mixing thread moves on in its own lists. */
  lemma MixerMove(c: Config, s: State, to: Mixer)
    requires Invariant(c, s) && MixOk(c, s.(m := to))
    requires (s.m.Checking? && to.Checking?) || (s.m.Mixing? && to.Mixing?)
    ensures Invariant(c, s.(m := to))
  {
  }

  lemma CheckKeeps(c: Config, s: State, p: Pid)
    requires Invariant(c, s) && MixCheck(c, s, p).Some?
    ensures Invariant(c, MixCheck(c, s, p).value)
  {
    var x, rest := s.paths[p], s.m.unseen - {p};
    var to := Checking(s.m.ready, rest, if x.start && x.count >= c.T then s.m.chosen + {p} else s.m.chosen);
    MixerMove(c, s, to);
    if x.start && x.count < c.T {
      MixerPut(c, s.(m := to), p, x.(start := false, underflow := true));
    }
  }

  lemma OneKeeps(c: Config, s: State, p: Pid)
    requires Invariant(c, s) && MixOne(c, s, p).Some?
    ensures Invariant(c, MixOne(c, s, p).value)
  {
    var x, to := s.paths[p], Mixing(s.m.todo - {p});
    MixerMove(c, s, to);
    MixerPut(c, s.(m := to), p, x.(count := x.count - c.T, enough := x.enough && x.count - c.T >= c.T));
  }

  lemma StartKeeps(c: Config, s: State)
    requires Invariant(c, s)
    ensures MixStart(s).Some? ==> Invariant(c, MixStart(s).value)
    ensures MixFinish(s).Some? ==> Invariant(c, MixFinish(s).value)
  {
  }

  lemma NoneChosenKeeps(c: Config, s: State)
    requires Invariant(c, s) && s.m.Checking?
    ensures Invariant(c, s.(m := WantMix, list := Free))
  {
  }

  lemma SomeChosenKeeps(c: Config, s: State)
    requires Invariant(c, s) && s.m.Checking?
    ensures Invariant(c, s.(m := Mixing(s.m.chosen)))
  {
  }

  lemma CheckEndKeeps(c: Config, s: State)
    requires Invariant(c, s) && MixCheckEnd(s).Some?
    ensures Invariant(c, MixCheckEnd(s).value)
  {
    hide Invariant;
    NoneChosenKeeps(c, s);
    SomeChosenKeeps(c, s);
  }

  lemma EndKeeps(c: Config, s: State)
    requires Invariant(c, s) && MixEnd(s).Some?
    ensures Invariant(c, MixEnd(s).value)
  {
  }

  lemma MixKeeps(c: Config, s: State, a: MixAct)
    requires Invariant(c, s) && MixStep(c, s, a).Some?
    ensures Invariant(c, MixStep(c, s, a).value)
  {
    hide Invariant, MixStart, MixCheck, MixCheckEnd, MixOne, MixEnd, MixFinish;
    match a
    case Start => StartKeeps(c, s);
    case Check(p) => CheckKeeps(c, s, p);
    case CheckEnd => CheckEndKeeps(c, s);
    case One(p) => OneKeeps(c, s, p);
    case End => EndKeeps(c, s);
    case Finish => StartKeeps(c, s);
  }

  // ---------------------------------------------------------------- a writer's choice and signal

  lemma {:induction false} OnlyPath(s: State, p: Pid)
    requires |s.paths| == 1 && p in s.paths
    ensures s.paths.Keys == {p}
  {
    assert |s.paths.Keys - {p}| == 0;
    assert s.paths.Keys == (s.paths.Keys - {p}) + {p};
  }

  /** Direct mode may be switched on when no path holds data and no writer is further on. */
  lemma FlipKeeps(c: Config, s: State, to: bool)
    requires Invariant(c, s) && s.mix == Free
    requires to ==> forall p :: p in s.paths ==>
               s.paths[p].count == 0 && (s.paths[p].w == Idle || s.paths[p].w == Enter || s.paths[p].w == Direct)
    ensures Invariant(c, Notify(s.(direct := to)))
  {
  }

  lemma ChooseDirectKeeps(c: Config, s: State, p: Pid)
    requires p in s.paths && Invariant(c, s) && s.paths[p].w == Enter && s.mix == Free
    requires |s.paths| == 1 && s.paths[p].count == 0
    ensures Invariant(c, Put(if s.direct then s else Notify(s.(direct := true)), p, s.paths[p].(w := Direct)))
  {
    var y := s.paths[p].(w := Direct);
    PutKeeps(c, s, p, y);
    if !s.direct {
      OnlyPath(s, p);
      FlipKeeps(c, Put(s, p, y), true);
      assert Put(Notify(s.(direct := true)), p, y) == Notify(Put(s, p, y).(direct := true));
    }
  }

  lemma ChooseIndirectKeeps(c: Config, s: State, p: Pid)
    requires p in s.paths && Invariant(c, s) && s.paths[p].w == Enter && s.mix == Free
    ensures Invariant(c, Put(if s.direct then Notify(s.(direct := false)) else s, p, s.paths[p].(w := Indirect)))
  {
    if s.direct {
      FlipKeeps(c, s, false);
    }
    PutKeeps(c, if s.direct then Notify(s.(direct := false)) else s, p, s.paths[p].(w := Indirect));
  }

  lemma ChooseKeeps(c: Config, s: State, p: Pid)
    requires p in s.paths && Invariant(c, s) && Choose(s, p).Some?
    ensures Invariant(c, Choose(s, p).value)
  {
    hide Invariant, Put, Notify;
    if |s.paths| == 1 && s.paths[p].sync && s.paths[p].count == 0 {
      ChooseDirectKeeps(c, s, p);
    } else {
      ChooseIndirectKeeps(c, s, p);
    }
  }

  /** Moving a writer on changes neither readiness nor any other thread's pending signal. */
  lemma MoveOn(s: State, p: Pid, v: Writer)
    requires p in s.paths
    ensures var t := Put(s, p, s.paths[p].(w := v));
            (Ready(t) <==> Ready(s)) && (Signalling(v) ==> Pending(t))
  {
    var t := Put(s, p, s.paths[p].(w := v));
    assert p in t.paths && t.paths[p].w == v;
    assert forall q :: q in t.paths <==> q in s.paths;
    assert forall q :: q in s.paths ==> t.paths[q].start == s.paths[q].start && t.paths[q].enough == s.paths[q].enough;
  }

  /** A writer takes the lock for its scan; the thread it may have to wake is waiting. */
  lemma ProbeBeginKeeps(c: Config, s: State, p: Pid)
    requires p in s.paths && Invariant(c, s) && s.paths[p].w == Signal && s.mix == Free && s.wait
    ensures Invariant(c, Put(s.(mix := ByWriter(p)), p, s.paths[p].(w := Probe(s.paths.Keys, false))))
  {
    MoveOn(s.(mix := ByWriter(p)), p, Probe(s.paths.Keys, false));
  }

  lemma ProbeSkipKeeps(c: Config, s: State, p: Pid)
    requires p in s.paths && Invariant(c, s) && s.paths[p].w == Signal && s.mix == Free && !s.wait
    ensures Invariant(c, Put(s, p, s.paths[p].(w := Release)))
  {
    MoveOn(s, p, Release);
  }

  lemma LookOnKeeps(c: Config, s: State, p: Pid, q: Pid)
    requires p in s.paths && Invariant(c, s) && ProbeLook(s, p, q).Some? && !LookAt(s, q).Short?
    ensures Invariant(c, ProbeLook(s, p, q).value)
  {
    var v := s.paths[p].w;
    MoveOn(s, p, Probe(v.unseen - {q}, v.found || LookAt(s, q).Enough?));
  }

  lemma LookShortKeeps(c: Config, s: State, p: Pid, q: Pid)
    requires p in s.paths && Invariant(c, s) && ProbeLook(s, p, q).Some? && LookAt(s, q).Short?
    ensures Invariant(c, ProbeLook(s, p, q).value)
  {
    LookFacts(s, {}, q);
    MoveOn(s.(mix := Free), p, Release);
  }

  lemma VerdictKeeps(c: Config, s: State, p: Pid)
    requires p in s.paths && Invariant(c, s) && ProbeVerdict(s, p).Some?
    ensures Invariant(c, ProbeVerdict(s, p).value)
  {
  }

  lemma ProbeKeeps(c: Config, s: State, p: Pid, a: ScanAct)
    requires p in s.paths && Invariant(c, s) && ProbeStep(s, p, a).Some?
    ensures Invariant(c, ProbeStep(s, p, a).value)
  {
    hide Invariant, ProbeLook, ProbeVerdict, Put;
    match a
    case Take =>
      if s.wait {
        ProbeBeginKeeps(c, s, p);
      } else {
        ProbeSkipKeeps(c, s, p);
      }
    case LookOne(q) =>
      if LookAt(s, q).Short? {
        LookShortKeeps(c, s, p, q);
      } else {
        LookOnKeeps(c, s, p, q);
      }
    case Verdict => VerdictKeeps(c, s, p);
  }

  // ---------------------------------------------------------------- attaching and detaching

  lemma AttachKeeps(c: Config, s: State, p: Pid, mode: Mode, sync: bool)
    requires Invariant(c, s) && Attach(s, p, mode, sync).Some?
    ensures Invariant(c, Attach(s, p, mode, sync).value)
  {
    var t := Attach(s, p, mode, sync).value;
    assert forall q :: q in s.paths ==> q in t.paths && t.paths[q] == s.paths[q];
    if Ready(t) {
      var q :| q in t.paths && t.paths[q].start;
      assert q in s.paths && s.paths[q].start;
    }
  }

  /** What is left keeps all but its mode. */
  ghost predicate Without(before: map<Pid, Path>, p: Pid, now: map<Pid, Path>) {
    && now.Keys == before.Keys - {p}
    && forall q :: q in now ==> now[q] == before[q].(mode := now[q].mode, sync := now[q].sync)
  }

  lemma RemovedPaths(c: Config, s: State, p: Pid, ps: map<Pid, Path>)
    requires PathsOk(c, s) && p in s.paths && s.paths[p].w == Idle && Without(s.paths, p, ps)
    ensures PathsOk(c, s.(paths := ps))
    ensures s.mix.ByWriter? && s.mix.p in s.paths ==> s.mix.p in ps
  {
    forall q | q in ps ensures PathOk(c, s.mix, s.wait, s.direct, q, ps[q]) {
      assert q in s.paths && PathOk(c, s.mix, s.wait, s.direct, q, s.paths[q]);
    }
    assert PathOk(c, s.mix, s.wait, s.direct, p, s.paths[p]);
  }

  lemma RemovedKeeps(c: Config, s: State, p: Pid, ps: map<Pid, Path>, b: bool, late: set<Pid>)
    requires Invariant(c, s) && s.ManagerFree() && s.list == Free
    requires p in s.paths && s.paths[p].w == Idle && Without(s.paths, p, ps)
    ensures Invariant(c, s.(paths := ps, g := Removed, list := ByManager, started := b, late := late))
  {
    hide PathOk;
    RemovedPaths(c, s, p, ps);
  }

  lemma DetachKeeps(c: Config, s: State, p: Pid, mode: Mode, sync: bool)
    requires Invariant(c, s) && Detach(s, p, mode, sync).Some?
    ensures Invariant(c, Detach(s, p, mode, sync).value)
  {
    hide Invariant;
    var t := Detach(s, p, mode, sync).value;
    RemovedKeeps(c, s, p, t.paths, t.started, t.late);
  }

  lemma SurveyTakeKeeps(c: Config, s: State)
    requires Invariant(c, s) && SurveyTake(s).Some?
    ensures Invariant(c, SurveyTake(s).value)
  {
  }

  lemma SurveyLookKeeps(c: Config, s: State, q: Pid)
    requires Invariant(c, s) && SurveyLook(s, q).Some?
    ensures Invariant(c, SurveyLook(s, q).value)
  {
    LookFacts(s, s.g.unseen, q);
  }

  lemma SurveyVerdictKeeps(c: Config, s: State)
    requires Invariant(c, s) && SurveyVerdict(s).Some?
    ensures Invariant(c, SurveyVerdict(s).value)
  {
    if !s.g.found && Ready(s) {
      CoveredMeansPending(s);
    }
  }

  lemma LetGoKeeps(c: Config, s: State)
    requires Invariant(c, s) && LetGo(s).Some?
    ensures Invariant(c, LetGo(s).value)
  {
  }

  lemma ManagerKeeps(c: Config, s: State, a: ManageAct)
    requires Invariant(c, s) && ManagerStep(s, a).Some?
    ensures Invariant(c, ManagerStep(s, a).value)
  {
    hide Invariant, Attach, Detach, SurveyTake, SurveyLook, SurveyVerdict, LetGo;
    match a
    case In(p, mode, sync) => AttachKeeps(c, s, p, mode, sync);
    case Out(p, mode, sync) => DetachKeeps(c, s, p, mode, sync);
    case STake => SurveyTakeKeeps(c, s);
    case SLook(q) => SurveyLookKeeps(c, s, q);
    case SVerdict => SurveyVerdictKeeps(c, s);
    case SUnlock => LetGoKeeps(c, s);
  }

  lemma LeaveKeeps(c: Config, s: State, a: LeaveAct)
    requires Invariant(c, s) && LeaveStep(s, a).Some?
    ensures Invariant(c, LeaveStep(s, a).value)
  {
  }

  // ---------------------------------------------------------------- all interleavings

  datatype Act =
    | OfWait(wait: WaitAct) | OfMix(mix: MixAct) | OfChoose(p: Pid)
    | OfWrite(p: Pid, write: WriteAct) | OfProbe(p: Pid, probe: ScanAct) | OfManager(manage: ManageAct)
    | OfLeaver(leave: LeaveAct)

  /** One step of one thread; None when that thread cannot take it now. */
  ghost function Next(c: Config, s: State, a: Act): Option<State> {
    match a
    case OfWait(b) => WaitStep(s, b)
    case OfMix(b) => MixStep(c, s, b)
    case OfChoose(p) => if p in s.paths then Choose(s, p) else None
    case OfWrite(p, b) => if p in s.paths then WriteStep(c, s, p, b) else None
    case OfProbe(p, b) => if p in s.paths then ProbeStep(s, p, b) else None
    case OfManager(b) => ManagerStep(s, b)
    case OfLeaver(b) => LeaveStep(s, b)
  }

  lemma NextKeeps(c: Config, s: State, a: Act)
    requires Invariant(c, s) && Next(c, s, a).Some?
    ensures Invariant(c, Next(c, s, a).value)
  {
    match a
    case OfWait(b) => WaitKeeps(c, s, b);
    case OfMix(b) => MixKeeps(c, s, b);
    case OfChoose(p) => ChooseKeeps(c, s, p);
    case OfWrite(p, b) => WriteKeeps(c, s, p, b);
    case OfProbe(p, b) => ProbeKeeps(c, s, p, b);
    case OfManager(b) => ManagerKeeps(c, s, b);
    case OfLeaver(b) => LeaveKeeps(c, s, b);
  }

  /** A target just attached, its thread about to wait for the first time. */
  const START := State(map[], WantMix, Rest, Staying, Free, Free, false, false, false, false, false, {})

  /** A sequence of steps, the last one outermost. */
  datatype Trace = Nil | Then(before: Trace, act: Act)

  /** The state after a trace, or None if some step could not be taken. */
  ghost function Run(c: Config, tr: Trace): Option<State> {
    match tr
    case Nil => Some(START)
    case Then(before, a) =>
      match Run(c, before)
      case None => None
      case Some(s) => Next(c, s, a)
  }

  lemma {:induction false} RunKeeps(c: Config, tr: Trace)
    requires c.Valid() && Run(c, tr).Some?
    ensures Invariant(c, Run(c, tr).value)
  {
    if tr.Then? {
      RunKeeps(c, tr.before);
      NextKeeps(c, Run(c, tr.before).value, tr.act);
    }
  }

  /** No lost wake-up: whenever the mixing thread is blocked with its waiting flag set and
      every started path has enough data, a token lies in the queue, or a thread that
      published its flags has not yet run its own signal.  Without the flag there is a token. */
  lemma NoLostWakeUp(c: Config, tr: Trace)
    requires c.Valid() && Run(c, tr).Some? && Run(c, tr).value.m.Blocked?
    ensures var s := Run(c, tr).value;
            && (Ready(s) ==> s.token || Pending(s))
            && (!s.wait ==> s.token)
  {
    RunKeeps(c, tr);
  }

  /** The sleep without timeout of direct mode: the thread is woken when the mode is left and
      when the target goes away, whenever that is raised, and it never sleeps over data ready to
      mix.  The signal that is still to come does send a token. */
  lemma UntimedSleepEnds(c: Config, tr: Trace)
    requires c.Valid() && Run(c, tr).Some? && Run(c, tr).value.m == Blocked(true)
    ensures var s := Run(c, tr).value;
            && (!s.direct ==> s.token)
            && (Ready(s) ==> s.token)
            && (s.Exit() ==> s.token || s.leave == Raised || s.leave == Locked)
            && (LeaveStep(s, SendExit).Some? ==> LeaveStep(s, SendExit).value.token)
  {
    RunKeeps(c, tr);
    if Run(c, tr).value.direct {
      DirectNotReady(c, Run(c, tr).value);
    }
  }

  /** In every interleaving the data flag tells whether one target buffer is queued, no queue
      grows beyond eight target buffers and one write, and underflow means not started. */
  lemma FlagsTellTheTruth(c: Config, tr: Trace, p: Pid)
    requires c.Valid() && Run(c, tr).Some? && p in Run(c, tr).value.paths
    ensures var x := Run(c, tr).value.paths[p];
            && (x.enough <==> x.count >= c.T)
            && x.count <= 8 * c.T + c.W
            && (x.underflow ==> !x.start)
  {
    RunKeeps(c, tr);
  }

  // ---------------------------------------------------------------- a mix begun when ready

  /** The scan under way, or the one that answered "ready", has looked at p. */
  predicate LookedAt(m: Mixer, p: Pid) {
    || (m.Scanning? && p !in m.unseen)
    || (m.Returned? && m.ready)
    || (m.Checking? && m.ready)
  }

  /** The mix that the scan may lead to has yet to check p. */
  predicate ToBeChecked(m: Mixer, p: Pid) {
    || m.Scanning?
    || (m.Returned? && m.ready)
    || (m.Checking? && m.ready && p in m.unseen)
  }

  /** A path looked at that is started and short was written directly since; and a path written
      directly is started until the mix checks it. */
  ghost predicate LatePath(m: Mixer, late: bool, p: Pid, x: Path) {
    && (LookedAt(m, p) && x.start && !x.enough ==> late)
    && (late && ToBeChecked(m, p) ==> x.start)
  }

  ghost predicate LateOk(s: State) {
    && s.late <= s.paths.Keys
    && forall p :: p in s.paths ==> LatePath(s.m, p in s.late, p, s.paths[p])
  }

  lemma LateScan(s: State, p: Pid)
    requires LateOk(s) && WaitScan(s, p).Some?
    ensures LateOk(WaitScan(s, p).value)
  {
  }

  /** Every other step of the wait begins a scan, ends one, or is away from scan and mix. */
  lemma LateBegin(s: State, t: State)
    requires LateOk(s) && t.paths == s.paths
    requires if t.m.Scanning? then t.m.unseen == t.paths.Keys && t.late == {} else t.late == s.late
    requires t.m.Checking? || (t.m.Returned? && t.m.ready) ==> s.m == Scanning({}, true) && t.m == Returned(true)
    ensures LateOk(t)
  {
  }

  lemma LateWait(s: State, a: WaitAct)
    requires LateOk(s) && WaitStep(s, a).Some?
    ensures LateOk(WaitStep(s, a).value)
  {
    hide LateOk, WaitScan;
    match a
    case Scan(p) => LateScan(s, p);
    case _ => LateBegin(s, WaitStep(s, a).value);
  }

  /** The mix has checked p, and stopped it if it changed it. */
  lemma LateChecked(s: State, t: State, p: Pid, y: Path)
    requires p in s.paths && LateOk(s) && t.late == s.late && t.paths == s.paths[p := y]
    requires s.m.Checking? && t.m.Checking? && t.m.ready == s.m.ready && t.m.unseen == s.m.unseen - {p}
    requires y == s.paths[p] || !y.start
    ensures LateOk(t)
  {
  }

  lemma LateCheck(c: Config, s: State, p: Pid)
    requires LateOk(s) && MixCheck(c, s, p).Some?
    ensures LateOk(MixCheck(c, s, p).value)
  {
    hide LateOk, HoldsPathLock;
    var x, rest := s.paths[p], s.m.unseen - {p};
    if x.start && x.count < c.T {
      var y := x.(start := false, underflow := true);
      LateChecked(s, Put(s.(m := Checking(s.m.ready, rest, s.m.chosen)), p, y), p, y);
    } else {
      assert s.paths[p := x] == s.paths;
      LateChecked(s, MixCheck(c, s, p).value, p, x);
    }
  }

  lemma LateStart(s: State)
    requires LateOk(s) && MixStart(s).Some?
    ensures LateOk(MixStart(s).value)
  {
  }

  lemma LateMix(c: Config, s: State, a: MixAct)
    requires LateOk(s) && MixStep(c, s, a).Some?
    ensures LateOk(MixStep(c, s, a).value)
  {
    hide MixCheck, MixStart;
    if a.Check? {
      LateCheck(c, s, a.p);
    } else if a.Start? {
      LateStart(s);
    }
  }

  lemma LateWrite(c: Config, s: State, p: Pid, a: WriteAct)
    requires p in s.paths && Invariant(c, s) && LateOk(s) && WriteStep(c, s, p, a).Some?
    ensures LateOk(WriteStep(c, s, p, a).value)
  {
  }

  lemma LateDetach(s: State, p: Pid, mode: Mode, sync: bool)
    requires LateOk(s) && Detach(s, p, mode, sync).Some?
    ensures LateOk(Detach(s, p, mode, sync).value)
  {
    hide LookedAt, ToBeChecked;
  }

  lemma LateManager(s: State, a: ManageAct)
    requires LateOk(s) && ManagerStep(s, a).Some?
    ensures LateOk(ManagerStep(s, a).value)
  {
    hide LookedAt, ToBeChecked, LookAt, Detach;
    if a.Out? {
      LateDetach(s, a.p, a.mode, a.sync);
    }
  }

  /** A step that at most moves a writer on, and no mixing thread. */
  lemma LateMoved(s: State, t: State, p: Pid, v: Writer)
    requires p in s.paths && LateOk(s) && t.m == s.m && t.late == s.late
    requires t.paths == s.paths[p := s.paths[p].(w := v)]
    ensures LateOk(t)
  {
  }

  lemma LateLook(s: State, p: Pid, q: Pid)
    requires p in s.paths && LateOk(s) && ProbeLook(s, p, q).Some?
    ensures LateOk(ProbeLook(s, p, q).value)
  {
    hide LateOk, LookAt;
    var v := s.paths[p].w;
    LateMoved(s, ProbeLook(s, p, q).value, p,
              if LookAt(s, q).Short? then Release else Probe(v.unseen - {q}, v.found || LookAt(s, q).Enough?));
  }

  lemma LateProbe(s: State, p: Pid, a: ScanAct)
    requires p in s.paths && LateOk(s) && ProbeStep(s, p, a).Some?
    ensures LateOk(ProbeStep(s, p, a).value)
  {
    hide LateOk, LookAt, ProbeLook;
    match a
    case Take => LateMoved(s, ProbeTake(s, p).value, p, if s.wait then Probe(s.paths.Keys, false) else Release);
    case LookOne(q) => LateLook(s, p, q);
    case Verdict => LateMoved(s, ProbeVerdict(s, p).value, p, Release);
  }

  lemma LateChoose(s: State, p: Pid)
    requires p in s.paths && LateOk(s) && Choose(s, p).Some?
    ensures LateOk(Choose(s, p).value)
  {
    hide LateOk;
    var t := Choose(s, p).value;
    LateMoved(s, t, p, t.paths[p].w);
  }

  lemma LateLeaver(s: State, a: LeaveAct)
    requires LateOk(s) && LeaveStep(s, a).Some?
    ensures LateOk(LeaveStep(s, a).value)
  {
  }

  lemma LateNext(c: Config, s: State, a: Act)
    requires Invariant(c, s) && LateOk(s) && Next(c, s, a).Some?
    ensures LateOk(Next(c, s, a).value)
  {
    hide Invariant, LateOk, WaitStep, MixStep, Choose, WriteStep, ProbeStep, ManagerStep;
    match a
    case OfWait(b) => LateWait(s, b);
    case OfMix(b) => LateMix(c, s, b);
    case OfChoose(p) => LateChoose(s, p);
    case OfWrite(p, b) => LateWrite(c, s, p, b);
    case OfProbe(p, b) => LateProbe(s, p, b);
    case OfManager(b) => LateManager(s, b);
    case OfLeaver(b) => LateLeaver(s, b);
  }

  lemma {:induction false} RunLate(c: Config, tr: Trace)
    requires c.Valid() && Run(c, tr).Some?
    ensures LateOk(Run(c, tr).value)
  {
    if tr.Then? {
      RunKeeps(c, tr.before);
      RunLate(c, tr.before);
      LateNext(c, Run(c, tr.before).value, tr.act);
    }
  }

  ghost predicate Underflown(s: State, p: Pid) {
    p in s.paths && s.paths[p].underflow
  }

  /** Exactly when a mix begun from the answer "ready" marks a path as underflown: the path was
      written directly after the scan began, and holds less than one target buffer. */
  lemma ReadyMixUnderflowsIff(c: Config, tr: Trace, p: Pid)
    requires c.Valid() && Run(c, tr).Some?
    requires MixCheck(c, Run(c, tr).value, p).Some? && Run(c, tr).value.m.ready
    ensures var s := Run(c, tr).value;
            var t := MixCheck(c, s, p).value;
            && (!Underflown(s, p) && Underflown(t, p) <==> p in s.late && s.paths[p].count < c.T)
            && (t.paths != s.paths <==> p in s.late && s.paths[p].count < c.T)
            && forall q :: q in s.paths && q != p ==> q in t.paths && t.paths[q] == s.paths[q]
  {
    RunKeeps(c, tr);
    RunLate(c, tr);
    var s := Run(c, tr).value;
    assert PathOk(c, s.mix, s.wait, s.direct, p, s.paths[p]) && LatePath(s.m, p in s.late, p, s.paths[p]);
    if !(p in s.late && s.paths[p].count < c.T) {
      assert s.paths[p := s.paths[p]] == s.paths;
    }
  }

  // ---------------------------------------------------------------- where readiness is not enough

  const C11 := Config(1, 1)

  const HELD := Path(Direct, false, false, false, 0, Sync, true)
  const FRESH := Path(Idle, false, false, false, 0, Unsync, false)
  const FULL := Path(Idle, true, true, false, 1, Unsync, false)

  const CHOSEN := START.(paths := map[0 := HELD], direct := true)
  const ASLEEP := CHOSEN.(m := Blocked(true), wait := true)
  const JOINED := ASLEEP.(paths := map[0 := HELD, 1 := FRESH.(w := Indirect)], wait := false, token := true,
                          direct := false)
  const PUBLISHED := JOINED.(paths := map[0 := HELD, 1 := FULL], started := true)
  const FOUND_IT := PUBLISHED.(m := Returned(true), token := false)
  const BEGUN := FOUND_IT.(m := Checking(true, {0, 1}, {}), list := ByMixer, late := {0},
                          paths := map[0 := HELD.(w := Idle, start := true), 1 := FULL])

  /** One more step of a trace. */
  ghost predicate Reaches(tr: Trace, s: State) {
    Run(C11, tr) == Some(s)
  }

  lemma Extend(tr: Trace, s: State, a: Act, t: State)
    requires Reaches(tr, s) && Next(C11, s, a) == Some(t)
    ensures Reaches(Then(tr, a), t)
  {
  }

  /** The only source chooses direct mode and is held up before its direct write. */
  function HeldUp(tr: Trace): Trace {
    Then(Then(Then(tr, OfManager(In(0, Sync, true))), OfWrite(0, Begin)), OfChoose(0))
  }

  lemma AfterHeldUp(tr: Trace)
    requires Reaches(tr, START)
    ensures Reaches(HeldUp(tr), CHOSEN)
  {
    hide Reaches;
    var s1 := START.(paths := map[0 := HELD.(w := Idle)]);
    var s2 := START.(paths := map[0 := HELD.(w := Enter)]);
    assert START.paths[0 := s1.paths[0]] == s1.paths;
    assert s1.paths[0 := s2.paths[0]] == s2.paths && s2.paths[0 := HELD] == CHOSEN.paths;
    assert |s2.paths| == 1;
    Extend(tr, START, OfManager(In(0, Sync, true)), s1);
    var t1 := Then(tr, OfManager(In(0, Sync, true)));
    Extend(t1, s1, OfWrite(0, Begin), s2);
    var t2 := Then(t1, OfWrite(0, Begin));
    Extend(t2, s2, OfChoose(0), CHOSEN);
  }

  /** The mixing thread goes to sleep in direct mode. */
  function ToSleep(tr: Trace): Trace {
    Then(Then(Then(Then(tr, OfWait(Lock)), OfWait(Scan(0))), OfWait(ScanEnd)), OfWait(Arm(true)))
  }

  lemma AfterToSleep(tr: Trace)
    requires Reaches(tr, CHOSEN)
    ensures Reaches(ToSleep(tr), ASLEEP)
  {
    hide Reaches;
    var s1 := CHOSEN.(m := Scanning({0}, false), mix := ByMixer);
    var s2 := CHOSEN.(m := Scanning({}, false), mix := ByMixer);
    var s3 := CHOSEN.(m := Arming, mix := ByMixer);
    assert CHOSEN.paths.Keys == {0} && {0} - {0} == {};
    Extend(tr, CHOSEN, OfWait(Lock), s1);
    var t1 := Then(tr, OfWait(Lock));
    Extend(t1, s1, OfWait(Scan(0)), s2);
    var t2 := Then(t1, OfWait(Scan(0)));
    Extend(t2, s2, OfWait(ScanEnd), s3);
    var t3 := Then(t2, OfWait(ScanEnd));
    Extend(t3, s3, OfWait(Arm(true)), ASLEEP);
  }

  /** A second source attaches and leaves direct mode. */
  function SecondSource(tr: Trace): Trace {
    Then(Then(Then(tr, OfManager(In(1, Unsync, false))), OfWrite(1, Begin)), OfChoose(1))
  }

  lemma AfterSecondSource(tr: Trace)
    requires Reaches(tr, ASLEEP)
    ensures Reaches(SecondSource(tr), JOINED)
  {
    hide Reaches;
    var s1 := ASLEEP.(paths := map[0 := HELD, 1 := FRESH]);
    var s2 := ASLEEP.(paths := map[0 := HELD, 1 := FRESH.(w := Enter)]);
    assert ASLEEP.paths[1 := FRESH] == s1.paths && s1.paths[1 := s2.paths[1]] == s2.paths;
    assert s2.paths[1 := JOINED.paths[1]] == JOINED.paths;
    assert s2.paths.Keys == {0, 1} && |s2.paths.Keys| == 2;
    Extend(tr, ASLEEP, OfManager(In(1, Unsync, false)), s1);
    var t1 := Then(tr, OfManager(In(1, Unsync, false)));
    Extend(t1, s1, OfWrite(1, Begin), s2);
    var t2 := Then(t1, OfWrite(1, Begin));
    Extend(t2, s2, OfChoose(1), JOINED);
  }

  /** It publishes a full buffer. */
  function SecondWrite(tr: Trace): Trace {
    Then(Then(Then(Then(tr, OfWrite(1, Prepare(Unsync, false))), OfWrite(1, Publish(1))), OfProbe(1, Take)), OfWrite(1, Done))
  }

  lemma AfterSecondWrite(tr: Trace)
    requires Reaches(tr, JOINED)
    ensures Reaches(SecondWrite(tr), PUBLISHED)
  {
    hide Reaches, Next;
    var s2 := PUBLISHED.(paths := map[0 := HELD, 1 := FULL.(w := Signal)]);
    var s3 := PUBLISHED.(paths := map[0 := HELD, 1 := FULL.(w := Release)]);
    AfterPublish(tr);
    var t2 := Then(Then(tr, OfWrite(1, Prepare(Unsync, false))), OfWrite(1, Publish(1)));
    SignalSteps();
    Extend(t2, s2, OfProbe(1, Take), s3);
    Extend(Then(t2, OfProbe(1, Take)), s3, OfWrite(1, Done), PUBLISHED);
  }

  lemma AfterPublish(tr: Trace)
    requires Reaches(tr, JOINED)
    ensures Reaches(Then(Then(tr, OfWrite(1, Prepare(Unsync, false))), OfWrite(1, Publish(1))),
                    PUBLISHED.(paths := map[0 := HELD, 1 := FULL.(w := Signal)]))
  {
    hide Reaches;
    var s1 := PUBLISHED.(paths := map[0 := HELD, 1 := FRESH.(w := Write)]);
    var s2 := PUBLISHED.(paths := map[0 := HELD, 1 := FULL.(w := Signal)]);
    assert JOINED.paths[1 := s1.paths[1]] == s1.paths && s1.paths[1 := s2.paths[1]] == s2.paths;
    Extend(tr, JOINED, OfWrite(1, Prepare(Unsync, false)), s1);
    Extend(Then(tr, OfWrite(1, Prepare(Unsync, false))), s1, OfWrite(1, Publish(1)), s2);
  }

  lemma SignalSteps()
    ensures var s2 := PUBLISHED.(paths := map[0 := HELD, 1 := FULL.(w := Signal)]);
            var s3 := PUBLISHED.(paths := map[0 := HELD, 1 := FULL.(w := Release)]);
            Next(C11, s2, OfProbe(1, Take)) == Some(s3) && Next(C11, s3, OfWrite(1, Done)) == Some(PUBLISHED)
  {
    var s2 := PUBLISHED.(paths := map[0 := HELD, 1 := FULL.(w := Signal)]);
    var s3 := PUBLISHED.(paths := map[0 := HELD, 1 := FULL.(w := Release)]);
    assert s2.paths[1 := s3.paths[1]] == s3.paths && s3.paths[1 := FULL] == PUBLISHED.paths;
  }

  /** The mixing thread wakes and finds the target ready. */
  function FoundReady(tr: Trace): Trace {
    var awake := Then(Then(Then(tr, OfWait(Wake)), OfWait(Relock)), OfWait(Pass));
    Then(Then(Then(awake, OfWait(Scan(0))), OfWait(Scan(1))), OfWait(ScanEnd))
  }

  lemma AfterFoundReady(tr: Trace)
    requires Reaches(tr, PUBLISHED)
    ensures Reaches(FoundReady(tr), FOUND_IT)
  {
    hide Reaches;
    var s1 := PUBLISHED.(m := Woken(true), token := false);
    var s2 := PUBLISHED.(m := Relocked(true), token := false, mix := ByMixer);
    var s3 := PUBLISHED.(m := Scanning({0, 1}, false), token := false, mix := ByMixer);
    var s4 := PUBLISHED.(m := Scanning({1}, false), token := false, mix := ByMixer);
    var s5 := PUBLISHED.(m := Scanning({}, true), token := false, mix := ByMixer);
    assert s2.paths.Keys == {0, 1} && {0, 1} - {0} == {1} && {1} - {1} == {};
    Extend(tr, PUBLISHED, OfWait(Wake), s1);
    var t1 := Then(tr, OfWait(Wake));
    Extend(t1, s1, OfWait(Relock), s2);
    var t2 := Then(t1, OfWait(Relock));
    Extend(t2, s2, OfWait(Pass), s3);
    var t3 := Then(t2, OfWait(Pass));
    Extend(t3, s3, OfWait(Scan(0)), s4);
    var t4 := Then(t3, OfWait(Scan(0)));
    Extend(t4, s4, OfWait(Scan(1)), s5);
    var t5 := Then(t4, OfWait(Scan(1)));
    Extend(t5, s5, OfWait(ScanEnd), FOUND_IT);
  }

  /** The first source's direct write happens only now, and the mix begins. */
  function LateGo(tr: Trace): Trace {
    Then(Then(Then(tr, OfWrite(0, DirectGo)), OfWrite(0, DirectEnd)), OfMix(Start))
  }

  lemma AfterLateGo(tr: Trace)
    requires Reaches(tr, FOUND_IT)
    ensures Reaches(LateGo(tr), BEGUN)
  {
    hide Reaches;
    var s1 := FOUND_IT.(directLock := true, late := {0}, paths := map[0 := HELD.(w := InDirect, start := true), 1 := FULL]);
    var s2 := FOUND_IT.(late := {0}, paths := map[0 := HELD.(w := Idle, start := true), 1 := FULL]);
    assert FOUND_IT.paths[0 := s1.paths[0]] == s1.paths && s1.paths[0 := s2.paths[0]] == s2.paths;
    assert s2.paths.Keys == {0, 1};
    Extend(tr, FOUND_IT, OfWrite(0, DirectGo), s1);
    var t1 := Then(tr, OfWrite(0, DirectGo));
    Extend(t1, s1, OfWrite(0, DirectEnd), s2);
    var t2 := Then(t1, OfWrite(0, DirectEnd));
    Extend(t2, s2, OfMix(Start), BEGUN);
  }

  const TO_VERDICT := FoundReady(SecondWrite(SecondSource(ToSleep(HeldUp(Nil)))))

  lemma MixUnderflows()
    ensures Ready(FOUND_IT) && !Underflown(BEGUN, 0)
    ensures MixCheck(C11, BEGUN, 0).Some? && Underflown(MixCheck(C11, BEGUN, 0).value, 0)
  {
    assert 1 in FOUND_IT.paths && FOUND_IT.paths[1].start;
  }

  /** So readiness is not enough: here the scan finds the target ready and yet the mix marks a
      path as underflown, because a source that had chosen direct mode while it was alone wrote
      only after the scan. */
  lemma LateDirectWriteUnderflows()
    ensures exists atVerdict, inMix, after ::
              && Run(C11, TO_VERDICT) == Some(atVerdict) && atVerdict.m == Returned(true) && Ready(atVerdict)
              && Run(C11, LateGo(TO_VERDICT)) == Some(inMix) && !Underflown(inMix, 0)
              && MixCheck(C11, inMix, 0) == Some(after) && Underflown(after, 0)
  {
    hide Run, MixCheck, Ready, Underflown;
    assert Reaches(Nil, START) by {
      RunNil();
    }
    AfterHeldUp(Nil);
    AfterToSleep(HeldUp(Nil));
    AfterSecondSource(ToSleep(HeldUp(Nil)));
    AfterSecondWrite(SecondSource(ToSleep(HeldUp(Nil))));
    AfterFoundReady(SecondWrite(SecondSource(ToSleep(HeldUp(Nil)))));
    AfterLateGo(TO_VERDICT);
    MixUnderflows();
  }

  lemma RunNil()
    ensures Run(C11, Nil) == Some(START)
  {
  }
}
