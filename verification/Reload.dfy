/** The master processes, their signals and the pid file, as an interleaved step system. A step is one
    statement of one process, the end of a worker, or a command of the operator. */
module Reload {
  import opened Text

  type Pid = nat

  datatype Level = Soft | Hard

  /** The next statement of a process that runs the code of the master. */
  datatype Place =
    | Poll(check: nat)      // the main loop, about to look at flag number `check`
    | ReadConfig            // server_reload: the configuration is read anew
    | Fork | Forked         // daemonize: before and after the first fork
    | Fork2 | Forked2       // before and after the second fork, in the intermediate child
    | Returned              // back in server_reload
    | Check | ForkWorkers   // apply_config and add_work_processes
    | FillPid | SignalOld | AwaitOld | ResetAwait | FillPidAgain | Promote | ClearReload
    // server_stop: signalling worker i, about to wait for it, inside waitpid, behind the loops
    | StopKill(i: nat) | StopCall(i: nat) | StopWait(i: nat) | StopEnd
    | Exited

  /** Globals, fields and locals of a process; a fork copies them. */
  datatype Memory = Memory(
    softStop: bool, hardStop: bool, softReload: nat, hardReload: nat, oldMasterStopped: bool,
    newMasterPid: Pid, oldMaster: Pid, newMaster: Pid, workers: seq<Pid>, count: int,
    pidToFinish: Pid, level: Level)
  {
    function ReloadFlag(l: Level): nat {
      if l == Soft then softReload else hardReload
    }

    function SetReload(l: Level, v: nat): Memory {
      if l == Soft then this.(softReload := v) else this.(hardReload := v)
    }

    function StopFlag(l: Level): bool {
      if l == Soft then softStop else hardStop
    }

    function SetStop(l: Level, sender: Pid): Memory {
      if l == Soft then this.(softStop := true, newMasterPid := sender)
      else this.(hardStop := true, newMasterPid := sender)
    }
  }

  datatype Process = Process(place: Place, mem: Memory, parent: Pid)

  datatype Worker = Worker(parent: Pid, signalled: bool, exited: bool)

  datatype System = System(procs: map<Pid, Process>, workers: map<Pid, Worker>, pidFile: Option<seq<Pid>>, next: Pid)

  /** `count` is the worker count of the configuration, if it is read in this step. */
  datatype Action =
    | Run(pid: Pid, count: int) | WorkerExits(worker: Pid)
    | Command(master: Pid, level: Level) | OutsideStop(master: Pid, level: Level, sender: Pid)

  predicate Live(s: System, p: Pid) {
    p in s.procs && s.procs[p].place != Exited
  }

  function Goto(s: System, p: Pid, place: Place): System
    requires p in s.procs
  {
    s.(procs := s.procs[p := s.procs[p].(place := place)])
  }

  function Become(s: System, p: Pid, place: Place, mem: Memory): System
    requires p in s.procs
  {
    s.(procs := s.procs[p := s.procs[p].(place := place, mem := mem)])
  }

  /** Handlers are installed without SA_RESTART, so every signal ends a `waitpid` that is blocked, be it with
      the worker waited for or with EINTR; the loop goes on to the next worker either way. */
  function Woken(place: Place): Place {
    match place
    case StopWait(i) => StopCall(i + 1)
    case _ => place
  }

  /** A signal whose handler leaves the memory as given. */
  function Signal(s: System, p: Pid, mem: Memory): System
    requires p in s.procs
  {
    Become(s, p, Woken(s.procs[p].place), mem)
  }

  /** SIGCHLD: the handler raises `has_old_master_stopped`. */
  function NotifyChild(s: System, p: Pid): System {
    if Live(s, p) then Signal(s, p, s.procs[p].mem.(oldMasterStopped := true)) else s
  }

  /** SIGHUP or SIGINT to a master: the handler raises a stop flag and notes the sender. */
  function NotifyStop(s: System, p: Pid, level: Level, sender: Pid): System {
    if Live(s, p) then Signal(s, p, s.procs[p].mem.SetStop(level, sender)) else s
  }

  /** SIGHUP or SIGINT to a worker. */
  function SignalWorker(s: System, w: Pid): System {
    if w in s.workers then s.(workers := s.workers[w := s.workers[w].(signalled := true)]) else s
  }

  /** The process is copied, memory and place; both copies go on from `place`. */
  function ForkMaster(s: System, p: Pid, place: Place): System
    requires p in s.procs
  {
    var child := Process(place, s.procs[p].mem, p);
    s.(procs := s.procs[p := s.procs[p].(place := place)][s.next := child], next := s.next + 1)
  }

  /** Where `server_reload` returns to in the main loop. */
  function Behind(level: Level): Place {
    if level == Soft then Poll(3) else Poll(0)
  }

  /** What server_stop does once its workers have ended. */
  function EndStop(s: System, p: Pid): System
    requires p in s.procs
  {
    var m := s.procs[p].mem;
    if m.ReloadFlag(m.level) == 2 then NotifyChild(Goto(s, p, Exited), m.newMasterPid)
    else Goto(s, p, Exited).(pidFile := None)
  }

  /** The worker is a child of `p` that has not ended, so that `waitpid` blocks on it. */
  predicate Running(s: System, p: Pid, w: Pid) {
    w in s.workers && s.workers[w].parent == p && !s.workers[w].exited
  }

  /** The next statement of process `p`; None while it is inside a blocked `waitpid`. */
  function Statement(s: System, p: Pid, count: int): Option<System>
    requires Live(s, p)
  {
    var m := s.procs[p].mem;
    match s.procs[p].place
    case Poll(check) =>
      if check == 0 && m.softStop then Some(Become(s, p, StopKill(0), m.(level := Soft)))
      else if check == 1 && m.hardStop then Some(Become(s, p, StopKill(0), m.(level := Hard)))
      else if check == 2 && m.softReload == 1 then Some(Become(s, p, ReadConfig, m.(level := Soft)))
      else if check == 3 && m.hardReload == 1 then Some(Become(s, p, ReadConfig, m.(level := Hard)))
      else Some(Goto(s, p, Poll(if check < 3 then check + 1 else 0)))
    case ReadConfig => Some(Become(s, p, Fork, m.(count := count)))
    case Fork => Some(ForkMaster(s, p, Forked))
    case Forked =>
      if p == m.oldMaster then Some(Goto(s, p, Returned)) else Some(Become(s, p, Fork2, m.(pidToFinish := p)))
    case Fork2 => Some(ForkMaster(s, p, Forked2))
    case Forked2 =>
      if p == m.pidToFinish then Some(NotifyChild(Goto(s, p, Exited), s.procs[p].parent))
      else Some(Become(s, p, Returned, m.(newMaster := p)))
    case Returned =>
      if p == m.oldMaster then Some(Become(s, p, Behind(m.level), m.SetReload(m.level, 2)))
      else Some(Goto(s, p, Check))
    case Check =>
      if m.count <= 0 then Some(Become(s, p, StopKill(0), m.(level := Hard)))
      else Some(Become(s, p, ForkWorkers, m.(workers := [])))
    case ForkWorkers =>
      if |m.workers| < m.count then
        var forked := Become(s, p, ForkWorkers, m.(workers := m.workers + [s.next]));
        Some(forked.(workers := s.workers[s.next := Worker(p, false, false)], next := s.next + 1))
      else Some(Goto(s, p, FillPid))
    case FillPid => Some(Goto(s, p, SignalOld).(pidFile := Some([p] + m.workers)))
    case SignalOld => Some(NotifyStop(Goto(s, p, AwaitOld), m.oldMaster, m.level, p))
    case AwaitOld => Some(if m.oldMasterStopped then Goto(s, p, ResetAwait) else s)
    case ResetAwait => Some(Become(s, p, FillPidAgain, m.(oldMasterStopped := false)))
    case FillPidAgain => Some(Goto(s, p, Promote).(pidFile := Some([p] + m.workers)))
    case Promote => Some(Become(s, p, ClearReload, m.(oldMaster := m.newMaster, newMaster := 0)))
    case ClearReload => Some(Become(s, p, Behind(m.level), m.SetReload(m.level, 0)))
    case StopKill(i) =>
      if i < |m.workers| then Some(SignalWorker(Goto(s, p, StopKill(i + 1)), m.workers[i]))
      else Some(Goto(s, p, StopCall(0)))
    case StopCall(i) =>
      if i < |m.workers| then Some(Goto(s, p, if Running(s, p, m.workers[i]) then StopWait(i) else StopCall(i + 1)))
      else Some(Goto(s, p, StopEnd))
    case StopWait(_) => None
    case StopEnd => Some(EndStop(s, p))
    case Exited => None
  }

  // ---------- settled states ----------

  /** No reload or stop is asked for or under way in this memory. */
  predicate Quiet(m: Memory) {
    !m.softStop && !m.hardStop && m.softReload == 0 && m.hardReload == 0 && !m.oldMasterStopped
  }

  /** Every process but `p` has exited. */
  predicate Only(s: System, p: Pid) {
    forall q :: q in s.procs && q != p ==> s.procs[q].place == Exited
  }

  /** The workers of `p` are exactly those listed. */
  predicate Generation(ws: map<Pid, Worker>, p: Pid, list: seq<Pid>) {
    && (forall i :: 0 <= i < |list| ==> list[i] in ws && ws[list[i]].parent == p)
    && (forall i, j :: 0 <= i < j < |list| ==> list[i] != list[j])
    && (forall w :: w in ws && ws[w].parent == p ==> w in list)
  }

  /** None of them has been told to stop, or has ended. */
  predicate Untouched(ws: map<Pid, Worker>, list: seq<Pid>) {
    forall i :: 0 <= i < |list| ==> list[i] in ws && !ws[list[i]].signalled && !ws[list[i]].exited
  }

  /** The first `k` of them have been told to stop. */
  predicate Signalled(ws: map<Pid, Worker>, list: seq<Pid>, k: nat)
    requires k <= |list|
  {
    forall i :: 0 <= i < k ==> list[i] in ws && ws[list[i]].signalled
  }

  /** All workers whose parent is not among `parents` have been told to stop. */
  predicate OthersTold(ws: map<Pid, Worker>, parents: set<Pid>) {
    forall w :: w in ws && ws[w].parent !in parents ==> ws[w].signalled
  }

  predicate PidsBelow(s: System) {
    && (forall q :: q in s.procs ==> 0 < q < s.next)
    && (forall w :: w in s.workers ==> 0 < w < s.next && s.workers[w].parent < s.next)
  }

  /** One master, ready for the next command, with exactly the configured number of workers, all serving,
      and a pid file that lists them behind it; workers of former masters have been told to stop. */
  predicate Settled(s: System, p: Pid) {
    && Live(s, p) && Only(s, p) && s.procs[p].place.Poll? && s.procs[p].place.check <= 3
    && var m := s.procs[p].mem;
    && Quiet(m) && m.oldMaster == p && m.newMaster == 0
    && |m.workers| == m.count && m.count > 0
    && Generation(s.workers, p, m.workers) && Untouched(s.workers, m.workers) && OthersTold(s.workers, {p})
    && s.pidFile == Some([p] + m.workers)
    && PidsBelow(s)
  }

  /** A master to which the operator may give a command: nothing else is under way. */
  predicate Idle(s: System, p: Pid) {
    Live(s, p) && Only(s, p) && s.procs[p].place.Poll? && Quiet(s.procs[p].mem)
  }

  /** One step. A command goes to the idle master, so that one reload is in flight at a time. A worker
      ends only when told to, which sends SIGCHLD to its parent. */
  function Step(s: System, a: Action): Option<System> {
    match a
    case Run(p, count) => if Live(s, p) then Statement(s, p, count) else None
    case WorkerExits(w) =>
      if w in s.workers && s.workers[w].signalled && !s.workers[w].exited then
        Some(NotifyChild(s.(workers := s.workers[w := s.workers[w].(exited := true)]), s.workers[w].parent))
      else None
    case Command(p, level) =>
      if Idle(s, p) then Some(Become(s, p, s.procs[p].place, s.procs[p].mem.SetReload(level, 1))) else None
    case OutsideStop(p, level, sender) =>
      if Idle(s, p) then Some(NotifyStop(s, p, level, sender)) else None
  }
}
