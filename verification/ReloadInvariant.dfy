/** What holds throughout a reload, in every interleaving of the masters and their workers. */
module ReloadInvariant {
  import opened Text
  import opened Reload

  /** Who is who in one reload: the master that got the command and its workers, the intermediate child
      and the new master once they have been forked. */
  datatype Roles = Roles(level: Level, elder: Pid, list: seq<Pid>, mid: Option<Pid>, heir: Option<Pid>)

  function Other(l: Level): Level {
    if l == Soft then Hard else Soft
  }

  // ---------- the old master ----------

  predicate OldOk(r: Roles, o: Process) {
    var m := o.mem;
    && m.oldMaster == r.elder && m.workers == r.list
    && m.ReloadFlag(Other(r.level)) == 0 && !m.StopFlag(Other(r.level))
    && m.ReloadFlag(r.level) == (if r.mid.None? || o.place.Forked? || o.place.Returned? then 1 else 2)
    && (r.mid.None? ==> !m.oldMasterStopped && m.newMaster == 0)
    && (!o.place.Poll? ==> m.level == r.level)
    && match o.place
       case Poll(c) => c <= 3
       case ReadConfig => r.mid.None?
       case Fork => r.mid.None? && m.count > 0
       case Forked | Returned => r.mid.Some?
       case StopKill(i) => m.StopFlag(r.level) && i <= |r.list|
       case StopCall(i) => m.StopFlag(r.level) && i <= |r.list|
       case StopWait(i) => m.StopFlag(r.level) && i < |r.list|
       case StopEnd | Exited => m.StopFlag(r.level)
       case _ => false
  }

  // ---------- the intermediate child ----------

  predicate Copied(r: Roles, m: Memory) {
    && m.oldMaster == r.elder && m.newMaster == 0 && m.workers == r.list && m.level == r.level && m.count > 0
    && m.ReloadFlag(r.level) == 1 && m.ReloadFlag(Other(r.level)) == 0
    && !m.softStop && !m.hardStop && !m.oldMasterStopped
  }

  predicate MidOk(r: Roles, p: Process)
    requires r.mid.Some?
  {
    && Copied(r, p.mem) && p.parent == r.elder
    && (if r.heir.None? then p.place.Forked? || p.place.Fork2? else p.place.Forked2? || p.place.Exited?)
    && (!p.place.Forked? ==> p.mem.pidToFinish == r.mid.value)
  }

  // ---------- the new master ----------

  /** How far the new master has come. */
  function Progress(p: Place): nat {
    match p
    case Forked2 => 0
    case Returned => 1
    case Check => 2
    case ForkWorkers => 3
    case FillPid => 4
    case SignalOld => 5
    case AwaitOld => 6
    case ResetAwait => 7
    case FillPidAgain => 8
    case Promote => 9
    case ClearReload => 10
    case Poll(c) => if c <= 3 then 11 else 12
    case _ => 12
  }

  predicate NeuOk(r: Roles, n: Process)
    requires r.mid.Some? && r.heir.Some?
  {
    var m, k := n.mem, Progress(n.place);
    && k <= 11
    && m.pidToFinish == r.mid.value && m.level == r.level && m.count > 0
    && !m.softStop && !m.hardStop
    && m.ReloadFlag(Other(r.level)) == 0 && m.ReloadFlag(r.level) == (if k <= 10 then 1 else 0)
    && m.oldMaster == (if k <= 9 then r.elder else r.heir.value)
    && m.newMaster == (if 1 <= k <= 9 then r.heir.value else 0)
    && (m.oldMasterStopped ==> 6 <= k <= 7)
    && (k <= 2 ==> m.workers == r.list)
    && (k >= 3 ==> |m.workers| <= m.count)
    && (k >= 4 ==> |m.workers| == m.count)
  }

  /** The old master is told to stop once the new one has its workers, and stops before the new one goes on. */
  predicate Linked(r: Roles, o: Process, n: Process)
    requires r.heir.Some?
  {
    var k := Progress(n.place);
    && o.mem.StopFlag(r.level) == (k >= 6)
    && (k >= 6 ==> o.mem.newMasterPid == r.heir.value)
    && (k == 6 ==> n.mem.oldMasterStopped == o.place.Exited?)
    && (k >= 7 ==> o.place.Exited?)
  }

  // ---------- workers and the pid file ----------

  predicate OldWorkers(ws: map<Pid, Worker>, r: Roles, place: Place) {
    && Generation(ws, r.elder, r.list)
    && match place
       case StopKill(i) => i <= |r.list| && Signalled(ws, r.list, i)
       case StopCall(_) | StopEnd | Exited => Signalled(ws, r.list, |r.list|)
       case StopWait(i) => i < |r.list| && Signalled(ws, r.list, |r.list|) && !ws[r.list[i]].exited
       case _ => Untouched(ws, r.list)
  }

  /** The new master's own workers, as far as it has forked them. */
  function Forkees(n: Process): seq<Pid> {
    if Progress(n.place) <= 2 then [] else n.mem.workers
  }

  predicate NewWorkers(ws: map<Pid, Worker>, heir: Pid, n: Process) {
    Generation(ws, heir, Forkees(n)) && Untouched(ws, Forkees(n))
  }

  function Members(r: Roles): set<Pid> {
    {r.elder} + (if r.mid.Some? then {r.mid.value} else {}) + (if r.heir.Some? then {r.heir.value} else {})
  }

  predicate OthersExited(s: System, members: set<Pid>) {
    forall q :: q in s.procs && q !in members ==> s.procs[q].place == Exited
  }

  predicate Cast(s: System, r: Roles) {
    && r.elder in s.procs
    && (r.mid.Some? ==> r.mid.value in s.procs && r.mid.value != r.elder)
    && (r.heir.Some? ==>
          r.mid.Some? && r.heir.value in s.procs && r.heir.value != r.elder && r.heir.value != r.mid.value)
    && OthersExited(s, Members(r))
  }

  predicate PidFileOk(s: System, r: Roles)
    requires r.heir.Some? ==> r.heir.value in s.procs
  {
    if r.heir.None? || Progress(s.procs[r.heir.value].place) <= 4 then s.pidFile == Some([r.elder] + r.list)
    else s.pidFile == Some([r.heir.value] + s.procs[r.heir.value].mem.workers)
  }

  predicate SameCount(s: System, p: Pid, q: Pid)
    requires p in s.procs && q in s.procs
  {
    s.procs[p].mem.count == s.procs[q].mem.count
  }

  /** A reload is under way; it ends when the old master and the intermediate child have exited and the new
      master is back in the main loop. */
  predicate Reloading(s: System, r: Roles) {
    && Cast(s, r)
    && |r.list| > 0
    && OldOk(r, s.procs[r.elder])
    && OldWorkers(s.workers, r, s.procs[r.elder].place)
    && (r.mid.Some? ==> MidOk(r, s.procs[r.mid.value]) && SameCount(s, r.mid.value, r.elder))
    && (r.heir.None? ==> !s.procs[r.elder].mem.StopFlag(r.level))
    && (r.heir.Some? ==>
          && NeuOk(r, s.procs[r.heir.value])
          && SameCount(s, r.heir.value, r.elder)
          && Linked(r, s.procs[r.elder], s.procs[r.heir.value])
          && NewWorkers(s.workers, r.heir.value, s.procs[r.heir.value]))
    && (r.mid.Some? ==> Generation(s.workers, r.mid.value, []))
    && OthersTold(s.workers, {r.elder} + (if r.heir.Some? then {r.heir.value} else {}))
    && PidFileOk(s, r)
    && PidsBelow(s)
  }
}
