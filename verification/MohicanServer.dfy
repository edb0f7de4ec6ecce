/** The master as an object: its signal handlers, its start and its stop, statement by statement. */
module MohicanServer {
  import opened Text
  import opened Reload

  /** The children that `fork` has made by the time it fails or there are `n`; `results` are its results. */
  function Children(results: seq<int>, n: nat): (pids: seq<Pid>)
    requires forall i :: 0 <= i < |results| ==> results[i] >= -1
    ensures |pids| <= n && |pids| <= |results|
  {
    if n == 0 || results == [] || results[0] == -1 then [] else [results[0]] + Children(results[1..], n - 1)
  }

  lemma {:induction false} ChildrenAre(results: seq<int>, n: nat)
    requires forall i :: 0 <= i < |results| ==> results[i] >= -1
    ensures var pids := Children(results, n);
            && pids == results[..|pids|] && (forall i :: 0 <= i < |pids| ==> results[i] >= 0)
            && (|pids| < n && |pids| < |results| ==> results[|pids|] == -1)
    decreases n
  {
    if n > 0 && results != [] && results[0] != -1 {
      ChildrenAre(results[1..], n - 1);
      var pids := Children(results[1..], n - 1);
      assert results[..|pids| + 1] == [results[0]] + results[1..][..|pids|];
    }
  }

  /** A signal that the master has sent to a worker. */
  datatype Kill = Kill(worker: Pid, level: Level)

  /** How `server_stop` ends: it removes the pid file, or sends SIGCHLD to a new master. */
  datatype Ending = RemovesPidFile | Notifies(master: Pid)

  /** The signals `process_setup_signals` installs a handler for. */
  datatype Sig = SIGPIPE | SIGHUP | SIGINT | SIGALRM | SIGCHLD

  class MohicanServer {
    var processSoftStop: bool
    var processHardStop: bool
    var processSoftReload: nat
    var processHardReload: nat
    var hasOldMasterStopped: bool
    var newMasterPid: Pid
    var oldMasterProcess: Pid
    var newMasterProcess: Pid
    var workersPid: seq<Pid>
    var countWorkflows: int
    var pidToFinish: Pid
    var level: Level

    function View(): Memory
      reads this
    {
      Memory(processSoftStop, processHardStop, processSoftReload, processHardReload, hasOldMasterStopped, newMasterPid,
             oldMasterProcess, newMasterProcess, workersPid, countWorkflows, pidToFinish, level)
    }

    /** The globals start out zero; the count is what the configuration holds. */
    constructor (count: int)
      ensures Quiet(View()) && View().count == count && workersPid == []
      ensures newMasterPid == 0 && newMasterProcess == 0
    {
      processSoftStop, processHardStop, hasOldMasterStopped := false, false, false;
      processSoftReload, processHardReload := 0, 0;
      newMasterPid, oldMasterProcess, newMasterProcess := 0, 0, 0;
      workersPid, countWorkflows, pidToFinish, level := [], count, 0, Soft;
    }

    method SighupHandler(sender: Pid)
      modifies this
      ensures View() == old(View()).SetStop(Soft, sender)
    {
      processSoftStop := true;
      newMasterPid := sender;
    }

    method SigintHandler(sender: Pid)
      modifies this
      ensures View() == old(View()).SetStop(Hard, sender)
    {
      processHardStop := true;
      newMasterPid := sender;
    }

    method SigpipeHandler()
      modifies this
      ensures View() == old(View()).SetReload(Soft, 1)
    {
      processSoftReload := 1;
    }

    method SigalrmHandler()
      modifies this
      ensures View() == old(View()).SetReload(Hard, 1)
    {
      processHardReload := 1;
    }

    method SigchldHandler()
      modifies this
      ensures View() == old(View()).(oldMasterStopped := true)
    {
      hasOldMasterStopped := true;
    }

    /** A signal arrives: the handler that is installed for it runs. The operator asks for a reload with SIGPIPE
        (soft) or SIGALRM (hard), and for a stop with SIGHUP or SIGINT. */
    method Deliver(signal: Sig, sender: Pid)
      modifies this
      ensures signal.SIGPIPE? || signal.SIGALRM? ==>
                View() == old(View()).SetReload(if signal.SIGPIPE? then Soft else Hard, 1)
      ensures signal.SIGHUP? || signal.SIGINT? ==>
                View() == old(View()).SetStop(if signal.SIGHUP? then Soft else Hard, sender)
      ensures signal.SIGCHLD? ==> View() == old(View()).(oldMasterStopped := true)
    {
      match signal
      case SIGPIPE => SigpipeHandler();
      case SIGHUP => SighupHandler(sender);
      case SIGINT => SigintHandler(sender);
      case SIGALRM => SigalrmHandler();
      case SIGCHLD => SigchldHandler();
    }

    /** The list is cleared and refilled with the children, up to the first fork that fails. */
    method AddWorkProcesses(results: seq<int>) returns (status: int)
      requires |results| >= countWorkflows
      requires forall i :: 0 <= i < |results| ==> results[i] >= -1
      modifies `workersPid
      ensures countWorkflows <= 0 ==> status == -1 && workersPid == old(workersPid)
      ensures countWorkflows > 0 ==> workersPid == Children(results, countWorkflows)
      ensures countWorkflows > 0 ==> status == (if |workersPid| == countWorkflows then 0 else -1)
    {
      if countWorkflows <= 0 {
        return -1;
      }
      workersPid := [];
      var i := 0;
      assert results[0..] == results;
      while i < countWorkflows
        invariant 0 <= i <= countWorkflows && |workersPid| == i
        invariant Children(results, countWorkflows) == workersPid + Children(results[i..], countWorkflows - i)
      {
        var pid := results[i];
        assert results[i..][0] == pid && results[i..][1..] == results[i + 1..];
        if pid == -1 {
          return -1;
        }
        workersPid := workersPid + [pid];
        i := i + 1;
      }
      status := 0;
    }

    method FillPidFile(self: Pid) returns (lines: seq<Pid>)
      ensures lines == [self] + workersPid
    {
      lines := [self];
      for i := 0 to |workersPid|
        invariant lines == [self] + workersPid[..i]
      {
        lines := lines + [workersPid[i]];
      }
    }

    /** `server_start` up to the main loop. */
    method ServerStart(self: Pid, results: seq<int>) returns (status: int, pidFile: seq<Pid>)
      requires |results| >= countWorkflows
      requires forall i :: 0 <= i < |results| ==> results[i] >= -1
      modifies `workersPid, `oldMasterProcess
      ensures status == 0 ==>
                && countWorkflows > 0 && |workersPid| == countWorkflows && workersPid == results[..countWorkflows]
                && oldMasterProcess == self && pidFile == [self] + workersPid
      ensures status == 0 <==> countWorkflows > 0 && forall i :: 0 <= i < countWorkflows ==> results[i] != -1
    {
      oldMasterProcess := self;
      pidFile := [];
      status := AddWorkProcesses(results);
      if countWorkflows > 0 {
        ChildrenAre(results, countWorkflows);
      }
      if status == 0 {
        pidFile := FillPidFile(self);
      }
    }

    /** `server_stop`: every worker is signalled before the first is waited for; `waits` are the calls of `waitpid`,
        whatever ends them. A master that stops during a
        reload of the same level leaves the pid file to its successor. */
    method ServerStop(stopLevel: Level) returns (kills: seq<Kill>, waits: seq<Pid>, ending: Ending)
      ensures |kills| == |workersPid| && waits == workersPid
      ensures forall i :: 0 <= i < |kills| ==> kills[i] == Kill(workersPid[i], stopLevel)
      ensures ending == if View().ReloadFlag(stopLevel) == 2 then Notifies(newMasterPid) else RemovesPidFile
    {
      kills := [];
      for i := 0 to |workersPid|
        invariant |kills| == i && forall j :: 0 <= j < i ==> kills[j] == Kill(workersPid[j], stopLevel)
      {
        kills := kills + [Kill(workersPid[i], stopLevel)];
      }
      waits := [];
      for i := 0 to |workersPid|
        invariant waits == workersPid[..i]
      {
        waits := waits + [workersPid[i]];
      }
      var flag := if stopLevel == Soft then processSoftReload else processHardReload;
      ending := if flag == 2 then Notifies(newMasterPid) else RemovesPidFile;
    }
  }

  // ---------- the first settled state ----------

  /** The system after a start: the master in its main loop, its workers, and the pid file. */
  function StartedSystem(self: Pid, m: Memory, next: Pid): System {
    System(map[self := Process(Poll(0), m, 0)], map w | w in m.workers :: Worker(self, false, false),
           Some([self] + m.workers), next)
  }

  /** What `server_start` leaves in the memory of the master when it succeeds, with pids of the kernel. */
  predicate Started(self: Pid, m: Memory, next: Pid) {
    && Quiet(m) && m.oldMaster == self && m.newMaster == 0 && m.count > 0 && |m.workers| == m.count
    && 0 < self < next
    && (forall i :: 0 <= i < |m.workers| ==> 0 < m.workers[i] < next)
    && (forall i, j :: 0 <= i < j < |m.workers| ==> m.workers[i] != m.workers[j])
  }

  /** A server that has been started is settled: it can take its first command. */
  lemma StartSettles(self: Pid, m: Memory, next: Pid)
    requires Started(self, m, next)
    ensures Settled(StartedSystem(self, m, next), self)
  {
    var s := StartedSystem(self, m, next);
    assert Generation(s.workers, self, m.workers);
    assert Untouched(s.workers, m.workers);
  }

  /** As long as a fork is due the steps of the system add the child, and then the list is complete. */
  lemma {:induction false} ForkStepsAppend(s: System, p: Pid, children: seq<Pid>) returns (t: System)
    requires Live(s, p) && s.procs[p].place == ForkWorkers
    requires |s.procs[p].mem.workers| + |children| == s.procs[p].mem.count
    requires forall i :: 0 <= i < |children| ==> children[i] == s.next + i
    ensures t == ForkSteps(s, p, |children| + 1)
    ensures Live(t, p) && t.procs[p].place == FillPid
    ensures t.procs[p].mem == s.procs[p].mem.(workers := s.procs[p].mem.workers + children)
    ensures forall w :: w in s.workers && w < s.next ==> w in t.workers && t.workers[w] == s.workers[w]
    ensures forall w :: w in children ==> w in t.workers && t.workers[w] == Worker(p, false, false)
    decreases |children|
  {
    var u := Step(s, Run(p, 0)).value;
    if children == [] {
      assert s.procs[p].mem.workers + children == s.procs[p].mem.workers;
      t := u;
    } else {
      t := ForkStepsAppend(u, p, children[1..]);
      assert s.procs[p].mem.workers + children == (s.procs[p].mem.workers + [s.next]) + children[1..];
      assert children == [s.next] + children[1..];
    }
  }

  /** The steps of the system for `add_work_processes` are the loop of the object: from an empty list they come to
      the list that `AddWorkProcesses` leaves when its forks return these children, and each is a new worker. */
  lemma ForkStepsAreTheLoop(s: System, p: Pid, children: seq<Pid>) returns (t: System)
    requires Live(s, p) && s.procs[p].place == ForkWorkers && s.procs[p].mem.workers == []
    requires |children| == s.procs[p].mem.count
    requires forall i :: 0 <= i < |children| ==> children[i] == s.next + i
    ensures t == ForkSteps(s, p, |children| + 1) && Live(t, p) && t.procs[p].place == FillPid
    ensures t.procs[p].mem == s.procs[p].mem.(workers := Children(children, |children|))
    ensures forall w :: w in t.procs[p].mem.workers ==> w in t.workers && t.workers[w] == Worker(p, false, false)
  {
    t := ForkStepsAppend(s, p, children);
    ChildrenAre(children, |children|);
    assert [] + children == children;
  }

  /** `n` statements of process `p`, as far as they can be executed. */
  function ForkSteps(s: System, p: Pid, n: nat): System
    decreases n
  {
    if n == 0 || Step(s, Run(p, 0)).None? then s else ForkSteps(Step(s, Run(p, 0)).value, p, n - 1)
  }
}
