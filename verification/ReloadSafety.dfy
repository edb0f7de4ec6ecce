/** Safety over any number of reloads, in every interleaving, and a stop from outside. */
module ReloadSafety {
  import opened Text
  import opened Reload
  import opened ReloadInvariant
  import opened ReloadSteps

  // ---------- a stop from outside ----------

  /** An idle master has been told to stop by someone who is not a new master. */
  predicate Stopping(s: System, p: Pid, level: Level) {
    && p in s.procs && Only(s, p) && PidsBelow(s)
    && var place, m := s.procs[p].place, s.procs[p].mem;
    && m.StopFlag(level) && !m.StopFlag(Other(level)) && m.softReload == 0 && m.hardReload == 0
    && (!place.Poll? ==> m.level == level)
    && (place.Poll? || place.StopKill? || place.StopCall? || place.StopWait? || place.StopEnd? || place.Exited?)
    && OldWorkers(s.workers, Roles(level, p, m.workers, None, None), place)
    && OthersTold(s.workers, {p})
    && s.pidFile == (if place.Exited? then None else Some([p] + m.workers))
  }

  // ---------- the phases of a run ----------

  datatype Phase = Steady(master: Pid) | UnderReload(roles: Roles) | UnderStop(master: Pid, level: Level)

  predicate In(s: System, ph: Phase) {
    match ph
    case Steady(p) => Settled(s, p)
    case UnderReload(r) => Reloading(s, r)
    case UnderStop(p, level) => Stopping(s, p, level)
  }

  /** The configuration read in this step, if any, holds a positive worker count. */
  predicate ReadsPositive(a: Action) {
    a.Run? ==> a.count > 0
  }

  /** The commands of the operator begin a new phase, a fork of a master adds to the roles of a reload. */
  function NextPhase(s: System, ph: Phase, a: Action): Phase {
    match ph
    case UnderStop(_, _) => ph
    case Steady(p) =>
      (match a
       case Command(q, level) =>
         UnderReload(Roles(level, p, if p in s.procs then s.procs[p].mem.workers else [], None, None))
       case OutsideStop(q, level, _) => UnderStop(p, level)
       case _ => ph)
    case UnderReload(r) =>
      if a.Run? && r.mid.None? && a.pid == r.elder && Live(s, a.pid) && s.procs[a.pid].place.Fork? then
        UnderReload(r.(mid := Some(s.next)))
      else if a.Run? && r.mid.Some? && a.pid == r.mid.value && Live(s, a.pid) && s.procs[a.pid].place.Fork2? then
        UnderReload(r.(heir := Some(s.next)))
      else ph
  }

  /** A master that is through with a reload: back in its main loop, with its flags down, its own old master,
      with exactly the configured number of workers, all serving, and listed in the pid file. All other
      processes have exited but for an intermediate child that is about to. */
  predicate Completed(s: System, p: Pid) {
    && Live(s, p) && s.procs[p].place.Poll? && s.procs[p].place.check <= 3 && PidsBelow(s)
    && (forall q :: q in s.procs && q != p ==> s.procs[q].place.Exited? || s.procs[q].place.Forked2?)
    && (forall q, x ::
          q in s.procs && x in s.procs && s.procs[q].place.Forked2? && s.procs[x].place.Forked2? ==> q == x)
    && var m := s.procs[p].mem;
    && Quiet(m) && m.oldMaster == p && m.newMaster == 0
    && |m.workers| == m.count && m.count > 0
    && Generation(s.workers, p, m.workers) && Untouched(s.workers, m.workers) && OthersTold(s.workers, {p})
    && s.pidFile == Some([p] + m.workers)
  }

  /** A master in its main loop with no reload flag up. */
  predicate Free(s: System, p: Pid) {
    Live(s, p) && s.procs[p].place.Poll? && s.procs[p].mem.softReload == 0 && s.procs[p].mem.hardReload == 0
  }

  /** Such a master is the new one, and the old one has exited: the reload has left nothing behind. */
  lemma FreeIsCompleted(s: System, r: Roles, p: Pid)
    requires Reloading(s, r) && Free(s, p)
    ensures r.heir == Some(p) && s.procs[r.elder].place.Exited? && Completed(s, p)
  {
    hide Generation, Untouched, Signalled;
    OthersToldHere(s, r, p);
  }

  lemma OthersToldHere(s: System, r: Roles, p: Pid)
    requires Reloading(s, r) && r.heir == Some(p) && s.procs[r.elder].place.Exited?
    ensures OthersTold(s.workers, {p})
  {
    forall w | w in s.workers && s.workers[w].parent != p ensures s.workers[w].signalled {
      if s.workers[w].parent == r.elder {
        assert w in r.list;
      }
    }
  }

  lemma IdleIsSettled(s: System, r: Roles, p: Pid)
    requires Reloading(s, r) && Idle(s, p)
    ensures r.heir == Some(p) && Settled(s, p)
  {
    hide Reloading, Generation, Untouched, OthersTold;
    FreeIsCompleted(s, r, p);
  }

  lemma CommandStartsReload(s: System, p: Pid, q: Pid, level: Level, t: System)
    requires Settled(s, p) && Step(s, Command(q, level)) == Some(t)
    ensures Reloading(t, Roles(level, p, s.procs[p].mem.workers, None, None))
  {
    hide Generation, Untouched, Signalled;
  }

  lemma ReloadStep(s: System, r: Roles, a: Action, t: System)
    requires Reloading(s, r) && Step(s, a) == Some(t) && ReadsPositive(a) && (a.Run? || a.WorkerExits?)
    ensures In(t, NextPhase(s, UnderReload(r), a))
  {
    hide OldOk, MidOk, NeuOk, Linked, OldWorkers, NewWorkers, OthersTold, PidFileOk;
    if a.WorkerExits? {
      WorkerEnds(s, r, a.worker, t);
    } else if a.pid == r.elder {
      ElderStep(s, r, a.count, t);
    } else if r.mid == Some(a.pid) {
      MidStep(s, r, a.count, t);
    } else if r.heir == Some(a.pid) {
      HeirStep(s, r, a.count, t);
    }
  }

  lemma SteadyStep(s: System, p: Pid, a: Action, t: System)
    requires Settled(s, p) && Step(s, a) == Some(t)
    ensures In(t, NextPhase(s, Steady(p), a))
  {
    hide Generation, Untouched, Signalled, OthersTold;
    match a
    case Command(q, level) => CommandStartsReload(s, p, q, level, t);
    case OutsideStop(q, level, sender) => StopBegins(s, p, level);
    case Run(q, count) => assert q == p;
    case WorkerExits(w) => FormerExitKeeps(s, p, w);
  }

  /** A worker that ends in a settled state is one of a former master. */
  lemma FormerExitKeeps(s: System, p: Pid, w: Pid)
    requires Settled(s, p) && w in s.workers && s.workers[w].signalled && !s.workers[w].exited
    ensures !Live(s, s.workers[w].parent)
    ensures var ws := s.workers[w := s.workers[w].(exited := true)]; var list := s.procs[p].mem.workers;
            Generation(ws, p, list) && Untouched(ws, list) && OthersTold(ws, {p})
  {
    assert s.workers[w].parent != p;
  }

  lemma StopBegins(s: System, p: Pid, level: Level)
    requires Settled(s, p)
    ensures OldWorkers(s.workers, Roles(level, p, s.procs[p].mem.workers, None, None), s.procs[p].place)
  {
  }

  function Crew(s: System, p: Pid, level: Level): Roles
    requires p in s.procs
  {
    Roles(level, p, s.procs[p].mem.workers, None, None)
  }

  lemma StopPolls(s: System, p: Pid, level: Level, count: int, t: System)
    requires Stopping(s, p, level) && s.procs[p].place.Poll? && Step(s, Run(p, count)) == Some(t)
    ensures Stopping(t, p, level)
  {
    hide OldWorkers, OthersTold;
    StillServing(s.workers, Crew(s, p, level), s.procs[p].place, t.procs[p].place);
  }

  lemma StopSignals(s: System, p: Pid, level: Level, count: int, t: System)
    requires Stopping(s, p, level) && s.procs[p].place.StopKill? && Step(s, Run(p, count)) == Some(t)
    ensures Stopping(t, p, level)
  {
    hide Generation, Untouched, Signalled, OthersTold;
    var list, i := s.procs[p].mem.workers, s.procs[p].place.i;
    if i < |list| {
      Listed(s.workers, p, list, i);
      SignalsOneMore(s.workers, list, i);
      SignalKeepsRest(s.workers, p, list, i);
    }
  }

  lemma StopWaits(s: System, p: Pid, level: Level, count: int, t: System)
    requires Stopping(s, p, level) && s.procs[p].place.StopCall? && Step(s, Run(p, count)) == Some(t)
    ensures Stopping(t, p, level)
  {
    hide Generation, Untouched, OthersTold;
  }

  lemma StopEnds(s: System, p: Pid, level: Level, count: int, t: System)
    requires Stopping(s, p, level) && s.procs[p].place.StopEnd? && Step(s, Run(p, count)) == Some(t)
    ensures Stopping(t, p, level)
  {
    hide Generation, Untouched, Signalled, OthersTold;
  }

  lemma SignalKeepsRest(ws: map<Pid, Worker>, p: Pid, list: seq<Pid>, i: nat)
    requires Generation(ws, p, list) && OthersTold(ws, {p}) && i < |list|
    ensures Generation(ws[list[i] := ws[list[i]].(signalled := true)], p, list)
    ensures OthersTold(ws[list[i] := ws[list[i]].(signalled := true)], {p})
  {
  }

  /** A worker of the stopping master ends, or one of a former master. */
  lemma StopExits(s: System, p: Pid, level: Level, w: Pid, t: System)
    requires Stopping(s, p, level) && Step(s, WorkerExits(w)) == Some(t)
    ensures Stopping(t, p, level)
  {
    hide Generation, Untouched, OthersTold, Signalled;
    var r, place := Crew(s, p, level), s.procs[p].place;
    var ws := s.workers[w := s.workers[w].(exited := true)];
    ToldExitKeeps(s.workers, {p}, w);
    if s.workers[w].parent == p {
      WokenKeeps(s.workers, r, place);
      ExitKeeps(s.workers, r, place, w);
      if !Live(s, p) {
        assert Woken(place) == place;
      }
    } else {
      OtherExitKeeps(s.workers, r, place, w);
    }
  }

  lemma StopStep(s: System, p: Pid, level: Level, a: Action, t: System)
    requires Stopping(s, p, level) && Step(s, a) == Some(t)
    ensures Stopping(t, p, level)
  {
    hide Statement, OldWorkers;
    match a
    case Run(q, count) =>
      match s.procs[p].place {
       case Poll(_) => StopPolls(s, p, level, count, t);
       case StopKill(_) => StopSignals(s, p, level, count, t);
       case StopCall(_) => StopWaits(s, p, level, count, t);
       case StopWait(_) => Blocked(s, p, count);
       case _ => StopEnds(s, p, level, count, t);
      }
    case WorkerExits(w) => StopExits(s, p, level, w, t);
    case _ =>
  }

  // ---------- whole runs ----------

  function RunAll(s: System, acts: seq<Action>): Option<System>
    decreases |acts|
  {
    if acts == [] then Some(s)
    else
      var next := Step(s, acts[0]);
      if next.None? then None else RunAll(next.value, acts[1..])
  }

  predicate Calm(a: Action) {
    a.WorkerExits? || (a.Run? && a.count > 0)
  }

  /** Statements of processes and ends of workers only, and every configuration read has a positive count. */
  predicate Undisturbed(acts: seq<Action>) {
    forall i :: 0 <= i < |acts| ==> Calm(acts[i])
  }

  lemma Nothing(s: System)
    ensures RunAll(s, []) == Some(s)
  {
  }

  lemma Prepends(s: System, a: Action, next: System, acts: seq<Action>, t: System)
    requires Step(s, a) == Some(next) && RunAll(next, acts) == Some(t)
    ensures RunAll(s, [a] + acts) == Some(t)
    ensures Calm(a) && Undisturbed(acts) ==> Undisturbed([a] + acts)
  {
    hide Step;
    assert ([a] + acts)[1..] == acts;
  }

  lemma OneAct(s: System, a: Action, t: System)
    requires Step(s, a) == Some(t)
    ensures RunAll(s, [a]) == Some(t)
  {
    hide Step;
    assert [a][1..] == [];
  }

  /** One run after another is a run. */
  lemma {:induction false} Joins(s: System, acts: seq<Action>, t: System, more: seq<Action>, u: System)
    requires RunAll(s, acts) == Some(t) && RunAll(t, more) == Some(u)
    ensures RunAll(s, acts + more) == Some(u)
    ensures Undisturbed(acts) && Undisturbed(more) ==> Undisturbed(acts + more)
    decreases |acts|
  {
    hide Step;
    if acts == [] {
      assert acts + more == more;
    } else {
      assert (acts + more)[1..] == acts[1..] + more;
      Joins(Step(s, acts[0]).value, acts[1..], t, more, u);
    }
  }

  /** The worker count in the configuration that was read last. */
  function LastRead(s: System, acts: seq<Action>, count: int): int
    decreases |acts|
  {
    if acts == [] then count
    else
      var next := Step(s, acts[0]);
      if next.None? then count
      else LastRead(next.value, acts[1..], CountAfter(s, acts[0], count))
  }

  predicate Reads(s: System, a: Action) {
    a.Run? && Live(s, a.pid) && s.procs[a.pid].place == ReadConfig
  }

  function CountAfter(s: System, a: Action, count: int): int {
    if Reads(s, a) then a.count else count
  }

  /** The master of a phase holds the count that was read last. */
  predicate Holds(s: System, ph: Phase, count: int) {
    match ph
    case Steady(p) => p in s.procs && s.procs[p].mem.count == count
    case UnderReload(r) => r.elder in s.procs && s.procs[r.elder].mem.count == count
    case UnderStop(_, _) => true
  }

  lemma OneStep(s: System, ph: Phase, a: Action, t: System, count: int)
    returns (ph': Phase)
    requires In(s, ph) && Holds(s, ph, count) && Step(s, a) == Some(t) && ReadsPositive(a)
    ensures In(t, ph') && Holds(t, ph', CountAfter(s, a, count))
    ensures !ph.UnderStop? && !a.OutsideStop? ==> !ph'.UnderStop?
  {
    hide Reloading, Settled, Stopping;
    match ph {
      case UnderStop(p, level) =>
        StopStep(s, p, level, a, t);
        ph' := ph;
      case Steady(p) =>
        SteadyStep(s, p, a, t);
        ph' := NextPhase(s, ph, a);
        SteadyCount(s, p, a, t);
      case UnderReload(r) =>
        if a.Command? || a.OutsideStop? {
          IdleIsSettled(s, r, a.master);
          SteadyStep(s, a.master, a, t);
          HeirCount(s, r, a.master);
          SteadyCount(s, a.master, a, t);
          ph' := NextPhase(s, Steady(a.master), a);
        } else {
          ReloadStep(s, r, a, t);
          ElderCount(s, r, a, t);
          ph' := NextPhase(s, ph, a);
        }
    }
  }

  lemma SteadyCount(s: System, p: Pid, a: Action, t: System)
    requires Settled(s, p) && Step(s, a) == Some(t)
    ensures !Reads(s, a) && p in t.procs && t.procs[p].mem.count == s.procs[p].mem.count
  {
    hide Generation, Untouched, OthersTold;
  }

  lemma HeirCount(s: System, r: Roles, p: Pid)
    requires Reloading(s, r) && r.heir == Some(p)
    ensures p in s.procs && s.procs[p].mem.count == s.procs[r.elder].mem.count
  {
  }

  lemma OnlyElderReads(s: System, r: Roles, a: Action)
    requires Reloading(s, r) && Reads(s, a)
    ensures a.pid == r.elder
  {
    hide OldOk, OldWorkers, NewWorkers, OthersTold, PidFileOk, Linked;
  }

  lemma ElderCount(s: System, r: Roles, a: Action, t: System)
    requires Reloading(s, r) && Step(s, a) == Some(t) && (a.Run? || a.WorkerExits?)
    ensures r.elder in t.procs
    ensures t.procs[r.elder].mem.count == (if Reads(s, a) then a.count else s.procs[r.elder].mem.count)
  {
    hide Reloading, Statement;
    ElderExists(s, r);
    if Reads(s, a) {
      OnlyElderReads(s, r, a);
    }
    if a.Run? {
      if a.pid == r.elder {
        OwnCount(s, a.pid, a.count, t);
      } else {
        OthersCount(s, a.pid, a.count, t, r.elder);
      }
    }
  }

  lemma OwnCount(s: System, p: Pid, count: int, t: System)
    requires Live(s, p) && p < s.next && Statement(s, p, count) == Some(t)
    ensures p in t.procs
    ensures t.procs[p].mem.count == (if s.procs[p].place == ReadConfig then count else s.procs[p].mem.count)
  {
  }

  lemma OthersCount(s: System, p: Pid, count: int, t: System, q: Pid)
    requires Live(s, p) && q in s.procs && q != p && q < s.next && Statement(s, p, count) == Some(t)
    ensures q in t.procs && t.procs[q].mem.count == s.procs[q].mem.count
  {
  }

  lemma ElderExists(s: System, r: Roles)
    requires Reloading(s, r)
    ensures r.elder in s.procs && r.elder < s.next
  {
  }

  predicate NoStop(acts: seq<Action>) {
    forall i :: 0 <= i < |acts| ==> !acts[i].OutsideStop?
  }

  predicate AllPositive(acts: seq<Action>) {
    forall i :: 0 <= i < |acts| ==> ReadsPositive(acts[i])
  }

  /** From a settled state every run stays in one of the three phases. */
  lemma {:induction false} EveryRun(s: System, ph: Phase, acts: seq<Action>, count: int, t: System)
    returns (ph': Phase)
    requires In(s, ph) && Holds(s, ph, count) && RunAll(s, acts) == Some(t)
    requires AllPositive(acts)
    ensures In(t, ph') && Holds(t, ph', LastRead(s, acts, count))
    ensures !ph.UnderStop? && NoStop(acts) ==> !ph'.UnderStop?
    decreases |acts|
  {
    hide In, Holds, Step, CountAfter;
    if acts == [] {
      ph' := ph;
    } else {
      var next := Step(s, acts[0]).value;
      var c := CountAfter(s, acts[0], count);
      var mid := OneStep(s, ph, acts[0], next, count);
      ph' := EveryRun(next, mid, acts[1..], c, t);
    }
  }

  // ---------- main results ----------

  /** Over any number of reloads: when a master is in its main loop with its reload flags down, the reload is
      complete, and its workers are exactly as many as the configuration that was read last says; once the
      intermediate child has exited, the system is settled, so that the next command can be given. */
  lemma ReloadSettles(s: System, p: Pid, acts: seq<Action>, t: System, q: Pid)
    requires Settled(s, p) && RunAll(s, acts) == Some(t) && AllPositive(acts) && NoStop(acts)
    requires Free(t, q)
    ensures Completed(t, q) && |t.procs[q].mem.workers| == LastRead(s, acts, s.procs[p].mem.count)
    ensures Only(t, q) ==> Settled(t, q)
  {
    hide RunAll, LastRead, Reloading, Generation, Untouched, OthersTold;
    var ph := EveryRun(s, Steady(p), acts, s.procs[p].mem.count, t);
    match ph {
      case Steady(x) => assert q == x;
      case UnderReload(r) => FreeIsCompleted(t, r, q); HeirCount(t, r, q);
    }
  }

  /** `p` has forked all its workers and none of them has been told to stop. */
  predicate Serving(s: System, p: Pid) {
    && p in s.procs && s.procs[p].place != ForkWorkers && |s.procs[p].mem.workers| > 0
    && Generation(s.workers, p, s.procs[p].mem.workers) && Untouched(s.workers, s.procs[p].mem.workers)
  }

  lemma PhaseServes(s: System, ph: Phase) returns (p: Pid)
    requires In(s, ph) && !ph.UnderStop?
    ensures Serving(s, p)
  {
    hide Generation, Untouched, Signalled, OthersTold;
    match ph {
      case Steady(q) => p := q;
      case UnderReload(r) =>
        p := if s.procs[r.elder].mem.StopFlag(r.level) then r.heir.value else r.elder;
    }
  }

  /** In every reachable state of any number of reloads some master has all its workers serving. */
  lemma NoServiceGap(s: System, p: Pid, acts: seq<Action>, t: System) returns (q: Pid)
    requires Settled(s, p) && RunAll(s, acts) == Some(t) && AllPositive(acts) && NoStop(acts)
    ensures Serving(t, q)
  {
    hide RunAll, In, Settled, Serving;
    var ph := EveryRun(s, Steady(p), acts, s.procs[p].mem.count, t) by { Unfold(s, p); }
    q := PhaseServes(t, ph);
  }

  lemma Unfold(s: System, p: Pid)
    requires Settled(s, p)
    ensures In(s, Steady(p)) && Holds(s, Steady(p), s.procs[p].mem.count)
  {
  }

  /** A process whose main loop or reload has been left for server_stop. */
  predicate Ending(p: Place) {
    p.StopKill? || p.StopCall? || p.StopWait? || p.StopEnd?
  }

  /** A master that stops in a run without a stop from outside does so because a new master told it to: its
      reload flag is 2, and at its end it leaves the pid file, which lists the new master and its workers,
      alone and raises the flag the new master waits for. */
  lemma OldMasterStops(s: System, p: Pid, acts: seq<Action>, t: System, q: Pid, count: int, u: System)
    requires Settled(s, p) && RunAll(s, acts) == Some(t) && AllPositive(acts) && NoStop(acts)
    requires q in t.procs && Ending(t.procs[q].place) && Step(t, Run(q, count)) == Some(u)
    ensures var m := t.procs[q].mem; var heir := m.newMasterPid;
            && m.ReloadFlag(m.level) == 2 && heir != q && heir in t.procs
            && u.pidFile == t.pidFile == Some([heir] + t.procs[heir].mem.workers)
            && (t.procs[q].place.StopEnd? ==> u.procs[q].place.Exited? && u.procs[heir].mem.oldMasterStopped)
  {
    hide RunAll, Generation, Untouched, Signalled, OthersTold;
    Unfold(s, p);
    var ph := EveryRun(s, Steady(p), acts, s.procs[p].mem.count, t);
    assert ph.UnderReload? && q == ph.roles.elder;
  }

  /** A stop from outside ends with no process and no pid file left, and every worker of every generation has
      been told to stop. */
  lemma OutsideStopEnds(s: System, p: Pid, acts: seq<Action>, t: System)
    requires Settled(s, p) && RunAll(s, acts) == Some(t) && AllPositive(acts)
    requires forall x :: x in t.procs ==> t.procs[x].place == Exited
    ensures t.pidFile == None && forall w :: w in t.workers ==> t.workers[w].signalled
  {
    hide RunAll;
    Unfold(s, p);
    var ph := EveryRun(s, Steady(p), acts, s.procs[p].mem.count, t);
    match ph {
      case UnderStop(x, level) => AllTold(t, x, level);
      case Steady(x) =>
      case UnderReload(r) =>
    }
  }

  lemma AllTold(t: System, p: Pid, level: Level)
    requires Stopping(t, p, level) && t.procs[p].place.Exited?
    ensures forall w :: w in t.workers ==> t.workers[w].signalled
  {
    forall w | w in t.workers ensures t.workers[w].signalled {
      if t.workers[w].parent == p {
        assert w in t.procs[p].mem.workers;
      }
    }
  }
}
