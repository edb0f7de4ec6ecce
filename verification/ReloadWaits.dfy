/** Which workers a stopping master really waits for: a signal ends a blocked `waitpid`, whoever it is from. */
module ReloadWaits {
  import opened Text
  import opened Reload
  import opened ReloadInvariant
  import opened ReloadSteps
  import opened ReloadSafety
  import MohicanServer

  // ---------- runs in which every wait ends with the worker waited for ----------

  /** How many of its workers a process is through waiting for. */
  function Passed(place: Place, n: nat): nat {
    match place
    case StopCall(i) => if i < n then i else n
    case StopWait(i) => if i < n then i else n
    case StopEnd | Exited => n
    case _ => 0
  }

  predicate WaitedFor(ws: map<Pid, Worker>, p: Pid, list: seq<Pid>, k: nat)
    requires k <= |list|
  {
    forall j :: 0 <= j < k ==> list[j] in ws && ws[list[j]].parent == p ==> ws[list[j]].exited
  }

  /** A process lists all its workers, and those it is through waiting for have ended. */
  predicate Tidy(s: System) {
    && (forall w :: w in s.workers ==> s.workers[w].parent in s.procs && w in s.procs[s.workers[w].parent].mem.workers)
    && (forall p :: p in s.procs ==>
          WaitedFor(s.workers, p, s.procs[p].mem.workers, Passed(s.procs[p].place, |s.procs[p].mem.workers|)))
  }

  /** No blocked `waitpid` returns in this step but with its worker. */
  predicate Orderly(s: System, t: System) {
    forall p :: p in s.procs && p in t.procs && s.procs[p].place.StopWait? && t.procs[p].place != s.procs[p].place ==>
      var i, list := s.procs[p].place.i, s.procs[p].mem.workers;
      i < |list| && list[i] in t.workers && t.workers[list[i]].exited
  }

  predicate OrderlyRun(s: System, acts: seq<Action>)
    decreases |acts|
  {
    acts == []
    || (Step(s, acts[0]).Some? && Orderly(s, Step(s, acts[0]).value) && OrderlyRun(Step(s, acts[0]).value, acts[1..]))
  }

  /** The process keeps its list, and if it gets further in it, past workers that are not running. */
  predicate Onward(ws: map<Pid, Worker>, p: Pid, o: Process, o': Process) {
    var list := o.mem.workers;
    && o'.mem.workers == list
    && forall j :: Passed(o.place, |list|) <= j < Passed(o'.place, |list|) ==>
         (list[j] in ws && ws[list[j]].parent == p ==> ws[list[j]].exited)
  }

  /** No worker is new, and none comes back to life. */
  predicate OnlyAge(ws: map<Pid, Worker>, ws': map<Pid, Worker>) {
    ws'.Keys == ws.Keys
    && forall w :: w in ws ==> ws'[w].parent == ws[w].parent && (ws[w].exited ==> ws'[w].exited)
  }

  predicate Gentle(s: System, t: System) {
    && OnlyAge(s.workers, t.workers)
    && (forall q :: q in s.procs ==> q in t.procs && Onward(t.workers, q, s.procs[q], t.procs[q]))
    && (forall q :: q in t.procs && q !in s.procs ==> Passed(t.procs[q].place, |t.procs[q].mem.workers|) == 0)
  }

  lemma GentleKeeps(s: System, t: System)
    requires Tidy(s) && Gentle(s, t)
    ensures Tidy(t)
  {
    forall q | q in t.procs
      ensures WaitedFor(t.workers, q, t.procs[q].mem.workers, Passed(t.procs[q].place, |t.procs[q].mem.workers|))
    {
      if q in s.procs {
        assert Onward(t.workers, q, s.procs[q], t.procs[q]);
      }
    }
    forall w | w in t.workers
      ensures t.workers[w].parent in t.procs && w in t.procs[t.workers[w].parent].mem.workers
    {
      assert Onward(t.workers, s.workers[w].parent, s.procs[s.workers[w].parent], t.procs[s.workers[w].parent]);
    }
  }

  lemma StaysOnward(ws: map<Pid, Worker>, p: Pid, o: Process, o': Process)
    requires o'.mem.workers == o.mem.workers && Passed(o'.place, |o.mem.workers|) <= Passed(o.place, |o.mem.workers|)
    ensures Onward(ws, p, o, o')
  {
  }

  /** A process changes without getting further in its list. */
  lemma ProcessTurns(s: System, p: Pid, o: Process, t: System)
    requires Tidy(s) && p in s.procs
    requires t.procs == s.procs[p := o] && t.workers == s.workers
    requires Onward(s.workers, p, s.procs[p], o)
    ensures Tidy(t)
  {
    hide Passed;
    forall q | q in s.procs ensures Onward(s.workers, q, s.procs[q], t.procs[q]) {
      if q != p {
        StaysOnward(s.workers, q, s.procs[q], s.procs[q]);
      }
    }
    GentleKeeps(s, t);
  }

  predicate Plain(place: Place) {
    !place.Fork? && !place.Fork2? && !place.Forked2? && !place.Check? && !place.ForkWorkers? && !place.SignalOld?
    && !place.StopKill? && !place.StopEnd?
  }

  lemma PlainTidy(s: System, p: Pid, count: int, t: System)
    requires Tidy(s) && Live(s, p) && Plain(s.procs[p].place) && Step(s, Run(p, count)) == Some(t)
    ensures Tidy(t)
  {
    hide Tidy;
    assert t.procs == s.procs[p := t.procs[p]];
    ProcessTurns(s, p, t.procs[p], t);
  }

  lemma ForkTidy(s: System, p: Pid, count: int, t: System)
    requires Tidy(s) && PidsBelow(s) && Live(s, p) && (s.procs[p].place.Fork? || s.procs[p].place.Fork2?)
    requires Step(s, Run(p, count)) == Some(t)
    ensures Tidy(t)
  {
    hide Tidy;
    forall q | q in s.procs ensures Onward(s.workers, q, s.procs[q], t.procs[q]) {
      StaysOnward(s.workers, q, s.procs[q], t.procs[q]);
    }
    GentleKeeps(s, t);
  }

  lemma CheckTidy(s: System, p: Pid, count: int, t: System)
    requires Tidy(s) && Live(s, p) && s.procs[p].place.Check? && Generation(s.workers, p, [])
    requires Step(s, Run(p, count)) == Some(t)
    ensures Tidy(t)
  {
  }

  lemma ForkWorkersTidy(s: System, p: Pid, count: int, t: System)
    requires Tidy(s) && PidsBelow(s) && Live(s, p) && s.procs[p].place.ForkWorkers?
    requires Step(s, Run(p, count)) == Some(t)
    ensures Tidy(t)
  {
  }

  lemma KillTidy(s: System, p: Pid, count: int, t: System)
    requires Tidy(s) && Live(s, p) && s.procs[p].place.StopKill?
    requires Step(s, Run(p, count)) == Some(t)
    ensures Tidy(t)
  {
    hide Tidy;
    forall q | q in s.procs ensures Onward(t.workers, q, s.procs[q], t.procs[q]) {
      StaysOnward(t.workers, q, s.procs[q], t.procs[q]);
    }
    GentleKeeps(s, t);
  }

  /** The statements that signal another process. */
  lemma NotifierTidy(s: System, p: Pid, count: int, t: System)
    requires Tidy(s) && Live(s, p) && Step(s, Run(p, count)) == Some(t) && Orderly(s, t)
    requires s.procs[p].place.SignalOld? || s.procs[p].place.StopEnd? || s.procs[p].place.Forked2?
    requires s.procs[p].place.Forked2? ==> Generation(s.workers, p, [])
    ensures Tidy(t)
  {
    hide Tidy, Statement, Onward, Orderly;
    forall q | q in s.procs ensures q in t.procs && Onward(s.workers, q, s.procs[q], t.procs[q]) {
      if q == p {
        NotifierOnward(s, p, count, t);
      } else {
        NotifiedOnward(s, p, count, t, q);
      }
    }
    NotifierAdds(s, p, count, t);
    GentleKeeps(s, t);
  }

  lemma NotifierAdds(s: System, p: Pid, count: int, t: System)
    requires Live(s, p) && Step(s, Run(p, count)) == Some(t)
    requires s.procs[p].place.SignalOld? || s.procs[p].place.StopEnd? || s.procs[p].place.Forked2?
    ensures t.workers == s.workers && t.procs.Keys == s.procs.Keys
  {
  }

  /** A process to which nothing has happened but, at most, a signal. */
  predicate Touched(s: System, t: System, q: Pid) {
    && q in s.procs && q in t.procs && t.workers == s.workers
    && (t.procs[q].place == s.procs[q].place || t.procs[q].place == Woken(s.procs[q].place))
    && t.procs[q].mem.workers == s.procs[q].mem.workers
  }

  lemma TouchedOnward(s: System, t: System, q: Pid)
    requires Touched(s, t, q) && Orderly(s, t)
    ensures Onward(s.workers, q, s.procs[q], t.procs[q])
  {
  }

  lemma NotifiedOnward(s: System, p: Pid, count: int, t: System, q: Pid)
    requires Live(s, p) && Step(s, Run(p, count)) == Some(t) && Orderly(s, t) && q in s.procs && q != p
    requires s.procs[p].place.SignalOld? || s.procs[p].place.StopEnd? || s.procs[p].place.Forked2?
    ensures q in t.procs && Onward(s.workers, q, s.procs[q], t.procs[q])
  {
    hide Orderly, Onward;
    TouchedOnward(s, t, q);
  }

  lemma NotifierOnward(s: System, p: Pid, count: int, t: System)
    requires Live(s, p) && Step(s, Run(p, count)) == Some(t)
    requires s.procs[p].place.SignalOld? || s.procs[p].place.StopEnd? || s.procs[p].place.Forked2?
    requires s.procs[p].place.Forked2? ==> Generation(s.workers, p, [])
    ensures p in t.procs && Onward(s.workers, p, s.procs[p], t.procs[p])
  {
    hide Onward, Generation;
    var o, o' := s.procs[p], t.procs[p];
    if o.place.Forked2? {
      NoWorkersOnward(s.workers, p, o, o');
    } else {
      StaysOnward(s.workers, p, o, o');
    }
  }

  lemma NoWorkersOnward(ws: map<Pid, Worker>, p: Pid, o: Process, o': Process)
    requires Generation(ws, p, []) && o'.mem.workers == o.mem.workers
    ensures Onward(ws, p, o, o')
  {
  }

  lemma RunTidy(s: System, p: Pid, count: int, t: System)
    requires Tidy(s) && PidsBelow(s) && Live(s, p) && Step(s, Run(p, count)) == Some(t) && Orderly(s, t)
    requires s.procs[p].place.Check? || s.procs[p].place.Forked2? ==> Generation(s.workers, p, [])
    ensures Tidy(t)
  {
    hide Tidy, Statement, Orderly, Generation;
    match s.procs[p].place
    case Fork => ForkTidy(s, p, count, t);
    case Fork2 => ForkTidy(s, p, count, t);
    case Check => CheckTidy(s, p, count, t);
    case ForkWorkers => ForkWorkersTidy(s, p, count, t);
    case StopKill(_) => KillTidy(s, p, count, t);
    case SignalOld => NotifierTidy(s, p, count, t);
    case StopEnd => NotifierTidy(s, p, count, t);
    case Forked2 => NotifierTidy(s, p, count, t);
    case _ => PlainTidy(s, p, count, t);
  }

  lemma ExitTidy(s: System, w: Pid, t: System)
    requires Tidy(s) && Step(s, WorkerExits(w)) == Some(t) && Orderly(s, t)
    ensures Tidy(t)
  {
    hide Tidy;
    forall q | q in s.procs ensures Onward(t.workers, q, s.procs[q], t.procs[q]) {
      if t.procs[q] == s.procs[q] {
        StaysOnward(t.workers, q, s.procs[q], t.procs[q]);
      }
    }
    GentleKeeps(s, t);
  }

  lemma CommandTidy(s: System, a: Action, t: System)
    requires Tidy(s) && Step(s, a) == Some(t) && (a.Command? || a.OutsideStop?)
    ensures Tidy(t)
  {
    hide Tidy;
    ProcessTurns(s, a.master, t.procs[a.master], t);
  }

  /** Before a new master has forked workers it has none. */
  lemma NoneBefore(s: System, ph: Phase, p: Pid)
    requires In(s, ph) && Live(s, p) && (s.procs[p].place.Check? || s.procs[p].place.Forked2?)
    ensures Generation(s.workers, p, [])
  {
    hide Generation, Untouched, Signalled, OthersTold;
  }

  lemma Below(s: System, ph: Phase)
    requires In(s, ph)
    ensures PidsBelow(s)
  {
  }

  lemma StepTidy(s: System, ph: Phase, a: Action, t: System)
    requires In(s, ph) && Tidy(s) && Step(s, a) == Some(t) && Orderly(s, t)
    ensures Tidy(t)
  {
    hide In, Tidy, Statement, Orderly, Generation, PidsBelow;
    match a
    case Run(p, count) =>
      Below(s, ph);
      if s.procs[p].place.Check? || s.procs[p].place.Forked2? {
        NoneBefore(s, ph, p);
      }
      RunTidy(s, p, count, t);
    case WorkerExits(w) => ExitTidy(s, w, t);
    case _ => CommandTidy(s, a, t);
  }

  lemma {:induction false} RunsTidy(s: System, ph: Phase, acts: seq<Action>, count: int, t: System)
    requires In(s, ph) && Holds(s, ph, count) && Tidy(s)
    requires RunAll(s, acts) == Some(t) && AllPositive(acts) && OrderlyRun(s, acts)
    ensures Tidy(t)
    decreases |acts|
  {
    hide In, Holds, Step, Tidy, Orderly, CountAfter;
    if acts != [] {
      var next := Step(s, acts[0]).value;
      StepTidy(s, ph, acts[0], next);
      var after := OneStep(s, ph, acts[0], next, count);
      RunsTidy(next, after, acts[1..], CountAfter(s, acts[0], count), t);
    }
  }

  lemma StartedIsTidy(self: Pid, m: Memory, next: Pid)
    ensures Tidy(MohicanServer.StartedSystem(self, m, next))
  {
  }

  /** As long as no signal from elsewhere ends a wait, over any number of reloads and stops every worker has ended
      whose master has exited. */
  lemma OrderlyMastersWait(s: System, p: Pid, acts: seq<Action>, t: System)
    requires Settled(s, p) && Tidy(s)
    requires RunAll(s, acts) == Some(t) && AllPositive(acts) && OrderlyRun(s, acts)
    ensures forall w :: w in t.workers && !Live(t, t.workers[w].parent) ==> t.workers[w].exited
  {
    hide RunAll, OrderlyRun, Settled, In;
    Unfold(s, p);
    RunsTidy(s, Steady(p), acts, s.procs[p].mem.count, t);
    forall w | w in t.workers && !Live(t, t.workers[w].parent) ensures t.workers[w].exited {
      var q := t.workers[w].parent;
      var j :| 0 <= j < |t.procs[q].mem.workers| && t.procs[q].mem.workers[j] == w;
    }
  }

  /** The same from the start of the server on. */
  lemma StartedMastersWait(self: Pid, m: Memory, next: Pid, acts: seq<Action>, t: System)
    requires MohicanServer.Started(self, m, next)
    requires var s := MohicanServer.StartedSystem(self, m, next);
             RunAll(s, acts) == Some(t) && AllPositive(acts) && OrderlyRun(s, acts)
    ensures forall w :: w in t.workers && !Live(t, t.workers[w].parent) ==> t.workers[w].exited
  {
    hide RunAll, OrderlyRun, Settled, Tidy;
    MohicanServer.StartSettles(self, m, next);
    StartedIsTidy(self, m, next);
    OrderlyMastersWait(MohicanServer.StartedSystem(self, m, next), self, acts, t);
  }
}
