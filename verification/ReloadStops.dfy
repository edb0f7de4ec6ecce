/** A stop from outside: it is served, and it ends with all workers gone in every run exactly if there is only one. */
module ReloadStops {
  import opened Text
  import opened Reload
  import opened ReloadInvariant
  import opened ReloadSteps
  import opened ReloadSafety
  import opened ReloadProgress
  import opened ReloadStopRuns

  // ---------- the main loop finds the flag ----------

  lemma {:induction false} PollsToStop(s: System, p: Pid, level: Level) returns (acts: seq<Action>, t: System)
    requires Stopping(s, p, level) && s.procs[p].place.Poll? && s.procs[p].place.check <= 3
    ensures RunAll(s, acts) == Some(t) && Undisturbed(acts)
    ensures t == Become(s, p, StopKill(0), s.procs[p].mem.(level := level))
    decreases Turns(s.procs[p].place.check, StopCheck(level))
  {
    hide RunAll;
    var next := Step(s, Run(p, 1)).value;
    if s.procs[p].place.check != StopCheck(level) {
      StopPolls(s, p, level, 1, next);
      acts, t := PollsToStop(next, p, level);
    } else {
      acts, t := [], next;
      Nothing(next);
    }
    Prepends(s, Run(p, 1), next, acts, t);
    acts := [Run(p, 1)] + acts;
  }

  /** A stop signal to an idle master is served: its main loop, left alone, comes to `server_stop` of that level,
      with the workers it has and the sender noted. */
  lemma StopSignalIsServed(s: System, p: Pid, level: Level, sender: Pid)
    returns (acts: seq<Action>, t: System)
    requires Settled(s, p)
    ensures RunAll(s, [OutsideStop(p, level, sender)] + acts) == Some(t) && Undisturbed(acts)
    ensures p in t.procs && Only(t, p)
    ensures var m := t.procs[p].mem;
            && t.procs[p].place == StopKill(0) && m.level == level && m.newMasterPid == sender
            && m.workers == s.procs[p].mem.workers && t.workers == s.workers
  {
    hide RunAll, Generation, Untouched, OthersTold, Signalled;
    var a := OutsideStop(p, level, sender);
    var next := Step(s, a).value;
    StopBegins(s, p, level);
    acts, t := PollsToStop(next, p, level);
    Prepends(s, a, next, acts, t);
  }

  // ---------- one worker is always waited for ----------

  /** With a single worker, a master that is past it has seen it end. */
  predicate OnlyWorkerAwaited(s: System, p: Pid)
    requires p in s.procs
  {
    var list, place := s.procs[p].mem.workers, s.procs[p].place;
    && |list| == 1
    && ((place.StopCall? && place.i >= 1) || place.StopEnd? || place.Exited? ==>
          list[0] in s.workers && s.workers[list[0]].exited)
  }

  lemma AwaitedStep(s: System, p: Pid, level: Level, a: Action, t: System)
    requires Stopping(s, p, level) && OnlyWorkerAwaited(s, p) && Step(s, a) == Some(t)
    ensures p in t.procs && OnlyWorkerAwaited(t, p)
  {
    hide OthersTold, Untouched;
    var w := s.procs[p].mem.workers[0];
    Listed(s.workers, p, s.procs[p].mem.workers, 0);
    if a.WorkerExits? && s.workers[a.worker].parent == p {
      assert a.worker in s.procs[p].mem.workers;
    }
  }

  lemma {:induction false} AwaitedRun(s: System, p: Pid, level: Level, acts: seq<Action>, t: System)
    requires Stopping(s, p, level) && OnlyWorkerAwaited(s, p) && RunAll(s, acts) == Some(t)
    ensures p in t.procs && OnlyWorkerAwaited(t, p)
    ensures t.procs[p].mem.workers == s.procs[p].mem.workers
    decreases |acts|
  {
    hide Stopping, OnlyWorkerAwaited, Step;
    if acts != [] {
      var next := Step(s, acts[0]).value;
      StopStep(s, p, level, acts[0], next);
      AwaitedStep(s, p, level, acts[0], next);
      StopKeepsList(s, p, level, acts[0], next);
      AwaitedRun(next, p, level, acts[1..], t);
    } else {
      InProcs(s, p, level);
    }
  }

  lemma InProcs(s: System, p: Pid, level: Level)
    requires Stopping(s, p, level)
    ensures p in s.procs
  {
  }

  lemma StopKeepsList(s: System, p: Pid, level: Level, a: Action, t: System)
    requires Stopping(s, p, level) && Step(s, a) == Some(t)
    ensures p in s.procs && p in t.procs && t.procs[p].mem.workers == s.procs[p].mem.workers
  {
    hide OthersTold, Untouched, Generation, Signalled;
  }

  // ---------- of two workers one may be left behind ----------

  /** A run that begins with a stop from outside and ends when no process is left. */
  predicate StopRun(s: System, acts: seq<Action>, t: System) {
    && acts != [] && acts[0].OutsideStop? && AllPositive(acts) && RunAll(s, acts) == Some(t)
    && forall x :: x in t.procs ==> t.procs[x].place == Exited
  }

  /** A run in which the second worker ends first: the wait for the first one is over, and the master exits
      with that worker still running. */
  lemma LeftBehind(s: System, p: Pid, level: Level, sender: Pid) returns (acts: seq<Action>, t: System)
    requires Settled(s, p) && |s.procs[p].mem.workers| >= 2
    ensures StopRun(s, acts, t) && acts[0] == OutsideStop(p, level, sender)
    ensures var w := s.procs[p].mem.workers[0]; w in t.workers && !t.workers[w].exited
  {
    hide RunAll, Shape, Step, Generation, Untouched;
    var list := s.procs[p].mem.workers;
    var acts1, s1 := StopSignalIsServed(s, p, level, sender);
    var first := [OutsideStop(p, level, sender)] + acts1;
    ShapeOfStop(s1, p);
    var acts2, s2 := ComesToWait(s1, s1.procs, p, list, 0);
    var s3 := SecondEnds(s2, s1.procs, p, list);
    var acts3, s4 := OthersEnd(s3, s1.procs, p, list, 2);
    t := LastStatement(s4, s1.procs, p, list);
    OneAct(s4, Run(p, 1), t);
    Joins(s3, acts3, s4, [Run(p, 1)], t);
    Prepends(s2, WorkerExits(list[1]), s3, acts3 + [Run(p, 1)], t);
    Joins(s1, acts2, s2, [WorkerExits(list[1])] + (acts3 + [Run(p, 1)]), t);
    acts := acts2 + ([WorkerExits(list[1])] + (acts3 + [Run(p, 1)]));
    Joins(s, first, s1, acts, t);
    assert Undisturbed(acts1) && Undisturbed(acts);
    acts := first + acts;
  }

  lemma LastStatement(s: System, procs: map<Pid, Process>, p: Pid, list: seq<Pid>) returns (t: System)
    requires |list| >= 1 && Shape(s, procs, p, list, StopEnd, |list|, |list|)
    requires forall q :: q in procs && q != p ==> procs[q].place == Exited
    ensures Step(s, Run(p, 1)) == Some(t)
    ensures forall x :: x in t.procs ==> t.procs[x].place == Exited
    ensures list[0] in t.workers && !t.workers[list[0]].exited
  {
    t := Step(s, Run(p, 1)).value;
  }

  /** After a stop from outside all workers of the master have ended in every run if and only if it has one. */
  lemma StopAwaitsAllExactly(s: System, p: Pid)
    requires Settled(s, p)
    ensures (forall acts, t :: StopRun(s, acts, t) ==> HaveEnded(t, s.procs[p].mem.workers))
            <==> |s.procs[p].mem.workers| == 1
  {
    var list := s.procs[p].mem.workers;
    if |list| == 1 {
      forall acts, t | StopRun(s, acts, t) ensures HaveEnded(t, list) {
        SingleStop(s, p, acts, t);
      }
    } else {
      var acts, t := LeftBehind(s, p, Soft, 0);
      assert StopRun(s, acts, t) && !HaveEnded(t, list);
    }
  }

  lemma SingleStop(s: System, p: Pid, acts: seq<Action>, t: System)
    requires Settled(s, p) && |s.procs[p].mem.workers| == 1
    requires StopRun(s, acts, t)
    ensures HaveEnded(t, s.procs[p].mem.workers)
  {
    hide Generation, Untouched, OthersTold, Signalled;
    var a := acts[0];
    var s1 := Step(s, a).value;
    StopBegins(s, p, a.level);
    AwaitedRun(s1, p, a.level, acts[1..], t);
  }
}
