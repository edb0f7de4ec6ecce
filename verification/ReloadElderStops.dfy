/** The old master of a reload stops: its workers have all ended in every run exactly if it has only one and no
    other child of its can end while it waits. */
module ReloadElderStops {
  import opened Text
  import opened Reload
  import opened ReloadInvariant
  import opened ReloadSteps
  import opened ReloadSafety
  import opened ReloadProgress
  import opened ReloadWaits
  import opened ReloadStopRuns

  // ---------- a reload comes to the stop of the old master ----------

  predicate HasExited(s: System, p: Option<Pid>) {
    p.Some? && p.value in s.procs && s.procs[p.value].place.Exited?
  }

  /** None of the workers of the old master has been told to stop: it is in front of its `server_stop`. */
  lemma UntouchedPlaces(s: System, r: Roles)
    requires Reloading(s, r) && Untouched(s.workers, r.list)
    ensures var place := s.procs[r.elder].place; !Ending(place) || place == StopKill(0)
    ensures !s.procs[r.elder].place.Exited?
  {
    hide MidOk, NeuOk, Linked, NewWorkers, OthersTold, PidFileOk, Generation;
    assert r.list[0] in s.workers;
  }

  /** The old master, told to stop, has a look at its flags. */
  lemma ElderLooks(s: System, r: Roles) returns (t: System)
    requires Reloading(s, r) && Awaited(s, r) && s.procs[r.elder].place.Poll? && Untouched(s.workers, r.list)
    ensures Step(s, Run(r.elder, 1)) == Some(t) && Reloading(t, r) && Rank(t, r) < Rank(s, r)
    ensures Untouched(t.workers, r.list) && t.procs[r.mid.value] == s.procs[r.mid.value]
  {
    hide MidOk, NeuOk, NewWorkers, OldWorkers, OthersTold, PidFileOk, Rank, Untouched;
    t := StopTurn(s, r, 1);
  }

  lemma WorkersStay(s: System, p: Pid, count: int, t: System)
    requires Live(s, p) && Step(s, Run(p, count)) == Some(t)
    requires !s.procs[p].place.ForkWorkers? && !s.procs[p].place.StopKill?
    ensures t.workers == s.workers
  {
  }

  lemma ElderNears(s: System, r: Roles) returns (t: System, r': Roles)
    requires Reloading(s, r) && Untouched(s.workers, r.list) && !ElderHasReturned(s, r)
    ensures Step(s, Run(r.elder, 1)) == Some(t) && Reloading(t, r') && Untouched(t.workers, r.list)
    ensures r' == r.(mid := r'.mid) && (HasExited(t, r'.mid) ==> HasExited(s, r.mid))
    ensures var b, b' := BeforeFork(r, s.procs[r.elder]), BeforeFork(r', t.procs[r'.elder]);
            b' < b || (b' == b && Rank(t, r') < Rank(s, r))
  {
    hide MidOk, NeuOk, Linked, NewWorkers, OldWorkers, OthersTold, PidFileOk, Rank, BeforeFork, Untouched, Generation;
    UntouchedPlaces(s, r);
    t, r' := ElderTurn(s, r, 1);
    WorkersStay(s, r.elder, 1, t);
  }

  lemma MidNears(s: System, r: Roles) returns (t: System, r': Roles)
    requires Reloading(s, r) && Untouched(s.workers, r.list) && ElderHasReturned(s, r) && r.heir.None?
    ensures Step(s, Run(r.mid.value, 1)) == Some(t) && Reloading(t, r') && Untouched(t.workers, r.list)
    ensures r' == r.(heir := r'.heir) && !HasExited(t, r'.mid) && t.procs[r.elder] == s.procs[r.elder]
    ensures Rank(t, r') < Rank(s, r)
  {
    hide OldOk, NeuOk, Linked, NewWorkers, OldWorkers, OthersTold, PidFileOk, Rank, Untouched, Generation;
    t, r' := MidTurn(s, r, 1);
    WorkersStay(s, r.mid.value, 1, t);
  }

  lemma HeirNears(s: System, r: Roles) returns (t: System)
    requires Reloading(s, r) && Untouched(s.workers, r.list) && ElderHasReturned(s, r) && r.heir.Some?
    requires !Awaited(s, r)
    ensures Step(s, Run(r.heir.value, 1)) == Some(t) && Reloading(t, r) && Untouched(t.workers, r.list)
    ensures (HasExited(t, r.mid) ==> HasExited(s, r.mid)) && t.procs[r.elder].place == s.procs[r.elder].place
    ensures Rank(t, r) < Rank(s, r)
  {
    hide OldOk, MidOk, NewWorkers, OldWorkers, OthersTold, PidFileOk, Rank, Generation;
    UntouchedPlaces(s, r);
    t := HeirTurn(s, r, 1);
    HeirTurnElsewhere(s, r, 1, t);
    if !s.procs[r.heir.value].place.ForkWorkers? {
      WorkersStay(s, r.heir.value, 1, t);
    }
  }

  /** The next step towards the stop. */
  lemma StopNears(s: System, r: Roles) returns (a: Action, t: System, r': Roles)
    requires Reloading(s, r) && Untouched(s.workers, r.list) && s.procs[r.elder].place != StopKill(0)
    ensures Calm(a) && Step(s, a) == Some(t) && Reloading(t, r') && Untouched(t.workers, r.list)
    ensures r' == r.(mid := r'.mid, heir := r'.heir)
    ensures HasExited(t, r'.mid) ==> HasExited(s, r.mid)
    ensures var b, b' := BeforeFork(r, s.procs[r.elder]), BeforeFork(r', t.procs[r'.elder]);
            b' < b || (b' == b && Rank(t, r') < Rank(s, r))
  {
    hide MidOk, NewWorkers, OldWorkers, OthersTold, PidFileOk, Rank, Step, Untouched;
    UntouchedPlaces(s, r);
    r' := r;
    if !ElderHasReturned(s, r) {
      a := Run(r.elder, 1);
      t, r' := ElderNears(s, r);
    } else if r.heir.None? {
      a := Run(r.mid.value, 1);
      t, r' := MidNears(s, r);
    } else if !Awaited(s, r) {
      a := Run(r.heir.value, 1);
      t := HeirNears(s, r);
    } else {
      a := Run(r.elder, 1);
      t := ElderLooks(s, r);
    }
  }

  /** From every state in front of the stop its old master can be brought to it, and an intermediate child that has
      not exited can be left waiting. */
  lemma {:induction false} ComesToStop(s: System, r: Roles) returns (acts: seq<Action>, t: System, r': Roles)
    requires Reloading(s, r) && Untouched(s.workers, r.list)
    ensures RunAll(s, acts) == Some(t) && Undisturbed(acts) && Reloading(t, r')
    ensures r' == r.(mid := r'.mid, heir := r'.heir) && r'.heir.Some?
    ensures t.procs[r.elder].place == StopKill(0) && Untouched(t.workers, r.list)
    ensures HasExited(t, r'.mid) ==> HasExited(s, r.mid)
    decreases BeforeFork(r, s.procs[r.elder]), Rank(s, r)
  {
    hide MidOk, NeuOk, Linked, NewWorkers, OldWorkers, OthersTold, PidFileOk, Rank, Step, Untouched, BeforeFork, RunAll,
      HasExited;
    if s.procs[r.elder].place == StopKill(0) {
      acts, t, r' := [], s, r;
      Nothing(s);
    } else {
      var a, next, r1 := StopNears(s, r);
      acts, t, r' := ComesToStop(next, r1);
      Prepends(s, a, next, acts, t);
      acts := [a] + acts;
    }
  }

  // ---------- a worker that is left behind ----------

  predicate StillRuns(s: System, w: Pid) {
    w in s.workers && s.workers[w].signalled && !s.workers[w].exited
  }

  lemma ShapeOfElder(s: System, r: Roles)
    requires Reloading(s, r) && Untouched(s.workers, r.list) && s.procs[r.elder].place == StopKill(0)
    ensures Shape(s, s.procs, r.elder, r.list, StopKill(0), 0, 1)
  {
    hide MidOk, NeuOk, Linked, NewWorkers, OthersTold, PidFileOk, Generation, Untouched, Shape;
    ShapeOfStop(s, r.elder);
  }

  /** The exit of the intermediate child ends the wait for the first worker. */
  lemma MidEnds(s: System, procs: map<Pid, Process>, r: Roles) returns (t: System)
    requires Reloading(s, r) && r.heir.Some? && !HasExited(s, r.mid)
    requires Shape(s, procs, r.elder, r.list, StopWait(0), |r.list|, 1)
    ensures Step(s, Run(r.mid.value, 1)) == Some(t)
    ensures Shape(t, t.procs, r.elder, r.list, StopCall(1), |r.list|, 1) && HasExited(t, r.mid)
  {
    hide NeuOk, Linked, OldWorkers, NewWorkers, OthersTold, PidFileOk;
    t := Step(s, Run(r.mid.value, 1)).value;
  }

  lemma SecondEndsWait(s: System, procs: map<Pid, Process>, r: Roles) returns (t: System)
    requires Reloading(s, r) && HasExited(s, r.mid) && |r.list| >= 2
    requires Shape(s, procs, r.elder, r.list, StopWait(0), |r.list|, 1)
    ensures Step(s, WorkerExits(r.list[1])) == Some(t)
    ensures Shape(t, t.procs, r.elder, r.list, StopCall(1), |r.list|, 2) && HasExited(t, r.mid)
  {
    hide OldOk, MidOk, NeuOk, Linked, OldWorkers, NewWorkers, OthersTold, PidFileOk;
    t := SecondEnds(s, procs, r.elder, r.list);
  }

  lemma Passed(s: System, r: Roles, next: System, t: System)
    requires Reloading(s, r) && HasExited(next, r.mid) && |r.list| >= 1
    requires Shape(t, next.procs, r.elder, r.list, StopEnd, |r.list|, |r.list|)
    ensures HasExited(t, r.mid) && t.procs[r.elder].place == StopEnd && StillRuns(t, r.list[0])
  {
    hide OldOk, MidOk, NeuOk, Linked, OldWorkers, NewWorkers, OthersTold, PidFileOk;
  }

  lemma Manned(s: System, r: Roles)
    requires Reloading(s, r)
    ensures |r.list| >= 1 && (r.heir.Some? ==> r.mid.Some?)
  {
  }

  /** From inside the wait for the first worker to the end of the loop, with that worker still running. */
  lemma WaitIsCutOff(s: System, procs: map<Pid, Process>, r: Roles) returns (acts: seq<Action>, t: System)
    requires Reloading(s, r) && r.heir.Some? && (HasExited(s, r.mid) ==> |r.list| >= 2)
    requires Shape(s, procs, r.elder, r.list, StopWait(0), |r.list|, 1)
    ensures RunAll(s, acts) == Some(t) && Undisturbed(acts) && Reloading(t, r) && HasExited(t, r.mid)
    ensures t.procs[r.elder].place == StopEnd && |r.list| >= 1 && StillRuns(t, r.list[0])
  {
    hide Reloading, RunAll, Step, Shape, HasExited, StillRuns;
    Manned(s, r);
    var a, next;
    if HasExited(s, r.mid) {
      a := WorkerExits(r.list[1]);
      next := SecondEndsWait(s, procs, r);
      acts, t := OthersEnd(next, next.procs, r.elder, r.list, 2);
    } else {
      a := Run(r.mid.value, 1);
      next := MidEnds(s, procs, r);
      acts, t := OthersEnd(next, next.procs, r.elder, r.list, 1);
    }
    Passed(s, r, next, t);
    Prepends(s, a, next, acts, t);
    acts := [a] + acts;
    StaysReloading(s, r, acts, t);
  }

  /** The old master exits. */
  lemma ElderExits(s: System, r: Roles) returns (t: System)
    requires Reloading(s, r) && s.procs[r.elder].place == StopEnd && HasExited(s, r.mid)
    ensures Step(s, Run(r.elder, 1)) == Some(t) && Reloading(t, r)
    ensures t.workers == s.workers && t.procs[r.elder].place.Exited? && HasExited(t, r.mid)
  {
    hide MidOk, NeuOk, Linked, OldWorkers, NewWorkers, OthersTold, PidFileOk;
    t := Step(s, Run(r.elder, 1)).value;
    ElderEnds(s, r, 1, t);
  }

  /** The waits of the old master are cut off as long as its child or a second worker can end first. */
  lemma Abandons(s: System, r: Roles) returns (acts: seq<Action>, t: System, r': Roles)
    requires Reloading(s, r) && Untouched(s.workers, r.list) && (HasExited(s, r.mid) ==> |r.list| >= 2)
    ensures RunAll(s, acts) == Some(t) && Undisturbed(acts) && Reloading(t, r')
    ensures r' == r.(mid := r'.mid, heir := r'.heir) && HasExited(t, r'.mid) && t.procs[r.elder].place.Exited?
    ensures |r.list| >= 1 && StillRuns(t, r.list[0])
  {
    hide Reloading, RunAll, Step, Shape, HasExited, Untouched;
    var acts1, s1;
    acts1, s1, r' := ComesToStop(s, r);
    ShapeOfElder(s1, r');
    Manned(s1, r');
    var acts2, s2 := ComesToWait(s1, s1.procs, r.elder, r.list, 0);
    StaysReloading(s1, r', acts2, s2);
    MidAsBefore(s1, r', s2);
    var acts3, s3 := WaitIsCutOff(s2, s1.procs, r');
    t := ElderExits(s3, r');
    OneAct(s3, Run(r.elder, 1), t);
    Joins(s2, acts3, s3, [Run(r.elder, 1)], t);
    Joins(s1, acts2, s2, acts3 + [Run(r.elder, 1)], t);
    acts := acts2 + (acts3 + [Run(r.elder, 1)]);
    Joins(s, acts1, s1, acts, t);
    acts := acts1 + acts;
  }

  lemma MidAsBefore(s: System, r: Roles, t: System)
    requires Reloading(s, r) && Shape(t, s.procs, r.elder, r.list, StopWait(0), |r.list|, 1)
    ensures HasExited(t, r.mid) == HasExited(s, r.mid)
  {
    hide OldOk, MidOk, NeuOk, Linked, OldWorkers, NewWorkers, OthersTold, PidFileOk;
  }

  /** Once the old master has exited, the new one comes back to its main loop by itself. */
  lemma {:induction false} HeirFinishes(s: System, r: Roles) returns (acts: seq<Action>, t: System)
    requires Reloading(s, r) && s.procs[r.elder].place.Exited? && HasExited(s, r.mid) && r.heir.Some?
    ensures RunAll(s, acts) == Some(t) && Undisturbed(acts)
    ensures Settled(t, r.heir.value) && t.workers == s.workers
    decreases Rank(s, r)
  {
    hide MidOk, OldWorkers, NewWorkers, OthersTold, PidFileOk, Settled, Step, Rank, RunAll;
    if s.procs[r.heir.value].place.Poll? {
      FinishedIsSettled(s, r);
      acts, t := [], s;
      Nothing(s);
    } else {
      var next := HeirTurn(s, r, 1);
      HeirTurnElsewhere(s, r, 1, next);
      WorkersStay(s, r.heir.value, 1, next);
      acts, t := HeirFinishes(next, r);
      Prepends(s, Run(r.heir.value, 1), next, acts, t);
      acts := [Run(r.heir.value, 1)] + acts;
    }
  }

  /** A reload of any settled system by either command in which a worker of the old master, told to stop, is still
      running when the new master is settled. */
  lemma LeftBehindInReload(s: System, p: Pid, level: Level) returns (acts: seq<Action>, t: System, q: Pid)
    requires Settled(s, p)
    ensures RunAll(s, [Command(p, level)] + acts) == Some(t) && Undisturbed(acts)
    ensures Settled(t, q) && q != p && StillRuns(t, s.procs[p].mem.workers[0])
  {
    hide RunAll, Generation, OthersTold, HasExited;
    var a, r := Command(p, level), Crew(s, p, level);
    var s1 := Step(s, a).value;
    CommandStartsReload(s, p, p, level, s1);
    assert !HasExited(s1, r.mid) by { NoneExited(s1); }
    var acts1, s2, r2 := Abandons(s1, r);
    HeirIsThere(s2, r2);
    var acts2;
    acts2, t := HeirFinishes(s2, r2);
    q := r2.heir.value;
    Joins(s1, acts1, s2, acts2, t);
    acts := acts1 + acts2;
    Prepends(s, a, s1, acts, t);
  }

  lemma NoneExited(s: System)
    ensures !HasExited(s, None)
  {
  }

  lemma HeirIsThere(s: System, r: Roles)
    requires Reloading(s, r) && HasExited(s, r.mid)
    ensures r.heir.Some? && r.heir.value != r.elder
  {
  }

  // ---------- a single worker, and no child left ----------

  /** The old master has not passed its first worker, or that worker has ended. */
  predicate FirstAwaited(s: System, r: Roles) {
    && r.elder in s.procs && |r.list| >= 1
    && var place := s.procs[r.elder].place;
       (place.StopCall? && place.i >= 1) || place.StopEnd? || place.Exited? ==> IsOver(s, r.list[0])
  }

  predicate IsOver(s: System, w: Pid) {
    w in s.workers && s.workers[w].exited
  }

  lemma ElderAwaits(s: System, r: Roles, a: Action, t: System)
    requires Reloading(s, r) && |r.list| == 1 && FirstAwaited(s, r) && !s.procs[r.elder].place.Exited?
    requires a.Run? && a.pid == r.elder && r.mid.Some? && Step(s, a) == Some(t)
    ensures FirstAwaited(t, r)
  {
    hide MidOk, NeuOk, Linked, NewWorkers, OthersTold, PidFileOk, Untouched, Signalled;
  }

  lemma HeirAwaits(s: System, r: Roles, a: Action, t: System)
    requires Reloading(s, r) && |r.list| == 1 && FirstAwaited(s, r) && !s.procs[r.elder].place.Exited?
    requires a.Run? && r.heir == Some(a.pid) && Step(s, a) == Some(t)
    ensures FirstAwaited(t, r)
  {
    hide MidOk, OldWorkers, NewWorkers, OthersTold, PidFileOk;
  }

  lemma ExitAwaits(s: System, r: Roles, a: Action, t: System)
    requires Reloading(s, r) && |r.list| == 1 && FirstAwaited(s, r) && !s.procs[r.elder].place.Exited?
    requires a.WorkerExits? && Step(s, a) == Some(t)
    ensures FirstAwaited(t, r)
  {
    hide OldOk, MidOk, NeuOk, Linked, NewWorkers, OthersTold, PidFileOk, Untouched, Signalled;
  }

  lemma StaysOut(s: System, q: Option<Pid>, a: Action, t: System)
    requires HasExited(s, q) && PidsBelow(s) && Step(s, a) == Some(t)
    ensures HasExited(t, q)
  {
    hide Statement;
    if a.Run? {
      StatementLeavesOut(s, q.value, a.pid, a.count, t);
    }
  }

  lemma StatementLeavesOut(s: System, q: Pid, p: Pid, count: int, t: System)
    requires q in s.procs && s.procs[q].place.Exited? && q < s.next
    requires Live(s, p) && Statement(s, p, count) == Some(t)
    ensures q in t.procs && t.procs[q].place.Exited?
  {
  }

  lemma AwaitsOn(s: System, r: Roles, a: Action, t: System)
    requires Reloading(s, r) && |r.list| == 1 && HasExited(s, r.mid) && FirstAwaited(s, r)
    requires !s.procs[r.elder].place.Exited? && Step(s, a) == Some(t) && ReadsPositive(a)
    ensures Reloading(t, r) && HasExited(t, r.mid) && FirstAwaited(t, r)
  {
    hide OldOk, NeuOk, Linked, OldWorkers, NewWorkers, OthersTold, PidFileOk, Statement, FirstAwaited;
    HeirIsThere(s, r);
    StaysOut(s, r.mid, a, t);
    match a
    case Run(p, _) =>
      ReloadStep(s, r, a, t);
      SameRoles(s, r, a);
      if p == r.elder {
        ElderAwaits(s, r, a, t);
      } else {
        HeirAwaits(s, r, a, t);
      }
    case WorkerExits(_) =>
      ReloadStep(s, r, a, t);
      SameRoles(s, r, a);
      ExitAwaits(s, r, a, t);
    case _ => IdleIsSettled(s, r, a.master);
  }

  lemma StaysOver(s: System, ph: Phase, w: Pid, a: Action, t: System)
    requires In(s, ph) && IsOver(s, w) && Step(s, a) == Some(t)
    ensures IsOver(t, w)
  {
    hide In, Statement;
    Below(s, ph);
    if a.Run? {
      WorkerStaysOver(s, w, a.pid, a.count, t);
    }
  }

  lemma WorkerStaysOver(s: System, w: Pid, p: Pid, count: int, t: System)
    requires PidsBelow(s) && IsOver(s, w) && Live(s, p) && Statement(s, p, count) == Some(t)
    ensures IsOver(t, w)
  {
  }

  lemma {:induction false} RunStaysOver(s: System, ph: Phase, w: Pid, acts: seq<Action>, count: int, t: System)
    requires In(s, ph) && Holds(s, ph, count) && IsOver(s, w) && AllPositive(acts) && RunAll(s, acts) == Some(t)
    ensures IsOver(t, w)
    decreases |acts|
  {
    hide In, Holds, Step, IsOver, CountAfter;
    if acts != [] {
      var next := Step(s, acts[0]).value;
      StaysOver(s, ph, w, acts[0], next);
      var after := OneStep(s, ph, acts[0], next, count);
      RunStaysOver(next, after, w, acts[1..], CountAfter(s, acts[0], count), t);
    }
  }

  lemma {:induction false} AwaitsToTheEnd(s: System, r: Roles, acts: seq<Action>, t: System)
    requires Reloading(s, r) && |r.list| == 1 && HasExited(s, r.mid) && FirstAwaited(s, r)
    requires AllPositive(acts) && RunAll(s, acts) == Some(t) && HasExited(t, Some(r.elder))
    ensures IsOver(t, r.list[0])
    decreases |acts|
  {
    hide Reloading, Step, OldOk, OldWorkers, IsOver;
    if s.procs[r.elder].place.Exited? {
      RunStaysOver(s, UnderReload(r), r.list[0], acts, s.procs[r.elder].mem.count, t);
    } else if acts != [] {
      var next := Step(s, acts[0]).value;
      AwaitsOn(s, r, acts[0], next);
      AwaitsToTheEnd(next, r, acts[1..], t);
    }
  }

  /** A run after which the old master has exited. */
  predicate OutlivesElder(s: System, r: Roles, acts: seq<Action>, t: System) {
    AllPositive(acts) && RunAll(s, acts) == Some(t) && HasExited(t, Some(r.elder))
  }

  /** In front of the stop of the old master: all its workers will have ended when it has exited, in every run, if
      and only if there is one and the intermediate child has exited. */
  lemma ReloadAwaitsAllExactly(s: System, r: Roles)
    requires Reloading(s, r) && Untouched(s.workers, r.list)
    ensures (forall acts, t :: OutlivesElder(s, r, acts, t) ==> HaveEnded(t, r.list))
            <==> |r.list| == 1 && HasExited(s, r.mid)
  {
    hide Reloading, Untouched, HasExited, RunAll, FirstAwaited;
    if |r.list| == 1 && HasExited(s, r.mid) {
      NotPassedYet(s, r);
      forall acts, t | OutlivesElder(s, r, acts, t) ensures HaveEnded(t, r.list) {
        AwaitsToTheEnd(s, r, acts, t);
      }
    } else {
      Manned(s, r);
      var acts, t, r' := Abandons(s, r);
      Positive(acts);
      OutThen(t, r');
      assert OutlivesElder(s, r, acts, t) && !HaveEnded(t, r.list);
    }
  }

  lemma NotPassedYet(s: System, r: Roles)
    requires Reloading(s, r) && Untouched(s.workers, r.list)
    ensures FirstAwaited(s, r)
  {
    UntouchedPlaces(s, r);
  }

  lemma Positive(acts: seq<Action>)
    requires Undisturbed(acts)
    ensures AllPositive(acts)
  {
    forall i | 0 <= i < |acts| ensures ReadsPositive(acts[i]) {
      assert Calm(acts[i]);
    }
  }

  lemma OutThen(t: System, r: Roles)
    requires Reloading(t, r) && t.procs[r.elder].place.Exited?
    ensures HasExited(t, Some(r.elder))
  {
  }
}
