/** Every step keeps what holds throughout a reload. */
module ReloadSteps {
  import opened Text
  import opened Reload
  import opened ReloadInvariant

  // ---------- one process changes ----------

  lemma ElderMoves(s: System, r: Roles, o: Process)
    requires Reloading(s, r)
    requires OldOk(r, o) && OldWorkers(s.workers, r, o.place)
    requires r.heir.None? ==> !o.mem.StopFlag(r.level)
    requires r.heir.Some? ==> Linked(r, o, s.procs[r.heir.value])
    requires r.mid.Some? ==> o.mem.count == s.procs[r.elder].mem.count
    ensures Reloading(s.(procs := s.procs[r.elder := o]), r)
  {
    hide OldOk, OldWorkers, MidOk, NeuOk, Linked, NewWorkers, OthersTold;
  }

  lemma MidMoves(s: System, r: Roles, p: Process)
    requires Reloading(s, r) && r.mid.Some? && MidOk(r, p) && p.mem.count == s.procs[r.mid.value].mem.count
    ensures Reloading(s.(procs := s.procs[r.mid.value := p]), r)
  {
    hide OldOk, OldWorkers, MidOk, NeuOk, Linked, NewWorkers, OthersTold;
  }

  lemma HeirMoves(s: System, r: Roles, n: Process)
    requires Reloading(s, r) && r.heir.Some? && NeuOk(r, n) && Linked(r, s.procs[r.elder], n)
    requires NewWorkers(s.workers, r.heir.value, n) && n.mem.count == s.procs[r.heir.value].mem.count
    requires (Progress(n.place) <= 4) == (Progress(s.procs[r.heir.value].place) <= 4)
    requires Progress(n.place) > 4 ==> n.mem.workers == s.procs[r.heir.value].mem.workers
    ensures Reloading(s.(procs := s.procs[r.heir.value := n]), r)
  {
    hide OldOk, OldWorkers, MidOk, NeuOk, Linked, NewWorkers, OthersTold;
  }

  // ---------- the old master ----------

  lemma ElderPolls(s: System, r: Roles, count: int, t: System)
    requires Reloading(s, r) && s.procs[r.elder].place.Poll?
    requires Step(s, Run(r.elder, count)) == Some(t)
    ensures Reloading(t, r)
  {
    hide OldWorkers, MidOk, NeuOk, NewWorkers, OthersTold, Generation, Untouched, Signalled;
    var o := s.procs[r.elder];
    var o' := t.procs[r.elder];
    assert t.procs == s.procs[r.elder := o'];
    assert OldWorkers(s.workers, r, o'.place) by { StillServing(s.workers, r, o.place, o'.place); }
    ElderMoves(s, r, o');
  }

  /** Nothing in these places depends on what the workers do. */
  lemma StillServing(ws: map<Pid, Worker>, r: Roles, from: Place, to: Place)
    requires OldWorkers(ws, r, from)
    requires from.Poll? || from.ReadConfig? || from.Fork? || from.Forked? || from.Returned?
    requires to.Poll? || to.ReadConfig? || to.Fork? || to.Forked? || to.Returned? || to == StopKill(0)
    ensures OldWorkers(ws, r, to)
  {
    hide Generation, Untouched;
  }

  lemma SameCrew(ws: map<Pid, Worker>, r: Roles, r': Roles, place: Place)
    requires OldWorkers(ws, r, place) && r'.elder == r.elder && r'.list == r.list
    ensures OldWorkers(ws, r', place)
  {
  }

  lemma Listed(ws: map<Pid, Worker>, p: Pid, list: seq<Pid>, i: nat)
    requires Generation(ws, p, list) && i < |list|
    ensures list[i] in ws && ws[list[i]].parent == p
  {
  }

  /** No worker has a parent that is not forked yet. */
  lemma NoneYet(s: System, p: Pid)
    requires PidsBelow(s) && p >= s.next
    ensures Generation(s.workers, p, []) && Untouched(s.workers, [])
  {
  }

  lemma ElderReloads(s: System, r: Roles, count: int, t: System)
    requires Reloading(s, r) && count > 0
    requires s.procs[r.elder].place.ReadConfig? || s.procs[r.elder].place.Forked? || s.procs[r.elder].place.Returned?
    requires Step(s, Run(r.elder, count)) == Some(t)
    ensures Reloading(t, r)
  {
    hide OldWorkers, MidOk, NeuOk, NewWorkers, OthersTold, Generation, Untouched, Signalled;
    var o := s.procs[r.elder];
    var o' := t.procs[r.elder];
    assert t.procs == s.procs[r.elder := o'];
    assert OldWorkers(s.workers, r, o'.place) by { StillServing(s.workers, r, o.place, o'.place); }
    ElderMoves(s, r, o');
  }

  lemma ElderForks(s: System, r: Roles, count: int, t: System)
    requires Reloading(s, r) && s.procs[r.elder].place.Fork?
    requires Step(s, Run(r.elder, count)) == Some(t)
    ensures Reloading(t, r.(mid := Some(s.next)))
  {
    hide OldWorkers, NeuOk, NewWorkers, OthersTold, Generation, Untouched, Signalled;
    var r' := r.(mid := Some(s.next));
    var o := s.procs[r.elder];
    StillServing(s.workers, r, Fork, Forked);
    SameCrew(s.workers, r, r', Forked);
    NoneYet(s, s.next);
    assert t.procs == s.procs[r.elder := o.(place := Forked)][s.next := Process(Forked, o.mem, r.elder)];
  }

  /** A worker of the old master is not one of the new master's. */
  lemma SignalKeeps(ws: map<Pid, Worker>, p: Pid, list: seq<Pid>, q: Pid, others: seq<Pid>, i: nat)
    requires Generation(ws, p, list) && Generation(ws, q, others) && Untouched(ws, others)
    requires p != q && i < |list|
    ensures var ws' := ws[list[i] := ws[list[i]].(signalled := true)];
            Generation(ws', p, list) && Generation(ws', q, others) && Untouched(ws', others)
  {
  }

  lemma SignalKeepsNone(ws: map<Pid, Worker>, p: Pid, list: seq<Pid>, q: Pid, i: nat)
    requires Generation(ws, p, list) && Generation(ws, q, []) && i < |list|
    ensures Generation(ws[list[i] := ws[list[i]].(signalled := true)], q, [])
  {
  }

  lemma SignalsOneMore(ws: map<Pid, Worker>, list: seq<Pid>, i: nat)
    requires i < |list| && Signalled(ws, list, i) && list[i] in ws
    ensures Signalled(ws[list[i] := ws[list[i]].(signalled := true)], list, i + 1)
  {
  }

  lemma ElderSignals(s: System, r: Roles, count: int, t: System)
    requires Reloading(s, r) && s.procs[r.elder].place.StopKill?
    requires Step(s, Run(r.elder, count)) == Some(t)
    ensures Reloading(t, r)
  {
    hide MidOk, NeuOk, Generation, Untouched, Signalled;
    var o, i := s.procs[r.elder], s.procs[r.elder].place.i;
    if i == |r.list| {
      assert t.procs == s.procs[r.elder := o.(place := StopCall(0))];
      ElderMoves(s, r, o.(place := StopCall(0)));
    } else {
      var w := r.list[i];
      Listed(s.workers, r.elder, r.list, i);
      var n := s.procs[r.heir.value];
      SignalKeeps(s.workers, r.elder, r.list, r.heir.value, Forkees(n), i);
      SignalKeepsNone(s.workers, r.elder, r.list, r.mid.value, i);
      assert t.procs == s.procs[r.elder := o.(place := StopKill(i + 1))];
      SignalsOneMore(s.workers, r.list, i);
    }
  }

  lemma ElderWaits(s: System, r: Roles, count: int, t: System)
    requires Reloading(s, r) && s.procs[r.elder].place.StopCall?
    requires Step(s, Run(r.elder, count)) == Some(t)
    ensures Reloading(t, r)
  {
    hide MidOk, NeuOk, NewWorkers, Untouched;
    var o, i := s.procs[r.elder], s.procs[r.elder].place.i;
    var o' := t.procs[r.elder];
    assert t.procs == s.procs[r.elder := o'];
    ElderMoves(s, r, o');
  }

  /** The old master exits: its reload flag is 2, so it leaves the pid file alone and notifies the new one. */
  lemma ElderEnds(s: System, r: Roles, count: int, t: System)
    requires Reloading(s, r) && s.procs[r.elder].place.StopEnd?
    requires Step(s, Run(r.elder, count)) == Some(t)
    ensures Reloading(t, r) && t.pidFile == s.pidFile
    ensures t.procs[r.heir.value].mem.oldMasterStopped
  {
    hide MidOk, OthersTold, Generation, Untouched, Signalled;
    var o, n := s.procs[r.elder], s.procs[r.heir.value];
    var n' := n.(mem := n.mem.(oldMasterStopped := true));
    assert t.procs == s.procs[r.elder := o.(place := Exited)][r.heir.value := n'];
  }

  // ---------- the intermediate child ----------

  lemma WokenKeeps(ws: map<Pid, Worker>, r: Roles, place: Place)
    requires OldWorkers(ws, r, place)
    ensures OldWorkers(ws, r, Woken(place))
  {
  }

  lemma MidSteps(s: System, r: Roles, count: int, t: System)
    requires Reloading(s, r) && r.mid.Some? && s.procs[r.mid.value].place != Fork2
    requires Step(s, Run(r.mid.value, count)) == Some(t)
    ensures Reloading(t, r)
  {
    hide OldWorkers, NeuOk, NewWorkers, OthersTold, Generation, Untouched, Signalled;
    var p, o := s.procs[r.mid.value], s.procs[r.elder];
    if p.place.Forked? {
      assert t.procs == s.procs[r.mid.value := t.procs[r.mid.value]];
      MidMoves(s, r, t.procs[r.mid.value]);
    } else {
      MidMoves(s, r, p.(place := Exited));
      var s1 := s.(procs := s.procs[r.mid.value := p.(place := Exited)]);
      if Live(s, r.elder) {
        var o' := Process(Woken(o.place), o.mem.(oldMasterStopped := true), o.parent);
        assert t.procs == s1.procs[r.elder := o'];
        WokenKeeps(s.workers, r, o.place);
        ElderMoves(s1, r, o');
      } else {
        assert t.procs == s1.procs;
      }
    }
  }

  lemma MidForks(s: System, r: Roles, count: int, t: System)
    requires Reloading(s, r) && r.mid.Some? && s.procs[r.mid.value].place == Fork2
    requires Step(s, Run(r.mid.value, count)) == Some(t)
    ensures Reloading(t, r.(heir := Some(s.next)))
  {
    hide OldWorkers, Generation, Untouched, Signalled;
    var r' := r.(heir := Some(s.next));
    var p := s.procs[r.mid.value];
    var n := Process(Forked2, p.mem, r.mid.value);
    assert t.procs == s.procs[r.mid.value := p.(place := Forked2)][s.next := n];
    SameCrew(s.workers, r, r', s.procs[r.elder].place);
    NoneYet(s, s.next);
  }

  // ---------- the new master ----------

  /** Steps that leave the workers, the pid file and the old master alone. */
  lemma HeirProceeds(s: System, r: Roles, count: int, t: System)
    requires Reloading(s, r) && r.heir.Some? && Live(s, r.heir.value)
    requires Progress(s.procs[r.heir.value].place) !in {3, 4, 5, 8}
    requires Step(s, Run(r.heir.value, count)) == Some(t)
    ensures Reloading(t, r)
  {
    hide OldOk, OldWorkers, MidOk, OthersTold, Generation, Untouched, Signalled;
    var n := s.procs[r.heir.value];
    var n' := t.procs[r.heir.value];
    assert t.procs == s.procs[r.heir.value := n'];
    HeirMoves(s, r, n');
  }

  /** add_work_processes: one worker more, or enough of them. */
  lemma HeirForks(s: System, r: Roles, count: int, t: System)
    requires Reloading(s, r) && r.heir.Some? && s.procs[r.heir.value].place.ForkWorkers?
    requires Step(s, Run(r.heir.value, count)) == Some(t)
    ensures Reloading(t, r)
  {
    hide OldOk, OldWorkers, MidOk, OthersTold, Generation, Untouched, Signalled;
    var q, n := r.heir.value, s.procs[r.heir.value];
    var m := n.mem;
    if |m.workers| < m.count {
      var w := Worker(q, false, false);
      var n' := n.(mem := m.(workers := m.workers + [s.next]));
      assert t.procs == s.procs[q := n'];
      WorkerJoins(s.workers, q, m.workers, s.next);
      WorkerJoinsOthers(s.workers, r, s.procs[r.elder].place, s.next, q);
      NoneJoins(s.workers, r.mid.value, s.next, q);
      OthersStayEnded(s.workers, {r.elder} + {q}, s.next, q);
    } else {
      HeirMoves(s, r, n.(place := FillPid));
      assert t.procs == s.procs[q := n.(place := FillPid)];
    }
  }

  lemma WorkerJoins(ws: map<Pid, Worker>, q: Pid, list: seq<Pid>, w: Pid)
    requires Generation(ws, q, list) && Untouched(ws, list) && w !in ws
    ensures Generation(ws[w := Worker(q, false, false)], q, list + [w])
    ensures Untouched(ws[w := Worker(q, false, false)], list + [w])
  {
    assert w !in list;
    forall v | v in ws && ws[v].parent == q ensures v in list + [w] { assert v in list; }
    assert (list + [w])[|list|] == w;
  }

  lemma NoneJoins(ws: map<Pid, Worker>, p: Pid, w: Pid, q: Pid)
    requires Generation(ws, p, []) && w !in ws && q != p
    ensures Generation(ws[w := Worker(q, false, false)], p, [])
  {
  }

  lemma WorkerJoinsOthers(ws: map<Pid, Worker>, r: Roles, place: Place, w: Pid, q: Pid)
    requires OldWorkers(ws, r, place) && w !in ws && q != r.elder
    ensures OldWorkers(ws[w := Worker(q, false, false)], r, place)
  {
  }

  lemma OthersStayEnded(ws: map<Pid, Worker>, parents: set<Pid>, w: Pid, q: Pid)
    requires OthersTold(ws, parents) && w !in ws && q in parents
    ensures OthersTold(ws[w := Worker(q, false, false)], parents)
  {
  }

  lemma HeirWritesPidFile(s: System, r: Roles, count: int, t: System)
    requires Reloading(s, r) && r.heir.Some?
    requires s.procs[r.heir.value].place.FillPid? || s.procs[r.heir.value].place.FillPidAgain?
    requires Step(s, Run(r.heir.value, count)) == Some(t)
    ensures Reloading(t, r)
  {
    hide OldOk, OldWorkers, MidOk, OthersTold, Generation, Untouched, Signalled;
    var n := s.procs[r.heir.value];
    assert t.procs == s.procs[r.heir.value := n.(place := if n.place.FillPid? then SignalOld else Promote)];
  }

  lemma HeirSignals(s: System, r: Roles, count: int, t: System)
    requires Reloading(s, r) && r.heir.Some? && s.procs[r.heir.value].place.SignalOld?
    requires Step(s, Run(r.heir.value, count)) == Some(t)
    ensures Reloading(t, r)
  {
    hide OldWorkers, MidOk, OthersTold, Generation, Untouched, Signalled;
    var q, n, o := r.heir.value, s.procs[r.heir.value], s.procs[r.elder];
    var n' := n.(place := AwaitOld);
    var o' := o.(mem := o.mem.SetStop(r.level, q));
    assert Live(s, r.elder);
    assert t.procs == s.procs[q := n'][r.elder := o'];
    assert OldWorkers(s.workers, r, o'.place);
  }

  // ---------- the workers ----------

  /** A worker of the old master ends: that master hears of it, and a `waitpid` of it returns. */
  lemma ElderWorkerEnds(s: System, r: Roles, w: Pid, t: System)
    requires Reloading(s, r) && Step(s, WorkerExits(w)) == Some(t) && s.workers[w].parent == r.elder
    ensures Reloading(t, r)
  {
    hide MidOk, NeuOk, OldWorkers, NewWorkers, OthersTold, Generation;
    var o := s.procs[r.elder];
    assert t.workers == s.workers[w := s.workers[w].(exited := true)];
    WokenKeeps(s.workers, r, o.place);
    ExitKeeps(s.workers, r, o.place, w);
    ExitSpares(s, r, w);
    ToldBySuccessor(s, r, w);
    if o.place.Exited? {
      assert Woken(o.place) == o.place;
    }
  }

  lemma ToldBySuccessor(s: System, r: Roles, w: Pid)
    requires Reloading(s, r) && w in s.workers && s.workers[w].signalled && s.workers[w].parent == r.elder
    ensures r.mid.Some?
  {
    hide MidOk, NeuOk, NewWorkers, OthersTold, Signalled;
  }

  /** What else is said of the workers is not touched by the end of one. */
  lemma ExitSpares(s: System, r: Roles, w: Pid)
    requires Reloading(s, r) && w in s.workers && (r.heir.Some? ==> s.workers[w].parent != r.heir.value)
    ensures var ws := s.workers[w := s.workers[w].(exited := true)];
            && OthersTold(ws, {r.elder} + (if r.heir.Some? then {r.heir.value} else {}))
            && (r.mid.Some? ==> Generation(ws, r.mid.value, []))
            && (r.heir.Some? ==> NewWorkers(ws, r.heir.value, s.procs[r.heir.value]))
  {
    hide OldOk, MidOk, NeuOk, Linked, OldWorkers, NewWorkers, OthersTold, Generation;
    ToldExitKeeps(s.workers, {r.elder} + (if r.heir.Some? then {r.heir.value} else {}), w);
    if r.mid.Some? {
      NoneExitKeeps(s.workers, r.mid.value, w);
    }
    if r.heir.Some? {
      NewExitKeeps(s.workers, r.heir.value, s.procs[r.heir.value], w);
    }
  }

  /** A worker of a former master ends, and nobody hears of it. */
  lemma FormerWorkerEnds(s: System, r: Roles, w: Pid, t: System)
    requires Reloading(s, r) && Step(s, WorkerExits(w)) == Some(t) && s.workers[w].parent != r.elder
    ensures Reloading(t, r)
  {
    hide OldOk, MidOk, NeuOk, Linked, OldWorkers, NewWorkers, OthersTold, Generation;
    ParentIsGone(s, r, w);
    assert t == s.(workers := s.workers[w := s.workers[w].(exited := true)]);
    OtherExitKeeps(s.workers, r, s.procs[r.elder].place, w);
    ExitSpares(s, r, w);
  }

  lemma ToldExitKeeps(ws: map<Pid, Worker>, parents: set<Pid>, w: Pid)
    requires OthersTold(ws, parents) && w in ws
    ensures OthersTold(ws[w := ws[w].(exited := true)], parents)
  {
  }

  lemma NoneExitKeeps(ws: map<Pid, Worker>, p: Pid, w: Pid)
    requires Generation(ws, p, []) && w in ws
    ensures Generation(ws[w := ws[w].(exited := true)], p, [])
  {
  }

  lemma NewExitKeeps(ws: map<Pid, Worker>, heir: Pid, n: Process, w: Pid)
    requires NewWorkers(ws, heir, n) && w in ws && ws[w].parent != heir
    ensures NewWorkers(ws[w := ws[w].(exited := true)], heir, n)
  {
  }

  lemma ParentIsGone(s: System, r: Roles, w: Pid)
    requires Reloading(s, r) && w in s.workers && s.workers[w].signalled && !s.workers[w].exited
    requires s.workers[w].parent != r.elder
    ensures !Live(s, s.workers[w].parent)
    ensures r.heir.Some? ==> s.workers[w].parent != r.heir.value
  {
    hide OldOk, MidOk, NeuOk, OldWorkers;
  }

  /** Where the place does not say that this very worker is running. */
  lemma ExitKeeps(ws: map<Pid, Worker>, r: Roles, place: Place, w: Pid)
    requires OldWorkers(ws, r, place) && w in ws && ws[w].signalled && !ws[w].exited
    ensures OldWorkers(ws[w := ws[w].(exited := true)], r, Woken(place))
  {
  }

  lemma OtherExitKeeps(ws: map<Pid, Worker>, r: Roles, place: Place, w: Pid)
    requires OldWorkers(ws, r, place) && w in ws && ws[w].signalled && ws[w].parent != r.elder
    ensures OldWorkers(ws[w := ws[w].(exited := true)], r, place)
  {
  }

  lemma WorkerEnds(s: System, r: Roles, w: Pid, t: System)
    requires Reloading(s, r) && Step(s, WorkerExits(w)) == Some(t)
    ensures Reloading(t, r)
  {
    hide Reloading;
    if s.workers[w].parent == r.elder {
      ElderWorkerEnds(s, r, w, t);
    } else {
      FormerWorkerEnds(s, r, w, t);
    }
  }

  // ---------- where routines of the master come back to ----------

  /** Once a reload is through in a process, the main loop goes on with the flag it looks at next: behind a soft
      reload that for a hard one, behind a hard reload from the start. */
  lemma LoopGoesOn(s: System, p: Pid, count: int, t: System)
    requires Live(s, p) && Step(s, Run(p, count)) == Some(t)
    requires s.procs[p].place.ClearReload? || (s.procs[p].place.Returned? && s.procs[p].mem.oldMaster == p)
    ensures p in t.procs && t.procs[p].place == Poll(if s.procs[p].mem.level == Hard then 0 else 3)
  {
  }

  /** server_stop ends by the flag of its own level: at 2 the new master is notified and the pid file stays,
      otherwise it is removed. */
  lemma StopEndsByItsFlag(s: System, p: Pid, count: int, t: System)
    requires Live(s, p) && s.procs[p].place.StopEnd? && Step(s, Run(p, count)) == Some(t)
    ensures var m := s.procs[p].mem; var flag := if m.level == Hard then m.hardReload else m.softReload;
            && p in t.procs && t.procs[p].place.Exited?
            && t.pidFile == (if flag == 2 then s.pidFile else None)
            && (flag == 2 && Live(s, m.newMasterPid) && m.newMasterPid != p ==>
                  m.newMasterPid in t.procs && t.procs[m.newMasterPid].mem.oldMasterStopped)
  {
  }

  // ---------- all steps of one process ----------

  lemma Blocked(s: System, p: Pid, count: int)
    requires Live(s, p) && s.procs[p].place.StopWait?
    ensures Step(s, Run(p, count)) == None
  {
  }

  lemma ElderStep(s: System, r: Roles, count: int, t: System)
    requires Reloading(s, r) && Step(s, Run(r.elder, count)) == Some(t) && count > 0
    ensures Reloading(t, if s.procs[r.elder].place.Fork? then r.(mid := Some(s.next)) else r)
    ensures s.procs[r.elder].place.Fork? ==> r.mid.None?
  {
    hide MidOk, NeuOk, NewWorkers, OthersTold, OldWorkers, Linked, PidFileOk, Statement;
    match s.procs[r.elder].place
    case Poll(_) => ElderPolls(s, r, count, t);
    case Fork => ElderForks(s, r, count, t);
    case StopKill(_) => ElderSignals(s, r, count, t);
    case StopCall(_) => ElderWaits(s, r, count, t);
    case StopWait(_) => Blocked(s, r.elder, count);
    case StopEnd => ElderEnds(s, r, count, t);
    case _ => ElderReloads(s, r, count, t);
  }

  lemma MidStep(s: System, r: Roles, count: int, t: System)
    requires Reloading(s, r) && r.mid.Some? && Step(s, Run(r.mid.value, count)) == Some(t)
    ensures Reloading(t, if s.procs[r.mid.value].place.Fork2? then r.(heir := Some(s.next)) else r)
  {
    hide OldOk, NeuOk, NewWorkers, OthersTold, OldWorkers, Linked, PidFileOk, Statement;
    if s.procs[r.mid.value].place.Fork2? {
      MidForks(s, r, count, t);
    } else {
      MidSteps(s, r, count, t);
    }
  }

  lemma HeirStep(s: System, r: Roles, count: int, t: System)
    requires Reloading(s, r) && r.heir.Some? && Step(s, Run(r.heir.value, count)) == Some(t)
    ensures Reloading(t, r)
  {
    hide OldOk, MidOk, NewWorkers, OthersTold, OldWorkers, Linked, PidFileOk, Statement;
    match s.procs[r.heir.value].place
    case ForkWorkers => HeirForks(s, r, count, t);
    case FillPid => HeirWritesPidFile(s, r, count, t);
    case FillPidAgain => HeirWritesPidFile(s, r, count, t);
    case SignalOld => HeirSignals(s, r, count, t);
    case _ => HeirProceeds(s, r, count, t);
  }
}
