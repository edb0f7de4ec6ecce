/** A reload can always be finished, and so can a stop: no interleaving leads into a dead end. */
module ReloadProgress {
  import opened Text
  import opened Reload
  import opened ReloadInvariant
  import opened ReloadSteps
  import opened ReloadSafety

  /** Turns of the main loop until it looks at flag number `target`. */
  function Turns(check: nat, target: nat): nat
    requires check <= 3 && target <= 3
  {
    if check <= target then target - check else 4 + target - check
  }

  function ReloadCheck(l: Level): nat {
    if l == Soft then 2 else 3
  }

  function StopCheck(l: Level): nat {
    if l == Soft then 0 else 1
  }

  /** Steps of the old master before it forks. */
  function BeforeFork(r: Roles, o: Process): nat {
    if r.mid.Some? then 0
    else match o.place
         case Poll(c) => if c <= 3 then 3 + Turns(c, ReloadCheck(r.level)) else 0
         case ReadConfig => 2
         case _ => 1
  }

  /** Steps of the old master, once it has forked, and exits of its workers it waits for. */
  function ElderRank(r: Roles, o: Process): nat {
    var k := |r.list|;
    match o.place
    case Forked => 4 * k + 15
    case Returned => 4 * k + 14
    case Poll(c) => if c <= 3 then 4 * k + 10 + Turns(c, StopCheck(r.level)) else 0
    case StopKill(i) => if i <= k then 4 * k + 9 - i else 0
    case StopCall(i) => if i <= k then 2 * (k - i) + 2 else 0
    case StopWait(i) => if i < k then 2 * (k - i) + 1 else 0
    case StopEnd => 1
    case _ => 0
  }

  function MidRank(p: Process): nat {
    match p.place
    case Forked => 3
    case Fork2 => 2
    case Forked2 => 1
    case _ => 0
  }

  /** Steps of the new master, `count` being the number of workers it is to have. */
  function HeirRank(n: Process, count: nat): nat {
    match n.place
    case Forked2 => count + 12
    case Returned => count + 11
    case Check => count + 10
    case ForkWorkers => if |n.mem.workers| <= count then 9 + count - |n.mem.workers| else 0
    case FillPid => 8
    case SignalOld => 7
    case AwaitOld => 6
    case ResetAwait => 5
    case FillPidAgain => 4
    case Promote => 3
    case ClearReload => 2
    case _ => 0
  }

  function Rank(s: System, r: Roles): nat
    requires Reloading(s, r)
  {
    if r.mid.None? then 0
    else
      var count := s.procs[r.elder].mem.count;
      assert count > 0;
      ElderRank(r, s.procs[r.elder]) + MidRank(s.procs[r.mid.value])
      + (if r.heir.None? then count + 13 else HeirRank(s.procs[r.heir.value], count))
  }

  /** The new master is back in the main loop, and the two others have exited. */
  predicate Finished(s: System, r: Roles)
    requires Reloading(s, r)
  {
    r.heir.Some? && s.procs[r.heir.value].place.Poll? && s.procs[r.mid.value].place.Exited?
    && !s.procs[r.elder].place.Forked? && !s.procs[r.elder].place.Returned?
  }

  lemma FinishedIsSettled(s: System, r: Roles)
    requires Reloading(s, r) && Finished(s, r)
    ensures Settled(s, r.heir.value)
  {
    hide Generation, Untouched, Signalled;
    OthersToldHere(s, r, r.heir.value);
  }

  lemma ElderTurn(s: System, r: Roles, count: int) returns (t: System, r': Roles)
    requires Reloading(s, r) && count > 0 && !s.procs[r.elder].place.Exited?
    requires r.mid.None? || s.procs[r.elder].place.Forked? || s.procs[r.elder].place.Returned?
    ensures Step(s, Run(r.elder, count)) == Some(t) && Reloading(t, r')
    ensures r' == if s.procs[r.elder].place.Fork? then r.(mid := Some(s.next)) else r
    ensures var b, b' := BeforeFork(r, s.procs[r.elder]), BeforeFork(r', t.procs[r'.elder]);
            b' < b || (b' == b && Rank(t, r') < Rank(s, r))
  {
    hide MidOk, NeuOk, Linked, NewWorkers, OthersTold, OldWorkers, PidFileOk, Generation, Untouched, Signalled;
    t := Step(s, Run(r.elder, count)).value;
    r' := if s.procs[r.elder].place.Fork? then r.(mid := Some(s.next)) else r;
    ElderStep(s, r, count, t);
    if r.mid.Some? {
      assert t.procs[r.mid.value] == s.procs[r.mid.value];
    }
  }

  predicate ElderHasReturned(s: System, r: Roles)
    requires Reloading(s, r)
  {
    r.mid.Some? && !s.procs[r.elder].place.Forked? && !s.procs[r.elder].place.Returned?
  }

  lemma MidTurn(s: System, r: Roles, count: int) returns (t: System, r': Roles)
    requires Reloading(s, r) && ElderHasReturned(s, r) && !s.procs[r.mid.value].place.Exited?
    ensures Step(s, Run(r.mid.value, count)) == Some(t) && Reloading(t, r')
    ensures r' == if s.procs[r.mid.value].place.Fork2? then r.(heir := Some(s.next)) else r
    ensures Rank(t, r') < Rank(s, r)
  {
    hide OldOk, NeuOk, Linked, NewWorkers, OthersTold, OldWorkers, PidFileOk, Generation, Untouched, Signalled;
    t := Step(s, Run(r.mid.value, count)).value;
    r' := if s.procs[r.mid.value].place.Fork2? then r.(heir := Some(s.next)) else r;
    MidStep(s, r, count, t);
    assert t.procs[r.elder].place == s.procs[r.elder].place || t.procs[r.elder].place == Woken(s.procs[r.elder].place);
    ElderPlace(s, r);
  }

  lemma ElderPlace(s: System, r: Roles)
    requires Reloading(s, r)
    ensures s.procs[r.elder].place.StopWait? ==> s.procs[r.elder].place.i < |r.list|
  {
    hide OldWorkers;
  }

  lemma HeirTurn(s: System, r: Roles, count: int) returns (t: System)
    requires Reloading(s, r) && ElderHasReturned(s, r) && r.heir.Some? && !s.procs[r.heir.value].place.Poll?
    requires s.procs[r.heir.value].place.AwaitOld? ==> s.procs[r.heir.value].mem.oldMasterStopped
    ensures Step(s, Run(r.heir.value, count)) == Some(t) && Reloading(t, r)
    ensures Rank(t, r) < Rank(s, r)
  {
    hide OldOk, MidOk, NewWorkers, OthersTold, OldWorkers, PidFileOk, Generation, Untouched, ElderRank;
    t := Step(s, Run(r.heir.value, count)).value;
    HeirStep(s, r, count, t);
    HeirTurnElsewhere(s, r, count, t);
  }

  lemma HeirTurnElsewhere(s: System, r: Roles, count: int, t: System)
    requires Reloading(s, r) && r.heir.Some? && r.mid.Some? && Step(s, Run(r.heir.value, count)) == Some(t)
    ensures r.mid.value in t.procs && t.procs[r.mid.value] == s.procs[r.mid.value]
    ensures r.elder in t.procs && t.procs[r.elder].place == s.procs[r.elder].place
    ensures t.procs[r.elder].mem.count == s.procs[r.elder].mem.count
    ensures ElderRank(r, t.procs[r.elder]) == ElderRank(r, s.procs[r.elder])
  {
    hide MidOk, NewWorkers, OthersTold, PidFileOk, Generation, Untouched;
  }

  /** The new master waits, and the old one has not exited. */
  predicate Awaited(s: System, r: Roles)
    requires Reloading(s, r)
  {
    && ElderHasReturned(s, r) && r.heir.Some?
    && s.procs[r.heir.value].place.AwaitOld? && !s.procs[r.heir.value].mem.oldMasterStopped
  }

  lemma WorkerTurn(s: System, r: Roles, i: nat) returns (t: System)
    requires Reloading(s, r) && Awaited(s, r) && s.procs[r.elder].place == StopWait(i)
    ensures i < |r.list| && Step(s, WorkerExits(r.list[i])) == Some(t) && Reloading(t, r)
    ensures Rank(t, r) < Rank(s, r)
  {
    hide MidOk, NewWorkers, OthersTold, PidFileOk, Generation, Untouched, Signalled;
    Listed(s.workers, r.elder, r.list, i);
    SignalledAt(s.workers, r.list, i);
    var w := r.list[i];
    t := Step(s, WorkerExits(w)).value;
    WorkerEnds(s, r, w, t);
    assert t.procs[r.heir.value] == s.procs[r.heir.value] && t.procs[r.mid.value] == s.procs[r.mid.value];
    assert t.procs[r.elder].place == StopCall(i + 1);
  }

  lemma StopTurn(s: System, r: Roles, count: int) returns (t: System)
    requires Reloading(s, r) && Awaited(s, r) && count > 0 && !s.procs[r.elder].place.StopWait?
    ensures Step(s, Run(r.elder, count)) == Some(t) && Reloading(t, r)
    ensures Rank(t, r) < Rank(s, r)
  {
    hide MidOk, NewWorkers, OldWorkers, OthersTold, PidFileOk, Generation, Untouched, Signalled;
    t := Step(s, Run(r.elder, count)).value;
    ElderStep(s, r, count, t);
    assert t.procs[r.mid.value] == s.procs[r.mid.value];
    assert t.procs[r.heir.value].place == s.procs[r.heir.value].place;
    assert t.procs[r.elder].mem.count == s.procs[r.elder].mem.count;
    StopRank(s, r, count, t);
  }

  lemma StopRank(s: System, r: Roles, count: int, t: System)
    requires Reloading(s, r) && Awaited(s, r) && !s.procs[r.elder].place.StopWait?
    requires Step(s, Run(r.elder, count)) == Some(t)
    ensures r.elder in t.procs
    ensures ElderRank(r, t.procs[r.elder]) < ElderRank(r, s.procs[r.elder])
  {
    hide MidOk, NeuOk, NewWorkers, OldWorkers, OthersTold, PidFileOk;
  }

  lemma SignalledAt(ws: map<Pid, Worker>, list: seq<Pid>, i: nat)
    requires Signalled(ws, list, |list|) && i < |list|
    ensures list[i] in ws && ws[list[i]].signalled
  {
  }

  /** From every state of a reload its end can be reached, and then the new master is settled. */
  lemma {:induction false} ReloadCanFinish(s: System, r: Roles, count: int)
    returns (acts: seq<Action>, t: System, p: Pid)
    requires Reloading(s, r) && count > 0
    ensures RunAll(s, acts) == Some(t) && Settled(t, p)
    decreases BeforeFork(r, s.procs[r.elder]), Rank(s, r)
  {
    hide MidOk, NewWorkers, OldWorkers, OthersTold, PidFileOk, Settled, Step, BeforeFork, Rank;
    if Finished(s, r) {
      FinishedIsSettled(s, r);
      acts, t, p := [], s, r.heir.value;
    } else {
      var a, next, r' := NextTurn(s, r, count);
      acts, t, p := ReloadCanFinish(next, r', count);
      assert ([a] + acts)[1..] == acts;
      acts := [a] + acts;
    }
  }

  lemma NextTurn(s: System, r: Roles, count: int) returns (a: Action, t: System, r': Roles)
    requires Reloading(s, r) && count > 0 && !Finished(s, r)
    ensures Step(s, a) == Some(t) && Reloading(t, r')
    ensures var b, b' := BeforeFork(r, s.procs[r.elder]), BeforeFork(r', t.procs[r'.elder]);
            b' < b || (b' == b && Rank(t, r') < Rank(s, r))
  {
    hide MidOk, NewWorkers, OldWorkers, OthersTold, PidFileOk, Rank, Step;
    r' := r;
    if !ElderHasReturned(s, r) {
      a := Run(r.elder, count);
      t, r' := ElderTurn(s, r, count);
    } else if !s.procs[r.mid.value].place.Exited? {
      a := Run(r.mid.value, count);
      t, r' := MidTurn(s, r, count);
    } else {
      HeirExists(s, r);
      if !Awaited(s, r) {
        a := Run(r.heir.value, count);
        t := HeirTurn(s, r, count);
      } else if s.procs[r.elder].place.StopWait? {
        t := WorkerTurn(s, r, s.procs[r.elder].place.i);
        a := WorkerExits(r.list[s.procs[r.elder].place.i]);
      } else {
        a := Run(r.elder, count);
        t := StopTurn(s, r, count);
      }
    }
  }

  lemma HeirExists(s: System, r: Roles)
    requires Reloading(s, r) && r.mid.Some? && s.procs[r.mid.value].place.Exited?
    ensures r.heir.Some?
  {
  }
}
