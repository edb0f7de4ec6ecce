/** Runs of `server_stop` in which the wait for the first worker is cut off: that worker is told to stop, keeps
    running, and the master goes on without it. */
module ReloadStopRuns {
  import opened Text
  import opened Reload
  import opened ReloadInvariant
  import opened ReloadSteps
  import opened ReloadSafety

  // ---------- runs without a command ----------

  /** Once the new master has been forked, such a run goes on within the same reload. */
  lemma {:induction false} StaysReloading(s: System, r: Roles, acts: seq<Action>, t: System)
    requires Reloading(s, r) && r.heir.Some? && Undisturbed(acts) && RunAll(s, acts) == Some(t)
    ensures Reloading(t, r)
    decreases |acts|
  {
    hide Reloading, Step;
    if acts != [] {
      var next := Step(s, acts[0]).value;
      assert Calm(acts[0]);
      ReloadStep(s, r, acts[0], next);
      SameRoles(s, r, acts[0]);
      StaysReloading(next, r, acts[1..], t);
    }
  }

  lemma SameRoles(s: System, r: Roles, a: Action)
    requires Reloading(s, r) && r.heir.Some?
    ensures NextPhase(s, UnderReload(r), a) == UnderReload(r)
  {
    hide OldOk, OldWorkers, NeuOk, Linked, NewWorkers, OthersTold, PidFileOk;
  }

  // ---------- one worker is left behind ----------

  /** Among the processes `procs` the stopping one, `p`, is at `place`; its workers up to `told` have been told to
      stop, those from the second up to `ended` have ended, and no others. */
  predicate Shape(s: System, procs: map<Pid, Process>, p: Pid, list: seq<Pid>, place: Place, told: nat, ended: nat) {
    && p in s.procs && s.procs[p].place == place && s.procs[p].mem.workers == list
    && s.procs == procs[p := s.procs[p]]
    && (forall k :: 0 <= k < |list| ==>
          && list[k] in s.workers && s.workers[list[k]].parent == p
          && (k < told ==> s.workers[list[k]].signalled)
          && (s.workers[list[k]].exited <==> 1 <= k < ended))
    && (forall i, j :: 0 <= i < j < |list| ==> list[i] != list[j])
  }

  lemma ShapeOfStop(s: System, p: Pid)
    requires p in s.procs && s.procs[p].place == StopKill(0)
    requires Generation(s.workers, p, s.procs[p].mem.workers) && Untouched(s.workers, s.procs[p].mem.workers)
    ensures Shape(s, s.procs, p, s.procs[p].mem.workers, StopKill(0), 0, 1)
  {
  }

  lemma TellsOne(s: System, procs: map<Pid, Process>, p: Pid, list: seq<Pid>, i: nat) returns (t: System)
    requires i <= |list| && Shape(s, procs, p, list, StopKill(i), i, 1)
    ensures Step(s, Run(p, 1)) == Some(t)
    ensures if i < |list| then Shape(t, procs, p, list, StopKill(i + 1), i + 1, 1)
            else Shape(t, procs, p, list, StopCall(0), |list|, 1)
  {
    t := Step(s, Run(p, 1)).value;
  }

  /** The master tells all its workers to stop and waits for the first. */
  lemma {:induction false} ComesToWait(s: System, procs: map<Pid, Process>, p: Pid, list: seq<Pid>, i: nat)
    returns (acts: seq<Action>, t: System)
    requires |list| >= 1 && i <= |list| && Shape(s, procs, p, list, StopKill(i), i, 1)
    ensures RunAll(s, acts) == Some(t) && Undisturbed(acts)
    ensures Shape(t, procs, p, list, StopWait(0), |list|, 1)
    decreases |list| - i
  {
    hide RunAll, Shape, Step;
    var next := TellsOne(s, procs, p, list, i);
    if i < |list| {
      acts, t := ComesToWait(next, procs, p, list, i + 1);
    } else {
      t := WaitsForFirst(next, procs, p, list);
      OneAct(next, Run(p, 1), t);
      acts := [Run(p, 1)];
    }
    Prepends(s, Run(p, 1), next, acts, t);
    acts := [Run(p, 1)] + acts;
  }

  lemma WaitsForFirst(s: System, procs: map<Pid, Process>, p: Pid, list: seq<Pid>) returns (t: System)
    requires |list| >= 1 && Shape(s, procs, p, list, StopCall(0), |list|, 1)
    ensures Step(s, Run(p, 1)) == Some(t) && Shape(t, procs, p, list, StopWait(0), |list|, 1)
  {
    t := Step(s, Run(p, 1)).value;
  }

  /** The second worker ends first, and so the wait for the first one is over. */
  lemma SecondEnds(s: System, procs: map<Pid, Process>, p: Pid, list: seq<Pid>) returns (t: System)
    requires |list| >= 2 && Shape(s, procs, p, list, StopWait(0), |list|, 1)
    ensures Step(s, WorkerExits(list[1])) == Some(t) && Shape(t, procs, p, list, StopCall(1), |list|, 2)
  {
    t := Step(s, WorkerExits(list[1])).value;
  }

  lemma NextEnds(s: System, procs: map<Pid, Process>, p: Pid, list: seq<Pid>, j: nat) returns (t: System)
    requires 1 <= j < |list| && Shape(s, procs, p, list, StopCall(1), |list|, j)
    ensures Step(s, WorkerExits(list[j])) == Some(t) && Shape(t, procs, p, list, StopCall(1), |list|, j + 1)
  {
    t := Step(s, WorkerExits(list[j])).value;
  }

  lemma PassesOne(s: System, procs: map<Pid, Process>, p: Pid, list: seq<Pid>, j: nat) returns (t: System)
    requires 1 <= j <= |list| && Shape(s, procs, p, list, StopCall(j), |list|, |list|)
    ensures Step(s, Run(p, 1)) == Some(t)
    ensures Shape(t, procs, p, list, if j < |list| then StopCall(j + 1) else StopEnd, |list|, |list|)
  {
    t := Step(s, Run(p, 1)).value;
  }

  /** Behind the wait for the first worker the others end one after the other. */
  lemma {:induction false} OthersEnd(s: System, procs: map<Pid, Process>, p: Pid, list: seq<Pid>, j: nat)
    returns (acts: seq<Action>, t: System)
    requires 1 <= j <= |list| && Shape(s, procs, p, list, StopCall(1), |list|, j)
    ensures RunAll(s, acts) == Some(t) && Undisturbed(acts)
    ensures Shape(t, procs, p, list, StopEnd, |list|, |list|)
    decreases |list| - j
  {
    hide RunAll, Shape, Step;
    if j < |list| {
      var next := NextEnds(s, procs, p, list, j);
      acts, t := OthersEnd(next, procs, p, list, j + 1);
      Prepends(s, WorkerExits(list[j]), next, acts, t);
      acts := [WorkerExits(list[j])] + acts;
    } else {
      acts, t := PassesAll(s, procs, p, list, 1);
    }
  }

  /** The master passes the workers that have ended. */
  lemma {:induction false} PassesAll(s: System, procs: map<Pid, Process>, p: Pid, list: seq<Pid>, j: nat)
    returns (acts: seq<Action>, t: System)
    requires 1 <= j <= |list| && Shape(s, procs, p, list, StopCall(j), |list|, |list|)
    ensures RunAll(s, acts) == Some(t) && Undisturbed(acts)
    ensures Shape(t, procs, p, list, StopEnd, |list|, |list|)
    decreases |list| - j
  {
    hide RunAll, Shape, Step;
    var next := PassesOne(s, procs, p, list, j);
    if j < |list| {
      acts, t := PassesAll(next, procs, p, list, j + 1);
    } else {
      t := next;
      acts := [];
      Nothing(next);
    }
    Prepends(s, Run(p, 1), next, acts, t);
    acts := [Run(p, 1)] + acts;
  }

  predicate HaveEnded(s: System, list: seq<Pid>) {
    forall i :: 0 <= i < |list| ==> list[i] in s.workers && s.workers[list[i]].exited
  }
}
