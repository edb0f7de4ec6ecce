/** A reload of a configuration without a positive worker count: the new master stops the workers of the old
    one. So service never pauses exactly when every configuration that is read has a positive count. */
module ReloadBadConfig {
  import opened Text
  import opened Reload
  import opened ReloadInvariant
  import opened ReloadSafety

  /** Every configuration holds `count` workers, and nobody stops the server. */
  predicate Under(acts: seq<Action>, count: int) {
    forall i :: 0 <= i < |acts| ==> !acts[i].OutsideStop? && (acts[i].Run? ==> acts[i].count == count)
  }

  lemma OneMore(s: System, acts: seq<Action>, t: System, a: Action, u: System, count: int)
    requires RunAll(s, acts) == Some(t) && Under(acts, count) && Step(t, a) == Some(u)
    requires !a.OutsideStop? && (a.Run? ==> a.count == count)
    ensures RunAll(s, acts + [a]) == Some(u) && Under(acts + [a], count)
  {
    hide Step;
    OneAct(t, a, u);
    Joins(s, acts, t, [a], u);
  }

  /** The hard reload flag is up and the main loop is about to look at the flags. */
  predicate HardReloadAsked(s: System, p: Pid) {
    && Live(s, p) && s.procs[p].place.Poll? && s.procs[p].place.check <= 3
    && var m := s.procs[p].mem;
    && !m.softStop && !m.hardStop && m.softReload == 0 && m.hardReload == 1
  }

  lemma {:induction false} ReachesReload(s0: System, acts0: seq<Action>, s: System, p: Pid, count: int)
    returns (acts: seq<Action>, t: System)
    requires RunAll(s0, acts0) == Some(s) && Under(acts0, count) && HardReloadAsked(s, p)
    ensures RunAll(s0, acts) == Some(t) && Under(acts, count)
    ensures t == Become(s, p, ReadConfig, s.procs[p].mem.(level := Hard))
    decreases 3 - s.procs[p].place.check
  {
    hide RunAll, Under;
    t := Step(s, Run(p, count)).value;
    OneMore(s0, acts0, s, Run(p, count), t, count);
    acts := acts0 + [Run(p, count)];
    if s.procs[p].place.check != 3 {
      acts, t := ReachesReload(s0, acts, t, p, count);
    }
  }

  /** From the reading of the configuration up to the new master's server_stop. */
  lemma NewMasterStops(s0: System, acts0: seq<Action>, s: System, p: Pid, count: int)
    returns (acts: seq<Action>, t: System, h: Pid)
    requires RunAll(s0, acts0) == Some(s) && Under(acts0, count)
    requires Live(s, p) && s.procs[p].place == ReadConfig && s.procs[p].mem.oldMaster == p
    requires PidsBelow(s) && count <= 0
    ensures RunAll(s0, acts) == Some(t) && Under(acts, count)
    ensures t.workers == s.workers && h in t.procs
    ensures t.procs[h].place == StopKill(0) && t.procs[h].mem.workers == s.procs[p].mem.workers
  {
    hide RunAll, Under;
    var q := s.next;
    h := q + 1;
    var s1 := Step(s, Run(p, count)).value;
    OneMore(s0, acts0, s, Run(p, count), s1, count);
    var s2 := Step(s1, Run(p, count)).value;
    OneMore(s0, acts0 + [Run(p, count)], s1, Run(p, count), s2, count);
    var acts2 := acts0 + [Run(p, count)] + [Run(p, count)];
    assert s2.procs[q] == Process(Forked, s1.procs[p].mem, p) && s2.next == h && s2.workers == s.workers;
    var s4;
    acts, s4 := MidGoes(s0, acts2, s2, q, count);
    acts, t := HeirGoes(s0, acts, s4, h, count);
  }

  lemma MidGoes(s0: System, acts0: seq<Action>, s: System, q: Pid, count: int) returns (acts: seq<Action>, t: System)
    requires RunAll(s0, acts0) == Some(s) && Under(acts0, count)
    requires Live(s, q) && s.procs[q].place == Forked && s.procs[q].mem.oldMaster != q && s.next != q
    ensures RunAll(s0, acts) == Some(t) && Under(acts, count)
    ensures t.workers == s.workers && s.next in t.procs
    ensures t.procs[s.next] == Process(Forked2, s.procs[q].mem.(pidToFinish := q), q)
  {
    hide RunAll, Under;
    var s1 := Step(s, Run(q, count)).value;
    OneMore(s0, acts0, s, Run(q, count), s1, count);
    t := Step(s1, Run(q, count)).value;
    acts := acts0 + [Run(q, count)];
    OneMore(s0, acts, s1, Run(q, count), t, count);
    acts := acts + [Run(q, count)];
  }

  lemma HeirGoes(s0: System, acts0: seq<Action>, s: System, h: Pid, count: int) returns (acts: seq<Action>, t: System)
    requires RunAll(s0, acts0) == Some(s) && Under(acts0, count)
    requires h in s.procs && s.procs[h].place == Forked2
    requires var m := s.procs[h].mem; m.pidToFinish != h && m.oldMaster != h && m.count <= 0
    ensures RunAll(s0, acts) == Some(t) && Under(acts, count) && h in t.procs && t.procs[h].mem.level == Hard
    ensures t.workers == s.workers && h in t.procs
    ensures t.procs[h].place == StopKill(0) && t.procs[h].mem.workers == s.procs[h].mem.workers
  {
    hide RunAll, Under;
    var s1 := Step(s, Run(h, count)).value;
    OneMore(s0, acts0, s, Run(h, count), s1, count);
    acts := acts0 + [Run(h, count)];
    var s2 := Step(s1, Run(h, count)).value;
    OneMore(s0, acts, s1, Run(h, count), s2, count);
    acts := acts + [Run(h, count)];
    t := Step(s2, Run(h, count)).value;
    OneMore(s0, acts, s2, Run(h, count), t, count);
    acts := acts + [Run(h, count)];
  }

  /** The same workers with the same parents, none of them back to life, and those listed told to stop. */
  predicate Worse(ws: map<Pid, Worker>, ws': map<Pid, Worker>) {
    forall w :: w in ws' ==>
      (w in ws && ws'[w].parent == ws[w].parent
       && (ws[w].signalled ==> ws'[w].signalled) && (ws[w].exited ==> ws'[w].exited))
  }

  lemma {:induction false} SignalsAll(s0: System, acts0: seq<Action>, s: System, h: Pid, i: nat, count: int)
    returns (acts: seq<Action>, t: System)
    requires RunAll(s0, acts0) == Some(s) && Under(acts0, count)
    requires h in s.procs && s.procs[h].place == StopKill(i) && i <= |s.procs[h].mem.workers|
    requires forall k :: 0 <= k < |s.procs[h].mem.workers| ==> s.procs[h].mem.workers[k] in s.workers
    requires Signalled(s.workers, s.procs[h].mem.workers, i)
    ensures RunAll(s0, acts) == Some(t) && Under(acts, count)
    ensures Worse(s.workers, t.workers)
    ensures Signalled(t.workers, s.procs[h].mem.workers, |s.procs[h].mem.workers|)
    decreases |s.procs[h].mem.workers| - i
  {
    hide RunAll, Under;
    acts, t := acts0, s;
    if i < |s.procs[h].mem.workers| {
      var s1 := Step(s, Run(h, count)).value;
      OneMore(s0, acts0, s, Run(h, count), s1, count);
      acts, t := SignalsAll(s0, acts0 + [Run(h, count)], s1, h, i + 1, count);
    }
  }

  /** A run from a settled state into one where every worker has been told to stop or has ended. */
  lemma GapRun(s: System, p: Pid, count: int) returns (acts: seq<Action>, t: System)
    requires Settled(s, p) && count <= 0
    ensures RunAll(s, acts) == Some(t) && Under(acts, count)
    ensures forall w :: w in t.workers ==> t.workers[w].signalled || t.workers[w].exited
  {
    hide Generation, Untouched, OthersTold, Signalled;
    var s1 := Step(s, Command(p, Hard)).value;
    assert RunAll(s, []) == Some(s);
    OneMore(s, [], s, Command(p, Hard), s1, count);
    var s2;
    acts, s2 := ReachesReload(s, [] + [Command(p, Hard)], s1, p, count);
    var s3, h;
    acts, s3, h := NewMasterStops(s, acts, s2, p, count);
    var list := s.procs[p].mem.workers;
    AllListed(s.workers, p, list);
    NoneSignalledYet(s3.workers, list);
    acts, t := SignalsAll(s, acts, s3, h, 0, count);
    AllHit(s.workers, t.workers, p, list);
  }

  lemma AllListed(ws: map<Pid, Worker>, p: Pid, list: seq<Pid>)
    requires Generation(ws, p, list)
    ensures forall k :: 0 <= k < |list| ==> list[k] in ws
  {
  }

  lemma NoneSignalledYet(ws: map<Pid, Worker>, list: seq<Pid>)
    ensures Signalled(ws, list, 0)
  {
  }

  lemma AllHit(ws: map<Pid, Worker>, ws': map<Pid, Worker>, p: Pid, list: seq<Pid>)
    requires Generation(ws, p, list) && OthersTold(ws, {p}) && Worse(ws, ws') && Signalled(ws', list, |list|)
    ensures forall w :: w in ws' ==> ws'[w].signalled || ws'[w].exited
  {
    forall w | w in ws' ensures ws'[w].signalled || ws'[w].exited {
      if ws[w].parent == p {
        assert w in list;
      }
    }
  }

  /** No reload ever leaves the server without a complete generation of untouched workers exactly when the
      count in the configuration is positive. */
  lemma NoServiceGapExactly(s: System, p: Pid, count: int)
    requires Settled(s, p)
    ensures (forall acts, t :: Under(acts, count) && RunAll(s, acts) == Some(t) ==> exists q :: Serving(t, q))
            <==> count > 0
  {
    hide RunAll, Settled;
    if count > 0 {
      forall acts, t | Under(acts, count) && RunAll(s, acts) == Some(t) ensures exists q :: Serving(t, q) {
        var q := NoServiceGap(s, p, acts, t);
      }
    } else {
      var acts, t := GapRun(s, p, count);
      forall q ensures !Serving(t, q) {
        if Serving(t, q) {
          var w := ServingWorker(t, q);
        }
      }
      assert Under(acts, count) && RunAll(s, acts) == Some(t);
    }
  }

  lemma ServingWorker(t: System, q: Pid) returns (w: Pid)
    requires Serving(t, q)
    ensures w in t.workers && !t.workers[w].signalled && !t.workers[w].exited
  {
    w := t.procs[q].mem.workers[0];
  }
}
