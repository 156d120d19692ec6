/**
 * When the pool grows: the dispatcher never waits for a worker while a thread could still be created, it creates one
 * only after it has read that no worker is available, and every pool can grow to its full size.
 */
module ThreadPoolGrowth {
  import opened Basics
  import opened Sums
  import opened ThreadPool
  import opened ThreadPoolInvariant
  import opened ThreadPoolSafety
  import opened ThreadPoolTheorems
  import ThreadPoolLimits

  // ---------------------------------------------------------------- no waiting while there is room

  /** Past the creation of threads, someone is available or every thread exists. */
  ghost predicate GrowthOk(s: State) {
    s.threadRun && (s.disp.DCheck2? || s.disp.JCurrent? || s.disp.JWait?) ==>
      s.numAvailable >= 1 || s.currentThreads == |s.ws|
  }

  /** The dispatcher's round has passed the point where it may create a thread, and has handed out nothing yet. */
  predicate MayHaveCreated(d: DispatcherPc) {
    d.CSignal? || d.CSetAvail? || d.CIncCurrent? || d.CIncAvail? || d.DCheck2? || d.JCurrent? || d.JWait? || d.JCheck?
    || d.JScan? || d.JAssign?
  }

  /** Each round of the dispatcher creates at most one thread, and hands out a thunk. */
  ghost predicate LazyOk(s: State) {
    if s.threadRun then Spawned(s) <= |s.handed| + One(MayHaveCreated(s.disp)) else Spawned(s) <= |s.pushed|
  }

  lemma DispatcherKeepsGrowth(s: State)
    requires Inv(s) && GrowthOk(s) && DispatcherEnabled(s) && s.threadRun
    ensures GrowthOk(DispatcherNext(s))
  {
    CountersBounded(s);
  }

  lemma DispatcherKeepsLazy(s: State)
    requires Inv(s) && LazyOk(s) && DispatcherEnabled(s)
    ensures LazyOk(DispatcherNext(s))
  {
    if s.threadRun && s.disp.JScan? {
      ScanFindsWorker(s);
    }
  }

  lemma StopKeepsLazy(s: State)
    requires Inv(s) && LazyOk(s) && s.threadRun && s.destroyer.XSetRun?
    ensures LazyOk(DestroyNext(s))
  {
    StopIsQuiescent(s);
    ThreadsHaveThunks(s);
  }

  /** Other threads never lower the number of available workers, and leave the dispatcher where it is. */
  lemma OthersKeepGrowth(s: State, a: Action)
    requires GrowthOk(s) && LazyOk(s) && Enabled(s, a) && !a.StepDispatcher? && !a.StepDestroy?
    ensures GrowthOk(Next(s, a)) && LazyOk(Next(s, a))
  {
    var t := Next(s, a);
    assert t.disp == s.disp && t.currentThreads == s.currentThreads && t.handed == s.handed && |t.ws| == |s.ws|;
    assert t.numAvailable >= s.numAvailable && t.threadRun == s.threadRun && |t.pushed| >= |s.pushed|;
  }

  lemma DestroyKeepsGrowth(s: State)
    requires Inv(s) && GrowthOk(s) && LazyOk(s) && DestroyEnabled(s)
    ensures GrowthOk(DestroyNext(s)) && LazyOk(DestroyNext(s))
  {
    if s.destroyer.XSetRun? && s.threadRun {
      StopKeepsLazy(s);
    } else {
      var t := DestroyNext(s);
      assert t.disp == s.disp && t.currentThreads == s.currentThreads && t.handed == s.handed && |t.ws| == |s.ws|;
      assert t.numAvailable == s.numAvailable && t.threadRun == s.threadRun && t.pushed == s.pushed;
    }
  }

  lemma StepKeepsGrowth(s: State, a: Action)
    requires Inv(s) && GrowthOk(s) && LazyOk(s) && Enabled(s, a)
    ensures GrowthOk(Next(s, a)) && LazyOk(Next(s, a))
  {
    if a.StepDispatcher? {
      DispatcherKeepsLazy(s);
      if s.threadRun {
        DispatcherKeepsGrowth(s);
      }
    } else if a.StepDestroy? {
      DestroyKeepsGrowth(s);
    } else {
      OthersKeepGrowth(s, a);
    }
  }

  lemma {:induction false} RunKeepsGrowth(s: State, actions: seq<Action>, t: State)
    requires Inv(s) && GrowthOk(s) && LazyOk(s) && Run(s, actions, t)
    ensures GrowthOk(t) && LazyOk(t)
    decreases |actions|
  {
    if actions != [] {
      StepKeepsInv(s, actions[0]);
      StepKeepsGrowth(s, actions[0]);
      RunKeepsGrowth(Next(s, actions[0]), actions[1..], t);
    }
  }

  lemma ReachableGrowth(s: State, actions: seq<Action>, t: State)
    requires Init(s) && |s.ws| >= 1 && Run(s, actions, t)
    ensures Inv(t) && GrowthOk(t) && LazyOk(t)
  {
    InitInv(s);
    RunKeepsInv(s, actions, t);
    RunKeepsGrowth(s, actions, t);
  }

  /** Over every run: where the dispatcher is blocked for want of a worker, and no worker is about to signal, all
      threads have been created and all of them are busy. */
  lemma BlockedOnlyWhenFull(s: State, actions: seq<Action>, t: State)
    requires Init(s) && |s.ws| >= 1 && Run(s, actions, t)
    requires t.threadRun && t.disp.JWait? && t.availableThread == 0 && Sum(Unsignalled, t.ws) == 0
    ensures t.currentThreads == |t.ws| == |s.ws|
    ensures forall i :: 0 <= i < |t.ws| ==> !t.ws[i].available && (t.ws[i].pc.WSetAvail? || Unfinished(t.ws[i]) > 0)
  {
    ReachableGrowth(s, actions, t);
    SameThreads(s, actions, t);
    BlockedWhenFull(t);
  }

  lemma BlockedWhenFull(t: State)
    requires Inv(t) && GrowthOk(t)
    requires t.threadRun && t.disp.JWait? && t.availableThread == 0 && Sum(Unsignalled, t.ws) == 0
    ensures t.currentThreads == |t.ws|
    ensures forall i :: 0 <= i < |t.ws| ==> !t.ws[i].available && (t.ws[i].pc.WSetAvail? || Unfinished(t.ws[i]) > 0)
  {
    TableTerms(t);
    forall i | 0 <= i < |t.ws| ensures !t.ws[i].available && (t.ws[i].pc.WSetAvail? || Unfinished(t.ws[i]) > 0) {
      assert WorkerOk(t, i);
    }
  }

  lemma {:induction false} SameThreads(s: State, actions: seq<Action>, t: State)
    requires Run(s, actions, t)
    ensures |t.ws| == |s.ws|
    decreases |actions|
  {
    if actions != [] {
      SameThreads(Next(s, actions[0]), actions[1..], t);
    }
  }

  // ---------------------------------------------------------------- laziness

  /** The number of available threads that the dispatcher read last (line 163), -1 if it never did. */
  function LastRead(s: State, actions: seq<Action>, t: State, last: int): int
    requires Run(s, actions, t)
    decreases |actions|
  {
    if actions == [] then last
    else
      LastRead(Next(s, actions[0]), actions[1..], t,
               if actions[0].StepDispatcher? && s.disp.DGet? then s.numAvailable else last)
  }

  lemma {:induction false} ReadBeforeSpawn(s: State, actions: seq<Action>, t: State, last: int)
    requires Run(s, actions, t) && (s.disp.DRoom? || s.disp.CCheck? || s.disp.CSpawn? ==> last == 0)
    ensures t.disp.DRoom? || t.disp.CCheck? || t.disp.CSpawn? ==> LastRead(s, actions, t, last) == 0
    decreases |actions|
  {
    if actions != [] {
      ReadBeforeSpawn(Next(s, actions[0]), actions[1..], t,
                      if actions[0].StepDispatcher? && s.disp.DGet? then s.numAvailable else last);
    }
  }

  /** Over every run: a step that makes a worker a running thread is the dispatcher's, and no thread was available when
      it last looked. */
  lemma SpawnsOnlyWhenNeeded(s: State, actions: seq<Action>, t: State, a: Action, i: nat)
    requires Init(s) && Run(s, actions, t) && Enabled(t, a) && i < |t.ws| && |Next(t, a).ws| == |t.ws|
    requires t.ws[i].pc.NotSpawned? && !Next(t, a).ws[i].pc.NotSpawned?
    ensures a.StepDispatcher? && i == t.currentThreads && LastRead(s, actions, t, -1) == 0
  {
    SpawnStep(t, a, i);
    ReadBeforeSpawn(s, actions, t, -1);
  }

  lemma SpawnStep(t: State, a: Action, i: nat)
    requires Enabled(t, a) && i < |t.ws| && |Next(t, a).ws| == |t.ws|
    requires t.ws[i].pc.NotSpawned? && !Next(t, a).ws[i].pc.NotSpawned?
    ensures a.StepDispatcher? && i == t.currentThreads && t.disp.CSpawn?
  {
  }

  /** Over every run there are never more threads than thunks that were scheduled. */
  lemma NeverMoreThreadsThanThunks(s: State, actions: seq<Action>, t: State)
    requires Init(s) && |s.ws| >= 1 && Run(s, actions, t)
    ensures t.currentThreads <= |t.pushed|
  {
    ReachableGrowth(s, actions, t);
    ThreadsHaveThunks(t);
  }

  lemma ThreadsHaveThunks(t: State)
    requires Inv(t) && LazyOk(t)
    ensures Spawned(t) <= |t.pushed|
  {
    if t.threadRun {
      TableTerms(t);
    }
  }

  // ---------------------------------------------------------------- the destructor's signals

  /** Once threadRun is cleared, the permits are those of the workers and one more from the destructor. */
  ghost predicate SignalsOk(s: State) {
    !s.threadRun ==>
      && s.availableThread + Sum(Unsignalled, s.ws)
         == Sum(Flag, s.ws) + One(!s.destroyer.XSigAdded? && !s.destroyer.XSigAvail?)
      && forall i :: 0 <= i < |s.ws| && s.ws[i].pc.WSetAvail? ==> !s.ws[i].available
  }

  lemma WorkerKeepsSignals(s: State, i: nat)
    requires Inv(s) && SignalsOk(s) && WorkerEnabled(s, i)
    ensures SignalsOk(WorkerNext(s, i))
  {
    if !s.threadRun {
      PermitSums(s.ws, i, WorkerNext(s, i).ws[i]);
    }
  }

  lemma StopKeepsSignals(s: State)
    requires Inv(s) && s.threadRun && s.destroyer.XSetRun?
    ensures SignalsOk(DestroyNext(s))
  {
    StopIsQuiescent(s);
    forall i | 0 <= i < |s.ws| && s.ws[i].pc.WSetAvail? ensures !s.ws[i].available {
      assert WorkerOk(s, i);
    }
  }

  lemma DestroyKeepsSignals(s: State)
    requires Inv(s) && SignalsOk(s) && DestroyEnabled(s)
    ensures SignalsOk(DestroyNext(s))
  {
    if s.destroyer.XSetRun? && s.threadRun {
      StopKeepsSignals(s);
    } else if s.destroyer.XSigWorkers? && s.destroyer.depth < s.currentThreads && s.destroyer.depth < |s.ws| {
      PermitSums(s.ws, s.destroyer.depth, DestroyNext(s).ws[s.destroyer.depth]);
    }
  }

  lemma StepKeepsSignals(s: State, a: Action)
    requires Inv(s) && SignalsOk(s) && Enabled(s, a)
    ensures SignalsOk(Next(s, a))
  {
    if a.StepWorker? {
      WorkerKeepsSignals(s, a.i);
    } else if a.StepDestroy? {
      DestroyKeepsSignals(s);
    } else {
      assert !s.threadRun ==> Next(s, a).ws == s.ws && Next(s, a).availableThread == s.availableThread;
    }
  }

  lemma {:induction false} RunKeepsSignals(s: State, actions: seq<Action>, t: State)
    requires Inv(s) && SignalsOk(s) && Run(s, actions, t)
    ensures SignalsOk(t)
    decreases |actions|
  {
    if actions != [] {
      StepKeepsInv(s, actions[0]);
      StepKeepsSignals(s, actions[0]);
      RunKeepsSignals(Next(s, actions[0]), actions[1..], t);
    }
  }

  /** Over every run: when the destructor has finished, it has signalled `availableThread` once: one permit is left
      over beyond the available workers. The dispatcher never needs it, as it is not waiting for a worker by then. */
  lemma DestructorSignalsOnce(s: State, actions: seq<Action>, t: State)
    requires Init(s) && |s.ws| >= 1 && Run(s, actions, t) && t.destroyer.Destroyed?
    ensures t.availableThread == Sum(Flag, t.ws) + 1
  {
    ReachableInv(s, actions, t);
    InitInv(s);
    RunKeepsSignals(s, actions, t);
    forall i | 0 <= i < |t.ws| ensures Unsignalled(t.ws[i]) == 0 {
    }
    SumAllZero(Unsignalled, t.ws);
  }

  // ---------------------------------------------------------------- a full pool

  ghost predicate Reaches(s: State, t: State) { ThreadPoolLimits.Reaches(s, t) }

  lemma Then(s: State, t: State, a: Action) returns (u: State)
    requires Reaches(s, t) && Enabled(t, a)
    ensures u == Next(t, a) && Reaches(s, u)
  {
    ThreadPoolLimits.Then(s, t, a);
    u := Next(t, a);
  }

  predicate Busy(w: Worker) { w.pc.WRun? && w.sem == 0 && !w.available }

  const NONE := Worker(NotSpawned, 0, false, None)

  /** The first `k` threads are busy, the others do not exist, and nothing is queued. */
  ghost predicate BusyPool(s: State, k: nat) {
    && s.threadRun && s.destroyer.Alive? && k <= |s.ws| && s.currentThreads == k && s.jobs == []
    && s.numAvailable == 0 && s.availableThread == 0 && s.addedJob == 0
    && (forall i :: 0 <= i < k ==> Busy(s.ws[i])) && (forall i :: k <= i < |s.ws| ==> s.ws[i] == NONE)
  }

  lemma RoundToSpawn(s0: State, s: State) returns (t: State)
    requires Reaches(s0, s) && s.threadRun && s.disp.DWait? && s.addedJob > 0
    requires s.numAvailable == 0 && s.currentThreads < |s.ws|
    ensures Reaches(s0, t) && t == s.(addedJob := s.addedJob - 1, disp := CSpawn)
  {
    t := Then(s0, s, StepDispatcher);
    t := Then(s0, t, StepDispatcher);
    t := Then(s0, t, StepDispatcher);
    t := Then(s0, t, StepDispatcher);
    t := Then(s0, t, StepDispatcher);
  }

  lemma Spawn(s0: State, s: State, k: nat) returns (t: State)
    requires Reaches(s0, s) && s.disp.CSpawn? && s.currentThreads == k < |s.ws| && s.ws[k] == NONE
    ensures Reaches(s0, t)
    ensures t == s.(ws := s.ws[k := Worker(WWait, 0, true, None)], currentThreads := k + 1,
                    numAvailable := s.numAvailable + 1, availableThread := s.availableThread + 1, disp := DCheck2)
  {
    t := Then(s0, s, StepDispatcher);
    t := Then(s0, t, StepDispatcher);
    t := Then(s0, t, StepDispatcher);
    assert t.ws == s.ws[k := Worker(WWait, 0, true, None)];
    t := Then(s0, t, StepDispatcher);
    t := Then(s0, t, StepDispatcher);
  }

  lemma RoundToScan(s0: State, s: State) returns (t: State)
    requires Reaches(s0, s) && s.threadRun && s.disp.DCheck2? && s.currentThreads > 0 && s.availableThread > 0
    ensures Reaches(s0, t) && t == s.(availableThread := s.availableThread - 1, disp := JScan(0))
  {
    t := Then(s0, s, StepDispatcher);
    t := Then(s0, t, StepDispatcher);
    t := Then(s0, t, StepDispatcher);
    t := Then(s0, t, StepDispatcher);
  }

  lemma {:induction false} ScanTo(s0: State, s: State, d: nat, k: nat) returns (t: State)
    requires Reaches(s0, s) && s.disp == JScan(d) && d <= k < s.currentThreads <= |s.ws|
    requires (forall i :: 0 <= i < k ==> !s.ws[i].available) && s.ws[k].available
    ensures Reaches(s0, t) && t == s.(disp := JAssign(k))
    decreases k - d
  {
    t := Then(s0, s, StepDispatcher);
    if d < k {
      t := ScanTo(s0, t, d + 1, k);
    }
  }

  lemma Hand(s0: State, s: State, k: nat, j: nat) returns (t: State)
    requires Reaches(s0, s) && s.threadRun && s.disp == JAssign(k) && s.jobs == [j] && k < |s.ws|
    requires s.ws[k] == Worker(WWait, 0, true, None)
    ensures Reaches(s0, t)
    ensures t == s.(ws := s.ws[k := Worker(WWait, 1, false, Some(j))], jobs := [], handed := s.handed + [j],
                    numAvailable := s.numAvailable - 1, disp := DWait)
  {
    t := Then(s0, s, StepDispatcher);
    t := Then(s0, t, StepDispatcher);
    t := Then(s0, t, StepDispatcher);
    t := Then(s0, t, StepDispatcher);
    assert t.ws == s.ws[k := Worker(WWait, 1, false, Some(j))];
    t := Then(s0, t, StepDispatcher);
  }

  lemma WakeUp(s0: State, s: State, k: nat, j: nat) returns (t: State)
    requires Reaches(s0, s) && s.threadRun && k < |s.ws| && s.ws[k] == Worker(WWait, 1, false, Some(j))
    ensures Reaches(s0, t) && t == s.(ws := s.ws[k := Worker(WRun, 0, false, Some(j))])
  {
    t := Then(s0, s, StepWorker(k));
    t := Then(s0, t, StepWorker(k));
    assert t.ws == s.ws[k := Worker(WRun, 0, false, Some(j))];
  }

  function Scheduled(s: State, j: nat): State {
    s.(budget := if s.budget > 0 then s.budget - 1 else 0, jobs := s.jobs + [j], pushed := s.pushed + [j],
       jobsCount := s.jobsCount + 1, addedJob := s.addedJob + 1, calls := s.calls + [Call(Returned, External)])
  }

  /** While `k` thunks run, another is scheduled: thread `k` is created and runs it. */
  lemma OneMore(s0: State, s: State, k: nat) returns (t: State)
    requires Reaches(s0, s) && BusyPool(s, k) && s.disp.DWait? && k < |s.ws| && s.budget > 0
    ensures Reaches(s0, t) && BusyPool(t, k + 1) && t.disp.DWait? && |t.ws| == |s.ws| && t.budget == s.budget - 1
  {
    var j := |s.calls|;
    ThreadPoolLimits.Schedule(s0, s, j);
    t := Scheduled(s, j);
    t := RoundToSpawn(s0, t);
    t := Spawn(s0, t, k);
    t := RoundToScan(s0, t);
    t := ScanTo(s0, t, 0, k);
    t := Hand(s0, t, k, j);
    t := WakeUp(s0, t, k, j);
  }

  lemma {:induction false} GrowTo(s0: State, s: State, k: nat) returns (t: State)
    requires Reaches(s0, s) && BusyPool(s, k) && s.disp.DWait? && s.budget >= |s.ws| - k
    ensures Reaches(s0, t) && BusyPool(t, |t.ws|) && |t.ws| == |s.ws|
    decreases |s.ws| - k
  {
    t := s;
    if k < |s.ws| {
      t := OneMore(s0, s, k);
      t := GrowTo(s0, t, k + 1);
    }
  }

  /** Every pool whose clients make as many calls as it may have threads can have all of them running thunks at the same
      time. */
  lemma FullPoolIsReachable(s: State) returns (t: State)
    requires Init(s) && s.budget >= |s.ws|
    ensures Reaches(s, t) && |t.ws| == |s.ws| && t.currentThreads == |t.ws|
    ensures forall i :: 0 <= i < |t.ws| ==> t.ws[i].pc.WRun?
  {
    ThreadPoolLimits.Begin(s);
    t := GrowTo(s, s, 0);
  }
}
