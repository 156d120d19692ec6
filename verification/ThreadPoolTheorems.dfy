/** What the invariant of the thread pool means to its clients: custody and order of thunks, the meaning of the
    counters, and exactly when wait() keeps its promise. */
module ThreadPoolTheorems {
  import opened Basics
  import opened Sums
  import opened ThreadPool
  import opened ThreadPoolInvariant
  import opened ThreadPoolSafety

  // ---------------------------------------------------------------- custody and order

  /** Worker `i` holds thunk `j`: it was handed to it and has not run. */
  ghost predicate Holds(s: State, i: nat, j: nat) {
    s.threadRun && i < |s.ws| && Loaded(s, i) && s.ws[i].thunk == Some(j)
  }

  ghost predicate Assigned(s: State, j: nat) {
    exists i :: 0 <= i < |s.ws| && Holds(s, i, j) && !s.ws[i].pc.WRun?
  }

  ghost predicate Running(s: State, j: nat) {
    exists i :: 0 <= i < |s.ws| && Holds(s, i, j) && s.ws[i].pc.WRun?
  }

  lemma QueuedNotHanded(s: State, j: nat)
    requires QueueOk(s) && j in s.jobs
    ensures j !in s.handed
  {
    var p :| 0 <= p < |s.jobs| && s.jobs[p] == j;
    forall q | 0 <= q < |s.handed| ensures s.handed[q] != j {
      assert s.pushed[q] == s.handed[q] && s.pushed[|s.handed| + p] == j;
    }
  }

  /** A thunk whose push is complete is in exactly one of four places, and with at most one worker. */
  lemma ThunkCustody(s: State, j: nat)
    requires Inv(s) && j in s.pushed
    ensures One(j in s.jobs) + One(Assigned(s, j)) + One(Running(s, j)) + One(j in s.ran) == 1
    ensures forall i, k :: Holds(s, i, j) && Holds(s, k, j) ==> i == k
  {
    assert j in s.jobs || j in s.handed;
    assert j in s.ran ==> j in s.handed;
    if j in s.jobs {
      QueuedNotHanded(s, j);
    }
    if j in s.handed && j !in s.ran {
      var i :| 0 <= i < |s.ws| && Loaded(s, i) && s.ws[i].thunk == Some(j);
      assert Holds(s, i, j);
    }
  }

  /** Whatever step is taken, only the dispatcher overwrites a worker's thunk, and never one still to run. */
  lemma NoOverwrite(s: State, a: Action, i: nat)
    requires Inv(s) && Enabled(s, a) && i < |s.ws|
    ensures |Next(s, a).ws| == |s.ws|
    ensures Next(s, a).ws[i].thunk != s.ws[i].thunk ==> s.threadRun && s.disp == JAssign(i) && !Loaded(s, i)
  {
    OverwrittenOnlyByAssign(s, a, i);
    if s.threadRun {
      assert WorkerOk(s, i);
    }
  }

  lemma OverwrittenOnlyByAssign(s: State, a: Action, i: nat)
    requires Enabled(s, a) && i < |s.ws|
    ensures |Next(s, a).ws| == |s.ws|
    ensures Next(s, a).ws[i].thunk != s.ws[i].thunk ==> s.disp == JAssign(i)
  {
    if a.StepDispatcher? {
      DispatcherOverwrites(s, i);
    }
  }

  lemma DispatcherOverwrites(s: State, i: nat)
    requires DispatcherEnabled(s) && i < |s.ws|
    ensures |DispatcherNext(s).ws| == |s.ws|
    ensures DispatcherNext(s).ws[i].thunk != s.ws[i].thunk ==> s.disp == JAssign(i)
  {
  }

  /** A thunk enters `ran` when the worker that holds it executes it, and it was not there before. */
  lemma RunsOnce(s: State, a: Action)
    requires Inv(s) && Enabled(s, a) && Next(s, a).ran != s.ran
    ensures a.StepWorker? && s.ws[a.i].pc.WRun? && s.ws[a.i].thunk.Some?
    ensures var j := s.ws[a.i].thunk.value; Holds(s, a.i, j) && j !in s.ran && Next(s, a).ran == s.ran + [j]
  {
    RanOnlyByWorker(s, a);
    assert Loaded(s, a.i);
  }

  lemma RanOnlyByWorker(s: State, a: Action)
    requires Enabled(s, a) && Next(s, a).ran != s.ran
    ensures a.StepWorker? && s.ws[a.i].pc.WRun? && Next(s, a).ran == s.ran + [s.ws[a.i].thunk.value]
  {
  }

  /** Thunks are handed out in the order in which they were pushed, and no history is ever rewritten. */
  lemma {:induction false} HandedOutInPushOrder(s: State, actions: seq<Action>, t: State)
    requires Inv(s) && Run(s, actions, t)
    ensures s.pushed <= t.pushed && s.handed <= t.handed && s.ran <= t.ran
    ensures t.handed <= t.pushed
    decreases |actions|
  {
    if actions == [] {
      assert t.pushed == t.handed + t.jobs;
    } else {
      StepKeepsInv(s, actions[0]);
      StepHistories(s, actions[0]);
      HandedOutInPushOrder(Next(s, actions[0]), actions[1..], t);
    }
  }

  lemma StepHistories(s: State, a: Action)
    requires Enabled(s, a)
    ensures s.pushed <= Next(s, a).pushed && s.handed <= Next(s, a).handed && s.ran <= Next(s, a).ran
  {
    match a
    case StepDispatcher => DispatcherHistories(s);
    case StepWorker(i) => WorkerHistories(s, i);
    case _ =>
  }

  lemma DispatcherHistories(s: State)
    requires DispatcherEnabled(s)
    ensures var t := DispatcherNext(s); t.pushed == s.pushed && s.handed <= t.handed && t.ran == s.ran
  {
  }

  lemma WorkerHistories(s: State, i: nat)
    requires WorkerEnabled(s, i)
    ensures var t := WorkerNext(s, i); t.pushed == s.pushed && t.handed == s.handed && s.ran <= t.ran
  {
  }

  // ---------------------------------------------------------------- the counters

  lemma {:induction false} UnfinishedSplit(ws: seq<Worker>)
    ensures Sum(Unfinished, ws) == Sum(Unrun, ws) + Sum(Finishing, ws)
  {
    if ws != [] {
      UnfinishedSplit(ws[1..]);
    }
  }

  lemma {:induction false} HalfSplit(calls: seq<Call>)
    ensures Sum(Half, calls) == Sum(InWindow, calls) + Sum(BeforeSignal, calls)
  {
    if calls != [] {
      HalfSplit(calls[1..]);
    }
  }

  /** The worker has executed its thunk and jobsCount still includes it. */
  function Finishing(w: Worker): int { One(w.pc.WDecJobs?) }

  /** jobsCount is the number of pushed thunks that have not run, plus those whose worker has yet to decrement
      it, minus the schedule() calls caught between addJob and incrementJobsCount. It is never negative. */
  lemma JobsCountMeaning(s: State)
    requires Inv(s)
    ensures s.threadRun ==> s.jobsCount == |s.pushed| - |s.ran| + Sum(Finishing, s.ws) - Sum(InWindow, s.calls)
    ensures s.jobsCount >= 0
  {
    if s.threadRun {
      UnfinishedSplit(s.ws);
      HalfSplit(s.calls);
      TableTerms(s);
    }
  }

  lemma FlagsBounded(s: State)
    requires RunningOk(s)
    ensures Sum(Flag, s.ws) <= s.currentThreads + One(s.disp.CIncCurrent?)
    ensures s.disp.JDecAvail? ==> Sum(Flag, s.ws) < s.currentThreads
  {
    var k := s.currentThreads + One(s.disp.CIncCurrent?);
    forall i | 0 <= i < |s.ws| ensures Flag(s.ws[i]) <= if i < k then 1 else 0 {
      assert WorkerOk(s, i);
    }
    SumPrefixBound(Flag, s.ws, k);
    if s.disp.JDecAvail? {
      var w := s.disp.w;
      assert WorkerOk(s, w);
      var ws := s.ws[w := s.ws[w].(available := true)];
      SumUpdate(Flag, s.ws, w, ws[w]);
      SumPrefixBound(Flag, ws, k);
    }
  }

  /** The counter of available threads stays within bounds, although the flags it counts are set and cleared
      outside its mutex. */
  lemma CountersBounded(s: State)
    requires Inv(s) && s.threadRun
    ensures 0 <= s.numAvailable <= s.currentThreads <= |s.ws|
  {
    UncountedAtMostUnsignalled(s.ws);
    TableTerms(s);
    FlagsBounded(s);
  }

  /** A permit taken by the dispatcher stands for a set flag, so its unlocked scan of the table cannot fail, and
      the queue it then takes from is not empty. */
  lemma ScanFindsWorker(s: State)
    requires Inv(s) && s.threadRun
    ensures s.disp.JScan? ==> s.disp.depth < s.currentThreads <= |s.ws| && DispatcherNext(s).disp != DCheck3
    ensures s.disp.JAssign? ==> s.jobs != [] && s.disp.w < |s.ws| && s.ws[s.disp.w].available
  {
    TableTerms(s);
  }

  // ---------------------------------------------------------------- wait()

  /** Under the mutex, jobsCount == 0 means that every pushed thunk has run if and only if no schedule() call is
      between addJob and incrementJobsCount. This is the state in which wait() returns. */
  lemma WaitReturns(s: State, k: nat)
    requires Inv(s) && WaitEnabled(s, k) && WaitNext(s, k).waits[k].Awake?
    ensures (forall j :: j in s.pushed ==> j in s.ran) <==> (forall j :: 0 <= j < |s.calls| ==> !s.calls[j].pc.Added?)
  {
    if s.threadRun {
      IdleMeaning(s);
    }
  }

  lemma IdleMeaning(s: State)
    requires Inv(s) && s.threadRun && s.jobsCount == 0
    ensures (forall j :: j in s.pushed ==> j in s.ran) <==> (forall j :: 0 <= j < |s.calls| ==> !s.calls[j].pc.Added?)
  {
    TableTerms(s);
    HalfSplit(s.calls);
    assert forall i :: 0 <= i < |s.ws| ==> Unfinished(s.ws[i]) == 0;
    assert forall i :: 0 <= i < |s.ws| ==> !Loaded(s, i);
    assert forall j :: j in s.handed ==> j in s.ran;
    assert |s.jobs| == Sum(InWindow, s.calls);
    if s.jobs == [] {
      SumTerm(InWindow, s.calls);
      assert forall j :: 0 <= j < |s.calls| ==> InWindow(s.calls[j]) <= 0;
      assert s.pushed == s.handed;
    } else {
      var j := SumWitness(InWindow, s.calls);
      QueuedNotHanded(s, s.jobs[0]);
      assert s.pushed[|s.handed|] == s.jobs[0];
    }
  }
}
