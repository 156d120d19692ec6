/** Two runs that show where the thread pool's promises end: a pool of no threads, and a wait() that overlaps
    another thread's schedule(). */
module ThreadPoolLimits {
  import opened Basics
  import opened ThreadPool
  import opened ThreadPoolInvariant
  import opened ThreadPoolSafety
  import opened ThreadPoolProgress

  ghost predicate Reaches(s: State, t: State) {
    exists actions :: Run(s, actions, t)
  }

  lemma {:induction false} RunThenStep(s: State, actions: seq<Action>, t: State, a: Action)
    requires Run(s, actions, t) && Enabled(t, a)
    ensures Run(s, actions + [a], Next(t, a))
    decreases |actions|
  {
    if actions == [] {
      assert Run(Next(s, a), [a][1..], Next(s, a));
    } else {
      RunThenStep(Next(s, actions[0]), actions[1..], t, a);
      assert (actions + [a])[1..] == actions[1..] + [a];
    }
  }

  lemma Then(s: State, t: State, a: Action)
    requires Reaches(s, t) && Enabled(t, a)
    ensures Reaches(s, Next(t, a))
  {
    var actions :| Run(s, actions, t);
    RunThenStep(s, actions, t, a);
  }

  lemma Dispatch(s: State, t: State)
    requires Reaches(s, t) && DispatcherEnabled(t)
    ensures Reaches(s, DispatcherNext(t))
  {
    Then(s, t, StepDispatcher);
  }

  lemma Begin(s: State)
    ensures Reaches(s, s)
  {
    assert Run(s, [], s);
  }

  ghost function Fresh(ws: seq<Worker>, budget: nat, waits: seq<WaitPc>): State {
    State(true, 0, 0, 0, 0, 0, [], ws, DWait, [], waits, Alive, budget, [], [], [])
  }

  /** An outside thread's complete schedule() call. */
  lemma Schedule(s: State, t: State, j: nat)
    requires Reaches(s, t) && t.budget > 0 && t.destroyer.Alive? && j == |t.calls|
    ensures Reaches(s, t.(budget := t.budget - 1, jobs := t.jobs + [j], pushed := t.pushed + [j],
                          jobsCount := t.jobsCount + 1, addedJob := t.addedJob + 1,
                          calls := t.calls + [Call(Returned, External)]))
  {
    ScheduleHalf(s, t, j);
    var t2 := t.(budget := t.budget - 1, jobs := t.jobs + [j], pushed := t.pushed + [j],
                 calls := t.calls + [Call(Added, External)]);
    Then(s, t2, StepCall(j));
    var t3 := CallNext(t2, j);
    Then(s, t3, StepCall(j));
    assert t3.calls[j := Call(Returned, External)] == t.calls + [Call(Returned, External)];
  }

  /** The part of a schedule() call up to the end of addJob. */
  lemma ScheduleHalf(s: State, t: State, j: nat)
    requires Reaches(s, t) && t.budget > 0 && t.destroyer.Alive? && j == |t.calls|
    ensures Reaches(s, t.(budget := t.budget - 1, jobs := t.jobs + [j], pushed := t.pushed + [j],
                          calls := t.calls + [Call(Added, External)]))
  {
    Then(s, t, BeginCall(External));
    var t1 := Next(t, BeginCall(External));
    Then(s, t1, StepCall(j));
    assert t1.calls[j := Call(Added, External)] == t.calls + [Call(Added, External)];
  }

  // ---------------------------------------------------------------- no threads

  /** With no worker the dispatcher takes the permit of a thunk and leaves the thunk in the queue. */
  lemma DispatchNothing(s: State, t: State)
    requires Reaches(s, t) && t.threadRun && t.disp.DWait? && t.addedJob > 0
    requires t.numAvailable == 0 && t.currentThreads == 0 && t.ws == []
    ensures Reaches(s, t.(addedJob := t.addedJob - 1))
  {
    var u := t.(addedJob := t.addedJob - 1);
    Dispatch(s, t);
    Dispatch(s, u.(disp := DCheck1));
    Dispatch(s, u.(disp := DGet));
    Dispatch(s, u.(disp := DRoom));
    NobodyToDispatchTo(s, u.(disp := DCheck2));
  }

  lemma NobodyToDispatchTo(s: State, t: State)
    requires Reaches(s, t) && t.threadRun && t.disp.DCheck2? && t.currentThreads == 0
    ensures Reaches(s, t.(disp := DWait))
  {
    Dispatch(s, t);
    Dispatch(s, t.(disp := JCurrent));
    Dispatch(s, t.(disp := DCheck3));
  }

  /** With numThreads == 0 a scheduled thunk never runs and wait() never returns. */
  lemma EmptyPoolIsStuck() returns (s: State, t: State)
    ensures Init(s) && |s.ws| == 0 && Reaches(s, t)
    ensures Stopped(t) && t.pushed == [0] && t.ran == [] && t.waits == [Asleep]
  {
    s := Fresh([], 1, [NotCalled]);
    t := EmptyPoolDispatches(s);
    WaitForever(s, t);
    t := t.(waits := [Asleep]);
    NothingMoves(t);
  }

  lemma EmptyPoolDispatches(s: State) returns (t: State)
    requires s == Fresh([], 1, [NotCalled])
    ensures Reaches(s, t)
    ensures t == s.(budget := 0, jobs := [0], pushed := [0], jobsCount := 1, calls := [Call(Returned, External)])
  {
    Begin(s);
    Schedule(s, s, 0);
    var t1 := s.(budget := 0, jobs := [0], pushed := [0], jobsCount := 1, addedJob := 1,
                 calls := [Call(Returned, External)]);
    assert s.jobs + [0] == [0] && s.calls + [Call(Returned, External)] == t1.calls;
    DispatchNothing(s, t1);
    t := t1.(addedJob := 0);
  }

  lemma NothingMoves(t: State)
    requires t.disp.DWait? && t.addedJob == 0 && t.ws == [] && t.waits == [Asleep] && t.destroyer.Alive?
    requires t.calls == [Call(Returned, External)]
    ensures Stopped(t)
  {
  }

  lemma WaitForever(s: State, t: State)
    requires Reaches(s, t) && t.waits == [NotCalled] && t.jobsCount != 0
    ensures Reaches(s, t.(waits := [Asleep]))
  {
    Then(s, t, BeginWait(0));
    assert t.waits[0 := Testing] == [Testing];
    Then(s, t.(waits := [Testing]), StepWait(0));
    assert [Testing][0 := Asleep] == [Asleep];
  }

  /** Every run of a pool of `n` threads that can do no more has served its clients. */
  ghost predicate ServesClients(n: nat) {
    forall s: State, t: State :: Init(s) && |s.ws| == n && Reaches(s, t) && Stopped(t) ==> Complete(t)
  }

  lemma ServesClientsExactlyWithThreads(n: nat)
    ensures ServesClients(n) <==> n >= 1
  {
    if n == 0 {
      var s, t := EmptyPoolIsStuck();
      assert 0 in t.pushed && 0 !in t.ran;
    } else {
      forall s: State, t: State | Init(s) && |s.ws| == n && Reaches(s, t) && Stopped(t) ensures Complete(t) {
        var actions :| Run(s, actions, t);
        ReachableInv(s, actions, t);
        StoppedIsComplete(t);
      }
    }
  }

  // ---------------------------------------------------------------- an early return from wait()

  /** The dispatcher takes a permit and, as nobody is available, decides to create worker 0. */
  lemma DecideToCreate(s: State, t: State)
    requires Reaches(s, t) && t.threadRun && t.disp.DWait? && t.addedJob > 0
    requires t.numAvailable == 0 && t.currentThreads == 0 && |t.ws| == 1
    ensures Reaches(s, t.(addedJob := t.addedJob - 1, disp := CSpawn))
  {
    var u := t.(addedJob := t.addedJob - 1);
    Dispatch(s, t);
    Dispatch(s, u.(disp := DCheck1));
    Dispatch(s, u.(disp := DGet));
    Dispatch(s, u.(disp := DRoom));
    Dispatch(s, u.(disp := CCheck));
  }

  lemma CreateWorker(s: State, t: State)
    requires Reaches(s, t) && t.disp.CSpawn? && t.currentThreads == 0 && t.numAvailable == 0
    requires t.ws == [Worker(NotSpawned, 0, false, None)]
    ensures Reaches(s, t.(ws := [Worker(WWait, 0, true, None)], currentThreads := 1, numAvailable := 1,
                          availableThread := t.availableThread + 1, disp := DCheck2))
  {
    Dispatch(s, t);
    var v := t.(ws := [Worker(WWait, 0, false, None)]);
    assert t.ws[0 := Worker(WWait, 0, false, None)] == v.ws;
    Dispatch(s, v.(disp := CSignal(0)));
    var w := v.(availableThread := t.availableThread + 1);
    Dispatch(s, w.(disp := CSetAvail(0)));
    var x := w.(ws := [Worker(WWait, 0, true, None)]);
    assert w.ws[0 := Worker(WWait, 0, true, None)] == x.ws;
    Dispatch(s, x.(disp := CIncCurrent(0)));
    Dispatch(s, x.(disp := CIncAvail, currentThreads := 1));
  }

  /** The dispatcher takes a permit and finds that worker 0 is available. */
  lemma FindWorker(s: State, t: State)
    requires Reaches(s, t) && t.threadRun && t.disp.DCheck2? && t.currentThreads == 1
    requires t.availableThread > 0 && t.ws == [Worker(WWait, 0, true, None)]
    ensures Reaches(s, t.(availableThread := t.availableThread - 1, disp := JAssign(0)))
  {
    Dispatch(s, t);
    Dispatch(s, t.(disp := JCurrent));
    Dispatch(s, t.(disp := JWait));
    var u := t.(availableThread := t.availableThread - 1);
    Dispatch(s, u.(disp := JCheck));
    Dispatch(s, u.(disp := JScan(0)));
  }

  /** It hands that worker the front of the queue. */
  lemma HandToWorker(s: State, t: State)
    requires Reaches(s, t) && t.disp == JAssign(0) && t.jobs != [] && t.ws == [Worker(WWait, 0, true, None)]
    ensures Reaches(s, t.(ws := [Worker(WWait, 1, false, Some(t.jobs[0]))], jobs := t.jobs[1..],
                          handed := t.handed + [t.jobs[0]], numAvailable := t.numAvailable - 1, disp := DCheck3))
  {
    var j := t.jobs[0];
    Dispatch(s, t);
    var v := t.(ws := [Worker(WWait, 0, true, Some(j))], jobs := t.jobs[1..], handed := t.handed + [j],
                disp := JClear(0));
    assert t.ws[0 := Worker(WWait, 0, true, Some(j))] == v.ws;
    SignalWorker(s, v, j);
  }

  lemma SignalWorker(s: State, t: State, j: nat)
    requires Reaches(s, t) && t.disp == JClear(0) && t.ws == [Worker(WWait, 0, true, Some(j))]
    ensures Reaches(s, t.(ws := [Worker(WWait, 1, false, Some(j))], numAvailable := t.numAvailable - 1,
                          disp := DCheck3))
  {
    Dispatch(s, t);
    var w := t.(ws := [Worker(WWait, 0, false, Some(j))]);
    assert t.ws[0 := Worker(WWait, 0, false, Some(j))] == w.ws;
    Dispatch(s, w.(disp := JDecAvail(0)));
    Dispatch(s, w.(disp := JSignal(0), numAvailable := t.numAvailable - 1));
    assert w.ws[0 := Worker(WWait, 1, false, Some(j))] == [Worker(WWait, 1, false, Some(j))];
  }

  /** The worker executes thunk `j` and decrements jobsCount; nobody is waiting yet. */
  lemma WorkOff(s: State, t: State, j: nat)
    requires Reaches(s, t) && t.threadRun && t.ws == [Worker(WWait, 1, false, Some(j))]
    requires NoCallBy(t, 0) && t.waits == [NotCalled] && t.destroyer.Alive?
    ensures Reaches(s, t.(ws := [Worker(WSetAvail, 0, false, Some(j))], ran := t.ran + [j],
                          jobsCount := t.jobsCount - 1))
  {
    Then(s, t, StepWorker(0));
    var u := t.(ws := [Worker(WCheck, 0, false, Some(j))]);
    assert WorkerNext(t, 0) == u;
    Then(s, u, StepWorker(0));
    var v := t.(ws := [Worker(WRun, 0, false, Some(j))]);
    assert WorkerNext(u, 0) == v;
    Then(s, v, StepWorker(0));
    var w := t.(ws := [Worker(WDecJobs, 0, false, Some(j))], ran := t.ran + [j]);
    assert WorkerNext(v, 0) == w;
    Then(s, w, StepWorker(0));
    assert NotifyAll(t.waits) == t.waits;
    assert w.ws[0 := Worker(WSetAvail, 0, false, Some(j))] == [Worker(WSetAvail, 0, false, Some(j))];
  }

  /** wait() can return although a thunk whose schedule() call had returned before wait() was called has not run:
      another thread is inside schedule(), after addJob and before incrementJobsCount. */
  lemma WaitCanReturnEarly() returns (s: State, before: State, t: State)
    ensures Init(s) && |s.ws| == 1 && Reaches(s, before) && Reaches(before, t)
    ensures before.waits == [NotCalled] && |before.calls| == 2 && before.calls[1].pc.Returned? && 1 in before.pushed
    ensures t.waits == [Awake] && 1 !in t.ran
  {
    s, before := OneCallHalfWay();
    t := FirstThunkDone(before);
    WaitAtZero(before, t);
    t := t.(waits := [Awake]);
  }

  lemma OneCallHalfWay() returns (s: State, t: State)
    ensures Init(s) && |s.ws| == 1 && Reaches(s, t)
    ensures t == Fresh([Worker(NotSpawned, 0, false, None)], 0, [NotCalled])
                 .(jobs := [0, 1], pushed := [0, 1], jobsCount := 1, addedJob := 1,
                   calls := [Call(Added, External), Call(Returned, External)])
  {
    s := Fresh([Worker(NotSpawned, 0, false, None)], 2, [NotCalled]);
    Begin(s);
    ScheduleHalf(s, s, 0);
    var t1 := s.(budget := 1, jobs := [0], pushed := [0], calls := [Call(Added, External)]);
    assert s.jobs + [0] == [0] && s.calls + [Call(Added, External)] == t1.calls;
    Schedule(s, t1, 1);
    t := t1.(budget := 0, jobs := [0, 1], pushed := [0, 1], jobsCount := 1, addedJob := 1,
             calls := [Call(Added, External), Call(Returned, External)]);
    assert t1.jobs + [1] == t.jobs && t1.calls + [Call(Returned, External)] == t.calls;
  }

  lemma FirstThunkDone(s: State) returns (t: State)
    requires s == Fresh([Worker(NotSpawned, 0, false, None)], 0, [NotCalled])
                  .(jobs := [0, 1], pushed := [0, 1], jobsCount := 1, addedJob := 1,
                    calls := [Call(Added, External), Call(Returned, External)])
    ensures Reaches(s, t) && t.jobsCount == 0 && t.waits == [NotCalled] && t.ran == [0]
  {
    Begin(s);
    DecideToCreate(s, s);
    var t1 := s.(addedJob := 0, disp := CSpawn);
    CreateWorker(s, t1);
    var t2 := t1.(ws := [Worker(WWait, 0, true, None)], currentThreads := 1, numAvailable := 1,
                  availableThread := 1, disp := DCheck2);
    FindWorker(s, t2);
    var t3 := t2.(availableThread := 0, disp := JAssign(0));
    HandToWorker(s, t3);
    var t4 := t3.(ws := [Worker(WWait, 1, false, Some(0))], jobs := t3.jobs[1..], handed := t3.handed + [0],
                  numAvailable := 0, disp := DCheck3);
    WorkOff(s, t4, 0);
    t := t4.(ws := [Worker(WSetAvail, 0, false, Some(0))], ran := t4.ran + [0], jobsCount := 0);
  }

  lemma WaitAtZero(s: State, t: State)
    requires Reaches(s, t) && t.jobsCount == 0 && t.waits == [NotCalled]
    ensures Reaches(s, t.(waits := [Awake]))
  {
    Then(s, t, BeginWait(0));
    assert t.waits[0 := Testing] == [Testing];
    Then(s, t.(waits := [Testing]), StepWait(0));
    assert [Testing][0 := Awake] == [Awake];
  }
}
