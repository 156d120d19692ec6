/** Every step of the thread pool keeps the invariant, so it holds in every reachable state. */
module ThreadPoolSafety {
  import opened Basics
  import opened Sums
  import opened ThreadPool
  import opened ThreadPoolInvariant

  // ---------------------------------------------------------------- the constructor

  lemma EmptyTable(ws: seq<Worker>)
    requires forall i :: 0 <= i < |ws| ==> ws[i] == Worker(NotSpawned, 0, false, None)
    ensures Sum(Flag, ws) == 0 && Sum(Unsignalled, ws) == 0 && Sum(Uncounted, ws) == 0
    ensures Sum(Unrun, ws) == 0 && Sum(Unfinished, ws) == 0
  {
    SumAllZero(Flag, ws);
    SumAllZero(Unsignalled, ws);
    SumAllZero(Uncounted, ws);
    SumAllZero(Unrun, ws);
    SumAllZero(Unfinished, ws);
  }

  lemma InitAccounts(s: State)
    requires s.disp.DWait? && s.jobsCount == s.numAvailable == s.availableThread == s.addedJob == 0
    requires s.jobs == s.handed == s.ran == [] && s.calls == []
    requires forall i :: 0 <= i < |s.ws| ==> s.ws[i] == Worker(NotSpawned, 0, false, None)
    ensures PermitAccounts(s) && JobAccounts(s)
  {
    EmptyTable(s.ws);
  }

  lemma InitWorkers(s: State)
    requires Init(s) && |s.ws| >= 1
    ensures Shape(s) && ThunksOk(s) && forall i :: 0 <= i < |s.ws| ==> WorkerOk(s, i)
  {
  }

  lemma InitInv(s: State)
    requires Init(s) && |s.ws| >= 1
    ensures Inv(s)
  {
    InitAccounts(s);
    InitWorkers(s);
  }

  // ---------------------------------------------------------------- parts that a step leaves alone

  /** A step that neither hands out nor executes a thunk keeps every thunk where it is. */
  lemma ThunksUntouched(s: State, t: State)
    requires ThunksOk(s) && t.handed == s.handed && t.ran == s.ran && |t.ws| == |s.ws|
    requires forall i :: 0 <= i < |s.ws| ==> Loaded(t, i) == Loaded(s, i) && t.ws[i].thunk == s.ws[i].thunk
    ensures ThunksOk(t)
  {
    forall j | j in t.handed && j !in t.ran
      ensures exists i :: 0 <= i < |t.ws| && Loaded(t, i) && t.ws[i].thunk == Some(j)
    {
      var i :| 0 <= i < |s.ws| && Loaded(s, i) && s.ws[i].thunk == Some(j);
      assert Loaded(t, i);
    }
  }

  lemma WorkersUntouched(s: State, t: State)
    requires t.ws == s.ws && t.disp == s.disp
    requires forall i :: 0 <= i < |s.ws| ==> WorkerOk(s, i)
    ensures forall i :: 0 <= i < |s.ws| ==> WorkerOk(t, i)
  {
    forall i | 0 <= i < |s.ws| ensures WorkerOk(t, i) {
      assert WorkerOk(s, i);
    }
  }

  // ---------------------------------------------------------------- schedule()

  lemma CallKeepsQueue(s: State, j: nat)
    requires QueueOk(s) && CallEnabled(s, j)
    ensures QueueOk(CallNext(s, j))
  {
    var t := CallNext(s, j);
    if s.calls[j].pc.Started? {
      assert t.pushed == t.handed + t.jobs;
      assert j !in s.pushed;
      forall k ensures k in t.pushed <==> 0 <= k < |t.calls| && !t.calls[k].pc.Started? {
        assert k in t.pushed <==> k in s.pushed || k == j;
      }
    }
  }

  lemma CallKeepsCalls(s: State, j: nat)
    requires CallsOk(s) && CallEnabled(s, j)
    ensures CallsOk(CallNext(s, j))
  {
    var t := CallNext(s, j);
    assert t.ws == s.ws && t.destroyer == s.destroyer;
    assert t.calls[j].caller == s.calls[j].caller;
    assert forall k :: 0 <= k < |s.calls| && k != j ==> t.calls[k] == s.calls[k];
  }

  lemma CallKeepsAccounts(s: State, j: nat)
    requires PermitAccounts(s) && JobAccounts(s) && CallEnabled(s, j)
    ensures PermitAccounts(CallNext(s, j)) && JobAccounts(CallNext(s, j))
  {
    var t := CallNext(s, j);
    CallSums(s.calls, j, t.calls[j]);
    assert t.ws == s.ws && t.disp == s.disp;
  }

  /** The destructor is past its wait() only when no call can be in progress. */
  lemma NoCallWhileIdle(s: State)
    requires CallsOk(s) && RunningOk(s) && s.jobsCount == 0 && !s.destroyer.Alive?
    ensures forall j :: 0 <= j < |s.calls| ==> s.calls[j].pc.Returned?
  {
    TableTerms(s);
    assert forall i :: 0 <= i < |s.ws| ==> Unfinished(s.ws[i]) == 0;
    assert forall i :: 0 <= i < |s.ws| ==> !s.ws[i].pc.WRun?;
  }

  lemma CallKeepsRunning(s: State, j: nat)
    requires RunningOk(s) && ThunksOk(s) && CallEnabled(s, j)
    ensures RunningOk(CallNext(s, j)) && ThunksOk(CallNext(s, j))
  {
    WorkersUntouched(s, CallNext(s, j));
    ThunksUntouched(s, CallNext(s, j));
    CallKeepsAccounts(s, j);
  }

  lemma CallKeepsInv(s: State, j: nat)
    requires Inv(s) && CallEnabled(s, j)
    ensures Inv(CallNext(s, j))
  {
    CallKeepsQueue(s, j);
    CallKeepsCalls(s, j);
    if s.destroyer.XSetRun? && s.threadRun {
      NoCallWhileIdle(s);
    }
    if s.threadRun {
      CallKeepsRunning(s, j);
    }
  }

  // ---------------------------------------------------------------- worker()

  lemma WorkerKeepsShape(s: State, i: nat)
    requires RunningOk(s) && WorkerEnabled(s, i) && s.threadRun
    ensures Shape(WorkerNext(s, i))
  {
    assert WorkerOk(s, i);
    if s.disp.JScan? {
      WorkerKeepsScan(s, i);
    }
  }

  /** A worker never takes back its own flag. */
  lemma WorkerKeepsScan(s: State, i: nat)
    requires Shape(s) && WorkerEnabled(s, i) && s.disp.JScan?
    ensures var t := WorkerNext(s, i); exists k :: s.disp.depth <= k < s.currentThreads && t.ws[k].available
  {
    var t := WorkerNext(s, i);
    var k :| s.disp.depth <= k < s.currentThreads && s.ws[k].available;
    assert t.ws[k].available;
  }

  lemma WorkerKeepsWorkers(s: State, i: nat, k: nat)
    requires WorkerEnabled(s, i) && s.threadRun && k < |s.ws| && WorkerOk(s, k) && WorkerOk(s, i)
    ensures WorkerOk(WorkerNext(s, i), k)
  {
  }

  lemma WorkerKeepsPermits(s: State, i: nat)
    requires PermitAccounts(s) && WorkerEnabled(s, i) && s.threadRun && WorkerOk(s, i)
    ensures PermitAccounts(WorkerNext(s, i))
  {
    PermitSums(s.ws, i, WorkerNext(s, i).ws[i]);
  }

  lemma WorkerKeepsJobs(s: State, i: nat)
    requires JobAccounts(s) && WorkerEnabled(s, i) && s.threadRun && WorkerOk(s, i)
    ensures JobAccounts(WorkerNext(s, i))
  {
    JobSums(s.ws, i, WorkerNext(s, i).ws[i]);
  }

  /** Executing a thunk moves exactly that thunk from its worker to `ran`. */
  lemma RunningThunk(s: State, i: nat)
    requires ThunksOk(s) && WorkerEnabled(s, i) && s.ws[i].pc.WRun? && s.ws[i].sem == 0
    requires Target(s.disp) != Some(i)
    ensures ThunksOk(WorkerNext(s, i))
  {
    var t := WorkerNext(s, i);
    assert Loaded(s, i) && !Loaded(t, i);
    assert forall k :: 0 <= k < |s.ws| && k != i ==> Loaded(t, k) == Loaded(s, k) && t.ws[k] == s.ws[k];
    var job := s.ws[i].thunk.value;
    forall k | 0 <= k < |t.ws| && Loaded(t, k) ensures t.ws[k].thunk.value !in t.ran {
      assert s.ws[k].thunk != s.ws[i].thunk;
    }
    forall j | j in t.handed && j !in t.ran
      ensures exists k :: 0 <= k < |t.ws| && Loaded(t, k) && t.ws[k].thunk == Some(j)
    {
      assert j !in s.ran && j != job by { assert t.ran == s.ran + [job]; assert job in t.ran; }
      var k :| 0 <= k < |s.ws| && Loaded(s, k) && s.ws[k].thunk == Some(j);
      assert Loaded(t, k);
    }
  }

  lemma WorkerKeepsThunks(s: State, i: nat)
    requires ThunksOk(s) && WorkerEnabled(s, i) && s.threadRun && WorkerOk(s, i)
    ensures ThunksOk(WorkerNext(s, i))
  {
    if s.ws[i].pc.WRun? {
      RunningThunk(s, i);
    } else {
      ThunksUntouched(s, WorkerNext(s, i));
    }
  }

  lemma WorkerKeepsCalls(s: State, i: nat)
    requires CallsOk(s) && WorkerEnabled(s, i)
    ensures CallsOk(WorkerNext(s, i))
  {
    var t := WorkerNext(s, i);
    assert t.calls == s.calls && t.destroyer.Alive? == s.destroyer.Alive? && |t.ws| == |s.ws|;
    assert forall k :: 0 <= k < |s.ws| && k != i ==> t.ws[k] == s.ws[k];
    assert s.ws[i].pc.WRun? ==> NoCallBy(s, i);
  }

  lemma WorkerKeepsWaits(s: State, i: nat)
    requires WaitsOk(s) && RunningOk(s) && WorkerEnabled(s, i) && s.threadRun
    ensures WaitsOk(WorkerNext(s, i))
  {
    if s.ws[i].pc.WDecJobs? {
      TableTerms(s);
      assert s.jobsCount >= 1;
    }
  }

  lemma WorkerKeepsRunning(s: State, i: nat)
    requires RunningOk(s) && WorkerEnabled(s, i) && s.threadRun
    ensures RunningOk(WorkerNext(s, i))
  {
    assert WorkerOk(s, i);
    WorkerKeepsShape(s, i);
    WorkerKeepsPermits(s, i);
    WorkerKeepsJobs(s, i);
    forall k | 0 <= k < |s.ws| ensures WorkerOk(WorkerNext(s, i), k) {
      WorkerKeepsWorkers(s, i, k);
    }
  }

  lemma WorkerKeepsShutdown(s: State, i: nat)
    requires ShutdownOk(s) && WorkerEnabled(s, i) && !s.threadRun
    ensures ShutdownOk(WorkerNext(s, i)) && WorkerNext(s, i).ran == s.ran
  {
    assert i < s.currentThreads;
  }

  lemma WorkerKeepsInv(s: State, i: nat)
    requires Inv(s) && WorkerEnabled(s, i)
    ensures Inv(WorkerNext(s, i))
  {
    WorkerKeepsCalls(s, i);
    if s.threadRun {
      assert WorkerOk(s, i);
      WorkerKeepsRunning(s, i);
      WorkerKeepsThunks(s, i);
      WorkerKeepsWaits(s, i);
    } else {
      WorkerKeepsShutdown(s, i);
    }
  }

  // ---------------------------------------------------------------- dispatcher()

  /** A permit in the dispatcher's hands, or a positive counter, means that some existing worker is available. */
  lemma FlagWitness(s: State)
    requires Shape(s) && Sum(Flag, s.ws) > 0
    requires forall i :: 0 <= i < |s.ws| ==> WorkerOk(s, i)
    ensures exists i :: 0 <= i < Spawned(s) && i < |s.ws| && s.ws[i].available
  {
    var i := SumWitness(Flag, s.ws);
    assert WorkerOk(s, i);
  }

  /** Testing the counter and taking a permit are only followed by work if some worker exists, and the scan of
      the table never passes the last available worker. */
  lemma ScanKeepsShape(s: State)
    requires RunningOk(s) && s.threadRun && (s.disp.DGet? || s.disp.JCheck? || s.disp.JScan?)
    ensures Shape(DispatcherNext(s))
  {
    var t := DispatcherNext(s);
    if s.disp.JScan? {
      var i :| s.disp.depth <= i < s.currentThreads && s.ws[i].available;
      assert t.ws[i].available;
    } else {
      UncountedAtMostUnsignalled(s.ws);
      TableTerms(s);
      if Sum(Flag, s.ws) > 0 {
        FlagWitness(s);
      }
    }
  }

  lemma CreateKeepsShape(s: State)
    requires Shape(s) && DispatcherEnabled(s) && s.threadRun
    requires s.disp.CSpawn? || s.disp.CSignal? || s.disp.CSetAvail? || s.disp.CIncCurrent?
    ensures Shape(DispatcherNext(s))
  {
  }

  lemma AssignKeepsShape(s: State)
    requires Shape(s) && DispatcherEnabled(s) && s.threadRun
    requires s.disp.JAssign? || s.disp.JClear? || s.disp.JDecAvail? || s.disp.JSignal?
    ensures Shape(DispatcherNext(s))
  {
  }

  lemma TestKeepsShape(s: State)
    requires Shape(s) && DispatcherEnabled(s) && s.threadRun
    requires s.disp.DWait? || s.disp.DCheck1? || s.disp.DCheck2? || s.disp.DCheck3?
    ensures Shape(DispatcherNext(s))
  {
  }

  lemma RoomKeepsShape(s: State)
    requires Shape(s) && DispatcherEnabled(s) && s.threadRun
    requires s.disp.DRoom? || s.disp.CCheck? || s.disp.CIncAvail? || s.disp.JCurrent? || s.disp.JWait?
    ensures Shape(DispatcherNext(s))
  {
  }

  lemma DispatcherKeepsShape(s: State)
    requires Shape(s) && DispatcherEnabled(s) && s.threadRun
    requires !s.disp.DGet? && !s.disp.JCheck? && !s.disp.JScan?
    ensures Shape(DispatcherNext(s))
  {
    if s.disp.DWait? || s.disp.DCheck1? || s.disp.DCheck2? || s.disp.DCheck3? {
      TestKeepsShape(s);
    } else if s.disp.DRoom? || s.disp.CCheck? || s.disp.CIncAvail? || s.disp.JCurrent? || s.disp.JWait? {
      RoomKeepsShape(s);
    } else if s.disp.CSpawn? || s.disp.CSignal? || s.disp.CSetAvail? || s.disp.CIncCurrent? {
      CreateKeepsShape(s);
    } else {
      AssignKeepsShape(s);
    }
  }

  /** The worker whose entry the dispatcher's next step changes. */
  ghost function Touched(s: State): Option<nat> {
    match s.disp
    case CSpawn => Some(s.currentThreads)
    case CSetAvail(id) => Some(id)
    case JAssign(w) => Some(w)
    case JClear(w) => Some(w)
    case JSignal(w) => Some(w)
    case _ => None
  }

  lemma TouchKeepsWorkers(s: State, k: nat)
    requires Shape(s) && DispatcherEnabled(s) && s.threadRun && k < |s.ws| && Touched(s).Some?
    requires WorkerOk(s, k)
    ensures WorkerOk(DispatcherNext(s), k)
  {
  }

  lemma QuietKeepsWorkers(s: State, k: nat)
    requires Shape(s) && DispatcherEnabled(s) && s.threadRun && k < |s.ws| && Touched(s).None?
    requires forall i :: 0 <= i < |s.ws| ==> WorkerOk(s, i)
    ensures WorkerOk(DispatcherNext(s), k)
  {
    assert WorkerOk(s, k);
  }

  lemma DispatcherKeepsWorkers(s: State, k: nat)
    requires Shape(s) && DispatcherEnabled(s) && s.threadRun && k < |s.ws|
    requires forall i :: 0 <= i < |s.ws| ==> WorkerOk(s, i)
    ensures WorkerOk(DispatcherNext(s), k)
  {
    assert WorkerOk(s, k);
    if Touched(s).Some? {
      TouchKeepsWorkers(s, k);
    } else {
      QuietKeepsWorkers(s, k);
    }
  }

  lemma TouchKeepsPermits(s: State, w: nat)
    requires PermitAccounts(s) && Shape(s) && DispatcherEnabled(s) && s.threadRun
    requires Touched(s) == Some(w) && WorkerOk(s, w)
    ensures PermitAccounts(DispatcherNext(s))
  {
    PermitSums(s.ws, w, DispatcherNext(s).ws[w]);
  }

  lemma AssignKeepsJobs(s: State, w: nat)
    requires JobAccounts(s) && Shape(s) && DispatcherEnabled(s) && s.disp == JAssign(w)
    ensures JobAccounts(DispatcherNext(s))
  {
    JobSums(s.ws, w, DispatcherNext(s).ws[w]);
  }

  lemma HandOverKeepsJobs(s: State, w: nat)
    requires JobAccounts(s) && Shape(s) && DispatcherEnabled(s) && (s.disp == JClear(w) || s.disp == JSignal(w))
    ensures JobAccounts(DispatcherNext(s))
  {
    JobSums(s.ws, w, DispatcherNext(s).ws[w]);
  }

  lemma TouchKeepsJobs(s: State, w: nat)
    requires JobAccounts(s) && Shape(s) && DispatcherEnabled(s) && s.threadRun && Touched(s) == Some(w)
    ensures JobAccounts(DispatcherNext(s))
  {
    if s.disp.JAssign? {
      AssignKeepsJobs(s, w);
    } else if s.disp.JClear? || s.disp.JSignal? {
      HandOverKeepsJobs(s, w);
    } else {
      JobSums(s.ws, w, DispatcherNext(s).ws[w]);
    }
  }

  lemma QuietKeepsPermits(s: State)
    requires PermitAccounts(s) && Shape(s) && DispatcherEnabled(s) && s.threadRun && Touched(s).None?
    requires s.disp.JScan? ==> DispatcherNext(s).disp != DCheck3
    ensures PermitAccounts(DispatcherNext(s))
  {
    assert DispatcherNext(s).ws == s.ws;
  }

  lemma QuietKeepsJobs(s: State)
    requires JobAccounts(s) && Shape(s) && DispatcherEnabled(s) && s.threadRun && Touched(s).None?
    requires s.disp.JScan? ==> DispatcherNext(s).disp != DCheck3
    ensures JobAccounts(DispatcherNext(s))
  {
    assert DispatcherNext(s).ws == s.ws && DispatcherNext(s).calls == s.calls;
  }

  lemma DispatcherKeepsAccounts(s: State)
    requires RunningOk(s) && DispatcherEnabled(s) && s.threadRun
    ensures PermitAccounts(DispatcherNext(s)) && JobAccounts(DispatcherNext(s))
  {
    match Touched(s) {
      case Some(w) =>
        assert WorkerOk(s, w);
        TouchKeepsPermits(s, w);
        TouchKeepsJobs(s, w);
      case None =>
        QuietKeepsPermits(s);
        QuietKeepsJobs(s);
    }
  }

  /** Handing out a thunk takes the front of the queue and overwrites no thunk that is still to run. */
  lemma AssignKeepsThunks(s: State, w: nat)
    requires ThunksOk(s) && QueueOk(s) && DispatcherEnabled(s) && s.disp == JAssign(w) && !Loaded(s, w)
    ensures ThunksOk(DispatcherNext(s)) && QueueOk(DispatcherNext(s))
  {
    var t := DispatcherNext(s);
    var job := s.jobs[0];
    assert t.handed + t.jobs == s.pushed;
    assert s.pushed[|s.handed|] == job;
    assert forall k :: 0 <= k < |s.handed| ==> s.handed[k] == s.pushed[k];
    assert job !in s.handed;
    assert Loaded(t, w) && t.ws[w].thunk == Some(job);
    assert forall k :: 0 <= k < |s.ws| && k != w ==> Loaded(t, k) == Loaded(s, k) && t.ws[k] == s.ws[k];
    assert t.handed[|s.handed|] == job;
    forall j | j in t.handed && j !in t.ran
      ensures exists k :: 0 <= k < |t.ws| && Loaded(t, k) && t.ws[k].thunk == Some(j)
    {
      if j != job {
        var k :| 0 <= k < |s.ws| && Loaded(s, k) && s.ws[k].thunk == Some(j);
        assert Loaded(t, k);
      }
    }
  }

  /** All the dispatcher changes, other than by taking a thunk from the queue, is its own and one worker's. */
  lemma DispatcherFrame(s: State)
    requires DispatcherEnabled(s) && !s.disp.JAssign?
    ensures var t := DispatcherNext(s);
            && t.pushed == s.pushed && t.handed == s.handed && t.jobs == s.jobs && t.ran == s.ran
            && t.calls == s.calls && t.waits == s.waits && t.destroyer == s.destroyer
            && t.jobsCount == s.jobsCount && t.threadRun == s.threadRun && |t.ws| == |s.ws|
  {
  }

  lemma DispatcherKeepsLoads(s: State, i: nat)
    requires Shape(s) && DispatcherEnabled(s) && s.threadRun && !s.disp.JAssign? && i < |s.ws|
    ensures |DispatcherNext(s).ws| == |s.ws|
    ensures Loaded(DispatcherNext(s), i) == Loaded(s, i) && DispatcherNext(s).ws[i].thunk == s.ws[i].thunk
  {
  }

  lemma DispatcherKeepsThunks(s: State, t: State)
    requires ThunksOk(s) && QueueOk(s) && Shape(s) && DispatcherEnabled(s) && s.threadRun && !s.disp.JAssign?
    requires t == DispatcherNext(s)
    ensures ThunksOk(t) && QueueOk(t)
  {
    DispatcherFrame(s);
    forall i | 0 <= i < |s.ws| ensures Loaded(t, i) == Loaded(s, i) && t.ws[i].thunk == s.ws[i].thunk {
      DispatcherKeepsLoads(s, i);
    }
    ThunksUntouched(s, t);
  }

  lemma DispatcherKeepsCalls(s: State)
    requires CallsOk(s) && DispatcherEnabled(s) && (s.disp.CSpawn? ==> s.ws[s.currentThreads].pc.NotSpawned?)
    ensures CallsOk(DispatcherNext(s))
  {
    var t := DispatcherNext(s);
    assert t.calls == s.calls && t.destroyer == s.destroyer && |t.ws| == |s.ws|;
    assert forall i :: 0 <= i < |s.ws| && s.ws[i].pc.WRun? ==> t.ws[i].pc.WRun?;
  }

  lemma DispatcherKeepsShutdown(s: State)
    requires ShutdownOk(s) && DispatcherEnabled(s) && !s.threadRun
    ensures ShutdownOk(DispatcherNext(s))
  {
  }

  lemma DispatcherKeepsRunning(s: State)
    requires RunningOk(s) && DispatcherEnabled(s) && s.threadRun
    ensures RunningOk(DispatcherNext(s))
  {
    if s.disp.DGet? || s.disp.JCheck? || s.disp.JScan? {
      ScanKeepsShape(s);
    } else {
      DispatcherKeepsShape(s);
    }
    DispatcherKeepsAccounts(s);
    forall k | 0 <= k < |s.ws| ensures WorkerOk(DispatcherNext(s), k) {
      DispatcherKeepsWorkers(s, k);
    }
  }

  lemma DispatcherKeepsWaits(s: State)
    requires WaitsOk(s) && DispatcherEnabled(s)
    ensures WaitsOk(DispatcherNext(s)) && DispatcherNext(s).threadRun == s.threadRun
  {
    var t := DispatcherNext(s);
    assert t.waits == s.waits && t.destroyer == s.destroyer && t.jobsCount == s.jobsCount;
  }

  lemma DispatcherKeepsInv(s: State)
    requires Inv(s) && DispatcherEnabled(s)
    ensures Inv(DispatcherNext(s))
  {
    var t := DispatcherNext(s);
    DispatcherKeepsCalls(s);
    DispatcherKeepsWaits(s);
    if !s.threadRun {
      DispatcherFrame(s);
      DispatcherKeepsShutdown(s);
    } else {
      DispatcherKeepsRunning(s);
      if s.disp.JAssign? {
        assert WorkerOk(s, s.disp.w);
        AssignKeepsThunks(s, s.disp.w);
      } else {
        DispatcherKeepsThunks(s, t);
      }
    }
  }

  // ---------------------------------------------------------------- ~ThreadPool()

  /** When the destructor clears threadRun, nothing is queued, handed out or in progress. */
  lemma StopIsQuiescent(s: State)
    requires Inv(s) && s.threadRun && s.destroyer.XSetRun?
    ensures ShutdownOk(DestroyNext(s))
  {
    TableTerms(s);
    NoCallWhileIdle(s);
    assert forall i :: 0 <= i < |s.ws| ==> Unfinished(s.ws[i]) == 0;
    forall i | 0 <= i < |s.ws| ensures s.ws[i].sem == 0 && !s.ws[i].pc.WExited? && !Loaded(s, i) {
      assert WorkerOk(s, i);
    }
    SumAllZero(Half, s.calls);
  }

  lemma DestroyKeepsShutdown(s: State)
    requires ShutdownOk(s) && DestroyEnabled(s) && !s.threadRun
    ensures ShutdownOk(DestroyNext(s))
  {
  }

  lemma DestroyKeepsCalls(s: State)
    requires Inv(s) && DestroyEnabled(s)
    ensures CallsOk(DestroyNext(s)) && QueueOk(DestroyNext(s))
  {
    var t := DestroyNext(s);
    assert t.calls == s.calls;
    assert forall i :: 0 <= i < |s.ws| ==> t.ws[i].pc == s.ws[i].pc;
  }

  lemma DestroyKeepsWaits(s: State)
    requires Inv(s) && DestroyEnabled(s)
    ensures WaitsOk(DestroyNext(s))
  {
    if s.threadRun {
      TableTerms(s);
    }
  }

  /** Until it clears threadRun, the destructor only waits. */
  lemma DestroyKeepsRunning(s: State)
    requires RunningOk(s) && ThunksOk(s) && DestroyEnabled(s) && s.destroyer.XTesting?
    ensures RunningOk(DestroyNext(s)) && ThunksOk(DestroyNext(s)) && DestroyNext(s).threadRun == s.threadRun
  {
    ThunksUntouched(s, DestroyNext(s));
    WorkersUntouched(s, DestroyNext(s));
  }

  lemma DestroyKeepsInv(s: State)
    requires Inv(s) && DestroyEnabled(s)
    ensures Inv(DestroyNext(s))
  {
    DestroyKeepsCalls(s);
    DestroyKeepsWaits(s);
    if !s.threadRun {
      DestroyKeepsShutdown(s);
    } else if s.destroyer.XSetRun? {
      StopIsQuiescent(s);
    } else {
      DestroyKeepsRunning(s);
    }
  }

  // ---------------------------------------------------------------- the remaining steps

  lemma WaitKeepsInv(s: State, k: nat)
    requires Inv(s) && WaitEnabled(s, k)
    ensures Inv(WaitNext(s, k))
  {
    var t := WaitNext(s, k);
    if s.threadRun {
      TableTerms(s);
      WorkersUntouched(s, t);
      ThunksUntouched(s, t);
    }
  }

  lemma BeginCallKeepsQueue(s: State, caller: Caller)
    requires QueueOk(s) && CallsOk(s) && BeginCallEnabled(s, caller)
    ensures QueueOk(Next(s, BeginCall(caller))) && CallsOk(Next(s, BeginCall(caller)))
  {
    var t := Next(s, BeginCall(caller));
    assert t.ws == s.ws && t.pushed == s.pushed && t.destroyer == s.destroyer;
    assert forall j :: 0 <= j < |s.calls| ==> t.calls[j] == s.calls[j];
  }

  lemma BeginCallKeepsJobs(s: State, caller: Caller)
    requires JobAccounts(s) && BeginCallEnabled(s, caller)
    ensures JobAccounts(Next(s, BeginCall(caller)))
  {
    SumAppend(Half, s.calls, Call(Started, caller));
    SumAppend(BeforeSignal, s.calls, Call(Started, caller));
  }

  /** Once threadRun is cleared no thunk is running and no outside thread may call. */
  lemma CallsOnlyWhileRunning(s: State, caller: Caller)
    requires Inv(s) && BeginCallEnabled(s, caller)
    ensures s.threadRun
  {
  }

  lemma BeginCallKeepsInv(s: State, caller: Caller)
    requires Inv(s) && BeginCallEnabled(s, caller) && s.threadRun
    ensures Inv(Next(s, BeginCall(caller)))
  {
    var t := Next(s, BeginCall(caller));
    BeginCallKeepsQueue(s, caller);
    BeginCallKeepsJobs(s, caller);
    assert t.waits == s.waits && t.ws == s.ws && t.disp == s.disp;
    WorkersUntouched(s, t);
    ThunksUntouched(s, t);
  }

  lemma BeginWaitKeepsInv(s: State, k: nat)
    requires Inv(s) && Enabled(s, BeginWait(k))
    ensures Inv(Next(s, BeginWait(k)))
  {
    var t := Next(s, BeginWait(k));
    if s.threadRun {
      WorkersUntouched(s, t);
      ThunksUntouched(s, t);
    }
  }

  lemma BeginDestroyKeepsInv(s: State)
    requires Inv(s) && Enabled(s, BeginDestroy)
    ensures Inv(Next(s, BeginDestroy))
  {
    var t := Next(s, BeginDestroy);
    if s.threadRun {
      WorkersUntouched(s, t);
      ThunksUntouched(s, t);
    }
  }

  lemma StepKeepsInv(s: State, a: Action)
    requires Inv(s) && Enabled(s, a)
    ensures Inv(Next(s, a))
  {
    match a {
      case BeginCall(caller) => CallsOnlyWhileRunning(s, caller); BeginCallKeepsInv(s, caller);
      case StepCall(j) => CallKeepsInv(s, j);
      case BeginWait(k) => BeginWaitKeepsInv(s, k);
      case StepWait(k) => WaitKeepsInv(s, k);
      case StepDispatcher => DispatcherKeepsInv(s);
      case StepWorker(i) => WorkerKeepsInv(s, i);
      case BeginDestroy => BeginDestroyKeepsInv(s);
      case StepDestroy => DestroyKeepsInv(s);
    }
  }

  /** The invariant holds in every state that a pool with at least one thread can reach. */
  lemma {:induction false} RunKeepsInv(s: State, actions: seq<Action>, t: State)
    requires Inv(s) && Run(s, actions, t)
    ensures Inv(t)
    decreases |actions|
  {
    if actions != [] {
      StepKeepsInv(s, actions[0]);
      RunKeepsInv(Next(s, actions[0]), actions[1..], t);
    }
  }

  lemma ReachableInv(s: State, actions: seq<Action>, t: State)
    requires Init(s) && |s.ws| >= 1 && Run(s, actions, t)
    ensures Inv(t)
  {
    InitInv(s);
    RunKeepsInv(s, actions, t);
  }
}
