/**
 * Liveness of the thread pool without any fairness assumption: every step lowers a measure, so every run is
 * finite, and a run can only stop once every call has returned and every thunk has run.
 */
module ThreadPoolProgress {
  import opened Basics
  import opened Sums
  import opened ThreadPool
  import opened ThreadPoolInvariant
  import opened ThreadPoolSafety
  import opened ThreadPoolTheorems

  // ---------------------------------------------------------------- no reachable state is stuck

  /** Nothing that was asked of the pool is outstanding. */
  ghost predicate Complete(s: State) {
    && (forall j :: 0 <= j < |s.calls| ==> s.calls[j].pc.Returned?)
    && s.jobs == []
    && (forall j :: j in s.pushed ==> j in s.ran)
    && (forall k :: 0 <= k < |s.waits| ==> s.waits[k].NotCalled? || s.waits[k].Awake?)
    && (s.destroyer.Alive? || s.destroyer.Destroyed?)
    && (s.destroyer.Destroyed? ==>
          s.disp.DExited? && forall i :: 0 <= i < Spawned(s) && i < |s.ws| ==> s.ws[i].pc.WExited?)
  }

  ghost predicate Stopped(s: State) {
    forall a :: Internal(a) ==> !Enabled(s, a)
  }

  /** If no worker and no call can move, every worker is idle and available. */
  lemma IdleWorkers(s: State)
    requires Inv(s) && s.threadRun && Stopped(s)
    ensures forall j :: 0 <= j < |s.calls| ==> s.calls[j].pc.Returned?
    ensures forall i :: 0 <= i < |s.ws| ==> (s.ws[i].pc.NotSpawned? || s.ws[i].pc.WWait?) && s.ws[i].sem == 0
  {
    forall j | 0 <= j < |s.calls| ensures s.calls[j].pc.Returned? {
      assert !Enabled(s, StepCall(j));
    }
    forall i | 0 <= i < |s.ws| ensures (s.ws[i].pc.NotSpawned? || s.ws[i].pc.WWait?) && s.ws[i].sem == 0 {
      assert !Enabled(s, StepWorker(i));
      assert WorkerOk(s, i);
    }
  }

  /** Then the dispatcher is waiting for a job, not for a worker. */
  lemma IdleDispatcher(s: State)
    requires Inv(s) && s.threadRun && Stopped(s)
    ensures s.disp.DWait? && s.addedJob == 0
  {
    IdleWorkers(s);
    ScanFindsWorker(s);
    assert !Enabled(s, StepDispatcher);
    if s.disp.JWait? {
      assert WorkerOk(s, 0);
      SumTerm(Flag, s.ws);
      assert Flag(s.ws[0]) == 1;
      TableTerms(s);
      SumAllZero(Unsignalled, s.ws);
    }
  }

  lemma StoppedWhileRunning(s: State)
    requires Inv(s) && s.threadRun && Stopped(s)
    ensures Complete(s)
  {
    IdleWorkers(s);
    IdleDispatcher(s);
    SumAllZero(Unfinished, s.ws);
    SumAllZero(Half, s.calls);
    SumAllZero(BeforeSignal, s.calls);
    assert s.jobsCount == 0;
    IdleMeaning(s);
    forall k | 0 <= k < |s.waits| ensures s.waits[k].NotCalled? || s.waits[k].Awake? {
      assert !Enabled(s, StepWait(k));
    }
    assert !Enabled(s, StepDestroy);
  }

  lemma StoppedInShutdown(s: State)
    requires Inv(s) && !s.threadRun && Stopped(s)
    ensures Complete(s)
  {
    forall k | 0 <= k < |s.waits| ensures s.waits[k].NotCalled? || s.waits[k].Awake? {
      assert !Enabled(s, StepWait(k));
    }
    assert !Enabled(s, StepDispatcher);
    assert !Enabled(s, StepDestroy);
    forall i | 0 <= i < s.currentThreads ensures WorkerSignalled(s, i) ==> s.ws[i].pc.WExited? {
      assert !Enabled(s, StepWorker(i));
    }
  }

  /** A reachable state in which the pool cannot move owes nothing to anyone: no deadlock, no lost wakeup, and a
      destructor that was called has joined the dispatcher and every worker. */
  lemma StoppedIsComplete(s: State)
    requires Inv(s) && Stopped(s)
    ensures Complete(s)
  {
    if s.threadRun {
      StoppedWhileRunning(s);
    } else {
      StoppedInShutdown(s);
    }
  }

  // ---------------------------------------------------------------- every step lowers a measure

  function Times(a: nat, c: nat): nat {
    if a == 0 then 0 else Times(a - 1, c) + c
  }

  /** The work that one permit of a worker's semaphore stands for; a decrement may wake every waiter. */
  function PermitCost(waits: nat): nat { waits + 9 }

  function WorkerPcRank(pc: WorkerPc, waits: nat): nat {
    match pc
    case WExited => 0
    case NotSpawned => 1
    case WWait => 1
    case WSignal => 2
    case WIncAvail => 3
    case WSetAvail => 4
    case WDecJobs => waits + 6
    case WRun => waits + 7
    case WCheck => waits + 8
  }

  function WorkerRank(w: Worker, waits: nat): nat {
    Times(w.sem, PermitCost(waits)) + WorkerPcRank(w.pc, waits)
  }

  function DispatcherRank(d: DispatcherPc, n: nat, waits: nat): nat {
    var c := PermitCost(waits);
    match d
    case DExited => 0
    case DWait => 1
    case DCheck3 => 2
    case JSignal(_) => c + 3
    case JDecAvail(_) => c + 4
    case JClear(_) => c + 5
    case JAssign(_) => c + 6
    case JScan(depth) => c + 7 + if depth <= n then n - depth else 0
    case JCheck => c + 8 + n
    case JWait => c + 9 + n
    case JCurrent => c + 10 + n
    case DCheck2 => c + 11 + n
    case CIncAvail => c + 12 + n
    case CIncCurrent(_) => c + 13 + n
    case CSetAvail(_) => c + 14 + n
    case CSignal(_) => c + 15 + n
    case CSpawn => c + 16 + n
    case CCheck => c + 17 + n
    case DRoom => c + 18 + n
    case DGet => c + 19 + n
    case DCheck1 => c + 20 + n
  }

  /** The work that one `addedJob` permit stands for: one round of the dispatcher's loop. */
  function TokenCost(n: nat, waits: nat): nat { PermitCost(waits) + n + 20 }

  function CallRank(c: Call, token: nat): nat {
    match c.pc
    case Started => token + 3
    case Added => token + 2
    case Counted => token + 1
    case Returned => 0
  }

  function WaitRank(w: WaitPc): nat {
    match w
    case NotCalled => 2
    case Testing => 1
    case Asleep => 0
    case Awake => 0
  }

  function DestroyRank(x: DestroyPc, n: nat, waits: nat): nat {
    var signals := Times(n, PermitCost(waits) + 1);
    match x
    case Destroyed => 0
    case XJoinWorkers(k) => 1 + if k <= n then n - k else 0
    case XJoinDispatcher => n + 2
    case XSigWorkers(d) => n + 3 + if d <= n then Times(n - d, PermitCost(waits) + 1) else 0
    case XSigAvail => n + 4 + signals
    case XSigAdded => n + 5 + signals + TokenCost(n, waits)
    case XSetRun => n + 6 + signals + TokenCost(n, waits)
    case XAsleep => n + 7 + signals + TokenCost(n, waits)
    case XTesting => n + 8 + signals + TokenCost(n, waits)
    case Alive => n + 9 + signals + TokenCost(n, waits)
  }

  function SumWorkers(ws: seq<Worker>, waits: nat): nat {
    if ws == [] then 0 else WorkerRank(ws[0], waits) + SumWorkers(ws[1..], waits)
  }

  function SumCalls(calls: seq<Call>, token: nat): nat {
    if calls == [] then 0 else CallRank(calls[0], token) + SumCalls(calls[1..], token)
  }

  function SumWaits(waits: seq<WaitPc>): nat {
    if waits == [] then 0 else WaitRank(waits[0]) + SumWaits(waits[1..])
  }

  function PoolRank(s: State): nat {
    var n, waits := |s.ws|, |s.waits|;
    Times(s.addedJob, TokenCost(n, waits)) + DispatcherRank(s.disp, n, waits) + SumWorkers(s.ws, waits)
  }

  function ClientRank(s: State): nat {
    var token := TokenCost(|s.ws|, |s.waits|);
    Times(s.budget, token + 4) + SumCalls(s.calls, token) + SumWaits(s.waits)
  }

  /** A bound on the number of steps that are left. */
  function Measure(s: State): nat {
    PoolRank(s) + ClientRank(s) + DestroyRank(s.destroyer, |s.ws|, |s.waits|)
  }

  lemma {:induction false} SumWorkersUpdate(ws: seq<Worker>, i: nat, w: Worker, waits: nat)
    requires i < |ws|
    ensures SumWorkers(ws[i := w], waits) == SumWorkers(ws, waits) - WorkerRank(ws[i], waits) + WorkerRank(w, waits)
  {
    if i == 0 {
      assert ws[i := w][1..] == ws[1..];
    } else {
      assert ws[i := w][1..] == ws[1..][i - 1 := w];
      SumWorkersUpdate(ws[1..], i - 1, w, waits);
    }
  }

  lemma {:induction false} SumCallsUpdate(calls: seq<Call>, j: nat, c: Call, token: nat)
    requires j < |calls|
    ensures SumCalls(calls[j := c], token) == SumCalls(calls, token) - CallRank(calls[j], token) + CallRank(c, token)
  {
    if j == 0 {
      assert calls[j := c][1..] == calls[1..];
    } else {
      assert calls[j := c][1..] == calls[1..][j - 1 := c];
      SumCallsUpdate(calls[1..], j - 1, c, token);
    }
  }

  lemma {:induction false} SumCallsAppend(calls: seq<Call>, c: Call, token: nat)
    ensures SumCalls(calls + [c], token) == SumCalls(calls, token) + CallRank(c, token)
  {
    if calls == [] {
      assert calls + [c] == [c];
    } else {
      assert (calls + [c])[1..] == calls[1..] + [c];
      SumCallsAppend(calls[1..], c, token);
    }
  }

  lemma {:induction false} SumWaitsUpdate(waits: seq<WaitPc>, k: nat, w: WaitPc)
    requires k < |waits|
    ensures SumWaits(waits[k := w]) == SumWaits(waits) - WaitRank(waits[k]) + WaitRank(w)
  {
    if k == 0 {
      assert waits[k := w][1..] == waits[1..];
    } else {
      assert waits[k := w][1..] == waits[1..][k - 1 := w];
      SumWaitsUpdate(waits[1..], k - 1, w);
    }
  }

  /** notify_all() costs at most one step per waiter. */
  lemma {:induction false} NotifyCost(waits: seq<WaitPc>)
    ensures SumWaits(NotifyAll(waits)) <= SumWaits(waits) + |waits|
  {
    if waits != [] {
      assert NotifyAll(waits)[1..] == NotifyAll(waits[1..]);
      NotifyCost(waits[1..]);
    }
  }

  lemma CallLowersMeasure(s: State, j: nat)
    requires CallEnabled(s, j)
    ensures Measure(CallNext(s, j)) < Measure(s)
  {
    SumCallsUpdate(s.calls, j, CallNext(s, j).calls[j], TokenCost(|s.ws|, |s.waits|));
  }

  lemma WorkerLowersRank(s: State, i: nat)
    requires WorkerEnabled(s, i)
    ensures |WorkerNext(s, i).waits| == |s.waits|
    ensures PoolRank(WorkerNext(s, i)) + (if s.ws[i].pc.WDecJobs? then |s.waits| + 1 else 0) < PoolRank(s)
  {
    SumWorkersUpdate(s.ws, i, WorkerNext(s, i).ws[i], |s.waits|);
  }

  lemma WorkerLowersMeasure(s: State, i: nat)
    requires WorkerEnabled(s, i)
    ensures Measure(WorkerNext(s, i)) < Measure(s)
  {
    WorkerLowersRank(s, i);
    NotifyCost(s.waits);
  }

  lemma SignalWorkerLowersRank(s: State, w: nat)
    requires s.disp == JSignal(w) && w < |s.ws|
    ensures PoolRank(DispatcherNext(s)) < PoolRank(s)
  {
    SumWorkersUpdate(s.ws, w, DispatcherNext(s).ws[w], |s.waits|);
  }

  /** Except where it waits for a permit or gives one, the dispatcher's step lowers its own rank. */
  lemma OwnRankLowers(s: State)
    requires DispatcherEnabled(s) && !s.disp.DWait? && !s.disp.JSignal?
    ensures DispatcherRank(DispatcherNext(s).disp, |s.ws|, |s.waits|) < DispatcherRank(s.disp, |s.ws|, |s.waits|)
  {
  }

  lemma TouchKeepsWorkerRank(s: State, w: nat)
    requires DispatcherEnabled(s) && Touched(s) == Some(w) && !s.disp.JSignal?
    requires s.disp.CSpawn? ==> s.ws[w].pc.NotSpawned?
    ensures var t := DispatcherNext(s);
            t.ws == s.ws[w := t.ws[w]] && WorkerRank(t.ws[w], |s.waits|) == WorkerRank(s.ws[w], |s.waits|)
  {
  }

  lemma TouchLowersRank(s: State, w: nat)
    requires DispatcherEnabled(s) && Touched(s) == Some(w) && !s.disp.JSignal?
    requires s.disp.CSpawn? ==> s.ws[w].pc.NotSpawned?
    ensures PoolRank(DispatcherNext(s)) < PoolRank(s)
  {
    var t := DispatcherNext(s);
    OwnRankLowers(s);
    TouchKeepsWorkerRank(s, w);
    SumWorkersUpdate(s.ws, w, t.ws[w], |s.waits|);
    assert t.waits == s.waits && t.addedJob == s.addedJob;
  }

  lemma WaitLowersRank(s: State)
    requires DispatcherEnabled(s) && s.disp.DWait?
    ensures PoolRank(DispatcherNext(s)) < PoolRank(s)
  {
  }

  lemma QuietLowersRank(s: State)
    requires DispatcherEnabled(s) && Touched(s).None?
    ensures PoolRank(DispatcherNext(s)) < PoolRank(s)
  {
    if s.disp.DWait? {
      WaitLowersRank(s);
    } else {
      var t := DispatcherNext(s);
      OwnRankLowers(s);
      assert t.ws == s.ws && t.waits == s.waits && t.addedJob == s.addedJob;
    }
  }

  lemma DispatcherKeepsClients(s: State)
    requires DispatcherEnabled(s)
    ensures ClientRank(DispatcherNext(s)) == ClientRank(s) && DispatcherNext(s).destroyer == s.destroyer
    ensures |DispatcherNext(s).ws| == |s.ws| && |DispatcherNext(s).waits| == |s.waits|
  {
    var t := DispatcherNext(s);
    assert t.budget == s.budget && t.calls == s.calls && t.waits == s.waits && |t.ws| == |s.ws|;
  }

  lemma DispatcherLowersMeasure(s: State)
    requires DispatcherEnabled(s)
    requires s.disp.CSpawn? ==> s.ws[s.currentThreads].pc.NotSpawned?
    ensures Measure(DispatcherNext(s)) < Measure(s)
  {
    DispatcherKeepsClients(s);
    if s.disp.JSignal? {
      SignalWorkerLowersRank(s, s.disp.w);
    } else if Touched(s).Some? {
      TouchLowersRank(s, Touched(s).value);
    } else {
      QuietLowersRank(s);
    }
  }

  lemma SignalLowersMeasure(s: State, d: nat)
    requires s.destroyer == XSigWorkers(d) && d < s.currentThreads && d < |s.ws|
    ensures Measure(DestroyNext(s)) < Measure(s)
  {
    SignalCostsPermit(s, d);
    var t := DestroyNext(s);
    assert t.budget == s.budget && t.calls == s.calls && t.waits == s.waits && |t.ws| == |s.ws|;
  }

  /** One signal of the destructor gives a worker one permit. */
  lemma SignalCostsPermit(s: State, d: nat)
    requires s.destroyer == XSigWorkers(d) && d < s.currentThreads && d < |s.ws|
    ensures PoolRank(DestroyNext(s)) == PoolRank(s) + PermitCost(|s.waits|)
    ensures DestroyRank(DestroyNext(s).destroyer, |s.ws|, |s.waits|)
            < DestroyRank(s.destroyer, |s.ws|, |s.waits|) - PermitCost(|s.waits|)
  {
    SumWorkersUpdate(s.ws, d, DestroyNext(s).ws[d], |s.waits|);
  }

  lemma DestroyLowersMeasure(s: State)
    requires DestroyEnabled(s) && Spawned(s) <= |s.ws|
    requires s.destroyer.XSigWorkers? ==> s.destroyer.depth >= s.currentThreads
    ensures Measure(DestroyNext(s)) < Measure(s)
  {
  }

  lemma BeginCallLowersMeasure(s: State, caller: Caller)
    requires Enabled(s, BeginCall(caller))
    ensures Measure(Next(s, BeginCall(caller))) < Measure(s)
  {
    SumCallsAppend(s.calls, Call(Started, caller), TokenCost(|s.ws|, |s.waits|));
  }

  lemma BeginLowersMeasure(s: State, a: Action)
    requires Enabled(s, a) && (a.BeginCall? || a.BeginWait? || a.BeginDestroy?)
    ensures Measure(Next(s, a)) < Measure(s)
  {
    match a {
      case BeginCall(caller) => BeginCallLowersMeasure(s, caller);
      case BeginWait(k) => SumWaitsUpdate(s.waits, k, Testing);
      case BeginDestroy =>
    }
  }

  lemma WaitLowersMeasure(s: State, k: nat)
    requires WaitEnabled(s, k)
    ensures Measure(WaitNext(s, k)) < Measure(s)
  {
    SumWaitsUpdate(s.waits, k, WaitNext(s, k).waits[k]);
  }

  lemma DestroyerLowersMeasure(s: State)
    requires Inv(s) && DestroyEnabled(s)
    ensures Measure(DestroyNext(s)) < Measure(s)
  {
    if s.destroyer.XSigWorkers? && s.destroyer.depth < s.currentThreads {
      SignalLowersMeasure(s, s.destroyer.depth);
    } else {
      DestroyLowersMeasure(s);
    }
  }

  lemma StepLowersMeasure(s: State, a: Action)
    requires Inv(s) && Enabled(s, a)
    ensures Measure(Next(s, a)) < Measure(s)
  {
    match a {
      case StepCall(j) => CallLowersMeasure(s, j);
      case StepWait(k) => WaitLowersMeasure(s, k);
      case StepDispatcher => DispatcherLowersMeasure(s);
      case StepWorker(i) => WorkerLowersMeasure(s, i);
      case StepDestroy => DestroyerLowersMeasure(s);
      case _ => BeginLowersMeasure(s, a);
    }
  }

  /** No run is longer than the measure of the state it starts in. */
  lemma {:induction false} RunsAreFinite(s: State, actions: seq<Action>, t: State)
    requires Inv(s) && Run(s, actions, t)
    ensures |actions| + Measure(t) <= Measure(s)
    decreases |actions|
  {
    if actions != [] {
      StepLowersMeasure(s, actions[0]);
      StepKeepsInv(s, actions[0]);
      RunsAreFinite(Next(s, actions[0]), actions[1..], t);
    }
  }

  /** A pool with at least one thread serves its clients completely. Whatever they do, the run is no longer than
      its first state's measure; and where the pool can do no more, every thunk has run exactly once, every
      call to schedule() and wait() has returned, and a destructor that was called has finished. */
  lemma PoolServesEveryClient(s: State, actions: seq<Action>, t: State)
    requires Init(s) && |s.ws| >= 1 && Run(s, actions, t)
    ensures |actions| <= Measure(s)
    ensures Stopped(t) ==> Complete(t) && Distinct(t.ran) && forall j :: j in t.ran <==> 0 <= j < |t.calls|
  {
    InitInv(s);
    RunsAreFinite(s, actions, t);
    RunKeepsInv(s, actions, t);
    if Stopped(t) {
      StoppedIsComplete(t);
      EveryThunkRan(t);
    }
  }

  lemma EveryThunkRan(s: State)
    requires Inv(s) && Complete(s)
    ensures Distinct(s.ran) && forall j :: j in s.ran <==> 0 <= j < |s.calls|
  {
    assert s.pushed == s.handed;
    assert forall j :: j in s.ran <==> j in s.pushed;
  }
}
