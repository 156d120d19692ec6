/**
 * The lazy thread pool of assign5/thread-pool.cc as a labelled transition system.
 *
 * Every line of the source that touches shared memory, and every body that runs under one of its mutexes,
 * is one step. The dispatcher, each worker, each schedule() call, each wait() call and the destructor have
 * their own program counter. A thunk is named by the index of the schedule() call that submitted it, and
 * may itself call schedule(). `pushed`, `handed` and `ran` record the order in which thunks entered
 * the queue, were handed to a worker and were executed.
 */
module ThreadPool {
  import opened Basics
  import opened Sums

  datatype WorkerPc =
    | NotSpawned
    | WWait      // line 184: workerSemaphore.wait()
    | WCheck     // line 185: threadRun
    | WRun       // line 187: thunk()
    | WDecJobs   // line 188: decrementJobsCount()
    | WSetAvail  // line 189: available = true
    | WIncAvail  // line 190: incrementAvailableThreads()
    | WSignal    // line 191: availableThread.signal()
    | WExited

  datatype Worker = Worker(pc: WorkerPc, sem: nat, available: bool, thunk: Option<nat>)

  datatype DispatcherPc =
    | DWait                   // line 156: addedJob.wait()
    | DCheck1                 // line 157
    | DGet                    // line 163: getAvailableThreadCount()
    | DRoom                   // line 164
    | CCheck                  // line 111: createNewThread
    | CSpawn                  // line 113
    | CSignal(id: nat)        // line 119: availableThread.signal()
    | CSetAvail(id: nat)      // line 120
    | CIncCurrent(id: nat)    // line 121
    | CIncAvail               // line 122
    | DCheck2                 // line 168
    | JCurrent                // line 130: dispatchJob
    | JWait                   // line 132: availableThread.wait()
    | JCheck                  // line 133
    | JScan(depth: nat)       // lines 137-140: the scan of the worker table
    | JAssign(w: nat)         // line 141: assignJobAndDequeue
    | JClear(w: nat)          // line 142: available = false
    | JDecAvail(w: nat)       // line 143
    | JSignal(w: nat)         // line 144: workerSemaphore.signal()
    | DCheck3                 // line 173
    | DExited

  /** A schedule() call comes from outside the pool or from a thunk that worker `worker` is running. */
  datatype Caller = External | Thunk(worker: nat)

  datatype CallPc =
    | Started   // line 61: addJob
    | Added     // line 62: incrementJobsCount
    | Counted   // line 63: addedJob.signal()
    | Returned

  datatype Call = Call(pc: CallPc, caller: Caller)

  /** A wait() call: not made yet, about to test jobsCount, suspended on the condition variable, returned. */
  datatype WaitPc = NotCalled | Testing | Asleep | Awake

  datatype DestroyPc =
    | Alive
    | XTesting | XAsleep         // line 199: wait()
    | XSetRun                    // line 201: threadRun = false
    | XSigAdded                  // line 203
    | XSigAvail                  // line 204
    | XSigWorkers(depth: nat)    // lines 206-211
    | XJoinDispatcher            // line 212
    | XJoinWorkers(joined: nat)  // lines 213-215
    | Destroyed

  datatype State = State(
    threadRun: bool,
    jobsCount: int,
    currentThreads: nat,
    numAvailable: int,
    availableThread: nat,
    addedJob: nat,
    jobs: seq<nat>,
    ws: seq<Worker>,
    disp: DispatcherPc,
    calls: seq<Call>,
    waits: seq<WaitPc>,
    destroyer: DestroyPc,
    budget: nat,          // schedule() calls that are still to come
    pushed: seq<nat>,
    handed: seq<nat>,
    ran: seq<nat>)

  datatype Action =
    | BeginCall(caller: Caller)
    | StepCall(j: nat)
    | BeginWait(k: nat)
    | StepWait(k: nat)
    | StepDispatcher
    | StepWorker(i: nat)
    | BeginDestroy
    | StepDestroy

  /** The pool after its constructor has returned (lines 14-28); numThreads is the length of `ws`. The clients
      will make `budget` calls to schedule() and |waits| calls to wait(). */
  predicate Init(s: State) {
    && s.threadRun && s.destroyer.Alive?
    && s.jobsCount == 0 && s.currentThreads == 0 && s.numAvailable == 0
    && s.availableThread == 0 && s.addedJob == 0 && s.disp.DWait?
    && s.jobs == [] && s.pushed == [] && s.handed == [] && s.ran == [] && s.calls == []
    && (forall i :: 0 <= i < |s.ws| ==> s.ws[i] == Worker(NotSpawned, 0, false, None))
    && (forall k :: 0 <= k < |s.waits| ==> s.waits[k].NotCalled?)
  }

  // ---------------------------------------------------------------- schedule()

  predicate CallEnabled(s: State, j: nat) {
    j < |s.calls| && !s.calls[j].pc.Returned?
  }

  function CallNext(s: State, j: nat): State
    requires CallEnabled(s, j)
  {
    var c := s.calls[j];
    match c.pc
    case Started =>
      s.(jobs := s.jobs + [j], pushed := s.pushed + [j], calls := s.calls[j := c.(pc := Added)])
    case Added =>
      s.(jobsCount := s.jobsCount + 1, calls := s.calls[j := c.(pc := Counted)])
    case Counted =>
      s.(addedJob := s.addedJob + 1, calls := s.calls[j := c.(pc := Returned)])
  }

  /** A thunk makes its calls one at a time; no outside thread may use a pool that is being destroyed. */
  predicate BeginCallEnabled(s: State, caller: Caller) {
    && s.budget > 0
    && match caller
       case External => s.destroyer.Alive?
       case Thunk(i) => i < |s.ws| && s.ws[i].pc.WRun? && NoCallBy(s, i)
  }

  predicate NoCallBy(s: State, i: nat) {
    forall j :: 0 <= j < |s.calls| && s.calls[j].caller == Thunk(i) ==> s.calls[j].pc.Returned?
  }

  // ---------------------------------------------------------------- wait()

  predicate WaitEnabled(s: State, k: nat) {
    k < |s.waits| && s.waits[k].Testing?
  }

  function WaitNext(s: State, k: nat): State
    requires WaitEnabled(s, k)
  {
    s.(waits := s.waits[k := if s.jobsCount == 0 then Awake else Asleep])
  }

  /** cv.notify_all(): every suspended waiter tests its predicate again. */
  function NotifyAll(waits: seq<WaitPc>): (r: seq<WaitPc>)
    ensures |r| == |waits|
    ensures forall k :: 0 <= k < |r| ==> r[k] == if waits[k].Asleep? then Testing else waits[k]
  {
    seq(|waits|, k requires 0 <= k < |waits| => if waits[k].Asleep? then Testing else waits[k])
  }

  // ---------------------------------------------------------------- dispatcher()

  predicate DispatcherEnabled(s: State) {
    match s.disp
    case DWait => s.addedJob > 0
    case JWait => s.availableThread > 0
    case CSpawn => s.currentThreads < |s.ws|
    case CSetAvail(id) => id < |s.ws|
    case JAssign(w) => w < |s.ws| && s.jobs != []
    case JClear(w) => w < |s.ws|
    case JSignal(w) => w < |s.ws|
    case DExited => false
    case _ => true
  }

  function DispatcherNext(s: State): State
    requires DispatcherEnabled(s)
  {
    match s.disp
    case DWait => s.(addedJob := s.addedJob - 1, disp := DCheck1)
    case DCheck1 => s.(disp := if s.threadRun then DGet else DExited)
    case DGet => s.(disp := if s.numAvailable == 0 then DRoom else DCheck2)
    case DRoom => s.(disp := if s.currentThreads + 1 <= |s.ws| then CCheck else DCheck2)
    case CCheck => s.(disp := if s.threadRun then CSpawn else DCheck2)
    case CSpawn =>
      var id := s.currentThreads;
      s.(ws := s.ws[id := s.ws[id].(pc := WWait)], disp := CSignal(id))
    case CSignal(id) => s.(availableThread := s.availableThread + 1, disp := CSetAvail(id))
    case CSetAvail(id) => s.(ws := s.ws[id := s.ws[id].(available := true)], disp := CIncCurrent(id))
    case CIncCurrent(id) => s.(currentThreads := s.currentThreads + 1, disp := CIncAvail)
    case CIncAvail => s.(numAvailable := s.numAvailable + 1, disp := DCheck2)
    case DCheck2 => s.(disp := if s.threadRun then JCurrent else DExited)
    case JCurrent => s.(disp := if s.currentThreads == 0 then DCheck3 else JWait)
    case JWait => s.(availableThread := s.availableThread - 1, disp := JCheck)
    case JCheck => s.(disp := if s.threadRun then JScan(0) else DCheck3)
    case JScan(d) =>
      if d >= |s.ws| || d >= s.currentThreads then s.(disp := DCheck3)
      else if s.ws[d].available then s.(disp := JAssign(d))
      else s.(disp := JScan(d + 1))
    case JAssign(w) =>
      s.(ws := s.ws[w := s.ws[w].(thunk := Some(s.jobs[0]))], jobs := s.jobs[1..],
         handed := s.handed + [s.jobs[0]], disp := JClear(w))
    case JClear(w) => s.(ws := s.ws[w := s.ws[w].(available := false)], disp := JDecAvail(w))
    case JDecAvail(w) => s.(numAvailable := s.numAvailable - 1, disp := JSignal(w))
    case JSignal(w) => s.(ws := s.ws[w := s.ws[w].(sem := s.ws[w].sem + 1)], disp := DCheck3)
    case DCheck3 => s.(disp := if s.threadRun then DWait else DExited)
  }

  // ---------------------------------------------------------------- worker()

  predicate WorkerEnabled(s: State, i: nat) {
    && i < |s.ws|
    && match s.ws[i].pc
       case NotSpawned => false
       case WWait => s.ws[i].sem > 0
       case WRun => s.ws[i].thunk.Some? && NoCallBy(s, i)
       case WExited => false
       case _ => true
  }

  function WorkerNext(s: State, i: nat): State
    requires WorkerEnabled(s, i)
  {
    var w := s.ws[i];
    match w.pc
    case WWait => s.(ws := s.ws[i := w.(sem := w.sem - 1, pc := WCheck)])
    case WCheck => s.(ws := s.ws[i := w.(pc := if s.threadRun then WRun else WExited)])
    case WRun => s.(ws := s.ws[i := w.(pc := WDecJobs)], ran := s.ran + [w.thunk.value])
    case WDecJobs =>
      var zero := s.jobsCount - 1 == 0;
      s.(ws := s.ws[i := w.(pc := WSetAvail)], jobsCount := s.jobsCount - 1,
         waits := if zero then NotifyAll(s.waits) else s.waits,
         destroyer := if zero && s.destroyer.XAsleep? then XTesting else s.destroyer)
    case WSetAvail => s.(ws := s.ws[i := w.(pc := WIncAvail, available := true)])
    case WIncAvail => s.(ws := s.ws[i := w.(pc := WSignal)], numAvailable := s.numAvailable + 1)
    case WSignal => s.(ws := s.ws[i := w.(pc := WWait)], availableThread := s.availableThread + 1)
  }

  // ---------------------------------------------------------------- ~ThreadPool()

  predicate DestroyEnabled(s: State) {
    match s.destroyer
    case Alive => false
    case XAsleep => false
    case XSigWorkers(d) => d >= s.currentThreads || d < |s.ws|
    case XJoinDispatcher => s.disp.DExited?
    case XJoinWorkers(k) => k >= Spawned(s) || (k < |s.ws| && s.ws[k].pc.WExited?)
    case Destroyed => false
    case _ => true
  }

  function DestroyNext(s: State): State
    requires DestroyEnabled(s)
  {
    match s.destroyer
    case XTesting => s.(destroyer := if s.jobsCount == 0 then XSetRun else XAsleep)
    case XSetRun => s.(threadRun := false, destroyer := XSigAdded)
    case XSigAdded => s.(addedJob := s.addedJob + 1, destroyer := XSigAvail)
    case XSigAvail => s.(availableThread := s.availableThread + 1, destroyer := XSigWorkers(0))
    case XSigWorkers(d) =>
      if d >= s.currentThreads || d >= |s.ws| then s.(destroyer := XJoinDispatcher)
      else s.(ws := s.ws[d := s.ws[d].(sem := s.ws[d].sem + 1)], destroyer := XSigWorkers(d + 1))
    case XJoinDispatcher => s.(destroyer := XJoinWorkers(0))
    case XJoinWorkers(k) => s.(destroyer := if k >= Spawned(s) then Destroyed else XJoinWorkers(k + 1))
  }

  /** The number of threads in `wts`. */
  function Spawned(s: State): nat {
    s.currentThreads + if s.disp.CSignal? || s.disp.CSetAvail? || s.disp.CIncCurrent? then 1 else 0
  }

  predicate ExternalQuiet(s: State) {
    forall j :: 0 <= j < |s.calls| && s.calls[j].caller.External? ==> s.calls[j].pc.Returned?
  }

  // ---------------------------------------------------------------- the transition system

  predicate Enabled(s: State, a: Action) {
    match a
    case BeginCall(caller) => BeginCallEnabled(s, caller)
    case StepCall(j) => CallEnabled(s, j)
    case BeginWait(k) => k < |s.waits| && s.waits[k].NotCalled?
    case StepWait(k) => WaitEnabled(s, k)
    case StepDispatcher => DispatcherEnabled(s)
    case StepWorker(i) => WorkerEnabled(s, i)
    case BeginDestroy => s.destroyer.Alive? && ExternalQuiet(s)
    case StepDestroy => DestroyEnabled(s)
  }

  function Next(s: State, a: Action): State
    requires Enabled(s, a)
  {
    match a
    case BeginCall(caller) => s.(budget := s.budget - 1, calls := s.calls + [Call(Started, caller)])
    case StepCall(j) => CallNext(s, j)
    case BeginWait(k) => s.(waits := s.waits[k := Testing])
    case StepWait(k) => WaitNext(s, k)
    case StepDispatcher => DispatcherNext(s)
    case StepWorker(i) => WorkerNext(s, i)
    case BeginDestroy => s.(destroyer := XTesting)
    case StepDestroy => DestroyNext(s)
  }

  /** Steps that the pool itself or a call already made must take; the others are the clients' choice. */
  predicate Internal(a: Action) {
    a.StepCall? || a.StepWait? || a.StepDispatcher? || a.StepWorker? || a.StepDestroy?
  }

  /** `actions` is a run from `s` to `t`. */
  predicate Run(s: State, actions: seq<Action>, t: State)
    decreases |actions|
  {
    if actions == [] then s == t
    else Enabled(s, actions[0]) && Run(Next(s, actions[0]), actions[1..], t)
  }
}
