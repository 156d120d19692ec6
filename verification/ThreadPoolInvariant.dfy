/**
 * The invariant of the thread pool: who owns `available` and `thunk` at each point, what the two counting
 * semaphores and the two counters stand for, and that every step keeps all of it.
 */
module ThreadPoolInvariant {
  import opened Basics
  import opened Sums
  import opened ThreadPool

  // ---------------------------------------------------------------- what each thread holds

  /** The dispatcher has taken an `availableThread` permit whose flag it has not cleared yet. */
  function PermitHeld(d: DispatcherPc): int {
    if d.JCheck? || d.JScan? || d.JAssign? || d.JClear? then 1 else 0
  }

  /** The dispatcher has taken an `addedJob` permit whose thunk it has not dequeued yet. */
  function TokenHeld(d: DispatcherPc): int {
    if d.DWait? || d.DCheck3? || d.DExited? || d.JClear? || d.JDecAvail? || d.JSignal? then 0 else 1
  }

  /** The worker whose thunk the dispatcher has set and whose semaphore it has not signalled yet. */
  function Target(d: DispatcherPc): Option<nat> {
    match d
    case JClear(w) => Some(w)
    case JDecAvail(w) => Some(w)
    case JSignal(w) => Some(w)
    case _ => None
  }

  function One(b: bool): int { if b then 1 else 0 }

  function Flag(w: Worker): int { One(w.available) }

  /** The worker has set `available` but has not signalled `availableThread`. */
  function Unsignalled(w: Worker): int { One(w.pc.WIncAvail? || w.pc.WSignal?) }

  function Uncounted(w: Worker): int { One(w.pc.WIncAvail?) }

  /** A thunk that was handed to the worker and that it has not executed. */
  function Unrun(w: Worker): int { w.sem + One(w.pc.WCheck? || w.pc.WRun?) }

  /** A thunk that was handed to the worker and that jobsCount still includes. */
  function Unfinished(w: Worker): int { w.sem + One(w.pc.WCheck? || w.pc.WRun? || w.pc.WDecJobs?) }

  function InWindow(c: Call): int { One(c.pc.Added?) }

  function BeforeSignal(c: Call): int { One(c.pc.Counted?) }

  function Half(c: Call): int { One(c.pc.Added? || c.pc.Counted?) }

  predicate Receptive(pc: WorkerPc) { pc.WWait? || pc.WIncAvail? || pc.WSignal? }

  /** Worker `i` owns a thunk that it still has to execute. */
  ghost predicate Loaded(s: State, i: nat)
    requires i < |s.ws|
  {
    Unrun(s.ws[i]) > 0 || Target(s.disp) == Some(i)
  }

  // ---------------------------------------------------------------- clauses that hold while threadRun does

  /** Points of the dispatcher at which at least one worker exists. */
  ghost predicate SomeWorker(d: DispatcherPc) {
    d.CIncAvail? || d.DCheck2? || d.JCurrent? || d.JWait? || d.JCheck? || d.JScan?
  }

  /** The program counters agree with the table of workers. */
  ghost predicate Shape(s: State) {
    && |s.ws| >= 1
    && s.currentThreads <= |s.ws|
    && !s.disp.DExited?
    && (s.disp.CCheck? || s.disp.CSpawn? ==> s.currentThreads < |s.ws|)
    && (s.disp.CSignal? || s.disp.CSetAvail? || s.disp.CIncCurrent? ==> s.disp.id == s.currentThreads < |s.ws|)
    && (SomeWorker(s.disp) ==> s.currentThreads >= 1)
    && (s.disp.JScan? ==> exists i :: s.disp.depth <= i < s.currentThreads && s.ws[i].available)
    && (s.disp.JAssign? ==> s.disp.w < s.currentThreads && s.ws[s.disp.w].available)
    && (Target(s.disp).Some? ==> Target(s.disp).value < s.currentThreads)
    && (forall i :: 0 <= i < |s.ws| ==> (s.ws[i].pc.NotSpawned? <==> i >= Spawned(s)))
  }

  /** Who owns the flag, the semaphore and the thunk of worker `i`. */
  ghost predicate WorkerOk(s: State, i: nat)
    requires i < |s.ws|
  {
    var w := s.ws[i];
    && !w.pc.WExited?
    && (Receptive(w.pc) ==>
          if Target(s.disp) == Some(i) then w.sem == 0 && (w.available <==> s.disp.JClear?)
          else if s.disp == CSignal(i) || s.disp == CSetAvail(i) then w.sem == 0 && !w.available && w.pc.WWait?
          else w.sem == One(!w.available))
    && (!Receptive(w.pc) ==>
          && w.sem == 0 && !w.available
          && Target(s.disp) != Some(i) && s.disp != CSignal(i) && s.disp != CSetAvail(i))
  }

  /** What `availableThread` and `numAvailableThreads` stand for. */
  ghost predicate PermitAccounts(s: State) {
    && s.availableThread + PermitHeld(s.disp) + Sum(Unsignalled, s.ws)
       == Sum(Flag, s.ws) + One(s.disp.CSetAvail?)
    && (s.disp.CSetAvail? || s.disp.CIncCurrent? || s.disp.CIncAvail? ==> s.availableThread >= 1)
    && s.numAvailable
       == Sum(Flag, s.ws) - Sum(Uncounted, s.ws) + One(s.disp.JDecAvail?)
          - One(s.disp.CIncCurrent? || s.disp.CIncAvail?)
  }

  /** What `addedJob` and `jobsCount` stand for. */
  ghost predicate JobAccounts(s: State) {
    && |s.jobs| == s.addedJob + TokenHeld(s.disp) + Sum(Half, s.calls)
    && s.jobsCount
       == Sum(Unfinished, s.ws) + One(Target(s.disp).Some?) + s.addedJob + TokenHeld(s.disp)
          + Sum(BeforeSignal, s.calls)
    && |s.handed| == |s.ran| + Sum(Unrun, s.ws) + One(Target(s.disp).Some?)
  }

  // ---------------------------------------------------------------- clauses that always hold

  ghost predicate Distinct(xs: seq<nat>) {
    forall i, k :: 0 <= i < k < |xs| ==> xs[i] != xs[k]
  }

  /** The queue holds what was pushed and not yet handed out, in the same order; calls push once. */
  ghost predicate QueueOk(s: State) {
    && s.pushed == s.handed + s.jobs
    && Distinct(s.pushed)
    && (forall j :: j in s.pushed <==> 0 <= j < |s.calls| && !s.calls[j].pc.Started?)
  }

  /** A thunk that left the queue has run, or waits with exactly one worker. */
  ghost predicate ThunksOk(s: State) {
    && Distinct(s.ran)
    && (forall j :: j in s.ran ==> j in s.handed)
    && (forall i :: 0 <= i < |s.ws| && Loaded(s, i) ==>
          s.ws[i].thunk.Some? && s.ws[i].thunk.value in s.handed && s.ws[i].thunk.value !in s.ran)
    && (forall i, k :: 0 <= i < k < |s.ws| && Loaded(s, i) && Loaded(s, k) ==> s.ws[i].thunk != s.ws[k].thunk)
    && (forall j :: j in s.handed && j !in s.ran ==>
          exists i :: 0 <= i < |s.ws| && Loaded(s, i) && s.ws[i].thunk == Some(j))
  }

  /** A call in progress made by a thunk keeps its worker inside that thunk; none other outlives destruction. */
  ghost predicate CallsOk(s: State) {
    && (forall j :: 0 <= j < |s.calls| && s.calls[j].caller.Thunk? && !s.calls[j].pc.Returned? ==>
          s.calls[j].caller.worker < |s.ws| && s.ws[s.calls[j].caller.worker].pc.WRun?)
    && (!s.destroyer.Alive? ==> ExternalQuiet(s))
  }

  /** Nobody sleeps on a predicate that holds. */
  ghost predicate WaitsOk(s: State) {
    && ((exists k :: 0 <= k < |s.waits| && s.waits[k].Asleep?) || s.destroyer.XAsleep? ==> s.jobsCount > 0)
    && (s.destroyer.XSetRun? ==> s.jobsCount == 0)
  }

  // ---------------------------------------------------------------- shutting down

  ghost predicate DispatcherSignalled(s: State) { !s.destroyer.XSigAdded? }

  ghost predicate WorkerSignalled(s: State, i: nat) {
    match s.destroyer
    case XSigWorkers(d) => i < d
    case XSigAdded => false
    case XSigAvail => false
    case _ => true
  }

  ghost predicate ShuttingDown(x: DestroyPc) {
    x.XSigAdded? || x.XSigAvail? || x.XSigWorkers? || x.XJoinDispatcher? || x.XJoinWorkers? || x.Destroyed?
  }

  ghost predicate Quiescent(s: State) {
    && |s.ws| >= 1
    && s.currentThreads <= |s.ws|
    && (forall j :: 0 <= j < |s.calls| ==> s.calls[j].pc.Returned?)
    && s.jobs == [] && s.jobsCount == 0
    && Distinct(s.ran)
    && (forall j :: j in s.handed <==> j in s.ran)
    && (s.disp.DWait? || s.disp.DCheck1? || s.disp.DCheck3? || s.disp.DExited?)
    && (forall i :: 0 <= i < |s.ws| ==> (s.ws[i].pc.NotSpawned? <==> i >= s.currentThreads))
  }

  ghost predicate ShutdownOk(s: State) {
    && ShuttingDown(s.destroyer)
    && Quiescent(s)
    && (s.disp.DWait? || s.disp.DCheck3? ==> s.addedJob == One(DispatcherSignalled(s)))
    && (s.disp.DCheck1? ==> DispatcherSignalled(s))
    && (forall i :: 0 <= i < s.currentThreads ==>
          if s.ws[i].pc.WCheck? || s.ws[i].pc.WExited? then s.ws[i].sem == 0 && WorkerSignalled(s, i)
          else s.ws[i].sem == One(WorkerSignalled(s, i))
               && (Receptive(s.ws[i].pc) || s.ws[i].pc.WSetAvail?))
    && (s.destroyer.XJoinWorkers? || s.destroyer.Destroyed? ==> s.disp.DExited?)
    && (s.destroyer.XJoinWorkers? ==>
          forall i :: 0 <= i < s.destroyer.joined && i < s.currentThreads ==> s.ws[i].pc.WExited?)
    && (s.destroyer.Destroyed? ==> forall i :: 0 <= i < s.currentThreads ==> s.ws[i].pc.WExited?)
  }

  ghost predicate RunningOk(s: State) {
    && !ShuttingDown(s.destroyer)
    && Shape(s)
    && (forall i :: 0 <= i < |s.ws| ==> WorkerOk(s, i))
    && PermitAccounts(s)
    && JobAccounts(s)
  }

  ghost predicate Inv(s: State) {
    && QueueOk(s)
    && CallsOk(s)
    && WaitsOk(s)
    && if s.threadRun then RunningOk(s) && ThunksOk(s) else ShutdownOk(s)
  }

  // ---------------------------------------------------------------- arithmetic over the table

  /** The change that replacing worker `i` makes in every sum over the table. */
  lemma PermitSums(ws: seq<Worker>, i: nat, w: Worker)
    requires i < |ws|
    ensures Sum(Flag, ws[i := w]) == Sum(Flag, ws) - Flag(ws[i]) + Flag(w)
    ensures Sum(Unsignalled, ws[i := w]) == Sum(Unsignalled, ws) - Unsignalled(ws[i]) + Unsignalled(w)
    ensures Sum(Uncounted, ws[i := w]) == Sum(Uncounted, ws) - Uncounted(ws[i]) + Uncounted(w)
  {
    SumUpdate(Flag, ws, i, w);
    SumUpdate(Unsignalled, ws, i, w);
    SumUpdate(Uncounted, ws, i, w);
  }

  lemma JobSums(ws: seq<Worker>, i: nat, w: Worker)
    requires i < |ws|
    ensures Sum(Unrun, ws[i := w]) == Sum(Unrun, ws) - Unrun(ws[i]) + Unrun(w)
    ensures Sum(Unfinished, ws[i := w]) == Sum(Unfinished, ws) - Unfinished(ws[i]) + Unfinished(w)
  {
    SumUpdate(Unrun, ws, i, w);
    SumUpdate(Unfinished, ws, i, w);
  }

  lemma CallSums(calls: seq<Call>, j: nat, c: Call)
    requires j < |calls|
    ensures Sum(Half, calls[j := c]) == Sum(Half, calls) - Half(calls[j]) + Half(c)
    ensures Sum(BeforeSignal, calls[j := c]) == Sum(BeforeSignal, calls) - BeforeSignal(calls[j]) + BeforeSignal(c)
  {
    SumUpdate(Half, calls, j, c);
    SumUpdate(BeforeSignal, calls, j, c);
  }

  /** All sums over the table are non-negative and bound their terms. */
  lemma TableTerms(s: State)
    ensures forall i :: 0 <= i < |s.ws| ==>
              && Flag(s.ws[i]) <= Sum(Flag, s.ws)
              && Unsignalled(s.ws[i]) <= Sum(Unsignalled, s.ws)
              && Unfinished(s.ws[i]) <= Sum(Unfinished, s.ws)
              && Unrun(s.ws[i]) <= Sum(Unrun, s.ws)
    ensures forall j :: 0 <= j < |s.calls| ==>
              && Half(s.calls[j]) <= Sum(Half, s.calls)
              && BeforeSignal(s.calls[j]) <= Sum(BeforeSignal, s.calls)
    ensures Sum(Flag, s.ws) >= 0 && Sum(Unsignalled, s.ws) >= 0 && Sum(Uncounted, s.ws) >= 0
    ensures Sum(Unfinished, s.ws) >= 0 && Sum(Unrun, s.ws) >= 0
    ensures Sum(Half, s.calls) >= 0 && Sum(BeforeSignal, s.calls) >= 0
  {
    SumTerm(Flag, s.ws);
    SumTerm(Unsignalled, s.ws);
    SumTerm(Uncounted, s.ws);
    SumTerm(Unfinished, s.ws);
    SumTerm(Unrun, s.ws);
    SumTerm(Half, s.calls);
    SumTerm(BeforeSignal, s.calls);
  }

  lemma {:induction false} UncountedAtMostUnsignalled(ws: seq<Worker>)
    ensures Sum(Uncounted, ws) <= Sum(Unsignalled, ws)
  {
    if ws != [] {
      UncountedAtMostUnsignalled(ws[1..]);
    }
  }
}
