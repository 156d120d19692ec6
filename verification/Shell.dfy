/**
 * The tiny shell (assign3/tsh.c) as a labelled transition system: the read-eval loop, the SIGCHLD handler that can
 * interrupt it wherever the signal is not blocked, and the kernel's view of the children. Code that runs with
 * SIGCHLD blocked and touches nothing but the job table is one step.
 */
module Shell {
  import opened Basics
  import opened Jobs

  datatype KidRun = Running | Halted | Zombie

  /** A child that has not been reaped; `reported` says that waitpid has told of its stop. */
  datatype Kid = Kid(run: KidRun, reported: bool)

  predicate Reportable(k: Kid) { k.run.Zombie? || (k.run.Halted? && !k.reported) }

  /** What the user types, as far as eval tells it apart. fg and bg name a process or a job; the other number is 0. */
  datatype Command =
    | Launch(background: bool, line: string)
    | FgBg(fg: bool, pid: int, jid: int)
    | BadFgBg
    | ListJobs
    | BadRedirection
    | Quit

  datatype Pc =
    | Prompt
    | Entered(cmd: Command)                               // line 508: SIGCHLD has been blocked
    | Forked(pid: int, background: bool, line: string)    // line 514 to 538
    | Release(wait: Option<int>)                          // unblockSigChild is next, then waitfg or the prompt
    | Waiting(pid: int)                                   // waitfg, before sigsuspend
    | Suspended(pid: int)                                 // line 99
    | Woken(pid: int)                                     // line 101
    | Exited

  datatype Handler =
    | Idle
    | Loop                              // line 351: waitpid is next
    | Got(pid: int, stopped: bool)      // waitpid has returned a child

  datatype State = State(
    table: Table,
    kids: map<int, Kid>,
    blocked: bool,
    pending: bool,
    pc: Pc,
    handler: Handler)

  datatype Action =
    | Type(cmd: Command)
    | Step                  // the next step of the main program
    | Fork(pid: int)        // fork returns this pid to the shell
    | Deliver               // the SIGCHLD handler starts
    | Reap(pid: int)        // waitpid returns this child
    | ReapNone              // waitpid returns 0 or -1: the handler returns
    | Apply                 // the handler updates the table
    | KidExits(pid: int)
    | KidStops(pid: int)
    | KidContinues(pid: int)
    | OtherSignal           // another handler ran and returned

  predicate Init(s: State) {
    && s.table == Table(seq(MAX_JOBS, i => Clear()), 1)
    && s.kids == map[] && !s.blocked && !s.pending && s.pc.Prompt? && s.handler.Idle?
  }

  // ---------------------------------------------------------------- fg and bg

  /** The entry that fg and bg change, and the process that they continue and fg waits for (lines 229-244). */
  function FindTarget(jobs: seq<Job>, pid: int, jid: int): (r: Option<(nat, int)>)
    ensures r.Some? ==> r.value.0 < |jobs|
  {
    if pid != 0 then
      var found := JidOfPid(jobs, pid);
      if found == 0 || IndexOfJid(jobs, found, 0) == |jobs| then None else Some((IndexOfJid(jobs, found, 0), pid))
    else if jid < 1 || IndexOfJid(jobs, jid, 0) == |jobs| then None
    else Some((IndexOfJid(jobs, jid, 0), jobs[IndexOfJid(jobs, jid, 0)].pid))
  }

  /** SIGCONT to a process. */
  function Continue(s: State, pid: int): State {
    if pid in s.kids && s.kids[pid].run.Halted?
    then s.(kids := s.kids[pid := Kid(Running, false)], pending := true)
    else s
  }

  // ---------------------------------------------------------------- the main program

  predicate StepEnabled(s: State) {
    s.handler.Idle? && match s.pc
                       case Entered(Launch(_, _)) => !HasRoom(s.table.jobs)
                       case Entered(_) => true
                       case Forked(_, _, _) => true
                       case Release(_) => true
                       case Waiting(_) => true
                       case Woken(_) => true
                       case _ => false
  }

  function StepNext(s: State): State
    requires StepEnabled(s)
  {
    match s.pc
    case Entered(cmd) => Evaluate(s, cmd)
    case Forked(pid, background, line) =>
      s.(table := AddJob(s.table, pid, if background then Background else Foreground, line).0,
         pc := Release(if background then None else Some(pid)))
    case Release(wait) => s.(blocked := false, pc := if wait.Some? then Waiting(wait.value) else Prompt)
    case Waiting(pid) => s.(pc := Suspended(pid))
    case Woken(pid) => s.(pc := if pid != FGJobPid(s.table.jobs, 0) then Prompt else Waiting(pid))
  }

  /** A built-in, or a launch that finds the table full. Two of them return to the prompt with SIGCHLD still blocked
      (lines 311-314 and 510-513). */
  function Evaluate(s: State, cmd: Command): State {
    match cmd
    case Launch(_, _) => s.(pc := Prompt)
    case BadRedirection => s.(pc := Prompt)
    case Quit => s.(pc := Exited)
    case BadFgBg => s.(pc := Release(None))
    case ListJobs => s.(pc := Release(None))
    case FgBg(fg, pid, jid) =>
      match FindTarget(s.table.jobs, pid, jid)
      case None => s.(pc := Release(None))
      case Some((i, target)) =>
        Continue(s, target).(table := SetState(s.table, i, if fg then Foreground else Background),
                             pc := Release(if fg then Some(target) else None))
  }

  // ---------------------------------------------------------------- all actions

  predicate Enabled(s: State, a: Action) {
    match a
    case Type(_) => s.pc.Prompt? && s.handler.Idle?
    case Step => StepEnabled(s)
    case Fork(pid) => s.pc.Entered? && s.pc.cmd.Launch? && s.handler.Idle? && HasRoom(s.table.jobs)
                      && pid >= 1 && pid !in s.kids
    case Deliver => s.pending && s.handler.Idle? && !s.pc.Exited? && (!s.blocked || s.pc.Suspended?)
    case Reap(pid) => s.handler.Loop? && pid in s.kids && Reportable(s.kids[pid])
    case ReapNone => s.handler.Loop? && forall pid :: pid in s.kids ==> !Reportable(s.kids[pid])
    case Apply => s.handler.Got?
    case KidExits(pid) => pid in s.kids && !s.kids[pid].run.Zombie?
    case KidStops(pid) => pid in s.kids && s.kids[pid].run.Running?
    case KidContinues(pid) => pid in s.kids && s.kids[pid].run.Halted?
    case OtherSignal => s.pc.Suspended? && s.handler.Idle?
  }

  function Next(s: State, a: Action): State
    requires Enabled(s, a)
  {
    match a
    case Type(cmd) => s.(blocked := true, pc := Entered(cmd))
    case Step => StepNext(s)
    case Fork(pid) =>
      s.(kids := s.kids[pid := Kid(Running, false)], pc := Forked(pid, s.pc.cmd.background, s.pc.cmd.line))
    case Deliver => s.(pending := false, handler := Loop)
    case Reap(pid) =>
      if s.kids[pid].run.Zombie? then s.(kids := s.kids - {pid}, handler := Got(pid, false))
      else s.(kids := s.kids[pid := Kid(Halted, true)], handler := Got(pid, true))
    case ReapNone => s.(handler := Idle, pc := if s.pc.Suspended? then Woken(s.pc.pid) else s.pc)
    case Apply => ApplyNext(s)
    case KidExits(pid) => s.(kids := s.kids[pid := Kid(Zombie, false)], pending := true)
    case KidStops(pid) => s.(kids := s.kids[pid := Kid(Halted, false)], pending := true)
    case KidContinues(pid) => s.(kids := s.kids[pid := Kid(Running, false)], pending := true)
    case OtherSignal => s.(pc := Woken(s.pc.pid))
  }

  /** Lines 354-364. A stop of a process without an entry would follow a null pointer; here it changes nothing. */
  function ApplyNext(s: State): State
    requires s.handler.Got?
  {
    var pid := s.handler.pid;
    if s.handler.stopped then
      var i := IndexOfPid(s.table.jobs, pid, 0);
      s.(table := if i < |s.table.jobs| then SetState(s.table, i, Stopped) else s.table, handler := Loop)
    else s.(table := DeleteJob(s.table, pid).0, handler := Loop)
  }

  predicate Run(s: State, actions: seq<Action>)
    decreases |actions|
  {
    actions == [] || (Enabled(s, actions[0]) && Run(Next(s, actions[0]), actions[1..]))
  }

  function After(s: State, actions: seq<Action>): State
    requires Run(s, actions)
    decreases |actions|
  {
    if actions == [] then s else After(Next(s, actions[0]), actions[1..])
  }

  /** A job is about to be added while a live job has the next id. */
  predicate Clashes(s: State, a: Action) { a.Step? && s.pc.Forked? && Taken(s.table) }

  predicate NoClash(s: State, actions: seq<Action>)
    requires Run(s, actions)
    decreases |actions|
  {
    actions == [] || (!Clashes(s, actions[0]) && NoClash(Next(s, actions[0]), actions[1..]))
  }

  /** Whenever a job is added along the run, the next job id is below the limit. */
  predicate NoWrap(s: State, actions: seq<Action>)
    requires Run(s, actions)
    decreases |actions|
  {
    (s.pc.Forked? ==> s.table.nextJobID < MAX_JOB_ID)
    && (actions != [] ==> NoWrap(Next(s, actions[0]), actions[1..]))
  }
}
