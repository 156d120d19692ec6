/** What every run of the shell keeps, and what follows for the handler, the prompt and waitfg. */
module ShellSafety {
  import opened Basics
  import opened Jobs
  import opened Shell

  // ---------------------------------------------------------------- processes and entries

  /** The process between fork and addJob, which has no entry yet. */
  function Unlisted(pc: Pc): set<int> { if pc.Forked? then {pc.pid} else {} }

  /** The process that the handler has reaped and not yet deleted. */
  function Reaped(h: Handler): set<int> { if h.Got? && !h.stopped then {h.pid} else {} }

  /** Where the main program can be interrupted by the handler. */
  predicate Interruptible(pc: Pc) { pc.Prompt? || pc.Waiting? || pc.Suspended? || pc.Woken? }

  predicate PositiveJids(t: Table) {
    t.nextJobID >= 1 && forall i :: 0 <= i < |t.jobs| && Live(t.jobs[i]) ==> t.jobs[i].jid >= 1
  }

  /** The entries of the table are the children, but for the windows after fork and after waitpid. */
  ghost predicate TableOk(s: State) {
    && PidsOk(s.table.jobs) && PositiveJids(s.table)
    && (forall pid :: pid in s.kids ==> pid >= 1)
    && Pids(s.table.jobs) == (s.kids.Keys - Unlisted(s.pc)) + Reaped(s.handler)
  }

  ghost predicate ControlOk(s: State) {
    && (s.handler.Got? ==> s.handler.pid >= 1 && (s.handler.stopped <==> s.handler.pid in s.kids))
    && (s.pc.Forked? ==> s.pc.pid in s.kids && HasRoom(s.table.jobs))
    && (s.pc.Entered? || s.pc.Forked? || s.pc.Release? ==> s.blocked)
    && (s.pc.Waiting? || s.pc.Suspended? || s.pc.Woken? ==> !s.blocked)
    && (!s.handler.Idle? ==> Interruptible(s.pc))
  }

  ghost predicate PidInv(s: State) { TableOk(s) && ControlOk(s) }

  lemma InitPids(s: State)
    requires Init(s)
    ensures PidInv(s)
  {
  }

  lemma TargetIsLive(jobs: seq<Job>, pid: int, jid: int)
    requires PidsOk(jobs) && FindTarget(jobs, pid, jid).Some?
    requires forall i :: 0 <= i < |jobs| && Live(jobs[i]) ==> jobs[i].jid >= 1
    ensures var (i, target) := FindTarget(jobs, pid, jid).value; Live(jobs[i]) && target in Pids(jobs)
  {
    IndexOfPidIsFirst(jobs, pid, 0);
    IndexOfJidIsFirst(jobs, jid, 0);
    IndexOfJidIsFirst(jobs, JidOfPid(jobs, pid), 0);
  }

  lemma AddKeepsPositive(t: Table, pid: int, state: JobState, line: string)
    requires PidsOk(t.jobs) && PositiveJids(t)
    ensures PositiveJids(AddJob(t, pid, state, line).0)
  {
  }

  lemma DeleteKeepsPositive(t: Table, pid: int)
    requires PidsOk(t.jobs) && PositiveJids(t)
    ensures PositiveJids(DeleteJob(t, pid).0)
  {
    if pid >= 1 && IndexOfPid(t.jobs, pid, 0) < |t.jobs| {
      var jobs := DeleteJob(t, pid).0.jobs;
      MaxJidIsMax(jobs, |jobs|);
    }
  }

  lemma FgBgKeepsPids(s: State, fg: bool, pid: int, jid: int)
    requires PidInv(s) && s.pc == Entered(FgBg(fg, pid, jid)) && s.handler.Idle?
    ensures PidInv(Evaluate(s, s.pc.cmd))
  {
    if FindTarget(s.table.jobs, pid, jid).Some? {
      var (i, target) := FindTarget(s.table.jobs, pid, jid).value;
      TargetIsLive(s.table.jobs, pid, jid);
      SetStateKeepsPids(s.table, i, if fg then Foreground else Background);
      assert Continue(s, target).kids.Keys == s.kids.Keys;
    }
  }

  lemma AddStepKeepsPids(s: State)
    requires PidInv(s) && s.pc.Forked? && s.handler.Idle?
    ensures PidInv(StepNext(s))
  {
    var state := if s.pc.background then Background else Foreground;
    AddKeepsPids(s.table, s.pc.pid, state, s.pc.line);
    AddKeepsPositive(s.table, s.pc.pid, state, s.pc.line);
  }

  lemma MainStepKeepsPids(s: State)
    requires PidInv(s) && StepEnabled(s)
    ensures PidInv(StepNext(s))
  {
    match s.pc
    case Forked(_, _, _) => AddStepKeepsPids(s);
    case Entered(FgBg(fg, pid, jid)) => FgBgKeepsPids(s, fg, pid, jid);
    case _ =>
  }

  lemma StopKeepsPids(s: State)
    requires PidInv(s) && s.handler.Got? && s.handler.stopped
    ensures PidInv(ApplyNext(s))
  {
    PidIsFound(s.table.jobs, s.handler.pid);
    IndexOfPidIsFirst(s.table.jobs, s.handler.pid, 0);
    SetStateKeepsPids(s.table, IndexOfPid(s.table.jobs, s.handler.pid, 0), Stopped);
  }

  lemma ApplyKeepsPids(s: State)
    requires PidInv(s) && s.handler.Got?
    ensures PidInv(ApplyNext(s))
  {
    if s.handler.stopped {
      StopKeepsPids(s);
    } else {
      DeleteKeepsPids(s.table, s.handler.pid);
      DeleteKeepsPositive(s.table, s.handler.pid);
    }
  }

  lemma ForkKeepsPids(s: State, pid: int)
    requires PidInv(s) && Enabled(s, Fork(pid))
    ensures PidInv(Next(s, Fork(pid)))
  {
    assert Next(s, Fork(pid)).kids.Keys - {pid} == s.kids.Keys;
  }

  lemma ReapKeepsPids(s: State, pid: int)
    requires PidInv(s) && Enabled(s, Reap(pid))
    ensures PidInv(Next(s, Reap(pid)))
  {
    if s.kids[pid].run.Zombie? {
      assert Next(s, Reap(pid)).kids.Keys + {pid} == s.kids.Keys;
    } else {
      assert Next(s, Reap(pid)).kids.Keys == s.kids.Keys;
    }
  }

  lemma KernelKeepsPids(s: State, a: Action)
    requires PidInv(s) && Enabled(s, a) && (a.KidExits? || a.KidStops? || a.KidContinues?)
    ensures PidInv(Next(s, a))
  {
    assert Next(s, a).kids.Keys == s.kids.Keys;
  }

  lemma StepKeepsPids(s: State, a: Action)
    requires PidInv(s) && Enabled(s, a)
    ensures PidInv(Next(s, a))
  {
    match a
    case Step => MainStepKeepsPids(s);
    case Fork(pid) => ForkKeepsPids(s, pid);
    case Reap(pid) => ReapKeepsPids(s, pid);
    case Apply => ApplyKeepsPids(s);
    case KidExits(_) => KernelKeepsPids(s, a);
    case KidStops(_) => KernelKeepsPids(s, a);
    case KidContinues(_) => KernelKeepsPids(s, a);
    case _ =>
  }

  /** With SIGCHLD arriving at any unblocked point, over any run. */
  lemma {:induction false} RunKeepsPids(s: State, actions: seq<Action>)
    requires PidInv(s) && Run(s, actions)
    ensures PidInv(After(s, actions))
    decreases |actions|
  {
    if actions != [] {
      StepKeepsPids(s, actions[0]);
      RunKeepsPids(Next(s, actions[0]), actions[1..]);
    }
  }

  /** In every reachable state: outside the window between fork and addJob, in which the handler cannot run, and that
      between waitpid and deleteJob, the entries of the table are exactly the unreaped children; the handler finds
      the entry that it looks for, so it never follows a null pointer; and addJob, once checked, finds room. */
  lemma TableMatchesChildren(s: State, actions: seq<Action>)
    requires Init(s) && Run(s, actions)
    ensures var t := After(s, actions);
            && (!t.pc.Forked? && !(t.handler.Got? && !t.handler.stopped) ==> Pids(t.table.jobs) == t.kids.Keys)
            && (t.pc.Forked? ==> t.blocked && t.handler.Idle? && Pids(t.table.jobs) + {t.pc.pid} == t.kids.Keys
                                 && t.pc.pid !in Pids(t.table.jobs)
                                 && AddJob(t.table, t.pc.pid, Foreground, t.pc.line).1)
            && (t.handler.Got? ==> IndexOfPid(t.table.jobs, t.handler.pid, 0) < |t.table.jobs|)
            && PidsOk(t.table.jobs)
  {
    InitPids(s);
    RunKeepsPids(s, actions);
    var t := After(s, actions);
    if t.handler.Got? {
      PidIsFound(t.table.jobs, t.handler.pid);
    }
  }

  // ---------------------------------------------------------------- the foreground job

  /** The process that the main program waits for, or is about to. */
  function Awaited(pc: Pc): Option<int> {
    match pc
    case Release(wait) => wait
    case Waiting(pid) => Some(pid)
    case Suspended(pid) => Some(pid)
    case Woken(pid) => Some(pid)
    case _ => None
  }

  /** Job ids are distinct, and only the process that the main program waits for may be in the foreground. */
  ghost predicate JobInv(s: State) {
    && JidsDistinct(s.table.jobs)
    && forall i :: 0 <= i < |s.table.jobs| && s.table.jobs[i].state.Foreground? ==>
         Awaited(s.pc) == Some(s.table.jobs[i].pid)
  }

  lemma InitJobs(s: State)
    requires Init(s)
    ensures JobInv(s) && JidsOk(s.table)
  {
  }

  /** With distinct job ids, the entry found is that of the process waited for. */
  lemma TargetMatches(jobs: seq<Job>, pid: int, jid: int)
    requires PidsOk(jobs) && JidsDistinct(jobs) && FindTarget(jobs, pid, jid).Some?
    ensures var (i, target) := FindTarget(jobs, pid, jid).value; jobs[i].pid == target && Live(jobs[i])
  {
    IndexOfPidIsFirst(jobs, pid, 0);
    IndexOfJidIsFirst(jobs, jid, 0);
    IndexOfJidIsFirst(jobs, JidOfPid(jobs, pid), 0);
  }

  lemma {:induction false} FGJobPidMeaning(jobs: seq<Job>, i: nat)
    requires i <= |jobs|
    ensures FGJobPid(jobs, i) != 0 ==> exists k :: i <= k < |jobs| && jobs[k].state.Foreground?
                                                   && jobs[k].pid == FGJobPid(jobs, i)
    ensures FGJobPid(jobs, i) == 0 ==> forall k :: i <= k < |jobs| && jobs[k].state.Foreground? ==>
                                         exists j :: i <= j < |jobs| && jobs[j].state.Foreground? && jobs[j].pid == 0
    decreases |jobs| - i
  {
    if i < |jobs| && !jobs[i].state.Foreground? {
      FGJobPidMeaning(jobs, i + 1);
    }
  }

  lemma FgBgKeepsJobs(s: State, fg: bool, pid: int, jid: int)
    requires PidInv(s) && JobInv(s) && s.pc == Entered(FgBg(fg, pid, jid)) && s.handler.Idle?
    ensures JobInv(Evaluate(s, s.pc.cmd))
  {
    if FindTarget(s.table.jobs, pid, jid).Some? {
      TargetMatches(s.table.jobs, pid, jid);
    }
  }

  lemma AddStepKeepsJobs(s: State)
    requires PidInv(s) && JobInv(s) && s.pc.Forked? && s.handler.Idle? && !Taken(s.table)
    ensures JobInv(StepNext(s))
  {
    var state := if s.pc.background then Background else Foreground;
    AddKeepsDistinct(s.table, s.pc.pid, state, s.pc.line);
  }

  lemma WokenKeepsJobs(s: State)
    requires PidInv(s) && JobInv(s) && s.pc.Woken? && s.handler.Idle?
    ensures JobInv(StepNext(s))
  {
    FGJobPidMeaning(s.table.jobs, 0);
  }

  lemma ApplyKeepsJobs(s: State)
    requires PidInv(s) && JobInv(s) && s.handler.Got?
    ensures JobInv(ApplyNext(s))
  {
    if !s.handler.stopped {
      DeleteKeepsDistinct(s.table, s.handler.pid);
    }
  }

  lemma StepKeepsJobs(s: State, a: Action)
    requires PidInv(s) && JobInv(s) && Enabled(s, a) && !Clashes(s, a)
    ensures JobInv(Next(s, a))
  {
    match a
    case Step =>
      match s.pc {
        case Forked(_, _, _) => AddStepKeepsJobs(s);
        case Woken(_) => WokenKeepsJobs(s);
        case Entered(FgBg(fg, pid, jid)) => FgBgKeepsJobs(s, fg, pid, jid);
        case _ =>
      }
    case Apply => ApplyKeepsJobs(s);
    case _ =>
  }

  lemma {:induction false} RunKeepsJobs(s: State, actions: seq<Action>)
    requires PidInv(s) && JobInv(s) && Run(s, actions) && NoClash(s, actions)
    ensures JobInv(After(s, actions))
    decreases |actions|
  {
    if actions != [] {
      StepKeepsPids(s, actions[0]);
      StepKeepsJobs(s, actions[0]);
      RunKeepsJobs(Next(s, actions[0]), actions[1..]);
    }
  }

  /** As long as no job is given an id that a live job has: live job ids are distinct, at most one job is in the
      foreground, none is while the prompt waits, and waitfg returns only when its process is not. */
  lemma JobsInOrder(s: State, actions: seq<Action>)
    requires Init(s) && Run(s, actions) && NoClash(s, actions)
    ensures var t := After(s, actions);
            && JidsDistinct(t.table.jobs)
            && (forall i, k :: 0 <= i < k < |t.table.jobs| ==>
                  !(t.table.jobs[i].state.Foreground? && t.table.jobs[k].state.Foreground?))
            && (t.pc.Prompt? ==> forall i :: 0 <= i < |t.table.jobs| ==> !t.table.jobs[i].state.Foreground?)
  {
    InitPids(s);
    InitJobs(s);
    RunKeepsPids(s, actions);
    RunKeepsJobs(s, actions);
    var t := After(s, actions);
    forall i, k | 0 <= i < k < |t.table.jobs|
      ensures !(t.table.jobs[i].state.Foreground? && t.table.jobs[k].state.Foreground?)
    {
      assert Live(t.table.jobs[i]) ==> t.table.jobs[i].pid != t.table.jobs[k].pid;
    }
  }

  // ---------------------------------------------------------------- stopped children, and fg and bg

  predicate EntryIn(jobs: seq<Job>, pid: int, state: JobState) {
    exists i :: 0 <= i < |jobs| && jobs[i].pid == pid && jobs[i].state == state
  }

  /** A stop that waitpid has reported, and that the handler has dealt with. */
  predicate KnownToBeStopped(s: State, pid: int) {
    pid in s.kids && s.kids[pid] == Kid(Halted, true) && s.handler != Got(pid, true)
  }

  /** Every such child has an entry that says so. */
  ghost predicate StopInv(s: State) {
    forall pid :: KnownToBeStopped(s, pid) ==> EntryIn(s.table.jobs, pid, Stopped)
  }

  lemma EntryKept(jobs: seq<Job>, jobs': seq<Job>, i: nat, pid: int, state: JobState)
    requires EntryIn(jobs, pid, state) && i < |jobs| == |jobs'| && jobs[i].pid != pid && jobs' == jobs[i := jobs'[i]]
    ensures EntryIn(jobs', pid, state)
  {
    var k :| 0 <= k < |jobs| && jobs[k].pid == pid && jobs[k].state == state;
    assert jobs'[k] == jobs[k];
  }

  lemma AddKeepsStops(s: State)
    requires PidInv(s) && StopInv(s) && s.pc.Forked? && s.handler.Idle?
    ensures StopInv(StepNext(s))
  {
    var i := IndexOfPid(s.table.jobs, 0, 0);
    IndexOfPidIsFirst(s.table.jobs, 0, 0);
    forall pid | KnownToBeStopped(StepNext(s), pid) ensures EntryIn(StepNext(s).table.jobs, pid, Stopped) {
      assert KnownToBeStopped(s, pid);
      EntryKept(s.table.jobs, StepNext(s).table.jobs, i, pid, Stopped);
    }
  }

  lemma ApplyKeepsStops(s: State)
    requires PidInv(s) && StopInv(s) && s.handler.Got?
    ensures StopInv(ApplyNext(s))
  {
    var i := IndexOfPid(s.table.jobs, s.handler.pid, 0);
    PidIsFound(s.table.jobs, s.handler.pid);
    IndexOfPidIsFirst(s.table.jobs, s.handler.pid, 0);
    var jobs := ApplyNext(s).table.jobs;
    forall pid | KnownToBeStopped(ApplyNext(s), pid) ensures EntryIn(jobs, pid, Stopped) {
      if pid == s.handler.pid {
        assert jobs[i].pid == pid && jobs[i].state == Stopped;
      } else {
        assert KnownToBeStopped(s, pid);
        EntryKept(s.table.jobs, jobs, i, pid, Stopped);
      }
    }
  }

  lemma FgBgKeepsStops(s: State, fg: bool, pid: int, jid: int)
    requires PidInv(s) && JobInv(s) && StopInv(s) && s.pc == Entered(FgBg(fg, pid, jid)) && s.handler.Idle?
    ensures StopInv(Evaluate(s, s.pc.cmd))
  {
    var t := Evaluate(s, s.pc.cmd);
    if FindTarget(s.table.jobs, pid, jid).Some? {
      var (i, target) := FindTarget(s.table.jobs, pid, jid).value;
      TargetMatches(s.table.jobs, pid, jid);
      forall p | KnownToBeStopped(t, p) ensures EntryIn(t.table.jobs, p, Stopped) {
        assert p != target && KnownToBeStopped(s, p);
        EntryKept(s.table.jobs, t.table.jobs, i, p, Stopped);
      }
    } else {
      assert forall p :: KnownToBeStopped(t, p) ==> KnownToBeStopped(s, p);
    }
  }

  /** Steps that change no entry and report no stop. */
  lemma OthersKeepStops(s: State, t: State)
    requires StopInv(s) && t.table.jobs == s.table.jobs
    requires forall pid :: KnownToBeStopped(t, pid) ==> KnownToBeStopped(s, pid)
    ensures StopInv(t)
  {
  }

  lemma StepKeepsStops(s: State, a: Action)
    requires PidInv(s) && JobInv(s) && StopInv(s) && Enabled(s, a)
    ensures StopInv(Next(s, a))
  {
    if a.Apply? {
      ApplyKeepsStops(s);
    } else if a.Step? && s.pc.Forked? {
      AddKeepsStops(s);
    } else if a.Step? && s.pc.Entered? && s.pc.cmd.FgBg? {
      FgBgKeepsStops(s, s.pc.cmd.fg, s.pc.cmd.pid, s.pc.cmd.jid);
    } else {
      OthersKeepStops(s, Next(s, a));
    }
  }

  lemma {:induction false} RunKeepsStops(s: State, actions: seq<Action>)
    requires PidInv(s) && JobInv(s) && StopInv(s) && Run(s, actions) && NoClash(s, actions)
    ensures StopInv(After(s, actions))
    decreases |actions|
  {
    if actions != [] {
      StepKeepsPids(s, actions[0]);
      StepKeepsJobs(s, actions[0]);
      StepKeepsStops(s, actions[0]);
      RunKeepsStops(Next(s, actions[0]), actions[1..]);
    }
  }

  /** Over every run without a clash of job ids: a child whose stop has been handled, and that nothing has continued
      since, has an entry that says Stopped. */
  lemma StoppedIsListed(s: State, actions: seq<Action>, pid: int)
    requires Init(s) && Run(s, actions) && NoClash(s, actions)
    ensures var t := After(s, actions);
            pid in t.kids && t.kids[pid] == Kid(Halted, true) && t.handler != Got(pid, true) ==>
              EntryIn(t.table.jobs, pid, Stopped)
  {
    InitPids(s);
    InitJobs(s);
    RunKeepsStops(s, actions);
    assert KnownToBeStopped(After(s, actions), pid) ==> EntryIn(After(s, actions).table.jobs, pid, Stopped);
  }

  /** The entry that the arguments of fg or bg name: by pid if one is given, by job id otherwise. */
  predicate Named(j: Job, pid: int, jid: int) { Live(j) && if pid != 0 then j.pid == pid else j.jid == jid }

  lemma FindTargetExactly(jobs: seq<Job>, pid: int, jid: int)
    requires PidsOk(jobs) && JidsDistinct(jobs) && forall i :: 0 <= i < |jobs| && Live(jobs[i]) ==> jobs[i].jid >= 1
    ensures forall i :: 0 <= i < |jobs| && Named(jobs[i], pid, jid) ==>
              FindTarget(jobs, pid, jid) == Some((i, jobs[i].pid))
    ensures (forall i :: 0 <= i < |jobs| ==> !Named(jobs[i], pid, jid)) ==> FindTarget(jobs, pid, jid).None?
  {
    IndexOfPidIsFirst(jobs, pid, 0);
    IndexOfJidIsFirst(jobs, jid, 0);
    IndexOfJidIsFirst(jobs, JidOfPid(jobs, pid), 0);
  }

  /** What fg and bg do in every reachable state without a clash of job ids: the job that is named, and no other,
      becomes a foreground or a background job; its process runs again if it was stopped, with SIGCHLD pending; and fg
      goes on to wait for it. */
  lemma FgBgContinues(s: State, actions: seq<Action>, fg: bool, pid: int, jid: int, i: nat)
    requires Init(s) && Run(s, actions) && NoClash(s, actions)
    requires var t := After(s, actions);
             t.pc == Entered(FgBg(fg, pid, jid)) && i < |t.table.jobs| && Named(t.table.jobs[i], pid, jid)
    ensures var t := After(s, actions);
            var j := t.table.jobs[i];
            Enabled(t, Step) && j.pid in t.kids &&
            var u := Next(t, Step);
            && u.table == t.table.(jobs := t.table.jobs[i := j.(state := if fg then Foreground else Background)])
            && u.kids.Keys == t.kids.Keys && (forall p :: p in t.kids && p != j.pid ==> u.kids[p] == t.kids[p])
            && (if t.kids[j.pid].run.Halted? then u.kids[j.pid] == Kid(Running, false) && u.pending
                else u.kids[j.pid] == t.kids[j.pid] && u.pending == t.pending)
            && u.pc == Release(if fg then Some(j.pid) else None)
  {
    InitPids(s);
    InitJobs(s);
    RunKeepsPids(s, actions);
    RunKeepsJobs(s, actions);
    var t := After(s, actions);
    FindTargetExactly(t.table.jobs, pid, jid);
    assert t.table.jobs[i].pid in Pids(t.table.jobs);
  }

  /** What the parent does after fork in every reachable state: one free entry becomes the job, running as it was asked
      for and with the next id, and a foreground job is waited for. */
  lemma ForkedIsListed(s: State, actions: seq<Action>) returns (i: nat)
    requires Init(s) && Run(s, actions) && After(s, actions).pc.Forked?
    ensures var t := After(s, actions);
            i < |t.table.jobs| && t.table.jobs[i].pid == 0 && Enabled(t, Step) &&
            var u := Next(t, Step);
            var state := if t.pc.background then Background else Foreground;
            && u.table.jobs == t.table.jobs[i := Job(t.pc.pid, t.table.nextJobID, state, t.pc.line)]
            && u.kids == t.kids && u.pc == Release(if t.pc.background then None else Some(t.pc.pid))
  {
    InitPids(s);
    RunKeepsPids(s, actions);
    i := IndexOfPid(After(s, actions).table.jobs, 0, 0);
    IndexOfPidIsFirst(After(s, actions).table.jobs, 0, 0);
  }

  /** A job that is not there changes nothing. */
  lemma FgBgOfNothing(s: State, actions: seq<Action>, fg: bool, pid: int, jid: int)
    requires Init(s) && Run(s, actions) && NoClash(s, actions) && After(s, actions).pc == Entered(FgBg(fg, pid, jid))
    requires forall i :: 0 <= i < |After(s, actions).table.jobs| ==>
               !Named(After(s, actions).table.jobs[i], pid, jid)
    ensures var t := After(s, actions); Enabled(t, Step) && Next(t, Step) == t.(pc := Release(None))
  {
    InitPids(s);
    InitJobs(s);
    RunKeepsPids(s, actions);
    RunKeepsJobs(s, actions);
    FindTargetExactly(After(s, actions).table.jobs, pid, jid);
  }

  // ---------------------------------------------------------------- job ids

  lemma StepKeepsDistinct(s: State, a: Action)
    requires PidInv(s) && JidsDistinct(s.table.jobs) && Enabled(s, a)
    ensures JidsDistinct(Next(s, a).table.jobs) <==> !Clashes(s, a)
  {
    match a
    case Step =>
      if s.pc.Forked? {
        AddKeepsDistinct(s.table, s.pc.pid, if s.pc.background then Background else Foreground, s.pc.line);
      }
    case Apply => DeleteKeepsDistinct(s.table, s.handler.pid);
    case _ =>
  }

  /** In every state of the run live job ids are distinct. */
  ghost predicate AlwaysDistinct(s: State, actions: seq<Action>)
    requires Run(s, actions)
    decreases |actions|
  {
    JidsDistinct(s.table.jobs) && (actions == [] || AlwaysDistinct(Next(s, actions[0]), actions[1..]))
  }

  lemma {:induction false} DistinctExactly(s: State, actions: seq<Action>)
    requires PidInv(s) && JidsDistinct(s.table.jobs) && Run(s, actions)
    ensures AlwaysDistinct(s, actions) <==> NoClash(s, actions)
    decreases |actions|
  {
    if actions != [] {
      StepKeepsPids(s, actions[0]);
      StepKeepsDistinct(s, actions[0]);
      var t := Next(s, actions[0]);
      if Clashes(s, actions[0]) {
        assert !JidsDistinct(t.table.jobs) && !AlwaysDistinct(t, actions[1..]);
      } else {
        DistinctExactly(t, actions[1..]);
      }
    }
  }

  /** Job ids stay distinct throughout a run of the shell exactly if no job is added while a live job has the next
      id. */
  lemma JobIdsDistinctExactly(s: State, actions: seq<Action>)
    requires Init(s) && Run(s, actions)
    ensures AlwaysDistinct(s, actions) <==> NoClash(s, actions)
  {
    InitPids(s);
    InitJobs(s);
    DistinctExactly(s, actions);
  }

  lemma AddStepKeepsIds(s: State)
    requires PidInv(s) && JidsOk(s.table) && s.pc.Forked? && s.handler.Idle? && s.table.nextJobID < MAX_JOB_ID
    ensures JidsOk(StepNext(s).table) && !Taken(s.table)
  {
    AddKeepsJids(s.table, s.pc.pid, if s.pc.background then Background else Foreground, s.pc.line);
  }

  lemma ApplyKeepsIds(s: State)
    requires PidInv(s) && JidsOk(s.table) && s.handler.Got?
    ensures JidsOk(ApplyNext(s).table)
  {
    if !s.handler.stopped {
      DeleteKeepsJids(s.table, s.handler.pid);
    }
  }

  lemma StepKeepsIds(s: State, a: Action)
    requires PidInv(s) && JidsOk(s.table) && Enabled(s, a)
    requires s.pc.Forked? ==> s.table.nextJobID < MAX_JOB_ID
    ensures JidsOk(Next(s, a).table) && !Clashes(s, a)
  {
    match a
    case Step =>
      if s.pc.Forked? {
        AddStepKeepsIds(s);
      }
    case Apply => ApplyKeepsIds(s);
    case _ =>
  }

  /** Short of a wrap of job ids this is so: ids stay below the next one. */
  lemma {:induction false} NoWrapNoClash(s: State, actions: seq<Action>)
    requires PidInv(s) && JidsOk(s.table) && Run(s, actions) && NoWrap(s, actions)
    ensures JidsOk(After(s, actions).table) && NoClash(s, actions)
    decreases |actions|
  {
    if actions != [] {
      StepKeepsPids(s, actions[0]);
      StepKeepsIds(s, actions[0]);
      NoWrapNoClash(Next(s, actions[0]), actions[1..]);
    }
  }

  // ---------------------------------------------------------------- signals, waitfg and the prompt

  /** A child whose change has not been reported keeps a signal pending or the handler at work. */
  ghost predicate SignalInv(s: State) {
    forall pid :: pid in s.kids && Reportable(s.kids[pid]) ==> s.pending || !s.handler.Idle?
  }

  lemma StepKeepsSignal(s: State, a: Action)
    requires PidInv(s) && SignalInv(s) && Enabled(s, a)
    ensures SignalInv(Next(s, a))
  {
  }

  lemma {:induction false} RunKeepsSignal(s: State, actions: seq<Action>)
    requires PidInv(s) && SignalInv(s) && Run(s, actions)
    ensures SignalInv(After(s, actions))
    decreases |actions|
  {
    if actions != [] {
      StepKeepsPids(s, actions[0]);
      StepKeepsSignal(s, actions[0]);
      RunKeepsSignal(Next(s, actions[0]), actions[1..]);
    }
  }

  lemma SomeKid(kids: map<int, Kid>) returns (pid: int)
    requires kids != map[]
    ensures pid in kids
  {
    assert (forall p :: p !in kids) ==> kids == map[];
    pid :| pid in kids;
  }

  /** A suspended waitfg can still be ended by SIGCHLD exactly if a signal is pending or a child is left. */
  lemma SuspendedCanWake(s: State, actions: seq<Action>)
    requires Init(s) && Run(s, actions)
    ensures var t := After(s, actions);
            t.pc.Suspended? && t.handler.Idle? ==>
              ((exists a :: Enabled(t, a) && !a.OtherSignal?) <==> t.pending || t.kids != map[])
  {
    InitPids(s);
    RunKeepsSignal(s, actions);
    var t := After(s, actions);
    if t.pc.Suspended? && t.handler.Idle? {
      if t.pending {
        assert Enabled(t, Deliver);
      } else if t.kids != map[] {
        var pid := SomeKid(t.kids);
        assert Enabled(t, KidExits(pid));
      }
    }
  }

  // ---------------------------------------------------------------- what waitfg misses

  /** The handler has updated the entry of the job waited for since waitfg was called, or since it last found the job in
      the foreground, and before it suspends. */
  predicate MissedAfter(s: State, a: Action, missed: bool)
    requires Enabled(s, a)
  {
    if a.Step? && StepNext(s).pc.Waiting? then false
    else missed || (a.Apply? && s.pc.Waiting? && s.handler.pid == s.pc.pid)
  }

  predicate Missed(s: State, actions: seq<Action>, missed: bool)
    requires Run(s, actions)
    decreases |actions|
  {
    if actions == [] then missed
    else Missed(Next(s, actions[0]), actions[1..], MissedAfter(s, actions[0], missed))
  }

  /** If only `pid` may be in the foreground, getFGJobPID says whether it is. */
  lemma FGJobPidExactly(jobs: seq<Job>, pid: int)
    requires pid != 0 && forall i :: 0 <= i < |jobs| && jobs[i].state.Foreground? ==> jobs[i].pid == pid
    ensures FGJobPid(jobs, 0) == pid <==> exists i :: 0 <= i < |jobs| && jobs[i].state.Foreground?
  {
    FGJobPidMeaning(jobs, 0);
  }

  /** Before waitfg is called its job is in the foreground; until waitfg suspends it is, unless that was missed. */
  ghost predicate WaitInv(s: State, missed: bool) {
    && (Awaited(s.pc).Some? ==> Awaited(s.pc).value != 0)
    && (s.pc.Release? && s.pc.wait.Some? ==> FGJobPid(s.table.jobs, 0) == s.pc.wait.value)
    && (s.pc.Waiting? ==> (FGJobPid(s.table.jobs, 0) != s.pc.pid <==> missed))
    && (s.pc.Suspended? && s.handler.Idle? ==> (FGJobPid(s.table.jobs, 0) != s.pc.pid <==> missed))
  }

  lemma AddStartsWait(s: State)
    requires PidInv(s) && JobInv(s) && s.pc.Forked? && s.handler.Idle? && !Taken(s.table)
    ensures WaitInv(StepNext(s), false)
  {
    AddStepKeepsJobs(s);
    if !s.pc.background {
      IndexOfPidIsFirst(s.table.jobs, 0, 0);
      assert StepNext(s).table.jobs[IndexOfPid(s.table.jobs, 0, 0)].state.Foreground?;
      FGJobPidExactly(StepNext(s).table.jobs, s.pc.pid);
    }
  }

  lemma FgStartsWait(s: State, fg: bool, pid: int, jid: int)
    requires PidInv(s) && JobInv(s) && s.pc == Entered(FgBg(fg, pid, jid)) && s.handler.Idle?
    ensures WaitInv(StepNext(s), false)
  {
    var found := FindTarget(s.table.jobs, pid, jid);
    if fg && found.Some? {
      TargetMatches(s.table.jobs, pid, jid);
      FgBgKeepsJobs(s, fg, pid, jid);
      assert StepNext(s).table.jobs[found.value.0].state.Foreground?;
      FGJobPidExactly(StepNext(s).table.jobs, found.value.1);
    }
  }

  /** What the handler does to the entry of one process decides nothing about another's. */
  lemma ApplyInWait(s: State, missed: bool)
    requires PidInv(s) && JobInv(s) && s.handler.Got? && s.pc.Waiting? && WaitInv(s, missed)
    ensures WaitInv(ApplyNext(s), missed || s.handler.pid == s.pc.pid)
  {
    var before, after, pid := s.table.jobs, ApplyNext(s).table.jobs, s.pc.pid;
    var i := IndexOfPid(before, s.handler.pid, 0);
    PidIsFound(before, s.handler.pid);
    IndexOfPidIsFirst(before, s.handler.pid, 0);
    assert after == before[i := after[i]] && !after[i].state.Foreground?;
    FGJobPidExactly(before, pid);
    FGJobPidExactly(after, pid);
    if s.handler.pid == pid {
      forall k | 0 <= k < |after| ensures !after[k].state.Foreground? {
        assert k != i ==> before[k].pid != before[i].pid;
      }
    } else if k :| 0 <= k < |before| && before[k].state.Foreground? {
      assert k != i && after[k].state.Foreground?;
    }
  }

  lemma StepKeepsWait(s: State, a: Action, missed: bool)
    requires PidInv(s) && JobInv(s) && WaitInv(s, missed) && Enabled(s, a) && !Clashes(s, a)
    ensures WaitInv(Next(s, a), MissedAfter(s, a, missed))
  {
    match a
    case Step =>
      match s.pc {
        case Forked(_, _, _) => AddStartsWait(s);
        case Entered(FgBg(fg, pid, jid)) => FgStartsWait(s, fg, pid, jid);
        case _ =>
      }
    case Apply =>
      if s.pc.Waiting? {
        ApplyInWait(s, missed);
      }
    case _ =>
  }

  lemma {:induction false} RunKeepsWait(s: State, actions: seq<Action>, missed: bool)
    requires PidInv(s) && JobInv(s) && WaitInv(s, missed) && Run(s, actions) && NoClash(s, actions)
    ensures WaitInv(After(s, actions), Missed(s, actions, missed))
    decreases |actions|
  {
    if actions != [] {
      StepKeepsPids(s, actions[0]);
      StepKeepsJobs(s, actions[0]);
      StepKeepsWait(s, actions[0], missed);
      RunKeepsWait(Next(s, actions[0]), actions[1..], MissedAfter(s, actions[0], missed));
    }
  }

  /** waitfg is suspended although its job is no longer in the foreground exactly if the handler updated the job's entry
      between the last time that waitfg found it there, or was called, and sigsuspend. */
  lemma WaitfgMissesExactly(s: State, actions: seq<Action>)
    requires Init(s) && Run(s, actions) && NoClash(s, actions)
    ensures var t := After(s, actions);
            t.pc.Suspended? && t.handler.Idle? ==>
              (FGJobPid(t.table.jobs, 0) != t.pc.pid <==> Missed(s, actions, false))
  {
    InitPids(s);
    InitJobs(s);
    RunKeepsWait(s, actions, false);
  }

  // ---------------------------------------------------------------- the prompt

  /** The last step of the main program refused a command: a built-in with a bad redirection, or a full table. */
  predicate RefusedAfter(s: State, a: Action, refused: bool)
    requires Enabled(s, a)
  {
    if a.Step? then
      s.pc.Entered? && (s.pc.cmd.BadRedirection? || (s.pc.cmd.Launch? && !HasRoom(s.table.jobs)))
    else refused
  }

  predicate Refused(s: State, actions: seq<Action>, refused: bool)
    requires Run(s, actions)
    decreases |actions|
  {
    if actions == [] then refused
    else Refused(Next(s, actions[0]), actions[1..], RefusedAfter(s, actions[0], refused))
  }

  ghost predicate PromptInv(s: State, refused: bool) { s.pc.Prompt? ==> (s.blocked <==> refused) }

  lemma {:induction false} RunKeepsPrompt(s: State, actions: seq<Action>, refused: bool)
    requires PidInv(s) && PromptInv(s, refused) && Run(s, actions)
    ensures PromptInv(After(s, actions), Refused(s, actions, refused))
    decreases |actions|
  {
    if actions != [] {
      StepKeepsPids(s, actions[0]);
      RunKeepsPrompt(Next(s, actions[0]), actions[1..], RefusedAfter(s, actions[0], refused));
    }
  }

  /** In every reachable state, the prompt waits with SIGCHLD blocked exactly if the last step of the main program
      refused a command: the redirection of a built-in failed or the table was full. */
  lemma PromptIsBlockedExactly(s: State, actions: seq<Action>)
    requires Init(s) && Run(s, actions)
    ensures var t := After(s, actions); t.pc.Prompt? ==> (t.blocked <==> Refused(s, actions, false))
  {
    InitPids(s);
    RunKeepsPrompt(s, actions, false);
  }
}
