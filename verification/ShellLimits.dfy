/** Runs that show where the tiny shell's promises end. */
module ShellLimits {
  import opened Basics
  import opened Jobs
  import opened Shell
  import opened ShellSafety

  // ---------------------------------------------------------------- putting runs together

  ghost predicate Reaches(s: State, t: State) {
    exists actions :: Run(s, actions) && After(s, actions) == t
  }

  lemma Stay(s: State)
    ensures Reaches(s, s)
  {
    assert Run(s, []) && After(s, []) == s;
  }

  lemma {:induction false} RunAppend(s: State, actions: seq<Action>, a: Action)
    requires Run(s, actions) && Enabled(After(s, actions), a)
    ensures Run(s, actions + [a]) && After(s, actions + [a]) == Next(After(s, actions), a)
    decreases |actions|
  {
    if actions == [] {
      assert [] + [a] == [a] && [a][1..] == [];
    } else {
      assert (actions + [a])[1..] == actions[1..] + [a];
      RunAppend(Next(s, actions[0]), actions[1..], a);
    }
  }

  lemma Then(s: State, t: State, a: Action) returns (u: State)
    requires Reaches(s, t) && Enabled(t, a)
    ensures u == Next(t, a) && Reaches(s, u)
  {
    var actions :| Run(s, actions) && After(s, actions) == t;
    RunAppend(s, actions, a);
    u := Next(t, a);
  }

  /** The prompt, with nothing on its way and every child running. */
  predicate Calm(s: State) {
    && s.pc.Prompt? && s.handler.Idle? && !s.blocked && !s.pending
    && forall pid :: pid in s.kids ==> s.kids[pid] == Kid(Running, false)
  }

  function Launched(s: State, pid: int): State {
    s.(table := AddJob(s.table, pid, Background, "sleep &").0, kids := s.kids[pid := Kid(Running, false)])
  }

  lemma LaunchInBackground(s0: State, s: State, pid: int)
    requires Reaches(s0, s) && Calm(s) && HasRoom(s.table.jobs) && pid >= 1 && pid !in s.kids
    ensures Reaches(s0, Launched(s, pid)) && Calm(Launched(s, pid))
  {
    var t := Then(s0, s, Type(Launch(true, "sleep &")));
    t := Then(s0, t, Fork(pid));
    t := Then(s0, t, Step);
    t := Then(s0, t, Step);
    assert t == Launched(s, pid);
  }

  function Ended(s: State, pid: int): State {
    s.(table := DeleteJob(s.table, pid).0, kids := s.kids - {pid})
  }

  lemma JobEnds(s0: State, s: State, pid: int)
    requires Reaches(s0, s) && Calm(s) && pid in s.kids
    ensures Reaches(s0, Ended(s, pid)) && Calm(Ended(s, pid))
  {
    var t := Then(s0, s, KidExits(pid));
    t := Then(s0, t, Deliver);
    t := Then(s0, t, Reap(pid));
    assert t.kids == s.kids - {pid};
    t := Then(s0, t, Apply);
    t := Then(s0, t, ReapNone);
    assert t == Ended(s, pid);
  }

  // ---------------------------------------------------------------- job ids collide

  /** Two background jobs, 1 and `n`, whose job ids are their pids. */
  ghost predicate Pair(s: State, n: int) {
    && Calm(s) && n >= 2 && s.kids.Keys == {1, n}
    && PidsOk(s.table.jobs) && Pids(s.table.jobs) == {1, n} && s.table.nextJobID == n + 1
    && IdsArePids(s.table.jobs)
  }

  predicate IdsArePids(jobs: seq<Job>) {
    forall i :: 0 <= i < |jobs| && Live(jobs[i]) ==> jobs[i].jid == jobs[i].pid
  }

  lemma RoomForFour(jobs: seq<Job>, a: int, b: int, c: int)
    requires PidsOk(jobs) && Pids(jobs) <= {a, b, c}
    ensures HasRoom(jobs)
  {
    IndexOfPidIsFirst(jobs, 0, 0);
    forall i | 0 <= i < 4 && Live(jobs[i]) ensures jobs[i].pid in {a, b, c} {
      assert jobs[i].pid in Pids(jobs);
    }
    assert !(Live(jobs[0]) && Live(jobs[1]) && Live(jobs[2]) && Live(jobs[3]));
  }

  /** A table that holds a process has an entry with its pid. */
  lemma EntryOf(jobs: seq<Job>, pid: int) returns (i: nat)
    requires pid in Pids(jobs)
    ensures i < |jobs| && Live(jobs[i]) && jobs[i].pid == pid
  {
    i :| 0 <= i < |jobs| && Live(jobs[i]) && jobs[i].pid == pid;
  }

  lemma AddKeepsIds(t: Table, pid: int)
    requires PidsOk(t.jobs) && IdsArePids(t.jobs) && t.nextJobID == pid >= 1
    ensures IdsArePids(AddJob(t, pid, Background, "sleep &").0.jobs)
  {
  }

  /** Deleting the older of the last two jobs leaves the next job id above the newer one. */
  lemma DeleteOlder(t: Table, n: int)
    requires PidsOk(t.jobs) && IdsArePids(t.jobs) && n >= 2 && Pids(t.jobs) == {1, n, n + 1}
    ensures var u := DeleteJob(t, n).0; PidsOk(u.jobs) && IdsArePids(u.jobs) && Pids(u.jobs) == {1, n + 1}
    ensures DeleteJob(t, n).0.nextJobID == n + 2
  {
    DeleteKeepsPids(t, n);
    PidIsFound(t.jobs, n);
    var jobs := DeleteJob(t, n).0.jobs;
    MaxJidIsMax(jobs, |jobs|);
    var i := EntryOf(jobs, n + 1);
    forall k | 0 <= k < |jobs| ensures jobs[k].jid <= n + 1 {
      assert Live(jobs[k]) ==> jobs[k].pid in Pids(jobs);
    }
  }

  ghost predicate Three(s: State, n: int) {
    && Calm(s) && n >= 2 && s.kids.Keys == {1, n, n + 1}
    && PidsOk(s.table.jobs) && Pids(s.table.jobs) == {1, n, n + 1} && IdsArePids(s.table.jobs)
  }

  lemma ThirdJob(s0: State, s: State, n: int) returns (u: State)
    requires Reaches(s0, s) && Pair(s, n)
    ensures Reaches(s0, u) && Three(u, n) && u.table.nextJobID == if n + 1 < MAX_JOB_ID then n + 2 else 1
  {
    RoomForFour(s.table.jobs, 1, n, n);
    LaunchInBackground(s0, s, n + 1);
    AddKeepsPids(s.table, n + 1, Background, "sleep &");
    AddKeepsIds(s.table, n + 1);
    u := Launched(s, n + 1);
  }

  /** Another job is launched and the second oldest ends: job ids move up by one. */
  lemma MoveUp(s0: State, s: State, n: int) returns (u: State)
    requires Reaches(s0, s) && Pair(s, n) && n + 1 < MAX_JOB_ID
    ensures Reaches(s0, u) && Pair(u, n + 1)
  {
    u := ThirdJob(s0, s, n);
    JobEnds(s0, u, n);
    DeleteOlder(u.table, n);
    u := Ended(u, n);
    assert u.kids.Keys == {1, n + 1};
  }

  lemma {:induction false} MoveUpTo(s0: State, s: State, n: int, last: int) returns (u: State)
    requires Reaches(s0, s) && Pair(s, n) && n <= last < MAX_JOB_ID
    ensures Reaches(s0, u) && Pair(u, last)
    decreases last - n
  {
    if n == last {
      u := s;
    } else {
      u := MoveUp(s0, s, n);
      u := MoveUpTo(s0, u, n + 1, last);
    }
  }

  lemma FirstPair(s: State) returns (u: State)
    requires Init(s)
    ensures Reaches(s, u) && Pair(u, 2)
  {
    InitPids(s);
    Stay(s);
    assert Pids(s.table.jobs) == {};
    RoomForFour(s.table.jobs, 1, 1, 1);
    LaunchInBackground(s, s, 1);
    AddKeepsPids(s.table, 1, Background, "sleep &");
    var t := Launched(s, 1);
    RoomForFour(t.table.jobs, 1, 1, 1);
    LaunchInBackground(s, t, 2);
    AddKeepsPids(t.table, 2, Background, "sleep &");
    u := Launched(t, 2);
    assert u.kids.Keys == {1, 2};
  }

  ghost predicate SameJid(jobs: seq<Job>, jid: int) {
    exists i, k :: 0 <= i < k < |jobs| && Live(jobs[i]) && Live(jobs[k]) && jobs[i].jid == jobs[k].jid == jid
  }

  /** While job 1 runs on, others come and go until the next job id is the limit; two more jobs, and the second gets the
      id 1 again. */
  lemma JobIdsCollide(s: State) returns (t: State)
    requires Init(s)
    ensures Reaches(s, t) && SameJid(t.table.jobs, 1)
  {
    t := FirstPair(s);
    t := MoveUpTo(s, t, 2, MAX_JOB_ID - 1);
    var n := MAX_JOB_ID - 1;
    t := ThirdJob(s, t, n);
    RoomForFour(t.table.jobs, 1, n, n + 1);
    LaunchInBackground(s, t, n + 2);
    CollidesWithFirst(t.table, n + 2);
    t := Launched(t, n + 2);
  }

  lemma CollidesWithFirst(t: Table, pid: int)
    requires PidsOk(t.jobs) && IdsArePids(t.jobs) && 1 in Pids(t.jobs) && t.nextJobID == 1 && pid > 1
    requires HasRoom(t.jobs)
    ensures SameJid(AddJob(t, pid, Background, "sleep &").0.jobs, 1)
  {
    IndexOfPidIsFirst(t.jobs, 0, 0);
    var i := EntryOf(t.jobs, 1);
    var k := IndexOfPid(t.jobs, 0, 0);
    var jobs := AddJob(t, pid, Background, "sleep &").0.jobs;
    assert jobs[i].jid == jobs[k].jid == 1 && i != k;
  }

  // ---------------------------------------------------------------- waitfg misses its job

  /** A job in the foreground ends between unblockSigChild and sigsuspend, and is reaped before waitfg suspends. */
  lemma ForegroundMissed(s0: State, s: State, pid: int) returns (t: State)
    requires Reaches(s0, s) && Calm(s) && HasRoom(s.table.jobs) && pid >= 1 && pid !in s.kids
    ensures Reaches(s0, t) && t.pc == Suspended(pid) && t.handler.Idle? && !t.pending
    ensures t.kids == s.kids && t.table == DeleteJob(AddJob(s.table, pid, Foreground, "ls").0, pid).0
  {
    t := Then(s0, s, Type(Launch(false, "ls")));
    t := Then(s0, t, Fork(pid));
    t := Then(s0, t, Step);
    t := Then(s0, t, Step);
    t := Then(s0, t, KidExits(pid));
    t := Then(s0, t, Deliver);
    t := Then(s0, t, Reap(pid));
    assert t.kids == s.kids;
    t := Then(s0, t, Apply);
    t := Then(s0, t, ReapNone);
    t := Then(s0, t, Step);
  }

  /** With no other child, only some other signal can wake waitfg. */
  lemma WaitfgCanMissItsJob(s: State) returns (t: State)
    requires Init(s)
    ensures Reaches(s, t) && t.pc == Suspended(5) && t.kids == map[] && !t.pending && t.handler.Idle?
    ensures 5 !in Pids(t.table.jobs)
  {
    InitPids(s);
    Stay(s);
    assert HasRoom(s.table.jobs);
    t := ForegroundMissed(s, s, 5);
    MissedIsGone(s, t, 5);
  }

  /** With another child, waitfg sleeps until something happens to that one. */
  lemma WaitfgCanWaitForAnother(s: State) returns (t: State)
    requires Init(s)
    ensures Reaches(s, t) && t.pc == Suspended(5) && t.kids == map[6 := Kid(Running, false)]
    ensures !t.pending && t.handler.Idle? && Pids(t.table.jobs) == {6}
  {
    InitPids(s);
    Stay(s);
    assert HasRoom(s.table.jobs);
    LaunchInBackground(s, s, 6);
    var u := Launched(s, 6);
    AddKeepsPids(s.table, 6, Background, "sleep &");
    RoomForFour(u.table.jobs, 6, 6, 6);
    t := ForegroundMissed(s, u, 5);
    MissedIsGone(u, t, 5);
  }

  lemma MissedIsGone(s: State, t: State, pid: int)
    requires PidsOk(s.table.jobs) && HasRoom(s.table.jobs) && pid >= 1 && pid !in Pids(s.table.jobs)
    requires t.table == DeleteJob(AddJob(s.table, pid, Foreground, "ls").0, pid).0
    ensures Pids(t.table.jobs) == Pids(s.table.jobs)
  {
    AddKeepsPids(s.table, pid, Foreground, "ls");
    DeleteKeepsPids(AddJob(s.table, pid, Foreground, "ls").0, pid);
  }

  // ---------------------------------------------------------------- the prompt is left blocked

  lemma BadRedirectionBlocksPrompt(s: State) returns (t: State)
    requires Init(s)
    ensures Reaches(s, t) && t.pc.Prompt? && t.blocked
  {
    Stay(s);
    t := Then(s, s, Type(BadRedirection));
    t := Then(s, t, Step);
  }

  /** The first `k` entries are taken. */
  predicate FilledTo(s: State, k: nat) {
    && Calm(s) && |s.table.jobs| == MAX_JOBS && k <= MAX_JOBS && (forall pid :: pid in s.kids ==> pid <= k)
    && forall i :: 0 <= i < MAX_JOBS ==> (s.table.jobs[i].pid == 0 <==> i >= k)
  }

  lemma RoomWhenFilledTo(s: State, k: nat)
    requires FilledTo(s, k)
    ensures IndexOfPid(s.table.jobs, 0, 0) == k
  {
    IndexOfPidIsFirst(s.table.jobs, 0, 0);
    assert k < MAX_JOBS ==> s.table.jobs[k].pid == 0;
  }

  lemma {:induction false} FillTable(s0: State, s: State, k: nat) returns (t: State)
    requires Reaches(s0, s) && FilledTo(s, k)
    ensures Reaches(s0, t) && FilledTo(t, MAX_JOBS)
    decreases MAX_JOBS - k
  {
    t := s;
    if k < MAX_JOBS {
      RoomWhenFilledTo(s, k);
      LaunchInBackground(s0, s, k + 1);
      t := FillTable(s0, Launched(s, k + 1), k + 1);
    }
  }

  /** Sixteen jobs run; one more command, and the prompt comes back with SIGCHLD blocked. */
  lemma FullTableBlocksPrompt(s: State) returns (t: State)
    requires Init(s)
    ensures Reaches(s, t) && t.pc.Prompt? && t.blocked && !HasRoom(t.table.jobs)
  {
    Stay(s);
    t := FillTable(s, s, 0);
    RoomWhenFilledTo(t, MAX_JOBS);
    t := Then(s, t, Type(Launch(true, "sleep &")));
    t := Then(s, t, Step);
  }
}
