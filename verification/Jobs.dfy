/** The job table of the tiny shell (assign3/tsh-jobs.c): a fixed array and the next job id, on values and in place. */
module Jobs {
  import opened Basics

  const MAX_JOBS := 16
  const MAX_JOB_ID := 65536

  datatype JobState = Undefined | Background | Foreground | Stopped

  datatype Job = Job(pid: int, jid: int, state: JobState, commandLine: string)

  /** clearJob. */
  function Clear(): Job { Job(0, 0, Undefined, "") }

  datatype Table = Table(jobs: seq<Job>, nextJobID: int)

  // ---------------------------------------------------------------- lookups

  /** The first entry from `i` on with this pid, or the length of the list. */
  function IndexOfPid(jobs: seq<Job>, pid: int, i: nat): (r: nat)
    requires i <= |jobs|
    ensures i <= r <= |jobs|
    decreases |jobs| - i
  {
    if i == |jobs| || jobs[i].pid == pid then i else IndexOfPid(jobs, pid, i + 1)
  }

  function IndexOfJid(jobs: seq<Job>, jid: int, i: nat): (r: nat)
    requires i <= |jobs|
    ensures i <= r <= |jobs|
    decreases |jobs| - i
  {
    if i == |jobs| || jobs[i].jid == jid then i else IndexOfJid(jobs, jid, i + 1)
  }

  lemma {:induction false} IndexOfPidIsFirst(jobs: seq<Job>, pid: int, i: nat)
    requires i <= |jobs|
    ensures var r := IndexOfPid(jobs, pid, i);
            (r < |jobs| ==> jobs[r].pid == pid) && forall k :: i <= k < r ==> jobs[k].pid != pid
    decreases |jobs| - i
  {
    if i < |jobs| && jobs[i].pid != pid {
      IndexOfPidIsFirst(jobs, pid, i + 1);
    }
  }

  lemma {:induction false} IndexOfJidIsFirst(jobs: seq<Job>, jid: int, i: nat)
    requires i <= |jobs|
    ensures var r := IndexOfJid(jobs, jid, i);
            (r < |jobs| ==> jobs[r].jid == jid) && forall k :: i <= k < r ==> jobs[k].jid != jid
    decreases |jobs| - i
  {
    if i < |jobs| && jobs[i].jid != jid {
      IndexOfJidIsFirst(jobs, jid, i + 1);
    }
  }

  /** The largest job id among the first `n` entries. */
  function MaxJid(jobs: seq<Job>, n: nat): int
    requires 1 <= n <= |jobs|
  {
    if n == 1 || jobs[n - 1].jid > MaxJid(jobs, n - 1) then jobs[n - 1].jid else MaxJid(jobs, n - 1)
  }

  lemma {:induction false} MaxJidIsMax(jobs: seq<Job>, n: nat)
    requires 1 <= n <= |jobs|
    ensures forall i :: 0 <= i < n ==> jobs[i].jid <= MaxJid(jobs, n)
    ensures exists i :: 0 <= i < n && jobs[i].jid == MaxJid(jobs, n)
  {
    if n == 1 {
      assert jobs[0].jid == MaxJid(jobs, n);
    } else {
      MaxJidIsMax(jobs, n - 1);
    }
  }

  predicate HasRoom(jobs: seq<Job>) { IndexOfPid(jobs, 0, 0) < |jobs| }

  // ---------------------------------------------------------------- addJob and deleteJob on values

  function AddJob(t: Table, pid: int, state: JobState, commandLine: string): (Table, bool) {
    if pid < 1 || !HasRoom(t.jobs) then (t, false)
    else
      (Table(t.jobs[IndexOfPid(t.jobs, 0, 0) := Job(pid, t.nextJobID, state, commandLine)],
             if t.nextJobID + 1 > MAX_JOB_ID then 1 else t.nextJobID + 1),
       true)
  }

  function DeleteJob(t: Table, pid: int): (Table, bool) {
    if pid < 1 || IndexOfPid(t.jobs, pid, 0) == |t.jobs| then (t, false)
    else
      var jobs := t.jobs[IndexOfPid(t.jobs, pid, 0) := Clear()];
      (Table(jobs, MaxJid(jobs, |jobs|) + 1), true)
  }

  /** The entry with this pid changes its state. */
  function SetState(t: Table, i: nat, state: JobState): Table
    requires i < |t.jobs|
  {
    t.(jobs := t.jobs[i := t.jobs[i].(state := state)])
  }

  // ---------------------------------------------------------------- what keeps a table sound

  predicate Live(j: Job) { j.pid != 0 }

  /** Free entries are clear, and no process has two entries. */
  ghost predicate PidsOk(jobs: seq<Job>) {
    && |jobs| == MAX_JOBS
    && (forall i :: 0 <= i < |jobs| ==> jobs[i].pid >= 0 && (jobs[i].pid == 0 ==> jobs[i] == Clear()))
    && (forall i, k :: 0 <= i < k < |jobs| && Live(jobs[i]) ==> jobs[i].pid != jobs[k].pid)
  }

  function Pids(jobs: seq<Job>): set<int> {
    set i | 0 <= i < |jobs| && Live(jobs[i]) :: jobs[i].pid
  }

  /** No two live jobs have the same id. */
  ghost predicate JidsDistinct(jobs: seq<Job>) {
    forall i, k :: 0 <= i < k < |jobs| && Live(jobs[i]) && Live(jobs[k]) ==> jobs[i].jid != jobs[k].jid
  }

  /** Live job ids are distinct and below the next one. */
  ghost predicate JidsOk(t: Table) {
    && t.nextJobID >= 1
    && (forall i :: 0 <= i < |t.jobs| && Live(t.jobs[i]) ==> 1 <= t.jobs[i].jid < t.nextJobID)
    && JidsDistinct(t.jobs)
  }

  /** A live job has the id that the next job will get. */
  predicate Taken(t: Table) {
    exists i :: 0 <= i < |t.jobs| && Live(t.jobs[i]) && t.jobs[i].jid == t.nextJobID
  }

  lemma PidIsFound(jobs: seq<Job>, pid: int)
    requires PidsOk(jobs) && pid >= 1
    ensures pid in Pids(jobs) <==> IndexOfPid(jobs, pid, 0) < |jobs|
  {
    IndexOfPidIsFirst(jobs, pid, 0);
  }

  lemma AddKeepsPids(t: Table, pid: int, state: JobState, commandLine: string)
    requires PidsOk(t.jobs) && pid >= 1 && pid !in Pids(t.jobs) && HasRoom(t.jobs)
    ensures var u := AddJob(t, pid, state, commandLine).0;
            PidsOk(u.jobs) && Pids(u.jobs) == Pids(t.jobs) + {pid}
  {
    IndexOfPidIsFirst(t.jobs, 0, 0);
    var i := IndexOfPid(t.jobs, 0, 0);
    var jobs := AddJob(t, pid, state, commandLine).0.jobs;
    assert jobs[i].pid == pid;
    forall p ensures p in Pids(jobs) <==> p in Pids(t.jobs) + {pid} {
      if p in Pids(t.jobs) {
        var k :| 0 <= k < |t.jobs| && Live(t.jobs[k]) && t.jobs[k].pid == p;
        assert jobs[k] == t.jobs[k];
      }
      if p in Pids(jobs) && p != pid {
        var k :| 0 <= k < |jobs| && Live(jobs[k]) && jobs[k].pid == p;
        assert jobs[k] == t.jobs[k];
      }
    }
  }

  lemma DeleteKeepsPids(t: Table, pid: int)
    requires PidsOk(t.jobs) && pid >= 1
    ensures var u := DeleteJob(t, pid).0; PidsOk(u.jobs) && Pids(u.jobs) == Pids(t.jobs) - {pid}
  {
    IndexOfPidIsFirst(t.jobs, pid, 0);
    var jobs := DeleteJob(t, pid).0.jobs;
    forall p ensures p in Pids(jobs) <==> p in Pids(t.jobs) - {pid} {
      if p in Pids(t.jobs) - {pid} {
        var k :| 0 <= k < |t.jobs| && Live(t.jobs[k]) && t.jobs[k].pid == p;
        assert jobs[k] == t.jobs[k];
      }
      if p in Pids(jobs) {
        var k :| 0 <= k < |jobs| && Live(jobs[k]) && jobs[k].pid == p;
        assert jobs[k] == t.jobs[k];
      }
    }
  }

  lemma SetStateKeepsPids(t: Table, i: nat, state: JobState)
    requires PidsOk(t.jobs) && i < |t.jobs| && Live(t.jobs[i])
    ensures PidsOk(SetState(t, i, state).jobs) && Pids(SetState(t, i, state).jobs) == Pids(t.jobs)
  {
    var jobs := SetState(t, i, state).jobs;
    forall p ensures p in Pids(jobs) <==> p in Pids(t.jobs) {
      if p in Pids(t.jobs) {
        var k :| 0 <= k < |t.jobs| && Live(t.jobs[k]) && t.jobs[k].pid == p;
        assert jobs[k].pid == p;
      }
      if p in Pids(jobs) {
        var k :| 0 <= k < |jobs| && Live(jobs[k]) && jobs[k].pid == p;
        assert t.jobs[k].pid == p;
      }
    }
  }

  /** Adding keeps job ids distinct exactly if no live job has the next id. */
  lemma AddKeepsDistinct(t: Table, pid: int, state: JobState, commandLine: string)
    requires PidsOk(t.jobs) && JidsDistinct(t.jobs) && pid >= 1 && HasRoom(t.jobs)
    ensures JidsDistinct(AddJob(t, pid, state, commandLine).0.jobs) <==> !Taken(t)
  {
    IndexOfPidIsFirst(t.jobs, 0, 0);
    var i := IndexOfPid(t.jobs, 0, 0);
    var jobs := AddJob(t, pid, state, commandLine).0.jobs;
    assert Live(jobs[i]) && jobs[i].jid == t.nextJobID;
    if Taken(t) {
      var k :| 0 <= k < |t.jobs| && Live(t.jobs[k]) && t.jobs[k].jid == t.nextJobID;
      assert jobs[k] == t.jobs[k] && k != i;
    }
  }

  /** Adding keeps job ids distinct and below the next one exactly as long as the next one is below the limit. */
  lemma AddKeepsJids(t: Table, pid: int, state: JobState, commandLine: string)
    requires PidsOk(t.jobs) && JidsOk(t) && pid >= 1 && HasRoom(t.jobs) && t.nextJobID <= MAX_JOB_ID
    ensures JidsOk(AddJob(t, pid, state, commandLine).0) <==> t.nextJobID < MAX_JOB_ID
  {
    IndexOfPidIsFirst(t.jobs, 0, 0);
    var i := IndexOfPid(t.jobs, 0, 0);
    var u := AddJob(t, pid, state, commandLine).0;
    assert Live(u.jobs[i]) && u.jobs[i].jid == t.nextJobID;
  }

  lemma DeleteKeepsDistinct(t: Table, pid: int)
    requires PidsOk(t.jobs) && JidsDistinct(t.jobs)
    ensures JidsDistinct(DeleteJob(t, pid).0.jobs)
  {
  }

  /** Deleting keeps job ids distinct and below the next one, although that may become smaller. */
  lemma DeleteKeepsJids(t: Table, pid: int)
    requires PidsOk(t.jobs) && JidsOk(t) && pid >= 1
    ensures JidsOk(DeleteJob(t, pid).0)
  {
    IndexOfPidIsFirst(t.jobs, pid, 0);
    if IndexOfPid(t.jobs, pid, 0) < |t.jobs| {
      var jobs := DeleteJob(t, pid).0.jobs;
      MaxJidIsMax(jobs, |jobs|);
    }
  }

  // ---------------------------------------------------------------- the table in place

  class JobTable {
    const jobs: array<Job>
    var nextJobID: int

    predicate Valid() { jobs.Length == MAX_JOBS }

    function Contents(): Table
      reads this, jobs
    {
      Table(jobs[..], nextJobID)
    }

    /** initJobs. */
    constructor ()
      ensures Valid() && fresh(jobs) && nextJobID == 1
      ensures PidsOk(jobs[..]) && Pids(jobs[..]) == {} && JidsOk(Contents())
    {
      jobs := new Job[MAX_JOBS](i => Clear());
      nextJobID := 1;
    }

    method GetMaxJobID() returns (max: int)
      requires Valid()
      ensures max == MaxJid(jobs[..], MAX_JOBS)
    {
      max := jobs[0].jid;
      for i := 1 to MAX_JOBS
        invariant max == MaxJid(jobs[..], i)
      {
        if jobs[i].jid > max {
          max := jobs[i].jid;
        }
      }
    }

    method CanNewJobBeAdded() returns (room: bool)
      requires Valid()
      ensures room == HasRoom(jobs[..])
    {
      for i := 0 to MAX_JOBS
        invariant IndexOfPid(jobs[..], 0, 0) == IndexOfPid(jobs[..], 0, i)
      {
        if jobs[i].pid == 0 {
          return true;
        }
      }
      return false;
    }

    method Add(pid: int, state: JobState, commandLine: string) returns (ok: bool)
      requires Valid()
      modifies this, jobs
      ensures (Contents(), ok) == AddJob(old(Contents()), pid, state, commandLine)
    {
      if pid < 1 {
        return false;
      }
      for i := 0 to MAX_JOBS
        invariant jobs[..] == old(jobs[..]) && nextJobID == old(nextJobID)
        invariant IndexOfPid(jobs[..], 0, 0) == IndexOfPid(jobs[..], 0, i)
      {
        if jobs[i].pid == 0 {
          jobs[i] := Job(pid, nextJobID, state, commandLine);
          nextJobID := nextJobID + 1;
          if nextJobID > MAX_JOB_ID {
            nextJobID := 1;
          }
          assert jobs[..] == old(jobs[..])[i := jobs[i]];
          return true;
        }
      }
      return false;
    }

    method Delete(pid: int) returns (ok: bool)
      requires Valid()
      modifies this, jobs
      ensures (Contents(), ok) == DeleteJob(old(Contents()), pid)
    {
      if pid < 1 {
        return false;
      }
      for i := 0 to MAX_JOBS
        invariant jobs[..] == old(jobs[..]) && nextJobID == old(nextJobID)
        invariant IndexOfPid(jobs[..], pid, 0) == IndexOfPid(jobs[..], pid, i)
      {
        if jobs[i].pid == pid {
          jobs[i] := Clear();
          assert jobs[..] == old(jobs[..])[i := Clear()];
          var max := GetMaxJobID();
          nextJobID := max + 1;
          return true;
        }
      }
      return false;
    }

    /** The pid of the first foreground job, 0 if there is none. */
    method GetFGJobPID() returns (pid: int)
      requires Valid()
      ensures pid == FGJobPid(jobs[..], 0)
    {
      for i := 0 to MAX_JOBS
        invariant FGJobPid(jobs[..], 0) == FGJobPid(jobs[..], i)
      {
        if jobs[i].state == Foreground {
          return jobs[i].pid;
        }
      }
      return 0;
    }

    /** The index of the entry, or -1 for NULL. */
    method GetJobByPID(pid: int) returns (r: int)
      requires Valid()
      ensures r == if pid >= 1 && IndexOfPid(jobs[..], pid, 0) < MAX_JOBS then IndexOfPid(jobs[..], pid, 0) else -1
    {
      if pid < 1 {
        return -1;
      }
      for i := 0 to MAX_JOBS
        invariant IndexOfPid(jobs[..], pid, 0) == IndexOfPid(jobs[..], pid, i)
      {
        if jobs[i].pid == pid {
          return i;
        }
      }
      return -1;
    }

    method GetJobByJID(jid: int) returns (r: int)
      requires Valid()
      ensures r == if jid >= 1 && IndexOfJid(jobs[..], jid, 0) < MAX_JOBS then IndexOfJid(jobs[..], jid, 0) else -1
    {
      if jid < 1 {
        return -1;
      }
      for i := 0 to MAX_JOBS
        invariant IndexOfJid(jobs[..], jid, 0) == IndexOfJid(jobs[..], jid, i)
      {
        if jobs[i].jid == jid {
          return i;
        }
      }
      return -1;
    }

    method GetJIDFromPID(pid: int) returns (jid: int)
      requires Valid()
      ensures jid == JidOfPid(jobs[..], pid)
    {
      var i := GetJobByPID(pid);
      return if i >= 0 then jobs[i].jid else 0;
    }
  }

  function FGJobPid(jobs: seq<Job>, i: nat): int
    requires i <= |jobs|
    decreases |jobs| - i
  {
    if i == |jobs| then 0 else if jobs[i].state == Foreground then jobs[i].pid else FGJobPid(jobs, i + 1)
  }

  function JidOfPid(jobs: seq<Job>, pid: int): int {
    var i := IndexOfPid(jobs, pid, 0);
    if pid >= 1 && i < |jobs| then jobs[i].jid else 0
  }
}
