/** The shell's job table: child statuses reaped by the signal handler and the resumptions by fg
    and bg, each applied between steps of the main loop. */
module Jobs {
  datatype JobState = Running | Stopped | Done

  datatype Job = Job(pid: int, cmd: string, state: JobState)

  /** What one successful waitpid() in the handler reports. */
  datatype Change = WasStopped | WasContinued | Ended
  datatype Status = Status(pid: int, change: Change)

  function StateAfter(c: Change): JobState {
    match c
    case WasStopped => Stopped
    case WasContinued => Running
    case Ended => Done
  }

  /** The buffer for a command holds 127 characters and the terminating NUL. */
  function Kept(cmd: string): (r: string)
    ensures r <= cmd && |r| < 128 && (r == cmd || |r| == 127)
  {
    if |cmd| <= 127 then cmd else cmd[..127]
  }

  /* ---- What the operations compute ---- */

  function Find(jobs: seq<Job>, pid: int): (i: int)
    ensures -1 <= i < |jobs|
    ensures i >= 0 ==> jobs[i].pid == pid && forall k :: 0 <= k < i ==> jobs[k].pid != pid
    ensures i == -1 ==> forall k :: 0 <= k < |jobs| ==> jobs[k].pid != pid
  {
    if jobs == [] then -1
    else if jobs[0].pid == pid then 0
    else
      var i := Find(jobs[1..], pid);
      if i == -1 then -1 else i + 1
  }

  function Added(cap: nat, jobs: seq<Job>, pid: int, cmd: string): seq<Job> {
    if |jobs| < cap then jobs + [Job(pid, Kept(cmd), Running)] else jobs
  }

  function Noted(jobs: seq<Job>, s: Status): (r: seq<Job>)
    ensures |r| == |jobs|
  {
    var i := Find(jobs, s.pid);
    if i == -1 then jobs else jobs[i := jobs[i].(state := StateAfter(s.change))]
  }

  function NotedAll(jobs: seq<Job>, ss: seq<Status>): (r: seq<Job>)
    ensures |r| == |jobs|
    decreases |ss|
  {
    if ss == [] then jobs else NotedAll(Noted(jobs, ss[0]), ss[1..])
  }

  /** fg and bg by job index; a number that is no job's and a finished job change nothing. */
  function Resumed(jobs: seq<Job>, i: int): (r: seq<Job>)
    ensures |r| == |jobs|
  {
    if 0 <= i < |jobs| && jobs[i].state != Done then jobs[i := jobs[i].(state := Running)] else jobs
  }

  /* ---- The table in place ---- */

  class JobTable {
    const jobs: array<Job>
    var count: nat

    ghost predicate Valid()
      reads this
    {
      count <= jobs.Length
    }

    function View(): seq<Job>
      requires Valid()
      reads this, jobs
    {
      jobs[..count]
    }

    constructor (capacity: nat)
      ensures Valid() && View() == [] && jobs.Length == capacity && fresh(jobs)
    {
      jobs := new Job[capacity](_ => Job(0, "", Running));
      count := 0;
    }

    method FindJob(pid: int) returns (i: int)
      requires Valid()
      ensures i == Find(View(), pid)
    {
      i := 0;
      while i < count
        invariant 0 <= i <= count && forall k :: 0 <= k < i ==> View()[k].pid != pid
      {
        if jobs[i].pid == pid {
          assert View()[i].pid == pid;
          return;
        }
        i := i + 1;
      }
      return -1;
    }

    method AddJob(pid: int, cmd: string)
      requires Valid()
      modifies this`count, jobs
      ensures Valid() && View() == Added(jobs.Length, old(View()), pid, cmd)
    {
      if count < jobs.Length {
        jobs[count] := Job(pid, Kept(cmd), Running);
        count := count + 1;
      }
    }

    /** The handler reaps until waitpid() has nothing more to report. */
    method HandleSigchld(statuses: seq<Status>)
      requires Valid()
      modifies jobs
      ensures View() == NotedAll(old(View()), statuses)
    {
      var k := 0;
      while k < |statuses|
        invariant k <= |statuses|
        invariant NotedAll(View(), statuses[k..]) == NotedAll(old(View()), statuses)
      {
        var s := statuses[k];
        assert statuses[k..][1..] == statuses[k + 1..];
        ghost var was := View();
        var i := FindJob(s.pid);
        k := k + 1;
        if i < 0 {
          continue;
        }
        jobs[i] := jobs[i].(state :=
          match s.change
          case WasStopped => Stopped
          case WasContinued => Running
          case Ended => Done);
        assert View() == Noted(was, s);
      }
    }

    /** The state change common to fg and bg; `resumed` tells whether SIGCONT is sent. */
    method Resume(i: int) returns (resumed: bool)
      requires Valid()
      modifies jobs
      ensures View() == Resumed(old(View()), i)
      ensures resumed <==> 0 <= i < count && old(View())[i].state != Done
    {
      if i < 0 || i >= count || jobs[i].state == Done {
        return false;
      }
      jobs[i] := jobs[i].(state := Running);
      return true;
    }
  }

  /* ---- Runs ---- */

  datatype Event = Start(pid: int, cmd: string) | Reaped(status: Status) | Resume(index: int)

  function Step(cap: nat, jobs: seq<Job>, e: Event): seq<Job> {
    match e
    case Start(pid, cmd) => Added(cap, jobs, pid, cmd)
    case Reaped(s) => Noted(jobs, s)
    case Resume(i) => Resumed(jobs, i)
  }

  function Replay(cap: nat, jobs: seq<Job>, evs: seq<Event>): seq<Job> {
    if evs == [] then jobs else Step(cap, Replay(cap, jobs, evs[..|evs| - 1]), evs[|evs| - 1])
  }

  /** One job on its own: index k and process p, from state s on. */
  function Word(evs: seq<Event>, p: int, k: int, s: JobState): JobState {
    if evs == [] then s
    else
      var before := Word(evs[..|evs| - 1], p, k, s);
      match evs[|evs| - 1]
      case Start(_, _) => before
      case Reaped(st) => if st.pid == p then StateAfter(st.change) else before
      case Resume(i) => if i == k && before != Done then Running else before
  }

  /** Every process started so far, in order. */
  function Starts(evs: seq<Event>): seq<int> {
    if evs == [] then []
    else Starts(evs[..|evs| - 1]) + if evs[|evs| - 1].Start? then [evs[|evs| - 1].pid] else []
  }

  /** And with which command. */
  function Commands(evs: seq<Event>): seq<string> {
    if evs == [] then []
    else Commands(evs[..|evs| - 1]) + if evs[|evs| - 1].Start? then [evs[|evs| - 1].cmd] else []
  }

  predicate Mentions(evs: seq<Event>, p: int) {
    exists j :: 0 <= j < |evs| && evs[j].Reaped? && evs[j].status.pid == p
  }

  predicate Resumes(evs: seq<Event>, k: int) {
    exists j :: 0 <= j < |evs| && evs[j] == Resume(k)
  }

  lemma {:induction false} ReplaySplit(cap: nat, jobs: seq<Job>, a: seq<Event>, b: seq<Event>)
    ensures Replay(cap, jobs, a + b) == Replay(cap, Replay(cap, jobs, a), b)
  {
    if b == [] {
      assert a + b == a;
    } else {
      assert (a + b)[..|a + b| - 1] == a + b[..|b| - 1];
      ReplaySplit(cap, jobs, a, b[..|b| - 1]);
    }
  }

  /** The table lists the first `cap` processes started, in the order they were. */
  lemma {:induction false} TableIsStarts(cap: nat, evs: seq<Event>)
    ensures
      var jobs, started := Replay(cap, [], evs), Starts(evs);
      && |jobs| == (if |started| < cap then |started| else cap)
      && |Commands(evs)| == |started|
      && forall i :: 0 <= i < |jobs| ==> jobs[i].pid == started[i] && jobs[i].cmd == Kept(Commands(evs)[i])
  {
    if evs != [] {
      TableIsStarts(cap, evs[..|evs| - 1]);
    }
  }

  /** From any table in which p is listed at index k and nowhere before it. */
  lemma {:induction false} OneJobAlone(cap: nat, jobs: seq<Job>, b: seq<Event>, k: nat)
    requires k < |jobs| && forall i :: 0 <= i < k ==> jobs[i].pid != jobs[k].pid
    ensures
      var r := Replay(cap, jobs, b);
      && |r| >= |jobs| && (forall i :: 0 <= i < |jobs| ==> r[i].pid == jobs[i].pid)
      && r[k].state == Word(b, jobs[k].pid, k, jobs[k].state)
  {
    if b != [] {
      OneJobAlone(cap, jobs, b[..|b| - 1], k);
    }
  }

  /** A tracked job's state is decided by what happened to it since it was added, and by that
      alone, whatever happened to other jobs and untracked processes. */
  lemma LastWordCounts(cap: nat, a: seq<Event>, p: int, cmd: string, b: seq<Event>)
    requires p !in Starts(a) && |Starts(a)| < cap
    ensures
      var jobs, k := Replay(cap, [], a + [Start(p, cmd)] + b), |Starts(a)|;
      k < |jobs| && jobs[k].pid == p && jobs[k].state == Word(b, p, k, Running)
  {
    var started := a + [Start(p, cmd)];
    ReplaySplit(cap, [], started, b);
    assert started[..|started| - 1] == a;
    TableIsStarts(cap, a);
    TableIsStarts(cap, started);
    OneJobAlone(cap, Replay(cap, [], started), b, |Starts(a)|);
  }

  lemma {:induction false} WordSplit(a: seq<Event>, b: seq<Event>, p: int, k: int, s: JobState)
    ensures Word(a + b, p, k, s) == Word(b, p, k, Word(a, p, k, s))
  {
    if b == [] {
      assert a + b == a;
    } else {
      assert (a + b)[..|a + b| - 1] == a + b[..|b| - 1];
      WordSplit(a, b[..|b| - 1], p, k, s);
    }
  }

  /** With no status of p, only a resumption changes its job, and none changes a finished one. */
  lemma {:induction false} WordWithoutStatus(evs: seq<Event>, p: int, k: int, s: JobState)
    requires !Mentions(evs, p)
    ensures Word(evs, p, k, s) == if s != Done && Resumes(evs, k) then Running else s
  {
    if evs != [] {
      var front, last := evs[..|evs| - 1], evs[|evs| - 1];
      assert forall j :: 0 <= j < |front| ==> front[j] == evs[j];
      assert last.Reaped? ==> last.status.pid != p;
      WordWithoutStatus(front, p, k, s);
      if Resumes(evs, k) && !Resumes(front, k) {
        assert last == Resume(k);
      }
    }
  }

  /** The last status reaped for p decides, unless it left the job unfinished and fg or bg
      resumed it since. */
  lemma WordIsTheLast(before: seq<Event>, change: Change, after: seq<Event>, p: int, k: int, s: JobState)
    requires !Mentions(after, p)
    ensures Word(before + [Reaped(Status(p, change))] + after, p, k, s)
         == if change != Ended && Resumes(after, k) then Running else StateAfter(change)
  {
    var upTo := before + [Reaped(Status(p, change))];
    assert upTo[..|upTo| - 1] == before;
    WordSplit(upTo, after, p, k, s);
    WordWithoutStatus(after, p, k, StateAfter(change));
  }

  /** What the table shows of a process whose last reaped status is known. */
  lemma LastStatusShows(cap: nat, a: seq<Event>, p: int, cmd: string, before: seq<Event>, change: Change,
      after: seq<Event>)
    requires p !in Starts(a) && |Starts(a)| < cap && !Mentions(after, p)
    ensures
      var k, evs := |Starts(a)|, a + [Start(p, cmd)] + (before + [Reaped(Status(p, change))] + after);
      var jobs := Replay(cap, [], evs);
      && k < |jobs| && jobs[k].pid == p
      && (change == Ended ==> jobs[k].state == Done)
      && (change == WasContinued ==> jobs[k].state == Running)
      && (change == WasStopped && !Resumes(after, k) ==> jobs[k].state == Stopped)
      && (change == WasStopped && Resumes(after, k) ==> jobs[k].state == Running)
  {
    LastWordCounts(cap, a, p, cmd, before + [Reaped(Status(p, change))] + after);
    WordIsTheLast(before, change, after, p, |Starts(a)|, Running);
  }

  /** The case of one status that the handler reaps on a table with one job. */
  lemma StopShows(pid: int, cmd: string)
    ensures Noted([Job(pid, cmd, Running)], Status(pid, WasStopped)) == [Job(pid, cmd, Stopped)]
    ensures Noted([Job(pid, cmd, Stopped)], Status(pid, WasContinued)) == [Job(pid, cmd, Running)]
    ensures Noted([Job(pid, cmd, Running)], Status(pid, Ended)) == [Job(pid, cmd, Done)]
  {}

  /** A finished job stays finished as long as the kernel reports nothing more about it,
      whatever fg and bg are asked to do. */
  lemma DoneIsFinal(cap: nat, a: seq<Event>, p: int, cmd: string, b: seq<Event>, c: seq<Event>)
    requires p !in Starts(a) && |Starts(a)| < cap && !Mentions(c, p)
    ensures
      var k, now, later := |Starts(a)|, Replay(cap, [], a + [Start(p, cmd)] + b),
        Replay(cap, [], a + [Start(p, cmd)] + (b + c));
      k < |now| && k < |later| && (now[k].state == Done ==> later[k].state == Done)
  {
    LastWordCounts(cap, a, p, cmd, b);
    LastWordCounts(cap, a, p, cmd, b + c);
    WordSplit(b, c, p, |Starts(a)|, Running);
    WordWithoutStatus(c, p, |Starts(a)|, Word(b, p, |Starts(a)|, Running));
  }

  /** The events of processes that are in the table, and every start and resumption. */
  function Tracked(evs: seq<Event>, pids: set<int>): seq<Event> {
    if evs == [] then []
    else
      var last := evs[|evs| - 1];
      Tracked(evs[..|evs| - 1], pids) + if last.Reaped? && last.status.pid !in pids then [] else [last]
  }

  /** Statuses of processes that were never started as jobs change nothing at all. */
  lemma {:induction false} UntrackedChangeNothing(cap: nat, evs: seq<Event>, pids: set<int>)
    requires forall p <- Starts(evs) :: p in pids
    ensures Replay(cap, [], Tracked(evs, pids)) == Replay(cap, [], evs)
  {
    if evs != [] {
      var front, last := evs[..|evs| - 1], evs[|evs| - 1];
      UntrackedChangeNothing(cap, front, pids);
      if last.Reaped? && last.status.pid !in pids {
        TableIsStarts(cap, front);
        var jobs := Replay(cap, [], front);
        forall i | 0 <= i < |jobs| ensures jobs[i].pid in pids {
          assert Starts(front)[i] in Starts(evs);
        }
        assert Noted(jobs, last.status) == jobs;
        assert Tracked(evs, pids) == Tracked(front, pids);
      } else {
        assert (Tracked(front, pids) + [last])[..|Tracked(front, pids)|] == Tracked(front, pids);
      }
    }
  }

  /* ---- What the table misses ---- */

  /** Where the last status reaped for p left it. */
  function LastStatus(evs: seq<Event>, p: int): JobState {
    if evs == [] then Running
    else if evs[|evs| - 1].Reaped? && evs[|evs| - 1].status.pid == p then StateAfter(evs[|evs| - 1].status.change)
    else LastStatus(evs[..|evs| - 1], p)
  }

  /** A status reaped between fork() and add_job() is dropped. The table then agrees with all
      that happened to the process if and only if that left it running, or the handler reaps
      another status later, or it was stopped and fg or bg resumes it. */
  lemma EarlyStatusIsLost(cap: nat, a: seq<Event>, p: int, cmd: string, b: seq<Event>)
    requires p !in Starts(a) && |Starts(a)| < cap
    ensures
      var k := |Starts(a)|;
      var early, jobs := LastStatus(a, p), Replay(cap, [], a + [Start(p, cmd)] + b);
      && k < |jobs|
      && (jobs[k].state == Word(b, p, k, early)
          <==> early == Running || Mentions(b, p) || (early == Stopped && Resumes(b, k)))
  {
    LastWordCounts(cap, a, p, cmd, b);
    var k, early := |Starts(a)|, LastStatus(a, p);
    if Mentions(b, p) {
      StatusForgets(b, p, k, Running, early);
    } else {
      WordWithoutStatus(b, p, k, Running);
      WordWithoutStatus(b, p, k, early);
    }
  }

  /** Once a status is reaped, where the job started from no longer matters. */
  lemma {:induction false} StatusForgets(evs: seq<Event>, p: int, k: int, s: JobState, t: JobState)
    requires Mentions(evs, p)
    ensures Word(evs, p, k, s) == Word(evs, p, k, t)
  {
    var front, last := evs[..|evs| - 1], evs[|evs| - 1];
    if !(last.Reaped? && last.status.pid == p) {
      var j :| 0 <= j < |evs| && evs[j].Reaped? && evs[j].status.pid == p;
      assert front[j] == evs[j];
      StatusForgets(front, p, k, s, t);
    }
  }

  /** The case in point: a command that ends before it is added stays listed as running. */
  lemma EndedBeforeAdded()
    ensures Replay(64, [], [Reaped(Status(7, Ended)), Start(7, "true")]) == [Job(7, "true", Running)]
  {
    var evs := [Reaped(Status(7, Ended)), Start(7, "true")];
    assert evs[..1] == [Reaped(Status(7, Ended))] && evs[..1][..0] == [];
    assert Replay(64, [], evs[..1]) == [];
  }

  /** When the kernel reuses a listed process id, every status goes to the first job that has
      it: the new job is shown as running for good. */
  lemma {:induction false} ReusedPidIsShadowed(cap: nat, a: seq<Event>, p: int, cmd: string, b: seq<Event>)
    requires p in Starts(a) && |Starts(a)| < cap
    ensures
      var k, jobs := |Starts(a)|, Replay(cap, [], a + [Start(p, cmd)] + b);
      k < |jobs| && jobs[k].pid == p && jobs[k].state == Running
  {
    var started := a + [Start(p, cmd)];
    ReplaySplit(cap, [], started, b);
    assert started[..|started| - 1] == a;
    TableIsStarts(cap, a);
    var i :| 0 <= i < |Starts(a)| && Starts(a)[i] == p;
    Shadowed(cap, Replay(cap, [], started), b, i, |Starts(a)|);
  }

  /** The table shows what happens to the process started as p after a. */
  ghost predicate Follows(cap: nat, a: seq<Event>, p: int, cmd: string, b: seq<Event>) {
    var k, jobs := |Starts(a)|, Replay(cap, [], a + [Start(p, cmd)] + b);
    k < |jobs| && jobs[k].pid == p && jobs[k].state == Word(b, p, k, Running)
  }

  /** A new job is shown right, whatever happens to it later, if and only if its process id is
      not listed already and the table has room. */
  lemma FollowsExactly(cap: nat, a: seq<Event>, p: int, cmd: string)
    ensures (forall b :: Follows(cap, a, p, cmd, b)) <==> p !in Starts(a) && |Starts(a)| < cap
  {
    var ended := [Reaped(Status(p, Ended))];
    if |Starts(a)| >= cap {
      TableIsStarts(cap, a + [Start(p, cmd)] + ended);
      assert !Follows(cap, a, p, cmd, ended);
    } else if p in Starts(a) {
      ReusedPidIsShadowed(cap, a, p, cmd, ended);
      assert Word(ended, p, |Starts(a)|, Running) == Done;
      assert !Follows(cap, a, p, cmd, ended);
    } else {
      forall b ensures Follows(cap, a, p, cmd, b) {
        LastWordCounts(cap, a, p, cmd, b);
      }
    }
  }

  lemma {:induction false} Shadowed(cap: nat, jobs: seq<Job>, b: seq<Event>, i: nat, k: nat)
    requires i < k < |jobs| && jobs[i].pid == jobs[k].pid && jobs[k].state == Running
    ensures
      var r := Replay(cap, jobs, b);
      k < |r| && r[i].pid == r[k].pid == jobs[k].pid && r[k].state == Running
  {
    if b != [] {
      Shadowed(cap, jobs, b[..|b| - 1], i, k);
    }
  }
}
