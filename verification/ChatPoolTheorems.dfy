/** What the thread-pool server guarantees in every interleaving. Each theorem is about the
    state `s == Run(Initial(n), acts)` that an arbitrary schedule of `n` workers leads to. */
module ChatPoolTheorems {
  import opened Prelude
  import opened ChatPool
  import opened ChatPoolInvariant
  import opened ChatPoolPreservation

  ghost predicate Reachable(s: State, n: nat, acts: seq<Action>) {
    Schedule(Initial(n), acts) && s == Run(Initial(n), acts)
  }

  lemma ReachableInv(s: State, n: nat, acts: seq<Action>)
    requires Reachable(s, n, acts)
    ensures Inv(s)
  {
    InitialInv(n);
    RunKeepsInv(Initial(n), acts);
  }

  lemma {:induction false} WorkerCountFixed(s: State, acts: seq<Action>)
    requires Schedule(s, acts)
    ensures |Run(s, acts).workers| == |s.workers|
    decreases |acts|
  {
    if acts != [] {
      StepFrame(s, acts[0]);
      WorkerCountFixed(Apply(s, acts[0]), acts[1..]);
    }
  }

  lemma StepFrame(s: State, a: Action)
    requires Enabled(s, a)
    ensures |Apply(s, a).workers| == |s.workers|
  {
    if a.MainStep? {
      MainFrame(s, a.pick);
    }
  }

  lemma MainFrame(s: State, pick: int)
    requires MainEnabled(s, pick)
    ensures |MainApply(s, pick).workers| == |s.workers|
  {}

  /* ---- Total order ---- */

  lemma {:induction false} ProjSorted(log: seq<Entry>, x: nat)
    ensures forall i :: 0 <= i < |Proj(log, x)| ==> Proj(log, x)[i] < |log| && x in log[Proj(log, x)[i]].to
    ensures forall i, j :: 0 <= i < j < |Proj(log, x)| ==> Proj(log, x)[i] < Proj(log, x)[j]
    ensures forall k :: 0 <= k < |log| && x in log[k].to ==> k in Proj(log, x)
  {
    if log != [] {
      var last := |log| - 1;
      var front, p := log[..last], Proj(log[..last], x);
      ProjSorted(front, x);
      forall k | 0 <= k < |log| && x in log[k].to ensures k in Proj(log, x) {
        if k < last {
          assert front[k] == log[k] && k in p;
        }
      }
    }
  }

  /** Any two sessions that both receive two messages receive them in the same order, whatever
      the interleaving: positions i < j in one inbox and k, l of the same messages in another
      satisfy k < l. */
  lemma TotalOrder(s: State, n: nat, acts: seq<Action>, x: nat, y: nat, i: nat, j: nat, k: nat, l: nat)
    requires Reachable(s, n, acts) && x < |s.hist.inbox| && y < |s.hist.inbox|
    requires i < j < |s.hist.inbox[x]| && k < |s.hist.inbox[y]| && l < |s.hist.inbox[y]|
    requires s.hist.inbox[x][i] == s.hist.inbox[y][k] && s.hist.inbox[x][j] == s.hist.inbox[y][l]
    ensures k < l
  {
    ReachableInv(s, n, acts);
    ProjSorted(s.hist.log, x);
    ProjSorted(s.hist.log, y);
    assert s.hist.inbox[x][i] == Proj(s.hist.log, x)[i] && s.hist.inbox[x][j] == Proj(s.hist.log, x)[j];
    assert s.hist.inbox[y][k] == Proj(s.hist.log, y)[k] && s.hist.inbox[y][l] == Proj(s.hist.log, y)[l];
  }

  /** Exactly-once delivery: whenever no broadcast is in progress, a message of the log is in a
      live session's inbox if and only if that session was registered, and not the sender, when
      the broadcaster got the list's mutex; and never twice. A dead session has got a prefix. */
  lemma ExactDelivery(s: State, n: nat, acts: seq<Action>, x: nat, m: nat)
    requires Reachable(s, n, acts) && x < s.hist.sessions && m < |s.hist.log|
    requires forall w :: 0 <= w < |s.workers| ==> !s.workers[w].Cast?
    ensures |s.hist.inbox| == s.hist.sessions
    ensures x !in s.dead ==> (m in s.hist.inbox[x] <==> x in s.hist.log[m].to)
    ensures m in s.hist.inbox[x] ==> x in s.hist.log[m].to
    ensures Distinct(s.hist.inbox[x])
  {
    ReachableInv(s, n, acts);
    ProjSorted(s.hist.log, x);
    var p := Proj(s.hist.log, x);
    assert s.hist.inbox[x] <= p;
    forall k | k in s.hist.inbox[x] ensures k in p {
      var i :| 0 <= i < |s.hist.inbox[x]| && s.hist.inbox[x][i] == k;
      assert p[i] == k;
    }
    if m in p {
      var i :| 0 <= i < |p| && p[i] == m;
    }
    forall i, j | 0 <= i < j < |s.hist.inbox[x]| ensures s.hist.inbox[x][i] != s.hist.inbox[x][j] {
      assert s.hist.inbox[x][i] == p[i] && s.hist.inbox[x][j] == p[j];
    }
  }

  lemma RegisteredSessions(ws: seq<WorkerPc>, clients: seq<int>, conn: map<int, nat>, me: int, x: nat)
    requires Registry(ws, clients) && me in conn
    requires forall f, g :: f in conn && g in conn && conn[f] == conn[g] ==> f == g
    ensures x in SessionsOf(conn, clients, me)
      <==> x != conn[me] && exists v, f :: ListedBy(ws, v, f) && f in conn && conn[f] == x
  {
    if x in SessionsOf(conn, clients, me) {
      var f :| f in clients && f != me && f in conn && conn[f] == x;
      var v :| ListedBy(ws, v, f);
    }
    if x != conn[me] && exists v, f :: ListedBy(ws, v, f) && f in conn && conn[f] == x {
      var v, f :| ListedBy(ws, v, f) && f in conn && conn[f] == x;
      assert f in clients && f != me;
    }
  }

  /** The recipients fixed when a broadcast begins are the sessions whose workers are registered
      at that moment, the sender excepted, each behind a descriptor that is still theirs. */
  lemma RecipientsAtLock(s: State, n: nat, acts: seq<Action>, w: nat, io: Io, x: nat)
    requires Reachable(s, n, acts) && WorkerEnabled(s, w, io) && s.workers[w].CastLock?
    ensures
      var log' := WorkerApply(s, w, io).hist.log;
      && |log'| == |s.hist.log| + 1 && s.workers[w].fd in s.conn
      && log'[|s.hist.log|].from == s.conn[s.workers[w].fd]
      && log'[|s.hist.log|].fd == s.workers[w].fd && log'[|s.hist.log|].data == s.workers[w].data
      && (x in log'[|s.hist.log|].to <==>
            x != log'[|s.hist.log|].from &&
            exists v, f :: ListedBy(s.workers, v, f) && f in s.conn && s.conn[f] == x)
  {
    ReachableInv(s, n, acts);
    RegisteredSessions(s.workers, s.list.fds, s.conn, s.workers[w].fd, x);
  }

  /** Sender order: read for one sender, the log is what recv returned for it, in that order;
      at most the newest message is still waiting for the list's mutex. */
  lemma SenderOrder(s: State, n: nat, acts: seq<Action>, x: nat)
    requires Reachable(s, n, acts) && x < s.hist.sessions
    ensures |s.hist.heard| == s.hist.sessions
    ensures
      || SentBy(s.hist.log, x) == s.hist.heard[x]
      || exists w :: InFlight(s.workers, s.conn, w, x) && SentBy(s.hist.log, x) + [s.workers[w].data] == s.hist.heard[x]
  {
    ReachableInv(s, n, acts);
    if exists w :: InFlight(s.workers, s.conn, w, x) {
      var w :| InFlight(s.workers, s.conn, w, x);
      assert SentBy(s.hist.log, x) + [s.workers[w].data] == s.hist.heard[x];
    }
  }

  /** A broadcast never loses data to its output buffer: with descriptors of an int and at most
      BUF_SIZE bytes received, the whole of both fits, so the truncating branch is dead. */
  lemma FrameIsWhole(fd: int, data: string)
    requires 0 <= fd < 0x8000_0000 && |data| <= BUF_SIZE
    ensures Frame(fd, data) == "[" + Decimal(fd) + "] " + data
    ensures |Frame(fd, data)| < OUT_SIZE
  {
    assert Pow10(10) == 10_000_000_000 by {
      assert Pow10(2) == 100 && Pow10(4) == 10000 && Pow10(6) == 1000000 && Pow10(8) == 100000000;
    }
    DecimalLength(fd, 10);
  }

  /** So a recipient can read off it who sent it, and what: between "[" and "] " stand the
      decimal digits of the sender's descriptor, and behind them the bytes received. */
  lemma FrameReads(fd: int, data: string) returns (digits: string)
    requires 0 <= fd < 0x8000_0000 && |data| <= BUF_SIZE
    ensures Frame(fd, data) == "[" + digits + "] " + data
    ensures NumberOf(digits) == fd && forall c <- digits :: IsDigit(c)
  {
    FrameIsWhole(fd, data);
    DecimalReads(fd);
    digits := Decimal(fd);
  }

  /* ---- Ownership ---- */

  /** Every open client descriptor is with the main thread, in the queue, or with a worker: in
      exactly one of these places, and with one worker at most, whatever numbers accept hands out. */
  lemma OneOwner(s: State, n: nat, acts: seq<Action>, fd: int)
    requires Reachable(s, n, acts)
    ensures fd in s.conn <==> Some(fd) == MainFd(s.main) || fd in s.q.fds || Served(s.workers, fd)
    ensures fd in s.q.fds ==> Some(fd) != MainFd(s.main) && !Served(s.workers, fd)
    ensures Some(fd) == MainFd(s.main) ==> !Served(s.workers, fd)
    ensures forall v, w :: Serves(s.workers, v, fd) && Serves(s.workers, w, fd) ==> v == w
    ensures Distinct(s.q.fds)
  {
    ReachableInv(s, n, acts);
    if Served(s.workers, fd) {
      var w :| Serves(s.workers, w, fd);
    }
  }

  /** The client list is duplicate-free, holds open descriptors only, and is no longer than the
      number of workers. */
  lemma ClientListSound(s: State, n: nat, acts: seq<Action>)
    requires Reachable(s, n, acts)
    ensures Distinct(s.list.fds) && (forall fd :: fd in s.list.fds ==> fd in s.conn)
    ensures |s.list.fds| <= n
  {
    ReachableInv(s, n, acts);
    WorkerCountFixed(Initial(n), acts);
    forall fd | fd in s.list.fds ensures fd in s.conn {
      ListedIsOpen(s, fd);
    }
    ListedCount(s.workers, s.list.fds, |s.workers|);
  }

  /** A duplicate-free list all of whose members are listed by one of the first k workers. */
  lemma {:induction false} ListedCount(ws: seq<WorkerPc>, clients: seq<int>, k: nat)
    requires k <= |ws| && Distinct(clients)
    requires forall fd :: fd in clients ==> exists w :: w < k && ListedBy(ws, w, fd)
    ensures |clients| <= k
    decreases k
  {
    if k == 0 {
      forall fd ensures fd !in clients {
        assert !exists w :: w < 0 && ListedBy(ws, w, fd);
      }
      NobodyIn(clients);
    } else if FdOf(ws[k - 1]).Some? {
      var fd' := FdOf(ws[k - 1]).value;
      RemoveFirstDistinct(clients, fd');
      forall fd | fd in RemoveFirst(clients, fd') ensures exists w :: w < k - 1 && ListedBy(ws, w, fd) {
        var w :| w < k && ListedBy(ws, w, fd);
      }
      ListedCount(ws, RemoveFirst(clients, fd'), k - 1);
    } else {
      forall fd | fd in clients ensures exists w :: w < k - 1 && ListedBy(ws, w, fd) {
        var w :| w < k && ListedBy(ws, w, fd);
      }
      ListedCount(ws, clients, k - 1);
    }
  }

  /* ---- The queue ---- */

  /** First in, first out: what was popped is a prefix of what was pushed, and the queue is the rest. */
  lemma QueueIsFifo(s: State, n: nat, acts: seq<Action>)
    requires Reachable(s, n, acts)
    ensures s.hist.popped <= s.hist.pushed && s.q.fds == s.hist.pushed[|s.hist.popped|..]
  {
    ReachableInv(s, n, acts);
  }

  lemma {:induction false} RechecksPositive(ws: seq<WorkerPc>)
    requires Rechecks(ws) > 0
    ensures exists w :: 0 <= w < |ws| && Rechecking(ws[w])
  {
    if !Rechecking(ws[0]) {
      RechecksPositive(ws[1..]);
      var w :| 0 <= w < |ws[1..]| && Rechecking(ws[1..][w]);
      assert Rechecking(ws[w + 1]);
    }
  }

  /** No lost wake-up: a queued job never meets only sleepers. Unless the main thread is about
      to signal, either nobody sleeps or some worker is awake and on its way to the queue. */
  lemma NoLostWakeup(s: State, n: nat, acts: seq<Action>)
    requires Reachable(s, n, acts) && s.q.fds != [] && !s.main.MPushSignal?
    ensures NoneAsleep(s.workers) || exists w :: 0 <= w < |s.workers| && Rechecking(s.workers[w])
  {
    ReachableInv(s, n, acts);
    if !NoneAsleep(s.workers) {
      RechecksPositive(s.workers);
    }
  }

  /** jobq_pop gives up only when the queue is closed and empty, and once jobq_close has returned
      nobody waits, or ever waits again. */
  lemma CloseReleasesEverybody(s: State, n: nat, acts: seq<Action>)
    requires Reachable(s, n, acts)
    ensures forall w :: 0 <= w < |s.workers| && s.workers[w].PopNoneUnlock? ==> s.q.closed && s.q.fds == []
    ensures s.q.closed && !s.main.MCloseWake? ==> NoneAsleep(s.workers)
    ensures s.main.MCloseUnlock? || s.main.MJoin? || Joined(s.main) ==> s.q.closed
  {
    ReachableInv(s, n, acts);
  }

  lemma StepKeepsClosed(s: State, a: Action)
    requires Enabled(s, a) && s.q.closed && !s.main.MCloseWake? && Inv(s)
    ensures Apply(s, a).q.closed && !Apply(s, a).main.MCloseWake?
  {}

  lemma {:induction false} ClosedForGood(s: State, acts: seq<Action>)
    requires Inv(s) && s.q.closed && !s.main.MCloseWake? && Schedule(s, acts)
    ensures NoneAsleep(Run(s, acts).workers) && Run(s, acts).q.closed
    decreases |acts|
  {
    if acts != [] {
      StepKeepsClosed(s, acts[0]);
      StepKeepsInv(s, acts[0]);
      ClosedForGood(Apply(s, acts[0]), acts[1..]);
    }
  }

  /* ---- Progress ---- */

  /** Thread t can take a step of its own. In accept and recv it waits for nobody in here: what
      comes from outside, an error or the end of a stream included, lets it go on. */
  ghost predicate Steps(s: State, t: Thread) {
    match t
    case MainThread => exists pick :: MainEnabled(s, pick)
    case WorkerThread(w) => exists io :: WorkerEnabled(s, w, io)
  }

  /** Main until it has returned; a worker that neither sleeps on the condition nor has left. */
  predicate Alive(s: State, t: Thread) {
    match t
    case MainThread => !s.main.MExit?
    case WorkerThread(w) => w < |s.workers| && !s.workers[w].Asleep? && !s.workers[w].Exited?
  }

  /** The thread that holds the mutex t wants. */
  function WaitsFor(s: State, t: Thread): Option<Thread> {
    match t
    case MainThread =>
      if s.main.MPushLock? || s.main.MCloseLock? then s.q.owner
      else if s.main.MFinalLock? then s.list.owner
      else None
    case WorkerThread(w) =>
      if w >= |s.workers| then None
      else if s.workers[w].PopLock? || s.workers[w].Woken? then s.q.owner
      else if s.workers[w].AddLock? || s.workers[w].CastLock? || s.workers[w].RemoveLock? then s.list.owner
      else None
  }

  /** A worker that is neither asleep nor gone can step as soon as the mutex it wants is free. */
  lemma AwakeWorkerSteps(s: State, w: nat)
    requires Inv(s) && w < |s.workers| && !s.workers[w].Asleep? && !s.workers[w].Exited?
    requires s.workers[w].PopLock? || s.workers[w].Woken? ==> s.q.owner == None
    requires s.workers[w].AddLock? || s.workers[w].CastLock? || s.workers[w].RemoveLock? ==> s.list.owner == None
    ensures WorkerEnabled(s, w, Eof)
  {
    var p := s.workers[w];
    assert FdOf(p).Some? ==> Serves(s.workers, w, FdOf(p).value);
    if p.Cast? && p.rest != [] {
      assert p.rest[0] in p.rest;
      ListedIsOpen(s, p.rest[0]);
    }
  }

  lemma MainSteps(s: State)
    requires Inv(s) && Alive(s, MainThread) && WaitsFor(s, MainThread) == None && !s.main.MJoin?
    ensures Steps(s, MainThread)
  {
    if s.main.MPushSignal? && exists w :: 0 <= w < |s.workers| && s.workers[w].Asleep? {
      var w :| 0 <= w < |s.workers| && s.workers[w].Asleep?;
      assert MainEnabled(s, w);
    } else {
      assert MainEnabled(s, -1);
    }
  }

  /** Whoever holds a mutex can itself step: it waits for nothing and for nobody. So no two
      threads wait for each other, nor any number of them in a circle. */
  lemma HolderSteps(s: State, owner: Option<Thread>)
    requires Inv(s) && owner.Some? && (owner == s.q.owner || owner == s.list.owner)
    ensures Alive(s, owner.value) && WaitsFor(s, owner.value) == None && Steps(s, owner.value)
  {
    match owner.value
    case MainThread =>
      assert MainHoldsQ(s.main) || MainHoldsC(s.main);
      MainSteps(s);
    case WorkerThread(w) =>
      assert HoldsQ(s.workers[w]) || HoldsC(s.workers[w]);
      AwakeWorkerSteps(s, w);
  }

  /** No deadlock, thread by thread: in every reachable state each thread that is neither asleep
      nor gone can step, or waits for a mutex whose holder can, or is main waiting for workers to
      end, one of which is neither asleep nor gone. */
  lemma NoDeadlock(s: State, n: nat, acts: seq<Action>, t: Thread)
    requires Reachable(s, n, acts) && Alive(s, t)
    ensures
      || Steps(s, t)
      || (WaitsFor(s, t).Some? && Steps(s, WaitsFor(s, t).value))
      || (t.MainThread? && s.main.MJoin? && exists w: nat :: Alive(s, WorkerThread(w)))
  {
    ReachableInv(s, n, acts);
    if WaitsFor(s, t).Some? {
      HolderSteps(s, WaitsFor(s, t));
    } else if t.WorkerThread? {
      AwakeWorkerSteps(s, t.w);
    } else if !s.main.MJoin? {
      MainSteps(s);
    } else if exists w :: 0 <= w < |s.workers| && !s.workers[w].Exited? {
      var w: nat :| w < |s.workers| && !s.workers[w].Exited?;
      assert Alive(s, WorkerThread(w));
    } else {
      assert MainEnabled(s, -1);
    }
  }

  /* ---- Shutdown ---- */

  /** When main returns every worker has left, the client list it walks to close "remaining"
      clients is empty, and the descriptors still open are exactly those nobody took from the
      queue. So everything is closed if and only if the queue was drained. */
  lemma AfterShutdown(s: State, n: nat, acts: seq<Action>)
    requires Reachable(s, n, acts) && s.main.MExit?
    ensures forall w :: 0 <= w < |s.workers| ==> s.workers[w].Exited?
    ensures s.list.fds == []
    ensures forall fd :: fd in s.conn <==> fd in s.q.fds
    ensures s.conn == map[] <==> s.q.fds == []
  {
    ReachableInv(s, n, acts);
    AllGone(s.workers, s.list.fds);
    forall fd ensures fd in s.conn <==> fd in s.q.fds {
      OneOwner(s, n, acts, fd);
    }
    if s.q.fds != [] {
      assert s.q.fds[0] in s.q.fds;
    }
    assert s.q.fds == [] ==> s.conn.Keys == {};
  }

  ghost predicate Leads(s: State, t: State) {
    exists acts :: Schedule(s, acts) && Run(s, acts) == t
  }

  lemma LeadsStep(s: State, a: Action, t: State, end: State)
    requires Enabled(s, a) && Apply(s, a) == t && Leads(t, end)
    ensures Leads(s, end)
  {
    var acts :| Schedule(t, acts) && Run(t, acts) == end;
    assert ([a] + acts)[1..] == acts;
    assert Schedule(s, [a] + acts);
  }

  lemma LeadsNowhere(s: State)
    ensures Leads(s, s)
  {
    assert Schedule(s, []);
  }

  /** The one-worker state in which descriptor 5 has been accepted and queued. */
  function Queued(running: bool, owner: Option<Thread>, closed: bool, lock: Option<Thread>, m: MainPc,
      w: WorkerPc): State {
    State(running, JobQueue(owner, [5], closed), ClientList(lock, []), m, [w], map[5 := 0], {},
          History(1, [[]], [], [[]], [5], []))
  }

  const LEFT_OPEN: State := Queued(false, None, true, None, MExit, Exited)

  lemma LeakFinish()
    ensures Leads(Queued(false, None, true, None, MJoin, Exited), LEFT_OPEN)
  {
    var me := Some(MainThread);
    LeadsNowhere(LEFT_OPEN);
    LeadsStep(Queued(false, None, true, me, MFinalUnlock, Exited), MainStep(0), LEFT_OPEN, LEFT_OPEN);
    LeadsStep(Queued(false, None, true, me, MFinal([]), Exited), MainStep(0),
        Queued(false, None, true, me, MFinalUnlock, Exited), LEFT_OPEN);
    LeadsStep(Queued(false, None, true, None, MFinalLock, Exited), MainStep(0),
        Queued(false, None, true, me, MFinal([]), Exited), LEFT_OPEN);
    LeadsStep(Queued(false, None, true, None, MJoin, Exited), MainStep(0),
        Queued(false, None, true, None, MFinalLock, Exited), LEFT_OPEN);
  }

  lemma LeakClose()
    ensures Leads(Queued(false, None, false, None, MCloseLock, Exited), LEFT_OPEN)
  {
    LeakFinish();
    var me := Some(MainThread);
    assert WakeAll([Exited]) == [Exited];
    LeadsStep(Queued(false, me, true, None, MCloseUnlock, Exited), MainStep(0),
        Queued(false, None, true, None, MJoin, Exited), LEFT_OPEN);
    LeadsStep(Queued(false, me, true, None, MCloseWake, Exited), MainStep(0),
        Queued(false, me, true, None, MCloseUnlock, Exited), LEFT_OPEN);
    LeadsStep(Queued(false, me, false, None, MCloseSet, Exited), MainStep(0),
        Queued(false, me, true, None, MCloseWake, Exited), LEFT_OPEN);
    LeadsStep(Queued(false, None, false, None, MCloseLock, Exited), MainStep(0),
        Queued(false, me, false, None, MCloseSet, Exited), LEFT_OPEN);
  }

  lemma LeakLeave()
    ensures Leads(Queued(true, None, false, None, MTop, Top), LEFT_OPEN)
  {
    LeakClose();
    LeadsStep(Queued(false, None, false, None, MTop, Exited), MainStep(0),
        Queued(false, None, false, None, MCloseLock, Exited), LEFT_OPEN);
    LeadsStep(Queued(false, None, false, None, MTop, Top), WorkerStep(0, Eof),
        Queued(false, None, false, None, MTop, Exited), LEFT_OPEN);
    LeadsStep(Queued(true, None, false, None, MTop, Top), Stop, Queued(false, None, false, None, MTop, Top), LEFT_OPEN);
  }

  lemma LeakPush()
    ensures Leads(Queued(true, Some(MainThread), false, None, MPushSignal, Top), LEFT_OPEN)
  {
    LeakLeave();
    var me := Some(MainThread);
    LeadsStep(Queued(true, me, false, None, MPushUnlock, Top), MainStep(0),
        Queued(true, None, false, None, MTop, Top), LEFT_OPEN);
    LeadsStep(Queued(true, me, false, None, MPushSignal, Top), MainStep(0),
        Queued(true, me, false, None, MPushUnlock, Top), LEFT_OPEN);
  }

  /** The clean-up promised for shutdown can miss a client. One connection is accepted as
      descriptor 5 and queued, a stop request arrives, the only worker starts and leaves at once,
      and main shuts down: it has returned, and descriptor 5 is still open, in the queue. */
  lemma ShutdownCanLeaveOpen()
    ensures Leads(Initial(1), LEFT_OPEN)
    ensures LEFT_OPEN.main.MExit? && LEFT_OPEN.q.fds == [5] && 5 in LEFT_OPEN.conn
  {
    LeakPush();
    var s1 := Initial(1).(main := MAccept);
    var s2 := Apply(s1, MainStep(5));
    var s3 := Apply(s2, MainStep(0));
    assert Initial(1).workers == [Top] && s3.main == MPushLink(5);
    LeadsStep(s3, MainStep(0), Queued(true, Some(MainThread), false, None, MPushSignal, Top), LEFT_OPEN);
    LeadsStep(s2, MainStep(0), s3, LEFT_OPEN);
    LeadsStep(s1, MainStep(5), s2, LEFT_OPEN);
    LeadsStep(Initial(1), MainStep(0), s1, LEFT_OPEN);
  }
}
