/** What becomes of one connection: what a worker does with each answer of recv, and what a stop
    request changes. As in the other theorems, runs are arbitrary interleavings. */
module ChatPoolServing {
  import opened Prelude
  import opened ChatPool
  import opened ChatPoolInvariant
  import opened ChatPoolPreservation
  import opened ChatPoolTheorems

  /** The action is worker w's return from recv. */
  predicate Receives(s: State, a: Action, w: nat) {
    a.WorkerStep? && a.w == w && w < |s.workers| && s.workers[w].Recv?
  }

  /** The action is worker w's taking a job off the queue. */
  predicate Takes(s: State, a: Action, w: nat) {
    a.WorkerStep? && a.w == w && w < |s.workers| && s.workers[w].PopTake?
  }

  /* ---- The last answer ---- */

  /** What recv has last answered worker w for the connection it serves. */
  function LastAnswer(s: State, acts: seq<Action>, w: nat, last: Option<Io>): Option<Io>
    requires Schedule(s, acts)
    decreases |acts|
  {
    if acts == [] then last
    else LastAnswer(Apply(s, acts[0]), acts[1..], w, NextAnswer(s, acts[0], w, last))
  }

  function NextAnswer(s: State, a: Action, w: nat, last: Option<Io>): Option<Io> {
    if Receives(s, a, w) then Some(a.io) else if Takes(s, a, w) then None else last
  }

  predicate IsEnd(last: Option<Io>) { last == Some(Eof) || last == Some(Error) }

  /** From taking the list's mutex for the unlinking to closing the descriptor. */
  predicate Departing(p: WorkerPc) { p.RemoveLock? || p.RemoveUnlink? || p.RemoveUnlock? || p.Close? }

  ghost predicate ServesOn(s: State, w: nat, last: Option<Io>) {
    s.running && w < |s.workers| && FdOf(s.workers[w]).Some? ==> (Departing(s.workers[w]) <==> IsEnd(last))
  }

  /** What one action does to worker w, when it is not its own: at most it wakes it. */
  lemma Untouched(s: State, a: Action, w: nat)
    requires Enabled(s, a) && w < |s.workers| && !(a.WorkerStep? && a.w == w)
    ensures w < |Apply(s, a).workers|
    ensures Apply(s, a).workers[w] == s.workers[w] || (s.workers[w].Asleep? && Apply(s, a).workers[w].Woken?)
  {}

  lemma StaysStopped(s: State, a: Action)
    requires Enabled(s, a) && !s.running
    ensures !Apply(s, a).running
  {}

  lemma ServesOnStep(s: State, a: Action, w: nat, last: Option<Io>)
    requires Enabled(s, a) && w < |s.workers| && ServesOn(s, w, last)
    ensures ServesOn(Apply(s, a), w, NextAnswer(s, a, w, last))
  {
    if !s.running {
      StaysStopped(s, a);
    } else if !(a.WorkerStep? && a.w == w) {
      Untouched(s, a, w);
    }
  }

  lemma {:induction false} ServesOnRun(s: State, acts: seq<Action>, w: nat, last: Option<Io>)
    requires Schedule(s, acts) && w < |s.workers| && ServesOn(s, w, last)
    ensures ServesOn(Run(s, acts), w, LastAnswer(s, acts, w, last))
    decreases |acts|
  {
    if acts != [] {
      var a, t := acts[0], Apply(s, acts[0]);
      StepFrame(s, a);
      ServesOnStep(s, a, w, last);
      ServesOnRun(t, acts[1..], w, NextAnswer(s, a, w, last));
    }
  }

  /** As long as no stop is requested, a worker is on its way to unlinking and closing the
      descriptor it serves if and only if recv's last answer for it was the end of the stream
      or an error. */
  lemma DepartsExactlyAtTheEnd(s: State, n: nat, acts: seq<Action>, w: nat)
    requires Reachable(s, n, acts) && s.running && w < n && w < |s.workers| && FdOf(s.workers[w]).Some?
    ensures Departing(s.workers[w]) <==> IsEnd(LastAnswer(Initial(n), acts, w, None))
  {
    ServesOnRun(Initial(n), acts, w, None);
  }

  /** And only such a worker takes anything out of the client list or closes anything. */
  lemma RemovedOnlyAtTheEnd(s: State, n: nat, acts: seq<Action>, a: Action, fd: int)
    requires Reachable(s, n, acts) && s.running && Enabled(s, a)
    requires (fd in s.list.fds && fd !in Apply(s, a).list.fds) || (fd in s.conn && fd !in Apply(s, a).conn)
    ensures a.WorkerStep? && a.w < |s.workers| && FdOf(s.workers[a.w]) == Some(fd)
    ensures IsEnd(LastAnswer(Initial(n), acts, a.w, None))
  {
    ReachableInv(s, n, acts);
    WorkerCountFixed(Initial(n), acts);
    WhileRunning(s, n, acts);
    if a.WorkerStep? {
      RemovalIsMine(s, a.w, a.io, fd);
      DepartsExactlyAtTheEnd(s, n, acts, a.w);
    }
  }

  lemma RemovalIsMine(s: State, w: nat, io: Io, fd: int)
    requires Inv(s) && WorkerEnabled(s, w, io)
    requires
      var t := WorkerApply(s, w, io);
      (fd in s.list.fds && fd !in t.list.fds) || (fd in s.conn && fd !in t.conn)
    ensures FdOf(s.workers[w]) == Some(fd) && Departing(s.workers[w])
  {
    if s.workers[w].RemoveUnlink? {
      RemoveFirstDistinct(s.list.fds, s.workers[w].fd);
    }
  }

  /** "Try again" is taken as such: the worker goes back to its loop, and nothing else changes. */
  lemma AgainChangesNothing(s: State, w: nat)
    requires WorkerEnabled(s, w, Again) && s.workers[w].Recv?
    ensures
      var t, fd := Apply(s, WorkerStep(w, Again)), s.workers[w].fd;
      && t.list == s.list && t.conn == s.conn && t.q == s.q && t.hist == s.hist && t.main == s.main
      && t.workers == s.workers[w := RecvTop(fd)]
  {}

  /* ---- After the end ---- */

  /** The place of a departing worker, in order. */
  function Place(p: WorkerPc, fd: int): int {
    if p == RemoveLock(fd) then 0
    else if p == RemoveUnlink(fd) then 1
    else if p == RemoveUnlock(fd) then 2
    else if p == Close(fd) then 3
    else -1
  }

  function OwnSteps(acts: seq<Action>, w: nat): nat {
    if acts == [] then 0 else (if acts[0].WorkerStep? && acts[0].w == w then 1 else 0) + OwnSteps(acts[1..], w)
  }

  lemma DepartingStep(s: State, a: Action, w: nat, fd: int)
    requires Enabled(s, a) && w < |s.workers| && 0 <= Place(s.workers[w], fd) < 3
    ensures w < |Apply(s, a).workers|
    ensures Place(Apply(s, a).workers[w], fd) == Place(s.workers[w], fd) + OwnSteps([a], w)
  {
    assert [a][1..] == [];
    if !(a.WorkerStep? && a.w == w) {
      Untouched(s, a, w);
    }
  }

  lemma {:induction false} DepartingRun(s: State, acts: seq<Action>, w: nat, fd: int)
    requires Schedule(s, acts) && w < |s.workers| && 0 <= Place(s.workers[w], fd)
    requires Place(s.workers[w], fd) + OwnSteps(acts, w) <= 3
    ensures w < |Run(s, acts).workers|
    ensures Place(Run(s, acts).workers[w], fd) == Place(s.workers[w], fd) + OwnSteps(acts, w)
    decreases |acts|
  {
    if acts != [] {
      var a := acts[0];
      if a.WorkerStep? && a.w == w {
        DepartingStep(s, a, w, fd);
        assert [a][1..] == [];
      } else {
        Untouched(s, a, w);
      }
      DepartingRun(Apply(s, a), acts[1..], w, fd);
    }
  }

  /** After the end of a stream, or an error, the worker's own next steps are: get the list's
      mutex, unlink the descriptor, release the mutex, close the descriptor. Whatever the others
      do meanwhile, it does not receive again, the descriptor is off the list after the second
      and not open after the fourth, and until then it belongs to nobody else. */
  lemma EndLeadsToClose(s: State, n: nat, before: seq<Action>, w: nat, io: Io, acts: seq<Action>)
    requires Reachable(s, n, before) && WorkerEnabled(s, w, io) && s.workers[w].Recv? && (io.Eof? || io.Error?)
    requires Schedule(Apply(s, WorkerStep(w, io)), acts) && OwnSteps(acts, w) <= 3
    ensures
      var t, fd, k := Run(Apply(s, WorkerStep(w, io)), acts), s.workers[w].fd, OwnSteps(acts, w);
      && w < |t.workers| && fd in t.conn && (fd in t.list.fds <==> k < 2)
      && (k == 0 ==> t.workers[w] == RemoveLock(fd))
      && (k == 1 ==> t.workers[w] == RemoveUnlink(fd))
      && (k == 2 ==> t.workers[w] == RemoveUnlock(fd))
      && (k == 3 ==> t.workers[w] == Close(fd))
  {
    ReachableInv(s, n, before);
    StepKeepsInv(s, WorkerStep(w, io));
    FromLockToClose(Apply(s, WorkerStep(w, io)), acts, w, s.workers[w].fd);
  }

  lemma FromLockToClose(s: State, acts: seq<Action>, w: nat, fd: int)
    requires Inv(s) && Schedule(s, acts) && w < |s.workers| && s.workers[w] == RemoveLock(fd) && OwnSteps(acts, w) <= 3
    ensures
      var t, k := Run(s, acts), OwnSteps(acts, w);
      && w < |t.workers| && fd in t.conn && (fd in t.list.fds <==> k < 2) && Place(t.workers[w], fd) == k
  {
    DepartingRun(s, acts, w, fd);
    RunKeepsInv(s, acts);
    DepartingPlace(Run(s, acts), w, fd);
  }

  /** The last of these steps: the descriptor is closed, and the worker is free for the next job. */
  lemma CloseCloses(s: State, w: nat, io: Io)
    requires WorkerEnabled(s, w, io) && s.workers[w].Close?
    ensures
      var t := Apply(s, WorkerStep(w, io));
      t.conn == s.conn - {s.workers[w].fd} && t.workers == s.workers[w := Top] && t.list == s.list
  {}

  lemma DepartingPlace(t: State, w: nat, fd: int)
    requires Inv(t) && w < |t.workers| && 0 <= Place(t.workers[w], fd)
    ensures fd in t.conn && (fd in t.list.fds <==> Place(t.workers[w], fd) < 2)
  {
    assert Serves(t.workers, w, fd);
    if Place(t.workers[w], fd) < 2 {
      assert ListedBy(t.workers, w, fd);
    } else if fd in t.list.fds {
      var v :| ListedBy(t.workers, v, fd);
      assert Serves(t.workers, v, fd);
    }
  }

  /* ---- What was received ---- */

  /** What recv has answered with for session x, in order. */
  function Received(s: State, acts: seq<Action>, x: nat): seq<string>
    requires Schedule(s, acts)
    decreases |acts|
  {
    if acts == [] then []
    else
      (if HeardNow(s, acts[0], x) then [acts[0].io.bytes] else []) + Received(Apply(s, acts[0]), acts[1..], x)
  }

  predicate HeardNow(s: State, a: Action, x: nat) {
    && a.WorkerStep? && Receives(s, a, a.w) && a.io.Data?
    && s.workers[a.w].fd in s.conn && s.conn[s.workers[a.w].fd] == x
  }

  function HeardOf(s: State, x: nat): seq<string> {
    if x < |s.hist.heard| then s.hist.heard[x] else []
  }

  lemma HeardStep(s: State, a: Action, x: nat)
    requires Enabled(s, a)
    ensures HeardOf(Apply(s, a), x) == HeardOf(s, x) + if HeardNow(s, a, x) then [a.io.bytes] else []
  {}

  lemma {:induction false} HeardRun(s: State, acts: seq<Action>, x: nat)
    requires Schedule(s, acts)
    ensures HeardOf(Run(s, acts), x) == HeardOf(s, x) + Received(s, acts, x)
    decreases |acts|
  {
    if acts != [] {
      HeardStep(s, acts[0], x);
      HeardRun(Apply(s, acts[0]), acts[1..], x);
    }
  }

  /** What the order of senders is about is what recv returned: for every session the answers
      with data, complete and in order. */
  lemma HeardIsReceived(s: State, n: nat, acts: seq<Action>, x: nat)
    requires Reachable(s, n, acts) && x < s.hist.sessions
    ensures |s.hist.heard| == s.hist.sessions && s.hist.heard[x] == Received(Initial(n), acts, x)
  {
    ReachableInv(s, n, acts);
    HeardRun(Initial(n), acts, x);
  }

  /* ---- What was accepted ---- */

  /** What accept() has returned, in order. */
  function Accepts(s: State, acts: seq<Action>): seq<int>
    requires Schedule(s, acts)
    decreases |acts|
  {
    if acts == [] then []
    else
      var a := acts[0];
      (if a.MainStep? && s.main.MAccept? && a.pick >= 0 then [a.pick] else []) + Accepts(Apply(s, a), acts[1..])
  }

  function Handed(s: State): seq<int> {
    s.hist.pushed + if MainFd(s.main).Some? then [MainFd(s.main).value] else []
  }

  lemma HandedStep(s: State, a: Action)
    requires Enabled(s, a)
    ensures Handed(Apply(s, a)) == Handed(s) + if a.MainStep? && s.main.MAccept? && a.pick >= 0 then [a.pick] else []
  {}

  lemma {:induction false} HandedRun(s: State, acts: seq<Action>)
    requires Schedule(s, acts)
    ensures Handed(Run(s, acts)) == Handed(s) + Accepts(s, acts)
    decreases |acts|
  {
    if acts != [] {
      HandedStep(s, acts[0]);
      HandedRun(Apply(s, acts[0]), acts[1..]);
    }
  }

  /** Everything accepted goes into the queue, once and in order; at most the newest connection
      is still in main's hands. */
  lemma AcceptedIsQueued(s: State, n: nat, acts: seq<Action>)
    requires Reachable(s, n, acts)
    ensures Accepts(Initial(n), acts) == s.hist.pushed + if MainFd(s.main).Some? then [MainFd(s.main).value] else []
  {
    HandedRun(Initial(n), acts);
  }

  /* ---- Until a stop is requested, and after ---- */

  predicate Accepting(m: MainPc) {
    m.MTop? || m.MAccept? || m.MPushLock? || m.MPushLink? || m.MPushSignal? || m.MPushUnlock?
  }

  ghost predicate InService(s: State) {
    s.running ==> Accepting(s.main) && !s.q.closed && forall p <- s.workers :: !p.Exited? && !p.PopNoneUnlock?
  }

  lemma ServiceStep(s: State, a: Action)
    requires Enabled(s, a) && InService(s)
    ensures InService(Apply(s, a))
  {
    if s.running {
      var t := Apply(s, a);
      forall p | p in t.workers && t.running ensures !p.Exited? && !p.PopNoneUnlock? {
        var w :| 0 <= w < |t.workers| && t.workers[w] == p;
        StepFrame(s, a);
        if !(a.WorkerStep? && a.w == w) {
          Untouched(s, a, w);
          assert s.workers[w] in s.workers;
        } else {
          assert s.workers[w] in s.workers;
        }
      }
    }
  }

  lemma {:induction false} ServiceRun(s: State, acts: seq<Action>)
    requires Schedule(s, acts) && InService(s)
    ensures InService(Run(s, acts))
    decreases |acts|
  {
    if acts != [] {
      ServiceStep(s, acts[0]);
      ServiceRun(Apply(s, acts[0]), acts[1..]);
    }
  }

  /** Until a stop is requested main accepts, the queue is open and no worker leaves. */
  lemma WhileRunning(s: State, n: nat, acts: seq<Action>)
    requires Reachable(s, n, acts) && s.running
    ensures Accepting(s.main) && !s.q.closed && forall w :: 0 <= w < |s.workers| ==> !s.workers[w].Exited?
  {
    ServiceRun(Initial(n), acts);
    forall w | 0 <= w < |s.workers| ensures !s.workers[w].Exited? {
      assert s.workers[w] in s.workers;
    }
  }

  function Count(s: State, acts: seq<Action>, what: (State, Action) -> bool): nat
    requires Schedule(s, acts)
    decreases |acts|
  {
    if acts == [] then 0 else (if what(s, acts[0]) then 1 else 0) + Count(Apply(s, acts[0]), acts[1..], what)
  }

  predicate Popping(p: WorkerPc) { p.PopLock? || p.PopTest? || p.Asleep? || p.Woken? || p.PopTake? }

  /** Once a stop is requested each worker returns from at most one more recv, namely when it was
      in it, and takes at most one more job, namely when it was on its way to one. */
  lemma {:induction false} StopIsPrompt(s: State, acts: seq<Action>, w: nat)
    requires Schedule(s, acts) && !s.running && w < |s.workers|
    ensures Count(s, acts, (t: State, a: Action) => Receives(t, a, w)) <= if s.workers[w].Recv? then 1 else 0
    ensures Count(s, acts, (t: State, a: Action) => Takes(t, a, w)) <= if Popping(s.workers[w]) then 1 else 0
    decreases |acts|
  {
    if acts != [] {
      var a := acts[0];
      StaysStopped(s, a);
      StepFrame(s, a);
      if !(a.WorkerStep? && a.w == w) {
        Untouched(s, a, w);
      }
      StopIsPrompt(Apply(s, a), acts[1..], w);
    }
  }
}
