/** Every step of every thread, and of the environment, preserves the invariant. */
module ChatPoolPreservation {
  import opened Prelude
  import opened ChatPool
  import opened ChatPoolInvariant

  /* ---- What a worker's move looks like to each clause ---- */

  lemma MoveAndLocks(s: State, w: nat, io: Io)
    requires WorkerEnabled(s, w, io)
    ensures
      var p, (pc, e) := s.workers[w], WorkerMove(s, w, io);
      && (e.LockQueue? ==> s.q.owner == None && HoldsQ(pc))
      && (e.UnlockQueue? ==> HoldsQ(p) && !HoldsQ(pc))
      && (!e.LockQueue? && !e.UnlockQueue? ==> HoldsQ(p) == HoldsQ(pc))
      && (e.LockList? || e.BeginCast? ==> s.list.owner == None && HoldsC(pc))
      && (e.UnlockList? ==> HoldsC(p) && !HoldsC(pc))
      && (!e.LockList? && !e.BeginCast? && !e.UnlockList? ==> HoldsC(p) == HoldsC(pc))
      && (e.Link? || e.Unlink? || e.Deliver? ==> HoldsC(p))
  {}

  lemma MoveAndDescriptor(s: State, w: nat, io: Io)
    requires WorkerEnabled(s, w, io)
    ensures
      var p, (pc, e) := s.workers[w], WorkerMove(s, w, io);
      && (e.TakeJob? ==> p.PopTake? && s.q.fds != [] && FdOf(p) == None && FdOf(pc) == Some(s.q.fds[0]))
      && (e.CloseFd? ==> p.Close? && FdOf(p) == Some(e.fd) && FdOf(pc) == None)
      && (!e.TakeJob? && !e.CloseFd? ==> FdOf(p) == FdOf(pc))
      && (e.Link? ==> FdOf(p) == Some(e.fd) && !IsListed(p) && IsListed(pc))
      && (e.Unlink? ==> FdOf(p) == Some(e.fd) && IsListed(p) && !IsListed(pc))
      && (!e.Link? && !e.Unlink? ==> IsListed(p) == IsListed(pc))
      && (IsListed(p) ==> !e.TakeJob? && !e.CloseFd?)
  {}

  lemma MoveAndQueue(s: State, w: nat, io: Io)
    requires WorkerEnabled(s, w, io)
    ensures
      var p, (pc, e) := s.workers[w], WorkerMove(s, w, io);
      && (e.TakeJob? <==> p.PopTake?)
      && (p.PopTake? ==> s.q.fds != [] && !pc.PopTake? && !pc.PopNoneUnlock?)
      && (pc.PopTake? ==> s.q.fds != [])
      && (pc.PopNoneUnlock? ==> s.q.fds == [] && s.q.closed)
  {}

  lemma WorkerLocks(s: State, w: nat, io: Io)
    requires WorkerEnabled(s, w, io)
    requires Lock(s.workers, HoldsQ, MainHoldsQ(s.main), s.q.owner)
    requires Lock(s.workers, HoldsC, MainHoldsC(s.main), s.list.owner)
    ensures
      var t := WorkerApply(s, w, io);
      Lock(t.workers, HoldsQ, MainHoldsQ(t.main), t.q.owner) &&
        Lock(t.workers, HoldsC, MainHoldsC(t.main), t.list.owner)
  {
    var (pc, e) := WorkerMove(s, w, io);
    MoveAndLocks(s, w, io);
    LockStep(s.workers, w, pc, HoldsQ, MainHoldsQ(s.main), s.q.owner, QueueAfter(s.q, e, w).owner);
    LockStep(s.workers, w, pc, HoldsC, MainHoldsC(s.main), s.list.owner, ListAfter(s.list, e, w).owner);
  }

  lemma WorkerOwn(s: State, w: nat, io: Io)
    requires WorkerEnabled(s, w, io)
    requires Own(s.workers, MainFd(s.main), s.q.fds, s.conn.Keys)
    ensures
      var t := WorkerApply(s, w, io);
      Own(t.workers, MainFd(t.main), t.q.fds, t.conn.Keys)
  {
    var t, m := WorkerApply(s, w, io), MainFd(s.main);
    var (pc, e) := WorkerMove(s, w, io);
    MoveAndDescriptor(s, w, io);
    if e.TakeJob? {
      OwnTake(s.workers, w, pc, m, s.q.fds, s.conn.Keys);
    } else if e.CloseFd? {
      OwnClose(s.workers, w, pc, m, s.q.fds, s.conn.Keys);
      assert t.conn.Keys == s.conn.Keys - {e.fd};
    } else {
      OwnSame(s.workers, t.workers, m, s.q.fds, s.conn.Keys);
    }
  }

  lemma WorkerRegistry(s: State, w: nat, io: Io)
    requires WorkerEnabled(s, w, io)
    requires Own(s.workers, MainFd(s.main), s.q.fds, s.conn.Keys) && Registry(s.workers, s.list.fds)
    ensures
      var t := WorkerApply(s, w, io);
      Registry(t.workers, t.list.fds)
  {
    var t, m := WorkerApply(s, w, io), MainFd(s.main);
    var (pc, e) := WorkerMove(s, w, io);
    MoveAndDescriptor(s, w, io);
    if e.Link? {
      RegistryAdd(s.workers, w, pc, s.list.fds, m, s.q.fds, s.conn.Keys);
    } else if e.Unlink? {
      RegistryRemove(s.workers, w, pc, s.list.fds, m, s.q.fds, s.conn.Keys);
    } else if IsListed(s.workers[w]) {
      RegistrySame(s.workers, t.workers, s.list.fds);
    } else {
      RegistryApart(s.workers, w, pc, s.list.fds);
    }
  }

  lemma WorkerWakeups(s: State, w: nat, io: Io)
    requires WorkerEnabled(s, w, io)
    requires Wakeups(s.workers, |s.q.fds|, s.main.MPushSignal?) && Shutdown(s.workers, s.main, s.q.closed)
    ensures
      var t := WorkerApply(s, w, io);
      Wakeups(t.workers, |t.q.fds|, t.main.MPushSignal?) && Shutdown(t.workers, t.main, t.q.closed)
  {
    RechecksUpdate(s.workers, w, WorkerMove(s, w, io).0);
  }

  lemma WorkerTested(s: State, w: nat, io: Io)
    requires WorkerEnabled(s, w, io)
    requires Lock(s.workers, HoldsQ, MainHoldsQ(s.main), s.q.owner)
    requires Tested(s.workers, |s.q.fds|, s.q.closed) && s.hist.pushed == s.hist.popped + s.q.fds
    ensures
      var t := WorkerApply(s, w, io);
      Tested(t.workers, |t.q.fds|, t.q.closed) && t.hist.pushed == t.hist.popped + t.q.fds
  {
    MoveAndQueue(s, w, io);
    if s.workers[w].PopTake? {
      TakerTested(s, w, io);
    } else {
      assert WorkerApply(s, w, io).q.fds == s.q.fds && WorkerApply(s, w, io).q.closed == s.q.closed;
    }
  }

  lemma TakerTested(s: State, w: nat, io: Io)
    requires WorkerEnabled(s, w, io) && s.workers[w].PopTake?
    requires Lock(s.workers, HoldsQ, MainHoldsQ(s.main), s.q.owner)
    requires Tested(s.workers, |s.q.fds|, s.q.closed) && s.hist.pushed == s.hist.popped + s.q.fds
    ensures
      var t := WorkerApply(s, w, io);
      Tested(t.workers, |t.q.fds|, t.q.closed) && t.hist.pushed == t.hist.popped + t.q.fds
  {
    assert s.q.fds == [s.q.fds[0]] + s.q.fds[1..];
    forall v | 0 <= v < |s.workers| && v != w ensures !HoldsQ(s.workers[v]) {}
  }

  lemma WorkerSessions(s: State, w: nat, io: Io)
    requires WorkerEnabled(s, w, io)
    requires |s.hist.heard| == |s.hist.inbox| == s.hist.sessions && Sessions(s.conn, s.hist.sessions, s.hist.log)
    ensures
      var t := WorkerApply(s, w, io);
      |t.hist.heard| == |t.hist.inbox| == t.hist.sessions && Sessions(t.conn, t.hist.sessions, t.hist.log)
  {}

  lemma WorkerHeard(s: State, w: nat, io: Io)
    requires WorkerEnabled(s, w, io)
    requires Own(s.workers, MainFd(s.main), s.q.fds, s.conn.Keys)
    requires |s.hist.heard| == s.hist.sessions && Sessions(s.conn, s.hist.sessions, s.hist.log)
    requires Heard(s.workers, s.conn, s.hist.log, s.hist.heard)
    ensures
      var t := WorkerApply(s, w, io);
      Heard(t.workers, t.conn, t.hist.log, t.hist.heard)
  {
    var (pc, e) := WorkerMove(s, w, io);
    if s.workers[w].Recv? && io.Data? {
      HeardRecv(s.workers, w, io.bytes, s.conn, s.hist.log, s.hist.heard, MainFd(s.main), s.q.fds);
    } else if s.workers[w].CastLock? {
      HeardCast(s.workers, w, pc, e.entry, s.conn, s.hist.log, s.hist.heard, MainFd(s.main), s.q.fds);
    } else {
      OtherHeard(s, w, io);
    }
  }

  lemma OtherHeard(s: State, w: nat, io: Io)
    requires WorkerEnabled(s, w, io) && !(s.workers[w].Recv? && io.Data?) && !s.workers[w].CastLock?
    requires Own(s.workers, MainFd(s.main), s.q.fds, s.conn.Keys) && Heard(s.workers, s.conn, s.hist.log, s.hist.heard)
    ensures
      var t := WorkerApply(s, w, io);
      Heard(t.workers, t.conn, t.hist.log, t.hist.heard)
  {
    var t := WorkerApply(s, w, io);
    var (pc, e) := WorkerMove(s, w, io);
    MoveAndDescriptor(s, w, io);
    forall v | 0 <= v < |s.workers| && s.workers[v].CastLock?
      ensures s.workers[v].fd in s.conn && s.workers[v].fd in t.conn {
      assert Serves(s.workers, v, s.workers[v].fd);
      assert e.CloseFd? ==> Serves(s.workers, w, e.fd);
    }
    HeardSame(s.workers, t.workers, s.conn, t.conn, s.hist.log, s.hist.heard);
  }

  /** Nobody broadcasts while another worker holds the list's mutex. */
  lemma CursorIsMine(s: State, w: nat)
    requires Lock(s.workers, HoldsC, MainHoldsC(s.main), s.list.owner) && w < |s.workers| && HoldsC(s.workers[w])
    ensures forall v :: 0 <= v < |s.workers| && v != w ==> !s.workers[v].Cast?
  {
    forall v | 0 <= v < |s.workers| && v != w ensures !HoldsC(s.workers[v]) {}
  }

  /** The cursor of a worker that holds the mutex is the only one. */
  lemma OneCursor(ws: seq<WorkerPc>, w: nat, pc: WorkerPc, clients: seq<int>, log: seq<Entry>)
    requires w < |ws| && forall v :: 0 <= v < |ws| && v != w ==> !ws[v].Cast?
    requires pc.Cast? ==> log != [] && Distinct(pc.rest) && forall f :: f in pc.rest ==> f in clients
    ensures Cursor(ws[w := pc], clients, log)
  {}

  lemma HolderCursor(s: State, w: nat, io: Io)
    requires WorkerEnabled(s, w, io) && HoldsC(s.workers[w])
    requires Cursor(s.workers, s.list.fds, s.hist.log)
    requires forall v :: 0 <= v < |s.workers| && v != w ==> !s.workers[v].Cast?
    ensures
      var t := WorkerApply(s, w, io);
      Cursor(t.workers, t.list.fds, t.hist.log)
  {
    var pc, t := WorkerMove(s, w, io).0, WorkerApply(s, w, io);
    if s.workers[w].Cast? {
      assert t.hist.log == s.hist.log && t.list.fds == s.list.fds;
    } else {
      assert !pc.Cast?;
    }
    OneCursor(s.workers, w, pc, t.list.fds, t.hist.log);
  }

  lemma BeginCursor(s: State, w: nat, io: Io)
    requires WorkerEnabled(s, w, io) && s.workers[w].CastLock? && Distinct(s.list.fds)
    requires Lock(s.workers, HoldsC, MainHoldsC(s.main), s.list.owner)
    ensures
      var t := WorkerApply(s, w, io);
      Cursor(t.workers, t.list.fds, t.hist.log)
  {
    forall v | 0 <= v < |s.workers| ensures !s.workers[v].Cast? {
      assert !HoldsC(s.workers[v]);
    }
    OneCursor(s.workers, w, WorkerMove(s, w, io).0, s.list.fds, WorkerApply(s, w, io).hist.log);
  }

  lemma OtherCursor(s: State, w: nat, io: Io)
    requires WorkerEnabled(s, w, io) && !HoldsC(s.workers[w]) && !s.workers[w].CastLock?
    requires Cursor(s.workers, s.list.fds, s.hist.log)
    ensures
      var t := WorkerApply(s, w, io);
      Cursor(t.workers, t.list.fds, t.hist.log)
  {
    var t := WorkerApply(s, w, io);
    assert !t.workers[w].Cast? && t.list.fds == s.list.fds && t.hist.log == s.hist.log;
  }

  lemma WorkerCursor(s: State, w: nat, io: Io)
    requires WorkerEnabled(s, w, io)
    requires Lock(s.workers, HoldsC, MainHoldsC(s.main), s.list.owner)
    requires Registry(s.workers, s.list.fds) && Cursor(s.workers, s.list.fds, s.hist.log)
    ensures
      var t := WorkerApply(s, w, io);
      Cursor(t.workers, t.list.fds, t.hist.log)
  {
    if HoldsC(s.workers[w]) {
      CursorIsMine(s, w);
      HolderCursor(s, w, io);
    } else if s.workers[w].CastLock? {
      BeginCursor(s, w, io);
    } else {
      OtherCursor(s, w, io);
    }
  }

  lemma WorkerDelivered(s: State, w: nat, io: Io)
    requires WorkerEnabled(s, w, io)
    requires Lock(s.workers, HoldsC, MainHoldsC(s.main), s.list.owner)
    requires Own(s.workers, MainFd(s.main), s.q.fds, s.conn.Keys)
    requires Registry(s.workers, s.list.fds) && Cursor(s.workers, s.list.fds, s.hist.log)
    requires |s.hist.inbox| == s.hist.sessions && Sessions(s.conn, s.hist.sessions, s.hist.log)
    requires Delivered(Pending(s.workers, s.list.owner, s.conn), s.hist.log, s.hist.inbox, s.dead)
    ensures
      var t := WorkerApply(s, w, io);
      Delivered(Pending(t.workers, t.list.owner, t.conn), t.hist.log, t.hist.inbox, t.dead)
  {
    if s.workers[w].CastLock? {
      CastLockDelivered(s, w, io);
    } else if s.workers[w].Cast? {
      CastDelivered(s, w, io);
    } else if s.workers[w].Close? {
      CloseKeepsPending(s, w, io);
    } else {
      OtherPending(s, w, io);
    }
  }

  lemma CastLockDelivered(s: State, w: nat, io: Io)
    requires WorkerEnabled(s, w, io) && s.workers[w].CastLock?
    requires Cursor(s.workers, s.list.fds, s.hist.log)
    requires |s.hist.inbox| == s.hist.sessions && Sessions(s.conn, s.hist.sessions, s.hist.log)
    requires Delivered(Pending(s.workers, s.list.owner, s.conn), s.hist.log, s.hist.inbox, s.dead)
    ensures
      var t := WorkerApply(s, w, io);
      Delivered(Pending(t.workers, t.list.owner, t.conn), t.hist.log, t.hist.inbox, t.dead)
  {
    var (pc, e) := WorkerMove(s, w, io);
    DeliveredStart(s.hist.log, e.entry, s.hist.inbox, s.dead);
  }

  lemma OtherPending(s: State, w: nat, io: Io)
    requires WorkerEnabled(s, w, io) && Lock(s.workers, HoldsC, MainHoldsC(s.main), s.list.owner)
    requires !s.workers[w].CastLock? && !s.workers[w].Cast? && !s.workers[w].Close?
    ensures
      var t := WorkerApply(s, w, io);
      && Pending(t.workers, t.list.owner, t.conn) == Pending(s.workers, s.list.owner, s.conn)
      && t.hist.log == s.hist.log && t.hist.inbox == s.hist.inbox
  {}

  lemma CastDelivered(s: State, w: nat, io: Io)
    requires WorkerEnabled(s, w, io) && s.workers[w].Cast?
    requires Lock(s.workers, HoldsC, MainHoldsC(s.main), s.list.owner)
    requires Cursor(s.workers, s.list.fds, s.hist.log) && Sessions(s.conn, s.hist.sessions, s.hist.log)
    requires Delivered(Pending(s.workers, s.list.owner, s.conn), s.hist.log, s.hist.inbox, s.dead)
    ensures
      var t := WorkerApply(s, w, io);
      Delivered(Pending(t.workers, t.list.owner, t.conn), t.hist.log, t.hist.inbox, t.dead)
  {
    var fd, rest := s.workers[w].fd, s.workers[w].rest;
    CastPending(s, w, io);
    if rest != [] && rest[0] != fd {
      DeliveredSend(Pending(s.workers, s.list.owner, s.conn), s.conn[rest[0]], s.hist.log, s.hist.inbox, s.dead);
    }
  }

  /** The cursor moves on by one client, who is thereby no longer pending. */
  lemma CastPending(s: State, w: nat, io: Io)
    requires WorkerEnabled(s, w, io) && s.workers[w].Cast?
    requires Lock(s.workers, HoldsC, MainHoldsC(s.main), s.list.owner)
    requires Cursor(s.workers, s.list.fds, s.hist.log) && Sessions(s.conn, s.hist.sessions, s.hist.log)
    ensures
      var (t, fd, rest) := (WorkerApply(s, w, io), s.workers[w].fd, s.workers[w].rest);
      var before, after := Pending(s.workers, s.list.owner, s.conn), Pending(t.workers, t.list.owner, t.conn);
      if rest == [] || rest[0] == fd then after == before
      else s.conn[rest[0]] in before && after == before - {s.conn[rest[0]]}
  {
    assert s.list.owner == Some(WorkerThread(w));
    if s.workers[w].rest != [] {
      SessionsOfTail(s.conn, s.workers[w].rest, s.workers[w].fd);
    }
  }

  /** The descriptor a worker closes is in nobody's way: it was unlinked before, so the
      broadcaster's cursor does not meet it. */
  lemma CloseKeepsPending(s: State, w: nat, io: Io)
    requires WorkerEnabled(s, w, io) && s.workers[w].Close?
    requires Lock(s.workers, HoldsC, MainHoldsC(s.main), s.list.owner)
    requires Own(s.workers, MainFd(s.main), s.q.fds, s.conn.Keys)
    requires Registry(s.workers, s.list.fds) && Cursor(s.workers, s.list.fds, s.hist.log)
    ensures
      var t := WorkerApply(s, w, io);
      && Pending(t.workers, t.list.owner, t.conn) == Pending(s.workers, s.list.owner, s.conn)
      && t.hist.log == s.hist.log && t.hist.inbox == s.hist.inbox
  {
    var t := WorkerApply(s, w, io);
    if s.list.owner.Some? && s.list.owner.value.WorkerThread? && s.workers[s.list.owner.value.w].Cast? {
      var b := s.workers[s.list.owner.value.w];
      forall f | f in b.rest ensures f in s.conn && f in t.conn {
        ListedIsOpen(s, f);
        var v :| ListedBy(s.workers, v, f);
        assert Serves(s.workers, v, f) && v != w;
        assert Serves(s.workers, w, s.workers[w].fd);
      }
      SessionsOfSame(s.conn, t.conn, b.rest, b.fd);
    }
  }

  lemma ListedIsOpen(s: State, f: int)
    requires Own(s.workers, MainFd(s.main), s.q.fds, s.conn.Keys) && Registry(s.workers, s.list.fds) && f in s.list.fds
    ensures f in s.conn
  {
    var v :| ListedBy(s.workers, v, f);
    assert Serves(s.workers, v, f);
  }

  lemma WorkerKeepsInv(s: State, w: nat, io: Io)
    requires Inv(s) && WorkerEnabled(s, w, io)
    ensures Inv(WorkerApply(s, w, io))
  {
    WorkerLocks(s, w, io);
    WorkerOwn(s, w, io);
    WorkerRegistry(s, w, io);
    WorkerWakeups(s, w, io);
    WorkerTested(s, w, io);
    WorkerSessions(s, w, io);
    WorkerHeard(s, w, io);
    WorkerCursor(s, w, io);
    WorkerDelivered(s, w, io);
  }

  /* ---- The main thread ---- */

  lemma MainQueueLock(s: State, pick: int)
    requires MainEnabled(s, pick) && Lock(s.workers, HoldsQ, MainHoldsQ(s.main), s.q.owner)
    ensures
      var t := MainApply(s, pick);
      Lock(t.workers, HoldsQ, MainHoldsQ(t.main), t.q.owner)
  {
    var t := MainApply(s, pick);
    LockMain(s.workers, HoldsQ, MainHoldsQ(s.main), s.q.owner, MainHoldsQ(t.main), t.q.owner);
    LockSame(s.workers, t.workers, HoldsQ, MainHoldsQ(t.main), t.q.owner);
  }

  lemma MainListLock(s: State, pick: int)
    requires MainEnabled(s, pick) && Lock(s.workers, HoldsC, MainHoldsC(s.main), s.list.owner)
    ensures
      var t := MainApply(s, pick);
      Lock(t.workers, HoldsC, MainHoldsC(t.main), t.list.owner)
  {
    var t := MainApply(s, pick);
    LockMain(s.workers, HoldsC, MainHoldsC(s.main), s.list.owner, MainHoldsC(t.main), t.list.owner);
    LockSame(s.workers, t.workers, HoldsC, MainHoldsC(t.main), t.list.owner);
  }

  lemma MainOwn(s: State, pick: int)
    requires MainEnabled(s, pick)
    requires Own(s.workers, MainFd(s.main), s.q.fds, s.conn.Keys) && Shutdown(s.workers, s.main, s.q.closed)
    ensures
      var t := MainApply(s, pick);
      Own(t.workers, MainFd(t.main), t.q.fds, t.conn.Keys)
  {
    var t := MainApply(s, pick);
    if s.main.MAccept? && pick >= 0 {
      OwnAccept(s.workers, s.q.fds, s.conn.Keys, pick);
      assert t.conn.Keys == s.conn.Keys + {pick};
    } else if s.main.MPushLink? {
      OwnPush(s.workers, s.q.fds, s.conn.Keys, s.main.fd);
    } else {
      OwnSame(s.workers, t.workers, MainFd(s.main), s.q.fds, s.conn.Keys);
    }
  }

  lemma MainRegistry(s: State, pick: int)
    requires MainEnabled(s, pick) && Registry(s.workers, s.list.fds) && Cursor(s.workers, s.list.fds, s.hist.log)
    ensures
      var t := MainApply(s, pick);
      Registry(t.workers, t.list.fds) && Cursor(t.workers, t.list.fds, t.hist.log)
  {
    RegistrySame(s.workers, MainApply(s, pick).workers, s.list.fds);
  }

  /** pthread_cond_signal's and pthread_cond_broadcast's effect on the wake-up clause. */
  lemma MainWakeups(s: State, pick: int)
    requires MainEnabled(s, pick) && Wakeups(s.workers, |s.q.fds|, s.main.MPushSignal?)
    ensures
      var t := MainApply(s, pick);
      Wakeups(t.workers, |t.q.fds|, t.main.MPushSignal?)
  {
    if s.main.MPushSignal? && 0 <= pick < |s.workers| && s.workers[pick].Asleep? {
      RechecksUpdate(s.workers, pick, Woken);
    }
  }

  /** Workers that have all left have left the client list empty. */
  lemma AllGone(ws: seq<WorkerPc>, clients: seq<int>)
    requires Registry(ws, clients) && forall w :: 0 <= w < |ws| ==> ws[w].Exited?
    ensures clients == []
  {
    forall f ensures f !in clients {
      assert !exists w :: ListedBy(ws, w, f);
    }
    NobodyIn(clients);
  }

  lemma MainShutdown(s: State, pick: int)
    requires MainEnabled(s, pick)
    requires Lock(s.workers, HoldsQ, MainHoldsQ(s.main), s.q.owner)
    requires Registry(s.workers, s.list.fds) && Shutdown(s.workers, s.main, s.q.closed)
    requires Tested(s.workers, |s.q.fds|, s.q.closed) && s.hist.pushed == s.hist.popped + s.q.fds
    ensures
      var t := MainApply(s, pick);
      Shutdown(t.workers, t.main, t.q.closed) && Tested(t.workers, |t.q.fds|, t.q.closed) &&
      t.hist.pushed == t.hist.popped + t.q.fds
  {
    if s.main.MFinalLock? {
      AllGone(s.workers, s.list.fds);
    }
    if MainHoldsQ(s.main) {
      forall v | 0 <= v < |s.workers| ensures !HoldsQ(s.workers[v]) {}
    }
  }

  lemma MainSessions(s: State, pick: int)
    requires MainEnabled(s, pick) && Shutdown(s.workers, s.main, s.q.closed)
    requires |s.hist.heard| == |s.hist.inbox| == s.hist.sessions && Sessions(s.conn, s.hist.sessions, s.hist.log)
    ensures
      var t := MainApply(s, pick);
      |t.hist.heard| == |t.hist.inbox| == t.hist.sessions && Sessions(t.conn, t.hist.sessions, t.hist.log)
  {}

  lemma MainHeard(s: State, pick: int)
    requires MainEnabled(s, pick) && Shutdown(s.workers, s.main, s.q.closed)
    requires Own(s.workers, MainFd(s.main), s.q.fds, s.conn.Keys)
    requires |s.hist.heard| == s.hist.sessions && Sessions(s.conn, s.hist.sessions, s.hist.log)
    requires Heard(s.workers, s.conn, s.hist.log, s.hist.heard)
    ensures
      var t := MainApply(s, pick);
      Heard(t.workers, t.conn, t.hist.log, t.hist.heard)
  {
    var t := MainApply(s, pick);
    forall v | 0 <= v < |s.workers| && s.workers[v].CastLock? ensures s.workers[v].fd in s.conn {
      assert Serves(s.workers, v, s.workers[v].fd);
    }
    HeardSame(s.workers, t.workers, s.conn, t.conn, s.hist.log, s.hist.heard);
    if s.main.MAccept? && pick >= 0 {
      HeardSame(s.workers, s.workers, s.conn, t.conn, s.hist.log, s.hist.heard);
      HeardAccept(s.workers, s.conn, pick, s.hist.log, s.hist.heard);
    }
  }

  lemma HeardAccept(ws: seq<WorkerPc>, conn: map<int, nat>, fd: int, log: seq<Entry>, heard: seq<seq<string>>)
    requires fd !in conn && Sessions(conn, |heard|, log) && Heard(ws, conn[fd := |heard|], log, heard)
    requires forall w :: 0 <= w < |ws| && ws[w].CastLock? ==> ws[w].fd in conn
    ensures Heard(ws, conn[fd := |heard|], log, heard + [[]])
  {
    var x, conn' := |heard|, conn[fd := |heard|];
    SentByStranger(log, x);
    forall w ensures !InFlight(ws, conn', w, x) {}
  }

  lemma MainDelivered(s: State, pick: int)
    requires MainEnabled(s, pick) && Shutdown(s.workers, s.main, s.q.closed)
    requires Lock(s.workers, HoldsC, MainHoldsC(s.main), s.list.owner)
    requires Own(s.workers, MainFd(s.main), s.q.fds, s.conn.Keys)
    requires Registry(s.workers, s.list.fds) && Cursor(s.workers, s.list.fds, s.hist.log)
    requires |s.hist.inbox| == s.hist.sessions && Sessions(s.conn, s.hist.sessions, s.hist.log)
    requires Delivered(Pending(s.workers, s.list.owner, s.conn), s.hist.log, s.hist.inbox, s.dead)
    ensures
      var t := MainApply(s, pick);
      Delivered(Pending(t.workers, t.list.owner, t.conn), t.hist.log, t.hist.inbox, t.dead)
  {
    var before := Pending(s.workers, s.list.owner, s.conn);
    MainPending(s, pick);
    if s.main.MAccept? && pick >= 0 {
      DeliveredNew(before, s.hist.log, s.hist.inbox, s.dead);
    }
  }

  /** Accepting a connection, on whatever number, does not disturb a broadcast. */
  lemma MainPending(s: State, pick: int)
    requires MainEnabled(s, pick) && Shutdown(s.workers, s.main, s.q.closed)
    requires Lock(s.workers, HoldsC, MainHoldsC(s.main), s.list.owner)
    requires Own(s.workers, MainFd(s.main), s.q.fds, s.conn.Keys)
    requires Registry(s.workers, s.list.fds) && Cursor(s.workers, s.list.fds, s.hist.log)
    ensures
      var t := MainApply(s, pick);
      Pending(t.workers, t.list.owner, t.conn) == Pending(s.workers, s.list.owner, s.conn)
  {
    var t := MainApply(s, pick);
    if s.list.owner.Some? && s.list.owner.value.WorkerThread? && s.workers[s.list.owner.value.w].Cast? {
      var b := s.workers[s.list.owner.value.w];
      assert t.workers[s.list.owner.value.w] == b && t.list.owner == s.list.owner;
      forall f | f in b.rest ensures f in s.conn {
        ListedIsOpen(s, f);
      }
      SessionsOfSame(s.conn, t.conn, b.rest, b.fd);
    }
  }

  lemma MainKeepsInv(s: State, pick: int)
    requires Inv(s) && MainEnabled(s, pick)
    ensures Inv(MainApply(s, pick))
  {
    MainQueueLock(s, pick);
    MainListLock(s, pick);
    MainOwn(s, pick);
    MainRegistry(s, pick);
    MainWakeups(s, pick);
    MainShutdown(s, pick);
    MainSessions(s, pick);
    MainHeard(s, pick);
    MainDelivered(s, pick);
  }

  /* ---- The environment ---- */

  lemma SpuriousPlaces(s: State, w: nat)
    requires Enabled(s, SpuriousWake(w))
    requires Own(s.workers, MainFd(s.main), s.q.fds, s.conn.Keys) && Registry(s.workers, s.list.fds)
    ensures
      var ws := s.workers[w := Woken];
      Own(ws, MainFd(s.main), s.q.fds, s.conn.Keys) && Registry(ws, s.list.fds)
  {
    OwnSame(s.workers, s.workers[w := Woken], MainFd(s.main), s.q.fds, s.conn.Keys);
    RegistrySame(s.workers, s.workers[w := Woken], s.list.fds);
  }

  lemma SpuriousHeard(s: State, w: nat)
    requires Enabled(s, SpuriousWake(w))
    requires Own(s.workers, MainFd(s.main), s.q.fds, s.conn.Keys)
    requires Heard(s.workers, s.conn, s.hist.log, s.hist.heard)
    ensures Heard(s.workers[w := Woken], s.conn, s.hist.log, s.hist.heard)
  {
    forall v | 0 <= v < |s.workers| && s.workers[v].CastLock? ensures s.workers[v].fd in s.conn {
      assert Serves(s.workers, v, s.workers[v].fd);
    }
    HeardSame(s.workers, s.workers[w := Woken], s.conn, s.conn, s.hist.log, s.hist.heard);
  }

  lemma SpuriousRest(s: State, w: nat)
    requires Enabled(s, SpuriousWake(w))
    requires Lock(s.workers, HoldsC, MainHoldsC(s.main), s.list.owner)
    requires Wakeups(s.workers, |s.q.fds|, s.main.MPushSignal?) && Shutdown(s.workers, s.main, s.q.closed)
    requires Tested(s.workers, |s.q.fds|, s.q.closed) && Cursor(s.workers, s.list.fds, s.hist.log)
    ensures
      var ws := s.workers[w := Woken];
      && Wakeups(ws, |s.q.fds|, s.main.MPushSignal?) && Shutdown(ws, s.main, s.q.closed)
      && Tested(ws, |s.q.fds|, s.q.closed) && Cursor(ws, s.list.fds, s.hist.log)
      && Pending(ws, s.list.owner, s.conn) == Pending(s.workers, s.list.owner, s.conn)
  {
    RechecksUpdate(s.workers, w, Woken);
  }

  lemma SpuriousKeepsInv(s: State, w: nat)
    requires Inv(s) && Enabled(s, SpuriousWake(w))
    ensures Inv(Apply(s, SpuriousWake(w)))
  {
    LockSame(s.workers, s.workers[w := Woken], HoldsQ, MainHoldsQ(s.main), s.q.owner);
    LockSame(s.workers, s.workers[w := Woken], HoldsC, MainHoldsC(s.main), s.list.owner);
    SpuriousPlaces(s, w);
    SpuriousHeard(s, w);
    SpuriousRest(s, w);
  }

  /** The invariant holds at the start and after every step of every run. */
  lemma StepKeepsInv(s: State, a: Action)
    requires Inv(s) && Enabled(s, a)
    ensures Inv(Apply(s, a))
  {
    match a {
      case MainStep(pick) => MainKeepsInv(s, pick);
      case WorkerStep(w, io) => WorkerKeepsInv(s, w, io);
      case SpuriousWake(w) => SpuriousKeepsInv(s, w);
      case Stop =>
      case PeerDies(x) =>
    }
  }

  lemma InitialInv(n: nat)
    ensures Inv(Initial(n))
  {
    var s := Initial(n);
    assert Lock(s.workers, HoldsQ, MainHoldsQ(s.main), s.q.owner) &&
      Lock(s.workers, HoldsC, MainHoldsC(s.main), s.list.owner);
    assert Own(s.workers, MainFd(s.main), s.q.fds, s.conn.Keys) && Registry(s.workers, s.list.fds);
    assert Heard(s.workers, s.conn, s.hist.log, s.hist.heard) && Pending(s.workers, s.list.owner, s.conn) == {};
  }

  lemma {:induction false} RunKeepsInv(s: State, acts: seq<Action>)
    requires Inv(s) && Schedule(s, acts)
    ensures Inv(Run(s, acts))
    decreases |acts|
  {
    if acts != [] {
      StepKeepsInv(s, acts[0]);
      RunKeepsInv(Apply(s, acts[0]), acts[1..]);
    }
  }
}
