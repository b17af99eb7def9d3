/** The inductive invariant of the thread-pool server. Each clause is a predicate on the few
    components it is about, with one small lemma for each way those components can change. */
module ChatPoolInvariant {
  import opened Prelude
  import opened ChatPool

  /* ---- Critical sections ---- */

  predicate HoldsQ(p: WorkerPc) { p.PopTest? || p.PopTake? || p.PopUnlock? || p.PopNoneUnlock? }

  predicate HoldsC(p: WorkerPc) {
    p.AddLink? || p.AddUnlock? || p.Cast? || p.CastUnlock? || p.RemoveUnlink? || p.RemoveUnlock?
  }

  predicate MainHoldsQ(m: MainPc) {
    m.MPushLink? || m.MPushSignal? || m.MPushUnlock? || m.MCloseSet? || m.MCloseWake? || m.MCloseUnlock?
  }

  predicate MainHoldsC(m: MainPc) { m.MFinal? || m.MFinalUnlock? }

  /** A mutex's recorded owner is the one thread inside the section it protects. */
  ghost predicate Lock(ws: seq<WorkerPc>, holds: WorkerPc -> bool, mainHolds: bool, owner: Option<Thread>) {
    && (forall w :: 0 <= w < |ws| ==> (holds(ws[w]) <==> owner == Some(WorkerThread(w))))
    && (mainHolds <==> owner == Some(MainThread))
    && (owner.Some? && owner.value.WorkerThread? ==> owner.value.w < |ws|)
  }

  lemma LockStep(ws: seq<WorkerPc>, w: nat, pc: WorkerPc, holds: WorkerPc -> bool, mainHolds: bool,
                 owner: Option<Thread>, owner': Option<Thread>)
    requires Lock(ws, holds, mainHolds, owner) && w < |ws|
    requires
      || (owner' == owner && (holds(pc) <==> holds(ws[w])))
      || (owner == None && owner' == Some(WorkerThread(w)) && holds(pc))
      || (holds(ws[w]) && owner' == None && !holds(pc))
    ensures Lock(ws[w := pc], holds, mainHolds, owner')
  {}

  lemma LockSame(ws: seq<WorkerPc>, ws': seq<WorkerPc>, holds: WorkerPc -> bool, mainHolds: bool, owner: Option<Thread>)
    requires Lock(ws, holds, mainHolds, owner) && |ws'| == |ws|
    requires forall w :: 0 <= w < |ws| ==> (holds(ws'[w]) <==> holds(ws[w]))
    ensures Lock(ws', holds, mainHolds, owner)
  {}

  lemma LockMain(ws: seq<WorkerPc>, holds: WorkerPc -> bool, mainHolds: bool, owner: Option<Thread>,
      mainHolds': bool, owner': Option<Thread>)
    requires Lock(ws, holds, mainHolds, owner)
    requires
      || (owner' == owner && mainHolds' == mainHolds)
      || (owner == None && owner' == Some(MainThread) && mainHolds')
      || (mainHolds && owner' == None && !mainHolds')
    ensures Lock(ws, holds, mainHolds', owner')
  {}

  /* ---- Ownership of descriptors ---- */

  /** The descriptor a worker answers for, if any. */
  function FdOf(p: WorkerPc): Option<int> {
    match p
    case PopUnlock(fd) => Some(fd)
    case AddLock(fd) => Some(fd)
    case AddLink(fd) => Some(fd)
    case AddUnlock(fd) => Some(fd)
    case RecvTop(fd) => Some(fd)
    case Recv(fd) => Some(fd)
    case CastLock(fd, _) => Some(fd)
    case Cast(fd, _, _) => Some(fd)
    case CastUnlock(fd) => Some(fd)
    case RemoveLock(fd) => Some(fd)
    case RemoveUnlink(fd) => Some(fd)
    case RemoveUnlock(fd) => Some(fd)
    case Close(fd) => Some(fd)
    case _ => None
  }

  function MainFd(m: MainPc): Option<int> {
    if m.MPushLock? || m.MPushLink? then Some(m.fd) else None
  }

  ghost predicate Serves(ws: seq<WorkerPc>, w: int, fd: int) { 0 <= w < |ws| && FdOf(ws[w]) == Some(fd) }

  ghost predicate Served(ws: seq<WorkerPc>, fd: int) { exists w :: Serves(ws, w, fd) }

  /** Every open descriptor is with the main thread, in the queue or with a worker, in only one
      of those places and only once; and nothing else is. */
  ghost predicate Own(ws: seq<WorkerPc>, m: Option<int>, q: seq<int>, open: set<int>) {
    && (forall fd :: fd in open ==> fd >= 0 && (Some(fd) == m || fd in q || Served(ws, fd)))
    && (forall w, fd :: Serves(ws, w, fd) ==> fd in open && fd !in q && Some(fd) != m)
    && (forall v, w, fd :: Serves(ws, v, fd) && Serves(ws, w, fd) ==> v == w)
    && Distinct(q)
    && (forall fd :: fd in q ==> fd in open && Some(fd) != m)
    && (m.Some? ==> m.value in open)
  }

  lemma OwnSame(ws: seq<WorkerPc>, ws': seq<WorkerPc>, m: Option<int>, q: seq<int>, open: set<int>)
    requires Own(ws, m, q, open) && |ws'| == |ws|
    requires forall w :: 0 <= w < |ws| ==> FdOf(ws'[w]) == FdOf(ws[w])
    ensures Own(ws', m, q, open)
  {
    forall w, fd ensures Serves(ws', w, fd) <==> Serves(ws, w, fd) {}
    forall fd | Served(ws, fd) ensures Served(ws', fd) {
      var w :| Serves(ws, w, fd);
      assert Serves(ws', w, fd);
    }
  }

  lemma OwnTake(ws: seq<WorkerPc>, w: nat, pc: WorkerPc, m: Option<int>, q: seq<int>, open: set<int>)
    requires Own(ws, m, q, open) && w < |ws| && q != [] && FdOf(ws[w]) == None && FdOf(pc) == Some(q[0])
    ensures Own(ws[w := pc], m, q[1..], open)
  {
    var ws' := ws[w := pc];
    assert q[0] in q && q == [q[0]] + q[1..];
    forall v, fd ensures Serves(ws', v, fd) <==> Serves(ws, v, fd) || (v == w && fd == q[0]) {}
    forall fd | fd in open ensures Some(fd) == m || fd in q[1..] || Served(ws', fd) {
      if Served(ws, fd) {
        var v :| Serves(ws, v, fd);
        assert Serves(ws', v, fd);
      } else if fd == q[0] {
        assert Serves(ws', w, fd);
      }
    }
  }

  lemma OwnClose(ws: seq<WorkerPc>, w: nat, pc: WorkerPc, m: Option<int>, q: seq<int>, open: set<int>)
    requires Own(ws, m, q, open) && w < |ws| && FdOf(ws[w]).Some? && FdOf(pc) == None
    ensures Own(ws[w := pc], m, q, open - {FdOf(ws[w]).value})
  {
    var ws' := ws[w := pc];
    assert Serves(ws, w, FdOf(ws[w]).value);
    forall v, fd ensures Serves(ws', v, fd) <==> Serves(ws, v, fd) && v != w {}
    forall fd | fd in open && fd != FdOf(ws[w]).value && Served(ws, fd) ensures Served(ws', fd) {
      var v :| Serves(ws, v, fd);
      assert Serves(ws', v, fd);
    }
  }

  lemma OwnAccept(ws: seq<WorkerPc>, q: seq<int>, open: set<int>, fd: int)
    requires Own(ws, None, q, open) && fd >= 0 && fd !in open
    ensures Own(ws, Some(fd), q, open + {fd})
  {}

  lemma OwnPush(ws: seq<WorkerPc>, q: seq<int>, open: set<int>, fd: int)
    requires Own(ws, Some(fd), q, open)
    ensures Own(ws, None, q + [fd], open)
  {}

  /* ---- The client list ---- */

  predicate IsListed(p: WorkerPc) {
    p.AddUnlock? || p.RecvTop? || p.Recv? || p.CastLock? || p.Cast? || p.CastUnlock? ||
    p.RemoveLock? || p.RemoveUnlink?
  }

  ghost predicate ListedBy(ws: seq<WorkerPc>, w: int, fd: int) {
    0 <= w < |ws| && FdOf(ws[w]) == Some(fd) && IsListed(ws[w])
  }

  /** The list has no duplicates and holds exactly the descriptors of the workers that are
      between add_client's link and remove_client's unlink. */
  ghost predicate Registry(ws: seq<WorkerPc>, clients: seq<int>) {
    && Distinct(clients)
    && (forall w, fd :: ListedBy(ws, w, fd) ==> fd in clients)
    && (forall fd :: fd in clients ==> exists w :: ListedBy(ws, w, fd))
  }

  lemma RegistrySame(ws: seq<WorkerPc>, ws': seq<WorkerPc>, clients: seq<int>)
    requires Registry(ws, clients) && |ws'| == |ws|
    requires forall w :: 0 <= w < |ws| ==> FdOf(ws'[w]) == FdOf(ws[w]) && IsListed(ws'[w]) == IsListed(ws[w])
    ensures Registry(ws', clients)
  {
    forall w, fd ensures ListedBy(ws', w, fd) <==> ListedBy(ws, w, fd) {}
    forall fd | fd in clients ensures exists w :: ListedBy(ws', w, fd) {
      var w :| ListedBy(ws, w, fd);
      assert ListedBy(ws', w, fd);
    }
  }

  /** The same when worker `w` was not, and still is not, listed. */
  lemma RegistryApart(ws: seq<WorkerPc>, w: nat, pc: WorkerPc, clients: seq<int>)
    requires Registry(ws, clients) && w < |ws| && !IsListed(ws[w]) && !IsListed(pc)
    ensures Registry(ws[w := pc], clients)
  {
    var ws' := ws[w := pc];
    forall v, fd ensures ListedBy(ws', v, fd) <==> ListedBy(ws, v, fd) {}
    forall fd | fd in clients ensures exists v :: ListedBy(ws', v, fd) {
      var v :| ListedBy(ws, v, fd);
      assert ListedBy(ws', v, fd);
    }
  }

  lemma RegistryAdd(ws: seq<WorkerPc>, w: nat, pc: WorkerPc, clients: seq<int>, m: Option<int>, q: seq<int>,
      open: set<int>)
    requires Registry(ws, clients) && Own(ws, m, q, open)
    requires w < |ws| && FdOf(ws[w]).Some? && FdOf(pc) == FdOf(ws[w]) && !IsListed(ws[w]) && IsListed(pc)
    ensures Registry(ws[w := pc], [FdOf(pc).value] + clients)
  {
    var ws', fd' := ws[w := pc], FdOf(pc).value;
    assert Serves(ws, w, fd');
    if fd' in clients {
      var v :| ListedBy(ws, v, fd');
      assert Serves(ws, v, fd');
      assert false;
    }
    forall v, fd ensures ListedBy(ws', v, fd) <==> ListedBy(ws, v, fd) || (v == w && fd == fd') {}
    forall fd | fd in [fd'] + clients ensures exists v :: ListedBy(ws', v, fd) {
      if fd == fd' {
        assert ListedBy(ws', w, fd);
      } else {
        var v :| ListedBy(ws, v, fd);
        assert ListedBy(ws', v, fd);
      }
    }
  }

  lemma RegistryRemove(ws: seq<WorkerPc>, w: nat, pc: WorkerPc, clients: seq<int>, m: Option<int>, q: seq<int>,
      open: set<int>)
    requires Registry(ws, clients) && Own(ws, m, q, open)
    requires w < |ws| && FdOf(ws[w]).Some? && IsListed(ws[w]) && !IsListed(pc)
    ensures Registry(ws[w := pc], RemoveFirst(clients, FdOf(ws[w]).value))
  {
    var ws', gone := ws[w := pc], FdOf(ws[w]).value;
    assert Serves(ws, w, gone);
    RemoveFirstDistinct(clients, gone);
    forall v, fd ensures ListedBy(ws', v, fd) <==> ListedBy(ws, v, fd) && fd != gone {
      if ListedBy(ws, v, fd) && fd == gone {
        assert Serves(ws, v, gone);
      }
    }
    forall fd | fd in RemoveFirst(clients, gone) ensures exists v :: ListedBy(ws', v, fd) {
      var v :| ListedBy(ws, v, fd);
      assert ListedBy(ws', v, fd);
    }
  }

  /* ---- Wake-ups ---- */

  /** Signalled (or about to test the queue under the mutex), so sure to look at the queue. */
  predicate Rechecking(p: WorkerPc) { p.Woken? || p.PopTest? || p.PopTake? }

  function Rechecks(ws: seq<WorkerPc>): nat {
    if ws == [] then 0 else (if Rechecking(ws[0]) then 1 else 0) + Rechecks(ws[1..])
  }

  lemma {:induction false} RechecksUpdate(ws: seq<WorkerPc>, w: nat, pc: WorkerPc)
    requires w < |ws|
    ensures Rechecks(ws[w := pc]) ==
            Rechecks(ws) - (if Rechecking(ws[w]) then 1 else 0) + (if Rechecking(pc) then 1 else 0)
  {
    if w == 0 {
      assert ws[w := pc][1..] == ws[1..];
    } else {
      assert ws[w := pc][1..] == ws[1..][w - 1 := pc];
      RechecksUpdate(ws[1..], w - 1, pc);
    }
  }

  ghost predicate NoneAsleep(ws: seq<WorkerPc>) { forall w :: 0 <= w < |ws| ==> !ws[w].Asleep? }

  /** If anybody sleeps, every queued job has a woken worker coming for it. */
  ghost predicate Wakeups(ws: seq<WorkerPc>, queued: nat, signalDue: bool) {
    NoneAsleep(ws) || queued <= Rechecks(ws) + (if signalDue then 1 else 0)
  }

  predicate Closing(m: MainPc) {
    m.MCloseWake? || m.MCloseUnlock? || m.MJoin? || m.MFinalLock? || m.MFinal? || m.MFinalUnlock? || m.MExit?
  }

  predicate Joined(m: MainPc) { m.MFinalLock? || m.MFinal? || m.MFinalUnlock? || m.MExit? }

  ghost predicate Shutdown(ws: seq<WorkerPc>, m: MainPc, closed: bool) {
    && (closed <==> Closing(m))
    && (closed && !m.MCloseWake? ==> NoneAsleep(ws))
    && (Joined(m) ==> forall w :: 0 <= w < |ws| ==> ws[w].Exited?)
    && (m.MFinal? ==> m.rest == [])
  }

  ghost predicate Tested(ws: seq<WorkerPc>, queued: nat, closed: bool) {
    && (forall w :: 0 <= w < |ws| && ws[w].PopTake? ==> queued > 0)
    && (forall w :: 0 <= w < |ws| && ws[w].PopNoneUnlock? ==> queued == 0 && closed)
  }

  /* ---- Sessions ---- */

  ghost predicate Sessions(conn: map<int, nat>, n: nat, log: seq<Entry>) {
    && (forall f :: f in conn ==> conn[f] < n)
    && (forall f, g :: f in conn && g in conn && conn[f] == conn[g] ==> f == g)
    && (forall k :: 0 <= k < |log| ==> log[k].from < n)
    && (forall k, x :: 0 <= k < |log| && x in log[k].to ==> x < n && x != log[k].from)
  }

  /* ---- What each sender said, in order ---- */

  function SentBy(log: seq<Entry>, x: nat): seq<string> {
    if log == [] then []
    else
      var last := log[|log| - 1];
      SentBy(log[..|log| - 1], x) + if last.from == x then [last.data] else []
  }

  lemma {:induction false} SentByStranger(log: seq<Entry>, x: nat)
    requires forall k :: 0 <= k < |log| ==> log[k].from != x
    ensures SentBy(log, x) == []
  {
    if log != [] {
      SentByStranger(log[..|log| - 1], x);
    }
  }

  lemma SentByAppend(log: seq<Entry>, e: Entry, x: nat)
    ensures SentBy(log + [e], x) == SentBy(log, x) + if e.from == x then [e.data] else []
  {
    assert (log + [e])[..|log|] == log;
  }

  ghost predicate InFlight(ws: seq<WorkerPc>, conn: map<int, nat>, w: int, x: nat) {
    0 <= w < |ws| && ws[w].CastLock? && ws[w].fd in conn && conn[ws[w].fd] == x
  }

  /** The log, read for one sender, is what was received from it, in that order; only a message
      whose worker still waits for the list's mutex is missing, at the end. */
  ghost predicate Heard(ws: seq<WorkerPc>, conn: map<int, nat>, log: seq<Entry>, heard: seq<seq<string>>) {
    forall x :: 0 <= x < |heard| ==>
      && (forall w :: InFlight(ws, conn, w, x) ==> heard[x] == SentBy(log, x) + [ws[w].data])
      && ((forall w :: !InFlight(ws, conn, w, x)) ==> heard[x] == SentBy(log, x))
  }

  lemma HeardSame(ws: seq<WorkerPc>, ws': seq<WorkerPc>, conn: map<int, nat>, conn': map<int, nat>,
                  log: seq<Entry>, heard: seq<seq<string>>)
    requires Heard(ws, conn, log, heard) && |ws'| == |ws|
    requires forall w :: 0 <= w < |ws| ==>
      (ws[w].CastLock? || ws'[w].CastLock? ==>
        ws'[w] == ws[w] && ws[w].fd in conn && ws[w].fd in conn' && conn'[ws[w].fd] == conn[ws[w].fd])
    ensures Heard(ws', conn', log, heard)
  {
    forall w, x: nat ensures InFlight(ws', conn', w, x) <==> InFlight(ws, conn, w, x) {}
  }

  lemma HeardRecv(ws: seq<WorkerPc>, w: nat, data: string, conn: map<int, nat>, log: seq<Entry>,
      heard: seq<seq<string>>,
                  m: Option<int>, q: seq<int>)
    requires Heard(ws, conn, log, heard) && Own(ws, m, q, conn.Keys) && Sessions(conn, |heard|, log)
    requires w < |ws| && ws[w].Recv? && ws[w].fd in conn
    ensures
      var x := conn[ws[w].fd];
      Heard(ws[w := CastLock(ws[w].fd, data)], conn, log, heard[x := heard[x] + [data]])
  {
    var fd := ws[w].fd;
    var x := conn[fd];
    var ws' := ws[w := CastLock(fd, data)];
    assert Serves(ws, w, fd);
    forall v ensures !InFlight(ws, conn, v, x) {
      if InFlight(ws, conn, v, x) {
        assert Serves(ws, v, ws[v].fd);
      }
    }
    forall v, y: nat ensures InFlight(ws', conn, v, y) <==> InFlight(ws, conn, v, y) || (v == w && y == x) {}
  }

  lemma HeardCast(ws: seq<WorkerPc>, w: nat, pc: WorkerPc, e: Entry, conn: map<int, nat>, log: seq<Entry>,
      heard: seq<seq<string>>,
                  m: Option<int>, q: seq<int>)
    requires Heard(ws, conn, log, heard) && Own(ws, m, q, conn.Keys) && Sessions(conn, |heard|, log)
    requires w < |ws| && ws[w].CastLock? && ws[w].fd in conn && e.from == conn[ws[w].fd] && e.data == ws[w].data &&
      !pc.CastLock?
    ensures Heard(ws[w := pc], conn, log + [e], heard)
  {
    var x := e.from;
    var ws' := ws[w := pc];
    assert Serves(ws, w, ws[w].fd) && InFlight(ws, conn, w, x);
    forall v ensures !InFlight(ws', conn, v, x) {
      if InFlight(ws', conn, v, x) {
        assert v != w && Serves(ws, v, ws[v].fd);
      }
    }
    forall v, y: nat | y != x ensures InFlight(ws', conn, v, y) <==> InFlight(ws, conn, v, y) {}
    forall y | 0 <= y < |heard| ensures SentBy(log + [e], y) == SentBy(log, y) + if x == y then [e.data] else [] {
      SentByAppend(log, e, y);
    }
  }

  /* ---- What each session was sent ---- */

  /** The positions in the log of the messages meant for session `x`. */
  function Proj(log: seq<Entry>, x: nat): seq<nat> {
    if log == [] then []
    else
      var k := |log| - 1;
      Proj(log[..k], x) + if x in log[k].to then [k] else []
  }

  lemma ProjAppend(log: seq<Entry>, e: Entry, x: nat)
    ensures Proj(log + [e], x) == Proj(log, x) + if x in e.to then [|log|] else []
  {
    assert (log + [e])[..|log|] == log;
  }

  lemma {:induction false} ProjStranger(log: seq<Entry>, x: nat)
    requires forall k :: 0 <= k < |log| ==> x !in log[k].to
    ensures Proj(log, x) == []
  {
    if log != [] {
      ProjStranger(log[..|log| - 1], x);
    }
  }

  /** What a live session should have by now: not yet the last message if the broadcaster's
      cursor has still to pass it. */
  function Due(log: seq<Entry>, x: nat, pending: bool): seq<nat> {
    if pending && log != [] then Proj(log[..|log| - 1], x) else Proj(log, x)
  }

  ghost predicate Delivered(pending: set<nat>, log: seq<Entry>, inbox: seq<seq<nat>>, dead: set<nat>) {
    && (forall x :: x in pending ==> x < |inbox| && log != [] && x in log[|log| - 1].to)
    && (forall x :: 0 <= x < |inbox| ==> inbox[x] <= Proj(log, x))
    && (forall x :: 0 <= x < |inbox| && x !in dead ==> inbox[x] == Due(log, x, x in pending))
  }

  lemma DeliveredStart(log: seq<Entry>, e: Entry, inbox: seq<seq<nat>>, dead: set<nat>)
    requires Delivered({}, log, inbox, dead) && forall x :: x in e.to ==> x < |inbox|
    ensures Delivered(e.to, log + [e], inbox, dead)
  {
    assert (log + [e])[..|log|] == log;
    forall x | 0 <= x < |inbox| ensures inbox[x] <= Proj(log + [e], x) &&
        (x !in dead ==> inbox[x] == Due(log + [e], x, x in e.to)) {
      ProjAppend(log, e, x);
    }
  }

  lemma DeliveredSend(pending: set<nat>, x: nat, log: seq<Entry>, inbox: seq<seq<nat>>, dead: set<nat>)
    requires Delivered(pending, log, inbox, dead) && x in pending
    ensures x !in dead ==> Delivered(pending - {x}, log, inbox[x := inbox[x] + [|log| - 1]], dead)
    ensures x in dead ==> Delivered(pending - {x}, log, inbox, dead)
  {}

  lemma DeliveredNew(pending: set<nat>, log: seq<Entry>, inbox: seq<seq<nat>>, dead: set<nat>)
    requires Delivered(pending, log, inbox, dead)
    requires forall k, x :: 0 <= k < |log| && x in log[k].to ==> x < |inbox|
    ensures Delivered(pending, log, inbox + [[]], dead)
  {
    var inbox' := inbox + [[]];
    ProjStranger(log, |inbox|);
    forall x | 0 <= x < |inbox'|
      ensures inbox'[x] <= Proj(log, x) && (x !in dead ==> inbox'[x] == Due(log, x, x in pending))
    {
      if x < |inbox| {
        assert inbox'[x] == inbox[x];
      } else {
        assert inbox'[x] == [] && x !in pending;
      }
    }
  }

  /** The sessions the broadcaster's cursor has still to pass. */
  function Pending(ws: seq<WorkerPc>, owner: Option<Thread>, conn: map<int, nat>): set<nat> {
    if owner.Some? && owner.value.WorkerThread? && owner.value.w < |ws| && ws[owner.value.w].Cast?
    then SessionsOf(conn, ws[owner.value.w].rest, ws[owner.value.w].fd)
    else {}
  }

  /** The broadcaster walks what is left of the list, for the last message of the log. */
  ghost predicate Cursor(ws: seq<WorkerPc>, clients: seq<int>, log: seq<Entry>) {
    forall w :: 0 <= w < |ws| && ws[w].Cast? ==>
      log != [] && Distinct(ws[w].rest) && forall f :: f in ws[w].rest ==> f in clients
  }

  lemma SessionsOfTail(conn: map<int, nat>, fds: seq<int>, except: int)
    requires fds != [] && Distinct(fds) && fds[0] in conn
    requires forall f, g :: f in conn && g in conn && conn[f] == conn[g] ==> f == g
    ensures fds[0] == except ==> SessionsOf(conn, fds[1..], except) == SessionsOf(conn, fds, except)
    ensures fds[0] != except ==>
      conn[fds[0]] in SessionsOf(conn, fds, except) &&
      SessionsOf(conn, fds[1..], except) == SessionsOf(conn, fds, except) - {conn[fds[0]]}
  {
    assert fds == [fds[0]] + fds[1..];
  }

  lemma SessionsOfSame(conn: map<int, nat>, conn': map<int, nat>, fds: seq<int>, except: int)
    requires forall f :: f in fds ==> f in conn && f in conn' && conn[f] == conn'[f]
    ensures SessionsOf(conn', fds, except) == SessionsOf(conn, fds, except)
  {}

  /* ---- The whole invariant ---- */

  ghost predicate Inv(s: State) {
    && Lock(s.workers, HoldsQ, MainHoldsQ(s.main), s.q.owner)
    && Lock(s.workers, HoldsC, MainHoldsC(s.main), s.list.owner)
    && Own(s.workers, MainFd(s.main), s.q.fds, s.conn.Keys)
    && Registry(s.workers, s.list.fds)
    && Wakeups(s.workers, |s.q.fds|, s.main.MPushSignal?)
    && Shutdown(s.workers, s.main, s.q.closed)
    && Tested(s.workers, |s.q.fds|, s.q.closed)
    && s.hist.pushed == s.hist.popped + s.q.fds
    && |s.hist.heard| == |s.hist.inbox| == s.hist.sessions
    && Sessions(s.conn, s.hist.sessions, s.hist.log)
    && Heard(s.workers, s.conn, s.hist.log, s.hist.heard)
    && Cursor(s.workers, s.list.fds, s.hist.log)
    && Delivered(Pending(s.workers, s.list.owner, s.conn), s.hist.log, s.hist.inbox, s.dead)
  }
}
