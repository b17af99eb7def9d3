/** The thread-pool chat server: one thread that accepts, N workers that serve, a job queue
    with a mutex and a condition variable, and a client list with a mutex of its own.

    Every shared access is one step. A step belongs to the main thread, to one worker, or to
    the environment (a peer that dies, a stop request, a spurious wake-up), and any enabled
    step may come next, so a run is an arbitrary interleaving. The kernel hands out any
    descriptor number that is not open, so a number can come back as soon as it is closed;
    a session number tells two connections on the same descriptor apart. */
module ChatPool {
  import opened Prelude

  const BUF_SIZE := 1024
  const OUT_SIZE := BUF_SIZE + 64

  datatype Thread = MainThread | WorkerThread(w: nat)

  /** Where a worker is. `Asleep` is blocked in pthread_cond_wait; `Woken` has been woken and
      wants the mutex back. `Cast` carries the list cursor: the clients still to be visited. */
  datatype WorkerPc =
    | Top
    | PopLock | PopTest | Asleep | Woken | PopTake | PopUnlock(fd: int) | PopNoneUnlock
    | AddLock(fd: int) | AddLink(fd: int) | AddUnlock(fd: int)
    | RecvTop(fd: int) | Recv(fd: int)
    | CastLock(fd: int, data: string) | Cast(fd: int, data: string, rest: seq<int>) | CastUnlock(fd: int)
    | RemoveLock(fd: int) | RemoveUnlink(fd: int) | RemoveUnlock(fd: int)
    | Close(fd: int)
    | Exited

  datatype MainPc =
    | MTop | MAccept
    | MPushLock(fd: int) | MPushLink(fd: int) | MPushSignal | MPushUnlock
    | MCloseLock | MCloseSet | MCloseWake | MCloseUnlock
    | MJoin
    | MFinalLock | MFinal(rest: seq<int>) | MFinalUnlock
    | MExit

  /** A broadcast: who sent it, on which descriptor, what was received, and the sessions that
      were registered, sender excepted, when the broadcaster got the list's mutex. */
  datatype Entry = Entry(from: nat, fd: int, data: string, to: set<nat>)

  datatype JobQueue = JobQueue(owner: Option<Thread>, fds: seq<int>, closed: bool)

  datatype ClientList = ClientList(owner: Option<Thread>, fds: seq<int>)

  /** What happened so far; no branch reads it. `heard[x]` is what recv returned for session x,
      `log` the broadcasts in the order in which they got the list's mutex, `inbox[x]` the
      positions in `log` of what was sent to session x. */
  datatype History = History(
    sessions: nat, heard: seq<seq<string>>, log: seq<Entry>, inbox: seq<seq<nat>>,
    pushed: seq<int>, popped: seq<int>)

  /** `conn` (the open client descriptors and the session behind each) and `dead` (the sessions
      whose peer is gone) are the kernel's. */
  datatype State = State(
    running: bool, q: JobQueue, list: ClientList, main: MainPc, workers: seq<WorkerPc>,
    conn: map<int, nat>, dead: set<nat>, hist: History)

  function Initial(n: nat): State {
    State(true, JobQueue(None, [], false), ClientList(None, []), MTop, seq(n, _ => Top),
          map[], {}, History(0, [], [], [], [], []))
  }

  /** What recv reports to a worker. */
  datatype Io = Data(bytes: string) | Eof | Again | Error

  /** `MainStep`'s argument is what the kernel decides for the main thread: the result of
      accept, or which sleeper pthread_cond_signal wakes. */
  datatype Action =
    | MainStep(pick: int)
    | WorkerStep(w: nat, io: Io)
    | SpuriousWake(w: nat)
    | Stop
    | PeerDies(x: nat)

  /** The bytes one broadcast puts on the wire: "[fd] " and as much of the data as fits. */
  function Frame(fd: int, data: string): string {
    var tag := "[" + (if fd < 0 then "-" + Decimal(-fd) else Decimal(fd)) + "] ";
    var room := if |tag| <= OUT_SIZE then OUT_SIZE - |tag| else 0;
    tag + if |data| > room then data[..room] else data
  }

  /** The sessions behind a list of descriptors, one descriptor left out. */
  function SessionsOf(conn: map<int, nat>, fds: seq<int>, except: int): set<nat> {
    set f | f in fds && f != except && f in conn :: conn[f]
  }

  function WakeAll(ws: seq<WorkerPc>): (r: seq<WorkerPc>)
    ensures |r| == |ws|
    ensures forall w :: 0 <= w < |ws| ==> r[w] == if ws[w].Asleep? then Woken else ws[w]
  {
    seq(|ws|, w requires 0 <= w < |ws| => if ws[w].Asleep? then Woken else ws[w])
  }

  predicate WorkerEnabled(s: State, w: nat, io: Io) {
    w < |s.workers| &&
    match s.workers[w]
    case PopLock => s.q.owner.None?
    case Woken => s.q.owner.None?
    case PopTake => s.q.fds != []
    case AddLock(_) => s.list.owner.None?
    case Recv(fd) => fd in s.conn && s.conn[fd] < |s.hist.heard| && (io.Data? ==> 0 < |io.bytes| <= BUF_SIZE)
    case CastLock(fd, _) => s.list.owner.None? && fd in s.conn
    case Cast(_, _, rest) => s.hist.log != [] && (rest != [] ==> rest[0] in s.conn && s.conn[rest[0]] < |s.hist.inbox|)
    case RemoveLock(_) => s.list.owner.None?
    case Asleep => false
    case Exited => false
    case _ => true
  }

  /** The one thing a worker's step does besides moving on. */
  datatype Effect =
    | Nothing
    | LockQueue | UnlockQueue | TakeJob
    | LockList | UnlockList | Link(fd: int) | Unlink(fd: int)
    | Hear(x: nat, bytes: string) | BeginCast(entry: Entry) | Deliver(x: nat)
    | CloseFd(fd: int)

  /** Where a worker's step leads and what it does on the way. */
  function WorkerMove(s: State, w: nat, io: Io): (WorkerPc, Effect)
    requires WorkerEnabled(s, w, io)
  {
    match s.workers[w]
    case Top => (if s.running then PopLock else Exited, Nothing)
    case PopLock => (PopTest, LockQueue)
    case Woken => (PopTest, LockQueue)
    case PopTest =>
      if s.q.fds != [] then (PopTake, Nothing)
      else if s.q.closed then (PopNoneUnlock, Nothing)
      else (Asleep, UnlockQueue)
    case PopTake => (PopUnlock(s.q.fds[0]), TakeJob)
    case PopUnlock(fd) => (AddLock(fd), UnlockQueue)
    case PopNoneUnlock => (Exited, UnlockQueue)
    case AddLock(fd) => (AddLink(fd), LockList)
    case AddLink(fd) => (AddUnlock(fd), Link(fd))
    case AddUnlock(fd) => (RecvTop(fd), UnlockList)
    case RecvTop(fd) => (if s.running then Recv(fd) else RemoveLock(fd), Nothing)
    case Recv(fd) =>
      if io.Data? then (CastLock(fd, io.bytes), Hear(s.conn[fd], io.bytes))
      else if io.Again? then (RecvTop(fd), Nothing)
      else (RemoveLock(fd), Nothing)
    case CastLock(fd, data) =>
      (Cast(fd, data, s.list.fds),
       BeginCast(Entry(s.conn[fd], fd, data, SessionsOf(s.conn, s.list.fds, fd))))
    case Cast(fd, data, rest) =>
      if rest == [] then (CastUnlock(fd), Nothing)
      else if rest[0] == fd then (Cast(fd, data, rest[1..]), Nothing)
      else (Cast(fd, data, rest[1..]), Deliver(s.conn[rest[0]]))
    case CastUnlock(fd) => (RecvTop(fd), UnlockList)
    case RemoveLock(fd) => (RemoveUnlink(fd), LockList)
    case RemoveUnlink(fd) => (RemoveUnlock(fd), Unlink(fd))
    case RemoveUnlock(fd) => (Close(fd), UnlockList)
    case Close(fd) => (Top, CloseFd(fd))
  }

  function QueueAfter(q: JobQueue, e: Effect, w: nat): JobQueue {
    match e
    case LockQueue => q.(owner := Some(WorkerThread(w)))
    case UnlockQueue => q.(owner := None)
    case TakeJob => if q.fds == [] then q else q.(fds := q.fds[1..])
    case _ => q
  }

  function ListAfter(l: ClientList, e: Effect, w: nat): ClientList {
    match e
    case LockList => l.(owner := Some(WorkerThread(w)))
    case BeginCast(_) => l.(owner := Some(WorkerThread(w)))
    case UnlockList => l.(owner := None)
    case Link(fd) => l.(fds := [fd] + l.fds)
    case Unlink(fd) => l.(fds := RemoveFirst(l.fds, fd))
    case _ => l
  }

  /** A send to a live peer delivers; a send to a dead one does not. */
  function HistoryAfter(h: History, e: Effect, q: JobQueue, dead: set<nat>): History {
    match e
    case TakeJob => if q.fds == [] then h else h.(popped := h.popped + [q.fds[0]])
    case Hear(x, bytes) => if x < |h.heard| then h.(heard := h.heard[x := h.heard[x] + [bytes]]) else h
    case BeginCast(entry) => h.(log := h.log + [entry])
    case Deliver(x) =>
      if x < |h.inbox| && x !in dead && h.log != []
      then h.(inbox := h.inbox[x := h.inbox[x] + [|h.log| - 1]])
      else h
    case _ => h
  }

  function WorkerApply(s: State, w: nat, io: Io): State
    requires WorkerEnabled(s, w, io)
  {
    var (pc, e) := WorkerMove(s, w, io);
    State(s.running, QueueAfter(s.q, e, w), ListAfter(s.list, e, w), s.main, s.workers[w := pc],
          if e.CloseFd? then s.conn - {e.fd} else s.conn, s.dead,
          HistoryAfter(s.hist, e, s.q, s.dead))
  }

  predicate MainEnabled(s: State, pick: int) {
    match s.main
    case MAccept => pick in s.conn ==> pick < 0
    case MPushLock(_) => s.q.owner.None?
    case MPushSignal =>
      (forall w :: 0 <= w < |s.workers| ==> !s.workers[w].Asleep?) ||
      (0 <= pick < |s.workers| && s.workers[pick].Asleep?)
    case MCloseLock => s.q.owner.None?
    case MJoin => forall w :: 0 <= w < |s.workers| ==> s.workers[w].Exited?
    case MFinalLock => s.list.owner.None?
    case MExit => false
    case _ => true
  }

  function MainApply(s: State, pick: int): State
    requires MainEnabled(s, pick)
  {
    match s.main
    case MTop => s.(main := if s.running then MAccept else MCloseLock)
    case MAccept => if pick < 0 then s.(main := MTop) else Accepted(s, pick)
    case MPushLock(fd) => s.(main := MPushLink(fd), q := s.q.(owner := Some(MainThread)))
    case MPushLink(fd) =>
      s.(main := MPushSignal, q := s.q.(fds := s.q.fds + [fd]), hist := s.hist.(pushed := s.hist.pushed + [fd]))
    case MPushSignal =>
      s.(main := MPushUnlock,
         workers := if 0 <= pick < |s.workers| && s.workers[pick].Asleep? then s.workers[pick := Woken] else s.workers)
    case MPushUnlock => s.(main := MTop, q := s.q.(owner := None))
    case MCloseLock => s.(main := MCloseSet, q := s.q.(owner := Some(MainThread)))
    case MCloseSet => s.(main := MCloseWake, q := s.q.(closed := true))
    case MCloseWake => s.(main := MCloseUnlock, workers := WakeAll(s.workers))
    case MCloseUnlock => s.(main := MJoin, q := s.q.(owner := None))
    case MJoin => s.(main := MFinalLock)
    case MFinalLock => s.(main := MFinal(s.list.fds), list := s.list.(owner := Some(MainThread)))
    case MFinal(rest) =>
      if rest == [] then s.(main := MFinalUnlock)
      else s.(main := MFinal(rest[1..]), conn := s.conn - {rest[0]})
    case MFinalUnlock => s.(main := MExit, list := s.list.(owner := None))
  }

  /** accept returned `fd`, a number nobody has open: a new session begins. */
  function Accepted(s: State, fd: int): State {
    s.(main := MPushLock(fd), conn := s.conn[fd := s.hist.sessions],
       hist := s.hist.(sessions := s.hist.sessions + 1, heard := s.hist.heard + [[]], inbox := s.hist.inbox + [[]]))
  }

  predicate Enabled(s: State, a: Action) {
    match a
    case MainStep(pick) => MainEnabled(s, pick)
    case WorkerStep(w, io) => WorkerEnabled(s, w, io)
    case SpuriousWake(w) => w < |s.workers| && s.workers[w].Asleep?
    case Stop => true
    case PeerDies(x) => x < s.hist.sessions
  }

  function Apply(s: State, a: Action): State
    requires Enabled(s, a)
  {
    match a
    case MainStep(pick) => MainApply(s, pick)
    case WorkerStep(w, io) => WorkerApply(s, w, io)
    case SpuriousWake(w) => s.(workers := s.workers[w := Woken])
    case Stop => s.(running := false)
    case PeerDies(x) => s.(dead := s.dead + {x})
  }

  /** `acts` is a schedule that can be carried out from `s`. */
  predicate Schedule(s: State, acts: seq<Action>)
    decreases |acts|
  {
    acts == [] || (Enabled(s, acts[0]) && Schedule(Apply(s, acts[0]), acts[1..]))
  }

  function Run(s: State, acts: seq<Action>): State
    requires Schedule(s, acts)
    decreases |acts|
  {
    if acts == [] then s else Run(Apply(s, acts[0]), acts[1..])
  }
}
