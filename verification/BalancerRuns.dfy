/** Whole runs of the load balancers: the pairing of sockets under reuse of descriptor numbers,
    and what becomes of the bytes. */
module BalancerRuns {
  import opened Balancers
  import opened LowestNumbers

  /** `pairs` is the scanned table, `table` the indexed one. For each open socket, `got` is all
      that its remote end has sent so far, `unread` what has not been read of it, and `out` all
      that was written to it. */
  datatype Sys = Sys(pairs: seq<Pair>, table: seq<Pair>, open: set<int>,
                     got: map<int, string>, unread: map<int, string>, out: map<int, string>)

  /** `Ready(fd, k)` reads k bytes; k = 0 stands for every read that gives nothing (the end of
      the stream, an error, no data yet, or a descriptor that is not open any more): the indexed
      balancer closes on each of these. */
  datatype Action = Connect(pair: Pair) | Arrive(fd: int, bytes: string) | Ready(fd: int, k: nat)

  function Initial(size: nat): Sys {
    Sys([], Replay(size, [], 0), {}, map[], map[], map[])
  }

  function At(m: map<int, string>, fd: int): string {
    if fd in m then m[fd] else ""
  }

  ghost predicate Enabled(s: Sys, a: Action) {
    match a
    case Connect(p) => Fits(p, |s.table|) && p.client !in s.open && p.backend !in s.open
    case Arrive(fd, _) => fd in s.open
    case Ready(fd, k) => 0 <= fd < |s.table| && k <= |At(s.unread, fd)| && (k > 0 ==> fd in s.open)
  }

  /** A closing event is harmless if its descriptor is open, or the peer in its entry is not. */
  ghost predicate Guarded(s: Sys, a: Action)
    requires Enabled(s, a)
  {
    a.Ready? && a.k == 0 ==> a.fd in s.open || Peer(s.table, a.fd) !in s.open
  }

  ghost function Connected(s: Sys, p: Pair): Sys
    requires Fits(p, |s.table|)
  {
    Sys(s.pairs + [p], Record(s.table, p), s.open + {p.client, p.backend},
        s.got[p.client := ""][p.backend := ""], s.unread[p.client := ""][p.backend := ""],
        s.out[p.client := ""][p.backend := ""])
  }

  ghost function Relayed(s: Sys, fd: nat, k: nat): Sys
    requires fd < |s.table| && k <= |At(s.unread, fd)|
  {
    var peer, data := Peer(s.table, fd), At(s.unread, fd);
    s.(unread := s.unread[fd := data[k..]], out := s.out[peer := At(s.out, peer) + data[..k]])
  }

  ghost function Closed(s: Sys, fd: nat): Sys
    requires fd < |s.table|
  {
    s.(open := s.open - {fd, Peer(s.table, fd)})
  }

  ghost function Apply(s: Sys, a: Action): Sys
    requires Enabled(s, a)
  {
    match a
    case Connect(p) => Connected(s, p)
    case Arrive(fd, bytes) =>
      s.(got := s.got[fd := At(s.got, fd) + bytes], unread := s.unread[fd := At(s.unread, fd) + bytes])
    case Ready(fd, k) => if k > 0 then Relayed(s, fd, k) else Closed(s, fd)
  }

  ghost predicate Schedule(s: Sys, acts: seq<Action>)
    decreases |acts|
  {
    acts == [] || (Enabled(s, acts[0]) && Schedule(Apply(s, acts[0]), acts[1..]))
  }

  ghost function Run(s: Sys, acts: seq<Action>): Sys
    requires Schedule(s, acts)
    decreases |acts|
  {
    if acts == [] then s else Run(Apply(s, acts[0]), acts[1..])
  }

  ghost predicate AllGuarded(s: Sys, acts: seq<Action>)
    requires Schedule(s, acts)
    decreases |acts|
  {
    acts == [] || (Guarded(s, acts[0]) && AllGuarded(Apply(s, acts[0]), acts[1..]))
  }

  ghost predicate WasConnected(s: Sys, fd: int) { exists k :: 0 <= k < |s.pairs| && Names(s.pairs[k], fd) }

  /** What the balancer's own kernel does: accept() and then socket() return the lowest numbers
      that are free, and epoll reports descriptors that were connected at some time, closed
      ones that are left in a batch included. */
  ghost predicate ByKernel(taken: set<int>, s: Sys, a: Action) {
    match a
    case Connect(p) => LowestFree(taken, s.open, p.client) && LowestFree(taken, s.open + {p.client}, p.backend)
    case Arrive(_, _) => true
    case Ready(fd, _) => WasConnected(s, fd)
  }

  ghost predicate AllByKernel(taken: set<int>, s: Sys, acts: seq<Action>)
    requires Schedule(s, acts)
    decreases |acts|
  {
    acts == [] || (ByKernel(taken, s, acts[0]) && AllByKernel(taken, Apply(s, acts[0]), acts[1..]))
  }

  /* ---- Invariants ---- */

  /** The open sockets are a disjoint union of pairs: each has a peer, which is another open
      socket whose peer it is. */
  ghost predicate Paired(table: seq<Pair>, open: set<int>) {
    forall fd: int :: fd in open ==> HasPeer(table, open, fd)
  }

  ghost predicate HasPeer(table: seq<Pair>, open: set<int>, fd: int) {
    && 0 <= fd < |table|
    && var peer := Peer(table, fd);
       peer in open && peer != fd && 0 <= peer < |table| && Peer(table, peer) == fd
  }

  ghost predicate HistoryOk(s: Sys) {
    && (forall p <- s.pairs :: Fits(p, |s.table|))
    && s.table == Replay(|s.table|, s.pairs, |s.pairs|)
    && (forall fd :: fd in s.open ==> WasConnected(s, fd))
  }

  ghost predicate Conserved(s: Sys) {
    forall fd: int :: fd in s.open && 0 <= fd < |s.table| ==>
        At(s.got, fd) == At(s.out, Peer(s.table, fd)) + At(s.unread, fd)
  }

  ghost predicate Inv(s: Sys) {
    Paired(s.table, s.open) && HistoryOk(s) && Conserved(s)
  }

  lemma {:induction false} ReplayPrefix(size: nat, pairs: seq<Pair>, p: Pair, n: nat)
    requires n <= |pairs| && (forall q <- pairs :: Fits(q, size)) && Fits(p, size)
    ensures forall q <- pairs + [p] :: Fits(q, size)
    ensures Replay(size, pairs + [p], n) == Replay(size, pairs, n)
  {
    if n > 0 {
      ReplayPrefix(size, pairs, p, n - 1);
    }
  }

  lemma ConnectKeepsHistory(s: Sys, p: Pair)
    requires HistoryOk(s) && Fits(p, |s.table|)
    ensures HistoryOk(Connected(s, p))
  {
    var s' := Connected(s, p);
    ReplayPrefix(|s.table|, s.pairs, p, |s.pairs|);
    assert Fits(s'.pairs[|s.pairs|], |s.table|);
    forall fd | fd in s'.open ensures WasConnected(s', fd) {
      if fd == p.client || fd == p.backend {
        assert Names(s'.pairs[|s.pairs|], fd);
      } else {
        var k :| 0 <= k < |s.pairs| && Names(s.pairs[k], fd);
        assert Names(s'.pairs[k], fd);
      }
    }
  }

  /** A new pair on closed numbers pairs with itself and disturbs no other, even when the
      numbers' old entries were never cleared. */
  lemma ConnectKeepsPairs(s: Sys, p: Pair)
    requires Paired(s.table, s.open) && Enabled(s, Connect(p))
    ensures Paired(Connected(s, p).table, Connected(s, p).open)
  {
    var table, open := Record(s.table, p), s.open + {p.client, p.backend};
    forall fd: int | fd in open ensures HasPeer(table, open, fd) {
      if fd in s.open {
        assert HasPeer(s.table, s.open, fd);
        assert table[fd] == s.table[fd] && table[Peer(s.table, fd)] == s.table[Peer(s.table, fd)];
      }
    }
  }

  lemma ConnectKeepsBytes(s: Sys, p: Pair)
    requires Paired(s.table, s.open) && Conserved(s) && Enabled(s, Connect(p))
    ensures Conserved(Connected(s, p))
  {
    var s' := Connected(s, p);
    forall fd: int | fd in s'.open && 0 <= fd < |s'.table|
      ensures At(s'.got, fd) == At(s'.out, Peer(s'.table, fd)) + At(s'.unread, fd)
    {
      if fd != p.client && fd != p.backend {
        assert HasPeer(s.table, s.open, fd);
        assert Peer(s'.table, fd) == Peer(s.table, fd) && Peer(s.table, fd) in s.open;
      }
    }
  }

  lemma MovedOver(out: string, data: string, k: nat)
    requires k <= |data|
    ensures (out + data[..k]) + data[k..] == out + data
  {}

  /** A relay from fd leaves alone what every other open socket has received and not been read. */
  lemma OthersUnrelayed(s: Sys, fd: nat, k: nat, f: int)
    requires fd < |s.table| && k <= |At(s.unread, fd)| && f != fd
    requires HasPeer(s.table, s.open, f) && HasPeer(s.table, s.open, fd)
    ensures
      var t := Relayed(s, fd, k);
      && At(t.got, f) == At(s.got, f) && At(t.unread, f) == At(s.unread, f)
      && At(t.out, Peer(s.table, f)) == At(s.out, Peer(s.table, f))
  {
    assert Peer(s.table, Peer(s.table, f)) == f;
  }

  lemma RelayKeepsBytes(s: Sys, fd: nat, k: nat)
    requires Paired(s.table, s.open) && Conserved(s) && Enabled(s, Ready(fd, k)) && k > 0
    ensures Conserved(Relayed(s, fd, k))
  {
    var s', peer := Relayed(s, fd, k), Peer(s.table, fd);
    assert HasPeer(s.table, s.open, fd);
    MovedOver(At(s.out, peer), At(s.unread, fd), k);
    assert At(s'.out, peer) == At(s.out, peer) + At(s.unread, fd)[..k] && At(s'.unread, fd) == At(s.unread, fd)[k..];
    forall f: int | f in s'.open && 0 <= f < |s'.table| && f != fd
      ensures At(s'.got, f) == At(s'.out, Peer(s'.table, f)) + At(s'.unread, f)
    {
      assert HasPeer(s.table, s.open, f);
      OthersUnrelayed(s, fd, k, f);
    }
  }

  lemma ArriveKeepsInv(s: Sys, fd: int, bytes: string)
    requires Inv(s) && Enabled(s, Arrive(fd, bytes))
    ensures Inv(Apply(s, Arrive(fd, bytes)))
  {
    var s' := Apply(s, Arrive(fd, bytes));
    forall f: int | f in s'.open && 0 <= f < |s'.table|
      ensures At(s'.got, f) == At(s'.out, Peer(s'.table, f)) + At(s'.unread, f)
    {
      assert At(s.got, f) == At(s.out, Peer(s.table, f)) + At(s.unread, f);
    }
    assert HistoryOk(s');
  }

  /** Closing on any event, stale or not, keeps the pairing if and only if the event's
      descriptor is open or the peer in its entry is not: an event on a closed descriptor whose
      old peer's number is in use again tears another pair apart. */
  lemma CloseKeepsPairsExactly(table: seq<Pair>, open: set<int>, fd: nat)
    requires Paired(table, open) && fd < |table|
    ensures Paired(table, open - {fd, Peer(table, fd)}) <==> (fd in open || Peer(table, fd) !in open)
  {
    var peer := Peer(table, fd);
    if fd !in open && peer in open {
      var torn := Peer(table, peer);
      assert HasPeer(table, open, peer);
      assert torn in open - {fd, peer} && !HasPeer(table, open - {fd, peer}, torn);
    } else {
      forall f: int | f in open - {fd, peer} ensures HasPeer(table, open - {fd, peer}, f) {
        assert HasPeer(table, open, f);
        assert fd in open ==> HasPeer(table, open, fd);
      }
    }
  }

  lemma StepKeepsInv(s: Sys, a: Action)
    requires Inv(s) && Enabled(s, a) && Guarded(s, a)
    ensures Inv(Apply(s, a))
  {
    match a
    case Connect(p) =>
      ConnectKeepsHistory(s, p);
      ConnectKeepsPairs(s, p);
      ConnectKeepsBytes(s, p);
    case Arrive(fd, bytes) => ArriveKeepsInv(s, fd, bytes);
    case Ready(fd, k) =>
      if k > 0 {
        RelayKeepsBytes(s, fd, k);
      } else {
        CloseKeepsPairsExactly(s.table, s.open, fd);
      }
  }

  lemma {:induction false} RunKeepsInv(s: Sys, acts: seq<Action>)
    requires Inv(s) && Schedule(s, acts) && AllGuarded(s, acts)
    ensures Inv(Run(s, acts))
    decreases |acts|
  {
    if acts != [] {
      StepKeepsInv(s, acts[0]);
      RunKeepsInv(Apply(s, acts[0]), acts[1..]);
    }
  }

  /* ---- On the balancer's own kernel no closing event does harm ---- */

  /** Each entry ever written names two mates. */
  ghost predicate EntriesAreMates(taken: set<int>, s: Sys) {
    forall fd: int :: 0 <= fd < |s.table| && WasConnected(s, fd) ==> Mates(taken, fd, Peer(s.table, fd))
  }

  lemma EntriesAfterConnect(taken: set<int>, s: Sys, p: Pair, fd: int)
    requires EntriesAreMates(taken, s) && Fits(p, |s.table|) && Mates(taken, p.client, p.backend)
    requires 0 <= fd < |s.table| && WasConnected(Connected(s, p), fd)
    ensures Mates(taken, fd, Peer(Record(s.table, p), fd))
  {
    if fd != p.client && fd != p.backend {
      var k :| 0 <= k < |s.pairs + [p]| && Names((s.pairs + [p])[k], fd);
      assert k < |s.pairs| && Names(s.pairs[k], fd);
      assert WasConnected(s, fd) && Mates(taken, fd, Peer(s.table, fd));
      assert Record(s.table, p)[fd] == s.table[fd];
    } else {
      assert Peer(Record(s.table, p), fd) == if fd == p.client then p.backend else p.client;
    }
  }

  lemma ConnectKeepsMates(taken: set<int>, s: Sys, p: Pair)
    requires InTwos(taken, s.open) && EntriesAreMates(taken, s)
    requires Enabled(s, Connect(p)) && ByKernel(taken, s, Connect(p))
    ensures InTwos(taken, Connected(s, p).open) && EntriesAreMates(taken, Connected(s, p))
  {
    LowestAreMates(taken, s.open, p.client, p.backend);
    OpeningKeepsTwos(taken, s.open, p.client, p.backend);
    forall fd: int | 0 <= fd < |s.table| && WasConnected(Connected(s, p), fd)
      ensures Mates(taken, fd, Peer(Record(s.table, p), fd))
    {
      EntriesAfterConnect(taken, s, p, fd);
    }
  }

  lemma KernelStep(taken: set<int>, s: Sys, a: Action)
    requires InTwos(taken, s.open) && EntriesAreMates(taken, s) && Enabled(s, a) && ByKernel(taken, s, a)
    ensures Guarded(s, a)
    ensures InTwos(taken, Apply(s, a).open) && EntriesAreMates(taken, Apply(s, a))
  {
    match a
    case Connect(p) => ConnectKeepsMates(taken, s, p);
    case Arrive(_, _) =>
      assert forall fd :: WasConnected(Apply(s, a), fd) <==> WasConnected(s, fd);
    case Ready(fd, k) =>
      var peer := Peer(s.table, fd);
      assert Mates(taken, fd, peer) && Mates(taken, peer, fd);
      ClosingKeepsTwos(taken, s.open, fd, peer);
      assert forall f :: WasConnected(Apply(s, a), f) <==> WasConnected(s, f);
  }

  lemma {:induction false} KernelGuards(taken: set<int>, s: Sys, acts: seq<Action>)
    requires Schedule(s, acts) && AllByKernel(taken, s, acts)
    requires InTwos(taken, s.open) && EntriesAreMates(taken, s)
    ensures AllGuarded(s, acts)
    decreases |acts|
  {
    if acts != [] {
      KernelStep(taken, s, acts[0]);
      KernelGuards(taken, Apply(s, acts[0]), acts[1..]);
    }
  }

  /** A run on a kernel that hands out the lowest free numbers, whatever events come and however
      late; or on one that hands out any, with harmless closing events. */
  ghost predicate Reachable(s: Sys, size: nat, taken: set<int>, acts: seq<Action>) {
    && Schedule(Initial(size), acts) && s == Run(Initial(size), acts)
    && (AllByKernel(taken, Initial(size), acts) || AllGuarded(Initial(size), acts))
  }

  lemma ReachableInv(s: Sys, size: nat, taken: set<int>, acts: seq<Action>)
    requires Reachable(s, size, taken, acts)
    ensures Inv(s)
  {
    if AllByKernel(taken, Initial(size), acts) {
      KernelGuards(taken, Initial(size), acts);
    }
    RunKeepsInv(Initial(size), acts);
  }

  /* ---- What every run guarantees ---- */

  /** Stale events included, the sockets are paired in every state of every run on a kernel that
      hands out the lowest free numbers. */
  lemma AlwaysPairedByKernel(size: nat, taken: set<int>, acts: seq<Action>)
    requires Schedule(Initial(size), acts) && AllByKernel(taken, Initial(size), acts)
    ensures AllGuarded(Initial(size), acts) && AlwaysPaired(Initial(size), acts)
  {
    KernelGuards(taken, Initial(size), acts);
    PairedExactly(size, acts);
  }

  lemma PeersAreMutual(s: Sys, size: nat, taken: set<int>, acts: seq<Action>, fd: int)
    requires Reachable(s, size, taken, acts) && fd in s.open
    ensures 0 <= fd < |s.table|
    ensures
      var peer := Peer(s.table, fd);
      peer in s.open && peer != fd && 0 <= peer < |s.table| && Peer(s.table, peer) == fd
  {
    ReachableInv(s, size, taken, acts);
  }

  /** The linear scan is the same involution: it finds for every open socket the peer that the
      indexed table holds. */
  lemma ScanAgrees(s: Sys, size: nat, taken: set<int>, acts: seq<Action>, fd: int)
    requires Reachable(s, size, taken, acts) && fd in s.open
    ensures 0 <= fd < |s.table|
    ensures
      var peer := Scan(s.pairs, |s.pairs|, fd);
      peer == Peer(s.table, fd) && peer in s.open && peer != fd && Scan(s.pairs, |s.pairs|, peer) == fd
  {
    ReachableInv(s, size, taken, acts);
    assert HasPeer(s.table, s.open, fd);
    ScanIsIndex(|s.table|, s.pairs, |s.pairs|, fd);
    ScanIsIndex(|s.table|, s.pairs, |s.pairs|, Peer(s.table, fd));
  }

  /** Both ends of a pair open together and close together, and no other socket is affected. */
  lemma EndsTogether(s: Sys, size: nat, taken: set<int>, acts: seq<Action>, a: Action, fd: int)
    requires Schedule(Initial(size), acts) && s == Run(Initial(size), acts) && Enabled(s, a) && fd in s.open
    requires Reachable(Apply(s, a), size, taken, acts + [a])
    ensures 0 <= fd < |s.table|
    ensures
      var s', peer := Apply(s, a), Peer(s.table, fd);
      && (fd in s'.open <==> peer in s'.open)
      && (fd !in s'.open ==> a == Ready(fd, 0) || a == Ready(peer, 0))
      && (fd in s'.open ==> fd < |s'.table| && Peer(s'.table, fd) == peer)
  {
    BeforeTheLast(s, size, taken, acts, a);
    assert HasPeer(s.table, s.open, fd);
    match a
    case Connect(p) =>
      assert Peer(Connected(s, p).table, fd) == Peer(s.table, fd);
    case Arrive(_, _) =>
    case Ready(f, k) =>
      if k == 0 && f in s.open {
        assert HasPeer(s.table, s.open, f);
        CloseTakesThePair(s.table, s.open, f, fd);
      }
  }

  /** A closing event takes down whatever pair its descriptor belongs to now, and does nothing if
      that descriptor is closed. So one left over from an earlier connection does harm if and
      only if its number is open again. */
  lemma StaleEventHarmsExactly(s: Sys, size: nat, taken: set<int>, acts: seq<Action>, fd: nat)
    requires Schedule(Initial(size), acts) && s == Run(Initial(size), acts) && Enabled(s, Ready(fd, 0))
    requires Reachable(Apply(s, Ready(fd, 0)), size, taken, acts + [Ready(fd, 0)])
    ensures
      var s' := Apply(s, Ready(fd, 0));
      && (s'.open != s.open <==> fd in s.open)
      && (fd in s.open ==> Peer(s.table, fd) in s.open && s'.open == s.open - {fd, Peer(s.table, fd)})
  {
    BeforeTheLast(s, size, taken, acts, Ready(fd, 0));
    if fd in s.open {
      assert HasPeer(s.table, s.open, fd) && fd !in Apply(s, Ready(fd, 0)).open;
    }
  }

  lemma BeforeTheLast(s: Sys, size: nat, taken: set<int>, acts: seq<Action>, a: Action)
    requires Schedule(Initial(size), acts) && s == Run(Initial(size), acts) && Enabled(s, a)
    requires Reachable(Apply(s, a), size, taken, acts + [a])
    ensures Inv(s) && Guarded(s, a)
  {
    if AllByKernel(taken, Initial(size), acts + [a]) {
      KernelGuards(taken, Initial(size), acts + [a]);
    }
    GuardedPrefix(Initial(size), acts, a);
    RunKeepsInv(Initial(size), acts);
  }

  lemma {:induction false} GuardedPrefix(s: Sys, acts: seq<Action>, a: Action)
    requires Schedule(s, acts) && Schedule(s, acts + [a]) && AllGuarded(s, acts + [a])
    ensures AllGuarded(s, acts) && Enabled(Run(s, acts), a) && Guarded(Run(s, acts), a)
    decreases |acts|
  {
    if acts != [] {
      assert (acts + [a])[1..] == acts[1..] + [a];
      GuardedPrefix(Apply(s, acts[0]), acts[1..], a);
    }
  }

  lemma CloseTakesThePair(table: seq<Pair>, open: set<int>, f: int, fd: int)
    requires f in open && fd in open && HasPeer(table, open, f) && HasPeer(table, open, fd)
    ensures fd in open - {f, Peer(table, f)} <==> Peer(table, fd) in open - {f, Peer(table, f)}
    ensures fd !in open - {f, Peer(table, f)} ==> f == fd || f == Peer(table, fd)
  {
    assert Peer(table, Peer(table, f)) == f && Peer(table, Peer(table, fd)) == fd;
  }

  /** In each direction of each open pair, what was relayed followed by what is still unread is
      what arrived: nothing is lost, reordered or taken from another connection. */
  lemma BytesConserved(s: Sys, size: nat, taken: set<int>, acts: seq<Action>, fd: int)
    requires Reachable(s, size, taken, acts) && fd in s.open
    ensures 0 <= fd < |s.table| && At(s.got, fd) == At(s.out, Peer(s.table, fd)) + At(s.unread, fd)
  {
    ReachableInv(s, size, taken, acts);
  }

  /** A read of k bytes hands exactly the first k unread ones to the socket that the scan names
      as the peer, behind what it got before; nothing else moves. */
  lemma RelayExactly(s: Sys, size: nat, taken: set<int>, acts: seq<Action>, fd: int, k: nat)
    requires Reachable(s, size, taken, acts) && Enabled(s, Ready(fd, k)) && k > 0
    ensures
      var t, peer := Apply(s, Ready(fd, k)), Scan(s.pairs, |s.pairs|, fd);
      && At(t.out, peer) == At(s.out, peer) + At(s.unread, fd)[..k] && At(t.unread, fd) == At(s.unread, fd)[k..]
      && (forall f :: f != peer ==> At(t.out, f) == At(s.out, f))
      && (forall f :: f != fd ==> At(t.unread, f) == At(s.unread, f))
      && t.got == s.got && t.open == s.open
  {
    ScanAgrees(s, size, taken, acts, fd);
  }

  /** When all that has arrived is read, the peer has got all of it. */
  lemma AllRelayed(s: Sys, size: nat, taken: set<int>, acts: seq<Action>, fd: int)
    requires Reachable(s, size, taken, acts) && fd in s.open && At(s.unread, fd) == ""
    ensures At(s.out, Scan(s.pairs, |s.pairs|, fd)) == At(s.got, fd)
  {
    ScanAgrees(s, size, taken, acts, fd);
    BytesConserved(s, size, taken, acts, fd);
  }

  /** What the remote end of a socket has sent since the socket was connected. */
  function Arrivals(acts: seq<Action>, fd: int, sofar: string): string {
    if acts == [] then sofar
    else
      match acts[0]
      case Connect(p) => Arrivals(acts[1..], fd, if Names(p, fd) then "" else sofar)
      case Arrive(f, bytes) => Arrivals(acts[1..], fd, if f == fd then sofar + bytes else sofar)
      case Ready(_, _) => Arrivals(acts[1..], fd, sofar)
  }

  lemma {:induction false} GotIsWhatArrived(s: Sys, acts: seq<Action>, fd: int)
    requires Schedule(s, acts)
    ensures At(Run(s, acts).got, fd) == Arrivals(acts, fd, At(s.got, fd))
    decreases |acts|
  {
    if acts != [] {
      GotIsWhatArrived(Apply(s, acts[0]), acts[1..], fd);
    }
  }

  /** So at any time, stale events and reused numbers included, what a socket's peer was sent and
      what is unread are together what has arrived on that socket since it was connected. */
  lemma RelayedIsWhatArrived(s: Sys, size: nat, taken: set<int>, acts: seq<Action>, fd: int)
    requires Reachable(s, size, taken, acts) && fd in s.open
    ensures Arrivals(acts, fd, "") == At(s.out, Scan(s.pairs, |s.pairs|, fd)) + At(s.unread, fd)
  {
    ScanAgrees(s, size, taken, acts, fd);
    BytesConserved(s, size, taken, acts, fd);
    GotIsWhatArrived(Initial(size), acts, fd);
  }

  /* ---- Stale events ---- */

  ghost predicate AlwaysPaired(s: Sys, acts: seq<Action>)
    requires Schedule(s, acts)
    decreases |acts|
  {
    Paired(s.table, s.open) && (acts != [] ==> AlwaysPaired(Apply(s, acts[0]), acts[1..]))
  }

  lemma OtherStepsKeepPairs(s: Sys, a: Action)
    requires Paired(s.table, s.open) && Enabled(s, a) && !(a.Ready? && a.k == 0)
    ensures Paired(Apply(s, a).table, Apply(s, a).open)
  {
    if a.Connect? {
      ConnectKeepsPairs(s, a.pair);
    }
  }

  lemma {:induction false} PairedWhileGuarded(s: Sys, acts: seq<Action>)
    requires Schedule(s, acts) && Paired(s.table, s.open)
    ensures AlwaysPaired(s, acts) <==> AllGuarded(s, acts)
    decreases |acts|
  {
    if acts != [] {
      var a, t := acts[0], Apply(s, acts[0]);
      if a.Ready? && a.k == 0 {
        CloseKeepsPairsExactly(s.table, s.open, a.fd);
      } else {
        OtherStepsKeepPairs(s, a);
      }
      if Paired(t.table, t.open) {
        PairedWhileGuarded(t, acts[1..]);
      }
    }
  }

  /** Whole runs, stale events included: the sockets are paired in every state of the run if and
      only if every closing event in it names an open descriptor or an entry whose peer is closed. */
  lemma PairedExactly(size: nat, acts: seq<Action>)
    requires Schedule(Initial(size), acts)
    ensures AlwaysPaired(Initial(size), acts) <==> AllGuarded(Initial(size), acts)
  {
    PairedWhileGuarded(Initial(size), acts);
  }

  /** With 0 to 4 in use, a client and its backend get 5 and 6, and 5 reports its end while a
      batch still holds an event for 6. The next client gets 5 and 6 again, and the late event
      closes both, although neither has reported anything. */
  lemma StaleEventClosesANewPair()
    ensures
      var taken, acts := {0, 1, 2, 3, 4}, [Connect(Pair(5, 6)), Ready(5, 0), Connect(Pair(5, 6))];
      && Schedule(Initial(8), acts) && AllByKernel(taken, Initial(8), acts)
      && var s := Run(Initial(8), acts);
         && s.open == {5, 6} && Enabled(s, Ready(6, 0)) && ByKernel(taken, s, Ready(6, 0))
         && Apply(s, Ready(6, 0)).open == {}
  {
    var taken := {0, 1, 2, 3, 4};
    var p := Pair(5, 6);
    var s0 := Initial(8);
    var s1 := Apply(s0, Connect(p));
    var s2 := Apply(s1, Ready(5, 0));
    var s3 := Apply(s2, Connect(p));
    assert Names(s1.pairs[0], 5) && Names(s3.pairs[0], 6);
    assert s2.open == {} && s3.open == {5, 6} && Apply(s3, Ready(6, 0)).open == {};
    RunStep(taken, s2, Connect(p), []);
    RunStep(taken, s1, Ready(5, 0), [Connect(p)]);
    RunStep(taken, s0, Connect(p), [Ready(5, 0), Connect(p)]);
    assert [Connect(p)] + [Ready(5, 0), Connect(p)] == [Connect(p), Ready(5, 0), Connect(p)];
  }

  lemma RunStep(taken: set<int>, s: Sys, a: Action, rest: seq<Action>)
    requires Enabled(s, a) && Schedule(Apply(s, a), rest)
    requires ByKernel(taken, s, a) && AllByKernel(taken, Apply(s, a), rest)
    ensures Schedule(s, [a] + rest) && Run(s, [a] + rest) == Run(Apply(s, a), rest)
    ensures AllByKernel(taken, s, [a] + rest)
  {
    assert ([a] + rest)[1..] == rest;
  }
}
