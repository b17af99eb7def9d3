/** Whole runs of the TLS chat server: batches of epoll events, accepts that reuse descriptor
    numbers, and the shutdown loop. */
module TlsRuns {
  import opened Prelude
  import opened Tls

  /** `accepted[s]` is the descriptor accept() returned for SSL object s; `open` and `watched`
      are the kernel's open client descriptors and epoll's interest list without the listener;
      `ready` is what is left of the current batch. */
  datatype World = World(listener: int, cs: seq<Conn>, accepted: seq<int>, open: set<int>, watched: set<int>,
                         ready: seq<int>, freed: seq<nat>, closed: seq<int>, wire: seq<(nat, string)>, down: bool)

  datatype Action = Poll(batch: seq<int>) | Accept(fd: int) | AcceptEnds | Event(oracle: Oracle) | Stop

  function Initial(listener: int): World {
    World(listener, [], [], {}, {}, [], [], [], [], false)
  }

  /** epoll reports each descriptor once per batch; accept() may return any descriptor number
      that is not open, one just closed included; the run stops between batches. */
  ghost predicate Enabled(w: World, a: Action) {
    && !w.down
    && match a
       case Poll(batch) => w.ready == [] && Distinct(batch) && forall fd <- batch :: fd == w.listener || fd in w.watched
       case Accept(fd) => w.ready != [] && w.ready[0] == w.listener && fd != w.listener && fd !in w.open
       case AcceptEnds => w.ready != [] && w.ready[0] == w.listener
       case Event(_) => w.ready != [] && w.ready[0] != w.listener
       case Stop => w.ready == []
  }

  function Apply(w: World, a: Action): World {
    match a
    case Poll(batch) => w.(ready := batch)
    case Accept(fd) =>
      w.(cs := [Conn(fd, |w.accepted|, Handshake)] + w.cs, accepted := w.accepted + [fd],
         open := w.open + {fd}, watched := w.watched + {fd})
    case AcceptEnds => if w.ready == [] then w else w.(ready := w.ready[1..])
    case Event(o) =>
      if w.ready == [] then w else
        var fd := w.ready[0];
        var r := HandleEvent(w.cs, fd, o);
        var w' := w.(cs := r.cs, freed := w.freed + r.freed, wire := w.wire + r.wire, ready := w.ready[1..]);
        if r.unknown || r.freed != [] then
          w'.(closed := w.closed + [fd], open := w.open - {fd}, watched := w.watched - {fd})
        else w'
    case Stop =>
      var fds := set c <- w.cs :: c.fd;
      w.(cs := [], freed := w.freed + Ssls(w.cs), closed := w.closed + Fds(w.cs),
         open := w.open - fds, watched := w.watched - fds, down := true)
  }

  ghost predicate Schedule(w: World, acts: seq<Action>)
    decreases |acts|
  {
    acts == [] || (Enabled(w, acts[0]) && Schedule(Apply(w, acts[0]), acts[1..]))
  }

  function Run(w: World, acts: seq<Action>): World
    decreases |acts|
  {
    if acts == [] then w else Run(Apply(w, acts[0]), acts[1..])
  }

  /* ---- The invariant ---- */

  ghost predicate ListOk(w: World) {
    && Distinct(Fds(w.cs)) && Distinct(Ssls(w.cs))
    && (forall i :: 0 <= i < |w.cs| ==> w.cs[i].ssl < |w.accepted| && w.accepted[w.cs[i].ssl] == w.cs[i].fd)
  }

  ghost predicate KernelOk(w: World) {
    && w.watched == w.open && w.listener !in w.open
    && (forall fd :: fd in w.open <==> fd in Fds(w.cs))
  }

  ghost predicate BatchOk(w: World) {
    Distinct(w.ready) && forall fd <- w.ready :: fd == w.listener || fd in w.open
  }

  ghost predicate ReleasedOk(w: World) {
    && |w.freed| == |w.closed| && Distinct(w.freed)
    && (forall j :: 0 <= j < |w.freed| ==> w.freed[j] < |w.accepted| && w.closed[j] == w.accepted[w.freed[j]])
    && (forall s: nat :: s < |w.accepted| ==> (s in w.freed <==> s !in Ssls(w.cs)))
  }

  ghost predicate Inv(w: World) {
    ListOk(w) && KernelOk(w) && BatchOk(w) && ReleasedOk(w) && (w.down ==> w.cs == [])
  }

  /* ---- Broadcasting and reading change states, never who is in the list ---- */

  ghost predicate SameNames(a: seq<Conn>, b: seq<Conn>) {
    |a| == |b| && forall i :: 0 <= i < |a| ==> a[i].fd == b[i].fd && a[i].ssl == b[i].ssl
  }

  lemma {:induction false} ReadAllNames(cs: seq<Conn>, me: nat, o: Oracle, k: nat)
    ensures SameNames(ReadAll(cs, me, o, k).0, cs)
    decreases |o.inputs| - k
  {
    if k < |o.inputs| && o.inputs[k].Plain? {
      ReadAllNames(Broadcast(cs, me, |o.inputs[k].bytes|, o.writes, k), me, o, k + 1);
    }
  }

  lemma ProgressedNames(cs: seq<Conn>, i: nat, o: Oracle)
    requires i < |cs|
    ensures SameNames(Progressed(cs, i, o).0, cs)
  {
    ReadAllNames(cs, cs[i].ssl, o, 0);
  }

  lemma SameColumns(a: seq<Conn>, b: seq<Conn>)
    requires SameNames(a, b)
    ensures Fds(a) == Fds(b) && Ssls(a) == Ssls(b)
  {}

  lemma WithoutColumns(cs: seq<Conn>, i: nat)
    requires i < |cs|
    ensures Fds(Without(cs, i)) == Fds(cs)[..i] + Fds(cs)[i + 1..]
    ensures Ssls(Without(cs, i)) == Ssls(cs)[..i] + Ssls(cs)[i + 1..]
  {}

  lemma Drop<T>(xs: seq<T>, i: nat)
    requires i < |xs| && Distinct(xs)
    ensures Distinct(xs[..i] + xs[i + 1..])
    ensures forall x :: x in xs[..i] + xs[i + 1..] <==> x in xs && x != xs[i]
  {
    var r := xs[..i] + xs[i + 1..];
    forall x | x in xs && x != xs[i] ensures x in r {
      var j :| 0 <= j < |xs| && xs[j] == x;
      assert x == r[if j < i then j else j - 1];
    }
  }

  lemma FdIndex(cs: seq<Conn>, fd: int)
    ensures fd in Fds(cs) <==> IndexOf(cs, fd) != -1
  {
    if IndexOf(cs, fd) != -1 {
      assert Fds(cs)[IndexOf(cs, fd)] == fd;
    }
  }

  /* ---- Every step keeps the invariant ---- */

  lemma AcceptKeeps(w: World, fd: int)
    requires Inv(w) && Enabled(w, Accept(fd))
    ensures Inv(Apply(w, Accept(fd)))
  {
    var w' := Apply(w, Accept(fd));
    var n := |w.accepted|;
    assert Fds(w'.cs) == [fd] + Fds(w.cs);
    assert Ssls(w'.cs) == [n] + Ssls(w.cs);
    assert fd !in Fds(w.cs);
    assert n !in Ssls(w.cs) && n !in w.freed;
    forall i, j | 0 <= i < j < |w'.cs| ensures Fds(w'.cs)[i] != Fds(w'.cs)[j] && Ssls(w'.cs)[i] != Ssls(w'.cs)[j] {
      assert Fds(w.cs)[j - 1] in Fds(w.cs) && Ssls(w.cs)[j - 1] in Ssls(w.cs);
    }
    assert ListOk(w') && ReleasedOk(w');
  }

  lemma StopKeeps(w: World)
    requires Inv(w) && Enabled(w, Stop)
    ensures Inv(Apply(w, Stop)) && Apply(w, Stop).open == {}
  {
    var w' := Apply(w, Stop);
    forall fd | fd in w.open ensures fd in (set c <- w.cs :: c.fd) {
      var i :| 0 <= i < |w.cs| && Fds(w.cs)[i] == fd;
      assert w.cs[i] in w.cs && w.cs[i].fd == fd;
    }
    forall i, j | 0 <= i < j < |w'.freed| ensures w'.freed[i] != w'.freed[j] {
      if i < |w.freed| <= j {
        assert w.freed[i] in w.freed && Ssls(w.cs)[j - |w.freed|] in Ssls(w.cs);
      }
    }
    assert ReleasedOk(w');
  }

  lemma TailDistinct<T>(xs: seq<T>)
    requires xs != [] && Distinct(xs)
    ensures Distinct(xs[1..]) && xs[0] !in xs[1..]
  {}

  /** The descriptor of a connection's event is in the list. */
  lemma EventIsKnown(w: World, o: Oracle)
    requires Inv(w) && Enabled(w, Event(o))
    ensures IndexOf(w.cs, w.ready[0]) != -1 && !HandleEvent(w.cs, w.ready[0], o).unknown
  {
    assert w.ready[0] in w.ready;
    FdIndex(w.cs, w.ready[0]);
  }

  lemma EventKeeps(w: World, o: Oracle)
    requires Inv(w) && Enabled(w, Event(o))
    ensures Inv(Apply(w, Event(o)))
  {
    EventIsKnown(w, o);
    TailDistinct(w.ready);
    var i := IndexOf(w.cs, w.ready[0]);
    ProgressedNames(w.cs, i, o);
    var mid := w.(cs := Progressed(w.cs, i, o).0, ready := w.ready[1..],
                  wire := w.wire + HandleEvent(w.cs, w.ready[0], o).wire);
    SameColumns(mid.cs, w.cs);
    assert ListOk(mid) && KernelOk(mid) && BatchOk(mid) && ReleasedOk(mid);
    if mid.cs[i].state.Closed? {
      RemovalKeeps(mid, i);
    } else {
      assert mid.freed + [] == mid.freed;
    }
  }

  lemma RemovalKeeps(w: World, i: nat)
    requires ListOk(w) && KernelOk(w) && BatchOk(w) && ReleasedOk(w) && i < |w.cs| && w.cs[i].fd !in w.ready
    ensures
      var c := w.cs[i];
      var w' := w.(cs := Without(w.cs, i), freed := w.freed + [c.ssl], closed := w.closed + [c.fd],
                   open := w.open - {c.fd}, watched := w.watched - {c.fd});
      ListOk(w') && KernelOk(w') && BatchOk(w') && ReleasedOk(w')
  {
    WithoutColumns(w.cs, i);
    Drop(Fds(w.cs), i);
    Drop(Ssls(w.cs), i);
    assert Ssls(w.cs)[i] == w.cs[i].ssl && Fds(w.cs)[i] == w.cs[i].fd;
    assert w.cs[i].ssl !in w.freed by { assert Ssls(w.cs)[i] in Ssls(w.cs); }
  }

  lemma StepKeepsInv(w: World, a: Action)
    requires Inv(w) && Enabled(w, a)
    ensures Inv(Apply(w, a))
  {
    match a
    case Poll(_) =>
    case Accept(fd) => AcceptKeeps(w, fd);
    case AcceptEnds => TailDistinct(w.ready);
    case Event(o) => EventKeeps(w, o);
    case Stop => StopKeeps(w);
  }

  lemma {:induction false} RunKeepsInv(w: World, acts: seq<Action>)
    requires Inv(w) && Schedule(w, acts)
    ensures Inv(Run(w, acts)) && Run(w, acts).listener == w.listener
    decreases |acts|
  {
    if acts != [] {
      StepKeepsInv(w, acts[0]);
      RunKeepsInv(Apply(w, acts[0]), acts[1..]);
    }
  }

  ghost predicate Reachable(w: World, listener: int, acts: seq<Action>) {
    Schedule(Initial(listener), acts) && w == Run(Initial(listener), acts)
  }

  /* ---- What every run guarantees ---- */

  /** No event ever reaches the branch for a descriptor that is not in the list. */
  lemma NoUnknownDescriptor(w: World, listener: int, acts: seq<Action>, o: Oracle)
    requires Reachable(w, listener, acts) && Enabled(w, Event(o))
    ensures !HandleEvent(w.cs, w.ready[0], o).unknown
  {
    RunKeepsInv(Initial(listener), acts);
    EventIsKnown(w, o);
  }

  /** The list names each open descriptor once, and no other, whatever numbers were reused. */
  lemma ListIsTheOpenDescriptors(w: World, listener: int, acts: seq<Action>)
    requires Reachable(w, listener, acts)
    ensures Distinct(Fds(w.cs)) && Distinct(Ssls(w.cs))
    ensures forall fd :: fd in w.open <==> fd in Fds(w.cs)
    ensures w.watched == w.open
  {
    RunKeepsInv(Initial(listener), acts);
  }

  /** Nothing is released twice, the j-th close is of the descriptor that belongs to the j-th
      SSL object freed, and what is not released is still in the list. */
  lemma ReleasedAtMostOnce(w: World, listener: int, acts: seq<Action>)
    requires Reachable(w, listener, acts)
    ensures Distinct(w.freed) && |w.freed| == |w.closed|
    ensures forall j :: 0 <= j < |w.freed| ==> w.freed[j] < |w.accepted| && w.closed[j] == w.accepted[w.freed[j]]
    ensures forall s: nat :: s < |w.accepted| ==> (s in w.freed <==> s !in Ssls(w.cs))
  {
    RunKeepsInv(Initial(listener), acts);
  }

  /** After shutdown every SSL object ever made has been freed exactly once, its descriptor
      closed with it, and no client descriptor is open. */
  lemma ShutdownReleasesEverything(w: World, listener: int, acts: seq<Action>)
    requires Reachable(w, listener, acts) && w.down
    ensures w.open == {} && Distinct(w.freed) && |w.freed| == |w.closed| == |w.accepted|
    ensures forall s: nat :: s in w.freed <==> s < |w.accepted|
    ensures forall j :: 0 <= j < |w.freed| ==> w.freed[j] < |w.accepted| && w.closed[j] == w.accepted[w.freed[j]]
  {
    RunKeepsInv(Initial(listener), acts);
    assert w.open == {} by {
      forall fd ensures fd !in w.open { assert fd !in Fds(w.cs); }
    }
    forall s: nat | s in w.freed ensures s < |w.accepted| {
      var j :| 0 <= j < |w.freed| && w.freed[j] == s;
    }
    AllOf(w.freed, |w.accepted|);
  }

  /** A sequence that lists each number below n exactly once has n elements. */
  lemma {:induction false} AllOf(xs: seq<nat>, n: nat)
    requires Distinct(xs) && forall s: nat :: s in xs <==> s < n
    ensures |xs| == n
  {
    if n == 0 {
      NobodyIn(xs);
    } else {
      assert n - 1 in xs;
      var i :| 0 <= i < |xs| && xs[i] == n - 1;
      Drop(xs, i);
      var rest := xs[..i] + xs[i + 1..];
      assert forall s: nat :: s in rest <==> s in xs && s != n - 1;
      AllOf(rest, n - 1);
    }
  }

  /* ---- The life of one connection ---- */

  datatype Stage = Unborn | In(state: ConnState) | Freed

  function Lookup(cs: seq<Conn>, ssl: nat): (r: Option<Conn>)
    ensures r.Some? ==> r.value in cs && r.value.ssl == ssl
  {
    if cs == [] then None else if cs[0].ssl == ssl then Some(cs[0]) else Lookup(cs[1..], ssl)
  }

  lemma {:induction false} LookupFinds(cs: seq<Conn>, ssl: nat)
    ensures ssl in Ssls(cs) <==> Lookup(cs, ssl).Some?
    ensures forall i :: 0 <= i < |cs| && cs[i].ssl == ssl && Distinct(Ssls(cs)) ==> Lookup(cs, ssl) == Some(cs[i])
  {
    if cs != [] {
      assert Ssls(cs) == [cs[0].ssl] + Ssls(cs[1..]);
      LookupFinds(cs[1..], ssl);
      forall i | 0 <= i < |cs| && cs[i].ssl == ssl && Distinct(Ssls(cs)) ensures Lookup(cs, ssl) == Some(cs[i]) {
        if i > 0 {
          assert Ssls(cs)[0] != Ssls(cs)[i];
          TailDistinct(Ssls(cs));
          assert cs[1..][i - 1] == cs[i];
        }
      }
    }
  }

  /** Where SSL object s is in its life. */
  function StageOf(w: World, s: nat): Stage {
    if s in w.freed then Freed
    else
      match Lookup(w.cs, s)
      case None => Unborn
      case Some(c) => In(c.state)
  }

  /** A failed handshake or an ended connection is closed and freed within its own event; the
      closed state is seen between events only on a peer that a broadcast marked. */
  predicate Moves(a: Stage, b: Stage) {
    || a == b
    || (a == Unborn && b == In(Handshake))
    || (a == In(Handshake) && b == In(Established))
    || (a == In(Established) && b == In(Closed))
    || (a.In? && b == Freed)
  }

  lemma {:induction false} ReadAllStates(cs: seq<Conn>, me: nat, o: Oracle, k: nat, i: nat)
    requires i < |cs|
    ensures
      var c := ReadAll(cs, me, o, k).0[i];
      c.state == cs[i].state || (cs[i].state.Established? && c.state.Closed?)
    ensures cs[i].ssl == me ==> ReadAll(cs, me, o, k).0[i] == cs[i]
    decreases |o.inputs| - k
  {
    if k < |o.inputs| && o.inputs[k].Plain? {
      ReadAllStates(Broadcast(cs, me, |o.inputs[k].bytes|, o.writes, k), me, o, k + 1, i);
    }
  }

  lemma ProgressedStates(cs: seq<Conn>, i: nat, o: Oracle, j: nat)
    requires i < |cs| && j < |cs|
    ensures
      var c := Progressed(cs, i, o).0[j];
      Moves(In(cs[j].state), In(c.state)) || (i == j && c.state == Closed)
  {
    ReadAllStates(cs, cs[i].ssl, o, 0, j);
  }

  lemma StageInList(w: World, j: nat)
    requires ListOk(w) && ReleasedOk(w) && j < |w.cs|
    ensures StageOf(w, w.cs[j].ssl) == In(w.cs[j].state)
  {
    assert Ssls(w.cs)[j] in Ssls(w.cs);
    LookupFinds(w.cs, w.cs[j].ssl);
  }

  lemma StageElsewhere(w: World, s: nat)
    requires s !in Ssls(w.cs)
    ensures StageOf(w, s) == if s in w.freed then Freed else Unborn
  {
    LookupFinds(w.cs, s);
  }

  lemma EventStages(w: World, o: Oracle, s: nat)
    requires Inv(w) && Enabled(w, Event(o))
    ensures Moves(StageOf(w, s), StageOf(Apply(w, Event(o)), s))
  {
    EventKeeps(w, o);
    EventIsKnown(w, o);
    var i := IndexOf(w.cs, w.ready[0]);
    var mid := Progressed(w.cs, i, o).0;
    ProgressedNames(w.cs, i, o);
    SameColumns(mid, w.cs);
    if s in Ssls(w.cs) {
      var j :| 0 <= j < |w.cs| && Ssls(w.cs)[j] == s;
      ProgressedStates(w.cs, i, o, j);
      StageInList(w, j);
      ListedStages(w, o, i, mid, j);
    } else {
      StageElsewhere(w, s);
      if mid[i].state.Closed? {
        WithoutColumns(mid, i);
        assert Ssls(w.cs)[i] == mid[i].ssl;
      }
      StageElsewhere(Apply(w, Event(o)), s);
    }
  }

  lemma ListedStages(w: World, o: Oracle, i: nat, mid: seq<Conn>, j: nat)
    requires Inv(w) && Enabled(w, Event(o)) && Inv(Apply(w, Event(o))) && j < |w.cs| && i < |w.cs|
    requires i == IndexOf(w.cs, w.ready[0]) && mid == Progressed(w.cs, i, o).0 && SameNames(mid, w.cs)
    ensures StageOf(Apply(w, Event(o)), w.cs[j].ssl)
         == if mid[i].state.Closed? && i == j then Freed else In(mid[j].state)
  {
    var w' := Apply(w, Event(o));
    if !mid[i].state.Closed? {
      StageInList(w', j);
    } else if j == i {
      assert w'.freed[|w.freed|] == mid[i].ssl;
    } else {
      StageBeside(w', mid, i, j);
    }
  }

  lemma StageBeside(w: World, mid: seq<Conn>, i: nat, j: nat)
    requires ListOk(w) && ReleasedOk(w) && i < |mid| && j < |mid| && i != j && w.cs == Without(mid, i)
    ensures StageOf(w, mid[j].ssl) == In(mid[j].state)
  {
    var k := if j < i then j else j - 1;
    assert w.cs[k] == mid[j];
    StageInList(w, k);
  }

  /** Whatever happens, a connection only moves forward: made, shaking hands, established,
      closed, freed. */
  lemma Lifecycle(w: World, listener: int, acts: seq<Action>, a: Action, s: nat)
    requires Reachable(w, listener, acts) && Enabled(w, a)
    ensures Moves(StageOf(w, s), StageOf(Apply(w, a), s))
  {
    RunKeepsInv(Initial(listener), acts);
    match a
    case Poll(_) =>
    case AcceptEnds =>
    case Event(o) => EventStages(w, o, s);
    case Accept(fd) =>
      if s != |w.accepted| {
        assert Apply(w, a).cs[1..] == w.cs;
      } else {
        LookupFinds(w.cs, s);
      }
    case Stop =>
      LookupFinds(w.cs, s);
  }

  /* ---- What one peer gets from one event ---- */

  /** The texts addressed to SSL object s. */
  function Texts(wire: seq<(nat, string)>, s: nat): seq<string> {
    if wire == [] then []
    else Texts(wire[..|wire| - 1], s) + if wire[|wire| - 1].0 == s then [wire[|wire| - 1].1] else []
  }

  lemma {:induction false} TextsAppend(a: seq<(nat, string)>, b: seq<(nat, string)>, s: nat)
    ensures Texts(a + b, s) == Texts(a, s) + Texts(b, s)
  {
    if b == [] {
      assert a + b == a;
    } else {
      var m := |b| - 1;
      assert (a + b)[..|a| + m] == a + b[..m];
      TextsAppend(a, b[..m], s);
    }
  }

  /** One peer on its own: the messages the sender reads from the k-th on are written to it,
      each as far as it takes it, until it breaks; then it is closed and gets no more. */
  function Hear(c: Conn, me: nat, o: Oracle, k: nat): (Conn, seq<string>)
    decreases |o.inputs| - k
  {
    if k >= |o.inputs| || !o.inputs[k].Plain? then (c, [])
    else if !c.state.Established? || c.ssl == me then Hear(c, me, o, k + 1)
    else
      var text := o.inputs[k].bytes;
      var (taken, broken) := Push(|text|, o.writes(k, c.ssl));
      var (c', rest) := Hear(if broken then c.(state := Closed) else c, me, o, k + 1);
      (c', [text[..taken]] + rest)
  }

  /** A connection that is in the list once gets one turn of the broadcast loop. */
  lemma OneTextEach(cs: seq<Conn>, me: nat, buf: string, writes: (nat, nat) -> seq<WriteAnswer>, k: nat, i: nat)
    requires i < |cs| && Distinct(Ssls(cs))
    ensures Texts(Wire(cs, me, buf, writes, k), cs[i].ssl) == Texts(Sent(cs[i], me, buf, writes, k), cs[i].ssl)
  {
    forall j | 0 <= j < |cs| && j != i ensures cs[j].ssl != cs[i].ssl {
      OtherSsl(cs, i, j);
    }
    NoMoreText(cs, 0, i, me, buf, writes, k, cs[i].ssl);
    OneMoreText(cs, i, me, buf, writes, k, cs[i].ssl);
    NoMoreText(cs, i + 1, |cs|, me, buf, writes, k, cs[i].ssl);
  }

  lemma {:induction false} NoMoreText(cs: seq<Conn>, n: nat, m: nat, me: nat, buf: string,
      writes: (nat, nat) -> seq<WriteAnswer>, k: nat, s: nat)
    requires n <= m <= |cs| && forall j :: n <= j < m ==> cs[j].ssl != s
    ensures Texts(SentUpTo(cs, m, me, buf, writes, k), s) == Texts(SentUpTo(cs, n, me, buf, writes, k), s)
    decreases m - n
  {
    if n < m {
      SkippedText(cs, n, me, buf, writes, k, s);
      NoMoreText(cs, n + 1, m, me, buf, writes, k, s);
    }
  }

  lemma OneMoreText(cs: seq<Conn>, n: nat, me: nat, buf: string, writes: (nat, nat) -> seq<WriteAnswer>, k: nat, s: nat)
    requires n < |cs|
    ensures
      var before, after := Texts(SentUpTo(cs, n, me, buf, writes, k), s),
        Texts(SentUpTo(cs, n + 1, me, buf, writes, k), s);
      after == before + Texts(Sent(cs[n], me, buf, writes, k), s)
  {
    TextsAppend(SentUpTo(cs, n, me, buf, writes, k), Sent(cs[n], me, buf, writes, k), s);
  }

  lemma SkippedText(cs: seq<Conn>, n: nat, me: nat, buf: string, writes: (nat, nat) -> seq<WriteAnswer>, k: nat, s: nat)
    requires n < |cs| && cs[n].ssl != s
    ensures Texts(SentUpTo(cs, n + 1, me, buf, writes, k), s) == Texts(SentUpTo(cs, n, me, buf, writes, k), s)
  {
    OneMoreText(cs, n, me, buf, writes, k, s);
    NotAddressed(cs[n], me, buf, writes, k, s);
  }

  lemma OtherSsl(cs: seq<Conn>, i: nat, j: nat)
    requires i < |cs| && j < |cs| && i != j && Distinct(Ssls(cs))
    ensures cs[i].ssl != cs[j].ssl
  {
    assert Ssls(cs)[i] != Ssls(cs)[j];
  }

  lemma NotAddressed(c: Conn, me: nat, buf: string, writes: (nat, nat) -> seq<WriteAnswer>, k: nat, s: nat)
    requires c.ssl != s
    ensures Texts(Sent(c, me, buf, writes, k), s) == []
  {
    var sent := Sent(c, me, buf, writes, k);
    if sent != [] {
      assert sent[..0] == [];
    }
  }

  /** The loop over the whole list inside the read loop is, for each connection, the loop over
      that connection alone: same final state, same texts in the same order. */
  lemma {:induction false} EachPeerAlone(cs: seq<Conn>, me: nat, o: Oracle, k: nat, i: nat)
    requires i < |cs| && Distinct(Ssls(cs))
    ensures ReadAll(cs, me, o, k).0[i] == Hear(cs[i], me, o, k).0
    ensures Texts(ReadAll(cs, me, o, k).2, cs[i].ssl) == Hear(cs[i], me, o, k).1
    decreases |o.inputs| - k
  {
    if k < |o.inputs| && o.inputs[k].Plain? {
      var text := o.inputs[k].bytes;
      var cs' := Broadcast(cs, me, |text|, o.writes, k);
      SameColumns(cs', cs);
      EachPeerAlone(cs', me, o, k + 1, i);
      var now, later := Wire(cs, me, text, o.writes, k), ReadAll(cs', me, o, k + 1).2;
      TextsAppend(now, later, cs[i].ssl);
      OneTextEach(cs, me, text, o.writes, k, i);
      TextsAppend([], Sent(cs[i], me, text, o.writes, k), cs[i].ssl);
      AloneStep(cs[i], me, o, k);
    }
  }

  lemma AloneStep(c: Conn, me: nat, o: Oracle, k: nat)
    requires k < |o.inputs| && o.inputs[k].Plain?
    ensures
      var text := o.inputs[k].bytes;
      var c', rest := Marked(c, me, |text|, o.writes, k), Texts(Sent(c, me, text, o.writes, k), c.ssl);
      Hear(c, me, o, k) == (Hear(c', me, o, k + 1).0, rest + Hear(c', me, o, k + 1).1)
  {
    var text := o.inputs[k].bytes;
    var sent := Sent(c, me, text, o.writes, k);
    if sent != [] {
      assert sent[..0] == [];
      assert Texts(sent, c.ssl) == [text[..Push(|text|, o.writes(k, c.ssl)).0]];
    }
    var c' := Marked(c, me, |text|, o.writes, k);
    if c.state.Established? && c.ssl != me {
      assert Hear(c, me, o, k).1 == [text[..Push(|text|, o.writes(k, c.ssl)).0]] + Hear(c', me, o, k + 1).1;
    } else {
      assert Hear(c, me, o, k).1 == [] + Hear(c', me, o, k + 1).1;
    }
  }

  /** In any run, what an event sends to a connection in the list is what that connection alone
      takes of the messages read; only an established connection's event sends anything. */
  lemma WhatEachPeerGets(w: World, listener: int, acts: seq<Action>, o: Oracle, i: nat)
    requires Reachable(w, listener, acts) && Enabled(w, Event(o)) && i < |w.cs|
    ensures
      var j := IndexOf(w.cs, w.ready[0]);
      && 0 <= j
      && Texts(HandleEvent(w.cs, w.ready[0], o).wire, w.cs[i].ssl)
      == if w.cs[j].state.Established? then Hear(w.cs[i], w.cs[j].ssl, o, 0).1 else []
  {
    RunKeepsInv(Initial(listener), acts);
    EventIsKnown(w, o);
    WireOfEvent(w.cs, IndexOf(w.cs, w.ready[0]), w.ready[0], o, i);
  }

  lemma WireOfEvent(cs: seq<Conn>, j: nat, fd: int, o: Oracle, i: nat)
    requires j == IndexOf(cs, fd) && i < |cs| && Distinct(Ssls(cs))
    ensures Texts(HandleEvent(cs, fd, o).wire, cs[i].ssl)
         == if cs[j].state.Established? then Hear(cs[i], cs[j].ssl, o, 0).1 else []
  {
    var wire := Progressed(cs, j, o).1;
    assert HandleEvent(cs, fd, o).wire == wire;
    if cs[j].state.Established? {
      EachPeerAlone(cs, cs[j].ssl, o, 0, i);
    }
  }

  /* ---- What becomes of the connection whose event it is ---- */

  /** The peer's messages are followed by its end, or by an error, before there is nothing to read. */
  ghost predicate Ends(inputs: seq<ReadAnswer>) {
    exists k :: 0 <= k < |inputs| && (inputs[k].Ended? || inputs[k].Failed?) &&
      forall j :: 0 <= j < k ==> inputs[j].Plain?
  }

  ghost predicate EndsFrom(inputs: seq<ReadAnswer>, k: nat) {
    exists e :: k <= e < |inputs| && (inputs[e].Ended? || inputs[e].Failed?) &&
      forall j :: k <= j < e ==> inputs[j].Plain?
  }

  lemma {:induction false} OverExactly(cs: seq<Conn>, me: nat, o: Oracle, k: nat)
    ensures ReadAll(cs, me, o, k).1 <==> EndsFrom(o.inputs, k)
    decreases |o.inputs| - k
  {
    if k < |o.inputs| && o.inputs[k].Plain? {
      OverExactly(Broadcast(cs, me, |o.inputs[k].bytes|, o.writes, k), me, o, k + 1);
      if EndsFrom(o.inputs, k + 1) {
        var e :| k + 1 <= e < |o.inputs| && (o.inputs[e].Ended? || o.inputs[e].Failed?) &&
          forall j :: k + 1 <= j < e ==> o.inputs[j].Plain?;
        assert forall j :: k <= j < e ==> o.inputs[j].Plain?;
      }
    }
  }

  /** What an event releases of connection i, whose event it is. */
  ghost predicate IsReleased(c: Conn, o: Oracle) {
    match c.state
    case Handshake => o.accept.Refused?
    case Established => Ends(o.inputs)
    case Closed => true
  }

  lemma ReaderExactly(cs: seq<Conn>, i: nat, o: Oracle)
    requires i < |cs|
    ensures
      var c' := Progressed(cs, i, o).0[i];
      && (c'.state.Closed? <==> IsReleased(cs[i], o))
      && (!c'.state.Closed? ==> (c'.state.Established? <==> cs[i].state.Established? || o.accept.Done?))
  {
    if cs[i].state.Established? {
      OverExactly(cs, cs[i].ssl, o, 0);
      ReadAllStates(cs, cs[i].ssl, o, 0, i);
    }
  }

  /** In any run: an established connection is freed by its own event if and only if that event
      reads its end or an error after nothing but messages, and stays established otherwise. One
      that shakes hands is freed if and only if SSL_accept fails for good, and established if and
      only if it succeeds. One that a broadcast has marked is freed. */
  lemma ReleasedExactly(w: World, listener: int, acts: seq<Action>, o: Oracle, i: nat)
    requires Reachable(w, listener, acts) && Enabled(w, Event(o)) && i < |w.cs| && w.cs[i].fd == w.ready[0]
    ensures
      var c, freed := w.cs[i], HandleEvent(w.cs, w.ready[0], o).freed;
      && (c.state.Established? ==> freed == if Ends(o.inputs) then [c.ssl] else [])
      && (c.state.Handshake? ==> freed == if o.accept.Refused? then [c.ssl] else [])
      && (c.state.Closed? ==> freed == [c.ssl])
    ensures
      var c, after := w.cs[i], StageOf(Apply(w, Event(o)), w.cs[i].ssl);
      && (c.state.Established? && !Ends(o.inputs) ==> after == In(Established))
      && (c.state.Handshake? && o.accept.Done? ==> after == In(Established))
      && (c.state.Handshake? && o.accept.NotYet? ==> after == In(Handshake))
  {
    RunKeepsInv(Initial(listener), acts);
    EventKeeps(w, o);
    OnlyIndex(w.cs, i, w.ready[0]);
    ReaderExactly(w.cs, i, o);
    ProgressedNames(w.cs, i, o);
    ListedStages(w, o, i, Progressed(w.cs, i, o).0, i);
  }

  lemma OnlyIndex(cs: seq<Conn>, i: nat, fd: int)
    requires i < |cs| && cs[i].fd == fd && Distinct(Fds(cs))
    ensures IndexOf(cs, fd) == i
  {
    var j := IndexOf(cs, fd);
    assert Fds(cs)[i] == fd && Fds(cs)[j] == fd;
  }

  /* ---- Who hears what, when everybody can take it ---- */

  /** The messages read from the k-th answer on, before the first that is none. */
  function Messages(inputs: seq<ReadAnswer>, k: nat): seq<string>
    decreases |inputs| - k
  {
    if k >= |inputs| || !inputs[k].Plain? then [] else [inputs[k].bytes] + Messages(inputs, k + 1)
  }

  /** The peer has room for every message of the event. */
  ghost predicate HasRoom(ssl: nat, o: Oracle) {
    forall k :: 0 <= k < |o.inputs| && o.inputs[k].Plain? ==> |o.inputs[k].bytes| <= Room(o.writes(k, ssl))
  }

  lemma {:induction false} HearsAll(c: Conn, me: nat, o: Oracle, k: nat)
    requires HasRoom(c.ssl, o)
    ensures Hear(c, me, o, k) == (c, if c.state.Established? && c.ssl != me then Messages(o.inputs, k) else [])
    decreases |o.inputs| - k
  {
    if k < |o.inputs| && o.inputs[k].Plain? {
      var text := o.inputs[k].bytes;
      PushMeaning(|text|, o.writes(k, c.ssl));
      assert text[..|text|] == text;
      HearsAll(c, me, o, k + 1);
    }
  }

  lemma {:induction false} OthersHearNothing(c: Conn, me: nat, o: Oracle, k: nat)
    requires !c.state.Established? || c.ssl == me
    ensures Hear(c, me, o, k) == (c, [])
    decreases |o.inputs| - k
  {
    if k < |o.inputs| && o.inputs[k].Plain? {
      OthersHearNothing(c, me, o, k + 1);
    }
  }

  /** The j-th message broke the peer: it did not fit and the connection failed on it. */
  ghost predicate BrokeOn(ssl: nat, o: Oracle, j: nat) {
    j < |o.inputs| && o.inputs[j].Plain? && Room(o.writes(j, ssl)) < |o.inputs[j].bytes| && Breaks(o.writes(j, ssl))
  }

  /** The j-th message as far as the peer has room for it. */
  function Fitting(ssl: nat, o: Oracle, j: nat): string
    requires j < |o.inputs| && o.inputs[j].Plain?
  {
    var text, room := o.inputs[j].bytes, Room(o.writes(j, ssl));
    if |text| <= room then text else text[..room]
  }

  /** `texts` are the messages from the k-th on, each as far as it fits, up to one that broke. */
  ghost predicate GotFitting(texts: seq<string>, ssl: nat, o: Oracle, k: nat) {
    k + |texts| <= |o.inputs| &&
    forall e {:trigger o.inputs[e]} :: k <= e < k + |texts| ==>
      && o.inputs[e].Plain? && texts[e - k] == Fitting(ssl, o, e)
      && (e < k + |texts| - 1 ==> !BrokeOn(ssl, o, e))
  }

  lemma OneMoreFits(texts: seq<string>, ssl: nat, o: Oracle, k: nat)
    requires k < |o.inputs| && o.inputs[k].Plain? && GotFitting(texts, ssl, o, k + 1)
    requires texts != [] ==> !BrokeOn(ssl, o, k)
    ensures GotFitting([Fitting(ssl, o, k)] + texts, ssl, o, k)
  {
    var all := [Fitting(ssl, o, k)] + texts;
    forall e | k <= e < k + |all|
      ensures o.inputs[e].Plain? && all[e - k] == Fitting(ssl, o, e) && (e < k + |all| - 1 ==> !BrokeOn(ssl, o, e))
    {
      if e > k {
        assert all[e - k] == texts[e - (k + 1)];
      }
    }
  }

  lemma HearStep(c: Conn, me: nat, o: Oracle, k: nat)
    requires c.state.Established? && c.ssl != me && k < |o.inputs| && o.inputs[k].Plain?
    ensures
      var next := Hear(if BrokeOn(c.ssl, o, k) then c.(state := Closed) else c, me, o, k + 1);
      Hear(c, me, o, k) == (next.0, [Fitting(c.ssl, o, k)] + next.1)
  {
    var text := o.inputs[k].bytes;
    PushMeaning(|text|, o.writes(k, c.ssl));
    assert text[..|text|] == text;
  }

  /** Without room for everything an established peer gets of each message what fits, up to and
      including the first that breaks it; it is closed if and only if there is such a one. */
  lemma {:induction false} HearsWhatFits(c: Conn, me: nat, o: Oracle, k: nat)
    requires c.state.Established? && c.ssl != me && k <= |o.inputs|
    ensures
      var (c', texts) := Hear(c, me, o, k);
      && |texts| <= |Messages(o.inputs, k)| && GotFitting(texts, c.ssl, o, k)
      && if texts != [] && BrokeOn(c.ssl, o, k + |texts| - 1) then c' == c.(state := Closed)
         else c' == c && |texts| == |Messages(o.inputs, k)|
    decreases |o.inputs| - k
  {
    if k < |o.inputs| && o.inputs[k].Plain? {
      HearStep(c, me, o, k);
      if BrokeOn(c.ssl, o, k) {
        OthersHearNothing(c.(state := Closed), me, o, k + 1);
        OneMoreFits([], c.ssl, o, k);
      } else {
        HearsWhatFits(c, me, o, k + 1);
        OneMoreFits(Hear(c, me, o, k + 1).1, c.ssl, o, k);
      }
    }
  }

  lemma HearsExactly(c: Conn, me: nat, o: Oracle)
    ensures
      var texts := Hear(c, me, o, 0).1;
      && (c.state.Established? && c.ssl != me && HasRoom(c.ssl, o) ==> texts == Messages(o.inputs, 0))
      && (c.state.Established? && c.ssl != me ==> GotFitting(texts, c.ssl, o, 0))
      && (!c.state.Established? || c.ssl == me ==> texts == [])
  {
    if !c.state.Established? || c.ssl == me {
      OthersHearNothing(c, me, o, 0);
    } else {
      HearsWhatFits(c, me, o, 0);
      if HasRoom(c.ssl, o) {
        HearsAll(c, me, o, 0);
      }
    }
  }

  /** In any run: an established peer with room gets every message that the event reads from the
      connection, whole and in order, and one without what fits of each until it breaks; the
      sender, and whoever is not established, gets nothing. */
  lemma EverybodyHears(w: World, listener: int, acts: seq<Action>, o: Oracle, i: nat, j: nat)
    requires Reachable(w, listener, acts) && Enabled(w, Event(o)) && i < |w.cs| && j < |w.cs|
    requires w.cs[j].fd == w.ready[0] && w.cs[j].state.Established?
    ensures
      var texts, peer := Texts(HandleEvent(w.cs, w.ready[0], o).wire, w.cs[i].ssl), w.cs[i];
      && (i != j && peer.state.Established? && HasRoom(peer.ssl, o) ==> texts == Messages(o.inputs, 0))
      && (i != j && peer.state.Established? ==> GotFitting(texts, peer.ssl, o, 0))
      && (i == j || !peer.state.Established? ==> texts == [])
  {
    RunKeepsInv(Initial(listener), acts);
    OnlyIndex(w.cs, j, w.ready[0]);
    WhatEachPeerGets(w, listener, acts, o, i);
    if i != j {
      OtherSsl(w.cs, i, j);
    }
    HearsExactly(w.cs[i], w.cs[j].ssl, o);
  }

  /* ---- The write loop ---- */

  /** What a peer would take before it first says "later" or breaks. */
  function Room(answers: seq<WriteAnswer>): nat {
    if answers == [] || !answers[0].Took? then 0 else answers[0].n + 1 + Room(answers[1..])
  }

  function Breaks(answers: seq<WriteAnswer>): bool {
    answers != [] && (answers[0].Fatal? || (answers[0].Took? && Breaks(answers[1..])))
  }

  /** A peer gets the first min(len, room) bytes: all of them if and only if there is room. It
      is marked closed if and only if it breaks before it has them all; on "later" the rest of
      the message is dropped and the connection kept. */
  lemma {:induction false} PushMeaning(len: nat, answers: seq<WriteAnswer>)
    ensures Push(len, answers).0 == if len <= Room(answers) then len else Room(answers)
    ensures Push(len, answers).1 <==> Room(answers) < len && Breaks(answers)
  {
    if len > 0 && answers != [] && answers[0].Took? {
      PushMeaning(len - if answers[0].n < len then answers[0].n + 1 else len, answers[1..]);
    }
  }
}
