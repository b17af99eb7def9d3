/** The TLS chat server: a linked list of connections, each in one of three states, served by an
    event loop. What OpenSSL answers is an oracle; what the server does with it is the model. */
module Tls {
  datatype ConnState = Handshake | Established | Closed

  datatype Conn = Conn(fd: int, ssl: nat, state: ConnState)

  datatype AcceptAnswer = Done | NotYet | Refused
  datatype ReadAnswer = Plain(bytes: string) | WantMore | Ended | Failed
  /** `Took(n)`: SSL_write took n + 1 more bytes (or all that were left). */
  datatype WriteAnswer = Took(n: nat) | Want | Fatal

  /** `writes(k, x)` is how SSL_write behaves towards SSL object x while the k-th message read
      in this event is broadcast. Answers that run out count as "try later". */
  datatype Oracle = Oracle(accept: AcceptAnswer, inputs: seq<ReadAnswer>, writes: (nat, nat) -> seq<WriteAnswer>)

  /* ---- What the operations compute ---- */

  /** How many of `len` bytes a peer takes, and whether its connection broke. */
  function Push(len: nat, answers: seq<WriteAnswer>): (r: (nat, bool))
    ensures r.0 <= len && (r.1 ==> r.0 < len)
  {
    if len == 0 || answers == [] then (0, false)
    else
      match answers[0]
      case Want => (0, false)
      case Fatal => (0, true)
      case Took(n) =>
        var m := if n < len then n + 1 else len;
        var rest := Push(len - m, answers[1..]);
        (m + rest.0, rest.1)
  }

  /** Broadcasting marks the peers whose connection broke; it does nothing else to the list. */
  function Marked(c: Conn, sender: nat, len: nat, writes: (nat, nat) -> seq<WriteAnswer>, k: nat): Conn {
    if c.state.Established? && c.ssl != sender && Push(len, writes(k, c.ssl)).1 then c.(state := Closed) else c
  }

  /** The list when the first n connections have had their turn. */
  function MarkedUpTo(cs: seq<Conn>, n: nat, sender: nat, len: nat, writes: (nat, nat) -> seq<WriteAnswer>,
      k: nat): (r: seq<Conn>)
    requires n <= |cs|
    ensures |r| == |cs|
    ensures forall i :: 0 <= i < |cs| ==> r[i] == if i < n then Marked(cs[i], sender, len, writes, k) else cs[i]
  {
    if n == 0 then cs
    else MarkedUpTo(cs, n - 1, sender, len, writes, k)[n - 1 := Marked(cs[n - 1], sender, len, writes, k)]
  }

  function Broadcast(cs: seq<Conn>, sender: nat, len: nat, writes: (nat, nat) -> seq<WriteAnswer>,
      k: nat): (r: seq<Conn>)
    ensures |r| == |cs| && forall i :: 0 <= i < |cs| ==> r[i] == Marked(cs[i], sender, len, writes, k)
  {
    MarkedUpTo(cs, |cs|, sender, len, writes, k)
  }

  /** What goes out to one connection: what its SSL object took, if it is an established peer. */
  function Sent(c: Conn, sender: nat, buf: string, writes: (nat, nat) -> seq<WriteAnswer>, k: nat): seq<(nat, string)> {
    if c.state.Established? && c.ssl != sender then [(c.ssl, buf[..Push(|buf|, writes(k, c.ssl)).0])] else []
  }

  /** What has gone out, in list order, when the first n have had their turn. */
  function SentUpTo(cs: seq<Conn>, n: nat, sender: nat, buf: string, writes: (nat, nat) -> seq<WriteAnswer>,
      k: nat): seq<(nat, string)>
    requires n <= |cs|
  {
    if n == 0 then [] else SentUpTo(cs, n - 1, sender, buf, writes, k) + Sent(cs[n - 1], sender, buf, writes, k)
  }

  function Wire(cs: seq<Conn>, sender: nat, buf: string, writes: (nat, nat) -> seq<WriteAnswer>,
      k: nat): seq<(nat, string)> {
    SentUpTo(cs, |cs|, sender, buf, writes, k)
  }

  /** The read loop from its k-th read on: the list afterwards, whether the reader's own
      connection is over, and what went out. */
  function ReadAll(cs: seq<Conn>, me: nat, o: Oracle, k: nat): (r: (seq<Conn>, bool, seq<(nat, string)>))
    ensures |r.0| == |cs|
    decreases |o.inputs| - k
  {
    if k >= |o.inputs| then (cs, false, [])
    else
      match o.inputs[k]
      case Plain(bytes) =>
        var (cs', over, wire) := ReadAll(Broadcast(cs, me, |bytes|, o.writes, k), me, o, k + 1);
        (cs', over, Wire(cs, me, bytes, o.writes, k) + wire)
      case WantMore => (cs, false, [])
      case _ => (cs, true, [])
  }

  function IndexOf(cs: seq<Conn>, fd: int): (i: int)
    ensures -1 <= i < |cs|
    ensures i >= 0 ==> cs[i].fd == fd && forall k :: 0 <= k < i ==> cs[k].fd != fd
    ensures i == -1 ==> forall k :: 0 <= k < |cs| ==> cs[k].fd != fd
  {
    if cs == [] then -1
    else if cs[0].fd == fd then 0
    else
      var i := IndexOf(cs[1..], fd);
      if i == -1 then -1 else i + 1
  }

  /** `freed`: the SSL objects freed; `unknown`: the branch for a descriptor not in the list. */
  datatype Outcome = Outcome(cs: seq<Conn>, freed: seq<nat>, unknown: bool, wire: seq<(nat, string)>)

  function Without(cs: seq<Conn>, i: nat): seq<Conn>
    requires i < |cs|
  {
    cs[..i] + cs[i + 1..]
  }

  /** What the event does to connection i before the final test for a closed one. */
  function Progressed(cs: seq<Conn>, i: nat, o: Oracle): (r: (seq<Conn>, seq<(nat, string)>))
    requires i < |cs|
    ensures |r.0| == |cs|
  {
    var c := cs[i];
    match c.state
    case Handshake => (
      match o.accept
      case Done => (cs[i := c.(state := Established)], [])
      case NotYet => (cs, [])
      case Refused => (cs[i := c.(state := Closed)], []))
    case Established =>
      var (cs', over, wire) := ReadAll(cs, c.ssl, o, 0);
      if over then (cs'[i := cs'[i].(state := Closed)], wire) else (cs', wire)
    case Closed => (cs, [])
  }

  /** The list when the first n accepted descriptors have been put in front of it, one by one. */
  function Accepted(cs: seq<Conn>, fds: seq<int>, n: nat, created: nat): seq<Conn>
    requires n <= |fds|
  {
    if n == 0 then cs else [Conn(fds[n - 1], created + n - 1, Handshake)] + Accepted(cs, fds, n - 1, created)
  }

  /** So the newest comes first, and the connections there were are behind. */
  lemma {:induction false} AcceptedInFront(cs: seq<Conn>, fds: seq<int>, n: nat, created: nat)
    requires n <= |fds|
    ensures |Accepted(cs, fds, n, created)| == n + |cs| && Accepted(cs, fds, n, created)[n..] == cs
    ensures forall i :: 0 <= i < n ==>
      Accepted(cs, fds, n, created)[i] == Conn(fds[n - 1 - i], created + n - 1 - i, Handshake)
  {
    if n > 0 {
      AcceptedInFront(cs, fds, n - 1, created);
    }
  }

  function Known(cs: seq<Conn>, i: nat, o: Oracle): Outcome
    requires i < |cs|
  {
    var (cs', wire) := Progressed(cs, i, o);
    if cs'[i].state.Closed? then Outcome(Without(cs', i), [cs'[i].ssl], false, wire) else Outcome(cs', [], false, wire)
  }

  function HandleEvent(cs: seq<Conn>, fd: int, o: Oracle): Outcome {
    var i := IndexOf(cs, fd);
    if i == -1 then Outcome(cs, [], true, [])
    else Known(cs, i, o)
  }

  /* ---- The list of connections ---- */

  class Node {
    const fd: int
    const ssl: nat
    var state: ConnState
    var next: Node?

    constructor (fd: int, ssl: nat)
      ensures this.fd == fd && this.ssl == ssl && state == Handshake && next == null
    {
      this.fd, this.ssl, state, next := fd, ssl, Handshake, null;
    }
  }

  class Server {
    var connections: Node?
    var freed: seq<nat>
    var closed: seq<int>
    var wire: seq<(nat, string)>
    ghost var nodes: seq<Node>
    /** The list as a value: connection i is node i. */
    ghost var list: seq<Conn>

    ghost predicate Valid()
      reads this, nodes
    {
      && |list| == |nodes| && Apart(list)
      && (forall i :: 0 <= i < |nodes| ==> list[i] == Conn(nodes[i].fd, nodes[i].ssl, nodes[i].state))
      && connections == (if nodes == [] then null else nodes[0])
      && (forall i {:trigger nodes[i].next} :: 0 <= i < |nodes| ==>
            nodes[i].next == if i == |nodes| - 1 then null else nodes[i + 1])
    }

    constructor ()
      ensures Valid() && list == [] && freed == [] && closed == [] && wire == []
    {
      connections, freed, closed, wire := null, [], [], [];
      nodes, list := [], [];
    }

    method AddConnection(fd: int, ssl: nat)
      requires Valid() && BelowSsl(list, ssl)
      modifies this`connections, this`nodes, this`list
      ensures Valid() && list == [Conn(fd, ssl, Handshake)] + old(list) && BelowSsl(list, ssl + 1)
    {
      var c := new Node(fd, ssl);
      c.next := connections;
      connections := c;
      nodes, list := [c] + nodes, [Conn(fd, ssl, Handshake)] + list;
    }

    /** The listener is ready: accept until accept() has nothing more. SSL_new's objects are
        numbered in the order they are made; the newest connection comes first. */
    method AcceptLoop(fds: seq<int>, created: nat)
      requires Valid() && BelowSsl(list, created)
      modifies this`connections, this`nodes, this`list
      ensures Valid() && list == Accepted(old(list), fds, |fds|, created)
    {
      ghost var was := list;
      var k := 0;
      while k < |fds|
        invariant 0 <= k <= |fds| && Valid() && BelowSsl(list, created + k)
        invariant list == Accepted(was, fds, k, created)
      {
        AddConnection(fds[k], created + k);
        k := k + 1;
      }
    }

    /** `prev` was found before the reads and broadcasts; it still precedes `c`. */
    method RemoveConnection(prev: Node?, c: Node, ghost i: nat)
      requires Valid() && i < |nodes| && c == nodes[i] && prev == if i == 0 then null else nodes[i - 1]
      modifies this, prev
      ensures Valid() && list == Without(old(list), i)
      ensures freed == old(freed) + [c.ssl] && closed == old(closed) + [c.fd] && wire == old(wire)
    {
      if prev != null {
        prev.next := c.next;
      } else {
        connections := c.next;
      }
      freed := freed + [c.ssl];
      closed := closed + [c.fd];
      nodes, list := nodes[..i] + nodes[i + 1..], Without(list, i);
    }

    method WriteLoop(len: nat, answers: seq<WriteAnswer>) returns (written: nat, fatal: bool)
      ensures (written, fatal) == Push(len, answers)
    {
      written, fatal := 0, false;
      var k := 0;
      while written < len && k < |answers|
        invariant written <= len && k <= |answers|
        invariant Push(len, answers) ==
          (written + Push(len - written, answers[k..]).0, Push(len - written, answers[k..]).1)
        decreases |answers| - k
      {
        assert answers[k..][1..] == answers[k + 1..];
        match answers[k] {
          case Want => return;
          case Fatal => return written, true;
          case Took(n) =>
            written := written + if n < len - written then n + 1 else len - written;
            k := k + 1;
        }
      }
    }

    /** One turn of the broadcast loop. */
    method WriteToPeer(c: Node, ghost i: nat, sender: Node, buf: string, writes: (nat, nat) -> seq<WriteAnswer>, k: nat)
      requires Valid() && i < |nodes| && c == nodes[i] && sender in nodes
      modifies this`wire, this`list, c`state
      ensures Valid()
      ensures list == old(list)[i := Marked(old(list)[i], sender.ssl, |buf|, writes, k)]
      ensures wire == old(wire) + Sent(old(list)[i], sender.ssl, buf, writes, k)
    {
      assert c != sender <==> c.ssl != sender.ssl;
      if c.state.Established? && c != sender {
        var written, fatal := WriteLoop(|buf|, writes(k, c.ssl));
        wire := wire + [(c.ssl, buf[..written])];
        if fatal {
          c.state := Closed;
          list := list[i := list[i].(state := Closed)];
        }
      }
    }

    method BroadcastMessage(sender: Node, buf: string, writes: (nat, nat) -> seq<WriteAnswer>, k: nat)
      requires Valid() && sender in nodes
      modifies this`wire, this`list, nodes`state
      ensures Valid()
      ensures list == Broadcast(old(list), sender.ssl, |buf|, writes, k)
      ensures wire == old(wire) + Wire(old(list), sender.ssl, buf, writes, k)
    {
      ghost var was := list;
      var c := connections;
      ghost var i := 0;
      while c != null
        invariant 0 <= i <= |nodes| && Valid()
        invariant c == if i < |nodes| then nodes[i] else null
        invariant list == MarkedUpTo(was, i, sender.ssl, |buf|, writes, k)
        invariant wire == old(wire) + SentUpTo(was, i, sender.ssl, buf, writes, k)
        decreases |nodes| - i
      {
        assert list[i] == was[i];
        OneMoreSent(old(wire), was, i, sender.ssl, buf, writes, k);
        WriteToPeer(c, i, sender, buf, writes, k);
        c, i := c.next, i + 1;
      }
    }

    /** The read loop of an established connection: it reads until there is nothing to read,
        broadcasting each message; other connections get marked, the list's links stay. */
    method ReadLoop(c: Node, ghost i: nat, o: Oracle) returns (over: bool)
      requires Valid() && i < |nodes| && c == nodes[i]
      modifies this`wire, this`list, nodes`state
      ensures Valid()
      ensures
        var r := ReadAll(old(list), c.ssl, o, 0);
        list == r.0 && over == r.1 && wire == old(wire) + r.2
    {
      var k := 0;
      ghost var goal := ReadAll(list, c.ssl, o, 0);
      while k < |o.inputs|
        invariant k <= |o.inputs| && Valid()
        invariant
          var r := ReadAll(list, c.ssl, o, k);
          goal.0 == r.0 && goal.1 == r.1 && old(wire) + goal.2 == wire + r.2
        decreases |o.inputs| - k
      {
        match o.inputs[k] {
          case Plain(bytes) =>
            ReadOn(list, c.ssl, o, k, bytes, old(wire), goal.2, wire);
            BroadcastMessage(c, bytes, o.writes, k);
          case WantMore => return false;
          case _ => return true;
        }
        k := k + 1;
      }
      return false;
    }

    method FindConnection(fd: int) returns (prev: Node?, c: Node?, ghost i: int)
      requires Valid()
      ensures i == IndexOf(list, fd)
      ensures if i == -1 then c == null else c == nodes[i] && prev == if i == 0 then null else nodes[i - 1]
    {
      prev, c, i := null, connections, 0;
      while c != null && c.fd != fd
        invariant 0 <= i <= |nodes| && c == if i < |nodes| then nodes[i] else null
        invariant prev == if i == 0 then null else nodes[i - 1]
        invariant forall j :: 0 <= j < i ==> list[j].fd != fd
        decreases |nodes| - i
      {
        prev, c, i := c, c.next, i + 1;
      }
      if c == null {
        i := -1;
      } else {
        assert list[i].fd == fd;
      }
    }

    method Progress(c: Node, ghost i: nat, o: Oracle)
      requires Valid() && i < |nodes| && c == nodes[i]
      modifies this`wire, this`list, nodes`state
      ensures Valid()
      ensures
        var r := Progressed(old(list), i, o);
        list == r.0 && wire == old(wire) + r.1
    {
      if c.state.Handshake? {
        match o.accept {
          case Done => c.state := Established;
          case NotYet =>
          case Refused => c.state := Closed;
        }
        list := list[i := list[i].(state := c.state)];
      } else if c.state.Established? {
        var over := ReadLoop(c, i, o);
        if over {
          c.state := Closed;
          list := list[i := list[i].(state := Closed)];
        }
      }
    }

    /** One event for a client's descriptor. */
    method HandleReady(fd: int, o: Oracle)
      requires Valid()
      modifies this, nodes
      ensures Valid()
      ensures
        var r := HandleEvent(old(list), fd, o);
        && list == r.cs && freed == old(freed) + r.freed && wire == old(wire) + r.wire
        && closed == if r.unknown || r.freed != [] then old(closed) + [fd] else old(closed)
    {
      var prev, c;
      ghost var i;
      prev, c, i := FindConnection(fd);
      if c == null {
        closed := closed + [fd];
      } else {
        HandleKnown(prev, c, i, o);
      }
    }

    method HandleKnown(prev: Node?, c: Node, ghost i: nat, o: Oracle)
      requires Valid() && i < |nodes| && c == nodes[i] && prev == if i == 0 then null else nodes[i - 1]
      modifies this, nodes
      ensures Valid()
      ensures
        var r := Known(old(list), i, o);
        && list == r.cs && freed == old(freed) + r.freed && wire == old(wire) + r.wire
        && closed == old(closed) + (if r.freed != [] then [c.fd] else [])
    {
      Progress(c, i, o);
      CleanUp(prev, c, i);
    }

    /** A connection that is closed by now is removed. */
    method CleanUp(prev: Node?, c: Node, ghost i: nat)
      requires Valid() && i < |nodes| && c == nodes[i] && prev == if i == 0 then null else nodes[i - 1]
      modifies this, prev
      ensures Valid() && wire == old(wire)
      ensures
        var over := old(list)[i].state.Closed?;
        && list == (if over then Without(old(list), i) else old(list))
        && freed == old(freed) + (if over then [c.ssl] else []) && closed == old(closed) + (if over then [c.fd] else [])
    {
      if c.state.Closed? {
        RemoveConnection(prev, c, i);
      }
    }

    /** The loop after the event loop: everything that is left is freed and closed. */
    method Shutdown()
      requires Valid()
      modifies this
      ensures Valid() && list == [] && wire == old(wire)
      ensures freed == old(freed) + Ssls(old(list)) && closed == old(closed) + Fds(old(list))
    {
      ghost var was := list;
      var cur := connections;
      ghost var i := 0;
      while cur != null
        invariant 0 <= i <= |nodes| && Valid() && nodes == old(nodes) && list == was && wire == old(wire)
        invariant cur == if i < |nodes| then nodes[i] else null
        invariant freed == old(freed) + Ssls(was[..i]) && closed == old(closed) + Fds(was[..i])
        decreases |nodes| - i
      {
        assert was[..i + 1] == was[..i] + [was[i]];
        freed := freed + [cur.ssl];
        closed := closed + [cur.fd];
        cur, i := cur.next, i + 1;
      }
      assert was[..|nodes|] == was;
      connections := null;
      nodes, list := [], [];
    }
  }

  function Ssls(cs: seq<Conn>): (r: seq<nat>)
    ensures |r| == |cs| && forall i :: 0 <= i < |cs| ==> r[i] == cs[i].ssl
  {
    seq(|cs|, i requires 0 <= i < |cs| => cs[i].ssl)
  }

  function Fds(cs: seq<Conn>): (r: seq<int>)
    ensures |r| == |cs| && forall i :: 0 <= i < |cs| ==> r[i] == cs[i].fd
  {
    seq(|cs|, i requires 0 <= i < |cs| => cs[i].fd)
  }

  /** No two connections share an SSL object. */
  ghost predicate Apart(cs: seq<Conn>) {
    forall i, j :: 0 <= i < j < |cs| ==> cs[i].ssl != cs[j].ssl
  }

  ghost predicate BelowSsl(cs: seq<Conn>, bound: nat) {
    forall i :: 0 <= i < |cs| ==> cs[i].ssl < bound
  }

  lemma OneMoreSent(start: seq<(nat, string)>, cs: seq<Conn>, n: nat, sender: nat, buf: string,
                    writes: (nat, nat) -> seq<WriteAnswer>, k: nat)
    requires n < |cs|
    ensures start + SentUpTo(cs, n + 1, sender, buf, writes, k)
         == start + SentUpTo(cs, n, sender, buf, writes, k) + Sent(cs[n], sender, buf, writes, k)
  {}

  /** One more read: what is still to go out is the broadcast's share and then the rest. */
  lemma ReadOn(cs: seq<Conn>, me: nat, o: Oracle, k: nat, bytes: string,
               start: seq<(nat, string)>, all: seq<(nat, string)>, sent: seq<(nat, string)>)
    requires k < |o.inputs| && o.inputs[k] == Plain(bytes) && start + all == sent + ReadAll(cs, me, o, k).2
    ensures
      var r, s := ReadAll(cs, me, o, k), ReadAll(Broadcast(cs, me, |bytes|, o.writes, k), me, o, k + 1);
      r.0 == s.0 && r.1 == s.1 && start + all == sent + Wire(cs, me, bytes, o.writes, k) + s.2
  {}
}
