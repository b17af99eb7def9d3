/** Three ways of keeping the set of connected clients: flags indexed by descriptor, a dense
    array with swap-remove, and a linked list. All three are the same set, and each broadcast
    loop writes exactly once to every member except the sender. */
module Registries {
  import opened Prelude

  function ToSet(fds: seq<int>): set<int> { set f | f in fds }

  /** What a broadcast has to do: `sent` names every member except the sender, each once. */
  ghost predicate ExactlyOnce(sent: seq<int>, members: set<int>, sender: int) {
    Distinct(sent) && forall f :: f in sent <==> f in members && f != sender
  }

  /** clients[FD_SETSIZE]: a flag for every possible descriptor. */
  class FlagTable {
    const size: nat
    const listener: int
    const clients: array<bool>

    ghost predicate Valid()
      reads this, clients
    {
      clients.Length == size && (0 <= listener < size ==> !clients[listener])
    }

    ghost function Members(): set<int>
      requires Valid()
      reads this, clients
    {
      set f | 0 <= f < size && clients[f]
    }

    constructor (size: nat, listener: int)
      ensures Valid() && Members() == {} && this.size == size && this.listener == listener
      ensures fresh(clients)
    {
      this.size := size;
      this.listener := listener;
      clients := new bool[size](_ => false);
    }

    method Add(fd: int)
      requires Valid() && 0 <= fd < size && fd != listener
      modifies clients
      ensures Valid() && Members() == old(Members()) + {fd}
    {
      clients[fd] := true;
    }

    method Remove(fd: int)
      requires Valid() && 0 <= fd < size
      modifies clients
      ensures Valid() && Members() == old(Members()) - {fd}
    {
      clients[fd] := false;
    }

    method Broadcast(sender: int) returns (sent: seq<int>)
      requires Valid()
      ensures ExactlyOnce(sent, Members(), sender)
    {
      sent := [];
      for j := 0 to size
        invariant Distinct(sent)
        invariant forall f :: f in sent <==> 0 <= f < j && clients[f] && f != sender
      {
        if clients[j] && j != sender && j != listener {
          sent := sent + [j];
        }
      }
    }
  }

  /** clients[MAX_CLIENTS] and client_count: removal moves the last entry into the hole. */
  class DenseTable {
    const clients: array<int>
    var count: nat

    ghost predicate Valid()
      reads this, clients
    {
      count <= clients.Length && Distinct(clients[..count])
    }

    ghost function Members(): set<int>
      requires Valid()
      reads this, clients
    {
      ToSet(clients[..count])
    }

    constructor (capacity: nat)
      ensures Valid() && Members() == {} && count == 0 && clients.Length == capacity
      ensures fresh(clients)
    {
      clients := new int[capacity];
      count := 0;
    }

    method Add(fd: int)
      requires Valid() && count < clients.Length && fd !in Members()
      modifies this, clients
      ensures Valid() && Members() == old(Members()) + {fd} && count == old(count) + 1
    {
      ghost var was := clients[..count];
      clients[count] := fd;
      count := count + 1;
      assert clients[..count] == was + [fd];
    }

    method Remove(fd: int)
      requires Valid()
      modifies this, clients
      ensures Valid() && Members() == old(Members()) - {fd}
      ensures count == old(count) - if fd in old(Members()) then 1 else 0
    {
      ghost var was := clients[..count];
      for j := 0 to count
        invariant count == |was| && clients[..count] == was
        invariant fd !in was[..j]
      {
        if clients[j] == fd {
          SwapRemoved(was, j);
          clients[j] := clients[count - 1];
          count := count - 1;
          assert clients[..count] == was[j := was[|was| - 1]][..|was| - 1];
          return;
        }
      }
      assert was[..|was|] == was;
    }

    method Broadcast(sender: int) returns (sent: seq<int>)
      requires Valid()
      ensures ExactlyOnce(sent, Members(), sender)
    {
      sent := [];
      for i := 0 to count
        invariant Distinct(sent)
        invariant forall f :: f in sent <==> f in clients[..i] && f != sender
      {
        assert clients[..i + 1] == clients[..i] + [clients[i]];
        assert clients[i] !in clients[..i] by {
          forall k | 0 <= k < i ensures clients[k] != clients[i] {
            assert clients[..count][k] != clients[..count][i];
          }
        }
        if clients[i] != sender {
          sent := sent + [clients[i]];
        }
      }
    }
  }

  /** Overwriting entry j with the last one and dropping the last slot removes exactly entry j. */
  lemma SwapRemoved(xs: seq<int>, j: nat)
    requires Distinct(xs) && j < |xs|
    ensures
      var ys := xs[j := xs[|xs| - 1]][..|xs| - 1];
      Distinct(ys) && ToSet(ys) == ToSet(xs) - {xs[j]}
  {
    var n := |xs| - 1;
    var ys := xs[j := xs[n]][..n];
    forall f ensures f in ys <==> f in xs && f != xs[j] {
      if f in ys {
        var k :| 0 <= k < n && ys[k] == f;
        assert f == xs[if k == j then n else k];
      }
      if f in xs && f != xs[j] {
        var k :| 0 <= k < |xs| && xs[k] == f;
        assert ys[if k == n then j else k] == f;
      }
    }
  }

  class Node {
    const fd: int
    var next: Node?

    constructor (fd: int)
      ensures this.fd == fd
    {
      this.fd := fd;
    }
  }

  function Fds(nodes: seq<Node>): (r: seq<int>)
    ensures |r| == |nodes| && forall i :: 0 <= i < |nodes| ==> r[i] == nodes[i].fd
  {
    seq(|nodes|, i requires 0 <= i < |nodes| => nodes[i].fd)
  }

  /** The list of client_t nodes hanging off `clients`, new clients in front. */
  class ClientList {
    var clients: Node?
    ghost var nodes: seq<Node>

    ghost predicate Valid()
      reads this, nodes
    {
      && Distinct(nodes) && Distinct(Fds(nodes))
      && clients == (if nodes == [] then null else nodes[0])
      && (forall i {:trigger nodes[i].next} :: 0 <= i < |nodes| ==>
            nodes[i].next == if i == |nodes| - 1 then null else nodes[i + 1])
    }

    ghost function Nodes(): set<Node>
      reads this
    {
      set c | c in nodes
    }

    ghost function Contents(): seq<int>
      reads this
    {
      Fds(nodes)
    }

    ghost function Members(): set<int>
      reads this
    {
      ToSet(Contents())
    }

    constructor ()
      ensures Valid() && Contents() == [] && Nodes() == {}
    {
      clients := null;
      nodes := [];
    }

    method Add(fd: int)
      requires Valid() && fd !in Members()
      modifies this
      ensures Valid() && Contents() == [fd] + old(Contents())
      ensures Members() == old(Members()) + {fd}
      ensures fresh(Nodes() - old(Nodes()))
    {
      var c := new Node(fd);
      c.next := clients;
      clients := c;
      nodes := [c] + nodes;
      assert Contents() == [fd] + old(Contents());
    }

    /** `*pp = tofree->next`, where `prev` owns the link `pp` points to. */
    method Unlink(prev: Node?, cur: Node, ghost i: nat)
      requires Valid() && i < |nodes| && cur == nodes[i] && prev == if i == 0 then null else nodes[i - 1]
      requires Distinct(Fds(nodes)[..i] + Fds(nodes)[i + 1..])
      modifies this, prev
      ensures Nodes() <= old(Nodes())
      ensures Valid() && Contents() == old(Contents()[..i] + Contents()[i + 1..])
    {
      if prev == null {
        clients := cur.next;
      } else {
        prev.next := cur.next;
      }
      nodes := nodes[..i] + nodes[i + 1..];
      assert Contents() == old(Contents()[..i] + Contents()[i + 1..]);
    }

    /** remove_client walks a pointer to the link it may have to change; `prev` is the node that
        link belongs to, null for the head of the list. */
    method Remove(fd: int)
      requires Valid()
      modifies this, Nodes()
      ensures Valid() && Contents() == RemoveFirst(old(Contents()), fd)
      ensures Members() == old(Members()) - {fd}
      ensures Nodes() <= old(Nodes())
    {
      RemoveFirstDistinct(Contents(), fd);
      var prev: Node?, cur := null, clients;
      ghost var i := 0;
      while cur != null
        invariant 0 <= i <= |nodes|
        invariant cur == if i < |nodes| then nodes[i] else null
        invariant prev == if i == 0 then null else nodes[i - 1]
        invariant fd !in Contents()[..i]
        modifies {}
        decreases |nodes| - i
      {
        if cur.fd == fd {
          break;
        }
        prev, cur, i := cur, cur.next, i + 1;
      }
      if cur != null {
        RemoveFirstAt(Contents(), i, fd);
        Unlink(prev, cur, i);
      } else {
        assert Contents()[..|nodes|] == Contents();
      }
    }

    method Broadcast(sender: int) returns (sent: seq<int>)
      requires Valid()
      ensures ExactlyOnce(sent, Members(), sender)
    {
      sent := [];
      var c := clients;
      ghost var i := 0;
      while c != null
        invariant 0 <= i <= |nodes| && c == if i < |nodes| then nodes[i] else null
        invariant Distinct(sent)
        invariant forall f :: f in sent <==> f in Contents()[..i] && f != sender
        decreases |nodes| - i
      {
        assert Contents()[..i + 1] == Contents()[..i] + [c.fd];
        assert c.fd !in Contents()[..i];
        if c.fd != sender {
          sent := sent + [c.fd];
        }
        c, i := c.next, i + 1;
      }
      assert Contents()[..|nodes|] == Contents();
    }
  }

  lemma {:induction false} RemoveFirstAt(xs: seq<int>, i: nat, x: int)
    requires i < |xs| && xs[i] == x && x !in xs[..i]
    ensures RemoveFirst(xs, x) == xs[..i] + xs[i + 1..]
  {
    if i > 0 {
      assert xs[0] == xs[..i][0];
      assert xs[1..][..i - 1] == xs[..i][1..];
      RemoveFirstAt(xs[1..], i - 1, x);
      assert xs[..i] + xs[i + 1..] == [xs[0]] + (xs[1..][..i - 1] + xs[1..][i..]);
    }
  }

  datatype Op = Connect(fd: int) | Disconnect(fd: int) | Say(fd: int)

  /** The abstract registry: a set of descriptors. */
  function After(members: set<int>, op: Op): set<int> {
    match op
    case Connect(fd) => members + {fd}
    case Disconnect(fd) => members - {fd}
    case Say(_) => members
  }

  function Replay(ops: seq<Op>): set<int> {
    if ops == [] then {} else After(Replay(ops[..|ops| - 1]), ops[|ops| - 1])
  }

  /** A history the kernel can produce: a new connection gets a number that is not in use. */
  ghost predicate Possible(ops: seq<Op>, size: nat, listener: int) {
    forall k :: 0 <= k < |ops| ==>
      0 <= ops[k].fd < size && ops[k].fd != listener && (ops[k].Connect? ==> ops[k].fd !in Replay(ops[..k]))
  }

  /** Nobody connects while the array is full. */
  ghost predicate Fits(ops: seq<Op>, capacity: nat) {
    forall k :: 0 <= k < |ops| && ops[k].Connect? ==> |Replay(ops[..k])| < capacity
  }

  lemma {:induction false} DenseSize(fds: seq<int>)
    requires Distinct(fds)
    ensures |ToSet(fds)| == |fds|
  {
    if fds != [] {
      var front, last := fds[..|fds| - 1], fds[|fds| - 1];
      DenseSize(front);
      assert ToSet(fds) == ToSet(front) + {last};
      assert last !in front;
    }
  }

  /** Two broadcasts that both reach everybody else exactly once differ in order only. */
  lemma SameRecipients(a: seq<int>, b: seq<int>, members: set<int>, sender: int)
    requires ExactlyOnce(a, members, sender) && ExactlyOnce(b, members, sender)
    ensures multiset(a) == multiset(b)
  {
    forall f ensures multiset(a)[f] == multiset(b)[f] {
      CountDistinct(a, f);
      CountDistinct(b, f);
    }
  }

  lemma {:induction false} CountDistinct(xs: seq<int>, x: int)
    requires Distinct(xs)
    ensures multiset(xs)[x] == if x in xs then 1 else 0
  {
    if xs != [] {
      CountDistinct(xs[1..], x);
      assert xs == [xs[0]] + xs[1..];
      assert xs[0] !in xs[1..];
    }
  }

  /** Each of the first n messages of a history went to everybody who was a member at that
      moment, the sender excepted, once each. */
  ghost predicate SaidTo(ops: seq<Op>, sent: seq<seq<int>>, n: nat) {
    |sent| == n <= |ops| &&
    forall k :: 0 <= k < n && ops[k].Say? ==> ExactlyOnce(sent[k], Replay(ops[..k]), ops[k].fd)
  }

  lemma SaidMore(ops: seq<Op>, sent: seq<seq<int>>, n: nat, to: seq<int>)
    requires SaidTo(ops, sent, n) && n < |ops| && (ops[n].Say? ==> ExactlyOnce(to, Replay(ops[..n]), ops[n].fd))
    ensures SaidTo(ops, sent + [to], n + 1)
  {}

  /** So two registries that both do so send each message to the same peers. */
  lemma SameRecipientsThroughout(ops: seq<Op>, a: seq<seq<int>>, b: seq<seq<int>>, k: nat)
    requires SaidTo(ops, a, |ops|) && SaidTo(ops, b, |ops|) && k < |ops| && ops[k].Say?
    ensures multiset(a[k]) == multiset(b[k])
  {
    SameRecipients(a[k], b[k], Replay(ops[..k]), ops[k].fd);
  }

  /** Over any possible history, reused numbers included, each registry ends up with the
      abstract set as its members; so all three agree. */
  method RunFlags(ops: seq<Op>, size: nat, listener: int) returns (flags: FlagTable, sent: seq<seq<int>>)
    requires Possible(ops, size, listener)
    ensures flags.Valid() && flags.Members() == Replay(ops) && SaidTo(ops, sent, |ops|)
  {
    sent := [];
    flags := new FlagTable(size, listener);
    for k := 0 to |ops|
      invariant fresh(flags.clients) && flags.Valid() && flags.size == size && flags.listener == listener
      invariant flags.Members() == Replay(ops[..k]) && SaidTo(ops, sent, k)
    {
      assert ops[..k + 1][..k] == ops[..k];
      var to: seq<int> := [];
      match ops[k] {
        case Connect(fd) => flags.Add(fd);
        case Disconnect(fd) => flags.Remove(fd);
        case Say(fd) => to := flags.Broadcast(fd);
      }
      SaidMore(ops, sent, k, to);
      sent := sent + [to];
    }
    assert ops[..|ops|] == ops;
  }

  method RunDense(ops: seq<Op>, size: nat, capacity: nat, listener: int)
      returns (dense: DenseTable, sent: seq<seq<int>>)
    requires Possible(ops, size, listener) && Fits(ops, capacity)
    ensures dense.Valid() && dense.Members() == Replay(ops) && SaidTo(ops, sent, |ops|)
  {
    sent := [];
    dense := new DenseTable(capacity);
    for k := 0 to |ops|
      invariant fresh(dense) && fresh(dense.clients) && dense.Valid() && dense.clients.Length == capacity
      invariant dense.Members() == Replay(ops[..k]) && SaidTo(ops, sent, k)
    {
      assert ops[..k + 1][..k] == ops[..k];
      var to: seq<int> := [];
      match ops[k] {
        case Connect(fd) =>
          DenseSize(dense.clients[..dense.count]);
          dense.Add(fd);
        case Disconnect(fd) => dense.Remove(fd);
        case Say(fd) => to := dense.Broadcast(fd);
      }
      SaidMore(ops, sent, k, to);
      sent := sent + [to];
    }
    assert ops[..|ops|] == ops;
  }

  method RunList(ops: seq<Op>, size: nat, listener: int) returns (list: ClientList, sent: seq<seq<int>>)
    requires Possible(ops, size, listener)
    ensures list.Valid() && list.Members() == Replay(ops) && SaidTo(ops, sent, |ops|)
  {
    sent := [];
    list := new ClientList();
    for k := 0 to |ops|
      invariant fresh(list) && list.Valid() && fresh(list.Nodes())
      invariant list.Members() == Replay(ops[..k]) && SaidTo(ops, sent, k)
    {
      assert ops[..k + 1][..k] == ops[..k];
      var to: seq<int> := [];
      match ops[k] {
        case Connect(fd) =>
          list.Add(fd);
        case Disconnect(fd) => list.Remove(fd);
        case Say(fd) => to := list.Broadcast(fd);
      }
      SaidMore(ops, sent, k, to);
      sent := sent + [to];
    }
    assert ops[..|ops|] == ops;
  }
}
