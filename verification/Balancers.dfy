/** The two TCP load balancers: one finds a socket's peer by scanning an append-only table for
    the last match, the other by indexing a table with the descriptor. */
module Balancers {
  import opened Prelude

  datatype Pair = Pair(client: int, backend: int)

  /* ---- Finding the peer ---- */

  /** The scan over the first n pairs: the last pair that names `fd` decides. */
  function Scan(pairs: seq<Pair>, n: nat, fd: int): int
    requires n <= |pairs|
  {
    if n == 0 then -1
    else if pairs[n - 1].client == fd then pairs[n - 1].backend
    else if pairs[n - 1].backend == fd then pairs[n - 1].client
    else Scan(pairs, n - 1, fd)
  }

  function Peer(table: seq<Pair>, fd: nat): int
    requires fd < |table|
  {
    if table[fd].client == fd then table[fd].backend else table[fd].client
  }

  ghost predicate Fits(p: Pair, size: nat) {
    0 <= p.client < size && 0 <= p.backend < size && p.client != p.backend
  }

  function Record(table: seq<Pair>, p: Pair): (r: seq<Pair>)
    requires Fits(p, |table|)
    ensures |r| == |table|
  {
    table[p.client := p][p.backend := p]
  }

  /** The fd-indexed table after the first n pairs were connected. */
  function Replay(size: nat, pairs: seq<Pair>, n: nat): (r: seq<Pair>)
    requires n <= |pairs| && forall p <- pairs :: Fits(p, size)
    ensures |r| == size
  {
    if n == 0 then seq(size, _ => Pair(0, 0)) else Record(Replay(size, pairs, n - 1), pairs[n - 1])
  }

  predicate Names(p: Pair, fd: int) {
    p.client == fd || p.backend == fd
  }

  /** Whatever pairs were connected in whatever order and with whatever numbers reused, the
      linear scan and the direct index find the same peer for every descriptor that ever had
      one, and the scan finds none for the others. */
  lemma {:induction false} ScanIsIndex(size: nat, pairs: seq<Pair>, n: nat, fd: nat)
    requires n <= |pairs| && (forall p <- pairs :: Fits(p, size)) && fd < size
    ensures (exists k :: 0 <= k < n && Names(pairs[k], fd)) ==>
      Scan(pairs, n, fd) == Peer(Replay(size, pairs, n), fd) >= 0
    ensures (forall k :: 0 <= k < n ==> !Names(pairs[k], fd)) ==> Scan(pairs, n, fd) == -1
  {
    if n > 0 {
      assert Fits(pairs[n - 1], size);
      ScanIsIndex(size, pairs, n - 1, fd);
    }
  }

  /* ---- Round robin ---- */

  function CountOf(xs: seq<nat>, b: nat): nat {
    if xs == [] then 0 else CountOf(xs[..|xs| - 1], b) + if xs[|xs| - 1] == b then 1 else 0
  }

  /** The choices a cursor makes that starts at 0 and is advanced modulo n after each. */
  ghost predicate RoundRobin(choices: seq<nat>, n: nat)
    requires n > 0
  {
    forall i :: 0 <= i < |choices| ==> choices[i] == i % n
  }

  /** Multiples of n other than 0 are at least n away from it. */
  lemma SmallMultiple(d: int, n: int)
    requires n > 0
    ensures d >= 1 ==> d * n >= n
    ensures d <= -1 ==> d * n <= -n
  {
    if d >= 1 {
      assert (d - 1) * n >= 0;
    } else if d <= -1 {
      assert (-1 - d) * n >= 0;
    }
  }

  lemma DivMod(a: int, n: int, q: int, r: int)
    requires n > 0 && a == q * n + r && 0 <= r < n
    ensures a / n == q && a % n == r
  {
    assert a == (a / n) * n + a % n;
    Distribute(a / n, q, n);
    SmallMultiple(a / n - q, n);
  }

  lemma Distribute(x: int, y: int, n: int)
    ensures (x - y) * n == x * n - y * n
  {}

  /** (k + n - 1 - b) / n counts the full turns, and one more if b's turn has come in this one. */
  lemma Turns(k: nat, n: nat, b: nat)
    requires b < n
    ensures (k + n - 1 - b) / n == k / n + if k % n > b then 1 else 0
  {
    if k % n > b {
      DivMod(k + n - 1 - b, n, k / n + 1, k % n - 1 - b);
    } else {
      DivMod(k + n - 1 - b, n, k / n, k % n + n - 1 - b);
    }
  }

  lemma NextTurn(k: nat, n: nat)
    requires n > 0
    ensures (k + 1) % n == (k % n + 1) % n
    ensures k % n + 1 < n ==> (k + 1) / n == k / n && (k + 1) % n == k % n + 1
    ensures k % n + 1 == n ==> (k + 1) / n == k / n + 1 && (k + 1) % n == 0
  {
    if k % n + 1 < n {
      DivMod(k + 1, n, k / n, k % n + 1);
      DivMod(k % n + 1, n, 0, k % n + 1);
    } else {
      DivMod(k + 1, n, k / n + 1, 0);
      DivMod(k % n + 1, n, 1, 0);
    }
  }

  /** After k choices backend b was chosen exactly (k + n - 1 - b) / n times. */
  lemma {:induction false} RoundRobinExact(choices: seq<nat>, n: nat, b: nat)
    requires b < n && RoundRobin(choices, n)
    ensures CountOf(choices, b) == (|choices| + n - 1 - b) / n
  {
    Turns(|choices|, n, b);
    if choices == [] {
      DivMod(0, n, 0, 0);
    } else {
      var k := |choices| - 1;
      RoundRobinExact(choices[..k], n, b);
      Turns(k, n, b);
      NextTurn(k, n);
    }
  }

  /** No two backends' shares differ by more than one. */
  lemma RoundRobinFair(choices: seq<nat>, n: nat, b: nat, c: nat)
    requires b <= c < n && RoundRobin(choices, n)
    ensures CountOf(choices, c) <= CountOf(choices, b) <= CountOf(choices, c) + 1
  {
    RoundRobinExact(choices, n, b);
    RoundRobinExact(choices, n, c);
    Turns(|choices|, n, b);
    Turns(|choices|, n, c);
  }

  /** Among the n choices from `start` on, i is the one that chooses b. */
  ghost predicate OnlyTurn(choices: seq<nat>, start: nat, n: nat, b: nat, i: nat)
    requires start + n <= |choices|
  {
    start <= i < start + n && forall j :: start <= j < start + n ==> (choices[j] == b <==> j == i)
  }

  /** Any n consecutive choices choose every backend, each once. */
  lemma RoundRobinCovers(choices: seq<nat>, n: nat, start: nat, b: nat)
    requires b < n && start + n <= |choices| && RoundRobin(choices, n)
    ensures exists i :: OnlyTurn(choices, start, n, b, i)
  {
    var i := start - start % n + b + if b < start % n then n else 0;
    var turn := start / n + if b < start % n then 1 else 0;
    Distribute(turn, start / n, n);
    DivMod(i, n, turn, b);
    assert choices[i] == b;
    forall j | start <= j < start + n && choices[j] == b ensures j == i {
      SameTurn(i, j, n);
    }
    assert OnlyTurn(choices, start, n, b, i);
  }

  lemma SameTurn(i: nat, j: nat, n: nat)
    requires n > 0 && i % n == j % n && i < j + n && j < i + n
    ensures i == j
  {
    Distribute(i / n, j / n, n);
    SmallMultiple(i / n - j / n, n);
  }

  /* ---- The balancer with the scanned table ---- */

  class ScanningBalancer {
    const backends: nat
    const connTable: array<Pair>
    var connCount: nat
    var current: nat
    var wire: seq<(int, string)>
    /** The backends chosen, one per tracked connection. */
    ghost var chosen: seq<nat>

    ghost predicate Valid()
      reads this
    {
      && backends > 0 && connCount <= connTable.Length
      && |chosen| == connCount && current == connCount % backends && RoundRobin(chosen, backends)
    }

    ghost function Pairs(): (r: seq<Pair>)
      requires Valid()
      reads this, connTable
    {
      connTable[..connCount]
    }

    constructor (backends: nat, capacity: nat)
      requires backends > 0
      ensures Valid() && fresh(connTable) && connTable.Length == capacity && this.backends == backends
      ensures Pairs() == [] && wire == []
    {
      this.backends := backends;
      connTable := new Pair[capacity](_ => Pair(0, 0));
      connCount, current, wire := 0, 0, [];
      chosen := [];
    }

    /** A client is accepted; `backend` is what connecting to the current backend gave. The
        cursor moves only when that succeeded. */
    method Accept(client: int, backend: Option<int>) returns (refused: bool)
      requires Valid() && connCount < connTable.Length
      modifies this`connCount, this`current, this`chosen, connTable
      ensures Valid() && refused == backend.None?
      ensures refused ==> Pairs() == old(Pairs()) && current == old(current) && chosen == old(chosen)
      ensures !refused ==>
        && Pairs() == old(Pairs()) + [Pair(client, backend.value)]
        && chosen == old(chosen) + [old(current)]
    {
      if backend.None? {
        return true;
      }
      NextTurn(connCount, backends);
      connTable[connCount] := Pair(client, backend.value);
      connCount := connCount + 1;
      chosen := chosen + [current];
      current := (current + 1) % backends;
      return false;
    }

    method FindPeer(fd: int) returns (paired: int)
      requires Valid()
      ensures paired == Scan(Pairs(), connCount, fd)
    {
      paired := -1;
      var j := 0;
      while j < connCount
        invariant 0 <= j <= connCount && paired == Scan(Pairs(), j, fd)
      {
        if connTable[j].client == fd {
          paired := connTable[j].backend;
        } else if connTable[j].backend == fd {
          paired := connTable[j].client;
        }
        j := j + 1;
      }
    }

    /** `data` is what one read gives: nothing at the end of the stream or on an error. */
    method Event(fd: int, data: string)
      requires Valid()
      modifies this`wire
      ensures Valid()
      ensures
        var peer := Scan(Pairs(), connCount, fd);
        wire == old(wire) + if peer >= 0 && data != "" then [(peer, data)] else []
    {
      var paired := FindPeer(fd);
      if paired >= 0 && data != "" {
        wire := wire + [(paired, data)];
      }
    }
  }

  /* ---- The balancer with the indexed table ---- */

  class IndexedBalancer {
    const backends: nat
    const connections: array<Pair>
    var next: nat
    var open: set<int>
    var wire: seq<(int, string)>
    /** The backends tried, one per accepted client. */
    ghost var tried: seq<nat>

    ghost predicate Valid()
      reads this
    {
      && backends > 0
      && next == |tried| % backends && RoundRobin(tried, backends)
    }

    constructor (backends: nat, size: nat)
      requires backends > 0
      ensures Valid() && fresh(connections) && this.backends == backends && open == {} && wire == []
      ensures connections[..] == Replay(size, [], 0)
    {
      this.backends := backends;
      connections := new Pair[size](_ => Pair(0, 0));
      next, open, wire := 0, {}, [];
      tried := [];
    }

    /** The cursor moves whether or not connecting succeeds; the table changes only if it does. */
    method Accept(client: int, backend: Option<int>) returns (refused: bool)
      requires Valid() && (backend.Some? ==> Fits(Pair(client, backend.value), connections.Length))
      requires client !in open
      modifies this`next, this`open, this`tried, connections
      ensures Valid() && tried == old(tried) + [old(next)] && refused == backend.None?
      ensures refused ==> connections[..] == old(connections[..]) && open == old(open)
      ensures !refused ==>
        && connections[..] == Record(old(connections[..]), Pair(client, backend.value))
        && open == old(open) + {client, backend.value}
    {
      open := open + {client};
      NextTurn(|tried|, backends);
      tried := tried + [next];
      next := (next + 1) % backends;
      if backend.None? {
        open := open - {client};
        return true;
      }
      open := open + {backend.value};
      connections[client] := Pair(client, backend.value);
      connections[backend.value] := Pair(client, backend.value);
      return false;
    }

    /** A read that gives nothing closes the descriptor and its peer; the entries stay. */
    method Event(fd: nat, data: string)
      requires Valid() && fd < connections.Length
      modifies this`open, this`wire
      ensures Valid()
      ensures
        var peer := Peer(connections[..], fd);
        if data == "" then open == old(open) - {fd, peer} && wire == old(wire)
        else open == old(open) && wire == old(wire) + [(peer, data)]
    {
      var peer := if connections[fd].client == fd then connections[fd].backend else connections[fd].client;
      if data == "" {
        open := open - {fd};
        open := open - {peer};
      } else {
        wire := wire + [(peer, data)];
      }
    }
  }
}
