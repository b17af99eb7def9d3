/** Runs of the room server, descriptors reused at will, against a multicast specification that
    knows neither descriptors nor arrays: only sessions, and what each of them did. */
module RoomRuns {
  import opened Rooms

  /* ---- The specification ---- */

  /** What session x did. `Moved` with the empty room is leaving. */
  datatype Happening =
    | Opened(x: nat) | Named(x: nat, name: string) | Moved(x: nat, room: string)
    | Said(x: nat, text: string) | Closed(x: nat) | Asked(x: nat)

  function RoomOf(h: seq<Happening>, x: nat): string {
    if h == [] then ""
    else
      var e := h[|h| - 1];
      if e.Moved? && e.x == x then e.room else RoomOf(h[..|h| - 1], x)
  }

  function NameOf(h: seq<Happening>, x: nat): string {
    if h == [] then ""
    else
      var e := h[|h| - 1];
      if e.Named? && e.x == x then e.name else NameOf(h[..|h| - 1], x)
  }

  predicate Present(h: seq<Happening>, x: nat) {
    h != [] &&
    var e := h[|h| - 1];
    if e.x == x && e.Opened? then true
    else if e.x == x && e.Closed? then false
    else Present(h[..|h| - 1], x)
  }

  /** Session x hears the latest happening: somebody else spoke, and both are in one room. */
  predicate Hears(h: seq<Happening>, e: Happening, x: nat) {
    e.Said? && e.x != x && Present(h, x) && RoomOf(h, e.x) != "" && RoomOf(h, x) == RoomOf(h, e.x)
  }

  /** The chat lines session x must have received, in order. */
  function Expected(h: seq<Happening>, x: nat): seq<string> {
    if h == [] then []
    else
      var past, e := h[..|h| - 1], h[|h| - 1];
      Expected(past, x) +
      if Hears(past, e, x) then [ChatText(NameOf(past, e.x), RoomOf(past, e.x), e.text)] else []
  }

  /** What a received message amounts to. */
  function Meaning(x: nat, data: string): Happening {
    var text := UpTo(data, '\0');
    if text == "" || text[0] != '/' then Said(x, text)
    else if "/nick " <= text then Named(x, Clip(UpTo(text[6..], '\n'), NAME_LEN))
    else if "/join " <= text then Moved(x, Clip(UpTo(text[6..], '\n'), ROOM_LEN))
    else if "/leave" <= text then Moved(x, "")
    else if "/list" <= text then Asked(x)
    else if "/quit" <= text then Closed(x)
    else Asked(x)
  }

  /* ---- Runs of the server ---- */

  /** `conn` is the kernel's: the open descriptors and the session behind each. `inbox` is what
      each session was sent, `h` what happened; the server reads neither. */
  datatype State = State(cs: seq<Client>, conn: map<int, nat>, inbox: seq<seq<Line>>, h: seq<Happening>)

  const EMPTY: State := State([], map[], [], [])

  datatype Event = Connect(fd: int) | Data(fd: int, data: string) | HangUp(fd: int)

  /** A connection gets any number that is not open; data and hang-ups come from open ones. */
  predicate Enabled(s: State, e: Event) {
    match e
    case Connect(fd) => fd >= 0 && fd !in s.conn
    case Data(fd, data) => fd in s.conn && 0 < |data| < BUF_SIZE
    case HangUp(fd) => fd in s.conn
  }

  function Deliver(inbox: seq<seq<Line>>, conn: map<int, nat>, sends: seq<Send>): seq<seq<Line>> {
    if sends == [] then inbox
    else
      var before := Deliver(inbox, conn, sends[..|sends| - 1]);
      var s := sends[|sends| - 1];
      if s.fd in conn && conn[s.fd] < |before| then before[conn[s.fd] := before[conn[s.fd]] + [s.line]] else before
  }

  function After(s: State, e: Event): State
    requires Enabled(s, e)
  {
    match e
    case Connect(fd) =>
      var x := |s.inbox|;
      var conn := s.conn[fd := x];
      var o := Arrived(s.cs, fd);
      State(o.cs, conn, Deliver(s.inbox + [[]], conn, o.sends), s.h + [Opened(x)])
    case Data(fd, data) =>
      var o := Received(s.cs, fd, data);
      var conn := if o.closes then s.conn - {fd} else s.conn;
      State(o.cs, conn, Deliver(s.inbox, s.conn, o.sends), s.h + [Meaning(s.conn[fd], data)])
    case HangUp(fd) =>
      var o := HungUp(s.cs, fd);
      var conn := if o.closes then s.conn - {fd} else s.conn;
      State(o.cs, conn, Deliver(s.inbox, s.conn, o.sends), s.h + [Closed(s.conn[fd])])
  }

  predicate Possible(s: State, events: seq<Event>)
    decreases |events|
  {
    events == [] || (Enabled(s, events[0]) && Possible(After(s, events[0]), events[1..]))
  }

  function Run(s: State, events: seq<Event>): State
    requires Possible(s, events)
    decreases |events|
  {
    if events == [] then s else Run(After(s, events[0]), events[1..])
  }

  function Chats(lines: seq<Line>): seq<string> {
    if lines == [] then []
    else
      var l := lines[|lines| - 1];
      Chats(lines[..|lines| - 1]) + if l.Chat? then [l.text] else []
  }

  /* ---- The array as a map ---- */

  ghost predicate OnePerFd(cs: seq<Client>) {
    forall i, j :: 0 <= i < j < |cs| ==> cs[i].fd != cs[j].fd
  }

  ghost predicate IsClient(cs: seq<Client>, c: Client) { exists i :: 0 <= i < |cs| && cs[i] == c }

  ghost predicate HasFd(cs: seq<Client>, fd: int) { exists i :: 0 <= i < |cs| && cs[i].fd == fd }

  /** Replacing entry i by one on the same descriptor. */
  lemma UpdateClient(cs: seq<Client>, i: nat, c: Client)
    requires OnePerFd(cs) && i < |cs| && c.fd == cs[i].fd
    ensures OnePerFd(cs[i := c])
    ensures forall fd :: HasFd(cs[i := c], fd) <==> HasFd(cs, fd)
    ensures forall d :: IsClient(cs[i := c], d) <==> d == c || (IsClient(cs, d) && d.fd != c.fd)
  {
    var ds := cs[i := c];
    forall fd ensures HasFd(ds, fd) <==> HasFd(cs, fd) {
      if HasFd(ds, fd) {
        var k :| 0 <= k < |ds| && ds[k].fd == fd;
        assert cs[k].fd == fd;
      }
      if HasFd(cs, fd) {
        var k :| 0 <= k < |cs| && cs[k].fd == fd;
        assert ds[k].fd == fd;
      }
    }
    forall d ensures IsClient(ds, d) <==> d == c || (IsClient(cs, d) && d.fd != c.fd) {
      if d == c {
        assert ds[i] == d;
      }
      if IsClient(ds, d) && d != c {
        var k :| 0 <= k < |ds| && ds[k] == d;
        assert cs[k] == d;
      }
      if IsClient(cs, d) && d.fd != c.fd {
        var k :| 0 <= k < |cs| && cs[k] == d;
        assert ds[k] == d;
      }
    }
  }

  /** Swap-remove takes out exactly the client on that descriptor. */
  lemma RemoveOne(cs: seq<Client>, fd: int)
    requires OnePerFd(cs)
    ensures OnePerFd(SwapRemove(cs, fd))
    ensures forall f :: HasFd(SwapRemove(cs, fd), f) <==> HasFd(cs, f) && f != fd
    ensures forall d :: IsClient(SwapRemove(cs, fd), d) <==> IsClient(cs, d) && d.fd != fd
    ensures Find(cs, fd) != -1 <==> HasFd(cs, fd)
  {
    var i, n, ds := Find(cs, fd), |cs| - 1, SwapRemove(cs, fd);
    forall d ensures IsClient(ds, d) <==> IsClient(cs, d) && d.fd != fd {
      if IsClient(ds, d) {
        var k :| 0 <= k < |ds| && ds[k] == d;
        assert cs[if k == i then n else k] == d;
      }
      if IsClient(cs, d) && d.fd != fd {
        var k :| 0 <= k < |cs| && cs[k] == d;
        assert ds[if k == n && i != -1 then i else k] == d;
      }
    }
    forall f ensures HasFd(ds, f) <==> HasFd(cs, f) && f != fd {
      if HasFd(ds, f) {
        var k :| 0 <= k < |ds| && ds[k].fd == f;
        assert IsClient(ds, ds[k]);
        var l :| 0 <= l < |cs| && cs[l] == ds[k];
      }
      if HasFd(cs, f) && f != fd {
        var k :| 0 <= k < |cs| && cs[k].fd == f;
        assert IsClient(cs, cs[k]);
        var l :| 0 <= l < |ds| && ds[l] == cs[k];
      }
    }
  }

  /* ---- Deliveries, session by session ---- */

  function LinesFor(sends: seq<Send>, conn: map<int, nat>, x: nat): seq<Line> {
    if sends == [] then []
    else
      var s := sends[|sends| - 1];
      LinesFor(sends[..|sends| - 1], conn, x) + if s.fd in conn && conn[s.fd] == x then [s.line] else []
  }

  lemma {:induction false} DeliverTo(inbox: seq<seq<Line>>, conn: map<int, nat>, sends: seq<Send>, x: nat)
    requires x < |inbox|
    ensures |Deliver(inbox, conn, sends)| == |inbox|
    ensures Deliver(inbox, conn, sends)[x] == inbox[x] + LinesFor(sends, conn, x)
  {
    if sends != [] {
      DeliverTo(inbox, conn, sends[..|sends| - 1], x);
    }
  }

  lemma {:induction false} ChatsAppend(a: seq<Line>, b: seq<Line>)
    ensures Chats(a + b) == Chats(a) + Chats(b)
  {
    if b == [] {
      assert a + b == a;
    } else {
      assert (a + b)[..|a + b| - 1] == a + b[..|b| - 1];
      ChatsAppend(a, b[..|b| - 1]);
    }
  }

  lemma {:induction false} NoticesAreNoChat(sends: seq<Send>, conn: map<int, nat>, x: nat)
    requires forall k :: 0 <= k < |sends| ==> sends[k].line.Notice?
    ensures Chats(LinesFor(sends, conn, x)) == []
  {
    if sends != [] {
      NoticesAreNoChat(sends[..|sends| - 1], conn, x);
      var front, s := LinesFor(sends[..|sends| - 1], conn, x), sends[|sends| - 1];
      assert (front + [s.line])[..|front|] == front;
      assert front + [] == front;
    }
  }

  lemma {:induction false} ToRoomNotices(cs: seq<Client>, room: string, text: string, exclude: int)
    ensures forall k :: 0 <= k < |ToRoom(cs, room, Notice(text), exclude)| ==>
      ToRoom(cs, room, Notice(text), exclude)[k].line.Notice?
  {
    if cs != [] {
      ToRoomNotices(cs[..|cs| - 1], room, text, exclude);
    }
  }

  /** The session behind x's descriptor is a member of `room` other than the excluded one. */
  ghost predicate InRoom(cs: seq<Client>, conn: map<int, nat>, room: string, exclude: int, x: nat) {
    exists i :: 0 <= i < |cs| && Member(cs[i], conn, room, exclude, x)
  }

  predicate Member(c: Client, conn: map<int, nat>, room: string, exclude: int, x: nat) {
    c.fd in conn && conn[c.fd] == x && c.room == room && c.fd != exclude
  }

  lemma InRoomLast(cs: seq<Client>, conn: map<int, nat>, room: string, exclude: int, x: nat)
    requires cs != []
    ensures InRoom(cs, conn, room, exclude, x)
      <==> InRoom(cs[..|cs| - 1], conn, room, exclude, x) || Member(cs[|cs| - 1], conn, room, exclude, x)
  {
    var front := cs[..|cs| - 1];
    if InRoom(cs, conn, room, exclude, x) {
      var i :| 0 <= i < |cs| && Member(cs[i], conn, room, exclude, x);
      assert i < |front| ==> front[i] == cs[i];
    }
    if InRoom(front, conn, room, exclude, x) {
      var i :| 0 <= i < |front| && Member(front[i], conn, room, exclude, x);
      assert cs[i] == front[i];
    }
  }

  lemma OneMember(cs: seq<Client>, conn: map<int, nat>, room: string, exclude: int, x: nat)
    requires OnePerFd(cs) && cs != [] && Member(cs[|cs| - 1], conn, room, exclude, x)
    requires forall f, g :: f in conn && g in conn && conn[f] == conn[g] ==> f == g
    ensures !InRoom(cs[..|cs| - 1], conn, room, exclude, x)
  {
    forall i | 0 <= i < |cs| - 1 ensures !Member(cs[i], conn, room, exclude, x) {
      assert cs[i].fd != cs[|cs| - 1].fd;
    }
  }

  lemma LinesForMore(sends: seq<Send>, s: Send, conn: map<int, nat>, x: nat)
    ensures LinesFor(sends + [s], conn, x)
         == LinesFor(sends, conn, x) + if s.fd in conn && conn[s.fd] == x then [s.line] else []
  {
    assert (sends + [s])[..|sends|] == sends;
  }

  /** A broadcast reaches each member's session once, and nobody else's. */
  lemma {:induction false} RoomLine(cs: seq<Client>, conn: map<int, nat>, room: string, line: Line, exclude: int,
      x: nat)
    requires OnePerFd(cs)
    requires forall f, g :: f in conn && g in conn && conn[f] == conn[g] ==> f == g
    ensures LinesFor(ToRoom(cs, room, line, exclude), conn, x)
         == if InRoom(cs, conn, room, exclude, x) then [line] else []
  {
    if cs != [] {
      var front, c := cs[..|cs| - 1], cs[|cs| - 1];
      RoomLine(front, conn, room, line, exclude, x);
      InRoomLast(cs, conn, room, exclude, x);
      if c.room == room && c.fd != exclude {
        LinesForMore(ToRoom(front, room, line, exclude), Send(c.fd, line), conn, x);
        if Member(c, conn, room, exclude, x) {
          OneMember(cs, conn, room, exclude, x);
        }
      } else {
        assert ToRoom(cs, room, line, exclude) == ToRoom(front, room, line, exclude);
      }
    }
  }

  /* ---- The simulation ---- */

  ghost predicate SessionsOk(conn: map<int, nat>, n: nat) {
    && (forall f :: f in conn ==> conn[f] < n)
    && (forall f, g :: f in conn && g in conn && conn[f] == conn[g] ==> f == g)
  }

  /** The array holds, on the descriptor of every open session, that session's name and room. */
  ghost predicate Represents(cs: seq<Client>, conn: map<int, nat>, h: seq<Happening>) {
    && OnePerFd(cs)
    && (forall fd :: HasFd(cs, fd) <==> fd in conn)
    && (forall c :: IsClient(cs, c) && c.fd in conn ==>
         c.room == RoomOf(h, conn[c.fd]) && c.name == NameOf(h, conn[c.fd]))
  }

  ghost predicate IsOpen(conn: map<int, nat>, x: nat) { exists f :: f in conn && conn[f] == x }

  ghost predicate Known(conn: map<int, nat>, h: seq<Happening>, n: nat) {
    && (forall x: nat :: Present(h, x) <==> IsOpen(conn, x))
    && (forall x: nat :: x >= n ==> RoomOf(h, x) == "" && NameOf(h, x) == "" && Expected(h, x) == [])
  }

  ghost predicate Heard(inbox: seq<seq<Line>>, h: seq<Happening>) {
    forall x :: 0 <= x < |inbox| ==> Chats(inbox[x]) == Expected(h, x)
  }

  ghost predicate Inv(s: State) {
    SessionsOk(s.conn, |s.inbox|) && Represents(s.cs, s.conn, s.h) && Known(s.conn, s.h, |s.inbox|) &&
      Heard(s.inbox, s.h)
  }

  lemma Latest(h: seq<Happening>, e: Happening)
    ensures (h + [e])[..|h|] == h && (h + [e])[|h + [e]| - 1] == e
  {}

  /** What one more happening changes, for everybody. */
  lemma OneMore(h: seq<Happening>, e: Happening, x: nat)
    ensures RoomOf(h + [e], x) == if e.Moved? && e.x == x then e.room else RoomOf(h, x)
    ensures NameOf(h + [e], x) == if e.Named? && e.x == x then e.name else NameOf(h, x)
    ensures Present(h + [e], x) <==> if e.x == x && (e.Opened? || e.Closed?) then e.Opened? else Present(h, x)
    ensures Expected(h + [e], x)
         == Expected(h, x) + if Hears(h, e, x) then [ChatText(NameOf(h, e.x), RoomOf(h, e.x), e.text)] else []
  {
    Latest(h, e);
  }

  /** Notices change nobody's chat; neither does any happening but speech. */
  lemma QuietHeard(inbox: seq<seq<Line>>, conn: map<int, nat>, sends: seq<Send>, h: seq<Happening>, e: Happening)
    requires Heard(inbox, h) && !e.Said? && forall k :: 0 <= k < |sends| ==> sends[k].line.Notice?
    ensures |Deliver(inbox, conn, sends)| == |inbox| && Heard(Deliver(inbox, conn, sends), h + [e])
  {
    DeliverSize(inbox, conn, sends);
    forall x | 0 <= x < |inbox| ensures Chats(Deliver(inbox, conn, sends)[x]) == Expected(h + [e], x) {
      DeliverTo(inbox, conn, sends, x);
      NoticesAreNoChat(sends, conn, x);
      ChatsAppend(inbox[x], LinesFor(sends, conn, x));
      OneMore(h, e, x);
    }
  }

  lemma {:induction false} DeliverSize(inbox: seq<seq<Line>>, conn: map<int, nat>, sends: seq<Send>)
    ensures |Deliver(inbox, conn, sends)| == |inbox|
  {
    if sends != [] {
      DeliverSize(inbox, conn, sends[..|sends| - 1]);
    }
  }

  lemma KnownSame(conn: map<int, nat>, h: seq<Happening>, e: Happening, n: nat)
    requires Known(conn, h, n) && e.x < n && !e.Opened? && !e.Closed? && SessionsOk(conn, n)
    ensures Known(conn, h + [e], n)
  {
    forall x: nat ensures Present(h + [e], x) <==> IsOpen(conn, x) {
      OneMore(h, e, x);
    }
    forall x: nat | x >= n ensures RoomOf(h + [e], x) == "" && NameOf(h + [e], x) == "" && Expected(h + [e], x) == [] {
      OneMore(h, e, x);
      assert !IsOpen(conn, x);
    }
  }

  /** Somebody changes name, changes room, or does neither. */
  lemma RepresentsUpdate(cs: seq<Client>, conn: map<int, nat>, h: seq<Happening>, n: nat, i: nat, c: Client,
      e: Happening)
    requires Represents(cs, conn, h) && SessionsOk(conn, n) && i < |cs| && c.fd == cs[i].fd && c.fd in conn
    requires e.x == conn[c.fd] && !e.Opened? && !e.Closed?
    requires c.room == (if e.Moved? then e.room else cs[i].room) && c.name == (if e.Named? then e.name else cs[i].name)
    ensures Represents(cs[i := c], conn, h + [e])
  {
    UpdateClient(cs, i, c);
    assert IsClient(cs, cs[i]);
    forall d | IsClient(cs[i := c], d) && d.fd in conn
      ensures d.room == RoomOf(h + [e], conn[d.fd]) && d.name == NameOf(h + [e], conn[d.fd]) {
      OneMore(h, e, conn[d.fd]);
    }
  }

  lemma RepresentsQuiet(cs: seq<Client>, conn: map<int, nat>, h: seq<Happening>, e: Happening)
    requires Represents(cs, conn, h) && !e.Named? && !e.Moved?
    ensures Represents(cs, conn, h + [e])
  {
    forall d | IsClient(cs, d) && d.fd in conn
      ensures d.room == RoomOf(h + [e], conn[d.fd]) && d.name == NameOf(h + [e], conn[d.fd]) {
      OneMore(h, e, conn[d.fd]);
    }
  }

  lemma ClosedRepresents(cs: seq<Client>, conn: map<int, nat>, h: seq<Happening>, fd: int, n: nat)
    requires Represents(cs, conn, h) && SessionsOk(conn, n) && fd in conn
    ensures Represents(SwapRemove(cs, fd), conn - {fd}, h + [Closed(conn[fd])])
  {
    RemoveOne(cs, fd);
    forall d | IsClient(SwapRemove(cs, fd), d) && d.fd in conn - {fd}
      ensures d.room == RoomOf(h + [Closed(conn[fd])], conn[d.fd]) &&
        d.name == NameOf(h + [Closed(conn[fd])], conn[d.fd]) {
      OneMore(h, Closed(conn[fd]), conn[d.fd]);
    }
  }

  lemma ClosedKnown(conn: map<int, nat>, h: seq<Happening>, fd: int, n: nat)
    requires Known(conn, h, n) && SessionsOk(conn, n) && fd in conn
    ensures Known(conn - {fd}, h + [Closed(conn[fd])], n)
  {
    var e, conn' := Closed(conn[fd]), conn - {fd};
    forall x: nat ensures Present(h + [e], x) <==> IsOpen(conn', x) {
      OneMore(h, e, x);
      if IsOpen(conn, x) && x != e.x {
        var f :| f in conn && conn[f] == x;
        assert f in conn';
      }
    }
    forall x: nat | x >= n ensures RoomOf(h + [e], x) == "" && NameOf(h + [e], x) == "" && Expected(h + [e], x) == [] {
      OneMore(h, e, x);
    }
  }

  // There is no induction here; Dafny's automatic one would make the lemma's context inconsistent.
  lemma {:induction false} ClosedKeepsInv(s: State, fd: int, sends: seq<Send>)
    requires Inv(s) && fd in s.conn && forall k :: 0 <= k < |sends| ==> sends[k].line.Notice?
    ensures Inv(State(SwapRemove(s.cs, fd), s.conn - {fd}, Deliver(s.inbox, s.conn, sends), s.h + [Closed(s.conn[fd])]))
  {
    QuietHeard(s.inbox, s.conn, sends, s.h, Closed(s.conn[fd]));
    ClosedRepresents(s.cs, s.conn, s.h, fd, |s.inbox|);
    ClosedKnown(s.conn, s.h, fd, |s.inbox|);
  }

  lemma ConnectFds(cs: seq<Client>, conn: map<int, nat>, fd: int, x: nat)
    requires (forall f :: HasFd(cs, f) <==> f in conn) && fd !in conn
    ensures forall f :: HasFd(cs + [Client(fd, "", "")], f) <==> f in conn[fd := x]
  {
    var cs' := cs + [Client(fd, "", "")];
    forall f ensures HasFd(cs', f) <==> HasFd(cs, f) || f == fd {
      if HasFd(cs, f) {
        var i :| 0 <= i < |cs| && cs[i].fd == f;
        assert cs'[i].fd == f;
      }
      assert cs'[|cs|].fd == fd;
    }
  }

  lemma ConnectOnePerFd(cs: seq<Client>, fd: int)
    requires OnePerFd(cs) && !HasFd(cs, fd)
    ensures OnePerFd(cs + [Client(fd, "", "")])
  {
    forall i | 0 <= i < |cs| ensures cs[i].fd != fd {
      assert cs[i].fd == fd ==> HasFd(cs, fd);
    }
  }

  /** One client of the array behind which a new blank one stands. */
  lemma ConnectClient(cs: seq<Client>, conn: map<int, nat>, h: seq<Happening>, fd: int, x: nat, d: Client)
    requires Represents(cs, conn, h) && SessionsOk(conn, x) && fd !in conn && RoomOf(h, x) == "" && NameOf(h, x) == ""
    requires IsClient(cs + [Client(fd, "", "")], d) && d.fd in conn[fd := x]
    ensures
      var y := conn[fd := x][d.fd];
      d.room == RoomOf(h + [Opened(x)], y) && d.name == NameOf(h + [Opened(x)], y)
  {
    OneMore(h, Opened(x), conn[fd := x][d.fd]);
    var cs' := cs + [Client(fd, "", "")];
    var i :| 0 <= i < |cs'| && cs'[i] == d;
    if i < |cs| {
      assert IsClient(cs, d) && HasFd(cs, d.fd);
    }
  }

  lemma ConnectRepresents(cs: seq<Client>, conn: map<int, nat>, h: seq<Happening>, fd: int, x: nat)
    requires Represents(cs, conn, h) && SessionsOk(conn, x) && fd !in conn && RoomOf(h, x) == "" && NameOf(h, x) == ""
    ensures Represents(cs + [Client(fd, "", "")], conn[fd := x], h + [Opened(x)])
  {
    ConnectFds(cs, conn, fd, x);
    ConnectOnePerFd(cs, fd);
    forall d | IsClient(cs + [Client(fd, "", "")], d) && d.fd in conn[fd := x]
      ensures
        var y := conn[fd := x][d.fd];
        d.room == RoomOf(h + [Opened(x)], y) && d.name == NameOf(h + [Opened(x)], y)
    {
      ConnectClient(cs, conn, h, fd, x, d);
    }
  }

  lemma ConnectOpen(conn: map<int, nat>, fd: int, x: nat, y: nat)
    requires fd !in conn
    ensures IsOpen(conn[fd := x], y) <==> IsOpen(conn, y) || y == x
  {
    if IsOpen(conn, y) {
      var f :| f in conn && conn[f] == y;
      assert f in conn[fd := x] && conn[fd := x][f] == y;
    }
    assert conn[fd := x][fd] == x;
    if IsOpen(conn[fd := x], y) && y != x {
      var f :| f in conn[fd := x] && conn[fd := x][f] == y;
      assert f in conn && conn[f] == y;
    }
  }

  lemma ConnectKnown(conn: map<int, nat>, h: seq<Happening>, fd: int, x: nat)
    requires Known(conn, h, x) && fd !in conn
    ensures Known(conn[fd := x], h + [Opened(x)], x + 1)
  {
    forall y: nat ensures Present(h + [Opened(x)], y) <==> IsOpen(conn[fd := x], y) {
      OneMore(h, Opened(x), y);
      ConnectOpen(conn, fd, x, y);
    }
    forall y: nat | y >= x + 1
      ensures RoomOf(h + [Opened(x)], y) == "" && NameOf(h + [Opened(x)], y) == ""
      ensures Expected(h + [Opened(x)], y) == []
    {
      OneMore(h, Opened(x), y);
    }
  }

  lemma ConnectKeepsInv(s: State, fd: int)
    requires Inv(s) && Enabled(s, Connect(fd))
    ensures Inv(After(s, Connect(fd)))
  {
    var x := |s.inbox|;
    ConnectRepresents(s.cs, s.conn, s.h, fd, x);
    ConnectKnown(s.conn, s.h, fd, x);
    assert Heard(s.inbox + [[]], s.h);
    QuietHeard(s.inbox + [[]], s.conn[fd := x], Arrived(s.cs, fd).sends, s.h, Opened(x));
  }

  /** The array index of an open session's client. */
  lemma ClientOf(s: State, fd: int) returns (i: nat)
    requires Inv(s) && fd in s.conn
    ensures i < |s.cs| && s.cs[i].fd == fd && Find(s.cs, fd) == i
    ensures s.cs[i].room == RoomOf(s.h, s.conn[fd]) && s.cs[i].name == NameOf(s.h, s.conn[fd])
  {
    assert HasFd(s.cs, fd);
    var k :| 0 <= k < |s.cs| && s.cs[k].fd == fd;
    i := Find(s.cs, fd);
    assert IsClient(s.cs, s.cs[i]);
  }

  /** The heart of the matter: a chat line goes to exactly those who, by the history, should hear it. */
  lemma SpeechReaches(s: State, fd: int, text: string, x: nat)
    requires Inv(s) && fd in s.conn && x < |s.inbox|
    ensures
      var e, o := Said(s.conn[fd], text), Text(s.cs, fd, text);
      Chats(LinesFor(o.sends, s.conn, x)) ==
      if Hears(s.h, e, x) then [ChatText(NameOf(s.h, e.x), RoomOf(s.h, e.x), text)] else []
  {
    var e, o := Said(s.conn[fd], text), Text(s.cs, fd, text);
    var i := ClientOf(s, fd);
    var room, line := s.cs[i].room, Chat(ChatText(s.cs[i].name, s.cs[i].room, text));
    if room == "" {
      NoticesAreNoChat(o.sends, s.conn, x);
    } else {
      RoomLine(s.cs, s.conn, room, line, fd, x);
      MembersHear(s, fd, text, x);
      OneChat(line);
    }
  }

  lemma OneChat(line: Line)
    requires line.Chat?
    ensures Chats([line]) == [line.text] && Chats([]) == []
  {
    assert [line][..0] == [];
  }

  lemma MembersHear(s: State, fd: int, text: string, x: nat)
    requires Inv(s) && fd in s.conn && RoomOf(s.h, s.conn[fd]) != ""
    ensures InRoom(s.cs, s.conn, RoomOf(s.h, s.conn[fd]), fd, x) <==> Hears(s.h, Said(s.conn[fd], text), x)
  {
    var room := RoomOf(s.h, s.conn[fd]);
    if InRoom(s.cs, s.conn, room, fd, x) {
      var k :| 0 <= k < |s.cs| && Member(s.cs[k], s.conn, room, fd, x);
      assert IsClient(s.cs, s.cs[k]) && IsOpen(s.conn, x);
    }
    if Hears(s.h, Said(s.conn[fd], text), x) {
      assert IsOpen(s.conn, x);
      var f :| f in s.conn && s.conn[f] == x;
      var k := ClientOf(s, f);
      assert Member(s.cs[k], s.conn, room, fd, x);
    }
  }

  lemma SpeechKeepsInv(s: State, fd: int, text: string)
    requires Inv(s) && fd in s.conn
    ensures
      var o := Text(s.cs, fd, text);
      o.cs == s.cs && !o.closes &&
        Inv(State(s.cs, s.conn, Deliver(s.inbox, s.conn, o.sends), s.h + [Said(s.conn[fd], text)]))
  {
    var e, o := Said(s.conn[fd], text), Text(s.cs, fd, text);
    KnownSame(s.conn, s.h, e, |s.inbox|);
    RepresentsQuiet(s.cs, s.conn, s.h, e);
    DeliverSize(s.inbox, s.conn, o.sends);
    forall x | 0 <= x < |s.inbox| ensures Chats(Deliver(s.inbox, s.conn, o.sends)[x]) == Expected(s.h + [e], x) {
      DeliverTo(s.inbox, s.conn, o.sends, x);
      SpeechReaches(s, fd, text, x);
      ChatsAppend(s.inbox[x], LinesFor(o.sends, s.conn, x));
      OneMore(s.h, e, x);
    }
  }

  /** A command is answered, and announced, with notices only. */
  lemma CommandNotices(cs: seq<Client>, fd: int, cmd: string)
    ensures forall k :: 0 <= k < |Command(cs, fd, cmd).sends| ==> Command(cs, fd, cmd).sends[k].line.Notice?
  {
    var i := Find(cs, fd);
    if i != -1 {
      var self := cs[i];
      if "/join " <= cmd {
        var room := UpTo(cmd[6..], '\n');
        ToRoomNotices(cs[i := self.(room := Clip(room, ROOM_LEN))], room,
          Clip("[Server] " + self.name + " joined the room.\n", BUF_SIZE), fd);
      } else if "/leave" <= cmd {
        ToRoomNotices(cs, self.room, Clip("[Server] " + self.name + " left room '" + self.room + "'\n", BUF_SIZE), fd);
      }
    }
  }

  /** Every command but /quit changes at most the sender's own entry and sends notices only. */
  lemma CommandShape(s: State, fd: int, cmd: string)
    requires Inv(s) && fd in s.conn && cmd != "" && cmd[0] == '/' && UpTo(cmd, '\0') == cmd
    ensures
      var e, o, i := Meaning(s.conn[fd], cmd), Command(s.cs, fd, cmd), Find(s.cs, fd);
      && (forall k :: 0 <= k < |o.sends| ==> o.sends[k].line.Notice?)
      && !e.Said? && !e.Opened? && e.x == s.conn[fd] && 0 <= i < |s.cs|
      && (o.closes <==> e.Closed?)
      && (e.Closed? ==> o.cs == SwapRemove(s.cs, fd))
      && (!e.Closed? ==> o.cs == s.cs[i := s.cs[i].(
            room := if e.Moved? then e.room else s.cs[i].room, name := if e.Named? then e.name else s.cs[i].name)])
  {
    var i := ClientOf(s, fd);
    CommandNotices(s.cs, fd, cmd);
    CommandEntry(s.cs, i, s.conn[fd], cmd);
  }

  /** What a command does to the array. */
  lemma CommandEntry(cs: seq<Client>, i: nat, x: nat, cmd: string)
    requires i < |cs| && Find(cs, cs[i].fd) == i && cmd != "" && cmd[0] == '/' && UpTo(cmd, '\0') == cmd
    ensures
      var e, o := Meaning(x, cmd), Command(cs, cs[i].fd, cmd);
      && !e.Said? && !e.Opened? && e.x == x
      && (o.closes <==> e.Closed?)
      && (e.Closed? ==> o.cs == SwapRemove(cs, cs[i].fd))
      && (!e.Closed? ==> o.cs == cs[i := cs[i].(
            room := if e.Moved? then e.room else cs[i].room, name := if e.Named? then e.name else cs[i].name)])
  {
    assert cs == cs[i := cs[i]];
  }

  lemma {:induction false} UpToTwice(s: string, c: char)
    ensures UpTo(UpTo(s, c), c) == UpTo(s, c)
  {
    if s != "" && s[0] != c {
      UpToTwice(s[1..], c);
      assert UpTo(s, c)[1..] == UpTo(s[1..], c);
    }
  }

  lemma CommandKeepsInv(s: State, fd: int, cmd: string)
    requires Inv(s) && fd in s.conn && cmd != "" && cmd[0] == '/' && UpTo(cmd, '\0') == cmd
    ensures
      var o := Command(s.cs, fd, cmd);
      var conn := if o.closes then s.conn - {fd} else s.conn;
      Inv(State(o.cs, conn, Deliver(s.inbox, s.conn, o.sends), s.h + [Meaning(s.conn[fd], cmd)]))
  {
    var e, o, i := Meaning(s.conn[fd], cmd), Command(s.cs, fd, cmd), Find(s.cs, fd);
    CommandShape(s, fd, cmd);
    if e.Closed? {
      ClosedKeepsInv(s, fd, o.sends);
    } else {
      QuietHeard(s.inbox, s.conn, o.sends, s.h, e);
      KnownSame(s.conn, s.h, e, |s.inbox|);
      RepresentsUpdate(s.cs, s.conn, s.h, |s.inbox|, i, o.cs[i], e);
    }
  }

  lemma MeaningOfText(x: nat, data: string)
    ensures Meaning(x, data) == Meaning(x, UpTo(data, '\0'))
  {
    UpToTwice(data, '\0');
  }

  lemma DataKeepsInv(s: State, fd: int, data: string)
    requires Inv(s) && fd in s.conn && Enabled(s, Data(fd, data))
    ensures Inv(After(s, Data(fd, data)))
  {
    var text := UpTo(data, '\0');
    UpToTwice(data, '\0');
    MeaningOfText(s.conn[fd], data);
    if text != "" && text[0] == '/' {
      CommandKeepsInv(s, fd, text);
    } else {
      SpeechKeepsInv(s, fd, text);
    }
  }

  lemma HangUpKeepsInv(s: State, fd: int)
    requires Inv(s) && Enabled(s, HangUp(fd))
    ensures Inv(After(s, HangUp(fd)))
  {
    var i := ClientOf(s, fd);
    ClosedKeepsInv(s, fd, []);
  }

  lemma EventKeepsInv(s: State, e: Event)
    requires Inv(s) && Enabled(s, e)
    ensures Inv(After(s, e))
  {
    match e {
      case Connect(fd) => ConnectKeepsInv(s, fd);
      case Data(fd, data) => DataKeepsInv(s, fd, data);
      case HangUp(fd) => HangUpKeepsInv(s, fd);
    }
  }

  lemma {:induction false} RunKeepsInv(s: State, events: seq<Event>)
    requires Inv(s) && Possible(s, events)
    ensures Inv(Run(s, events))
    decreases |events|
  {
    if events != [] {
      EventKeepsInv(s, events[0]);
      RunKeepsInv(After(s, events[0]), events[1..]);
    }
  }

  /* ---- Theorems ---- */

  lemma EmptyInv()
    ensures Inv(EMPTY)
  {}

  /** The room server refines the multicast: over any run, with numbers reused at will, the chat
      lines every session ever received are exactly those the history says it should have heard,
      in that order. */
  lemma RoomsAreMulticast(events: seq<Event>, x: nat)
    requires Possible(EMPTY, events) && x < |Run(EMPTY, events).inbox|
    ensures Chats(Run(EMPTY, events).inbox[x]) == Expected(Run(EMPTY, events).h, x)
  {
    EmptyInv();
    RunKeepsInv(EMPTY, events);
  }

  lemma BlankAfterConnect(s: State, fd: int)
    requires Inv(s) && Enabled(s, Connect(fd))
    ensures
      var t := After(s, Connect(fd));
      && fd in t.conn && Find(t.cs, fd) != -1 && t.cs[Find(t.cs, fd)] == Client(fd, "", "")
      && RoomOf(t.h, t.conn[fd]) == "" && NameOf(t.h, t.conn[fd]) == "" && Expected(t.h, t.conn[fd]) == []
  {
    ConnectKeepsInv(s, fd);
    var t := After(s, Connect(fd));
    var i := ClientOf(t, fd);
    OneMore(s.h, Opened(|s.inbox|), |s.inbox|);
  }

  /** A new connection has no name and no room, even on a number that somebody used before. */
  lemma NewSessionIsBlank(events: seq<Event>, fd: int)
    requires Possible(EMPTY, events) && Enabled(Run(EMPTY, events), Connect(fd))
    ensures
      var t := After(Run(EMPTY, events), Connect(fd));
      && fd in t.conn && Find(t.cs, fd) != -1 && t.cs[Find(t.cs, fd)] == Client(fd, "", "")
      && RoomOf(t.h, t.conn[fd]) == "" && NameOf(t.h, t.conn[fd]) == "" && Expected(t.h, t.conn[fd]) == []
  {
    EmptyInv();
    RunKeepsInv(EMPTY, events);
    BlankAfterConnect(Run(EMPTY, events), fd);
  }

  /** At any moment the array is the map the history describes: each open descriptor once, with
      its session's latest name and room. */
  lemma ArrayIsTheMap(events: seq<Event>, fd: int)
    requires Possible(EMPTY, events)
    ensures
      var s := Run(EMPTY, events);
      && OnePerFd(s.cs)
      && (Find(s.cs, fd) != -1 <==> fd in s.conn)
      && (fd in s.conn ==> s.cs[Find(s.cs, fd)] == Client(fd, NameOf(s.h, s.conn[fd]), RoomOf(s.h, s.conn[fd])))
  {
    var s := Run(EMPTY, events);
    EmptyInv();
    RunKeepsInv(EMPTY, events);
    if fd in s.conn {
      var i := ClientOf(s, fd);
    } else {
      assert !HasFd(s.cs, fd);
    }
  }
}
