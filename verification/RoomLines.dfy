/** What the room server's lines say to whoever reads them: who spoke where, who came and went,
    and who is listed. */
module RoomLines {
  import opened Prelude
  import opened Rooms
  import opened RoomRuns

  /* ---- Chat lines ---- */

  datatype Spoken = Spoken(name: string, room: string, text: string)

  /** Where the first "] " is; the length if there is none. */
  function Bracket(s: string): (n: nat)
    ensures n <= |s|
  {
    if s == "" then 0 else if "] " <= s then 0 else 1 + Bracket(s[1..])
  }

  /** A reader takes the name up to the first colon and the room up to the first "] ". */
  function Read(line: string): Option<Spoken> {
    if line == "" || line[0] != '[' then None
    else
      var name := UpTo(line[1..], ':');
      if |name| + 2 > |line| then None
      else
        var rest := line[|name| + 2..];
        var n := Bracket(rest);
        if n + 2 > |rest| then None else Some(Spoken(name, rest[..n], rest[n + 2..]))
  }

  function Shown(name: string): string {
    if name == "" then "anon" else name
  }

  /** The line can be read without mistake, and fits the buffer. */
  ghost predicate Legible(s: Spoken) {
    ':' !in s.name && ']' !in s.room && |Shown(s.name)| + |s.room| + |s.text| + 4 < BUF_SIZE
  }

  lemma {:induction false} BracketIs(room: string, text: string)
    requires ']' !in room
    ensures Bracket(room + "] " + text) == |room|
  {
    var s := room + "] " + text;
    if room == "" {
      assert s[..2] == "] ";
    } else {
      assert s[0] == room[0] && room[0] in room;
      assert s[1..] == room[1..] + "] " + text;
      BracketIs(room[1..], text);
    }
  }

  lemma {:induction false} UpToIs(a: string, c: char, b: string)
    requires c !in a
    ensures UpTo(a + [c] + b, c) == a
  {
    var s := a + [c] + b;
    if a != "" {
      assert s[0] == a[0] && a[0] in a;
      assert s[1..] == a[1..] + [c] + b;
      UpToIs(a[1..], c, b);
    }
  }

  lemma HeadAndTail(name: string, tail: string)
    ensures
      var line := "[" + name + ":" + tail;
      line != "" && line[0] == '[' && line[1..] == name + [':'] + tail && line[|name| + 2..] == tail
  {
    var line := "[" + name + ":" + tail;
    assert line[1..] == name + [':'] + tail;
    assert line[|name| + 2..] == tail;
  }

  lemma ReadTail(room: string, text: string)
    requires ']' !in room
    ensures
      var tail := room + "] " + text;
      var n := Bracket(tail);
      n + 2 <= |tail| && tail[..n] == room && tail[n + 2..] == text
  {
    BracketIs(room, text);
  }

  lemma ReadName(name: string, tail: string)
    requires ':' !in name
    ensures UpTo(("[" + name + ":" + tail)[1..], ':') == name
  {
    HeadAndTail(name, tail);
    UpToIs(name, ':', tail);
  }

  /** A chat line gives back the speaker's name, the room and the text. */
  lemma ReadsBack(s: Spoken)
    requires Legible(s)
    ensures Read(ChatText(s.name, s.room, s.text)) == Some(Spoken(Shown(s.name), s.room, s.text))
  {
    var name, tail := Shown(s.name), s.room + "] " + s.text;
    var line := "[" + name + ":" + tail;
    WholeLine(s);
    assert ':' !in name;
    ReadName(name, tail);
    HeadAndTail(name, tail);
    ReadTail(s.room, s.text);
  }

  lemma WholeLine(s: Spoken)
    requires Legible(s)
    ensures ChatText(s.name, s.room, s.text) == "[" + Shown(s.name) + ":" + (s.room + "] " + s.text)
  {
    assert "[" + Shown(s.name) + ":" + s.room + "] " + s.text == "[" + Shown(s.name) + ":" + (s.room + "] " + s.text);
  }

  /** What session x must have heard, in words. */
  function HeardBy(h: seq<Happening>, x: nat): seq<Spoken> {
    if h == [] then []
    else
      var past, e := h[..|h| - 1], h[|h| - 1];
      HeardBy(past, x) + if Hears(past, e, x) then [Spoken(NameOf(past, e.x), RoomOf(past, e.x), e.text)] else []
  }

  ghost predicate AsLines(spoken: seq<Spoken>, lines: seq<string>) {
    |lines| == |spoken| && forall k :: 0 <= k < |lines| ==> AsLine(spoken[k], lines[k])
  }

  ghost predicate AsLine(s: Spoken, line: string) {
    && (Legible(s) ==> Read(line) == Some(Spoken(Shown(s.name), s.room, s.text)))
    && |line| < BUF_SIZE
  }

  lemma {:induction false} ExpectedReads(h: seq<Happening>, x: nat)
    ensures AsLines(HeardBy(h, x), Expected(h, x))
  {
    if h != [] {
      var past, e := h[..|h| - 1], h[|h| - 1];
      ExpectedReads(past, x);
      if Hears(past, e, x) {
        var s := Spoken(NameOf(past, e.x), RoomOf(past, e.x), e.text);
        if Legible(s) {
          ReadsBack(s);
        }
        assert AsLine(s, ChatText(s.name, s.room, s.text));
      }
    }
  }

  /** In any run the chat lines of a session are, one by one, what others in its room said while
      it was there, and read as that: with the speaker's name ("anon" for none), room and words. */
  lemma ReceivedLinesRead(events: seq<Event>, x: nat)
    requires Possible(EMPTY, events) && x < |Run(EMPTY, events).inbox|
    ensures AsLines(HeardBy(Run(EMPTY, events).h, x), Chats(Run(EMPTY, events).inbox[x]))
  {
    RoomsAreMulticast(events, x);
    ExpectedReads(Run(EMPTY, events).h, x);
  }

  /* ---- Coming and going ---- */

  /** Everybody else who is in the room. */
  lemma OthersInRoom(s: State, fd: int, c: Client, room: string, y: nat)
    requires Inv(s) && fd in s.conn && c.fd == fd && Find(s.cs, fd) != -1
    ensures InRoom(s.cs[Find(s.cs, fd) := c], s.conn, room, fd, y)
      <==> y != s.conn[fd] && Present(s.h, y) && RoomOf(s.h, y) == room
  {
    var cs := s.cs[Find(s.cs, fd) := c];
    if InRoom(cs, s.conn, room, fd, y) {
      var k :| 0 <= k < |cs| && Member(cs[k], s.conn, room, fd, y);
      assert cs[k] == s.cs[k] && IsClient(s.cs, s.cs[k]) && IsOpen(s.conn, y);
    }
    if y != s.conn[fd] && Present(s.h, y) && RoomOf(s.h, y) == room {
      assert IsOpen(s.conn, y);
      var f :| f in s.conn && s.conn[f] == y;
      var k := ClientOf(s, f);
      assert Member(cs[k], s.conn, room, fd, y);
    }
  }

  lemma LinesForCons(s: Send, sends: seq<Send>, conn: map<int, nat>, x: nat)
    ensures LinesFor([s] + sends, conn, x) == LinesFor([s], conn, x) + LinesFor(sends, conn, x)
  {
    LinesForAppend([s], sends, conn, x);
  }

  lemma {:induction false} LinesForAppend(a: seq<Send>, b: seq<Send>, conn: map<int, nat>, x: nat)
    ensures LinesFor(a + b, conn, x) == LinesFor(a, conn, x) + LinesFor(b, conn, x)
  {
    if b == [] {
      assert a + b == a;
    } else {
      assert (a + b)[..|a + b| - 1] == a + b[..|b| - 1];
      LinesForAppend(a, b[..|b| - 1], conn, x);
    }
  }

  lemma LinesForOne(s: Send, conn: map<int, nat>, x: nat)
    ensures LinesFor([s], conn, x) == if s.fd in conn && conn[s.fd] == x then [s.line] else []
  {
    assert [s][..0] == [];
  }

  lemma JoinSends(cs: seq<Client>, fd: int, cmd: string)
    requires Find(cs, fd) != -1 && "/join " <= cmd
    ensures
      var i, room := Find(cs, fd), UpTo(cmd[6..], '\n');
      Command(cs, fd, cmd).sends
      == [Send(fd, Notice(Clip("[Server] Joined room '" + room + "'\n", BUF_SIZE)))] +
         ToRoom(cs[i := cs[i].(room := Clip(room, ROOM_LEN))], room,
                Notice(Clip("[Server] " + cs[i].name + " joined the room.\n", BUF_SIZE)), fd)
  {
    assert !("/nick " <= cmd) by { assert cmd[1] == 'j'; }
  }

  /** Whoever joins is answered; the others whose room has the name as it was typed are told. */
  lemma JoinAnnounced(s: State, fd: int, cmd: string, y: nat)
    requires Inv(s) && fd in s.conn && "/join " <= cmd
    ensures
      var room, lines := UpTo(cmd[6..], '\n'), LinesFor(Command(s.cs, fd, cmd).sends, s.conn, y);
      if y == s.conn[fd] then lines == [Notice(Clip("[Server] Joined room '" + room + "'\n", BUF_SIZE))]
      else if Present(s.h, y) && RoomOf(s.h, y) == room then
        lines == [Notice(Clip("[Server] " + NameOf(s.h, s.conn[fd]) + " joined the room.\n", BUF_SIZE))]
      else lines == []
  {
    var i := ClientOf(s, fd);
    var room := UpTo(cmd[6..], '\n');
    var c := s.cs[i].(room := Clip(room, ROOM_LEN));
    var reply := Send(fd, Notice(Clip("[Server] Joined room '" + room + "'\n", BUF_SIZE)));
    var line := Notice(Clip("[Server] " + s.cs[i].name + " joined the room.\n", BUF_SIZE));
    JoinSends(s.cs, fd, cmd);
    UpdateClient(s.cs, i, c);
    LinesForCons(reply, ToRoom(s.cs[i := c], room, line, fd), s.conn, y);
    LinesForOne(reply, s.conn, y);
    RoomLine(s.cs[i := c], s.conn, room, line, fd, y);
    OthersInRoom(s, fd, c, room, y);
  }

  /** Whoever takes a name is told the name that the others will see from then on. */
  lemma NickAnswered(s: State, fd: int, data: string, y: nat)
    requires Inv(s) && fd in s.conn && Enabled(s, Data(fd, data)) && "/nick " <= UpTo(data, '\0')
    ensures
      var t, x := After(s, Data(fd, data)), s.conn[fd];
      && LinesFor(Command(s.cs, fd, UpTo(data, '\0')).sends, s.conn, y)
         == (if y == x then [Notice(Clip("[Server] Nickname set to '" + NameOf(t.h, x) + "'\n", BUF_SIZE))] else [])
      && RoomOf(t.h, x) == RoomOf(s.h, x)
      && var typed := UpTo(UpTo(data, '\0')[6..], '\n');
         NameOf(t.h, x) <= typed && |NameOf(t.h, x)| == if |typed| < 32 then |typed| else 31
  {
    var i := ClientOf(s, fd);
    var cmd := UpTo(data, '\0');
    OneMore(s.h, Meaning(s.conn[fd], data), s.conn[fd]);
    LinesForOne(Command(s.cs, fd, cmd).sends[0], s.conn, y);
  }

  /** A new connection is greeted, and nothing else is said. */
  lemma Greeted(s: State, fd: int, y: nat)
    requires Inv(s) && Enabled(s, Connect(fd))
    ensures
      var t := After(s, Connect(fd));
      && |t.inbox| == |s.inbox| + 1 && fd in t.conn && t.conn[fd] == |s.inbox|
      && t.inbox[|s.inbox|] == [Notice("[Server] Welcome! Use " + "/nick, /join, /list, /quit.\n")]
      && (y < |s.inbox| ==> t.inbox[y] == s.inbox[y])
  {
    var x := |s.inbox|;
    var greeting := Arrived(s.cs, fd).sends[0];
    DeliverSize(s.inbox + [[]], s.conn[fd := x], [greeting]);
    DeliverTo(s.inbox + [[]], s.conn[fd := x], [greeting], x);
    LinesForOne(greeting, s.conn[fd := x], x);
    if y < x {
      DeliverTo(s.inbox + [[]], s.conn[fd := x], [greeting], y);
      LinesForOne(greeting, s.conn[fd := x], y);
    }
  }

  lemma LeaveSends(cs: seq<Client>, fd: int, cmd: string)
    requires Find(cs, fd) != -1 && "/leave" <= cmd && cs[Find(cs, fd)].room != ""
    ensures
      var self := cs[Find(cs, fd)];
      var line := Notice(Clip("[Server] " + self.name + " left room '" + self.room + "'\n", BUF_SIZE));
      Command(cs, fd, cmd).sends
      == ToRoom(cs, self.room, line, fd) + [Send(fd, Notice("[Server] You left the room.\n\0"))]
  {
    assert !("/nick " <= cmd) && !("/join " <= cmd) by { assert cmd[1] == 'l'; }
  }

  /** Who gets a line to the others in somebody's room. */
  lemma ToldInRoom(s: State, fd: int, line: Line, y: nat)
    requires Inv(s) && fd in s.conn
    ensures
      var x := s.conn[fd];
      LinesFor(ToRoom(s.cs, RoomOf(s.h, x), line, fd), s.conn, y)
      == if y != x && Present(s.h, y) && RoomOf(s.h, y) == RoomOf(s.h, x) then [line] else []
  {
    var i := ClientOf(s, fd);
    RoomLine(s.cs, s.conn, RoomOf(s.h, s.conn[fd]), line, fd, y);
    assert s.cs[i := s.cs[i]] == s.cs;
    OthersInRoom(s, fd, s.cs[i], RoomOf(s.h, s.conn[fd]), y);
  }

  /** Who gets what of a line to a room's others and a reply. */
  lemma ToldAndAnswered(s: State, fd: int, line: Line, reply: Line, y: nat)
    requires Inv(s) && fd in s.conn
    ensures
      var x := s.conn[fd];
      LinesFor(ToRoom(s.cs, RoomOf(s.h, x), line, fd) + [Send(fd, reply)], s.conn, y)
      == if y == x then [reply] else if Present(s.h, y) && RoomOf(s.h, y) == RoomOf(s.h, x) then [line] else []
  {
    LinesForAppend(ToRoom(s.cs, RoomOf(s.h, s.conn[fd]), line, fd), [Send(fd, reply)], s.conn, y);
    LinesForOne(Send(fd, reply), s.conn, y);
    ToldInRoom(s, fd, line, y);
  }

  /** Whoever leaves a room is answered, and everybody else in it is told. */
  lemma LeaveAnnounced(s: State, fd: int, cmd: string, y: nat)
    requires Inv(s) && fd in s.conn && "/leave" <= cmd && RoomOf(s.h, s.conn[fd]) != ""
    ensures
      var x := s.conn[fd];
      LinesFor(Command(s.cs, fd, cmd).sends, s.conn, y)
      == if y == x then [Notice("[Server] You left the room.\n\0")]
         else if Present(s.h, y) && RoomOf(s.h, y) == RoomOf(s.h, x) then
           [Notice(Clip("[Server] " + NameOf(s.h, x) + " left room '" + RoomOf(s.h, x) + "'\n", BUF_SIZE))]
         else []
  {
    var i := ClientOf(s, fd);
    LeaveSends(s.cs, fd, cmd);
    var line := Notice(Clip("[Server] " + s.cs[i].name + " left room '" + s.cs[i].room + "'\n", BUF_SIZE));
    ToldAndAnswered(s, fd, line, Notice("[Server] You left the room.\n\0"), y);
  }

  lemma {:induction false} RoomsAreShort(h: seq<Happening>, x: nat)
    requires forall k :: 0 <= k < |h| && h[k].Moved? ==> |h[k].room| < ROOM_LEN
    ensures |RoomOf(h, x)| < ROOM_LEN
  {
    if h != [] {
      RoomsAreShort(h[..|h| - 1], x);
    }
  }

  lemma {:induction false} MovesAreShort(s: State, events: seq<Event>)
    requires Possible(s, events) && forall k :: 0 <= k < |s.h| && s.h[k].Moved? ==> |s.h[k].room| < ROOM_LEN
    ensures forall k :: 0 <= k < |Run(s, events).h| && Run(s, events).h[k].Moved? ==>
      |Run(s, events).h[k].room| < ROOM_LEN
    decreases |events|
  {
    if events != [] {
      MovesAreShort(After(s, events[0]), events[1..]);
    }
  }

  /** In any run: the members of the room that somebody comes into are told so if and only if the
      name was typed with less than 32 characters; a longer one is cut for the room, but not for
      the announcement, which then reaches nobody. */
  lemma JoinIsToldExactly(events: seq<Event>, fd: int, cmd: string, y: nat)
    requires Possible(EMPTY, events) && fd in Run(EMPTY, events).conn && "/join " <= cmd
    requires
      var s, room := Run(EMPTY, events), UpTo(cmd[6..], '\n');
      y != s.conn[fd] && Present(s.h, y) && RoomOf(s.h, y) == Clip(room, ROOM_LEN)
    ensures
      var s := Run(EMPTY, events);
      LinesFor(Command(s.cs, fd, cmd).sends, s.conn, y) != [] <==> |UpTo(cmd[6..], '\n')| < ROOM_LEN
  {
    EmptyInv();
    RunKeepsInv(EMPTY, events);
    MovesAreShort(EMPTY, events);
    RoomsAreShort(Run(EMPTY, events).h, y);
    JoinAnnounced(Run(EMPTY, events), fd, cmd, y);
  }

  /* ---- The list ---- */

  /** A text that consists of these lines, each ended by a newline. */
  function Joined(lines: seq<string>): string {
    if lines == [] then "" else Joined(lines[..|lines| - 1]) + lines[|lines| - 1] + "\n"
  }

  lemma Regrouped(a: string, b: string, c: string)
    ensures (a + b) + c == a + (b + c)
  {}

  ghost predicate AreLines(lines: seq<string>) {
    forall k :: 0 <= k < |lines| ==> '\n' !in lines[k]
  }

  lemma EndsInNewline(lines: seq<string>)
    requires lines != []
    ensures Joined(lines) != "" && Joined(lines)[|Joined(lines)| - 1] == '\n'
  {}

  lemma NewlineInside(a: string, x: string, b: string)
    requires b <= a + x && b != "" && b[|b| - 1] == '\n'
    ensures |b| > |a| ==> '\n' in x
  {
    if |b| > |a| {
      assert x[|b| - 1 - |a|] == b[|b| - 1];
    }
  }

  /** Of two texts that are equal, each a row of whole lines and one line more, the last lines are equal. */
  lemma SameLastLine(a: string, x: string, b: string, y: string)
    requires a + x == b + y && '\n' !in x && '\n' !in y
    requires (a == "" || a[|a| - 1] == '\n') && (b == "" || b[|b| - 1] == '\n')
    ensures a == b && x == y
  {
    var s := a + x;
    assert s[..|a|] == a && s[|a|..] == x && s[..|b|] == b && s[|b|..] == y;
    if a != "" {
      NewlineInside(b, y, a);
    }
    if b != "" {
      NewlineInside(a, x, b);
    }
  }

  /** There is only one way to cut a text into lines. */
  lemma {:induction false} LinesAreUnique(a: seq<string>, b: seq<string>)
    requires AreLines(a) && AreLines(b) && Joined(a) == Joined(b)
    ensures a == b
  {
    if a != [] && b != [] {
      var m, n, s := |a| - 1, |b| - 1, Joined(a);
      assert s[..|s| - 1] == Joined(a[..m]) + a[m] && s[..|s| - 1] == Joined(b[..n]) + b[n];
      if m > 0 {
        EndsInNewline(a[..m]);
      }
      if n > 0 {
        EndsInNewline(b[..n]);
      }
      SameLastLine(Joined(a[..m]), a[m], Joined(b[..n]), b[n]);
      LinesAreUnique(a[..m], b[..n]);
      assert a == a[..m] + [a[m]] && b == b[..n] + [b[n]];
    }
  }

  /** How a member is listed. */
  function Listed(name: string): string {
    " - " + if name != "" then name else "(unnamed)"
  }

  ghost predicate OneLineNames(cs: seq<Client>) {
    forall i :: 0 <= i < |cs| ==> '\n' !in cs[i].name
  }

  function MembersOf(cs: seq<Client>, room: string): seq<Client> {
    if cs == [] then []
    else MembersOf(cs[..|cs| - 1], room) + if cs[|cs| - 1].room == room then [cs[|cs| - 1]] else []
  }

  /** The reply to /list, line by line. */
  function ListLines(cs: seq<Client>, room: string): seq<string> {
    if cs == [] then ["[Server] Users in your room:"]
    else
      var c := cs[|cs| - 1];
      ListLines(cs[..|cs| - 1], room) + if c.room == room then [Listed(c.name)] else []
  }

  lemma OneMoreLine(lines: seq<string>, line: string)
    ensures Joined(lines + [line]) == Joined(lines) + line + "\n"
  {
    assert (lines + [line])[..|lines|] == lines;
  }

  lemma ListedItem(front: string, name: string)
    ensures front + (" - " + (if name != "" then name else "(unnamed)") + "\n") == front + Listed(name) + "\n"
  {
    Regrouped(front, Listed(name), "\n");
  }

  lemma ListingStep(front: seq<Client>, c: Client, room: string)
    ensures Listing(front + [c], room) ==
            if c.room == room then Listing(front, room) + Listed(c.name) + "\n" else Listing(front, room)
    ensures ListLines(front + [c], room) ==
            if c.room == room then ListLines(front, room) + [Listed(c.name)] else ListLines(front, room)
  {
    assert (front + [c])[..|front|] == front;
    ListedItem(Listing(front, room), c.name);
  }

  lemma Heading(room: string)
    ensures Listing([], room) == Joined(ListLines([], room))
  {
    assert ListLines([], room)[..0] == [];
    assert "[Server] Users in your room:\n" == "" + "[Server] Users in your room:" + "\n";
  }

  lemma {:induction false} ListingReads(cs: seq<Client>, room: string)
    ensures Listing(cs, room) == Joined(ListLines(cs, room))
  {
    if cs == [] {
      Heading(room);
    } else {
      var front, c := cs[..|cs| - 1], cs[|cs| - 1];
      assert cs == front + [c];
      ListingReads(front, room);
      ListingStep(front, c, room);
      OneMoreLine(ListLines(front, room), Listed(c.name));
    }
  }

  lemma {:induction false} ListLinesAreLines(cs: seq<Client>, room: string)
    requires OneLineNames(cs)
    ensures AreLines(ListLines(cs, room))
  {
    if cs != [] {
      ListLinesAreLines(cs[..|cs| - 1], room);
      assert '\n' !in cs[|cs| - 1].name;
    }
  }

  lemma {:induction false} ListLinesAre(cs: seq<Client>, room: string)
    ensures |ListLines(cs, room)| == 1 + |MembersOf(cs, room)| &&
      ListLines(cs, room)[0] == "[Server] Users in your room:"
    ensures forall k :: 0 <= k < |MembersOf(cs, room)| ==>
      ListLines(cs, room)[k + 1] == Listed(MembersOf(cs, room)[k].name)
  {
    if cs != [] {
      ListLinesAre(cs[..|cs| - 1], room);
    }
  }

  lemma {:induction false} MembersAre(cs: seq<Client>, room: string, c: Client)
    ensures c in MembersOf(cs, room) <==> c in cs && c.room == room
  {
    if cs != [] {
      assert cs == cs[..|cs| - 1] + [cs[|cs| - 1]];
      MembersAre(cs[..|cs| - 1], room, c);
    }
  }

  /* ---- Who is listed ---- */

  lemma {:induction false} NameIsOneLine(h: seq<Happening>, x: nat)
    requires forall k :: 0 <= k < |h| && h[k].Named? ==> '\n' !in h[k].name
    ensures '\n' !in NameOf(h, x)
  {
    if h != [] {
      NameIsOneLine(h[..|h| - 1], x);
    }
  }

  lemma {:induction false} NamingsAreOneLine(s: State, events: seq<Event>)
    requires Possible(s, events) && forall k :: 0 <= k < |s.h| && s.h[k].Named? ==> '\n' !in s.h[k].name
    ensures forall k :: 0 <= k < |Run(s, events).h| && Run(s, events).h[k].Named? ==> '\n' !in Run(s, events).h[k].name
    decreases |events|
  {
    if events != [] {
      NamingsAreOneLine(After(s, events[0]), events[1..]);
    }
  }

  lemma ClientsAreSessions(s: State, c: Client)
    requires Inv(s) && c in s.cs
    ensures c.fd in s.conn && Present(s.h, s.conn[c.fd])
    ensures c.room == RoomOf(s.h, s.conn[c.fd]) && c.name == NameOf(s.h, s.conn[c.fd])
  {
    var i :| 0 <= i < |s.cs| && s.cs[i] == c;
    assert HasFd(s.cs, c.fd) && IsClient(s.cs, c) && IsOpen(s.conn, s.conn[c.fd]);
  }

  lemma SessionsAreClients(s: State, y: nat) returns (c: Client)
    requires Inv(s) && Present(s.h, y)
    ensures c in s.cs && c.room == RoomOf(s.h, y) && c.name == NameOf(s.h, y)
  {
    assert IsOpen(s.conn, y);
    var f :| f in s.conn && s.conn[f] == y;
    var k := ClientOf(s, f);
    c := s.cs[k];
  }

  /** Session y is in the room and shows up as this line. */
  ghost predicate ListedAs(h: seq<Happening>, room: string, y: nat, line: string) {
    Present(h, y) && RoomOf(h, y) == room && line == Listed(NameOf(h, y))
  }

  /** Behind the heading there is a line for each session in the room, and no other. */
  ghost predicate ListsRoom(lines: seq<string>, h: seq<Happening>, room: string) {
    && |lines| > 0 && lines[0] == "[Server] Users in your room:"
    && (forall y: nat, line :: ListedAs(h, room, y, line) ==> line in lines[1..])
    && (forall line :: line in lines[1..] ==> exists y: nat :: ListedAs(h, room, y, line))
  }

  lemma MembersAreListed(s: State, room: string, y: nat, line: string)
    requires Inv(s) && ListedAs(s.h, room, y, line)
    ensures |ListLines(s.cs, room)| > 0 && line in ListLines(s.cs, room)[1..]
  {
    var lines, members := ListLines(s.cs, room), MembersOf(s.cs, room);
    ListLinesAre(s.cs, room);
    var c := SessionsAreClients(s, y);
    MembersAre(s.cs, room, c);
    var k :| 0 <= k < |members| && members[k] == c;
    assert lines[1..][k] == lines[k + 1];
  }

  lemma ListedAreMembers(s: State, room: string, line: string) returns (y: nat)
    requires Inv(s) && |ListLines(s.cs, room)| > 0 && line in ListLines(s.cs, room)[1..]
    ensures ListedAs(s.h, room, y, line)
  {
    var lines, members := ListLines(s.cs, room), MembersOf(s.cs, room);
    ListLinesAre(s.cs, room);
    var k :| 0 <= k < |lines| - 1 && lines[1..][k] == line;
    assert lines[k + 1] == line && members[k] in members;
    MembersAre(s.cs, room, members[k]);
    ClientsAreSessions(s, members[k]);
    y := s.conn[members[k].fd];
  }

  lemma ListingIsTheRoom(s: State, room: string)
    requires Inv(s)
    ensures ListsRoom(ListLines(s.cs, room), s.h, room)
  {
    ListLinesAre(s.cs, room);
    var lines := ListLines(s.cs, room);
    forall y: nat, line | ListedAs(s.h, room, y, line) ensures line in lines[1..] {
      MembersAreListed(s, room, y, line);
    }
    forall line | line in lines[1..] ensures exists y: nat :: ListedAs(s.h, room, y, line) {
      var y := ListedAreMembers(s, room, line);
    }
  }

  lemma {:induction false} NamesAreOneLine(events: seq<Event>)
    requires Possible(EMPTY, events)
    ensures Inv(Run(EMPTY, events)) && OneLineNames(Run(EMPTY, events).cs)
  {
    EmptyInv();
    RunKeepsInv(EMPTY, events);
    NamingsAreOneLine(EMPTY, events);
    var s := Run(EMPTY, events);
    forall i | 0 <= i < |s.cs| ensures '\n' !in s.cs[i].name {
      ClientsAreSessions(s, s.cs[i]);
      NameIsOneLine(s.h, s.conn[s.cs[i].fd]);
    }
  }

  /** In any run /list answers whoever asks, and nobody else; and into whatever lines one cuts the
      answer, they are a heading and exactly the sessions in the asker's room, each by its name. */
  lemma ListedExactly(events: seq<Event>, fd: int, cmd: string, lines: seq<string>)
    requires Possible(EMPTY, events) && fd in Run(EMPTY, events).conn && "/list" <= cmd
    ensures
      var s := Run(EMPTY, events);
      var sends := Command(s.cs, fd, cmd).sends;
      && |sends| == 1 && sends[0].fd == fd
      && (exists cut :: AreLines(cut) && Joined(cut) == sends[0].line.text)
      && (AreLines(lines) && Joined(lines) == sends[0].line.text ==> ListsRoom(lines, s.h, RoomOf(s.h, s.conn[fd])))
  {
    var s := Run(EMPTY, events);
    NamesAreOneLine(events);
    ListSends(s, fd, cmd);
    ListingIsTheRoom(s, RoomOf(s.h, s.conn[fd]));
    ListingReads(s.cs, RoomOf(s.h, s.conn[fd]));
    ListLinesAreLines(s.cs, RoomOf(s.h, s.conn[fd]));
    var cut := ListLines(s.cs, RoomOf(s.h, s.conn[fd]));
    assert AreLines(cut) && Joined(cut) == Command(s.cs, fd, cmd).sends[0].line.text;
    if AreLines(lines) && Joined(lines) == Joined(cut) {
      LinesAreUnique(lines, cut);
    }
  }

  lemma ListSends(s: State, fd: int, cmd: string)
    requires Inv(s) && fd in s.conn && "/list" <= cmd
    ensures Command(s.cs, fd, cmd).sends == [Send(fd, Notice(Listing(s.cs, RoomOf(s.h, s.conn[fd]))))]
  {
    var i := ClientOf(s, fd);
    assert cmd[2] == 'i';
    assert !("/nick " <= cmd) by { assert cmd[1] == 'l'; }
    assert !("/join " <= cmd) by { assert cmd[1] == 'l'; }
  }

  /* ---- The other answers ---- */

  /** The messages whose only effect on the wire is one fixed answer to their sender. */
  function FixedAnswer(text: string, room: string): Option<string> {
    if text == "" || text[0] != '/' then
      if room == "" then Some("[Server] Join a room first " + "using /join <room>\n") else None
    else if "/leave" <= text then if room == "" then Some("[Server] You are not in any room.\n") else None
    else if "/quit" <= text then Some("[Server] Bye!\n")
    else if "/nick " <= text || "/join " <= text || "/list" <= text then None
    else Some("[Server] Unknown command.\n")
  }

  lemma Apart(p: string, q: string, text: string, i: nat)
    requires i < |p| && i < |q| && p[i] != q[i]
    ensures !(p <= text && q <= text)
  {}

  lemma Verbs(text: string)
    ensures "/leave" <= text ==> !("/nick " <= text) && !("/join " <= text) && !("/list" <= text)
    ensures "/quit" <= text ==>
      !("/nick " <= text) && !("/join " <= text) && !("/list" <= text) && !("/leave" <= text)
  {
    Apart("/leave", "/nick ", text, 1);
    Apart("/leave", "/join ", text, 1);
    Apart("/leave", "/list", text, 2);
    Apart("/quit", "/nick ", text, 1);
    Apart("/quit", "/join ", text, 1);
    Apart("/quit", "/list", text, 1);
    Apart("/quit", "/leave", text, 1);
  }

  lemma TextAnswer(cs: seq<Client>, fd: int, text: string)
    requires Find(cs, fd) != -1 && cs[Find(cs, fd)].room == ""
    ensures Text(cs, fd, text).sends == [Send(fd, Notice("[Server] Join a room first " + "using /join <room>\n"))]
  {}

  lemma CommandAnswer(cs: seq<Client>, fd: int, cmd: string)
    requires cmd != "" && cmd[0] == '/'
    requires Find(cs, fd) != -1 && FixedAnswer(cmd, cs[Find(cs, fd)].room).Some?
    ensures Command(cs, fd, cmd).sends == [Send(fd, Notice(FixedAnswer(cmd, cs[Find(cs, fd)].room).value))]
  {
    Verbs(cmd);
  }

  lemma AnswerSends(cs: seq<Client>, fd: int, data: string)
    requires Find(cs, fd) != -1 && FixedAnswer(UpTo(data, '\0'), cs[Find(cs, fd)].room).Some?
    ensures Rooms.Received(cs, fd, data).sends
      == [Send(fd, Notice(FixedAnswer(UpTo(data, '\0'), cs[Find(cs, fd)].room).value))]
  {
    var text := UpTo(data, '\0');
    if text != "" && text[0] == '/' {
      CommandAnswer(cs, fd, text);
    } else {
      TextAnswer(cs, fd, text);
    }
  }

  /** What such a message means: the end of the session if it is "/quit", and otherwise nothing
      that changes anybody's name or room. */
  lemma AnswerMeaning(h: seq<Happening>, x: nat, data: string)
    requires FixedAnswer(UpTo(data, '\0'), RoomOf(h, x)).Some?
    ensures
      var e := Meaning(x, data);
      e.x == x && !e.Named? && !e.Opened? && (e.Moved? ==> e.room == RoomOf(h, x)) &&
      (e.Closed? <==> "/quit" <= UpTo(data, '\0'))
  {
    var text := UpTo(data, '\0');
    Verbs(text);
  }

  /** Who asks in vain, talks without a room or takes leave is answered so, and nobody else hears
      of it; after "/quit", and then only, the session is over. */
  lemma OnlyAnswered(s: State, fd: int, data: string, y: nat)
    requires Inv(s) && Enabled(s, Data(fd, data))
    requires FixedAnswer(UpTo(data, '\0'), RoomOf(s.h, s.conn[fd])).Some?
    ensures
      var x, h := s.conn[fd], After(s, Data(fd, data)).h;
      && LinesFor(Rooms.Received(s.cs, fd, data).sends, s.conn, y)
         == (if y == x then [Notice(FixedAnswer(UpTo(data, '\0'), RoomOf(s.h, x)).value)] else [])
      && (Present(h, y) <==> Present(s.h, y) && !(y == x && "/quit" <= UpTo(data, '\0')))
      && RoomOf(h, y) == RoomOf(s.h, y) && NameOf(h, y) == NameOf(s.h, y)
  {
    var i := ClientOf(s, fd);
    AnswerSends(s.cs, fd, data);
    LinesForOne(Rooms.Received(s.cs, fd, data).sends[0], s.conn, y);
    AnswerMeaning(s.h, s.conn[fd], data);
    OneMore(s.h, Meaning(s.conn[fd], data), y);
  }

  /* ---- A conversation ---- */

  lemma {:induction false} NothingToStopAt(s: string, c: char)
    requires c !in s
    ensures UpTo(s, c) == s
  {}

  lemma CommandLine(verb: string, arg: string)
    requires |verb| == 6 && '\0' !in verb && '\0' !in arg && '\n' !in arg
    ensures UpTo(verb + arg + "\n", '\0') == verb + arg + "\n"
    ensures UpTo((verb + arg + "\n")[6..], '\n') == arg
  {
    NothingToStopAt(verb + arg + "\n", '\0');
    assert (verb + arg + "\n")[6..] == arg + ['\n'] + "";
    UpToIs(arg, '\n', "");
  }

  lemma NickNames(x: nat, name: string)
    requires |name| < NAME_LEN && '\0' !in name && '\n' !in name
    ensures Meaning(x, "/nick " + name + "\n") == Named(x, name)
  {
    CommandLine("/nick ", name);
  }

  lemma JoinMoves(x: nat, room: string)
    requires |room| < ROOM_LEN && '\0' !in room && '\n' !in room
    ensures Meaning(x, "/join " + room + "\n") == Moved(x, room)
  {
    CommandLine("/join ", room);
    assert ("/join " + room + "\n")[1] == 'j';
  }

  lemma LeaveMoves(x: nat)
    ensures Meaning(x, "/leave\n") == Moved(x, "")
  {
    NothingToStopAt("/leave\n", '\0');
    Verbs("/leave\n");
  }

  ghost predicate Plain(text: string) {
    text != "" && text[0] != '/' && '\0' !in text
  }

  lemma PlainIsSaid(x: nat, text: string)
    requires Plain(text)
    ensures Meaning(x, text) == Said(x, text)
  {
    NothingToStopAt(text, '\0');
  }

  /** The event is a message of this meaning, which does not end its session. */
  ghost predicate Means(conn: map<int, nat>, e: Event, m: Happening) {
    e.Data? && e.fd in conn && Meaning(conn[e.fd], e.data) == m && !m.Closed?
  }

  ghost predicate AllMean(conn: map<int, nat>, events: seq<Event>, story: seq<Happening>) {
    |events| == |story| && forall k :: 0 <= k < |events| ==> Means(conn, events[k], story[k])
  }

  /** What has happened in between; the descriptors are the same. */
  ghost predicate Leads(s: State, t: State, story: seq<Happening>) {
    t.conn == s.conn && t.h == s.h + story
  }

  lemma StayingStep(s: State, e: Event, m: Happening)
    requires Enabled(s, e) && Means(s.conn, e, m)
    ensures Leads(s, After(s, e), [m])
  {}

  lemma LeadsOn(s: State, t: State, u: State, a: seq<Happening>, b: seq<Happening>)
    requires Leads(s, t, a) && Leads(t, u, b)
    ensures Leads(s, u, a + b)
  {}

  lemma AllMeanRest(conn: map<int, nat>, events: seq<Event>, story: seq<Happening>)
    requires AllMean(conn, events, story) && events != []
    ensures Means(conn, events[0], story[0]) && AllMean(conn, events[1..], story[1..])
    ensures story == [story[0]] + story[1..]
  {}

  lemma {:induction false} StayingRun(s: State, events: seq<Event>, story: seq<Happening>)
    requires Possible(s, events) && AllMean(s.conn, events, story)
    ensures Leads(s, Run(s, events), story)
    decreases |events|
  {
    if events != [] {
      var t := After(s, events[0]);
      AllMeanRest(s.conn, events, story);
      StayingStep(s, events[0], story[0]);
      StayingRun(t, events[1..], story[1..]);
      LeadsOn(s, t, Run(t, events[1..]), [story[0]], story[1..]);
    }
  }

  /** Somebody takes a name and a room; somebody else joins that room; the first speaks; the
      other leaves; the first speaks again. */
  function Script(fd: int, gd: int, s: Spoken, more: string): seq<Event> {
    [Data(fd, "/nick " + s.name + "\n"), Data(fd, "/join " + s.room + "\n"), Data(gd, "/join " + s.room + "\n")] +
    [Data(fd, s.text), Data(gd, "/leave\n"), Data(fd, more)]
  }

  function Story(x: nat, y: nat, s: Spoken, more: string): seq<Happening> {
    [Named(x, s.name), Moved(x, s.room), Moved(y, s.room)] + [Said(x, s.text), Moved(y, ""), Said(x, more)]
  }

  /** What can be typed as a name, a room and words. */
  ghost predicate Typable(s: Spoken) {
    && 0 < |s.name| < NAME_LEN && '\0' !in s.name && '\n' !in s.name
    && 0 < |s.room| < ROOM_LEN && '\0' !in s.room && '\n' !in s.room
    && Plain(s.text)
  }

  lemma ThreeMean(conn: map<int, nat>, e1: Event, e2: Event, e3: Event, m1: Happening, m2: Happening, m3: Happening)
    requires Means(conn, e1, m1) && Means(conn, e2, m2) && Means(conn, e3, m3)
    ensures AllMean(conn, [e1, e2, e3], [m1, m2, m3])
  {}

  lemma BothMean(conn: map<int, nat>, e1: seq<Event>, e2: seq<Event>, m1: seq<Happening>, m2: seq<Happening>)
    requires AllMean(conn, e1, m1) && AllMean(conn, e2, m2)
    ensures AllMean(conn, e1 + e2, m1 + m2)
  {}

  lemma ScriptIsStory(conn: map<int, nat>, fd: int, gd: int, s: Spoken, more: string)
    requires fd in conn && gd in conn && Typable(s) && Plain(more)
    ensures AllMean(conn, Script(fd, gd, s, more), Story(conn[fd], conn[gd], s, more))
  {
    var x, y := conn[fd], conn[gd];
    NickNames(x, s.name);
    JoinMoves(x, s.room);
    JoinMoves(y, s.room);
    ThreeMean(conn, Data(fd, "/nick " + s.name + "\n"), Data(fd, "/join " + s.room + "\n"),
              Data(gd, "/join " + s.room + "\n"), Named(x, s.name), Moved(x, s.room), Moved(y, s.room));
    PlainIsSaid(x, s.text);
    LeaveMoves(y);
    PlainIsSaid(x, more);
    ThreeMean(conn, Data(fd, s.text), Data(gd, "/leave\n"), Data(fd, more), Said(x, s.text), Moved(y, ""),
      Said(x, more));
    BothMean(conn,
             [Data(fd, "/nick " + s.name + "\n"), Data(fd, "/join " + s.room + "\n"),
               Data(gd, "/join " + s.room + "\n")],
             [Data(fd, s.text), Data(gd, "/leave\n"), Data(fd, more)],
             [Named(x, s.name), Moved(x, s.room), Moved(y, s.room)], [Said(x, s.text), Moved(y, ""), Said(x, more)]);
  }

  lemma StoryHeard(h: seq<Happening>, x: nat, y: nat, s: Spoken, more: string)
    requires x != y && Present(h, y) && s.room != ""
    ensures Expected(h + Story(x, y, s, more), y) == Expected(h, y) + [ChatText(s.name, s.room, s.text)]
  {
    var h1 := h + [Named(x, s.name)];
    var h2 := h1 + [Moved(x, s.room)];
    var h3 := h2 + [Moved(y, s.room)];
    var h4 := h3 + [Said(x, s.text)];
    var h5 := h4 + [Moved(y, "")];
    assert h + Story(x, y, s, more) == h5 + [Said(x, more)];
    OneMore(h5, Said(x, more), y);
    OneMore(h4, Moved(y, ""), y);
    OneMore(h3, Said(x, s.text), y);
    SetsUp(h, x, y, s);
  }

  lemma SetsUp(h: seq<Happening>, x: nat, y: nat, s: Spoken)
    requires x != y && Present(h, y)
    ensures
      var h3 := h + [Named(x, s.name)] + [Moved(x, s.room)] + [Moved(y, s.room)];
      && NameOf(h3, x) == s.name && RoomOf(h3, x) == s.room && RoomOf(h3, y) == s.room && Present(h3, y)
      && Expected(h3, y) == Expected(h, y)
  {
    var h1 := h + [Named(x, s.name)];
    var h2 := h1 + [Moved(x, s.room)];
    OneMore(h, Named(x, s.name), x);
    OneMore(h1, Moved(x, s.room), x);
    OneMore(h2, Moved(y, s.room), x);
    OneMore(h, Named(x, s.name), y);
    OneMore(h1, Moved(x, s.room), y);
    OneMore(h2, Moved(y, s.room), y);
  }

  /** Whatever happened before, the other hears exactly one line more, and it reads as the name,
      the room and the words that the first one typed. */
  lemma Conversation(events: seq<Event>, fd: int, gd: int, s: Spoken, more: string)
    requires Possible(EMPTY, events) && Possible(Run(EMPTY, events), Script(fd, gd, s, more))
    requires fd != gd && fd in Run(EMPTY, events).conn && gd in Run(EMPTY, events).conn
    requires Typable(s) && Plain(more) && Legible(s)
    ensures
      var before, after := Run(EMPTY, events), Run(Run(EMPTY, events), Script(fd, gd, s, more));
      var y := before.conn[gd];
      && after.conn == before.conn && y < |before.inbox| && y < |after.inbox|
      && exists line :: Read(line) == Some(s) && Chats(after.inbox[y]) == Chats(before.inbox[y]) + [line]
  {
    var before, script := Run(EMPTY, events), Script(fd, gd, s, more);
    EmptyInv();
    RunKeepsInv(EMPTY, events);
    RunKeepsInv(before, script);
    ScriptIsStory(before.conn, fd, gd, s, more);
    var x, y := before.conn[fd], before.conn[gd];
    StayingRun(before, script, Story(x, y, s, more));
    assert IsOpen(before.conn, y);
    StoryHeard(before.h, x, y, s, more);
    ReadsBack(s);
    assert Read(ChatText(s.name, s.room, s.text)) == Some(s);
  }
}
