/** Which of the room server's sends carry a NUL: exactly the replies to leaving a room. */
module RoomNuls {
  import opened Rooms
  import opened RoomRuns

  /** What one event makes the server send. */
  function SendsOf(s: State, e: Event): seq<Send> {
    match e
    case Connect(fd) => Arrived(s.cs, fd).sends
    case Data(fd, data) => Received(s.cs, fd, data).sends
    case HangUp(fd) => HungUp(s.cs, fd).sends
  }

  ghost predicate NoNul(text: string) { '\0' !in text }

  ghost predicate Clean(cs: seq<Client>) {
    forall i :: 0 <= i < |cs| ==> NoNul(cs[i].name) && NoNul(cs[i].room)
  }

  ghost predicate CleanSends(sends: seq<Send>) {
    forall k :: 0 <= k < |sends| ==> NoNul(sends[k].line.text)
  }

  /** The text is a /leave and comes from a client that is in a room. */
  predicate Departs(cs: seq<Client>, fd: int, text: string) {
    "/leave" <= text && Find(cs, fd) != -1 && cs[Find(cs, fd)].room != ""
  }

  /* ---- Texts ---- */

  lemma GreetingsAreClean()
    ensures NoNul(WELCOME) && NoNul(JOIN_FIRST)
  {}

  lemma WrappedIsClean(before: string, text: string, after: string)
    requires NoNul(before) && NoNul(text) && NoNul(after)
    ensures NoNul(Clip(before + text + after, BUF_SIZE))
  {}

  lemma {:induction false} UpToIsClean(s: string, c: char)
    ensures forall d <- UpTo(s, c) :: d in s && d != c
  {
    if s != "" && s[0] != c {
      UpToIsClean(s[1..], c);
    }
  }

  /** An argument of a command, cut at the end of its line. */
  lemma ArgumentIsClean(cmd: string, size: nat)
    requires NoNul(cmd) && |cmd| >= 6 && size > 0
    ensures NoNul(UpTo(cmd[6..], '\n')) && NoNul(Clip(UpTo(cmd[6..], '\n'), size))
  {
    UpToIsClean(cmd[6..], '\n');
  }

  lemma {:induction false} ToRoomText(cs: seq<Client>, room: string, line: Line, exclude: int)
    ensures forall k :: 0 <= k < |ToRoom(cs, room, line, exclude)| ==> ToRoom(cs, room, line, exclude)[k].line == line
  {
    if cs != [] {
      ToRoomText(cs[..|cs| - 1], room, line, exclude);
    }
  }

  lemma {:induction false} ListingIsClean(cs: seq<Client>, room: string)
    requires Clean(cs)
    ensures NoNul(Listing(cs, room))
  {
    if cs != [] {
      ListingIsClean(cs[..|cs| - 1], room);
    }
  }

  lemma ChatIsClean(name: string, room: string, text: string)
    requires NoNul(name) && NoNul(room) && NoNul(text)
    ensures NoNul(ChatText(name, room, text))
  {}

  /* ---- Commands ---- */

  /** Names and rooms come from received text, which is a C string. */
  lemma EntriesStayClean(cs: seq<Client>, fd: int, cmd: string)
    requires Clean(cs) && NoNul(cmd)
    ensures Clean(Command(cs, fd, cmd).cs)
  {
    if "/nick " <= cmd {
      ArgumentIsClean(cmd, NAME_LEN);
    } else if "/join " <= cmd {
      ArgumentIsClean(cmd, ROOM_LEN);
    }
  }

  lemma NickIsClean(cs: seq<Client>, fd: int, cmd: string)
    requires NoNul(cmd) && "/nick " <= cmd
    ensures CleanSends(Command(cs, fd, cmd).sends)
  {
    ArgumentIsClean(cmd, NAME_LEN);
    WrappedIsClean("[Server] Nickname set to '", Clip(UpTo(cmd[6..], '\n'), NAME_LEN), "'\n");
  }

  lemma JoinIsClean(cs: seq<Client>, fd: int, cmd: string)
    requires Clean(cs) && NoNul(cmd) && "/join " <= cmd && Find(cs, fd) != -1
    ensures CleanSends(Command(cs, fd, cmd).sends)
  {
    var i, room := Find(cs, fd), UpTo(cmd[6..], '\n');
    assert !("/nick " <= cmd) by { assert cmd[1] == 'j'; }
    ArgumentIsClean(cmd, ROOM_LEN);
    WrappedIsClean("[Server] Joined room '", room, "'\n");
    WrappedIsClean("[Server] ", cs[i].name, " joined the room.\n");
    var cs' := cs[i := cs[i].(room := Clip(room, ROOM_LEN))];
    var line := Notice(Clip("[Server] " + cs[i].name + " joined the room.\n", BUF_SIZE));
    ToRoomText(cs', room, line, fd);
    assert Command(cs, fd, cmd).sends
        == [Send(fd, Notice(Clip("[Server] Joined room '" + room + "'\n", BUF_SIZE)))] + ToRoom(cs', room, line, fd);
  }

  lemma FixedAnswersAreClean()
    ensures NoNul("[Server] You are not in any room.\n") && NoNul("[Server] Bye!\n") &&
      NoNul("[Server] Unknown command.\n")
  {}

  lemma OtherAnswersAreClean(cs: seq<Client>, fd: int, cmd: string)
    requires Clean(cs) && !Departs(cs, fd, cmd) && !("/nick " <= cmd) && !("/join " <= cmd) && Find(cs, fd) != -1
    ensures CleanSends(Command(cs, fd, cmd).sends)
  {
    FixedAnswersAreClean();
    var listing := Listing(cs, cs[Find(cs, fd)].room);
    ListingIsClean(cs, cs[Find(cs, fd)].room);
    var sends := Command(cs, fd, cmd).sends;
    assert sends == [Send(fd, Notice(
      if "/leave" <= cmd then "[Server] You are not in any room.\n"
      else if "/list" <= cmd then listing
      else if "/quit" <= cmd then "[Server] Bye!\n"
      else "[Server] Unknown command.\n"))];
  }

  /** No answer carries a NUL, except when somebody leaves a room. */
  lemma AnswersAreClean(cs: seq<Client>, fd: int, cmd: string)
    requires Clean(cs) && NoNul(cmd) && !Departs(cs, fd, cmd)
    ensures CleanSends(Command(cs, fd, cmd).sends)
  {
    if Find(cs, fd) != -1 {
      if "/nick " <= cmd {
        NickIsClean(cs, fd, cmd);
      } else if "/join " <= cmd {
        JoinIsClean(cs, fd, cmd);
      } else {
        OtherAnswersAreClean(cs, fd, cmd);
      }
    }
  }

  /** The reply to a departure is the last send of its event: 29 bytes, a NUL behind the text. */
  lemma LeaveSendsNul(cs: seq<Client>, fd: int, cmd: string)
    requires Clean(cs) && Departs(cs, fd, cmd)
    ensures
      var sends := Command(cs, fd, cmd).sends;
      && |sends| > 0 && sends[|sends| - 1] == Send(fd, Notice("[Server] You left the room.\n\0"))
      && CleanSends(sends[..|sends| - 1])
  {
    var self := cs[Find(cs, fd)];
    assert !("/nick " <= cmd) && !("/join " <= cmd) by { assert cmd[1] == 'l'; }
    WrappedIsClean("[Server] ", self.name + " left room '" + self.room, "'\n");
    var text := "[Server] " + self.name + " left room '" + self.room + "'\n";
    assert text == "[Server] " + (self.name + " left room '" + self.room) + "'\n";
    ToRoomText(cs, self.room, Notice(Clip(text, BUF_SIZE)), fd);
    assert Command(cs, fd, cmd).sends
        == ToRoom(cs, self.room, Notice(Clip(text, BUF_SIZE)), fd) +
          [Send(fd, Notice("[Server] You left the room.\n\0"))];
  }

  lemma ReplyHasNul()
    ensures !NoNul("[Server] You left the room.\n\0") && |"[Server] You left the room.\n\0"| == 29
  {
    assert "[Server] You left the room.\n\0"[28] == '\0';
  }

  /* ---- Events and runs ---- */

  lemma TextIsClean(cs: seq<Client>, fd: int, text: string)
    requires Clean(cs) && NoNul(text)
    ensures CleanSends(Text(cs, fd, text).sends) && Text(cs, fd, text).cs == cs
  {
    var i := Find(cs, fd);
    if i != -1 && cs[i].room != "" {
      ChatIsClean(cs[i].name, cs[i].room, text);
      ToRoomText(cs, cs[i].room, Chat(ChatText(cs[i].name, cs[i].room, text)), fd);
    } else {
      GreetingsAreClean();
    }
  }

  lemma EventStaysClean(s: State, e: Event)
    requires Clean(s.cs) && Enabled(s, e)
    ensures Clean(After(s, e).cs)
  {
    if e.Data? {
      UpToIsClean(e.data, '\0');
      EntriesStayClean(s.cs, e.fd, UpTo(e.data, '\0'));
      TextIsClean(s.cs, e.fd, UpTo(e.data, '\0'));
    }
  }

  lemma EventIsClean(s: State, e: Event)
    requires Clean(s.cs) && Enabled(s, e) && (e.Data? ==> !Departs(s.cs, e.fd, UpTo(e.data, '\0')))
    ensures CleanSends(SendsOf(s, e))
  {
    match e
    case Connect(_) => GreetingsAreClean();
    case HangUp(_) =>
    case Data(fd, data) =>
      var text := UpTo(data, '\0');
      UpToIsClean(data, '\0');
      AnswersAreClean(s.cs, fd, text);
      TextIsClean(s.cs, fd, text);
  }

  lemma {:induction false} RunIsClean(s: State, events: seq<Event>)
    requires Clean(s.cs) && Possible(s, events)
    ensures Clean(Run(s, events).cs)
    decreases |events|
  {
    if events != [] {
      EventStaysClean(s, events[0]);
      RunIsClean(After(s, events[0]), events[1..]);
    }
  }

  /** The event is a /leave from a session that is in a room. */
  predicate Leaves(s: State, e: Event)
    requires Enabled(s, e)
  {
    e.Data? && "/leave" <= UpTo(e.data, '\0') && RoomOf(s.h, s.conn[e.fd]) != ""
  }

  lemma NulInState(s: State, e: Event)
    requires Clean(s.cs) && Enabled(s, e) && (e.Data? ==> (Leaves(s, e) <==> Departs(s.cs, e.fd, UpTo(e.data, '\0'))))
    ensures
      var sends := SendsOf(s, e);
      && (Leaves(s, e) ==> sends != [] && sends[|sends| - 1] == Send(e.fd, Notice("[Server] You left the room.\n\0")))
      && forall k :: 0 <= k < |sends| ==> ('\0' in sends[k].line.text <==> Leaves(s, e) && k == |sends| - 1)
  {
    var sends := SendsOf(s, e);
    if Leaves(s, e) {
      LeaveSendsNul(s.cs, e.fd, UpTo(e.data, '\0'));
      ReplyHasNul();
      forall k | 0 <= k < |sends| - 1 ensures NoNul(sends[k].line.text) {
        assert sends[..|sends| - 1][k] == sends[k];
      }
    } else {
      EventIsClean(s, e);
    }
  }

  /** In any run an event sends a line with a NUL in it if and only if it is a /leave from a
      session that is in a room; then that line is the reply to it, and no other has one. */
  lemma NulExactlyOnLeaving(events: seq<Event>, e: Event)
    requires Possible(EMPTY, events) && Enabled(Run(EMPTY, events), e)
    ensures
      var s := Run(EMPTY, events);
      var sends := SendsOf(s, e);
      && (Leaves(s, e) ==> sends != [] && sends[|sends| - 1] == Send(e.fd, Notice("[Server] You left the room.\n\0")))
      && forall k :: 0 <= k < |sends| ==> ('\0' in sends[k].line.text <==> Leaves(s, e) && k == |sends| - 1)
  {
    RunIsClean(EMPTY, events);
    if e.Data? {
      ArrayIsTheMap(events, e.fd);
    }
    NulInState(Run(EMPTY, events), e);
  }

  /** The plainest case: somebody in a room sends "/leave". */
  lemma LeaveInARoom(fd: int, name: string, room: string)
    requires room != ""
    ensures Command([Client(fd, name, room)], fd, "/leave").sends ==
      [Send(fd, Notice("[Server] You left the room.\n\0"))]
  {
    var cs := [Client(fd, name, room)];
    assert !("/nick " <= "/leave") && !("/join " <= "/leave") by { assert "/leave"[1] == 'l'; }
    assert cs[..0] == [] && Find(cs, fd) == 0;
    var line := Notice(Clip("[Server] " + name + " left room '" + room + "'\n", BUF_SIZE));
    assert ToRoom([], room, line, fd) == [];
    assert ToRoom(cs, room, line, fd) == [];
    assert Command(cs, fd, "/leave").sends ==
      ToRoom(cs, room, line, fd) + [Send(fd, Notice("[Server] You left the room.\n\0"))];
  }
}
