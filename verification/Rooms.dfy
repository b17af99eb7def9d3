/** The room chat server: a dense array of clients, each with a descriptor, a name and a room. */
module Rooms {
  const NAME_LEN := 32
  const ROOM_LEN := 32
  const BUF_SIZE := 1024

  const WELCOME := "[Server] Welcome! Use " + "/nick, /join, /list, /quit.\n"
  const JOIN_FIRST := "[Server] Join a room first " + "using /join <room>\n"

  datatype Client = Client(fd: int, name: string, room: string)

  /** The bytes of one send(). Chat lines and the server's own notices look alike on the wire;
      the constructor records which of the two statements wrote them. */
  datatype Line = Chat(text: string) | Notice(text: string)

  datatype Send = Send(fd: int, line: Line)

  /* ---- C strings ---- */

  function UpTo(s: string, c: char): (r: string)
    ensures r <= s && c !in r && (|r| < |s| ==> s[|r|] == c)
  {
    if s == "" || s[0] == c then "" else [s[0]] + UpTo(s[1..], c)
  }

  /** snprintf into a buffer of `size` characters, the terminating NUL included. */
  function Clip(s: string, size: nat): (r: string)
    requires size > 0
    ensures r <= s && |r| == if |s| < size then |s| else size - 1
  {
    if |s| < size then s else s[..size - 1]
  }

  /* ---- What the array operations compute ---- */

  function Find(cs: seq<Client>, fd: int): (i: int)
    ensures -1 <= i < |cs|
    ensures i >= 0 ==> cs[i].fd == fd && forall k :: 0 <= k < i ==> cs[k].fd != fd
    ensures i == -1 ==> forall k :: 0 <= k < |cs| ==> cs[k].fd != fd
  {
    if cs == [] then -1
    else if cs[0].fd == fd then 0
    else
      var i := Find(cs[1..], fd);
      if i == -1 then -1 else i + 1
  }

  /** One send to every client in `room` except `exclude`, in array order. */
  function ToRoom(cs: seq<Client>, room: string, line: Line, exclude: int): seq<Send> {
    if cs == [] then []
    else
      ToRoom(cs[..|cs| - 1], room, line, exclude) +
      (var c := cs[|cs| - 1]; if c.room == room && c.fd != exclude then [Send(c.fd, line)] else [])
  }

  function SwapRemove(cs: seq<Client>, fd: int): seq<Client> {
    var i := Find(cs, fd);
    if i == -1 then cs else cs[i := cs[|cs| - 1]][..|cs| - 1]
  }

  /** The reply to /list: everybody whose room equals the asker's, the empty room included. */
  function Listing(cs: seq<Client>, room: string): string {
    if cs == [] then "[Server] Users in your room:\n"
    else
      Listing(cs[..|cs| - 1], room) +
      (var c := cs[|cs| - 1];
       if c.room == room then " - " + (if c.name != "" then c.name else "(unnamed)") + "\n" else "")
  }

  function ChatText(name: string, room: string, text: string): string {
    Clip("[" + (if name != "" then name else "anon") + ":" + room + "] " + text, BUF_SIZE)
  }

  datatype Outcome = Outcome(cs: seq<Client>, sends: seq<Send>, closes: bool)

  function Command(cs: seq<Client>, fd: int, cmd: string): Outcome {
    var i := Find(cs, fd);
    if i == -1 then Outcome(cs, [], false)
    else
      var self := cs[i];
      if "/nick " <= cmd then
        var name := Clip(UpTo(cmd[6..], '\n'), NAME_LEN);
        Outcome(cs[i := self.(name := name)],
                [Send(fd, Notice(Clip("[Server] Nickname set to '" + name + "'\n", BUF_SIZE)))], false)
      else if "/join " <= cmd then
        var room := UpTo(cmd[6..], '\n');
        var cs' := cs[i := self.(room := Clip(room, ROOM_LEN))];
        Outcome(cs',
                [Send(fd, Notice(Clip("[Server] Joined room '" + room + "'\n", BUF_SIZE)))] +
                ToRoom(cs', room, Notice(Clip("[Server] " + self.name + " joined the room.\n", BUF_SIZE)), fd), false)
      else if "/leave" <= cmd then
        if self.room != "" then
          // the count given to send() is 29: one more than the text, so its NUL goes out too
          Outcome(cs[i := self.(room := "")],
                  ToRoom(cs, self.room, Notice(Clip("[Server] " + self.name + " left room '" + self.room + "'\n",
                    BUF_SIZE)), fd) +
                  [Send(fd, Notice("[Server] You left the room.\n\0"))], false)
        else Outcome(cs, [Send(fd, Notice("[Server] You are not in any room.\n"))], false)
      else if "/list" <= cmd then Outcome(cs, [Send(fd, Notice(Listing(cs, self.room)))], false)
      else if "/quit" <= cmd then Outcome(SwapRemove(cs, fd), [Send(fd, Notice("[Server] Bye!\n"))], true)
      else Outcome(cs, [Send(fd, Notice("[Server] Unknown command.\n"))], false)
  }

  function Text(cs: seq<Client>, fd: int, text: string): Outcome {
    var i := Find(cs, fd);
    if i == -1 || cs[i].room == "" then Outcome(cs, [Send(fd, Notice(JOIN_FIRST))], false)
    else Outcome(cs, ToRoom(cs, cs[i].room, Chat(ChatText(cs[i].name, cs[i].room, text)), fd), false)
  }

  /** recv() returned `data`; the server goes on with it as a C string. */
  function Received(cs: seq<Client>, fd: int, data: string): Outcome {
    var text := UpTo(data, '\0');
    if text != "" && text[0] == '/' then Command(cs, fd, text) else Text(cs, fd, text)
  }

  function Arrived(cs: seq<Client>, fd: int): Outcome {
    Outcome(cs + [Client(fd, "", "")], [Send(fd, Notice(WELCOME))], false)
  }

  function HungUp(cs: seq<Client>, fd: int): Outcome {
    Outcome(SwapRemove(cs, fd), [], Find(cs, fd) != -1)
  }

  /* ---- The server itself ---- */

  /** clients[MAX_CLIENTS], client_count, and what send() and close() were called with. */
  class Server {
    const clients: array<Client>
    var count: nat
    var sent: seq<Send>
    var closed: seq<int>

    ghost predicate Valid()
      reads this
    {
      count <= clients.Length
    }

    ghost function View(): seq<Client>
      requires Valid()
      reads this, clients
    {
      clients[..count]
    }

    constructor (capacity: nat)
      ensures Valid() && View() == [] && sent == [] && closed == [] && clients.Length == capacity
    {
      clients := new Client[capacity](_ => Client(0, "", ""));
      count, sent, closed := 0, [], [];
    }

    method FindClientByFd(fd: int) returns (i: int)
      requires Valid()
      ensures i == Find(View(), fd)
    {
      for k := 0 to count
        invariant forall j :: 0 <= j < k ==> clients[j].fd != fd
      {
        if clients[k].fd == fd {
          return k;
        }
      }
      return -1;
    }

    method BroadcastRoom(room: string, line: Line, exclude: int)
      requires Valid()
      modifies this`sent
      ensures sent == old(sent) + ToRoom(View(), room, line, exclude)
    {
      for i := 0 to count
        invariant sent == old(sent) + ToRoom(View()[..i], room, line, exclude)
      {
        assert View()[..i + 1][..i] == View()[..i];
        if clients[i].room == room && clients[i].fd != exclude {
          sent := sent + [Send(clients[i].fd, line)];
        }
      }
      assert View()[..count] == View();
    }

    method RemoveClient(fd: int)
      requires Valid()
      modifies this`count, this`closed, clients
      ensures Valid() && View() == SwapRemove(old(View()), fd)
      ensures closed == if Find(old(View()), fd) != -1 then old(closed) + [fd] else old(closed)
    {
      for i := 0 to count
        invariant count == old(count) && View() == old(View()) && closed == old(closed)
        invariant forall j :: 0 <= j < i ==> clients[j].fd != fd
      {
        if clients[i].fd == fd {
          assert Find(View(), fd) == i;
          closed := closed + [fd];
          clients[i] := clients[count - 1];
          count := count - 1;
          assert View() == SwapRemove(old(View()), fd);
          return;
        }
      }
      assert Find(View(), fd) == -1;
    }

    method List(room: string) returns (reply: string)
      requires Valid()
      ensures reply == Listing(View(), room)
    {
      reply := "[Server] Users in your room:\n";
      for i := 0 to count
        invariant reply == Listing(View()[..i], room)
      {
        assert View()[..i + 1][..i] == View()[..i];
        if clients[i].room == room {
          reply := reply + (" - " + (if clients[i].name != "" then clients[i].name else "(unnamed)") + "\n");
        }
      }
      assert View()[..count] == View();
    }

    method SendTo(fd: int, text: string)
      modifies this`sent
      ensures sent == old(sent) + [Send(fd, Notice(text))]
    {
      sent := sent + [Send(fd, Notice(text))];
    }

    method Join(i: nat, room: string)
      requires Valid() && i < count
      modifies this`sent, clients
      ensures View() == old(View())[i := old(View())[i].(room := Clip(room, ROOM_LEN))]
      ensures
        var self := old(View())[i];
        sent == old(sent) + ([Send(self.fd, Notice(Clip("[Server] Joined room '" + room + "'\n", BUF_SIZE)))] +
          ToRoom(View(), room, Notice(Clip("[Server] " + self.name + " joined the room.\n", BUF_SIZE)), self.fd))
    {
      var self := clients[i];
      clients[i] := self.(room := Clip(room, ROOM_LEN));
      SendTo(self.fd, Clip("[Server] Joined room '" + room + "'\n", BUF_SIZE));
      BroadcastRoom(room, Notice(Clip("[Server] " + self.name + " joined the room.\n", BUF_SIZE)), self.fd);
    }

    method Leave(i: nat)
      requires Valid() && i < count
      modifies this`sent, clients
      ensures View() == old(View())[i := old(View())[i].(room := "")]
      ensures
        var self := old(View())[i];
        sent == old(sent) +
          (ToRoom(old(View()), self.room,
            Notice(Clip("[Server] " + self.name + " left room '" + self.room + "'\n", BUF_SIZE)), self.fd) +
           [Send(self.fd, Notice("[Server] You left the room.\n\0"))])
    {
      var self := clients[i];
      BroadcastRoom(self.room, Notice(Clip("[Server] " + self.name + " left room '" + self.room + "'\n", BUF_SIZE)),
        self.fd);
      clients[i] := self.(room := "");
      SendTo(self.fd, "[Server] You left the room.\n\0");
    }

    method HandleCommand(fd: int, cmd: string)
      requires Valid()
      modifies this, clients
      ensures Valid()
      ensures
        var o := Command(old(View()), fd, cmd);
        View() == o.cs && sent == old(sent) + o.sends && closed == if o.closes then old(closed) + [fd] else old(closed)
    {
      var i := FindClientByFd(fd);
      if i == -1 {
        return;
      }
      var self := clients[i];
      if "/nick " <= cmd {
        var name := Clip(UpTo(cmd[6..], '\n'), NAME_LEN);
        clients[i] := self.(name := name);
        SendTo(fd, Clip("[Server] Nickname set to '" + name + "'\n", BUF_SIZE));
      } else if "/join " <= cmd {
        Join(i, UpTo(cmd[6..], '\n'));
      } else if "/leave" <= cmd {
        if self.room != "" {
          Leave(i);
        } else {
          SendTo(fd, "[Server] You are not in any room.\n");
        }
      } else if "/list" <= cmd {
        var reply := List(self.room);
        SendTo(fd, reply);
      } else if "/quit" <= cmd {
        SendTo(fd, "[Server] Bye!\n");
        RemoveClient(fd);
      } else {
        SendTo(fd, "[Server] Unknown command.\n");
      }
    }

    /** The body of the event loop for a client's descriptor; `data` empty stands for n <= 0. */
    method HandleReadable(fd: int, data: string)
      requires Valid()
      modifies this, clients
      ensures Valid()
      ensures
        var o := if data == "" then HungUp(old(View()), fd) else Received(old(View()), fd, data);
        View() == o.cs && sent == old(sent) + o.sends && closed == if o.closes then old(closed) + [fd] else old(closed)
    {
      if data == "" {
        RemoveClient(fd);
        return;
      }
      var buf := UpTo(data, '\0');
      if buf != "" && buf[0] == '/' {
        HandleCommand(fd, buf);
      } else {
        var i := FindClientByFd(fd);
        if i == -1 || clients[i].room == "" {
          SendTo(fd, JOIN_FIRST);
          return;
        }
        var sender := clients[i];
        BroadcastRoom(sender.room, Chat(ChatText(sender.name, sender.room, buf)), fd);
      }
    }

    method HandleAccept(fd: int)
      requires Valid() && count < clients.Length
      modifies this, clients
      ensures Valid()
      ensures
        var o := Arrived(old(View()), fd);
        View() == o.cs && sent == old(sent) + o.sends && closed == old(closed)
    {
      clients[count] := Client(fd, "", "");
      count := count + 1;
      SendTo(fd, WELCOME);
    }
  }
}
