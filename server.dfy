/** The server object of the chat relay: the three registries it mutates in
    place, the outbox that stands for its `send` calls, and one method per
    command.  Each method performs the step the Protocol module defines, and
    the object invariant is Protocol.Inv. */
module Chat {
  import opened Text
  import opened Protocol
  import Properties

  class Server {
    var clients: seq<Client>
    var nicknames: seq<string>
    var roomOrder: seq<string>
    var rooms: map<string, seq<Client>>
    var closed: set<Client>
    var nextId: nat
    /** Every `send` so far, in order. */
    var outbox: seq<Send>

    function Abstract(): State
      reads this
    {
      State(clients, nicknames, roomOrder, rooms, closed, nextId)
    }

    ghost predicate Valid()
      reads this
    {
      Inv(Abstract())
    }

    /** The method performed step `e`: the registries are `e.st`, the sends
        `e.sent` were appended to the outbox, and it returned `e.outcome`. */
    twostate predicate Performed(e: Effect, outcome: Outcome)
      reads this
    {
      Abstract() == e.st && outbox == old(outbox) + e.sent && outcome == e.outcome
    }

    constructor ()
      ensures Valid() && Abstract() == Initial && outbox == []
    {
      clients, nicknames, roomOrder, rooms, closed, nextId := [], [], [], map[], {}, 0;
      outbox := [];
    }

    /** `broadcast(message, thisClient)`: one send to each other client. */
    method Broadcast(message: string, thisClient: Client)
      modifies this`outbox
      ensures outbox == old(outbox) + BroadcastSends(clients, thisClient, message)
    {
      var i := 0;
      while i < |clients|
        invariant 0 <= i <= |clients|
        invariant outbox == old(outbox) + Deliver(Others(clients[..i], thisClient), message)
      {
        OthersSnoc(clients, i, thisClient);
        if clients[i] != thisClient {
          DeliverSnoc(Others(clients[..i], thisClient), clients[i], message);
          outbox := outbox + [(clients[i], message)];
        }
        i := i + 1;
      }
      assert clients[..i] == clients;
    }

    /** Accept step for a client whose first line was `nickname`. */
    method Accept(nickname: string, peer: string) returns (c: Client)
      requires Valid()
      modifies this
      ensures Valid()
      ensures c == NewClient(old(Abstract()), peer)
      ensures Performed(AcceptStep(old(Abstract()), nickname, peer), Continue)
    {
      Properties.AcceptPreservesInv(Abstract(), nickname, peer);
      c := Client(nextId, peer);
      nextId := nextId + 1;
      nicknames := nicknames + [nickname];
      clients := clients + [c];
      outbox := outbox + [(c, "Connected to the server")];
      Broadcast("Server: " + nickname + " is online!", c);
    }

    /** The /members listing loop; None where `self.clients[i-1]` raises. */
    method MembersListing() returns (r: Option<string>)
      ensures r == MembersText(nicknames, clients)
    {
      var names := "";
      var i := 0;
      while i < |nicknames|
        invariant 0 <= i <= |nicknames| && i <= |clients|
        invariant names == Names(nicknames, clients, i)
      {
        if i >= |clients| {
          return None;
        }
        names := names + Entry(i + 1, nicknames[i], clients[i]);
        i := i + 1;
      }
      r := Some(MembersHeading + " " + names + "\n");
    }

    /** The /get_rooms accumulator loop over the rooms in insertion order. */
    method RoomListing() returns (r: string)
      ensures r == RoomNames(roomOrder)
    {
      r := "";
      var i := 0;
      while i < |roomOrder|
        invariant 0 <= i <= |roomOrder|
        invariant r == RoomNames(roomOrder[..i])
      {
        assert roomOrder[..i + 1][..i] == roomOrder[..i];
        r := r + roomOrder[i] + "  ";
        i := i + 1;
      }
      assert roomOrder[..i] == roomOrder;
    }

    method Members(s: Session) returns (outcome: Outcome)
      modifies this`outbox
      ensures Performed(MembersStep(old(Abstract()), s), outcome)
    {
      var listing := MembersListing();
      match listing
      case None =>
        outcome := Faulted(MemberIndexOutOfRange);
      case Some(text) =>
        outbox := outbox + [(s.client, text)];
        outcome := Continue;
    }

    method Hide(s: Session, nickname: string) returns (outcome: Outcome)
      requires Valid()
      modifies this
      ensures Valid()
      ensures Performed(HideStep(old(Abstract()), s, nickname), outcome)
    {
      outbox := outbox + [(s.client, "Enter nickname to hide")];
      if nickname !in nicknames {
        return Faulted(NicknameNotFound);
      }
      nicknames := Remove(nicknames, nickname);
      outbox := outbox + [(s.client, "You are now invisible!")];
      outcome := Continue;
    }

    method Reveal(s: Session, nickname: string) returns (outcome: Outcome)
      requires Valid()
      modifies this
      ensures Valid()
      ensures Performed(RevealStep(old(Abstract()), s, nickname), outcome)
    {
      outbox := outbox + [(s.client, "Enter nickname to show")];
      if nickname !in nicknames {
        nicknames := nicknames + [nickname];
        outbox := outbox + [(s.client, "You are now visible to other users!")];
      }
      outcome := Continue;
    }

    method BroadcastCommand(s: Session, message: string) returns (outcome: Outcome)
      modifies this`outbox
      ensures Performed(BroadcastStep(old(Abstract()), s, message), outcome)
    {
      outbox := outbox + [(s.client, "Enter your message: ")];
      Broadcast(s.nick + ": " + message, s.client);
      outbox := outbox + [(s.client, "Message broadcasted!")];
      outcome := Continue;
    }

    method CreateRoom(s: Session, line: string) returns (outcome: Outcome)
      requires Valid()
      modifies this
      ensures Valid()
      ensures Performed(CreateRoomStep(old(Abstract()), s, line), outcome)
    {
      Properties.CreateRoomPreservesInv(Abstract(), s, line);
      var parts := Split(line, ' ');
      if |parts| < 2 {
        return Faulted(MissingArgument);
      }
      var name := parts[1];
      if name !in rooms {
        rooms := rooms[name := [s.client]];
        roomOrder := roomOrder + [name];
        outbox := outbox + [(s.client, "Room " + name + " created successfully!")];
      } else {
        outbox := outbox + [(s.client, "Room " + name + " already exists")];
      }
      outcome := Continue;
    }

    method JoinRoom(s: Session, line: string) returns (outcome: Outcome)
      requires Valid()
      modifies this
      ensures Valid()
      ensures Performed(JoinStep(old(Abstract()), s, line), outcome)
    {
      Properties.JoinPreservesInv(Abstract(), s, line);
      var parts := Split(line, ' ');
      if |parts| < 2 {
        return Faulted(MissingArgument);
      }
      var name := parts[1];
      if name in rooms {
        if s.client !in rooms[name] {
          rooms := rooms[name := rooms[name] + [s.client]];
          outbox := outbox + [(s.client, "Joined room " + name + " successfully!")];
        } else {
          outbox := outbox + [(s.client, "You are already a member of this room " + name + ".")];
        }
      } else {
        outbox := outbox + [(s.client, "Room " + name + " does not exist!")];
      }
      outcome := Continue;
    }

    /** `/room <name> <words>`: the words after the name, rejoined, to every
        member in turn; a send to a closed socket raises and stops the loop. */
    method SendToRoom(s: Session, line: string) returns (outcome: Outcome)
      modifies this`outbox
      ensures Performed(RoomStep(old(Abstract()), s, line), outcome)
    {
      var parts := Split(line, ' ');
      if |parts| < 2 {
        return Faulted(MissingArgument);
      }
      var name := parts[1];
      var text := Text.Join(" ", parts[2..]);
      if name in rooms {
        var members := rooms[name];
        var i := 0;
        while i < |members|
          invariant 0 <= i <= |members|
          invariant forall j :: 0 <= j < i ==> members[j] !in closed
          invariant outbox == old(outbox) + Deliver(members[..i], text)
        {
          if members[i] in closed {
            return Faulted(SocketClosed);
          }
          outbox := outbox + [(members[i], text)];
          i := i + 1;
        }
        assert members[..i] == members;
        outcome := Continue;
      } else {
        outbox := outbox + [(s.client, "Room does not exist")];
        outcome := Continue;
      }
    }

    method GetRooms(s: Session) returns (outcome: Outcome)
      modifies this`outbox
      ensures Performed(GetRoomsStep(old(Abstract()), s), outcome)
    {
      if |rooms| == 0 {
        outbox := outbox + [(s.client, "No rooms available")];
      } else {
        var names := RoomListing();
        outbox := outbox + [(s.client, "Rooms:\n" + names)];
      }
      outcome := Continue;
    }

    method LeaveRoom(s: Session, line: string) returns (outcome: Outcome)
      requires Valid()
      modifies this
      ensures Valid()
      ensures Performed(LeaveStep(old(Abstract()), s, line), outcome)
    {
      Properties.LeavePreservesInv(Abstract(), s, line);
      var parts := Split(line, ' ');
      if |parts| < 2 {
        return Faulted(MissingArgument);
      }
      var name := parts[1];
      if name !in rooms {
        return Faulted(NoSuchRoom);
      }
      var members := rooms[name];
      if s.client in members {
        rooms := rooms[name := Remove(members, s.client)];
        outbox := outbox + [(s.client, "Left room " + name)];
      } else {
        outbox := outbox + [(s.client, "You are not a member of room " + name)];
      }
      outcome := Continue;
    }

    /** `self.clients.remove(client)`, then `self.nicknames.remove(nick)`, then
        `close()` when `closing`. */
    method Teardown(s: Session, closing: bool) returns (outcome: Outcome)
      requires Valid()
      modifies this
      ensures Valid()
      ensures Performed(Deregister(old(Abstract()), s, [], closing), outcome)
    {
      Properties.DeregisterPreservesInv(Abstract(), s, [], closing);
      if s.client !in clients {
        return Faulted(ClientNotFound);
      }
      clients := Remove(clients, s.client);
      if s.nick !in nicknames {
        return Faulted(NicknameNotFound);
      }
      nicknames := Remove(nicknames, s.nick);
      if closing {
        closed := closed + {s.client};
      }
      outcome := Ended;
    }

    method Quit(s: Session) returns (outcome: Outcome)
      requires Valid()
      modifies this
      ensures Valid()
      ensures Performed(QuitStep(old(Abstract()), s), outcome)
    {
      ghost var st := Abstract();
      DeregisterSent(st, s, [(s.client, "Server: Bye")] + BroadcastSends(clients, s.client, s.nick + " is offline"), true);
      outbox := outbox + [(s.client, "Server: Bye")];
      Broadcast(s.nick + " is offline", s.client);
      outcome := Teardown(s, true);
    }

    /** The `ConnectionResetError` handler: the session's peer went away. */
    method ConnectionReset(s: Session) returns (outcome: Outcome)
      requires Valid()
      modifies this
      ensures Valid()
      ensures Performed(ResetStep(old(Abstract()), s), outcome)
    {
      Properties.ResetPreservesInv(Abstract(), s);
      if s.client in closed {
        return Faulted(SocketClosed);
      }
      DeregisterSent(Abstract(), s, BroadcastSends(clients, s.client, "Server: " + s.nick + " is offline.\n"), false);
      Broadcast("Server: " + s.nick + " is offline.\n", s.client);
      outcome := Teardown(s, false);
    }

    /** One iteration of the handler loop of session `s` on input `line`;
        `followUp` is the answer the client gives to a prompt. */
    method Dispatch(s: Session, line: string, followUp: string) returns (outcome: Outcome)
      requires Valid()
      modifies this
      ensures Valid()
      ensures Performed(Protocol.Dispatch(old(Abstract()), s, line, followUp), outcome)
    {
      Properties.DispatchPreservesInv(Abstract(), s, line, followUp);
      if s.client in closed {
        return Faulted(SocketClosed);
      }
      match Classify(line)
      case MembersCmd => outcome := Members(s);
      case HideCmd => outcome := Hide(s, followUp);
      case RevealCmd => outcome := Reveal(s, followUp);
      case BroadcastCmd => outcome := BroadcastCommand(s, followUp);
      case CreateRoomCmd => outcome := CreateRoom(s, line);
      case JoinCmd => outcome := JoinRoom(s, line);
      case RoomCmd => outcome := SendToRoom(s, line);
      case GetRoomsCmd => outcome := GetRooms(s);
      case LeaveCmd => outcome := LeaveRoom(s, line);
      case QuitCmd => outcome := Quit(s);
      case Other => outcome := Continue;
    }
  }
}
