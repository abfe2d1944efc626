/** What the handler promises, stated over the pure model in Protocol. */
module Properties {
  import opened Text
  import opened Protocol

  // ---------------------------------------------------------------------
  // Dispatch

  /** A line that starts with a command word agrees with it on the second and
      third characters, which tell the ten command words apart. */
  lemma PrefixChars(line: string, p: string)
    requires |p| >= 3
    ensures StartsWith(line, p) ==> line[1] == p[1] && line[2] == p[2]
  {
    if StartsWith(line, p) {
      assert line[..|p|][1] == line[1] && line[..|p|][2] == line[2];
    }
  }

  /** Each verb is chosen by exactly its own test: four need the whole line,
      the other six a prefix; no earlier branch of the chain shadows a later
      one. */
  lemma ClassifyMatches(line: string)
    ensures Classify(line) == MembersCmd <==> line == "/members"
    ensures Classify(line) == HideCmd <==> StartsWith(line, "/hide")
    ensures Classify(line) == RevealCmd <==> StartsWith(line, "/reveal")
    ensures Classify(line) == BroadcastCmd <==> line == "/broadcast"
    ensures Classify(line) == CreateRoomCmd <==> StartsWith(line, "/create_room")
    ensures Classify(line) == JoinCmd <==> StartsWith(line, "/join")
    ensures Classify(line) == RoomCmd <==> StartsWith(line, "/room")
    ensures Classify(line) == GetRoomsCmd <==> line == "/get_rooms"
    ensures Classify(line) == LeaveCmd <==> StartsWith(line, "/leave")
    ensures Classify(line) == QuitCmd <==> line == "/quit"
  {
    PrefixChars(line, "/hide");
    PrefixChars(line, "/reveal");
    PrefixChars(line, "/create_room");
    PrefixChars(line, "/join");
    PrefixChars(line, "/room");
    PrefixChars(line, "/leave");
  }

  /** A line that matches no command changes nothing and sends nothing. */
  lemma UnknownLineIgnored(st: State, s: Session, line: string, followUp: string)
    requires s.client !in st.closed
    requires line != "/members" && line != "/broadcast" && line != "/get_rooms" && line != "/quit"
    requires !StartsWith(line, "/hide") && !StartsWith(line, "/reveal") && !StartsWith(line, "/create_room")
    requires !StartsWith(line, "/join") && !StartsWith(line, "/room") && !StartsWith(line, "/leave")
    ensures Dispatch(st, s, line, followUp) == Effect(st, [], Continue)
  {
  }

  /** After its socket was closed a session can run no command: the read raises. */
  lemma ClosedSessionFaults(st: State, s: Session, line: string, followUp: string)
    requires s.client in st.closed
    ensures Dispatch(st, s, line, followUp) == Effect(st, [], Faulted(SocketClosed))
  {
  }

  lemma SplitTwo(verb: string, name: string)
    requires ' ' !in verb && ' ' !in name
    ensures Split(verb + " " + name, ' ') == [verb, name]
  {
    SplitAround(verb, ' ', name);
    NoSeparatorSplit(name, ' ');
  }

  lemma SplitThree(verb: string, name: string, rest: string)
    requires ' ' !in verb && ' ' !in name
    ensures Split(verb + " " + name + " " + rest, ' ') == [verb, name] + Split(rest, ' ')
  {
    var t := name + " " + rest;
    assert verb + " " + name + " " + rest == verb + [' '] + t;
    SplitAround(verb, ' ', t);
    SplitAround(name, ' ', rest);
  }

  /** `"<verb> <name>"` and `"<verb> <name> <rest>"` carry `name` as argument,
      and the words after the name, as `/room` rejoins them, are `rest`. */
  lemma ArgumentOf(verb: string, name: string, rest: string)
    requires ' ' !in verb && ' ' !in name
    ensures Argument(verb + " " + name) == Some(name)
    ensures Argument(verb + " " + name + " " + rest) == Some(name)
    ensures var parts := Split(verb + " " + name + " " + rest, ' ');
            |parts| >= 2 && Join(" ", parts[2..]) == rest
  {
    SplitTwo(verb, name);
    SplitThree(verb, name, rest);
    var parts := Split(verb + " " + name + " " + rest, ' ');
    assert parts[2..] == Split(rest, ' ');
    JoinSplit(rest, ' ');
  }

  /** A line without a space after a prefix command faults on `split(" ")[1]`. */
  lemma NoArgumentFaults(st: State, s: Session, line: string, followUp: string)
    requires s.client !in st.closed && ' ' !in line
    requires Classify(line) in {CreateRoomCmd, JoinCmd, RoomCmd, LeaveCmd}
    ensures Dispatch(st, s, line, followUp) == Effect(st, [], Faulted(MissingArgument))
  {
    NoSeparatorSplit(line, ' ');
  }

  // ---------------------------------------------------------------------
  // Broadcast

  lemma RecipientsOfDeliver(targets: seq<Client>, text: string)
    ensures Recipients(Deliver(targets, text)) == targets
  {
  }

  /** `broadcast(text, me)` sends `text` once per entry of the client list
      other than `me`, to nobody else, and never to `me`. */
  lemma BroadcastReachesOthers(clients: seq<Client>, me: Client, text: string)
    ensures var sent := BroadcastSends(clients, me, text);
            && (forall i :: 0 <= i < |sent| ==> sent[i].1 == text && sent[i].0 != me)
            && multiset(Recipients(sent)) == multiset(clients)[me := 0]
  {
    var sent := BroadcastSends(clients, me, text);
    RecipientsOfDeliver(Others(clients, me), text);
    OthersCount(clients, me);
    forall i | 0 <= i < |sent| ensures sent[i].0 != me {
      assert sent[i].0 == Others(clients, me)[i] && Others(clients, me)[i] in Others(clients, me);
    }
  }

  /** Without `me` in the list, the broadcast reaches every client, in order. */
  lemma {:induction false} OthersWithoutMe(clients: seq<Client>, me: Client)
    requires me !in clients
    ensures Others(clients, me) == clients
    decreases |clients|
  {
    if |clients| > 0 {
      OthersWithoutMe(clients[..|clients| - 1], me);
      assert clients == clients[..|clients| - 1] + [clients[|clients| - 1]];
    }
  }

  /** /broadcast: the sender gets the prompt and the confirmation, everyone
      else exactly "<nick>: <message>", and no registry changes. */
  lemma BroadcastCommand(st: State, s: Session, message: string)
    requires s.client !in st.closed
    ensures var e := Dispatch(st, s, "/broadcast", message);
            && e.st == st && e.outcome == Continue
            && e.sent[0] == (s.client, "Enter your message: ")
            && e.sent[|e.sent| - 1] == (s.client, "Message broadcasted!")
            && e.sent[1..|e.sent| - 1] == BroadcastSends(st.clients, s.client, s.nick + ": " + message)
            && forall i :: 0 < i < |e.sent| - 1 ==> e.sent[i].0 != s.client
  {
    ClassifyMatches("/broadcast");
    var e := Dispatch(st, s, "/broadcast", message);
    var b := BroadcastSends(st.clients, s.client, s.nick + ": " + message);
    assert e.sent == [(s.client, "Enter your message: ")] + b + [(s.client, "Message broadcasted!")];
    assert e.sent[1..|e.sent| - 1] == b;
    BroadcastReachesOthers(st.clients, s.client, s.nick + ": " + message);
  }

  // ---------------------------------------------------------------------
  // Rooms

  /** /create_room with a new name: the room exists with the creator as its only
      member, at the end of the listing order; nothing else changes. */
  lemma CreateRoomNew(st: State, s: Session, line: string, name: string, followUp: string)
    requires s.client !in st.closed
    requires StartsWith(line, "/create_room") && Argument(line) == Some(name)
    requires name !in st.rooms
    ensures var e := Dispatch(st, s, line, followUp);
            && e.st == st.(rooms := st.rooms[name := [s.client]], roomOrder := st.roomOrder + [name])
            && e.sent == [(s.client, "Room " + name + " created successfully!")]
            && e.outcome == Continue
  {
    ClassifyMatches(line);
  }

  /** /create_room with a name in use leaves all registries unchanged. */
  lemma CreateRoomExisting(st: State, s: Session, line: string, name: string, followUp: string)
    requires s.client !in st.closed
    requires StartsWith(line, "/create_room") && Argument(line) == Some(name)
    requires name in st.rooms
    ensures var e := Dispatch(st, s, line, followUp);
            && e.st == st
            && e.sent == [(s.client, "Room " + name + " already exists")]
            && e.outcome == Continue
  {
    ClassifyMatches(line);
  }

  /** A second /create_room for the same name, from any session, neither
      duplicates nor resets the room made by the first. */
  lemma CreateRoomTwice(st: State, a: Session, b: Session, name: string)
    requires a.client !in st.closed && b.client !in st.closed
    requires ' ' !in name && name !in st.rooms
    ensures var e1 := Dispatch(st, a, "/create_room " + name, "");
            var e2 := Dispatch(e1.st, b, "/create_room " + name, "");
            && e2.st == e1.st
            && name in e2.st.rooms && e2.st.rooms[name] == [a.client]
            && e2.st.roomOrder == st.roomOrder + [name]
            && e2.sent == [(b.client, "Room " + name + " already exists")]
  {
    var line := "/create_room " + name;
    assert line == "/create_room" + " " + name;
    ArgumentOf("/create_room", name, "");
    assert StartsWith(line, "/create_room") by { assert line[..12] == "/create_room"; }
    CreateRoomNew(st, a, line, name, "");
    var e1 := Dispatch(st, a, line, "");
    CreateRoomExisting(e1.st, b, line, name, "");
  }

  /** /join of an existing room the client is not in appends it once. */
  lemma JoinNewMember(st: State, s: Session, line: string, name: string, followUp: string)
    requires s.client !in st.closed
    requires StartsWith(line, "/join") && Argument(line) == Some(name)
    requires name in st.rooms && s.client !in st.rooms[name]
    ensures var e := Dispatch(st, s, line, followUp);
            && e.st == st.(rooms := st.rooms[name := st.rooms[name] + [s.client]])
            && e.sent == [(s.client, "Joined room " + name + " successfully!")]
            && e.outcome == Continue
  {
    ClassifyMatches(line);
  }

  /** /join by a member changes nothing. */
  lemma JoinAlreadyMember(st: State, s: Session, line: string, name: string, followUp: string)
    requires s.client !in st.closed
    requires StartsWith(line, "/join") && Argument(line) == Some(name)
    requires name in st.rooms && s.client in st.rooms[name]
    ensures var e := Dispatch(st, s, line, followUp);
            && e.st == st
            && e.sent == [(s.client, "You are already a member of this room " + name + ".")]
            && e.outcome == Continue
  {
    ClassifyMatches(line);
  }

  /** /join of an unknown room changes nothing and says so. */
  lemma JoinUnknownRoom(st: State, s: Session, line: string, name: string, followUp: string)
    requires s.client !in st.closed
    requires StartsWith(line, "/join") && Argument(line) == Some(name)
    requires name !in st.rooms
    ensures var e := Dispatch(st, s, line, followUp);
            && e.st == st
            && e.sent == [(s.client, "Room " + name + " does not exist!")]
            && e.outcome == Continue
  {
    ClassifyMatches(line);
  }

  /** /leave by a member removes it from that room, and from nowhere else; in a
      valid state it is then no longer a member. */
  lemma LeaveMember(st: State, s: Session, line: string, name: string, followUp: string)
    requires Inv(st) && s.client !in st.closed
    requires StartsWith(line, "/leave") && Argument(line) == Some(name)
    requires name in st.rooms && s.client in st.rooms[name]
    ensures var e := Dispatch(st, s, line, followUp);
            && e.st == st.(rooms := st.rooms[name := Remove(st.rooms[name], s.client)])
            && s.client !in e.st.rooms[name]
            && multiset(e.st.rooms[name]) == multiset(st.rooms[name]) - multiset{s.client}
            && e.sent == [(s.client, "Left room " + name)]
            && e.outcome == Continue
  {
    ClassifyMatches(line);
    RemoveNoDup(st.rooms[name], s.client);
  }

  /** /leave by a non-member changes nothing. */
  lemma LeaveNotMember(st: State, s: Session, line: string, name: string, followUp: string)
    requires s.client !in st.closed
    requires StartsWith(line, "/leave") && Argument(line) == Some(name)
    requires name in st.rooms && s.client !in st.rooms[name]
    ensures var e := Dispatch(st, s, line, followUp);
            && e.st == st
            && e.sent == [(s.client, "You are not a member of room " + name)]
            && e.outcome == Continue
  {
    ClassifyMatches(line);
  }

  /** /leave of an unknown room raises KeyError before any reply: the
      "Room does not exist" answer is never sent. */
  lemma LeaveUnknownRoomFaults(st: State, s: Session, line: string, name: string, followUp: string)
    requires s.client !in st.closed
    requires StartsWith(line, "/leave") && Argument(line) == Some(name)
    requires name !in st.rooms
    ensures Dispatch(st, s, line, followUp) == Effect(st, [], Faulted(NoSuchRoom))
  {
    ClassifyMatches(line);
  }

  /** `/room <name> <text>` to a room whose members are all connected sends the
      text to every member, in membership order, the sender included, and
      changes nothing. */
  lemma RoomReachesMembers(st: State, s: Session, name: string, text: string, followUp: string)
    requires s.client !in st.closed
    requires ' ' !in name && name in st.rooms
    requires forall m :: m in st.rooms[name] ==> m !in st.closed
    ensures Dispatch(st, s, "/room " + name + " " + text, followUp)
            == Effect(st, Deliver(st.rooms[name], text), Continue)
  {
    var line := "/room " + name + " " + text;
    assert line == "/room" + " " + name + " " + text;
    ArgumentOf("/room", name, text);
    assert StartsWith(line, "/room") by { assert line[..5] == "/room"; }
    ClassifyMatches(line);
    var members := st.rooms[name];
    assert members[..|members|] == members;
  }

  /** `/room` to an unknown room answers only the sender. */
  lemma RoomUnknown(st: State, s: Session, name: string, text: string, followUp: string)
    requires s.client !in st.closed
    requires ' ' !in name && name !in st.rooms
    ensures Dispatch(st, s, "/room " + name + " " + text, followUp)
            == Effect(st, [(s.client, "Room does not exist")], Continue)
  {
    var line := "/room " + name + " " + text;
    assert line == "/room" + " " + name + " " + text;
    ArgumentOf("/room", name, text);
    assert StartsWith(line, "/room") by { assert line[..5] == "/room"; }
    ClassifyMatches(line);
  }

  /** A member that quit stays in its rooms; the next `/room` to such a room
      raises on the send to its closed socket, after delivering to the members
      before it only. */
  lemma RoomStopsAtClosedMember(st: State, s: Session, name: string, text: string, followUp: string, j: nat)
    requires s.client !in st.closed
    requires ' ' !in name && name in st.rooms
    requires j < |st.rooms[name]| && st.rooms[name][j] in st.closed
    ensures var e := Dispatch(st, s, "/room " + name + " " + text, followUp);
            && e.st == st && e.outcome == Faulted(SocketClosed)
            && exists k :: 0 <= k <= j && e.sent == Deliver(st.rooms[name][..k], text)
  {
    var line := "/room " + name + " " + text;
    assert line == "/room" + " " + name + " " + text;
    ArgumentOf("/room", name, text);
    assert StartsWith(line, "/room") by { assert line[..5] == "/room"; }
    ClassifyMatches(line);
    var k := FirstClosed(st.rooms[name], st.closed);
    assert k <= j;
  }

  /** The quitting client is still a member of its rooms afterwards, and a
      message to one of them then faults the sender's handler. */
  lemma QuitLeavesStaleMember(st: State, s: Session, t: Session, name: string, text: string)
    requires Inv(st) && s.client !in st.closed && t.client !in st.closed && t.client != s.client
    requires s.client in st.clients && s.nick in st.nicknames
    requires ' ' !in name && name in st.rooms && s.client in st.rooms[name]
    ensures var e1 := Dispatch(st, s, "/quit", "");
            && e1.outcome == Ended
            && e1.st.rooms == st.rooms
            && Dispatch(e1.st, t, "/room " + name + " " + text, "").outcome == Faulted(SocketClosed)
  {
    QuitTearsDown(st, s, "");
    var e1 := Dispatch(st, s, "/quit", "");
    assert s.client in e1.st.closed && t.client !in e1.st.closed;
    var j :| 0 <= j < |st.rooms[name]| && st.rooms[name][j] == s.client;
    RoomStopsAtClosedMember(e1.st, t, name, text, "", j);
  }

  /** The room listing is built name by name in insertion order: the listing
      of two runs of rooms is the listing of the first followed by that of
      the second. */
  lemma {:induction false} RoomNamesAppend(a: seq<string>, b: seq<string>)
    ensures RoomNames(a + b) == RoomNames(a) + RoomNames(b)
    decreases |b|
  {
    if |b| > 0 {
      var b' := b[..|b| - 1];
      RoomNamesAppend(a, b');
      assert (a + b)[..|a + b| - 1] == a + b';
    } else {
      assert a + b == a;
    }
  }

  lemma RoomNamesSnoc(a: seq<string>, x: string)
    ensures RoomNames(a + [x]) == RoomNames(a) + x + "  "
  {
    assert (a + [x])[..|a + [x]| - 1] == a;
  }

  /** Every room in the order appears in the listing, followed by its two
      spaces, between the listings of the rooms before and after it. */
  lemma RoomNamesShows(order: seq<string>, room: string)
    requires room in order
    ensures var i := IndexOf(order, room);
            RoomNames(order) == RoomNames(order[..i]) + room + "  " + RoomNames(order[i + 1..])
  {
    var i := IndexOf(order, room);
    var a, b := order[..i], order[i + 1..];
    assert order == (a + [room]) + b;
    RoomNamesAppend(a + [room], b);
    RoomNamesSnoc(a, room);
  }

  /** /get_rooms changes no state and answers one listing: "No rooms available"
      without rooms, otherwise the heading and each room in insertion order. */
  lemma GetRoomsListing(st: State, s: Session, followUp: string)
    requires Inv(st) && s.client !in st.closed
    ensures var e := Dispatch(st, s, "/get_rooms", followUp);
            && e.st == st && e.outcome == Continue
            && e.sent == [(s.client, if st.roomOrder == [] then "No rooms available"
                                     else "Rooms:\n" + RoomNames(st.roomOrder))]
  {
    ClassifyMatches("/get_rooms");
    if st.roomOrder == [] {
      assert st.rooms.Keys == {};
    } else {
      assert st.roomOrder[0] in st.rooms;
    }
  }

  /** /get_rooms lists every existing room, between the rooms created before
      it and those created after it. */
  lemma ListingShowsRoom(st: State, s: Session, room: string)
    requires Inv(st) && s.client !in st.closed && room in st.rooms
    ensures var i := IndexOf(st.roomOrder, room);
            Dispatch(st, s, "/get_rooms", "").sent
            == [(s.client, "Rooms:\n" + (RoomNames(st.roomOrder[..i]) + room + "  " + RoomNames(st.roomOrder[i + 1..])))]
  {
    assert room in st.roomOrder;
    GetRoomsListing(st, s, "");
    RoomNamesShows(st.roomOrder, room);
  }

  // ---------------------------------------------------------------------
  // Presence

  /** /hide of a listed nickname removes its first occurrence and nothing else. */
  lemma HideListed(st: State, s: Session, line: string, x: string)
    requires s.client !in st.closed && StartsWith(line, "/hide") && x in st.nicknames
    ensures var e := Dispatch(st, s, line, x);
            var i := IndexOf(st.nicknames, x);
            && e.st == st.(nicknames := st.nicknames[..i] + st.nicknames[i + 1..])
            && x !in st.nicknames[..i]
            && multiset(e.st.nicknames) == multiset(st.nicknames) - multiset{x}
            && e.sent == [(s.client, "Enter nickname to hide"), (s.client, "You are now invisible!")]
            && e.outcome == Continue
  {
    ClassifyMatches(line);
  }

  /** /hide of a nickname that is not listed raises after the prompt. */
  lemma HideUnlistedFaults(st: State, s: Session, line: string, x: string)
    requires s.client !in st.closed && StartsWith(line, "/hide") && x !in st.nicknames
    ensures Dispatch(st, s, line, x) == Effect(st, [(s.client, "Enter nickname to hide")], Faulted(NicknameNotFound))
  {
    ClassifyMatches(line);
  }

  /** /reveal appends an unlisted nickname, and leaves a listed one alone with
      no reply after the prompt; either way it adds no duplicate. */
  lemma RevealOnce(st: State, s: Session, line: string, x: string)
    requires s.client !in st.closed && StartsWith(line, "/reveal")
    ensures var e := Dispatch(st, s, line, x);
            && e.outcome == Continue
            && (x !in st.nicknames ==>
                  e.st == st.(nicknames := st.nicknames + [x])
                  && e.sent == [(s.client, "Enter nickname to show"), (s.client, "You are now visible to other users!")])
            && (x in st.nicknames ==> e.st == st && e.sent == [(s.client, "Enter nickname to show")])
            && (NoDup(st.nicknames) ==> NoDup(e.st.nicknames))
            && x in e.st.nicknames
            && multiset(e.st.nicknames)[x] == if x in st.nicknames then multiset(st.nicknames)[x] else 1
  {
    ClassifyMatches(line);
  }

  /** A nickname listed once is gone after /hide and listed exactly once again
      after /reveal. */
  lemma HideThenReveal(st: State, s: Session, x: string)
    requires s.client !in st.closed && multiset(st.nicknames)[x] == 1
    ensures var e1 := Dispatch(st, s, "/hide", x);
            var e2 := Dispatch(e1.st, s, "/reveal", x);
            && x !in e1.st.nicknames
            && multiset(e2.st.nicknames)[x] == 1
  {
    assert StartsWith("/hide", "/hide");
    assert StartsWith("/reveal", "/reveal");
    HideListed(st, s, "/hide", x);
    var e1 := Dispatch(st, s, "/hide", x);
    RevealOnce(e1.st, s, "/reveal", x);
  }

  /** With as many nicknames as clients, one /reveal of a new name makes the
      next /members raise IndexError instead of answering. */
  lemma RevealBreaksMembers(st: State, s: Session, t: Session, x: string)
    requires s.client !in st.closed && t.client !in st.closed
    requires |st.nicknames| == |st.clients| && x !in st.nicknames
    ensures var e1 := Dispatch(st, s, "/reveal", x);
            Dispatch(e1.st, t, "/members", "") == Effect(e1.st, [], Faulted(MemberIndexOutOfRange))
  {
    assert StartsWith("/reveal", "/reveal");
    RevealOnce(st, s, "/reveal", x);
  }

  /** /members answers the sender alone and leaves all registries unchanged;
      it faults exactly when there are more nicknames than clients. */
  lemma MembersReply(st: State, s: Session, followUp: string)
    requires s.client !in st.closed
    ensures var e := Dispatch(st, s, "/members", followUp);
            && e.st == st
            && (e.outcome == Continue <==> |st.nicknames| <= |st.clients|)
            && (e.outcome != Continue ==> e.outcome == Faulted(MemberIndexOutOfRange) && e.sent == [])
            && (e.outcome == Continue ==>
                  e.sent == [(s.client, MembersHeading + " " + Names(st.nicknames, st.clients, |st.nicknames|) + "\n")])
  {
  }

  // ---------------------------------------------------------------------
  // Lifecycle

  /** /quit of a registered session: "Server: Bye" to it, then the offline
      notice to every other client; then exactly this client and one copy of
      its nickname leave the lists, the socket is closed and the rooms are
      left as they were. */
  lemma QuitTearsDown(st: State, s: Session, followUp: string)
    requires Inv(st) && s.client !in st.closed
    requires s.client in st.clients && s.nick in st.nicknames
    ensures var e := Dispatch(st, s, "/quit", followUp);
            && e.outcome == Ended
            && e.sent == [(s.client, "Server: Bye")] + BroadcastSends(st.clients, s.client, s.nick + " is offline")
            && e.st.clients == Remove(st.clients, s.client) && s.client !in e.st.clients
            && e.st.nicknames == Remove(st.nicknames, s.nick)
            && multiset(e.st.clients) == multiset(st.clients) - multiset{s.client}
            && multiset(e.st.nicknames) == multiset(st.nicknames) - multiset{s.nick}
            && e.st.closed == st.closed + {s.client}
            && e.st.rooms == st.rooms && e.st.roomOrder == st.roomOrder && e.st.nextId == st.nextId
  {
    RemoveNoDup(st.clients, s.client);
    ClassifyMatches("/quit");
  }

  /** /quit after the session hid its own nickname: the client is removed, then
      `nicknames.remove(nick)` raises, so the nickname list and the socket stay. */
  lemma QuitWhenHiddenFaults(st: State, s: Session, followUp: string)
    requires s.client !in st.closed
    requires s.client in st.clients && s.nick !in st.nicknames
    ensures var e := Dispatch(st, s, "/quit", followUp);
            && e.outcome == Faulted(NicknameNotFound)
            && e.st == st.(clients := Remove(st.clients, s.client))
   {
    ClassifyMatches("/quit");
  }

  /** A connection reset tears the session down like /quit, with its own
      notice, and without `close()`. */
  lemma ResetTearsDown(st: State, s: Session)
    requires Inv(st) && s.client !in st.closed
    requires s.client in st.clients && s.nick in st.nicknames
    ensures var e := ResetStep(st, s);
            && e.outcome == Ended
            && e.sent == BroadcastSends(st.clients, s.client, "Server: " + s.nick + " is offline.\n")
            && e.st.clients == Remove(st.clients, s.client) && s.client !in e.st.clients
            && e.st.nicknames == Remove(st.nicknames, s.nick)
            && multiset(e.st.clients) == multiset(st.clients) - multiset{s.client}
            && multiset(e.st.nicknames) == multiset(st.nicknames) - multiset{s.nick}
            && e.st.closed == st.closed
            && e.st.rooms == st.rooms && e.st.roomOrder == st.roomOrder
  {
    RemoveNoDup(st.clients, s.client);
  }

  /** Accept registers a connection that is new to every registry, confirms to
      it, and announces it to every client that was already there. */
  lemma AcceptRegisters(st: State, nickname: string, peer: string)
    requires Inv(st)
    ensures var c := NewClient(st, peer);
            var e := AcceptStep(st, nickname, peer);
            && c !in st.clients && c !in st.closed
            && e.st.clients == st.clients + [c]
            && e.st.nicknames == st.nicknames + [nickname]
            && e.st.rooms == st.rooms && e.st.roomOrder == st.roomOrder && e.st.closed == st.closed
            && e.sent == [(c, "Connected to the server")] + Deliver(st.clients, "Server: " + nickname + " is online!")
  {
    var c := NewClient(st, peer);
    OthersWithoutMe(st.clients, c);
    assert Others(st.clients + [c], c) == Others(st.clients, c) by {
      assert (st.clients + [c])[..|st.clients|] == st.clients;
    }
  }

  /** While the two lists run parallel, the handler thread of a newly accepted
      connection finds the nickname it was accepted with. */
  lemma AcceptThenHandlerNamesSession(st: State, nickname: string, peer: string)
    requires Inv(st) && |st.nicknames| == |st.clients|
    ensures var c := NewClient(st, peer);
            HandlerSession(AcceptStep(st, nickname, peer).st, c) == Some(Session(c, nickname))
  {
    var c := NewClient(st, peer);
    var cs := st.clients + [c];
    assert c !in st.clients;
    assert cs[..|st.clients|] == st.clients;
    assert IndexOf(cs, c) == |st.clients|;
  }

  /** Once a /reveal has made the nickname list longer than the client list,
      the next connection's handler picks up the revealed name instead of the
      nickname it was accepted with. */
  lemma HandlerMisnamesAfterReveal(st: State, s: Session, x: string, nickname: string, peer: string)
    requires Inv(st) && s.client !in st.closed
    requires |st.nicknames| == |st.clients| && x !in st.nicknames
    ensures var st1 := Dispatch(st, s, "/reveal", x).st;
            var c := NewClient(st1, peer);
            HandlerSession(AcceptStep(st1, nickname, peer).st, c) == Some(Session(c, x))
  {
    assert StartsWith("/reveal", "/reveal");
    RevealOnce(st, s, "/reveal", x);
    var st1 := Dispatch(st, s, "/reveal", x).st;
    var c := NewClient(st1, peer);
    var st2 := AcceptStep(st1, nickname, peer).st;
    assert c !in st1.clients;
    assert st2.clients[..|st1.clients|] == st1.clients;
    assert IndexOf(st2.clients, c) == |st1.clients|;
    assert st2.nicknames[|st1.clients|] == x;
  }

  /** Once a /hide has made the nickname list shorter than the client list,
      the next connection's handler raises IndexError before reading a line. */
  lemma HandlerFaultsAfterHide(st: State, s: Session, x: string, nickname: string, peer: string)
    requires Inv(st) && s.client !in st.closed
    requires |st.nicknames| == |st.clients| && x in st.nicknames
    ensures var st1 := Dispatch(st, s, "/hide", x).st;
            var c := NewClient(st1, peer);
            HandlerSession(AcceptStep(st1, nickname, peer).st, c) == None
  {
    assert StartsWith("/hide", "/hide");
    HideListed(st, s, "/hide", x);
    var st1 := Dispatch(st, s, "/hide", x).st;
    var c := NewClient(st1, peer);
    var st2 := AcceptStep(st1, nickname, peer).st;
    assert c !in st1.clients;
    assert st2.clients[..|st1.clients|] == st1.clients;
    assert IndexOf(st2.clients, c) == |st1.clients|;
    assert |st2.nicknames| == |st1.clients|;
  }

  lemma CreateRoomLine(st: State, s: Session, room: string)
    requires Inv(st) && s.client !in st.closed && ' ' !in room && room !in st.rooms
    ensures var e := Dispatch(st, s, "/create_room " + room, "");
            && Inv(e.st) && e.st.closed == st.closed
            && e.st.roomOrder == st.roomOrder + [room]
            && room in e.st.rooms && e.st.rooms[room] == [s.client]
            && e.sent == [(s.client, "Room " + room + " created successfully!")]
  {
    var create := "/create_room " + room;
    assert create == "/create_room" + " " + room;
    ArgumentOf("/create_room", room, "");
    assert StartsWith(create, "/create_room") by { assert create[..12] == "/create_room"; }
    CreateRoomNew(st, s, create, room, "");
    DispatchPreservesInv(st, s, create, "");
  }

  lemma JoinRoomLine(st: State, s: Session, room: string)
    requires Inv(st) && s.client !in st.closed && ' ' !in room
    requires room in st.rooms && s.client !in st.rooms[room]
    ensures var e := Dispatch(st, s, "/join " + room, "");
            && Inv(e.st) && e.st.closed == st.closed && e.st.roomOrder == st.roomOrder
            && room in e.st.rooms && e.st.rooms[room] == st.rooms[room] + [s.client]
            && e.sent == [(s.client, "Joined room " + room + " successfully!")]
  {
    var join := "/join " + room;
    assert join == "/join" + " " + room;
    ArgumentOf("/join", room, "");
    assert StartsWith(join, "/join") by { assert join[..5] == "/join"; }
    JoinNewMember(st, s, join, room, "");
    DispatchPreservesInv(st, s, join, "");
  }

  lemma LeaveRoomLine(st: State, s: Session, room: string)
    requires Inv(st) && s.client !in st.closed && ' ' !in room
    requires room in st.rooms && s.client in st.rooms[room]
    ensures var e := Dispatch(st, s, "/leave " + room, "");
            && Inv(e.st) && e.st.closed == st.closed && e.st.roomOrder == st.roomOrder
            && e.sent == [(s.client, "Left room " + room)]
  {
    var leave := "/leave " + room;
    assert leave == "/leave" + " " + room;
    ArgumentOf("/leave", room, "");
    assert StartsWith(leave, "/leave") by { assert leave[..6] == "/leave"; }
    LeaveMember(st, s, leave, room, "");
    DispatchPreservesInv(st, s, leave, "");
  }

  /** Alice creates a room and Bob joins it: both are members, in that order. */
  lemma CreateThenJoin(st: State, alice: Session, bob: Session, room: string)
    requires Inv(st) && alice.client !in st.closed && bob.client !in st.closed
    requires alice.client != bob.client
    requires ' ' !in room && room !in st.rooms
    ensures var e2 := Dispatch(st, alice, "/create_room " + room, "");
            var e3 := Dispatch(e2.st, bob, "/join " + room, "");
            && e2.sent == [(alice.client, "Room " + room + " created successfully!")]
            && e3.sent == [(bob.client, "Joined room " + room + " successfully!")]
            && Inv(e3.st) && e3.st.closed == st.closed
            && e3.st.roomOrder == st.roomOrder + [room]
            && room in e3.st.rooms && e3.st.rooms[room] == [alice.client, bob.client]
  {
    CreateRoomLine(st, alice, room);
    var e2 := Dispatch(st, alice, "/create_room " + room, "");
    JoinRoomLine(e2.st, bob, room);
  }

  /** After Alice created the room and Bob joined it, Alice's words reach both,
      Alice leaves, and Bob's listing still shows the room. */
  lemma TalkLeaveList(st: State, alice: Session, bob: Session, room: string, words: string)
    requires Inv(st) && alice.client !in st.closed && bob.client !in st.closed
    requires ' ' !in room && room in st.rooms && st.rooms[room] == [alice.client, bob.client]
    ensures var e4 := Dispatch(st, alice, "/room " + room + " " + words, "");
            var e5 := Dispatch(e4.st, alice, "/leave " + room, "");
            var e6 := Dispatch(e5.st, bob, "/get_rooms", "");
            && e4.sent == [(alice.client, words), (bob.client, words)]
            && e5.sent == [(alice.client, "Left room " + room)]
            && e6.sent == [(bob.client, "Rooms:\n" + RoomNames(st.roomOrder))]
            && var i := IndexOf(st.roomOrder, room);
               e6.sent == [(bob.client, "Rooms:\n" + (RoomNames(st.roomOrder[..i]) + room + "  "
                                                       + RoomNames(st.roomOrder[i + 1..])))]
  {
    RoomReachesMembers(st, alice, room, words, "");
    var e4 := Dispatch(st, alice, "/room " + room + " " + words, "");
    assert e4.st == st;
    LeaveRoomLine(st, alice, room);
    var e5 := Dispatch(st, alice, "/leave " + room, "");
    GetRoomsListing(e5.st, bob, "");
    assert room in st.roomOrder;
    ListingShowsRoom(e5.st, bob, room);
  }

  // ---------------------------------------------------------------------
  // Invariant

  lemma InitialInv()
    ensures Inv(Initial)
  {
  }

  lemma AcceptPreservesInv(st: State, nickname: string, peer: string)
    requires Inv(st)
    ensures Inv(AcceptStep(st, nickname, peer).st)
  {
    var c := NewClient(st, peer);
    assert c !in st.clients;
    AppendNoDup(st.clients, c);
  }

  lemma DeregisterPreservesInv(st: State, s: Session, sent: seq<Send>, closing: bool)
    requires Inv(st)
    ensures Inv(Deregister(st, s, sent, closing).st)
  {
    if s.client in st.clients {
      RemoveNoDup(st.clients, s.client);
      var r := Remove(st.clients, s.client);
      assert forall c :: c in r ==> c in st.clients by {
        forall c | c in r ensures c in st.clients {
          assert c in multiset(r);
        }
      }
    }
  }

  lemma ResetPreservesInv(st: State, s: Session)
    requires Inv(st)
    ensures Inv(ResetStep(st, s).st)
  {
    if s.client !in st.closed {
      DeregisterPreservesInv(st, s, BroadcastSends(st.clients, s.client, "Server: " + s.nick + " is offline.\n"), false);
    }
  }

  lemma CreateRoomPreservesInv(st: State, s: Session, line: string)
    requires Inv(st)
    ensures Inv(CreateRoomStep(st, s, line).st)
  {
    var arg := Argument(line);
    if arg.Some? && arg.value !in st.rooms {
      AppendNoDup(st.roomOrder, arg.value);
    }
  }

  lemma JoinPreservesInv(st: State, s: Session, line: string)
    requires Inv(st)
    ensures Inv(JoinStep(st, s, line).st)
  {
    var arg := Argument(line);
    if arg.Some? && arg.value in st.rooms && s.client !in st.rooms[arg.value] {
      AppendNoDup(st.rooms[arg.value], s.client);
    }
  }

  lemma LeavePreservesInv(st: State, s: Session, line: string)
    requires Inv(st)
    ensures Inv(LeaveStep(st, s, line).st)
  {
    var arg := Argument(line);
    if arg.Some? && arg.value in st.rooms && s.client in st.rooms[arg.value] {
      RemoveNoDup(st.rooms[arg.value], s.client);
    }
  }

  /** Every handler step keeps the registries consistent: no connection twice in
      the client list or in a room, no closed socket in the client list, and
      the room order listing each room exactly once. */
  lemma DispatchPreservesInv(st: State, s: Session, line: string, followUp: string)
    requires Inv(st)
    ensures Inv(Dispatch(st, s, line, followUp).st)
  {
    if s.client !in st.closed {
      match Classify(line)
      case CreateRoomCmd => CreateRoomPreservesInv(st, s, line);
      case JoinCmd => JoinPreservesInv(st, s, line);
      case LeaveCmd => LeavePreservesInv(st, s, line);
      case QuitCmd =>
        DeregisterPreservesInv(st, s, [(s.client, "Server: Bye")] + BroadcastSends(st.clients, s.client, s.nick + " is offline"), true);
      case _ =>
    }
  }
}
