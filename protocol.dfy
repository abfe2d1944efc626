/** The command handler of the chat relay server as a pure state machine.

    The server keeps three shared registries: the ordered list of connected
    clients, a list of visible nicknames that is meant to run parallel to it,
    and an insertion-ordered dictionary from room name to member list.  One
    handler step takes one input line of one session (and, for the commands
    that prompt, the follow-up line the client answers with) and yields the
    new registries, the messages sent, in order, and whether the handler
    thread carries on, ends, or dies on an exception. */
module Protocol {
  import opened Text

  datatype Option<T> = None | Some(value: T)

  /** A connection: an identity allocated at accept time, and the peer address
      text that `getpeername()` renders for it. */
  datatype Client = Client(id: nat, peer: string)

  /** One `send` call: the recipient and the text. */
  type Send = (Client, string)

  datatype State = State(
    clients: seq<Client>,
    nicknames: seq<string>,
    roomOrder: seq<string>,          // the dictionary's insertion order
    rooms: map<string, seq<Client>>,
    closed: set<Client>,             // sockets on which `close()` was called
    nextId: nat)

  /** What a handler thread holds: its connection and the nickname it looked up
      when it started. */
  datatype Session = Session(client: Client, nick: string)

  /** The Python exception that escapes a handler step. */
  datatype Fault =
    | MissingArgument        // IndexError: `split(" ")[1]` on a line with no space
    | NoSuchRoom             // KeyError: `self.chatrooms[room_name]`
    | NicknameNotFound       // ValueError: `self.nicknames.remove(...)`
    | ClientNotFound         // ValueError: `self.clients.remove(client)`
    | MemberIndexOutOfRange  // IndexError: `self.clients[i-1]` in /members
    | SocketClosed           // OSError: recv or send on a closed socket

  /** Continue: the loop reads the next line.  Ended: the session was torn
      down.  Faulted: the exception ends the handler thread; the generic
      handler's first statement (`e.encode`) raises again, so no cleanup runs
      and the state stays as it was when the fault occurred. */
  datatype Outcome = Continue | Ended | Faulted(fault: Fault)

  datatype Effect = Effect(st: State, sent: seq<Send>, outcome: Outcome)

  datatype Verb =
    | MembersCmd | HideCmd | RevealCmd | BroadcastCmd | CreateRoomCmd
    | JoinCmd | RoomCmd | GetRoomsCmd | LeaveCmd | QuitCmd | Other

  const Initial: State := State([], [], [], map[], {}, 0)

  // ---------------------------------------------------------------------
  // Sequences

  predicate NoDup<T(==)>(s: seq<T>) {
    forall i, j :: 0 <= i < j < |s| ==> s[i] != s[j]
  }

  /** Python's `list.index(x)`: the first position of `x`. */
  function IndexOf<T(==)>(s: seq<T>, x: T): (i: nat)
    requires x in s
    ensures i < |s| && s[i] == x && x !in s[..i]
  {
    if s[0] == x then 0
    else
      var j := IndexOf(s[1..], x);
      assert s[..j + 1] == [s[0]] + s[1..][..j];
      j + 1
  }

  /** Python's `list.remove(x)`: drops the first occurrence of `x`. */
  function Remove<T(==)>(s: seq<T>, x: T): (r: seq<T>)
    requires x in s
    ensures |r| == |s| - 1
    ensures multiset(r) == multiset(s) - multiset{x}
    ensures exists i :: 0 <= i < |s| && s[i] == x && x !in s[..i] && r == s[..i] + s[i + 1..]
  {
    var i := IndexOf(s, x);
    assert s == s[..i] + [x] + s[i + 1..];
    s[..i] + s[i + 1..]
  }

  lemma RemoveNoDup<T>(s: seq<T>, x: T)
    requires NoDup(s) && x in s
    ensures NoDup(Remove(s, x)) && x !in Remove(s, x)
  {
    var i := IndexOf(s, x);
    var r := Remove(s, x);
    assert forall k :: 0 <= k < |r| ==> r[k] == if k < i then s[k] else s[k + 1];
  }

  lemma AppendNoDup<T>(s: seq<T>, x: T)
    requires NoDup(s) && x !in s
    ensures NoDup(s + [x])
  {
  }

  // ---------------------------------------------------------------------
  // Sending

  /** One send of `text` to each target, in order. */
  function Deliver(targets: seq<Client>, text: string): seq<Send> {
    seq(|targets|, i requires 0 <= i < |targets| => (targets[i], text))
  }

  function Recipients(sends: seq<Send>): seq<Client> {
    seq(|sends|, i requires 0 <= i < |sends| => sends[i].0)
  }

  /** The clients in list order, with every entry equal to `me` left out. */
  function Others(clients: seq<Client>, me: Client): seq<Client>
    decreases |clients|
  {
    if |clients| == 0 then []
    else
      var init := Others(clients[..|clients| - 1], me);
      var last := clients[|clients| - 1];
      if last == me then init else init + [last]
  }

  /** `Others` drops every copy of `me` and keeps every other entry. */
  lemma {:induction false} OthersCount(clients: seq<Client>, me: Client)
    ensures me !in Others(clients, me)
    ensures multiset(Others(clients, me)) == multiset(clients)[me := 0]
    decreases |clients|
  {
    if |clients| > 0 {
      var init := clients[..|clients| - 1];
      var last := clients[|clients| - 1];
      OthersCount(init, me);
      assert clients == init + [last];
    }
  }

  lemma DeliverSnoc(targets: seq<Client>, x: Client, text: string)
    ensures Deliver(targets + [x], text) == Deliver(targets, text) + [(x, text)]
  {
  }

  lemma OthersSnoc(clients: seq<Client>, i: nat, me: Client)
    requires i < |clients|
    ensures Others(clients[..i + 1], me)
            == if clients[i] == me then Others(clients[..i], me) else Others(clients[..i], me) + [clients[i]]
  {
    assert clients[..i + 1][..i] == clients[..i];
  }

  /** The sends of `Server.broadcast(text, me)`. */
  function BroadcastSends(clients: seq<Client>, me: Client, text: string): seq<Send> {
    Deliver(Others(clients, me), text)
  }

  /** The length of the prefix of `members` whose sockets are still open: a
      send to the first closed one raises. */
  function FirstClosed(members: seq<Client>, closed: set<Client>): (k: nat)
    ensures k <= |members|
    ensures forall j :: 0 <= j < k ==> members[j] !in closed
    ensures k < |members| ==> members[k] in closed
    decreases |members|
  {
    if |members| == 0 || members[0] in closed then 0
    else 1 + FirstClosed(members[1..], closed)
  }

  // ---------------------------------------------------------------------
  // Listings

  const MembersHeading: string := "Active chat members are:\n"

  /** `f"{i}.{nickname}: {client.getpeername()}"` */
  function Entry(i: nat, nick: string, c: Client): string {
    Decimal(i) + "." + nick + ": " + c.peer
  }

  /** The `names` accumulator after the first `k` iterations. */
  function Names(nicknames: seq<string>, clients: seq<Client>, k: nat): string
    requires k <= |nicknames| && k <= |clients|
  {
    if k == 0 then ""
    else Names(nicknames, clients, k - 1) + Entry(k, nicknames[k - 1], clients[k - 1])
  }

  /** The /members reply, or None when the loop indexes past the client list. */
  function MembersText(nicknames: seq<string>, clients: seq<Client>): Option<string> {
    if |nicknames| <= |clients| then
      Some(MembersHeading + " " + Names(nicknames, clients, |nicknames|) + "\n")
    else None
  }

  /** The `rooms` accumulator of /get_rooms: each name followed by two spaces. */
  function RoomNames(order: seq<string>): string
    decreases |order|
  {
    if |order| == 0 then ""
    else RoomNames(order[..|order| - 1]) + order[|order| - 1] + "  "
  }

  function RoomsText(st: State): string {
    if |st.rooms| == 0 then "No rooms available" else "Rooms:\n" + RoomNames(st.roomOrder)
  }

  // ---------------------------------------------------------------------
  // Parsing

  /** The first-match if/elif chain of the handler. */
  function Classify(line: string): Verb {
    if line == "/members" then MembersCmd
    else if StartsWith(line, "/hide") then HideCmd
    else if StartsWith(line, "/reveal") then RevealCmd
    else if line == "/broadcast" then BroadcastCmd
    else if StartsWith(line, "/create_room") then CreateRoomCmd
    else if StartsWith(line, "/join") then JoinCmd
    else if StartsWith(line, "/room") then RoomCmd
    else if line == "/get_rooms" then GetRoomsCmd
    else if StartsWith(line, "/leave") then LeaveCmd
    else if line == "/quit" then QuitCmd
    else Other
  }

  /** `line.split(" ")[1]`, or None where that raises IndexError. */
  function Argument(line: string): Option<string> {
    var parts := Split(line, ' ');
    if |parts| < 2 then None else Some(parts[1])
  }

  // ---------------------------------------------------------------------
  // Commands

  function MembersStep(st: State, s: Session): Effect {
    match MembersText(st.nicknames, st.clients)
    case None => Effect(st, [], Faulted(MemberIndexOutOfRange))
    case Some(text) => Effect(st, [(s.client, text)], Continue)
  }

  function HideStep(st: State, s: Session, nickname: string): Effect {
    var prompt := (s.client, "Enter nickname to hide");
    if nickname in st.nicknames then
      Effect(st.(nicknames := Remove(st.nicknames, nickname)),
             [prompt, (s.client, "You are now invisible!")], Continue)
    else
      Effect(st, [prompt], Faulted(NicknameNotFound))
  }

  function RevealStep(st: State, s: Session, nickname: string): Effect {
    var prompt := (s.client, "Enter nickname to show");
    if nickname in st.nicknames then
      Effect(st, [prompt], Continue)
    else
      Effect(st.(nicknames := st.nicknames + [nickname]),
             [prompt, (s.client, "You are now visible to other users!")], Continue)
  }

  function BroadcastStep(st: State, s: Session, message: string): Effect {
    Effect(st,
           [(s.client, "Enter your message: ")]
           + BroadcastSends(st.clients, s.client, s.nick + ": " + message)
           + [(s.client, "Message broadcasted!")],
           Continue)
  }

  function CreateRoomStep(st: State, s: Session, line: string): Effect {
    match Argument(line)
    case None => Effect(st, [], Faulted(MissingArgument))
    case Some(name) =>
      if name !in st.rooms then
        Effect(st.(rooms := st.rooms[name := [s.client]], roomOrder := st.roomOrder + [name]),
               [(s.client, "Room " + name + " created successfully!")], Continue)
      else
        Effect(st, [(s.client, "Room " + name + " already exists")], Continue)
  }

  function JoinStep(st: State, s: Session, line: string): Effect {
    match Argument(line)
    case None => Effect(st, [], Faulted(MissingArgument))
    case Some(name) =>
      if name !in st.rooms then
        Effect(st, [(s.client, "Room " + name + " does not exist!")], Continue)
      else if s.client !in st.rooms[name] then
        Effect(st.(rooms := st.rooms[name := st.rooms[name] + [s.client]]),
               [(s.client, "Joined room " + name + " successfully!")], Continue)
      else
        Effect(st, [(s.client, "You are already a member of this room " + name + ".")], Continue)
  }

  function RoomStep(st: State, s: Session, line: string): Effect {
    var parts := Split(line, ' ');
    if |parts| < 2 then Effect(st, [], Faulted(MissingArgument))
    else
      var name := parts[1];
      var text := Join(" ", parts[2..]);
      if name in st.rooms then
        var members := st.rooms[name];
        var k := FirstClosed(members, st.closed);
        Effect(st, Deliver(members[..k], text),
               if k == |members| then Continue else Faulted(SocketClosed))
      else
        Effect(st, [(s.client, "Room does not exist")], Continue)
  }

  function GetRoomsStep(st: State, s: Session): Effect {
    Effect(st, [(s.client, RoomsText(st))], Continue)
  }

  function LeaveStep(st: State, s: Session, line: string): Effect {
    match Argument(line)
    case None => Effect(st, [], Faulted(MissingArgument))
    case Some(name) =>
      // the member list is read before the existence check, so an unknown
      // room raises KeyError and the "Room does not exist" reply is dead code
      if name !in st.rooms then Effect(st, [], Faulted(NoSuchRoom))
      else if s.client in st.rooms[name] then
        Effect(st.(rooms := st.rooms[name := Remove(st.rooms[name], s.client)]),
               [(s.client, "Left room " + name)], Continue)
      else
        Effect(st, [(s.client, "You are not a member of room " + name)], Continue)
  }

  /** Removal of the session from the client list and the nickname list after
      the notices in `sent`; `closing` says whether the socket is closed. */
  function Deregister(st: State, s: Session, sent: seq<Send>, closing: bool): Effect {
    if s.client !in st.clients then Effect(st, sent, Faulted(ClientNotFound))
    else
      var st1 := st.(clients := Remove(st.clients, s.client));
      if s.nick !in st.nicknames then Effect(st1, sent, Faulted(NicknameNotFound))
      else
        Effect(st1.(nicknames := Remove(st.nicknames, s.nick),
                    closed := if closing then st.closed + {s.client} else st.closed),
               sent, Ended)
  }

  lemma DeregisterSent(st: State, s: Session, sent: seq<Send>, closing: bool)
    ensures Deregister(st, s, sent, closing) == Deregister(st, s, [], closing).(sent := sent)
  {
  }

  /** /quit: "Server: Bye" to the client, the offline notice to everyone else,
      then the removals and `close()`.  The loop has no `break`: its next
      `recv` on the closed socket raises, which ends the thread. */
  function QuitStep(st: State, s: Session): Effect {
    Deregister(st, s,
               [(s.client, "Server: Bye")] + BroadcastSends(st.clients, s.client, s.nick + " is offline"),
               true)
  }

  /** The `ConnectionResetError` handler of the receive loop. */
  function ResetStep(st: State, s: Session): Effect {
    if s.client in st.closed then Effect(st, [], Faulted(SocketClosed))
    else
      Deregister(st, s, BroadcastSends(st.clients, s.client, "Server: " + s.nick + " is offline.\n"), false)
  }

  /** One iteration of the handler loop for the line `line`; `followUp` is the
      line the client sends after the prompt of /hide, /reveal or /broadcast. */
  function Dispatch(st: State, s: Session, line: string, followUp: string): Effect {
    if s.client in st.closed then Effect(st, [], Faulted(SocketClosed))
    else
      match Classify(line)
      case MembersCmd => MembersStep(st, s)
      case HideCmd => HideStep(st, s, followUp)
      case RevealCmd => RevealStep(st, s, followUp)
      case BroadcastCmd => BroadcastStep(st, s, followUp)
      case CreateRoomCmd => CreateRoomStep(st, s, line)
      case JoinCmd => JoinStep(st, s, line)
      case RoomCmd => RoomStep(st, s, line)
      case GetRoomsCmd => GetRoomsStep(st, s)
      case LeaveCmd => LeaveStep(st, s, line)
      case QuitCmd => QuitStep(st, s)
      case Other => Effect(st, [], Continue)
  }

  // ---------------------------------------------------------------------
  // Connections

  function NewClient(st: State, peer: string): Client {
    Client(st.nextId, peer)
  }

  /** The accept loop body after the nickname was read: register the nickname
      and the connection, confirm to it, announce it to everyone else. */
  function AcceptStep(st: State, nickname: string, peer: string): Effect {
    var c := NewClient(st, peer);
    var st1 := st.(nicknames := st.nicknames + [nickname], clients := st.clients + [c],
                   nextId := st.nextId + 1);
    Effect(st1,
           [(c, "Connected to the server")] + BroadcastSends(st1.clients, c, "Server: " + nickname + " is online!"),
           Continue)
  }

  /** The first statement of the handler thread: the nickname at the client's
      position in the client list, or None where that lookup raises. */
  function HandlerSession(st: State, c: Client): Option<Session> {
    if c !in st.clients then None
    else
      var i := IndexOf(st.clients, c);
      if i < |st.nicknames| then Some(Session(c, st.nicknames[i])) else None
  }

  // ---------------------------------------------------------------------
  // Invariant

  ghost predicate Inv(st: State) {
    && NoDup(st.clients)
    && (forall c :: c in st.clients ==> c.id < st.nextId && c !in st.closed)
    && (forall c :: c in st.closed ==> c.id < st.nextId)
    && NoDup(st.roomOrder)
    && (forall n :: n in st.rooms <==> n in st.roomOrder)
    && (forall n :: n in st.rooms ==> NoDup(st.rooms[n]))
  }
}
