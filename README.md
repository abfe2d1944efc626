# Chat relay server: command handler model

This project models the core of the multi-client TCP chat relay in
`server3.py`. The server keeps three shared registries:

- the list of connected client sockets;
- a list of visible nicknames, meant to run parallel to the client list;
- an insertion-ordered dictionary from chat-room name to its member list.

It has three parts:

- an accept step, which registers a new connection with the nickname it sends first;
- a per-connection handler, which reads one line at a time and dispatches on its text;
- `broadcast`, which sends a text to every client except one.

The handler commands are `/members`, `/hide`, `/reveal`, `/broadcast`,
`/create_room`, `/join`, `/room`, `/get_rooms`, `/leave` and `/quit`. A peer
that resets its connection is torn down by the `ConnectionResetError` handler.

The model has three modules:

- `Text` (`text.dfy`): the Python string operations the parser relies on.
  These are `startswith`, `split(" ")` keeping empty parts, `" ".join`, and the
  decimal rendering of the listing index.
- `Protocol` (`protocol.dfy`): the handler as a pure state machine.
  - A `State` holds the registries and the set of closed sockets.
  - Each command is a step function returning an `Effect`: the new state, the
    sends in order, and the outcome. The outcome is one of: the loop continues,
    the session ended, or the handler thread died on an exception.
  - `Dispatch` is the if/elif chain of the handler.
  - `Inv` is the consistency invariant of the registries.
- `Chat` (`server.dfy`): class `Server`.
  - Its fields are the registries, updated in place, plus an `outbox` holding
    every `send` in order.
  - Each command method establishes `Performed(<Protocol step of the old state>)`.
  - `Broadcast`, the `/members` listing and the `/get_rooms` listing are loops
    proved against their specification functions.
  - Every method that changes the registries requires and keeps `Valid()`.
- `Properties` (`properties.dfy`): what each command promises, stated over
  `Protocol`.

How exceptions are modelled:

- Exceptions inside the handler loop are modelled as outcomes:
  - `split(" ")[1]` on a line with no space;
  - a `KeyError` on an unknown room in `/leave`;
  - a `ValueError` from `list.remove`;
  - an `IndexError` in `/members`;
  - a send or receive on a closed socket.
- The generic `except Exception` block starts with `client.send(e.encode(...))`.
  An exception object has no `encode`, so that line raises again and the thread
  dies with no cleanup. The model therefore leaves the state exactly as it was
  when the fault occurred (`Protocol.Outcome`).
- `/quit` has no `break`. The next `recv` on the closed socket raises, and the
  thread then dies the same way. The model ends the session (`Ended`) and records
  the socket in `closed`, so any later step of that session faults.

The model follows the code as written; in particular:

- The replies are plain strings with no message envelope.
- `/leave` of an unknown room raises before its "Room does not exist" reply.
- A member that quits is never removed from its rooms.
- There is no reply for a malformed command.

## Model

| member | source | states |
|---|---|---|
| Text.StartsWith | server3.py:50 | `str.startswith`: the line begins with the prefix; the six prefix commands are told apart by it (`Properties.ClassifyMatches`) |
| Text.Join | server3.py:114 | `" ".join`: the parts with the separator between consecutive ones; undoes `Split` (`Text.JoinSplit`, `Text.SplitJoin`) |
| Text.Split | server3.py:111 | `split(" ")` always yields at least one part and no part contains the separator |
| Text.JoinSplit | server3.py:111-114 | rejoining the parts of a split with the separator gives back the line, so `/room` relays its words unchanged |
| Text.SplitJoin | server3.py:111-114 | splitting a join of separator-free words gives back the words |
| Text.NoSeparatorSplit | server3.py:80 | a line without a space splits into one part, so `split(" ")[1]` raises |
| Text.SplitAround | server3.py:111-112 | a space-free head before the first space is the first part and the rest splits on its own |
| Text.Decimal | server3.py:44 | the rendering of the listing index is a non-empty string of decimal digits with no leading zero |
| Text.DecimalValue | server3.py:44 | the digits of the rendered index read back as the index itself |
| Protocol.IndexOf | server3.py:33 | `list.index` returns the position of the first occurrence |
| Protocol.Remove | server3.py:57 | `list.remove` drops the first occurrence of the element, keeps the other entries in order, and shortens the list by one |
| Protocol.RemoveNoDup | server3.py:146 | removing from a duplicate-free list leaves the element absent and the list duplicate-free |
| Protocol.AppendNoDup | server3.py:96 | appending an absent element keeps a list duplicate-free |
| Protocol.OthersCount | server3.py:27-29 | the broadcast targets never include the excluded client and include every other entry as often as the list does |
| Protocol.OthersSnoc | server3.py:27-29 | one more loop iteration adds the next client unless it is the excluded one |
| Protocol.DeliverSnoc | server3.py:29 | one more send appends one (recipient, text) pair |
| Protocol.FirstClosed | server3.py:119-120 | the room loop delivers to the members before the first closed socket and stops at it |
| Protocol.DeregisterSent | server3.py:161-163 | the teardown's effect on the registries does not depend on the notices sent before it |
| Protocol.Others | server3.py:27-28 | the broadcast loop's targets: every client entry other than the excluded one, in list order (`Protocol.OthersCount`, `Properties.OthersWithoutMe`) |
| Protocol.BroadcastSends | server3.py:24-29 | the sends of `broadcast`: the text once to each target of `Others`, in order (`Properties.BroadcastReachesOthers`, `Chat.Server.Broadcast`) |
| Protocol.Entry | server3.py:44 | one `/members` entry: the 1-based index, a dot, the nickname, a colon and space, the peer text |
| Protocol.Names | server3.py:41-44 | the `names` accumulator after the first k iterations of the enumerate loop (`Chat.Server.MembersListing`) |
| Protocol.MembersText | server3.py:40-47 | the `/members` reply, or none when the loop indexes past the client list (`Properties.MembersReply`, `Properties.RevealBreaksMembers`) |
| Protocol.RoomNames | server3.py:128-135 | the `rooms` accumulator: each room name followed by two spaces, in insertion order (`Properties.RoomNamesAppend`, `Properties.RoomNamesShows`, `Chat.Server.RoomListing`) |
| Protocol.RoomsText | server3.py:126-136 | the `/get_rooms` reply: "No rooms available" for an empty dictionary, otherwise the heading and the listing (`Properties.GetRoomsListing`) |
| Protocol.Classify | server3.py:39-165 | the first-match if/elif chain of the handler, one verb per branch (`Properties.ClassifyMatches`) |
| Protocol.Argument | server3.py:80 | `split(" ")[1]` of the line, or none where it raises IndexError; the same expression at lines 93, 112 and 142 (`Properties.ArgumentOf`, `Properties.NoArgumentFaults`) |
| Protocol.MembersStep | server3.py:39-47 | `/members`: the listing to the sender, or the IndexError fault (`Properties.MembersReply`) |
| Protocol.HideStep | server3.py:50-58 | `/hide`: prompt, then the first copy of the follow-up nickname removed and confirmed, or ValueError after the prompt (`Properties.HideListed`, `Properties.HideUnlistedFaults`) |
| Protocol.RevealStep | server3.py:59-68 | `/reveal`: prompt, then an unlisted follow-up nickname appended and confirmed, a listed one left with no further reply (`Properties.RevealOnce`) |
| Protocol.BroadcastStep | server3.py:71-77 | `/broadcast`: prompt, the nick-prefixed message to every other client, confirmation (`Properties.BroadcastCommand`) |
| Protocol.CreateRoomStep | server3.py:79-90 | `/create_room`: a new room with the sender as its only member appended to the order, or the "already exists" reply (`Properties.CreateRoomNew`, `Properties.CreateRoomExisting`) |
| Protocol.JoinStep | server3.py:92-107 | `/join`: the sender appended to an existing room it is not in, or the "already a member" or "does not exist" reply (`Properties.JoinNewMember`, `Properties.JoinAlreadyMember`, `Properties.JoinUnknownRoom`) |
| Protocol.RoomStep | server3.py:110-124 | `/room`: the rejoined words to each member in turn up to the first closed socket, or the "Room does not exist" reply (`Properties.RoomReachesMembers`, `Properties.RoomStopsAtClosedMember`, `Properties.RoomUnknown`) |
| Protocol.GetRoomsStep | server3.py:126-139 | `/get_rooms`: the room listing to the sender, no change (`Properties.GetRoomsListing`) |
| Protocol.LeaveStep | server3.py:141-154 | `/leave`: KeyError for an unknown room, otherwise the sender's first copy removed from a room it is in, or the "not a member" reply (`Properties.LeaveMember`, `Properties.LeaveNotMember`, `Properties.LeaveUnknownRoomFaults`) |
| Protocol.Deregister | server3.py:161-163 | the teardown: remove the client, then the nickname, then close when asked, faulting where `remove` raises; the same removals at lines 173-174 (`Properties.DeregisterPreservesInv`) |
| Protocol.QuitStep | server3.py:156-163 | `/quit`: "Server: Bye", the offline notice to every other client, then teardown with close (`Properties.QuitTearsDown`, `Properties.QuitWhenHiddenFaults`) |
| Protocol.ResetStep | server3.py:169-175 | the connection-reset handler: the offline notice to every other client, then teardown without close (`Properties.ResetTearsDown`) |
| Protocol.Dispatch | server3.py:35-167 | one iteration of the handler loop: a closed socket faults the read, otherwise the step of the verb the chain selects (`Properties.ClassifyMatches`, `Properties.DispatchPreservesInv`) |
| Protocol.AcceptStep | server3.py:196-206 | accept: append the nickname and a fresh client, confirm to it, announce it to every other client (`Properties.AcceptRegisters`) |
| Protocol.HandlerSession | server3.py:33 | the handler's first lookup: the nickname at the client's position in the client list, or none where it raises (`Properties.AcceptThenHandlerNamesSession`, `Properties.HandlerMisnamesAfterReveal`, `Properties.HandlerFaultsAfterHide`) |
| Properties.ClassifyMatches | server3.py:39-165 | each command is chosen exactly by its own test: whole-line equality for four, prefix for six; no earlier branch shadows a later one |
| Properties.UnknownLineIgnored | server3.py:165-167 | a line matching no command changes nothing and sends nothing |
| Properties.ClosedSessionFaults | server3.py:37 | after its socket was closed a session's next read raises and nothing changes |
| Properties.SplitTwo | server3.py:80 | `"<verb> <name>"` splits into verb and name |
| Properties.SplitThree | server3.py:111-113 | `"<verb> <name> <rest>"` splits into verb, name, then the split of the rest |
| Properties.ArgumentOf | server3.py:111-114 | the argument of `"<verb> <name> ..."` is `name`, and the rejoined tail after it is the rest |
| Properties.NoArgumentFaults | server3.py:80 | `/create_room`, `/join`, `/room`, `/leave` without a space raise before any change or reply |
| Properties.RecipientsOfDeliver | server3.py:119-120 | one send per target, in target order |
| Properties.BroadcastReachesOthers | server3.py:24-29 | every broadcast send carries the text, none goes to the sender, and each other client entry gets exactly one |
| Properties.OthersWithoutMe | server3.py:27-29 | when the excluded client is not listed, the broadcast reaches every client in list order |
| Properties.BroadcastCommand | server3.py:71-77 | `/broadcast`: prompt and confirmation to the sender, `"<nick>: <message>"` to every other client in between, no state change |
| Properties.CreateRoomNew | server3.py:79-86 | a new room holds exactly its creator, is appended to the listing order, and is confirmed |
| Properties.CreateRoomExisting | server3.py:87-90 | a name in use changes nothing and is reported as existing |
| Properties.CreateRoomTwice | server3.py:79-90 | a second creation of the same room neither duplicates nor resets it |
| Properties.CreateRoomLine | server3.py:79-86 | `/create_room <name>` for a new name keeps the invariant, makes the sender the only member, and is confirmed |
| Properties.JoinNewMember | server3.py:94-99 | joining an existing room appends the client once and confirms |
| Properties.JoinAlreadyMember | server3.py:100-103 | a member's join changes nothing and reports membership |
| Properties.JoinUnknownRoom | server3.py:105-107 | joining an unknown room changes nothing and reports it missing |
| Properties.JoinRoomLine | server3.py:92-99 | `/join <name>` by a non-member keeps the invariant and appends it to the room |
| Properties.LeaveMember | server3.py:141-149 | leaving removes the client from that room only; afterwards it is no longer a member |
| Properties.LeaveNotMember | server3.py:150-152 | a non-member's leave changes nothing and says so |
| Properties.LeaveUnknownRoomFaults | server3.py:142-143 | leaving an unknown room raises `KeyError` before any reply; the "Room does not exist" reply is unreachable |
| Properties.LeaveRoomLine | server3.py:141-149 | `/leave <name>` by a member keeps the invariant and is confirmed |
| Properties.RoomReachesMembers | server3.py:110-121 | a room message to a room with all sockets open goes to every member in membership order, sender included, with no state change |
| Properties.RoomUnknown | server3.py:123-124 | a room message to an unknown room answers only the sender |
| Properties.RoomStopsAtClosedMember | server3.py:117-120 | a closed member makes the room loop raise, after delivering to a prefix of the members before it |
| Properties.QuitLeavesStaleMember | server3.py:156-163 | a client that quit stays in its rooms, and the next message to such a room faults the sender |
| Properties.CreateThenJoin | server3.py:79-99 | create followed by another client's join leaves the two as the room's members in that order |
| Properties.TalkLeaveList | server3.py:110-139 | in a two-member room a message reaches both, the leave is confirmed, and the listing still shows the room between the rooms created before and after it |
| Properties.RoomNamesAppend | server3.py:134-135 | the room listing is built name by name in insertion order |
| Properties.RoomNamesShows | server3.py:134-135 | every room in the order appears in the listing with its two spaces, between the listings of the rooms before and after it |
| Properties.ListingShowsRoom | server3.py:126-138 | `/get_rooms` shows every existing room, between the rooms created before and after it |
| Properties.GetRoomsListing | server3.py:126-139 | `/get_rooms` changes nothing and answers "No rooms available" or the heading and every room with two spaces after it |
| Properties.HideListed | server3.py:50-58 | hiding a listed nickname removes its first occurrence, prompts and confirms |
| Properties.HideUnlistedFaults | server3.py:53-57 | hiding an unlisted nickname raises after the prompt, with no change |
| Properties.RevealOnce | server3.py:59-68 | reveal appends an unlisted nickname, and leaves a listed one with no reply after the prompt; never adds a duplicate |
| Properties.HideThenReveal | server3.py:50-68 | a nickname listed once is gone after hide and listed once after reveal |
| Properties.RevealBreaksMembers | server3.py:43-44 | with parallel lists, one reveal of a new name makes the next `/members` raise `IndexError` |
| Properties.MembersReply | server3.py:39-47 | `/members` answers only the sender and changes nothing; it faults exactly when nicknames outnumber clients |
| Properties.QuitTearsDown | server3.py:156-163 | quit says bye, notifies every other client, removes the first copy of the client and of the nickname, closes the socket, and leaves the rooms |
| Properties.QuitWhenHiddenFaults | server3.py:161-162 | after hiding its own nickname, quit removes the client and then raises, leaving the nickname list and socket |
| Properties.ResetTearsDown | server3.py:169-175 | a reset notifies every other client and removes the first copy of the client and of the nickname, without closing |
| Properties.AcceptRegisters | server3.py:196-206 | accept appends a fresh client and its nickname, confirms to it, and announces it to exactly the clients already there |
| Properties.AcceptThenHandlerNamesSession | server3.py:33 | while the lists run parallel, a new handler looks up the nickname it was accepted with |
| Properties.HandlerMisnamesAfterReveal | server3.py:33 | in any consistent state with parallel lists, after a reveal of a new name the next connection's handler picks up the revealed name, not its own |
| Properties.HandlerFaultsAfterHide | server3.py:33 | in any consistent state with parallel lists, after a hide of a listed name the next connection's handler lookup raises |
| Properties.InitialInv | server3.py:19-21 | the empty registries are consistent |
| Properties.AcceptPreservesInv | server3.py:200-201 | accept keeps the registries consistent |
| Properties.DeregisterPreservesInv | server3.py:161-163 | teardown keeps the registries consistent |
| Properties.ResetPreservesInv | server3.py:169-175 | the reset handler keeps the registries consistent |
| Properties.CreateRoomPreservesInv | server3.py:82-83 | room creation keeps the room order and the dictionary in step |
| Properties.JoinPreservesInv | server3.py:95-96 | joining keeps each room free of duplicate members |
| Properties.LeavePreservesInv | server3.py:145-146 | leaving keeps each room free of duplicate members |
| Properties.DispatchPreservesInv | server3.py:35-167 | every handler step keeps the client list and rooms duplicate-free, closed sockets out of the client list, and the room order listing each room once |
| Chat.Server.constructor | server3.py:19-21 | the server starts with empty, consistent registries and no sends |
| Chat.Server.Broadcast | server3.py:24-29 | the loop appends one send to every other client, in list order |
| Chat.Server.Accept | server3.py:196-206 | performs the accept step on the registries and keeps them consistent |
| Chat.Server.MembersListing | server3.py:40-47 | the listing loop yields the `/members` text, or none where `clients[i-1]` raises |
| Chat.Server.RoomListing | server3.py:134-135 | the listing loop yields every room name with two spaces, in insertion order |
| Chat.Server.Members | server3.py:39-47 | performs `/members` |
| Chat.Server.Hide | server3.py:50-58 | performs `/hide` with the follow-up nickname and keeps the registries consistent |
| Chat.Server.Reveal | server3.py:59-68 | performs `/reveal` with the follow-up nickname and keeps the registries consistent |
| Chat.Server.BroadcastCommand | server3.py:71-77 | performs `/broadcast` with the follow-up message |
| Chat.Server.CreateRoom | server3.py:79-90 | performs `/create_room` and keeps the registries consistent |
| Chat.Server.JoinRoom | server3.py:92-107 | performs `/join` and keeps the registries consistent |
| Chat.Server.SendToRoom | server3.py:110-124 | performs `/room`; the member loop stops at the first closed socket |
| Chat.Server.GetRooms | server3.py:126-139 | performs `/get_rooms` |
| Chat.Server.LeaveRoom | server3.py:141-154 | performs `/leave` and keeps the registries consistent |
| Chat.Server.Teardown | server3.py:161-163 | removes the client, then the nickname, then closes when asked, faulting where `remove` raises; keeps the registries consistent |
| Chat.Server.Quit | server3.py:156-163 | performs `/quit` and keeps the registries consistent |
| Chat.Server.ConnectionReset | server3.py:169-175 | performs the reset handler and keeps the registries consistent |
| Chat.Server.Dispatch | server3.py:35-167 | performs one handler iteration for a line and keeps the registries consistent |

## Left out

- Sockets, `recv(1024)` framing and ASCII encoding: one `recv` is one whole line, and sends are (recipient, text) pairs.
- `getpeername()`: its rendered text is fixed per connection at accept time, as `Client.peer`.
- Threads and races: each handler step is atomic; interleavings of shared-list updates from concurrent handlers are not modelled.
- The follow-up line of `/hide`, `/reveal` and `/broadcast` is a parameter of the step, not a separate read that could fail.
- A connection reset is modelled only between commands, not in the middle of a step.
- A send to a peer that reset but is still registered is modelled as succeeding; only sends to sockets this server closed raise.
- The generic exception block (server3.py:177-186) is modelled by its effect: it raises again at once, so no cleanup, notice or close happens.
- `print` calls, argument parsing and the `__main__` block: output only.
- The listener's `OSError` recovery, `KeyboardInterrupt` and fatal-error exits (server3.py:211-232): these are socket lifecycle, not registry behaviour.
- Thread creation in `receive` (server3.py:208-209): the handler's first lookup is `Protocol.HandlerSession`.
- The client program `mbylut003_client.py` is not part of this model.
