/**
 The live room of a workspace: who may listen, and what is told to whom. One
 request is one step; signatures, rate limits and the types of the posted values
 are not part of this model.
 */
module LiveRelay {
  import opened Prelude
  import opened Json

  datatype RoomState = RoomState(
    accessRevision: nat, allowedUserIds: Option<seq<string>>, deleted: bool, revision: nat)

  datatype Notification = Notification(
    accessRevision: nat, allowedUserIds: seq<string>, deleted: bool, revision: nat, sourceConnectionId: Option<string>)

  /** A notification as it is posted, before it is parsed. */
  datatype Body = Body(
    workspaceId: string, accessRevision: nat, allowedUserIds: seq<string>, deleted: bool, revision: nat,
    sourceConnectionId: Option<string>)

  datatype Socket = Socket(connectionId: string, userId: string)

  datatype MessageType = Ready | AccessMessage | ChangeMessage | DeletedMessage

  datatype WireMessage = WireMessage(accessRevision: nat, revision: nat, kind: MessageType)

  datatype Sent = Sent(socket: Socket, message: WireMessage)

  datatype Response = Accepted | Ignored | Published | Gone | Forbidden | Invalid

  const NEW_ROOM: RoomState := RoomState(0, None, false, 0)

  function Wire(state: RoomState, kind: MessageType): WireMessage {
    WireMessage(state.accessRevision, state.revision, kind)
  }

  // ---------------------------------------------------------------- parsing

  const IDENTIFIER_MAX_CHARACTERS: nat := 128
  const MEMBERS_PER_WORKSPACE: nat := 25

  predicate ValidIdentifier(id: string) {
    id != "" && !IsSpace(id[0]) && !IsSpace(id[|id| - 1]) && |id| <= IDENTIFIER_MAX_CHARACTERS
  }

  /** What the room makes of a posted notification: the listed users once each in order, or a refusal. */
  function Parse(workspaceId: string, body: Body): Option<Notification> {
    if |body.allowedUserIds| > MEMBERS_PER_WORKSPACE ||
      !(forall id | id in body.allowedUserIds :: ValidIdentifier(id)) then
      None
    else if !body.deleted && body.allowedUserIds == [] then
      None
    else if body.sourceConnectionId.Some? && !ValidIdentifier(body.sourceConnectionId.value) then
      None
    else if !ValidIdentifier(body.workspaceId) || body.workspaceId != workspaceId then
      None
    else
      Some(Notification(body.accessRevision, KeySeq(ToSet(body.allowedUserIds)), body.deleted, body.revision,
                        body.sourceConnectionId))
  }

  /** A parsed notification lists exactly the posted users, and a live one lists somebody. */
  lemma ParsedListsSomebody(workspaceId: string, body: Body)
    requires Parse(workspaceId, body).Some?
    ensures var n := Parse(workspaceId, body).value;
            && ToSet(n.allowedUserIds) == ToSet(body.allowedUserIds)
            && (n.deleted || n.allowedUserIds != [])
  {
    var n := Parse(workspaceId, body).value;
    if body.allowedUserIds != [] {
      assert body.allowedUserIds[0] in ToSet(n.allowedUserIds);
    }
  }

  // -------------------------------------------------------------- decisions

  predicate AccessChanged(prior: RoomState, n: Notification) {
    n.accessRevision > prior.accessRevision || prior.allowedUserIds == None || n.deleted != prior.deleted
  }

  function NextRoom(prior: RoomState, n: Notification): RoomState {
    RoomState(
      Larger(prior.accessRevision, n.accessRevision),
      Some(if AccessChanged(prior, n) then n.allowedUserIds else prior.allowedUserIds.GetOr(n.allowedUserIds)),
      if AccessChanged(prior, n) then n.deleted else prior.deleted,
      Larger(prior.revision, n.revision))
  }

  /** The room is only replaced when something in it differs; no list and an empty list count as the same. */
  function StoredRoom(prior: RoomState, next: RoomState): RoomState {
    if next.accessRevision != prior.accessRevision || next.deleted != prior.deleted ||
       next.revision != prior.revision || next.allowedUserIds.GetOr([]) != prior.allowedUserIds.GetOr([])
    then next
    else prior
  }

  predicate Admitted(room: RoomState, socket: Socket) {
    !room.deleted && room.allowedUserIds.Some? && socket.userId in room.allowedUserIds.value
  }

  predicate SkipsSource(prior: RoomState, n: Notification, socket: Socket) {
    !AccessChanged(prior, n) && n.sourceConnectionId == Some(socket.connectionId)
  }

  /** The sockets that stay open: admitted ones whose delivery does not fail. */
  function Remaining(prior: RoomState, n: Notification, sockets: seq<Socket>, fails: set<nat>): seq<Socket> {
    if sockets == [] then
      []
    else
      var last := sockets[|sockets| - 1];
      var rest := Remaining(prior, n, sockets[..|sockets| - 1], fails);
      if Admitted(NextRoom(prior, n), last) && (SkipsSource(prior, n, last) || |sockets| - 1 !in fails)
      then rest + [last] else rest
  }

  function Kind(prior: RoomState, n: Notification, socket: Socket): MessageType {
    if !Admitted(NextRoom(prior, n), socket) then
      if NextRoom(prior, n).deleted then DeletedMessage else AccessMessage
    else if AccessChanged(prior, n) then AccessMessage else ChangeMessage
  }

  /** What is sent on a publication, in the order of the open sockets. */
  function Deliveries(prior: RoomState, n: Notification, sockets: seq<Socket>, fails: set<nat>): seq<Sent> {
    if sockets == [] then
      []
    else
      var last := sockets[|sockets| - 1];
      var rest := Deliveries(prior, n, sockets[..|sockets| - 1], fails);
      if |sockets| - 1 in fails || (Admitted(NextRoom(prior, n), last) && SkipsSource(prior, n, last)) then rest
      else rest + [Sent(last, Wire(NextRoom(prior, n), Kind(prior, n, last)))]
  }

  predicate MayConnect(room: RoomState, socket: Socket, accessRevision: nat) {
    && !room.deleted
    && (room.allowedUserIds.Some? ==>
          accessRevision >= room.accessRevision && socket.userId in room.allowedUserIds.value)
  }

  /** Every open socket belongs to a listed user, and a deleted room has none. */
  predicate Safe(room: RoomState, sockets: seq<Socket>) {
    && (room.deleted ==> sockets == [])
    && (room.allowedUserIds.Some? ==> forall s | s in sockets :: s.userId in room.allowedUserIds.value)
  }

  /** A room either never took a notification or holds an access list. */
  predicate KnowsItsUsers(room: RoomState) {
    room == NEW_ROOM || room.allowedUserIds.Some?
  }

  // --------------------------------------------------------------- the room

  class Room {
    const workspaceId: string
    var room: RoomState
    var stored: Option<RoomState>
    var sockets: seq<Socket>

    ghost predicate Valid()
      reads this
    {
      room == stored.GetOr(NEW_ROOM) && Safe(room, sockets) && KnowsItsUsers(room)
    }

    constructor (workspaceId: string)
      ensures Valid() && room == NEW_ROOM && sockets == [] && this.workspaceId == workspaceId
    {
      this.workspaceId := workspaceId;
      room := NEW_ROOM;
      stored := None;
      sockets := [];
    }

    /** The room is unloaded while idle; waking reads it back, with its sockets still open. */
    method Wake()
      requires Valid()
      modifies this`room
      ensures Valid() && room == old(room)
    {
      room := stored.GetOr(NEW_ROOM);
    }

    method AcceptConnection(socket: Socket, accessRevision: nat, revision: nat)
      returns (response: Response, ready: Option<WireMessage>)
      requires Valid()
      modifies this`sockets
      ensures Valid()
      ensures response == Accepted <==> MayConnect(room, socket, accessRevision)
      ensures response == Gone <==> room.deleted
      ensures response in {Accepted, Gone, Forbidden} && (response != Accepted ==> ready == None)
      ensures sockets == if response == Accepted then old(sockets) + [socket] else old(sockets)
      ensures response == Accepted ==>
                ready == Some(WireMessage(Larger(room.accessRevision, accessRevision),
                                          Larger(room.revision, revision), Ready))
    {
      ready := None;
      if room.deleted {
        return Gone, None;
      }
      if room.allowedUserIds.Some? &&
         (accessRevision < room.accessRevision || socket.userId !in room.allowedUserIds.value) {
        return Forbidden, None;
      }
      sockets := sockets + [socket];
      response := Accepted;
      ready := Some(Wire(room.(accessRevision := Larger(room.accessRevision, accessRevision),
                               revision := Larger(room.revision, revision)), Ready));
    }

    /**
     A notification that cannot be parsed is refused, one that is out of date is
     ignored. `fails` are the positions of the sockets on which sending throws.
     */
    method Publish(body: Body, fails: set<nat>) returns (response: Response, sent: seq<Sent>)
      requires Valid()
      modifies this
      ensures Valid()
      ensures response == Invalid <==> Parse(workspaceId, body).None?
      ensures response == Published <==>
                Parse(workspaceId, body).Some? && body.accessRevision >= old(room).accessRevision
      ensures response != Published ==>
                (response == Invalid || response == Ignored) && room == old(room) && sockets == old(sockets) &&
                  sent == []
      ensures response == Published ==>
                var n := Parse(workspaceId, body).value;
                && room == StoredRoom(old(room), NextRoom(old(room), n))
                && sockets == Remaining(old(room), n, old(sockets), fails)
                && sent == Deliveries(old(room), n, old(sockets), fails)
                && room.allowedUserIds.Some?
    {
      hide Parse, KeySeq;
      sent := [];
      var parsed := Parse(workspaceId, body);
      if parsed.None? {
        return Invalid, [];
      }
      var n := parsed.value;
      ParsedRevisions(workspaceId, body);
      ParsedListsSomebody(workspaceId, body);
      if n.accessRevision < room.accessRevision {
        return Ignored, [];
      }
      var prior := room;
      var accessChanged := AccessChanged(prior, n);
      var next := NextRoom(prior, n);
      if StoredRoom(prior, next) == next {
        stored := Some(next);
        room := next;
      }
      assert room == StoredRoom(prior, next);
      var open := sockets;
      var kept: seq<Socket> := [];
      for i := 0 to |open|
        invariant kept == Remaining(prior, n, open[..i], fails)
        invariant sent == Deliveries(prior, n, open[..i], fails)
        invariant room == StoredRoom(prior, next) && stored.GetOr(NEW_ROOM) == room
      {
        var socket := open[i];
        assert open[..i + 1][..i] == open[..i] && open[..i + 1][i] == socket;
        if next.deleted || socket.userId !in next.allowedUserIds.value {
          if i !in fails {
            sent := sent + [Sent(socket, Wire(next, if next.deleted then DeletedMessage else AccessMessage))];
          }
          continue;
        }
        if !accessChanged && n.sourceConnectionId == Some(socket.connectionId) {
          kept := kept + [socket];
          continue;
        }
        if i !in fails {
          sent := sent + [Sent(socket, Wire(next, if accessChanged then AccessMessage else ChangeMessage))];
          kept := kept + [socket];
        }
      }
      assert open[..|open|] == open;
      sockets := kept;
      RemainingAreAdmitted(prior, n, open, fails);
      response := Published;
    }
  }

  lemma ParsedRevisions(workspaceId: string, body: Body)
    requires Parse(workspaceId, body).Some?
    ensures var n := Parse(workspaceId, body).value;
            n.accessRevision == body.accessRevision && n.revision == body.revision && n.deleted == body.deleted
  {
  }

  lemma {:induction false} RemainingAreAdmitted(
    prior: RoomState, n: Notification, sockets: seq<Socket>, fails: set<nat>)
    ensures forall s | s in Remaining(prior, n, sockets, fails) :: s in sockets && Admitted(NextRoom(prior, n), s)
    ensures NextRoom(prior, n).deleted ==> Remaining(prior, n, sockets, fails) == []
    ensures Safe(StoredRoom(prior, NextRoom(prior, n)), Remaining(prior, n, sockets, fails))
  {
    if sockets == [] {
    } else {
      RemainingAreAdmitted(prior, n, sockets[..|sockets| - 1], fails);
    }
  }

  /**
   A publication reaches everyone it concerns: a socket that stays open and is
   not the source of an ordinary change is told the room's new revisions.
   */
  lemma {:induction false} RemainingAreTold(
    prior: RoomState, n: Notification, sockets: seq<Socket>, fails: set<nat>, s: Socket)
    requires s in Remaining(prior, n, sockets, fails) && !SkipsSource(prior, n, s)
    ensures exists d | d in Deliveries(prior, n, sockets, fails) ::
              d.socket == s && d.message.accessRevision == NextRoom(prior, n).accessRevision &&
              d.message.revision == NextRoom(prior, n).revision &&
              (d.message.kind == AccessMessage <==> AccessChanged(prior, n))
  {
    hide NextRoom;
    var rest := sockets[..|sockets| - 1];
    if s in Remaining(prior, n, rest, fails) {
      RemainingAreTold(prior, n, rest, fails, s);
      var d :| d in Deliveries(prior, n, rest, fails) && d.socket == s &&
        d.message.accessRevision == NextRoom(prior, n).accessRevision &&
        d.message.revision == NextRoom(prior, n).revision &&
        (d.message.kind == AccessMessage <==> AccessChanged(prior, n));
      assert d in Deliveries(prior, n, sockets, fails);
    } else {
      var d := Sent(s, Wire(NextRoom(prior, n), Kind(prior, n, s)));
      assert d in Deliveries(prior, n, sockets, fails);
    }
  }

  /** The notification is about who has access, not about an ordinary change. */
  predicate ConcernsAccess(prior: RoomState, n: Notification) {
    prior.allowedUserIds.None? || n.accessRevision > prior.accessRevision || n.deleted != prior.deleted
  }

  /** Who has access afterwards, if the workspace is not deleted. */
  predicate KeepsAccess(prior: RoomState, n: Notification, userId: string) {
    if ConcernsAccess(prior, n) then !n.deleted && userId in n.allowedUserIds
    else !prior.deleted && userId in prior.allowedUserIds.value
  }

  /** An ordinary change is not told to the connection it came from. */
  predicate IsOwnChange(prior: RoomState, n: Notification, socket: Socket) {
    !ConcernsAccess(prior, n) && n.sourceConnectionId == Some(socket.connectionId)
  }

  /** The socket stays open: its user keeps access, and nothing is sent to it or sending works. */
  predicate StaysOpen(prior: RoomState, n: Notification, sockets: seq<Socket>, fails: set<nat>, i: nat)
    requires i < |sockets|
  {
    KeepsAccess(prior, n, sockets[i].userId) && (IsOwnChange(prior, n, sockets[i]) || i !in fails)
  }

  lemma InWords(prior: RoomState, n: Notification, socket: Socket)
    ensures AccessChanged(prior, n) <==> ConcernsAccess(prior, n)
    ensures Admitted(NextRoom(prior, n), socket) <==> KeepsAccess(prior, n, socket.userId)
    ensures SkipsSource(prior, n, socket) <==> IsOwnChange(prior, n, socket)
    ensures NextRoom(prior, n).deleted == (if ConcernsAccess(prior, n) then n.deleted else prior.deleted)
  {
  }

  /** How many of the first sockets stay open. */
  function StayingBefore(prior: RoomState, n: Notification, sockets: seq<Socket>, fails: set<nat>, i: nat): nat
    requires i <= |sockets|
  {
    if i == 0 then 0
    else StayingBefore(prior, n, sockets, fails, i - 1) + if StaysOpen(prior, n, sockets, fails, i - 1) then 1 else 0
  }

  lemma {:induction false} StayingAlike(
    prior: RoomState, n: Notification, sockets: seq<Socket>, fails: set<nat>, k: nat, i: nat)
    requires i <= k <= |sockets|
    ensures StayingBefore(prior, n, sockets[..k], fails, i) == StayingBefore(prior, n, sockets, fails, i)
  {
    hide KeepsAccess, IsOwnChange;
    if i == 0 {
    } else {
      StayingAlike(prior, n, sockets, fails, k, i - 1);
    }
  }

  /**
   A publication closes nobody without cause: exactly the admitted sockets on which
   sending does not fail, or which are skipped as the source, stay open, each once and
   in their order.
   */
  lemma {:induction false} RemainingExactly(prior: RoomState, n: Notification, sockets: seq<Socket>, fails: set<nat>)
    ensures var kept := Remaining(prior, n, sockets, fails);
            && |kept| == StayingBefore(prior, n, sockets, fails, |sockets|)
            && forall i | 0 <= i < |sockets| && StaysOpen(prior, n, sockets, fails, i) ::
                 var k := StayingBefore(prior, n, sockets, fails, i);
                 k < |kept| && kept[k] == sockets[i]
  {
    hide Admitted, SkipsSource, NextRoom, KeepsAccess, IsOwnChange;
    if sockets == [] {
    } else {
      var rest := sockets[..|sockets| - 1];
      InWords(prior, n, sockets[|rest|]);
      RemainingExactly(prior, n, rest, fails);
      StayingAlike(prior, n, sockets, fails, |rest|, |rest|);
      forall i | 0 <= i < |sockets| && StaysOpen(prior, n, sockets, fails, i)
        ensures var k := StayingBefore(prior, n, sockets, fails, i);
                var kept := Remaining(prior, n, sockets, fails);
                k < |kept| && kept[k] == sockets[i]
      {
        if i < |rest| {
          assert StaysOpen(prior, n, rest, fails, i);
          StayingAlike(prior, n, sockets, fails, |rest|, i);
        }
      }
    }
  }

  /** Whoever loses access is told why before the connection closes, unless sending fails; nobody else hears of it. */
  lemma {:induction false} DeliveriesExactly(
    prior: RoomState, n: Notification, sockets: seq<Socket>, fails: set<nat>, d: Sent)
    ensures d in Deliveries(prior, n, sockets, fails) <==>
            exists i | 0 <= i < |sockets| && i !in fails ::
              && d.socket == sockets[i]
              && !(KeepsAccess(prior, n, sockets[i].userId) && IsOwnChange(prior, n, sockets[i]))
              && d.message.accessRevision == Larger(prior.accessRevision, n.accessRevision)
              && d.message.revision == Larger(prior.revision, n.revision)
              && d.message.kind ==
                 if KeepsAccess(prior, n, sockets[i].userId) then
                   (if ConcernsAccess(prior, n) then AccessMessage else ChangeMessage)
                 else if (if ConcernsAccess(prior, n) then n.deleted else prior.deleted) then DeletedMessage
                 else AccessMessage
  {
    hide Admitted, SkipsSource, AccessChanged, KeepsAccess, IsOwnChange, ConcernsAccess;
    if sockets == [] {
    } else {
      var rest := sockets[..|sockets| - 1];
      DeliveriesExactly(prior, n, rest, fails, d);
      assert forall i | 0 <= i < |rest| :: rest[i] == sockets[i];
      var last := sockets[|rest|];
      InWords(prior, n, last);
      RevisionsAfter(prior, n);
      assert d == Sent(d.socket, WireMessage(d.message.accessRevision, d.message.revision, d.message.kind));
    }
  }

  lemma RevisionsAfter(prior: RoomState, n: Notification)
    ensures NextRoom(prior, n).accessRevision == Larger(prior.accessRevision, n.accessRevision)
    ensures NextRoom(prior, n).revision == Larger(prior.revision, n.revision)
  {
  }

  predicate IdentifierInWords(id: string) {
    id != "" && |id| <= 128 && !IsSpace(id[0]) && !IsSpace(id[|id| - 1])
  }

  /**
   A posted notification is taken exactly when it is for this room's workspace, lists at
   most 25 users by proper identifiers, somebody unless it is a deletion, and names a
   proper source if it names one; it then says what was posted.
   */
  lemma ParsesExactly(workspaceId: string, body: Body)
    ensures Parse(workspaceId, body).Some? <==>
            && body.workspaceId == workspaceId && IdentifierInWords(workspaceId)
            && |body.allowedUserIds| <= 25 && (forall id | id in body.allowedUserIds :: IdentifierInWords(id))
            && (body.allowedUserIds == [] ==> body.deleted)
            && (body.sourceConnectionId.Some? ==> IdentifierInWords(body.sourceConnectionId.value))
    ensures Parse(workspaceId, body).Some? ==>
              var n := Parse(workspaceId, body).value;
              && n.accessRevision == body.accessRevision && n.revision == body.revision && n.deleted == body.deleted
              && n.sourceConnectionId == body.sourceConnectionId
              && NoDuplicates(n.allowedUserIds) && ToSet(n.allowedUserIds) == ToSet(body.allowedUserIds)
  {
    hide IsSpace;
  }

  // ------------------------------------------------------------------- runs

  datatype Event =
    | Connect(socket: Socket, accessRevision: nat, revision: nat)
    | Notify(body: Body, fails: set<nat>)
    | Close(position: nat)

  datatype Live = Live(workspaceId: string, room: RoomState, sockets: seq<Socket>)

  /** The notification an event really delivers to the room. */
  function Parsed(workspaceId: string, event: Event): Option<Notification> {
    if event.Notify? then Parse(workspaceId, event.body) else None
  }

  /** What each request does to the room and its sockets; a client may also close its socket. */
  function Handle(live: Live, event: Event): Live {
    match event
    case Connect(socket, accessRevision, _) =>
      if MayConnect(live.room, socket, accessRevision) then live.(sockets := live.sockets + [socket]) else live
    case Notify(body, fails) =>
      var parsed := Parse(live.workspaceId, body);
      if parsed.None? || parsed.value.accessRevision < live.room.accessRevision then
        live
      else
        live.(room := StoredRoom(live.room, NextRoom(live.room, parsed.value)),
              sockets := Remaining(live.room, parsed.value, live.sockets, fails))
    case Close(position) =>
      if position < |live.sockets| then live.(sockets := live.sockets[..position] + live.sockets[position + 1..])
      else live
  }

  function HandleAll(live: Live, events: seq<Event>): Live
    decreases |events|
  {
    if events == [] then live else HandleAll(Handle(live, events[0]), events[1..])
  }

  function Opened(workspaceId: string): Live {
    Live(workspaceId, NEW_ROOM, [])
  }

  /**
   In every reachable state every open socket belongs to a listed user and a
   deleted room has none, neither revision ever goes down, and a room that has
   taken a notification holds an access list for good.
   */
  lemma {:induction false} RoomStaysSafe(live: Live, events: seq<Event>)
    requires Safe(live.room, live.sockets) && KnowsItsUsers(live.room)
    ensures var final := HandleAll(live, events);
            && Safe(final.room, final.sockets) && KnowsItsUsers(final.room)
            && final.workspaceId == live.workspaceId
            && final.room.accessRevision >= live.room.accessRevision
            && final.room.revision >= live.room.revision
            && (live.room.allowedUserIds.Some? ==> final.room.allowedUserIds.Some?)
    decreases |events|
  {
    hide Parse;
    if events == [] {
      assert HandleAll(live, events) == live;
    } else {
      var parsed := Parsed(live.workspaceId, events[0]);
      if parsed.Some? {
        ParsedListsSomebody(live.workspaceId, events[0].body);
        RemainingAreAdmitted(live.room, parsed.value, live.sockets, events[0].fails);
      }
      RoomStaysSafe(Handle(live, events[0]), events[1..]);
    }
  }

  /**
   Every accepted publication leaves the room holding an access list: the one it
   named when it changed the access, the one already held otherwise.
   */
  lemma PublicationLeavesList(live: Live, body: Body, fails: set<nat>)
    requires KnowsItsUsers(live.room)
    requires Parse(live.workspaceId, body).Some? && body.accessRevision >= live.room.accessRevision
    ensures var n := Parse(live.workspaceId, body).value;
            Handle(live, Notify(body, fails)).room.allowedUserIds ==
            if AccessChanged(live.room, n) then Some(n.allowedUserIds) else live.room.allowedUserIds
    ensures Handle(live, Notify(body, fails)).room.allowedUserIds.Some?
  {
    hide Parse, Remaining;
    ParsedRevisions(live.workspaceId, body);
    ParsedListsSomebody(live.workspaceId, body);
  }

  /**
   Who may connect: nobody to a deleted room, anybody to one that was never told its
   users, and otherwise a listed user who knows of the newest access.
   */
  lemma ConnectsExactly(live: Live, socket: Socket, accessRevision: nat, revision: nat)
    ensures Handle(live, Connect(socket, accessRevision, revision)) ==
            if !live.room.deleted && (live.room.allowedUserIds.None? ||
               (accessRevision >= live.room.accessRevision && socket.userId in live.room.allowedUserIds.value))
            then live.(sockets := live.sockets + [socket]) else live
  {
  }

  /** The access part of a room as a function of the access revision. */
  datatype Access = Access(allowedUserIds: seq<string>, deleted: bool)

  predicate Follows(n: Notification, access: map<nat, Access>) {
    && n.accessRevision in access
    && n.allowedUserIds == access[n.accessRevision].allowedUserIds
    && n.deleted == access[n.accessRevision].deleted
  }

  /** The notifications the room does not refuse agree with one access history. */
  predicate AllFollow(workspaceId: string, events: seq<Event>, access: map<nat, Access>) {
    forall e | e in events && Parsed(workspaceId, e).Some? :: Follows(Parsed(workspaceId, e).value, access)
  }

  /** The highest access revision among the notifications that are not refused, if there are any. */
  function Highest(workspaceId: string, events: seq<Event>): Option<nat> {
    if events == [] then
      None
    else
      var rest := Highest(workspaceId, events[1..]);
      var first := Parsed(workspaceId, events[0]);
      if first.None? then rest
      else if rest.None? then Some(first.value.accessRevision)
      else Some(Larger(first.value.accessRevision, rest.value))
  }

  predicate Holds(room: RoomState, access: map<nat, Access>) {
    && room.accessRevision in access
    && room.allowedUserIds == Some(access[room.accessRevision].allowedUserIds)
    && room.deleted == access[room.accessRevision].deleted
  }

  lemma PublishedHolds(room: RoomState, workspaceId: string, body: Body, access: map<nat, Access>)
    requires Parse(workspaceId, body).Some? && Follows(Parse(workspaceId, body).value, access)
    requires Parse(workspaceId, body).value.accessRevision >= room.accessRevision
    requires Holds(room, access) || room == NEW_ROOM
    ensures var n := Parse(workspaceId, body).value;
            var next := StoredRoom(room, NextRoom(room, n));
            Holds(next, access) && next.accessRevision == Larger(room.accessRevision, n.accessRevision)
  {
    hide Parse;
    ParsedListsSomebody(workspaceId, body);
  }

  lemma {:induction false} HeldConverges(live: Live, events: seq<Event>, access: map<nat, Access>)
    requires AllFollow(live.workspaceId, events, access)
    requires Holds(live.room, access) || live.room == NEW_ROOM
    ensures var final := HandleAll(live, events).room;
            var highest := Highest(live.workspaceId, events);
            if highest.None? then
              final == live.room
            else
              && Holds(final, access)
              && final.accessRevision ==
                 (if live.room == NEW_ROOM then highest.value else Larger(live.room.accessRevision, highest.value))
    decreases |events|
  {
    hide Remaining, MayConnect, Parse, Holds, Follows, StoredRoom, NextRoom;
    if events == [] {
      assert HandleAll(live, events) == live;
    } else {
      var parsed := Parsed(live.workspaceId, events[0]);
      if parsed.Some? {
        assert Follows(parsed.value, access);
        if parsed.value.accessRevision >= live.room.accessRevision {
          PublishedHolds(live.room, live.workspaceId, events[0].body, access);
          HoldsIsListed(StoredRoom(live.room, NextRoom(live.room, parsed.value)), access);
        }
      }
      HeldConverges(Handle(live, events[0]), events[1..], access);
    }
  }

  lemma HoldsIsListed(room: RoomState, access: map<nat, Access>)
    requires Holds(room, access)
    ensures room != NEW_ROOM
  {
  }

  /**
   Notifications may be repeated, reordered, refused and mixed with connections at
   will: the room ends up with the access list and deletion of the highest access
   revision it accepted.
   */
  lemma RoomConverges(workspaceId: string, events: seq<Event>, access: map<nat, Access>)
    requires AllFollow(workspaceId, events, access) && Highest(workspaceId, events).Some?
    ensures var room := HandleAll(Opened(workspaceId), events).room;
            && Holds(room, access)
            && room.accessRevision == Highest(workspaceId, events).value
  {
    HeldConverges(Opened(workspaceId), events, access);
  }

  /** Two rooms told about the same highest access revision agree on everything but the revision of the contents. */
  lemma RoomsAgree(workspaceId: string, a: seq<Event>, b: seq<Event>, access: map<nat, Access>)
    requires AllFollow(workspaceId, a, access) && AllFollow(workspaceId, b, access)
    requires Highest(workspaceId, a) == Highest(workspaceId, b) && Highest(workspaceId, a).Some?
    ensures var (left, right) := (HandleAll(Opened(workspaceId), a).room, HandleAll(Opened(workspaceId), b).room);
            left.(revision := right.revision) == right
  {
    RoomConverges(workspaceId, a, access);
    RoomConverges(workspaceId, b, access);
  }

  /** The highest revision of the contents among the notifications the room accepts. */
  function HighestRevision(live: Live, events: seq<Event>): nat
    decreases |events|
  {
    if events == [] then
      0
    else
      var parsed := Parsed(live.workspaceId, events[0]);
      var later := HighestRevision(Handle(live, events[0]), events[1..]);
      if parsed.Some? && parsed.value.accessRevision >= live.room.accessRevision
      then Larger(parsed.value.revision, later) else later
  }

  /** The room knows the newest contents it accepted a notification about, in whatever order they came. */
  lemma {:induction false} RevisionIsHighest(live: Live, events: seq<Event>)
    ensures HandleAll(live, events).room.revision == Larger(live.room.revision, HighestRevision(live, events))
    decreases |events|
  {
    hide Parse, Remaining, MayConnect;
    if events == [] {
      assert HandleAll(live, events) == live;
    } else {
      RevisionIsHighest(Handle(live, events[0]), events[1..]);
    }
  }

  // -------------------------------------------------- what does not hold

  /** A deleted room is revived exactly by a notification that parses, is not out of date and says it is not deleted. */
  lemma RevivedExactly(live: Live, body: Body, fails: set<nat>)
    requires live.room.deleted
    ensures !Handle(live, Notify(body, fails)).room.deleted <==>
              && Parse(live.workspaceId, body).Some?
              && body.accessRevision >= live.room.accessRevision
              && !body.deleted
    ensures body.allowedUserIds == [] ==> Handle(live, Notify(body, fails)).room.deleted
  {
    hide Remaining, KeySeq;
  }

  /**
   At an unchanged access revision a deletion is not final: the same list of users
   without the deletion revives the room, and an empty list does not.
   */
  lemma DeletionIsNotSticky(workspaceId: string, revision: nat, users: seq<string>)
    requires ValidIdentifier(workspaceId) && |users| <= MEMBERS_PER_WORKSPACE
    requires forall id | id in users :: ValidIdentifier(id)
    ensures var deletion := Notify(Body(workspaceId, revision, users, true, 0, None), {});
            var revival := Notify(Body(workspaceId, revision, users, false, 0, None), {});
            && HandleAll(Opened(workspaceId), [deletion]).room.deleted
            && (!HandleAll(Opened(workspaceId), [deletion, revival]).room.deleted <==> users != [])
  {
    hide Remaining, KeySeq;
    var deletion := Notify(Body(workspaceId, revision, users, true, 0, None), {});
    var revival := Notify(Body(workspaceId, revision, users, false, 0, None), {});
    assert [deletion, revival][1..] == [revival] && [revival][1..] == [] && [deletion][1..] == [];
    var one := Handle(Opened(workspaceId), deletion);
    var two := Handle(one, revival);
    assert HandleAll(one, []) == one && HandleAll(two, []) == two;
    assert HandleAll(one, [revival]) == two;
    RevivedExactly(one, revival.body, {});
  }
}
