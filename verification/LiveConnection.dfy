/**
 The client's end of the live channel: one closure's worth of timers, a request, a
 stream or a socket, and the coalescing of what arrives. Every callback is one
 step; delays, parsing and the network itself are not part of this model.
 */
module LiveConnection {
  import opened Prelude

  datatype Kind = Ready | Change | AccessChange | Deleted

  datatype Message = Message(accessRevision: nat, revision: nat, kind: Kind)

  datatype Callback =
    | Delivered(message: Message)
    | AccountMismatch
    | AuthenticationRequired
    | AccessLost

  datatype Failure = AccountFailure | AuthenticationFailure | AccessFailure | RetryFailure

  datatype Transport = Unavailable | ServerSentEvents | WebSocket(factoryThrows: bool)

  /** Where an attempt to connect stands between two awaits. */
  datatype Stage = AwaitingCapability | AwaitingStream | Streaming

  /** The abort controller of an attempt's capability request or of its stream. */
  datatype Handle = CapabilityHandle(attempt: nat) | StreamHandle(attempt: nat)

  datatype Connection = Connection(
    stopped: bool,
    reconnectAttempt: nat,
    reconnectTimer: bool,
    stabilityTimer: bool,
    notificationTimer: bool,
    pending: Option<Message>,
    activeAbort: Option<Handle>,
    activeSocket: Option<nat>,
    observedAccess: nat,
    observedRevision: nat,
    attempts: map<nat, Stage>,
    sockets: set<nat>,
    nextId: nat,
    log: seq<Callback>)

  datatype Event =
    | CapabilityArrives(attempt: nat, accessRevision: nat, revision: nat, transport: Transport, online: bool)
    | AttemptFails(attempt: nat, failure: Failure, online: bool)
    | StreamArrives(attempt: nat)
    | StreamMessage(attempt: nat, message: Message)
    | StreamEnds(attempt: nat, online: bool)
    | SocketOpens(socket: nat)
    | SocketMessage(socket: nat, message: Message)
    | SocketCloses(socket: nat, online: bool)
    | ReconnectFires(online: bool)
    | NotificationFires
    | StabilityFires
    | Stop

  // ----------------------------------------------------- coalescing messages

  function Priority(kind: Kind): nat {
    match kind
    case Deleted => 4
    case AccessChange => 3
    case Change => 2
    case Ready => 1
  }

  function Merge(left: Message, right: Message): Message {
    Message(Larger(left.accessRevision, right.accessRevision), Larger(left.revision, right.revision),
            if Priority(right.kind) > Priority(left.kind) then right.kind else left.kind)
  }

  /** Coalescing is a join: neither the order nor repetition of messages matters. */
  lemma MergeIsJoin(a: Message, b: Message, c: Message)
    ensures Merge(a, b) == Merge(b, a)
    ensures Merge(Merge(a, b), c) == Merge(a, Merge(b, c))
    ensures Merge(a, a) == a
  {
  }

  /** The most urgent kind wins: a deletion, then a change of access, then of the contents. */
  lemma MergeKeepsUrgency(a: Message, b: Message)
    ensures var m := Merge(a, b);
            && m.accessRevision == (if a.accessRevision < b.accessRevision then b else a).accessRevision
            && m.revision == (if a.revision < b.revision then b else a).revision
            && (m.kind == Deleted <==> Deleted in {a.kind, b.kind})
            && (m.kind == AccessChange <==> AccessChange in {a.kind, b.kind} && Deleted !in {a.kind, b.kind})
            && (m.kind == Ready <==> a.kind == Ready && b.kind == Ready)
  {
  }

  // ------------------------------------------------------------------ steps

  function Receive(c: Connection, m: Message): Connection {
    if c.stopped || (m.kind != Deleted && m.accessRevision <= c.observedAccess && m.revision <= c.observedRevision) then
      c
    else
      c.(observedAccess := Larger(c.observedAccess, m.accessRevision),
         observedRevision := Larger(c.observedRevision, m.revision),
         pending := Some(if c.pending.Some? then Merge(c.pending.value, m) else m),
         notificationTimer := true)
  }

  function Flush(c: Connection): Connection {
    c.(notificationTimer := false,
       pending := None,
       log := if !c.stopped && c.pending.Some? then c.log + [Delivered(c.pending.value)] else c.log)
  }

  function Schedule(c: Connection, online: bool): Connection {
    if c.stopped || c.reconnectTimer || !online then c
    else c.(reconnectAttempt := c.reconnectAttempt + 1, reconnectTimer := true)
  }

  function Fail(c: Connection, failure: Failure, online: bool): Connection {
    if c.stopped then c
    else
      match failure
      case AccountFailure => c.(log := c.log + [AccountMismatch])
      case AuthenticationFailure => c.(log := c.log + [AuthenticationRequired])
      case AccessFailure => c.(log := c.log + [AccessLost])
      case RetryFailure => Schedule(c, online)
  }

  function Establish(c: Connection, online: bool): Connection {
    if c.stopped || !online then c
    else c.(attempts := c.attempts[c.nextId := AwaitingCapability],
            activeAbort := Some(CapabilityHandle(c.nextId)),
            nextId := c.nextId + 1)
  }

  /** The attempt is over; only its capability request's handle is cleared on the way out. */
  function Finish(c: Connection, attempt: nat): Connection {
    c.(attempts := c.attempts - {attempt},
       activeAbort := if c.activeAbort == Some(CapabilityHandle(attempt)) then None else c.activeAbort)
  }

  function HaveCapability(c: Connection, attempt: nat, transport: Transport, online: bool): Connection {
    if c.stopped || transport == Unavailable then
      Finish(c, attempt)
    else
      match transport
      case WebSocket(throws) =>
        if throws then Finish(Fail(c.(activeAbort := None), RetryFailure, online), attempt)
        else
          Finish(c.(activeAbort := None, activeSocket := Some(c.nextId), sockets := c.sockets + {c.nextId},
                    nextId := c.nextId + 1), attempt)
      case _ =>
        c.(activeAbort := Some(StreamHandle(attempt)), attempts := c.attempts[attempt := AwaitingStream])
  }

  function Step(c: Connection, event: Event): Connection {
    match event
    case CapabilityArrives(attempt, accessRevision, revision, transport, online) =>
      HaveCapability(Receive(c, Message(accessRevision, revision, Ready)), attempt, transport, online)
    case AttemptFails(attempt, failure, online) =>
      var cleared := if attempt in c.attempts &&
        c.attempts[attempt] == Streaming then c.(stabilityTimer := false) else c;
      Finish(Fail(cleared, failure, online), attempt)
    case StreamArrives(attempt) =>
      c.(attempts := c.attempts[attempt := Streaming], stabilityTimer := true)
    case StreamMessage(_, m) => Receive(c, m)
    case StreamEnds(attempt, online) =>
      var cleared := c.(stabilityTimer := false,
                        activeAbort := if c.activeAbort == Some(StreamHandle(attempt)) then None else c.activeAbort);
      Finish(Schedule(cleared, online), attempt)
    case SocketOpens(socket) => if c.activeSocket == Some(socket) then c.(stabilityTimer := true) else c
    case SocketMessage(socket, m) => if c.activeSocket == Some(socket) then Receive(c, m) else c
    case SocketCloses(socket, online) =>
      if c.activeSocket == Some(socket) then Schedule(c.(activeSocket := None, stabilityTimer := false), online) else c
    case ReconnectFires(online) => Establish(c.(reconnectTimer := false), online)
    case NotificationFires => Flush(c)
    case StabilityFires => c.(stabilityTimer := false, reconnectAttempt := 0)
    case Stop =>
      if c.stopped then c
      else c.(stopped := true, activeAbort := None, activeSocket := None, reconnectTimer := false,
              notificationTimer := false, stabilityTimer := false, pending := None)
  }

  /** Callbacks come from things that were really started; timers fire only while set. */
  predicate Enabled(c: Connection, event: Event) {
    match event
    case CapabilityArrives(attempt, _, _, _, _) => attempt in c.attempts && c.attempts[attempt] == AwaitingCapability
    case AttemptFails(attempt, _, _) => attempt in c.attempts
    case StreamArrives(attempt) => attempt in c.attempts && c.attempts[attempt] == AwaitingStream
    case StreamMessage(attempt, _) => attempt in c.attempts && c.attempts[attempt] == Streaming
    case StreamEnds(attempt, _) => attempt in c.attempts && c.attempts[attempt] == Streaming
    case SocketOpens(socket) => socket in c.sockets
    case SocketMessage(socket, _) => socket in c.sockets
    case SocketCloses(socket, _) => socket in c.sockets
    case ReconnectFires(_) => c.reconnectTimer
    case NotificationFires => c.notificationTimer
    case StabilityFires => c.stabilityTimer
    case Stop => true
  }

  function Opened(accessRevision: nat, revision: nat, online: bool): Connection {
    Establish(Connection(false, 0, false, false, false, None, None, None, accessRevision, revision, map[], {}, 0,
        []), online)
  }

  function Run(c: Connection, events: seq<Event>): Connection
    decreases |events|
  {
    if events == [] then c else Run(Step(c, events[0]), events[1..])
  }

  predicate Possible(c: Connection, events: seq<Event>)
    decreases |events|
  {
    events == [] || (Enabled(c, events[0]) && Possible(Step(c, events[0]), events[1..]))
  }

  // ------------------------------------------------------------- invariants

  /** At most one of request, stream, socket and reconnect timer is live. */
  predicate OneLive(c: Connection) {
    && (forall a, b | a in c.attempts && b in c.attempts :: a == b)
    && (c.activeSocket.Some? ==> c.attempts == map[] && !c.reconnectTimer)
    && (c.reconnectTimer ==> c.attempts == map[])
  }

  /** Until it is stopped, a live request or stream is the one stopping would abort. */
  predicate Abortable(c: Connection) {
    !c.stopped ==> forall a | a in c.attempts ::
      c.activeAbort == Some(if c.attempts[a] == AwaitingCapability then CapabilityHandle(a) else StreamHandle(a))
  }

  predicate FreshIds(c: Connection) {
    && (forall a | a in c.attempts :: a < c.nextId)
    && (forall s | s in c.sockets :: s < c.nextId)
    && (c.activeSocket.Some? ==> c.activeSocket.value in c.sockets)
  }

  predicate Silenced(c: Connection) {
    c.stopped ==>
      && !c.reconnectTimer && !c.notificationTimer && c.pending == None
      && c.activeSocket == None && c.activeAbort == None
  }

  /** The stability timer runs only while something is connected. */
  predicate StableOnlyConnected(c: Connection) {
    c.stabilityTimer && !c.stopped ==> c.activeSocket.Some? || exists a | a in c.attempts :: c.attempts[a] == Streaming
  }

  function JoinAll(start: Message, log: seq<Callback>): Message {
    if log == [] then start
    else
      var last := log[|log| - 1];
      var before := JoinAll(start, log[..|log| - 1]);
      if last.Delivered? then Merge(before, last.message) else before
  }

  predicate Advances(base: Message, m: Message) {
    m.accessRevision > base.accessRevision || m.revision > base.revision
  }

  /** Every delivered message brings a revision that was not delivered before, or a deletion. */
  ghost predicate AllAdvance(start: Message, log: seq<Callback>) {
    forall i | 0 <= i < |log| && log[i].Delivered? ::
      log[i].message.kind == Deleted || Advances(JoinAll(start, log[..i]), log[i].message)
  }

  /** The observed revisions are the join of what was there, what was delivered and what is pending. */
  ghost predicate ObservedIsJoin(c: Connection, start: Message) {
    !c.stopped ==>
      var delivered := JoinAll(start, c.log);
      var all := if c.pending.Some? then Merge(delivered, c.pending.value) else delivered;
      && c.observedAccess == all.accessRevision
      && c.observedRevision == all.revision
      && (c.pending.Some? <==> c.notificationTimer)
      && (c.pending.Some? && c.pending.value.kind != Deleted ==> Advances(delivered, c.pending.value))
  }

  ghost predicate Inv(c: Connection, start: Message) {
    && OneLive(c) && Abortable(c) && FreshIds(c) && Silenced(c) && StableOnlyConnected(c)
    && ObservedIsJoin(c, start) && AllAdvance(start, c.log)
  }

  lemma JoinAppend(start: Message, log: seq<Callback>, last: Callback)
    ensures JoinAll(start, log + [last]) ==
            if last.Delivered? then Merge(JoinAll(start, log), last.message) else JoinAll(start, log)
    ensures AllAdvance(start, log) && (last.Delivered? ==>
              last.message.kind == Deleted || Advances(JoinAll(start, log), last.message))
            ==> AllAdvance(start, log + [last])
  {
    var longer := log + [last];
    assert longer[..|log|] == log;
    forall i | 0 <= i < |longer|
      ensures longer[..i] == if i < |log| then log[..i] else log
    {
    }
  }

  lemma ReceiveKeeps(c: Connection, start: Message, m: Message)
    requires Inv(c, start)
    ensures Inv(Receive(c, m), start)
  {
    hide JoinAll, AllAdvance;
  }

  lemma FlushKeeps(c: Connection, start: Message)
    requires Inv(c, start)
    ensures Inv(Flush(c), start)
  {
    hide JoinAll, AllAdvance;
    if !c.stopped && c.pending.Some? {
      JoinAppend(start, c.log, Delivered(c.pending.value));
    }
  }

  lemma LoggedKeeps(c: Connection, start: Message, callback: Callback)
    requires Inv(c, start) && !callback.Delivered?
    ensures Inv(c.(log := c.log + [callback]), start)
  {
    hide JoinAll, AllAdvance;
    JoinAppend(start, c.log, callback);
  }

  /** A failed attempt ends before anything else is started. */
  lemma FailKeeps(c: Connection, start: Message, attempt: nat, failure: Failure, online: bool)
    requires Inv(c.(stabilityTimer := false), start) && attempt in c.attempts
    ensures Inv(Finish(Fail(c.(stabilityTimer := false), failure, online), attempt), start)
  {
    hide JoinAll, AllAdvance;
    var quiet := c.(stabilityTimer := false);
    match failure {
      case AccountFailure => LoggedKeeps(quiet, start, AccountMismatch);
      case AuthenticationFailure => LoggedKeeps(quiet, start, AuthenticationRequired);
      case AccessFailure => LoggedKeeps(quiet, start, AccessLost);
      case RetryFailure =>
    }
    assert c.attempts - {attempt} == map[];
  }

  lemma CapabilityKeeps(c: Connection, start: Message, attempt: nat, transport: Transport, online: bool)
    requires Inv(c, start) && attempt in c.attempts && c.attempts[attempt] == AwaitingCapability
    ensures Inv(HaveCapability(c, attempt, transport, online), start)
  {
    hide JoinAll, AllAdvance;
    assert c.attempts - {attempt} == map[];
  }

  lemma StreamKeeps(c: Connection, start: Message, event: Event)
    requires Inv(c, start) && Enabled(c, event) && (event.StreamArrives? || event.StreamEnds?)
    ensures Inv(Step(c, event), start)
  {
    hide JoinAll, AllAdvance;
    if event.StreamEnds? {
      assert c.attempts - {event.attempt} == map[];
    } else {
      assert Step(c, event).attempts[event.attempt] == Streaming;
    }
  }

  /** Every callback keeps the connection consistent. */
  lemma StepKeeps(c: Connection, start: Message, event: Event)
    requires Inv(c, start) && Enabled(c, event)
    ensures Inv(Step(c, event), start)
  {
    hide JoinAll, AllAdvance, ObservedIsJoin;
    match event {
      case CapabilityArrives(attempt, accessRevision, revision, transport, online) =>
        ReceiveKeeps(c, start, Message(accessRevision, revision, Ready));
        CapabilityKeeps(Receive(c, Message(accessRevision, revision, Ready)), start, attempt, transport, online);
      case AttemptFails(attempt, failure, online) => AttemptFailsKeeps(c, start, event);
      case StreamArrives(_) => StreamKeeps(c, start, event);
      case StreamMessage(_, m) => ReceiveKeeps(c, start, m);
      case StreamEnds(_, _) => StreamKeeps(c, start, event);
      case SocketMessage(_, m) => ReceiveKeeps(c, start, m);
      case NotificationFires => FlushKeeps(c, start);
      case _ => OtherKeeps(c, start, event);
    }
  }

  lemma AttemptFailsKeeps(c: Connection, start: Message, event: Event)
    requires Inv(c, start) && Enabled(c, event) && event.AttemptFails?
    ensures Inv(Step(c, event), start)
  {
    hide JoinAll, AllAdvance;
    assert !c.stopped && c.attempts[event.attempt] != Streaming ==> !c.stabilityTimer;
    if c.attempts[event.attempt] == Streaming || !c.stopped {
      assert (if c.attempts[event.attempt] == Streaming then c.(stabilityTimer := false) else c) ==
        c.(stabilityTimer := false);
      FailKeeps(c, start, event.attempt, event.failure, event.online);
    }
  }

  lemma OtherKeeps(c: Connection, start: Message, event: Event)
    requires Inv(c, start) && Enabled(c, event)
    requires event.SocketOpens? || event.SocketCloses? || event.ReconnectFires? || event.StabilityFires? || event.Stop?
    ensures Inv(Step(c, event), start)
  {
    hide JoinAll, AllAdvance;
  }

  lemma OpenedHolds(accessRevision: nat, revision: nat, online: bool)
    ensures Inv(Opened(accessRevision, revision, online), Message(accessRevision, revision, Ready))
  {
  }

  lemma {:induction false} RunKeeps(c: Connection, start: Message, events: seq<Event>)
    requires Inv(c, start) && Possible(c, events)
    ensures Inv(Run(c, events), start)
    decreases |events|
  {
    hide Inv, Step, Enabled;
    if events == [] {
    } else {
      StepKeeps(c, start, events[0]);
      RunKeeps(Step(c, events[0]), start, events[1..]);
    }
  }

  /**
   In every reachable state at most one of request, stream, socket and reconnect
   timer is live; the observed revisions are the join of the initial ones, the
   delivered messages and the pending one; and every delivered message strictly
   advances what was delivered before, unless it announces a deletion.
   */
  lemma ReachableIsConsistent(accessRevision: nat, revision: nat, online: bool, events: seq<Event>)
    requires Possible(Opened(accessRevision, revision, online), events)
    ensures var c := Run(Opened(accessRevision, revision, online), events);
            var start := Message(accessRevision, revision, Ready);
            && OneLive(c)
            && Abortable(c)
            && ObservedIsJoin(c, start)
            && AllAdvance(start, c.log)
  {
    hide Possible, Run, Opened;
    OpenedHolds(accessRevision, revision, online);
    RunKeeps(Opened(accessRevision, revision, online), Message(accessRevision, revision, Ready), events);
  }

  // ------------------------------------------------------------ keeping alive

  /** Something will lead to a connection, or is one. */
  predicate Live(c: Connection) {
    c.attempts != map[] || c.activeSocket.Some? || c.reconnectTimer
  }

  /** The callbacks after which nothing more is tried: an end for good, no transport, or being offline. */
  predicate GivesUp(c: Connection, event: Event) {
    match event
    case CapabilityArrives(_, _, _, transport, online) =>
      transport == Unavailable || (transport == WebSocket(true) && !online)
    case AttemptFails(_, failure, online) => failure != RetryFailure || !online
    case StreamEnds(_, online) => !online
    case SocketCloses(socket, online) => c.activeSocket == Some(socket) && !online
    case ReconnectFires(online) => !online
    case _ => false
  }

  /** Between two callbacks a live attempt is alone: no other attempt, socket or timer. */
  lemma AttemptIsAlone(c: Connection, attempt: nat)
    requires OneLive(c) && attempt in c.attempts
    ensures c.attempts - {attempt} == map[] && c.activeSocket == None && !c.reconnectTimer
  {
  }

  lemma CapabilityStaysLive(c: Connection, attempt: nat, transport: Transport, online: bool)
    requires OneLive(c) && attempt in c.attempts && !c.stopped
    ensures var next := HaveCapability(c, attempt, transport, online);
            !next.stopped && (Live(next) <==> !(transport == Unavailable || (transport == WebSocket(true) && !online)))
  {
    AttemptIsAlone(c, attempt);
    if transport == ServerSentEvents {
      assert attempt in HaveCapability(c, attempt, transport, online).attempts;
    }
  }

  lemma EndedAttemptStaysLive(c: Connection, attempt: nat, failure: Failure, online: bool)
    requires OneLive(c) && attempt in c.attempts && !c.stopped
    ensures var next := Finish(Fail(c, failure, online), attempt);
            !next.stopped && (Live(next) <==> failure == RetryFailure && online)
  {
    AttemptIsAlone(c, attempt);
  }

  /** A live connection stays live until it is stopped or gives up, and then nothing is tried any more. */
  lemma LiveUnlessGivenUp(c: Connection, start: Message, event: Event)
    requires Inv(c, start) && Enabled(c, event) && Live(c) && !c.stopped
    ensures !event.Stop? ==> !Step(c, event).stopped && (Live(Step(c, event)) <==> !GivesUp(c, event))
    ensures event.Stop? ==> Step(c, event).stopped
  {
    hide JoinAll, AllAdvance, ObservedIsJoin, Abortable, FreshIds, Silenced, StableOnlyConnected, HaveCapability, Fail,
         Finish;
    match event {
      case CapabilityArrives(attempt, accessRevision, revision, transport, online) =>
        CapabilityStaysLive(Receive(c, Message(accessRevision, revision, Ready)), attempt, transport, online);
      case AttemptFails(attempt, failure, online) =>
        EndedAttemptStaysLive(c, attempt, failure, online);
        EndedAttemptStaysLive(c.(stabilityTimer := false), attempt, failure, online);
      case _ => OthersStayLive(c, event);
    }
  }

  lemma OthersStayLive(c: Connection, event: Event)
    requires OneLive(c) && Enabled(c, event) && Live(c) && !c.stopped
    requires !event.CapabilityArrives? && !event.AttemptFails?
    ensures !event.Stop? ==> !Step(c, event).stopped && (Live(Step(c, event)) <==> !GivesUp(c, event))
    ensures event.Stop? ==> Step(c, event).stopped
  {
    hide Merge, HaveCapability, Fail;
    match event {
      case StreamEnds(attempt, _) => AttemptIsAlone(c, attempt);
      case StreamArrives(attempt) => assert attempt in Step(c, event).attempts;
      case ReconnectFires(online) =>
        if online {
          assert c.nextId in Step(c, event).attempts;
        }
      case _ =>
    }
  }

  predicate NeverGivesUp(c: Connection, events: seq<Event>)
    decreases |events|
  {
    events == [] || (!GivesUp(c, events[0]) && NeverGivesUp(Step(c, events[0]), events[1..]))
  }

  lemma {:induction false} RunStaysLive(c: Connection, start: Message, events: seq<Event>)
    requires Inv(c, start) && Possible(c, events) && NeverGivesUp(c, events) && Live(c) && !c.stopped
    requires forall e | e in events :: !e.Stop?
    ensures Live(Run(c, events)) && !Run(c, events).stopped
    decreases |events|
  {
    hide Inv, Step, Enabled, GivesUp, Live;
    if events == [] {
    } else {
      assert events[0] in events;
      StepKeeps(c, start, events[0]);
      LiveUnlessGivenUp(c, start, events[0]);
      RunStaysLive(Step(c, events[0]), start, events[1..]);
    }
  }

  /**
   A client that opened online and is not stopped is, whatever fails or closes in
   whatever order, always connected, connecting or about to, as long as no callback makes
   it give up.
   */
  lemma AlwaysLive(accessRevision: nat, revision: nat, events: seq<Event>)
    requires Possible(Opened(accessRevision, revision, true), events)
    requires NeverGivesUp(Opened(accessRevision, revision, true), events)
    requires forall e | e in events :: !e.Stop?
    ensures Live(Run(Opened(accessRevision, revision, true), events))
  {
    hide Inv, Possible, NeverGivesUp, Run;
    var c := Opened(accessRevision, revision, true);
    OpenedHolds(accessRevision, revision, true);
    assert 0 in c.attempts;
    RunStaysLive(c, Message(accessRevision, revision, Ready), events);
  }

  /** A failed attempt is reported once as what it is; one to retry is not reported but counted. */
  lemma FailureIsReported(c: Connection, attempt: nat, failure: Failure, online: bool)
    requires attempt in c.attempts
    ensures var next := Step(c, AttemptFails(attempt, failure, online));
            && attempt !in next.attempts
            && next.log == c.log + (if c.stopped then []
                                    else match failure
                                         case AccountFailure => [AccountMismatch]
                                         case AuthenticationFailure => [AuthenticationRequired]
                                         case AccessFailure => [AccessLost]
                                         case RetryFailure => [])
            && next.reconnectAttempt == c.reconnectAttempt +
                 (if !c.stopped && failure == RetryFailure && online && !c.reconnectTimer then 1 else 0)
  {
    hide Receive, Merge, Flush, Establish, HaveCapability;
  }

  /** The delay between attempts starts over only once a connection proved stable. */
  lemma BackoffStartsOver(c: Connection, event: Event)
    ensures event.StabilityFires? ==> Step(c, event).reconnectAttempt == 0 && !Step(c, event).stabilityTimer
    ensures !event.StabilityFires? ==> Step(c, event).reconnectAttempt >= c.reconnectAttempt
    ensures event.StreamArrives? || (event.SocketOpens? && c.activeSocket == Some(event.socket)) ==>
              Step(c, event).stabilityTimer
  {
    hide Merge;
  }

  /** When the coalescing timer fires, exactly what is pending is delivered, as one message. */
  lemma PendingIsDelivered(c: Connection)
    ensures var next := Step(c, NotificationFires);
            && next.pending == None && !next.notificationTimer
            && next.log == c.log + (if c.stopped || c.pending.None? then [] else [Delivered(c.pending.value)])
  {
  }

  /** What arrives is merged into what is pending; what brings nothing new, or comes after stopping, is dropped. */
  lemma ReceivedExactly(c: Connection, m: Message)
    ensures var next := Receive(c, m);
            if !c.stopped && (m.kind == Deleted || m.accessRevision > c.observedAccess ||
                              m.revision > c.observedRevision) then
              && next.pending == Some(if c.pending.Some? then Merge(c.pending.value, m) else m)
              && next.notificationTimer
              && next.observedAccess == Larger(c.observedAccess, m.accessRevision)
              && next.observedRevision == Larger(c.observedRevision, m.revision)
            else
              next == c
  {
  }

  /**
   Messages of the stream and of the socket in use count; what a socket that was given
   up still does has no effect.
   */
  lemma OnlyTheSocketInUseCounts(c: Connection, socket: nat, attempt: nat, m: Message, online: bool)
    ensures c.activeSocket == Some(socket) ==> Step(c, Event.SocketMessage(socket, m)) == Receive(c, m)
    ensures c.activeSocket != Some(socket) ==>
              && Step(c, Event.SocketMessage(socket, m)) == c
              && Step(c, SocketOpens(socket)) == c
              && Step(c, SocketCloses(socket, online)) == c
    ensures Step(c, StreamMessage(attempt, m)) == Receive(c, m)
  {
    hide Receive, Schedule, Fail, HaveCapability, Establish, Flush, Finish;
  }

  /** The revisions a capability brings count like a message that arrives. */
  lemma CapabilityCounts(
    c: Connection, attempt: nat, accessRevision: nat, revision: nat, transport: Transport, online: bool)
    ensures var next := Step(c, CapabilityArrives(attempt, accessRevision, revision, transport, online));
            var told := Receive(c, Message(accessRevision, revision, Ready));
            && next.observedAccess == told.observedAccess && next.observedRevision == told.observedRevision
            && next.pending == told.pending && next.notificationTimer == told.notificationTimer
  {
    hide Receive, Establish, Flush;
  }

  // ----------------------------------------------------------- after stopping

  /**
   Nothing is opened and no callback fires once the connection is stopped; only an
   aborted attempt may still wind up.
   */
  lemma {:induction false} StoppedIsSilent(c: Connection, events: seq<Event>)
    requires c.stopped && Silenced(c) && Possible(c, events)
    ensures var final := Run(c, events);
            && final.stopped && Silenced(final)
            && final.log == c.log
            && final.nextId == c.nextId && final.sockets == c.sockets
            && final.attempts.Keys <= c.attempts.Keys
    decreases |events|
  {
    if events == [] {
    } else {
      StoppedStep(c, events[0]);
      StoppedIsSilent(Step(c, events[0]), events[1..]);
    }
  }

  lemma StoppedStep(c: Connection, event: Event)
    requires c.stopped && Silenced(c) && Enabled(c, event)
    ensures var next := Step(c, event);
            && next.stopped && Silenced(next) && next.log == c.log
            && next.nextId == c.nextId && next.sockets == c.sockets
            && next.attempts.Keys <= c.attempts.Keys
  {
  }

  // ------------------------------------------------- nothing observed is lost

  /** What has arrived is never forgotten: when nothing is pending, all of it has been delivered. */
  lemma ObservedIsDelivered(c: Connection, start: Message)
    requires Inv(c, start) && !c.stopped && !c.notificationTimer
    ensures c.observedAccess == JoinAll(start, c.log).accessRevision
    ensures c.observedRevision == JoinAll(start, c.log).revision
  {
  }

  /** A message that arrives is covered afterwards, and a deletion is pending as a deletion. */
  lemma ReceivedIsCovered(c: Connection, start: Message, m: Message)
    requires Inv(c, start) && !c.stopped
    ensures var next := Receive(c, m);
            && next.observedAccess >= m.accessRevision && next.observedRevision >= m.revision
            && (m.kind == Deleted ==>
                  next.pending.Some? && next.pending.value.kind == Deleted && next.notificationTimer)
  {
    hide JoinAll, AllAdvance;
  }

  // ------------------------------------------------------------ the closure

  /**
   The closure's variables and callbacks. The attempts under way, the sockets
   created and the callbacks made so far are recorded beside them.
   */
  class LiveClient {
    var stopped: bool
    var reconnectAttempt: nat
    var reconnectTimer: bool
    var stabilityTimer: bool
    var notificationTimer: bool
    var pending: Option<Message>
    var activeAbort: Option<Handle>
    var activeSocket: Option<nat>
    var observedAccess: nat
    var observedRevision: nat
    var nextId: nat
    var attempts: map<nat, Stage>
    ghost var sockets: set<nat>
    ghost var log: seq<Callback>

    ghost function View(): Connection
      reads this
    {
      Connection(stopped, reconnectAttempt, reconnectTimer, stabilityTimer, notificationTimer, pending, activeAbort,
                 activeSocket, observedAccess, observedRevision, attempts, sockets, nextId, log)
    }

    constructor (accessRevision: nat, revision: nat, online: bool)
      ensures View() == Opened(accessRevision, revision, online)
      ensures Inv(View(), Message(accessRevision, revision, Ready))
    {
      stopped, reconnectAttempt := false, 0;
      reconnectTimer, stabilityTimer, notificationTimer := false, false, false;
      pending, activeAbort, activeSocket := None, None, None;
      observedAccess, observedRevision := accessRevision, revision;
      nextId, attempts, sockets, log := 0, map[], {}, [];
      new;
      StartEstablish(online);
      OpenedHolds(accessRevision, revision, online);
    }

    method StartEstablish(online: bool)
      modifies this
      ensures View() == Establish(old(View()), online)
    {
      if stopped || !online {
        return;
      }
      activeAbort := Some(CapabilityHandle(nextId));
      attempts := attempts[nextId := AwaitingCapability];
      nextId := nextId + 1;
    }

    method ReceiveMessage(m: Message)
      modifies this
      ensures View() == Receive(old(View()), m)
    {
      if stopped {
        return;
      }
      var accessAdvanced := m.accessRevision > observedAccess;
      var revisionAdvanced := m.revision > observedRevision;
      if m.kind != Deleted && !accessAdvanced && !revisionAdvanced {
        return;
      }
      observedAccess := Larger(observedAccess, m.accessRevision);
      observedRevision := Larger(observedRevision, m.revision);
      pending := Some(if pending.Some? then Merge(pending.value, m) else m);
      if !notificationTimer {
        notificationTimer := true;
      }
    }

    method FlushPendingMessage()
      requires notificationTimer
      modifies this
      ensures View() == Step(old(View()), NotificationFires)
    {
      notificationTimer := false;
      var message := pending;
      pending := None;
      if !stopped && message.Some? {
        log := log + [Delivered(message.value)];
      }
    }

    method ScheduleReconnect(online: bool)
      modifies this
      ensures View() == Schedule(old(View()), online)
    {
      if stopped || reconnectTimer || !online {
        return;
      }
      reconnectAttempt := reconnectAttempt + 1;
      reconnectTimer := true;
    }

    method HandleFailure(failure: Failure, online: bool)
      modifies this
      ensures View() == Fail(old(View()), failure, online)
    {
      if stopped {
        return;
      }
      match failure {
        case AccountFailure => log := log + [AccountMismatch];
        case AuthenticationFailure => log := log + [AuthenticationRequired];
        case AccessFailure => log := log + [AccessLost];
        case RetryFailure => ScheduleReconnect(online);
      }
    }

    method FinishAttempt(attempt: nat)
      modifies this
      ensures View() == Finish(old(View()), attempt)
    {
      attempts := attempts - {attempt};
      if activeAbort == Some(CapabilityHandle(attempt)) {
        activeAbort := None;
      }
    }

    method ConnectWebSocket()
      modifies this
      ensures var before := old(View());
              View() == before.(activeSocket := Some(before.nextId), sockets := before.sockets + {before.nextId},
                                nextId := before.nextId + 1)
    {
      activeSocket := Some(nextId);
      sockets := sockets + {nextId};
      nextId := nextId + 1;
    }

    method OnCapability(attempt: nat, accessRevision: nat, revision: nat, transport: Transport, online: bool)
      requires attempt in attempts && attempts[attempt] == AwaitingCapability
      modifies this
      ensures View() == Step(old(View()), CapabilityArrives(attempt, accessRevision, revision, transport, online))
    {
      hide Receive, Merge, Finish, Fail, Schedule, Establish, Flush;
      ReceiveMessage(Message(accessRevision, revision, Ready));
      if stopped || transport == Unavailable {
        FinishAttempt(attempt);
        return;
      }
      activeAbort := None;
      if transport.WebSocket? {
        if transport.factoryThrows {
          HandleFailure(RetryFailure, online);
        } else {
          ConnectWebSocket();
        }
        FinishAttempt(attempt);
      } else {
        activeAbort := Some(StreamHandle(attempt));
        attempts := attempts[attempt := AwaitingStream];
      }
    }

    method OnAttemptFailure(attempt: nat, failure: Failure, online: bool)
      requires attempt in attempts
      modifies this
      ensures View() == Step(old(View()), AttemptFails(attempt, failure, online))
    {
      if attempts[attempt] == Streaming {
        stabilityTimer := false;
      }
      HandleFailure(failure, online);
      FinishAttempt(attempt);
    }

    method OnStream(attempt: nat)
      requires attempt in attempts && attempts[attempt] == AwaitingStream
      modifies this
      ensures View() == Step(old(View()), StreamArrives(attempt))
    {
      attempts := attempts[attempt := Streaming];
      stabilityTimer := true;
    }

    method OnStreamEnd(attempt: nat, online: bool)
      requires attempt in attempts && attempts[attempt] == Streaming
      modifies this
      ensures View() == Step(old(View()), StreamEnds(attempt, online))
    {
      stabilityTimer := false;
      if activeAbort == Some(StreamHandle(attempt)) {
        activeAbort := None;
      }
      if !stopped {
        ScheduleReconnect(online);
      }
      FinishAttempt(attempt);
    }

    method OnSocketOpen(socket: nat)
      requires socket in sockets
      modifies this
      ensures View() == Step(old(View()), SocketOpens(socket))
    {
      if activeSocket == Some(socket) {
        stabilityTimer := true;
      }
    }

    method OnSocketMessage(socket: nat, m: Message)
      requires socket in sockets
      modifies this
      ensures View() == Step(old(View()), Event.SocketMessage(socket, m))
    {
      if activeSocket != Some(socket) {
        return;
      }
      ReceiveMessage(m);
    }

    method OnSocketClose(socket: nat, online: bool)
      requires socket in sockets
      modifies this
      ensures View() == Step(old(View()), SocketCloses(socket, online))
    {
      if activeSocket != Some(socket) {
        return;
      }
      activeSocket := None;
      stabilityTimer := false;
      ScheduleReconnect(online);
    }

    method OnReconnectTimer(online: bool)
      requires reconnectTimer
      modifies this
      ensures View() == Step(old(View()), ReconnectFires(online))
    {
      reconnectTimer := false;
      StartEstablish(online);
    }

    method OnStabilityTimer()
      requires stabilityTimer
      modifies this
      ensures View() == Step(old(View()), StabilityFires)
    {
      stabilityTimer := false;
      reconnectAttempt := 0;
    }

    method CancelTimers()
      modifies this
      ensures View() == old(View()).(reconnectTimer := false, notificationTimer := false, stabilityTimer := false,
                                     pending := None)
    {
      reconnectTimer := false;
      notificationTimer := false;
      stabilityTimer := false;
      pending := None;
    }

    method StopConnection()
      modifies this
      ensures View() == Step(old(View()), Stop)
    {
      hide Receive, Merge, Finish, Fail, Schedule, Establish, Flush, HaveCapability;
      if stopped {
        return;
      }
      stopped := true;
      activeAbort := None;
      activeSocket := None;
      CancelTimers();
    }
  }
}
