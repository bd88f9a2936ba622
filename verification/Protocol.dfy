/**
 The whole replication protocol as a state machine: one device copy, the server
 and the messages between them. Requests and replies stay in the network for
 ever, so they may be served or delivered late, repeatedly, in any order or
 never. Other devices' commands reach the server at any time, and the queue may be
 reviewed and rebuilt while earlier requests and replies are still under way.

 Any number of flushes may be in progress at once (several tabs share the
 device copy). The single-flight machine is the same one with stronger guards.
 */
module Protocol {
  import opened Prelude
  import opened Domain
  import opened Server
  import opened Access
  import opened LocalReplica
  import opened SyncReconciliation
  import opened Store
  import opened ConflictReview
  import opened ReviewedQueue

  datatype Reply =
    | Success(request: nat, state: State, receipts: seq<Receipt>, context: Context)
    | Refusal(request: nat, receipts: seq<Receipt>, message: string, definitive: bool, context: Context)

  function ContextOf(reply: Reply): Context {
    reply.context
  }

  datatype ServedRequest = ServedRequest(request: nat, receipts: seq<Receipt>)

  /**
   `requests` are the batches sent so far, `served` the receipts the server has
   computed, `replies` what it has answered. `dispatched` holds every identifier
   ever queued here, `sent` those put on the wire and `resolved` those a saved review
   skipped or replaced. `loaded` is the online state read for a review of the copy as
   it is. `base` is the server state the copy was last rebuilt on and `basis` the
   commands the copy has applied on top of it since.
   */
  datatype System = System(
    replica: Replica,
    server: State,
    requests: seq<seq<OutboxEntry>>,
    served: seq<ServedRequest>,
    replies: seq<Reply>,
    flight: Option<nat>,
    dispatched: set<string>,
    sent: set<string>,
    resolved: set<string>,
    loaded: Option<State>,
    base: State,
    basis: seq<Envelope>)

  datatype Step =
    | DispatchStep(envelope: Envelope, explicitExpectations: bool, prior: set<string>, account: AccountTag, now: string)
    | SendStep(sender: Option<AccountTag>, allowEmpty: bool)
    | ServeStep(request: nat)
    | AnswerStep(served: nat, context: Context)
    | RefuseStep(request: nat, receipts: seq<Receipt>, message: string, definitive: bool, context: Context)
    | DeliverStep(reply: nat, now: string)
    | GiveUpStep
    | ForeignStep(commands: seq<Envelope>)
    | AccessStep(candidate: AccessState, summary: Option<Summary>)
    | DeletionStep(candidate: AccessState, deletedSummary: Option<Option<Summary>>)
    | LoadStep
    | SaveReviewStep(
        decisions: seq<Decision>, options: Options, access: AccessState, serverSummary: Option<Summary>,
        timestamp: string)

  // ------------------------------------------------------------------- steps

  function DispatchTo(sys: System, step: Step): System
    requires step.DispatchStep?
  {
    match Dispatch(sys.replica, step.envelope, step.explicitExpectations, step.prior, step.account, step.now)
    case Err(_) => sys
    case Ok(next) =>
      var queued := next.outbox[|next.outbox| - 1].envelope;
      sys.(replica := next, dispatched := sys.dispatched + {queued.id}, basis := sys.basis + [queued])
  }

  function Send(sys: System, account: Option<AccountTag>, allowEmpty: bool): System {
    var batch := SelectBatch(sys.replica.outbox, account);
    if batch == [] && (PendingEntries(sys.replica.outbox) != [] || !allowEmpty) then
      sys
    else
      sys.(requests := sys.requests + [batch],
           flight := Some(|sys.requests|),
           sent := sys.sent + ToSet(EntryIds(batch)))
  }

  function ServeRequest(sys: System, request: nat): System
    requires request < |sys.requests|
  {
    match SynchronizeResult(sys.server, Envelopes(sys.requests[request]))
    case Err(_) => sys
    case Ok(outcome) =>
      sys.(server := outcome.state, served := sys.served + [ServedRequest(request, outcome.receipts)])
  }

  function Landed(flight: Option<nat>, request: nat): Option<nat> {
    if flight == Some(request) then None else flight
  }

  /** The copy is rebuilt on the delivered server state. */
  predicate Rebuilds(replica: Replica, sent: seq<OutboxEntry>, state: State, receipts: seq<Receipt>) {
    !ReplyIsStale(replica, sent, state) && !AnyBlocked(SettleAll(replica.outbox, ToSet(EntryIds(sent)), receipts))
  }

  function Deliver(sys: System, reply: Reply, now: string): System
    requires reply.request < |sys.requests|
  {
    var sent := sys.requests[reply.request];
    var flight := Landed(sys.flight, reply.request);
    match reply
    case Refusal(_, receipts, message, definitive, context) =>
      sys.(replica := ApplyRefusedSyncResponse(sys.replica, sent, receipts, message, now, definitive, context),
           flight := flight)
    case Success(_, state, receipts, context) =>
      match ApplySuccessfulSyncResponse(sys.replica, sent, state, receipts, now, context)
      case Err(_) => sys.(flight := flight)
      case Ok(next) =>
        if Rebuilds(sys.replica, sent, state, receipts) then
          sys.(replica := next, flight := flight, base := state, basis := Envelopes(next.outbox))
        else
          sys.(replica := next, flight := flight)
  }

  function ForeignCommands(sys: System, commands: seq<Envelope>): System {
    match SynchronizeResult(sys.server, commands)
    case Err(_) => sys
    case Ok(outcome) => sys.(server := outcome.state)
  }

  function ChangeAccess(sys: System, candidate: AccessState, summary: Option<Summary>): System {
    if !ShouldApply(sys.replica.authorization, candidate) then
      sys
    else
      sys.(replica := sys.replica.(
             authorization := candidate,
             outbox := ScopeOutbox(sys.replica.outbox, sys.replica.authorization, candidate),
             serverSummary := ResolveSummary(sys.replica.serverSummary,
                                             if summary.None? then None else Some(summary))))
  }

  function ConfirmDeletion(sys: System, candidate: AccessState, summary: Option<Option<Summary>>): System {
    match ApplyConfirmedServerDeletion(sys.replica, candidate, summary)
    case Err(_) => sys
    case Ok(next) => sys.(replica := next)
  }

  /** The review of the present copy over the online state that was read for it. */
  function Reviewed(sys: System, step: Step): Result<Projection, Problem>
    requires step.SaveReviewStep? && sys.loaded.Some?
  {
    Project(sys.replica, sys.loaded.value, step.decisions, step.options)
  }

  /** A finished review replaces the copy; whatever is under way stays under way. */
  function SaveReview(sys: System, step: Step): System
    requires step.SaveReviewStep? && sys.loaded.Some? && Reviewed(sys, step).Ok?
  {
    var reviewed := Reviewed(sys, step).value;
    sys.(replica := SavedReview(sys.replica, sys.loaded.value, step.access, step.serverSummary, reviewed,
      step.timestamp),
         dispatched := sys.dispatched + ToSet(EntryIds(reviewed.outbox)),
         resolved := sys.resolved + (ToSet(EntryIds(sys.replica.outbox)) - ToSet(reviewed.accepted)),
         base := sys.loaded.value,
         basis := Envelopes(reviewed.outbox))
  }

  /** A review is only saved on the copy it was made of: any change of state or queue calls for loading again. */
  function Touched(before: System, after: System): System {
    if after.replica.state == before.replica.state && after.replica.outbox == before.replica.outbox then after
    else after.(loaded := None)
  }

  /**
   A fresh identifier is one nobody has used, another device's commands do not
   reuse this device's identifiers, and messages refer to what was really sent.
   */
  predicate Enabled(sys: System, step: Step) {
    match step
    case DispatchStep(envelope, _, _, _, _) =>
      envelope.id !in sys.dispatched && envelope.id !in AppliedIds(sys.server)
    case SendStep(_, _) => true
    case ServeStep(request) => request < |sys.requests|
    case AnswerStep(served, _) => served < |sys.served|
    case RefuseStep(request, _, _, _, _) => request < |sys.requests|
    case DeliverStep(reply, _) => reply < |sys.replies| && sys.replies[reply].request < |sys.requests|
    case GiveUpStep => true
    case ForeignStep(commands) => forall i | 0 <= i < |commands| :: commands[i].id !in sys.dispatched
    case AccessStep(_, _) => true
    case DeletionStep(_, _) => true
    case LoadStep => true
    case SaveReviewStep(_, _, _, _, _) =>
      && sys.loaded.Some?
      && Reviewed(sys, step).Ok? && Reviewed(sys, step).value.next.None?
      && forall id | id in EntryIds(Reviewed(sys, step).value.outbox) ::
           id !in sys.dispatched && id !in AppliedIds(sys.server)
  }

  function Next(sys: System, step: Step): System
    requires Enabled(sys, step)
  {
    Touched(sys, Act(sys, step))
  }

  function Act(sys: System, step: Step): System
    requires Enabled(sys, step)
  {
    match step
    case DispatchStep(_, _, _, _, _) => DispatchTo(sys, step)
    case SendStep(account, allowEmpty) => Send(sys, account, allowEmpty)
    case ServeStep(request) => ServeRequest(sys, request)
    case AnswerStep(served, context) =>
      var s := sys.served[served];
      sys.(replies := sys.replies + [Success(s.request, sys.server, s.receipts, context)])
    case RefuseStep(request, receipts, message, definitive, context) =>
      sys.(replies := sys.replies + [Refusal(request, receipts, message, definitive, context)])
    case DeliverStep(reply, now) => Deliver(sys, sys.replies[reply], now)
    case GiveUpStep => sys.(flight := None)
    case ForeignStep(commands) => ForeignCommands(sys, commands)
    case AccessStep(candidate, summary) => ChangeAccess(sys, candidate, summary)
    case DeletionStep(candidate, summary) => ConfirmDeletion(sys, candidate, summary)
    case LoadStep => sys.(loaded := Some(sys.server))
    case SaveReviewStep(_, _, _, _, _) => SaveReview(sys, step).(loaded := None)
  }

  /**
   A device copy that starts from the server's state: freshly downloaded, or saved
   after a review with its rebuilt queue on top.
   */
  predicate Initial(sys: System) {
    && Replay(sys.server, Envelopes(sys.replica.outbox)) == Ok(sys.replica.state)
    && !AnyBlocked(sys.replica.outbox)
    && NoDuplicates(EntryIds(sys.replica.outbox))
    && (forall e | e in sys.replica.outbox :: e.envelope.workspaceId == sys.server.workspaceId)
    && (forall id | id in EntryIds(sys.replica.outbox) :: id !in AppliedIds(sys.server))
    && sys.base == sys.server && sys.basis == Envelopes(sys.replica.outbox)
    && sys.requests == [] && sys.served == [] && sys.replies == []
    && sys.flight == None && sys.dispatched == ToSet(EntryIds(sys.replica.outbox)) && sys.sent == {}
    && sys.resolved == {} && sys.loaded == None
    && NoDuplicates(AppliedIds(sys.server))
  }

  ghost predicate IsRun(trace: seq<System>, steps: seq<Step>) {
    && |trace| == |steps| + 1
    && Initial(trace[0])
    && forall i | 0 <= i < |steps| :: Enabled(trace[i], steps[i]) && trace[i + 1] == Next(trace[i], steps[i])
  }

  // -------------------------------------------------------------- invariants

  predicate SameHistory(earlier: State, later: State) {
    && earlier.workspaceId == later.workspaceId
    && AppliedIds(earlier) <= AppliedIds(later)
    && later.revision - |later.log| == earlier.revision - |earlier.log|
  }

  predicate BackedByServer(receipts: seq<Receipt>, server: State) {
    forall r | r in receipts && Acknowledges(r) :: r.commandId in AppliedIds(server)
  }

  /** The copy: its state is its base plus its basis, and the outbox is what is left of the basis. */
  ghost predicate CopyOk(base: State, basis: seq<Envelope>, replica: Replica, dispatched: set<string>) {
    && Replay(base, basis) == Ok(replica.state)
    && |replica.outbox| <= |basis|
    && (forall e | e in replica.outbox :: e.envelope in basis)
    && (forall e | e in replica.outbox :: e.envelope.workspaceId == replica.state.workspaceId)
    && (!AnyBlocked(replica.outbox) ==> Envelopes(replica.outbox) == basis)
    && NoDuplicates(EntryIds(replica.outbox))
    && (forall id | id in EntryIds(replica.outbox) :: id in dispatched)
  }

  ghost predicate CopyInv(sys: System) {
    CopyOk(sys.base, sys.basis, sys.replica, sys.dispatched)
  }

  /** The server: its log has no duplicates, and what left the queue was applied or decided upon. */
  ghost predicate ServerOk(
    server: State, base: State, basis: seq<Envelope>, queued: seq<string>, dispatched: set<string>, sent: set<string>,
    resolved: set<string>)
  {
    && NoDuplicates(AppliedIds(server))
    && SameHistory(base, server)
    && (forall id | id in dispatched :: id in queued || id in AppliedIds(server) || id in resolved)
    && (forall id | id in dispatched && id in AppliedIds(server) :: id in sent)
    && (forall id | id in EnvelopeIds(basis) :: id in dispatched)
    && (forall id | id in EnvelopeIds(basis) && id !in queued :: id in AppliedIds(server))
  }

  ghost predicate ServerInv(sys: System) {
    ServerOk(sys.server, sys.base, sys.basis, EntryIds(sys.replica.outbox), sys.dispatched, sys.sent, sys.resolved)
  }

  predicate ReplyOk(reply: Reply, requests: nat, server: State) {
    && reply.request < requests
    && (reply.Success? ==> SameHistory(reply.state, server) && BackedByServer(reply.receipts, reply.state))
  }

  /** The network: only dispatched commands were sent, and every reply is backed by the server. */
  ghost predicate NetworkOk(
    server: State, requests: seq<seq<OutboxEntry>>, served: seq<ServedRequest>, replies: seq<Reply>,
    dispatched: set<string>, sent: set<string>)
  {
    && sent <= dispatched
    && (forall i | 0 <= i < |requests| :: ToSet(EntryIds(requests[i])) <= sent)
    && (forall i | 0 <= i < |served| ::
          served[i].request < |requests| && BackedByServer(served[i].receipts, server))
    && (forall i | 0 <= i < |replies| :: ReplyOk(replies[i], |requests|, server))
  }

  ghost predicate NetworkInv(sys: System) {
    NetworkOk(sys.server, sys.requests, sys.served, sys.replies, sys.dispatched, sys.sent)
  }

  ghost predicate Inv(sys: System) {
    CopyInv(sys) && ServerInv(sys) && NetworkInv(sys)
  }

  /** What was read for a review is the copy's base or later, and has everything the copy knows to be applied. */
  ghost predicate LoadedInv(sys: System) {
    sys.loaded.Some? ==>
      && SameHistory(sys.base, sys.loaded.value)
      && SameHistory(sys.loaded.value, sys.server)
      && (forall id | id in EnvelopeIds(sys.basis) && id !in EntryIds(sys.replica.outbox) ::
            id in AppliedIds(sys.loaded.value))
  }

  lemma HistoryTransitive(a: State, b: State, c: State)
    requires SameHistory(a, b) && SameHistory(b, c)
    ensures SameHistory(a, c)
  {
  }

  lemma BackedLater(receipts: seq<Receipt>, earlier: State, later: State)
    requires BackedByServer(receipts, earlier) && SameHistory(earlier, later)
    ensures BackedByServer(receipts, later)
  {
  }

  /** The server moves on: everything known about its past stays true. */
  lemma ServerAdvances(sys: System, next: System, served: seq<ServedRequest>)
    requires Inv(sys)
    requires SameHistory(sys.server, next.server) && NoDuplicates(AppliedIds(next.server))
    requires next == sys.(server := next.server, served := sys.served + served)
    requires forall i | 0 <= i < |served| ::
      served[i].request < |sys.requests| && BackedByServer(served[i].receipts, next.server)
    requires forall id | id in sys.dispatched && id in AppliedIds(next.server) && id !in AppliedIds(sys.server) ::
      id in sys.sent
    ensures Inv(next)
  {
    hide Replay, Apply;
    HistoryTransitive(sys.base, sys.server, next.server);
    forall i | 0 <= i < |next.served|
      ensures next.served[i].request < |next.requests| && BackedByServer(next.served[i].receipts, next.server)
    {
      if i < |sys.served| {
        BackedLater(sys.served[i].receipts, sys.server, next.server);
      } else {
        assert next.served[i] == served[i - |sys.served|];
      }
    }
    forall i | 0 <= i < |next.replies| && next.replies[i].Success?
      ensures SameHistory(next.replies[i].state, next.server)
    {
      HistoryTransitive(next.replies[i].state, sys.server, next.server);
    }
  }

  lemma SynchronizedHistory(state: State, commands: seq<Envelope>)
    requires SynchronizeResult(state, commands).Ok?
    requires NoDuplicates(AppliedIds(state))
    ensures var r := SynchronizeResult(state, commands).value;
            && SameHistory(state, r.state)
            && NoDuplicates(AppliedIds(r.state))
            && BackedByServer(r.receipts, r.state)
            && (forall id | id in AppliedIds(r.state) && id !in AppliedIds(state) :: id in EnvelopeIds(commands))
  {
    hide Serve;
    SynchronizeAtMostOnce(state, commands);
  }

  lemma ServeKeepsInv(sys: System, request: nat)
    requires Inv(sys) && request < |sys.requests|
    ensures Inv(ServeRequest(sys, request))
  {
    hide Replay, Apply, SynchronizeResult;
    var result := SynchronizeResult(sys.server, Envelopes(sys.requests[request]));
    if result.Ok? {
      SynchronizedHistory(sys.server, Envelopes(sys.requests[request]));
      assert EnvelopeIds(Envelopes(sys.requests[request])) == EntryIds(sys.requests[request]);
      ServerAdvances(sys, ServeRequest(sys, request), [ServedRequest(request, result.value.receipts)]);
    }
  }

  lemma ForeignKeepsInv(sys: System, commands: seq<Envelope>)
    requires Inv(sys) && Enabled(sys, ForeignStep(commands))
    ensures Inv(ForeignCommands(sys, commands))
  {
    hide Replay, Apply, SynchronizeResult;
    var result := SynchronizeResult(sys.server, commands);
    if result.Ok? {
      SynchronizedHistory(sys.server, commands);
      var next := ForeignCommands(sys, commands);
      assert next.served == sys.served + [];
      forall id | id in EnvelopeIds(commands)
        ensures id !in sys.dispatched
      {
        var i :| 0 <= i < |commands| && EnvelopeIds(commands)[i] == id;
        assert commands[i].id == id;
      }
      ServerAdvances(sys, next, []);
    }
  }

  lemma DispatchKeepsInv(sys: System, step: Step)
    requires Inv(sys) && step.DispatchStep? && Enabled(sys, step)
    ensures Inv(DispatchTo(sys, step))
  {
    hide Apply, CanRebaseQueuedCommand, CreateEnvelope;
    var result := Dispatch(sys.replica, step.envelope, step.explicitExpectations, step.prior, step.account, step.now);
    if result.Ok? {
      var next := DispatchTo(sys, step);
      var effective := EffectiveEnvelope(sys.replica.state, step.envelope, step.explicitExpectations, step.prior);
      EffectiveKeepsId(sys.replica.state, step.envelope, step.explicitExpectations, step.prior);
      var entry := OutboxEntry(step.account, effective, Pending, None);
      AppliedInOwnWorkspace(sys.replica.state, effective);
      QueuedKeepsInv(sys, next, entry);
    }
  }

  /** A command applied to the copy and queued behind the others. */
  lemma QueuedKeepsInv(sys: System, next: System, entry: OutboxEntry)
    requires Inv(sys) && entry.status == Pending
    requires entry.envelope.id !in sys.dispatched && entry.envelope.id !in AppliedIds(sys.server)
    requires entry.envelope.workspaceId == sys.replica.state.workspaceId
    requires Apply(sys.replica.state, entry.envelope) == Ok(next.replica.state)
    requires next.replica.outbox == sys.replica.outbox + [entry]
    requires next == sys.(replica := next.replica, dispatched := sys.dispatched + {entry.envelope.id},
                          basis := sys.basis + [entry.envelope])
    ensures Inv(next)
  {
    hide Apply, Replay, CopyOk, ServerOk, NetworkOk;
    assert EntryIds(next.replica.outbox) == EntryIds(sys.replica.outbox) + [entry.envelope.id];
    QueuedCopy(sys.base, sys.basis, sys.replica, next.replica, sys.dispatched, entry);
    QueuedServer(sys, entry.envelope);
    QueuedNetwork(sys, entry.envelope.id);
  }

  lemma QueuedCopy(
    base: State, basis: seq<Envelope>, replica: Replica, next: Replica, dispatched: set<string>, entry: OutboxEntry)
    requires CopyOk(base, basis, replica, dispatched) && entry.status == Pending
    requires entry.envelope.id !in dispatched && entry.envelope.workspaceId == replica.state.workspaceId
    requires Apply(replica.state, entry.envelope) == Ok(next.state) && next.outbox == replica.outbox + [entry]
    ensures CopyOk(base, basis + [entry.envelope], next, dispatched + {entry.envelope.id})
  {
    hide Apply, Replay;
    ReplayAppend(base, basis, entry.envelope);
    assert EntryIds(next.outbox) == EntryIds(replica.outbox) + [entry.envelope.id];
    assert Envelopes(next.outbox) == Envelopes(replica.outbox) + [entry.envelope];
    if AnyBlocked(replica.outbox) {
      var i :| 0 <= i < |replica.outbox| && replica.outbox[i].status == Blocked;
      assert next.outbox[i].status == Blocked;
    }
  }

  lemma QueuedServer(sys: System, e: Envelope)
    requires ServerInv(sys) && e.id !in AppliedIds(sys.server)
    ensures ServerOk(sys.server, sys.base, sys.basis + [e], EntryIds(sys.replica.outbox) + [e.id],
                     sys.dispatched + {e.id}, sys.sent, sys.resolved)
  {
    hide SameHistory, AppliedIds;
    assert EnvelopeIds(sys.basis + [e]) == EnvelopeIds(sys.basis) + [e.id];
  }

  lemma QueuedNetwork(sys: System, id: string)
    requires NetworkInv(sys)
    ensures NetworkOk(sys.server, sys.requests, sys.served, sys.replies, sys.dispatched + {id}, sys.sent)
  {
    hide ReplyOk, BackedByServer;
  }

  lemma EffectiveKeepsId(current: State, envelope: Envelope, explicitExpectations: bool, prior: set<string>)
    ensures EffectiveEnvelope(current, envelope, explicitExpectations, prior).id == envelope.id
  {
  }

  lemma AppliedInOwnWorkspace(s: State, e: Envelope)
    requires Apply(s, e).Ok?
    ensures e.workspaceId == s.workspaceId
  {
  }

  lemma BatchIsQueued(outbox: seq<OutboxEntry>, account: Option<AccountTag>)
    ensures forall e | e in SelectBatch(outbox, account) :: e in outbox && e.status == Pending
  {
    BatchIsMaximalUniformPrefix(outbox, account);
    var batch := SelectBatch(outbox, account);
    forall e | e in batch
      ensures e in outbox && e.status == Pending
    {
      var i :| 0 <= i < |batch| && batch[i] == e;
      assert PendingEntries(outbox)[i] == e;
    }
  }

  lemma BatchIsDispatched(sys: System, account: Option<AccountTag>)
    requires CopyInv(sys)
    ensures ToSet(EntryIds(SelectBatch(sys.replica.outbox, account))) <= sys.dispatched
  {
    hide Replay, SelectBatch, PendingEntries;
    BatchIsQueued(sys.replica.outbox, account);
    var batch := SelectBatch(sys.replica.outbox, account);
    forall id | id in EntryIds(batch)
      ensures id in sys.dispatched
    {
      var i :| 0 <= i < |batch| && EntryIds(batch)[i] == id;
      assert batch[i] in batch;
      var k :| 0 <= k < |sys.replica.outbox| && sys.replica.outbox[k] == batch[i];
      assert EntryIds(sys.replica.outbox)[k] == id;
    }
  }

  lemma BatchSent(sys: System, batch: seq<OutboxEntry>)
    requires NetworkInv(sys) && ServerInv(sys) && ToSet(EntryIds(batch)) <= sys.dispatched
    ensures var sent := sys.sent + ToSet(EntryIds(batch));
            && NetworkOk(sys.server, sys.requests + [batch], sys.served, sys.replies, sys.dispatched, sent)
            && ServerOk(
                 sys.server, sys.base, sys.basis, EntryIds(sys.replica.outbox), sys.dispatched, sent, sys.resolved)
  {
    hide SameHistory, BackedByServer, AppliedIds;
  }

  lemma SendKeepsInv(sys: System, account: Option<AccountTag>, allowEmpty: bool)
    requires Inv(sys)
    ensures Inv(Send(sys, account, allowEmpty))
  {
    hide SelectBatch, PendingEntries, CopyOk, ServerOk, NetworkOk;
    BatchIsDispatched(sys, account);
    BatchSent(sys, SelectBatch(sys.replica.outbox, account));
  }

  lemma ReplyAdded(sys: System, reply: Reply)
    requires Inv(sys) && ReplyOk(reply, |sys.requests|, sys.server)
    ensures Inv(sys.(replies := sys.replies + [reply]))
  {
    hide CopyOk, ServerOk, SameHistory, BackedByServer, ReplyOk;
  }

  lemma AnswerKeepsInv(sys: System, served: nat, context: Context)
    requires Inv(sys) && served < |sys.served|
    ensures Inv(Act(sys, AnswerStep(served, context)))
  {
    hide CopyOk, ServerOk;
    var s := sys.served[served];
    ReplyAdded(sys, Success(s.request, sys.server, s.receipts, context));
  }

  /** A step that only blocks or attributes entries keeps the copy coherent. */
  lemma RetainKeepsInv(sys: System, next: System)
    requires Inv(sys)
    requires next.replica.state == sys.replica.state && RetainedAll(sys.replica.outbox, next.replica.outbox)
    requires next.server == sys.server && next.requests == sys.requests && next.served == sys.served
    requires next.replies == sys.replies && next.dispatched == sys.dispatched && next.sent == sys.sent
    requires next.base == sys.base && next.basis == sys.basis && next.resolved == sys.resolved
    ensures Inv(next)
  {
    hide CopyOk, ServerOk, NetworkOk, RetainedAll;
    SameEntries(sys.replica.outbox, next.replica.outbox);
    RetainedCopy(sys.base, sys.basis, sys.replica, next.replica, sys.dispatched);
  }

  lemma SameEntries(before: seq<OutboxEntry>, after: seq<OutboxEntry>)
    requires RetainedAll(before, after)
    ensures EntryIds(after) == EntryIds(before) && Envelopes(after) == Envelopes(before)
    ensures AnyBlocked(before) ==> AnyBlocked(after)
  {
    if AnyBlocked(before) {
      var i :| 0 <= i < |before| && before[i].status == Blocked;
      assert after[i].status == Blocked;
    }
  }

  lemma RetainedCopy(base: State, basis: seq<Envelope>, before: Replica, after: Replica, dispatched: set<string>)
    requires CopyOk(base, basis, before, dispatched)
    requires after.state == before.state && RetainedAll(before.outbox, after.outbox)
    ensures CopyOk(base, basis, after, dispatched)
  {
    hide Replay;
    SameEntries(before.outbox, after.outbox);
    forall e | e in after.outbox
      ensures e.envelope in basis && e.envelope.workspaceId == before.state.workspaceId
    {
      var i :| 0 <= i < |after.outbox| && after.outbox[i] == e;
      assert before.outbox[i] in before.outbox;
    }
  }

  lemma AccessKeepsInv(sys: System, candidate: AccessState, summary: Option<Summary>)
    requires Inv(sys)
    ensures Inv(ChangeAccess(sys, candidate, summary))
  {
    hide Replay, Apply;
    ScopingRetainsQueue(sys.replica.outbox, sys.replica.authorization, candidate);
    RetainKeepsInv(sys, ChangeAccess(sys, candidate, summary));
  }

  lemma DeletionKeepsInv(sys: System, candidate: AccessState, summary: Option<Option<Summary>>)
    requires Inv(sys)
    ensures Inv(ConfirmDeletion(sys, candidate, summary))
  {
    hide Replay, Apply;
    var result := ApplyConfirmedServerDeletion(sys.replica, candidate, summary);
    if result.Ok? {
      ConfirmedDeletionIsTerminal(sys.replica, candidate, summary);
      RetainKeepsInv(sys, ConfirmDeletion(sys, candidate, summary));
    }
  }

  lemma RefusalKeepsInv(sys: System, reply: Reply, now: string)
    requires Inv(sys) && reply.Refusal? && reply.request < |sys.requests|
    ensures Inv(Deliver(sys, reply, now))
  {
    hide Replay, Apply;
    RefusalRetainsQueue(sys.replica, sys.requests[reply.request], reply.receipts, reply.message, now,
                        reply.definitive, reply.context);
    RetainKeepsInv(sys, Deliver(sys, reply, now));
  }

  /** The copy after reconciliation alone, before the access that came with the reply is recorded. */
  ghost function Reconciled(sys: System, reply: Reply, next: Replica): System
    requires reply.Success? && reply.request < |sys.requests|
  {
    if Rebuilds(sys.replica, sys.requests[reply.request], reply.state, reply.receipts) then
      sys.(replica := next, base := reply.state, basis := Envelopes(next.outbox))
    else
      sys.(replica := next)
  }

  lemma AcknowledgedIsBacked(receipts: seq<Receipt>, state: State, id: string)
    requires BackedByServer(receipts, state) && Acknowledged(receipts, id)
    ensures id in AppliedIds(state)
  {
  }

  /** What an entry's absence after settling a delivered reply means. */
  lemma SettledLeavesOnlyApplied(outbox: seq<OutboxEntry>, sent: set<string>, receipts: seq<Receipt>, state: State)
    requires BackedByServer(receipts, state)
    ensures forall id | id in EntryIds(outbox) && id !in EntryIds(SettleAll(outbox, sent, receipts)) ::
              id in sent && Acknowledged(receipts, id) && id in AppliedIds(state)
  {
    hide ReceiptFor, Acknowledged;
    SettledIds(outbox, sent, receipts);
    forall id | id in EntryIds(outbox) && id !in EntryIds(SettleAll(outbox, sent, receipts))
      ensures id in AppliedIds(state)
    {
      AcknowledgedIsBacked(receipts, state, id);
    }
  }

  lemma SettledCopy(sys: System, sent: set<string>, receipts: seq<Receipt>)
    requires Inv(sys)
    ensures var settled := SettleAll(sys.replica.outbox, sent, receipts);
            && |settled| <= |sys.replica.outbox|
            && (forall e | e in settled :: e.envelope in sys.basis)
            && (forall e | e in settled :: e.envelope.workspaceId == sys.replica.state.workspaceId)
            && NoDuplicates(EntryIds(settled))
            && (forall id | id in EntryIds(settled) :: id in sys.dispatched)
  {
    hide Replay, Apply, Settle, Acknowledged;
    var outbox := sys.replica.outbox;
    SettleAllShape(outbox, sent, receipts);
    SettledIds(outbox, sent, receipts);
    forall e | e in SettleAll(outbox, sent, receipts)
      ensures e.envelope in sys.basis && e.envelope.workspaceId == sys.replica.state.workspaceId
    {
      var i :| 0 <= i < |outbox| && Envelopes(outbox)[i] == e.envelope;
      assert outbox[i] in outbox;
    }
  }

  lemma SettledServer(sys: System, sent: set<string>, receipts: seq<Receipt>, state: State)
    requires Inv(sys) && BackedByServer(receipts, state) && SameHistory(state, sys.server)
    ensures var ids := EntryIds(SettleAll(sys.replica.outbox, sent, receipts));
            && (forall id | id in sys.dispatched :: id in ids || id in AppliedIds(sys.server) || id in sys.resolved)
            && (forall id | id in EnvelopeIds(sys.basis) && id !in ids :: id in AppliedIds(sys.server))
  {
    hide Replay, Apply, SettleAll, Acknowledged;
    SettledLeavesOnlyApplied(sys.replica.outbox, sent, receipts, state);
  }

  lemma BlockedReplyKeepsInv(sys: System, sent: set<string>, receipts: seq<Receipt>, state: State)
    requires Inv(sys) && BackedByServer(receipts, state) && SameHistory(state, sys.server)
    requires AnyBlocked(SettleAll(sys.replica.outbox, sent, receipts))
    ensures Inv(sys.(replica := sys.replica.(outbox := SettleAll(sys.replica.outbox, sent, receipts))))
  {
    hide Replay, Apply, SettleAll, Acknowledged;
    SettledCopy(sys, sent, receipts);
    SettledServer(sys, sent, receipts, state);
  }

  lemma EntryInEnvelopes(entries: seq<OutboxEntry>, e: OutboxEntry)
    requires e in entries
    ensures e.envelope in Envelopes(entries)
  {
    var i :| 0 <= i < |entries| && entries[i] == e;
    assert Envelopes(entries)[i] == e.envelope;
  }

  lemma RebuiltInv(sys: System, settled: seq<OutboxEntry>, state: State, rebuilt: State)
    requires Inv(sys) && SameHistory(state, sys.server)
    requires !AnyBlocked(settled) && Replay(state, Envelopes(settled)) == Ok(rebuilt)
    requires NoDuplicates(EntryIds(settled)) && rebuilt.workspaceId == sys.replica.state.workspaceId
    requires forall e | e in settled :: e.envelope.workspaceId == sys.replica.state.workspaceId
    requires forall id | id in EntryIds(settled) :: id in sys.dispatched
    requires forall id | id in sys.dispatched ::
      id in EntryIds(settled) || id in AppliedIds(sys.server) || id in sys.resolved
    ensures Inv(sys.(replica := sys.replica.(state := rebuilt, outbox := settled),
                     base := state, basis := Envelopes(settled)))
  {
    hide Replay, Apply;
    assert EnvelopeIds(Envelopes(settled)) == EntryIds(settled);
    forall e | e in settled
      ensures e.envelope in Envelopes(settled)
    {
      EntryInEnvelopes(settled, e);
    }
  }

  lemma RebuiltKeepsInv(sys: System, sent: set<string>, receipts: seq<Receipt>, state: State, rebuilt: State)
    requires Inv(sys) && BackedByServer(receipts, state) && SameHistory(state, sys.server)
    requires !AnyBlocked(SettleAll(sys.replica.outbox, sent, receipts))
    requires Replay(state, Envelopes(SettleAll(sys.replica.outbox, sent, receipts))) == Ok(rebuilt)
    ensures var settled := SettleAll(sys.replica.outbox, sent, receipts);
            Inv(sys.(replica := sys.replica.(state := rebuilt, outbox := settled),
                     base := state, basis := Envelopes(settled)))
  {
    hide Apply, SettleAll, Acknowledged, NetworkInv;
    SettledCopy(sys, sent, receipts);
    SettledServer(sys, sent, receipts, state);
    RebuiltInv(sys, SettleAll(sys.replica.outbox, sent, receipts), state, rebuilt);
  }

  lemma ReconciledKeepsInv(sys: System, reply: Reply)
    requires Inv(sys) && reply.Success? && reply.request < |sys.requests|
    requires SameHistory(reply.state, sys.server) && BackedByServer(reply.receipts, reply.state)
    requires Reconcile(sys.replica, sys.requests[reply.request], reply.state, reply.receipts).Ok?
    ensures var next := Reconcile(sys.replica, sys.requests[reply.request], reply.state, reply.receipts).value;
            Inv(Reconciled(sys, reply, next))
  {
    hide Replay, Apply, SettleAll, CopyInv, ServerInv, NetworkInv, SameHistory, BackedByServer;
    var sent := sys.requests[reply.request];
    var ids := ToSet(EntryIds(sent));
    if !ReplyIsStale(sys.replica, sent, reply.state) {
      if AnyBlocked(SettleAll(sys.replica.outbox, ids, reply.receipts)) {
        BlockedReplyKeepsInv(sys, ids, reply.receipts, reply.state);
      } else {
        var next := Reconcile(sys.replica, sent, reply.state, reply.receipts).value;
        RebuiltKeepsInv(sys, ids, reply.receipts, reply.state, next.state);
      }
    }
  }

  lemma SuccessKeepsInv(sys: System, reply: Reply, now: string)
    requires Inv(sys) && reply.Success? && reply.request < |sys.requests|
    requires SameHistory(reply.state, sys.server) && BackedByServer(reply.receipts, reply.state)
    ensures Inv(Deliver(sys, reply, now))
  {
    hide Reconcile, SettleAll, CopyInv, ServerInv, NetworkInv, SameHistory, BackedByServer, ReplyIsStale;
    var sent := sys.requests[reply.request];
    var result := Reconcile(sys.replica, sent, reply.state, reply.receipts);
    var next := Deliver(sys, reply, now);
    if result.Ok? {
      ReconciledKeepsInv(sys, reply);
      var mid := Reconciled(sys, reply, result.value);
      ScopingRetainsQueue(result.value.outbox, result.value.authorization,
                          NextAuthorization(result.value.authorization, reply.context.authorization));
      assert Envelopes(next.replica.outbox) == Envelopes(result.value.outbox);
      RetainKeepsInv(mid, next);
    } else {
      FlightKeepsInv(sys, next.flight);
    }
  }

  lemma FlightKeepsInv(sys: System, flight: Option<nat>)
    requires Inv(sys)
    ensures Inv(sys.(flight := flight))
  {
    hide Replay, Apply;
  }

  lemma RefuseKeepsInv(sys: System, step: Step)
    requires Inv(sys) && step.RefuseStep? && Enabled(sys, step)
    ensures Inv(Act(sys, step))
  {
    hide CopyOk, ServerOk, NetworkOk;
    ReplyAdded(sys, Refusal(step.request, step.receipts, step.message, step.definitive, step.context));
  }

  lemma DeliverKeepsInv(sys: System, reply: nat, now: string)
    requires Inv(sys) && Enabled(sys, DeliverStep(reply, now))
    ensures Inv(Deliver(sys, sys.replies[reply], now))
  {
    hide Replay, Apply, Deliver;
    if sys.replies[reply].Success? {
      SuccessKeepsInv(sys, sys.replies[reply], now);
    } else {
      RefusalKeepsInv(sys, sys.replies[reply], now);
    }
  }

  // --------------------------------------------------------- saving a review

  lemma LoadedKeepsInv(sys: System, loaded: Option<State>)
    requires Inv(sys)
    ensures Inv(sys.(loaded := loaded))
  {
    hide Replay, Apply;
  }

  /** What a finished review leaves of the old queue: every entry is on the server or was decided upon. */
  lemma ReviewedQueueIsResolved(sys: System, step: Step)
    requires Inv(sys) && LoadedInv(sys) && step.SaveReviewStep? && Enabled(sys, step)
    ensures var next := SaveReview(sys, step);
            forall id | id in sys.dispatched :: id in AppliedIds(sys.server) || id in next.resolved
  {
    hide Replay, Project, SavedReview, CopyInv, NetworkInv;
    var online := sys.loaded.value;
    var reviewed := Reviewed(sys, step).value;
    FinishedReview(sys.replica, online, step.decisions, step.options);
    forall id | id in EntryIds(sys.replica.outbox) && id in reviewed.accepted
      ensures id in AppliedIds(sys.server)
    {
      var i :| 0 <= i < |sys.replica.outbox| && EntryIds(sys.replica.outbox)[i] == id;
      assert sys.replica.outbox[i] in sys.replica.outbox;
      WasAppliedIsLogged(online, id);
    }
  }

  lemma SavedCopyInv(sys: System, step: Step)
    requires LoadedInv(sys) && step.SaveReviewStep? && Enabled(sys, step)
    ensures CopyInv(SaveReview(sys, step))
  {
    hide Project, Apply, Replay, LoadedInv;
    var online := sys.loaded.value;
    var reviewed := Reviewed(sys, step).value;
    FinishedReview(sys.replica, online, step.decisions, step.options);
    SavedReviewIsExact(sys.replica, online, step.decisions, step.options, step.access, step.serverSummary,
        step.timestamp);
    forall e | e in reviewed.outbox
      ensures e.envelope in Envelopes(reviewed.outbox) && e.envelope.workspaceId == reviewed.state.workspaceId
    {
      EntryInEnvelopes(reviewed.outbox, e);
      var i :| 0 <= i < |reviewed.outbox| && reviewed.outbox[i] == e;
    }
  }

  /**
   Saving a review keeps every invariant although requests and replies of the old
   queue are still under way: they may be served, delivered or repeated later.
   */
  lemma SaveReviewKeepsInv(sys: System, step: Step)
    requires Inv(sys) && LoadedInv(sys) && step.SaveReviewStep? && Enabled(sys, step)
    ensures Inv(SaveReview(sys, step))
  {
    hide Project, SavedReview, Replay, CopyInv;
    SavedCopyInv(sys, step);
    ReviewedQueueIsResolved(sys, step);
    var next := SaveReview(sys, step);
    SavedReviewOutbox(sys, step);
    var outbox := Reviewed(sys, step).value.outbox;
    assert EnvelopeIds(Envelopes(outbox)) == EntryIds(outbox);
  }

  lemma SavedReviewOutbox(sys: System, step: Step)
    requires step.SaveReviewStep? && Enabled(sys, step)
    ensures var reviewed := Reviewed(sys, step).value;
            var saved := SaveReview(sys, step).replica;
            saved.outbox == reviewed.outbox && saved.state == reviewed.state && saved.authorization == step.access
  {
    hide Project;
  }

  /** The saved copy also is where a run of the protocol may start, with nothing under way. */
  lemma SavedReviewStartsRun(
    replica: Replica, server: State, decisions: seq<Decision>, options: Options,
    access: AccessState, summary: Option<Summary>, timestamp: string)
    requires Project(replica, server, decisions, options).Ok?
    requires Project(replica, server, decisions, options).value.next.None?
    requires NoDuplicates(AppliedIds(server))
    ensures var saved := SavedReview(replica, server, access, summary,
                                     Project(replica, server, decisions, options).value, timestamp);
            Initial(System(saved, server, [], [], [], None, ToSet(EntryIds(saved.outbox)), {}, {}, None,
                           server, Envelopes(saved.outbox)))
  {
    hide StepFor, ApplyDecision, WasApplied, Apply, Splits, ReviewFirst;
    FinishedReview(replica, server, decisions, options);
    SavedReviewIsExact(replica, server, decisions, options, access, summary, timestamp);
    var outbox := Project(replica, server, decisions, options).value.outbox;
    forall e | e in outbox
      ensures e.envelope.workspaceId == server.workspaceId
    {
      var i :| 0 <= i < |outbox| && outbox[i] == e;
    }
    forall id | id in EntryIds(outbox)
      ensures id !in AppliedIds(server)
    {
      WasAppliedIsLogged(server, id);
    }
  }

  // --------------------------------------------------------- what was loaded

  lemma ServerOnlyGrows(sys: System, step: Step)
    requires Inv(sys) && Enabled(sys, step)
    ensures SameHistory(sys.server, Act(sys, step).server)
  {
    hide Replay, Apply, SynchronizeResult, CopyInv, NetworkInv, Deliver, DispatchTo, Send, ChangeAccess,
         ConfirmDeletion;
    match step {
      case ServeStep(request) =>
        if SynchronizeResult(sys.server, Envelopes(sys.requests[request])).Ok? {
          SynchronizedHistory(sys.server, Envelopes(sys.requests[request]));
        }
      case ForeignStep(commands) =>
        if SynchronizeResult(sys.server, commands).Ok? {
          SynchronizedHistory(sys.server, commands);
        }
      case _ => ServerStays(sys, step);
    }
  }

  lemma ServerStays(sys: System, step: Step)
    requires Enabled(sys, step) && !step.ServeStep? && !step.ForeignStep?
    ensures Act(sys, step).server == sys.server
  {
    hide Apply, ApplySuccessfulSyncResponse, ApplyRefusedSyncResponse, SelectBatch, Project, SavedReview;
  }

  /**
   Apart from a review, a step that leaves state and queue alone keeps the base or
   rebuilt exactly on the same history.
   */
  lemma BaseKept(sys: System, step: Step)
    requires Inv(sys) && Enabled(sys, step) && !step.SaveReviewStep?
    ensures var next := Act(sys, step);
            next.replica.state == sys.replica.state && next.replica.outbox == sys.replica.outbox ==>
              || (next.base == sys.base && next.basis == sys.basis)
              || (next.basis == Envelopes(next.replica.outbox) && !AnyBlocked(next.replica.outbox))
  {
    hide Apply, Reconcile, ApplyRefusedSyncResponse, SelectBatch, SynchronizeResult, ScopeOutbox, Replay, Inv, Project;
    match step {
      case DispatchStep(_, _, _, _, _) =>
      case DeliverStep(k, now) => DeliveredBase(sys, sys.replies[k], now);
      case _ =>
    }
  }

  /** A settled queue of the same length kept every entry, and every blocked one blocked. */
  lemma {:induction false} SettledSameLength(outbox: seq<OutboxEntry>, sent: set<string>, receipts: seq<Receipt>)
    ensures var settled := SettleAll(outbox, sent, receipts);
            && |settled| <= |outbox|
            && (|settled| == |outbox| && AnyBlocked(outbox) ==> AnyBlocked(settled))
  {
    hide Acknowledged, SettledError;
    if outbox == [] {
      assert SettleAll(outbox, sent, receipts) == [];
    } else {
      var first := Settle(outbox[0], sent, receipts);
      var rest := SettleAll(outbox[1..], sent, receipts);
      var whole: seq<OutboxEntry> := first + rest;
      SettledSameLength(outbox[1..], sent, receipts);
      if |whole| == |outbox| && AnyBlocked(outbox) {
        var k :| 0 <= k < |outbox| && outbox[k].status == Blocked;
        if k == 0 {
          assert whole[0].status == Blocked;
        } else {
          assert outbox[1..][k - 1].status == Blocked;
          var j :| 0 <= j < |rest| && rest[j].status == Blocked;
          assert whole[1 + j].status == Blocked;
        }
      }
    }
  }

  lemma DeliveredBase(sys: System, reply: Reply, now: string)
    requires reply.request < |sys.requests|
    ensures var next := Deliver(sys, reply, now);
            || (next.base == sys.base && next.basis == sys.basis)
            || (next.basis == Envelopes(next.replica.outbox) &&
                (next.replica.outbox == sys.replica.outbox ==> !AnyBlocked(sys.replica.outbox)))
  {
    hide Apply, Replay, SettleAll, ReplyIsStale, ShouldApply, ApplyRefusedSyncResponse;
    if reply.Success? {
      var sent := ToSet(EntryIds(sys.requests[reply.request]));
      SettledSameLength(sys.replica.outbox, sent, reply.receipts);
    }
  }

  /** A step other than a review that leaves state and queue alone leaves what was loaded fit for review. */
  lemma LoadedStays(sys: System, next: System)
    requires Inv(sys) && LoadedInv(sys) && Inv(next)
    requires SameHistory(sys.server, next.server) && next.loaded == sys.loaded
    requires next.replica.state == sys.replica.state && next.replica.outbox == sys.replica.outbox
    requires (next.base == sys.base && next.basis == sys.basis) ||
             (next.basis == Envelopes(next.replica.outbox) && !AnyBlocked(next.replica.outbox))
    ensures LoadedInv(next)
  {
    hide Apply, Replay, NetworkInv;
    if sys.loaded.Some? {
      HistoryTransitive(sys.loaded.value, sys.server, next.server);
      if next.base != sys.base || next.basis != sys.basis {
        var ids := EntryIds(next.replica.outbox);
        assert EnvelopeIds(next.basis) == ids && EnvelopeIds(sys.basis) == ids;
        assert AppliedIds(sys.replica.state) == AppliedIds(sys.base) + ids;
        assert AppliedIds(next.replica.state) == AppliedIds(next.base) + ids;
        SamePrefix(AppliedIds(sys.base), AppliedIds(next.base), ids);
        assert |AppliedIds(sys.base)| == |AppliedIds(next.base)|;
      }
    }
  }

  lemma SamePrefix(a: seq<string>, b: seq<string>, c: seq<string>)
    requires a + c == b + c
    ensures a == b
  {
    assert |a| == |b|;
    assert a == (a + c)[..|a|] && b == (b + c)[..|b|];
  }

  lemma JustLoaded(sys: System)
    requires Inv(sys)
    ensures LoadedInv(sys.(loaded := Some(sys.server)))
  {
    hide Apply, Replay, NetworkInv, CopyInv;
  }

  lemma StepKeepsLoaded(sys: System, step: Step)
    requires Inv(sys) && LoadedInv(sys) && Enabled(sys, step) && Inv(Act(sys, step))
    ensures LoadedInv(Next(sys, step))
  {
    hide Inv, DispatchTo, Send, ServeRequest, ForeignCommands, ChangeAccess, ConfirmDeletion, Deliver, SaveReview,
         Project;
    if step.LoadStep? {
      JustLoaded(sys);
    } else if !step.SaveReviewStep? {
      var next := Act(sys, step);
      if next.replica.state == sys.replica.state && next.replica.outbox == sys.replica.outbox {
        ServerOnlyGrows(sys, step);
        BaseKept(sys, step);
        LoadedUntouched(sys, step);
        LoadedStays(sys, next);
      }
    }
  }

  lemma LoadedUntouched(sys: System, step: Step)
    requires Enabled(sys, step) && !step.SaveReviewStep? && !step.LoadStep?
    ensures Act(sys, step).loaded == sys.loaded
  {
    hide Apply, ApplySuccessfulSyncResponse, ApplyRefusedSyncResponse, SelectBatch, SynchronizeResult, Project;
  }

  // -------------------------------------------------------------------- runs

  lemma ActKeepsInv(sys: System, step: Step)
    requires Inv(sys) && LoadedInv(sys) && Enabled(sys, step)
    ensures Inv(Act(sys, step))
  {
    hide Inv, DispatchTo, Send, ServeRequest, ForeignCommands, ChangeAccess, ConfirmDeletion, Deliver, SaveReview,
         Project;
    match step
    case DispatchStep(_, _, _, _, _) => DispatchKeepsInv(sys, step);
    case SendStep(account, allowEmpty) => SendKeepsInv(sys, account, allowEmpty);
    case ServeStep(request) => ServeKeepsInv(sys, request);
    case AnswerStep(served, context) => AnswerKeepsInv(sys, served, context);
    case RefuseStep(request, receipts, message, definitive, context) => RefuseKeepsInv(sys, step);
    case DeliverStep(reply, now) => DeliverKeepsInv(sys, reply, now);
    case GiveUpStep => FlightKeepsInv(sys, None);
    case ForeignStep(commands) => ForeignKeepsInv(sys, commands);
    case AccessStep(candidate, summary) => AccessKeepsInv(sys, candidate, summary);
    case DeletionStep(candidate, summary) => DeletionKeepsInv(sys, candidate, summary);
    case LoadStep => LoadedKeepsInv(sys, Some(sys.server));
    case SaveReviewStep(_, _, _, _, _) =>
      SaveReviewKeepsInv(sys, step);
      LoadedKeepsInv(SaveReview(sys, step), None);
  }

  /** Every step of the protocol keeps the copy, the server and the network coherent. */
  lemma StepKeepsInv(sys: System, step: Step)
    requires Inv(sys) && LoadedInv(sys) && Enabled(sys, step)
    ensures Inv(Next(sys, step)) && LoadedInv(Next(sys, step))
  {
    hide Inv, LoadedInv, Act, Enabled;
    ActKeepsInv(sys, step);
    StepKeepsLoaded(sys, step);
    LoadedKeepsInv(Act(sys, step), None);
  }

  lemma InitialHoldsInv(sys: System)
    requires Initial(sys)
    ensures Inv(sys) && LoadedInv(sys)
  {
    hide Apply;
    var outbox := sys.replica.outbox;
    forall e | e in outbox
      ensures e.envelope in sys.basis
    {
      EntryInEnvelopes(outbox, e);
    }
    assert EnvelopeIds(sys.basis) == EntryIds(outbox);
  }

  lemma {:induction false} RunKeepsInv(trace: seq<System>, steps: seq<Step>, n: nat)
    requires IsRun(trace, steps) && n < |trace|
    ensures Inv(trace[n]) && LoadedInv(trace[n])
  {
    hide Enabled, Next, Inv, LoadedInv, Initial;
    if n == 0 {
      InitialHoldsInv(trace[0]);
    } else {
      RunKeepsInv(trace, steps, n - 1);
      StepKeepsInv(trace[n - 1], steps[n - 1]);
    }
  }
}
