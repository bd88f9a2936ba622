/**
 The protocol as one tab runs it: one flush at a time, its own reply delivered at
 most once, and one signed-in account throughout. Requests that were given up
 may still reach the server later, and a review may be saved while a flush is under
 way. Under these guards a command is never shown twice on the device, and counting
 revisions is exact: the stale-reply guard refuses the answer to the current flush
 only when a review was saved since it was sent.
 */
module SingleFlight {
  import opened Prelude
  import opened Domain
  import opened Server
  import opened Access
  import opened LocalReplica
  import opened SyncReconciliation
  import opened Store
  import opened ReviewedQueue
  import opened ConflictReview
  import opened Protocol
  import opened Guarantees

  predicate SameAccount(access: AccessState, account: string) {
    access.kind == ServerBacked && access.accountId == Account(account) && !Blank(account)
  }

  predicate Alone(sys: System, step: Step, account: string) {
    match step
    case SendStep(sender, _) => sys.flight == None && sender == Some(Account(account))
    case DeliverStep(k, _) =>
      k < |sys.replies| && sys.flight == Some(sys.replies[k].request) &&
      (ContextOf(sys.replies[k]).authorization.Some? ==>
         SameAccount(ContextOf(sys.replies[k]).authorization.value, account))
    case AccessStep(candidate, _) => SameAccount(candidate, account)
    case DeletionStep(candidate, _) => SameAccount(candidate, account)
    case SaveReviewStep(_, _, access, _, _) => SameAccount(access, account)
    case _ => true
  }

  /** A run in which only this account signs in and flushes do not overlap. */
  ghost predicate IsSingleFlightRun(trace: seq<System>, steps: seq<Step>, account: string) {
    && IsRun(trace, steps)
    && SameAccount(trace[0].replica.authorization, account)
    && forall i | 0 <= i < |steps| :: Alone(trace[i], steps[i], account)
  }

  predicate SentAndPending(sys: System, e: OutboxEntry) {
    e in sys.replica.outbox && e.status == Pending && e.envelope.id in sys.sent
  }

  /** A retry resends everything sent earlier that is still pending. */
  predicate RetryCovers(sys: System, account: string) {
    forall e | e in sys.replica.outbox :: SentAndPending(sys, e) ==>
      e.envelope.id in EntryIds(SelectBatch(sys.replica.outbox, Some(Account(account))))
  }

  predicate FlightCovers(sys: System) {
    sys.flight.Some? ==>
      && sys.flight.value < |sys.requests|
      && (forall e | e in sys.replica.outbox :: SentAndPending(sys, e) ==>
            e.envelope.id in EntryIds(sys.requests[sys.flight.value]))
      && (forall id | id in EntryIds(sys.requests[sys.flight.value]) :: id in EntryIds(sys.replica.outbox))
  }

  predicate AnswersCurrent(sys: System, reply: Reply) {
    reply.Success? && sys.flight == Some(reply.request)
  }

  predicate FreshReply(sys: System, reply: Reply)
    requires reply.Success?
  {
    && SameHistory(sys.base, reply.state)
    && (forall id | id in EnvelopeIds(sys.basis) &&
      id !in EntryIds(sys.replica.outbox) :: id in AppliedIds(reply.state))
  }

  /** The flush under way carries whatever is sent and pending, and its answers are as new as the copy. */
  predicate FlightOk(sys: System) {
    && FlightCovers(sys)
    && forall k | 0 <= k < |sys.replies| && AnswersCurrent(sys, sys.replies[k]) :: FreshReply(sys, sys.replies[k])
  }

  /** A review was saved during the flush under way: nothing queued was ever sent, and nothing has left the queue. */
  predicate Overtaken(sys: System) {
    && sys.flight.Some? && sys.flight.value < |sys.requests|
    && (forall id | id in EntryIds(sys.replica.outbox) :: id !in sys.sent)
    && (forall id | id in EnvelopeIds(sys.basis) :: id in EntryIds(sys.replica.outbox))
  }

  ghost predicate SingleInv(sys: System, account: string) {
    && Inv(sys)
    && SameAccount(sys.replica.authorization, account)
    && RetryCovers(sys, account)
    && NoDuplicates(AppliedIds(sys.replica.state))
    && (FlightOk(sys) || Overtaken(sys))
  }

  /** The step keeps what is known of the flush under way, too. */
  ghost predicate KeepsSingle(sys: System, next: System, account: string) {
    SingleInv(next, account) && (FlightOk(sys) ==> FlightOk(next))
  }

  lemma UnsentRetryCovers(sys: System, account: string)
    requires forall id | id in EntryIds(sys.replica.outbox) :: id !in sys.sent
    ensures RetryCovers(sys, account)
  {
    hide SelectBatch;
    forall e | e in sys.replica.outbox
      ensures !SentAndPending(sys, e)
    {
      var i :| 0 <= i < |sys.replica.outbox| && sys.replica.outbox[i] == e;
      assert EntryIds(sys.replica.outbox)[i] == e.envelope.id;
    }
  }

  // ---------------------------------------------------- access of one account

  lemma SameAccountScoping(outbox: seq<OutboxEntry>, current: AccessState, candidate: AccessState, account: string)
    requires SameAccount(current, account) && SameAccount(candidate, account)
    ensures candidate.status != Deleted ==> ScopeOutbox(outbox, current, candidate) == outbox
    ensures candidate.status == Deleted ==>
              forall e | e in ScopeOutbox(outbox, current, candidate) :: e.status == Blocked
    ensures EntryIds(ScopeOutbox(outbox, current, candidate)) == EntryIds(outbox)
  {
  }

  /** A step that keeps the identifiers and only blocks entries. */
  lemma BlockingKeepsSingle(sys: System, next: System, account: string)
    requires SingleInv(sys, account) && Inv(next) && SameAccount(next.replica.authorization, account)
    requires next.replica.state == sys.replica.state
    requires EntryIds(next.replica.outbox) == EntryIds(sys.replica.outbox)
    requires next.requests == sys.requests && next.replies == sys.replies && next.sent == sys.sent
    requires next.base == sys.base && next.basis == sys.basis
    requires next.flight == sys.flight || next.flight == None
    requires next.replica.outbox == sys.replica.outbox ||
             forall e | e in next.replica.outbox :: !SentAndPending(next, e)
    ensures KeepsSingle(sys, next, account)
  {
    hide Inv, SelectBatch, AppliedIds;
  }

  lemma AccessKeepsSingle(sys: System, candidate: AccessState, summary: Option<Summary>, account: string)
    requires SingleInv(sys, account) && SameAccount(candidate, account)
    ensures KeepsSingle(sys, ChangeAccess(sys, candidate, summary), account)
  {
    hide CopyInv, ServerInv, NetworkInv, ScopeOutbox;
    AccessKeepsInv(sys, candidate, summary);
    SameAccountScoping(sys.replica.outbox, sys.replica.authorization, candidate, account);
    BlockingKeepsSingle(sys, ChangeAccess(sys, candidate, summary), account);
  }

  lemma DeletionKeepsSingle(sys: System, candidate: AccessState, summary: Option<Option<Summary>>, account: string)
    requires SingleInv(sys, account) && SameAccount(candidate, account)
    ensures KeepsSingle(sys, ConfirmDeletion(sys, candidate, summary), account)
  {
    hide CopyInv, ServerInv, NetworkInv, ScopeOutbox;
    DeletionKeepsInv(sys, candidate, summary);
    var result := ApplyConfirmedServerDeletion(sys.replica, candidate, summary);
    if result.Ok? {
      SameAccountScoping(sys.replica.outbox, sys.replica.authorization, result.value.authorization, account);
      BlockingKeepsSingle(sys, ConfirmDeletion(sys, candidate, summary), account);
    }
  }

  // ---------------------------------------------------------------- dispatch

  lemma StateIdsKnown(sys: System, id: string)
    requires Inv(sys) && id in AppliedIds(sys.replica.state)
    ensures id in AppliedIds(sys.server) || id in sys.dispatched
  {
    hide Apply, NetworkInv;
    assert AppliedIds(sys.replica.state) == AppliedIds(sys.base) + EnvelopeIds(sys.basis);
  }

  lemma DispatchKeepsSingle(sys: System, step: Step, account: string)
    requires SingleInv(sys, account) && step.DispatchStep? && Enabled(sys, step)
    ensures KeepsSingle(sys, DispatchTo(sys, step), account)
  {
    hide Apply, EffectiveEnvelope, SelectBatch, CopyInv, ServerInv;
    DispatchKeepsInv(sys, step);
    var result := Dispatch(sys.replica, step.envelope, step.explicitExpectations, step.prior, step.account, step.now);
    if result.Ok? {
      var next := DispatchTo(sys, step);
      var effective := EffectiveEnvelope(sys.replica.state, step.envelope, step.explicitExpectations, step.prior);
      EffectiveKeepsId(sys.replica.state, step.envelope, step.explicitExpectations, step.prior);
      var entry := OutboxEntry(step.account, effective, Pending, None);
      DispatchedRetryCovers(sys, next, entry, account);
      assert AppliedIds(next.replica.state) == AppliedIds(sys.replica.state) + [effective.id];
      if effective.id in AppliedIds(sys.replica.state) {
        StateIdsKnown(sys, effective.id);
      }
      assert EnvelopeIds(next.basis) == EnvelopeIds(sys.basis) + [effective.id];
      assert EntryIds(next.replica.outbox) == EntryIds(sys.replica.outbox) + [effective.id];
    }
  }

  lemma DispatchedRetryCovers(sys: System, next: System, entry: OutboxEntry, account: string)
    requires RetryCovers(sys, account)
    requires next.replica.outbox == sys.replica.outbox + [entry] && next.sent == sys.sent
    requires next.requests == sys.requests && next.flight == sys.flight
    requires entry.envelope.id !in sys.sent
    ensures RetryCovers(next, account) && (FlightCovers(sys) ==> FlightCovers(next))
  {
    hide SelectBatch;
    var small := SelectBatch(sys.replica.outbox, Some(Account(account)));
    var large := SelectBatch(next.replica.outbox, Some(Account(account)));
    BatchGrows(sys.replica.outbox, [entry], Some(Account(account)));
    assert EntryIds(small) <= EntryIds(large) by {
      forall i | 0 <= i < |small|
        ensures EntryIds(large)[i] == EntryIds(small)[i]
      {
        assert large[i] == small[i];
      }
    }
    assert EntryIds(next.replica.outbox) == EntryIds(sys.replica.outbox) + [entry.envelope.id];
  }

  // -------------------------------------------------------------------- send

  lemma SendKeepsSingle(sys: System, allowEmpty: bool, account: string)
    requires SingleInv(sys, account) && sys.flight == None
    ensures KeepsSingle(sys, Send(sys, Some(Account(account)), allowEmpty), account)
  {
    hide SelectBatch, PendingEntries, CopyInv, ServerInv;
    var sender := Some(Account(account));
    SendKeepsInv(sys, sender, allowEmpty);
    BatchIsQueued(sys.replica.outbox, sender);
    var batch := SelectBatch(sys.replica.outbox, sender);
    forall id | id in EntryIds(batch)
      ensures id in EntryIds(sys.replica.outbox)
    {
      var i :| 0 <= i < |batch| && EntryIds(batch)[i] == id;
      assert batch[i] in batch;
      var k :| 0 <= k < |sys.replica.outbox| && sys.replica.outbox[k] == batch[i];
      assert EntryIds(sys.replica.outbox)[k] == id;
    }
  }

  // ----------------------------------------------------- the server and replies

  lemma ServeKeepsSingle(sys: System, request: nat, account: string)
    requires SingleInv(sys, account) && request < |sys.requests|
    ensures KeepsSingle(sys, ServeRequest(sys, request), account)
  {
    hide SynchronizeResult, CopyInv, ServerInv, NetworkInv, SelectBatch;
    ServeKeepsInv(sys, request);
  }

  lemma ForeignKeepsSingle(sys: System, commands: seq<Envelope>, account: string)
    requires SingleInv(sys, account) && Enabled(sys, ForeignStep(commands))
    ensures KeepsSingle(sys, ForeignCommands(sys, commands), account)
  {
    hide SynchronizeResult, CopyInv, ServerInv, NetworkInv, SelectBatch;
    ForeignKeepsInv(sys, commands);
  }

  lemma AnswerKeepsSingle(sys: System, served: nat, context: Context, account: string)
    requires SingleInv(sys, account) && served < |sys.served|
    ensures KeepsSingle(sys, Act(sys, AnswerStep(served, context)), account)
  {
    hide CopyInv, NetworkInv, SelectBatch, Replay;
    AnswerKeepsInv(sys, served, context);
  }

  lemma RefuseKeepsSingle(sys: System, step: Step, account: string)
    requires SingleInv(sys, account) && step.RefuseStep? && Enabled(sys, step)
    ensures KeepsSingle(sys, Act(sys, step), account)
  {
    hide CopyInv, ServerInv, NetworkInv, SelectBatch;
    RefuseKeepsInv(sys, step);
  }

  lemma GiveUpKeepsSingle(sys: System, account: string)
    requires SingleInv(sys, account)
    ensures KeepsSingle(sys, sys.(flight := None), account)
  {
    hide CopyInv, ServerInv, NetworkInv, SelectBatch;
    FlightKeepsInv(sys, None);
  }

  /**
   The two guards against stale replies count one revision for each queued entry.
   With one flush in flight that count is exact, so neither guard ever discards
   the answer to the flush the device is waiting for.
   */
  lemma CurrentReplyIsNeverStale(sys: System, k: nat, account: string)
    requires SingleInv(sys, account) && FlightOk(sys)
    requires k < |sys.replies| && AnswersCurrent(sys, sys.replies[k])
    ensures !ReplyIsStale(sys.replica, sys.requests[sys.replies[k].request], sys.replies[k].state)
  {
    hide CopyInv, ServerInv, NetworkInv, SelectBatch;
    var reply := sys.replies[k];
    AcknowledgedFitInReply(sys, reply.state);
    var sent := sys.requests[reply.request];
    var outbox := sys.replica.outbox;
    if |sent| > 0 {
      assert EntryIds(sent)[0] in EntryIds(sent);
      var i :| 0 <= i < |outbox| && EntryIds(outbox)[i] == EntryIds(sent)[0];
      assert outbox[i].envelope.id in EntryIds(sent);
    }
  }

  // ---------------------------------------------------------------- delivery

  lemma RefusalKeepsSingle(sys: System, k: nat, now: string, account: string)
    requires SingleInv(sys, account) && Enabled(sys, DeliverStep(k, now)) && Alone(sys, DeliverStep(k, now), account)
    requires sys.replies[k].Refusal?
    ensures KeepsSingle(sys, Deliver(sys, sys.replies[k], now), account)
  {
    hide CopyInv, ServerInv, NetworkInv, SelectBatch, ReceiptFor, RefusalText, ShouldApply, ScopeOutbox;
    var reply := sys.replies[k];
    var next := Deliver(sys, reply, now);
    var sent := sys.requests[reply.request];
    RefusalKeepsInv(sys, reply, now);
    var authorization := NextAuthorization(sys.replica.authorization, reply.context.authorization);
    SameAccountScoping(sys.replica.outbox, sys.replica.authorization, authorization, account);
    RefusalRetainsQueue(sys.replica, sent, reply.receipts, reply.message, now, reply.definitive, reply.context);
    RetainedIds(sys.replica.outbox, next.replica.outbox);
    if next.replica.outbox != sys.replica.outbox {
      forall e | e in next.replica.outbox
        ensures !SentAndPending(next, e)
      {
        RefusedNotPending(sys, next, e);
      }
    }
    BlockingKeepsSingle(sys, next, account);
  }

  lemma RefusedNotPending(sys: System, next: System, e: OutboxEntry)
    requires e in next.replica.outbox && (FlightCovers(sys) || Overtaken(sys)) && sys.flight.Some?
    requires sys.flight.value < |sys.requests|
    requires RetainedAll(sys.replica.outbox, next.replica.outbox) && next.sent == sys.sent
    requires (forall i | 0 <= i < |next.replica.outbox| &&
                next.replica.outbox[i].envelope.id in EntryIds(sys.requests[sys.flight.value]) ::
                next.replica.outbox[i].status == Blocked) ||
             (forall x | x in next.replica.outbox :: x.status == Blocked)
    ensures !SentAndPending(next, e)
  {
    var i :| 0 <= i < |next.replica.outbox| && next.replica.outbox[i] == e;
    assert sys.replica.outbox[i] in sys.replica.outbox;
    assert Retained(sys.replica.outbox[i], e);
    assert EntryIds(sys.replica.outbox)[i] in EntryIds(sys.replica.outbox);
  }

  lemma SuccessKeepsSingle(sys: System, k: nat, now: string, account: string)
    requires SingleInv(sys, account) && Enabled(sys, DeliverStep(k, now)) && Alone(sys, DeliverStep(k, now), account)
    requires sys.replies[k].Success?
    ensures KeepsSingle(sys, Deliver(sys, sys.replies[k], now), account)
  {
    hide CopyInv, ServerInv, NetworkInv, SelectBatch, ReceiptFor, ShouldApply, ScopeOutbox, SettleAll, Replay, Apply,
         ReplyIsStale, AppliedIds;
    var reply := sys.replies[k];
    var next := Deliver(sys, reply, now);
    var sent := sys.requests[reply.request];
    DeliverKeepsInv(sys, k, now);
    var result := Reconcile(sys.replica, sent, reply.state, reply.receipts);
    var authorization := NextAuthorization(sys.replica.authorization, reply.context.authorization);
    if ReplyIsStale(sys.replica, sent, reply.state) {
      SameAccountScoping(sys.replica.outbox, sys.replica.authorization, authorization, account);
      BlockingKeepsSingle(sys, next, account);
    } else if result.Ok? {
      var settled := SettleAll(sys.replica.outbox, ToSet(EntryIds(sent)), reply.receipts);
      SameAccountScoping(settled, sys.replica.authorization, authorization, account);
      assert next.replica.outbox == ScopeOutbox(settled, sys.replica.authorization, authorization);
      SettledNotPending(sys, sent, reply.receipts);
      if !AnyBlocked(settled) {
        RebuiltShowsOnce(sys, k, next.replica.state, account);
      }
    }
  }

  /** After the current reply is settled, what is still pending was never sent. */
  lemma SettledNotPending(sys: System, sent: seq<OutboxEntry>, receipts: seq<Receipt>)
    requires FlightCovers(sys) || Overtaken(sys)
    requires sys.flight.Some? && sys.flight.value < |sys.requests| && sys.requests[sys.flight.value] == sent
    ensures forall e | e in SettleAll(sys.replica.outbox, ToSet(EntryIds(sent)), receipts) ::
              e.status == Pending ==> e.envelope.id !in sys.sent
  {
    hide SettleAll;
    SettleAllShape(sys.replica.outbox, ToSet(EntryIds(sent)), receipts);
    forall e | e in SettleAll(sys.replica.outbox, ToSet(EntryIds(sent)), receipts) && e.status == Pending
      ensures e.envelope.id !in sys.sent
    {
      assert e in sys.replica.outbox;
      var i :| 0 <= i < |sys.replica.outbox| && sys.replica.outbox[i] == e;
      assert EntryIds(sys.replica.outbox)[i] in EntryIds(sys.replica.outbox);
    }
  }

  /** Replaying the remaining queue over the reply never applies a command a second time. */
  lemma RebuiltShowsOnce(sys: System, k: nat, rebuilt: State, account: string)
    requires SingleInv(sys, account) && k < |sys.replies| && AnswersCurrent(sys, sys.replies[k])
    requires var reply := sys.replies[k];
             var settled := SettleAll(sys.replica.outbox, ToSet(EntryIds(sys.requests[reply.request])), reply.receipts);
             !AnyBlocked(settled) && Replay(reply.state, Envelopes(settled)) == Ok(rebuilt)
    ensures NoDuplicates(AppliedIds(rebuilt))
  {
    hide SettleAll, SelectBatch, Apply;
    var reply := sys.replies[k];
    var sent := sys.requests[reply.request];
    var settled := SettleAll(sys.replica.outbox, ToSet(EntryIds(sent)), reply.receipts);
    SettledCopy(sys, ToSet(EntryIds(sent)), reply.receipts);
    SettledNotPending(sys, sent, reply.receipts);
    assert EnvelopeIds(Envelopes(settled)) == EntryIds(settled);
    assert AppliedIds(rebuilt) == AppliedIds(reply.state) + EntryIds(settled);
    assert AppliedIds(reply.state) <= AppliedIds(sys.server);
    PrefixNoDuplicates(AppliedIds(reply.state), AppliedIds(sys.server));
    forall i | 0 <= i < |settled|
      ensures EntryIds(settled)[i] !in AppliedIds(sys.server)
    {
      assert settled[i] in settled;
      assert EntryIds(settled)[i] in EntryIds(settled);
    }
    DisjointNoDuplicates(AppliedIds(reply.state), EntryIds(settled));
  }

  lemma PrefixNoDuplicates(a: seq<string>, b: seq<string>)
    requires a <= b && NoDuplicates(b)
    ensures NoDuplicates(a)
    ensures forall id | id in a :: id in b
  {
    forall i, j | 0 <= i < j < |a|
      ensures a[i] != a[j]
    {
      assert a[i] == b[i] && a[j] == b[j];
    }
  }

  // --------------------------------------------------------- saving a review

  /** The rebuilt queue has never been sent and shows every command once; a flush still under way is overtaken. */
  lemma SaveReviewKeepsSingle(sys: System, step: Step, account: string)
    requires SingleInv(sys, account) && LoadedInv(sys)
    requires step.SaveReviewStep? && Enabled(sys, step) && Alone(sys, step, account)
    ensures SingleInv(SaveReview(sys, step), account)
    ensures sys.flight == None ==> FlightOk(SaveReview(sys, step))
  {
    hide CopyInv, ServerInv, LoadedInv, SelectBatch, Project, Replay, Apply, SavedReview;
    var next := SaveReview(sys, step);
    SaveReviewKeepsInv(sys, step);
    SavedReviewOutbox(sys, step);
    ReviewedShowsOnce(sys, step);
    UnsentRetryCovers(next, account);
    assert EnvelopeIds(next.basis) == EntryIds(next.replica.outbox);
  }

  lemma ReviewedShowsOnce(sys: System, step: Step)
    requires ServerInv(sys) && LoadedInv(sys) && step.SaveReviewStep? && Enabled(sys, step)
    ensures NoDuplicates(AppliedIds(SaveReview(sys, step).replica.state))
  {
    hide Project, Replay, Apply;
    var online := sys.loaded.value;
    PrefixNoDuplicates(AppliedIds(online), AppliedIds(sys.server));
    SavedReviewIsExact(sys.replica, online, step.decisions, step.options, step.access, step.serverSummary,
        step.timestamp);
  }

  lemma LoadedKeepsSingle(sys: System, loaded: Option<State>, account: string)
    requires SingleInv(sys, account)
    ensures KeepsSingle(sys, sys.(loaded := loaded), account)
  {
    hide CopyInv, ServerInv, NetworkInv, SelectBatch;
    LoadedKeepsInv(sys, loaded);
  }

  // -------------------------------------------------------------------- runs

  lemma ActKeepsSingle(sys: System, step: Step, account: string)
    requires SingleInv(sys, account) && LoadedInv(sys) && Enabled(sys, step) && Alone(sys, step, account)
    ensures SingleInv(Act(sys, step), account)
    ensures FlightOk(sys) && (step.SaveReviewStep? ==> sys.flight == None) ==> FlightOk(Act(sys, step))
  {
    hide SingleInv, FlightOk, DispatchTo, Send, ServeRequest, ForeignCommands, ChangeAccess, ConfirmDeletion, Deliver,
         SaveReview, Project, LoadedInv;
    match step
    case DispatchStep(_, _, _, _, _) => DispatchKeepsSingle(sys, step, account);
    case SendStep(_, allowEmpty) => SendKeepsSingle(sys, allowEmpty, account);
    case ServeStep(request) => ServeKeepsSingle(sys, request, account);
    case AnswerStep(served, context) => AnswerKeepsSingle(sys, served, context, account);
    case RefuseStep(_, _, _, _, _) => RefuseKeepsSingle(sys, step, account);
    case DeliverStep(k, now) =>
      if sys.replies[k].Success? {
        SuccessKeepsSingle(sys, k, now, account);
      } else {
        RefusalKeepsSingle(sys, k, now, account);
      }
    case GiveUpStep => GiveUpKeepsSingle(sys, account);
    case ForeignStep(commands) => ForeignKeepsSingle(sys, commands, account);
    case AccessStep(candidate, summary) => AccessKeepsSingle(sys, candidate, summary, account);
    case DeletionStep(candidate, summary) => DeletionKeepsSingle(sys, candidate, summary, account);
    case LoadStep => LoadedKeepsSingle(sys, Some(sys.server), account);
    case SaveReviewStep(_, _, _, _, _) =>
      SaveReviewKeepsSingle(sys, step, account);
      LoadedKeepsSingle(SaveReview(sys, step), None, account);
  }

  lemma StepKeepsSingle(sys: System, step: Step, account: string)
    requires SingleInv(sys, account) && LoadedInv(sys) && Enabled(sys, step) && Alone(sys, step, account)
    ensures SingleInv(Next(sys, step), account)
    ensures FlightOk(sys) && (step.SaveReviewStep? ==> sys.flight == None) ==> FlightOk(Next(sys, step))
  {
    hide SingleInv, FlightOk, Act, Enabled, Alone, LoadedInv;
    ActKeepsSingle(sys, step, account);
    LoadedKeepsSingle(Act(sys, step), None, account);
  }

  lemma InitialIsSingle(sys: System, account: string)
    requires Initial(sys) && Inv(sys) && SameAccount(sys.replica.authorization, account)
    ensures SingleInv(sys, account)
  {
    hide Apply, Inv, SelectBatch;
    var ids := EntryIds(sys.replica.outbox);
    assert EnvelopeIds(Envelopes(sys.replica.outbox)) == ids;
    assert AppliedIds(sys.replica.state) == AppliedIds(sys.server) + ids;
    assert forall i | 0 <= i < |ids| :: ids[i] in ids;
    DisjointNoDuplicates(AppliedIds(sys.server), ids);
  }

  lemma {:induction false} RunKeepsSingle(trace: seq<System>, steps: seq<Step>, account: string, n: nat)
    requires IsSingleFlightRun(trace, steps, account) && n < |trace|
    ensures SingleInv(trace[n], account)
  {
    hide Enabled, Next, Alone, CopyInv, ServerInv, NetworkInv;
    if n == 0 {
      RunKeepsInv(trace, steps, 0);
      InitialIsSingle(trace[0], account);
    } else {
      RunKeepsSingle(trace, steps, account, n - 1);
      RunKeepsInv(trace, steps, n - 1);
      StepKeepsSingle(trace[n - 1], steps[n - 1], account);
    }
  }

  /** A review was saved since the flush under way was sent. */
  ghost predicate ReviewedMeanwhile(trace: seq<System>, steps: seq<Step>, n: nat)
    requires n < |trace| == |steps| + 1
  {
    && trace[n].flight.Some?
    && exists i | 0 <= i < n :: steps[i].SaveReviewStep? && trace[i].flight == trace[n].flight
  }

  lemma FlightChanges(sys: System, step: Step, account: string)
    requires Enabled(sys, step) && Alone(sys, step, account)
    ensures Next(sys, step).flight == sys.flight || Next(sys, step).flight == None || sys.flight == None
    ensures step.SaveReviewStep? ==> Next(sys, step).flight == sys.flight
  {
    hide Apply, ApplySuccessfulSyncResponse, ApplyRefusedSyncResponse, SelectBatch, SynchronizeResult, Project,
         Rebuilds;
  }

  lemma {:induction false} FlightStaysOk(trace: seq<System>, steps: seq<Step>, account: string, n: nat)
    requires IsSingleFlightRun(trace, steps, account) && n < |trace|
    requires !ReviewedMeanwhile(trace, steps, n)
    ensures FlightOk(trace[n])
  {
    hide Enabled, Next, Alone, SingleInv, SelectBatch, Initial, FreshReply, LoadedInv;
    if trace[n].flight == None {
    } else if n == 0 {
      InitialHasNoFlight(trace[0]);
    } else {
      FlightChanges(trace[n - 1], steps[n - 1], account);
      FlightStaysOk(trace, steps, account, n - 1);
      RunKeepsSingle(trace, steps, account, n - 1);
      RunKeepsInv(trace, steps, n - 1);
      StepKeepsSingle(trace[n - 1], steps[n - 1], account);
    }
  }

  lemma InitialHasNoFlight(sys: System)
    requires Initial(sys)
    ensures sys.flight == None
  {
    hide Replay;
  }

  /**
   With one flush in flight and one account, in every reachable state: the device
   shows each command once, a retry would resend everything sent and still
   pending, and the answer to the current flush is never discarded as stale, unless
   a review was saved since it was sent.
   */
  lemma SingleFlightIsExact(trace: seq<System>, steps: seq<Step>, account: string, n: nat)
    requires IsSingleFlightRun(trace, steps, account) && n < |trace|
    ensures NoDuplicates(AppliedIds(trace[n].replica.state))
    ensures RetryCovers(trace[n], account)
    ensures !ReviewedMeanwhile(trace, steps, n) ==>
              forall k | 0 <= k < |trace[n].replies| && AnswersCurrent(trace[n], trace[n].replies[k]) ::
                var reply := trace[n].replies[k];
                && reply.request < |trace[n].requests|
                && !ReplyIsStale(trace[n].replica, trace[n].requests[reply.request], reply.state)
  {
    hide Enabled, Next, Alone, CopyInv, ServerInv, SelectBatch, ReplyIsStale;
    RunKeepsSingle(trace, steps, account, n);
    forall k | 0 <= k < |trace[n].replies| && AnswersCurrent(trace[n], trace[n].replies[k]) &&
               !ReviewedMeanwhile(trace, steps, n)
      ensures trace[n].replies[k].request < |trace[n].requests|
      ensures !ReplyIsStale(trace[n].replica, trace[n].requests[trace[n].replies[k].request], trace[n].replies[k].state)
    {
      FlightStaysOk(trace, steps, account, n);
      CurrentReplyIsNeverStale(trace[n], k, account);
    }
  }

  /**
   With one flush in flight and one account, reviews included, the confirmed revision
   never goes down along any run.
   */
  lemma SingleFlightNeverRollsBack(trace: seq<System>, steps: seq<Step>, account: string, m: nat, n: nat)
    requires IsSingleFlightRun(trace, steps, account) && m <= n < |trace|
    ensures AppliedIds(trace[m].base) <= AppliedIds(trace[n].base)
    ensures ConfirmedRevision(trace[m].replica) <= ConfirmedRevision(trace[n].replica)
  {
    hide Enabled, Next, Alone, Inv, SelectBatch, Initial, ConfirmedRevision;
    forall i | m <= i < n
      ensures CountsExactly(trace[i], steps[i])
    {
      RunKeepsSingle(trace, steps, account, i);
    }
    DeviceNeverRollsBack(trace, steps, m, n);
  }
}
