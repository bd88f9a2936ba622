/**
 Reading an exported copy back. Timestamps, the record validators and the JSON
 text itself are not represented: a bundle is its decoded copy.
 */
module RecoveryBundle {
  import opened Prelude
  import opened Domain
  import opened Server
  import opened Access
  import opened LocalReplica
  import opened SyncReconciliation
  import opened Store
  import opened Protocol
  import opened Guarantees
  import opened ConflictReview
  import opened ReviewedQueue

  datatype UploadError = MalformedEntry | MalformedCommand | NotRepresented

  predicate ReadableAccount(account: AccountTag) {
    account.Account? ==> !Blank(account.id)
  }

  predicate NamedEnvelope(e: Envelope) {
    !Blank(e.id) && !Blank(e.actorId) && !Blank(e.deviceId)
  }

  /** Why the entry at an index is refused, if it is. */
  function EntryError(replica: Replica, i: nat): Option<UploadError>
    requires i < |replica.outbox|
  {
    var entry := replica.outbox[i];
    if !ReadableAccount(entry.accountId) then
      Some(MalformedEntry)
    else if !NamedEnvelope(entry.envelope) || entry.envelope.id in EntryIds(replica.outbox[..i]) ||
            entry.envelope.workspaceId != replica.state.workspaceId then
      Some(MalformedCommand)
    else if !WasApplied(replica.state, entry.envelope.id) then
      Some(NotRepresented)
    else
      None
  }

  /** The copy is returned as it is, or the first bad entry is reported. */
  method ParseRecoveryUpload(replica: Replica) returns (r: Result<Replica, UploadError>)
    ensures r.Ok? ==> r.value == replica && forall i | 0 <= i < |replica.outbox| :: EntryError(replica, i) == None
    ensures r.Err? ==> exists i | 0 <= i < |replica.outbox| ::
              EntryError(replica, i) == Some(r.error) && forall j | 0 <= j < i :: EntryError(replica, j) == None
  {
    hide WasApplied, NamedEnvelope, ReadableAccount;
    var commandIds: set<string> := {};
    for i := 0 to |replica.outbox|
      invariant commandIds == ToSet(EntryIds(replica.outbox[..i]))
      invariant forall j | 0 <= j < i :: EntryError(replica, j) == None
    {
      var entry := replica.outbox[i];
      if !ReadableAccount(entry.accountId) {
        assert EntryError(replica, i) == Some(MalformedEntry);
        return Err(MalformedEntry);
      }
      if !NamedEnvelope(entry.envelope) || entry.envelope.id in commandIds ||
         entry.envelope.workspaceId != replica.state.workspaceId {
        assert EntryError(replica, i) == Some(MalformedCommand);
        return Err(MalformedCommand);
      }
      if !WasApplied(replica.state, entry.envelope.id) {
        assert EntryError(replica, i) == Some(NotRepresented);
        return Err(NotRepresented);
      }
      assert EntryIds(replica.outbox[..i + 1]) == EntryIds(replica.outbox[..i]) + [entry.envelope.id];
      commandIds := commandIds + {entry.envelope.id};
    }
    r := Ok(replica);
  }

  predicate NamedEntry(e: OutboxEntry) {
    ReadableAccount(e.accountId) && NamedEnvelope(e.envelope)
  }

  ghost predicate Acceptable(replica: Replica) {
    Exportable(replica) && forall e | e in replica.outbox :: NamedEntry(e)
  }

  /** The loop accepts exactly the coherent copies. */
  lemma AcceptedIffAcceptable(replica: Replica)
    ensures (forall i | 0 <= i < |replica.outbox| :: EntryError(replica, i) == None) <==> Acceptable(replica)
  {
    hide WasApplied, NamedEnvelope, ReadableAccount;
    var outbox := replica.outbox;
    forall i | 0 <= i < |outbox|
      ensures WasApplied(replica.state, outbox[i].envelope.id) <==> outbox[i].envelope.id in AppliedIds(replica.state)
    {
      WasAppliedIsLogged(replica.state, outbox[i].envelope.id);
    }
    if forall i | 0 <= i < |outbox| :: EntryError(replica, i) == None {
      forall i, j | 0 <= i < j < |outbox|
        ensures EntryIds(outbox)[i] != EntryIds(outbox)[j]
      {
        assert EntryError(replica, j) == None;
        assert EntryIds(outbox[..j])[i] == EntryIds(outbox)[i];
      }
      forall i | 0 <= i < |outbox|
        ensures NamedEntry(outbox[i]) && outbox[i].envelope.workspaceId == replica.state.workspaceId
        ensures outbox[i].envelope.id in AppliedIds(replica.state)
      {
        assert EntryError(replica, i) == None;
      }
      assert Acceptable(replica);
    }
    if Acceptable(replica) {
      forall i | 0 <= i < |outbox|
        ensures EntryError(replica, i) == None
      {
        assert NamedEntry(outbox[i]);
        assert forall j | 0 <= j < i :: EntryIds(outbox[..i])[j] == EntryIds(outbox)[j];
      }
    }
  }

  /** An entry that belongs to an account without a name, or misses one of its own, is refused. */
  lemma NamelessIsRefused(replica: Replica, i: nat)
    requires i < |replica.outbox|
    requires var e := replica.outbox[i];
             || (e.accountId.Account? && forall c | c in e.accountId.id :: IsSpace(c))
             || (forall c | c in e.envelope.id :: IsSpace(c))
             || (forall c | c in e.envelope.actorId :: IsSpace(c))
             || (forall c | c in e.envelope.deviceId :: IsSpace(c))
    ensures EntryError(replica, i) in {Some(MalformedEntry), Some(MalformedCommand)} && !Acceptable(replica)
  {
    hide IsSpace, Exportable;
    assert !NamedEntry(replica.outbox[i]);
  }

  // ---------------------------------------------------- what the steps keep

  predicate ReadableAccess(access: AccessState) {
    ReadableAccount(access.accountId)
  }

  predicate ReadableContext(context: Context) {
    context.authorization.Some? ==> ReadableAccess(context.authorization.value)
  }

  predicate AllNamed(outbox: seq<OutboxEntry>) {
    forall e | e in outbox :: NamedEntry(e)
  }

  lemma ScopeKeepsNamed(outbox: seq<OutboxEntry>, current: AccessState, next: AccessState)
    requires AllNamed(outbox) && ReadableAccess(current) && ReadableAccess(next)
    ensures AllNamed(ScopeOutbox(outbox, current, next))
  {
    hide CommandLabel, NamedEnvelope, AccountIdsMatch;
    var scoped := ScopeOutbox(outbox, current, next);
    forall e | e in scoped
      ensures NamedEntry(e)
    {
      var i :| 0 <= i < |scoped| && scoped[i] == e;
      assert NamedEntry(outbox[i]);
    }
  }

  lemma {:induction false} SettleKeepsNamed(outbox: seq<OutboxEntry>, sent: set<string>, receipts: seq<Receipt>)
    requires AllNamed(outbox)
    ensures AllNamed(SettleAll(outbox, sent, receipts))
  {
    hide Acknowledged, SettledError, NamedEnvelope;
    if outbox == [] {
    } else {
      assert NamedEntry(outbox[0]);
      SettleKeepsNamed(outbox[1..], sent, receipts);
    }
  }

  lemma RefusalKeepsNamed(
    replica: Replica, sent: seq<OutboxEntry>, receipts: seq<Receipt>, message: string,
    attemptedAt: string, definitive: bool, context: Context)
    requires AllNamed(replica.outbox) && ReadableAccess(replica.authorization) && ReadableContext(context)
    ensures var next := ApplyRefusedSyncResponse(replica, sent, receipts, message, attemptedAt, definitive, context);
            AllNamed(next.outbox) && ReadableAccess(next.authorization)
  {
    hide ShouldApply, CommandLabel, NamedEnvelope, ReceiptFor, RefusalText, ScopeOutbox;
    var next := ApplyRefusedSyncResponse(replica, sent, receipts, message, attemptedAt, definitive, context);
    var scoped := ApplyServerContext(replica, context);
    ScopeKeepsNamed(replica.outbox, replica.authorization, scoped.authorization);
    forall e | e in next.outbox
      ensures NamedEntry(e)
    {
      var i :| 0 <= i < |next.outbox| && next.outbox[i] == e;
      assert NamedEntry(scoped.outbox[i]);
    }
  }

  lemma SuccessKeepsNamed(
    replica: Replica, sent: seq<OutboxEntry>, serverState: State, receipts: seq<Receipt>, syncedAt: string,
    context: Context)
    requires AllNamed(replica.outbox) && ReadableAccess(replica.authorization) && ReadableContext(context)
    requires ApplySuccessfulSyncResponse(replica, sent, serverState, receipts, syncedAt, context).Ok?
    ensures var next := ApplySuccessfulSyncResponse(replica, sent, serverState, receipts, syncedAt, context).value;
            AllNamed(next.outbox) && ReadableAccess(next.authorization)
  {
    hide ShouldApply, ReplyIsStale, SettleAll, ScopeOutbox, Replay, NamedEntry;
    var reconciled := Reconcile(replica, sent, serverState, receipts).value;
    SettleKeepsNamed(replica.outbox, ToSet(EntryIds(sent)), receipts);
    ScopeKeepsNamed(reconciled.outbox, reconciled.authorization,
                    NextAuthorization(reconciled.authorization, context.authorization));
  }

  // ------------------------------------------------------- the saved review

  predicate NamedOptions(options: Options, decisions: seq<Decision>) {
    && (options.accountId.Some? ==> !Blank(options.accountId.value))
    && (options.actorId.Some? ==> !Blank(options.actorId.value))
    && forall d | d in decisions :: d.newId.Some? ==> !Blank(d.newId.value)
  }

  lemma {:induction false} FreshIdNamed(state: State, id: string)
    requires !Blank(id)
    ensures !Blank(FreshReviewId(state, id))
    decreases LongestId(state.log) - |id|
  {
    if !WasApplied(state, id) {
    } else {
      assert 'r' in "review_" + id by {
        assert ("review_" + id)[0] == 'r';
      }
      FreshIdNamed(state, "review_" + id);
    }
  }

  lemma DecidedNamed(state: State, step: ReviewStep, decision: Decision, options: Options)
    requires NamedEntry(step.entry) && NamedOptions(options, [decision])
    ensures var r := ApplyDecision(state, step, decision, options);
            r.Ok? && r.value.entry.Some? ==> NamedEntry(r.value.entry.value)
  {
    hide Apply, ChosenCommand, WasApplied, FreshReviewId, ExpectationsFor, Blank;
    assert decision in [decision];
    var id := "review_" + step.entry.envelope.id;
    ReviewPrefixNamed(step.entry.envelope.id);
    FreshIdNamed(state, id);
  }

  lemma ReviewPrefixNamed(id: string)
    ensures !Blank("review_" + id)
  {
    assert ("review_" + id)[0] == 'r';
    assert 'r' in "review_" + id;
  }

  lemma EntryNamed(
    replica: Replica, server: State, decisions: seq<Decision>, options: Options, index: nat, p: Projection)
    requires index < |replica.outbox| && ReviewEntry(replica, server, decisions, options, index, p).Ok?
    requires AllNamed(replica.outbox) && NamedOptions(options, decisions) && AllNamed(p.outbox)
    ensures AllNamed(ReviewEntry(replica, server, decisions, options, index, p).value.outbox)
  {
    hide StepFor, ApplyDecision, WasApplied, NamedEntry, InconsistentEntry;
    var entry := replica.outbox[index];
    if p.used < |decisions| && StepFor(replica, p.state, entry, index).Ok? {
      StepIsFor(replica, p.state, entry, index);
      assert decisions[p.used] in decisions;
      DecidedNamed(p.state, StepFor(replica, p.state, entry, index).value, decisions[p.used], options);
    }
  }

  lemma {:induction false} ReviewNamed(
    replica: Replica, server: State, decisions: seq<Decision>, options: Options, n: nat)
    requires n <= |replica.outbox| && ReviewFirst(replica, server, decisions, options, n).Ok?
    requires AllNamed(replica.outbox) && NamedOptions(options, decisions)
    ensures AllNamed(ReviewFirst(replica, server, decisions, options, n).value.outbox)
  {
    hide ReviewEntry, NamedEntry;
    if n == 0 {
    } else {
      ReviewNamed(replica, server, decisions, options, n - 1);
      var p := ReviewFirst(replica, server, decisions, options, n - 1).value;
      if p.next.None? {
        EntryNamed(replica, server, decisions, options, n - 1, p);
      }
    }
  }

  // -------------------------------------------------------------------- runs

  /** A run in which commands are created with real names and accounts are normalized. */
  predicate NamedStep(step: Step) {
    match step
    case DispatchStep(envelope, _, _, account, _) => NamedEnvelope(envelope) && ReadableAccount(account)
    case AnswerStep(_, context) => ReadableContext(context)
    case RefuseStep(_, _, _, _, context) => ReadableContext(context)
    case AccessStep(candidate, _) => ReadableAccess(candidate)
    case DeletionStep(candidate, _) => ReadableAccess(candidate)
    case SaveReviewStep(decisions, options, access, _, _) => NamedOptions(options, decisions) && ReadableAccess(access)
    case _ => true
  }

  predicate NamedSystem(sys: System) {
    && AllNamed(sys.replica.outbox)
    && ReadableAccess(sys.replica.authorization)
    && forall reply | reply in sys.replies :: ReadableContext(ContextOf(reply))
  }

  predicate NamedCopy(replica: Replica) {
    AllNamed(replica.outbox) && ReadableAccess(replica.authorization)
  }

  lemma DeliveryKeepsNamed(sys: System, k: nat, now: string)
    requires NamedSystem(sys) && Enabled(sys, DeliverStep(k, now))
    ensures NamedCopy(Deliver(sys, sys.replies[k], now).replica)
    ensures Deliver(sys, sys.replies[k], now).replies == sys.replies
  {
    hide Rebuilds, AllNamed, ReadableAccess, ApplySuccessfulSyncResponse, ApplyRefusedSyncResponse;
    var reply := sys.replies[k];
    assert ReadableContext(ContextOf(reply));
    var sent := sys.requests[reply.request];
    match reply {
      case Refusal(_, receipts, message, definitive, context) =>
        RefusalKeepsNamed(sys.replica, sent, receipts, message, now, definitive, context);
      case Success(_, state, receipts, context) =>
        if ApplySuccessfulSyncResponse(sys.replica, sent, state, receipts, now, context).Ok? {
          SuccessKeepsNamed(sys.replica, sent, state, receipts, now, context);
        }
    }
  }

  lemma AccessKeepsNamed(sys: System, candidate: AccessState, summary: Option<Summary>)
    requires NamedSystem(sys) && ReadableAccess(candidate)
    ensures NamedCopy(ChangeAccess(sys, candidate, summary).replica)
    ensures ChangeAccess(sys, candidate, summary).replies == sys.replies
  {
    hide AllNamed, ReadableAccount, ScopeOutbox, ShouldApply;
    ScopeKeepsNamed(sys.replica.outbox, sys.replica.authorization, candidate);
  }

  lemma DeletionKeepsNamed(sys: System, candidate: AccessState, summary: Option<Option<Summary>>)
    requires NamedSystem(sys) && ReadableAccess(candidate)
    ensures NamedCopy(ConfirmDeletion(sys, candidate, summary).replica)
    ensures ConfirmDeletion(sys, candidate, summary).replies == sys.replies
  {
    hide AllNamed, ReadableAccount, ScopeOutbox, AccountIdsMatch, NewerSummary;
    var r := ApplyConfirmedServerDeletion(sys.replica, candidate, summary);
    if r.Ok? {
      ScopeKeepsNamed(sys.replica.outbox, sys.replica.authorization, r.value.authorization);
    }
  }

  lemma DispatchedIsNamed(sys: System, step: Step)
    requires NamedSystem(sys) && step.DispatchStep? && NamedStep(step)
    ensures NamedCopy(DispatchTo(sys, step).replica) && DispatchTo(sys, step).replies == sys.replies
  {
    hide AllNamed, ReadableAccount, NamedEnvelope, Apply, EffectiveEnvelope;
    DispatchKeepsNamed(
      sys.replica, step.envelope, step.explicitExpectations, step.prior, step.account, step.now);
  }

  lemma OthersKeepNamed(sys: System, step: Step)
    requires NamedSystem(sys) && Enabled(sys, step) && NamedStep(step)
    requires !step.DispatchStep? && !step.AccessStep? && !step.DeletionStep?
    requires !step.DeliverStep? && !step.SaveReviewStep?
    ensures NamedSystem(Act(sys, step))
  {
    hide SynchronizeResult, SelectBatch, PendingEntries, Project, AllNamed, ReadableAccess;
  }

  lemma StepKeepsNamed(sys: System, step: Step)
    requires NamedSystem(sys) && Enabled(sys, step) && NamedStep(step)
    ensures NamedSystem(Next(sys, step))
  {
    hide DispatchTo, Send, ServeRequest, ForeignCommands, ChangeAccess, ConfirmDeletion, Deliver, SaveReview, Project,
         AllNamed, ReadableAccess, ReadableContext;
    if step.DispatchStep? {
      DispatchedIsNamed(sys, step);
    } else if step.DeliverStep? {
      DeliveryKeepsNamed(sys, step.reply, step.now);
    } else if step.AccessStep? {
      AccessKeepsNamed(sys, step.candidate, step.summary);
    } else if step.DeletionStep? {
      DeletionKeepsNamed(sys, step.candidate, step.deletedSummary);
    } else if step.SaveReviewStep? {
      SaveReviewKeepsNamed(sys, step);
    } else {
      OthersKeepNamed(sys, step);
    }
  }

  lemma SaveReviewKeepsNamed(sys: System, step: Step)
    requires NamedSystem(sys) && step.SaveReviewStep? && Enabled(sys, step) && NamedStep(step)
    ensures var next := SaveReview(sys, step);
            AllNamed(next.replica.outbox) && ReadableAccess(next.replica.authorization) && next.replies == sys.replies
  {
    hide ReviewFirst, NamedEntry, NamedOptions, ReadableAccess;
    SavedReviewOutbox(sys, step);
    ReviewNamed(sys.replica, sys.loaded.value, step.decisions, step.options, |sys.replica.outbox|);
  }

  lemma DispatchKeepsNamed(
    replica: Replica, envelope: Envelope, explicitExpectations: bool, prior: set<string>, account: AccountTag,
    now: string)
    requires AllNamed(replica.outbox) && NamedEnvelope(envelope) && ReadableAccount(account)
    ensures var r := Dispatch(replica, envelope, explicitExpectations, prior, account, now);
            r.Ok? ==> AllNamed(r.value.outbox)
  {
    hide Apply, CanRebaseQueuedCommand, ExpectationsFor, Blank;
  }

  lemma {:induction false} RunKeepsNamed(trace: seq<System>, steps: seq<Step>, n: nat)
    requires IsRun(trace, steps) && n < |trace|
    requires NamedSystem(trace[0]) && forall i | 0 <= i < |steps| :: NamedStep(steps[i])
    ensures NamedSystem(trace[n])
  {
    hide Enabled, Next, NamedStep;
    if n == 0 {
    } else {
      RunKeepsNamed(trace, steps, n - 1);
      StepKeepsNamed(trace[n - 1], steps[n - 1]);
    }
  }

  /**
   Every copy the protocol can reach, in any state of blockage, refusal, access
   change, confirmed deletion or saved review and with anything under way, is accepted
   when exported and read back.
   */
  lemma ReachableCopyIsAccepted(trace: seq<System>, steps: seq<Step>, n: nat)
    requires IsRun(trace, steps) && n < |trace|
    requires NamedSystem(trace[0]) && forall i | 0 <= i < |steps| :: NamedStep(steps[i])
    ensures forall i | 0 <= i < |trace[n].replica.outbox| :: EntryError(trace[n].replica, i) == None
  {
    hide Enabled, Next, NamedStep, EntryError, NamedEntry;
    CopyIsCoherent(trace, steps, n);
    RunKeepsNamed(trace, steps, n);
    AcceptedIffAcceptable(trace[n].replica);
  }

  /** A saved review is accepted when exported and read back. */
  lemma SavedReviewIsAccepted(
    replica: Replica, server: State, decisions: seq<Decision>, options: Options,
    access: AccessState, summary: Option<Summary>, timestamp: string)
    requires AllNamed(replica.outbox) && NamedOptions(options, decisions)
    requires Project(replica, server, decisions, options).Ok?
    requires Project(replica, server, decisions, options).value.next.None?
    ensures var saved := SavedReview(replica, server, access, summary,
                                     Project(replica, server, decisions, options).value, timestamp);
            forall i | 0 <= i < |saved.outbox| :: EntryError(saved, i) == None
  {
    hide ReviewFirst, EntryError, NamedEntry, NamedOptions, Apply;
    SavedReviewIsExact(replica, server, decisions, options, access, summary, timestamp);
    ReviewNamed(replica, server, decisions, options, |replica.outbox|);
    AcceptedIffAcceptable(SavedReview(replica, server, access, summary,
                                      Project(replica, server, decisions, options).value, timestamp));
  }
}
