/** What holds in every run of the protocol, with any number of flushes in progress. */
module Guarantees {
  import opened Prelude
  import opened Domain
  import opened Server
  import opened LocalReplica
  import opened SyncReconciliation
  import opened Store
  import opened ConflictReview
  import opened ReviewedQueue
  import opened Access
  import opened Protocol

  /**
   No queued command is lost: it is in the outbox, applied by the server, or was
   decided upon in a saved review; and the server applies each at most once.
   */
  lemma NoLossAndAtMostOnce(trace: seq<System>, steps: seq<Step>, n: nat)
    requires IsRun(trace, steps) && n < |trace|
    ensures forall id | id in trace[n].dispatched ::
              || id in EntryIds(trace[n].replica.outbox)
              || id in AppliedIds(trace[n].server)
              || id in trace[n].resolved
    ensures NoDuplicates(AppliedIds(trace[n].server))
  {
    hide Enabled, Next, CopyInv, NetworkInv;
    RunKeepsInv(trace, steps, n);
  }

  /** Identifiers queued earlier stay on record, so the guarantee covers every earlier dispatch. */
  lemma {:induction false} DispatchedStays(trace: seq<System>, steps: seq<Step>, m: nat, n: nat)
    requires IsRun(trace, steps) && m <= n < |trace|
    ensures trace[m].dispatched <= trace[n].dispatched
    decreases n
  {
    hide Enabled, Next, Initial;
    if m == n {
    } else {
      DispatchedStays(trace, steps, m, n - 1);
      StepKeepsDispatched(trace[n - 1], steps[n - 1]);
    }
  }

  lemma StepKeepsDispatched(sys: System, step: Step)
    requires Enabled(sys, step)
    ensures sys.dispatched <= Next(sys, step).dispatched
  {
    hide Apply, ApplySuccessfulSyncResponse, ApplyRefusedSyncResponse, SynchronizeResult, SelectBatch,
         SavedReview, Project;
  }

  /** Only saving a review decides upon a command, and only upon one that was queued and missing online. */
  lemma ResolvedByReview(sys: System, step: Step, id: string)
    requires Enabled(sys, step) && id in Next(sys, step).resolved && id !in sys.resolved
    ensures step.SaveReviewStep?
    ensures id in EntryIds(sys.replica.outbox) && !WasApplied(sys.loaded.value, id)
  {
    hide Apply, ApplySuccessfulSyncResponse, ApplyRefusedSyncResponse, SynchronizeResult, SelectBatch,
         SavedReview, Project,
         WasApplied;
    if step.SaveReviewStep? {
      FinishedReview(sys.replica, sys.loaded.value, step.decisions, step.options);
      var i :| 0 <= i < |sys.replica.outbox| && EntryIds(sys.replica.outbox)[i] == id;
      assert sys.replica.outbox[i] in sys.replica.outbox;
    }
  }

  /**
   The copy is coherent in every reachable state: it could be exported and read
   back, and unless something is blocked its state is exactly the outbox replayed
   over the server state it was last rebuilt on.
   */
  lemma CopyIsCoherent(trace: seq<System>, steps: seq<Step>, n: nat)
    requires IsRun(trace, steps) && n < |trace|
    ensures Exportable(trace[n].replica)
    ensures !AnyBlocked(trace[n].replica.outbox) ==>
              Replay(trace[n].base, Envelopes(trace[n].replica.outbox)) == Ok(trace[n].replica.state)
    ensures SameHistory(trace[n].base, trace[n].server)
  {
    hide IsRun, Exportable, CopyInv, NetworkInv, SameHistory;
    RunKeepsInv(trace, steps, n);
    CoherentCopy(trace[n]);
  }

  lemma CoherentCopy(sys: System)
    requires CopyInv(sys)
    ensures Exportable(sys.replica)
    ensures !AnyBlocked(sys.replica.outbox) ==>
              Replay(sys.base, Envelopes(sys.replica.outbox)) == Ok(sys.replica.state)
  {
    hide Apply, Replay;
    forall i | 0 <= i < |sys.replica.outbox|
      ensures sys.replica.outbox[i].envelope.id in AppliedIds(sys.replica.state)
    {
      assert sys.replica.outbox[i] in sys.replica.outbox;
      var k :| 0 <= k < |sys.basis| && sys.basis[k] == sys.replica.outbox[i].envelope;
      assert EnvelopeIds(sys.basis)[k] == sys.replica.outbox[i].envelope.id;
    }
  }

  lemma {:induction false} ReplayedWasAccepted(base: State, queue: seq<Envelope>, e: Envelope)
    requires Replay(base, queue).Ok? && e in queue
    ensures exists seen :: Apply(seen, e).Ok?
    decreases |queue|
  {
    hide Apply;
    if e == queue[0] {
      assert Apply(base, e).Ok?;
    } else {
      ReplayedWasAccepted(Apply(base, queue[0]).value, queue[1..], e);
    }
  }

  /** Every queued command of every reachable copy was accepted on some state, as a review may rely on. */
  lemma QueuedWasAccepted(trace: seq<System>, steps: seq<Step>, n: nat, entry: OutboxEntry)
    requires IsRun(trace, steps) && n < |trace| && entry in trace[n].replica.outbox
    ensures exists seen :: Apply(seen, entry.envelope).Ok?
  {
    hide Enabled, Next, Initial, Replay, Apply, ServerInv, NetworkInv, LoadedInv;
    RunKeepsInv(trace, steps, n);
    ReplayedWasAccepted(trace[n].base, trace[n].basis, entry.envelope);
  }

  predicate LeavesOutbox(before: System, after: System, id: string) {
    id in EntryIds(before.replica.outbox) && id !in EntryIds(after.replica.outbox)
  }

  lemma RetainedIds(before: seq<OutboxEntry>, after: seq<OutboxEntry>)
    requires RetainedAll(before, after)
    ensures EntryIds(after) == EntryIds(before)
  {
  }

  /** A delivered success reply to a request that carried the command acknowledges it, and the server has it. */
  predicate LeftAcknowledged(sys: System, step: Step, id: string) {
    && step.DeliverStep? && step.reply < |sys.replies|
    && var reply := sys.replies[step.reply];
       && reply.Success? && reply.request < |sys.requests|
       && id in EntryIds(sys.requests[reply.request])
       && Acknowledged(reply.receipts, id)
       && id in AppliedIds(sys.server)
  }

  /** A saved review left the command to the server that has it, or decided upon it. */
  predicate LeftReviewed(sys: System, step: Step, next: System, id: string) {
    step.SaveReviewStep? && (id in AppliedIds(sys.server) || id in next.resolved)
  }

  /**
   An entry leaves the outbox in two ways only. A delivered success reply to a
   request that carried it acknowledges it, and then the server has applied it; or a
   review is saved, and then the server has it or it was decided upon.
   */
  lemma LeavesOnlyWhenAcknowledged(sys: System, step: Step, id: string)
    requires Inv(sys) && LoadedInv(sys) && Enabled(sys, step) && LeavesOutbox(sys, Next(sys, step), id)
    ensures LeftAcknowledged(sys, step, id) || LeftReviewed(sys, step, Next(sys, step), id)
  {
    hide Inv, LoadedInv, DispatchTo, Send, ServeRequest, ForeignCommands, ChangeAccess, ConfirmDeletion, Deliver,
         SaveReview, Project;
    if step.DispatchStep? {
      DispatchOnlyAdds(sys, step);
    } else if step.DeliverStep? {
      DeliveredLeaves(sys, step.reply, step.now, id);
    } else if step.AccessStep? {
      ChangedAccessIds(sys, step.candidate, step.summary);
    } else if step.DeletionStep? {
      ConfirmedDeletionIds(sys, step.candidate, step.deletedSummary);
    } else if step.SaveReviewStep? {
      ReviewLeaves(sys, step, id);
    } else {
      CopyStays(sys, step);
    }
  }

  lemma ChangedAccessIds(sys: System, candidate: AccessState, summary: Option<Summary>)
    ensures EntryIds(ChangeAccess(sys, candidate, summary).replica.outbox) == EntryIds(sys.replica.outbox)
  {
    hide ScopeEntry;
    ScopingRetainsQueue(sys.replica.outbox, sys.replica.authorization, candidate);
    RetainedIds(sys.replica.outbox, ScopeOutbox(sys.replica.outbox, sys.replica.authorization, candidate));
  }

  lemma ConfirmedDeletionIds(sys: System, candidate: AccessState, summary: Option<Option<Summary>>)
    ensures EntryIds(ConfirmDeletion(sys, candidate, summary).replica.outbox) == EntryIds(sys.replica.outbox)
  {
    hide ScopeEntry;
    var result := ApplyConfirmedServerDeletion(sys.replica, candidate, summary);
    if result.Ok? {
      ConfirmedDeletionIsTerminal(sys.replica, candidate, summary);
      RetainedIds(sys.replica.outbox, result.value.outbox);
    }
  }

  lemma DeliveredLeaves(sys: System, k: nat, now: string, id: string)
    requires Inv(sys) && Enabled(sys, DeliverStep(k, now))
    requires LeavesOutbox(sys, Deliver(sys, sys.replies[k], now), id)
    ensures sys.replies[k].Success? && id in AppliedIds(sys.server)
    ensures var reply := sys.replies[k];
            id in EntryIds(sys.requests[reply.request]) && Acknowledged(reply.receipts, id)
  {
    hide CopyInv, ServerInv, ApplySuccessfulSyncResponse, SettleAll, Acknowledged;
    var reply := sys.replies[k];
    var sent := sys.requests[reply.request];
    match reply {
      case Refusal(_, receipts, message, definitive, context) =>
        RefusalRetainsQueue(sys.replica, sent, receipts, message, now, definitive, context);
        RetainedIds(sys.replica.outbox, Deliver(sys, reply, now).replica.outbox);
      case Success(_, state, receipts, context) =>
        DeliveredIds(sys, reply, now);
        SettledLeavesOnlyApplied(sys.replica.outbox, ToSet(EntryIds(sent)), receipts, state);
    }
  }

  lemma ReviewLeaves(sys: System, step: Step, id: string)
    requires Inv(sys) && LoadedInv(sys) && step.SaveReviewStep? && Enabled(sys, step) &&
      id in EntryIds(sys.replica.outbox)
    ensures id in AppliedIds(sys.server) || id in SaveReview(sys, step).resolved
  {
    hide NetworkInv, Replay, Project, SavedReview, LoadedInv;
    ReviewedQueueIsResolved(sys, step);
  }

  lemma DispatchOnlyAdds(sys: System, step: Step)
    requires step.DispatchStep?
    ensures forall id | id in EntryIds(sys.replica.outbox) :: id in EntryIds(DispatchTo(sys, step).replica.outbox)
  {
    hide Apply, EffectiveEnvelope;
    var next := DispatchTo(sys, step);
    if next.replica.outbox != sys.replica.outbox {
      assert EntryIds(next.replica.outbox)[..|sys.replica.outbox|] == EntryIds(sys.replica.outbox);
    }
  }

  /** The queue after a delivered success reply holds the settled entries. */
  lemma DeliveredIds(sys: System, reply: Reply, now: string)
    requires reply.Success? && reply.request < |sys.requests|
    ensures var sent := sys.requests[reply.request];
            var ids := EntryIds(Deliver(sys, reply, now).replica.outbox);
            ids == EntryIds(sys.replica.outbox) ||
            ids == EntryIds(SettleAll(sys.replica.outbox, ToSet(EntryIds(sent)), reply.receipts))
  {
    hide Apply, Replay, SettleAll, ReplyIsStale;
    var sent := sys.requests[reply.request];
    var result := Reconcile(sys.replica, sent, reply.state, reply.receipts);
    if result.Ok? {
      var authorization := NextAuthorization(result.value.authorization, reply.context.authorization);
      ScopingRetainsQueue(result.value.outbox, result.value.authorization, authorization);
      RetainedIds(result.value.outbox, ScopeOutbox(result.value.outbox, result.value.authorization, authorization));
    }
  }

  /**
   A success reply that is not stale and leaves nothing blocked replaces the device's
   state by the whole remaining queue replayed over the server's state, provided that
   replay succeeds; in every other case the state is left untouched.
   */
  lemma ReplyRebuildsOrLeaves(sys: System, reply: Reply, now: string)
    requires reply.request < |sys.requests|
    ensures var next := Deliver(sys, reply, now);
            var sent := sys.requests[reply.request];
            var settled := SettleAll(sys.replica.outbox, ToSet(EntryIds(sent)), reply.receipts);
            if reply.Success? && Rebuilds(sys.replica, sent, reply.state, reply.receipts) &&
               Replay(reply.state, Envelopes(settled)).Ok?
            then
              && Ok(next.replica.state) == Replay(reply.state, Envelopes(settled))
              && Envelopes(next.replica.outbox) == Envelopes(settled)
              && next.base == reply.state
            else
              next.replica.state == sys.replica.state
  {
    hide Apply, Replay, SettleAll, ReplyIsStale;
    if reply.Success? {
      var sent := sys.requests[reply.request];
      var result := Reconcile(sys.replica, sent, reply.state, reply.receipts);
      if result.Ok? {
        var authorization := NextAuthorization(result.value.authorization, reply.context.authorization);
        ScopingRetainsQueue(result.value.outbox, result.value.authorization, authorization);
        assert Envelopes(Deliver(sys, reply, now).replica.outbox) == Envelopes(result.value.outbox);
      }
    }
  }

  // --------------------------------------------------------------- no rollback

  lemma ConfirmedAtLeastBase(sys: System)
    requires CopyInv(sys)
    ensures sys.base.revision <= ConfirmedRevision(sys.replica)
  {
  }

  /** Two states of one history are ordered by their revisions. */
  lemma RevisionsOrderHistory(a: State, b: State, server: State)
    requires SameHistory(a, server) && SameHistory(b, server) && a.revision <= b.revision
    ensures AppliedIds(a) <= AppliedIds(b)
    ensures SameHistory(a, b)
  {
    assert |AppliedIds(a)| <= |AppliedIds(b)|;
  }

  /** Commands that left the outbox are counted exactly by the revisions they used up. */
  lemma AcknowledgedFitInReply(sys: System, state: State)
    requires Inv(sys) && NoDuplicates(AppliedIds(sys.replica.state))
    requires SameHistory(sys.base, state)
    requires forall id | id in EnvelopeIds(sys.basis) && id !in EntryIds(sys.replica.outbox) :: id in AppliedIds(state)
    ensures ConfirmedRevision(sys.replica) <= state.revision
  {
    hide Apply, NetworkInv, ServerInv;
    var ids := EnvelopeIds(sys.basis);
    var outbox := EntryIds(sys.replica.outbox);
    assert AppliedIds(sys.replica.state) == AppliedIds(sys.base) + ids;
    SuffixNoDuplicates(AppliedIds(sys.base), ids);
    var acknowledged := ToSet(ids) - ToSet(outbox);
    var later := AppliedIds(state)[|sys.base.log|..];
    forall id | id in acknowledged
      ensures id in ToSet(later)
    {
      assert id !in AppliedIds(sys.base);
      assert AppliedIds(state) == AppliedIds(sys.base) + later;
    }
    OutboxWithinBasis(sys);
    NoDuplicatesCardinality(ids);
    NoDuplicatesCardinality(outbox);
    assert ToSet(ids) == acknowledged + ToSet(outbox);
    assert |acknowledged| == |ids| - |outbox|;
    SubsetCardinality(acknowledged, ToSet(later));
    CardinalityAtMostLength(later);
  }

  lemma OutboxWithinBasis(sys: System)
    requires CopyInv(sys)
    ensures ToSet(EntryIds(sys.replica.outbox)) <= ToSet(EnvelopeIds(sys.basis))
  {
    hide Replay;
    var outbox := sys.replica.outbox;
    forall id | id in EntryIds(outbox)
      ensures id in EnvelopeIds(sys.basis)
    {
      var i :| 0 <= i < |outbox| && EntryIds(outbox)[i] == id;
      assert outbox[i] in outbox;
      var k :| 0 <= k < |sys.basis| && sys.basis[k] == outbox[i].envelope;
      assert EnvelopeIds(sys.basis)[k] == id;
    }
  }

  lemma DeliverNeverRollsBack(sys: System, reply: Reply, now: string)
    requires Inv(sys) && reply.request < |sys.requests|
    requires reply.Success? ==> SameHistory(reply.state, sys.server)
    ensures var next := Deliver(sys, reply, now);
            AppliedIds(sys.base) <= AppliedIds(next.base) &&
            ConfirmedRevision(sys.replica) <= ConfirmedRevision(next.replica)
  {
    hide Apply, SettleAll;
    var sent := sys.requests[reply.request];
    match reply {
      case Refusal(_, receipts, message, definitive, context) =>
        RefusalRetainsQueue(sys.replica, sent, receipts, message, now, definitive, context);
      case Success(_, state, receipts, context) =>
        var result := Reconcile(sys.replica, sent, state, receipts);
        if result.Ok? {
          SettleAllShape(sys.replica.outbox, ToSet(EntryIds(sent)), receipts);
          ConfirmedAtLeastBase(sys);
          if Rebuilds(sys.replica, sent, state, receipts) {
            RevisionsOrderHistory(sys.base, state, sys.server);
          }
        }
    }
  }

  /** A step may save a review only of a copy that shows every command once. */
  predicate CountsExactly(sys: System, step: Step) {
    step.SaveReviewStep? ==> NoDuplicates(AppliedIds(sys.replica.state))
  }

  lemma SaveReviewNeverRollsBack(sys: System, step: Step)
    requires Inv(sys) && LoadedInv(sys) && step.SaveReviewStep? && Enabled(sys, step)
    ensures AppliedIds(sys.base) <= AppliedIds(SaveReview(sys, step).base)
    ensures CountsExactly(sys, step) ==>
              ConfirmedRevision(sys.replica) <= ConfirmedRevision(SaveReview(sys, step).replica)
  {
    hide Apply, Replay, CopyInv, ServerInv, NetworkInv, Project, WasApplied;
    SavedReviewIsExact(sys.replica, sys.loaded.value, step.decisions, step.options, step.access, step.serverSummary,
                       step.timestamp);
    if NoDuplicates(AppliedIds(sys.replica.state)) {
      AcknowledgedFitInReply(sys, sys.loaded.value);
    }
  }

  /** Queuing a command uses up the revision it is counted with; scoping and deletion change neither. */
  lemma QueueingCountsExactly(sys: System, step: Step)
    requires Enabled(sys, step) && (step.DispatchStep? || step.AccessStep? || step.DeletionStep?)
    ensures Act(sys, step).base == sys.base
    ensures ConfirmedRevision(Act(sys, step).replica) == ConfirmedRevision(sys.replica)
  {
    hide Apply, ScopeEntry, EffectiveEnvelope, SynchronizeResult, SelectBatch, Deliver, SaveReview, Project;
  }

  lemma CopyStays(sys: System, step: Step)
    requires Enabled(sys, step) && !step.DispatchStep? && !step.AccessStep? && !step.DeletionStep?
    requires !step.DeliverStep? && !step.SaveReviewStep?
    ensures Act(sys, step).base == sys.base && Act(sys, step).replica == sys.replica
  {
    hide SynchronizeResult, SelectBatch, PendingEntries, Project;
  }

  lemma StepNeverRollsBack(sys: System, step: Step)
    requires Inv(sys) && LoadedInv(sys) && Enabled(sys, step)
    ensures AppliedIds(sys.base) <= AppliedIds(Next(sys, step).base)
    ensures CountsExactly(sys, step) ==>
              ConfirmedRevision(sys.replica) <= ConfirmedRevision(Next(sys, step).replica)
  {
    hide CountsExactly, ConfirmedRevision, CopyInv, ServerInv, LoadedInv, DispatchTo, Send, ServeRequest,
         ForeignCommands, ChangeAccess, ConfirmDeletion, Deliver, SaveReview, Project, AppliedIds;
    if step.DeliverStep? {
      DeliverNeverRollsBack(sys, sys.replies[step.reply], step.now);
    } else if step.SaveReviewStep? {
      SaveReviewNeverRollsBack(sys, step);
    } else if step.DispatchStep? || step.AccessStep? || step.DeletionStep? {
      QueueingCountsExactly(sys, step);
    } else {
      CopyStays(sys, step);
    }
  }

  /**
   Along any run, however many flushes overlap and however stale the replies, the
   server history behind the device's copy only ever grows, and its confirmed
   revision never goes down, as long as reviews are saved of copies that show every
   command once.
   */
  lemma {:induction false} DeviceNeverRollsBack(trace: seq<System>, steps: seq<Step>, m: nat, n: nat)
    requires IsRun(trace, steps) && m <= n < |trace|
    ensures AppliedIds(trace[m].base) <= AppliedIds(trace[n].base)
    ensures (forall i | m <= i < n :: CountsExactly(trace[i], steps[i])) ==>
              ConfirmedRevision(trace[m].replica) <= ConfirmedRevision(trace[n].replica)
    decreases n
  {
    hide Enabled, Next, Inv, LoadedInv, CountsExactly, Initial;
    if m == n {
    } else {
      DeviceNeverRollsBack(trace, steps, m, n - 1);
      RunKeepsInv(trace, steps, n - 1);
      StepNeverRollsBack(trace[n - 1], steps[n - 1]);
    }
  }

  // ---------------------------------------------- what a send and an access answer do

  /**
   A request goes out exactly when the batch holds something, or nothing at all is
   pending and an empty sync is allowed; it carries the batch, and is the one awaited.
   */
  lemma SendsWhatIsDue(sys: System, account: Option<AccountTag>, allowEmpty: bool)
    ensures var next := Send(sys, account, allowEmpty);
            var batch := SelectBatch(sys.replica.outbox, account);
            if batch != [] || (allowEmpty && forall e | e in sys.replica.outbox :: e.status == Blocked) then
              && next.requests == sys.requests + [batch] && next.flight == Some(|sys.requests|)
              && next.sent == sys.sent + ToSet(EntryIds(batch)) && next.replica == sys.replica
            else
              next == sys
  {
    hide SelectBatch;
    forall e | e in sys.replica.outbox
      ensures e in PendingEntries(sys.replica.outbox) <==> e.status == Pending
    {
      PendingExactly(sys.replica.outbox, [], e);
    }
    if PendingEntries(sys.replica.outbox) != [] {
      assert PendingEntries(sys.replica.outbox)[0] in sys.replica.outbox;
    }
  }

  /** Newer access is taken together with its summary and scopes the queue; older access changes nothing. */
  lemma AccessAnswerExactly(sys: System, candidate: AccessState, summary: Option<Summary>)
    ensures var next := ChangeAccess(sys, candidate, summary);
            if ShouldApply(sys.replica.authorization, candidate) then
              && next.replica.authorization == candidate
              && next.replica.outbox == ScopeOutbox(sys.replica.outbox, sys.replica.authorization, candidate)
              && next.replica.serverSummary ==
                 (if summary.None? then sys.replica.serverSummary
                  else NewestSummary(sys.replica.serverSummary, [summary.value]))
              && next == sys.(replica := sys.replica.(authorization := candidate, outbox := next.replica.outbox,
                                                      serverSummary := next.replica.serverSummary))
            else
              next == sys
  {
    hide ShouldApply, NewerSummary, ScopeOutbox;
    if summary.Some? {
      var candidates := [summary.value];
      var newest := NewerSummary(sys.replica.serverSummary, summary.value);
      assert candidates[1..] == [] && NewestSummary(newest, []) == newest;
    }
  }

  // ------------------------------------------------------------ newest access

  /** The access states a step tells the device: with an access answer or a delivered reply it can take in. */
  function ToldBy(sys: System, step: Step): seq<AccessState>
    requires Enabled(sys, step)
  {
    match step
    case AccessStep(candidate, _) => [candidate]
    case DeliverStep(k, now) =>
      var reply := sys.replies[k];
      var sent := sys.requests[reply.request];
      var told := ContextOf(reply).authorization;
      if told.None? || (reply.Success? && Reconcile(sys.replica, sent, reply.state, reply.receipts).Err?) then []
      else [told.value]
    case _ => []
  }

  predicate DecidesAccess(step: Step) {
    step.DeletionStep? || step.SaveReviewStep?
  }

  lemma AccessFolds(sys: System, step: Step)
    requires Enabled(sys, step) && !DecidesAccess(step)
    ensures Next(sys, step).replica.authorization == ApplyAll(sys.replica.authorization, ToldBy(sys, step))
  {
    hide DispatchTo, Send, ServeRequest, ForeignCommands, Deliver, SaveReview, Project, ShouldApply, ScopeOutbox,
         Reconcile;
    var access := sys.replica.authorization;
    assert ApplyAll(access, []) == access;
    if step.AccessStep? {
      OneApplied(access, step.candidate);
    } else if step.DeliverStep? {
      DeliveredAccess(sys, step.reply, step.now);
    } else if step.DispatchStep? {
      QueuedAccess(sys, step);
    } else {
      CopyStays(sys, step);
    }
  }

  lemma OneApplied(current: AccessState, candidate: AccessState)
    ensures ApplyAll(current, [candidate]) == NextAuthorization(current, Some(candidate))
  {
    hide ShouldApply;
    var candidates := [candidate];
    var next := NextAuthorization(current, Some(candidate));
    assert candidates[1..] == [] && ApplyAll(next, []) == next;
  }

  lemma QueuedAccess(sys: System, step: Step)
    requires step.DispatchStep?
    ensures DispatchTo(sys, step).replica.authorization == sys.replica.authorization
  {
    hide Apply, EffectiveEnvelope;
  }

  lemma DeliveredAccess(sys: System, k: nat, now: string)
    requires Enabled(sys, DeliverStep(k, now))
    ensures Deliver(sys, sys.replies[k], now).replica.authorization ==
            ApplyAll(sys.replica.authorization, ToldBy(sys, DeliverStep(k, now)))
  {
    hide Reconcile, ShouldApply, ScopeOutbox, Rebuilds, RefuseEntry;
    var reply := sys.replies[k];
    var told := ContextOf(reply).authorization;
    assert ApplyAll(sys.replica.authorization, []) == sys.replica.authorization;
    if told.Some? {
      OneApplied(sys.replica.authorization, told.value);
    }
    if reply.Success? {
      ReconcileKeepsAccess(sys.replica, sys.requests[reply.request], reply.state, reply.receipts);
    }
  }

  lemma ReconcileKeepsAccess(replica: Replica, sent: seq<OutboxEntry>, state: State, receipts: seq<Receipt>)
    ensures Reconcile(replica, sent, state, receipts).Ok? ==>
              Reconcile(replica, sent, state, receipts).value.authorization == replica.authorization
  {
    hide Replay, SettleAll, ReplyIsStale;
  }

  function ToldAlong(trace: seq<System>, steps: seq<Step>, m: nat, n: nat): seq<AccessState>
    requires IsRun(trace, steps) && m <= n < |trace|
    decreases n
  {
    if m == n then [] else ToldAlong(trace, steps, m, n - 1) + ToldBy(trace[n - 1], steps[n - 1])
  }

  lemma {:induction false} RunAccessFolds(trace: seq<System>, steps: seq<Step>, m: nat, n: nat)
    requires IsRun(trace, steps) && m <= n < |trace|
    requires forall i | m <= i < n :: !DecidesAccess(steps[i])
    ensures trace[n].replica.authorization ==
            ApplyAll(trace[m].replica.authorization, ToldAlong(trace, steps, m, n))
    decreases n
  {
    hide Enabled, Next, ShouldApply, Initial, ToldBy, DecidesAccess;
    if m == n {
    } else {
      RunAccessFolds(trace, steps, m, n - 1);
      AccessFolds(trace[n - 1], steps[n - 1]);
      ApplyAppend(trace[m].replica.authorization, ToldAlong(trace, steps, m, n - 1),
                  ToldBy(trace[n - 1], steps[n - 1]));
    }
  }

  /**
   Over any part of a run in which one account stays signed in and neither a deletion is
   confirmed nor a review saved, the device ends up with the newest access it was told
   of, however late and in whatever order the answers came.
   */
  lemma DeviceHoldsNewestAccess(trace: seq<System>, steps: seq<Step>, m: nat, n: nat)
    requires IsRun(trace, steps) && m <= n < |trace|
    requires forall i | m <= i < n :: !DecidesAccess(steps[i])
    requires var access := trace[m].replica.authorization;
             OneAccount(access, access) && AllOneAccount(access, ToldAlong(trace, steps, m, n))
    ensures IsNewest(trace[n].replica.authorization,
                     {trace[m].replica.authorization} + ToSet(ToldAlong(trace, steps, m, n)))
  {
    hide Enabled, Next, ShouldApply, Initial, IsNewest, OneAccount, ToldAlong;
    RunAccessFolds(trace, steps, m, n);
    NewestAccessWins(trace[m].replica.authorization, ToldAlong(trace, steps, m, n));
  }
}
