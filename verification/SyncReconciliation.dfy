/**
 Folding a sync response into the device's copy: the refused and the successful
 response, the access and summary that come with either, and what every such
 step keeps.
 */
module SyncReconciliation {
  import opened Prelude
  import opened Domain
  import opened Server
  import opened Access
  import opened LocalReplica

  datatype Context = Context(authorization: Option<AccessState>, summary: Option<Summary>)

  function NextAuthorization(current: AccessState, candidate: Option<AccessState>): AccessState {
    if candidate.Some? && ShouldApply(current, candidate.value) then candidate.value else current
  }

  function ApplyServerContext(replica: Replica, context: Context): Replica {
    var next := NextAuthorization(replica.authorization, context.authorization);
    replica.(authorization := next,
             outbox := ScopeOutbox(replica.outbox, replica.authorization, next),
             serverSummary := if context.summary.None? then replica.serverSummary
                              else NewerSummary(replica.serverSummary, context.summary.value))
  }

  function RefuseEntry(entry: OutboxEntry, sent: set<string>, receipts: seq<Receipt>, message: string): OutboxEntry {
    if entry.status != Pending || entry.envelope.id !in sent then
      entry
    else
      var receipt := ReceiptFor(receipts, entry.envelope.id);
      var refusal := if receipt.Some? then RefusalText(receipt.value, message) else message;
      entry.(error := Some(CommandLabel(entry.envelope.command) + ": " + refusal), status := Blocked)
  }

  function ApplyRefusedSyncResponse(
    replica: Replica, sent: seq<OutboxEntry>, receipts: seq<Receipt>, message: string,
    attemptedAt: string, definitive: bool, context: Context): Replica
  {
    var scoped := ApplyServerContext(replica, context);
    var ids := ToSet(EntryIds(sent));
    scoped.(lastSyncAttemptAt := Some(attemptedAt),
            lastSyncError := Some(message),
            outbox :=
              if definitive then
                seq(|scoped.outbox|, i requires 0 <= i < |scoped.outbox| =>
                  RefuseEntry(scoped.outbox[i], ids, receipts, message))
              else
                scoped.outbox)
  }

  function ApplySuccessfulSyncResponse(
    replica: Replica, sent: seq<OutboxEntry>, serverState: State, receipts: seq<Receipt>,
    syncedAt: string, context: Context): Result<Replica, Problem>
  {
    match Reconcile(replica, sent, serverState, receipts)
    case Err(problem) => Err(problem)
    case Ok(reconciled) =>
      Ok(ApplyServerContext(reconciled, context).(
           lastSyncAttemptAt := Some(syncedAt), lastSyncError := None, lastSyncedAt := Some(syncedAt)))
  }

  /** The access that comes with an answer counts by its version, and the queue is scoped to what then counts. */
  lemma ContextIsNewest(replica: Replica, context: Context)
    requires context.authorization.Some? && OneAccount(replica.authorization, context.authorization.value)
    ensures var next := ApplyServerContext(replica, context);
            && IsNewest(next.authorization, {replica.authorization, context.authorization.value})
            && next.authorization == ApplyAll(replica.authorization, [context.authorization.value])
            && next.outbox == ScopeOutbox(replica.outbox, replica.authorization, next.authorization)
            && next.state == replica.state
  {
    hide ShouldApply, ScopeOutbox, NewerSummary, IsNewest;
    var candidate := context.authorization.value;
    var candidates: seq<AccessState> := [candidate];
    assert candidates[1..] == [];
    NewestAccessWins(replica.authorization, candidates);
    assert {replica.authorization} + ToSet(candidates) == {replica.authorization, candidate};
    var applied := ApplyAll(replica.authorization, candidates);
    assert applied == ApplyAll(NextAuthorization(replica.authorization, Some(candidate)), []);
  }

  /** What comes with an answer is taken in the same way whether the answer is a refusal or not. */
  predicate TookContext(before: Replica, outbox: seq<OutboxEntry>, context: Context, after: Replica) {
    && after.authorization == (if context.authorization.None? then before.authorization
                               else ApplyAll(before.authorization, [context.authorization.value]))
    && after.serverSummary == (if context.summary.None? then before.serverSummary
                               else NewestSummary(before.serverSummary, [context.summary.value]))
    && after.outbox == ScopeOutbox(outbox, before.authorization, after.authorization)
  }

  lemma ContextTaken(replica: Replica, context: Context)
    ensures TookContext(replica, replica.outbox, context, ApplyServerContext(replica, context))
    ensures var next := ApplyServerContext(replica, context);
            next == replica.(authorization := next.authorization, outbox := next.outbox,
                             serverSummary := next.serverSummary)
  {
    hide ShouldApply, NewerSummary, ScopeOutbox;
    var next := ApplyServerContext(replica, context);
    if context.authorization.Some? {
      var candidates := [context.authorization.value];
      assert candidates[1..] == [] && ApplyAll(next.authorization, []) == next.authorization;
    }
    if context.summary.Some? {
      var candidates := [context.summary.value];
      assert candidates[1..] == [] && NewestSummary(next.serverSummary, []) == next.serverSummary;
    }
  }

  /** Refused for what the server said of this command, or for the refusal as a whole. */
  predicate RefusedFor(entry: OutboxEntry, receipt: Option<Receipt>, message: string) {
    var reason :=
      if receipt.None? then message
      else if receipt.value.message.Some? then receipt.value.message.value
      else if receipt.value.conflicts.Some? then Join(receipt.value.conflicts.value, "; ")
      else message;
    entry.status == Blocked && entry.error == Some(CommandLabel(entry.envelope.command) + ": " + reason)
  }

  /**
   A refused response is recorded with its time and message and takes what came with
   it; a definitive one blocks exactly the pending entries that were sent, with the
   reason, and nothing else changes.
   */
  lemma RefusedResponseExactly(
    replica: Replica, sent: seq<OutboxEntry>, receipts: seq<Receipt>, message: string,
    attemptedAt: string, definitive: bool, context: Context)
    ensures var next := ApplyRefusedSyncResponse(replica, sent, receipts, message, attemptedAt, definitive, context);
            var scoped := ApplyServerContext(replica, context);
            && next == scoped.(outbox := next.outbox, lastSyncAttemptAt := Some(attemptedAt),
                               lastSyncError := Some(message))
            && TookContext(replica, replica.outbox, context, scoped)
            && |next.outbox| == |scoped.outbox| == |replica.outbox|
            && forall i | 0 <= i < |next.outbox| ::
                 var before, after := scoped.outbox[i], next.outbox[i];
                 if definitive && before.status == Pending && before.envelope.id in EntryIds(sent) then
                   && RefusedFor(after, ReceiptFor(receipts, before.envelope.id), message)
                   && after.envelope == before.envelope && after.accountId == before.accountId
                 else
                   after == before
  {
    hide ReceiptFor, CommandLabel, Join, TookContext, ApplyServerContext;
    ContextTaken(replica, context);
    ContextLength(replica, context);
  }

  lemma ContextLength(replica: Replica, context: Context)
    ensures |ApplyServerContext(replica, context).outbox| == |replica.outbox|
  {
    hide ShouldApply, NewerSummary, ScopeEntry;
  }

  /** A successful response is recorded with its time, clears the last error and takes what came with it. */
  lemma SuccessfulResponseExactly(
    replica: Replica, sent: seq<OutboxEntry>, serverState: State, receipts: seq<Receipt>,
    syncedAt: string, context: Context)
    ensures var r := ApplySuccessfulSyncResponse(replica, sent, serverState, receipts, syncedAt, context);
            var reconciled := Reconcile(replica, sent, serverState, receipts);
            && (r.Err? <==> reconciled.Err?)
            && (r.Ok? ==>
                  && r.value.lastSyncAttemptAt == Some(syncedAt) && r.value.lastSyncedAt == Some(syncedAt)
                  && r.value.lastSyncError == None && r.value.updatedAt == replica.updatedAt
                  && r.value.state == reconciled.value.state
                  && TookContext(replica, reconciled.value.outbox, context, r.value))
  {
    hide ReceiptFor, Replay, SettleAll, ReplyIsStale, AnyBlocked, ApplyServerContext, ScopeOutbox, ApplyAll,
         NewestSummary;
    var reconciled := Reconcile(replica, sent, serverState, receipts);
    if reconciled.Ok? {
      ContextTaken(reconciled.value, context);
    }
  }

  // ------------------------------------------------------ the settled outbox

  /** The entries that stay are those not acknowledged; the others leave, and nothing else enters. */
  lemma {:induction false} SettleAllShape(outbox: seq<OutboxEntry>, sent: set<string>, receipts: seq<Receipt>)
    ensures var settled := SettleAll(outbox, sent, receipts);
            && |settled| <= |outbox|
            && (forall e | e in settled :: e.envelope in Envelopes(outbox))
            && (forall e | e in settled && e.envelope.id !in sent :: e in outbox)
            && (forall e | e in settled && e.envelope.id in sent ::
                  e.status == Blocked && !Acknowledged(receipts, e.envelope.id))
  {
    hide Acknowledged, SettledError;
    if outbox == [] {
    } else {
      SettleAllShape(outbox[1..], sent, receipts);
      assert Envelopes(outbox) == [outbox[0].envelope] + Envelopes(outbox[1..]);
    }
  }

  lemma {:induction false} SettledIds(outbox: seq<OutboxEntry>, sent: set<string>, receipts: seq<Receipt>)
    ensures var ids := EntryIds(SettleAll(outbox, sent, receipts));
            && (forall id :: id in ids <==> id in EntryIds(outbox) && !(id in sent && Acknowledged(receipts, id)))
            && (NoDuplicates(EntryIds(outbox)) ==> NoDuplicates(ids))
  {
    forall id
      ensures id in EntryIds(SettleAll(outbox, sent, receipts)) <==>
                id in EntryIds(outbox) && !(id in sent && Acknowledged(receipts, id))
    {
      SettledId(outbox, sent, receipts, id);
    }
    if NoDuplicates(EntryIds(outbox)) {
      SettledDistinct(outbox, sent, receipts);
    }
  }

  lemma FirstSettled(outbox: seq<OutboxEntry>, sent: set<string>, receipts: seq<Receipt>)
    requires outbox != []
    ensures EntryIds(outbox) == [outbox[0].envelope.id] + EntryIds(outbox[1..])
    ensures var id := outbox[0].envelope.id;
            EntryIds(SettleAll(outbox, sent, receipts)) ==
            (if id in sent && Acknowledged(receipts, id) then [] else [id]) +
            EntryIds(SettleAll(outbox[1..], sent, receipts))
  {
    hide Settle, Acknowledged, EntryIds;
    var first, rest := Settle(outbox[0], sent, receipts), SettleAll(outbox[1..], sent, receipts);
    IdsAppend(first, rest);
    IdsAppend([outbox[0]], outbox[1..]);
    assert outbox == [outbox[0]] + outbox[1..];
    SettledOne(outbox[0], sent, receipts);
    IdsOne(outbox[0]);
  }

  lemma IdsAppend(a: seq<OutboxEntry>, b: seq<OutboxEntry>)
    ensures EntryIds(a + b) == EntryIds(a) + EntryIds(b)
  {
  }

  lemma IdsOne(entry: OutboxEntry)
    ensures EntryIds([entry]) == [entry.envelope.id]
  {
  }

  lemma SettledOne(entry: OutboxEntry, sent: set<string>, receipts: seq<Receipt>)
    ensures EntryIds(Settle(entry, sent, receipts)) ==
            if entry.envelope.id in sent && Acknowledged(receipts, entry.envelope.id) then [] else [entry.envelope.id]
  {
    hide Acknowledged, SettledError;
  }

  lemma {:induction false} SettledId(outbox: seq<OutboxEntry>, sent: set<string>, receipts: seq<Receipt>, id: string)
    ensures id in EntryIds(SettleAll(outbox, sent, receipts)) <==>
              id in EntryIds(outbox) && !(id in sent && Acknowledged(receipts, id))
  {
    hide Acknowledged, SettleAll;
    if outbox == [] {
      NothingSettled(sent, receipts);
    } else {
      SettledId(outbox[1..], sent, receipts, id);
      FirstSettled(outbox, sent, receipts);
    }
  }

  lemma {:induction false} SettledDistinct(outbox: seq<OutboxEntry>, sent: set<string>, receipts: seq<Receipt>)
    requires NoDuplicates(EntryIds(outbox))
    ensures NoDuplicates(EntryIds(SettleAll(outbox, sent, receipts)))
  {
    hide Acknowledged, SettleAll, NoDuplicates;
    if outbox == [] {
      NothingSettled(sent, receipts);
    } else {
      var id, rest := outbox[0].envelope.id, EntryIds(SettleAll(outbox[1..], sent, receipts));
      FirstSettled(outbox, sent, receipts);
      SuffixNoDuplicates([id], EntryIds(outbox[1..]));
      SettledDistinct(outbox[1..], sent, receipts);
      SettledId(outbox[1..], sent, receipts, id);
      assert id in [id];
      HeadDistinct(id, rest);
      assert [] + rest == rest;
    }
  }

  lemma NothingSettled(sent: set<string>, receipts: seq<Receipt>)
    ensures SettleAll([], sent, receipts) == [] && EntryIds([]) == [] && NoDuplicates(EntryIds([]))
  {
  }

  predicate IsSettled(entry: OutboxEntry, sent: set<string>, receipts: seq<Receipt>) {
    entry.envelope.id in sent ==>
      && !Acknowledged(receipts, entry.envelope.id)
      && entry.status == Blocked
      && entry.error == Some(SettledError(receipts, entry.envelope.id))
  }

  predicate AllSettled(outbox: seq<OutboxEntry>, sent: set<string>, receipts: seq<Receipt>) {
    forall e | e in outbox :: IsSettled(e, sent, receipts)
  }

  lemma {:induction false} SettledStays(outbox: seq<OutboxEntry>, sent: set<string>, receipts: seq<Receipt>)
    requires AllSettled(outbox, sent, receipts)
    ensures SettleAll(outbox, sent, receipts) == outbox
  {
    if outbox == [] {
    } else {
      SettledStays(outbox[1..], sent, receipts);
      assert IsSettled(outbox[0], sent, receipts);
      assert Settle(outbox[0], sent, receipts) == [outbox[0]];
    }
  }

  lemma {:induction false} SettleAllSettles(outbox: seq<OutboxEntry>, sent: set<string>, receipts: seq<Receipt>)
    ensures AllSettled(SettleAll(outbox, sent, receipts), sent, receipts)
  {
    hide ReceiptFor, RefusalText, SettledError;
    if outbox == [] {
    } else {
      SettleAllSettles(outbox[1..], sent, receipts);
    }
  }

  /** Folding the same reply in twice is the same as folding it in once. */
  lemma ReconcileIdempotent(latest: Replica, sent: seq<OutboxEntry>, serverState: State, receipts: seq<Receipt>)
    requires Reconcile(latest, sent, serverState, receipts).Ok?
    ensures var once := Reconcile(latest, sent, serverState, receipts).value;
            Reconcile(once, sent, serverState, receipts) == Ok(once)
  {
    hide ReceiptFor, RefusalText, SettledError, Acknowledged;
    var ids := ToSet(EntryIds(sent));
    SettleAllSettles(latest.outbox, ids, receipts);
    SettledStays(SettleAll(latest.outbox, ids, receipts), ids, receipts);
  }

  lemma ScopeKeepsSettled(
    outbox: seq<OutboxEntry>, current: AccessState, next: AccessState, sent: set<string>, receipts: seq<Receipt>)
    requires AllSettled(outbox, sent, receipts)
    ensures var scoped := ScopeOutbox(outbox, current, next);
            && AllSettled(scoped, sent, receipts)
            && ScopeOutbox(scoped, next, next) == scoped
  {
    hide ReceiptFor, RefusalText, SettledError, Acknowledged, CommandLabel;
    var scoped := ScopeOutbox(outbox, current, next);
    forall e | e in scoped
      ensures IsSettled(e, sent, receipts)
    {
      var k :| 0 <= k < |scoped| && scoped[k] == e;
      assert IsSettled(outbox[k], sent, receipts);
    }
    ScopeTwice(outbox, current, next);
  }

  /** Scoping once more after an accepted reply, the same reply settles and rebuilds nothing new. */
  lemma RebuiltTwice(
    replica: Replica, once: Replica, sent: seq<OutboxEntry>, serverState: State, receipts: seq<Receipt>)
    requires !ReplyIsStale(replica, sent, serverState)
    requires Reconcile(replica, sent, serverState, receipts).Ok?
    requires var reconciled := Reconcile(replica, sent, serverState, receipts).value;
             once.state == reconciled.state &&
             once.outbox == ScopeOutbox(reconciled.outbox, reconciled.authorization, once.authorization)
    ensures Reconcile(once, sent, serverState, receipts) == Ok(once)
    ensures ScopeOutbox(once.outbox, once.authorization, once.authorization) == once.outbox
  {
    hide Apply, Replay, ReceiptFor, Acknowledged, SettledError, CommandLabel, ScopeOutbox, SettleAll, AllSettled;
    var ids := ToSet(EntryIds(sent));
    var settled := SettleAll(replica.outbox, ids, receipts);
    SettleAllSettles(replica.outbox, ids, receipts);
    ScopeKeepsSettled(settled, replica.authorization, once.authorization, ids, receipts);
    SettledStays(once.outbox, ids, receipts);
    ScopingRetainsQueue(settled, replica.authorization, once.authorization);
    assert Envelopes(once.outbox) == Envelopes(settled);
    assert AnyBlocked(settled) ==> AnyBlocked(once.outbox);
  }

  /**
   A whole successful response, with the access and summary it carries, is also
   idempotent; some of its receipts may be positive and others refusals.
   */
  lemma SuccessfulResponseIdempotent(
    replica: Replica, sent: seq<OutboxEntry>, serverState: State, receipts: seq<Receipt>,
    syncedAt: string, context: Context)
    requires ApplySuccessfulSyncResponse(replica, sent, serverState, receipts, syncedAt, context).Ok?
    ensures var once := ApplySuccessfulSyncResponse(replica, sent, serverState, receipts, syncedAt, context).value;
            ApplySuccessfulSyncResponse(once, sent, serverState, receipts, syncedAt, context) == Ok(once)
  {
    hide Replay, SettleAll, ScopeOutbox, ShouldApply, NewerSummary, NextAuthorization, ReplyIsStale, AnyBlocked;
    var reconciled := Reconcile(replica, sent, serverState, receipts).value;
    var once := ApplySuccessfulSyncResponse(replica, sent, serverState, receipts, syncedAt, context).value;
    NextAuthorizationStable(reconciled.authorization, context.authorization);
    SummaryStable(reconciled.serverSummary, context.summary);
    if ReplyIsStale(replica, sent, serverState) {
      ScopeTwice(replica.outbox, replica.authorization, once.authorization);
      StaleStays(replica, once, sent, serverState);
    } else {
      hide Reconcile;
      ReconciledAuthorization(replica, sent, serverState, receipts);
      RebuiltTwice(replica, once, sent, serverState, receipts);
    }
  }

  lemma ReconciledAuthorization(replica: Replica, sent: seq<OutboxEntry>, serverState: State, receipts: seq<Receipt>)
    requires Reconcile(replica, sent, serverState, receipts).Ok?
    ensures Reconcile(replica, sent, serverState, receipts).value.authorization == replica.authorization
  {
    hide Replay, SettleAll, ReplyIsStale, AnyBlocked;
  }

  lemma NextAuthorizationStable(current: AccessState, candidate: Option<AccessState>)
    ensures var next := NextAuthorization(current, candidate); NextAuthorization(next, candidate) == next
  {
  }

  lemma SummaryStable(current: Option<Summary>, candidate: Option<Summary>)
    ensures candidate.Some? ==>
              var next := NewerSummary(current, candidate.value); NewerSummary(next, candidate.value) == next
  {
  }

  lemma StaleStays(a: Replica, b: Replica, sent: seq<OutboxEntry>, serverState: State)
    requires ReplyIsStale(a, sent, serverState)
    requires a.state == b.state && EntryIds(a.outbox) == EntryIds(b.outbox)
    ensures ReplyIsStale(b, sent, serverState)
  {
    assert |a.outbox| == |EntryIds(a.outbox)| == |b.outbox|;
    forall i | 0 <= i < |b.outbox|
      ensures b.outbox[i].envelope.id == a.outbox[i].envelope.id
    {
      assert EntryIds(a.outbox)[i] == EntryIds(b.outbox)[i];
    }
  }

  lemma ScopeTwice(outbox: seq<OutboxEntry>, current: AccessState, next: AccessState)
    ensures var scoped := ScopeOutbox(outbox, current, next);
            ScopeOutbox(scoped, next, next) == scoped && EntryIds(scoped) == EntryIds(outbox)
  {
  }

  // ---------------------------------------------------------- what is retained

  /**
   A refused response never touches the device's state and never drops or
   unblocks an entry. Only a definitive refusal of a sent entry, a confirmed
   deletion or unattributed legacy work turns a pending entry into a blocked one.
   */
  lemma RefusalRetainsQueue(
    replica: Replica, sent: seq<OutboxEntry>, receipts: seq<Receipt>, message: string,
    attemptedAt: string, definitive: bool, context: Context)
    ensures var next := ApplyRefusedSyncResponse(replica, sent, receipts, message, attemptedAt, definitive, context);
            && next.state == replica.state
            && RetainedAll(replica.outbox, next.outbox)
            && (definitive ==> forall i | 0 <= i < |next.outbox| && next.outbox[i].envelope.id in EntryIds(sent) ::
                  next.outbox[i].status == Blocked)
            && (!definitive && next.authorization == replica.authorization &&
                !(next.authorization.kind == ServerBacked && next.authorization.status == Deleted) ==>
                  forall i | 0 <= i < |next.outbox| :: next.outbox[i].status == replica.outbox[i].status)
  {
    hide ReceiptFor, RefusalText, CommandLabel, ShouldApply, CompareSummaries;
    ScopingRetainsQueue(replica.outbox, replica.authorization,
                        NextAuthorization(replica.authorization, context.authorization));
  }

  // ------------------------------------------------------- what can be exported

  /**
   A copy that recovery accepts: one queue entry per identifier, all for this
   workspace, each already represented in the saved state.
   */
  ghost predicate Exportable(replica: Replica) {
    && NoDuplicates(EntryIds(replica.outbox))
    && (forall i | 0 <= i < |replica.outbox| ::
          && replica.outbox[i].envelope.workspaceId == replica.state.workspaceId
          && replica.outbox[i].envelope.id in AppliedIds(replica.state))
  }

  lemma ReplayedIsExportable(start: State, outbox: seq<OutboxEntry>, replica: Replica)
    requires NoDuplicates(EntryIds(outbox)) && Replay(start, Envelopes(outbox)).Ok?
    requires forall i | 0 <= i < |outbox| :: outbox[i].envelope.workspaceId == start.workspaceId
    requires replica.outbox == outbox && replica.state == Replay(start, Envelopes(outbox)).value
    ensures Exportable(replica)
  {
    var ids := EnvelopeIds(Envelopes(outbox));
    forall i | 0 <= i < |outbox|
      ensures outbox[i].envelope.id in AppliedIds(replica.state)
    {
      assert ids[i] == outbox[i].envelope.id && ids[i] in ids;
    }
  }

  lemma SettledEntriesKnown(latest: Replica, sent: set<string>, receipts: seq<Receipt>)
    requires Exportable(latest)
    ensures var settled := SettleAll(latest.outbox, sent, receipts);
            && NoDuplicates(EntryIds(settled))
            && forall i | 0 <= i < |settled| ::
                 && settled[i].envelope.workspaceId == latest.state.workspaceId
                 && settled[i].envelope.id in AppliedIds(latest.state)
  {
    hide SettleAll, AppliedIds;
    var settled := SettleAll(latest.outbox, sent, receipts);
    SettleAllShape(latest.outbox, sent, receipts);
    SettledIds(latest.outbox, sent, receipts);
    forall i | 0 <= i < |settled|
      ensures settled[i].envelope.workspaceId == latest.state.workspaceId
      ensures settled[i].envelope.id in AppliedIds(latest.state)
    {
      assert settled[i] in settled;
      var k :| 0 <= k < |latest.outbox| && Envelopes(latest.outbox)[k] == settled[i].envelope;
      assert latest.outbox[k].envelope == settled[i].envelope;
    }
  }

  /** Any reply of the same workspace leaves the copy exportable, however stale or partial it is. */
  lemma ReconcileStaysExportable(latest: Replica, sent: seq<OutboxEntry>, serverState: State, receipts: seq<Receipt>)
    requires Exportable(latest) && serverState.workspaceId == latest.state.workspaceId
    requires Reconcile(latest, sent, serverState, receipts).Ok?
    ensures Exportable(Reconcile(latest, sent, serverState, receipts).value)
  {
    hide Replay, SettleAll, ReplyIsStale, AppliedIds;
    var next := Reconcile(latest, sent, serverState, receipts).value;
    SettledEntriesKnown(latest, ToSet(EntryIds(sent)), receipts);
    if !ReplyIsStale(latest, sent, serverState) && !AnyBlocked(next.outbox) {
      ReplayedIsExportable(serverState, next.outbox, next);
    }
  }
}
