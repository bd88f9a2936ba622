/**
 The device's copy of one workspace: its optimistic state and the outbox of
 queued commands, and the steps that choose a batch to send, scope the queue to
 an account and fold a server reply back in.
 */
module LocalReplica {
  import opened Prelude
  import opened Domain
  import opened Server
  import opened Access

  datatype EntryStatus = Pending | Blocked

  datatype OutboxEntry = OutboxEntry(
    accountId: AccountTag,
    envelope: Envelope,
    status: EntryStatus,
    error: Option<string>)

  datatype Replica = Replica(
    state: State,
    outbox: seq<OutboxEntry>,
    authorization: AccessState,
    serverSummary: Option<Summary>,
    lastSyncAttemptAt: Option<string>,
    lastSyncError: Option<string>,
    lastSyncedAt: Option<string>,
    updatedAt: string)

  const COMMANDS_PER_SYNC_REQUEST: nat := 100

  function EntryIds(entries: seq<OutboxEntry>): (ids: seq<string>)
    ensures |ids| == |entries|
    ensures forall i | 0 <= i < |entries| :: ids[i] == entries[i].envelope.id
  {
    seq(|entries|, i requires 0 <= i < |entries| => entries[i].envelope.id)
  }

  function Envelopes(entries: seq<OutboxEntry>): (envelopes: seq<Envelope>)
    ensures |envelopes| == |entries|
    ensures forall i | 0 <= i < |entries| :: envelopes[i] == entries[i].envelope
  {
    seq(|entries|, i requires 0 <= i < |entries| => entries[i].envelope)
  }

  predicate AnyBlocked(outbox: seq<OutboxEntry>) {
    exists i | 0 <= i < |outbox| :: outbox[i].status == Blocked
  }

  // ---------------------------------------------------------- choosing a batch

  function PendingEntries(outbox: seq<OutboxEntry>): (pending: seq<OutboxEntry>)
    ensures forall i | 0 <= i < |pending| :: pending[i] in outbox && pending[i].status == Pending
  {
    if outbox == [] then
      []
    else if outbox[0].status == Pending then
      [outbox[0]] + PendingEntries(outbox[1..])
    else
      PendingEntries(outbox[1..])
  }

  /** An entry may travel with the first one: same authorization basis, right account. */
  predicate MayJoin(first: OutboxEntry, entry: OutboxEntry, account: Option<AccountTag>) {
    && (account.Some? ==> AccountIdsMatch(entry.accountId, account.value))
    && first.envelope.authorization == entry.envelope.authorization
  }

  function BatchFrom(first: OutboxEntry, pending: seq<OutboxEntry>, account: Option<AccountTag>, room: nat)
    : seq<OutboxEntry>
  {
    if room == 0 || pending == [] || !MayJoin(first, pending[0], account) then
      []
    else
      [pending[0]] + BatchFrom(first, pending[1..], account, room - 1)
  }

  function SelectBatch(outbox: seq<OutboxEntry>, account: Option<AccountTag>): seq<OutboxEntry> {
    var pending := PendingEntries(outbox);
    if pending == [] then [] else BatchFrom(pending[0], pending, account, COMMANDS_PER_SYNC_REQUEST)
  }

  /** The batch chosen from one position on, after the entries chosen so far. */
  function BatchGiven(
    first: OutboxEntry, pending: seq<OutboxEntry>, account: Option<AccountTag>,
    batch: seq<OutboxEntry>): seq<OutboxEntry>
    requires |batch| <= |pending| && |batch| <= COMMANDS_PER_SYNC_REQUEST
  {
    batch + BatchFrom(first, pending[|batch|..], account, COMMANDS_PER_SYNC_REQUEST - |batch|)
  }

  lemma BatchNext(first: OutboxEntry, pending: seq<OutboxEntry>, account: Option<AccountTag>, batch: seq<OutboxEntry>)
    requires |batch| < |pending| && |batch| < COMMANDS_PER_SYNC_REQUEST
    ensures var entry := pending[|batch|];
            BatchGiven(first, pending, account, batch) ==
            if MayJoin(first, entry, account) then BatchGiven(first, pending, account, batch + [entry]) else batch
  {
    hide MayJoin;
    var i := |batch|;
    assert pending[i..][0] == pending[i] && pending[i..][1..] == pending[i + 1..];
    assert batch + [] == batch;
    var rest := BatchFrom(first, pending[i + 1..], account, COMMANDS_PER_SYNC_REQUEST - i - 1);
    assert batch + ([pending[i]] + rest) == (batch + [pending[i]]) + rest;
  }

  lemma BatchEnds(first: OutboxEntry, pending: seq<OutboxEntry>, account: Option<AccountTag>, batch: seq<OutboxEntry>)
    requires |batch| <= |pending| && |batch| <= COMMANDS_PER_SYNC_REQUEST
    ensures |batch| == |pending| || |batch| == COMMANDS_PER_SYNC_REQUEST ==>
              BatchGiven(first, pending, account, batch) == batch
    ensures BatchGiven(first, pending, account, []) == BatchFrom(first, pending, account, COMMANDS_PER_SYNC_REQUEST)
  {
    hide MayJoin;
    assert batch + [] == batch && pending[0..] == pending;
  }

  method SelectPendingSyncBatch(outbox: seq<OutboxEntry>, account: Option<AccountTag>)
    returns (batch: seq<OutboxEntry>)
    ensures batch == SelectBatch(outbox, account)
  {
    hide PendingEntries, AccountIdsMatch, BatchGiven, BatchFrom;
    var pending := PendingEntries(outbox);
    batch := [];
    if pending == [] {
      return;
    }
    var first := pending[0];
    BatchEnds(first, pending, account, []);
    if account.Some? && !AccountIdsMatch(first.accountId, account.value) {
      BatchNext(first, pending, account, []);
      return;
    }
    for i := 0 to |pending|
      invariant |batch| == i < COMMANDS_PER_SYNC_REQUEST
      invariant SelectBatch(outbox, account) == BatchGiven(first, pending, account, batch)
    {
      var entry := pending[i];
      BatchNext(first, pending, account, batch);
      if account.Some? && !AccountIdsMatch(entry.accountId, account.value) {
        return;
      }
      if first.envelope.authorization != entry.envelope.authorization {
        return;
      }
      batch := batch + [entry];
      BatchEnds(first, pending, account, batch);
      if |batch| >= COMMANDS_PER_SYNC_REQUEST {
        return;
      }
    }
    BatchEnds(first, pending, account, batch);
  }

  /**
   The longest prefix of the pending entries within the quota whose entries all belong
   to the account that sends, if one is given, and were authorized alike.
   */
  ghost predicate IsMaximalUniformPrefix(
    pending: seq<OutboxEntry>, account: Option<AccountTag>, batch: seq<OutboxEntry>)
  {
    && batch <= pending
    && |batch| <= 100
    && (forall e | e in batch :: account.Some? ==> AccountIdsMatch(e.accountId, account.value))
    && (forall a, b | a in batch && b in batch :: a.envelope.authorization == b.envelope.authorization)
    && (|batch| < 100 && |batch| < |pending| ==>
          var next := pending[|batch|];
          || (account.Some? && !AccountIdsMatch(next.accountId, account.value))
          || (batch != [] && next.envelope.authorization != batch[0].envelope.authorization))
  }

  /** The pending entries are found one by one, in order, and all of them. */
  lemma PendingExactly(outbox: seq<OutboxEntry>, more: seq<OutboxEntry>, entry: OutboxEntry)
    ensures PendingEntries(outbox + more) == PendingEntries(outbox) + PendingEntries(more)
    ensures PendingEntries([entry]) == if entry.status == Pending then [entry] else []
    ensures PendingEntries([]) == []
    ensures entry in PendingEntries(outbox) <==> entry in outbox && entry.status == Pending
  {
    PendingAppend(outbox, more);
    assert [entry][1..] == [];
    if entry in outbox && entry.status == Pending {
      PendingFound(outbox, entry);
    }
  }

  lemma {:induction false} PendingFound(outbox: seq<OutboxEntry>, entry: OutboxEntry)
    requires entry in outbox && entry.status == Pending
    ensures entry in PendingEntries(outbox)
  {
    if outbox[0] == entry {
    } else {
      PendingFound(outbox[1..], entry);
    }
  }

  lemma {:induction false} BatchFromIsMaximal(
    first: OutboxEntry, pending: seq<OutboxEntry>, account: Option<AccountTag>, room: nat)
    ensures var batch := BatchFrom(first, pending, account, room);
            && batch <= pending
            && |batch| <= room
            && (forall i | 0 <= i < |batch| :: MayJoin(first, batch[i], account))
            && (|batch| == room || |batch| == |pending| || !MayJoin(first, pending[|batch|], account))
    decreases room
  {
    if room == 0 || pending == [] || !MayJoin(first, pending[0], account) {
    } else {
      BatchFromIsMaximal(first, pending[1..], account, room - 1);
      assert pending == [pending[0]] + pending[1..];
    }
  }

  lemma BatchIsMaximalUniformPrefix(outbox: seq<OutboxEntry>, account: Option<AccountTag>)
    ensures IsMaximalUniformPrefix(PendingEntries(outbox), account, SelectBatch(outbox, account))
  {
    hide BatchFrom, AccountIdsMatch;
    var pending := PendingEntries(outbox);
    if pending != [] {
      BatchFromIsMaximal(pending[0], pending, account, COMMANDS_PER_SYNC_REQUEST);
    }
  }

  lemma {:induction false} PendingAppend(outbox: seq<OutboxEntry>, more: seq<OutboxEntry>)
    ensures PendingEntries(outbox + more) == PendingEntries(outbox) + PendingEntries(more)
  {
    if outbox == [] {
      assert outbox + more == more;
    } else {
      PendingAppend(outbox[1..], more);
      assert (outbox + more)[1..] == outbox[1..] + more;
    }
  }

  lemma {:induction false} BatchFromGrows(
    first: OutboxEntry, pending: seq<OutboxEntry>, more: seq<OutboxEntry>, account: Option<AccountTag>, room: nat)
    ensures BatchFrom(first, pending, account, room) <= BatchFrom(first, pending + more, account, room)
    decreases room
  {
    if room == 0 || pending == [] || !MayJoin(first, pending[0], account) {
    } else {
      assert (pending + more)[1..] == pending[1..] + more;
      BatchFromGrows(first, pending[1..], more, account, room - 1);
    }
  }

  /** Queuing more work never takes an entry out of the batch. */
  lemma BatchGrows(outbox: seq<OutboxEntry>, more: seq<OutboxEntry>, account: Option<AccountTag>)
    ensures SelectBatch(outbox, account) <= SelectBatch(outbox + more, account)
  {
    PendingAppend(outbox, more);
    var pending := PendingEntries(outbox);
    if pending != [] {
      BatchFromGrows(pending[0], pending, PendingEntries(more), account, COMMANDS_PER_SYNC_REQUEST);
    }
  }

  lemma {:induction false} NothingPending(outbox: seq<OutboxEntry>)
    requires forall i | 0 <= i < |outbox| :: outbox[i].status == Blocked
    ensures PendingEntries(outbox) == []
  {
    if outbox == [] {
    } else {
      NothingPending(outbox[1..]);
    }
  }

  // ------------------------------------------------------- scoping the outbox

  const LEGACY_OUTBOX_ACCOUNT_ERROR: string :=
    "This queued change predates account-scoped access. " +
    "It was retained for recovery and must be reviewed before reapplying it."
  const SERVER_DELETION_OUTBOX_ERROR: string :=
    "The server workspace was deleted before this local change was backed up. It was retained for recovery."

  function CommandLabel(command: Command): string {
    match command
    case Rename(_) => "workspace rename"
    case ItemUpdate(_, _) => "item update"
    case LocationUpdate(_, _) => "location update"
    case BulkUpdate(_) => "item bulkUpdate"
    case Structural(_) => "structural change"
    case History(_) => "history change"
  }

  function BlockAfterDeletion(entry: OutboxEntry): OutboxEntry {
    if entry.status == Pending then
      entry.(error := Some(CommandLabel(entry.envelope.command) + ": " + SERVER_DELETION_OUTBOX_ERROR),
             status := Blocked)
    else
      entry
  }

  function ScopeEntry(entry: OutboxEntry, current: AccessState, candidate: AccessState): OutboxEntry {
    if candidate.kind != ServerBacked || !candidate.accountId.Account? || candidate.accountId.id == "" then
      entry
    else if current.kind == DeviceOnly then
      if entry.accountId == Undefined then entry.(accountId := candidate.accountId) else entry
    else if AccountIdsMatch(current.accountId, candidate.accountId) then
      entry
    else if current.accountId.Account? && current.accountId.id != "" then
      if entry.accountId == Undefined then entry.(accountId := current.accountId) else entry
    else if entry.status == Pending && entry.accountId == Undefined then
      entry.(accountId := Null,
             error := Some(CommandLabel(entry.envelope.command) + ": " + LEGACY_OUTBOX_ACCOUNT_ERROR),
             status := Blocked)
    else
      entry
  }

  function ScopeOutbox(outbox: seq<OutboxEntry>, current: AccessState, candidate: AccessState)
    : (scoped: seq<OutboxEntry>)
    ensures |scoped| == |outbox|
  {
    seq(|outbox|, i requires 0 <= i < |outbox| =>
      var entry := ScopeEntry(outbox[i], current, candidate);
      if candidate.kind == ServerBacked && candidate.status == Deleted then BlockAfterDeletion(entry) else entry)
  }

  /** An entry keeps its command; its account is only ever filled in; it is never unblocked. */
  predicate Retained(before: OutboxEntry, after: OutboxEntry) {
    && after.envelope == before.envelope
    && (before.accountId != Undefined ==> after.accountId == before.accountId)
    && (before.status == Blocked ==> after.status == Blocked && after.error == before.error)
    && (after.status == Blocked && before.status == Pending ==> after.error.Some?)
  }

  predicate RetainedAll(before: seq<OutboxEntry>, after: seq<OutboxEntry>) {
    |after| == |before| && forall i | 0 <= i < |before| :: Retained(before[i], after[i])
  }

  /**
   Scoping keeps every queued command in place. An account change never hands
   unattributed work to the new account unless the copy was device-only, and
   after a confirmed deletion nothing is left to send.
   */
  lemma ScopingRetainsQueue(outbox: seq<OutboxEntry>, current: AccessState, candidate: AccessState)
    ensures var scoped := ScopeOutbox(outbox, current, candidate);
            && RetainedAll(outbox, scoped)
            && (candidate.kind == ServerBacked && candidate.status == Deleted ==> PendingEntries(scoped) == [])
            && (current.kind == ServerBacked && !AccountIdsMatch(current.accountId, candidate.accountId) &&
                OptionalString(candidate.accountId).Some? ==>
                  forall i | 0 <= i < |scoped| ::
                    scoped[i].status == Pending && AccountIdsMatch(scoped[i].accountId, candidate.accountId) ==>
                      outbox[i].accountId == candidate.accountId)
  {
    var scoped := ScopeOutbox(outbox, current, candidate);
    if candidate.kind == ServerBacked && candidate.status == Deleted {
      NothingPending(scoped);
    }
  }

  /** The access names the account it belongs to. */
  predicate NamesAccount(access: AccessState) {
    access.accountId.Account? && access.accountId.id != ""
  }

  /**
   Who unattributed work belongs to after an access change: to the first account of a
   device-only copy, and to the account that leaves when another takes over. Work of
   which nobody can tell is retained for review.
   */
  lemma AttributionExactly(outbox: seq<OutboxEntry>, current: AccessState, candidate: AccessState, i: nat)
    requires i < |outbox|
    ensures var before, after := outbox[i], ScopeOutbox(outbox, current, candidate)[i];
            var takesOver := candidate.kind == ServerBacked && NamesAccount(candidate) &&
                             !AccountIdsMatch(current.accountId, candidate.accountId);
            var firstAccount := current.kind == DeviceOnly && candidate.kind == ServerBacked && NamesAccount(candidate);
            var unknown := takesOver && !firstAccount && !NamesAccount(current) && before.status == Pending;
            && (before.accountId != Undefined ==> after.accountId == before.accountId)
            && (before.accountId == Undefined ==>
                  after.accountId ==
                  if firstAccount then candidate.accountId
                  else if takesOver && NamesAccount(current) then current.accountId
                  else if unknown then Null
                  else Undefined)
            && (after.status == Blocked <==>
                  || before.status == Blocked
                  || (candidate.kind == ServerBacked && candidate.status == Deleted)
                  || (unknown && before.accountId == Undefined))
            && (after.status == before.status ==> after.error == before.error)
  {
    hide CommandLabel, AccountIdsMatch;
  }

  function ApplyConfirmedServerDeletion(
    current: Replica, candidate: AccessState, summary: Option<Option<Summary>>): Result<Replica, string>
  {
    if candidate.kind != ServerBacked || candidate.status != Deleted then
      Err("Confirmed server deletion requires deleted access")
    else if summary.Some? && summary.value.Some? && summary.value.value.id != current.state.workspaceId then
      Err("Server workspace summary does not match the local replica")
    else
      var existing := current.authorization;
      var next :=
        if existing.kind == ServerBacked && existing.status == Deleted &&
           AccountIdsMatch(existing.accountId, candidate.accountId)
        then
          candidate.(accessRevision := Max(candidate.accessRevision, existing.accessRevision),
                     membershipRevision := Max(candidate.membershipRevision, existing.membershipRevision))
        else
          candidate;
      Ok(current.(authorization := next,
                  outbox := ScopeOutbox(current.outbox, existing, next),
                  serverSummary := ResolveSummary(current.serverSummary, summary)))
  }

  function ResolveSummary(current: Option<Summary>, candidate: Option<Option<Summary>>): Option<Summary> {
    if candidate.None? then
      current
    else if candidate.value.None? then
      None
    else
      NewerSummary(current, candidate.value.value)
  }

  function NewerSummary(current: Option<Summary>, candidate: Summary): Option<Summary> {
    if current.None? || !AccountIdsMatch(candidate.accountId, current.value.accountId) ||
       CompareSummaries(candidate, current.value) >= 0
    then Some(candidate)
    else current
  }

  /** The order of summaries: membership, access, contents, and only then the time. */
  predicate SummaryAtMost(a: Summary, b: Summary) {
    || a.membershipRevision < b.membershipRevision
    || (a.membershipRevision == b.membershipRevision &&
        (|| a.accessRevision < b.accessRevision
         || (a.accessRevision == b.accessRevision &&
             (a.revision < b.revision || (a.revision == b.revision && a.updatedAt <= b.updatedAt)))))
  }

  lemma ComparedSummaries(a: Summary, b: Summary)
    ensures CompareSummaries(a, b) <= 0 <==> SummaryAtMost(a, b)
    ensures CompareSummaries(a, b) == 0 <==> SummaryAtMost(a, b) && SummaryAtMost(b, a)
  {
  }

  function NewestSummary(current: Option<Summary>, candidates: seq<Summary>): Option<Summary>
    decreases |candidates|
  {
    if candidates == [] then current else NewestSummary(NewerSummary(current, candidates[0]), candidates[1..])
  }

  /** Of one account the newest summary counts, in whatever order they arrive; another account's always takes over. */
  lemma {:induction false} NewestSummaryWins(current: Summary, candidates: seq<Summary>)
    requires forall c | c in candidates :: AccountIdsMatch(c.accountId, current.accountId)
    ensures var final := NewestSummary(Some(current), candidates);
            final.Some? && final.value in {current} + ToSet(candidates) &&
              forall s | s in {current} + ToSet(candidates) :: SummaryAtMost(s, final.value)
    ensures forall c: Summary :: NewerSummary(None, c) == Some(c)
    ensures forall c: Summary | !AccountIdsMatch(c.accountId, current.accountId) ::
              NewerSummary(Some(current), c) == Some(c)
    decreases |candidates|
  {
    hide CompareSummaries;
    if candidates == [] {
    } else {
      var first, rest := candidates[0], candidates[1..];
      assert candidates == [first] + rest;
      assert first in candidates;
      var next := NewerSummary(Some(current), first).value;
      ComparedSummaries(current, first);
      ComparedSummaries(first, current);
      CompareBackwards(first, current);
      NewestSummaryWins(next, rest);
      assert forall s | s in {current} + ToSet(candidates) :: s == current || s == first || s in rest;
    }
  }

  lemma CompareBackwards(a: Summary, b: Summary)
    ensures CompareSummaries(a, b) == -CompareSummaries(b, a)
  {
  }

  /**
   A confirmed deletion is always recorded, keeps the whole queue, leaves nothing
   to send, and repeating it never lowers the recorded revisions.
   */
  lemma ConfirmedDeletionIsTerminal(current: Replica, candidate: AccessState, summary: Option<Option<Summary>>)
    requires ApplyConfirmedServerDeletion(current, candidate, summary).Ok?
    ensures var next := ApplyConfirmedServerDeletion(current, candidate, summary).value;
            && next.state == current.state
            && next.authorization.kind == ServerBacked && next.authorization.status == Deleted
            && RetainedAll(current.outbox, next.outbox)
            && PendingEntries(next.outbox) == []
            && SelectBatch(next.outbox, None) == []
            && (current.authorization.status == Deleted && current.authorization.kind == ServerBacked &&
                AccountIdsMatch(current.authorization.accountId, candidate.accountId) ==>
                  next.authorization.accessRevision >= current.authorization.accessRevision &&
                  next.authorization.membershipRevision >= current.authorization.membershipRevision)
            && ApplyConfirmedServerDeletion(next, candidate, summary) == Ok(next)
  {
    hide ScopeOutbox, AccountIdsMatch, BatchFrom, RetainedAll, ResolveSummary;
    var next := ApplyConfirmedServerDeletion(current, candidate, summary).value;
    ScopingRetainsQueue(current.outbox, current.authorization, next.authorization);
    DeletedAgain(current.outbox, current.authorization, next.authorization);
    ResolvedAgain(current.serverSummary, summary);
  }

  /** With a deletion may come a summary, word that there is none, or nothing about it. */
  lemma DeletionRecordsExactly(current: Replica, candidate: AccessState, summary: Option<Option<Summary>>)
    ensures var r := ApplyConfirmedServerDeletion(current, candidate, summary);
            && (r.Ok? <==> candidate.kind == ServerBacked && candidate.status == Deleted &&
                           (summary.Some? && summary.value.Some? ==>
                              summary.value.value.id == current.state.workspaceId))
            && (r.Ok? ==>
                  && r.value == current.(authorization := r.value.authorization, outbox := r.value.outbox,
                                         serverSummary := r.value.serverSummary)
                  && r.value.authorization ==
                     candidate.(accessRevision := r.value.authorization.accessRevision,
                                membershipRevision := r.value.authorization.membershipRevision)
                  && r.value.authorization.accessRevision >= candidate.accessRevision
                  && r.value.authorization.membershipRevision >= candidate.membershipRevision
                  && r.value.outbox == ScopeOutbox(current.outbox, current.authorization, r.value.authorization)
                  && r.value.serverSummary ==
                     (if summary.None? then current.serverSummary
                      else if summary.value.None? then None
                      else NewestSummary(current.serverSummary, [summary.value.value])))
  {
    hide ScopeOutbox, AccountIdsMatch, NewerSummary;
    if summary.Some? && summary.value.Some? {
      var candidates := [summary.value.value];
      var newest := NewerSummary(current.serverSummary, summary.value.value);
      assert candidates[1..] == [] && NewestSummary(newest, []) == newest;
    }
  }

  lemma DeletedAgain(outbox: seq<OutboxEntry>, current: AccessState, next: AccessState)
    requires next.kind == ServerBacked && next.status == Deleted
    ensures var scoped := ScopeOutbox(outbox, current, next); ScopeOutbox(scoped, next, next) == scoped
    ensures AccountIdsMatch(next.accountId, next.accountId)
  {
    hide CommandLabel;
  }

  lemma ResolvedAgain(current: Option<Summary>, candidate: Option<Option<Summary>>)
    ensures var next := ResolveSummary(current, candidate); ResolveSummary(next, candidate) == next
  {
  }

  // ----------------------------------------------------------- reconciliation

  function Join(parts: seq<string>, separator: string): string {
    if parts == [] then ""
    else if |parts| == 1 then parts[0]
    else parts[0] + separator + Join(parts[1..], separator)
  }

  /** The receipt recorded last for a command, as a map built from the list keeps it. */
  function ReceiptFor(receipts: seq<Receipt>, commandId: string): (r: Option<Receipt>)
    ensures r.Some? ==> r.value in receipts && r.value.commandId == commandId
    ensures r.None? ==> forall i | 0 <= i < |receipts| :: receipts[i].commandId != commandId
  {
    if receipts == [] then
      None
    else if receipts[|receipts| - 1].commandId == commandId then
      Some(receipts[|receipts| - 1])
    else
      ReceiptFor(receipts[..|receipts| - 1], commandId)
  }

  /** Of several receipts for one command the last one counts. */
  lemma {:induction false} LastReceiptCounts(receipts: seq<Receipt>, commandId: string, k: nat)
    requires k < |receipts| && receipts[k].commandId == commandId
    requires forall j | k < j < |receipts| :: receipts[j].commandId != commandId
    ensures ReceiptFor(receipts, commandId) == Some(receipts[k])
  {
    if k == |receipts| - 1 {
    } else {
      LastReceiptCounts(receipts[..|receipts| - 1], commandId, k);
    }
  }

  function RefusalText(receipt: Receipt, otherwise: string): string {
    if receipt.message.Some? then receipt.message.value
    else if receipt.conflicts.Some? then Join(receipt.conflicts.value, "; ")
    else otherwise
  }

  predicate Acknowledged(receipts: seq<Receipt>, commandId: string) {
    var receipt := ReceiptFor(receipts, commandId);
    receipt.Some? && Acknowledges(receipt.value)
  }

  function SettledError(receipts: seq<Receipt>, commandId: string): string {
    var receipt := ReceiptFor(receipts, commandId);
    if receipt.Some? then RefusalText(receipt.value, "Server rejected this change")
    else "The server did not acknowledge this change"
  }

  /** What becomes of one queued entry when a reply to `sent` arrives. */
  function Settle(entry: OutboxEntry, sent: set<string>, receipts: seq<Receipt>): seq<OutboxEntry> {
    if entry.envelope.id !in sent then
      [entry]
    else if Acknowledged(receipts, entry.envelope.id) then
      []
    else
      [entry.(error := Some(SettledError(receipts, entry.envelope.id)), status := Blocked)]
  }

  /** The reason a blocked entry shows: the message, else the conflicts, else that the server said nothing. */
  predicate TellsWhy(error: Option<string>, receipt: Option<Receipt>) {
    match receipt
    case None => error == Some("The server did not acknowledge this change")
    case Some(r) =>
      && (r.message.Some? ==> error == r.message)
      && (r.message.None? && r.conflicts.Some? ==> error == Some(Join(r.conflicts.value, "; ")))
      && (r.message.None? && r.conflicts.None? ==> error == Some("Server rejected this change"))
  }

  /** A sent entry leaves when acknowledged and otherwise stays as a blocked one that tells why; an unsent one stays. */
  lemma SettledExactly(entry: OutboxEntry, sent: set<string>, receipts: seq<Receipt>)
    ensures var id, settled := entry.envelope.id, Settle(entry, sent, receipts);
            var receipt := ReceiptFor(receipts, id);
            && (id !in sent ==> settled == [entry])
            && (id in sent && receipt.Some? && receipt.value.status in {Status.Applied, Duplicate} ==> settled == [])
            && (id in sent && (receipt.None? || receipt.value.status == Rejected) ==>
                  && |settled| == 1 && settled[0].status == Blocked && TellsWhy(settled[0].error, receipt)
                  && settled[0].envelope == entry.envelope && settled[0].accountId == entry.accountId)
  {
    hide ReceiptFor, Join;
  }

  function SettleAll(outbox: seq<OutboxEntry>, sent: set<string>, receipts: seq<Receipt>): seq<OutboxEntry> {
    if outbox == [] then [] else Settle(outbox[0], sent, receipts) + SettleAll(outbox[1..], sent, receipts)
  }

  /** The revision the device's state would have without its queued commands. */
  function ConfirmedRevision(replica: Replica): int {
    replica.state.revision - |replica.outbox|
  }

  predicate ReplyIsStale(latest: Replica, sent: seq<OutboxEntry>, serverState: State) {
    || serverState.revision < ConfirmedRevision(latest)
    || (|sent| > 0 && forall i | 0 <= i < |latest.outbox| :: latest.outbox[i].envelope.id !in EntryIds(sent))
  }

  function Reconcile(latest: Replica, sent: seq<OutboxEntry>, serverState: State, receipts: seq<Receipt>)
    : Result<Replica, Problem>
  {
    if ReplyIsStale(latest, sent, serverState) then
      Ok(latest)
    else
      var outbox := SettleAll(latest.outbox, ToSet(EntryIds(sent)), receipts);
      if AnyBlocked(outbox) then
        Ok(latest.(outbox := outbox))
      else
        match Replay(serverState, Envelopes(outbox))
        case Err(problem) => Err(problem)
        case Ok(state) => Ok(latest.(state := state, outbox := outbox))
  }

  /**
   A reply is set aside whole when the device is known to be ahead of it, or when
   nothing of what it answers is queued any more. Any other settles the queue; with
   nothing blocked the state is the rest of the queue replayed on the server's.
   */
  lemma ReconcileExactly(latest: Replica, sent: seq<OutboxEntry>, serverState: State, receipts: seq<Receipt>)
    ensures var r := Reconcile(latest, sent, serverState, receipts);
            var settled := SettleAll(latest.outbox, ToSet(EntryIds(sent)), receipts);
            if latest.state.revision - |latest.outbox| > serverState.revision ||
               (sent != [] && forall e | e in latest.outbox :: e.envelope.id !in EntryIds(sent)) then
              r == Ok(latest)
            else if exists e | e in settled :: e.status == Blocked then
              r == Ok(latest.(outbox := settled))
            else
              var replayed := Replay(serverState, Envelopes(settled));
              r == if replayed.Err? then Err(replayed.error)
                   else Ok(latest.(state := replayed.value, outbox := settled))
  {
    hide SettleAll, Replay;
    assert forall i | 0 <= i < |latest.outbox| :: latest.outbox[i] in latest.outbox;
    var settled := SettleAll(latest.outbox, ToSet(EntryIds(sent)), receipts);
    assert forall i | 0 <= i < |settled| :: settled[i] in settled;
  }

  method ReplayQueue(start: State, queue: seq<Envelope>) returns (r: Result<State, Problem>)
    ensures r == Replay(start, queue)
  {
    hide Apply;
    var state := start;
    assert queue[0..] == queue;
    for i := 0 to |queue|
      invariant Replay(start, queue) == Replay(state, queue[i..])
    {
      assert queue[i..][0] == queue[i] && queue[i..][1..] == queue[i + 1..];
      var applied := Apply(state, queue[i]);
      if applied.Err? {
        return Err(applied.error);
      }
      state := applied.value;
    }
    assert queue[|queue|..] == [];
    r := Ok(state);
  }

  method ReconcileReplica(latest: Replica, sent: seq<OutboxEntry>, serverState: State, receipts: seq<Receipt>)
    returns (r: Result<Replica, Problem>)
    ensures r == Reconcile(latest, sent, serverState, receipts)
  {
    var sentIds := ToSet(EntryIds(sent));
    if serverState.revision < ConfirmedRevision(latest) {
      return Ok(latest);
    }
    if |sent| > 0 && !(exists i | 0 <= i < |latest.outbox| :: latest.outbox[i].envelope.id in sentIds) {
      return Ok(latest);
    }
    var outbox := SettleAll(latest.outbox, sentIds, receipts);
    if AnyBlocked(outbox) {
      return Ok(latest.(outbox := outbox));
    }
    var replayed := ReplayQueue(serverState, Envelopes(outbox));
    match replayed {
      case Err(problem) => r := Err(problem);
      case Ok(state) => r := Ok(latest.(state := state, outbox := outbox));
    }
  }

  // --------------------------------------------------------------- rebase check

  function AppliedPriorIds(state: State, prior: set<string>): set<string> {
    set id | id in prior && WasApplied(state, id)
  }

  predicate CanRebaseQueuedCommand(state: State, baseRevision: nat, prior: set<string>) {
    var applied := AppliedPriorIds(state, prior);
    |applied| > 0 && state.revision == baseRevision + |applied|
  }

  lemma NoPriorCommands(state: State, baseRevision: nat)
    ensures !CanRebaseQueuedCommand(state, baseRevision, {})
  {
    assert AppliedPriorIds(state, {}) == {};
  }

  /** The commands `after` shows and `before` does not. */
  function Between(before: State, after: State): set<string> {
    ToSet(AppliedIds(after)) - ToSet(AppliedIds(before))
  }

  /** Two states whose revisions count from the same start and that show every command once. */
  predicate Countable(before: State, after: State) {
    && NoDuplicates(AppliedIds(before)) && NoDuplicates(AppliedIds(after))
    && after.revision - |after.log| == before.revision - |before.log|
  }

  lemma AppliedPriorAreShown(state: State, prior: set<string>)
    ensures AppliedPriorIds(state, prior) == prior * ToSet(AppliedIds(state))
  {
    forall id | id in prior
      ensures WasApplied(state, id) <==> id in AppliedIds(state)
    {
      WasAppliedIsLogged(state, id);
    }
  }

  lemma SetCounts(seen: set<string>, shown: set<string>, prior: set<string>)
    ensures |shown| - |seen| == |shown - seen| - |seen - shown|
    ensures |prior * shown| + |(shown - seen) - prior| == |prior * (seen * shown)| + |shown - seen|
  {
    assert shown == (shown - seen) + shown * seen && seen == (seen - shown) + shown * seen;
    assert prior * shown == prior * (seen * shown) + prior * (shown - seen);
    assert shown - seen == prior * (shown - seen) + ((shown - seen) - prior);
  }

  /**
   What the rebase check counts: it passes exactly when some prior command is
   applied and as many other commands came in between as there are commands that
   were lost or were prior ones the user had already seen.
   */
  lemma RebaseCounts(seen: State, state: State, prior: set<string>)
    requires Countable(seen, state)
    ensures CanRebaseQueuedCommand(state, seen.revision, prior) <==>
              && AppliedPriorIds(state, prior) != {}
              && |Between(seen, state) - prior| ==
                 |Between(state, seen)| + |prior * (ToSet(AppliedIds(seen)) * ToSet(AppliedIds(state)))|
  {
    AppliedPriorAreShown(state, prior);
    NoDuplicatesCardinality(AppliedIds(seen));
    NoDuplicatesCardinality(AppliedIds(state));
    SetCounts(ToSet(AppliedIds(seen)), ToSet(AppliedIds(state)), prior);
  }

  lemma NothingBeyond(a: set<string>, b: set<string>)
    ensures a <= b <==> a - b == {}
  {
    if a - b == {} {
      forall x | x in a
        ensures x in b
      {
        assert x !in a - b;
      }
    }
  }

  /** Of what a passing count means for sets: nothing beyond the prior ones came in, or something was lost or known. */
  lemma CountsDecide(seen: set<string>, shown: set<string>, prior: set<string>)
    requires |(shown - seen) - prior| == |seen - shown| + |prior * (seen * shown)|
    ensures shown - seen <= prior <==> seen - shown == {} && prior * seen == {}
  {
    NothingBeyond(shown - seen, prior);
    NothingBeyond(seen, shown);
    if seen - shown == {} {
      assert seen * shown == seen;
    }
  }

  lemma CountsMatch(seen: set<string>, shown: set<string>, prior: set<string>)
    requires seen - shown == {} && prior * seen == {}
    ensures |(shown - seen) - prior| == |seen - shown| + |prior * (seen * shown)| <==> shown - seen <= prior
    ensures shown - seen <= prior ==> prior * shown == shown - seen
  {
    NothingBeyond(shown - seen, prior);
    NothingBeyond(seen, shown);
    assert prior * (seen * shown) == {};
  }

  /** Nothing the user saw has gone, and no prior command was already part of it. */
  predicate StillShown(seen: State, state: State, prior: set<string>) {
    Between(state, seen) == {} && prior * ToSet(AppliedIds(seen)) == {}
  }

  /**
   Counting revisions decides whether only this tab's own prior commands came in
   between: a check that passes is right if and only if everything the user saw is
   still shown and no prior command was among it, and then it passes exactly when
   something came in between and all of it is prior.
   */
  lemma RebaseSound(seen: State, state: State, prior: set<string>)
    requires Countable(seen, state)
    ensures CanRebaseQueuedCommand(state, seen.revision, prior) ==>
              (Between(seen, state) <= prior <==> StillShown(seen, state, prior))
    ensures StillShown(seen, state, prior) ==>
              (CanRebaseQueuedCommand(state, seen.revision, prior) <==>
               Between(seen, state) != {} && Between(seen, state) <= prior)
  {
    hide CanRebaseQueuedCommand, ToSet, Countable, AppliedIds;
    RebaseCounts(seen, state, prior);
    AppliedPriorAreShown(state, prior);
    var before, shown := ToSet(AppliedIds(seen)), ToSet(AppliedIds(state));
    if CanRebaseQueuedCommand(state, seen.revision, prior) {
      CountsDecide(before, shown, prior);
    }
    if StillShown(seen, state, prior) {
      CountsMatch(before, shown, prior);
      if CanRebaseQueuedCommand(state, seen.revision, prior) {
        assert prior * shown == Between(seen, state);
      }
    }
  }
}
