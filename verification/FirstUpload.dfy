/**
 The first upload of a workspace that lived on the device alone. The request
 carries the device's state as the initial server snapshot together with a batch
 of queued commands, and the snapshot already contains all of them.
 */
module FirstUpload {
  import opened Prelude
  import opened Json
  import opened Domain
  import opened Server
  import opened Access
  import opened LocalReplica
  import opened SyncReconciliation
  import opened Store
  import opened CommandWrites

  /** The reply to a first upload: the snapshot becomes the server state, then the batch is served on it. */
  function Uploaded(replica: Replica): Result<Outcome, Problem> {
    SynchronizeResult(replica.state, Envelopes(SelectBatch(replica.outbox, None)))
  }

  predicate UniformQueue(outbox: seq<OutboxEntry>) {
    forall e | e in outbox :: e.status == Pending && e.envelope.authorization == outbox[0].envelope.authorization
  }

  ghost predicate ReadyForUpload(replica: Replica) {
    Exportable(replica) && UniformQueue(replica.outbox) && NoDuplicates(AppliedIds(replica.state))
  }

  /** The device is left with a state that shows every command exactly once. */
  predicate ShowsOnce(r: Result<Replica, Problem>) {
    r.Ok? && NoDuplicates(AppliedIds(r.value.state))
  }

  lemma {:induction false} AllPending(outbox: seq<OutboxEntry>)
    requires forall e | e in outbox :: e.status == Pending
    ensures PendingEntries(outbox) == outbox
  {
    if outbox == [] {
    } else {
      AllPending(outbox[1..]);
    }
  }

  lemma UniformBatch(outbox: seq<OutboxEntry>)
    requires UniformQueue(outbox)
    ensures SelectBatch(outbox, None) == outbox[..Min(COMMANDS_PER_SYNC_REQUEST, |outbox|)]
  {
    hide BatchFrom;
    AllPending(outbox);
    BatchIsMaximalUniformPrefix(outbox, None);
    var batch := SelectBatch(outbox, None);
    if |batch| < |outbox| {
      assert outbox[|batch|] in outbox;
      assert MayJoin(outbox[0], outbox[|batch|], None);
    }
  }

  lemma {:induction false} SettleAppend(
    a: seq<OutboxEntry>, b: seq<OutboxEntry>, sent: set<string>, receipts: seq<Receipt>)
    ensures SettleAll(a + b, sent, receipts) == SettleAll(a, sent, receipts) + SettleAll(b, sent, receipts)
  {
    hide Settle;
    if a == [] {
      assert a + b == b;
    } else {
      SettleAppend(a[1..], b, sent, receipts);
      assert (a + b)[0] == a[0] && (a + b)[1..] == a[1..] + b;
    }
  }

  lemma {:induction false} AcknowledgedLeave(a: seq<OutboxEntry>, sent: set<string>, receipts: seq<Receipt>)
    requires forall e | e in a :: e.envelope.id in sent && Acknowledged(receipts, e.envelope.id)
    ensures SettleAll(a, sent, receipts) == []
  {
    hide Acknowledged, SettledError;
    if a == [] {
    } else {
      assert a[0] in a;
      AcknowledgedLeave(a[1..], sent, receipts);
    }
  }

  lemma {:induction false} UnsentStay(b: seq<OutboxEntry>, sent: set<string>, receipts: seq<Receipt>)
    requires forall e | e in b :: e.envelope.id !in sent
    ensures SettleAll(b, sent, receipts) == b
  {
    hide Acknowledged, SettledError;
    if b == [] {
    } else {
      assert b[0] in b;
      UnsentStay(b[1..], sent, receipts);
      assert b == [b[0]] + b[1..];
    }
  }

  lemma SettleSplit(a: seq<OutboxEntry>, b: seq<OutboxEntry>, sent: set<string>, receipts: seq<Receipt>)
    requires forall e | e in a :: e.envelope.id in sent && Acknowledged(receipts, e.envelope.id)
    requires forall e | e in b :: e.envelope.id !in sent
    ensures SettleAll(a + b, sent, receipts) == b
  {
    hide SettleAll, Acknowledged;
    SettleAppend(a, b, sent, receipts);
    AcknowledgedLeave(a, sent, receipts);
    UnsentStay(b, sent, receipts);
    assert [] + b == b;
  }

  lemma UploadAcknowledges(replica: Replica)
    requires ReadyForUpload(replica)
    ensures Uploaded(replica).Ok? && Uploaded(replica).value.state == replica.state
    ensures forall e | e in SelectBatch(replica.outbox, None) ::
              Acknowledged(Uploaded(replica).value.receipts, e.envelope.id)
  {
    hide Serve, Apply;
    var batch := SelectBatch(replica.outbox, None);
    UniformBatch(replica.outbox);
    forall i | 0 <= i < |batch|
      ensures WasApplied(replica.state, Envelopes(batch)[i].id)
    {
      assert batch[i] == replica.outbox[i];
      WasAppliedIsLogged(replica.state, batch[i].envelope.id);
    }
    RepeatedBatchChangesNothing(replica.state, Envelopes(batch));
    var receipts := Uploaded(replica).value.receipts;
    forall e | e in batch
      ensures Acknowledged(receipts, e.envelope.id)
    {
      var i :| 0 <= i < |batch| && batch[i] == e;
      assert receipts[i].commandId == e.envelope.id;
    }
  }

  function Unsent(outbox: seq<OutboxEntry>): seq<OutboxEntry> {
    outbox[Min(COMMANDS_PER_SYNC_REQUEST, |outbox|)..]
  }

  lemma QueueParts(outbox: seq<OutboxEntry>, n: nat)
    requires n <= |outbox| && NoDuplicates(EntryIds(outbox))
    ensures forall e | e in outbox[..n] :: e.envelope.id in EntryIds(outbox[..n])
    ensures forall e | e in outbox[n..] :: e.envelope.id !in EntryIds(outbox[..n])
  {
    var batch, rest := outbox[..n], outbox[n..];
    forall e | e in rest
      ensures e.envelope.id !in EntryIds(batch)
    {
      var j :| 0 <= j < |rest| && rest[j] == e;
      assert EntryIds(outbox)[n + j] == e.envelope.id;
      assert forall i | 0 <= i < n :: EntryIds(batch)[i] == EntryIds(outbox)[i];
    }
    forall e | e in batch
      ensures e.envelope.id in EntryIds(batch)
    {
      var i :| 0 <= i < |batch| && batch[i] == e;
      assert EntryIds(batch)[i] == e.envelope.id;
    }
  }

  /** The copy when the reply arrives: more may have been queued since the request was sent. */
  ghost predicate QueuedSince(sender: Replica, latest: Replica, more: seq<OutboxEntry>) {
    && latest.outbox == sender.outbox + more
    && Replay(sender.state, Envelopes(more)) == Ok(latest.state)
    && (forall e | e in more :: e.status == Pending)
    && NoDuplicates(AppliedIds(latest.state))
  }

  lemma MoreIsNew(sender: Replica, latest: Replica, more: seq<OutboxEntry>)
    requires ReadyForUpload(sender) && QueuedSince(sender, latest, more)
    ensures NoDuplicates(EntryIds(latest.outbox))
  {
    hide Apply, Replay, NoDuplicates, AppliedIds, UniformQueue;
    var oldIds, newIds := EntryIds(sender.outbox), EntryIds(more);
    assert EntryIds(latest.outbox) == oldIds + newIds;
    assert EnvelopeIds(Envelopes(more)) == newIds;
    assert AppliedIds(latest.state) == AppliedIds(sender.state) + newIds;
    SuffixNoDuplicates(AppliedIds(sender.state), newIds);
    forall i | 0 <= i < |newIds|
      ensures newIds[i] !in oldIds
    {
      assert newIds[i] in newIds;
      assert forall k | 0 <= k < |oldIds| :: oldIds[k] in AppliedIds(sender.state);
    }
    DisjointNoDuplicates(oldIds, newIds);
  }

  lemma UploadSettles(sender: Replica, latest: Replica, more: seq<OutboxEntry>)
    requires ReadyForUpload(sender) && QueuedSince(sender, latest, more)
    ensures var batch := SelectBatch(sender.outbox, None);
            && Uploaded(sender).Ok?
            && !ReplyIsStale(latest, batch, sender.state)
            && SettleAll(latest.outbox, ToSet(EntryIds(batch)), Uploaded(sender).value.receipts)
               == Unsent(sender.outbox) + more
            && !AnyBlocked(Unsent(sender.outbox) + more)
  {
    hide Uploaded, Acknowledged, SettleAll, SelectBatch, Replay, ReplyIsStale, NoDuplicates, Exportable, AppliedIds,
         AnyBlocked;
    UniformBatch(sender.outbox);
    UploadAcknowledges(sender);
    MoreIsNew(sender, latest, more);
    RestIsPending(sender, more);
    var n := Min(COMMANDS_PER_SYNC_REQUEST, |sender.outbox|);
    UploadIsCurrent(sender, latest, more, n);
    PartsSettle(sender.outbox, n, more, Uploaded(sender).value.receipts);
  }

  lemma PartsSettle(outbox: seq<OutboxEntry>, n: nat, more: seq<OutboxEntry>, receipts: seq<Receipt>)
    requires n <= |outbox| && NoDuplicates(EntryIds(outbox + more))
    requires forall e | e in outbox[..n] :: Acknowledged(receipts, e.envelope.id)
    ensures SettleAll(outbox + more, ToSet(EntryIds(outbox[..n])), receipts) == outbox[n..] + more
  {
    hide Acknowledged, SettleAll, NoDuplicates;
    SplitQueue(outbox, n, more);
    QueueParts(outbox + more, n);
    SettleSplit(outbox[..n], outbox[n..] + more, ToSet(EntryIds(outbox[..n])), receipts);
  }

  lemma SplitQueue(outbox: seq<OutboxEntry>, n: nat, more: seq<OutboxEntry>)
    requires n <= |outbox|
    ensures var all := outbox + more;
            all == outbox[..n] + (outbox[n..] + more) && all[..n] == outbox[..n] && all[n..] == outbox[n..] + more
  {
  }

  lemma UploadIsCurrent(sender: Replica, latest: Replica, more: seq<OutboxEntry>, n: nat)
    requires QueuedSince(sender, latest, more) && n <= |sender.outbox|
    ensures !ReplyIsStale(latest, sender.outbox[..n], sender.state)
  {
    hide Replay, NoDuplicates, AppliedIds;
    if n > 0 {
      assert latest.outbox[0] == sender.outbox[0];
      assert EntryIds(sender.outbox[..n])[0] == latest.outbox[0].envelope.id;
    }
  }

  lemma RestIsPending(sender: Replica, more: seq<OutboxEntry>)
    requires UniformQueue(sender.outbox) && forall e | e in more :: e.status == Pending
    ensures !AnyBlocked(Unsent(sender.outbox) + more)
  {
    var rest := Unsent(sender.outbox) + more;
    forall j | 0 <= j < |rest|
      ensures rest[j].status == Pending
    {
      assert rest[j] in sender.outbox || rest[j] in more;
    }
  }

  /**
   A first upload settles the device exactly when the queue at the time of sending
   fits into one request, whatever is queued while it is under way. Otherwise the
   unsent rest, which the snapshot already contains, is replayed over that same
   snapshot: it either fails or applies a command a second time.
   */
  lemma FirstUploadSettlesIffOneRequest(sender: Replica, latest: Replica, more: seq<OutboxEntry>)
    requires ReadyForUpload(sender) && QueuedSince(sender, latest, more)
    ensures Uploaded(sender).Ok?
    ensures var batch := SelectBatch(sender.outbox, None);
            var r := Reconcile(latest, batch, Uploaded(sender).value.state, Uploaded(sender).value.receipts);
            && (ShowsOnce(r) <==> |sender.outbox| <= COMMANDS_PER_SYNC_REQUEST)
            && (ShowsOnce(r) ==> r == Ok(latest.(outbox := more)))
  {
    hide Uploaded, SettleAll, ReplyIsStale, Apply, Replay, SelectBatch;
    UploadAcknowledges(sender);
    UploadSettles(sender, latest, more);
    var rest := Unsent(sender.outbox);
    if rest == [] {
      assert rest + more == more;
    } else if Replay(sender.state, Envelopes(rest + more)).Ok? {
      assert rest[0] == sender.outbox[COMMANDS_PER_SYNC_REQUEST];
      ReplayedTwice(sender.state, rest + more);
    }
  }

  /** Replaying a command the log already holds never shows every command once. */
  lemma ReplayedTwice(state: State, queue: seq<OutboxEntry>)
    requires queue != [] && queue[0].envelope.id in AppliedIds(state) && Replay(state, Envelopes(queue)).Ok?
    ensures !NoDuplicates(AppliedIds(Replay(state, Envelopes(queue)).value))
  {
    hide Replay, Apply;
    var ids := AppliedIds(Replay(state, Envelopes(queue)).value);
    assert ids == AppliedIds(state) + EnvelopeIds(Envelopes(queue));
    assert ids[|state.log|] == queue[0].envelope.id;
    var k :| 0 <= k < |state.log| && AppliedIds(state)[k] == queue[0].envelope.id;
    assert ids[k] == ids[|state.log|];
  }

  // ------------------------------------------------------- a concrete queue

  function Tally(i: nat): string {
    seq(i + 1, _ => 'c')
  }

  const WORKSPACE: RecordId := RecordId(Workspace, "ws")

  /** The name after so many renames: the user keeps changing between two. */
  function Name(n: nat): Json {
    Str(if n % 2 == 0 then "home" else "shed")
  }

  const NEW_COPY: Replica := Replica(
    State("ws", 0, map[WORKSPACE := map["name" := Name(0)]], []), [],
    AccessState(DeviceOnly, Undefined, 0, 0, Active, None, Capabilities(true, false, true, true, true)),
    None, None, None, None, "")

  function RenameEnvelope(state: State, n: nat): Envelope {
    CreateEnvelope(state, Rename(Name(n + 1)), Tally(n), "local-user", "local-device", "", None, None)
  }

  /** A device-only copy on which the workspace was renamed `n` times. */
  function RenamedCopy(n: nat): Result<Replica, Problem> {
    if n == 0 then
      Ok(NEW_COPY)
    else
      var previous :- RenamedCopy(n - 1);
      Dispatch(previous, RenameEnvelope(previous.state, n - 1), false, {}, Undefined, "")
  }

  /** What `n` renames leave behind. */
  ghost predicate IsRenamed(replica: Replica, n: nat) {
    && replica.authorization == NEW_COPY.authorization
    && replica.state.workspaceId == "ws"
    && WORKSPACE in replica.state.records && Lookup(replica.state.records[WORKSPACE], "name") == Some(Name(n))
    && |replica.outbox| == n
    && Replay(NEW_COPY.state, Envelopes(replica.outbox)) == Ok(replica.state)
    && (forall i | 0 <= i < n ::
          var e := replica.outbox[i];
          e.envelope.id == Tally(i) && e.envelope.workspaceId == "ws" && e.status == Pending &&
            e.envelope.authorization == None)
  }

  /** A rename to another name is accepted on the state it was created on. */
  lemma RenameApplies(state: State, n: nat)
    requires state.workspaceId == "ws" && WORKSPACE in state.records
    requires Lookup(state.records[WORKSPACE], "name") == Some(Name(n))
    ensures var r := Apply(state, RenameEnvelope(state, n));
            r.Ok? && WORKSPACE in r.value.records && Lookup(r.value.records[WORKSPACE], "name") == Some(Name(n + 1))
  {
    hide UpdatePatches, ApplyPatches, ExpectationsHold;
    var changes: Record := map["name" := Name(n + 1)];
    var e := RenameEnvelope(state, n);
    CreatedExpectationsHold(state, e.command);
    UpdateWrites(state, WORKSPACE, changes, {"name"});
    assert (state.records[WORKSPACE] + changes)["name"] != state.records[WORKSPACE]["name"];
    UpdateErrors(state, WORKSPACE, changes, {"name"});
    assert changes.Keys == {"name"};
  }

  lemma {:induction false} RenamesAreAccepted(n: nat)
    ensures RenamedCopy(n).Ok? && IsRenamed(RenamedCopy(n).value, n)
  {
    hide Apply, Replay, RenameEnvelope;
    if n == 0 {
      NothingReplayed(NEW_COPY.state);
    } else {
      RenamesAreAccepted(n - 1);
      RenamedOnce(RenamedCopy(n - 1).value, n - 1);
    }
  }

  lemma NothingReplayed(state: State)
    ensures Envelopes([]) == [] && Replay(state, []) == Ok(state)
  {
  }

  lemma RenamedOnce(replica: Replica, n: nat)
    requires IsRenamed(replica, n)
    ensures var r := Dispatch(replica, RenameEnvelope(replica.state, n), false, {}, Undefined, "");
            r.Ok? && IsRenamed(r.value, n + 1)
  {
    hide Apply, Replay, ExpectationsFor;
    var e := RenameEnvelope(replica.state, n);
    RenameApplies(replica.state, n);
    NoPriorCommands(replica.state, e.baseRevision);
    ReplayAppend(NEW_COPY.state, Envelopes(replica.outbox), e);
    var entry := OutboxEntry(Undefined, e, Pending, None);
    assert Envelopes(replica.outbox + [entry]) == Envelopes(replica.outbox) + [e];
  }

  lemma TalliesDiffer(i: nat, j: nat)
    requires i != j
    ensures Tally(i) != Tally(j)
  {
    assert |Tally(i)| != |Tally(j)|;
  }

  lemma RenamedIds(replica: Replica, n: nat)
    requires IsRenamed(replica, n)
    ensures AppliedIds(replica.state) == EntryIds(replica.outbox)
    ensures NoDuplicates(EntryIds(replica.outbox))
  {
    hide Apply, Replay, Tally;
    var ids := EntryIds(replica.outbox);
    assert EnvelopeIds(Envelopes(replica.outbox)) == ids;
    assert AppliedIds(replica.state) == AppliedIds(NEW_COPY.state) + ids;
    assert AppliedIds(NEW_COPY.state) == [];
    forall i, j | 0 <= i < j < n
      ensures ids[i] != ids[j]
    {
      TalliesDiffer(i, j);
    }
  }

  lemma RenamedEntry(replica: Replica, n: nat, i: nat)
    requires IsRenamed(replica, n) && i < n
    ensures |replica.outbox| == n && replica.state.workspaceId == "ws"
    ensures var e := replica.outbox[i];
            e.envelope.workspaceId == "ws" && e.status == Pending && e.envelope.authorization == None
  {
    hide Replay;
  }

  lemma RenamedIsReady(replica: Replica, n: nat)
    requires IsRenamed(replica, n)
    ensures ReadyForUpload(replica)
  {
    hide IsRenamed;
    RenamedIds(replica, n);
    RenamedLength(replica, n);
    forall i | 0 <= i < n
      ensures replica.outbox[i].envelope.id in AppliedIds(replica.state)
      ensures replica.outbox[i].envelope.workspaceId == replica.state.workspaceId
      ensures replica.outbox[i].status == Pending && replica.outbox[i].envelope.authorization == None
    {
      assert EntryIds(replica.outbox)[i] in EntryIds(replica.outbox);
      RenamedEntry(replica, n, i);
    }
    forall e | e in replica.outbox
      ensures e.status == Pending && e.envelope.authorization == replica.outbox[0].envelope.authorization
    {
      var i :| 0 <= i < n && replica.outbox[i] == e;
    }
  }

  /** More renames than one request carries are accepted on the device, and uploading them does not settle it. */
  lemma LongQueueDoesNotSettle(n: nat)
    requires n > COMMANDS_PER_SYNC_REQUEST
    ensures RenamedCopy(n).Ok? && Uploaded(RenamedCopy(n).value).Ok?
    ensures var r := RenamedCopy(n).value;
            var u := Uploaded(r).value;
            !ShowsOnce(Reconcile(r, SelectBatch(r.outbox, None), u.state, u.receipts))
  {
    hide Uploaded, Reconcile, RenamedCopy, IsRenamed, ReadyForUpload, SelectBatch;
    RenamesAreAccepted(n);
    var replica := RenamedCopy(n).value;
    RenamedIsReady(replica, n);
    NothingQueuedSince(replica);
    RenamedLength(replica, n);
    FirstUploadSettlesIffOneRequest(replica, replica, []);
  }

  lemma RenamedLength(replica: Replica, n: nat)
    requires IsRenamed(replica, n)
    ensures |replica.outbox| == n
  {
  }

  lemma NothingQueuedSince(replica: Replica)
    requires ReadyForUpload(replica)
    ensures QueuedSince(replica, replica, [])
  {
    NothingReplayed(replica.state);
    assert replica.outbox + [] == replica.outbox;
  }
}
