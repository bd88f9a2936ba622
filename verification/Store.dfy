/** Queuing a new command on the device, inside the transaction that reads the latest copy. */
module Store {
  import opened Prelude
  import opened Domain
  import opened Access
  import opened LocalReplica
  import opened SyncReconciliation

  /**
   The envelope was created on the state the user saw. When everything that
   changed since then is known to be earlier work of the same tab, and the caller
   gave no expectations of its own, it is created again on the latest state.
   */
  function EffectiveEnvelope(current: State, envelope: Envelope, explicitExpectations: bool, prior: set<string>)
    : Envelope
  {
    if !explicitExpectations && CanRebaseQueuedCommand(current, envelope.baseRevision, prior) then
      CreateEnvelope(current, envelope.command, envelope.id, envelope.actorId, envelope.deviceId,
                     envelope.timestamp, envelope.authorization, None)
    else
      envelope
  }

  function Dispatch(
    current: Replica, envelope: Envelope, explicitExpectations: bool, prior: set<string>,
    account: AccountTag, now: string): Result<Replica, Problem>
  {
    if !current.authorization.capabilities.write then
      Err(WriteRefused)
    else
      var effective := EffectiveEnvelope(current.state, envelope, explicitExpectations, prior);
      match Apply(current.state, effective)
      case Err(problem) => Err(problem)
      case Ok(state) =>
        Ok(current.(state := state,
                    outbox := current.outbox + [OutboxEntry(account, effective, Pending, None)],
                    updatedAt := now))
  }

  /** Created again on this state: the same command, for what the state holds now. */
  predicate CreatedAgain(current: State, envelope: Envelope, effective: Envelope) {
    && effective.id == envelope.id && effective.command == envelope.command
    && effective.actorId == envelope.actorId && effective.deviceId == envelope.deviceId
    && effective.timestamp == envelope.timestamp && effective.authorization == envelope.authorization
    && effective.workspaceId == current.workspaceId && effective.baseRevision == current.revision
    && effective.expectations == ExpectationsFor(current, envelope.command)
  }

  /**
   A dispatch needs write access, and expectations a caller gave of its own are never
   replaced. It queues one pending entry of the account, whose command is the given one
   or, if the rebase check passes, the same created again; that very command is applied.
   */
  lemma DispatchExactly(
    current: Replica, envelope: Envelope, explicitExpectations: bool, prior: set<string>,
    account: AccountTag, now: string)
    ensures var r := Dispatch(current, envelope, explicitExpectations, prior, account, now);
            var rebases := !explicitExpectations && CanRebaseQueuedCommand(current.state, envelope.baseRevision, prior);
            && (!current.authorization.capabilities.write ==> r == Err(WriteRefused))
            && (r.Ok? ==>
                  && |r.value.outbox| == |current.outbox| + 1
                  && r.value.outbox[..|current.outbox|] == current.outbox
                  && r.value == current.(state := r.value.state, outbox := r.value.outbox, updatedAt := now)
                  && var entry := r.value.outbox[|current.outbox|];
                     && entry.accountId == account && entry.status == Pending && entry.error == None
                     && (if rebases then CreatedAgain(current.state, envelope, entry.envelope)
                         else entry.envelope == envelope)
                     && Apply(current.state, entry.envelope) == Ok(r.value.state))
            && (r.Err? && current.authorization.capabilities.write ==>
                  (rebases || Apply(current.state, envelope) == Err(r.error)))
            && (r.Err? && current.authorization.capabilities.write && rebases ==>
                  exists effective | CreatedAgain(current.state, envelope, effective) ::
                    Apply(current.state, effective) == Err(r.error))
  {
    hide CanRebaseQueuedCommand, Apply, ExpectationsFor;
    var effective := EffectiveEnvelope(current.state, envelope, explicitExpectations, prior);
    assert !explicitExpectations && CanRebaseQueuedCommand(current.state, envelope.baseRevision, prior) ==>
           CreatedAgain(current.state, envelope, effective);
  }

  /** A queued command is applied to the saved state in the same step that queues it. */
  lemma DispatchStaysExportable(
    current: Replica, envelope: Envelope, explicitExpectations: bool, prior: set<string>,
    account: AccountTag, now: string)
    requires Exportable(current) && envelope.id !in EntryIds(current.outbox)
    requires Dispatch(current, envelope, explicitExpectations, prior, account, now).Ok?
    ensures Exportable(Dispatch(current, envelope, explicitExpectations, prior, account, now).value)
  {
    hide CanRebaseQueuedCommand;
    var next := Dispatch(current, envelope, explicitExpectations, prior, account, now).value;
    assert EntryIds(next.outbox) == EntryIds(current.outbox) + [envelope.id];
    assert envelope.id in AppliedIds(next.state) by {
      assert AppliedIds(next.state)[|current.state.log|] == envelope.id;
    }
  }

  /**
   A rebased command is refused only for its own content: none of its expectations
   fails on the latest state and its base revision is current. That is harmless, only
   this tab's own changes having come in between, if and only if everything the
   user saw is still shown and no prior command was among it.
   */
  lemma RebasedDispatchFits(seen: State, current: State, envelope: Envelope, prior: set<string>)
    requires envelope.baseRevision == seen.revision && Countable(seen, current)
    requires EffectiveEnvelope(current, envelope, false, prior) != envelope
    ensures Between(seen, current) <= prior <==> StillShown(seen, current, prior)
    ensures var effective := EffectiveEnvelope(current, envelope, false, prior);
            && effective.id == envelope.id && effective.command == envelope.command
            && effective.workspaceId == current.workspaceId
            && effective.baseRevision == current.revision
            && ExpectationsHold(current, effective.expectations)
  {
    RebaseSound(seen, current, prior);
    CreatedExpectationsHold(current, envelope.command);
  }
}
