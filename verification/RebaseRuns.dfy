/**
 The rebase check over whole runs. A command is created on the state the user sees,
 some earlier copy of the run, and dispatched on the latest one. Unless a review was
 saved in between, passing the check means that only this tab's own commands came in
 between; with a review, exactly the commands it took away decide.
 */
module RebaseRuns {
  import opened Prelude
  import opened Domain
  import opened Server
  import opened LocalReplica
  import opened SyncReconciliation
  import opened Store
  import opened ConflictReview
  import opened ReviewedQueue
  import opened Protocol
  import opened Guarantees
  import opened SingleFlight

  // -------------------------------------------------- what the copy shows

  /** Everything shown before is still shown, or was decided upon by a review. */
  predicate KeepsShown(sys: System, next: System) {
    forall id | id in AppliedIds(sys.replica.state) :: id in AppliedIds(next.replica.state) || id in next.resolved
  }

  predicate KeepsAllShown(sys: System, next: System) {
    forall id | id in AppliedIds(sys.replica.state) :: id in AppliedIds(next.replica.state)
  }

  lemma ShownIds(sys: System)
    requires CopyInv(sys)
    ensures AppliedIds(sys.replica.state) == AppliedIds(sys.base) + EnvelopeIds(sys.basis)
  {
    hide Replay;
  }

  /** The answer to the current flush takes nothing away, overtaken by a review or not. */
  lemma DeliverKeepsShown(sys: System, k: nat, now: string, account: string)
    requires SingleInv(sys, account) && Enabled(sys, DeliverStep(k, now)) && Alone(sys, DeliverStep(k, now), account)
    ensures KeepsAllShown(sys, Deliver(sys, sys.replies[k], now))
  {
    hide CopyInv, ServerInv, SelectBatch, SettleAll, Replay, ReplyIsStale, Deliver, RetryCovers, AppliedIds,
         NoDuplicates;
    var reply := sys.replies[k];
    var sent := sys.requests[reply.request];
    var settled := SettleAll(sys.replica.outbox, ToSet(EntryIds(sent)), reply.receipts);
    ReplyRebuildsOrLeaves(sys, reply, now);
    if reply.Success? && Rebuilds(sys.replica, sent, reply.state, reply.receipts) &&
       Replay(reply.state, Envelopes(settled)).Ok? {
      RebuiltIds(reply.state, settled);
      ShownIds(sys);
      NotStaleKeepsBase(sys, sent, reply.state);
      forall id | id in EnvelopeIds(sys.basis)
        ensures id in AppliedIds(reply.state) || id in EntryIds(settled)
      {
        SettledLeavesOnlyApplied(sys.replica.outbox, ToSet(EntryIds(sent)), reply.receipts, reply.state);
      }
    }
  }

  lemma RebuiltIds(state: State, settled: seq<OutboxEntry>)
    requires Replay(state, Envelopes(settled)).Ok?
    ensures AppliedIds(Replay(state, Envelopes(settled)).value) == AppliedIds(state) + EntryIds(settled)
  {
    hide Replay;
    assert EnvelopeIds(Envelopes(settled)) == EntryIds(settled);
  }

  lemma NotStaleKeepsBase(sys: System, sent: seq<OutboxEntry>, state: State)
    requires CopyInv(sys) && ServerInv(sys) && SameHistory(state, sys.server)
    requires !ReplyIsStale(sys.replica, sent, state)
    ensures forall id | id in AppliedIds(sys.base) :: id in AppliedIds(state)
  {
    hide Replay;
    ConfirmedAtLeastBase(sys);
    RevisionsOrderHistory(sys.base, state, sys.server);
  }

  /** A saved review takes away only what it decided upon. */
  lemma ReviewKeepsShown(sys: System, step: Step)
    requires Inv(sys) && LoadedInv(sys) && step.SaveReviewStep? && Enabled(sys, step)
    ensures KeepsShown(sys, SaveReview(sys, step))
  {
    hide Project, Replay, SavedReview, ServerInv, NetworkInv, WasApplied;
    var online := sys.loaded.value;
    var reviewed := Reviewed(sys, step).value;
    var next := SaveReview(sys, step);
    FinishedReview(sys.replica, online, step.decisions, step.options);
    SavedReviewOutbox(sys, step);
    ShownIds(sys);
    assert AppliedIds(next.replica.state) == AppliedIds(online) + EnvelopeIds(Envelopes(reviewed.outbox));
    forall id | id in EntryIds(sys.replica.outbox) && id in reviewed.accepted
      ensures id in AppliedIds(online)
    {
      var i :| 0 <= i < |sys.replica.outbox| && EntryIds(sys.replica.outbox)[i] == id;
      assert sys.replica.outbox[i] in sys.replica.outbox;
      WasAppliedIsLogged(online, id);
    }
  }

  /** Queuing a command adds to what is shown; scoping and deletion leave it alone. */
  lemma QueueingKeepsShown(sys: System, step: Step)
    requires Enabled(sys, step) && (step.DispatchStep? || step.AccessStep? || step.DeletionStep?)
    ensures KeepsAllShown(sys, Act(sys, step))
  {
    hide Apply, ScopeEntry, EffectiveEnvelope, SynchronizeResult, SelectBatch, Deliver, SaveReview, Project;
  }

  lemma StepKeepsShown(sys: System, step: Step, account: string)
    requires SingleInv(sys, account) && LoadedInv(sys) && Enabled(sys, step) && Alone(sys, step, account)
    ensures if step.SaveReviewStep? then KeepsShown(sys, Next(sys, step)) else KeepsAllShown(sys, Next(sys, step))
  {
    hide LoadedInv, DispatchTo, Send, ServeRequest, ForeignCommands, ChangeAccess, ConfirmDeletion, Deliver, SaveReview,
         Project, AppliedIds, CopyInv, ServerInv, NetworkInv, RetryCovers, FlightOk, Overtaken;
    if step.DeliverStep? {
      DeliverKeepsShown(sys, step.reply, step.now, account);
    } else if step.SaveReviewStep? {
      ReviewKeepsShown(sys, step);
    } else if step.DispatchStep? || step.AccessStep? || step.DeletionStep? {
      QueueingKeepsShown(sys, step);
    } else {
      CopyStays(sys, step);
    }
  }

  lemma StepKeepsResolved(sys: System, step: Step)
    requires Enabled(sys, step)
    ensures sys.resolved <= Next(sys, step).resolved
  {
    hide Apply, ApplySuccessfulSyncResponse, ApplyRefusedSyncResponse, SynchronizeResult, SelectBatch,
         SavedReview, Project;
  }

  predicate NoReview(steps: seq<Step>, m: nat, n: nat)
    requires m <= n <= |steps|
  {
    forall i | m <= i < n :: !steps[i].SaveReviewStep?
  }

  lemma {:induction false} RunKeepsShown(trace: seq<System>, steps: seq<Step>, account: string, m: nat, n: nat)
    requires IsSingleFlightRun(trace, steps, account) && m <= n < |trace|
    ensures KeepsShown(trace[m], trace[n])
    ensures NoReview(steps, m, n) ==> KeepsAllShown(trace[m], trace[n])
    decreases n
  {
    hide Enabled, Next, Alone, SingleInv, LoadedInv, Initial, KeepsShown, KeepsAllShown;
    if m == n {
      ShowsItself(trace[m]);
    } else {
      RunKeepsShown(trace, steps, account, m, n - 1);
      RunKeepsSingle(trace, steps, account, n - 1);
      RunKeepsInv(trace, steps, n - 1);
      StepKeepsShown(trace[n - 1], steps[n - 1], account);
      StepKeepsResolved(trace[n - 1], steps[n - 1]);
      ShownOn(trace[m], trace[n - 1], trace[n]);
    }
  }

  lemma ShowsItself(sys: System)
    ensures KeepsShown(sys, sys) && KeepsAllShown(sys, sys)
  {
  }

  lemma ShownOn(a: System, b: System, c: System)
    requires b.resolved <= c.resolved
    ensures KeepsShown(a, b) && (KeepsShown(b, c) || KeepsAllShown(b, c)) ==> KeepsShown(a, c)
    ensures KeepsAllShown(a, b) && KeepsAllShown(b, c) ==> KeepsAllShown(a, c)
  {
    hide AppliedIds;
  }

  // ------------------------------------------------------ counting revisions

  function Start(state: State): int {
    state.revision - |state.log|
  }

  lemma CopyStart(sys: System)
    requires Inv(sys)
    ensures Start(sys.replica.state) == Start(sys.server)
  {
    hide NetworkInv;
    ShownIds(sys);
  }

  lemma {:induction false} ServerStart(trace: seq<System>, steps: seq<Step>, m: nat, n: nat)
    requires IsRun(trace, steps) && m <= n < |trace|
    ensures Start(trace[m].server) == Start(trace[n].server)
    decreases n
  {
    hide Enabled, Act, Inv, LoadedInv, Initial;
    if m == n {
    } else {
      ServerStart(trace, steps, m, n - 1);
      RunKeepsInv(trace, steps, n - 1);
      ServerOnlyGrows(trace[n - 1], steps[n - 1]);
    }
  }

  /** Any two copies of a run can be compared by counting. */
  lemma CopiesAreCountable(trace: seq<System>, steps: seq<Step>, account: string, m: nat, n: nat)
    requires IsSingleFlightRun(trace, steps, account) && m <= n < |trace|
    ensures Countable(trace[m].replica.state, trace[n].replica.state)
  {
    hide Enabled, Next, Alone, Initial, Inv, RetryCovers, FlightOk, Overtaken;
    RunKeepsSingle(trace, steps, account, m);
    RunKeepsSingle(trace, steps, account, n);
    ServerStart(trace, steps, m, n);
    CopyStart(trace[m]);
    CopyStart(trace[n]);
  }

  /**
   The rebase check over any run, for a command created on the copy as it was at one
   moment and dispatched at a later one, its prior commands not yet shown when it was
   created. Without a review in between the check passes exactly when something came
   in between and all of it is prior. With one, a check that passes is right if and
   only if everything the user saw is still shown; what is not was decided upon in a
   review.
   */
  lemma RebaseSoundInRuns(
    trace: seq<System>, steps: seq<Step>, account: string, m: nat, n: nat, prior: set<string>)
    requires IsSingleFlightRun(trace, steps, account) && m <= n < |trace|
    requires prior * ToSet(AppliedIds(trace[m].replica.state)) == {}
    ensures var seen, current := trace[m].replica.state, trace[n].replica.state;
            && (NoReview(steps, m, n) ==>
                  (CanRebaseQueuedCommand(current, seen.revision, prior) <==>
                   Between(seen, current) != {} && Between(seen, current) <= prior))
            && (CanRebaseQueuedCommand(current, seen.revision, prior) ==>
                  (Between(seen, current) <= prior <==> Between(current, seen) == {}))
            && Between(current, seen) <= trace[n].resolved
  {
    hide Enabled, Next, Alone, Initial, CanRebaseQueuedCommand, Countable, AppliedIds;
    var seen, current := trace[m].replica.state, trace[n].replica.state;
    CopiesAreCountable(trace, steps, account, m, n);
    RebaseSound(seen, current, prior);
    RunKeepsShown(trace, steps, account, m, n);
    if NoReview(steps, m, n) {
      NothingBeyond(ToSet(AppliedIds(seen)), ToSet(AppliedIds(current)));
    }
  }

  /**
   A dispatched command that is created again on the latest copy, no review having
   been saved since the user saw the state it was meant for: only this tab's own
   commands came in between, and the new command fits.
   */
  lemma RebasedOnOwnChanges(trace: seq<System>, steps: seq<Step>, account: string, m: nat, n: nat)
    requires IsSingleFlightRun(trace, steps, account) && m <= n < |steps| && NoReview(steps, m, n)
    requires steps[n].DispatchStep? && !steps[n].explicitExpectations
    requires steps[n].envelope.baseRevision == trace[m].replica.state.revision
    requires steps[n].prior * ToSet(AppliedIds(trace[m].replica.state)) == {}
    requires EffectiveEnvelope(trace[n].replica.state, steps[n].envelope, false, steps[n].prior) != steps[n].envelope
    ensures var seen, current := trace[m].replica.state, trace[n].replica.state;
            && Between(current, seen) == {}
            && Between(seen, current) <= steps[n].prior
            && var effective := EffectiveEnvelope(current, steps[n].envelope, false, steps[n].prior);
               effective.baseRevision == current.revision && ExpectationsHold(current, effective.expectations)
  {
    hide Enabled, Next, Alone, Initial, CanRebaseQueuedCommand, Countable, AppliedIds, ExpectationsHold;
    CopiesAreCountable(trace, steps, account, m, n);
    RebaseSoundInRuns(trace, steps, account, m, n, steps[n].prior);
    RebasedDispatchFits(trace[m].replica.state, trace[n].replica.state, steps[n].envelope, steps[n].prior);
  }
}
