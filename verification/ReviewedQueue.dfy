/**
 The main results about a whole review: what a finished one amounts to, what is
 saved on the device, and that going back to an earlier decision is exact.
 */
module ReviewedQueue {
  import opened Prelude
  import opened Domain
  import opened Access
  import opened LocalReplica
  import opened SyncReconciliation
  import opened ConflictReview
  import opened CommandWrites

  // ------------------------------------------------------ a finished review

  /** The new command is the original kind of command on the original record. */
  predicate SameSubject(original: Command, command: Command) {
    match original
    case Rename(_) => command.Rename?
    case ItemUpdate(id, _) => command.ItemUpdate? && command.id == id
    case LocationUpdate(id, _) => command.LocationUpdate? && command.id == id
    case BulkUpdate(updates) => command.BulkUpdate? &&
        (forall u | u in command.updates :: exists x | x in updates :: x.id == u.id)
    case Structural(_) => command == original
    case History(_) => false
  }

  /** A queued change taken over into the new queue. */
  predicate Reapplies(next: OutboxEntry, queued: OutboxEntry) {
    && SameSubject(queued.envelope.command, next.envelope.command)
    && next.envelope.deviceId == queued.envelope.deviceId
    && next.envelope.workspaceId == queued.envelope.workspaceId
    && next.status == Pending
  }

  /**
   The queue splits, in order, into accepted, skipped and reapplied changes. Each change
   the server lacks takes the next decision, which names it; reapplied are only changes
   whose decision is to apply them.
   */
  ghost predicate Splits(
    queue: seq<OutboxEntry>, server: State, decisions: seq<Decision>, accepted: seq<string>, skipped: seq<string>,
    reapplied: seq<OutboxEntry>)
    decreases |queue|
  {
    if queue == [] then
      decisions == [] && accepted == [] && skipped == [] && reapplied == []
    else
      var last := queue[|queue| - 1];
      var init := queue[..|queue| - 1];
      if WasApplied(server, last.envelope.id) then
        && accepted != [] && accepted[|accepted| - 1] == last.envelope.id
        && Splits(init, server, decisions, accepted[..|accepted| - 1], skipped, reapplied)
      else
        decisions != [] &&
        var decision, earlier := decisions[|decisions| - 1], decisions[..|decisions| - 1];
        && decision.commandId == last.envelope.id
        && (|| (skipped != [] && skipped[|skipped| - 1] == last.envelope.id &&
                Splits(init, server, earlier, accepted, skipped[..|skipped| - 1], reapplied))
            || (decision.action == ApplyChange && reapplied != [] && Reapplies(reapplied[|reapplied| - 1], last) &&
                Splits(init, server, earlier, accepted, skipped, reapplied[..|reapplied| - 1])))
  }

  /** The queued changes the server lacks, in order. */
  function Missing(queue: seq<OutboxEntry>, server: State): seq<OutboxEntry>
    decreases |queue|
  {
    if queue == [] then
      []
    else
      var last := queue[|queue| - 1];
      Missing(queue[..|queue| - 1], server) + (if WasApplied(server, last.envelope.id) then [] else [last])
  }

  /** Every change the server lacks has its decision, skipped ones stay out, and what is queued again was applied. */
  predicate DecidedInTurn(
    missing: seq<OutboxEntry>, decisions: seq<Decision>, skipped: seq<string>, reapplied: seq<OutboxEntry>)
  {
    && |decisions| == |missing|
    && (forall i | 0 <= i < |missing| :: decisions[i].commandId == missing[i].envelope.id)
    && (forall i | 0 <= i < |missing| ::
          decisions[i].action == SkipChange ==> missing[i].envelope.id in skipped)
    && (forall e | e in reapplied :: exists i | 0 <= i < |missing| ::
          decisions[i].action == ApplyChange && Reapplies(e, missing[i]))
    && (forall id | id in skipped :: exists i | 0 <= i < |missing| :: missing[i].envelope.id == id)
  }

  lemma {:induction false} ChosenFromUpdates(updates: seq<ItemChanges>, byRecord: ByRecord, selected: seq<ReviewField>)
    ensures forall u | u in ChosenUpdates(updates, byRecord, selected) :: exists x | x in updates :: x.id == u.id
  {
    hide BulkChanges;
    if updates == [] {
    } else {
      ChosenFromUpdates(updates[1..], byRecord, selected);
      forall u | u in ChosenUpdates(updates, byRecord, selected)
        ensures exists x | x in updates :: x.id == u.id
      {
        if u.id == updates[0].id {
          assert updates[0] in updates;
        } else {
          assert u in ChosenUpdates(updates[1..], byRecord, selected);
          var x :| x in updates[1..] && x.id == u.id;
          assert x in updates;
        }
      }
    }
  }

  lemma ChosenSameSubject(state: State, step: ReviewStep, decision: Decision)
    requires ChosenCommand(state, step, decision).Ok? && ChosenCommand(state, step, decision).value.Some?
    ensures SameSubject(step.entry.envelope.command, ChosenCommand(state, step, decision).value.value)
  {
    hide Fill, Selected, ChoicesMatch, ConflictsChosen, ChosenUpdates;
    var original := step.entry.envelope.command;
    var selected := Selected(step.fields, decision.choices);
    if step.kind == Fields {
      var byRecord := Fill(state, map[], selected).value;
      if original.BulkUpdate? {
        ChosenFromUpdates(original.updates, byRecord, selected);
      }
    }
  }

  /** One decision: the new entry is a fresh command for the same change, applied on top. */
  lemma DecidedEntry(state: State, step: ReviewStep, decision: Decision, options: Options)
    requires ApplyDecision(state, step, decision, options).Ok?
    requires step.entry.envelope.workspaceId == state.workspaceId
    ensures var decided := ApplyDecision(state, step, decision, options).value;
            if decided.entry.None? then
              decided.state == state
            else
              && Reapplies(decided.entry.value, step.entry)
              && Apply(state, decided.entry.value.envelope) == Ok(decided.state)
              && !WasApplied(state, decided.entry.value.envelope.id)
  {
    hide Apply, WasApplied, ChosenCommand, ExpectationsFor, SameSubject;
    var chosen := ChosenCommand(state, step, decision);
    if decision.action == ApplyChange && chosen.Ok? && chosen.value.Some? {
      ChosenSameSubject(state, step, decision);
    }
  }

  /** An accepted decision is the one for this change. */
  lemma DecidedInOrder(state: State, step: ReviewStep, decision: Decision, options: Options)
    ensures ApplyDecision(state, step, decision, options).Ok? ==> decision.commandId == step.entry.envelope.id
  {
    hide ChosenCommand, Apply, WasApplied;
  }

  /** For a field edit: every listed leaf keeps what is online, by choice or because it is the same. */
  predicate NothingSelected(step: ReviewStep, decision: Decision) {
    step.kind == Fields &&
      forall f | f in step.fields :: f.device == f.server || Chosen(decision.choices, f.key) == Some(ServerValue)
  }

  lemma {:induction false} SelectedEmpty(fields: seq<ReviewField>, choices: map<FieldKey, FieldChoice>)
    ensures Selected(fields, choices) == [] <==>
            forall f | f in fields :: f.device == f.server || Chosen(choices, f.key) == Some(ServerValue)
  {
    if fields == [] {
    } else {
      SelectedEmpty(fields[1..], choices);
      assert fields == [fields[0]] + fields[1..];
    }
  }

  /**
   An accepted decision does what the user chose. A change to skip is left out and
   leaves the state alone, whatever its kind; one to apply is left out exactly when
   nothing of it is selected or its command would change nothing.
   */
  lemma DecisionFollowsAction(state: State, step: ReviewStep, decision: Decision, options: Options, decided: Decided)
    requires ApplyDecision(state, step, decision, options) == Ok(decided)
    ensures decision.action == SkipChange || decision.action == ApplyChange
    ensures decision.action == SkipChange ==> decided == Decided(state, None)
    ensures decided.entry.None? ==> decided.state == state
    ensures decision.action == ApplyChange ==>
              (decided.entry.None? <==>
               || NothingSelected(step, decision)
               || (ChosenCommand(state, step, decision).value.Some? &&
                   CommandPatches(state, ChosenCommand(state, step, decision).value.value) == Err(NoChanges)))
    ensures decision.action == ApplyChange && step.kind == WholeCommand ==>
              ChosenCommand(state, step, decision) == Ok(Some(step.entry.envelope.command))
  {
    hide CommandPatches, ApplyPatches, WasApplied, Fill, Rebuild, Selected, ChoicesMatch, ConflictsChosen,
         ExpectationsFor, ExpectationsHold;
    SelectedEmpty(step.fields, decision.choices);
    var chosen := ChosenCommand(state, step, decision);
    if chosen.Ok? && chosen.value.Some? {
      CreatedExpectationsHold(state, chosen.value.value);
      if CommandPatches(state, chosen.value.value).Ok? {
        PatchesNeverNoChanges(state.records, CommandPatches(state, chosen.value.value).value);
      }
    }
  }

  /**
   A change is only applied with answers that fit it: every choice is a valid one for a
   leaf that is listed, every conflict has one, and a changed context was confirmed
   before anything is queued. A history command is never applied.
   */
  lemma AnswersFit(state: State, step: ReviewStep, decision: Decision, options: Options, decided: Decided)
    requires ApplyDecision(state, step, decision, options) == Ok(decided) && decision.action == ApplyChange
    ensures !step.entry.envelope.command.History?
    ensures forall key | key in decision.choices ::
              && (decision.choices[key] == DeviceValue || decision.choices[key] == ServerValue)
              && exists f | f in step.fields :: f.key == key
    ensures step.kind == Fields ==> forall f | f in step.fields && f.conflict :: f.key in decision.choices
    ensures decided.entry.Some? && step.context != [] ==> decision.acceptContext
  {
    hide WasApplied, Apply, Fill, Rebuild, Selected, ExpectationsFor;
    forall key | key in decision.choices
      ensures exists f | f in step.fields :: f.key == key
    {
      var i :| 0 <= i < |step.fields| && step.fields[i].key == key;
      assert step.fields[i] in step.fields;
    }
  }

  /**
   What a reapplied change is queued as: a new command of the account that reviews, for
   the state it is applied to, with the identifier asked for or a fresh prefixed one.
   */
  lemma ReappliedEnvelope(state: State, step: ReviewStep, decision: Decision, options: Options, decided: Decided)
    requires ApplyDecision(state, step, decision, options) == Ok(decided) && decided.entry.Some?
    ensures var queued, entry := step.entry, decided.entry.value;
            && ChosenCommand(state, step, decision) == Ok(Some(entry.envelope.command))
            && entry.status == Pending && entry.error == None
            && entry.accountId == (if options.accountId.Some? then Account(options.accountId.value)
                                   else queued.accountId)
            && entry.envelope.actorId == options.actorId.GetOr(queued.envelope.actorId)
            && entry.envelope.timestamp == options.timestamp.GetOr(queued.envelope.timestamp)
            && entry.envelope.deviceId == queued.envelope.deviceId
            && entry.envelope.authorization == options.authorization
            && entry.envelope.workspaceId == state.workspaceId && entry.envelope.baseRevision == state.revision
            && (decision.newId.Some? ==> entry.envelope.id == decision.newId.value)
            && (decision.newId.None? ==>
                  exists n | n > 0 :: entry.envelope.id == Prefixed(n, queued.envelope.id) &&
                    forall k | 0 < k < n :: WasApplied(state, Prefixed(k, queued.envelope.id)))
            && !WasApplied(state, entry.envelope.id)
            && ExpectationsHold(state, entry.envelope.expectations)
  {
    hide ChosenCommand, Apply, ExpectationsFor, WasApplied, ExpectationsHold;
    var id := step.entry.envelope.id;
    assert Prefixed(1, id) == "review_" + Prefixed(0, id);
    var n := FreshIsFirst(state, id, 1);
    CreatedExpectationsHold(state, decided.entry.value.envelope.command);
  }

  lemma {:induction false} FreshIsFirst(state: State, id: string, n: nat) returns (m: nat)
    requires n > 0 && forall k | 0 < k < n :: WasApplied(state, Prefixed(k, id))
    ensures m > 0 && FreshReviewId(state, Prefixed(n, id)) == Prefixed(m, id)
    ensures forall k | 0 < k < m :: WasApplied(state, Prefixed(k, id))
    decreases LongestId(state.log) - |Prefixed(n, id)|
  {
    hide WasApplied;
    if !WasApplied(state, Prefixed(n, id)) {
      m := n;
    } else {
      assert Prefixed(n + 1, id) == "review_" + Prefixed(n, id);
      LoggedLength(state, Prefixed(n, id));
      m := FreshIsFirst(state, id, n + 1);
    }
  }

  lemma LoggedLength(state: State, id: string)
    requires WasApplied(state, id)
    ensures |id| <= LongestId(state.log)
  {
  }

  lemma StepIsFor(replica: Replica, state: State, entry: OutboxEntry, index: nat)
    requires StepFor(replica, state, entry, index).Ok?
    ensures StepFor(replica, state, entry, index).value.entry == entry
  {
    hide EditablePatches, ChangedContext, EditedFields, LoggedFields;
  }

  ghost predicate Rebuilt(server: State, p: Projection) {
    && Replay(server, Envelopes(p.outbox)) == Ok(p.state)
    && NoDuplicates(EntryIds(p.outbox))
    && (forall e | e in p.outbox :: e.status == Pending && e.envelope.workspaceId == server.workspaceId)
    && (forall id | id in EntryIds(p.outbox) :: !WasApplied(server, id))
    && p.used == |p.skipped| + |p.outbox|
  }

  lemma AppendRebuilt(server: State, p: Projection, entry: OutboxEntry, next: State)
    requires Rebuilt(server, p)
    requires Apply(p.state, entry.envelope) == Ok(next) && !WasApplied(p.state, entry.envelope.id)
    requires entry.status == Pending && entry.envelope.workspaceId == server.workspaceId
    ensures Rebuilt(server, p.(state := next, outbox := p.outbox + [entry], used := p.used + 1))
  {
    hide Apply, WasApplied;
    var outbox := p.outbox + [entry];
    var id := entry.envelope.id;
    ReplayAppend(server, Envelopes(p.outbox), entry.envelope);
    assert Envelopes(outbox) == Envelopes(p.outbox) + [entry.envelope];
    assert EntryIds(outbox) == EntryIds(p.outbox) + [id];
    WasAppliedIsLogged(p.state, id);
    WasAppliedIsLogged(server, id);
    assert EnvelopeIds(Envelopes(p.outbox)) == EntryIds(p.outbox);
    assert AppliedIds(p.state) == AppliedIds(server) + EntryIds(p.outbox);
  }

  lemma {:induction false} ReviewFirstRebuilds(
    replica: Replica, server: State, decisions: seq<Decision>, options: Options, n: nat)
    requires n <= |replica.outbox| && ReviewFirst(replica, server, decisions, options, n).Ok?
    ensures Rebuilt(server, ReviewFirst(replica, server, decisions, options, n).value)
  {
    hide ReviewEntry, Rebuilt;
    if n == 0 {
      NothingRebuilt(server);
    } else {
      ReviewFirstRebuilds(replica, server, decisions, options, n - 1);
      var p := ReviewFirst(replica, server, decisions, options, n - 1).value;
      if p.next.None? {
        EntryRebuilds(replica, server, decisions, options, n - 1, p);
      }
    }
  }

  lemma NothingRebuilt(server: State)
    ensures Rebuilt(server, Projection([], [], None, [], server, 0))
  {
  }

  lemma EntryRebuilds(
    replica: Replica, server: State, decisions: seq<Decision>, options: Options, index: nat, p: Projection)
    requires index < |replica.outbox| && Rebuilt(server, p)
    requires ReviewEntry(replica, server, decisions, options, index, p).Ok?
    ensures Rebuilt(server, ReviewEntry(replica, server, decisions, options, index, p).value)
  {
    hide StepFor, ApplyDecision, WasApplied, Apply;
    var entry := replica.outbox[index];
    if !WasApplied(server, entry.envelope.id) && p.used < |decisions| {
      var step := StepFor(replica, p.state, entry, index).value;
      StepIsFor(replica, p.state, entry, index);
      var decision := decisions[p.used];
      DecidedEntry(p.state, step, decision, options);
      var decided := ApplyDecision(p.state, step, decision, options).value;
      if decided.entry.Some? {
        AppendRebuilt(server, p, decided.entry.value, decided.state);
      }
    }
  }

  /** One reviewed entry extends the accepted, the skipped or the rebuilt part of the queue. */
  lemma EntrySplits(
    replica: Replica, server: State, decisions: seq<Decision>, options: Options, index: nat, p: Projection)
    requires index < |replica.outbox| && Rebuilt(server, p)
    requires p.used <= |decisions|
    requires Splits(replica.outbox[..index], server, decisions[..p.used], p.accepted, p.skipped, p.outbox)
    requires ReviewEntry(replica, server, decisions, options, index, p).Ok?
    requires ReviewEntry(replica, server, decisions, options, index, p).value.next.None?
    ensures var next := ReviewEntry(replica, server, decisions, options, index, p).value;
            next.used <= |decisions| &&
            Splits(replica.outbox[..index + 1], server, decisions[..next.used], next.accepted, next.skipped,
                   next.outbox)
  {
    hide StepFor, ApplyDecision, WasApplied, Apply, Rebuilt, Reapplies;
    var next := ReviewEntry(replica, server, decisions, options, index, p).value;
    assert replica.outbox[..index + 1][..index] == replica.outbox[..index];
    var entry := replica.outbox[index];
    if WasApplied(server, entry.envelope.id) {
      assert next.accepted[..|next.accepted| - 1] == p.accepted;
    } else {
      var step := StepFor(replica, p.state, entry, index).value;
      StepIsFor(replica, p.state, entry, index);
      RebuiltWorkspace(server, p);
      DecidedEntry(p.state, step, decisions[p.used], options);
      DecidedInOrder(p.state, step, decisions[p.used], options);
      var decided := ApplyDecision(p.state, step, decisions[p.used], options).value;
      DecisionFollowsAction(p.state, step, decisions[p.used], options, decided);
      assert decisions[..next.used][..p.used] == decisions[..p.used];
      if decided.entry.Some? {
        assert next.outbox[..|next.outbox| - 1] == p.outbox;
      } else {
        assert next.skipped[..|next.skipped| - 1] == p.skipped;
      }
    }
  }

  lemma {:induction false} ReviewFirstSplits(
    replica: Replica, server: State, decisions: seq<Decision>, options: Options, n: nat)
    requires n <= |replica.outbox| && ReviewFirst(replica, server, decisions, options, n).Ok?
    requires ReviewFirst(replica, server, decisions, options, n).value.next.None?
    ensures var p := ReviewFirst(replica, server, decisions, options, n).value;
            p.used <= |decisions| &&
            Splits(replica.outbox[..n], server, decisions[..p.used], p.accepted, p.skipped, p.outbox)
  {
    hide ReviewEntry, Rebuilt;
    if n == 0 {
    } else {
      var p := ReviewFirst(replica, server, decisions, options, n - 1).value;
      ReviewFirstSplits(replica, server, decisions, options, n - 1);
      ReviewFirstRebuilds(replica, server, decisions, options, n - 1);
      EntrySplits(replica, server, decisions, options, n - 1, p);
    }
  }

  lemma RebuiltWorkspace(server: State, p: Projection)
    requires Rebuilt(server, p)
    ensures p.state.workspaceId == server.workspaceId
  {
    hide Apply, WasApplied;
  }

  /** The accepted changes of a split queue are exactly those the server has, each skipped or reapplied one it lacks. */
  lemma {:induction false} SplitAccepts(
    queue: seq<OutboxEntry>, server: State, decisions: seq<Decision>, accepted: seq<string>, skipped: seq<string>,
    reapplied: seq<OutboxEntry>)
    requires Splits(queue, server, decisions, accepted, skipped, reapplied)
    ensures |queue| == |accepted| + |skipped| + |reapplied|
    ensures forall e | e in queue :: e.envelope.id in accepted <==> WasApplied(server, e.envelope.id)
    ensures forall id | id in accepted :: WasApplied(server, id)
    ensures forall id | id in skipped :: !WasApplied(server, id)
    decreases |queue|
  {
    hide WasApplied, Reapplies;
    if queue == [] {
    } else {
      var last := queue[|queue| - 1];
      var init := queue[..|queue| - 1];
      assert queue == init + [last];
      if WasApplied(server, last.envelope.id) {
        assert accepted == accepted[..|accepted| - 1] + [last.envelope.id];
        SplitAccepts(init, server, decisions, accepted[..|accepted| - 1], skipped, reapplied);
      } else if skipped != [] && skipped[|skipped| - 1] == last.envelope.id &&
                Splits(init, server, decisions[..|decisions| - 1], accepted, skipped[..|skipped| - 1], reapplied) {
        assert skipped == skipped[..|skipped| - 1] + [last.envelope.id];
        SplitAccepts(init, server, decisions[..|decisions| - 1], accepted, skipped[..|skipped| - 1], reapplied);
      } else {
        SplitAccepts(init, server, decisions[..|decisions| - 1], accepted, skipped, reapplied[..|reapplied| - 1]);
      }
    }
  }

  /** A split queue follows the decisions. */
  lemma {:induction false} SplitDecides(
    queue: seq<OutboxEntry>, server: State, decisions: seq<Decision>, accepted: seq<string>, skipped: seq<string>,
    reapplied: seq<OutboxEntry>)
    requires Splits(queue, server, decisions, accepted, skipped, reapplied)
    ensures DecidedInTurn(Missing(queue, server), decisions, skipped, reapplied)
    decreases |queue|
  {
    hide WasApplied, Reapplies, DecidedInTurn;
    if queue == [] {
      NothingDecided();
    } else {
      var last := queue[|queue| - 1];
      var init := queue[..|queue| - 1];
      if WasApplied(server, last.envelope.id) {
        SplitDecides(init, server, decisions, accepted[..|accepted| - 1], skipped, reapplied);
        assert Missing(queue, server) == Missing(init, server);
      } else {
        var decision, earlier := decisions[|decisions| - 1], decisions[..|decisions| - 1];
        assert decisions == earlier + [decision];
        if skipped != [] && skipped[|skipped| - 1] == last.envelope.id &&
           Splits(init, server, earlier, accepted, skipped[..|skipped| - 1], reapplied) {
          SplitDecides(init, server, earlier, accepted, skipped[..|skipped| - 1], reapplied);
          assert skipped == skipped[..|skipped| - 1] + [last.envelope.id];
          DecidedNext(Missing(init, server), earlier, skipped[..|skipped| - 1], reapplied, last, decision, None);
        } else {
          var e := reapplied[|reapplied| - 1];
          SplitDecides(init, server, earlier, accepted, skipped, reapplied[..|reapplied| - 1]);
          assert reapplied == reapplied[..|reapplied| - 1] + [e];
          DecidedNext(Missing(init, server), earlier, skipped, reapplied[..|reapplied| - 1], last, decision, Some(e));
        }
      }
    }
  }

  lemma NothingDecided()
    ensures DecidedInTurn([], [], [], [])
  {
  }

  lemma DecidedNext(
    missing: seq<OutboxEntry>, decisions: seq<Decision>, skipped: seq<string>, reapplied: seq<OutboxEntry>,
    last: OutboxEntry, decision: Decision, e: Option<OutboxEntry>)
    requires DecidedInTurn(missing, decisions, skipped, reapplied) && decision.commandId == last.envelope.id
    requires e.Some? ==> decision.action == ApplyChange && Reapplies(e.value, last)
    ensures DecidedInTurn(missing + [last], decisions + [decision],
                          if e.None? then skipped + [last.envelope.id] else skipped,
                          if e.Some? then reapplied + [e.value] else reapplied)
  {
    hide Reapplies;
    var m, d := missing + [last], decisions + [decision];
    var s := if e.None? then skipped + [last.envelope.id] else skipped;
    var r := if e.Some? then reapplied + [e.value] else reapplied;
    assert m[|missing|] == last && d[|missing|] == decision;
    forall x | x in r
      ensures exists i | 0 <= i < |m| :: d[i].action == ApplyChange && Reapplies(x, m[i])
    {
      if x in reapplied {
        var i :| 0 <= i < |missing| && decisions[i].action == ApplyChange && Reapplies(x, missing[i]);
        assert m[i] == missing[i] && d[i] == decisions[i];
      }
    }
    forall id | id in s
      ensures exists i | 0 <= i < |m| :: m[i].envelope.id == id
    {
      if id in skipped {
        var i :| 0 <= i < |missing| && missing[i].envelope.id == id;
        assert m[i] == missing[i];
      }
    }
    forall i | 0 <= i < |m|
      ensures d[i].commandId == m[i].envelope.id
      ensures d[i].action == SkipChange ==> m[i].envelope.id in s
    {
      if i < |missing| {
        assert m[i] == missing[i] && d[i] == decisions[i];
      }
    }
  }

  /**
   A finished review: the result is the new queue replayed over the server's
   state, the old queue splits in order into accepted, skipped and reapplied
   changes, the accepted ones are exactly those the server already had, every other
   one follows its decision, and every new identifier is distinct and unused by the
   server.
   */
  lemma FinishedReview(replica: Replica, server: State, decisions: seq<Decision>, options: Options)
    requires Project(replica, server, decisions, options).Ok?
    requires Project(replica, server, decisions, options).value.next.None?
    ensures var p := Project(replica, server, decisions, options).value;
            && Replay(server, Envelopes(p.outbox)) == Ok(p.state)
            && Splits(replica.outbox, server, decisions, p.accepted, p.skipped, p.outbox)
            && DecidedInTurn(Missing(replica.outbox, server), decisions, p.skipped, p.outbox)
            && (forall e | e in replica.outbox :: e.envelope.id in p.accepted <==> WasApplied(server, e.envelope.id))
            && NoDuplicates(EntryIds(p.outbox))
            && (forall id | id in EntryIds(p.outbox) :: !WasApplied(server, id))
            && |decisions| == |p.skipped| + |p.outbox|
  {
    hide StepFor, ApplyDecision, WasApplied, Apply, Splits, ReviewFirst;
    var n := |replica.outbox|;
    assert replica.outbox[..n] == replica.outbox;
    ReviewFirstRebuilds(replica, server, decisions, options, n);
    ReviewFirstSplits(replica, server, decisions, options, n);
    var p := Project(replica, server, decisions, options).value;
    assert decisions[..p.used] == decisions;
    SplitAccepts(replica.outbox, server, decisions, p.accepted, p.skipped, p.outbox);
    SplitDecides(replica.outbox, server, decisions, p.accepted, p.skipped, p.outbox);
  }

  lemma {:induction false} FirstConsistent(
    replica: Replica, server: State, decisions: seq<Decision>, options: Options, n: nat)
    requires n <= |replica.outbox| && ReviewFirst(replica, server, decisions, options, n).Ok?
    requires ReviewFirst(replica, server, decisions, options, n).value.next.None?
    ensures forall i | 0 <= i < n :: replica.outbox[i].envelope.workspaceId == server.workspaceId
    ensures forall i, j | 0 <= i < j < n :: replica.outbox[i].envelope.id != replica.outbox[j].envelope.id
  {
    hide ReviewMissing, WasApplied;
    if n == 0 {
    } else {
      FirstConsistent(replica, server, decisions, options, n - 1);
    }
  }

  /** Only a queue of one workspace whose identifiers are distinct can be reviewed to its end. */
  lemma ReviewedQueueIsConsistent(replica: Replica, server: State, decisions: seq<Decision>, options: Options)
    requires Project(replica, server, decisions, options).Ok?
    requires Project(replica, server, decisions, options).value.next.None?
    ensures replica.state.workspaceId == server.workspaceId
    ensures forall e | e in replica.outbox :: e.envelope.workspaceId == server.workspaceId
    ensures NoDuplicates(EntryIds(replica.outbox))
  {
    hide ReviewFirst;
    FirstConsistent(replica, server, decisions, options, |replica.outbox|);
  }

  // -------------------------------------------------------- the saved review

  /** The copy the recovery page writes after a finished review. */
  function SavedReview(
    replica: Replica, server: State, access: AccessState, summary: Option<Summary>, reviewed: Projection,
    timestamp: string)
    : Replica
  {
    Replica(reviewed.state, reviewed.outbox, access, summary, replica.lastSyncAttemptAt, None,
            if reviewed.outbox != [] then replica.lastSyncedAt else Some(timestamp), timestamp)
  }

  /** The saved copy has the access it was reviewed with, no error, and is synced only with nothing to reapply. */
  lemma SavedReviewRecords(
    replica: Replica, server: State, access: AccessState, summary: Option<Summary>, reviewed: Projection,
    timestamp: string)
    ensures var saved := SavedReview(replica, server, access, summary, reviewed, timestamp);
            && saved.state == reviewed.state && saved.outbox == reviewed.outbox
            && saved.authorization == access && saved.serverSummary == summary
            && saved.lastSyncError == None && saved.updatedAt == timestamp
            && saved.lastSyncAttemptAt == replica.lastSyncAttemptAt
            && saved.lastSyncedAt == (if reviewed.outbox == [] then Some(timestamp) else replica.lastSyncedAt)
  {
  }

  /**
   The saved copy is exportable and exact: nothing is blocked, it is the new queue
   replayed over the server's state, and its confirmed revision is the server's.
   */
  lemma SavedReviewIsExact(
    replica: Replica, server: State, decisions: seq<Decision>, options: Options,
    access: AccessState, summary: Option<Summary>, timestamp: string)
    requires Project(replica, server, decisions, options).Ok?
    requires Project(replica, server, decisions, options).value.next.None?
    ensures var saved := SavedReview(replica, server, access, summary,
                                     Project(replica, server, decisions, options).value, timestamp);
            && Exportable(saved)
            && !AnyBlocked(saved.outbox)
            && Replay(server, Envelopes(saved.outbox)) == Ok(saved.state)
            && ConfirmedRevision(saved) == server.revision
            && (NoDuplicates(AppliedIds(server)) ==> NoDuplicates(AppliedIds(saved.state)))
  {
    hide StepFor, ApplyDecision, WasApplied, Apply, Splits, ReviewFirst;
    FinishedReview(replica, server, decisions, options);
    ReviewFirstRebuilds(replica, server, decisions, options, |replica.outbox|);
    var p := Project(replica, server, decisions, options).value;
    var saved := SavedReview(replica, server, access, summary, p, timestamp);
    forall i | 0 <= i < |p.outbox|
      ensures p.outbox[i].envelope.workspaceId == server.workspaceId && p.outbox[i].status == Pending
      ensures EntryIds(p.outbox)[i] !in AppliedIds(server)
    {
      assert p.outbox[i] in p.outbox;
      assert EntryIds(p.outbox)[i] in EntryIds(p.outbox);
      WasAppliedIsLogged(server, EntryIds(p.outbox)[i]);
    }
    ReplayedIsExportable(server, p.outbox, saved);
    assert EnvelopeIds(Envelopes(p.outbox)) == EntryIds(p.outbox);
    assert AppliedIds(p.state) == AppliedIds(server) + EntryIds(p.outbox);
  }

  // ------------------------------------------------------------- going back

  predicate PrefixOf(shorter: Projection, longer: Projection) {
    && shorter.accepted <= longer.accepted
    && shorter.skipped <= longer.skipped
    && shorter.outbox <= longer.outbox
  }

  /** With fewer decisions, one entry is reviewed the same way or becomes the step waiting for the next decision. */
  ghost predicate StopsShort(
    longer: Projection, shorter: Result<Projection, Problem>, decisions: seq<Decision>, k: nat)
    requires k <= |decisions|
  {
    && shorter.Ok?
    && longer.used <= |decisions|
    && (longer.next.Some? ==> longer.used == |decisions|)
    && (longer.used <= k && (longer.next.None? || longer.used == k) ==> shorter == Ok(longer))
    && (longer.used > k ==>
          && PrefixOf(shorter.value, longer)
          && shorter.value.used == k
          && shorter.value.next.Some?
          && shorter.value.next.value.entry.envelope.id == decisions[k].commandId)
  }

  lemma EntryPrefix(
    replica: Replica, server: State, decisions: seq<Decision>, options: Options, k: nat, index: nat, p: Projection)
    requires k <= |decisions| && index < |replica.outbox| && p.used <= k && p.next.None?
    requires ReviewEntry(replica, server, decisions, options, index, p).Ok?
    ensures StopsShort(ReviewEntry(replica, server, decisions, options, index, p).value,
                       ReviewEntry(replica, server, decisions[..k], options, index, p), decisions, k)
  {
    hide StepFor, WasApplied, ApplyDecision, InconsistentEntry;
    var planned := StepFor(replica, p.state, replica.outbox[index], index);
    if p.used < |decisions| && planned.Ok? {
      StepIsFor(replica, p.state, replica.outbox[index], index);
      DecidedInOrder(p.state, planned.value, decisions[p.used], options);
    }
  }

  lemma EntryGrows(
    replica: Replica, server: State, decisions: seq<Decision>, options: Options, index: nat, p: Projection)
    requires index < |replica.outbox| && p.used <= |decisions| && p.next.None?
    requires ReviewEntry(replica, server, decisions, options, index, p).Ok?
    ensures var next := ReviewEntry(replica, server, decisions, options, index, p).value;
            && PrefixOf(p, next) && p.used <= next.used <= |decisions|
            && (next.next.Some? ==> next.used == |decisions|)
  {
    hide StepFor, WasApplied, ApplyDecision;
  }

  /** Fewer decisions stop the same review at the step the next decision names. */
  lemma {:induction false} ReviewPrefix(
    replica: Replica, server: State, decisions: seq<Decision>, options: Options, k: nat, n: nat)
    requires k <= |decisions| && n <= |replica.outbox|
    requires ReviewFirst(replica, server, decisions, options, n).Ok?
    ensures StopsShort(ReviewFirst(replica, server, decisions, options, n).value,
                       ReviewFirst(replica, server, decisions[..k], options, n), decisions, k)
  {
    hide ReviewEntry;
    if n == 0 {
    } else {
      ReviewPrefix(replica, server, decisions, options, k, n - 1);
      var before := ReviewFirst(replica, server, decisions, options, n - 1).value;
      if before.next.None? {
        if before.used <= k {
          EntryPrefix(replica, server, decisions, options, k, n - 1, before);
        } else {
          EntryGrows(replica, server, decisions, options, n - 1, before);
        }
      }
    }
  }

  /**
   Going back is exact: dropping the last decisions of a review that projects
   gives a review that projects too, with prefixes of the same lists, waiting for
   the very change the first dropped decision names.
   */
  lemma GoingBackIsExact(replica: Replica, server: State, decisions: seq<Decision>, options: Options, k: nat)
    requires Project(replica, server, decisions, options).Ok? && k < |decisions|
    ensures Project(replica, server, decisions[..k], options).Ok?
    ensures var longer := Project(replica, server, decisions, options).value;
            var shorter := Project(replica, server, decisions[..k], options).value;
            && PrefixOf(shorter, longer)
            && shorter.next.Some?
            && shorter.next.value.entry.envelope.id == decisions[k].commandId
  {
    hide StepFor, WasApplied, ApplyDecision, ReviewFirst;
    ReviewPrefix(replica, server, decisions, options, k, |replica.outbox|);
  }
}
