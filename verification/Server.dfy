/**
 The server's side of one sync request: commands are applied in order to the
 stored snapshot, a command already in its log is acknowledged without being
 applied again, and a refused one leaves the snapshot as it was. Loading the
 snapshot, applying the batch and the compare-and-swap are one atomic step.
 */
module Server {
  import opened Prelude
  import opened Domain

  datatype Status = Applied | Duplicate | Rejected

  datatype Receipt = Receipt(
    commandId: string,
    status: Status,
    revision: nat,
    message: Option<string>,
    conflicts: Option<seq<string>>)

  datatype Outcome = Outcome(state: State, receipts: seq<Receipt>)

  function ProblemText(problem: Problem): string {
    match problem
    case Conflict => "The command conflicts with a newer change"
    case WrongWorkspace => "WRONG_WORKSPACE"
    case RevisionAhead => "REVISION_AHEAD"
    case NoChanges => "NO_CHANGES"
    case PatchTargetMissing => "PATCH_TARGET_MISSING"
    case _ => "The command was refused"
  }

  /**
   A command written on top of earlier ones of the same batch names a revision
   the server has not reached when one of those was refused or repeated; it is
   then applied at the current revision.
   */
  function Rebased(e: Envelope, initialRevision: nat, handled: nat, state: State): Envelope {
    if e.baseRevision > state.revision && e.baseRevision <= initialRevision + handled then
      e.(baseRevision := state.revision)
    else
      e
  }

  function ServeOne(initialRevision: nat, handled: nat, state: State, e: Envelope): (State, Receipt) {
    if WasApplied(state, e.id) then
      (state, Receipt(e.id, Duplicate, state.revision, None, None))
    else
      match Apply(state, Rebased(e, initialRevision, handled, state))
      case Ok(next) => (next, Receipt(e.id, Applied, next.revision, None, None))
      case Err(problem) =>
        (state, Receipt(e.id, Rejected, state.revision, Some(ProblemText(problem)), None))
  }

  function Serve(initialRevision: nat, handled: nat, state: State, commands: seq<Envelope>): Outcome
    decreases |commands|
  {
    if commands == [] then
      Outcome(state, [])
    else
      var (next, receipt) := ServeOne(initialRevision, handled, state, commands[0]);
      var rest := Serve(initialRevision, handled + 1, next, commands[1..]);
      Outcome(rest.state, [receipt] + rest.receipts)
  }

  predicate SameWorkspace(state: State, commands: seq<Envelope>) {
    forall i | 0 <= i < |commands| :: commands[i].workspaceId == state.workspaceId
  }

  function SynchronizeResult(state: State, commands: seq<Envelope>): Result<Outcome, Problem> {
    if SameWorkspace(state, commands) then Ok(Serve(state.revision, 0, state, commands)) else Err(WrongWorkspace)
  }

  /** Serving from one position on, with the receipts given so far. */
  function ServedFrom(initial: State, i: nat, state: State, commands: seq<Envelope>, receipts: seq<Receipt>): Outcome
    requires i <= |commands|
  {
    var rest := Serve(initial.revision, i, state, commands[i..]);
    Outcome(rest.state, receipts + rest.receipts)
  }

  lemma ServedNext(initial: State, i: nat, state: State, commands: seq<Envelope>, receipts: seq<Receipt>)
    requires i < |commands|
    ensures var (next, receipt) := ServeOne(initial.revision, i, state, commands[i]);
            ServedFrom(initial, i, state, commands, receipts) ==
            ServedFrom(initial, i + 1, next, commands, receipts + [receipt])
  {
    hide ServeOne;
    assert commands[i..][0] == commands[i] && commands[i..][1..] == commands[i + 1..];
    var (next, receipt) := ServeOne(initial.revision, i, state, commands[i]);
    var rest := Serve(initial.revision, i + 1, next, commands[i + 1..]);
    assert receipts + ([receipt] + rest.receipts) == (receipts + [receipt]) + rest.receipts;
  }

  lemma ServedEnds(initial: State, state: State, commands: seq<Envelope>, receipts: seq<Receipt>)
    ensures ServedFrom(initial, |commands|, state, commands, receipts) == Outcome(state, receipts)
    ensures ServedFrom(initial, 0, initial, commands, []) == Serve(initial.revision, 0, initial, commands)
  {
    assert commands[|commands|..] == [] && receipts + [] == receipts;
    assert commands[0..] == commands;
    var all := Serve(initial.revision, 0, initial, commands);
    assert [] + all.receipts == all.receipts;
  }

  method Synchronize(initial: State, commands: seq<Envelope>) returns (r: Result<Outcome, Problem>)
    ensures r == SynchronizeResult(initial, commands)
  {
    hide Apply, WasApplied, Rebased, ProblemText, Serve, ServedFrom;
    if !SameWorkspace(initial, commands) {
      return Err(WrongWorkspace);
    }
    var state := initial;
    var receipts: seq<Receipt> := [];
    for i := 0 to |commands|
      invariant |receipts| == i
      invariant ServedFrom(initial, 0, initial, commands, []) == ServedFrom(initial, i, state, commands, receipts)
    {
      var e := commands[i];
      ServedNext(initial, i, state, commands, receipts);
      if WasApplied(state, e.id) {
        receipts := receipts + [Receipt(e.id, Duplicate, state.revision, None, None)];
      } else {
        var applied := Apply(state, Rebased(e, initial.revision, i, state));
        match applied {
          case Ok(next) =>
            state := next;
            receipts := receipts + [Receipt(e.id, Applied, next.revision, None, None)];
          case Err(problem) =>
            receipts := receipts + [Receipt(e.id, Rejected, state.revision, Some(ProblemText(problem)), None)];
        }
      }
    }
    ServedEnds(initial, state, commands, receipts);
    r := Ok(Outcome(state, receipts));
  }

  predicate Acknowledges(receipt: Receipt) {
    receipt.status == Applied || receipt.status == Duplicate
  }

  /** What serving a batch does to the history, for any batch on any state. */
  ghost predicate Served(before: State, after: State, commands: seq<Envelope>, receipts: seq<Receipt>) {
    && after.workspaceId == before.workspaceId
    && AppliedIds(before) <= AppliedIds(after)
    && after.revision - |after.log| == before.revision - |before.log|
    && (forall id | id in AppliedIds(after) && id !in AppliedIds(before) :: id in EnvelopeIds(commands))
    && |receipts| == |commands|
    && (forall i | 0 <= i < |receipts| :: receipts[i].commandId == commands[i].id)
    && (forall i | 0 <= i < |receipts| && Acknowledges(receipts[i]) :: commands[i].id in AppliedIds(after))
  }

  lemma ServeOneHistory(initialRevision: nat, handled: nat, state: State, e: Envelope)
    ensures var (next, receipt) := ServeOne(initialRevision, handled, state, e);
            && next.workspaceId == state.workspaceId
            && receipt.commandId == e.id
            && next.revision - |next.log| == state.revision - |state.log|
            && (AppliedIds(next) == AppliedIds(state) ||
                (e.id !in AppliedIds(state) && AppliedIds(next) == AppliedIds(state) + [e.id]))
            && (Acknowledges(receipt) ==> e.id in AppliedIds(next))
  {
    WasAppliedIsLogged(state, e.id);
    var rebased := Rebased(e, initialRevision, handled, state);
    assert rebased.id == e.id;
    var r := Apply(state, rebased);
    if r.Ok? {
      assert |AppliedIds(r.value)| == |AppliedIds(state)| + 1;
    }
  }

  lemma ServedThen(
    before: State, mid: State, after: State, e: Envelope, commands: seq<Envelope>, receipt: Receipt,
    receipts: seq<Receipt>)
    requires mid.workspaceId == before.workspaceId && receipt.commandId == e.id
    requires mid.revision - |mid.log| == before.revision - |before.log|
    requires AppliedIds(mid) == AppliedIds(before) || AppliedIds(mid) == AppliedIds(before) + [e.id]
    requires Acknowledges(receipt) ==> e.id in AppliedIds(mid)
    requires Served(mid, after, commands, receipts)
    ensures Served(before, after, [e] + commands, [receipt] + receipts)
  {
    assert EnvelopeIds([e] + commands) == [e.id] + EnvelopeIds(commands);
    forall i | 0 <= i < |receipts| + 1 && Acknowledges(([receipt] + receipts)[i])
      ensures ([e] + commands)[i].id in AppliedIds(after)
    {
      if i > 0 {
        assert Acknowledges(receipts[i - 1]) && commands[i - 1].id in AppliedIds(after);
      }
    }
  }

  lemma {:induction false} ServeHistory(initialRevision: nat, handled: nat, state: State, commands: seq<Envelope>)
    ensures var r := Serve(initialRevision, handled, state, commands);
            Served(state, r.state, commands, r.receipts)
    ensures NoDuplicates(AppliedIds(state)) ==>
              NoDuplicates(AppliedIds(Serve(initialRevision, handled, state, commands).state))
    decreases |commands|
  {
    hide ServeOne, Apply, Served, NoDuplicates;
    if commands == [] {
      NothingServed(state);
    } else {
      var (next, receipt) := ServeOne(initialRevision, handled, state, commands[0]);
      ServeOneHistory(initialRevision, handled, state, commands[0]);
      AppendedDistinct(AppliedIds(state), commands[0].id);
      ServeHistory(initialRevision, handled + 1, next, commands[1..]);
      var rest := Serve(initialRevision, handled + 1, next, commands[1..]);
      ServedThen(state, next, rest.state, commands[0], commands[1..], receipt, rest.receipts);
      assert commands == [commands[0]] + commands[1..];
    }
  }

  lemma NothingServed(state: State)
    ensures Served(state, state, [], [])
  {
  }

  lemma AppendedDistinct(ids: seq<string>, id: string)
    ensures NoDuplicates(ids) && id !in ids ==> NoDuplicates(ids + [id])
  {
  }

  /**
   The server never applies an identifier twice: whatever it is sent, however
   often, its log stays free of duplicates, and a positive receipt is only
   given for an identifier the log then holds.
   */
  lemma SynchronizeAtMostOnce(state: State, commands: seq<Envelope>)
    requires SynchronizeResult(state, commands).Ok?
    ensures var r := SynchronizeResult(state, commands).value;
            && Served(state, r.state, commands, r.receipts)
            && (NoDuplicates(AppliedIds(state)) ==> NoDuplicates(AppliedIds(r.state)))
  {
    ServeHistory(state.revision, 0, state, commands);
  }

  lemma {:induction false} ServeRepeated(initialRevision: nat, handled: nat, state: State, commands: seq<Envelope>)
    requires forall i | 0 <= i < |commands| :: WasApplied(state, commands[i].id)
    ensures var r := Serve(initialRevision, handled, state, commands);
            && r.state == state
            && |r.receipts| == |commands|
            && forall i | 0 <= i < |commands| ::
                 r.receipts[i].commandId == commands[i].id && r.receipts[i].status == Duplicate
    decreases |commands|
  {
    if commands == [] {
    } else {
      ServeRepeated(initialRevision, handled + 1, state, commands[1..]);
    }
  }

  /** A batch the server has fully applied is acknowledged and changes nothing. */
  lemma RepeatedBatchChangesNothing(state: State, commands: seq<Envelope>)
    requires SameWorkspace(state, commands)
    requires forall i | 0 <= i < |commands| :: WasApplied(state, commands[i].id)
    ensures var r := SynchronizeResult(state, commands).value;
            && r.state == state
            && |r.receipts| == |commands|
            && forall i | 0 <= i < |commands| ::
                 r.receipts[i].commandId == commands[i].id && r.receipts[i].status == Duplicate
  {
    ServeRepeated(state.revision, 0, state, commands);
  }
}
