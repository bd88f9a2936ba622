/**
 A run in which a saved review misleads the rebase check. The user sees one change of
 this device; the review takes it away while another device's change came in, so the
 revision is the same as before, and the next queued change makes the count fit.
 */
module ReviewedRebase {
  import opened Prelude
  import opened Json
  import opened Domain
  import opened Server
  import opened Access
  import opened LocalReplica
  import opened Store
  import opened ConflictReview
  import opened ItemEdits
  import opened ReviewedQueue
  import opened Protocol
  import opened SingleFlight

  const USER: AccountTag := Account("user")
  const ACCESS: AccessState :=
    AccessState(ServerBacked, USER, 0, 0, Active, None, Capabilities(true, true, true, true, true))
  const OPTIONS: Options := Options(None, None, None, None)
  const SKIP: Decision := Decision("x", SkipChange, map[], false, None)

  const DOWNLOADED: State := State("ws", 0, map[ITEM := map[
    "category" := Str("tools"), "name" := Str("hammer"), "unit" := Str("piece")]], [])

  // ------------------------------------------------------------- the steps

  function EditStep(seen: State, id: string, key: string, value: string, prior: set<string>): Step {
    DispatchStep(EditEnvelope(seen, id, key, value), false, prior, USER, "")
  }

  /** What every state of the run has in common: nothing was sent, and the user may write. */
  predicate Quiet(sys: System) {
    && sys.replica.authorization == ACCESS
    && sys.replica.state.workspaceId == sys.server.workspaceId == "ws"
    && sys.flight == None
  }

  lemma EditQueued(sys: System, seen: State, id: string, key: string, value: string)
    requires Quiet(sys) && id !in sys.dispatched && id !in AppliedIds(sys.server)
    requires seen.workspaceId == "ws" && seen.revision <= sys.replica.state.revision
    requires ITEM in seen.records && ITEM in sys.replica.state.records && key in ITEM_KEYS
    requires Field(sys.replica.state, key) == Field(seen, key) != Some(Str(value))
    ensures var step := EditStep(seen, id, key, value, {});
            && Enabled(sys, step) && Alone(sys, step, "user")
            && var s, next := sys.replica.state, Next(sys, step);
               && Quiet(next) && next.server == sys.server && next.dispatched == sys.dispatched + {id}
               && next.replica.outbox ==
                  sys.replica.outbox + [OutboxEntry(USER, EditEnvelope(seen, id, key, value), Pending, None)]
               && next.replica.state.revision == s.revision + 1
               && AppliedIds(next.replica.state) == AppliedIds(s) + [id]
               && next.replica.state.records == s.records[ITEM := s.records[ITEM][key := Str(value)]]
  {
    hide Apply, CanRebaseQueuedCommand, ExpectationsFor, Field;
    NoPriorCommands(sys.replica.state, seen.revision);
    EditApplies(seen, sys.replica.state, id, key, value);
  }

  /** Another device's edit reaches the server. */
  lemma EditServed(sys: System, id: string, key: string, value: string)
    requires Quiet(sys) && id !in sys.dispatched && id !in AppliedIds(sys.server)
    requires ITEM in sys.server.records && key in ITEM_KEYS && Field(sys.server, key) != Some(Str(value))
    ensures var step := ForeignStep([EditEnvelope(sys.server, id, key, value)]);
            && Enabled(sys, step) && Alone(sys, step, "user")
            && var s, next := sys.server, Next(sys, step);
               && Quiet(next) && next.replica == sys.replica && next.dispatched == sys.dispatched
               && next.server.revision == s.revision + 1
               && AppliedIds(next.server) == AppliedIds(s) + [id]
               && next.server.records == s.records[ITEM := s.records[ITEM][key := Str(value)]]
  {
    hide Apply, ExpectationsFor, Field;
    var e := EditEnvelope(sys.server, id, key, value);
    EditApplies(sys.server, sys.server, id, key, value);
    WasAppliedIsLogged(sys.server, id);
    assert [e][1..] == [];
    assert Serve(sys.server.revision, 1, Apply(sys.server, e).value, []).state == Apply(sys.server, e).value;
  }

  lemma CategoryIsSafe()
    ensures !UnsafeKey("category") && "category" !in LEAF_GROUPS
  {
    var key := "category";
    assert forall k | k in UNSAFE_KEYS + LEAF_GROUPS :: |k| != |key|;
  }

  lemma EditIsEditable(envelope: Envelope, value: string)
    requires envelope.command == ItemUpdate("i", map["category" := Str(value)])
    ensures EditablePatches(envelope) ==
            Ok(Some([Edit(FieldKey(Item, "i", ["category"]), Some(Str(value)))]))
  {
    hide UnsafeKey;
    var changes: Record := map["category" := Str(value)];
    assert changes.Keys == {"category"};
    OneKey("category");
    CategoryIsSafe();
    var edit := Edit(FieldKey(Item, "i", ["category"]), Some(Str(value)));
    assert ["category"][1..] == [];
    assert KeyEdits(Item, "i", "category", Str(value)) == Ok([edit]);
    assert ChangesFor(Item, "i", changes, []) == Ok([]);
    assert ChangesFor(Item, "i", changes, ["category"]) == Ok([edit] + []);
    assert [edit] + [] == [edit];
  }

  lemma EditIsReviewed(replica: Replica, state: State, entry: OutboxEntry, index: nat, value: string)
    requires entry.envelope.command == ItemUpdate("i", map["category" := Str(value)])
    ensures StepFor(replica, state, entry, index).Ok?
  {
    hide ChangedContext, ExpectedValue, ReadKey, EditablePatches;
    EditIsEditable(entry.envelope, value);
    var edit := Edit(FieldKey(Item, "i", ["category"]), Some(Str(value)));
    assert [edit][1..] == [];
    assert EditedFields(state, entry.envelope.expectations, []).Ok?;
  }

  const REVIEW: Step := SaveReviewStep([SKIP], OPTIONS, ACCESS, None, "")

  /** The review skips the only queued change. */
  lemma ChangeSkipped(sys: System, value: string)
    requires Quiet(sys) && sys.loaded == Some(sys.server) && "x" !in AppliedIds(sys.server)
    requires |sys.replica.outbox| == 1
    requires var e := sys.replica.outbox[0].envelope;
             e.id == "x" && e.workspaceId == "ws" && e.command == ItemUpdate("i", map["category" := Str(value)])
    ensures Enabled(sys, REVIEW) && Alone(sys, REVIEW, "user")
    ensures var next := Next(sys, REVIEW);
            && Quiet(next) && next.replica.state == sys.server && next.replica.outbox == []
            && next.server == sys.server && next.dispatched == sys.dispatched
  {
    hide StepFor, WasApplied;
    assert "user"[0] == 'u' && !IsSpace('u');
    var entry := sys.replica.outbox[0];
    EditIsReviewed(sys.replica, sys.server, entry, 0, value);
    StepIsFor(sys.replica, sys.server, entry, 0);
    WasAppliedIsLogged(sys.server, "x");
    var start := Projection([], [], None, [], sys.server, 0);
    assert ReviewFirst(sys.replica, sys.server, [SKIP], OPTIONS, 0) == Ok(start);
    var step := StepFor(sys.replica, sys.server, entry, 0).value;
    assert ApplyDecision(sys.server, step, SKIP, OPTIONS) == Ok(Decided(sys.server, None));
    assert !InconsistentEntry(sys.replica, sys.server, 0);
    assert ReviewFirst(sys.replica, sys.server, [SKIP], OPTIONS, 1) ==
           Ok(Projection([], [] + ["x"], None, [], sys.server, 1));
  }

  // --------------------------------------------------------------- the run

  const COPY: Replica := Replica(DOWNLOADED, [], ACCESS, None, None, None, None, "")
  const FIRST: System := System(COPY, DOWNLOADED, [], [], [], None, {}, {}, {}, None, DOWNLOADED, [])

  lemma FirstIsInitial()
    ensures Initial(FIRST) && Quiet(FIRST) && SameAccount(ACCESS, "user")
  {
    assert Replay(DOWNLOADED, []) == Ok(DOWNLOADED);
    assert "user"[0] == 'u' && !IsSpace('u');
  }

  /**
   The check passes although another device's change came in between: the command,
   which without it conflicts with that change, is created again and overwrites it.
   */
  ghost predicate Misled(trace: seq<System>, steps: seq<Step>) {
    && IsSingleFlightRun(trace, steps, "user") && |steps| == 5
    && var seen, current := trace[1].replica.state, trace[5].replica.state;
       var command := EditEnvelope(seen, "c", "name", "saw");
       var effective := EffectiveEnvelope(current, command, false, {"a"});
       && AppliedIds(seen) == ["x"] && AppliedIds(current) == ["f", "a"]
       && steps[3] == REVIEW && steps[4] == EditStep(seen, "a", "unit", "box", {})
       && CanRebaseQueuedCommand(current, seen.revision, {"a"})
       && Apply(current, command) == Err(Conflict)
       && Field(current, "name") == Some(Str("drill"))
       && Apply(current, effective).Ok? && Field(Apply(current, effective).value, "name") == Some(Str("saw"))
  }

  lemma CountFits(current: State)
    requires current.revision == 2 && AppliedIds(current) == ["f", "a"]
    ensures CanRebaseQueuedCommand(current, 1, {"a"})
  {
    assert AppliedIds(current)[1] == "a";
    WasAppliedIsLogged(current, "a");
    assert AppliedPriorIds(current, {"a"}) == {"a"};
  }

  /** The item with these three fields. */
  predicate IsItem(s: State, category: string, name: string, unit: string) {
    && ITEM in s.records
    && Field(s, "category") == Some(Str(category))
    && Field(s, "name") == Some(Str(name))
    && Field(s, "unit") == Some(Str(unit))
  }

  lemma ItemSet(s: State, next: State, key: string, value: string, category: string, name: string, unit: string)
    requires IsItem(s, category, name, unit)
    requires next.records == s.records[ITEM := s.records[ITEM][key := Str(value)]]
    requires key in {"category", "name", "unit"}
    ensures IsItem(next, if key == "category" then value else category, if key == "name" then value else name,
                   if key == "unit" then value else unit)
  {
    hide Field;
    FieldSet(s, next, key, value, "category");
    FieldSet(s, next, key, value, "name");
    FieldSet(s, next, key, value, "unit");
  }

  lemma DownloadedItem()
    ensures IsItem(DOWNLOADED, "tools", "hammer", "piece")
  {
    hide Field;
    FieldIs(DOWNLOADED, "category");
    FieldIs(DOWNLOADED, "name");
    FieldIs(DOWNLOADED, "unit");
  }

  lemma RunExtends(trace: seq<System>, steps: seq<Step>, step: Step)
    requires IsSingleFlightRun(trace, steps, "user")
    requires Enabled(trace[|steps|], step) && Alone(trace[|steps|], step, "user")
    ensures IsSingleFlightRun(trace + [Next(trace[|steps|], step)], steps + [step], "user")
  {
    hide Enabled, Alone, Next, Initial, SameAccount;
  }

  lemma RunBegins()
    ensures IsSingleFlightRun([FIRST], [], "user")
  {
    hide Initial, SameAccount;
    FirstIsInitial();
  }

  /** The state after the first change, and after the other device's one was served. */
  predicate IsQueued(sys: System) {
    && Quiet(sys) && sys.dispatched == {"x"}
    && sys.replica.state.revision == 1 && AppliedIds(sys.replica.state) == ["x"]
    && IsItem(sys.replica.state, "garden", "hammer", "piece")
    && sys.replica.outbox ==
       [OutboxEntry(USER, EditEnvelope(DOWNLOADED, "x", "category", "garden"), Pending, None)]
  }

  predicate IsServed(sys: System) {
    && IsQueued(sys)
    && sys.server.revision == 1 && AppliedIds(sys.server) == ["f"]
    && IsItem(sys.server, "tools", "drill", "piece")
  }

  const QUEUE: Step := EditStep(DOWNLOADED, "x", "category", "garden", {})
  const SERVE: Step := ForeignStep([EditEnvelope(DOWNLOADED, "f", "name", "drill")])

  lemma FirstQueued()
    ensures Enabled(FIRST, QUEUE) && Alone(FIRST, QUEUE, "user")
    ensures IsQueued(Next(FIRST, QUEUE)) && Next(FIRST, QUEUE).server == DOWNLOADED
  {
    hide Apply, EditEnvelope, Field, Initial;
    FirstIsInitial();
    DownloadedItem();
    EditQueued(FIRST, DOWNLOADED, "x", "category", "garden");
    ItemSet(DOWNLOADED, Next(FIRST, QUEUE).replica.state, "category", "garden", "tools", "hammer", "piece");
  }

  lemma ForeignServed(sys: System)
    requires IsQueued(sys) && sys.server == DOWNLOADED
    ensures Enabled(sys, SERVE) && Alone(sys, SERVE, "user")
    ensures IsServed(Next(sys, SERVE)) && Next(sys, SERVE).replica == sys.replica
  {
    hide Apply, EditEnvelope, Field;
    DownloadedItem();
    EditServed(sys, "f", "name", "drill");
    ItemSet(DOWNLOADED, Next(sys, SERVE).server, "name", "drill", "tools", "hammer", "piece");
  }

  lemma OnlineRead(sys: System)
    requires IsServed(sys)
    ensures Enabled(sys, LoadStep) && Alone(sys, LoadStep, "user")
    ensures Next(sys, LoadStep) == sys.(loaded := Some(sys.server))
  {
  }

  /** The review skips the change, and the next queued one is accepted on what is left. */
  lemma ReviewedAndQueued(sys: System) returns (last: System)
    requires IsServed(sys) && sys.loaded == Some(sys.server)
    ensures Enabled(sys, REVIEW) && Alone(sys, REVIEW, "user")
    ensures var reviewed, queue := Next(sys, REVIEW), EditStep(sys.replica.state, "a", "unit", "box", {});
            && Enabled(reviewed, queue) && Alone(reviewed, queue, "user") && last == Next(reviewed, queue)
    ensures last.replica.state.workspaceId == "ws" && last.replica.state.revision == 2
    ensures AppliedIds(last.replica.state) == ["f", "a"] && IsItem(last.replica.state, "tools", "drill", "box")
  {
    hide Apply, EditEnvelope, Field, Enabled, Next, Alone;
    EditIs(DOWNLOADED, "x", "category", "garden");
    ChangeSkipped(sys, "garden");
    var reviewed := Next(sys, REVIEW);
    EditQueued(reviewed, sys.replica.state, "a", "unit", "box");
    last := Next(reviewed, EditStep(sys.replica.state, "a", "unit", "box", {}));
    ItemSet(sys.server, last.replica.state, "unit", "box", "tools", "drill", "piece");
  }

  lemma ReviewMisleadsTheCheck()
    ensures exists trace, steps :: Misled(trace, steps)
  {
    hide Apply, EditEnvelope, Field, Enabled, Next, Alone, CanRebaseQueuedCommand, IsSingleFlightRun;
    RunBegins();
    FirstQueued();
    var queued := Next(FIRST, QUEUE);
    RunExtends([FIRST], [], QUEUE);
    ForeignServed(queued);
    var served := Next(queued, SERVE);
    RunExtends([FIRST] + [queued], [] + [QUEUE], SERVE);
    OnlineRead(served);
    var loaded := Next(served, LoadStep);
    RunExtends([FIRST] + [queued] + [served], [] + [QUEUE] + [SERVE], LoadStep);
    var last := ReviewedAndQueued(loaded);
    var reviewed := Next(loaded, REVIEW);
    RunExtends([FIRST] + [queued] + [served] + [loaded], [] + [QUEUE] + [SERVE] + [LoadStep], REVIEW);
    var queue := EditStep(queued.replica.state, "a", "unit", "box", {});
    var trace := [FIRST] + [queued] + [served] + [loaded] + [reviewed];
    var steps := [] + [QUEUE] + [SERVE] + [LoadStep] + [REVIEW];
    RunExtends(trace, steps, queue);
    IsMisled(trace + [last], steps + [queue], queued.replica.state, last.replica.state);
  }

  lemma IsMisled(trace: seq<System>, steps: seq<Step>, seen: State, current: State)
    requires IsSingleFlightRun(trace, steps, "user") && |steps| == 5 && |trace| == 6
    requires seen == trace[1].replica.state && current == trace[5].replica.state
    requires steps[3] == REVIEW && steps[4] == EditStep(seen, "a", "unit", "box", {})
    requires seen.workspaceId == current.workspaceId && seen.revision == 1 && current.revision == 2
    requires AppliedIds(seen) == ["x"] && AppliedIds(current) == ["f", "a"]
    requires IsItem(seen, "garden", "hammer", "piece") && IsItem(current, "tools", "drill", "box")
    ensures Misled(trace, steps)
  {
    hide Apply, EditEnvelope, Field, CanRebaseQueuedCommand, IsSingleFlightRun, EffectiveEnvelope;
    CountFits(current);
    Overwrites(seen, current);
  }

  /** The command conflicts as it was created, and overwrites the other device's change when created again. */
  lemma Overwrites(seen: State, current: State)
    requires seen.workspaceId == current.workspaceId && seen.revision == 1 && current.revision == 2
    requires IsItem(seen, "garden", "hammer", "piece") && IsItem(current, "tools", "drill", "box")
    requires CanRebaseQueuedCommand(current, 1, {"a"})
    ensures var command := EditEnvelope(seen, "c", "name", "saw");
            var effective := EffectiveEnvelope(current, command, false, {"a"});
            && Apply(current, command) == Err(Conflict)
            && Apply(current, effective).Ok? && Field(Apply(current, effective).value, "name") == Some(Str("saw"))
  {
    hide Apply, Field, CanRebaseQueuedCommand, ExpectationsFor;
    EditApplies(seen, current, "c", "name", "saw");
    EditApplies(current, current, "c", "name", "saw");
    var command := EditEnvelope(seen, "c", "name", "saw");
    assert EffectiveEnvelope(current, command, false, {"a"}) == EditEnvelope(current, "c", "name", "saw");
    FieldSet(current, Apply(current, EditEnvelope(current, "c", "name", "saw")).value, "name", "saw", "name");
  }
}
