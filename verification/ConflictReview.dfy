/**
 Guided recovery: the queue of a blocked copy is rebuilt on the newest server
 state, one decision at a time. An ordinary edit is reviewed leaf by leaf; any
 other command is reviewed as a whole.
 */
module ConflictReview {
  import opened Prelude
  import opened Json
  import opened Domain
  import opened Access
  import opened LocalReplica

  /** One reviewed value: a path of one record. */
  datatype FieldKey = FieldKey(target: Target, id: string, path: Path) {
    function Rid(): RecordId {
      RecordId(target, id)
    }
  }

  /** A value the queued command asks for. */
  datatype Edit = Edit(key: FieldKey, after: Option<Json>)

  datatype ReviewField = ReviewField(
    key: FieldKey,
    before: Option<Json>,
    device: Option<Json>,
    server: Option<Json>,
    conflict: bool)

  datatype FieldChoice = DeviceValue | ServerValue | UnknownChoice

  datatype Action = ApplyChange | SkipChange | UnknownAction

  /** `newId` is what the caller's identifier generator, if it gave one, returns for this decision. */
  datatype Decision = Decision(
    commandId: string,
    action: Action,
    choices: map<FieldKey, FieldChoice>,
    acceptContext: bool,
    newId: Option<string>)

  datatype StepKind = Fields | WholeCommand

  datatype ReviewStep = ReviewStep(
    entry: OutboxEntry,
    index: nat,
    kind: StepKind,
    fields: seq<ReviewField>,
    context: seq<ReviewField>)

  datatype Options = Options(
    accountId: Option<string>,
    actorId: Option<string>,
    authorization: Option<Basis>,
    timestamp: Option<string>)

  const LEAF_GROUPS: set<string> := {"constraints", "conditions"}
  const STRUCTURAL_LOCATION_FIELDS: set<string> := {"parentId", "order"}
  const UNSAFE_KEYS: set<string> := {"__proto__", "constructor", "prototype"}

  predicate UnsafeKey(key: string) {
    key in UNSAFE_KEYS || '.' in key
  }

  function ReadKey(s: State, key: FieldKey): Option<Json> {
    ReadPatchValue(s, key.target, key.id, key.path)
  }

  // --------------------------------------------------- the leaves of an edit

  function LeafEdits(target: Target, id: string, group: string, leaves: Record, keys: seq<string>)
    : Result<seq<Edit>, Problem>
    requires forall k | k in keys :: k in leaves
  {
    if keys == [] then
      Ok([])
    else if UnsafeKey(keys[0]) then
      Err(InvalidChanges)
    else
      var rest :- LeafEdits(target, id, group, leaves, keys[1..]);
      Ok([Edit(FieldKey(target, id, [group, keys[0]]), Some(leaves[keys[0]]))] + rest)
  }

  function KeyEdits(target: Target, id: string, key: string, value: Json): Result<seq<Edit>, Problem> {
    if UnsafeKey(key) then
      Err(InvalidChanges)
    else if key in LEAF_GROUPS && value.Obj? then
      LeafEdits(target, id, key, value.fields, KeySeq(value.fields.Keys))
    else
      Ok([Edit(FieldKey(target, id, [key]), Some(value))])
  }

  function ChangesFor(target: Target, id: string, changes: Record, keys: seq<string>): Result<seq<Edit>, Problem>
    requires forall k | k in keys :: k in changes
  {
    if keys == [] then
      Ok([])
    else
      var first :- KeyEdits(target, id, keys[0], changes[keys[0]]);
      var rest :- ChangesFor(target, id, changes, keys[1..]);
      Ok(first + rest)
  }

  function BulkEdits(updates: seq<ItemChanges>): Result<seq<Edit>, Problem> {
    if updates == [] then
      Ok([])
    else
      var first :- ChangesFor(Item, updates[0].id, updates[0].changes, KeySeq(updates[0].changes.Keys));
      var rest :- BulkEdits(updates[1..]);
      Ok(first + rest)
  }

  function Present<T, E>(r: Result<T, E>): Result<Option<T>, E> {
    match r
    case Ok(value) => Ok(Some(value))
    case Err(problem) => Err(problem)
  }

  /** The leaves an ordinary edit names, or nothing when the command is reviewed as a whole. */
  function EditablePatches(envelope: Envelope): Result<Option<seq<Edit>>, Problem> {
    match envelope.command
    case Rename(name) => Ok(Some([Edit(FieldKey(Workspace, envelope.workspaceId, ["name"]), Some(name))]))
    case ItemUpdate(id, changes) => Present(ChangesFor(Item, id, changes, KeySeq(changes.Keys)))
    case LocationUpdate(id, changes) =>
      if changes.Keys * STRUCTURAL_LOCATION_FIELDS == {} then
        Present(ChangesFor(Location, id, changes, KeySeq(changes.Keys)))
      else
        Ok(None)
    case BulkUpdate(updates) => Present(BulkEdits(updates))
    case Structural(_) => Ok(None)
    case History(_) => Ok(None)
  }

  // -------------------------------------------------------- expected values

  function FindExact(expectations: seq<Expectation>, key: FieldKey): Option<Expectation> {
    if expectations == [] then
      None
    else if expectations[0].target == key.target && expectations[0].id == key.id &&
      expectations[0].path == key.path then
      Some(expectations[0])
    else
      FindExact(expectations[1..], key)
  }

  function FindEnclosing(expectations: seq<Expectation>, key: FieldKey): (r: Option<Expectation>)
    ensures r.Some? ==> r.value.path <= key.path
  {
    if expectations == [] then
      None
    else if expectations[0].target == key.target && expectations[0].id == key.id &&
      expectations[0].path <= key.path then
      Some(expectations[0])
    else
      FindEnclosing(expectations[1..], key)
  }

  /** The value the device saw: nothing when unknown, otherwise the value (which may itself be absent). */
  function ExpectedValue(expectations: seq<Expectation>, key: FieldKey): Option<Option<Json>> {
    match FindExact(expectations, key)
    case Some(x) => Some(x.value)
    case None =>
      match FindEnclosing(expectations, key)
      case Some(x) => Some(ReadPath(x.value, key.path[|x.path|..]))
      case None => None
  }

  // ------------------------------------------------------------ review steps

  predicate Conflicts(expected: Option<Option<Json>>, device: Option<Json>, server: Option<Json>) {
    server != device && expected != Some(server)
  }

  function ReviewEdit(state: State, expected: Option<Option<Json>>, edit: Edit): ReviewField {
    var server := ReadKey(state, edit.key);
    ReviewField(edit.key, expected.GetOr(None), edit.after, server, Conflicts(expected, edit.after, server))
  }

  /** The leaves the device really changed, as far as it is known what it saw. */
  function EditedFields(state: State, expectations: seq<Expectation>, edits: seq<Edit>)
    : Result<seq<ReviewField>, Problem>
  {
    if edits == [] then
      Ok([])
    else
      var expected := ExpectedValue(expectations, edits[0].key);
      if expected == Some(edits[0].after) then
        EditedFields(state, expectations, edits[1..])
      else if "" in edits[0].key.path then
        Err(InvalidPatch)
      else
        var rest :- EditedFields(state, expectations, edits[1..]);
        Ok([ReviewEdit(state, expected, edits[0])] + rest)
  }

  function LoggedFields(state: State, patches: seq<FieldPatch>): seq<ReviewField> {
    seq(|patches|, i requires 0 <= i < |patches| =>
      var p := patches[i];
      ReviewEdit(state, Some(p.before), Edit(FieldKey(p.target, p.id, p.path), p.after)))
  }

  function LoggedPatches(log: seq<LogEntry>, commandId: string): seq<FieldPatch> {
    if log == [] then []
    else if log[0].commandId == commandId then log[0].patches
    else LoggedPatches(log[1..], commandId)
  }

  predicate Covered(edits: Option<seq<Edit>>, x: Expectation) {
    edits.Some? && exists i | 0 <= i < |edits.value| ::
      edits.value[i].key.Rid() == RecordId(x.target, x.id) &&
      x.path <= edits.value[i].key.path && (x.path == [] ==> edits.value[i].key.path == [])
  }

  /** Remembered values that changed online although the command does not write them. */
  function ChangedContext(state: State, edits: Option<seq<Edit>>, expectations: seq<Expectation>): seq<ReviewField> {
    if expectations == [] then
      []
    else
      var x := expectations[0];
      var server := ReadPatchValue(state, x.target, x.id, x.path);
      (if Covered(edits, x) || server == x.value then
         []
       else
         [ReviewField(FieldKey(x.target, x.id, x.path), x.value, x.value, server, true)]) +
      ChangedContext(state, edits, expectations[1..])
  }

  function StepFor(replica: Replica, state: State, entry: OutboxEntry, index: nat): Result<ReviewStep, Problem> {
    var edits :- EditablePatches(entry.envelope);
    var context := ChangedContext(state, edits, entry.envelope.expectations);
    match edits
    case Some(named) =>
      var fields :- EditedFields(state, entry.envelope.expectations, named);
      Ok(ReviewStep(entry, index, Fields, fields, context))
    case None =>
      Ok(ReviewStep(entry, index, WholeCommand,
                    LoggedFields(state, LoggedPatches(replica.state.log, entry.envelope.id)), context))
  }

  method CollectEditedFields(state: State, expectations: seq<Expectation>, edits: seq<Edit>)
    returns (r: Result<seq<ReviewField>, Problem>)
    ensures r == EditedFields(state, expectations, edits)
  {
    hide ExpectedValue, ReadKey;
    var fields: seq<ReviewField> := [];
    assert edits[0..] == edits;
    ghost var whole := EditedFields(state, expectations, edits);
    assert whole.Ok? ==> [] + whole.value == whole.value;
    for i := 0 to |edits|
      invariant
        var rest := EditedFields(state, expectations, edits[i..]);
        whole == (if rest.Ok? then Ok(fields + rest.value) else rest)
    {
      var edit := edits[i];
      ghost var rest := EditedFields(state, expectations, edits[i..]);
      ghost var later := EditedFields(state, expectations, edits[i + 1..]);
      assert edits[i..][0] == edit && edits[i..][1..] == edits[i + 1..];
      var expected := ExpectedValue(expectations, edit.key);
      if expected == Some(edit.after) {
        continue;
      }
      if "" in edit.key.path {
        return Err(InvalidPatch);
      }
      ghost var before := fields;
      fields := fields + [ReviewEdit(state, expected, edit)];
      assert rest.Ok? ==> before + rest.value == fields + later.value;
    }
    assert edits[|edits|..] == [] && fields + [] == fields;
    r := Ok(fields);
  }

  // --------------------------------------------------- the command to reapply

  function Selected(fields: seq<ReviewField>, choices: map<FieldKey, FieldChoice>): seq<ReviewField> {
    if fields == [] then
      []
    else
      (if Chosen(choices, fields[0].key) != Some(ServerValue) && fields[0].device != fields[0].server
       then [fields[0]] else []) + Selected(fields[1..], choices)
  }

  function Chosen(choices: map<FieldKey, FieldChoice>, key: FieldKey): Option<FieldChoice> {
    if key in choices then Some(choices[key]) else None
  }

  predicate ChoicesMatch(fields: seq<ReviewField>, choices: map<FieldKey, FieldChoice>) {
    forall key | key in choices ::
      choices[key] != UnknownChoice && exists i | 0 <= i < |fields| :: fields[i].key == key
  }

  predicate ConflictsChosen(fields: seq<ReviewField>, choices: map<FieldKey, FieldChoice>) {
    forall i | 0 <= i < |fields| && fields[i].conflict :: fields[i].key in choices
  }

  type ByRecord = map<string, Record>

  function ChangesOf(byRecord: ByRecord, id: string): Record {
    if id in byRecord then byRecord[id] else map[]
  }

  /** The group a leaf is written into: as changed so far, or as it is online. */
  function GroupToMerge(state: State, changes: Record, key: FieldKey): Json
    requires |key.path| > 0
  {
    var group := key.path[0];
    if group in changes && changes[group] != Json.Null then
      changes[group]
    else
      var current := ReadPatchValue(state, key.target, key.id, [group]);
      if current.Some? && current.value.Obj? then current.value else Obj(map[])
  }

  /** Adds one selected value to the changes collected so far for its record. */
  function FillOne(state: State, byRecord: ByRecord, field: ReviewField): Result<ByRecord, Problem> {
    var changes := ChangesOf(byRecord, field.key.id);
    var path := field.key.path;
    if path == [] then
      Err(InvalidChanges)
    else if |path| > 1 && path[1] != "" then
      if path[0] !in LEAF_GROUPS || path[1] in UNSAFE_KEYS then
        Err(InvalidChanges)
      else
        var merged := GroupToMerge(state, changes, field.key);
        if !merged.Obj? || field.device.None? then
          Err(InvalidChanges)
        else
          Ok(byRecord[field.key.id := changes[path[0] := Obj(merged.fields[path[1] := field.device.value])]])
    else if path[0] in UNSAFE_KEYS || field.device.None? then
      Err(InvalidChanges)
    else
      Ok(byRecord[field.key.id := changes[path[0] := field.device.value]])
  }

  function Fill(state: State, byRecord: ByRecord, selected: seq<ReviewField>): Result<ByRecord, Problem>
    decreases |selected|
  {
    if selected == [] then
      Ok(byRecord)
    else
      var next :- FillOne(state, byRecord, selected[0]);
      Fill(state, next, selected[1..])
  }

  /** The value is there, and its path leads into an editable field or group by safe keys. */
  predicate Usable(f: ReviewField) {
    && f.device.Some? && f.key.path != []
    && if |f.key.path| > 1 && f.key.path[1] != ""
       then f.key.path[0] in {"constraints", "conditions"} && f.key.path[1] !in UNSAFE_KEYS
       else f.key.path[0] !in UNSAFE_KEYS
  }

  lemma {:induction false} FilledAreUsable(state: State, byRecord: ByRecord, selected: seq<ReviewField>)
    requires Fill(state, byRecord, selected).Ok?
    ensures forall f | f in selected :: Usable(f)
    decreases |selected|
  {
    hide GroupToMerge;
    if selected == [] {
    } else {
      FilledAreUsable(state, FillOne(state, byRecord, selected[0]).value, selected[1..]);
      assert selected == [selected[0]] + selected[1..];
    }
  }

  method FillByRecord(state: State, selected: seq<ReviewField>) returns (r: Result<ByRecord, Problem>)
    ensures r == Fill(state, map[], selected)
  {
    hide FillOne;
    var byRecord: ByRecord := map[];
    assert selected[0..] == selected;
    for i := 0 to |selected|
      invariant Fill(state, map[], selected) == Fill(state, byRecord, selected[i..])
    {
      assert selected[i..][0] == selected[i] && selected[i..][1..] == selected[i + 1..];
      byRecord :- FillOne(state, byRecord, selected[i]);
    }
    assert selected[|selected|..] == [];
    r := Ok(byRecord);
  }

  const CONSTRAINTS: string := "constraints"

  /** The selected constraint leaves of one record, later ones winning. */
  function ConstraintLeaves(selected: seq<ReviewField>, id: string): Record {
    if selected == [] then
      map[]
    else
      var f := selected[0];
      (if f.key.id == id && |f.key.path| > 1 && f.key.path[0] == CONSTRAINTS && f.device.Some?
       then map[f.key.path[1] := f.device.value] else map[]) + ConstraintLeaves(selected[1..], id)
  }

  /** A bulk edit sends only the selected constraint leaves, not the merged group. */
  function BulkChanges(changes: Record, selected: seq<ReviewField>, id: string): Record {
    if CONSTRAINTS in changes && changes[CONSTRAINTS].Obj? then
      changes[CONSTRAINTS := Obj(ConstraintLeaves(selected, id))]
    else
      changes
  }

  function ChosenUpdates(updates: seq<ItemChanges>, byRecord: ByRecord, selected: seq<ReviewField>): seq<ItemChanges> {
    if updates == [] then
      []
    else
      var id := updates[0].id;
      (if id in byRecord then [ItemChanges(id, BulkChanges(byRecord[id], selected, id))] else []) +
      ChosenUpdates(updates[1..], byRecord, selected)
  }

  function Rebuild(
    state: State, original: Command, byRecord: ByRecord, selected: seq<ReviewField>): Result<Command, Problem> {
    match original
    case Rename(_) =>
      var changes := ChangesOf(byRecord, state.workspaceId);
      Ok(Rename(if "name" in changes then changes["name"] else Str("undefined")))
    case ItemUpdate(id, _) => Ok(ItemUpdate(id, ChangesOf(byRecord, id)))
    case LocationUpdate(id, _) => Ok(LocationUpdate(id, ChangesOf(byRecord, id)))
    case BulkUpdate(updates) => Ok(BulkUpdate(ChosenUpdates(updates, byRecord, selected)))
    case _ => Err(ReviewCommand)
  }

  function ChosenCommand(state: State, step: ReviewStep, decision: Decision): Result<Option<Command>, Problem> {
    var original := step.entry.envelope.command;
    if original.History? then
      Err(ReviewHistory)
    else if !ChoicesMatch(step.fields, decision.choices) then
      Err(ReviewChoices)
    else if step.kind == Fields && !ConflictsChosen(step.fields, decision.choices) then
      Err(ReviewChoicesRequired)
    else
      var selected := Selected(step.fields, decision.choices);
      if step.kind == Fields && selected == [] then
        Ok(None)
      else if step.context != [] && !decision.acceptContext then
        Err(ReviewContextRequired)
      else if step.kind == WholeCommand then
        Ok(Some(original))
      else
        var byRecord :- Fill(state, map[], selected);
        var command :- Rebuild(state, original, byRecord, selected);
        Ok(Some(command))
  }

  // -------------------------------------------------------- new identifiers

  function Prefixed(times: nat, id: string): string {
    if times == 0 then id else "review_" + Prefixed(times - 1, id)
  }

  function LongestId(log: seq<LogEntry>): (n: nat)
    ensures forall i | 0 <= i < |log| :: |log[i].commandId| <= n
  {
    if log == [] then 0 else Max(|log[0].commandId|, LongestId(log[1..]))
  }

  function FreshReviewId(state: State, id: string): (r: string)
    ensures !WasApplied(state, r)
    decreases LongestId(state.log) - |id|
  {
    if WasApplied(state, id) then FreshReviewId(state, "review_" + id) else id
  }

  /**
   Prefixing ends because the applied identifiers are finitely many; it stops at
   the first unused candidate.
   */
  method FindReviewId(state: State, commandId: string) returns (id: string, ghost times: nat)
    ensures id == FreshReviewId(state, "review_" + commandId)
    ensures !WasApplied(state, id)
    ensures times > 0 && id == Prefixed(times, commandId)
    ensures forall n | 0 < n < times :: WasApplied(state, Prefixed(n, commandId))
  {
    id := "review_" + commandId;
    times := 1;
    assert Prefixed(1, commandId) == "review_" + Prefixed(0, commandId);
    while WasApplied(state, id)
      invariant times > 0 && id == Prefixed(times, commandId)
      invariant forall n | 0 < n < times :: WasApplied(state, Prefixed(n, commandId))
      invariant FreshReviewId(state, id) == FreshReviewId(state, "review_" + commandId)
      decreases LongestId(state.log) - |id|
    {
      id := "review_" + id;
      times := times + 1;
    }
  }

  // ------------------------------------------------------------- one decision

  datatype Decided = Decided(state: State, entry: Option<OutboxEntry>)

  function NewId(state: State, step: ReviewStep, decision: Decision): string {
    decision.newId.GetOr(FreshReviewId(state, "review_" + step.entry.envelope.id))
  }

  function NewEnvelope(
    state: State, step: ReviewStep, decision: Decision, options: Options, command: Command): Envelope {
    CreateEnvelope(state, command, NewId(state, step, decision),
                   options.actorId.GetOr(step.entry.envelope.actorId), step.entry.envelope.deviceId,
                   options.timestamp.GetOr(step.entry.envelope.timestamp), options.authorization, None)
  }

  function ApplyDecision(
    state: State, step: ReviewStep, decision: Decision, options: Options): Result<Decided, Problem> {
    if decision.commandId != step.entry.envelope.id || decision.action == UnknownAction then
      Err(ReviewOrder)
    else if decision.action == SkipChange then
      Ok(Decided(state, None))
    else
      var chosen :- ChosenCommand(state, step, decision);
      match chosen
      case None => Ok(Decided(state, None))
      case Some(command) =>
        if WasApplied(state, NewId(state, step, decision)) then
          Err(ReviewId)
        else
          var envelope := NewEnvelope(state, step, decision, options, command);
          match Apply(state, envelope)
          case Err(problem) => if problem == NoChanges then Ok(Decided(state, None)) else Err(problem)
          case Ok(next) =>
            var account := if options.accountId.Some? then Account(options.accountId.value) else step.entry.accountId;
            Ok(Decided(next, Some(OutboxEntry(account, envelope, Pending, None))))
  }

  // --------------------------------------------------------- the whole review

  /** `used` counts the decisions consumed; `next` is the step still waiting for one. */
  datatype Projection = Projection(
    accepted: seq<string>,
    skipped: seq<string>,
    next: Option<ReviewStep>,
    outbox: seq<OutboxEntry>,
    state: State,
    used: nat)

  predicate InconsistentEntry(replica: Replica, server: State, index: nat)
    requires index < |replica.outbox|
  {
    || replica.outbox[index].envelope.workspaceId != server.workspaceId
    || exists j | 0 <= j < index :: replica.outbox[j].envelope.id == replica.outbox[index].envelope.id
  }

  /** An entry the server lacks waits for its decision or is decided upon. */
  function ReviewMissing(
    replica: Replica, decisions: seq<Decision>, options: Options, index: nat, sofar: Projection)
    : Result<Projection, Problem>
    requires index < |replica.outbox|
  {
    var entry := replica.outbox[index];
    var step :- StepFor(replica, sofar.state, entry, index);
    if sofar.used >= |decisions| then
      Ok(sofar.(next := Some(step)))
    else
      var decided :- ApplyDecision(sofar.state, step, decisions[sofar.used], options);
      Ok(sofar.(
           state := decided.state,
           outbox := if decided.entry.Some? then sofar.outbox + [decided.entry.value] else sofar.outbox,
           skipped := if decided.entry.Some? then sofar.skipped else sofar.skipped + [entry.envelope.id],
           used := sofar.used + 1))
  }

  function ReviewEntry(
    replica: Replica, server: State, decisions: seq<Decision>, options: Options, index: nat, sofar: Projection)
    : Result<Projection, Problem>
    requires index < |replica.outbox|
  {
    var entry := replica.outbox[index];
    if InconsistentEntry(replica, server, index) then
      Err(ReviewQueue)
    else if WasApplied(server, entry.envelope.id) then
      Ok(sofar.(accepted := sofar.accepted + [entry.envelope.id]))
    else
      ReviewMissing(replica, decisions, options, index, sofar)
  }

  /** The review of the first `n` queued entries. */
  function ReviewFirst(replica: Replica, server: State, decisions: seq<Decision>, options: Options, n: nat)
    : Result<Projection, Problem>
    requires n <= |replica.outbox|
  {
    if n == 0 then
      Ok(Projection([], [], None, [], server, 0))
    else
      var sofar :- ReviewFirst(replica, server, decisions, options, n - 1);
      if sofar.next.Some? then Ok(sofar) else ReviewEntry(replica, server, decisions, options, n - 1, sofar)
  }

  function Project(replica: Replica, server: State, decisions: seq<Decision>, options: Options)
    : Result<Projection, Problem>
  {
    if replica.state.workspaceId != server.workspaceId then
      Err(WrongWorkspace)
    else
      var projection :- ReviewFirst(replica, server, decisions, options, |replica.outbox|);
      if projection.next.None? && projection.used != |decisions| then Err(ReviewOrder) else Ok(projection)
  }

  method ReviewMissingEntry(
    replica: Replica, decisions: seq<Decision>, options: Options, index: nat, sofar: Projection)
    returns (r: Result<Projection, Problem>)
    requires index < |replica.outbox|
    ensures r == ReviewMissing(replica, decisions, options, index, sofar)
  {
    hide StepFor, ApplyDecision;
    var entry := replica.outbox[index];
    var step :- StepFor(replica, sofar.state, entry, index);
    if sofar.used >= |decisions| {
      return Ok(sofar.(next := Some(step)));
    }
    var applied :- ApplyDecision(sofar.state, step, decisions[sofar.used], options);
    var result := sofar.(state := applied.state, used := sofar.used + 1);
    if applied.entry.Some? {
      result := result.(outbox := result.outbox + [applied.entry.value]);
    } else {
      result := result.(skipped := result.skipped + [entry.envelope.id]);
    }
    r := Ok(result);
  }

  method ProjectRecoveryReview(replica: Replica, server: State, decisions: seq<Decision>, options: Options)
    returns (r: Result<Projection, Problem>)
    ensures r == Project(replica, server, decisions, options)
  {
    hide ReviewMissing, WasApplied;
    if replica.state.workspaceId != server.workspaceId {
      return Err(WrongWorkspace);
    }
    var result := Projection([], [], None, [], server, 0);
    var ids: set<string> := {};
    for index := 0 to |replica.outbox|
      invariant ReviewFirst(replica, server, decisions, options, index) == Ok(result) && result.next.None?
      invariant ids == set j | 0 <= j < index :: replica.outbox[j].envelope.id
    {
      var entry := replica.outbox[index];
      assert InconsistentEntry(replica, server, index) <==>
             entry.envelope.workspaceId != server.workspaceId || entry.envelope.id in ids;
      if entry.envelope.workspaceId != server.workspaceId || entry.envelope.id in ids {
        StoppedReview(replica, server, decisions, options, index + 1);
        return Err(ReviewQueue);
      }
      ids := ids + {entry.envelope.id};
      if WasApplied(server, entry.envelope.id) {
        result := result.(accepted := result.accepted + [entry.envelope.id]);
        continue;
      }
      var reviewed := ReviewMissingEntry(replica, decisions, options, index, result);
      if reviewed.Err? || reviewed.value.next.Some? {
        StoppedReview(replica, server, decisions, options, index + 1);
        return reviewed;
      }
      result := reviewed.value;
    }
    if result.used != |decisions| {
      return Err(ReviewOrder);
    }
    r := Ok(result);
  }

  /** A review that has failed or stopped at a missing decision goes no further. */
  lemma {:induction false} StoppedReview(
    replica: Replica, server: State, decisions: seq<Decision>, options: Options, n: nat)
    requires n <= |replica.outbox|
    requires var r := ReviewFirst(replica, server, decisions, options, n); r.Err? || r.value.next.Some?
    ensures ReviewFirst(replica, server, decisions, options, |replica.outbox|) ==
            ReviewFirst(replica, server, decisions, options, n)
    decreases |replica.outbox| - n
  {
    hide StepFor, ApplyDecision, WasApplied;
    if n == |replica.outbox| {
    } else {
      StoppedReview(replica, server, decisions, options, n + 1);
    }
  }
}
