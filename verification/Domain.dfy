/**
 The workspace and the command step, reduced to what synchronization and
 recovery rely on: a revision counter, the records, and the log of applied
 commands. The log stands for the activity list, the audit list and the
 compacted receipts together; an identifier in it counts as applied.
 */
module Domain {
  import opened Prelude
  import opened Json

  datatype Target = Item | Location | Plan | Workspace

  datatype RecordId = RecordId(target: Target, id: string)

  datatype FieldPatch = FieldPatch(
    target: Target, id: string, path: Path, before: Option<Json>, after: Option<Json>)
  {
    function Rid(): RecordId {
      RecordId(target, id)
    }
  }

  datatype Expectation = Expectation(target: Target, id: string, path: Path, value: Option<Json>)

  datatype LogEntry = LogEntry(commandId: string, patches: seq<FieldPatch>)

  datatype State = State(
    workspaceId: string,
    revision: nat,
    records: map<RecordId, Record>,
    log: seq<LogEntry>)

  datatype ItemChanges = ItemChanges(id: string, changes: Record)

  /**
   The editable commands are spelled out. Structural stands for every other
   ordinary command (creating, moving, reordering, archiving, deleting), given
   by the patches it writes; History for undo and redo.
   */
  datatype Command =
    | Rename(name: Json)
    | ItemUpdate(id: string, changes: Record)
    | LocationUpdate(id: string, changes: Record)
    | BulkUpdate(updates: seq<ItemChanges>)
    | Structural(patches: seq<FieldPatch>)
    | History(patches: seq<FieldPatch>)

  datatype Basis = Basis(membershipRevision: nat, workspaceAccessRevision: nat)

  datatype Envelope = Envelope(
    id: string,
    workspaceId: string,
    actorId: string,
    deviceId: string,
    timestamp: string,
    baseRevision: nat,
    authorization: Option<Basis>,
    command: Command,
    expectations: seq<Expectation>)

  datatype Problem =
    | WrongWorkspace | RevisionAhead | Conflict
    | NotFound | NoChanges | InvalidChanges | StructuralUpdate
    | DuplicateItemId | EmptyBulkUpdate
    | PatchTargetMissing | InvalidPatch
    | ReviewHistory | ReviewChoices | ReviewChoicesRequired | ReviewContextRequired
    | ReviewOrder | ReviewId | ReviewQueue | ReviewCommand
    | WriteRefused

  const ITEM_KEYS: set<string> := {
    "category", "constraints", "description", "dimensions", "frequency",
    "name", "quantity", "tags", "unit"
  }
  const LOCATION_KEYS: set<string> := {
    "code", "conditions", "description", "dimensions", "kind",
    "name", "order", "parentId", "tags"
  }
  const BULK_ITEM_KEYS: set<string> := {"category", "constraints", "frequency", "tags"}
  const BULK_CONSTRAINT_KEYS: set<string> := {
    "avoidHumidity", "avoidWarmth", "foodOnly", "keepTogether", "requiredTags"
  }

  // ------------------------------------------------------------------ reading

  function ReadPatchValue(s: State, target: Target, id: string, path: Path): Option<Json> {
    var rid := RecordId(target, id);
    ReadPath(if rid in s.records then Some(Obj(s.records[rid])) else None, path)
  }

  function LogIds(log: seq<LogEntry>): (ids: seq<string>)
    ensures |ids| == |log|
    ensures forall i | 0 <= i < |log| :: ids[i] == log[i].commandId
  {
    seq(|log|, i requires 0 <= i < |log| => log[i].commandId)
  }

  function AppliedIds(s: State): seq<string> {
    LogIds(s.log)
  }

  predicate WasApplied(s: State, commandId: string) {
    exists i | 0 <= i < |s.log| :: s.log[i].commandId == commandId
  }

  lemma WasAppliedIsLogged(s: State, commandId: string)
    ensures WasApplied(s, commandId) <==> commandId in AppliedIds(s)
  {
    if WasApplied(s, commandId) {
      var i :| 0 <= i < |s.log| && s.log[i].commandId == commandId;
      assert AppliedIds(s)[i] == commandId;
    }
  }

  predicate ExpectationsHold(s: State, expectations: seq<Expectation>) {
    forall i | 0 <= i < |expectations| ::
      var x := expectations[i];
      ReadPatchValue(s, x.target, x.id, x.path) == x.value
  }

  // ------------------------------------------------------------------ writing

  function ApplyPatch(records: map<RecordId, Record>, patch: FieldPatch)
    : Result<map<RecordId, Record>, Problem>
  {
    var rid := patch.Rid();
    if patch.path == [] then
      match patch.after
      case None =>
        if patch.target == Workspace then Err(InvalidPatch) else Ok(records - {rid})
      case Some(v) =>
        if v.Obj? then Ok(records[rid := v.fields]) else Err(InvalidPatch)
    else if rid !in records then
      Err(PatchTargetMissing)
    else
      Ok(records[rid := WritePath(records[rid], patch.path, patch.after)])
  }

  function ApplyPatches(records: map<RecordId, Record>, patches: seq<FieldPatch>)
    : Result<map<RecordId, Record>, Problem>
    decreases |patches|
  {
    if patches == [] then
      Ok(records)
    else
      match ApplyPatch(records, patches[0])
      case Err(e) => Err(e)
      case Ok(next) => ApplyPatches(next, patches[1..])
  }

  /** One whole-field patch for each listed change that differs from the record. */
  function FieldPatches(rid: RecordId, current: Record, changes: Record, keys: seq<string>): seq<FieldPatch>
    requires forall k | k in keys :: k in changes
  {
    if keys == [] then
      []
    else
      var k := keys[0];
      var rest := FieldPatches(rid, current, changes, keys[1..]);
      if Lookup(current, k) == Some(changes[k]) then
        rest
      else
        [FieldPatch(rid.target, rid.id, [k], Lookup(current, k), Some(changes[k]))] + rest
  }

  /** One leaf patch for each listed leaf of a group that differs from the record. */
  function LeafPatches(rid: RecordId, current: Record, group: string, leaves: Record, keys: seq<string>)
    : seq<FieldPatch>
    requires forall k | k in keys :: k in leaves
  {
    if keys == [] then
      []
    else
      var k := keys[0];
      var before := ReadPath(Some(Obj(current)), [group, k]);
      var rest := LeafPatches(rid, current, group, leaves, keys[1..]);
      if before == Some(leaves[k]) then
        rest
      else
        [FieldPatch(rid.target, rid.id, [group, k], before, Some(leaves[k]))] + rest
  }

  function UpdatePatches(s: State, rid: RecordId, changes: Record, allowed: set<string>)
    : Result<seq<FieldPatch>, Problem>
  {
    if rid !in s.records then
      Err(NotFound)
    else if !(changes.Keys <= allowed) then
      Err(InvalidChanges)
    else
      var patches := FieldPatches(rid, s.records[rid], changes, KeySeq(changes.Keys));
      if patches == [] then Err(NoChanges) else Ok(patches)
  }

  predicate ValidBulkChanges(changes: Record) {
    && changes.Keys <= BULK_ITEM_KEYS
    && ("constraints" in changes ==>
          changes["constraints"].Obj? && changes["constraints"].fields.Keys <= BULK_CONSTRAINT_KEYS)
  }

  /** Constraints are written leaf by leaf, every other field as a whole. */
  function BulkItemPatches(rid: RecordId, current: Record, changes: Record): seq<FieldPatch>
    requires ValidBulkChanges(changes)
  {
    var whole := changes - {"constraints"};
    var leaves := SubRecord(changes, "constraints");
    FieldPatches(rid, current, whole, KeySeq(whole.Keys)) +
    LeafPatches(rid, current, "constraints", leaves, KeySeq(leaves.Keys))
  }

  function BulkPatches(s: State, updates: seq<ItemChanges>, seen: set<string>)
    : Result<seq<FieldPatch>, Problem>
  {
    if updates == [] then
      Ok([])
    else
      var u := updates[0];
      var rid := RecordId(Item, u.id);
      if u.id in seen then
        Err(DuplicateItemId)
      else if rid !in s.records then
        Err(NotFound)
      else if !ValidBulkChanges(u.changes) then
        Err(InvalidChanges)
      else
        match BulkPatches(s, updates[1..], seen + {u.id})
        case Err(e) => Err(e)
        case Ok(rest) => Ok(BulkItemPatches(rid, s.records[rid], u.changes) + rest)
  }

  /** The patches a command writes on a state, or why it is refused. */
  function CommandPatches(s: State, command: Command): Result<seq<FieldPatch>, Problem> {
    match command
    case Rename(name) =>
      UpdatePatches(s, RecordId(Workspace, s.workspaceId), map["name" := name], {"name"})
    case ItemUpdate(id, changes) =>
      UpdatePatches(s, RecordId(Item, id), changes, ITEM_KEYS)
    case LocationUpdate(id, changes) =>
      if RecordId(Location, id) in s.records && changes.Keys <= LOCATION_KEYS &&
         "order" in changes &&
         ("parentId" !in changes ||
          ReadPatchValue(s, Location, id, ["parentId"]) == Some(changes["parentId"]))
      then
        Err(StructuralUpdate)
      else
        UpdatePatches(s, RecordId(Location, id), changes, LOCATION_KEYS)
    case BulkUpdate(updates) =>
      if updates == [] then
        Err(EmptyBulkUpdate)
      else
        match BulkPatches(s, updates, {}) {
          case Err(e) => Err(e)
          case Ok(patches) => if patches == [] then Err(NoChanges) else Ok(patches)
        }
    case Structural(patches) => Ok(patches)
    case History(patches) => Ok(patches)
  }

  /**
   Applies one command. It does not look for the command's own identifier:
   recognizing a repeated command is the caller's business.
   */
  function Apply(s: State, e: Envelope): (r: Result<State, Problem>)
    ensures r.Ok? ==> r.value.revision == s.revision + 1
    ensures r.Ok? ==> r.value.workspaceId == s.workspaceId
    ensures r.Ok? ==> AppliedIds(r.value) == AppliedIds(s) + [e.id]
  {
    if e.workspaceId != s.workspaceId then
      Err(WrongWorkspace)
    else if e.baseRevision > s.revision then
      Err(RevisionAhead)
    else if !ExpectationsHold(s, e.expectations) then
      Err(Conflict)
    else
      match CommandPatches(s, e.command)
      case Err(problem) => Err(problem)
      case Ok(patches) =>
        match ApplyPatches(s.records, patches)
        case Err(problem) => Err(problem)
        case Ok(records) =>
          Ok(State(s.workspaceId, s.revision + 1, records, s.log + [LogEntry(e.id, patches)]))
  }

  // ------------------------------------------------------------ new envelopes

  function ExpectField(s: State, target: Target, id: string, path: Path): Expectation {
    Expectation(target, id, path, ReadPatchValue(s, target, id, path))
  }

  function ExpectFields(s: State, target: Target, id: string, keys: seq<string>): seq<Expectation> {
    seq(|keys|, i requires 0 <= i < |keys| => ExpectField(s, target, id, [keys[i]]))
  }

  function ExpectLeaves(s: State, id: string, keys: seq<string>): seq<Expectation> {
    seq(|keys|, i requires 0 <= i < |keys| => ExpectField(s, Item, id, ["constraints", keys[i]]))
  }

  function ExpectBulk(s: State, updates: seq<ItemChanges>): seq<Expectation> {
    if updates == [] then
      []
    else
      var u := updates[0];
      (if RecordId(Item, u.id) !in s.records then
         []
       else
         ExpectFields(s, Item, u.id, ["locationId", "archivedAt"]) +
         ExpectFields(s, Item, u.id, KeySeq(u.changes.Keys - {"constraints"})) +
         ExpectLeaves(s, u.id, KeySeq(SubRecord(u.changes, "constraints").Keys))) +
      ExpectBulk(s, updates[1..])
  }

  /** What a command remembers about the state it was created on. */
  function ExpectationsFor(s: State, command: Command): seq<Expectation> {
    match command
    case Rename(_) => [ExpectField(s, Workspace, s.workspaceId, ["name"])]
    case ItemUpdate(id, changes) =>
      if RecordId(Item, id) in s.records then ExpectFields(s, Item, id, KeySeq(changes.Keys)) else []
    case LocationUpdate(id, changes) =>
      if RecordId(Location, id) in s.records then ExpectFields(s, Location, id, KeySeq(changes.Keys)) else []
    case BulkUpdate(updates) => ExpectBulk(s, updates)
    case Structural(patches) =>
      seq(|patches|, i requires 0 <= i < |patches| =>
        ExpectField(s, patches[i].target, patches[i].id, patches[i].path))
    case History(_) => []
  }

  function CreateEnvelope(
    s: State, command: Command, id: string, actorId: string, deviceId: string, timestamp: string,
    authorization: Option<Basis>, expectations: Option<seq<Expectation>>): Envelope
  {
    Envelope(id, s.workspaceId, actorId, deviceId, timestamp, s.revision, authorization, command,
             expectations.GetOr(ExpectationsFor(s, command)))
  }

  lemma {:induction false} ExpectBulkHolds(s: State, updates: seq<ItemChanges>)
    ensures ExpectationsHold(s, ExpectBulk(s, updates))
  {
    if updates == [] {
    } else {
      ExpectBulkHolds(s, updates[1..]);
    }
  }

  /** A command fits the state it was created on: none of its expectations fails there. */
  lemma CreatedExpectationsHold(s: State, command: Command)
    ensures ExpectationsHold(s, ExpectationsFor(s, command))
  {
    if command.BulkUpdate? {
      ExpectBulkHolds(s, command.updates);
    }
  }

  // ------------------------------------------------------------------- replay

  /** Applies a queue of commands in order; the first refusal ends it. */
  function Replay(s: State, queue: seq<Envelope>): (r: Result<State, Problem>)
    ensures r.Ok? ==> r.value.revision == s.revision + |queue|
    ensures r.Ok? ==> r.value.workspaceId == s.workspaceId
    ensures r.Ok? ==> AppliedIds(r.value) == AppliedIds(s) + EnvelopeIds(queue)
    decreases |queue|
  {
    hide Apply;
    if queue == [] then
      assert EnvelopeIds(queue) == [];
      Ok(s)
    else
      match Apply(s, queue[0])
      case Err(problem) => Err(problem)
      case Ok(next) =>
        FirstEnvelopeId(AppliedIds(s), queue);
        Replay(next, queue[1..])
  }

  lemma FirstEnvelopeId(ids: seq<string>, queue: seq<Envelope>)
    requires queue != []
    ensures (ids + [queue[0].id]) + EnvelopeIds(queue[1..]) == ids + EnvelopeIds(queue)
  {
    var first, rest := [queue[0].id], EnvelopeIds(queue[1..]);
    assert EnvelopeIds(queue) == first + rest;
    Associative(ids, first, rest);
  }

  lemma Associative(a: seq<string>, b: seq<string>, c: seq<string>)
    ensures (a + b) + c == a + (b + c)
  {
  }

  function EnvelopeIds(queue: seq<Envelope>): (ids: seq<string>)
    ensures |ids| == |queue|
    ensures forall i | 0 <= i < |queue| :: ids[i] == queue[i].id
  {
    seq(|queue|, i requires 0 <= i < |queue| => queue[i].id)
  }

  lemma {:induction false} ReplayAppend(s: State, queue: seq<Envelope>, e: Envelope)
    ensures Replay(s, queue).Ok? ==> Replay(s, queue + [e]) == Apply(Replay(s, queue).value, e)
    ensures Replay(s, queue).Err? ==> Replay(s, queue + [e]) == Replay(s, queue)
    decreases |queue|
  {
    if queue == [] {
      assert queue + [e] == [e];
      assert [e][1..] == [];
    } else {
      assert (queue + [e])[0] == queue[0];
      assert (queue + [e])[1..] == queue[1..] + [e];
      if Apply(s, queue[0]).Ok? {
        ReplayAppend(Apply(s, queue[0]).value, queue[1..], e);
      }
    }
  }
}
