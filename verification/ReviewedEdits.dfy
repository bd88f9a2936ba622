/**
 The main results about one reviewed edit: which value every leaf ends up with,
 and that nothing else changes.
 */
module ReviewedEdits {
  import opened Prelude
  import opened Json
  import opened Domain
  import opened LocalReplica
  import opened CommandWrites
  import opened ConflictReview
  import opened NamedLeaves
  import opened ThreeWayMerge

  // ------------------------------------------------ the leaves an edit names

  predicate EditShape(e: Edit, target: Target) {
    && e.key.target == target
    && e.after.Some?
    && (|e.key.path| == 1 || (|e.key.path| == 2 && e.key.path[0] in LEAF_GROUPS))
    && (|e.key.path| == 1 && e.key.path[0] in LEAF_GROUPS ==> !e.after.value.Obj?)
    && (forall k | k in e.key.path :: k !in UNSAFE_KEYS)
  }

  /** Edits of the records in `ids` never name overlapping paths of one record. */
  predicate ApartFor(edits: seq<Edit>, ids: set<string>) {
    edits == [] ||
    ((edits[0].key.id in ids ==> forall e | e in edits[1..] :: Apart(edits[0].key, e.key)) && ApartFor(edits[1..], ids))
  }

  lemma {:induction false} ApartAppend(a: seq<Edit>, b: seq<Edit>, ids: set<string>)
    requires ApartFor(a, ids) && ApartFor(b, ids)
    requires forall x, y | x in a && y in b && x.key.id in ids :: Apart(x.key, y.key)
    ensures ApartFor(a + b, ids)
  {
    if a == [] {
      assert a + b == b;
    } else {
      ApartAppend(a[1..], b, ids);
      assert (a + b)[1..] == a[1..] + b;
    }
  }

  lemma {:induction false} LeafEditsShape(
    target: Target, id: string, group: string, leaves: Record, keys: seq<string>, ids: set<string>)
    requires (forall k | k in keys :: k in leaves) && NoDuplicates(keys) && group in LEAF_GROUPS
    requires LeafEdits(target, id, group, leaves, keys).Ok?
    ensures var edits := LeafEdits(target, id, group, leaves, keys).value;
            && (forall e | e in edits :: EditShape(e, target) && e.key.id == id)
            && (forall e | e in edits :: |e.key.path| == 2 && e.key.path[0] == group && e.key.path[1] in keys)
            && ApartFor(edits, ids)
    decreases |keys|
  {
    if keys == [] {
    } else {
      LeafEditsShape(target, id, group, leaves, keys[1..], ids);
    }
  }

  lemma KeyEditsShape(target: Target, id: string, key: string, value: Json, ids: set<string>)
    requires KeyEdits(target, id, key, value).Ok?
    ensures var edits := KeyEdits(target, id, key, value).value;
            && (forall e | e in edits :: EditShape(e, target) && e.key.id == id && e.key.path[0] == key)
            && ApartFor(edits, ids)
  {
    if key in LEAF_GROUPS && value.Obj? {
      var keys := KeySeq(value.fields.Keys);
      assert forall k | k in keys :: k in ToSet(keys);
      LeafEditsShape(target, id, key, value.fields, keys, ids);
    }
  }

  lemma {:induction false} ChangesForShape(
    target: Target, id: string, changes: Record, keys: seq<string>, ids: set<string>)
    requires (forall k | k in keys :: k in changes) && NoDuplicates(keys)
    requires ChangesFor(target, id, changes, keys).Ok?
    ensures var edits := ChangesFor(target, id, changes, keys).value;
            && (forall e | e in edits :: EditShape(e, target) && e.key.id == id && e.key.path[0] in keys)
            && ApartFor(edits, ids)
    decreases |keys|
  {
    if keys == [] {
    } else {
      var first := KeyEdits(target, id, keys[0], changes[keys[0]]).value;
      var rest := ChangesFor(target, id, changes, keys[1..]).value;
      KeyEditsShape(target, id, keys[0], changes[keys[0]], ids);
      ChangesForShape(target, id, changes, keys[1..], ids);
      forall x, y | x in first && y in rest
        ensures Apart(x.key, y.key)
      {
        assert x.key.path[0] == keys[0];
        assert y.key.path[0] in keys[1..];
      }
      ApartAppend(first, rest, ids);
    }
  }

  lemma AllChangesShape(target: Target, id: string, changes: Record, ids: set<string>)
    requires ChangesFor(target, id, changes, KeySeq(changes.Keys)).Ok?
    ensures var edits := ChangesFor(target, id, changes, KeySeq(changes.Keys)).value;
            && (forall e | e in edits :: EditShape(e, target) && e.key.id == id)
            && ApartFor(edits, ids)
  {
    var keys := KeySeq(changes.Keys);
    assert forall k | k in keys :: k in ToSet(keys);
    ChangesForShape(target, id, changes, keys, ids);
  }

  predicate DistinctIn(updates: seq<ItemChanges>, ids: set<string>) {
    updates == [] ||
    ((updates[0].id in ids ==> forall u | u in updates[1..] :: u.id != updates[0].id) && DistinctIn(updates[1..], ids))
  }

  lemma {:induction false} BulkEditsShape(updates: seq<ItemChanges>, ids: set<string>)
    requires BulkEdits(updates).Ok? && DistinctIn(updates, ids)
    ensures var edits := BulkEdits(updates).value;
            && (forall e | e in edits :: EditShape(e, Item) && exists u | u in updates :: u.id == e.key.id)
            && ApartFor(edits, ids)
  {
    if updates == [] {
    } else {
      var u := updates[0];
      AllChangesShape(Item, u.id, u.changes, ids);
      BulkEditsShape(updates[1..], ids);
      ApartAppend(ChangesFor(Item, u.id, u.changes, KeySeq(u.changes.Keys)).value, BulkEdits(updates[1..]).value, ids);
    }
  }

  // -------------------------------------------------------- selected fields

  predicate Taken(state: State, expectations: seq<Expectation>, e: Edit, choices: map<FieldKey, FieldChoice>) {
    && ExpectedValue(expectations, e.key) != Some(e.after)
    && Chosen(choices, e.key) != Some(ServerValue)
    && e.after != ReadKey(state, e.key)
  }

  lemma {:induction false} SelectedShape(
    state: State, expectations: seq<Expectation>, edits: seq<Edit>, choices: map<FieldKey, FieldChoice>, target: Target)
    requires EditedFields(state, expectations, edits).Ok?
    requires forall e | e in edits :: EditShape(e, target)
    ensures forall f | f in Selected(EditedFields(state, expectations, edits).value, choices) ::
              && ReviewShape(f) && f.key.target == target && Writable(f)
              && (exists e | e in edits :: e.key == f.key && e.after == f.device)
    ensures forall e | e in edits && Taken(state, expectations, e, choices) ::
              exists f | f in Selected(EditedFields(state, expectations, edits).value, choices) ::
                f.key == e.key && f.device == e.after
  {
    hide ExpectedValue, ReadKey;
    if edits != [] && ExpectedValue(expectations, edits[0].key) == Some(edits[0].after) {
      SelectedShape(state, expectations, edits[1..], choices, target);
    } else if edits != [] {
      SelectedShape(state, expectations, edits[1..], choices, target);
      var f := ReviewEdit(state, ExpectedValue(expectations, edits[0].key), edits[0]);
      var rest := EditedFields(state, expectations, edits[1..]).value;
      assert ([f] + rest)[1..] == rest;
      assert EditShape(edits[0], target);
      forall e | e in edits && Taken(state, expectations, e, choices)
        ensures exists x | x in Selected([f] + rest, choices) :: x.key == e.key && x.device == e.after
      {
        if e == edits[0] {
          assert f in Selected([f] + rest, choices);
        } else {
          assert e in edits[1..];
          var x :| x in Selected(rest, choices) && x.key == e.key && x.device == e.after;
          assert x in Selected([f] + rest, choices);
        }
      }
    }
  }

  /** Against a named leaf, every selected field is that leaf's own or lies elsewhere. */
  lemma {:induction false} EditVersusSelected(
    state: State, expectations: seq<Expectation>, edits: seq<Edit>, choices: map<FieldKey, FieldChoice>,
    ids: set<string>, e: Edit)
    requires EditedFields(state, expectations, edits).Ok? && ApartFor(edits, ids) && e in edits
    ensures forall f | f in Selected(EditedFields(state, expectations, edits).value, choices) && f.key.id in ids ::
              (f.key == e.key && Taken(state, expectations, e, choices)) || Apart(f.key, e.key)
  {
    hide ExpectedValue, ReadKey;
    var fields := Selected(EditedFields(state, expectations, edits).value, choices);
    if e in edits[1..] {
      EditVersusSelected(state, expectations, edits[1..], choices, ids, e);
    } else {
      SelectedFrom(state, expectations, edits[1..], choices);
    }
    if ExpectedValue(expectations, edits[0].key) != Some(edits[0].after) {
      var f := ReviewEdit(state, ExpectedValue(expectations, edits[0].key), edits[0]);
      var rest := EditedFields(state, expectations, edits[1..]).value;
      assert ([f] + rest)[1..] == rest;
    }
  }

  lemma {:induction false} SelectedFrom(
    state: State, expectations: seq<Expectation>, edits: seq<Edit>, choices: map<FieldKey, FieldChoice>)
    requires EditedFields(state, expectations, edits).Ok?
    ensures forall f | f in Selected(EditedFields(state, expectations, edits).value, choices) ::
              exists e | e in edits :: e.key == f.key
  {
    hide ExpectedValue, ReadKey;
    if edits == [] {
    } else {
      SelectedFrom(state, expectations, edits[1..], choices);
      if ExpectedValue(expectations, edits[0].key) != Some(edits[0].after) {
        var f := ReviewEdit(state, ExpectedValue(expectations, edits[0].key), edits[0]);
        var rest := EditedFields(state, expectations, edits[1..]).value;
        assert ([f] + rest)[1..] == rest;
      }
    }
  }

  lemma {:induction false} SelectedApart(
    state: State, expectations: seq<Expectation>, edits: seq<Edit>, choices: map<FieldKey, FieldChoice>,
    ids: set<string>)
    requires EditedFields(state, expectations, edits).Ok? && ApartFor(edits, ids)
    requires forall f | f in Selected(EditedFields(state, expectations, edits).value, choices) :: f.key.id in ids
    ensures AllApart(Selected(EditedFields(state, expectations, edits).value, choices))
  {
    hide ExpectedValue, ReadKey;
    if edits != [] && ExpectedValue(expectations, edits[0].key) == Some(edits[0].after) {
      SelectedApart(state, expectations, edits[1..], choices, ids);
    } else if edits != [] {
      var f := ReviewEdit(state, ExpectedValue(expectations, edits[0].key), edits[0]);
      var rest := EditedFields(state, expectations, edits[1..]).value;
      assert ([f] + rest)[1..] == rest;
      var fields := Selected([f] + rest, choices);
      assert forall x | x in Selected(rest, choices) :: x in fields;
      SelectedApart(state, expectations, edits[1..], choices, ids);
      SelectedFrom(state, expectations, edits[1..], choices);
      if fields != Selected(rest, choices) {
        assert fields == [f] + Selected(rest, choices);
        assert fields[1..] == Selected(rest, choices);
        assert f in fields;
      }
    }
  }

  // ------------------------------------------- what the new command writes

  /** Every record holds what it held, with the selected values written into it. */
  predicate Rewritten(
    before: map<RecordId, Record>, after: map<RecordId, Record>, target: Target, selected: seq<ReviewField>)
    requires forall f | f in selected :: Writable(f)
  {
    && after.Keys == before.Keys
    && (forall f | f in selected :: f.key.Rid() in before)
    && forall rid | rid in before ::
         after[rid] == if rid.target == target then WriteAll(before[rid], FieldsOf(selected, rid.id)) else before[rid]
  }

  predicate Reviewable(selected: seq<ReviewField>, target: Target) {
    forall f | f in selected :: ReviewShape(f) && f.key.target == target && Writable(f)
  }

  /** Where running a command leads: the new records, or the same ones when there was nothing to change. */
  function RecordsAfter(s: State, command: Command): Option<map<RecordId, Record>> {
    match CommandPatches(s, command)
    case Err(problem) => if problem == NoChanges then Some(s.records) else None
    case Ok(patches) =>
      match ApplyPatches(s.records, patches)
      case Err(_) => None
      case Ok(records) => Some(records)
  }

  lemma {:induction false} NoneOf(selected: seq<ReviewField>, id: string)
    requires forall f | f in selected :: f.key.id != id
    ensures FieldsOf(selected, id) == []
  {
    if selected == [] {
    } else {
      NoneOf(selected[1..], id);
    }
  }

  lemma {:induction false} AllOf(selected: seq<ReviewField>, id: string)
    requires forall f | f in selected :: f.key.id == id
    ensures FieldsOf(selected, id) == selected
  {
    if selected == [] {
    } else {
      AllOf(selected[1..], id);
    }
  }

  /** Fields of one record leave every other record alone. */
  lemma OthersUnwritten(records: map<RecordId, Record>, rid: RecordId, selected: seq<ReviewField>)
    requires forall f | f in selected :: f.key.id == rid.id && Writable(f)
    ensures forall other | other in records && other.target == rid.target && other != rid ::
              WriteAll(records[other], FieldsOf(selected, other.id)) == records[other]
  {
    hide WriteAll;
    forall other | other in records && other.target == rid.target && other != rid
      ensures WriteAll(records[other], FieldsOf(selected, other.id)) == records[other]
    {
      NoneOf(selected, other.id);
      WriteNothing(records[other]);
    }
  }

  /** An update of one record that carries the collected changes writes the selected values. */
  lemma OneRecordRewritten(
    s: State, rid: RecordId, selected: seq<ReviewField>, changes: Record, allowed: set<string>,
    after: map<RecordId, Record>)
    requires Fill(s, map[], selected).Ok? && Reviewable(selected, rid.target) && AllApart(selected)
    requires forall f | f in selected :: f.key.id == rid.id
    requires rid in s.records ==>
      s.records[rid] + changes == s.records[rid] + ChangesOf(Fill(s, map[], selected).value, rid.id)
    requires var r := UpdatePatches(s, rid, changes, allowed);
             (r.Ok? && ApplyPatches(s.records, r.value) == Ok(after)) || (r == Err(NoChanges) && after == s.records)
    ensures Rewritten(s.records, after, rid.target, selected)
  {
    hide UpdatePatches, ApplyPatches, Fill, WriteAll, AllApart, ReviewShape, FieldsOf;
    UpdateWrites(s, rid, changes, allowed);
    AllOf(selected, rid.id);
    FillWrites(s, rid, map[], selected);
    assert s.records[rid] + map[] == s.records[rid];
    OthersUnwritten(s.records, rid, selected);
    assert after == s.records[rid := s.records[rid] + changes];
  }

  lemma WriteNothing(m: Record)
    ensures WriteAll(m, []) == m
  {
  }

  lemma RenameRewritten(s: State, f: ReviewField, command: Command, after: map<RecordId, Record>)
    requires f.key == FieldKey(Workspace, s.workspaceId, ["name"]) && f.device.Some?
    requires Fill(s, map[], [f]).Ok? && Rebuild(s, Rename(Json.Null), Fill(s, map[], [f]).value, [f]) == Ok(command)
    requires RecordsAfter(s, command) == Some(after)
    ensures Rewritten(s.records, after, Workspace, [f])
  {
    assert [f][1..] == [];
    var changes := ChangesOf(Fill(s, map[], [f]).value, s.workspaceId);
    assert changes == map["name" := f.device.value];
    OneRecordRewritten(s, RecordId(Workspace, s.workspaceId), [f], changes, {"name"}, after);
  }

  lemma {:induction false} ChosenUpdateFor(
    updates: seq<ItemChanges>, byRecord: ByRecord, selected: seq<ReviewField>, id: string)
    ensures UpdateFor(ChosenUpdates(updates, byRecord, selected), id) ==
            if id in byRecord && (exists u | u in updates :: u.id == id)
            then Some(BulkChanges(byRecord[id], selected, id)) else None
  {
    hide BulkChanges;
    if updates == [] {
    } else {
      ChosenUpdateFor(updates[1..], byRecord, selected, id);
      var rest := ChosenUpdates(updates[1..], byRecord, selected);
      if updates[0].id in byRecord {
        var first := ItemChanges(updates[0].id, BulkChanges(byRecord[updates[0].id], selected, updates[0].id));
        assert ChosenUpdates(updates, byRecord, selected) == [first] + rest;
        assert ([first] + rest)[1..] == rest;
      } else {
        assert ChosenUpdates(updates, byRecord, selected) == rest;
      }
      assert (exists u | u in updates :: u.id == id) <==>
             (updates[0].id == id || exists u | u in updates[1..] :: u.id == id);
    }
  }

  /** A bulk edit the state accepts names each changed item once and only with allowed changes. */
  lemma {:induction false} AcceptedBulk(s: State, updates: seq<ItemChanges>, seen: set<string>, id: string)
    requires BulkPatches(s, updates, seen).Ok? && UpdateFor(updates, id).Some?
    ensures RecordId(Item, id) in s.records && ValidBulkChanges(UpdateFor(updates, id).value)
    decreases |updates|
  {
    hide BulkItemPatches, ValidBulkChanges;
    if updates[0].id == id {
    } else {
      AcceptedBulk(s, updates[1..], seen + {updates[0].id}, id);
    }
  }

  lemma {:induction false} AcceptedDistinct(
    s: State, updates: seq<ItemChanges>, byRecord: ByRecord, selected: seq<ReviewField>, seen: set<string>)
    requires BulkPatches(s, ChosenUpdates(updates, byRecord, selected), seen).Ok?
    ensures DistinctIn(updates, byRecord.Keys)
    ensures forall u | u in updates && u.id in byRecord :: u.id !in seen
    decreases |updates|
  {
    hide BulkItemPatches, ValidBulkChanges, BulkChanges;
    if updates == [] {
    } else {
      var rest := ChosenUpdates(updates[1..], byRecord, selected);
      if updates[0].id in byRecord {
        var first := ItemChanges(updates[0].id, BulkChanges(byRecord[updates[0].id], selected, updates[0].id));
        assert ChosenUpdates(updates, byRecord, selected) == [first] + rest;
        assert ([first] + rest)[1..] == rest;
        AcceptedDistinct(s, updates[1..], byRecord, selected, seen + {updates[0].id});
      } else {
        assert ChosenUpdates(updates, byRecord, selected) == rest;
        AcceptedDistinct(s, updates[1..], byRecord, selected, seen);
      }
    }
  }

  lemma BulkRewritten(s: State, updates: seq<ItemChanges>, selected: seq<ReviewField>, after: map<RecordId, Record>)
    requires Fill(s, map[], selected).Ok? && Reviewable(selected, Item) && AllApart(selected)
    requires forall f | f in selected :: exists u | u in updates :: u.id == f.key.id
    requires RecordsAfter(s, BulkUpdate(ChosenUpdates(updates, Fill(s, map[], selected).value, selected))) ==
      Some(after)
    ensures Rewritten(s.records, after, Item, selected)
  {
    hide BulkPatches, Fill, WriteAll, BulkRecord, BulkChanges, ValidBulkChanges, ApplyPatches, ReviewShape;
    var byRecord := Fill(s, map[], selected).value;
    var chosen := ChosenUpdates(updates, byRecord, selected);
    BulkUpdateWrites(s, chosen);
    NeverNoChanges(s, chosen, {});
    FilledKeys(s, map[], selected);
    forall f | f in selected
      ensures f.key.Rid() in s.records
    {
      ChosenUpdateFor(updates, byRecord, selected, f.key.id);
      AcceptedBulk(s, chosen, {}, f.key.id);
    }
    forall rid | rid in s.records && rid.target == Item
      ensures after[rid] == WriteAll(s.records[rid], FieldsOf(selected, rid.id))
    {
      ItemRewritten(s, updates, selected, rid, after);
    }
  }

  lemma ItemRewritten(
    s: State, updates: seq<ItemChanges>, selected: seq<ReviewField>, rid: RecordId, after: map<RecordId, Record>)
    requires Fill(s, map[], selected).Ok? && Reviewable(selected, Item) && AllApart(selected)
    requires forall f | f in selected :: exists u | u in updates :: u.id == f.key.id
    requires rid in s.records && rid.target == Item
    requires var chosen := ChosenUpdates(updates, Fill(s, map[], selected).value, selected);
             BulkPatches(s, chosen, {}).Ok? && BulkWritten(s.records, after, chosen)
    ensures after[rid] == WriteAll(s.records[rid], FieldsOf(selected, rid.id))
  {
    hide BulkPatches, Fill, WriteAll, BulkRecord, BulkChanges, ValidBulkChanges, ReviewShape;
    var byRecord := Fill(s, map[], selected).value;
    ChosenUpdateFor(updates, byRecord, selected, rid.id);
    FieldsOfApart(selected, rid.id);
    FillWrites(s, rid, map[], selected);
    if rid.id in byRecord {
      assert FieldsOf(selected, rid.id)[0] in selected;
      AcceptedBulk(s, ChosenUpdates(updates, byRecord, selected), {}, rid.id);
      BulkMatches(s, rid, selected);
    } else {
      assert FieldsOf(selected, rid.id) == [];
      WriteNothing(s.records[rid]);
    }
  }

  // ------------------------------------------------------- the main results

  function TargetOf(command: Command): Target {
    match command
    case Rename(_) => Workspace
    case LocationUpdate(_, _) => Location
    case _ => Item
  }

  /** A decision to apply an ordinary edit, and the outcome. */
  ghost predicate Applied(
    replica: Replica, state: State, entry: OutboxEntry, index: nat, decision: Decision, options: Options,
    edits: seq<Edit>, decided: Decided)
  {
    && state.workspaceId == entry.envelope.workspaceId
    && EditablePatches(entry.envelope) == Ok(Some(edits))
    && StepFor(replica, state, entry, index).Ok?
    && decision.action == ApplyChange
    && ApplyDecision(state, StepFor(replica, state, entry, index).value, decision, options) == Ok(decided)
  }

  lemma AppliedRecords(state: State, step: ReviewStep, decision: Decision, options: Options, decided: Decided)
    requires decision.action == ApplyChange && ApplyDecision(state, step, decision, options) == Ok(decided)
    requires step.kind == Fields
    ensures ChoicesMatch(step.fields, decision.choices) && ConflictsChosen(step.fields, decision.choices)
    ensures var selected := Selected(step.fields, decision.choices);
            if selected == [] then
              decided.state == state
            else
              && Fill(state, map[], selected).Ok?
              && var command := Rebuild(state, step.entry.envelope.command, Fill(state, map[], selected).value,
                selected);
              && command.Ok?
              && RecordsAfter(state, command.value) == Some(decided.state.records)
  {
    hide Fill, Rebuild, Selected, ChoicesMatch, ConflictsChosen, CommandPatches, ApplyPatches, ExpectationsHold;
    var command := ChosenCommand(state, step, decision);
    if command.Ok? && command.value.Some? {
      var patches := CommandPatches(state, command.value.value);
      if patches.Ok? {
        PatchesNeverNoChanges(state.records, patches.value);
      }
    }
  }

  lemma EditsAre(e: Envelope, edits: seq<Edit>, ids: set<string>)
    requires EditablePatches(e) == Ok(Some(edits))
    requires e.command.BulkUpdate? ==> DistinctIn(e.command.updates, ids)
    ensures forall x | x in edits :: EditShape(x, TargetOf(e.command))
    ensures ApartFor(edits, ids)
    ensures match e.command
            case Rename(name) => edits == [Edit(FieldKey(Workspace, e.workspaceId, ["name"]), Some(name))]
            case ItemUpdate(id, _) => forall x | x in edits :: x.key.id == id
            case LocationUpdate(id, _) => forall x | x in edits :: x.key.id == id
            case BulkUpdate(updates) => forall x | x in edits :: exists u | u in updates :: u.id == x.key.id
            case _ => false
  {
    hide ChangesFor, BulkEdits, EditShape;
    match e.command
    case Rename(name) => RenameShape(e.workspaceId, name, ids);
    case ItemUpdate(id, changes) => AllChangesShape(Item, id, changes, ids);
    case LocationUpdate(id, changes) => AllChangesShape(Location, id, changes, ids);
    case BulkUpdate(updates) => BulkEditsShape(updates, ids);
    case _ =>
  }

  lemma RenameShape(workspaceId: string, name: Json, ids: set<string>)
    ensures var e := Edit(FieldKey(Workspace, workspaceId, ["name"]), Some(name));
            EditShape(e, Workspace) && ApartFor([e], ids)
  {
    var e := Edit(FieldKey(Workspace, workspaceId, ["name"]), Some(name));
    assert [e][1..] == [];
  }

  /** Without repeated items, the shape of the edits alone; the general case restricts to the chosen items. */
  lemma BulkShapeOnly(e: Envelope, edits: seq<Edit>)
    requires EditablePatches(e) == Ok(Some(edits))
    ensures forall x | x in edits :: EditShape(x, TargetOf(e.command))
    ensures e.command.BulkUpdate? ==> forall x | x in edits :: exists u | u in e.command.updates :: u.id == x.key.id
  {
    if e.command.BulkUpdate? {
      NothingRepeats(e.command.updates);
    }
    EditsAre(e, edits, {});
  }

  lemma {:induction false} NothingRepeats(updates: seq<ItemChanges>)
    ensures DistinctIn(updates, {})
  {
    if updates == [] {
    } else {
      NothingRepeats(updates[1..]);
    }
  }

  /**
   However the new command is put together (a whole merged group, single leaves,
   or several items at once), running it writes exactly the selected values.
   */
  lemma DecisionWritesSelection(
    replica: Replica, state: State, entry: OutboxEntry, index: nat, decision: Decision, options: Options,
    edits: seq<Edit>, decided: Decided) returns (ids: set<string>)
    requires Applied(replica, state, entry, index, decision, options, edits, decided)
    ensures var selected := Selected(StepFor(replica, state, entry, index).value.fields, decision.choices);
            && Reviewable(selected, TargetOf(entry.envelope.command))
            && AllApart(selected)
            && Rewritten(state.records, decided.state.records, TargetOf(entry.envelope.command), selected)
            && ApartFor(edits, ids)
            && (forall f | f in selected :: f.key.id in ids)
  {
    hide Fill, ChosenUpdates, BulkPatches, EditedFields, EditShape, ReviewShape, ApartFor, Selected, RecordsAfter,
         WriteAll, DistinctIn, ExpectedValue, ChangedContext, UpdatePatches, ApplyDecision;
    var step := StepFor(replica, state, entry, index).value;
    var selected := Selected(step.fields, decision.choices);
    var e := entry.envelope;
    AppliedRecords(state, step, decision, options, decided);
    BulkShapeOnly(e, edits);
    SelectedShape(state, e.expectations, edits, decision.choices, TargetOf(e.command));
    if selected == [] {
      ids := {};
      if e.command.BulkUpdate? {
        NothingRepeats(e.command.updates);
      }
      EditsAre(e, edits, ids);
      NothingWritten(state.records, TargetOf(e.command));
    } else {
      ids := SelectionRewritten(state, e, edits, step.fields, decision.choices, decided.state.records);
    }
  }

  lemma NothingWritten(records: map<RecordId, Record>, target: Target)
    ensures Rewritten(records, records, target, [])
  {
  }

  lemma SelectionRewritten(
    state: State, e: Envelope, edits: seq<Edit>, fields: seq<ReviewField>, choices: map<FieldKey, FieldChoice>,
    after: map<RecordId, Record>) returns (ids: set<string>)
    requires state.workspaceId == e.workspaceId && EditablePatches(e) == Ok(Some(edits))
    requires EditedFields(state, e.expectations, edits) == Ok(fields)
    requires Selected(fields, choices) != []
    requires Reviewable(Selected(fields, choices), TargetOf(e.command))
    requires forall f | f in Selected(fields, choices) :: exists x | x in edits :: x.key == f.key && x.after == f.device
    requires Fill(state, map[], Selected(fields, choices)).Ok?
    requires var command := Rebuild(state, e.command, Fill(state, map[], Selected(fields, choices)).value,
      Selected(fields, choices));
             command.Ok? && RecordsAfter(state, command.value) == Some(after)
    ensures AllApart(Selected(fields, choices))
    ensures Rewritten(state.records, after, TargetOf(e.command), Selected(fields, choices))
    ensures ApartFor(edits, ids) && forall f | f in Selected(fields, choices) :: f.key.id in ids
  {
    hide Fill, ChosenUpdates, BulkPatches, EditedFields, EditShape, ReviewShape, ApartFor, Selected,
         WriteAll, DistinctIn, ExpectedValue, UpdatePatches, ApplyPatches, Rewritten, AllApart;
    var selected := Selected(fields, choices);
    var byRecord := Fill(state, map[], selected).value;
    ids := byRecord.Keys;
    FilledKeys(state, map[], selected);
    if e.command.BulkUpdate? {
      var chosen := ChosenUpdates(e.command.updates, byRecord, selected);
      NeverNoChanges(state, chosen, {});
      AcceptedDistinct(state, e.command.updates, byRecord, selected, {});
    }
    EditsAre(e, edits, ids);
    SelectedApart(state, e.expectations, edits, choices, ids);
    match e.command {
      case Rename(_) =>
        SingleSelected(state, e.expectations, edits, fields, choices);
        assert selected == [selected[0]];
        RenameRewritten(state, selected[0], Rebuild(state, e.command, byRecord, selected).value, after);
      case ItemUpdate(id, _) =>
        OneRecordRewritten(state, RecordId(Item, id), selected, ChangesOf(byRecord, id), ITEM_KEYS, after);
      case LocationUpdate(id, _) =>
        OneRecordRewritten(state, RecordId(Location, id), selected, ChangesOf(byRecord, id), LOCATION_KEYS, after);
      case BulkUpdate(updates) => BulkRewritten(state, updates, selected, after);
      case _ =>
    }
  }

  lemma SingleSelected(
    state: State, expectations: seq<Expectation>, edits: seq<Edit>, fields: seq<ReviewField>,
    choices: map<FieldKey, FieldChoice>)
    requires |edits| == 1 && EditedFields(state, expectations, edits) == Ok(fields)
    requires Selected(fields, choices) != []
    ensures |Selected(fields, choices)| == 1
    ensures Selected(fields, choices)[0].key == edits[0].key && Selected(fields, choices)[0].device == edits[0].after
  {
    hide ExpectedValue, ReadKey;
    assert edits[1..] == [];
    assert |fields| == 1 && fields[1..] == [];
  }

  /** What a reviewed leaf should become: one side changed, or both did and a side was chosen. */
  function Merge(before: Option<Option<Json>>, device: Option<Json>, server: Option<Json>, choice: Option<FieldChoice>)
    : Option<Json>
  {
    if before == Some(device) then server
    else if device == server then server
    else if before == Some(server) then (if choice == Some(ServerValue) then server else device)
    else if choice == Some(DeviceValue) then device
    else server
  }

  predicate MustChoose(before: Option<Option<Json>>, device: Option<Json>, server: Option<Json>) {
    before != Some(device) && device != server && before != Some(server)
  }

  /**
   The three-way merge, for every leaf the command of a reviewed edit names. Where
   both sides changed the leaf, a side was chosen.
   */
  lemma LeafIsMerged(
    replica: Replica, state: State, entry: OutboxEntry, index: nat, decision: Decision, options: Options,
    edits: seq<Edit>, decided: Decided, e: Edit)
    requires Applied(replica, state, entry, index, decision, options, edits, decided) && NamesLeaf(entry.envelope, e)
    ensures var before := ExpectedValue(entry.envelope.expectations, e.key);
            var server := ReadKey(state, e.key);
            var choice := Chosen(decision.choices, e.key);
            && ReadKey(decided.state, e.key) == Merge(before, e.after, server, choice)
            && (MustChoose(before, e.after, server) ==> choice == Some(DeviceValue) || choice == Some(ServerValue))
  {
    hide Fill, BulkPatches, EditShape, ReviewShape, ApartFor, RecordsAfter, EditablePatches,
         WriteAll, ExpectedValue, ChangedContext, ApplyDecision, AllApart, Rewritten, FieldsOf, NamesLeaf;
    EditsAreNamedLeaves(entry.envelope);
    var ids := DecisionWritesSelection(replica, state, entry, index, decision, options, edits, decided);
    var step := StepFor(replica, state, entry, index).value;
    var selected := Selected(step.fields, decision.choices);
    AppliedRecords(state, step, decision, options, decided);
    BulkShapeOnly(entry.envelope, edits);
    SelectedShape(state, entry.envelope.expectations, edits, decision.choices, TargetOf(entry.envelope.command));
    if MustChoose(ExpectedValue(entry.envelope.expectations, e.key), e.after, ReadKey(state, e.key)) {
      ConflictIsListed(state, entry.envelope.expectations, edits, e);
    }
    assert EditShape(e, TargetOf(entry.envelope.command));
    EditTarget(e, TargetOf(entry.envelope.command));
    if Taken(state, entry.envelope.expectations, e, decision.choices) {
      var f :| f in selected && f.key == e.key && f.device == e.after;
      ReadTaken(state.records, decided.state.records, TargetOf(entry.envelope.command), selected, f);
    } else {
      EditVersusSelected(state, entry.envelope.expectations, edits, decision.choices, ids, e);
      ReadUntaken(state.records, decided.state.records, TargetOf(entry.envelope.command), selected, e.key);
    }
  }

  /**
   The three-way merge told from both sides: for a command accepted on the state the
   user saw, every leaf it names ends up merged from what the user saw there, what the
   user set it to, what is online, and the choice made.
   */
  lemma CreatedLeafIsMerged(
    replica: Replica, state: State, entry: OutboxEntry, index: nat, decision: Decision, options: Options,
    edits: seq<Edit>, decided: Decided, e: Edit, seen: State)
    requires Applied(replica, state, entry, index, decision, options, edits, decided) && NamesLeaf(entry.envelope, e)
    requires var c := entry.envelope;
             && c == CreateEnvelope(seen, c.command, c.id, c.actorId, c.deviceId, c.timestamp, c.authorization, None)
             && Apply(seen, c).Ok?
    ensures var saw, server := ReadKey(seen, e.key), ReadKey(state, e.key);
            && ReadKey(decided.state, e.key) == Merge(Some(saw), e.after, server, Chosen(decision.choices, e.key))
            && (saw != e.after && server != e.after && saw != server ==> e.key in decision.choices)
  {
    hide Applied, Apply, ExpectedValue, ReadKey, NamesLeaf, ExpectationsFor, StepFor;
    var c := entry.envelope;
    CreatedLeafIsSeen(seen, c.command, c.id, c.actorId, c.deviceId, c.timestamp, c.authorization, e);
    LeafIsMerged(replica, state, entry, index, decision, options, edits, decided, e);
  }

  /** Selected values differ from what is online, so writing one of them is a change. */
  lemma {:induction false} SelectedDiffers(
    state: State, expectations: seq<Expectation>, edits: seq<Edit>, choices: map<FieldKey, FieldChoice>)
    requires EditedFields(state, expectations, edits).Ok?
    ensures forall f | f in Selected(EditedFields(state, expectations, edits).value, choices) ::
              exists e | e in edits :: e.key == f.key && e.after == f.device && Taken(state, expectations, e, choices)
  {
    hide ExpectedValue, ReadKey;
    if edits == [] {
    } else {
      SelectedDiffers(state, expectations, edits[1..], choices);
      assert edits == [edits[0]] + edits[1..];
      if ExpectedValue(expectations, edits[0].key) != Some(edits[0].after) {
        var f := ReviewEdit(state, ExpectedValue(expectations, edits[0].key), edits[0]);
        var rest := EditedFields(state, expectations, edits[1..]).value;
        assert ([f] + rest)[1..] == rest;
      }
    }
  }

  /** The leaf ends up with another value than it has online. */
  predicate Replaces(state: State, entry: OutboxEntry, decision: Decision, e: Edit) {
    Merge(ExpectedValue(entry.envelope.expectations, e.key), e.after, ReadKey(state, e.key),
          Chosen(decision.choices, e.key)) != ReadKey(state, e.key)
  }

  /**
   An ordinary edit that is applied is queued again exactly when the merge replaces one
   of the leaves it names.
   */
  lemma AppliedEditIsQueued(
    replica: Replica, state: State, entry: OutboxEntry, index: nat, decision: Decision, options: Options,
    edits: seq<Edit>, decided: Decided)
    requires Applied(replica, state, entry, index, decision, options, edits, decided)
    ensures decided.entry.Some? <==> exists e | NamesLeaf(entry.envelope, e) :: Replaces(state, entry, decision, e)
  {
    hide Fill, BulkPatches, EditShape, ReviewShape, ApartFor, RecordsAfter, EditablePatches, ReadKey, Rebuild,
         WriteAll, ExpectedValue, ChangedContext, AllApart, Rewritten, FieldsOf, NamesLeaf, ApplyDecision, Merge;
    EditsAreNamedLeaves(entry.envelope);
    if decided.entry.None? {
      LeftOutUnchanged(state, StepFor(replica, state, entry, index).value, decision, options, decided);
      forall e | NamesLeaf(entry.envelope, e)
        ensures !Replaces(state, entry, decision, e)
      {
        LeafIsMerged(replica, state, entry, index, decision, options, edits, decided, e);
      }
    } else {
      var step := StepFor(replica, state, entry, index).value;
      QueuedIsSelected(state, step, decision, options, decided);
      AppliedRecords(state, step, decision, options, decided);
      SelectedDiffers(state, entry.envelope.expectations, edits, decision.choices);
      var f := Selected(step.fields, decision.choices)[0];
      var e :| e in edits && e.key == f.key && e.after == f.device &&
        Taken(state, entry.envelope.expectations, e, decision.choices);
      LeafIsMerged(replica, state, entry, index, decision, options, edits, decided, e);
      TakenReplaces(state, entry, decision, e);
    }
  }

  lemma LeftOutUnchanged(state: State, step: ReviewStep, decision: Decision, options: Options, decided: Decided)
    requires ApplyDecision(state, step, decision, options) == Ok(decided) && decided.entry.None?
    ensures decided.state == state
  {
    hide ChosenCommand, Apply, WasApplied;
  }

  lemma QueuedIsSelected(state: State, step: ReviewStep, decision: Decision, options: Options, decided: Decided)
    requires ApplyDecision(state, step, decision, options) == Ok(decided) && decided.entry.Some?
    ensures step.kind == Fields ==> Selected(step.fields, decision.choices) != []
  {
    hide Apply, WasApplied, Selected, ChoicesMatch, ConflictsChosen, Fill, Rebuild, ExpectationsFor;
  }

  lemma TakenReplaces(state: State, entry: OutboxEntry, decision: Decision, e: Edit)
    requires Taken(state, entry.envelope.expectations, e, decision.choices)
    requires MustChoose(ExpectedValue(entry.envelope.expectations, e.key), e.after, ReadKey(state, e.key)) ==>
      e.key in decision.choices
    requires e.key in decision.choices ==> decision.choices[e.key] != UnknownChoice
    ensures Replaces(state, entry, decision, e)
  {
    hide ExpectedValue, ReadKey;
  }

  lemma EditTarget(e: Edit, target: Target)
    requires EditShape(e, target)
    ensures e.key.target == target
  {
  }

  lemma {:induction false} ConflictIsListed(state: State, expectations: seq<Expectation>, edits: seq<Edit>, e: Edit)
    requires EditedFields(state, expectations, edits).Ok? && e in edits
    requires MustChoose(ExpectedValue(expectations, e.key), e.after, ReadKey(state, e.key))
    ensures exists f | f in EditedFields(state, expectations, edits).value :: f.key == e.key && f.conflict
  {
    hide ExpectedValue, ReadKey;
    if e in edits[1..] {
      ConflictIsListed(state, expectations, edits[1..], e);
      var f :| f in EditedFields(state, expectations, edits[1..]).value && f.key == e.key && f.conflict;
      assert f in EditedFields(state, expectations, edits).value;
    } else {
      assert ReviewEdit(state, ExpectedValue(expectations, e.key), e) in EditedFields(state, expectations, edits).value;
    }
  }

  lemma ReadTaken(
    before: map<RecordId, Record>, after: map<RecordId, Record>, target: Target, selected: seq<ReviewField>,
    f: ReviewField)
    requires Reviewable(selected, target) && AllApart(selected) && f in selected
    requires Rewritten(before, after, target, selected)
    ensures f.key.Rid() in after && ReadPath(Some(Obj(after[f.key.Rid()])), f.key.path) == f.device
  {
    hide WriteAll, ReviewShape;
    FieldsOfApart(selected, f.key.id);
    ReadWritten(before[f.key.Rid()], FieldsOf(selected, f.key.id), f);
  }

  lemma ReadUntaken(
    before: map<RecordId, Record>, after: map<RecordId, Record>, target: Target, selected: seq<ReviewField>,
    key: FieldKey)
    requires Reviewable(selected, target) && Rewritten(before, after, target, selected)
    requires key.target == target ==> forall f | f in selected :: Apart(f.key, key)
    ensures key.Rid() in after <==> key.Rid() in before
    ensures key.Rid() in before ==>
              ReadPath(Some(Obj(after[key.Rid()])), key.path) == ReadPath(Some(Obj(before[key.Rid()])), key.path)
  {
    hide WriteAll, ReviewShape;
    if key.Rid() in before && key.target == target {
      ReadUnwritten(before[key.Rid()], FieldsOf(selected, key.id), key.path);
    }
  }

  /**
   Everything the edit does not name keeps its online value: other records, other
   fields, and the other leaves of a group of which some leaves were written.
   */
  lemma NothingElseChanges(
    replica: Replica, state: State, entry: OutboxEntry, index: nat, decision: Decision, options: Options,
    edits: seq<Edit>, decided: Decided, key: FieldKey)
    requires Applied(replica, state, entry, index, decision, options, edits, decided)
    requires forall e | NamesLeaf(entry.envelope, e) && e.key.target == key.target :: Apart(e.key, key)
    ensures ReadKey(decided.state, key) == ReadKey(state, key)
  {
    hide Fill, BulkPatches, EditShape, ReviewShape, ApartFor, RecordsAfter, EditablePatches,
         WriteAll, ExpectedValue, ChangedContext, ApplyDecision, AllApart, Rewritten, FieldsOf, NamesLeaf;
    EditsAreNamedLeaves(entry.envelope);
    var ids := DecisionWritesSelection(replica, state, entry, index, decision, options, edits, decided);
    var step := StepFor(replica, state, entry, index).value;
    var selected := Selected(step.fields, decision.choices);
    SelectedFrom(state, entry.envelope.expectations, edits, decision.choices);
    SelectedTarget(selected, TargetOf(entry.envelope.command));
    ReadUntaken(state.records, decided.state.records, TargetOf(entry.envelope.command), selected, key);
  }

  lemma SelectedTarget(selected: seq<ReviewField>, target: Target)
    requires Reviewable(selected, target)
    ensures forall f | f in selected :: f.key.target == target
  {
  }

  // --------------------------------------------------- what the user is asked

  lemma {:induction false} EditedFieldsFrom(state: State, expectations: seq<Expectation>, edits: seq<Edit>)
    requires EditedFields(state, expectations, edits).Ok?
    ensures forall f | f in EditedFields(state, expectations, edits).value ::
              exists e | e in edits ::
                f == ReviewEdit(state, ExpectedValue(expectations, e.key), e) &&
                  ExpectedValue(expectations, e.key) != Some(e.after)
  {
    hide ExpectedValue, ReviewEdit;
    if edits == [] {
    } else {
      EditedFieldsFrom(state, expectations, edits[1..]);
      forall f | f in EditedFields(state, expectations, edits).value
        ensures exists e | e in edits ::
                  f == ReviewEdit(state, ExpectedValue(expectations, e.key), e) &&
                    ExpectedValue(expectations, e.key) != Some(e.after)
      {
        if ExpectedValue(expectations, edits[0].key) != Some(edits[0].after) &&
           f == ReviewEdit(state, ExpectedValue(expectations, edits[0].key), edits[0]) {
          assert edits[0] in edits;
        } else {
          assert f in EditedFields(state, expectations, edits[1..]).value;
          var e :| e in edits[1..] &&
            f == ReviewEdit(state, ExpectedValue(expectations, e.key), e) &&
              ExpectedValue(expectations, e.key) != Some(e.after);
          assert e in edits;
        }
      }
    }
  }

  /** A leaf is put to the user as a conflict exactly when both sides changed it, and differently. */
  lemma AskedExactly(replica: Replica, state: State, entry: OutboxEntry, index: nat, edits: seq<Edit>, key: FieldKey)
    requires EditablePatches(entry.envelope) == Ok(Some(edits)) && StepFor(replica, state, entry, index).Ok?
    ensures (exists f | f in StepFor(replica, state, entry, index).value.fields :: f.key == key && f.conflict) <==>
            (exists e | NamesLeaf(entry.envelope, e) ::
               e.key == key &&
                 MustChoose(ExpectedValue(entry.envelope.expectations, key), e.after, ReadKey(state, key)))
  {
    hide ExpectedValue, ReadKey, EditablePatches, ChangedContext, NamesLeaf;
    EditsAreNamedLeaves(entry.envelope);
    var fields := StepFor(replica, state, entry, index).value.fields;
    EditedFieldsFrom(state, entry.envelope.expectations, edits);
    forall e | e in edits && e.key == key &&
      MustChoose(ExpectedValue(entry.envelope.expectations, key), e.after, ReadKey(state, key))
      ensures exists f | f in fields :: f.key == key && f.conflict
    {
      ConflictIsListed(state, entry.envelope.expectations, edits, e);
    }
  }

  lemma {:induction false} ContextIsExact(state: State, edits: Option<seq<Edit>>, expectations: seq<Expectation>)
    ensures ChangedContext(state, edits, expectations) == [] <==>
            forall x | x in expectations :: Covered(edits, x) ||
              ReadPatchValue(state, x.target, x.id, x.path) == x.value
  {
    hide Covered, ReadPatchValue;
    if expectations == [] {
    } else {
      ContextIsExact(state, edits, expectations[1..]);
    }
  }

  /**
   A change is reapplied without confirming the online context only when every
   value it remembered beside its own leaves is still the same online; a command
   reviewed as a whole, only when all of them are.
   */
  lemma UnconfirmedFits(
    replica: Replica, state: State, entry: OutboxEntry, index: nat, decision: Decision, options: Options,
    decided: Decided)
    requires StepFor(replica, state, entry, index).Ok? && !decision.acceptContext
    requires ApplyDecision(state, StepFor(replica, state, entry, index).value, decision, options) == Ok(decided)
    requires decided.entry.Some?
    ensures forall x | x in entry.envelope.expectations ::
              OwnValue(entry.envelope, x) || ReadPatchValue(state, x.target, x.id, x.path) == x.value
    ensures EditablePatches(entry.envelope).value == None ==> ExpectationsHold(state, entry.envelope.expectations)
  {
    hide Apply, WasApplied, Covered, ReadPatchValue, Fill, Rebuild, Selected, ChoicesMatch, ConflictsChosen,
         EditedFields, LoggedFields, EditablePatches, ExpectationsFor, ChangedContext, OwnValue;
    var edits := EditablePatches(entry.envelope).value;
    ContextIsExact(state, edits, entry.envelope.expectations);
    forall x | x in entry.envelope.expectations
      ensures OwnValue(entry.envelope, x) || ReadPatchValue(state, x.target, x.id, x.path) == x.value
    {
      CoveredIsOwn(entry.envelope, x);
    }
    if edits == None {
      WholeCoversNothing(entry.envelope.expectations);
      forall i | 0 <= i < |entry.envelope.expectations|
        ensures var x := entry.envelope.expectations[i]; ReadPatchValue(state, x.target, x.id, x.path) == x.value
      {
        assert entry.envelope.expectations[i] in entry.envelope.expectations;
      }
    }
  }

  lemma WholeCoversNothing(expectations: seq<Expectation>)
    ensures forall x | x in expectations :: !Covered(None, x)
  {
  }

  /** The changes collected so far can take every leaf still to come. */
  predicate CanTakeAll(byRecord: ByRecord, selected: seq<ReviewField>) {
    forall f | f in selected && |f.key.path| == 2 && f.key.path[0] in ChangesOf(byRecord, f.key.id) ::
      ChangesOf(byRecord, f.key.id)[f.key.path[0]].Obj?
  }

  predicate SafePath(f: ReviewField) {
    forall k | k in f.key.path :: k !in UNSAFE_KEYS
  }

  lemma FillOneSucceeds(state: State, byRecord: ByRecord, f: ReviewField, rest: seq<ReviewField>)
    requires ReviewShape(f) && SafePath(f) && CanTakeAll(byRecord, [f] + rest)
    requires forall x | x in rest :: Apart(f.key, x.key)
    ensures FillOne(state, byRecord, f).Ok? && CanTakeAll(FillOne(state, byRecord, f).value, rest)
  {
    hide ReadPatchValue;
    assert f in [f] + rest;
    var next := FillOne(state, byRecord, f).value;
    forall x | x in rest && |x.key.path| == 2 && x.key.path[0] in ChangesOf(next, x.key.id)
      ensures ChangesOf(next, x.key.id)[x.key.path[0]].Obj?
    {
      assert x in [f] + rest;
      assert |f.key.path| == 1 ==> (f.key.path <= x.key.path <==> f.key.path[0] == x.key.path[0]);
    }
  }

  lemma {:induction false} FillSucceeds(state: State, byRecord: ByRecord, selected: seq<ReviewField>)
    requires (forall f | f in selected :: ReviewShape(f) && SafePath(f)) && AllApart(selected)
    requires CanTakeAll(byRecord, selected)
    ensures Fill(state, byRecord, selected).Ok?
    decreases |selected|
  {
    hide FillOne, ReviewShape, SafePath, CanTakeAll;
    if selected == [] {
    } else {
      assert selected == [selected[0]] + selected[1..];
      FillOneSucceeds(state, byRecord, selected[0], selected[1..]);
      FillSucceeds(state, FillOne(state, byRecord, selected[0]).value, selected[1..]);
    }
  }

  predicate NamesEachItemOnce(command: Command) {
    command.BulkUpdate? ==>
      forall i, j | 0 <= i < j < |command.updates| :: command.updates[i].id != command.updates[j].id
  }

  lemma {:induction false} OnceIsDistinct(updates: seq<ItemChanges>, ids: set<string>)
    requires forall i, j | 0 <= i < j < |updates| :: updates[i].id != updates[j].id
    ensures DistinctIn(updates, ids)
  {
    if updates == [] {
    } else {
      OnceIsDistinct(updates[1..], ids);
    }
  }

  lemma {:induction false} BulkNamesOnce(s: State, updates: seq<ItemChanges>, seen: set<string>)
    requires BulkPatches(s, updates, seen).Ok?
    ensures forall i | 0 <= i < |updates| :: updates[i].id !in seen
    ensures forall i, j | 0 <= i < j < |updates| :: updates[i].id != updates[j].id
    decreases |updates|
  {
    hide BulkItemPatches, ValidBulkChanges;
    if updates == [] {
    } else {
      var rest := updates[1..];
      BulkNamesOnce(s, rest, seen + {updates[0].id});
      assert forall i | 0 < i < |updates| :: updates[i] == rest[i - 1];
    }
  }

  /** A command some state accepted names each item once. */
  lemma AcceptedNamesOnce(s: State, e: Envelope)
    requires Apply(s, e).Ok?
    ensures NamesEachItemOnce(e.command)
  {
    hide BulkPatches, ApplyPatches, ExpectationsHold;
    if e.command.BulkUpdate? {
      BulkNamesOnce(s, e.command.updates, {});
    }
  }

  /**
   The user's answers suffice: when every conflict has a valid choice and a changed
   context is confirmed, an ordinary edit that was accepted when it was queued always
   yields its new command or nothing to do, never an error of the review.
   */
  lemma ChoicesSuffice(
    replica: Replica, state: State, entry: OutboxEntry, index: nat, decision: Decision, edits: seq<Edit>, seen: State)
    requires EditablePatches(entry.envelope) == Ok(Some(edits)) && StepFor(replica, state, entry, index).Ok?
    requires Apply(seen, entry.envelope).Ok?
    requires var step := StepFor(replica, state, entry, index).value;
             && ChoicesMatch(step.fields, decision.choices) && ConflictsChosen(step.fields, decision.choices)
             && (step.context == [] || decision.acceptContext)
    ensures ChosenCommand(state, StepFor(replica, state, entry, index).value, decision).Ok?
  {
    hide EditablePatches, EditedFields, ChangedContext, Fill, AllApart, ApartFor, EditShape, ReviewShape, SafePath,
         ChoicesMatch, ConflictsChosen, Selected, ChosenUpdates, DistinctIn;
    AcceptedNamesOnce(seen, entry.envelope);
    hide Apply;
    var step := StepFor(replica, state, entry, index).value;
    var selected := Selected(step.fields, decision.choices);
    var e := entry.envelope;
    SelectedFrom(state, e.expectations, edits, decision.choices);
    var ids := set x | x in edits :: x.key.id;
    if e.command.BulkUpdate? {
      OnceIsDistinct(e.command.updates, ids);
    }
    EditsAre(e, edits, ids);
    SelectedShape(state, e.expectations, edits, decision.choices, TargetOf(e.command));
    SelectedApart(state, e.expectations, edits, decision.choices, ids);
    forall f | f in selected
      ensures ReviewShape(f) && SafePath(f)
    {
      var x :| x in edits && x.key == f.key && x.after == f.device;
      SafeEdit(x, TargetOf(e.command), f);
    }
    FillSucceeds(state, map[], selected);
    NotHistory(e, edits);
  }

  lemma SafeEdit(x: Edit, target: Target, f: ReviewField)
    requires EditShape(x, target) && x.key == f.key
    ensures SafePath(f)
  {
  }

  lemma NotHistory(e: Envelope, edits: seq<Edit>)
    requires EditablePatches(e) == Ok(Some(edits))
    ensures !e.command.History? && !e.command.Structural?
  {
    hide ChangesFor, BulkEdits;
  }
}
