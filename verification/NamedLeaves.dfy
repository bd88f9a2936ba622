/**
 The leaves an ordinary edit names, read off the command alone, and what the device
 saw at them when the command was created.
 */
module NamedLeaves {
  import opened Prelude
  import opened Json
  import opened Domain
  import opened Refusals
  import opened LocalReplica
  import opened ConflictReview

  // ------------------------------------------------ the leaves of a command

  /** An object under constraints or conditions is edited leaf by leaf, anything else as a whole. */
  predicate InGroup(changes: Record, key: string) {
    key in LEAF_GROUPS && key in changes && changes[key].Obj?
  }

  predicate IsLeafOf(target: Target, id: string, changes: Record, e: Edit) {
    && e.key.target == target && e.key.id == id
    && var path := e.key.path;
       || (|path| == 1 && path[0] in changes && !InGroup(changes, path[0]) && e.after == Some(changes[path[0]]))
       || (|path| == 2 && InGroup(changes, path[0]) && path[1] in changes[path[0]].fields &&
           e.after == Some(changes[path[0]].fields[path[1]]))
  }

  /** The leaves the command of an envelope names, with the values it gives them. */
  predicate NamesLeaf(envelope: Envelope, e: Edit) {
    match envelope.command
    case Rename(name) => e == Edit(FieldKey(Workspace, envelope.workspaceId, ["name"]), Some(name))
    case ItemUpdate(id, changes) => IsLeafOf(Item, id, changes, e)
    case LocationUpdate(id, changes) => !MovesLocation(changes) && IsLeafOf(Location, id, changes, e)
    case BulkUpdate(updates) => exists u | u in updates :: IsLeafOf(Item, u.id, u.changes, e)
    case _ => false
  }

  /** The change of a location that makes it structural. */
  predicate MovesLocation(changes: Record) {
    "parentId" in changes || "order" in changes
  }

  predicate ReviewedAsWhole(command: Command) {
    command.Structural? || command.History? || (command.LocationUpdate? && MovesLocation(command.changes))
  }

  /** Some key, or a key within a group, cannot be part of a path. */
  predicate HasUnsafeKey(changes: Record) {
    exists k | k in changes ::
      UnsafeKey(k) || (InGroup(changes, k) && exists l | l in changes[k].fields :: UnsafeKey(l))
  }

  predicate HasUnsafePath(command: Command) {
    match command
    case ItemUpdate(_, changes) => HasUnsafeKey(changes)
    case LocationUpdate(_, changes) => !MovesLocation(changes) && HasUnsafeKey(changes)
    case BulkUpdate(updates) => exists u | u in updates :: HasUnsafeKey(u.changes)
    case _ => false
  }

  lemma {:induction false} LeafEditsAre(target: Target, id: string, group: string, leaves: Record, keys: seq<string>)
    requires forall k | k in keys :: k in leaves
    ensures LeafEdits(target, id, group, leaves, keys).Err? <==> exists k | k in keys :: UnsafeKey(k)
    ensures LeafEdits(target, id, group, leaves, keys).Ok? ==> forall e ::
              e in LeafEdits(target, id, group, leaves, keys).value <==>
              exists k | k in keys :: e == Edit(FieldKey(target, id, [group, k]), Some(leaves[k]))
  {
    hide UnsafeKey;
    if keys == [] {
    } else {
      LeafEditsAre(target, id, group, leaves, keys[1..]);
      assert keys == [keys[0]] + keys[1..];
    }
  }

  lemma LeafAt(target: Target, id: string, changes: Record, e: Edit, k: string)
    requires k in changes
    ensures IsLeafOf(target, id, changes, e) && e.key.path[0] == k <==>
            if InGroup(changes, k) then
              exists l | l in changes[k].fields :: e == Edit(FieldKey(target, id, [k, l]), Some(changes[k].fields[l]))
            else
              e == Edit(FieldKey(target, id, [k]), Some(changes[k]))
  {
    if IsLeafOf(target, id, changes, e) && e.key.path[0] == k {
      if |e.key.path| == 1 {
        assert e.key.path == [k];
      } else {
        assert e.key.path == [k, e.key.path[1]];
      }
    }
  }

  /** The edits of one key, and when it has none because a key is unsafe. */
  lemma KeyEditsAre(target: Target, id: string, changes: Record, key: string)
    requires key in changes
    ensures KeyEdits(target, id, key, changes[key]).Err? <==>
              UnsafeKey(key) || (InGroup(changes, key) && exists l | l in changes[key].fields :: UnsafeKey(l))
    ensures KeyEdits(target, id, key, changes[key]).Ok? ==> forall e ::
              e in KeyEdits(target, id, key, changes[key]).value <==>
              IsLeafOf(target, id, changes, e) && e.key.path[0] == key
  {
    hide UnsafeKey, IsLeafOf;
    forall e {
      LeafAt(target, id, changes, e, key);
    }
    if InGroup(changes, key) {
      var leaves := changes[key].fields;
      KeysAre(leaves);
      LeafEditsAre(target, id, key, leaves, KeySeq(leaves.Keys));
    }
  }

  predicate Unsafe(changes: Record, key: string) {
    key in changes &&
      (UnsafeKey(key) || (InGroup(changes, key) && exists l | l in changes[key].fields :: UnsafeKey(l)))
  }

  lemma {:induction false} ChangesForAre(target: Target, id: string, changes: Record, keys: seq<string>)
    requires forall k | k in keys :: k in changes
    ensures ChangesFor(target, id, changes, keys).Err? <==> exists k | k in keys :: Unsafe(changes, k)
    ensures ChangesFor(target, id, changes, keys).Ok? ==> forall e ::
              e in ChangesFor(target, id, changes, keys).value <==>
              IsLeafOf(target, id, changes, e) && e.key.path[0] in keys
  {
    hide KeyEdits, UnsafeKey, IsLeafOf;
    if keys == [] {
      assert ChangesFor(target, id, changes, keys) == Ok([]);
    } else {
      KeyEditsAre(target, id, changes, keys[0]);
      ChangesForAre(target, id, changes, keys[1..]);
      PathStarts(target, id, changes);
      assert keys == [keys[0]] + keys[1..];
    }
  }

  lemma PathStarts(target: Target, id: string, changes: Record)
    ensures forall e | IsLeafOf(target, id, changes, e) :: e.key.path != [] && e.key.path[0] in changes
  {
  }

  lemma AllChangesAre(target: Target, id: string, changes: Record)
    ensures var r := (KeysAre(changes); ChangesFor(target, id, changes, KeySeq(changes.Keys)));
            && (r.Err? <==> HasUnsafeKey(changes))
            && (r.Ok? ==> forall e :: e in r.value <==> IsLeafOf(target, id, changes, e))
  {
    hide UnsafeKey, IsLeafOf, ChangesFor;
    KeysAre(changes);
    ChangesForAre(target, id, changes, KeySeq(changes.Keys));
    PathStarts(target, id, changes);
    UnsafeNamed(changes);
  }

  lemma UnsafeNamed(changes: Record)
    ensures HasUnsafeKey(changes) <==> exists k | k in changes :: Unsafe(changes, k)
  {
    hide UnsafeKey;
    if k :| k in changes && Unsafe(changes, k) {
      assert HasUnsafeKey(changes);
    }
  }

  lemma {:induction false} BulkEditsAre(updates: seq<ItemChanges>)
    ensures BulkEdits(updates).Err? <==> exists u | u in updates :: HasUnsafeKey(u.changes)
    ensures BulkEdits(updates).Ok? ==> forall e ::
              e in BulkEdits(updates).value <==> exists u | u in updates :: IsLeafOf(Item, u.id, u.changes, e)
  {
    hide ChangesFor, HasUnsafeKey, IsLeafOf;
    if updates == [] {
    } else {
      var u := updates[0];
      AllChangesAre(Item, u.id, u.changes);
      BulkEditsAre(updates[1..]);
      assert updates == [u] + updates[1..];
    }
  }

  /**
   The review of an ordinary edit covers the whole command: one edit for every leaf it
   names, with the value it gives it, and none besides. Only structural and history
   commands are reviewed as a whole, and only an unsafe key keeps an edit from review.
   */
  lemma EditsAreNamedLeaves(envelope: Envelope)
    ensures EditablePatches(envelope) == Ok(None) <==> ReviewedAsWhole(envelope.command)
    ensures EditablePatches(envelope).Err? <==> HasUnsafePath(envelope.command)
    ensures EditablePatches(envelope).Ok? && EditablePatches(envelope).value.Some? ==>
              forall e :: e in EditablePatches(envelope).value.value <==> NamesLeaf(envelope, e)
  {
    hide ChangesFor, BulkEdits, HasUnsafeKey, IsLeafOf;
    match envelope.command {
      case Rename(_) =>
      case ItemUpdate(id, changes) => AllChangesAre(Item, id, changes);
      case LocationUpdate(id, changes) =>
        AllChangesAre(Location, id, changes);
        StructuralFields(changes);
      case BulkUpdate(updates) => BulkEditsAre(updates);
      case _ =>
    }
  }

  lemma StructuralFields(changes: Record)
    ensures changes.Keys * STRUCTURAL_LOCATION_FIELDS == {} <==> !MovesLocation(changes)
  {
    if MovesLocation(changes) {
      var k := if "parentId" in changes then "parentId" else "order";
      assert k in changes.Keys * STRUCTURAL_LOCATION_FIELDS;
    }
  }

  lemma {:induction false} FirstLogged(log: seq<LogEntry>, id: string, k: nat)
    requires k < |log| && log[k].commandId == id && forall j | 0 <= j < k :: log[j].commandId != id
    ensures LoggedPatches(log, id) == log[k].patches
  {
    if k == 0 {
    } else {
      FirstLogged(log[1..], id, k - 1);
    }
  }

  /** A command reviewed as a whole shows what it did on the device: each patch of its log entry with what is online. */
  lemma WholeStepShowsPatches(replica: Replica, state: State, entry: OutboxEntry, index: nat, k: nat)
    requires StepFor(replica, state, entry, index).Ok?
    requires k < |replica.state.log| && replica.state.log[k].commandId == entry.envelope.id
    requires forall j | 0 <= j < k :: replica.state.log[j].commandId != entry.envelope.id
    ensures var step := StepFor(replica, state, entry, index).value;
            && (step.kind == WholeCommand <==> ReviewedAsWhole(entry.envelope.command))
            && (step.kind == WholeCommand ==>
                  var patches := replica.state.log[k].patches;
                  && |step.fields| == |patches|
                  && forall i | 0 <= i < |patches| ::
                       var p, f := patches[i], step.fields[i];
                       && f.key == FieldKey(p.target, p.id, p.path) && f.before == p.before && f.device == p.after
                       && f.server == ReadPatchValue(state, p.target, p.id, p.path)
                       && (f.conflict <==> f.server != f.device && f.server != f.before))
  {
    hide EditablePatches, EditedFields, ChangedContext, ReadPatchValue;
    EditsAreNamedLeaves(entry.envelope);
    FirstLogged(replica.state.log, entry.envelope.id, k);
  }

  // ----------------------------------------------------- what the device saw

  lemma {:induction false} ReadThrough(value: Option<Json>, a: Path, b: Path)
    ensures ReadPath(value, a + b) == ReadPath(ReadPath(value, a), b)
    decreases |a|
  {
    if a == [] {
      assert a + b == b;
    } else if value.Some? && value.value.Obj? {
      assert (a + b)[0] == a[0] && (a + b)[1..] == a[1..] + b;
      ReadThrough(Lookup(value.value.fields, a[0]), a[1..], b);
    } else if b == [] {
      assert a + b == a;
    }
  }

  /** The expectation speaks about the key's value: it is at or above it. */
  predicate Encloses(x: Expectation, key: FieldKey) {
    x.target == key.target && x.id == key.id && x.path <= key.path
  }

  lemma EnclosedIsRead(seen: State, x: Expectation, key: FieldKey)
    requires Encloses(x, key) && x.value == ReadPatchValue(seen, x.target, x.id, x.path)
    ensures ReadPath(x.value, key.path[|x.path|..]) == ReadKey(seen, key)
  {
    var rid := key.Rid();
    var record := if rid in seen.records then Some(Obj(seen.records[rid])) else None;
    assert key.path == x.path + key.path[|x.path|..];
    ReadThrough(record, x.path, key.path[|x.path|..]);
  }

  lemma {:induction false} FoundEncloses(expectations: seq<Expectation>, key: FieldKey)
    ensures var exact := FindExact(expectations, key);
            exact.Some? ==> exact.value in expectations && Encloses(exact.value, key) && exact.value.path == key.path
    ensures var found := FindEnclosing(expectations, key);
            if found.Some? then found.value in expectations && Encloses(found.value, key)
            else forall x | x in expectations :: !Encloses(x, key)
  {
    if expectations == [] {
    } else {
      FoundEncloses(expectations[1..], key);
    }
  }

  /** What is remembered at the very place counts before what is remembered above it, and the first of either. */
  lemma {:induction false} FirstExpectationCounts(expectations: seq<Expectation>, key: FieldKey, k: nat)
    requires k < |expectations| && Encloses(expectations[k], key)
    requires forall j | 0 <= j < |expectations| && Encloses(expectations[j], key) ::
      if expectations[k].path == key.path then j < k ==> expectations[j].path != key.path
      else j >= k && expectations[j].path != key.path
    ensures ExpectedValue(expectations, key) ==
            Some(ReadPath(expectations[k].value, key.path[|expectations[k].path|..]))
  {
    hide ReadPath;
    FirstFound(expectations, key, k);
    if expectations[k].path == key.path {
      assert key.path[|expectations[k].path|..] == [];
      ReadNothing(expectations[k].value);
    }
  }

  lemma {:induction false} FirstFound(expectations: seq<Expectation>, key: FieldKey, k: nat)
    requires k < |expectations| && Encloses(expectations[k], key)
    requires forall j | 0 <= j < |expectations| && Encloses(expectations[j], key) ::
      if expectations[k].path == key.path then j < k ==> expectations[j].path != key.path
      else j >= k && expectations[j].path != key.path
    ensures FindExact(expectations, key) ==
            if expectations[k].path == key.path then Some(expectations[k]) else None
    ensures expectations[k].path != key.path ==> FindEnclosing(expectations, key) == Some(expectations[k])
    decreases k
  {
    var rest := expectations[1..];
    if k == 0 {
      if expectations[0].path != key.path {
        NothingExact(expectations, key);
      }
    } else {
      forall j | 0 <= j < |rest| && Encloses(rest[j], key)
        ensures if rest[k - 1].path == key.path then j < k - 1 ==> rest[j].path != key.path
                else j >= k - 1 && rest[j].path != key.path
      {
        assert rest[j] == expectations[j + 1];
      }
      FirstFound(rest, key, k - 1);
    }
  }

  lemma {:induction false} NothingExact(expectations: seq<Expectation>, key: FieldKey)
    requires forall x | x in expectations && Encloses(x, key) :: x.path != key.path
    ensures FindExact(expectations, key) == None
  {
    if expectations == [] {
    } else {
      NothingExact(expectations[1..], key);
    }
  }

  /** The remembered value is at or above a leaf the command itself writes. */
  ghost predicate OwnValue(envelope: Envelope, x: Expectation) {
    exists e :: NamesLeaf(envelope, e) && Encloses(x, e.key) && x.path != []
  }

  lemma NamedPaths(envelope: Envelope)
    ensures forall e | NamesLeaf(envelope, e) :: e.key.path != []
  {
  }

  lemma CoveredIsOwn(envelope: Envelope, x: Expectation)
    requires EditablePatches(envelope).Ok?
    ensures Covered(EditablePatches(envelope).value, x) <==> OwnValue(envelope, x)
  {
    hide EditablePatches, NamesLeaf;
    EditsAreNamedLeaves(envelope);
    NamedPaths(envelope);
    var edits := EditablePatches(envelope).value;
    if edits.Some? {
      if Covered(edits, x) {
        assert forall e | e in edits.value :: e.key.path != [];
        var i :| 0 <= i < |edits.value| && edits.value[i].key.Rid() == RecordId(x.target, x.id) &&
          x.path <= edits.value[i].key.path && x.path != [];
        assert edits.value[i] in edits.value;
      }
      if OwnValue(envelope, x) {
        var e :| NamesLeaf(envelope, e) && Encloses(x, e.key) && x.path != [];
        var i :| 0 <= i < |edits.value| && edits.value[i] == e;
        assert edits.value[i].key.Rid() == RecordId(x.target, x.id);
      }
    } else {
      WholeNamesNothing(envelope);
    }
  }

  lemma WholeNamesNothing(envelope: Envelope)
    requires ReviewedAsWhole(envelope.command)
    ensures forall e :: !NamesLeaf(envelope, e)
  {
  }

  /** What is put to the user as context: exactly the values remembered beside the command's own that changed online. */
  lemma {:induction false} ContextExactly(
    state: State, envelope: Envelope, expectations: seq<Expectation>, key: FieldKey, before: Option<Json>)
    requires EditablePatches(envelope).Ok?
    ensures (exists f | f in ChangedContext(state, EditablePatches(envelope).value, expectations) ::
               f.key == key && f.before == before && f.server == ReadKey(state, key)) <==>
            && Expectation(key.target, key.id, key.path, before) in expectations
            && !OwnValue(envelope, Expectation(key.target, key.id, key.path, before))
            && ReadKey(state, key) != before
    ensures forall f | f in ChangedContext(state, EditablePatches(envelope).value, expectations) ::
              f.server == ReadKey(state, f.key)
  {
    hide EditablePatches, OwnValue, Covered, ReadPatchValue;
    var edits := EditablePatches(envelope).value;
    if expectations == [] {
    } else {
      var x, rest := expectations[0], ChangedContext(state, edits, expectations[1..]);
      ContextExactly(state, envelope, expectations[1..], key, before);
      CoveredIsOwn(envelope, x);
      assert expectations == [x] + expectations[1..];
      var at := FieldKey(x.target, x.id, x.path);
      var f := ReviewField(at, x.value, x.value, ReadKey(state, at), true);
      ghost var first: seq<ReviewField> := if !OwnValue(envelope, x) && ReadKey(state, at) != x.value then [f] else [];
      assert ChangedContext(state, edits, expectations) == first + rest;
      assert x == Expectation(key.target, key.id, key.path, before) <==> at == key && x.value == before;
    }
  }

  /** From what a command remembers of a state the review recovers what was there, wherever it was remembered. */
  lemma ExpectedIsSeen(seen: State, expectations: seq<Expectation>, key: FieldKey)
    requires AreRead(seen, expectations)
    ensures ExpectedValue(expectations, key) ==
            if exists x | x in expectations :: Encloses(x, key) then Some(ReadKey(seen, key)) else None
  {
    hide ReadPath, ReadPatchValue, ReadKey, FindExact, FindEnclosing;
    FoundEncloses(expectations, key);
    var exact, found := FindExact(expectations, key), FindEnclosing(expectations, key);
    if exact.Some? {
      EnclosedIsRead(seen, exact.value, key);
      assert key.path[|exact.value.path|..] == [];
      ReadNothing(exact.value.value);
    } else if found.Some? {
      EnclosedIsRead(seen, found.value, key);
    }
  }

  lemma ReadNothing(value: Option<Json>)
    ensures ReadPath(value, []) == value
  {
  }

  lemma {:induction false} AcceptedItem(s: State, updates: seq<ItemChanges>, seen: set<string>, u: ItemChanges)
    requires BulkPatches(s, updates, seen).Ok? && u in updates
    ensures RecordId(Item, u.id) in s.records && ValidBulkChanges(u.changes)
    decreases |updates|
  {
    hide BulkItemPatches, ValidBulkChanges;
    if updates[0] == u {
    } else {
      AcceptedItem(s, updates[1..], seen + {updates[0].id}, u);
    }
  }

  /** A command accepted on the state it was created on depends on every leaf it names. */
  lemma LeafIsWatched(seen: State, envelope: Envelope, e: Edit) returns (path: Path)
    requires Apply(seen, envelope).Ok? && NamesLeaf(envelope, e)
    ensures path <= e.key.path && Watches(seen, envelope.command, e.key.target, e.key.id, path)
  {
    hide ExpectationsHold, ApplyPatches, FieldPatches, BulkPatches, ReadPatchValue, ValidBulkChanges;
    path := [];
    match envelope.command {
      case Rename(_) => path := ["name"];
      case ItemUpdate(_, _) => path := [e.key.path[0]];
      case LocationUpdate(_, _) => path := [e.key.path[0]];
      case BulkUpdate(updates) =>
        var u :| u in updates && IsLeafOf(Item, u.id, u.changes, e);
        AcceptedItem(seen, updates, {}, u);
        path := BulkLeafIsWatched(u, e);
      case _ =>
    }
  }

  lemma BulkLeafIsWatched(u: ItemChanges, e: Edit) returns (path: Path)
    requires ValidBulkChanges(u.changes) && IsLeafOf(Item, u.id, u.changes, e)
    ensures path <= e.key.path && WatchesItem(u.changes, path)
  {
    path := if e.key.path[0] == "constraints" then e.key.path else [e.key.path[0]];
  }

  /**
   Of a command created on the state the user saw and accepted there, the review
   recovers for every leaf it names the value the user saw.
   */
  lemma CreatedLeafIsSeen(
    seen: State, command: Command, id: string, actorId: string, deviceId: string, timestamp: string,
    authorization: Option<Basis>, e: Edit)
    requires var envelope := CreateEnvelope(seen, command, id, actorId, deviceId, timestamp, authorization, None);
             Apply(seen, envelope).Ok? && NamesLeaf(envelope, e)
    ensures var envelope := CreateEnvelope(seen, command, id, actorId, deviceId, timestamp, authorization, None);
            ExpectedValue(envelope.expectations, e.key) == Some(ReadKey(seen, e.key))
  {
    hide Apply, ReadPatchValue, Watches, ExpectationsFor, NamesLeaf, ExpectedValue;
    var envelope := CreateEnvelope(seen, command, id, actorId, deviceId, timestamp, authorization, None);
    var path := LeafIsWatched(seen, envelope, e);
    ExpectationsAreWatched(seen, command);
    ExpectedIsSeen(seen, envelope.expectations, e.key);
    var x := Expectation(e.key.target, e.key.id, path, ReadPatchValue(seen, e.key.target, e.key.id, path));
    assert Remembers(seen, envelope.expectations, e.key.target, e.key.id, path);
    assert x in envelope.expectations && Encloses(x, e.key);
  }
}
