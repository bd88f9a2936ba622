/**
 When a command is accepted and what it then does, kind by kind: which records and
 fields it may touch, what counts as a change, and what the records are afterwards.
 */
module AcceptedEdits {
  import opened Prelude
  import opened Json
  import opened Domain
  import opened Refusals
  import opened CommandWrites

  /** For this workspace, not ahead of it, and everything as expected. */
  predicate Fits(s: State, e: Envelope) {
    e.workspaceId == s.workspaceId && e.baseRevision <= s.revision && AllHold(s, e.expectations)
  }

  /** The changes give some field of the record another value. */
  predicate Alters(record: Record, changes: Record) {
    exists k | k in changes :: Lookup(record, k) != Some(changes[k])
  }

  lemma {:induction false} FieldPatchesEmpty(rid: RecordId, current: Record, changes: Record, keys: seq<string>)
    requires forall k | k in keys :: k in changes
    ensures FieldPatches(rid, current, changes, keys) == [] <==>
            forall k | k in keys :: Lookup(current, k) == Some(changes[k])
  {
    if keys == [] {
    } else {
      FieldPatchesEmpty(rid, current, changes, keys[1..]);
      assert keys == [keys[0]] + keys[1..];
    }
  }

  lemma UpdateExactly(s: State, rid: RecordId, changes: Record, allowed: set<string>)
    ensures var r := UpdatePatches(s, rid, changes, allowed);
            && (r == Err(NotFound) <==> rid !in s.records)
            && (r == Err(InvalidChanges) <==> rid in s.records && !(changes.Keys <= allowed))
            && (r == Err(NoChanges) <==>
                  rid in s.records && changes.Keys <= allowed && !Alters(s.records[rid], changes))
            && (r.Ok? <==> rid in s.records && changes.Keys <= allowed && Alters(s.records[rid], changes))
            && (r.Ok? ==> ApplyPatches(s.records, r.value) == Ok(s.records[rid := s.records[rid] + changes]))
  {
    hide FieldPatches, ApplyPatches;
    KeysAre(changes);
    UpdateWrites(s, rid, changes, allowed);
    if rid in s.records {
      FieldPatchesEmpty(rid, s.records[rid], changes, KeySeq(changes.Keys));
    }
  }

  /** An edit of one record that fits, names allowed fields of a record there is, and changes it. */
  predicate Edits(s: State, e: Envelope, rid: RecordId, changes: Record, allowed: set<string>) {
    Fits(s, e) && rid in s.records && changes.Keys <= allowed && Alters(s.records[rid], changes)
  }

  predicate EditsInto(s: State, r: Result<State, Problem>, rid: RecordId, changes: Record)
    requires rid in s.records
  {
    r.Ok? && r.value.records == s.records[rid := s.records[rid] + changes]
  }

  lemma RenameExactly(s: State, e: Envelope)
    requires e.command.Rename?
    ensures var rid, changes := RecordId(Workspace, s.workspaceId), map["name" := e.command.name];
            if Edits(s, e, rid, changes, {"name"}) then EditsInto(s, Apply(s, e), rid, changes) else Apply(s, e).Err?
  {
    hide UpdatePatches, ApplyPatches, ExpectationsHold;
    ExpectationsAreAll(s, e.expectations);
    UpdateExactly(s, RecordId(Workspace, s.workspaceId), map["name" := e.command.name], {"name"});
  }

  lemma ItemUpdateExactly(s: State, e: Envelope)
    requires e.command.ItemUpdate?
    ensures var rid, changes := RecordId(Item, e.command.id), e.command.changes;
            var allowed := {"category", "constraints", "description", "dimensions", "frequency", "name", "quantity",
                            "tags", "unit"};
            if Edits(s, e, rid, changes, allowed) then EditsInto(s, Apply(s, e), rid, changes) else Apply(s, e).Err?
  {
    hide UpdatePatches, ApplyPatches, ExpectationsHold;
    ExpectationsAreAll(s, e.expectations);
    UpdateExactly(s, RecordId(Item, e.command.id), e.command.changes, ITEM_KEYS);
  }

  /** Only another place in the tree lets an update of a location touch its order. */
  predicate Reorders(s: State, id: string, changes: Record) {
    && RecordId(Location, id) in s.records && changes.Keys <= LOCATION_KEYS && "order" in changes
    && ("parentId" in changes ==> Lookup(s.records[RecordId(Location, id)], "parentId") == Some(changes["parentId"]))
  }

  lemma LocationUpdateExactly(s: State, e: Envelope)
    requires e.command.LocationUpdate?
    ensures var rid, changes := RecordId(Location, e.command.id), e.command.changes;
            var allowed := {"code", "conditions", "description", "dimensions", "kind", "name", "order", "parentId",
                            "tags"};
            if Edits(s, e, rid, changes, allowed) && !Reorders(s, e.command.id, changes)
            then EditsInto(s, Apply(s, e), rid, changes) else Apply(s, e).Err?
    ensures Fits(s, e) && Reorders(s, e.command.id, e.command.changes) ==> Apply(s, e) == Err(StructuralUpdate)
  {
    hide UpdatePatches, ApplyPatches, ExpectationsHold, ReadPatchValue;
    var rid := RecordId(Location, e.command.id);
    ExpectationsAreAll(s, e.expectations);
    UpdateExactly(s, rid, e.command.changes, LOCATION_KEYS);
    if rid in s.records {
      ReadField(s, rid, "parentId");
    }
  }

  // -------------------------------------------------------------- bulk edits

  /** What a bulk edit may change of an item. */
  predicate Allowed(changes: Record) {
    && (forall k | k in changes :: k in {"category", "constraints", "frequency", "tags"})
    && ("constraints" in changes ==> changes["constraints"].Obj?)
    && ("constraints" in changes ==> forall l | l in changes["constraints"].fields ::
          l in {"avoidHumidity", "avoidWarmth", "foodOnly", "keepTogether", "requiredTags"})
  }

  lemma AllowedExactly(changes: Record)
    ensures ValidBulkChanges(changes) <==> Allowed(changes)
  {
  }

  predicate BulkAcceptable(s: State, updates: seq<ItemChanges>) {
    && (forall i, j | 0 <= i < j < |updates| :: updates[i].id != updates[j].id)
    && (forall u | u in updates :: RecordId(Item, u.id) in s.records && Allowed(u.changes))
  }

  lemma {:induction false} BulkPatchesExactly(s: State, updates: seq<ItemChanges>, seen: set<string>)
    ensures BulkPatches(s, updates, seen).Ok? <==>
            BulkAcceptable(s, updates) && forall u | u in updates :: u.id !in seen
    decreases |updates|
  {
    hide BulkItemPatches, ValidBulkChanges, Allowed, BulkAcceptable;
    if updates == [] {
      NothingToAccept(s);
    } else {
      var u, rest := updates[0], updates[1..];
      AllowedExactly(u.changes);
      BulkPatchesExactly(s, rest, seen + {u.id});
      FirstAcceptable(s, u, rest);
      assert updates == [u] + rest;
      assert (forall v | v in rest :: v.id !in seen + {u.id}) <==>
             (forall v | v in rest :: v.id != u.id) && (forall v | v in rest :: v.id !in seen);
    }
  }

  lemma NothingToAccept(s: State)
    ensures BulkAcceptable(s, [])
  {
  }

  lemma FirstAcceptable(s: State, u: ItemChanges, rest: seq<ItemChanges>)
    ensures BulkAcceptable(s, [u] + rest) <==>
            && BulkAcceptable(s, rest) && (forall v | v in rest :: v.id != u.id)
            && RecordId(Item, u.id) in s.records && Allowed(u.changes)
  {
    hide Allowed;
    FirstDiffers(u, rest);
    assert forall v | v in [u] + rest :: v == u || v in rest;
    assert u in [u] + rest && forall v | v in rest :: v in [u] + rest;
  }

  lemma FirstDiffers(u: ItemChanges, rest: seq<ItemChanges>)
    ensures var all := [u] + rest;
            (forall i, j | 0 <= i < j < |all| :: all[i].id != all[j].id) <==>
            (forall i, j | 0 <= i < j < |rest| :: rest[i].id != rest[j].id) && forall v | v in rest :: v.id != u.id
  {
    var all := [u] + rest;
    if forall i, j | 0 <= i < j < |all| :: all[i].id != all[j].id {
      forall i, j | 0 <= i < j < |rest|
        ensures rest[i].id != rest[j].id
      {
        assert all[i + 1] == rest[i] && all[j + 1] == rest[j];
      }
      forall v | v in rest
        ensures v.id != u.id
      {
        var k :| 0 <= k < |rest| && rest[k] == v;
        assert all[0] == u && all[k + 1] == v;
      }
    }
  }

  /**
   A bulk edit is accepted as a whole or not at all: exactly when it fits, every item is
   there, named once and changed only as allowed, and something changes; it then rewrites
   each named item with its own changes and no other record.
   */
  lemma BulkUpdateExactly(s: State, e: Envelope)
    requires e.command.BulkUpdate?
    ensures var updates := e.command.updates;
            && (Apply(s, e).Ok? ==> Fits(s, e) && updates != [] && BulkAcceptable(s, updates))
            && (Apply(s, e).Ok? ==> BulkWritten(s.records, Apply(s, e).value.records, updates))
            && (Fits(s, e) && updates != [] && BulkAcceptable(s, updates) ==>
                  Apply(s, e).Ok? || Apply(s, e) == Err(NoChanges))
            && (Fits(s, e) && updates != [] && BulkAcceptable(s, updates) && Apply(s, e) == Err(NoChanges) ==>
                  BulkWritten(s.records, s.records, updates))
            && (Fits(s, e) && updates == [] ==> Apply(s, e) == Err(EmptyBulkUpdate))
  {
    hide BulkPatches, ApplyPatches, ExpectationsHold, BulkAcceptable, BulkWritten;
    var updates := e.command.updates;
    ExpectationsAreAll(s, e.expectations);
    BulkPatchesExactly(s, updates, {});
    BulkUpdateWrites(s, updates);
  }

  // ---------------------------------------------------------- single patches

  /** A patch of a whole record or of a value in one that is there. */
  predicate Applicable(records: map<RecordId, Record>, p: FieldPatch) {
    if p.path == [] then
      (p.after.None? && p.target != Workspace) || (p.after.Some? && p.after.value.Obj?)
    else
      p.Rid() in records
  }

  /**
   A patch is applied exactly when it can be, and then what is read at its place is what
   it says, and everything apart from it is as before.
   */
  lemma PatchExactly(records: map<RecordId, Record>, p: FieldPatch)
    ensures ApplyPatch(records, p).Ok? <==> Applicable(records, p)
    ensures ApplyPatch(records, p).Ok? ==>
              var next := ApplyPatch(records, p).value;
              && (forall rid | rid != p.Rid() :: (rid in next <==> rid in records) &&
                    (rid in records ==> next[rid] == records[rid]))
              && (p.path == [] ==> (p.Rid() in next <==> p.after.Some?))
              && (p.path == [] && p.after.Some? ==> next[p.Rid()] == p.after.value.fields)
              && (p.path != [] ==> p.Rid() in next)
              && (p.path != [] ==> ReadPath(Some(Obj(next[p.Rid()])), p.path) == p.after)
              && (p.path != [] ==> forall other | !Overlaps(p.path, other) ::
                    ReadPath(Some(Obj(next[p.Rid()])), other) == ReadPath(Some(Obj(records[p.Rid()])), other))
  {
    hide WritePath, ReadPath, Overlaps;
    if p.path != [] && p.Rid() in records {
      ReadOwnWrite(records[p.Rid()], p.path, p.after);
      forall other | !Overlaps(p.path, other)
        ensures ReadPath(Some(Obj(WritePath(records[p.Rid()], p.path, p.after))), other) ==
                ReadPath(Some(Obj(records[p.Rid()])), other)
      {
        ReadOtherWrite(records[p.Rid()], p.path, p.after, other);
      }
    }
  }

  /** Several patches are applied in order, each on what its predecessors left, or not at all. */
  lemma PatchesInOrder(records: map<RecordId, Record>, first: FieldPatch, rest: seq<FieldPatch>)
    ensures ApplyPatches(records, []) == Ok(records)
    ensures ApplyPatches(records, [first] + rest) ==
            if ApplyPatch(records, first).Ok? then ApplyPatches(ApplyPatch(records, first).value, rest)
            else Err(ApplyPatch(records, first).error)
  {
    hide ApplyPatch;
    assert ([first] + rest)[1..] == rest;
  }

  /** A structural or history command that fits is accepted exactly when its own patches can be applied. */
  lemma PatchedExactly(s: State, e: Envelope)
    requires e.command.Structural? || e.command.History?
    ensures if Fits(s, e) && ApplyPatches(s.records, e.command.patches).Ok? then
              Apply(s, e).Ok? && Ok(Apply(s, e).value.records) == ApplyPatches(s.records, e.command.patches)
            else
              Apply(s, e).Err?
  {
    hide ApplyPatches, ExpectationsHold;
    ExpectationsAreAll(s, e.expectations);
  }
}
