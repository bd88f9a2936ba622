/** The smallest edits: one field of one item, for the concrete runs. */
module ItemEdits {
  import opened Prelude
  import opened Json
  import opened Domain
  import opened CommandWrites

  const ITEM: RecordId := RecordId(Item, "i")

  /** Sets one field of the item; the command is created on `seen`. */
  function EditEnvelope(seen: State, id: string, key: string, value: string): Envelope {
    CreateEnvelope(seen, ItemUpdate("i", map[key := Str(value)]), id, "user", "device", "", None, None)
  }

  function Field(s: State, key: string): Option<Json> {
    ReadPatchValue(s, Item, "i", [key])
  }

  lemma OneKey(key: string)
    ensures KeySeq({key}) == [key]
  {
    var keys := KeySeq({key});
    assert ToSet(keys) == {key};
    assert key in ToSet(keys);
    NoDuplicatesCardinality(keys);
    assert keys[0] in ToSet(keys);
  }

  lemma EditExpects(seen: State, s: State, id: string, key: string, value: string)
    requires ITEM in seen.records
    ensures ExpectationsHold(s, EditEnvelope(seen, id, key, value).expectations) <==> Field(s, key) == Field(seen, key)
  {
    hide ReadPatchValue, KeySeq;
    var changes: Record := map[key := Str(value)];
    assert changes.Keys == {key};
    OneKey(key);
    var expectations := EditEnvelope(seen, id, key, value).expectations;
    assert expectations == [ExpectField(seen, Item, "i", [key])];
    assert expectations[0].value == Field(seen, key);
    assert ReadPatchValue(s, expectations[0].target, expectations[0].id, expectations[0].path) == Field(s, key);
  }

  lemma FieldIs(s: State, key: string)
    requires ITEM in s.records
    ensures Field(s, key) == Lookup(s.records[ITEM], key)
  {
    assert [key][1..] == [];
    assert ReadPath(Lookup(s.records[ITEM], key), []) == Lookup(s.records[ITEM], key);
  }

  /** An edit is accepted exactly where its field still is as it was seen, and sets it. */
  lemma EditApplies(seen: State, s: State, id: string, key: string, value: string)
    requires seen.workspaceId == s.workspaceId && seen.revision <= s.revision
    requires ITEM in seen.records && ITEM in s.records && key in ITEM_KEYS && Field(s, key) != Some(Str(value))
    ensures var r := Apply(s, EditEnvelope(seen, id, key, value));
            if Field(s, key) == Field(seen, key) then
              r.Ok? && r.value.records == s.records[ITEM := s.records[ITEM][key := Str(value)]]
            else
              r == Err(Conflict)
  {
    hide UpdatePatches, ApplyPatches, ExpectationsHold, ExpectationsFor, ReadPatchValue;
    var changes: Record := map[key := Str(value)];
    EditExpects(seen, s, id, key, value);
    FieldIs(s, key);
    UpdateWrites(s, ITEM, changes, ITEM_KEYS);
    UpdateErrors(s, ITEM, changes, ITEM_KEYS);
    assert changes.Keys == {key};
    var changed := s.records[ITEM][key := Str(value)];
    assert s.records[ITEM] + changes == changed && changed[key] == Str(value);
  }

  lemma FieldSet(s: State, next: State, key: string, value: string, other: string)
    requires ITEM in s.records && next.records == s.records[ITEM := s.records[ITEM][key := Str(value)]]
    ensures Field(next, other) == if other == key then Some(Str(value)) else Field(s, other)
  {
    FieldIs(next, other);
    FieldIs(s, other);
  }

  lemma EditIs(seen: State, id: string, key: string, value: string)
    ensures var e := EditEnvelope(seen, id, key, value);
            && e.id == id && e.workspaceId == seen.workspaceId && e.baseRevision == seen.revision
            && e.command == ItemUpdate("i", map[key := Str(value)])
  {
  }
}
