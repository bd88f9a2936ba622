/** What the patches of the editable commands do to the records, stated without patches. */
module CommandWrites {
  import opened Prelude
  import opened Json
  import opened Domain

  function Restrict(m: Record, keys: seq<string>): Record {
    map k | k in m && k in keys :: m[k]
  }

  lemma RestrictNothing(current: Record, changes: Record)
    ensures current + Restrict(changes, []) == current
  {
    assert Restrict(changes, []) == map[];
  }

  lemma RestrictOne(current: Record, changes: Record, keys: seq<string>)
    requires keys != [] && keys[0] in changes
    ensures current[keys[0] := changes[keys[0]]] + Restrict(changes, keys[1..]) == current + Restrict(changes, keys)
    ensures Lookup(current, keys[0]) == Some(changes[keys[0]]) ==> current[keys[0] := changes[keys[0]]] == current
  {
    var a := current[keys[0] := changes[keys[0]]] + Restrict(changes, keys[1..]);
    var b := current + Restrict(changes, keys);
    assert forall k | k in keys :: k == keys[0] || k in keys[1..];
    assert a.Keys == b.Keys;
    assert forall k | k in a :: a[k] == b[k];
  }

  lemma {:induction false} FieldPatchesWrite(
    records: map<RecordId, Record>, rid: RecordId, seen: Record, changes: Record, keys: seq<string>)
    requires rid in records && NoDuplicates(keys)
    requires forall k | k in keys :: k in changes && Lookup(records[rid], k) == Lookup(seen, k)
    ensures ApplyPatches(records, FieldPatches(rid, seen, changes, keys)) ==
            Ok(records[rid := records[rid] + Restrict(changes, keys)])
    ensures FieldPatches(rid, seen, changes, keys) == [] ==> records[rid] + Restrict(changes, keys) == records[rid]
    decreases |keys|
  {
    hide Restrict;
    var current := records[rid];
    if keys == [] {
      RestrictNothing(current, changes);
      assert records[rid := current] == records;
    } else {
      var k := keys[0];
      var rest := FieldPatches(rid, seen, changes, keys[1..]);
      var written := records[rid := current[k := changes[k]]];
      RestrictOne(current, changes, keys);
      if Lookup(seen, k) == Some(changes[k]) {
        assert written == records;
        FieldPatchesWrite(records, rid, seen, changes, keys[1..]);
      } else {
        var first := FieldPatch(rid.target, rid.id, [k], Lookup(seen, k), Some(changes[k]));
        FieldPatchesWrite(written, rid, seen, changes, keys[1..]);
        assert ([first] + rest)[1..] == rest;
        assert ApplyPatch(records, first) == Ok(written);
        assert written[rid := current + Restrict(changes, keys)] == records[rid := current + Restrict(changes, keys)];
      }
    }
  }

  function WithLeaves(m: Record, group: string, leaves: Record): Record {
    if leaves == map[] then m else m[group := Obj(SubRecord(m, group) + leaves)]
  }

  lemma {:induction false} LeafPatchesWrite(
    records: map<RecordId, Record>, rid: RecordId, seen: Record, group: string, leaves: Record, keys: seq<string>)
    requires rid in records && NoDuplicates(keys)
    requires forall k | k in keys ::
      k in leaves && ReadPath(Some(Obj(records[rid])), [group, k]) == ReadPath(Some(Obj(seen)), [group, k])
    ensures ApplyPatches(records, LeafPatches(rid, seen, group, leaves, keys)) ==
            Ok(records[rid := WithLeaves(records[rid], group, Restrict(leaves, keys))])
    ensures LeafPatches(rid, seen, group, leaves, keys) == [] ==>
              WithLeaves(records[rid], group, Restrict(leaves, keys)) == records[rid]
    decreases |keys|
  {
    hide WritePath, ReadPath, WithLeaves, SubRecord;
    var current := records[rid];
    if keys == [] {
      NoLeaves(current, group, leaves);
      assert records[rid := current] == records;
    } else {
      var k := keys[0];
      var written := WritePath(current, [group, k], Some(leaves[k]));
      LeafWritten(current, group, k, leaves[k]);
      RestrictFirst(current, group, leaves, keys);
      var rest := LeafPatches(rid, seen, group, leaves, keys[1..]);
      if ReadPath(Some(Obj(seen)), [group, k]) == Some(leaves[k]) {
        assert records[rid := written] == records;
        LeafPatchesWrite(records, rid, seen, group, leaves, keys[1..]);
      } else {
        var first := FieldPatch(rid.target, rid.id, [group, k], ReadPath(Some(Obj(seen)), [group, k]), Some(leaves[k]));
        OtherLeavesStay(current, group, k, leaves[k], keys[1..]);
        LeafPatchesWrite(records[rid := written], rid, seen, group, leaves, keys[1..]);
        assert ([first] + rest)[1..] == rest;
        assert ApplyPatch(records, first) == Ok(records[rid := written]);
        var final := WithLeaves(current, group, Restrict(leaves, keys));
        assert records[rid := written][rid := final] == records[rid := final];
      }
    }
  }

  lemma NoLeaves(m: Record, group: string, leaves: Record)
    ensures WithLeaves(m, group, Restrict(leaves, [])) == m
  {
    assert Restrict(leaves, []) == map[];
  }

  lemma LeafWritten(m: Record, group: string, k: string, value: Json)
    ensures WritePath(m, [group, k], Some(value)) == m[group := Obj(SubRecord(m, group)[k := value])]
    ensures ReadPath(Some(Obj(m)), [group, k]) == Some(value) ==> WritePath(m, [group, k], Some(value)) == m
    ensures SubRecord(WritePath(m, [group, k], Some(value)), group) == SubRecord(m, group)[k := value]
  {
    assert [group, k][1..] == [k];
    assert [k][1..] == [];
    if ReadPath(Some(Obj(m)), [group, k]) == Some(value) {
      assert ReadPath(Some(Obj(m)), [group, k]) == ReadPath(Lookup(m, group), [k]);
      assert m[group].Obj?;
      assert ReadPath(Some(m[group]), [k]) == Lookup(m[group].fields, k);
      assert SubRecord(m, group)[k := value] == SubRecord(m, group);
    }
  }

  lemma RestrictFirst(m: Record, group: string, leaves: Record, keys: seq<string>)
    requires keys != [] && keys[0] in leaves
    ensures var written := WritePath(m, [group, keys[0]], Some(leaves[keys[0]]));
            WithLeaves(written, group, Restrict(leaves, keys[1..])) == WithLeaves(m, group, Restrict(leaves, keys))
  {
    var k := keys[0];
    LeafWritten(m, group, k, leaves[k]);
    assert k in Restrict(leaves, keys);
    assert SubRecord(m, group)[k := leaves[k]] + Restrict(leaves, keys[1..]) ==
           SubRecord(m, group) + Restrict(leaves, keys);
    if Restrict(leaves, keys[1..]) == map[] {
      assert SubRecord(m, group)[k := leaves[k]] == SubRecord(m, group) + Restrict(leaves, keys);
    }
  }

  lemma OtherLeavesStay(m: Record, group: string, k: string, value: Json, others: seq<string>)
    requires k !in others
    ensures forall o | o in others ::
              ReadPath(Some(Obj(WritePath(m, [group, k], Some(value)))), [group, o]) ==
              ReadPath(Some(Obj(m)), [group, o])
  {
    forall o | o in others
      ensures ReadPath(Some(Obj(WritePath(m, [group, k], Some(value)))), [group, o]) ==
              ReadPath(Some(Obj(m)), [group, o])
    {
      assert !Overlaps([group, k], [group, o]) by {
        assert [group, k][1] != [group, o][1];
      }
      ReadOtherWrite(m, [group, k], Some(value), [group, o]);
    }
  }

  lemma RestrictAll(m: Record)
    ensures Restrict(m, KeySeq(m.Keys)) == m
  {
    assert forall k | k in m :: k in ToSet(KeySeq(m.Keys));
  }

  lemma {:induction false} PatchesNeverNoChanges(records: map<RecordId, Record>, patches: seq<FieldPatch>)
    ensures ApplyPatches(records, patches) != Err(NoChanges)
    decreases |patches|
  {
    if patches == [] || ApplyPatch(records, patches[0]).Err? {
    } else {
      PatchesNeverNoChanges(ApplyPatch(records, patches[0]).value, patches[1..]);
    }
  }

  lemma UpdateErrors(s: State, rid: RecordId, changes: Record, allowed: set<string>)
    requires rid in s.records && changes.Keys <= allowed
    ensures UpdatePatches(s, rid, changes, allowed).Ok? || UpdatePatches(s, rid, changes, allowed) == Err(NoChanges)
  {
    hide FieldPatches, KeySeq;
  }

  /** An update writes exactly its changes over the record, or finds nothing to change. */
  lemma UpdateWrites(s: State, rid: RecordId, changes: Record, allowed: set<string>)
    ensures var r := UpdatePatches(s, rid, changes, allowed);
            && ((r.Ok? || r == Err(NoChanges)) ==> rid in s.records)
            && (r.Ok? ==> ApplyPatches(s.records, r.value) == Ok(s.records[rid := s.records[rid] + changes]))
            && (r == Err(NoChanges) ==> s.records[rid] + changes == s.records[rid])
  {
    if rid in s.records && changes.Keys <= allowed {
      assert forall k | k in KeySeq(changes.Keys) :: k in ToSet(KeySeq(changes.Keys));
      FieldPatchesWrite(s.records, rid, s.records[rid], changes, KeySeq(changes.Keys));
      RestrictAll(changes);
    }
  }

  // ------------------------------------------------------------ bulk updates

  lemma {:induction false} ApplyPatchesAppend(
    records: map<RecordId, Record>, first: seq<FieldPatch>, second: seq<FieldPatch>)
    ensures ApplyPatches(records, first).Ok? ==>
              ApplyPatches(records, first + second) == ApplyPatches(ApplyPatches(records, first).value, second)
    decreases |first|
  {
    if first == [] {
      assert first + second == second;
    } else {
      assert (first + second)[1..] == first[1..] + second;
      if ApplyPatch(records, first[0]).Ok? {
        ApplyPatchesAppend(ApplyPatch(records, first[0]).value, first[1..], second);
      }
    }
  }

  function BulkRecord(m: Record, changes: Record): Record {
    WithLeaves(m + (changes - {"constraints"}), "constraints", SubRecord(changes, "constraints"))
  }

  lemma BulkItemWrites(records: map<RecordId, Record>, rid: RecordId, changes: Record)
    requires rid in records && ValidBulkChanges(changes)
    ensures var patches := BulkItemPatches(rid, records[rid], changes);
            && ApplyPatches(records, patches) == Ok(records[rid := BulkRecord(records[rid], changes)])
            && (patches == [] ==> BulkRecord(records[rid], changes) == records[rid])
  {
    hide FieldPatches, LeafPatches, ApplyPatches, WithLeaves, KeySeq, Restrict;
    var m := records[rid];
    var whole := changes - {"constraints"};
    var leaves := SubRecord(changes, "constraints");
    var wholeKeys := KeySeq(whole.Keys);
    var leafKeys := KeySeq(leaves.Keys);
    assert forall k | k in wholeKeys :: k in ToSet(wholeKeys);
    assert forall k | k in leafKeys :: k in ToSet(leafKeys);
    FieldPatchesWrite(records, rid, m, whole, wholeKeys);
    RestrictAll(whole);
    RestrictAll(leaves);
    var mid := records[rid := m + whole];
    forall k | k in leafKeys
      ensures ReadPath(Some(Obj(mid[rid])), ["constraints", k]) == ReadPath(Some(Obj(m)), ["constraints", k])
    {
      assert Lookup(mid[rid], "constraints") == Lookup(m, "constraints");
      assert ["constraints", k][0] == "constraints";
    }
    LeafPatchesWrite(mid, rid, m, "constraints", leaves, leafKeys);
    ApplyPatchesAppend(records, FieldPatches(rid, m, whole, wholeKeys),
                       LeafPatches(rid, m, "constraints", leaves, leafKeys));
    assert mid[rid := BulkRecord(m, changes)] == records[rid := BulkRecord(m, changes)];
  }

  /** The changes a bulk edit asks of one item. */
  function UpdateFor(updates: seq<ItemChanges>, id: string): Option<Record> {
    if updates == [] then None
    else if updates[0].id == id then Some(updates[0].changes)
    else UpdateFor(updates[1..], id)
  }

  predicate BulkWritten(before: map<RecordId, Record>, after: map<RecordId, Record>, updates: seq<ItemChanges>) {
    && after.Keys == before.Keys
    && forall rid | rid in before ::
         after[rid] == if rid.target == Item && UpdateFor(updates, rid.id).Some?
                       then BulkRecord(before[rid], UpdateFor(updates, rid.id).value)
                       else before[rid]
  }

  lemma {:induction false} SeenNotUpdated(s: State, updates: seq<ItemChanges>, seen: set<string>, id: string)
    requires BulkPatches(s, updates, seen).Ok? && id in seen
    ensures UpdateFor(updates, id) == None
    decreases |updates|
  {
    if updates == [] {
    } else {
      SeenNotUpdated(s, updates[1..], seen + {updates[0].id}, id);
    }
  }

  /** Writing the first item and then the others writes them all. */
  lemma BulkWrittenThen(
    before: map<RecordId, Record>, after: map<RecordId, Record>, u: ItemChanges, rest: seq<ItemChanges>)
    requires RecordId(Item, u.id) in before && UpdateFor(rest, u.id) == None
    requires var id := RecordId(Item, u.id);
             BulkWritten(before[id := BulkRecord(before[id], u.changes)], after, rest)
    ensures BulkWritten(before, after, [u] + rest)
  {
    hide BulkRecord;
    assert ([u] + rest)[1..] == rest;
    assert forall id :: UpdateFor([u] + rest, id) == if id == u.id then Some(u.changes) else UpdateFor(rest, id);
  }

  lemma {:induction false} BulkPatchesWrite(
    s: State, records: map<RecordId, Record>, updates: seq<ItemChanges>, seen: set<string>)
    requires BulkPatches(s, updates, seen).Ok?
    requires records.Keys == s.records.Keys
    requires forall rid | rid in records && !(rid.target == Item && rid.id in seen) :: records[rid] == s.records[rid]
    ensures var patches := BulkPatches(s, updates, seen).value;
            && ApplyPatches(records, patches).Ok?
            && BulkWritten(records, ApplyPatches(records, patches).value, updates)
    decreases |updates|
  {
    hide BulkItemPatches, BulkRecord, ApplyPatch, ValidBulkChanges;
    if updates == [] {
    } else {
      var u := updates[0];
      var rid := RecordId(Item, u.id);
      var first := BulkItemPatches(rid, s.records[rid], u.changes);
      BulkItemWrites(records, rid, u.changes);
      var mid := records[rid := BulkRecord(records[rid], u.changes)];
      var rest := BulkPatches(s, updates[1..], seen + {u.id}).value;
      BulkPatchesWrite(s, mid, updates[1..], seen + {u.id});
      ApplyPatchesAppend(records, first, rest);
      SeenNotUpdated(s, updates[1..], seen + {u.id}, u.id);
      hide BulkWritten;
      BulkWrittenThen(records, ApplyPatches(mid, rest).value, u, updates[1..]);
      assert updates == [u] + updates[1..];
    }
  }

  /** A bulk edit rewrites each named item with its own changes and leaves every other record alone. */
  lemma BulkUpdateWrites(s: State, updates: seq<ItemChanges>)
    ensures var r := CommandPatches(s, BulkUpdate(updates));
            && (r.Ok? ==> ApplyPatches(s.records, r.value).Ok?)
            && (r.Ok? ==> BulkWritten(s.records, ApplyPatches(s.records, r.value).value, updates))
            && (r == Err(NoChanges) ==> BulkWritten(s.records, s.records, updates))
  {
    hide BulkPatches, BulkRecord, ApplyPatch;
    if updates != [] && BulkPatches(s, updates, {}).Ok? {
      BulkPatchesWrite(s, s.records, updates, {});
    }
    NeverNoChanges(s, updates, {});
  }

  lemma {:induction false} NeverNoChanges(s: State, updates: seq<ItemChanges>, seen: set<string>)
    ensures BulkPatches(s, updates, seen) != Err(NoChanges)
    decreases |updates|
  {
    if updates == [] {
    } else {
      NeverNoChanges(s, updates[1..], seen + {updates[0].id});
    }
  }
}
