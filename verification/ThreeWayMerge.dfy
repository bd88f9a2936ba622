/**
 A reviewed edit is a three-way merge. The command a decision produces may send
 whole groups or single leaves; either way it writes exactly the selected values
 and nothing else.
 */
module ThreeWayMerge {
  import opened Prelude
  import opened Json
  import opened Domain
  import opened CommandWrites
  import opened ConflictReview

  // -------------------------------------------------- writing selected values

  predicate Writable(f: ReviewField) {
    f.key.path != []
  }

  /** A record with the device's value of each field written into it. */
  function WriteAll(m: Record, fields: seq<ReviewField>): Record
    requires forall f | f in fields :: Writable(f)
    decreases |fields|
  {
    if fields == [] then
      m
    else
      assert Writable(fields[0]);
      WriteAll(WritePath(m, fields[0].key.path, fields[0].device), fields[1..])
  }

  function FieldsOf(fields: seq<ReviewField>, id: string): (r: seq<ReviewField>)
    ensures forall f | f in r :: f in fields && f.key.id == id
    ensures forall f | f in fields && f.key.id == id :: f in r
  {
    if fields == [] then
      []
    else
      (if fields[0].key.id == id then [fields[0]] else []) + FieldsOf(fields[1..], id)
  }

  predicate Apart(a: FieldKey, b: FieldKey) {
    a.id == b.id ==> !Overlaps(a.path, b.path)
  }

  predicate AllApart(fields: seq<ReviewField>) {
    fields == [] || ((forall f | f in fields[1..] :: Apart(fields[0].key, f.key)) && AllApart(fields[1..]))
  }

  lemma {:induction false} FieldsOfApart(fields: seq<ReviewField>, id: string)
    requires AllApart(fields)
    ensures AllApart(FieldsOf(fields, id))
  {
    if fields == [] {
    } else {
      var rest := FieldsOf(fields[1..], id);
      FieldsOfApart(fields[1..], id);
      if fields[0].key.id == id {
        assert FieldsOf(fields, id) == [fields[0]] + rest;
        assert ([fields[0]] + rest)[1..] == rest;
        assert forall f | f in rest :: f in fields[1..];
      } else {
        assert FieldsOf(fields, id) == rest;
      }
    }
  }

  lemma {:induction false} ReadUnwritten(m: Record, fields: seq<ReviewField>, path: Path)
    requires forall f | f in fields :: Writable(f) && !Overlaps(f.key.path, path)
    ensures ReadPath(Some(Obj(WriteAll(m, fields))), path) == ReadPath(Some(Obj(m)), path)
    decreases |fields|
  {
    if fields == [] {
    } else {
      var f := fields[0];
      ReadOtherWrite(m, f.key.path, f.device, path);
      ReadUnwritten(WritePath(m, f.key.path, f.device), fields[1..], path);
    }
  }

  lemma {:induction false} ReadWritten(m: Record, fields: seq<ReviewField>, f: ReviewField)
    requires forall x | x in fields :: Writable(x) && x.key.id == f.key.id
    requires AllApart(fields) && f in fields
    ensures ReadPath(Some(Obj(WriteAll(m, fields))), f.key.path) == f.device
    decreases |fields|
  {
    var written := WritePath(m, fields[0].key.path, fields[0].device);
    if f == fields[0] {
      ReadOwnWrite(m, f.key.path, f.device);
      ReadUnwritten(written, fields[1..], f.key.path);
    } else {
      ReadWritten(written, fields[1..], f);
    }
  }

  // ------------------------------------------------- filling the new changes

  /** The paths an editable command names: a field, or a leaf of a grouped field. */
  predicate EditPath(path: Path) {
    || |path| == 1
    || (|path| == 2 && path[0] in LEAF_GROUPS && path[1] != "")
  }

  predicate Whole(f: ReviewField) {
    |f.key.path| == 1 && f.key.path[0] in LEAF_GROUPS
  }

  predicate ReviewShape(f: ReviewField) {
    EditPath(f.key.path) && f.device.Some? && (Whole(f) ==> !f.device.value.Obj?)
  }

  /** The groups already changed can still take the leaves to come. */
  predicate CanTake(changes: Record, fields: seq<ReviewField>) {
    forall f | f in fields && |f.key.path| == 2 ::
      f.key.path[0] in changes ==> changes[f.key.path[0]].Obj?
  }

  lemma MergedLeaf(state: State, rid: RecordId, changes: Record, f: ReviewField)
    requires rid in state.records && f.key.Rid() == rid && |f.key.path| == 2 && f.device.Some?
    requires f.key.path[0] in changes ==> changes[f.key.path[0]].Obj?
    ensures var merged := GroupToMerge(state, changes, f.key);
            && merged.Obj?
            && state.records[rid] + changes[f.key.path[0] := Obj(merged.fields[f.key.path[1] := f.device.value])]
               == WritePath(state.records[rid] + changes, f.key.path, f.device)
  {
    var m := state.records[rid];
    var g := f.key.path[0];
    assert f.key.path == [g, f.key.path[1]];
    assert [g][1..] == [];
    assert ReadPath(Some(Obj(m)), [g]) == ReadPath(Lookup(m, g), [g][1..]);
    assert ReadPatchValue(state, rid.target, rid.id, [g]) == Lookup(m, g);
    LeafWritten(m + changes, g, f.key.path[1], f.device.value);
    assert GroupToMerge(state, changes, f.key).fields == SubRecord(m + changes, g);
  }

  lemma FilledOne(state: State, rid: RecordId, byRecord: ByRecord, f: ReviewField, rest: seq<ReviewField>)
    requires rid in state.records && f.key.Rid() == rid && ReviewShape(f)
    requires FillOne(state, byRecord, f).Ok?
    requires CanTake(ChangesOf(byRecord, rid.id), [f] + rest)
    requires forall x | x in rest :: x.key.id == rid.id && !Overlaps(f.key.path, x.key.path)
    ensures var next := ChangesOf(FillOne(state, byRecord, f).value, rid.id);
            && state.records[rid] + next
               == WritePath(state.records[rid] + ChangesOf(byRecord, rid.id), f.key.path, f.device)
            && CanTake(next, rest)
  {
    hide WritePath, GroupToMerge;
    var changes := ChangesOf(byRecord, rid.id);
    var path := f.key.path;
    assert f in [f] + rest;
    if |path| == 2 {
      MergedLeaf(state, rid, changes, f);
    } else {
      WholeWritten(state.records[rid] + changes, path, f.device.value);
    }
    var next := ChangesOf(FillOne(state, byRecord, f).value, rid.id);
    forall x | x in rest && |x.key.path| == 2 && x.key.path[0] in next
      ensures next[x.key.path[0]].Obj?
    {
      assert x in [f] + rest;
      assert |path| == 1 ==> (path <= x.key.path <==> path[0] == x.key.path[0]);
    }
  }

  lemma WholeWritten(m: Record, path: Path, value: Json)
    requires |path| == 1
    ensures WritePath(m, path, Some(value)) == m[path[0] := value]
  {
  }

  lemma OtherFilled(state: State, byRecord: ByRecord, f: ReviewField, id: string)
    requires FillOne(state, byRecord, f).Ok? && f.key.id != id
    ensures ChangesOf(FillOne(state, byRecord, f).value, id) == ChangesOf(byRecord, id)
    ensures id in FillOne(state, byRecord, f).value <==> id in byRecord
  {
    hide GroupToMerge;
  }

  /** The changes collected for a record amount to writing each of its selected values. */
  lemma {:induction false} FillWrites(state: State, rid: RecordId, byRecord: ByRecord, selected: seq<ReviewField>)
    requires rid in state.records && Fill(state, byRecord, selected).Ok?
    requires forall f | f in selected :: ReviewShape(f) && f.key.target == rid.target && Writable(f)
    requires AllApart(FieldsOf(selected, rid.id))
    requires CanTake(ChangesOf(byRecord, rid.id), FieldsOf(selected, rid.id))
    ensures state.records[rid] + ChangesOf(Fill(state, byRecord, selected).value, rid.id)
            == WriteAll(state.records[rid] + ChangesOf(byRecord, rid.id), FieldsOf(selected, rid.id))
    ensures rid.id in Fill(state, byRecord, selected).value <==>
              rid.id in byRecord || FieldsOf(selected, rid.id) != []
    decreases |selected|
  {
    hide WritePath, GroupToMerge, FillOne;
    if selected == [] {
    } else {
      var f := selected[0];
      var rest := FieldsOf(selected[1..], rid.id);
      if f.key.id == rid.id {
        assert FieldsOf(selected, rid.id) == [f] + rest;
        assert FieldsOf(selected, rid.id)[1..] == rest;
        FilledOne(state, rid, byRecord, f, rest);
        FilledPresent(state, byRecord, f);
      } else {
        assert FieldsOf(selected, rid.id) == rest;
        OtherFilled(state, byRecord, f, rid.id);
      }
      FillWrites(state, rid, FillOne(state, byRecord, f).value, selected[1..]);
    }
  }

  lemma FilledPresent(state: State, byRecord: ByRecord, f: ReviewField)
    requires FillOne(state, byRecord, f).Ok?
    ensures f.key.id in FillOne(state, byRecord, f).value
  {
    hide GroupToMerge;
  }

  /** Every selected value's field is among the collected changes of its record. */
  lemma {:induction false} FilledKeys(state: State, byRecord: ByRecord, selected: seq<ReviewField>)
    requires Fill(state, byRecord, selected).Ok?
    ensures forall f | f in selected :: f.key.path != []
    ensures forall f | f in selected :: f.key.path[0] in ChangesOf(Fill(state, byRecord, selected).value, f.key.id)
    ensures forall id, k | k in ChangesOf(byRecord, id) :: k in ChangesOf(Fill(state, byRecord, selected).value, id)
    decreases |selected|
  {
    hide GroupToMerge;
    if selected == [] {
    } else {
      FilledKeys(state, FillOne(state, byRecord, selected[0]).value, selected[1..]);
    }
  }

  // ------------------------------------------------------------- bulk edits

  predicate NoWholeConstraints(fields: seq<ReviewField>, id: string) {
    forall f | f in fields && f.key.id == id :: f.key.path != [CONSTRAINTS]
  }

  function ConstraintBase(m: Record, changes: Record): Record {
    if CONSTRAINTS in changes &&
       changes[CONSTRAINTS].Obj? then changes[CONSTRAINTS].fields else SubRecord(m, CONSTRAINTS)
  }

  /** The constraints group of the collected changes took these leaves over what it held, or over the online group. */
  predicate TookLeaves(m: Record, before: Record, after: Record, leaves: Record) {
    && (leaves != map[] ==> Lookup(after, CONSTRAINTS) == Some(Obj(ConstraintBase(m, before) + leaves)))
    && (leaves == map[] ==> Lookup(after, CONSTRAINTS) == Lookup(before, CONSTRAINTS))
  }

  lemma TookMore(m: Record, a: Record, b: Record, c: Record, one: Record, more: Record)
    requires TookLeaves(m, a, b, one) && TookLeaves(m, b, c, more)
    ensures TookLeaves(m, a, c, one + more)
  {
    var base := ConstraintBase(m, a);
    assert base + (one + more) == (base + one) + more;
    assert more == map[] ==> one + more == one;
    assert one == map[] ==> one + more == more;
    assert one + more == map[] ==> one == map[] && more == map[] by {
      assert one.Keys + more.Keys == (one + more).Keys;
    }
  }

  lemma {:induction false} FilledConstraints(
    state: State, rid: RecordId, byRecord: ByRecord, selected: seq<ReviewField>)
    requires rid in state.records && Fill(state, byRecord, selected).Ok?
    requires forall f | f in selected :: ReviewShape(f) && f.key.target == rid.target
    requires NoWholeConstraints(selected, rid.id)
    requires var c := ChangesOf(byRecord, rid.id); CONSTRAINTS in c ==> c[CONSTRAINTS].Obj?
    ensures TookLeaves(state.records[rid], ChangesOf(byRecord, rid.id),
                       ChangesOf(Fill(state, byRecord, selected).value, rid.id), ConstraintLeaves(selected, rid.id))
    decreases |selected|
  {
    hide GroupToMerge, FillOne, TookLeaves, ReviewShape;
    if selected != [] {
      var f := selected[0];
      var next := FillOne(state, byRecord, f).value;
      assert ReviewShape(f);
      FilledConstraint(state, rid, byRecord, f);
      FilledConstraints(state, rid, next, selected[1..]);
      TookMore(state.records[rid], ChangesOf(byRecord, rid.id), ChangesOf(next, rid.id),
               ChangesOf(Fill(state, next, selected[1..]).value, rid.id),
               ConstraintLeaves([f], rid.id), ConstraintLeaves(selected[1..], rid.id));
      FirstLeaves(selected, rid.id);
    } else {
      NothingTaken(state.records[rid], ChangesOf(byRecord, rid.id));
    }
  }

  lemma FirstLeaves(selected: seq<ReviewField>, id: string)
    requires selected != []
    ensures ConstraintLeaves(selected, id) == ConstraintLeaves([selected[0]], id) + ConstraintLeaves(selected[1..], id)
  {
    assert [selected[0]][1..] == [];
  }

  lemma NothingTaken(m: Record, changes: Record)
    ensures TookLeaves(m, changes, changes, map[])
  {
  }

  lemma FilledConstraint(state: State, rid: RecordId, byRecord: ByRecord, f: ReviewField)
    requires rid in state.records && FillOne(state, byRecord, f).Ok?
    requires ReviewShape(f) && f.key.target == rid.target
    requires f.key.id == rid.id ==> f.key.path != [CONSTRAINTS]
    requires var c := ChangesOf(byRecord, rid.id); CONSTRAINTS in c ==> c[CONSTRAINTS].Obj?
    ensures var after := ChangesOf(FillOne(state, byRecord, f).value, rid.id);
            && TookLeaves(state.records[rid], ChangesOf(byRecord, rid.id), after, ConstraintLeaves([f], rid.id))
            && (CONSTRAINTS in after ==> after[CONSTRAINTS].Obj?)
  {
    var before := ChangesOf(byRecord, rid.id);
    var m := state.records[rid];
    assert [f][1..] == [];
    var path := f.key.path;
    if f.key.id == rid.id && |path| == 2 && path[0] == CONSTRAINTS {
      assert path[1] in ConstraintLeaves([f], rid.id);
      assert ReadPath(Some(Obj(m)), [CONSTRAINTS]) == ReadPath(Lookup(m, CONSTRAINTS), [CONSTRAINTS][1..]);
      assert ReadPatchValue(state, f.key.target, f.key.id, [CONSTRAINTS]) == Lookup(m, CONSTRAINTS);
      var base := ConstraintBase(m, before);
      assert GroupToMerge(state, before, f.key) == Obj(base);
      assert base[path[1] := f.device.value] == base + ConstraintLeaves([f], rid.id);
    } else {
      hide GroupToMerge;
      assert |path| == 1 && path[0] == CONSTRAINTS ==> path == [CONSTRAINTS];
    }
  }

  /** The leaves sent instead of the merged group merge to that group. */
  lemma SentMatches(m: Record, changes: Record, selected: seq<ReviewField>, id: string)
    requires TookLeaves(m, map[], changes, ConstraintLeaves(selected, id))
    requires ValidBulkChanges(BulkChanges(changes, selected, id))
    ensures BulkRecord(m, BulkChanges(changes, selected, id)) == m + changes
  {
    hide ConstraintLeaves;
    var leaves := ConstraintLeaves(selected, id);
    var sent := BulkChanges(changes, selected, id);
    if CONSTRAINTS in changes {
      assert SubRecord(sent, CONSTRAINTS) == leaves;
    }
    assert sent - {CONSTRAINTS} == changes - {CONSTRAINTS};
    assert SubRecord(m + (changes - {CONSTRAINTS}), CONSTRAINTS) == SubRecord(m, CONSTRAINTS);
  }

  /** Bulk edits that validate never carry the constraints as a whole. */
  lemma NoWholeSelected(m: Record, changes: Record, fields: seq<ReviewField>, selected: seq<ReviewField>, id: string)
    requires forall f | f in fields :: ReviewShape(f) && Writable(f) && f.key.id == id
    requires AllApart(fields) && m + changes == WriteAll(m, fields)
    requires forall f | f in fields :: f.key.path[0] in changes
    requires ValidBulkChanges(BulkChanges(changes, selected, id))
    ensures forall f | f in fields :: f.key.path != [CONSTRAINTS]
  {
    hide WriteAll, ConstraintLeaves;
    forall f | f in fields
      ensures f.key.path != [CONSTRAINTS]
    {
      ReadWritten(m, fields, f);
      ReadOne(m + changes, f.key.path);
    }
  }

  /** Sending only the selected leaves of an item comes to the same as sending the merged group. */
  lemma BulkMatches(state: State, rid: RecordId, selected: seq<ReviewField>)
    requires rid in state.records && Fill(state, map[], selected).Ok?
    requires forall f | f in selected :: ReviewShape(f) && f.key.target == rid.target && Writable(f)
    requires AllApart(selected)
    requires rid.id in Fill(state, map[], selected).value
    requires ValidBulkChanges(BulkChanges(Fill(state, map[], selected).value[rid.id], selected, rid.id))
    ensures BulkRecord(state.records[rid], BulkChanges(Fill(state, map[], selected).value[rid.id], selected, rid.id))
            == WriteAll(state.records[rid], FieldsOf(selected, rid.id))
  {
    hide Fill, WriteAll, ConstraintLeaves, BulkChanges, ValidBulkChanges, BulkRecord, TookLeaves, ReviewShape;
    var m := state.records[rid];
    var changes := ChangesOf(Fill(state, map[], selected).value, rid.id);
    var fields := FieldsOf(selected, rid.id);
    FieldsOfApart(selected, rid.id);
    FillWrites(state, rid, map[], selected);
    assert m + map[] == m;
    FilledKeys(state, map[], selected);
    NoWholeSelected(m, changes, fields, selected, rid.id);
    FilledConstraints(state, rid, map[], selected);
    SentMatches(m, changes, selected, rid.id);
  }

  lemma ReadOne(m: Record, path: Path)
    ensures |path| == 1 ==> ReadPath(Some(Obj(m)), path) == Lookup(m, path[0])
  {
    if |path| == 1 {
      assert path[1..] == [];
    }
  }
}
