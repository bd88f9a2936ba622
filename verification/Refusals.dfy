/**
 What lets a command through and what does not, for commands of every kind: on any
 state, in a replayed queue and at its turn in a batch the server works off.
 */
module Refusals {
  import opened Prelude
  import opened Json
  import opened Domain
  import opened Server

  predicate HoldsOn(s: State, x: Expectation) {
    ReadPatchValue(s, x.target, x.id, x.path) == x.value
  }

  predicate AllHold(s: State, expectations: seq<Expectation>) {
    forall x | x in expectations :: HoldsOn(s, x)
  }

  lemma ExpectationsAreAll(s: State, expectations: seq<Expectation>)
    ensures ExpectationsHold(s, expectations) <==> AllHold(s, expectations)
  {
    hide ReadPatchValue;
    if ExpectationsHold(s, expectations) {
      forall x | x in expectations
        ensures HoldsOn(s, x)
      {
        var i :| 0 <= i < |expectations| && expectations[i] == x;
      }
    }
    if AllHold(s, expectations) {
      forall i | 0 <= i < |expectations|
        ensures ReadPatchValue(s, expectations[i].target, expectations[i].id, expectations[i].path) ==
                expectations[i].value
      {
        assert HoldsOn(s, expectations[i]);
      }
    }
  }

  // -------------------------------------------------------- on any state

  /** The reasons for which the content of a command is refused. */
  predicate AboutContent(problem: Problem) {
    problem != Conflict && problem != WrongWorkspace && problem != RevisionAhead
  }

  lemma {:induction false} BulkProblems(s: State, updates: seq<ItemChanges>, seen: set<string>)
    ensures BulkPatches(s, updates, seen).Err? ==> AboutContent(BulkPatches(s, updates, seen).error)
  {
    hide BulkItemPatches, ValidBulkChanges;
    if updates == [] {
    } else {
      BulkProblems(s, updates[1..], seen + {updates[0].id});
    }
  }

  lemma CommandProblems(s: State, command: Command)
    ensures CommandPatches(s, command).Err? ==> AboutContent(CommandPatches(s, command).error)
  {
    hide BulkPatches, FieldPatches, ReadPatchValue;
    if command.BulkUpdate? {
      BulkProblems(s, command.updates, {});
    }
  }

  lemma {:induction false} PatchProblems(records: map<RecordId, Record>, patches: seq<FieldPatch>)
    ensures ApplyPatches(records, patches).Err? ==> AboutContent(ApplyPatches(records, patches).error)
    decreases |patches|
  {
    hide WritePath;
    if patches == [] || ApplyPatch(records, patches[0]).Err? {
    } else {
      PatchProblems(ApplyPatch(records, patches[0]).value, patches[1..]);
    }
  }

  /**
   A command of whatever kind meets a conflict exactly when it is for this workspace,
   not ahead of it, and something it expects is no longer so; an accepted one found
   everything as expected.
   */
  lemma ConflictExactly(s: State, e: Envelope)
    ensures Apply(s, e) == Err(Conflict) <==>
              && e.workspaceId == s.workspaceId && e.baseRevision <= s.revision
              && exists x | x in e.expectations :: !HoldsOn(s, x)
    ensures Apply(s, e) == Err(WrongWorkspace) <==> e.workspaceId != s.workspaceId
    ensures Apply(s, e) == Err(RevisionAhead) <==> e.workspaceId == s.workspaceId && e.baseRevision > s.revision
    ensures Apply(s, e).Ok? ==> forall x | x in e.expectations :: HoldsOn(s, x)
  {
    hide CommandPatches, ApplyPatches, HoldsOn, ExpectationsHold;
    ExpectationsAreAll(s, e.expectations);
    CommandProblems(s, e.command);
    if CommandPatches(s, e.command).Ok? {
      PatchProblems(s.records, CommandPatches(s, e.command).value);
    }
  }

  /** An accepted command is logged last, with patches that lead from the old records to the new ones. */
  lemma AcceptedIsRecorded(s: State, e: Envelope)
    requires Apply(s, e).Ok?
    ensures var next := Apply(s, e).value;
            && next.log != [] && next.log[..|next.log| - 1] == s.log
            && var last := next.log[|next.log| - 1];
               && last.commandId == e.id
               && ApplyPatches(s.records, last.patches) == Ok(next.records)
               && (e.command.Structural? || e.command.History? ==> last.patches == e.command.patches)
               && (!e.command.Structural? && !e.command.History? ==>
                     last.patches != [] && AllFromState(s, last.patches))
  {
    hide ApplyPatches, ExpectationsHold, AllFromState;
    if !e.command.Structural? && !e.command.History? {
      EditPatches(s, e.command);
    }
  }

  /** A patch of an ordinary edit remembers what it replaces, and replaces it by something else. */
  predicate FromState(s: State, p: FieldPatch) {
    p.before == ReadPatchValue(s, p.target, p.id, p.path) && p.after.Some? && p.after != p.before
  }

  predicate AllFromState(s: State, patches: seq<FieldPatch>) {
    forall p | p in patches :: FromState(s, p)
  }

  lemma ReadField(s: State, rid: RecordId, key: string)
    requires rid in s.records
    ensures ReadPatchValue(s, rid.target, rid.id, [key]) == Lookup(s.records[rid], key)
  {
    assert [key][1..] == [];
    assert rid == RecordId(rid.target, rid.id);
    assert ReadPath(Lookup(s.records[rid], key), []) == Lookup(s.records[rid], key);
  }

  lemma {:induction false} FieldPatchesFromState(s: State, rid: RecordId, changes: Record, keys: seq<string>)
    requires rid in s.records && forall k | k in keys :: k in changes
    ensures AllFromState(s, FieldPatches(rid, s.records[rid], changes, keys))
  {
    if keys == [] {
    } else {
      FieldPatchesFromState(s, rid, changes, keys[1..]);
      ReadField(s, rid, keys[0]);
    }
  }

  lemma {:induction false} LeafPatchesFromState(
    s: State, rid: RecordId, group: string, leaves: Record, keys: seq<string>)
    requires rid in s.records && forall k | k in keys :: k in leaves
    ensures AllFromState(s, LeafPatches(rid, s.records[rid], group, leaves, keys))
  {
    hide ReadPath;
    if keys == [] {
    } else {
      LeafPatchesFromState(s, rid, group, leaves, keys[1..]);
    }
  }

  lemma BulkItemFromState(s: State, rid: RecordId, changes: Record)
    requires rid in s.records && ValidBulkChanges(changes)
    ensures AllFromState(s, BulkItemPatches(rid, s.records[rid], changes))
  {
    hide FieldPatches, LeafPatches, FromState;
    var whole := changes - {"constraints"};
    var leaves := SubRecord(changes, "constraints");
    assert forall k | k in KeySeq(whole.Keys) :: k in ToSet(KeySeq(whole.Keys));
    assert forall k | k in KeySeq(leaves.Keys) :: k in ToSet(KeySeq(leaves.Keys));
    FieldPatchesFromState(s, rid, whole, KeySeq(whole.Keys));
    LeafPatchesFromState(s, rid, "constraints", leaves, KeySeq(leaves.Keys));
  }

  lemma {:induction false} BulkFromState(s: State, updates: seq<ItemChanges>, seen: set<string>)
    requires BulkPatches(s, updates, seen).Ok?
    ensures AllFromState(s, BulkPatches(s, updates, seen).value)
  {
    hide BulkItemPatches, ValidBulkChanges, FromState;
    if updates == [] {
    } else {
      BulkFromState(s, updates[1..], seen + {updates[0].id});
      BulkItemFromState(s, RecordId(Item, updates[0].id), updates[0].changes);
    }
  }

  lemma UpdateFromState(s: State, rid: RecordId, changes: Record, allowed: set<string>)
    requires UpdatePatches(s, rid, changes, allowed).Ok?
    ensures var patches := UpdatePatches(s, rid, changes, allowed).value; patches != [] && AllFromState(s, patches)
  {
    hide FieldPatches, AllFromState;
    assert forall k | k in KeySeq(changes.Keys) :: k in ToSet(KeySeq(changes.Keys));
    FieldPatchesFromState(s, rid, changes, KeySeq(changes.Keys));
  }

  lemma EditPatches(s: State, command: Command)
    requires !command.Structural? && !command.History? && CommandPatches(s, command).Ok?
    ensures var patches := CommandPatches(s, command).value; patches != [] && AllFromState(s, patches)
  {
    hide UpdatePatches, BulkPatches, AllFromState;
    match command
    case Rename(name) => UpdateFromState(s, RecordId(Workspace, s.workspaceId), map["name" := name], {"name"});
    case ItemUpdate(id, changes) => UpdateFromState(s, RecordId(Item, id), changes, ITEM_KEYS);
    case LocationUpdate(id, changes) => UpdateFromState(s, RecordId(Location, id), changes, LOCATION_KEYS);
    case BulkUpdate(updates) => BulkFromState(s, updates, {});
  }

  // ------------------------------------------ a command created on an older state

  /** What a new bulk edit remembers of one item. */
  predicate WatchesItem(changes: Record, path: Path) {
    || path == ["locationId"] || path == ["archivedAt"]
    || (|path| == 1 && path[0] in changes && path[0] != "constraints")
    || (|path| == 2 && path[0] == "constraints" && path[1] in SubRecord(changes, "constraints"))
  }

  /** The values a new command depends on: what it is about to overwrite, and where a bulk-edited item is. */
  predicate Watches(seen: State, command: Command, target: Target, id: string, path: Path) {
    match command
    case Rename(_) => target == Workspace && id == seen.workspaceId && path == ["name"]
    case ItemUpdate(item, changes) =>
      target == Item && id == item && RecordId(Item, id) in seen.records && |path| == 1 && path[0] in changes
    case LocationUpdate(location, changes) =>
      target == Location && id == location && RecordId(Location, id) in seen.records && |path| == 1 &&
        path[0] in changes
    case BulkUpdate(updates) =>
      target == Item && RecordId(Item, id) in seen.records &&
        exists u | u in updates :: u.id == id && WatchesItem(u.changes, path)
    case Structural(patches) => exists p | p in patches :: p.target == target && p.id == id && p.path == path
    case History(_) => false
  }

  /** The expectations are exactly what the state holds at the watched paths. */
  predicate Remembers(s: State, expectations: seq<Expectation>, target: Target, id: string, path: Path) {
    Expectation(target, id, path, ReadPatchValue(s, target, id, path)) in expectations
  }

  predicate AreRead(s: State, expectations: seq<Expectation>) {
    forall x | x in expectations :: x.value == ReadPatchValue(s, x.target, x.id, x.path)
  }

  lemma FieldsRemembered(s: State, target: Target, id: string, keys: seq<string>)
    ensures AreRead(s, ExpectFields(s, target, id, keys))
    ensures forall t, i, p :: Remembers(s, ExpectFields(s, target, id, keys), t, i, p) <==>
              t == target && i == id && |p| == 1 && p[0] in keys
  {
    hide ReadPatchValue;
    var expectations := ExpectFields(s, target, id, keys);
    forall t, i, p
      ensures Remembers(s, expectations, t, i, p) <==> t == target && i == id && |p| == 1 && p[0] in keys
    {
      if t == target && i == id && |p| == 1 && p[0] in keys {
        var k :| 0 <= k < |keys| && keys[k] == p[0];
        assert p == [keys[k]];
        assert expectations[k] == Expectation(t, i, p, ReadPatchValue(s, t, i, p));
      }
    }
  }

  lemma LeavesRemembered(s: State, id: string, keys: seq<string>)
    ensures AreRead(s, ExpectLeaves(s, id, keys))
    ensures forall t, i, p :: Remembers(s, ExpectLeaves(s, id, keys), t, i, p) <==>
              t == Item && i == id && |p| == 2 && p[0] == "constraints" && p[1] in keys
  {
    hide ReadPatchValue;
    var expectations := ExpectLeaves(s, id, keys);
    forall t, i, p
      ensures Remembers(s, expectations, t, i, p) <==>
                t == Item && i == id && |p| == 2 && p[0] == "constraints" && p[1] in keys
    {
      if t == Item && i == id && |p| == 2 && p[0] == "constraints" && p[1] in keys {
        var k :| 0 <= k < |keys| && keys[k] == p[1];
        assert p == ["constraints", keys[k]];
        assert expectations[k] == Expectation(t, i, p, ReadPatchValue(s, t, i, p));
      }
    }
  }

  lemma KeysAre(changes: Record)
    ensures forall k :: k in KeySeq(changes.Keys) <==> k in changes
  {
    forall k
      ensures k in KeySeq(changes.Keys) <==> k in changes
    {
      assert k in KeySeq(changes.Keys) <==> k in ToSet(KeySeq(changes.Keys));
    }
  }

  function ExpectItem(s: State, u: ItemChanges): seq<Expectation> {
    ExpectFields(s, Item, u.id, ["locationId", "archivedAt"]) +
    ExpectFields(s, Item, u.id, KeySeq(u.changes.Keys - {"constraints"})) +
    ExpectLeaves(s, u.id, KeySeq(SubRecord(u.changes, "constraints").Keys))
  }

  lemma ItemRemembered(s: State, u: ItemChanges)
    ensures AreRead(s, ExpectItem(s, u))
    ensures forall t, i, p :: Remembers(s, ExpectItem(s, u), t, i, p) <==>
              t == Item && i == u.id && WatchesItem(u.changes, p)
  {
    hide ReadPatchValue, ExpectFields, ExpectLeaves;
    var whole := u.changes - {"constraints"};
    assert whole.Keys == u.changes.Keys - {"constraints"};
    var leaves := SubRecord(u.changes, "constraints");
    KeysAre(whole);
    KeysAre(leaves);
    FieldsRemembered(s, Item, u.id, ["locationId", "archivedAt"]);
    FieldsRemembered(s, Item, u.id, KeySeq(whole.Keys));
    LeavesRemembered(s, u.id, KeySeq(leaves.Keys));
    var a, b, c := ExpectFields(s, Item, u.id, ["locationId", "archivedAt"]),
      ExpectFields(s, Item, u.id, KeySeq(whole.Keys)), ExpectLeaves(s, u.id, KeySeq(leaves.Keys));
    forall t, i, p
      ensures Remembers(s, ExpectItem(s, u), t, i, p) <==> t == Item && i == u.id && WatchesItem(u.changes, p)
    {
      assert Remembers(s, a + b + c, t, i, p) <==>
             Remembers(s, a, t, i, p) || Remembers(s, b, t, i, p) || Remembers(s, c, t, i, p);
      if |p| == 1 {
        assert p == [p[0]];
      }
    }
  }

  lemma {:induction false} BulkRemembered(s: State, updates: seq<ItemChanges>)
    ensures AreRead(s, ExpectBulk(s, updates))
    ensures forall t, i, p :: Remembers(s, ExpectBulk(s, updates), t, i, p) <==>
              t == Item && RecordId(Item, i) in s.records &&
              exists u | u in updates :: u.id == i && WatchesItem(u.changes, p)
  {
    hide ReadPatchValue, WatchesItem, ExpectFields, ExpectLeaves, KeySeq;
    if updates == [] {
    } else {
      var u, rest := updates[0], ExpectBulk(s, updates[1..]);
      ItemRemembered(s, u);
      BulkRemembered(s, updates[1..]);
      var first := if RecordId(Item, u.id) in s.records then ExpectItem(s, u) else [];
      assert ExpectBulk(s, updates) == first + rest;
      forall t, i, p
        ensures Remembers(s, first + rest, t, i, p) <==>
                  t == Item && RecordId(Item, i) in s.records &&
                  exists v | v in updates :: v.id == i && WatchesItem(v.changes, p)
      {
        assert Remembers(s, first + rest, t, i, p) <==> Remembers(s, first, t, i, p) || Remembers(s, rest, t, i, p);
        assert (exists v | v in updates :: v.id == i && WatchesItem(v.changes, p)) <==>
               (u.id == i && WatchesItem(u.changes, p)) ||
               (exists v | v in updates[1..] :: v.id == i && WatchesItem(v.changes, p));
      }
    }
  }

  lemma PatchesRemembered(s: State, patches: seq<FieldPatch>)
    ensures AreRead(s, ExpectationsFor(s, Structural(patches)))
    ensures forall t, i, p :: Remembers(s, ExpectationsFor(s, Structural(patches)), t, i, p) <==>
              Watches(s, Structural(patches), t, i, p)
  {
    hide ReadPatchValue;
    var expectations := ExpectationsFor(s, Structural(patches));
    forall t, i, p
      ensures Remembers(s, expectations, t, i, p) <==> Watches(s, Structural(patches), t, i, p)
    {
      if Watches(s, Structural(patches), t, i, p) {
        var patch :| patch in patches && patch.target == t && patch.id == i && patch.path == p;
        var k :| 0 <= k < |patches| && patches[k] == patch;
        assert expectations[k] == Expectation(t, i, p, ReadPatchValue(s, t, i, p));
      }
    }
  }

  /** A new command expects what it saw at the values it depends on, and nothing else. */
  lemma ExpectationsAreWatched(s: State, command: Command)
    ensures AreRead(s, ExpectationsFor(s, command))
    ensures forall t, i, p :: Remembers(s, ExpectationsFor(s, command), t, i, p) <==> Watches(s, command, t, i, p)
  {
    hide ReadPatchValue, ExpectFields, WatchesItem, KeySeq;
    match command {
      case Rename(_) => OneRemembered(s);
      case ItemUpdate(id, changes) =>
        KeysAre(changes);
        FieldsRemembered(s, Item, id, KeySeq(changes.Keys));
      case LocationUpdate(id, changes) =>
        KeysAre(changes);
        FieldsRemembered(s, Location, id, KeySeq(changes.Keys));
      case BulkUpdate(updates) => BulkRemembered(s, updates);
      case Structural(patches) => PatchesRemembered(s, patches);
      case History(_) =>
    }
  }

  lemma OneRemembered(s: State)
    ensures var one := [ExpectField(s, Workspace, s.workspaceId, ["name"])];
            && AreRead(s, one)
            && forall t, i, p :: Remembers(s, one, t, i, p) <==>
                 t == Workspace && i == s.workspaceId && p == ["name"]
  {
    hide ReadPatchValue;
    var one := [ExpectField(s, Workspace, s.workspaceId, ["name"])];
    assert one[0] in one;
  }

  /** A value the command depends on is no longer what it was. */
  predicate Changed(seen: State, s: State, command: Command, target: Target, id: string, path: Path) {
    Watches(seen, command, target, id, path) &&
      ReadPatchValue(s, target, id, path) != ReadPatchValue(seen, target, id, path)
  }

  /**
   No silent overwriting: a command created on the state the user saw meets a conflict
   on a later state exactly when something it depends on has changed in between.
   */
  lemma StaleCommandConflicts(
    seen: State, s: State, command: Command, id: string, actorId: string, deviceId: string, timestamp: string,
    authorization: Option<Basis>)
    requires seen.workspaceId == s.workspaceId && seen.revision <= s.revision
    ensures Apply(s, CreateEnvelope(seen, command, id, actorId, deviceId, timestamp, authorization, None)) ==
            Err(Conflict)
            <==> exists target, record, path :: Changed(seen, s, command, target, record, path)
  {
    hide Apply, ReadPatchValue, Watches, ExpectationsFor;
    var e := CreateEnvelope(seen, command, id, actorId, deviceId, timestamp, authorization, None);
    var expectations := ExpectationsFor(seen, command);
    ConflictExactly(s, e);
    ExpectationsAreWatched(seen, command);
    if x :| x in expectations && !HoldsOn(s, x) {
      assert Remembers(seen, expectations, x.target, x.id, x.path);
      assert Changed(seen, s, command, x.target, x.id, x.path);
    }
    if target, record, path :| Changed(seen, s, command, target, record, path) {
      assert Remembers(seen, expectations, target, record, path);
      var x := Expectation(target, record, path, ReadPatchValue(seen, target, record, path));
      assert x in e.expectations && !HoldsOn(s, x);
    }
  }

  // ------------------------------------------------------- a replayed queue

  /** Every command of a queue that replays found what it expected when its turn came. */
  lemma {:induction false} ReplayedFits(s: State, queue: seq<Envelope>, i: nat)
    requires Replay(s, queue).Ok? && i < |queue|
    ensures Replay(s, queue[..i]).Ok?
    ensures var before := Replay(s, queue[..i]).value;
            && AllHold(before, queue[i].expectations)
            && queue[i].workspaceId == s.workspaceId && queue[i].baseRevision <= before.revision
            && Apply(before, queue[i]).Ok?
    decreases i
  {
    hide Apply, HoldsOn;
    if i == 0 {
      assert queue[..0] == [];
      ConflictExactly(s, queue[0]);
    } else {
      var next := Apply(s, queue[0]).value;
      ReplayedFits(next, queue[1..], i - 1);
      assert queue[..i][0] == queue[0] && queue[..i][1..] == queue[1..][..i - 1];
    }
  }

  // --------------------------------------------------- a batch on the server

  /** The server's state when the turn of a command has come. */
  function AtTurn(initial: State, commands: seq<Envelope>, i: nat): State
    requires i <= |commands|
  {
    Serve(initial.revision, 0, initial, commands[..i]).state
  }

  lemma {:induction false} ServeSplits(
    initialRevision: nat, handled: nat, state: State, commands: seq<Envelope>, i: nat)
    requires i < |commands|
    ensures var all := Serve(initialRevision, handled, state, commands);
            var before := Serve(initialRevision, handled, state, commands[..i]).state;
            var (next, receipt) := ServeOne(initialRevision, handled + i, before, commands[i]);
            && |all.receipts| == |commands|
            && all.receipts[i] == receipt
            && Serve(initialRevision, handled, state, commands[..i + 1]).state == next
    decreases |commands|
  {
    hide ServeOne;
    var (first, receipt) := ServeOne(initialRevision, handled, state, commands[0]);
    ServeLength(initialRevision, handled, state, commands);
    if i == 0 {
      assert commands[..1][0] == commands[0] && commands[..1][1..] == [] && commands[..0] == [];
      assert Serve(initialRevision, handled + 1, first, []).state == first;
      assert Serve(initialRevision, handled, state, commands[..1]).state == first;
    } else {
      ServeSplits(initialRevision, handled + 1, first, commands[1..], i - 1);
      assert commands[..i][0] == commands[0] && commands[..i][1..] == commands[1..][..i - 1];
      assert commands[..i + 1][0] == commands[0] && commands[..i + 1][1..] == commands[1..][..i];
    }
  }

  lemma {:induction false} ServeLength(initialRevision: nat, handled: nat, state: State, commands: seq<Envelope>)
    ensures |Serve(initialRevision, handled, state, commands).receipts| == |commands|
    decreases |commands|
  {
    hide ServeOne;
    if commands == [] {
    } else {
      var (next, _) := ServeOne(initialRevision, handled, state, commands[0]);
      ServeLength(initialRevision, handled + 1, next, commands[1..]);
    }
  }

  /** The furthest revision a command of the batch may name: reached, or counted on when the batch was written. */
  function Reachable(initial: State, before: State, i: nat): nat {
    Larger(before.revision, initial.revision + i)
  }

  /**
   Every command of a served batch at its turn. A duplicate is one the log already
   holds. Otherwise it is applied only if everything it expects holds then, and refused
   for a conflict exactly if something does not; a revision it counted on within the
   batch is no reason to refuse it, one beyond that is. Whatever is not applied leaves
   the whole state as it was.
   */
  lemma ServedAtTurn(initial: State, commands: seq<Envelope>, i: nat)
    requires SynchronizeResult(initial, commands).Ok? && i < |commands|
    ensures var r := SynchronizeResult(initial, commands).value;
            && |r.receipts| == |commands|
            && var e, receipt := commands[i], r.receipts[i];
               var before, after := AtTurn(initial, commands, i), AtTurn(initial, commands, i + 1);
               && receipt.commandId == e.id && receipt.revision == after.revision
               && (receipt.status == Duplicate <==> e.id in AppliedIds(before))
               && (receipt.status == Applied ==>
                     && AllHold(before, e.expectations) && e.baseRevision <= Reachable(initial, before, i)
                     && after.revision == before.revision + 1 && AppliedIds(after) == AppliedIds(before) + [e.id])
               && (receipt.status != Applied ==> after == before)
               && (receipt.status == Rejected ==>
                     && (receipt.message == Some(ProblemText(Conflict)) <==>
                         e.baseRevision <= Reachable(initial, before, i) && !AllHold(before, e.expectations))
                     && (receipt.message == Some(ProblemText(RevisionAhead)) <==>
                         e.baseRevision > Reachable(initial, before, i)))
    ensures AtTurn(initial, commands, 0) == initial
    ensures AtTurn(initial, commands, |commands|) == SynchronizeResult(initial, commands).value.state
  {
    hide Apply, HoldsOn, Serve, WasApplied;
    ServeSplits(initial.revision, 0, initial, commands, i);
    assert commands[..0] == [] && commands[..|commands|] == commands;
    NothingServedYet(initial);
    var e, before := commands[i], AtTurn(initial, commands, i);
    WasAppliedIsLogged(before, e.id);
    SameWorkspaceAtTurn(initial, commands, i);
    ConflictExactly(before, Rebased(e, initial.revision, i, before));
    TextsDiffer();
  }

  lemma NothingServedYet(initial: State)
    ensures Serve(initial.revision, 0, initial, []).state == initial
  {
  }

  lemma SameWorkspaceAtTurn(initial: State, commands: seq<Envelope>, i: nat)
    requires i < |commands|
    ensures AtTurn(initial, commands, i).workspaceId == initial.workspaceId
  {
    ServeHistory(initial.revision, 0, initial, commands[..i]);
  }

  lemma TextsDiffer()
    ensures forall p | ProblemText(p) == ProblemText(Conflict) :: p == Conflict
    ensures forall p | ProblemText(p) == ProblemText(RevisionAhead) :: p == RevisionAhead
  {
    assert ProblemText(Conflict)[12] == 'c' && ProblemText(NotFound)[12] == 'w';
    assert ProblemText(RevisionAhead)[0] == 'R' && ProblemText(RevisionAhead)[9] == 'A';
  }
}
