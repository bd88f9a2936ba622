/**
 The device's store of copies: one record per workspace and a second record that
 duplicates whichever workspace is active. Each method is one transaction.
 The server catalogs kept in the same store are not part of this model.
 */
module DeviceStore {
  import opened Prelude
  import opened Json
  import opened Domain
  import opened Access
  import opened LocalReplica

  const ACTIVE_KEY: string := "active"
  const WORKSPACE_KEY_PREFIX: string := "workspace:"

  function WorkspaceKey(workspaceId: string): string {
    WORKSPACE_KEY_PREFIX + workspaceId
  }

  function WorkspaceId(replica: Replica): string {
    replica.state.workspaceId
  }

  type Records = map<string, Replica>

  datatype StoreError = Changed | AuthorizationChanged | NotAllowed | UpdateFailed(problem: string)

  type Update = Replica -> Result<Replica, StoreError>

  lemma KeysAreDistinct(a: string, b: string)
    ensures WorkspaceKey(a) != ACTIVE_KEY
    ensures WorkspaceKey(a) == WorkspaceKey(b) ==> a == b
    ensures WORKSPACE_KEY_PREFIX <= WorkspaceKey(a) && !(WORKSPACE_KEY_PREFIX <= ACTIVE_KEY)
  {
    assert WorkspaceKey(a)[0] == 'w' && ACTIVE_KEY[0] == 'a';
    assert WorkspaceKey(a)[|WORKSPACE_KEY_PREFIX|..] == a && WorkspaceKey(b)[|WORKSPACE_KEY_PREFIX|..] == b;
  }

  // ---------------------------------------------------------------- versions

  predicate AccessVersionsMatch(a: AccessState, b: AccessState) {
    && a.kind == b.kind && AccountIdsMatch(a.accountId, b.accountId)
    && a.membershipRevision == b.membershipRevision && a.accessRevision == b.accessRevision
    && a.status == b.status && a.role == b.role
  }

  predicate SameVersion(current: Replica, expected: Replica) {
    && WorkspaceId(current) == WorkspaceId(expected)
    && current.state.revision == expected.state.revision
    && current.updatedAt == expected.updatedAt
    && AccessVersionsMatch(current.authorization, expected.authorization)
    && (if current.serverSummary.None? || expected.serverSummary.None? then
          current.serverSummary == expected.serverSummary
        else
          && AccountIdsMatch(current.serverSummary.value.accountId, expected.serverSummary.value.accountId)
          && CompareSummaries(current.serverSummary.value, expected.serverSummary.value) == 0)
    && |current.outbox| == |expected.outbox|
    && forall i | 0 <= i < |current.outbox| ::
         && current.outbox[i].envelope.id == expected.outbox[i].envelope.id
         && AccountIdsMatch(current.outbox[i].accountId, expected.outbox[i].accountId)
         && current.outbox[i].status == expected.outbox[i].status
  }

  predicate VersionMatches(current: Option<Replica>, expected: Option<Replica>) {
    if current.None? || expected.None? then current == expected else SameVersion(current.value, expected.value)
  }

  // ------------------------------------------------------- the simple store

  /** What the two kinds of record stand for: one copy per workspace, and which is active. */
  datatype Copies = Copies(byId: map<string, Replica>, active: Option<string>)

  function Find(copies: Copies, id: string): Option<Replica> {
    if id in copies.byId then Some(copies.byId[id]) else None
  }

  function ActiveCopy(copies: Copies): Option<Replica> {
    if copies.active.Some? then Find(copies, copies.active.value) else None
  }

  datatype Operation =
    | Write(replica: Replica)
    | WriteIfUnchanged(replica: Replica, expected: Replica)
    | WriteWorkspaceIfUnchanged(replica: Replica, expectedTarget: Option<Replica>, expectedActive: Option<Replica>)
    | Mutate(update: Update)
    | MutateWorkspace(id: string, update: Update)
    | Activate(id: string)
    | ActivateOrInsert(candidate: Replica)
    | ActivateOrInsertServer(candidate: Replica)
    | Replace(replica: Replica, previous: Option<string>)
    | ReplaceIfUnchanged(replica: Replica, expected: Replica)
    | Delete(id: string, expectedUpdatedAt: Option<string>)
    | Clear

  function Put(copies: Copies, replica: Replica): Copies {
    Copies(copies.byId[WorkspaceId(replica) := replica], Some(WorkspaceId(replica)))
  }

  function Without(copies: Copies, id: string): Copies {
    Copies(copies.byId - {id}, if copies.active == Some(id) then None else copies.active)
  }

  /** A downloaded copy joins one already on the device: its queue and state stay. */
  function MergeDownloaded(existing: Replica, prepared: Replica): Replica
    requires prepared.serverSummary.Some?
  {
    existing.(
      authorization :=
        if ShouldApply(existing.authorization, prepared.authorization) then prepared.authorization
        else existing.authorization,
      outbox := ScopeOutbox(existing.outbox, existing.authorization, prepared.authorization),
      serverSummary := NewerSummary(existing.serverSummary, prepared.serverSummary.value))
  }

  /** The download carries the server authorization and summary it was authorized with. */
  predicate ConsistentDownload(candidate: Replica) {
    && candidate.authorization.kind == ServerBacked
    && candidate.authorization.status == Active
    && candidate.authorization.role.Some?
    && candidate.authorization.capabilities.read
    && candidate.serverSummary.Some?
    && var summary := candidate.serverSummary.value;
       && summary.id == WorkspaceId(candidate)
       && summary.revision == candidate.state.revision
       && summary.membershipRevision == candidate.authorization.membershipRevision
       && summary.accessRevision == candidate.authorization.accessRevision
       && AccountIdsMatch(summary.accountId, candidate.authorization.accountId)
  }

  /** Every operation on the simple store; an error leaves it as it was. */
  function Step(copies: Copies, op: Operation): Result<Copies, StoreError> {
    match op
    case Write(replica) => Ok(Put(copies, replica))
    case WriteIfUnchanged(replica, expected) =>
      var active := ActiveCopy(copies);
      if active.Some? && SameVersion(active.value, expected) then Ok(Put(copies, replica)) else Err(Changed)
    case WriteWorkspaceIfUnchanged(replica, expectedTarget, expectedActive) =>
      if VersionMatches(Find(copies, WorkspaceId(replica)), expectedTarget) &&
        VersionMatches(ActiveCopy(copies), expectedActive)
      then Ok(Put(copies, replica))
      else Err(Changed)
    case Mutate(update) =>
      var active := ActiveCopy(copies);
      if active.None? then Ok(copies)
      else
        var next :- update(active.value);
        Ok(Put(copies, next))
    case MutateWorkspace(id, update) =>
      var current := Find(copies, id);
      if current.None? then Ok(copies)
      else
        var next :- update(current.value);
        Ok(copies.(byId := copies.byId[id := next]))
    case Activate(id) =>
      Ok(if id in copies.byId then copies.(active := Some(id)) else copies)
    case ActivateOrInsert(candidate) =>
      Ok(Put(copies, Find(copies, WorkspaceId(candidate)).GetOr(candidate)))
    case ActivateOrInsertServer(candidate) =>
      if !ConsistentDownload(candidate) then
        Err(NotAllowed)
      else
        var existing := Find(copies, WorkspaceId(candidate));
        Ok(Put(copies, if existing.Some? then MergeDownloaded(existing.value, candidate) else candidate))
    case Replace(replica, previous) =>
      Ok(if previous.Some? && previous.value != "" && previous.value != WorkspaceId(replica)
         then Without(Put(copies, replica), previous.value)
         else Put(copies, replica))
    case ReplaceIfUnchanged(replica, expected) =>
      var active := ActiveCopy(copies);
      if active.None? || !SameVersion(active.value, expected) then
        Err(Changed)
      else
        Ok(if WorkspaceId(expected) != WorkspaceId(replica)
           then Without(Put(copies, replica), WorkspaceId(expected))
           else Put(copies, replica))
    case Delete(id, expectedUpdatedAt) =>
      var target := Find(copies, id);
      if expectedUpdatedAt.Some? && expectedUpdatedAt.value != "" && target.Some? &&
         target.value.updatedAt != expectedUpdatedAt.value
      then Err(Changed)
      else Ok(Without(copies, id))
    case Clear => Ok(Copies(map[], None))
  }

  /** The workspaces an operation is about. */
  ghost predicate Names(copies: Copies, op: Operation, id: string) {
    match op
    case Write(replica) => id == WorkspaceId(replica)
    case WriteIfUnchanged(replica, _) => id == WorkspaceId(replica)
    case WriteWorkspaceIfUnchanged(replica, _, _) => id == WorkspaceId(replica)
    case Mutate(_) => copies.active == Some(id)
    case MutateWorkspace(named, _) => id == named
    case Activate(_) => false
    case ActivateOrInsert(candidate) => id == WorkspaceId(candidate)
    case ActivateOrInsertServer(candidate) => id == WorkspaceId(candidate)
    case Replace(replica, previous) => id == WorkspaceId(replica) || previous == Some(id)
    case ReplaceIfUnchanged(replica, expected) => id == WorkspaceId(replica) || id == WorkspaceId(expected)
    case Delete(named, _) => id == named
    case Clear => true
  }

  predicate KeepsWorkspace(update: Update, replica: Replica) {
    update(replica).Ok? ==> WorkspaceId(update(replica).value) == WorkspaceId(replica)
  }

  /** An update given to the store belongs to one workspace and stays there. */
  ghost predicate Proper(op: Operation) {
    match op
    case Mutate(update) => forall r :: KeepsWorkspace(update, r)
    case MutateWorkspace(_, update) => forall r :: KeepsWorkspace(update, r)
    case _ => true
  }

  ghost predicate WellFormed(copies: Copies) {
    && (forall id | id in copies.byId :: WorkspaceId(copies.byId[id]) == id)
    && (copies.active.Some? ==> copies.active.value in copies.byId)
  }

  function After(copies: Copies, op: Operation): Copies {
    match Step(copies, op)
    case Ok(next) => next
    case Err(_) => copies
  }

  function AfterAll(copies: Copies, ops: seq<Operation>): Copies
    decreases |ops|
  {
    if ops == [] then copies else AfterAll(After(copies, ops[0]), ops[1..])
  }

  lemma StepKeepsWellFormed(copies: Copies, op: Operation)
    requires WellFormed(copies) && Proper(op)
    ensures WellFormed(After(copies, op))
  {
    hide ShouldApply, ScopeOutbox, SameVersion, ConsistentDownload, NewerSummary;
    match op {
      case Mutate(update) =>
        if copies.active.Some? {
          assert KeepsWorkspace(update, ActiveCopy(copies).value);
        }
      case MutateWorkspace(id, update) =>
        if id in copies.byId {
          assert KeepsWorkspace(update, copies.byId[id]);
        }
      case _ =>
    }
  }

  /** Every operation leaves the copies it does not name alone. */
  lemma OnlyNamedCopyChanges(copies: Copies, op: Operation, id: string)
    requires WellFormed(copies) && Proper(op) && !Names(copies, op, id)
    ensures Find(After(copies, op), id) == Find(copies, id)
  {
    hide ShouldApply, ScopeOutbox, SameVersion, ConsistentDownload, NewerSummary;
    match op {
      case Mutate(update) =>
        if copies.active.Some? {
          assert KeepsWorkspace(update, ActiveCopy(copies).value);
        }
      case _ =>
    }
  }

  ghost predicate Untouched(copies: Copies, ops: seq<Operation>, id: string)
    decreases |ops|
  {
    ops == [] || (Proper(ops[0]) && !Names(copies, ops[0], id) && Untouched(After(copies, ops[0]), ops[1..], id))
  }

  /** However the user switches, opens, edits or removes other workspaces, this copy stays as it was left. */
  lemma {:induction false} UntouchedCopySurvives(copies: Copies, ops: seq<Operation>, id: string)
    requires WellFormed(copies) && Untouched(copies, ops, id)
    ensures Find(AfterAll(copies, ops), id) == Find(copies, id)
    ensures WellFormed(AfterAll(copies, ops))
    decreases |ops|
  {
    hide After, Names;
    if ops == [] {
    } else {
      StepKeepsWellFormed(copies, ops[0]);
      OnlyNamedCopyChanges(copies, ops[0], id);
      UntouchedCopySurvives(After(copies, ops[0]), ops[1..], id);
    }
  }

  // ---------------------------------------------------- what is compared

  /** What a copy read earlier is recognized by. */
  datatype Version = Version(
    workspaceId: string,
    revision: nat,
    updatedAt: string,
    access: AccessVersion,
    summary: Option<SummaryVersion>,
    queue: seq<EntryVersion>)

  datatype AccessVersion = AccessVersion(
    kind: Kind, account: Option<string>, membershipRevision: nat, accessRevision: nat, status: AccessStatus,
    role: Option<Role>)

  datatype SummaryVersion = SummaryVersion(
    account: Option<string>, membershipRevision: nat, accessRevision: nat, revision: nat, updatedAt: nat)

  datatype EntryVersion = EntryVersion(id: string, account: Option<string>, status: EntryStatus)

  function QueueVersion(outbox: seq<OutboxEntry>): (queue: seq<EntryVersion>)
    ensures |queue| == |outbox|
  {
    seq(|outbox|, i requires 0 <= i < |outbox| =>
      EntryVersion(outbox[i].envelope.id, OptionalString(outbox[i].accountId), outbox[i].status))
  }

  function VersionOf(replica: Replica): Version {
    var access := replica.authorization;
    Version(
      replica.state.workspaceId, replica.state.revision, replica.updatedAt,
      AccessVersion(access.kind, OptionalString(access.accountId), access.membershipRevision, access.accessRevision,
                    access.status, access.role),
      match replica.serverSummary
      case None => None
      case Some(s) =>
        Some(SummaryVersion(OptionalString(s.accountId), s.membershipRevision, s.accessRevision, s.revision,
                            s.updatedAt)),
      QueueVersion(replica.outbox))
  }

  /** Two copies pass as the same exactly when their versions are equal, so comparing is an equivalence. */
  lemma SameVersionExactly(a: Replica, b: Replica)
    ensures SameVersion(a, b) <==> VersionOf(a) == VersionOf(b)
  {
    hide OptionalString;
    SameQueue(a.outbox, b.outbox);
    if a.serverSummary.Some? && b.serverSummary.Some? {
      ComparedSummaries(a.serverSummary.value, b.serverSummary.value);
    }
  }

  lemma SameQueue(a: seq<OutboxEntry>, b: seq<OutboxEntry>)
    ensures QueueVersion(a) == QueueVersion(b) <==>
            |a| == |b| && forall i | 0 <= i < |a| ::
              && a[i].envelope.id == b[i].envelope.id
              && OptionalString(a[i].accountId) == OptionalString(b[i].accountId)
              && a[i].status == b[i].status
  {
    hide OptionalString;
    if QueueVersion(a) == QueueVersion(b) {
      forall i | 0 <= i < |a|
        ensures a[i].envelope.id == b[i].envelope.id && a[i].status == b[i].status
        ensures OptionalString(a[i].accountId) == OptionalString(b[i].accountId)
      {
        assert QueueVersion(a)[i] == QueueVersion(b)[i];
      }
    }
  }

  // ------------------------------------------------ what each operation does

  /** Written and active; nothing else is said of the other copies here. */
  predicate WrittenAndActive(copies: Copies, replica: Replica) {
    Find(copies, WorkspaceId(replica)) == Some(replica) && copies.active == Some(WorkspaceId(replica))
  }

  predicate Same(a: Option<Replica>, b: Option<Replica>) {
    a.Some? == b.Some? && (a.Some? ==> VersionOf(a.value) == VersionOf(b.value))
  }

  lemma SameExactly(a: Option<Replica>, b: Option<Replica>)
    ensures VersionMatches(a, b) <==> Same(a, b)
  {
    hide SameVersion, VersionOf;
    if a.Some? && b.Some? {
      SameVersionExactly(a.value, b.value);
    }
  }

  /**
   A guarded write happens exactly when what it expects is still there, and whoever it
   is refused for finds the store as it was.
   */
  lemma GuardedWritesExactly(
    copies: Copies, replica: Replica, expected: Replica, target: Option<Replica>, active: Option<Replica>)
    ensures var r := Step(copies, WriteIfUnchanged(replica, expected));
            if Same(ActiveCopy(copies), Some(expected)) then r.Ok? && WrittenAndActive(r.value, replica)
            else r == Err(Changed)
    ensures var r := Step(copies, WriteWorkspaceIfUnchanged(replica, target, active));
            if Same(Find(copies, WorkspaceId(replica)), target) && Same(ActiveCopy(copies), active)
            then r.Ok? && WrittenAndActive(r.value, replica) else r == Err(Changed)
    ensures var r := Step(copies, ReplaceIfUnchanged(replica, expected));
            if Same(ActiveCopy(copies), Some(expected)) then
              && r.Ok? && WrittenAndActive(r.value, replica)
              && (WorkspaceId(expected) != WorkspaceId(replica) ==> Find(r.value, WorkspaceId(expected)) == None)
            else
              r == Err(Changed)
  {
    hide SameVersion, VersionOf;
    SameExactly(ActiveCopy(copies), Some(expected));
    SameExactly(Find(copies, WorkspaceId(replica)), target);
    SameExactly(ActiveCopy(copies), active);
  }

  /**
   An update is made of the copy as it is and stored under its workspace; a missing copy
   or a failed update changes nothing.
   */
  lemma UpdatesExactly(copies: Copies, id: string, update: Update)
    requires WellFormed(copies) && Proper(MutateWorkspace(id, update))
    ensures var current, r := Find(copies, id), Step(copies, MutateWorkspace(id, update));
            && (current.None? ==> r == Ok(copies))
            && (current.Some? && update(current.value).Err? ==> r == Err(update(current.value).error))
            && (current.Some? && update(current.value).Ok? ==>
                  r.Ok? && Find(r.value, id) == Some(update(current.value).value) && r.value.active == copies.active)
    ensures var active, r := ActiveCopy(copies), Step(copies, Mutate(update));
            && (active.None? ==> r == Ok(copies))
            && (active.Some? && update(active.value).Err? ==> r == Err(update(active.value).error))
            && (active.Some? && update(active.value).Ok? ==>
                  r.Ok? && ActiveCopy(r.value) == Some(update(active.value).value) &&
                    r.value.active == copies.active)
  {
    if ActiveCopy(copies).Some? {
      assert KeepsWorkspace(update, ActiveCopy(copies).value);
    }
  }

  /**
   Opening a workspace never overwrites work: a copy that is on the device keeps its
   state and its queue, and a download that does not fit its own access is refused.
   */
  lemma OpeningKeepsWork(copies: Copies, candidate: Replica)
    requires WellFormed(copies)
    ensures var id, r := WorkspaceId(candidate), Step(copies, ActivateOrInsert(candidate));
            && r.Ok? && r.value.active == Some(id)
            && Find(r.value, id) == Some(Find(copies, id).GetOr(candidate))
    ensures var id, r := WorkspaceId(candidate), Step(copies, ActivateOrInsertServer(candidate));
            && (r.Err? ==> r == Err(NotAllowed))
            && (r.Ok? ==>
                  && r.value.active == Some(id) && Find(r.value, id).Some?
                  && (Find(copies, id).None? ==> Find(r.value, id) == Some(candidate))
                  && (Find(copies, id).Some? ==>
                        var before, after := Find(copies, id).value, Find(r.value, id).value;
                        && after.state == before.state && EntryIds(after.outbox) == EntryIds(before.outbox)
                        && RetainedAll(before.outbox, after.outbox)
                        && after.authorization == ApplyAll(before.authorization, [candidate.authorization])
                        && after.serverSummary == NewestSummary(before.serverSummary, [candidate.serverSummary.value])
                        && after.outbox ==
                           ScopeOutbox(before.outbox, before.authorization, candidate.authorization)))
    ensures Step(copies, ActivateOrInsertServer(candidate)).Ok? <==>
            && candidate.authorization.kind == ServerBacked && candidate.authorization.status == Active
            && candidate.authorization.role.Some? && candidate.authorization.capabilities.read
            && candidate.serverSummary.Some?
            && candidate.serverSummary.value.id == WorkspaceId(candidate)
            && candidate.serverSummary.value.revision == candidate.state.revision
            && candidate.serverSummary.value.membershipRevision == candidate.authorization.membershipRevision
            && candidate.serverSummary.value.accessRevision == candidate.authorization.accessRevision
            && OptionalString(candidate.serverSummary.value.accountId) ==
               OptionalString(candidate.authorization.accountId)
  {
    hide ShouldApply, ScopeOutbox, NewerSummary, OptionalString;
    var existing := Find(copies, WorkspaceId(candidate));
    if existing.Some? && candidate.serverSummary.Some? {
      MergedDownload(existing.value, candidate);
    }
  }

  lemma MergedDownload(existing: Replica, prepared: Replica)
    requires prepared.serverSummary.Some?
    ensures var after := MergeDownloaded(existing, prepared);
            && after.state == existing.state
            && RetainedAll(existing.outbox, after.outbox) && EntryIds(after.outbox) == EntryIds(existing.outbox)
            && after.authorization == ApplyAll(existing.authorization, [prepared.authorization])
            && after.serverSummary == NewestSummary(existing.serverSummary, [prepared.serverSummary.value])
            && after.outbox == ScopeOutbox(existing.outbox, existing.authorization, prepared.authorization)
  {
    hide ShouldApply, NewerSummary, ScopeEntry;
    var after := MergeDownloaded(existing, prepared);
    ScopingRetainsQueue(existing.outbox, existing.authorization, prepared.authorization);
    var candidates, summaries := [prepared.authorization], [prepared.serverSummary.value];
    assert candidates[1..] == [] && ApplyAll(after.authorization, []) == after.authorization;
    assert summaries[1..] == [] && NewestSummary(after.serverSummary, []) == after.serverSummary;
  }

  /** Plain writes, switches and removals, with the guard of a removal that was reviewed. */
  lemma OtherOperationsExactly(copies: Copies, replica: Replica, id: string, other: Option<string>)
    ensures Step(copies, Write(replica)).Ok? && WrittenAndActive(Step(copies, Write(replica)).value, replica)
    ensures var r := Step(copies, Replace(replica, other));
            && r.Ok? && WrittenAndActive(r.value, replica)
            && (other.Some? && other.value != "" && other.value != WorkspaceId(replica) ==>
                  Find(r.value, other.value) == None)
    ensures Step(copies, Activate(id)) ==
            Ok(Copies(copies.byId, if Find(copies, id).Some? then Some(id) else copies.active))
    ensures var r, target := Step(copies, Delete(id, other)), Find(copies, id);
            if other.Some? && other.value != "" && target.Some? && target.value.updatedAt != other.value then
              r == Err(Changed)
            else
              && r.Ok? && Find(r.value, id) == None
              && r.value.active == if copies.active == Some(id) then None else copies.active
    ensures Step(copies, Clear) == Ok(Copies(map[], None))
  {
  }

  // --------------------------------------------------------- the real store

  /** Workspace records lie under their own keys. */
  ghost predicate Keyed(records: Records) {
    forall key | key in records && key != ACTIVE_KEY :: key == WorkspaceKey(WorkspaceId(records[key]))
  }

  /** The active record duplicates its workspace's record. */
  ghost predicate Mirrored(records: Records) {
    ACTIVE_KEY in records ==>
      var key := WorkspaceKey(WorkspaceId(records[ACTIVE_KEY]));
      key in records && records[key] == records[ACTIVE_KEY]
  }

  ghost function Ids(records: Records): set<string> {
    set key | key in records && key != ACTIVE_KEY :: WorkspaceId(records[key])
  }

  /** The simple store a keyed set of records stands for. */
  ghost function View(records: Records): Copies
    requires Keyed(records)
  {
    Copies(map id | id in Ids(records) && WorkspaceKey(id) in records :: records[WorkspaceKey(id)],
           if ACTIVE_KEY in records then Some(WorkspaceId(records[ACTIVE_KEY])) else None)
  }

  /** Reading a workspace's own record reads its copy. */
  lemma ViewFinds(records: Records, id: string)
    requires Keyed(records)
    ensures Find(View(records), id) == if WorkspaceKey(id) in records then Some(records[WorkspaceKey(id)]) else None
    ensures WorkspaceKey(id) in records ==> WorkspaceId(records[WorkspaceKey(id)]) == id
  {
    KeysAreDistinct(id, id);
    if WorkspaceKey(id) in records {
      KeysAreDistinct(id, WorkspaceId(records[WorkspaceKey(id)]));
      assert id in Ids(records);
    }
  }

  lemma ViewIsWellFormed(records: Records)
    requires Keyed(records) && Mirrored(records)
    ensures WellFormed(View(records))
    ensures ActiveCopy(View(records)) == if ACTIVE_KEY in records then Some(records[ACTIVE_KEY]) else None
  {
    forall id | id in View(records).byId
      ensures WorkspaceId(View(records).byId[id]) == id
    {
      ViewFinds(records, id);
    }
    if ACTIVE_KEY in records {
      ViewFinds(records, WorkspaceId(records[ACTIVE_KEY]));
    }
  }

  /** Two simple stores are the same when they find the same copies. */
  lemma SameCopies(a: Copies, b: Copies)
    requires a.active == b.active && forall id :: Find(a, id) == Find(b, id)
    ensures a == b
  {
    forall id | id in a.byId || id in b.byId
      ensures id in a.byId && id in b.byId && a.byId[id] == b.byId[id]
    {
      assert Find(a, id) == Find(b, id);
    }
    assert a.byId == b.byId;
  }

  /** Writing a copy under both of its keys. */
  lemma PutRecords(records: Records, replica: Replica)
    requires Keyed(records)
    ensures var next := records[ACTIVE_KEY := replica][WorkspaceKey(WorkspaceId(replica)) := replica];
            Keyed(next) && Mirrored(next) && View(next) == Put(View(records), replica)
  {
    var id := WorkspaceId(replica);
    var next := records[ACTIVE_KEY := replica][WorkspaceKey(id) := replica];
    KeysAreDistinct(id, id);
    forall other
      ensures Find(View(next), other) == Find(Put(View(records), replica), other)
    {
      KeysAreDistinct(other, id);
      ViewFinds(records, other);
      ViewFinds(next, other);
    }
    SameCopies(View(next), Put(View(records), replica));
  }

  /** Writing one workspace's record, and the active record with it when it is the active one. */
  lemma UpdateRecord(records: Records, replica: Replica)
    requires Keyed(records) && Mirrored(records)
    ensures var id := WorkspaceId(replica);
            var written := records[WorkspaceKey(id) := replica];
            var next := if ACTIVE_KEY in records && WorkspaceId(records[ACTIVE_KEY]) == id
                        then written[ACTIVE_KEY := replica] else written;
            && Keyed(next) && Mirrored(next)
            && View(next) == View(records).(byId := View(records).byId[id := replica])
  {
    var id := WorkspaceId(replica);
    var written := records[WorkspaceKey(id) := replica];
    var next := if ACTIVE_KEY in records && WorkspaceId(records[ACTIVE_KEY]) == id
                then written[ACTIVE_KEY := replica] else written;
    var copies := View(records).(byId := View(records).byId[id := replica]);
    KeysAreDistinct(id, id);
    if ACTIVE_KEY in records {
      KeysAreDistinct(WorkspaceId(records[ACTIVE_KEY]), id);
    }
    forall other
      ensures Find(View(next), other) == Find(copies, other)
    {
      KeysAreDistinct(other, id);
      ViewFinds(records, other);
      ViewFinds(next, other);
    }
    SameCopies(View(next), copies);
  }

  function Removed(records: Records, id: string): Records {
    var removed := records - {WorkspaceKey(id)};
    if ACTIVE_KEY in records && WorkspaceId(records[ACTIVE_KEY]) == id then removed - {ACTIVE_KEY} else removed
  }

  lemma RemovedStaysValid(records: Records, id: string)
    requires Keyed(records) && Mirrored(records)
    ensures Keyed(Removed(records, id)) && Mirrored(Removed(records, id))
  {
    KeysAreDistinct(id, id);
    if ACTIVE_KEY in records {
      KeysAreDistinct(WorkspaceId(records[ACTIVE_KEY]), id);
    }
  }

  lemma RemovedFinds(records: Records, id: string, other: string)
    requires Keyed(records) && Mirrored(records)
    requires Keyed(Removed(records, id)) && Mirrored(Removed(records, id))
    ensures Find(View(Removed(records, id)), other) == Find(Without(View(records), id), other)
  {
    hide Keyed, Mirrored;
    KeysAreDistinct(other, id);
    ViewFinds(records, other);
    ViewFinds(Removed(records, id), other);
  }

  /** Removing one workspace's record, and the active record with it when it is the active one. */
  lemma RemoveRecord(records: Records, id: string)
    requires Keyed(records) && Mirrored(records)
    ensures var next := Removed(records, id);
            Keyed(next) && Mirrored(next) && View(next) == Without(View(records), id)
  {
    RemovedStaysValid(records, id);
    var next := Removed(records, id);
    hide Keyed, Mirrored;
    forall other
      ensures Find(View(next), other) == Find(Without(View(records), id), other)
    {
      RemovedFinds(records, id, other);
    }
    KeysAreDistinct(id, id);
    SameCopies(View(next), Without(View(records), id));
  }

  /** Rewriting the mirror of the active record changes nothing. */
  lemma MirrorAgain(records: Records)
    requires Mirrored(records) && ACTIVE_KEY in records
    ensures records[WorkspaceKey(WorkspaceId(records[ACTIVE_KEY])) := records[ACTIVE_KEY]] == records
  {
  }

  lemma KeyIsPrefixed(records: Records, key: string)
    requires Keyed(records) && key in records && key != ACTIVE_KEY
    ensures WORKSPACE_KEY_PREFIX <= key && key == WorkspaceKey(WorkspaceId(records[key]))
  {
  }

  lemma ListedOwn(records: Records, own: map<string, Replica>)
    requires Keyed(records)
    requires forall id | id in own :: WorkspaceKey(id) in records && own[id] == records[WorkspaceKey(id)]
    requires forall key | key in records && key != ACTIVE_KEY :: WorkspaceId(records[key]) in own
    ensures own == View(records).byId
  {
    forall id
      ensures Find(Copies(own, None), id) == Find(View(records), id)
    {
      ViewFinds(records, id);
      KeysAreDistinct(id, id);
    }
    forall id | id in own || id in View(records).byId
      ensures id in own && id in View(records).byId && own[id] == View(records).byId[id]
    {
      assert Find(Copies(own, None), id) == Find(View(records), id);
    }
  }

  /** A transaction did what the simple operation does, or was refused for the same reason and changed nothing. */
  ghost predicate Performed<T>(r: Result<T, StoreError>, before: Copies, op: Operation, after: Copies) {
    && after == After(before, op)
    && (r.Ok? ==> Step(before, op).Ok?)
    && (r.Err? ==> Step(before, op) == Err(r.error))
  }

  class Database {
    var records: Records

    ghost predicate Valid()
      reads this
    {
      Keyed(records) && Mirrored(records)
    }

    ghost function Contents(): Copies
      requires Keyed(records)
      reads this
    {
      View(records)
    }

    constructor ()
      ensures Valid() && Contents() == Copies(map[], None)
    {
      records := map[];
    }

    method Get(key: string) returns (r: Option<Replica>)
      ensures r == if key in records then Some(records[key]) else None
    {
      r := if key in records then Some(records[key]) else None;
    }

    method PutBoth(replica: Replica)
      requires Keyed(records)
      modifies this
      ensures Valid() && Contents() == Put(old(Contents()), replica)
      ensures ACTIVE_KEY in records && records[ACTIVE_KEY] == replica
    {
      PutRecords(records, replica);
      KeysAreDistinct(WorkspaceId(replica), WorkspaceId(replica));
      records := records[ACTIVE_KEY := replica][WorkspaceKey(WorkspaceId(replica)) := replica];
    }

    /** Writes the active record under its own workspace before another becomes active. */
    method KeepActive(active: Option<Replica>, id: string)
      requires Valid() && active == (if ACTIVE_KEY in records then Some(records[ACTIVE_KEY]) else None)
      modifies this
      ensures records == old(records)
    {
      if active.Some? && WorkspaceId(active.value) != id {
        MirrorAgain(records);
        records := records[WorkspaceKey(WorkspaceId(active.value)) := active.value];
      }
    }

    method ReadReplica() returns (r: Option<Replica>)
      requires Valid()
      ensures r == ActiveCopy(Contents())
    {
      ViewIsWellFormed(records);
      r := Get(ACTIVE_KEY);
    }

    method ReadWorkspaceReplica(id: string) returns (r: Option<Replica>)
      requires Valid()
      ensures r == Find(Contents(), id)
    {
      ViewFinds(records, id);
      r := Get(WorkspaceKey(id));
    }

    /**
     Lists the copies in key order; the active record stands in for its workspace
     only when that has no record of its own. This one also reads a store that has
     not been mirrored yet.
     */
    method ListWorkspaceReplicas() returns (listed: map<string, Replica>)
      requires Keyed(records)
      ensures var own := Contents().byId;
              listed == if ACTIVE_KEY in records && WorkspaceId(records[ACTIVE_KEY]) !in own
                        then own[WorkspaceId(records[ACTIVE_KEY]) := records[ACTIVE_KEY]] else own
      ensures Valid() ==> listed == Contents().byId
    {
      hide View, Keyed, Mirrored, WorkspaceKey, KeySeq;
      var keys := KeySeq(records.Keys);
      assert forall k :: k in records <==> k in ToSet(keys);
      var scoped: map<string, Replica> := map[];
      var active: Option<Replica> := None;
      for i := 0 to |keys|
        invariant forall id | id in scoped :: WorkspaceKey(id) in records && scoped[id] == records[WorkspaceKey(id)]
        invariant forall j | 0 <= j < i && keys[j] != ACTIVE_KEY :: WorkspaceId(records[keys[j]]) in scoped
        invariant active == if ACTIVE_KEY in keys[..i] then Some(records[ACTIVE_KEY]) else None
      {
        var key := keys[i];
        assert key in ToSet(keys);
        assert keys[..i + 1] == keys[..i] + [key];
        var value := records[key];
        if key == ACTIVE_KEY {
          active := Some(value);
        } else if WORKSPACE_KEY_PREFIX <= key {
          KeyIsPrefixed(records, key);
          scoped := scoped[WorkspaceId(value) := value];
        } else {
          KeyIsPrefixed(records, key);
        }
      }
      assert keys[..|keys|] == keys;
      forall key | key in records && key != ACTIVE_KEY
        ensures WorkspaceId(records[key]) in scoped
      {
        assert key in ToSet(keys);
        var j :| 0 <= j < |keys| && keys[j] == key;
      }
      ListedOwn(records, scoped);
      if Valid() {
        ViewIsWellFormed(records);
      }
      if active.Some? && WorkspaceId(active.value) !in scoped {
        scoped := scoped[WorkspaceId(active.value) := active.value];
      }
      listed := scoped;
    }

    method WriteReplica(replica: Replica)
      requires Valid()
      modifies this
      ensures Valid() && Step(old(Contents()), Write(replica)) == Ok(Contents())
    {
      var current := Get(ACTIVE_KEY);
      KeepActive(current, WorkspaceId(replica));
      PutBoth(replica);
    }

    method WriteReplicaIfUnchanged(replica: Replica, expected: Replica) returns (r: Result<(), StoreError>)
      requires Valid()
      modifies this
      ensures Valid() && Performed(r, old(Contents()), WriteIfUnchanged(replica, expected), Contents())
    {
      ViewIsWellFormed(records);
      var current := Get(ACTIVE_KEY);
      if current.None? || !SameVersion(current.value, expected) {
        return Err(Changed);
      }
      PutBoth(replica);
      r := Ok(());
    }

    method WriteWorkspaceReplicaIfUnchanged(
      replica: Replica, expectedTarget: Option<Replica>, expectedActive: Option<Replica>)
      returns (r: Result<(), StoreError>)
      requires Valid()
      modifies this
      ensures Valid()
      ensures Performed(r, old(Contents()), WriteWorkspaceIfUnchanged(replica, expectedTarget, expectedActive),
        Contents())
    {
      hide SameVersion, View, Keyed, Mirrored;
      ViewIsWellFormed(records);
      var target := Effective(WorkspaceId(replica));
      var active := Get(ACTIVE_KEY);
      if !VersionMatches(target, expectedTarget) || !VersionMatches(active, expectedActive) {
        return Err(Changed);
      }
      KeepActive(active, WorkspaceId(replica));
      PutBoth(replica);
      r := Ok(());
    }

    /** The workspace's record, or the active record when that is the workspace asked for. */
    method Effective(id: string) returns (r: Option<Replica>)
      requires Keyed(records)
      ensures Mirrored(records) ==> r == Find(Contents(), id)
      ensures r.Some? ==> WorkspaceId(r.value) == id
    {
      ViewFinds(records, id);
      r := Get(WorkspaceKey(id));
      if r.None? {
        var active := Get(ACTIVE_KEY);
        if active.Some? && WorkspaceId(active.value) == id {
          r := active;
        }
      }
    }

    /** Updating the active copy also mirrors it, whatever state the mirror was in before. */
    method MutateReplica(update: Update) returns (r: Result<Option<Replica>, StoreError>)
      requires Keyed(records)
      requires forall x :: KeepsWorkspace(update, x)
      modifies this
      ensures Keyed(records)
      ensures r.Ok? ==> Valid()
      ensures old(Mirrored(records)) ==> Valid() && Performed(r, old(Contents()), Mutate(update), Contents())
      ensures r.Err? ==> ACTIVE_KEY in old(records) && update(old(records[ACTIVE_KEY])) == Err(r.error)
      ensures r.Err? || ACTIVE_KEY !in old(records) ==> records == old(records)
      ensures r.Ok? && ACTIVE_KEY in old(records) ==>
                update(old(records[ACTIVE_KEY])).Ok? &&
                Contents() == Put(old(Contents()), update(old(records[ACTIVE_KEY])).value)
    {
      if Mirrored(records) {
        ViewIsWellFormed(records);
      }
      var current := Get(ACTIVE_KEY);
      if current.None? {
        return Ok(None);
      }
      var next := update(current.value);
      if next.Err? {
        return Err(next.error);
      }
      PutBoth(next.value);
      r := Ok(Some(next.value));
    }

    /** The boot step: an identity update of the active copy. */
    method MirrorAtBoot() returns (r: Result<Option<Replica>, StoreError>)
      requires Keyed(records)
      modifies this
      ensures r.Ok? && Valid()
      ensures old(ACTIVE_KEY in records) ==> Contents() == Put(old(Contents()), old(records[ACTIVE_KEY]))
      ensures old(ACTIVE_KEY !in records) ==> Contents() == old(Contents())
      ensures old(Mirrored(records)) ==> Contents() == old(Contents())
    {
      if Mirrored(records) {
        ViewIsWellFormed(records);
      }
      r := MutateReplica((current: Replica) => Ok(current));
    }

    method MutateWorkspaceReplica(id: string, update: Update) returns (r: Result<Option<Replica>, StoreError>)
      requires Valid()
      requires forall x :: KeepsWorkspace(update, x)
      modifies this
      ensures Valid() && Performed(r, old(Contents()), MutateWorkspace(id, update), Contents())
      ensures r.Ok? ==> r.value == Find(Contents(), id)
    {
      ViewIsWellFormed(records);
      var current := Effective(id);
      if current.None? {
        return Ok(None);
      }
      var next := update(current.value);
      if next.Err? {
        return Err(next.error);
      }
      assert KeepsWorkspace(update, current.value);
      UpdateRecord(records, next.value);
      var active := Get(ACTIVE_KEY);
      records := records[WorkspaceKey(id) := next.value];
      if active.Some? && WorkspaceId(active.value) == id {
        records := records[ACTIVE_KEY := next.value];
      }
      r := Ok(Some(next.value));
    }

    method MutateWorkspaceReplicaIfWritable(id: string, update: Update) returns (r: Result<Option<Replica>, StoreError>)
      requires Valid()
      requires forall x :: KeepsWorkspace(update, x)
      modifies this
      ensures Valid()
      ensures var current := Find(old(Contents()), id);
              if current.Some? && !current.value.authorization.capabilities.write then
                r == Err(NotAllowed) && Contents() == old(Contents())
              else
                Contents() == After(old(Contents()), MutateWorkspace(id, update))
    {
      var guarded: Update := (current: Replica) =>
        if current.authorization.capabilities.write then update(current) else Err(NotAllowed);
      forall x
        ensures KeepsWorkspace(guarded, x)
      {
        assert KeepsWorkspace(update, x);
      }
      r := MutateWorkspaceReplica(id, guarded);
    }

    /** Only the workspace's own record is looked up, and the record that was active is not written back. */
    method ActivateWorkspaceReplica(id: string) returns (r: Option<Replica>)
      requires Keyed(records)
      modifies this
      ensures records == Activated(old(records), id)
      ensures old(Mirrored(records)) ==> Valid() && Contents() == After(old(Contents()), Activate(id))
      ensures old(Mirrored(records)) ==> r == Find(Contents(), id)
    {
      ViewFinds(records, id);
      if Mirrored(records) {
        ActivatedView(records, id);
      }
      r := Get(WorkspaceKey(id));
      if r.Some? {
        records := records[ACTIVE_KEY := r.value];
        records := records[WorkspaceKey(id) := r.value];
      }
    }

    method ActivateOrInsertWorkspaceReplica(candidate: Replica) returns (r: Replica)
      requires Valid()
      modifies this
      ensures Valid() && Contents() == After(old(Contents()), ActivateOrInsert(candidate))
      ensures ActiveCopy(Contents()) == Some(r)
    {
      hide View, Keyed, Mirrored;
      var selected := Effective(WorkspaceId(candidate));
      var active := Get(ACTIVE_KEY);
      r := selected.GetOr(candidate);
      KeepActive(active, WorkspaceId(candidate));
      PutBoth(r);
    }

    method ActivateOrInsertServerWorkspaceReplica(candidate: Replica) returns (r: Result<Replica, StoreError>)
      requires Valid()
      modifies this
      ensures Valid() && Performed(r, old(Contents()), ActivateOrInsertServer(candidate), Contents())
      ensures r.Ok? ==> ActiveCopy(Contents()) == Some(r.value)
    {
      hide ShouldApply, ScopeOutbox, NewerSummary, View, Keyed, Mirrored;
      if !ConsistentDownload(candidate) {
        return Err(NotAllowed);
      }
      var existing := Effective(WorkspaceId(candidate));
      var active := Get(ACTIVE_KEY);
      var selected := if existing.Some? then MergeDownloaded(existing.value, candidate) else candidate;
      KeepActive(active, WorkspaceId(candidate));
      PutBoth(selected);
      r := Ok(selected);
    }

    method ReplaceReplica(replica: Replica, previous: Option<string>)
      requires Valid()
      modifies this
      ensures Valid() && Contents() == After(old(Contents()), Replace(replica, previous))
    {
      hide View, Keyed, Mirrored;
      PutBoth(replica);
      if previous.Some? && previous.value != "" && previous.value != WorkspaceId(replica) {
        RemoveRecord(records, previous.value);
        records := records - {WorkspaceKey(previous.value)};
      }
    }

    method ReplaceReplicaIfUnchanged(replica: Replica, expected: Replica) returns (r: Result<(), StoreError>)
      requires Valid()
      modifies this
      ensures Valid() && Performed(r, old(Contents()), ReplaceIfUnchanged(replica, expected), Contents())
    {
      hide SameVersion;
      ViewIsWellFormed(records);
      var current := Get(ACTIVE_KEY);
      if current.None? || !SameVersion(current.value, expected) {
        return Err(Changed);
      }
      PutBoth(replica);
      if WorkspaceId(expected) != WorkspaceId(replica) {
        RemoveRecord(records, WorkspaceId(expected));
        records := records - {WorkspaceKey(WorkspaceId(expected))};
      }
      r := Ok(());
    }

    method DeleteWorkspaceReplica(id: string, expectedUpdatedAt: Option<string>) returns (r: Result<(), StoreError>)
      requires Valid()
      modifies this
      ensures Valid() && Performed(r, old(Contents()), Delete(id, expectedUpdatedAt), Contents())
    {
      hide View, Keyed, Mirrored;
      var target := Effective(id);
      var active := Get(ACTIVE_KEY);
      if expectedUpdatedAt.Some? && expectedUpdatedAt.value != "" && target.Some? &&
         target.value.updatedAt != expectedUpdatedAt.value {
        return Err(Changed);
      }
      RemoveRecord(records, id);
      records := records - {WorkspaceKey(id)};
      if active.Some? && WorkspaceId(active.value) == id {
        records := records - {ACTIVE_KEY};
      }
      r := Ok(());
    }

    method ClearReplica()
      modifies this
      ensures Valid() && Contents() == Copies(map[], None)
    {
      records := map[];
    }
  }

  // ------------------------------------------------- switching workspaces

  function Activated(records: Records, id: string): Records {
    var key := WorkspaceKey(id);
    if key in records then records[ACTIVE_KEY := records[key]][key := records[key]] else records
  }

  lemma ActivatedView(records: Records, id: string)
    requires Keyed(records) && Mirrored(records)
    ensures var next := Activated(records, id);
            Keyed(next) && Mirrored(next) && View(next) == After(View(records), Activate(id))
  {
    ViewFinds(records, id);
    if WorkspaceKey(id) in records {
      PutRecords(records, records[WorkspaceKey(id)]);
      assert View(records).byId[id := records[WorkspaceKey(id)]] == View(records).byId;
    }
  }

  /**
   Switching never writes the record that was active back, so it loses nothing
   exactly when that record was mirrored: an active record that differs from its
   workspace's record, or is the only one, is gone afterwards.
   */
  lemma SwitchingLosesNothingIffMirrored(records: Records, id: string)
    requires Keyed(records) && ACTIVE_KEY in records && WorkspaceKey(id) in records
    requires WorkspaceId(records[ACTIVE_KEY]) != id
    ensures (exists key :: key in Activated(records, id) && Activated(records, id)[key] == records[ACTIVE_KEY])
            <==> Mirrored(records)
  {
    var left := records[ACTIVE_KEY];
    var own := WorkspaceKey(WorkspaceId(left));
    var next := Activated(records, id);
    ViewFinds(records, id);
    KeysAreDistinct(WorkspaceId(left), id);
    if Mirrored(records) {
      assert own in next && next[own] == left;
    }
    forall key | key in next && next[key] == left
      ensures key == own && Mirrored(records)
    {
      KeysAreDistinct(id, id);
      assert key != ACTIVE_KEY && key in records;
    }
  }

  /** A copy of a workspace on which nothing has happened. */
  function EmptyCopy(id: string): Replica {
    Replica(State(id, 0, map[], []), [],
            AccessState(DeviceOnly, Undefined, 0, 0, Active, None, Capabilities(true, false, true, true, true)),
            None, None, None, None, "")
  }

  /** A store written before copies were mirrored: switching to "b" loses the only record of "a". */
  lemma UnmirroredIsLost()
    ensures var records := map[ACTIVE_KEY := EmptyCopy("a"), WorkspaceKey("b") := EmptyCopy("b")];
            && Keyed(records) && !Mirrored(records)
            && forall key | key in Activated(records, "b") :: Activated(records, "b")[key] == EmptyCopy("b")
  {
    KeysAreDistinct("a", "b");
    KeysAreDistinct("b", "b");
  }
}
