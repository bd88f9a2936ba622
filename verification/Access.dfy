/** Workspace access as the client compares it, with normalization taken as done. */
module Access {
  import opened Prelude

  /** An optional account: absent, explicitly null, or an identifier. */
  datatype AccountTag = Undefined | Null | Account(id: string)

  predicate Blank(s: string) {
    forall c | c in s :: IsSpace(c)
  }

  function OptionalString(a: AccountTag): Option<string> {
    if a.Account? && !Blank(a.id) then Some(a.id) else None
  }

  predicate AccountIdsMatch(a: AccountTag, b: AccountTag) {
    OptionalString(a) == OptionalString(b)
  }

  datatype Kind = DeviceOnly | ServerBacked
  datatype Role = Owner | Editor | Viewer
  datatype AccessStatus = Active | Revoked | Left | Deleted | Unknown

  datatype Capabilities = Capabilities(
    delete: bool, leave: bool, manageAccess: bool, read: bool, write: bool)

  datatype AccessState = AccessState(
    kind: Kind,
    accountId: AccountTag,
    membershipRevision: nat,
    accessRevision: nat,
    status: AccessStatus,
    role: Option<Role>,
    capabilities: Capabilities)

  datatype Summary = Summary(
    id: string, accountId: AccountTag, membershipRevision: nat, accessRevision: nat,
    revision: nat, updatedAt: nat)

  function RoleRank(role: Role): nat {
    match role
    case Viewer => 0
    case Editor => 1
    case Owner => 2
  }

  predicate WithinCapabilities(candidate: Capabilities, current: Capabilities) {
    && (candidate.delete ==> current.delete)
    && (candidate.leave ==> current.leave)
    && (candidate.manageAccess ==> current.manageAccess)
    && (candidate.read ==> current.read)
    && (candidate.write ==> current.write)
  }

  /** Whether a candidate access state replaces the current one. */
  predicate ShouldApply(current: AccessState, candidate: AccessState) {
    var currentAccount := OptionalString(current.accountId);
    var candidateAccount := OptionalString(candidate.accountId);
    if candidate.kind == DeviceOnly then
      current.kind == DeviceOnly
    else if current.kind == DeviceOnly then
      true
    else if candidateAccount.Some? && candidateAccount != currentAccount then
      true
    else if currentAccount.Some? && candidateAccount.None? then
      false
    else if candidate.membershipRevision != current.membershipRevision then
      candidate.membershipRevision > current.membershipRevision
    else if candidate.accessRevision != current.accessRevision then
      candidate.accessRevision > current.accessRevision
    else if current.status != candidate.status then
      current.status == Active && candidate.status != Active
    else if current.role != candidate.role then
      if candidate.role.None? then
        true
      else if current.role.None? then
        false
      else
        RoleRank(candidate.role.value) < RoleRank(current.role.value)
    else
      WithinCapabilities(candidate.capabilities, current.capabilities)
  }

  function CompareNat(a: nat, b: nat, otherwise: int): int {
    if a != b then a - b else otherwise
  }

  function CompareSummaries(a: Summary, b: Summary): int {
    CompareNat(a.membershipRevision, b.membershipRevision,
    CompareNat(a.accessRevision, b.accessRevision,
    CompareNat(a.revision, b.revision, a.updatedAt - b.updatedAt)))
  }

  /** The lexicographic order of the two revisions that version an access state. */
  predicate VersionAtMost(a: AccessState, b: AccessState) {
    || a.membershipRevision < b.membershipRevision
    || (a.membershipRevision == b.membershipRevision && a.accessRevision <= b.accessRevision)
  }

  function RoleLevel(role: Option<Role>): int {
    if role.None? then -1 else RoleRank(role.value)
  }

  /** What somebody may do, by name. */
  function Granted(c: Capabilities): set<string> {
    (if c.delete then {"delete"} else {}) + (if c.leave then {"leave"} else {}) +
    (if c.manageAccess then {"manageAccess"} else {}) + (if c.read then {"read"} else {}) +
    (if c.write then {"write"} else {})
  }

  lemma WithinGrantsNoMore(candidate: Capabilities, current: Capabilities)
    ensures WithinCapabilities(candidate, current) <==> Granted(candidate) <= Granted(current)
  {
    if Granted(candidate) <= Granted(current) {
      assert forall k | k in Granted(candidate) :: k in Granted(current);
      assert candidate.delete ==> "delete" in Granted(candidate);
      assert candidate.leave ==> "leave" in Granted(candidate);
      assert candidate.manageAccess ==> "manageAccess" in Granted(candidate);
      assert candidate.read ==> "read" in Granted(candidate);
      assert candidate.write ==> "write" in Granted(candidate);
    }
  }

  /** Nobody, a viewer, an editor, an owner. */
  lemma RolesRise()
    ensures RoleLevel(None) < RoleLevel(Some(Viewer)) < RoleLevel(Some(Editor)) < RoleLevel(Some(Owner))
  {
  }

  function ApplyAll(current: AccessState, candidates: seq<AccessState>): AccessState
    decreases |candidates|
  {
    if candidates == [] then
      current
    else
      ApplyAll(if ShouldApply(current, candidates[0]) then candidates[0] else current, candidates[1..])
  }

  /**
   For one account, whatever candidates arrive in whatever order, the version
   never goes back; and at an unchanged version an ended access stays ended, the
   role never rises and an unchanged role never gains a capability.
   */
  lemma {:induction false} AccessNeverRegresses(current: AccessState, candidates: seq<AccessState>)
    requires current.kind == ServerBacked && OptionalString(current.accountId).Some?
    requires forall i | 0 <= i < |candidates| ::
      candidates[i].kind == ServerBacked && OptionalString(candidates[i].accountId) == OptionalString(current.accountId)
    ensures var final := ApplyAll(current, candidates);
            && VersionAtMost(current, final)
            && (VersionAtMost(final, current) ==>
                  && (current.status != Active ==> final.status == current.status)
                  && (final.status == current.status ==> RoleLevel(final.role) <= RoleLevel(current.role))
                  && (final.status == current.status && final.role == current.role ==>
                        Granted(final.capabilities) <= Granted(current.capabilities)))
    decreases |candidates|
  {
    hide Granted;
    if candidates == [] {
    } else {
      var next := if ShouldApply(current, candidates[0]) then candidates[0] else current;
      WithinGrantsNoMore(candidates[0].capabilities, current.capabilities);
      AccessNeverRegresses(next, candidates[1..]);
    }
  }

  // ------------------------------------------------------- newer access counts

  predicate OneAccount(a: AccessState, b: AccessState) {
    && a.kind == ServerBacked && b.kind == ServerBacked
    && OptionalString(a.accountId).Some? && OptionalString(a.accountId) == OptionalString(b.accountId)
  }

  predicate NewerVersion(candidate: AccessState, current: AccessState) {
    || candidate.membershipRevision > current.membershipRevision
    || (candidate.membershipRevision == current.membershipRevision && candidate.accessRevision > current.accessRevision)
  }

  predicate EqualVersion(a: AccessState, b: AccessState) {
    a.membershipRevision == b.membershipRevision && a.accessRevision == b.accessRevision
  }

  /** Withdraws something: ends an active access, lowers the role, or adds no capability. */
  predicate Withdraws(candidate: AccessState, current: AccessState) {
    || (current.status == Active && candidate.status != Active)
    || (current.status == candidate.status && RoleLevel(candidate.role) < RoleLevel(current.role))
    || (current.status == candidate.status && current.role == candidate.role &&
        Granted(candidate.capabilities) <= Granted(current.capabilities))
  }

  /**
   Of one account, the access with the newer version counts, whatever it grants; of
   one version, only what withdraws something replaces what is known.
   */
  lemma NewerAccessCounts(current: AccessState, candidate: AccessState)
    requires OneAccount(current, candidate)
    ensures NewerVersion(candidate, current) ==> ShouldApply(current, candidate)
    ensures NewerVersion(current, candidate) ==> !ShouldApply(current, candidate)
    ensures EqualVersion(current, candidate) ==> (ShouldApply(current, candidate) <==> Withdraws(candidate, current))
  {
    hide Granted;
    RolesAreLevels(current.role, candidate.role);
    WithinGrantsNoMore(candidate.capabilities, current.capabilities);
  }

  lemma RolesAreLevels(a: Option<Role>, b: Option<Role>)
    ensures RoleLevel(a) == RoleLevel(b) <==> a == b
  {
  }

  /** Another account always takes over, an unknown one never does, and a device-only copy takes any server access. */
  lemma OtherAccountsCount(current: AccessState, candidate: AccessState)
    requires candidate.kind == ServerBacked
    ensures current.kind == DeviceOnly ==> ShouldApply(current, candidate)
    ensures OptionalString(candidate.accountId).Some? && !AccountIdsMatch(current.accountId, candidate.accountId) ==>
              ShouldApply(current, candidate)
    ensures current.kind == ServerBacked && OptionalString(current.accountId).Some? &&
              OptionalString(candidate.accountId).None? ==>
              !ShouldApply(current, candidate)
    ensures forall local: AccessState | local.kind == DeviceOnly ::
              ShouldApply(current, local) <==> current.kind == DeviceOnly
  {
  }

  predicate AllOneAccount(current: AccessState, candidates: seq<AccessState>) {
    forall c | c in candidates :: OneAccount(current, c)
  }

  /** The final access was known from the start or arrived, and nothing known is newer. */
  predicate IsNewest(final: AccessState, known: set<AccessState>) {
    final in known && forall a | a in known :: VersionAtMost(a, final)
  }

  /**
   Whatever order the answers arrive in, the device ends up with the newest version it
   was told of, and within that version with an ended access if any answer ended it.
   */
  lemma {:induction false} NewestAccessWins(current: AccessState, candidates: seq<AccessState>)
    requires OneAccount(current, current) && AllOneAccount(current, candidates)
    ensures var final := ApplyAll(current, candidates);
            var known := {current} + ToSet(candidates);
            && IsNewest(final, known)
            && (final.status != Active <==> exists a | a in known :: EqualVersion(a, final) && a.status != Active)
            && (final.status == Active ==> forall a | a in known && EqualVersion(a, final) ::
                  RoleLevel(final.role) <= RoleLevel(a.role))
    decreases |candidates|
  {
    hide ShouldApply;
    if candidates == [] {
    } else {
      var first, rest := candidates[0], candidates[1..];
      assert first in candidates;
      var next := if ShouldApply(current, first) then first else current;
      NewerAccessCounts(current, first);
      forall c | c in rest
        ensures OneAccount(next, c)
      {
        assert c in candidates;
      }
      NewestAccessWins(next, rest);
      var final := ApplyAll(current, candidates);
      assert candidates == [first] + rest;
      assert {current} + ToSet(candidates) == {current, first} + ToSet(rest);
      KeptOrReplaced(current, first, next, final);
    }
  }

  /** Against the final access, what one comparison drops is older, or withdraws no more than what it keeps. */
  lemma KeptOrReplaced(current: AccessState, first: AccessState, next: AccessState, final: AccessState)
    requires OneAccount(current, first) && next == if ShouldApply(current, first) then first else current
    requires VersionAtMost(next, final)
    requires EqualVersion(next, final) && next.status != Active ==> final.status != Active
    requires EqualVersion(next, final) && final.status == Active ==> RoleLevel(final.role) <= RoleLevel(next.role)
    ensures forall a | a in {current, first} :: VersionAtMost(a, final)
    ensures forall a | a in {current, first} && EqualVersion(a, final) ::
              (a.status != Active ==> final.status != Active) &&
              (final.status == Active ==> RoleLevel(final.role) <= RoleLevel(a.role))
  {
    hide ShouldApply;
    NewerAccessCounts(current, first);
  }

  lemma {:induction false} ApplyAppend(current: AccessState, a: seq<AccessState>, b: seq<AccessState>)
    ensures ApplyAll(current, a + b) == ApplyAll(ApplyAll(current, a), b)
    decreases |a|
  {
    hide ShouldApply;
    if a == [] {
      assert a + b == b;
    } else {
      assert (a + b)[0] == a[0] && (a + b)[1..] == a[1..] + b;
      ApplyAppend(if ShouldApply(current, a[0]) then a[0] else current, a[1..], b);
    }
  }
}
