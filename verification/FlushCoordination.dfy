/**
 One tab's flushes: at most one per workspace at a time, and a request made while
 one is under way is remembered for a follow-up. A request may allow a sync that
 carries no commands; what becomes of that permission is followed exactly.
 */
module FlushCoordination {
  import opened Prelude
  import opened Domain
  import opened Server
  import opened Access
  import opened LocalReplica
  import opened Protocol

  /** A queued microtask that will ask for a flush. */
  datatype FollowUp = FollowUp(workspaceId: string, allowEmpty: bool)

  /** What happens to the remembered follow-up while a flush is under way. */
  datatype Ask = Joined(allowEmpty: bool) | More

  /** Some request that allowed an empty sync joined, and no partly acknowledged batch asked for more after it. */
  ghost predicate KeepsPermission(asks: seq<Ask>) {
    exists i | 0 <= i < |asks| :: asks[i] == Joined(true) && More !in asks[i..]
  }

  lemma JoinKeeps(asks: seq<Ask>, allowEmpty: bool)
    ensures KeepsPermission(asks + [Joined(allowEmpty)]) <==> allowEmpty || KeepsPermission(asks)
  {
    var longer := asks + [Joined(allowEmpty)];
    if allowEmpty {
      assert longer[|asks|] == Joined(true) && longer[|asks|..] == [Joined(true)];
    }
    if KeepsPermission(asks) {
      var i :| 0 <= i < |asks| && asks[i] == Joined(true) && More !in asks[i..];
      assert longer[i..] == asks[i..] + [Joined(allowEmpty)];
    }
    if KeepsPermission(longer) && !allowEmpty {
      var i :| 0 <= i < |longer| && longer[i] == Joined(true) && More !in longer[i..];
      assert longer[i..] == asks[i..] + [Joined(allowEmpty)];
    }
  }

  lemma MoreDrops(asks: seq<Ask>)
    ensures !KeepsPermission(asks + [More])
  {
    var longer := asks + [More];
    forall i | 0 <= i < |longer|
      ensures More in longer[i..]
    {
      assert longer[i..][|asks| - i] == More;
    }
  }

  lemma NothingKept()
    ensures !KeepsPermission([])
  {
  }

  // -------------------------------------------------------------- invariants

  /** Each operation under way is the one remembered for its workspace. */
  ghost predicate OnePerWorkspace(promises: map<string, nat>, inFlight: map<nat, string>, next: nat) {
    && (forall w | w in promises :: promises[w] in inFlight && inFlight[promises[w]] == w)
    && (forall op | op in inFlight :: inFlight[op] in promises && promises[inFlight[op]] == op)
    && (forall op | op in inFlight :: op < next)
  }

  /** The remembered follow-up is decided by what was asked during the flush. */
  ghost predicate RemembersAsks(promises: map<string, nat>, followUps: map<string, bool>, asks: map<string, seq<Ask>>) {
    && asks.Keys == promises.Keys
    && followUps.Keys <= asks.Keys
    && (forall w | w in asks :: w in followUps <==> asks[w] != [])
    && (forall w | w in followUps :: followUps[w] <==> KeepsPermission(asks[w]))
  }

  ghost predicate IsTasked(microtasks: seq<FollowUp>, workspaceId: string) {
    FollowUp(workspaceId, true) in microtasks || FollowUp(workspaceId, false) in microtasks
  }

  /** What was asked for or permitted is still remembered, or already a microtask. */
  ghost predicate NothingForgotten(
    followUps: map<string, bool>, microtasks: seq<FollowUp>, waiting: set<string>, permitted: set<string>)
  {
    && (forall w | w in waiting :: w in followUps || IsTasked(microtasks, w))
    && (forall w | w in permitted :: (w in followUps && followUps[w]) || FollowUp(w, true) in microtasks)
  }

  lemma AskedKeeps(
    promises: map<string, nat>, followUps: map<string, bool>, asks: map<string, seq<Ask>>, w: string, ask: Ask)
    requires RemembersAsks(promises, followUps, asks) && w in promises
    ensures var kept := ask == Joined(true) || (ask.Joined? && w in followUps && followUps[w]);
            RemembersAsks(promises, followUps[w := kept], asks[w := asks[w] + [ask]])
  {
    hide KeepsPermission;
    NothingKept();
    if ask.Joined? {
      JoinKeeps(asks[w], ask.allowEmpty);
    } else {
      MoreDrops(asks[w]);
    }
  }

  lemma StartedKeeps(
    promises: map<string, nat>, inFlight: map<nat, string>, next: nat, followUps: map<string, bool>,
    asks: map<string, seq<Ask>>, w: string)
    requires OnePerWorkspace(promises, inFlight, next) && RemembersAsks(promises, followUps, asks) && w !in promises
    ensures OnePerWorkspace(promises[w := next], inFlight[next := w], next + 1)
    ensures RemembersAsks(promises[w := next], followUps, asks[w := []])
    ensures w !in followUps
  {
    hide KeepsPermission;
  }

  lemma OperationOf(
    promises: map<string, nat>, inFlight: map<nat, string>, next: nat, followUps: map<string, bool>,
    asks: map<string, seq<Ask>>, w: string)
    requires OnePerWorkspace(promises, inFlight, next) && RemembersAsks(promises, followUps, asks)
    ensures next !in inFlight
    ensures w in promises ==> promises[w] in inFlight && inFlight[promises[w]] == w && w in asks
  {
    hide KeepsPermission;
  }

  lemma InFlightIsPromised(promises: map<string, nat>, inFlight: map<nat, string>, next: nat, op: nat)
    requires OnePerWorkspace(promises, inFlight, next) && op in inFlight
    ensures inFlight[op] in promises && promises[inFlight[op]] == op
  {
  }

  lemma SettledKeeps(
    promises: map<string, nat>, inFlight: map<nat, string>, next: nat, followUps: map<string, bool>,
    asks: map<string, seq<Ask>>, w: string)
    requires OnePerWorkspace(promises, inFlight, next) && RemembersAsks(promises, followUps, asks) && w in promises
    ensures OnePerWorkspace(promises - {w}, inFlight - {promises[w]}, next)
    ensures RemembersAsks(promises - {w}, followUps - {w}, asks - {w})
  {
    hide KeepsPermission;
  }

  lemma FollowUpOf(promises: map<string, nat>, followUps: map<string, bool>, asks: map<string, seq<Ask>>, w: string)
    requires RemembersAsks(promises, followUps, asks) && w in asks
    ensures w in followUps <==> asks[w] != []
    ensures w in followUps ==> (followUps[w] <==> KeepsPermission(asks[w]))
  {
    hide KeepsPermission;
  }

  lemma QueuedIsTasked(
    followUps: map<string, bool>, microtasks: seq<FollowUp>, waiting: set<string>, permitted: set<string>, w: string)
    requires NothingForgotten(followUps, microtasks, waiting, permitted) && w in followUps
    ensures NothingForgotten(followUps - {w}, microtasks + [FollowUp(w, followUps[w])], waiting, permitted)
  {
    var longer := microtasks + [FollowUp(w, followUps[w])];
    assert longer[|microtasks|] == FollowUp(w, followUps[w]);
    assert forall t | t in microtasks :: t in longer;
  }

  lemma JoinedIsRemembered(
    followUps: map<string, bool>, microtasks: seq<FollowUp>, waiting: set<string>, permitted: set<string>,
    w: string, allowEmpty: bool)
    requires NothingForgotten(followUps, microtasks, waiting, permitted)
    ensures NothingForgotten(followUps[w := allowEmpty || (w in followUps && followUps[w])], microtasks, waiting + {w},
                             if allowEmpty then permitted + {w} else permitted)
  {
    hide IsTasked;
  }

  lemma MoreIsRemembered(
    followUps: map<string, bool>, microtasks: seq<FollowUp>, waiting: set<string>, permitted: set<string>, w: string)
    requires NothingForgotten(followUps, microtasks, waiting, permitted)
    ensures NothingForgotten(followUps[w := false], microtasks, waiting + {w},
                             if FollowUp(w, true) in microtasks then permitted else permitted - {w})
  {
    hide IsTasked;
  }

  lemma StartedAnswers(
    followUps: map<string, bool>, microtasks: seq<FollowUp>, waiting: set<string>, permitted: set<string>,
    w: string, allowEmpty: bool)
    requires NothingForgotten(followUps, microtasks, waiting, permitted)
    ensures NothingForgotten(followUps, microtasks, waiting - {w}, if allowEmpty then permitted - {w} else permitted)
  {
    hide IsTasked;
  }

  /**
   The coordinating references of one tab. Beside them stand the operations under
   way, what was asked during each and whether it allows an empty sync, the workspaces
   asked for again since their latest flush began, those whose permission for an empty
   sync has not reached a flush yet, and those whose permission was overwritten.
   */
  class Coordinator {
    var flushPromises: map<string, nat>
    var followUpFlushes: map<string, bool>
    var microtasks: seq<FollowUp>
    var nextOperation: nat
    ghost var inFlight: map<nat, string>
    ghost var asks: map<string, seq<Ask>>
    ghost var allowed: map<nat, bool>
    ghost var waiting: set<string>
    ghost var permitted: set<string>
    ghost var overwritten: set<string>

    ghost predicate Valid()
      reads this
    {
      && OnePerWorkspace(flushPromises, inFlight, nextOperation)
      && RemembersAsks(flushPromises, followUpFlushes, asks)
      && NothingForgotten(followUpFlushes, microtasks, waiting, permitted)
    }

    constructor ()
      ensures Valid() && inFlight == map[] && microtasks == [] && overwritten == {}
    {
      flushPromises, followUpFlushes, microtasks, nextOperation := map[], map[], [], 0;
      inFlight, asks, allowed, waiting, permitted, overwritten := map[], map[], map[], {}, {}, {};
    }

    /** Starts a flush, the only one of its workspace. */
    method StartFlush(workspaceId: string, allowEmpty: bool) returns (operation: nat)
      requires Valid() && workspaceId !in flushPromises
      modifies this
      ensures Valid() && microtasks == old(microtasks) && overwritten == old(overwritten)
      ensures operation !in old(inFlight) && inFlight == old(inFlight)[operation := workspaceId]
      ensures asks == old(asks)[workspaceId := []] && allowed == old(allowed)[operation := allowEmpty]
      ensures waiting == old(waiting) - {workspaceId}
      ensures permitted == if allowEmpty then old(permitted) - {workspaceId} else old(permitted)
    {
      hide OnePerWorkspace, RemembersAsks, NothingForgotten, KeepsPermission;
      OperationOf(flushPromises, inFlight, nextOperation, followUpFlushes, asks, workspaceId);
      StartedKeeps(flushPromises, inFlight, nextOperation, followUpFlushes, asks, workspaceId);
      operation := nextOperation;
      StartedAnswers(followUpFlushes, microtasks, waiting, permitted, workspaceId, allowEmpty);
      nextOperation := nextOperation + 1;
      flushPromises := flushPromises[workspaceId := operation];
      inFlight := inFlight[operation := workspaceId];
      asks := asks[workspaceId := []];
      allowed := allowed[operation := allowEmpty];
      waiting := waiting - {workspaceId};
      permitted := if allowEmpty then permitted - {workspaceId} else permitted;
    }

    /** Joins the flush under way and remembers the request, or starts a new one. */
    method FlushWorkspace(workspaceId: string, allowEmpty: bool) returns (operation: nat)
      requires Valid()
      modifies this
      ensures Valid() && microtasks == old(microtasks) && overwritten == old(overwritten)
      ensures operation in inFlight && inFlight[operation] == workspaceId
      ensures workspaceId in old(flushPromises) ==>
                && operation == old(flushPromises[workspaceId]) && inFlight == old(inFlight)
                && workspaceId in old(asks)
                && asks == old(asks)[workspaceId := old(asks)[workspaceId] + [Joined(allowEmpty)]]
                && waiting == old(waiting) + {workspaceId} && allowed == old(allowed)
                && permitted == (if allowEmpty then old(permitted) + {workspaceId} else old(permitted))
      ensures workspaceId !in old(flushPromises) ==>
                && operation !in old(inFlight) && inFlight == old(inFlight)[operation := workspaceId]
                && asks == old(asks)[workspaceId := []]
                && waiting == old(waiting) - {workspaceId} && allowed == old(allowed)[operation := allowEmpty]
                && permitted == (if allowEmpty then old(permitted) - {workspaceId} else old(permitted))
    {
      hide OnePerWorkspace, RemembersAsks, NothingForgotten, KeepsPermission;
      OperationOf(flushPromises, inFlight, nextOperation, followUpFlushes, asks, workspaceId);
      if workspaceId in flushPromises {
        operation := flushPromises[workspaceId];
        AskedKeeps(flushPromises, followUpFlushes, asks, workspaceId, Joined(allowEmpty));
        JoinedIsRemembered(followUpFlushes, microtasks, waiting, permitted, workspaceId, allowEmpty);
        followUpFlushes := followUpFlushes[workspaceId :=
          allowEmpty || (workspaceId in followUpFlushes && followUpFlushes[workspaceId])];
        asks := asks[workspaceId := asks[workspaceId] + [Joined(allowEmpty)]];
        waiting := waiting + {workspaceId};
        permitted := if allowEmpty then permitted + {workspaceId} else permitted;
        return;
      }
      operation := StartFlush(workspaceId, allowEmpty);
    }

    /**
     A batch was acknowledged. When more had been pending than was sent, a
     follow-up without permission for an empty sync replaces what was remembered.
     */
    method BatchAcknowledged(workspaceId: string, operation: nat, pending: nat, sent: nat)
      requires Valid() && operation in inFlight && inFlight[operation] == workspaceId
      modifies this
      ensures Valid() && inFlight == old(inFlight) && microtasks == old(microtasks)
      ensures pending <= sent ==> asks == old(asks) && waiting == old(waiting) && permitted == old(permitted)
      ensures pending > sent ==>
                && asks == old(asks)[workspaceId := old(asks)[workspaceId] + [More]]
                && waiting == old(waiting) + {workspaceId}
      ensures overwritten == old(overwritten) +
                (if pending > sent && KeepsPermission(old(asks)[workspaceId]) then {workspaceId} else {})
      ensures permitted <= old(permitted) <= permitted + overwritten
    {
      hide OnePerWorkspace, RemembersAsks, KeepsPermission, NothingForgotten;
      OperationOf(flushPromises, inFlight, nextOperation, followUpFlushes, asks, workspaceId);
      InFlightIsPromised(flushPromises, inFlight, nextOperation, operation);
      if pending > sent {
        AskedKeeps(flushPromises, followUpFlushes, asks, workspaceId, More);
        Overwrites(workspaceId);
        MoreIsRemembered(followUpFlushes, microtasks, waiting, permitted, workspaceId);
        if KeepsPermission(asks[workspaceId]) {
          overwritten := overwritten + {workspaceId};
        }
        if FollowUp(workspaceId, true) !in microtasks {
          permitted := permitted - {workspaceId};
        }
        followUpFlushes := followUpFlushes[workspaceId := false];
        asks := asks[workspaceId := asks[workspaceId] + [More]];
        waiting := waiting + {workspaceId};
      }
    }

    lemma FlushIsPromised(operation: nat)
      requires Valid() && operation in inFlight
      ensures inFlight[operation] in flushPromises && flushPromises[inFlight[operation]] == operation
    {
      hide KeepsPermission;
    }

    /** A permission that has not become a microtask is one the asks of the flush keep. */
    lemma Overwrites(workspaceId: string)
      requires Valid() && workspaceId in flushPromises && workspaceId in asks
      ensures workspaceId in permitted && FollowUp(workspaceId, true) !in microtasks ==>
                KeepsPermission(asks[workspaceId])
    {
      hide KeepsPermission;
    }

    /**
     The operation settles, however it ends. Exactly when something was asked during
     it one follow-up is queued, and that allows an empty sync if and only if a
     request that allowed one joined after the last acknowledged part.
     */
    method Settle(workspaceId: string, operation: nat)
      requires Valid() && operation in inFlight && inFlight[operation] == workspaceId
      modifies this
      ensures Valid()
      ensures inFlight == old(inFlight) - {operation}
      ensures flushPromises == old(flushPromises) - {workspaceId}
      ensures asks == old(asks) - {workspaceId}
      ensures microtasks == old(microtasks) +
                (if old(asks)[workspaceId] == [] then []
                 else [FollowUp(workspaceId, KeepsPermission(old(asks)[workspaceId]))])
      ensures waiting == old(waiting) && permitted == old(permitted) && overwritten == old(overwritten)
    {
      hide OnePerWorkspace, RemembersAsks, KeepsPermission, NothingForgotten;
      OperationOf(flushPromises, inFlight, nextOperation, followUpFlushes, asks, workspaceId);
      InFlightIsPromised(flushPromises, inFlight, nextOperation, operation);
      FollowUpOf(flushPromises, followUpFlushes, asks, workspaceId);
      SettledKeeps(flushPromises, inFlight, nextOperation, followUpFlushes, asks, workspaceId);
      if flushPromises[workspaceId] == operation {
        flushPromises := flushPromises - {workspaceId};
      }
      inFlight := inFlight - {operation};
      asks := asks - {workspaceId};
      if workspaceId in followUpFlushes {
        QueuedIsTasked(followUpFlushes, microtasks, waiting, permitted, workspaceId);
        var followUpAllowsEmpty := followUpFlushes[workspaceId];
        followUpFlushes := followUpFlushes - {workspaceId};
        microtasks := microtasks + [FollowUp(workspaceId, followUpAllowsEmpty)];
      } else {
        assert followUpFlushes - {workspaceId} == followUpFlushes;
      }
    }

    /** The oldest microtask runs: its request starts a flush or joins one that began meanwhile. */
    method RunMicrotask() returns (operation: nat)
      requires Valid() && microtasks != []
      modifies this
      ensures Valid() && microtasks == old(microtasks)[1..] && overwritten == old(overwritten)
      ensures operation in inFlight && inFlight[operation] == old(microtasks)[0].workspaceId
      ensures operation !in old(inFlight) ==>
                && operation in allowed && allowed[operation] == old(microtasks)[0].allowEmpty
                && inFlight == old(inFlight)[operation := old(microtasks)[0].workspaceId]
      ensures operation in old(inFlight) ==> old(microtasks)[0].workspaceId in waiting
      ensures operation in old(inFlight) && old(microtasks)[0].allowEmpty ==>
                old(microtasks)[0].workspaceId in permitted
      ensures forall op | op in old(inFlight) :: op in inFlight && inFlight[op] == old(inFlight)[op]
    {
      hide OnePerWorkspace, RemembersAsks, KeepsPermission;
      var task := microtasks[0];
      microtasks := microtasks[1..];
      assert old(microtasks) == [task] + microtasks;
      waiting := waiting - {task.workspaceId};
      permitted := if task.allowEmpty then permitted - {task.workspaceId} else permitted;
      operation := FlushWorkspace(task.workspaceId, task.allowEmpty);
    }

    /**
     When the tab is idle, every request has been answered by a flush that began
     after it, and every permission for an empty sync has reached such a flush or
     was overwritten.
     */
    lemma IdleMeansAnswered()
      requires Valid() && inFlight == map[] && microtasks == []
      ensures waiting == {} && permitted == {} && followUpFlushes == map[] && flushPromises == map[]
    {
      hide KeepsPermission;
      assert forall w | w in flushPromises :: flushPromises[w] in inFlight;
      assert forall w | w in followUpFlushes :: w in flushPromises;
    }
  }

  // ------------------------------------------- when the permission matters

  /**
   Whether an empty sync is allowed decides what a flush sends exactly when no
   entry is pending any more.
   */
  lemma PermissionMattersIffNothingPending(sys: System, account: Option<AccountTag>)
    ensures Send(sys, account, true) != Send(sys, account, false) <==> PendingEntries(sys.replica.outbox) == []
  {
    var outbox := sys.replica.outbox;
    if PendingEntries(outbox) == [] {
      assert |Send(sys, account, true).requests| == |sys.requests| + 1;
    }
  }

  function Queued(id: string, basis: Option<Basis>): OutboxEntry {
    OutboxEntry(Account("user"),
                Envelope(id, "ws", "user", "device", "", 0, basis, Rename(Json.Null), []), Pending, None)
  }

  function Receipts(id: string): seq<Receipt> {
    [Receipt(id, Applied, 1, None, None)]
  }

  const ACCOUNT: Option<AccountTag> := Some(Account("user"))

  /** Two changes with different authorization bases, so one request carries only the first. */
  const FIRST: OutboxEntry := Queued("a", None)
  const SECOND: OutboxEntry := Queued("b", Some(Basis(0, 0)))

  lemma AllPendingSelected(
    queue: seq<OutboxEntry>, first: OutboxEntry, second: OutboxEntry, account: Option<AccountTag>)
    requires queue == [first, second] && first.status == second.status == Pending
    requires MayJoin(first, first, account) && !MayJoin(first, second, account)
    ensures PendingEntries(queue) == queue && SelectBatch(queue, account) == [first]
  {
    hide MayJoin;
    assert queue[1..] == [second] && [second][1..] == [];
    assert PendingEntries([second]) == [second];
    assert BatchFrom(first, [second], account, COMMANDS_PER_SYNC_REQUEST - 1) == [];
  }

  /** What the two acknowledgements leave of the queue. */
  lemma QueueSettles()
    ensures var queue := [FIRST, SECOND];
            && PendingEntries(queue) == queue && SelectBatch(queue, ACCOUNT) == [FIRST]
            && SettleAll(queue, {"a"}, Receipts("a")) == [SECOND]
            && SettleAll([SECOND], {"b"}, Receipts("b")) == []
  {
    var queue := [FIRST, SECOND];
    assert queue[1..] == [SECOND] && [SECOND][1..] == [];
    AllPendingSelected(queue, FIRST, SECOND, ACCOUNT);
    assert Receipts("a")[..0] == [] && Receipts("b")[..0] == [];
    assert Acknowledged(Receipts("a"), "a") && Acknowledged(Receipts("b"), "b");
    assert "b" !in {"a"};
    assert SettleAll([SECOND], {"a"}, Receipts("a")) == [SECOND];
  }

  /**
   A flush sends the first of the two changes, a request that allows an empty sync
   joins it, and its acknowledgement asks for more: a follow-up is queued without the
   permission.
   */
  method PermissionOverwritten(c: Coordinator)
    requires c.Valid() && c.inFlight == map[] && c.microtasks == []
    modifies c
    ensures c.Valid() && c.inFlight == map[] && c.microtasks == [FollowUp("ws", false)] && "ws" in c.overwritten
  {
    hide KeepsPermission, OnePerWorkspace, RemembersAsks, NothingForgotten, SelectBatch, PendingEntries;
    c.IdleMeansAnswered();
    QueueSettles();
    var queue := [FIRST, SECOND];
    var flush := c.FlushWorkspace("ws", false);
    assert c.inFlight == map[flush := "ws"];
    c.FlushIsPromised(flush);
    var batch := SelectPendingSyncBatch(queue, ACCOUNT);
    var joined := c.FlushWorkspace("ws", true);
    JoinKeeps([], true);
    assert [] + [Joined(true)] == [Joined(true)];
    c.BatchAcknowledged("ws", flush, |PendingEntries(queue)|, |batch|);
    MoreDrops([Joined(true)]);
    assert joined == flush;
    c.Settle("ws", joined);
  }

  /**
   A run in which the overwritten permission is missed. Another tab has the second
   change acknowledged before the follow-up runs. The flush that starts then sends
   nothing, which with the permission it would.
   */
  method PermissionMissed(c: Coordinator, sys: System) returns (operation: nat, last: System)
    requires c.Valid() && c.inFlight == map[] && c.microtasks == []
    requires sys.replica.outbox == [FIRST, SECOND]
    modifies c
    ensures c.Valid() && c.inFlight == map[operation := "ws"] && c.microtasks == [] && "ws" in c.overwritten
    ensures last == sys.(replica := sys.replica.(outbox := []))
    ensures operation in c.allowed && Send(last, ACCOUNT, c.allowed[operation]) == last
    ensures Send(last, ACCOUNT, true) != last
  {
    hide OnePerWorkspace, RemembersAsks, NothingForgotten, SettleAll, Send, SelectBatch, PendingEntries;
    QueueSettles();
    PermissionOverwritten(c);
    var left := SettleAll(sys.replica.outbox, {"a"}, Receipts("a"));
    left := SettleAll(left, {"b"}, Receipts("b"));
    last := sys.(replica := sys.replica.(outbox := left));
    operation := c.RunMicrotask();
    NothingSent(last);
  }

  lemma NothingSent(sys: System)
    requires sys.replica.outbox == []
    ensures Send(sys, ACCOUNT, false) == sys && Send(sys, ACCOUNT, true) != sys
  {
    PermissionMattersIffNothingPending(sys, ACCOUNT);
  }
}
