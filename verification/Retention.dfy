/**
 The server forgets old identifiers when its history is compacted. Which ones it
 drops is left open here: compaction may remove any of them at any time.
 */
module Retention {
  import opened Prelude
  import opened Json
  import opened Domain
  import opened Server
  import opened ItemEdits

  datatype Event = Batch(commands: seq<Envelope>) | Compact(dropped: set<string>)

  /** The snapshot, and every identifier ever applied to it, forgotten ones included. */
  datatype Kept = Kept(state: State, history: seq<string>)

  function Retained(log: seq<LogEntry>, dropped: set<string>): seq<LogEntry> {
    if log == [] then []
    else (if log[0].commandId in dropped then [] else [log[0]]) + Retained(log[1..], dropped)
  }

  function Handle(kept: Kept, event: Event): Kept {
    match event
    case Compact(dropped) => kept.(state := kept.state.(log := Retained(kept.state.log, dropped)))
    case Batch(commands) =>
      match SynchronizeResult(kept.state, commands)
      case Err(_) => kept
      case Ok(outcome) =>
        SynchronizeAtMostOnce(kept.state, commands);
        Kept(outcome.state, kept.history + AppliedIds(outcome.state)[|kept.state.log|..])
  }

  function HandleAll(kept: Kept, events: seq<Event>): Kept
    decreases |events|
  {
    if events == [] then kept else HandleAll(Handle(kept, events[0]), events[1..])
  }

  /** No compaction among the events drops the identifier. */
  predicate KeptThroughout(events: seq<Event>, id: string) {
    forall e | e in events && e.Compact? :: id !in e.dropped
  }

  lemma FirstLogged(first: LogEntry, rest: seq<LogEntry>)
    ensures LogIds([first] + rest) == [first.commandId] + LogIds(rest)
  {
  }

  /** Compaction removes exactly the dropped identifiers. */
  lemma {:induction false} RetainedIds(log: seq<LogEntry>, dropped: set<string>, id: string)
    ensures id in LogIds(Retained(log, dropped)) <==> id in LogIds(log) && id !in dropped
  {
    hide LogIds;
    if log == [] {
      assert LogIds(log) == [];
    } else {
      var rest := Retained(log[1..], dropped);
      RetainedIds(log[1..], dropped, id);
      assert log == [log[0]] + log[1..];
      FirstLogged(log[0], log[1..]);
      FirstLogged(log[0], rest);
      if log[0].commandId in dropped {
        assert Retained(log, dropped) == rest;
      } else {
        assert Retained(log, dropped) == [log[0]] + rest;
      }
    }
  }

  lemma {:induction false} RetainedDistinct(log: seq<LogEntry>, dropped: set<string>)
    requires NoDuplicates(LogIds(log))
    ensures NoDuplicates(LogIds(Retained(log, dropped)))
  {
    hide LogIds;
    if log == [] {
      assert LogIds(log) == [];
    } else {
      var rest := Retained(log[1..], dropped);
      assert log == [log[0]] + log[1..];
      FirstLogged(log[0], log[1..]);
      FirstLogged(log[0], rest);
      TailDistinct(log[0].commandId, LogIds(log[1..]));
      RetainedDistinct(log[1..], dropped);
      RetainedIds(log[1..], dropped, log[0].commandId);
      HeadDistinct(log[0].commandId, LogIds(rest));
    }
  }

  lemma TailDistinct(first: string, rest: seq<string>)
    requires NoDuplicates([first] + rest)
    ensures NoDuplicates(rest) && first !in rest
  {
    var all := [first] + rest;
    forall i, j | 0 <= i < j < |rest|
      ensures rest[i] != rest[j]
    {
      assert all[i + 1] == rest[i] && all[j + 1] == rest[j];
    }
    forall j | 0 <= j < |rest|
      ensures rest[j] != first
    {
      assert all[0] == first && all[j + 1] == rest[j];
    }
  }

  /** Applied at most once so far, and still recognized if it was. */
  predicate Once(kept: Kept, id: string) {
    && NoDuplicates(AppliedIds(kept.state))
    && multiset(kept.history)[id] <= 1
    && (id in kept.history ==> id in AppliedIds(kept.state))
  }

  lemma {:induction false} CountsOnce(ids: seq<string>, id: string)
    requires NoDuplicates(ids)
    ensures multiset(ids)[id] <= 1
  {
    if ids == [] {
    } else {
      CountsOnce(ids[1..], id);
      assert ids == [ids[0]] + ids[1..];
    }
  }

  lemma LogGrows(state: State, commands: seq<Envelope>)
    requires SynchronizeResult(state, commands).Ok? && NoDuplicates(AppliedIds(state))
    ensures var after := SynchronizeResult(state, commands).value.state;
            AppliedIds(state) <= AppliedIds(after) && NoDuplicates(AppliedIds(after))
  {
    hide SynchronizeResult;
    SynchronizeAtMostOnce(state, commands);
  }

  lemma BatchKeepsOnce(kept: Kept, commands: seq<Envelope>, id: string)
    requires Once(kept, id)
    ensures Once(Handle(kept, Batch(commands)), id)
  {
    hide SynchronizeResult, Served, NoDuplicates;
    var result := SynchronizeResult(kept.state, commands);
    if result.Ok? {
      LogGrows(kept.state, commands);
      var before, after := AppliedIds(kept.state), AppliedIds(result.value.state);
      var added := after[|before|..];
      assert after == before + added;
      SuffixNoDuplicates(before, added);
      CountsOnce(added, id);
      assert multiset(kept.history + added)[id] == multiset(kept.history)[id] + multiset(added)[id];
    }
  }

  lemma CompactKeepsOnce(kept: Kept, dropped: set<string>, id: string)
    requires Once(kept, id) && id !in dropped
    ensures Once(Handle(kept, Compact(dropped)), id)
  {
    RetainedIds(kept.state.log, dropped, id);
    RetainedDistinct(kept.state.log, dropped);
  }

  /**
   At-most-once lasts as long as the identifier is retained: over any batches and any
   compactions that do not drop it, a command is applied at most once and afterwards
   always recognized.
   */
  lemma {:induction false} AppliedOnceWhileRetained(kept: Kept, events: seq<Event>, id: string)
    requires Once(kept, id) && KeptThroughout(events, id)
    ensures Once(HandleAll(kept, events), id)
    decreases |events|
  {
    hide Once, Handle;
    if events == [] {
    } else {
      assert events[0] in events;
      match events[0] {
        case Batch(commands) => BatchKeepsOnce(kept, commands, id);
        case Compact(dropped) => CompactKeepsOnce(kept, dropped, id);
      }
      AppliedOnceWhileRetained(Handle(kept, events[0]), events[1..], id);
    }
  }

  /** A repeated command is acknowledged as a duplicate exactly while its identifier is retained. */
  lemma RecognizedIffRetained(state: State, dropped: set<string>, e: Envelope, initialRevision: nat, handled: nat)
    requires WasApplied(state, e.id)
    ensures var pruned := state.(log := Retained(state.log, dropped));
            ServeOne(initialRevision, handled, pruned, e).1.status == Duplicate <==> e.id !in dropped
  {
    hide Apply;
    var pruned := state.(log := Retained(state.log, dropped));
    RetainedIds(state.log, dropped, e.id);
    WasAppliedIsLogged(state, e.id);
    WasAppliedIsLogged(pruned, e.id);
  }

  // ---------------------------------------------- a forgotten batch comes again

  /** The item is called so. */
  predicate IsCalled(s: State, name: string) {
    s.workspaceId == "ws" && ITEM in s.records && Field(s, "name") == Some(Str(name))
  }

  const EMPTY: State := State("ws", 0, map[ITEM := map["name" := Str("hammer")]], [])

  function There(): Envelope {
    EditEnvelope(EMPTY, "a", "name", "saw")
  }

  function Back(): Envelope
    requires Apply(EMPTY, There()).Ok?
  {
    EditEnvelope(Apply(EMPTY, There()).value, "b", "name", "hammer")
  }

  /** Accepted and called otherwise afterwards, on any later state that is called as the one it was created on. */
  lemma CalledOtherwise(seen: State, s: State, id: string, from: string, to: string)
    requires IsCalled(seen, from) && IsCalled(s, from) && from != to && seen.revision <= s.revision
    ensures var r := Apply(s, EditEnvelope(seen, id, "name", to)); r.Ok? && IsCalled(r.value, to)
  {
    hide Apply, Field;
    EditApplies(seen, s, id, "name", to);
    FieldSet(s, Apply(s, EditEnvelope(seen, id, "name", to)).value, "name", to, "name");
  }

  lemma EmptyIsCalled()
    ensures IsCalled(EMPTY, "hammer") && Apply(EMPTY, There()).Ok? && IsCalled(Apply(EMPTY, There()).value, "saw")
  {
    hide Field, Apply;
    FieldIs(EMPTY, "name");
    CalledOtherwise(EMPTY, EMPTY, "a", "hammer", "saw");
  }

  /** Both renamings are applied wherever the log does not hold them. */
  lemma BothServed(s: State)
    requires IsCalled(s, "hammer") && s.log == [] && Apply(EMPTY, There()).Ok?
    ensures var r := SynchronizeResult(s, [There(), Back()]);
            r.Ok? && IsCalled(r.value.state, "hammer") && AppliedIds(r.value.state) == ["a", "b"]
  {
    hide Field, Apply;
    EmptyIsCalled();
    var renamed := Apply(EMPTY, There()).value;
    CalledOtherwise(EMPTY, s, "a", "hammer", "saw");
    EditIs(EMPTY, "a", "name", "saw");
    EditIs(renamed, "b", "name", "hammer");
    var first := Apply(s, There()).value;
    CalledOtherwise(renamed, first, "b", "saw", "hammer");
    WasAppliedIsLogged(s, "a");
    WasAppliedIsLogged(first, "b");
    ServedBoth(s, There(), Back(), first);
  }

  lemma ServedBoth(s: State, a: Envelope, b: Envelope, first: State)
    requires a.workspaceId == b.workspaceId == s.workspaceId
    requires a.baseRevision <= s.revision && b.baseRevision <= first.revision
    requires !WasApplied(s, a.id) && Apply(s, a) == Ok(first)
    requires !WasApplied(first, b.id) && Apply(first, b).Ok?
    ensures SynchronizeResult(s, [a, b]).Ok? && Ok(SynchronizeResult(s, [a, b]).value.state) == Apply(first, b)
  {
    hide Apply, WasApplied;
    var last := Apply(first, b).value;
    assert [a, b][1..] == [b] && [b][1..] == [];
    assert Serve(s.revision, 2, last, []).state == last;
    assert Serve(s.revision, 1, first, [b]).state == last;
  }

  /**
   A batch whose identifiers were dropped is applied a second time when it comes
   again: the item is called back and forth twice.
   */
  lemma ForgottenIsAppliedTwice()
    ensures Apply(EMPTY, There()).Ok?
    ensures var batch := [There(), Back()];
            var last := HandleAll(Kept(EMPTY, []), [Batch(batch), Compact({"a", "b"}), Batch(batch)]);
            last.history == ["a", "b", "a", "b"] && AppliedIds(last.state) == ["a", "b"]
  {
    hide Field, Apply, SynchronizeResult, There, Back;
    EmptyIsCalled();
    var batch := [There(), Back()];
    var batched, compacted := Batch(batch), Compact({"a", "b"});
    var events := [batched, compacted, batched];
    assert events[1..] == [compacted, batched] && events[1..][1..] == [batched] && [batched][1..] == [];
    BothServed(EMPTY);
    var first := Handle(Kept(EMPTY, []), batched);
    assert first.history == ["a", "b"];
    EverythingDropped(first.state.log);
    var pruned := Handle(first, compacted);
    StillCalled(first.state, pruned.state, "hammer");
    BothServed(pruned.state);
    var last := Handle(pruned, batched);
    assert HandleAll(last, []) == last;
    assert HandleAll(pruned, [batched]) == last;
    assert HandleAll(first, [compacted, batched]) == last;
  }

  lemma StillCalled(s: State, next: State, name: string)
    requires IsCalled(s, name) && next.workspaceId == s.workspaceId && next.records == s.records
    ensures IsCalled(next, name)
  {
  }

  lemma EverythingDropped(log: seq<LogEntry>)
    requires LogIds(log) == ["a", "b"]
    ensures Retained(log, {"a", "b"}) == []
  {
    assert log[0].commandId == LogIds(log)[0] == "a" && log[1].commandId == LogIds(log)[1] == "b";
    assert log[1..][0] == log[1] && log[1..][1..] == [];
    assert Retained(log[1..], {"a", "b"}) == [];
  }
}
