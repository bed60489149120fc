/**
 The event queue: events are stored with consecutive ids, and the events of a re-organization
 form one group. A manager may stop at any point and a new one resume on the same storage.
 */
module Events {
  import opened Wrappers

  datatype EventType = LoadStarted | LoadFinished | NewVertexAccepted | ReorgStarted | ReorgFinished
                     | VertexMetadataChanged | VertexRemoved | NcEvent | FullNodeCrashed

  datatype NodeState = Load | Sync

  datatype Event = Event(id: nat, kind: EventType, groupId: Option<nat>)

  datatype Outcome = Done | AssertionFailed | ValueError | Interrupted

  const LOAD_EVENTS_PER_BATCH: nat := 10_000

  // ----- the groups of an event log -----

  /** No group is open and `next` groups are complete, or group `id` is open. */
  datatype Phase = Closed(next: nat) | Open(id: nat) | Broken

  /** An event inside a group has its id; only the start event opens and only the end event closes. */
  function Step(phase: Phase, e: Event): Phase {
    match phase
    case Closed(n) =>
      if e.kind == ReorgStarted then (if e.groupId == Some(n) then Open(n) else Broken)
      else if e.kind != ReorgFinished && e.groupId == None then phase else Broken
    case Open(n) =>
      if e.groupId != Some(n) || e.kind == ReorgStarted then Broken
      else if e.kind == ReorgFinished then Closed(n + 1) else phase
    case Broken => Broken
  }

  function PhaseOf(events: seq<Event>): Phase {
    if events == [] then Closed(0) else Step(PhaseOf(events[..|events| - 1]), events[|events| - 1])
  }

  ghost predicate WellGrouped(events: seq<Event>) {
    && (forall i :: 0 <= i < |events| ==> events[i].id == i)
    && PhaseOf(events) != Broken
  }

  function LastGroup(phase: Phase): Option<nat> {
    match phase
    case Closed(n) => if n == 0 then None else Some(n - 1)
    case Open(n) => Some(n)
    case Broken => None
  }

  lemma {:induction false} PrefixGrouped(events: seq<Event>, n: nat)
    requires WellGrouped(events) && n <= |events|
    ensures WellGrouped(events[..n])
    decreases |events|
  {
    if n < |events| {
      var init := events[..|events| - 1];
      assert forall i :: 0 <= i < |init| ==> init[i] == events[i];
      PrefixGrouped(init, n);
      assert init[..n] == events[..n];
    } else {
      assert events[..n] == events;
    }
  }

  lemma {:induction false} PhaseStep(events: seq<Event>, n: nat)
    requires n < |events|
    ensures PhaseOf(events[..n + 1]) == Step(PhaseOf(events[..n]), events[n])
  {
    assert events[..n + 1][..n] == events[..n];
  }

  lemma {:induction false} StepFacts(events: seq<Event>, n: nat)
    requires WellGrouped(events) && n < |events|
    ensures PhaseOf(events[..n]) != Broken && PhaseOf(events[..n + 1]) != Broken
    ensures PhaseOf(events[..n + 1]) == Step(PhaseOf(events[..n]), events[n])
  {
    PrefixGrouped(events, n);
    PrefixGrouped(events, n + 1);
    PhaseStep(events, n);
  }

  /** The number of the open group or of the next one never decreases. */
  function Level(phase: Phase): nat {
    match phase
    case Closed(n) => n
    case Open(n) => n
    case Broken => 0
  }

  lemma {:induction false} LevelGrows(events: seq<Event>, m: nat, n: nat)
    requires WellGrouped(events) && m <= n <= |events|
    ensures Level(PhaseOf(events[..m])) <= Level(PhaseOf(events[..n]))
    decreases n - m
  {
    hide PhaseOf, WellGrouped;
    if m < n {
      StepFacts(events, m);
      LevelGrows(events, m + 1, n);
    }
  }

  /** Between two events of a group the group is open. */
  lemma {:induction false} OpenUntil(events: seq<Event>, i: nat, j: nat, k: nat, g: nat)
    requires WellGrouped(events) && i < j <= k < |events|
    requires events[i].groupId == Some(g) && events[k].groupId == Some(g)
    ensures PhaseOf(events[..j]) == Open(g)
    decreases j - i
  {
    hide PhaseOf, WellGrouped;
    StepFacts(events, k);
    LevelGrows(events, j, k);
    if j > i + 1 {
      OpenUntil(events, i, j - 1, k, g);
      StepFacts(events, j - 1);
    } else {
      StepFacts(events, i);
    }
  }

  /** The events of a group are consecutive: it starts once, ends once, and nothing lies between. */
  lemma {:induction false} GroupContiguous(events: seq<Event>, i: nat, j: nat, k: nat, g: nat)
    requires WellGrouped(events) && i <= j <= k < |events|
    requires events[i].groupId == Some(g) && events[k].groupId == Some(g)
    ensures events[j].groupId == Some(g)
    ensures j > i ==> events[j].kind != ReorgStarted
    ensures j < k ==> events[j].kind != ReorgFinished
  {
    hide PhaseOf, WellGrouped;
    StepFacts(events, j);
    if j > i {
      OpenUntil(events, i, j, k, g);
    }
    if j < k {
      OpenUntil(events, i, j + 1, k, g);
    }
  }

  /** Every group begins with a start event. */
  lemma {:induction false} GroupOpened(events: seq<Event>, k: nat, g: nat)
    requires WellGrouped(events) && k < |events| && events[k].groupId == Some(g)
    ensures exists i :: 0 <= i <= k && events[i].groupId == Some(g) && events[i].kind == ReorgStarted
  {
    hide PhaseOf, WellGrouped;
    StepFacts(events, k);
    if events[k].kind != ReorgStarted {
      OpenSince(events, k, g);
    }
  }

  lemma {:induction false} OpenSince(events: seq<Event>, n: nat, g: nat)
    requires WellGrouped(events) && n <= |events| && PhaseOf(events[..n]) == Open(g)
    ensures exists i :: 0 <= i < n && events[i].groupId == Some(g) && events[i].kind == ReorgStarted
    decreases n
  {
    if n > 0 {
      StepFacts(events, n - 1);
      if events[n - 1].kind != ReorgStarted {
        OpenSince(events, n - 1, g);
      }
    }
  }

  /** Every group before the open one, or before the next one, was closed by an end event: group
      ids have no gaps and only the last group can be open. */
  lemma {:induction false} EarlierGroupClosed(events: seq<Event>, n: nat, g: nat)
    requires WellGrouped(events) && n <= |events| && g < Level(PhaseOf(events[..n]))
    ensures exists i :: 0 <= i < n && events[i].groupId == Some(g) && events[i].kind == ReorgFinished
    decreases n
  {
    if n > 0 {
      StepFacts(events, n - 1);
      if g < Level(PhaseOf(events[..n - 1])) {
        EarlierGroupClosed(events, n - 1, g);
      }
    }
  }

  // ----- storage and manager -----

  class EventStorage {
    var events: seq<Event>
    var lastEvent: Option<Event>
    var lastGroupId: Option<nat>
    var nodeState: Option<NodeState>

    ghost predicate Valid()
      reads this
    {
      && WellGrouped(events)
      && lastEvent == (if events == [] then None else Some(events[|events| - 1]))
      && lastGroupId == LastGroup(PhaseOf(events))
    }

    constructor ()
      ensures Valid() && events == [] && nodeState == None
    {
      events, lastEvent, lastGroupId, nodeState := [], None, None, None;
    }

    /** Refuses an event whose id is not the next one. */
    method SaveEvent(e: Event) returns (r: Outcome)
      modifies this
      ensures r.Done? <==> e.id == if old(lastEvent).Some? then old(lastEvent).value.id + 1 else 0
      ensures r.Done? || r.ValueError?
      ensures r.Done? ==> events == old(events) + [e] && lastEvent == Some(e)
      ensures r.Done? ==> lastGroupId == if e.groupId.Some? then e.groupId else old(lastGroupId)
      ensures !r.Done? ==> events == old(events) && lastEvent == old(lastEvent) && lastGroupId == old(lastGroupId)
      ensures nodeState == old(nodeState)
    {
      if (lastEvent == None && e.id != 0) || (lastEvent.Some? && e.id != lastEvent.value.id + 1) {
        return ValueError;
      }
      events := events + [e];
      lastEvent := Some(e);
      if e.groupId.Some? {
        lastGroupId := e.groupId;
      }
      return Done;
    }

    method ResetEvents()
      modifies this
      ensures Valid() && events == [] && nodeState == old(nodeState)
    {
      events, lastEvent, lastGroupId := [], None, None;
    }
  }

  /** What the next event looks like, when one of this kind is allowed. */
  function NextEvent(phase: Phase, id: nat, kind: EventType): Event {
    match phase
    case Closed(n) => Event(id, kind, if kind == ReorgStarted then Some(n) else None)
    case Open(n) => Event(id, kind, Some(n))
    case Broken => Event(id, kind, None)
  }

  predicate Allowed(phase: Phase, kind: EventType) {
    && (kind == ReorgStarted ==> phase.Closed?)
    && (kind == ReorgFinished ==> phase.Open?)
  }

  // ----- which event is recorded, said of the log alone -----

  /** A group was started here, and its end is not in the log. */
  ghost predicate Unfinished(log: seq<Event>, i: int) {
    && 0 <= i < |log| && log[i].kind == ReorgStarted
    && forall j :: i < j < |log| && log[j].kind == ReorgFinished ==> log[j].groupId != log[i].groupId
  }

  function Starts(log: seq<Event>): set<nat> {
    set i: nat | i < |log| && log[i].kind == ReorgStarted
  }

  /** A start is recorded if no group is unfinished, with the number of groups so far for its id; an end
      if one is, with its id; anything else always, with the id of the unfinished group if there is one. */
  ghost predicate Recorded(log: seq<Event>, kind: EventType, done: bool, e: Event) {
    && (kind == ReorgStarted ==> (done <==> forall i :: !Unfinished(log, i)))
    && (kind == ReorgFinished ==> (done <==> exists i :: Unfinished(log, i)))
    && (kind != ReorgStarted && kind != ReorgFinished ==> done)
    && (done ==>
          && e.id == |log| && e.kind == kind
          && (kind == ReorgStarted ==> e.groupId == Some(|Starts(log)|))
          && (forall i :: Unfinished(log, i) ==> e.groupId == log[i].groupId)
          && (kind != ReorgStarted && (forall i :: !Unfinished(log, i)) ==> e.groupId == None))
  }

  lemma {:induction false} StartsStep(log: seq<Event>, e: Event)
    ensures |Starts(log + [e])| == |Starts(log)| + if e.kind == ReorgStarted then 1 else 0
  {
    var log' := log + [e];
    assert forall i :: 0 <= i < |log| ==> log'[i] == log[i];
    if e.kind == ReorgStarted {
      assert Starts(log') == Starts(log) + {|log|};
    } else {
      assert Starts(log') == Starts(log);
    }
  }

  lemma {:induction false} UnfinishedStep(log: seq<Event>, e: Event, i: int)
    ensures Unfinished(log + [e], i) <==>
            || (i == |log| && e.kind == ReorgStarted)
            || (Unfinished(log, i) && !(e.kind == ReorgFinished && e.groupId == log[i].groupId))
    ensures Unfinished(log, i) ==> 0 <= i < |log|
  {
    var log' := log + [e];
    assert forall j :: 0 <= j < |log| ==> log'[j] == log[j];
    if 0 <= i < |log| && Unfinished(log', i) {
      forall j | i < j < |log| && log[j].kind == ReorgFinished
        ensures log[j].groupId != log[i].groupId
      {
        assert log'[j].kind == ReorgFinished;
      }
      assert log'[|log|] == e;
    }
  }

  /** At most the last group is unfinished, and ids count the groups. */
  lemma {:induction false} PhaseSays(log: seq<Event>)
    requires WellGrouped(log)
    ensures PhaseOf(log).Closed? <==> forall i :: !Unfinished(log, i)
    ensures PhaseOf(log).Closed? ==> |Starts(log)| == PhaseOf(log).next
    ensures PhaseOf(log).Open? ==> |Starts(log)| == PhaseOf(log).id + 1
    ensures forall i :: Unfinished(log, i) ==> PhaseOf(log).Open? && log[i].groupId == Some(PhaseOf(log).id)
  {
    hide Starts, WellGrouped, PhaseOf;
    if log == [] {
      NothingYet();
    } else {
      var n := |log| - 1;
      var before, e := log[..n], log[n];
      assert log == before + [e];
      BeforeLast(log, before, e);
      PhaseSays(before);
      StartsStep(before, e);
      forall i
        ensures Unfinished(log, i) <==>
                || (i == n && e.kind == ReorgStarted)
                || (Unfinished(before, i) && !(e.kind == ReorgFinished && e.groupId == before[i].groupId))
      {
        UnfinishedStep(before, e, i);
      }
      StillUnfinished(before, e, log);
    }
  }

  lemma {:induction false} NothingYet()
    ensures Starts([]) == {} && PhaseOf([]) == Closed(0) && forall i :: !Unfinished([], i)
  {
  }

  lemma {:induction false} BeforeLast(log: seq<Event>, before: seq<Event>, e: Event)
    requires WellGrouped(log) && log == before + [e]
    ensures WellGrouped(before) && PhaseOf(before) != Broken && PhaseOf(log) == Step(PhaseOf(before), e) != Broken
  {
    assert log[..|before|] == before && log[..|log|] == log;
    StepFacts(log, |before|);
    PrefixGrouped(log, |before|);
  }

  lemma {:induction false} StillUnfinished(before: seq<Event>, e: Event, log: seq<Event>)
    requires log == before + [e] && PhaseOf(before) != Broken && Step(PhaseOf(before), e) != Broken
    requires PhaseOf(before).Open? ==> exists i :: Unfinished(before, i)
    requires forall i :: Unfinished(before, i) ==> PhaseOf(before).Open? && before[i].groupId == Some(PhaseOf(before).id)
    requires forall i :: Unfinished(log, i) <==>
               || (i == |before| && e.kind == ReorgStarted)
               || (Unfinished(before, i) && !(e.kind == ReorgFinished && e.groupId == before[i].groupId))
    ensures Step(PhaseOf(before), e).Closed? <==> forall i :: !Unfinished(log, i)
    ensures forall i :: Unfinished(log, i) ==>
              Step(PhaseOf(before), e).Open? && log[i].groupId == Some(Step(PhaseOf(before), e).id)
  {
    hide PhaseOf, Unfinished;
    forall i | Unfinished(before, i)
      ensures 0 <= i < |before| && log[i] == before[i]
    {
      UnfinishedStep(before, e, i);
    }
    if e.kind == ReorgStarted {
      assert Unfinished(log, |before|);
    } else if PhaseOf(before).Open? {
      var i :| Unfinished(before, i);
      assert e.kind != ReorgFinished ==> Unfinished(log, i);
    }
  }

  lemma {:induction false} NotRecorded(log: seq<Event>, kind: EventType, e: Event, e': Event)
    requires Recorded(log, kind, false, e)
    ensures Recorded(log, kind, false, e')
  {
    hide Unfinished, Starts;
  }

  lemma {:induction false} RecordedExactly(log: seq<Event>, kind: EventType)
    requires WellGrouped(log)
    ensures Recorded(log, kind, Allowed(PhaseOf(log), kind), NextEvent(PhaseOf(log), |log|, kind))
  {
    hide PhaseOf, Unfinished, Starts;
    PhaseSays(log);
    assert PhaseOf(log) != Broken;
  }

  lemma {:induction false} AppendGrouped(events: seq<Event>, kind: EventType)
    requires WellGrouped(events) && Allowed(PhaseOf(events), kind)
    ensures var e := NextEvent(PhaseOf(events), |events|, kind);
            && WellGrouped(events + [e])
            && LastGroup(PhaseOf(events + [e])) == if e.groupId.Some? then e.groupId else LastGroup(PhaseOf(events))
  {
    var e := NextEvent(PhaseOf(events), |events|, kind);
    assert (events + [e])[..|events|] == events;
    assert PhaseOf(events + [e]) == Step(PhaseOf(events), e);
  }

  /** Saving the event at position `n` of a well-grouped log. */
  lemma {:induction false} SaveNext(log: seq<Event>, n: nat)
    requires WellGrouped(log) && n < |log|
    ensures WellGrouped(log[..n + 1]) && log[n].id == n && log[..n + 1] == log[..n] + [log[n]]
    ensures n > 0 ==> log[..n][n - 1].id + 1 == n
    ensures LastGroup(PhaseOf(log[..n + 1])) == if log[n].groupId.Some? then log[n].groupId else LastGroup(PhaseOf(log[..n]))
  {
    PrefixGrouped(log, n + 1);
    StepFacts(log, n);
  }

  class EventManager {
    const storage: EventStorage
    var running: bool
    var previousNodeState: Option<NodeState>
    var lastEvent: Option<Event>
    var lastExistingGroupId: Option<nat>

    constructor (storage: EventStorage)
      ensures this.storage == storage && !running && lastEvent == None && lastExistingGroupId == None
      ensures previousNodeState == None
    {
      this.storage := storage;
      running, previousNodeState, lastEvent, lastExistingGroupId := false, None, None, None;
    }

    /** The manager remembers what the log says, with `pending` events created but not saved yet. */
    ghost predicate InStep(pending: seq<Event>)
      reads this, storage
    {
      var log := storage.events + pending;
      && WellGrouped(log)
      && lastEvent == (if log == [] then None else Some(log[|log| - 1]))
      && lastExistingGroupId == LastGroup(PhaseOf(log))
    }

    predicate EventGroupIsClosed()
      reads this
    {
      lastEvent == None || lastEvent.value.groupId == None || lastEvent.value.kind == ReorgFinished
    }

    predicate ShouldReloadEvents()
      reads this
    {
      previousNodeState == None || previousNodeState == Some(Load)
    }

    /** A manager starts: it clears the log before a reload, or resumes it, which needs every group
        closed. After a reload it is in step exactly if it had no memory of earlier events. */
    method Start() returns (r: Outcome)
      requires storage.Valid() && !running
      modifies this, storage
      ensures storage.Valid() && storage.nodeState == old(storage.nodeState)
      ensures r.Done? ==> running && previousNodeState == storage.nodeState
      ensures storage.nodeState != Some(Sync) ==>
                storage.events == [] && lastEvent == old(lastEvent) && (r.Done? <==> old(EventGroupIsClosed()))
      ensures r.Done? && ShouldReloadEvents() ==>
                (InStep([]) <==> old(lastEvent) == None && old(lastExistingGroupId) == None)
      ensures storage.nodeState == Some(Sync) ==>
                && storage.events == old(storage.events)
                && (r.Done? <==> forall i :: !Unfinished(storage.events, i))
                && (r.Done? ==> InStep([]))
    {
      previousNodeState := storage.nodeState;
      assert storage.nodeState.Some? ==> storage.nodeState.value.Load? || storage.nodeState.value.Sync?;
      if ShouldReloadEvents() {
        storage.ResetEvents();
        assert storage.events + [] == [];
      } else {
        lastEvent := storage.lastEvent;
        lastExistingGroupId := storage.lastGroupId;
        assert storage.events + [] == storage.events;
        ClosedIff(storage.events, lastEvent);
        PhaseSays(storage.events);
      }
      if !EventGroupIsClosed() {
        return AssertionFailed;
      }
      running := true;
      return Done;
    }

    method Stop()
      requires running
      modifies this`running
      ensures !running
    {
      running := false;
    }

    function NextId(): nat
      reads this
    {
      if lastEvent == None then 0 else lastEvent.value.id + 1
    }

    /** Creates the next event of a kind, or fails if no group may start or end here. */
    method CreateEvent(kind: EventType, ghost pending: seq<Event>) returns (r: Outcome, e: Event)
      modifies this`lastExistingGroupId
      ensures r.Done? || r.AssertionFailed?
      ensures r.Done? ==> e.id == NextId() && e.kind == kind
      ensures !r.Done? ==> lastExistingGroupId == old(lastExistingGroupId)
      ensures kind != ReorgStarted && kind != ReorgFinished ==> r.Done?
      ensures old(InStep(pending)) ==>
                && (r.Done? <==> Allowed(PhaseOf(storage.events + pending), kind))
                && (r.Done? ==>
                      && e == NextEvent(PhaseOf(storage.events + pending), |storage.events + pending|, kind)
                      && WellGrouped(storage.events + pending + [e])
                      && lastExistingGroupId == LastGroup(PhaseOf(storage.events + pending + [e])))
                && Recorded(storage.events + pending, kind, r.Done?, e)
    {
      hide PhaseOf, WellGrouped, Recorded;
      ghost var log := storage.events + pending;
      if InStep(pending) {
        ClosedIff(log, lastEvent);
        RecordedExactly(log, kind);
        if Allowed(PhaseOf(log), kind) {
          AppendGrouped(log, kind);
        }
      }
      e := Event(NextId(), kind, None);
      if InStep(pending) && !Allowed(PhaseOf(log), kind) {
        NotRecorded(log, kind, NextEvent(PhaseOf(log), |log|, kind), e);
      }
      if kind == ReorgStarted {
        if !EventGroupIsClosed() {
          return AssertionFailed, e;
        }
        var newGroupId := if lastExistingGroupId == None then 0 else lastExistingGroupId.value + 1;
        lastExistingGroupId := Some(newGroupId);
        e := Event(NextId(), kind, Some(newGroupId));
      } else if kind == ReorgFinished {
        if lastEvent == None || EventGroupIsClosed() {
          return AssertionFailed, e;
        }
        e := Event(NextId(), kind, lastEvent.value.groupId);
      } else {
        var groupId := if EventGroupIsClosed() then None else lastEvent.value.groupId;
        e := Event(NextId(), kind, groupId);
      }
      return Done, e;
    }

    /** In step with the log, or ahead of it so that the storage refuses whatever comes next. */
    ghost predicate InStepOrAhead()
      reads this, storage
    {
      InStep([]) || NextId() > |storage.events|
    }

    /** Handles one event of a running manager. In step with the log, the event is appended exactly
        when its kind is allowed there; ahead of the log, the storage refuses it. */
    method HandleEvent(kind: EventType) returns (r: Outcome)
      requires running && storage.Valid()
      modifies this, storage
      ensures running && storage.nodeState == old(storage.nodeState) && previousNodeState == old(previousNodeState)
      ensures old(InStepOrAhead()) ==> storage.Valid() && InStepOrAhead()
      ensures !r.Done? ==> storage.events == old(storage.events) && storage.Valid() && lastEvent == old(lastEvent)
      ensures old(InStep([])) ==>
                && InStep([]) && storage.Valid()
                && (r.Done? <==> Allowed(PhaseOf(old(storage.events)), kind))
                && (r.Done? || r.AssertionFailed?)
                && (r.Done? ==> storage.events == old(storage.events) +
                                  [NextEvent(PhaseOf(old(storage.events)), |old(storage.events)|, kind)])
                && Recorded(old(storage.events), kind, r.Done?,
                            if r.Done? then storage.events[|old(storage.events)|] else Event(0, kind, None))
      ensures old(NextId()) != |old(storage.events)| ==> !r.Done?
      ensures old(NextId()) != |old(storage.events)| && kind != ReorgStarted && kind != ReorgFinished ==> r.ValueError?
    {
      hide WellGrouped, PhaseOf, LastGroup, Unfinished, Starts;
      StoredIds(storage.events, storage.lastEvent);
      assert storage.events + [] == storage.events;
      var e;
      r, e := CreateEvent(kind, []);
      if !r.Done? {
        return;
      }
      ghost var log := storage.events + [e];
      if old(InStep([])) {
        assert log == storage.events + [] + [e] && log[..|storage.events|] == storage.events && log[..|log|] == log;
        SaveNext(log, |storage.events|);
      }
      r := storage.SaveEvent(e);
      if r.Done? {
        lastEvent := Some(e);
      }
      assert storage.events + [] == storage.events;
    }

    method LoadStarted() returns (r: Outcome)
      requires running && storage.Valid() && InStep([])
      modifies this, storage
      ensures storage.Valid() && InStep([]) && running
      ensures r.Done? && storage.nodeState == Some(Load) && previousNodeState == old(previousNodeState)
      ensures storage.events == old(storage.events) +
                [NextEvent(PhaseOf(old(storage.events)), |old(storage.events)|, EventType.LoadStarted)]
    {
      r := HandleEvent(EventType.LoadStarted);
      storage.nodeState := Some(Load);
      assert storage.events + [] == storage.events;
    }

    method LoadFinished() returns (r: Outcome)
      requires running && storage.Valid() && InStep([])
      modifies this, storage
      ensures storage.Valid() && InStep([]) && running
      ensures r.Done? && storage.nodeState == Some(Sync) && previousNodeState == old(previousNodeState)
      ensures storage.events == old(storage.events) +
                [NextEvent(PhaseOf(old(storage.events)), |old(storage.events)|, EventType.LoadFinished)]
    {
      r := HandleEvent(EventType.LoadFinished);
      storage.nodeState := Some(Sync);
      assert storage.events + [] == storage.events;
    }

    /** Saves a batch, one event after the other. */
    method SaveEvents(batch: seq<Event>) returns (r: Outcome)
      requires storage.Valid() && WellGrouped(storage.events + batch)
      modifies storage
      ensures r.Done? && storage.Valid() && storage.events == old(storage.events) + batch
      ensures storage.nodeState == old(storage.nodeState)
    {
      hide WellGrouped, PhaseOf, LastGroup;
      ghost var log, m := storage.events + batch, |storage.events|;
      var i := 0;
      assert log[..m] == storage.events;
      while i < |batch|
        invariant 0 <= i <= |batch|
        invariant storage.Valid() && storage.events == log[..m + i]
        invariant storage.nodeState == old(storage.nodeState)
      {
        SaveNext(log, m + i);
        assert log[m + i] == batch[i];
        r := storage.SaveEvent(batch[i]);
        assert r.Done?;
        i := i + 1;
      }
      assert log[..m + i] == log;
      r := Done;
    }

    /** The load phase creates one event for each vertex and saves them in batches; the manager
        moves on to the next vertex only after a full batch is saved. If the process is interrupted at
        some vertex, or after all of them, the full batches before are stored and the rest is lost. */
    method HandleLoadPhaseVertices(vertices: nat, interrupt: Option<nat>) returns (r: Outcome)
      requires running && storage.Valid() && InStep([])
      modifies this, storage
      ensures storage.Valid() && InStepOrAhead() && running && storage.nodeState == old(storage.nodeState)
      ensures r.Done? || r.Interrupted?
      ensures r.Interrupted? <==> old(ShouldReloadEvents()) && interrupt.Some? && interrupt.value <= vertices
      ensures r.Done? ==> InStep([])
      ensures r.Done? ==> |storage.events| == |old(storage.events)| + if old(ShouldReloadEvents()) then vertices else 0
      ensures r.Interrupted? ==>
                |storage.events| == |old(storage.events)| + interrupt.value - interrupt.value % LOAD_EVENTS_PER_BATCH
      ensures old(storage.events) <= storage.events
      ensures Loaded(storage.events, |old(storage.events)|)
      ensures r.Interrupted? ==> if interrupt.value % LOAD_EVENTS_PER_BATCH == 0 then InStep([]) else NextId() > |storage.events|
    {
      hide WellGrouped, PhaseOf, LastGroup, Recorded, Unfinished, Starts, NextEvent, Loaded;
      assert Loaded(storage.events, |storage.events|) by { LoadedNothing(storage.events); }
      r := Done;
      if !ShouldReloadEvents() {
        return;
      }
      var batch: seq<Event> := [];
      assert storage.events + batch == storage.events;
      var i := 0;
      while i < vertices
        invariant 0 <= i <= vertices && running && storage.nodeState == old(storage.nodeState)
        invariant storage.Valid() && InStep(batch) && r.Done?
        invariant interrupt.Some? && interrupt.value <= vertices ==> i <= interrupt.value
        invariant |batch| == i % LOAD_EVENTS_PER_BATCH
        invariant old(storage.events) <= storage.events
        invariant |storage.events| + |batch| == |old(storage.events)| + i
        invariant Loaded(storage.events + batch, |old(storage.events)|)
      {
        if interrupt == Some(i) {
          AheadOf(batch);
          LoadedPrefix(storage.events, batch, |old(storage.events)|);
          return Interrupted;
        }
        var e;
        ghost var log := storage.events + batch;
        r, e := CreateEvent(NewVertexAccepted, batch);
        batch := batch + [e];
        assert storage.events + batch == log + [e];
        LoadedStep(log, |old(storage.events)|, e);
        if |batch| >= LOAD_EVENTS_PER_BATCH {
          r := SaveEvents(batch);
          batch := [];
          assert storage.events + batch == log + [e];
        }
        lastEvent := Some(e);
        i := i + 1;
      }
      LoadedPrefix(storage.events, batch, |old(storage.events)|);
      if interrupt == Some(vertices) {
        AheadOf(batch);
        return Interrupted;
      }
      r := SaveEvents(batch);
      assert storage.events + [] == storage.events;
    }

    /** With events pending, the manager is ahead of the log. */
    lemma {:induction false} AheadOf(pending: seq<Event>)
      requires InStep(pending)
      ensures InStepOrAhead()
      ensures if pending == [] then InStep([]) else NextId() > |storage.events|
    {
      var log := storage.events + pending;
      if pending != [] {
        assert log[|log| - 1].id == |log| - 1;
      }
    }

    /** What a started manager does until the process stops. */
    method Proceed(session: Session)
      requires running && storage.Valid() && InStep([])
      modifies this, storage
      ensures running && storage.Valid()
      ensures if BatchLost(session, old(ShouldReloadEvents())) then NextId() > |storage.events| else InStep([])
      ensures storage.nodeState == StateAfter(session, old(ShouldReloadEvents()), old(storage.nodeState))
      ensures Follows(old(storage.events), Planned(session, old(ShouldReloadEvents())), storage.events)
    {
      hide WellGrouped, PhaseOf, LastGroup, Appended, Follows, Unfinished, Starts, Loaded, Recorded, NextEvent;
      ghost var log, reload := storage.events, ShouldReloadEvents();
      ghost var kinds: seq<EventType> := [];
      AppendedNothing(log);
      if session.stop.AtStart? {
        FollowsAll(log, [], storage.events);
        return;
      }
      var r;
      AppendedNext(log, EventType.LoadStarted);
      if session.stop.InLoadStarted? {
        r := HandleEvent(EventType.LoadStarted);
        AlwaysAllowed(log, EventType.LoadStarted);
        FollowsAll(log, [EventType.LoadStarted], storage.events);
        return;
      }
      r := LoadStarted();
      if session.stop.AfterLoadStarted? {
        FollowsAll(log, [EventType.LoadStarted], storage.events);
        return;
      }
      ghost var loading := storage.events;
      r := HandleLoadPhaseVertices(session.vertices, if session.stop.InLoad? then Some(session.stop.vertex) else None);
      kinds := [EventType.LoadStarted] + Vertices(|storage.events| - |loading|);
      LoadedAppended(loading, storage.events);
      AppendedThen(log, [EventType.LoadStarted], loading, Vertices(|storage.events| - |loading|), storage.events);
      if r.Interrupted? {
        FollowsAll(log, kinds, storage.events);
        return;
      }
      ghost var loaded := storage.events;
      AppendedNext(loaded, EventType.LoadFinished);
      AlwaysAllowed(loaded, EventType.LoadFinished);
      if session.stop.InLoadFinished? {
        r := HandleEvent(EventType.LoadFinished);
        AppendedThen(log, kinds, loaded, [EventType.LoadFinished], storage.events);
        FollowsAll(log, kinds + [EventType.LoadFinished], storage.events);
        return;
      }
      r := LoadFinished();
      AppendedThen(log, kinds, loaded, [EventType.LoadFinished], storage.events);
      kinds := kinds + [EventType.LoadFinished];
      HandleKinds(session.kinds, log, kinds);
    }

    /** Handles events up to the first that cannot be recorded. */
    method HandleKinds(kinds: seq<EventType>, ghost log: seq<Event>, ghost done: seq<EventType>)
      requires running && storage.Valid() && InStep([]) && Appended(log, done, storage.events)
      modifies this, storage
      ensures running && storage.Valid() && InStep([]) && storage.nodeState == old(storage.nodeState)
      ensures Follows(log, done + kinds, storage.events)
    {
      hide WellGrouped, PhaseOf, LastGroup, Appended, Unfinished, Starts, NextEvent, Recordable, Follows, Recorded;
      var i, r := 0, Done;
      assert done + kinds[..0] == done;
      while i < |kinds|
        invariant 0 <= i <= |kinds|
        invariant running && storage.Valid() && InStep([]) && storage.nodeState == old(storage.nodeState)
        invariant Appended(log, done + kinds[..i], storage.events)
      {
        ghost var before := storage.events;
        r := HandleEvent(kinds[i]);
        Outcomes(before, kinds[i], r.Done?, if r.Done? then storage.events[|before|] else Event(0, kinds[i], None));
        if !r.Done? {
          assert (done + kinds)[..|done| + i] == done + kinds[..i];
          FollowsUpTo(log, done + kinds, |done| + i, storage.events);
          return;
        }
        AppendedOne(before, kinds[i], storage.events[|before|]);
        assert storage.events == before + [storage.events[|before|]];
        AppendedThen(log, done + kinds[..i], before, [kinds[i]], storage.events);
        assert done + kinds[..i] + [kinds[i]] == done + kinds[..i + 1];
        i := i + 1;
      }
      assert done + kinds[..i] == done + kinds;
      FollowsAll(log, done + kinds, storage.events);
    }
  }

  // ----- what a session leaves -----

  /** One event of each of the kinds, in their order, was appended. */
  ghost predicate Appended(before: seq<Event>, kinds: seq<EventType>, after: seq<Event>) {
    && |after| == |before| + |kinds| && before <= after
    && forall k :: |before| <= k < |after| ==> after[k].kind == kinds[k - |before|]
  }

  /** A group can start while none is unfinished, and finish while one is. */
  ghost predicate Recordable(log: seq<Event>, kind: EventType) {
    && (kind == ReorgStarted ==> forall i :: !Unfinished(log, i))
    && (kind == ReorgFinished ==> exists i :: Unfinished(log, i))
  }

  /** Events of the kinds were appended, up to the first that could not be. */
  ghost predicate Follows(before: seq<Event>, kinds: seq<EventType>, after: seq<Event>) {
    exists m: nat :: m <= |kinds| && Appended(before, kinds[..m], after) && (m < |kinds| ==> !Recordable(after, kinds[m]))
  }

  function Vertices(n: nat): seq<EventType> {
    seq(n, _ => NewVertexAccepted)
  }

  /** The process is interrupted with events created and not saved. */
  predicate BatchLost(session: Session, reload: bool) {
    && session.stop.InLoad? && reload && session.stop.vertex <= session.vertices
    && session.stop.vertex % LOAD_EVENTS_PER_BATCH != 0
  }

  /** The kinds of the events that a session is to record before it stops. */
  function Planned(session: Session, reload: bool): seq<EventType> {
    var vertices := if reload then session.vertices else 0;
    match session.stop
    case AtStart => []
    case InLoadStarted => [EventType.LoadStarted]
    case AfterLoadStarted => [EventType.LoadStarted]
    case InLoadFinished => [EventType.LoadStarted] + Vertices(vertices) + [EventType.LoadFinished]
    case AfterEvents => [EventType.LoadStarted] + Vertices(vertices) + [EventType.LoadFinished] + session.kinds
    case InLoad(v) =>
      if reload && v <= vertices then [EventType.LoadStarted] + Vertices(v - v % LOAD_EVENTS_PER_BATCH)
      else [EventType.LoadStarted] + Vertices(vertices) + [EventType.LoadFinished] + session.kinds
  }

  /** The state that is saved when it stops. */
  function StateAfter(session: Session, reload: bool, state: Option<NodeState>): Option<NodeState> {
    match session.stop
    case AtStart => state
    case InLoadStarted => state
    case AfterLoadStarted => Some(Load)
    case InLoadFinished => Some(Load)
    case AfterEvents => Some(Sync)
    case InLoad(v) => if reload && v <= session.vertices then Some(Load) else Some(Sync)
  }

  /** A session starts unless it would resume a log with an unfinished group; a reload begins with an empty log.
      A crash is recorded, unless created events were lost. */
  ghost predicate SessionStep(log: seq<Event>, state: Option<NodeState>, session: Session, log': seq<Event>,
                              state': Option<NodeState>)
  {
    var reload := state != Some(Sync);
    if !reload && exists i :: Unfinished(log, i) then log' == log && state' == state
    else
      && state' == StateAfter(session, reload, state)
      && exists mid, crash :: && Follows(if reload then [] else log, Planned(session, reload), mid)
                              && Appended(mid, crash, log')
                              && crash == if session.crashed && !BatchLost(session, reload) then [FullNodeCrashed] else []
  }

  lemma {:induction false} AppendedNothing(log: seq<Event>)
    ensures Appended(log, [], log)
  {
  }

  lemma {:induction false} AppendedOne(log: seq<Event>, kind: EventType, e: Event)
    ensures e.kind == kind ==> Appended(log, [kind], log + [e])
  {
  }

  lemma {:induction false} AppendedNext(log: seq<Event>, kind: EventType)
    ensures Appended(log, [kind], log + [NextEvent(PhaseOf(log), |log|, kind)])
  {
    hide PhaseOf;
  }

  lemma {:induction false} AppendedThen(a: seq<Event>, k: seq<EventType>, b: seq<Event>, l: seq<EventType>, c: seq<Event>)
    requires Appended(a, k, b) && Appended(b, l, c)
    ensures Appended(a, k + l, c)
  {
    forall i | |a| <= i < |c|
      ensures c[i].kind == (k + l)[i - |a|]
    {
      assert i < |b| ==> c[i] == b[i];
    }
  }

  lemma {:induction false} LoadedAppended(before: seq<Event>, after: seq<Event>)
    requires before <= after && Loaded(after, |before|)
    ensures Appended(before, Vertices(|after| - |before|), after)
  {
  }

  lemma {:induction false} FollowsAll(before: seq<Event>, kinds: seq<EventType>, after: seq<Event>)
    requires Appended(before, kinds, after)
    ensures Follows(before, kinds, after)
  {
    hide Appended;
    assert kinds[..|kinds|] == kinds;
  }

  lemma {:induction false} FollowsUpTo(before: seq<Event>, kinds: seq<EventType>, m: nat, after: seq<Event>)
    requires m < |kinds| && Appended(before, kinds[..m], after) && !Recordable(after, kinds[m])
    ensures Follows(before, kinds, after)
  {
  }

  lemma {:induction false} Outcomes(log: seq<Event>, kind: EventType, done: bool, e: Event)
    requires Recorded(log, kind, done, e)
    ensures done <==> Recordable(log, kind)
    ensures done ==> e.kind == kind
  {
    hide Unfinished, Starts;
  }

  lemma {:induction false} AlwaysAllowed(log: seq<Event>, kind: EventType)
    requires kind != ReorgStarted && kind != ReorgFinished
    ensures Allowed(PhaseOf(log), kind)
  {
  }

  /** From `n` on, the log holds the vertices of a load phase. */
  ghost predicate Loaded(log: seq<Event>, n: nat) {
    forall k :: n <= k < |log| ==> log[k].kind == NewVertexAccepted
  }

  lemma {:induction false} LoadedNothing(log: seq<Event>)
    ensures Loaded(log, |log|)
  {
  }

  lemma {:induction false} LoadedStep(log: seq<Event>, n: nat, e: Event)
    requires Loaded(log, n) && e.kind == NewVertexAccepted
    ensures Loaded(log + [e], n)
  {
  }

  lemma {:induction false} LoadedPrefix(log: seq<Event>, batch: seq<Event>, n: nat)
    requires Loaded(log + batch, n)
    ensures Loaded(log, n)
  {
    assert forall k :: 0 <= k < |log| ==> (log + batch)[k] == log[k];
  }

  /**
   Where a process stops: when it has started, with the load event saved but not the state, when
   loading has started, at a vertex of the load phase, with the end of the load saved but not the
   state, or after its events, of which there may be any number.
   */
  datatype Stop = AtStart | InLoadStarted | AfterLoadStarted | InLoad(vertex: nat) | InLoadFinished | AfterEvents

  /** One process: a load phase and then events, up to where it stops; a crash may get a last event. */
  datatype Session = Session(vertices: nat, kinds: seq<EventType>, stop: Stop, crashed: bool)

  /** Any number of managers in turn on one storage, each of them new; `logs` and `states` are what each leaves. */
  method RunSessions(storage: EventStorage, sessions: seq<Session>)
    returns (ghost logs: seq<seq<Event>>, ghost states: seq<Option<NodeState>>)
    requires storage.Valid()
    modifies storage
    ensures storage.Valid()
    ensures |logs| == |states| == |sessions| + 1
    ensures logs[0] == old(storage.events) && states[0] == old(storage.nodeState)
    ensures logs[|sessions|] == storage.events && states[|sessions|] == storage.nodeState
    ensures forall i :: 0 <= i < |sessions| ==> SessionStep(logs[i], states[i], sessions[i], logs[i + 1], states[i + 1])
  {
    hide SessionStep;
    logs, states := [storage.events], [storage.nodeState];
    var i := 0;
    while i < |sessions|
      invariant 0 <= i <= |sessions| && |logs| == |states| == i + 1
      invariant storage.Valid() && logs[i] == storage.events && states[i] == storage.nodeState
      invariant logs[0] == old(storage.events) && states[0] == old(storage.nodeState)
      invariant forall k :: 0 <= k < i ==> SessionStep(logs[k], states[k], sessions[k], logs[k + 1], states[k + 1])
    {
      var manager := new EventManager(storage);
      var _ := RunSession(manager, sessions[i]);
      logs, states := logs + [storage.events], states + [storage.nodeState];
      i := i + 1;
    }
  }

  /** A session starts unless it would resume a log with an open group. */
  method RunSession(manager: EventManager, session: Session) returns (started: bool)
    requires manager.storage.Valid() && !manager.running
    requires manager.lastEvent == None && manager.lastExistingGroupId == None
    modifies manager, manager.storage
    ensures manager.storage.Valid()
    ensures started <==> old(manager.storage.nodeState) != Some(Sync) || forall i :: !Unfinished(old(manager.storage.events), i)
    ensures SessionStep(old(manager.storage.events), old(manager.storage.nodeState), session,
                        manager.storage.events, manager.storage.nodeState)
  {
    hide WellGrouped, PhaseOf, LastGroup, Follows, Planned, Appended, Unfinished, Starts, Recorded, NextEvent;
    var state := manager.storage.nodeState;
    assert state.Some? ==> state.value.Load? || state.value.Sync?;
    var r := manager.Start();
    started := r.Done?;
    if started {
      ghost var reload := manager.ShouldReloadEvents();
      manager.Proceed(session);
      ghost var log := manager.storage.events;
      AppendedNothing(log);
      AlwaysAllowed(log, FullNodeCrashed);
      if session.crashed {
        r := manager.HandleEvent(FullNodeCrashed);
        if r.Done? {
          AppendedNext(log, FullNodeCrashed);
        }
      }
      assert Appended(log, if session.crashed && !BatchLost(session, reload) then [FullNodeCrashed] else [], manager.storage.events);
    }
  }

  /** A manager that is started a second time before the load has finished keeps its memory of a log
      that is gone: it starts, is out of step, and its next event is refused. */
  method RestartSameManager() returns (manager: EventManager, restarted: Outcome, next: Outcome)
    ensures restarted.Done? && !manager.InStep([]) && next.ValueError?
  {
    hide Unfinished, Recorded, Starts;
    var storage := new EventStorage();
    manager := new EventManager(storage);
    var r := manager.Start();
    r := manager.LoadStarted();
    manager.Stop();
    restarted := manager.Start();
    next := manager.HandleEvent(EventType.LoadStarted);
  }

  lemma {:induction false} StoredIds(events: seq<Event>, last: Option<Event>)
    requires WellGrouped(events)
    requires last == if events == [] then None else Some(events[|events| - 1])
    ensures last.Some? ==> last.value.id + 1 == |events|
  {
  }

  /** The test on the last event says whether the log has an open group. */
  lemma {:induction false} ClosedIff(events: seq<Event>, last: Option<Event>)
    requires WellGrouped(events)
    requires last == if events == [] then None else Some(events[|events| - 1])
    ensures PhaseOf(events) != Broken
    ensures (last == None || last.value.groupId == None || last.value.kind == ReorgFinished) <==> PhaseOf(events).Closed?
    ensures last.Some? && PhaseOf(events).Open? ==> last.value.groupId == Some(PhaseOf(events).id)
    ensures last.Some? ==> last.value.id + 1 == |events|
  {
    if events != [] {
      StepFacts(events, |events| - 1);
      assert events[..|events|] == events;
    }
  }
}
