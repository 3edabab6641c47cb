/** Whole runs of the plugin manager and what holds after each of them. */
module PluginRuns {
  import opened DependencyGraph
  import opened PluginModel
  import opened PluginSafety
  import opened PluginSweep

  datatype Event =
    | LoadEvent(directory: Id, attempt: Attempt, reread: Option<Manifest>)
    | UnloadEvent(id: Id, first: Cleanup, second: Cleanup)
    | ReloadEvent(id: Id, active: bool, attempt: Attempt, first: Cleanup, second: Cleanup)
    | PauseEvent(id: Id, active: bool, cleared: bool)
    | ResumeEvent(id: Id, cleared: bool)
    | RetryEvent(id: Id, attempt: Attempt, reread: Option<Manifest>)
    | UnloadAllEvent(order: seq<Id>, cleanups: Cleanups)
    | FaultEvent(faults: Faults)
    | DiscoverEvent(directory: Id, content: Option<Manifest>)
    | RecordEvent(directory: Id, content: Option<Manifest>)

  ghost function Step(s: State, event: Event): State {
    match event
    case LoadEvent(directory, attempt, reread) => Load(s, directory, attempt, reread).0
    case UnloadEvent(id, first, second) => Unload(s, id, first, second).0
    case ReloadEvent(id, active, attempt, first, second) => Reload(s, id, active, attempt, first, second).0
    case PauseEvent(id, active, cleared) => Pause(s, id, active, cleared).0
    case ResumeEvent(id, cleared) => Resume(s, id, cleared).0
    case RetryEvent(id, attempt, reread) => Retry(s, id, attempt, reread).0
    case UnloadAllEvent(order, cleanups) => if Covers(order, s.slots) then UnloadAll(s, order, cleanups).state else s
    case FaultEvent(faults) => s.(slots := Fault(s.slots, faults))
    case DiscoverEvent(directory, content) => Discover(s, directory, content)
    case RecordEvent(directory, content) => RecordFailure(s, directory, content)
  }

  ghost function Run(s: State, events: seq<Event>): State
    decreases |events|
  {
    if events == [] then s else Run(Step(s, events[0]), events[1..])
  }

  const Empty := State(map[], 1)

  lemma StepKeepsInv(s: State, event: Event)
    requires Inv(s)
    ensures Inv(Step(s, event))
  {
    hide Inv, Load, Unload, Reload, Pause, Resume, UnloadAll, Fault, Discover, RecordFailure, Alive, Explained, DependentsFirst;
    match event
    case LoadEvent(directory, attempt, reread) => LoadKeepsInv(s, directory, attempt, reread);
    case UnloadEvent(id, first, second) => UnloadKeepsInv(s, id, first, second);
    case ReloadEvent(id, active, attempt, first, second) => ReloadKeepsInv(s, id, active, attempt, first, second);
    case PauseEvent(id, active, cleared) => PauseKeepsInv(s, id, active, cleared);
    case ResumeEvent(id, cleared) => ResumeKeepsInv(s, id, cleared);
    case RetryEvent(id, attempt, reread) => LoadKeepsInv(s, id, attempt, reread);
    case UnloadAllEvent(order, cleanups) => if Covers(order, s.slots) { UnloadAllIsOrderly(s, order, cleanups); }
    case FaultEvent(faults) => FaultKeepsInv(s, faults);
    case DiscoverEvent(directory, content) => DiscoverKeepsInv(s, directory, content);
    case RecordEvent(directory, content) => RecordKeepsInv(s, directory, content);
  }

  lemma {:induction false} RunKeepsInv(s: State, events: seq<Event>)
    requires Inv(s)
    ensures Inv(Run(s, events))
    decreases |events|
  {
    hide Inv, Step;
    if events != [] {
      StepKeepsInv(s, events[0]);
      RunKeepsInv(Step(s, events[0]), events[1..]);
    }
  }

  lemma EmptyInv()
    ensures Inv(Empty)
  {
    var g := Edges(Empty.slots);
    forall x ensures !Reaches(g, x, x) {
      if Reaches(g, x, x) { ReachesHasEdge(g, x, x); }
    }
  }

  lemma ReachesHasEdge(g: Graph, a: Id, b: Id)
    requires Reaches(g, a, b)
    ensures g != {}
  {
    var p :| Links(g, p, a, b) && |p| >= 2;
    assert (p[0], p[1]) in g;
  }

  /** Either loaded script of a slot. */
  predicate LoadedIn(s: State, id: Id, script: Script) {
    id in s.slots && script.loaded
    && (script == s.slots[id].current || s.slots[id].replacement == Some(script))
  }

  /**
    * After any run the loaded scripts form no cycle; whatever a loaded script needs is loaded at
    * a sufficient version; and it is not paused, disabled or failed when the script runs.
    */
  lemma DependencySafety(events: seq<Event>, id: Id, script: Script, need: Id)
    ensures var s := Run(Empty, events);
            && Acyclic(Edges(s.slots))
            && (LoadedIn(s, id, script) && need in script.manifest.needs ==>
                  && (id, need) in Edges(s.slots)
                  && need in s.slots
                  && s.slots[need].current.loaded
                  && Number(script.manifest.needs[need]) <= Number(s.slots[need].current.manifest.version)
                  && (script.phase in {Running, Loading} ==> s.slots[need].current.phase in {Running, Retiring}))
  {
    EmptyInv();
    RunKeepsInv(Empty, events);
    var s := Run(Empty, events);
    hide Run, Acyclic;
    if LoadedIn(s, id, script) && need in script.manifest.needs {
      assert SlotOk(s.slots, id, s.slots[id]);
      assert Served(s.slots, script.manifest, Active(script));
      BelowIsByNumber(s.slots[need].current.manifest.version, script.manifest.needs[need]);
    }
  }

  /** A reload never costs the server a plugin: the old script stays until the new one is ready. */
  lemma ReloadKeepsThePlugin(events: seq<Event>, id: Id, active: bool, attempt: Attempt, first: Cleanup, second: Cleanup)
    requires id in Run(Empty, events).slots && Run(Empty, events).slots[id].current.loaded
    ensures var s := Run(Empty, events);
            var (after, done) := Reload(s, id, active, attempt, first, second);
            && id in after.slots && after.slots[id].current.loaded
            && (!done ==> after.slots[id].current.manifest == s.slots[id].current.manifest)
            && (done ==> after.slots[id].replacement.None? && after.slots[id].current.phase in {Running, Paused})
            && (done && s.slots[id].replacement.None? ==>
                  && after.slots[id].current.manifest == attempt.content.value
                  && (after.slots[id].current.phase == Paused <==> s.slots[id].current.phase == Paused))
  {
    EmptyInv();
    RunKeepsInv(Empty, events);
    var s := Run(Empty, events);
    hide Run, Accepts, Acyclic, Edges;
    assert SlotOk(s.slots, id, s.slots[id]);
    hide SlotsOk, ScriptOk;
    if !active {
      if s.slots[id].replacement.None? {
        PreparedReplacement(s, id, attempt, first, second);
      } else if s.slots[id].replacement.value.phase == Loading {
        SwappedSlot(s, id, second);
      }
    }
  }

  /** What a swap does to its own slot. */
  lemma SwappedSlot(s: State, id: Id, cleanup: Cleanup)
    requires id in s.slots && s.slots[id].replacement.Some? && s.slots[id].replacement.value.loaded
    ensures var (after, done) := Swap(s, id, cleanup);
            && id in after.slots
            && (!done ==> after.slots[id].current.manifest == s.slots[id].current.manifest
                          && after.slots[id].current.loaded == s.slots[id].current.loaded)
            && (done ==> && after.slots[id].replacement.None?
                         && after.slots[id].current.loaded
                         && after.slots[id].current.phase == s.slots[id].resumeAs
                         && after.slots[id].current.manifest == s.slots[id].replacement.value.manifest)
  {
    hide Accepts;
  }

  lemma PreparedReplacement(s: State, id: Id, attempt: Attempt, first: Cleanup, second: Cleanup)
    requires id in s.slots && s.slots[id].replacement.None? && s.slots[id].current.loaded
    ensures var (after, done) := PrepareReplacement(s, id, attempt, first, second);
            && id in after.slots && after.slots[id].current.loaded
            && (!done ==> after.slots[id].current.manifest == s.slots[id].current.manifest)
            && (done ==> && after.slots[id].replacement.None?
                         && after.slots[id].current.manifest == attempt.content.value
                         && after.slots[id].current.phase == if s.slots[id].current.phase == Paused then Paused else Running)
  {
    hide Accepts, Swap;
    var noted := Put(s, id, s.slots[id].(resumeAs := if s.slots[id].current.phase == Paused then Paused else Running));
    var candidate := Prepare(noted, id, true, attempt);
    if candidate.Some? && candidate.value.phase == Loading {
      var started := noted.(slots := Fault(noted.slots, attempt.faults));
      SwappedSlot(Put(started, id, started.slots[id].(replacement := candidate)), id, second);
    }
  }

  /** Resuming undoes a pause exactly when everything the plugin needs still runs. */
  lemma ResumeUndoesPause(events: seq<Event>, id: Id)
    requires var s := Run(Empty, events);
             id in s.slots && s.slots[id].current.phase == Running && Pause(s, id, false, true).1
    ensures var s := Run(Empty, events);
            Resume(Pause(s, id, false, true).0, id, true) == (s, true) <==>
              forall need :: need in s.slots[id].current.manifest.needs ==>
                need in s.slots && s.slots[need].current.phase == Running
  {
    hide Run, Inv, Pause, Resume;
    EmptyInv();
    RunKeepsInv(Empty, events);
    ResumeAfterPause(Run(Empty, events), id);
  }

  lemma ResumeAfterPause(s: State, id: Id)
    requires Inv(s) && id in s.slots && s.slots[id].current.phase == Running && Pause(s, id, false, true).1
    ensures Resume(Pause(s, id, false, true).0, id, true) == (s, true) <==>
              forall need :: need in s.slots[id].current.manifest.needs ==>
                need in s.slots && s.slots[need].current.phase == Running
  {
    assert SlotOk(s.slots, id, s.slots[id]);
    hide SlotsOk, SlotOk, Edges, Acyclic, HasDependent, Accepts;
    PausedCanBeAccepted(s, id);
    var paused := SetPhase(s, id, Paused);
    assert SetPhase(paused, id, Running).slots == s.slots;
  }

  /** A paused plugin meets every check but, perhaps, that all it needs runs. */
  lemma PausedCanBeAccepted(s: State, id: Id)
    requires Inv(s) && id in s.slots && s.slots[id].current.phase == Running
    ensures var manifest := s.slots[id].current.manifest;
            Accepts(SetPhase(s, id, Paused).slots, manifest) <==>
              forall need :: need in manifest.needs ==> need in s.slots && s.slots[need].current.phase == Running
  {
    var manifest := s.slots[id].current.manifest;
    var paused := SetPhase(s, id, Paused);
    assert SlotOk(s.slots, id, s.slots[id]) && Served(s.slots, manifest, true);
    OldSlotServes(s.slots, id);
    SamePausedEdges(s, id);
    NoWayBack(s, id);
    assert Tolerated(paused.slots, id, manifest.version);
    hide SlotsOk, Edges, Acyclic, ServesAll, Tolerated, ReachesOrIs, SlotOk;
    forall need | need in manifest.needs
      ensures RunsAt(paused.slots, need, manifest.needs[need]) <==> need in s.slots && s.slots[need].current.phase == Running
    {
      assert need in s.slots && Serves(s.slots[need], manifest.needs[need], true);
    }
  }

  lemma NoWayBack(s: State, id: Id)
    requires Inv(s) && id in s.slots && s.slots[id].current.loaded
    ensures forall need :: need in s.slots[id].current.manifest.needs ==> !ReachesOrIs(Edges(s.slots), need, id)
  {
    assert SlotOk(s.slots, id, s.slots[id]);
    forall need | need in s.slots[id].current.manifest.needs ensures !ReachesOrIs(Edges(s.slots), need, id) {
      assert (id, need) in Edges(s.slots);
      EdgeReaches(Edges(s.slots), id, need);
      if Reaches(Edges(s.slots), need, id) { ReachesOnward(Edges(s.slots), id, need, id); }
    }
  }

  lemma SamePausedEdges(s: State, id: Id)
    requires id in s.slots
    ensures Edges(SetPhase(s, id, Paused).slots) == Edges(s.slots)
  {
    forall other | other in s.slots ensures Needs(SetPhase(s, id, Paused).slots[other]) == Needs(s.slots[other]) {}
    hide Needs;
  }

  /** From any run, unloading everything with clean-ups that succeed leaves nothing loaded. */
  lemma UnloadAllAfterAnyRun(events: seq<Event>, order: seq<Id>, cleanups: Cleanups)
    requires Covers(order, Run(Empty, events).slots)
    ensures var s := Run(Empty, events);
            var w := UnloadAll(s, order, cleanups);
            && DependentsFirst(Edges(s.slots), w.tried)
            && (forall id :: Alive(w.state.slots, id) ==> Explained(s, w, id))
            && (AllReleased(cleanups) ==> w.tried == w.unloaded && forall id :: !Alive(w.state.slots, id))
  {
    hide Inv, Run, UnloadAll, Alive, Explained, DependentsFirst, AllReleased;
    EmptyInv();
    RunKeepsInv(Empty, events);
    UnloadAllIsOrderly(Run(Empty, events), order, cleanups);
    if AllReleased(cleanups) { UnloadAllIsComplete(Run(Empty, events), order, cleanups); }
  }

  // ----- a half-finished reload ------------------------------------------------------------------

  lemma NoEdgeNoWay(g: Graph)
    requires g == {}
    ensures forall a, b :: !Reaches(g, a, b)
  {
    forall a, b ensures !Reaches(g, a, b) {
      if Reaches(g, a, b) { ReachesHasEdge(g, a, b); }
    }
  }

  lemma ReachesStarts(g: Graph, a: Id, b: Id)
    ensures Reaches(g, a, b) ==> exists x :: (a, x) in g
  {
    if Reaches(g, a, b) {
      var p :| Links(g, p, a, b) && |p| >= 2;
      assert (a, p[1]) in g;
    }
  }

  ghost function Fresh(content: Manifest): Attempt {
    Attempt(Some(content), true, Ready, {})
  }

  lemma AcceptsNeedless(slots: Slots, manifest: Manifest)
    requires manifest.needs == map[] && forall id :: id in slots ==> slots[id].replacement.None? && slots[id].current.manifest.needs == map[]
    ensures Accepts(slots, manifest)
  {
  }

  const OldRuns := Old.(phase := Running)
  const First := State(map["user" := Slot(OldRuns, None, Running)], 2)
  const Both := State(map["library" := Slot(Library, None, Running), "user" := Slot(OldRuns, None, Running)], 3)

  lemma LoadsUser()
    ensures Load(Empty, "user", Fresh(Old.manifest), None).0 == First
  {
    AcceptsNeedless(Empty.slots, Old.manifest);
    hide Accepts;
    assert Fault(Empty.slots, {}) == Empty.slots;
  }

  lemma LoadsLibrary()
    ensures Load(First, "library", Fresh(Library.manifest), None).0 == Both
  {
    AcceptsNeedless(First.slots, Library.manifest);
    hide Accepts;
    assert Fault(First.slots, {}) == First.slots;
  }

  const Held := Put(Both, "user", Both.slots["user"].(replacement := Some(New)))

  lemma ReloadsUser(first: Cleanup)
    ensures Reload(Both, "user", false, Fresh(New.manifest), first, Cleanup(false, {})).0 == Pending
  {
    PreparesUser();
    SwapsUser();
    assert Fault(Both.slots, {}) == Both.slots;
    hide Accepts, Edges, Fault, Swap, Prepare;
    assert Put(Both, "user", Both.slots["user"].(resumeAs := Running)) == Both;
  }

  lemma PreparesUser()
    ensures Prepare(Both, "user", true, Fresh(New.manifest)) == Some(New)
  {
    assert Edges(Both.slots) == {};
    NoEdgeNoWay(Edges(Both.slots));
    hide Edges;
  }

  lemma SwapsUser()
    ensures Swap(Held, "user", Cleanup(false, {})).0 == Pending
  {
    AcceptsPending(Held);
    hide Accepts;
    assert Retire(Held, "user", Cleanup(false, {})) == Pending;
  }

  lemma AcceptsPending(held: State)
    requires held == Held
    ensures Accepts(held.slots, New.manifest)
  {
    var g := Edges(held.slots);
    assert g == {("user", "library")};
    ReachesStarts(g, "library", "user");
    hide Edges;
  }

  /** Two loads and a reload whose clean-up fails half-way lead to the table where `library` may be stranded. */
  lemma PendingIsReached(first: Cleanup)
    ensures Run(Empty, [LoadEvent("user", Fresh(Old.manifest), None), LoadEvent("library", Fresh(Library.manifest), None),
                        ReloadEvent("user", false, Fresh(New.manifest), first, Cleanup(false, {}))]) == Pending
    ensures Inv(Pending)
  {
    LoadsUser();
    LoadsLibrary();
    ReloadsUser(first);
    hide Load, Reload;
    var reload := ReloadEvent("user", false, Fresh(New.manifest), first, Cleanup(false, {}));
    var second := LoadEvent("library", Fresh(Library.manifest), None);
    var events := [LoadEvent("user", Fresh(Old.manifest), None), second, reload];
    assert events[1..] == [second, reload] && [second, reload][1..] == [reload] && [reload][1..] == [];
    assert Run(First, [second, reload]) == Run(Both, [reload]) == Run(Pending, []);
    EmptyInv();
    RunKeepsInv(Empty, events);
  }
}
