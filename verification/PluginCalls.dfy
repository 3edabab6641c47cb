/** What the operations of the plugin manager do, in terms of what an administrator sees. */
module PluginCalls {
  import opened DependencyGraph
  import opened PluginModel
  import opened PluginSafety

  // ----- what others may notice ------------------------------------------------------------

  /** The script is as it was, but a third failed callback may have retired it. */
  predicate SameOrRetired(before: Script, after: Script, hit: bool) {
    after == before.(phase := if hit && before.loaded && before.phase in {Loading, Running, Paused} then Retiring else before.phase)
  }

  /** Nothing happened to a slot but, perhaps, callbacks that failed. */
  predicate OnlyFaults(before: Slots, after: Slots, id: Id, faults: Faults)
    requires id in before && id in after
  {
    && SameOrRetired(before[id].current, after[id].current, (id, Current) in faults)
    && (before[id].replacement.Some? <==> after[id].replacement.Some?)
    && (before[id].replacement.Some? ==>
          SameOrRetired(before[id].replacement.value, after[id].replacement.value, (id, Replacement) in faults))
    && after[id].resumeAs == before[id].resumeAs
  }

  /** The other plugins keep their scripts. */
  predicate OthersOnlyFault(before: Slots, after: Slots, id: Id, faults: Faults) {
    forall other :: other in before && other != id ==> other in after && OnlyFaults(before, after, other, faults)
  }

  /** A plugin nobody mentioned is retired exactly by its own third failure. */
  lemma FaultsRetire(slots: Slots, faults: Faults)
    ensures Fault(slots, faults).Keys == slots.Keys
    ensures forall id :: id in slots ==> OnlyFaults(slots, Fault(slots, faults), id, faults)
  {
  }

  // ----- loading ------------------------------------------------------------------------------

  /** The manifest can be read, belongs to the directory, and everything it needs runs. */
  ghost predicate MayRun(s: State, directory: Id, attempt: Attempt) {
    && attempt.content.Some? && ValidId(directory) && attempt.content.value.id == directory && directory !in attempt.content.value.needs
    && AcceptsByNumber(s.slots, attempt.content.value) && attempt.ownersLeft
  }

  predicate Loadable(slots: Slots, directory: Id) {
    directory in slots ==> slots[directory].current.phase in {Disabled, Failed}
  }

  /** A plugin is loaded exactly when it may run, nothing of it is alive, and its start succeeds; then it runs, newest of all. */
  lemma LoadRuns(s: State, directory: Id, attempt: Attempt, reread: Option<Manifest>)
    ensures var (after, done) := Load(s, directory, attempt, reread);
            && (done <==> MayRun(s, directory, attempt) && Loadable(s.slots, directory) && attempt.start == Ready)
            && (done ==>
                  && directory in after.slots && after.slots[directory].current == Script(attempt.content.value, Running, true, s.nextOrder)
                  && after.nextOrder == s.nextOrder + 1)
            && (!done ==> after.nextOrder == s.nextOrder && (directory in after.slots && after.slots[directory].current.phase == Running ==> directory in s.slots))
            && (if MayRun(s, directory, attempt) && Loadable(s.slots, directory) then OthersOnlyFault(s.slots, after.slots, directory, attempt.faults)
                else forall other :: other in s.slots && other != directory ==> other in after.slots && after.slots[other] == s.slots[other])
  {
    if attempt.content.Some? { AcceptsAre(s.slots, attempt.content.value); }
    FaultsRetire(s.slots, attempt.faults);
    hide Accepts, AcceptsByNumber, Fault, SameOrRetired;
  }

  /** A refused load is noted as failed, with the manifest found, unless something of the plugin is alive. */
  lemma RefusalIsNoted(s: State, directory: Id, content: Option<Manifest>)
    ensures var after := RecordFailure(s, directory, content);
            && after.nextOrder == s.nextOrder && (forall other :: other in s.slots && other != directory ==> other in after.slots && after.slots[other] == s.slots[other])
            && (if ValidId(directory) && (directory in s.slots ==> !s.slots[directory].current.loaded && s.slots[directory].replacement.None?)
                then directory in after.slots && after.slots[directory].current.phase == Failed && !after.slots[directory].current.loaded
                     && (content.Some? && content.value.id == directory && directory !in content.value.needs ==>
                           after.slots[directory].current.manifest == content.value)
                else after == s)
  {
  }

  /** A disabled plugin found for the first time is listed and not loaded. */
  lemma DiscoveryLists(s: State, directory: Id, content: Option<Manifest>)
    ensures var after := Discover(s, directory, content);
            if directory !in s.slots && content.Some? && ValidId(directory) && content.value.id == directory && directory !in content.value.needs
            then after.slots.Keys == s.slots.Keys + {directory} && after == s.(slots := s.slots[directory := after.slots[directory]])
                 && after.slots[directory].current == Script(content.value, Disabled, false, 0) && after.slots[directory].replacement.None?
            else after == s
  {
  }

  // ----- unloading -----------------------------------------------------------------------------

  /** Another loaded script needs the plugin. */
  predicate NeededBy(slots: Slots, id: Id, other: Id) {
    exists script :: script in Scripts(slots, other) && LoadedNeeding(slots, id, other, script)
  }

  function Scripts(slots: Slots, id: Id): set<Script> {
    if id !in slots then {}
    else {slots[id].current} + if slots[id].replacement.Some? then {slots[id].replacement.value} else {}
  }

  lemma DependentsAre(slots: Slots, id: Id)
    ensures HasDependent(slots, id, false) <==> exists other :: other in slots && NeededBy(slots, id, other)
  {
    forall other | other in slots ensures Dependent(slots, id, other, false) <==> NeededBy(slots, id, other) {
      if Dependent(slots, id, other, false) {
        if NeedsSlot(slots[other].current, id, false) {
          assert slots[other].current in Scripts(slots, other);
        } else {
          assert slots[other].replacement.value in Scripts(slots, other);
        }
      }
    }
    hide Dependent, NeededBy;
  }

  /** The slot keeps its manifest, and is loaded no more than the mark says. */
  predicate KeepsManifest(before: Slots, after: Slots, id: Id, unloaded: bool) {
    && id in before && id in after && after[id].current.manifest == before[id].current.manifest
    && after[id].current.loaded == (before[id].current.loaded && !unloaded)
  }

  predicate OthersKeepManifests(before: Slots, after: Slots, id: Id) {
    after.Keys == before.Keys && forall other :: other in before && other != id ==> KeepsManifest(before, after, other, false)
  }

  lemma DisableDoes(s: State, id: Id, cleanup: Cleanup)
    requires id in s.slots
    ensures var (after, done) := Disable(s, id, cleanup);
            && (done <==> cleanup.released) && OthersKeepManifests(s.slots, after.slots, id) && after.nextOrder == s.nextOrder
            && KeepsManifest(s.slots, after.slots, id, done)
            && (done ==> after.slots[id].current.phase == Disabled)
            && (after.slots[id].replacement.None? <==> s.slots[id].replacement.None?)
  {
  }

  lemma DropDoes(s: State, id: Id, cleanup: Cleanup)
    requires id in s.slots && s.slots[id].replacement.Some?
    ensures var (after, done) := DropReplacement(s, id, cleanup);
            && (done <==> cleanup.released) && OthersKeepManifests(s.slots, after.slots, id) && after.nextOrder == s.nextOrder
            && KeepsManifest(s.slots, after.slots, id, false)
            && (after.slots[id].replacement.None? <==> done)
  {
  }

  lemma KeepBoth(a: Slots, b: Slots, c: Slots, id: Id, unloaded: bool)
    requires OthersKeepManifests(a, b, id) && OthersKeepManifests(b, c, id)
    requires KeepsManifest(a, b, id, false) && KeepsManifest(b, c, id, unloaded)
    ensures OthersKeepManifests(a, c, id) && KeepsManifest(a, c, id, unloaded)
  {
  }

  /** A plugin is unloaded exactly when nobody needs it and both its clean-ups finish; an attempt stops at the first that does not. */
  lemma UnloadDisables(s: State, id: Id, first: Cleanup, second: Cleanup)
    ensures var (after, done) := Unload(s, id, first, second);
            && (done <==> id in s.slots && !HasDependent(s.slots, id, false)
                          && (s.slots[id].replacement.Some? ==> first.released) && second.released)
            && (done ==> after.slots[id].current.phase == Disabled && after.slots[id].replacement.None?)
            && (id !in s.slots || HasDependent(s.slots, id, false) ==> after == s)
            && (id in s.slots ==> OthersKeepManifests(s.slots, after.slots, id) && KeepsManifest(s.slots, after.slots, id, done))
            && after.nextOrder == s.nextOrder
  {
    hide HasDependent, Disable, DropReplacement;
    if id in s.slots {
      if s.slots[id].replacement.None? {
        DisableDoes(s, id, second);
      } else {
        DropDoes(s, id, first);
        var dropped := DropReplacement(s, id, first).0;
        if first.released {
          DisableDoes(dropped, id, second);
          KeepBoth(s.slots, dropped.slots, Disable(dropped, id, second).0.slots, id, second.released);
        }
      }
    }
  }

  // ----- pausing ----------------------------------------------------------------------------------

  /** Only the phase of one current script changed. */
  predicate OnlyPhase(s: State, after: State, id: Id, phase: Phase) {
    id in s.slots && after == s.(slots := s.slots[id := s.slots[id].(current := s.slots[id].current.(phase := phase))])
  }

  /** A running plugin is paused exactly when none of its calls is active and nothing that is not paused needs it. */
  lemma PausePauses(s: State, id: Id, active: bool, cleared: bool)
    ensures var (after, done) := Pause(s, id, active, cleared);
            var may := id in s.slots && s.slots[id].replacement.None? && s.slots[id].current.phase == Running
                       && !active && !HasDependent(s.slots, id, true);
            && (may ==> OnlyPhase(s, after, id, Paused)) && (!may ==> after == s)
            && (done <==> cleared && id in s.slots && s.slots[id].replacement.None? && (may || s.slots[id].current.phase == Paused))
  {
    hide HasDependent;
  }

  /** A paused plugin runs again exactly when everything it needs does and its menus are cleared. */
  lemma ResumeRuns(s: State, id: Id, cleared: bool)
    ensures var (after, done) := Resume(s, id, cleared);
            && (done <==> id in s.slots && s.slots[id].replacement.None? && s.slots[id].current.phase == Paused
                          && AcceptsByNumber(s.slots, s.slots[id].current.manifest) && cleared)
            && (if done then OnlyPhase(s, after, id, Running) else after == s)
  {
    if id in s.slots { AcceptsAre(s.slots, s.slots[id].current.manifest); }
    hide Accepts, AcceptsByNumber;
  }

  /** Exactly a failed plugin without a replacement is loaded again. */
  lemma RetryLoads(s: State, id: Id, attempt: Attempt, reread: Option<Manifest>)
    ensures Retry(s, id, attempt, reread) ==
              if id in s.slots && s.slots[id].current.phase == Failed && s.slots[id].replacement.None? then Load(s, id, attempt, reread) else (s, false)
  {
  }

  // ----- reloading -----------------------------------------------------------------------------------

  /** New edges out of a plugin do not lead back to it when none of their targets did. */
  lemma FanReaches(g: Graph, x: Id, targets: set<Id>, a: Id)
    requires a != x && Reaches(g + Fan(x, targets), a, x)
    ensures Reaches(g, a, x)
  {
    var p :| Links(g + Fan(x, targets), p, a, x) && |p| >= 2;
    var k := FirstPlace(p, x);
    var q := p[..k + 1];
    assert q[..|q| - 1] == p[..k];
    OldWalk(g, x, targets, q);
    assert Links(g, q, a, x);
  }

  /** The table with the replacement beside the current script. */
  function Beside(s: State, id: Id, candidate: Script, resumeAs: Phase): State
    requires id in s.slots
  {
    Put(s, id, s.slots[id].(replacement := Some(candidate), resumeAs := resumeAs))
  }

  lemma BesideEdges(s: State, id: Id, candidate: Script, resumeAs: Phase)
    requires id in s.slots && s.slots[id].replacement.None? && candidate.loaded
    ensures Edges(Beside(s, id, candidate, resumeAs).slots) == Edges(s.slots) + Fan(id, candidate.manifest.needs.Keys)
  {
    var held := Beside(s, id, candidate, resumeAs);
    forall x, y ensures (x, y) in Edges(held.slots) <==> (x, y) in Edges(s.slots) + Fan(id, candidate.manifest.needs.Keys) {}
  }

  /** What was accepted without the replacement in the table is accepted with it. */
  lemma AcceptedBeside(s: State, id: Id, candidate: Script, resumeAs: Phase)
    requires id in s.slots && s.slots[id].replacement.None? && candidate.loaded && candidate.manifest.id == id && id !in candidate.manifest.needs
    requires Accepts(s.slots, candidate.manifest)
    ensures Accepts(Beside(s, id, candidate, resumeAs).slots, candidate.manifest)
  {
    var held := Beside(s, id, candidate, resumeAs);
    BesideEdges(s, id, candidate, resumeAs);
    forall need | need in candidate.manifest.needs ensures !ReachesOrIs(Edges(held.slots), need, id) {
      if Reaches(Edges(held.slots), need, id) { FanReaches(Edges(s.slots), id, candidate.manifest.needs.Keys, need); }
    }
    hide Edges, Reaches, ReachesOrIs;
  }

  /**
    * Without callbacks that fail meanwhile, a plugin without a pending replacement is reloaded exactly when the new
    * manifest may run and starts, and the old script is cleaned up; then the new script has its place, paused if the
    * old one was. When only the clean-up does not finish, the new script waits beside the old one.
    */
  lemma ReloadReplaces(s: State, id: Id, attempt: Attempt, first: Cleanup, second: Cleanup)
    requires id in s.slots && s.slots[id].replacement.None? && attempt.faults == {} && first.faults == {} && second.faults == {}
    ensures var (after, done) := Reload(s, id, false, attempt, first, second);
            && (done <==> MayRun(s, id, attempt) && attempt.start == Ready && second.released)
            && (done ==>
                  && after.slots[id].current == Script(attempt.content.value, if s.slots[id].current.phase == Paused then Paused else Running, true, s.nextOrder)
                  && after.slots[id].replacement.None?)
            && (MayRun(s, id, attempt) && attempt.start == Ready && !second.released ==>
                  && after.slots[id].current == s.slots[id].current.(phase := Retiring)
                  && after.slots[id].replacement == Some(Script(attempt.content.value, Loading, true, 0)))
            && (!MayRun(s, id, attempt) ==> after.slots[id].current == s.slots[id].current && after.slots[id].replacement.None?)
            && (MayRun(s, id, attempt) && attempt.start != Ready && first.released ==>
                  after.slots[id].current == s.slots[id].current && after.slots[id].replacement.None?)
            && forall other :: other in s.slots && other != id ==> other in after.slots && after.slots[other] == s.slots[other]
  {
    var resumeAs := if s.slots[id].current.phase == Paused then Paused else Running;
    var noted := Put(s, id, s.slots[id].(resumeAs := resumeAs));
    NotedAccepts(s, id, resumeAs, attempt);
    NoFaults(noted.slots);
    if MayRun(s, id, attempt) {
      var candidate := Candidate(attempt.content.value, attempt.start);
      var held := Put(noted, id, noted.slots[id].(replacement := Some(candidate)));
      assert held == Beside(s, id, candidate, resumeAs);
      if attempt.start == Ready {
        AcceptedBeside(s, id, candidate, resumeAs);
        NoFaults(Put(held, id, held.slots[id].(current := held.slots[id].current.(phase := Retiring))).slots);
      }
    }
    hide Accepts, AcceptsByNumber, MayRun, Fault;
  }

  lemma NoFaults(slots: Slots)
    ensures Fault(slots, {}) == slots
  {
  }

  lemma NotedAccepts(s: State, id: Id, resumeAs: Phase, attempt: Attempt)
    requires id in s.slots && s.slots[id].replacement.None?
    ensures var noted := Put(s, id, s.slots[id].(resumeAs := resumeAs));
            && (MayRun(s, id, attempt) <==> Prepare(noted, id, true, attempt).Some?)
            && (MayRun(s, id, attempt) ==>
                  && Prepare(noted, id, true, attempt) == Some(Candidate(attempt.content.value, attempt.start))
                  && Accepts(s.slots, attempt.content.value)
                  && attempt.content.value.id == id && id !in attempt.content.value.needs)
  {
    var noted := Put(s, id, s.slots[id].(resumeAs := resumeAs));
    assert Edges(noted.slots) == Edges(s.slots) by {
      forall other | other in s.slots ensures Needs(noted.slots[other]) == Needs(s.slots[other]) {}
      hide Needs;
    }
    if attempt.content.Some? {
      AcceptsAre(s.slots, attempt.content.value);
      SameAccepted(s.slots, noted.slots, attempt.content.value);
    }
    hide Accepts, AcceptsByNumber;
  }

  lemma SameAccepted(a: Slots, b: Slots, manifest: Manifest)
    requires a.Keys == b.Keys && Edges(a) == Edges(b)
    requires forall id :: id in a ==> b[id].current == a[id].current && b[id].replacement == a[id].replacement
    ensures Accepts(a, manifest) <==> Accepts(b, manifest)
  {
    hide Edges;
  }

  /** A pending replacement takes over exactly when it still may run and the old script is cleaned up. */
  lemma PendingTakesOver(s: State, id: Id, attempt: Attempt, first: Cleanup, second: Cleanup)
    requires id in s.slots && s.slots[id].replacement.Some? && s.slots[id].replacement.value.phase == Loading && second.faults == {}
    ensures var (after, done) := Reload(s, id, false, attempt, first, second);
            && (done <==> AcceptsByNumber(s.slots, s.slots[id].replacement.value.manifest) && second.released)
            && (done ==>
                  && after.slots[id].current == s.slots[id].replacement.value.(phase := s.slots[id].resumeAs, order := s.nextOrder)
                  && after.slots[id].replacement.None?)
            && (!done ==> after.slots[id].replacement == s.slots[id].replacement && after.slots[id].current.manifest == s.slots[id].current.manifest)
            && forall other :: other in s.slots && other != id ==> other in after.slots && after.slots[other] == s.slots[other]
  {
    AcceptsAre(s.slots, s.slots[id].replacement.value.manifest);
    NoFaults(Put(s, id, s.slots[id].(current := s.slots[id].current.(phase := Retiring))).slots);
    hide Accepts, AcceptsByNumber, Fault;
  }

  /** A replacement that failed is only cleaned up, and gone when that finishes. */
  lemma FailedReplacementGoes(s: State, id: Id, attempt: Attempt, first: Cleanup, second: Cleanup)
    requires id in s.slots && s.slots[id].replacement.Some? && s.slots[id].replacement.value.phase != Loading && first.faults == {}
    ensures var (after, done) := Reload(s, id, false, attempt, first, second);
            && !done && after.slots.Keys == s.slots.Keys && after.slots[id].current == s.slots[id].current
            && after.slots[id].replacement == (if first.released then None else s.slots[id].replacement)
            && forall other :: other in s.slots && other != id ==> after.slots[other] == s.slots[other]
  {
    NoFaults(s.slots);
    hide Fault;
  }
}
