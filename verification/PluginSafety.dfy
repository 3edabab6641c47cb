/** The invariant of the plugin table, kept by every lifecycle operation. */
module PluginSafety {
  import opened DependencyGraph
  import opened PluginModel

  /** The current script of `id` serves a script that needs `version` of it. */
  predicate Serves(slot: Slot, version: Version, active: bool) {
    && slot.current.loaded
    && !Below(slot.current.manifest.version, version)
    && (active ==> slot.current.phase in {Running, Retiring} && (slot.replacement.Some? ==> slot.resumeAs == Running))
  }

  predicate Active(script: Script) {
    script.phase in {Running, Loading}
  }

  predicate Served(slots: Slots, manifest: Manifest, active: bool) {
    forall need :: need in manifest.needs ==>
      need in slots && Serves(slots[need], manifest.needs[need], active)
  }

  predicate ScriptOk(slots: Slots, id: Id, script: Script) {
    && script.manifest.id == id
    && id !in script.manifest.needs
    && (script.loaded ==> Served(slots, script.manifest, Active(script)))
  }

  predicate Shape(slot: Slot) {
    && slot.current.phase != Loading
    && (slot.current.phase in {Running, Paused} ==> slot.current.loaded)
    && (slot.current.phase in {Disabled, Failed} ==> !slot.current.loaded)
    && slot.resumeAs in {Running, Paused}
    && (slot.replacement.Some? ==>
          && slot.replacement.value.phase in {Loading, Retiring, Failed}
          && (slot.replacement.value.phase == Loading ==> slot.replacement.value.loaded)
          && (slot.resumeAs == Paused ==> slot.current.phase in {Paused, Retiring}))
  }

  predicate SlotOk(slots: Slots, id: Id, slot: Slot) {
    && Shape(slot)
    && ScriptOk(slots, id, slot.current)
    && (slot.replacement.Some? ==> ScriptOk(slots, id, slot.replacement.value))
  }

  predicate SlotsOk(slots: Slots) {
    forall id :: id in slots ==> SlotOk(slots, id, slots[id])
  }

  ghost predicate Inv(s: State) {
    SlotsOk(s.slots) && Acyclic(Edges(s.slots))
  }

  // ----- replacing one slot -----------------------------------------------------------

  predicate ServesScript(slot: Slot, script: Script, id: Id) {
    script.loaded && id in script.manifest.needs ==> Serves(slot, script.manifest.needs[id], Active(script))
  }

  /** Every other script that needs `id` would be served by the slot. */
  predicate ServesAll(slots: Slots, id: Id, slot: Slot) {
    forall other :: other in slots && other != id ==>
      && ServesScript(slot, slots[other].current, id)
      && (slots[other].replacement.Some? ==> ServesScript(slot, slots[other].replacement.value, id))
  }

  lemma OldSlotServes(slots: Slots, id: Id)
    requires SlotsOk(slots) && id in slots
    ensures ServesAll(slots, id, slots[id])
  {
    forall other | other in slots && other != id
      ensures ServesScript(slots[id], slots[other].current, id)
      ensures slots[other].replacement.Some? ==> ServesScript(slots[id], slots[other].replacement.value, id)
    {
      assert SlotOk(slots, other, slots[other]);
    }
  }

  lemma ScriptKept(slots: Slots, id: Id, slot: Slot, other: Id, script: Script)
    requires ScriptOk(slots, other, script)
    requires other != id ==> ServesScript(slot, script, id)
    ensures ScriptOk(slots[id := slot], other, script)
  {
    hide Serves;
  }

  lemma PutKeepsSlots(slots: Slots, id: Id, slot: Slot)
    requires SlotsOk(slots) && SlotOk(slots, id, slot) && ServesAll(slots, id, slot)
    ensures SlotsOk(slots[id := slot])
  {
    hide Shape, ScriptOk, ServesScript;
    var after := slots[id := slot];
    forall other | other in after ensures SlotOk(after, other, after[other]) {
      assert SlotOk(slots, other, after[other]);
      ScriptKept(slots, id, slot, other, after[other].current);
      if after[other].replacement.Some? { ScriptKept(slots, id, slot, other, after[other].replacement.value); }
    }
  }

  lemma FewerNeeds(slots: Slots, id: Id, slot: Slot)
    requires Acyclic(Edges(slots))
    requires Needs(slot) <= if id in slots then Needs(slots[id]) else {}
    ensures Acyclic(Edges(slots[id := slot]))
  {
    hide Needs;
    SubgraphAcyclic(Edges(slots[id := slot]), Edges(slots));
  }

  lemma MoreNeeds(slots: Slots, id: Id, slot: Slot, needs: set<Id>)
    requires Acyclic(Edges(slots))
    requires Needs(slot) <= needs + if id in slots then Needs(slots[id]) else {}
    requires forall need :: need in needs ==> !ReachesOrIs(Edges(slots), need, id)
    ensures Acyclic(Edges(slots[id := slot]))
  {
    FanAcyclic(Edges(slots), id, needs);
    hide Needs, Acyclic, ReachesOrIs;
    SubgraphAcyclic(Edges(slots[id := slot]), Edges(slots) + Fan(id, needs));
  }

  // ----- faults -----------------------------------------------------------------------

  lemma FaultedServes(slot: Slot, id: Id, faults: Faults, version: Version, active: bool)
    requires Serves(slot, version, active)
    ensures Serves(FaultSlot(slot, id, faults), version, active)
  {
  }

  lemma FaultedServed(slots: Slots, faults: Faults, manifest: Manifest, active: bool)
    requires Served(slots, manifest, active)
    ensures Served(Fault(slots, faults), manifest, active)
  {
    hide Serves, FaultSlot;
    forall need | need in manifest.needs
      ensures need in Fault(slots, faults) && Serves(Fault(slots, faults)[need], manifest.needs[need], active)
    {
      FaultedServes(slots[need], need, faults, manifest.needs[need], active);
    }
  }

  lemma InactiveServed(slots: Slots, manifest: Manifest)
    requires Served(slots, manifest, true)
    ensures Served(slots, manifest, false)
  {
  }

  lemma FaultedScript(slots: Slots, faults: Faults, id: Id, script: Script, hit: bool)
    requires ScriptOk(slots, id, script)
    ensures ScriptOk(Fault(slots, faults), id, Faulted(script, hit))
  {
    hide Fault, Served;
    if script.loaded {
      FaultedServed(slots, faults, script.manifest, Active(script));
      if Active(script) { InactiveServed(Fault(slots, faults), script.manifest); }
    }
  }

  lemma FaultedShape(slot: Slot, id: Id, faults: Faults)
    requires Shape(slot)
    ensures Shape(FaultSlot(slot, id, faults))
    ensures Needs(FaultSlot(slot, id, faults)) == Needs(slot)
  {
  }

  lemma FaultKeepsEdges(slots: Slots, faults: Faults)
    ensures Edges(Fault(slots, faults)) == Edges(slots)
  {
    forall id | id in slots ensures Needs(FaultSlot(slots[id], id, faults)) == Needs(slots[id]) {}
    hide Needs, FaultSlot;
    var after := Fault(slots, faults);
    forall e ensures e in Edges(after) <==> e in Edges(slots) {
      assert e.0 in slots ==> Needs(after[e.0]) == Needs(slots[e.0]);
    }
  }

  lemma FaultKeepsSlots(slots: Slots, faults: Faults)
    requires SlotsOk(slots)
    ensures SlotsOk(Fault(slots, faults))
  {
    hide Shape, ScriptOk;
    var after := Fault(slots, faults);
    forall id | id in after ensures SlotOk(after, id, after[id]) {
      var slot := slots[id];
      assert SlotOk(slots, id, slot);
      FaultedShape(slot, id, faults);
      FaultedScript(slots, faults, id, slot.current, (id, Current) in faults);
      if slot.replacement.Some? {
        FaultedScript(slots, faults, id, slot.replacement.value, (id, Replacement) in faults);
      }
    }
  }

  lemma FaultKeepsInv(s: State, faults: Faults)
    requires Inv(s)
    ensures Inv(s.(slots := Fault(s.slots, faults)))
  {
    FaultKeepsSlots(s.slots, faults);
    FaultKeepsEdges(s.slots, faults);
  }

  // ----- preparing and installing --------------------------------------------------------

  /** What the checks of a candidate buy: all it needs will serve it even when it runs. */
  lemma AcceptedIsServed(slots: Slots, manifest: Manifest)
    requires SlotsOk(slots) && Accepts(slots, manifest)
    ensures Served(slots, manifest, true)
  {
    forall need | need in manifest.needs
      ensures need in slots && Serves(slots[need], manifest.needs[need], true)
    {
      assert RunsAt(slots, need, manifest.needs[need]);
      assert SlotOk(slots, need, slots[need]);
    }
  }

  lemma CandidateOk(slots: Slots, faults: Faults, manifest: Manifest, start: Start)
    requires SlotsOk(slots) && Accepts(slots, manifest) && manifest.id !in manifest.needs
    ensures ScriptOk(Fault(slots, faults), manifest.id, Candidate(manifest, start))
  {
    hide Fault, Accepts, Serves;
    AcceptedIsServed(slots, manifest);
    FaultedServed(slots, faults, manifest, true);
    InactiveServed(Fault(slots, faults), manifest);
  }

  lemma NobodyNeedsTheUnloaded(slots: Slots, id: Id, slot: Slot)
    requires SlotsOk(slots) && (id !in slots || !slots[id].current.loaded)
    ensures ServesAll(slots, id, slot)
  {
    forall other | other in slots && other != id
      ensures ServesScript(slot, slots[other].current, id)
      ensures slots[other].replacement.Some? ==> ServesScript(slot, slots[other].replacement.value, id)
    {
      assert SlotOk(slots, other, slots[other]);
    }
  }

  lemma InstallKeepsInv(s: State, faults: Faults, manifest: Manifest, start: Start)
    requires Inv(s) && Accepts(s.slots, manifest) && manifest.id !in manifest.needs
    requires manifest.id in s.slots ==> s.slots[manifest.id].current.phase in {Disabled, Failed}
    ensures Inv(Install(s.(slots := Fault(s.slots, faults)), manifest.id, Candidate(manifest, start)).0)
  {
    var id := manifest.id;
    var slots := Fault(s.slots, faults);
    assert id in s.slots ==> SlotOk(s.slots, id, s.slots[id]);
    CandidateOk(s.slots, faults, manifest, start);
    FaultKeepsInv(s, faults);
    FaultKeepsEdges(s.slots, faults);
    var after := Install(s.(slots := slots), id, Candidate(manifest, start)).0;
    assert id in slots ==> SlotOk(slots, id, slots[id]);
    NobodyNeedsTheUnloaded(slots, id, after.slots[id]);
    hide Edges, ServesAll, Serves, Served, Tolerated, SlotsOk, Acyclic;
    assert SlotOk(slots, id, after.slots[id]);
    PutKeepsSlots(slots, id, after.slots[id]);
    MoreNeeds(slots, id, after.slots[id], manifest.needs.Keys);
    assert after.slots == slots[id := after.slots[id]];
  }

  lemma RecordKeepsInv(s: State, directory: Id, content: Option<Manifest>)
    requires Inv(s)
    ensures Inv(RecordFailure(s, directory, content))
  {
    var after := RecordFailure(s, directory, content);
    if after != s {
      assert directory in s.slots ==> SlotOk(s.slots, directory, s.slots[directory]);
      NobodyNeedsTheUnloaded(s.slots, directory, after.slots[directory]);
      FewerNeeds(s.slots, directory, after.slots[directory]);
      PutKeepsSlots(s.slots, directory, after.slots[directory]);
    }
  }

  lemma LoadKeepsInv(s: State, directory: Id, attempt: Attempt, reread: Option<Manifest>)
    requires Inv(s)
    ensures Inv(Load(s, directory, attempt, reread).0)
  {
    hide Inv, Accepts, Install, RecordFailure, Fault;
    if Prepare(s, directory, false, attempt).None? {
      RecordKeepsInv(s, directory, reread);
    } else {
      InstallKeepsInv(s, attempt.faults, attempt.content.value, attempt.start);
    }
  }

  lemma DiscoverKeepsInv(s: State, directory: Id, content: Option<Manifest>)
    requires Inv(s)
    ensures Inv(Discover(s, directory, content))
  {
    var after := Discover(s, directory, content);
    if after != s {
      NobodyNeedsTheUnloaded(s.slots, directory, after.slots[directory]);
      FewerNeeds(s.slots, directory, after.slots[directory]);
      PutKeepsSlots(s.slots, directory, after.slots[directory]);
    }
  }

  // ----- unloading ------------------------------------------------------------------------

  /** Changing one slot without new needs, so that it still serves whoever needs it. */
  lemma PutKeepsInv(s: State, id: Id, slot: Slot)
    requires Inv(s) && id in s.slots
    requires SlotOk(s.slots, id, slot) && ServesAll(s.slots, id, slot) && Needs(slot) <= Needs(s.slots[id])
    ensures Inv(Put(s, id, slot))
  {
    hide SlotsOk, SlotOk, Acyclic, ServesAll, Edges, Needs;
    PutKeepsSlots(s.slots, id, slot);
    FewerNeeds(s.slots, id, slot);
  }

  lemma RetirePhaseKeepsInv(s: State, id: Id)
    requires Inv(s) && id in s.slots
    ensures Inv(Put(s, id, s.slots[id].(current := s.slots[id].current.(phase := Retiring))))
  {
    var slot := s.slots[id];
    assert SlotOk(s.slots, id, slot);
    OldSlotServes(s.slots, id);
    if slot.current.loaded && Active(slot.current) { InactiveServed(s.slots, slot.current.manifest); }
    hide SlotsOk, Edges, Served;
    PutKeepsInv(s, id, slot.(current := slot.current.(phase := Retiring)));
  }

  lemma RetireKeepsInv(s: State, id: Id, cleanup: Cleanup)
    requires Inv(s) && id in s.slots
    ensures Inv(Retire(s, id, cleanup))
  {
    hide Inv, Fault;
    RetirePhaseKeepsInv(s, id);
    FaultKeepsInv(Put(s, id, s.slots[id].(current := s.slots[id].current.(phase := Retiring))), cleanup.faults);
  }

  lemma SlotDependent(slots: Slots, id: Id, other: Id, activeOnly: bool)
    requires other in slots && other != id && !HasDependent(slots, id, activeOnly)
    ensures !NeedsSlot(slots[other].current, id, activeOnly)
    ensures slots[other].replacement.Some? ==> !NeedsSlot(slots[other].replacement.value, id, activeOnly)
  {
    assert !Dependent(slots, id, other, activeOnly);
  }

  lemma UnneededServes(slots: Slots, id: Id, slot: Slot)
    requires !HasDependent(slots, id, false)
    ensures ServesAll(slots, id, slot)
  {
    forall other | other in slots && other != id
      ensures ServesScript(slot, slots[other].current, id)
      ensures slots[other].replacement.Some? ==> ServesScript(slot, slots[other].replacement.value, id)
    {
      SlotDependent(slots, id, other, false);
    }
  }

  /** Neither faults nor a change of its own slot give a plugin a dependent. */
  lemma StillUnneeded(slots: Slots, id: Id, slot: Slot, faults: Faults)
    requires !HasDependent(slots, id, false)
    ensures !HasDependent(Fault(slots[id := slot], faults), id, false)
  {
    var after := Fault(slots[id := slot], faults);
    forall other | other in after ensures !Dependent(after, id, other, false) {
      if other != id { SlotDependent(slots, id, other, false); }
    }
  }

  lemma RetireStillUnneeded(s: State, id: Id, cleanup: Cleanup)
    requires id in s.slots && !HasDependent(s.slots, id, false)
    ensures !HasDependent(Retire(s, id, cleanup).slots, id, false)
  {
    hide HasDependent, Fault;
    StillUnneeded(s.slots, id, s.slots[id].(current := s.slots[id].current.(phase := Retiring)), cleanup.faults);
  }

  lemma DisableKeepsInv(s: State, id: Id, cleanup: Cleanup)
    requires Inv(s) && id in s.slots && s.slots[id].replacement.None? && !HasDependent(s.slots, id, false)
    ensures Inv(Disable(s, id, cleanup).0)
  {
    RetireKeepsInv(s, id, cleanup);
    RetireStillUnneeded(s, id, cleanup);
    var after := Retire(s, id, cleanup);
    var slot := after.slots[id].(current := after.slots[id].current.(phase := Disabled, loaded := false));
    UnneededServes(after.slots, id, slot);
    assert SlotOk(after.slots, id, after.slots[id]);
    hide SlotsOk, Edges, ServesAll, Retire, HasDependent;
    if cleanup.released { PutKeepsInv(after, id, slot); }
  }

  lemma DropKeepsInv(s: State, id: Id, cleanup: Cleanup)
    requires Inv(s) && id in s.slots && s.slots[id].replacement.Some?
    requires !HasDependent(s.slots, id, false)
    ensures Inv(DropReplacement(s, id, cleanup).0)
    ensures !HasDependent(DropReplacement(s, id, cleanup).0.slots, id, false)
    ensures DropReplacement(s, id, cleanup).1 ==> DropReplacement(s, id, cleanup).0.slots[id].replacement.None?
  {
    var slot := s.slots[id];
    var retiring := slot.(replacement := Some(slot.replacement.value.(phase := Retiring)));
    assert SlotOk(s.slots, id, slot);
    UnneededServes(s.slots, id, retiring);
    if slot.replacement.value.loaded && Active(slot.replacement.value) {
      InactiveServed(s.slots, slot.replacement.value.manifest);
    }
    hide SlotsOk, Edges, ServesAll, HasDependent, Served;
    PutKeepsInv(s, id, retiring);
    var put := Put(s, id, retiring);
    StillUnneeded(s.slots, id, retiring, cleanup.faults);
    FaultKeepsInv(put, cleanup.faults);
    if cleanup.released { DropStep(put.(slots := Fault(put.slots, cleanup.faults)), id); }
  }

  /** Dropping a replacement harms nobody when nothing needs the plugin. */
  lemma DropStep(s: State, id: Id)
    requires Inv(s) && id in s.slots && !HasDependent(s.slots, id, false)
    ensures Inv(Put(s, id, s.slots[id].(replacement := None)))
    ensures !HasDependent(Put(s, id, s.slots[id].(replacement := None)).slots, id, false)
  {
    var slot := s.slots[id].(replacement := None);
    assert SlotOk(s.slots, id, s.slots[id]);
    UnneededServes(s.slots, id, slot);
    StillUnneeded(s.slots, id, slot, {});
    PutKeepsInv(s, id, slot);
    var after := Put(s, id, slot);
    forall other | other in after.slots ensures !Dependent(after.slots, id, other, false) {
      if other != id { SlotDependent(s.slots, id, other, false); }
    }
  }

  lemma UnloadKeepsInv(s: State, id: Id, first: Cleanup, second: Cleanup)
    requires Inv(s)
    ensures Inv(Unload(s, id, first, second).0)
  {
    hide Inv, HasDependent, DropReplacement, Disable;
    if id in s.slots && !HasDependent(s.slots, id, false) {
      if s.slots[id].replacement.None? {
        DisableKeepsInv(s, id, second);
      } else {
        DropKeepsInv(s, id, first);
        DropKeepsIds(s, id, first);
        var (dropped, done) := DropReplacement(s, id, first);
        if done { DisableKeepsInv(dropped, id, second); }
      }
    }
  }

  lemma DropKeepsIds(s: State, id: Id, cleanup: Cleanup)
    requires id in s.slots && s.slots[id].replacement.Some?
    ensures DropReplacement(s, id, cleanup).0.slots.Keys == s.slots.Keys
  {
  }

  // ----- replacing --------------------------------------------------------------------------

  /** No script that runs or is about to run needs the plugin. */
  ghost predicate Idle(slots: Slots, id: Id) {
    forall other :: other in slots && other != id ==>
      && !(slots[other].current.loaded && Active(slots[other].current) && id in slots[other].current.manifest.needs)
      && (slots[other].replacement.Some? ==>
            var r := slots[other].replacement.value;
            !(r.loaded && Active(r) && id in r.manifest.needs))
  }

  lemma FaultedIdle(slots: Slots, id: Id, faults: Faults)
    requires Idle(slots, id)
    ensures Idle(Fault(slots, faults), id)
  {
  }

  lemma PausedIsIdle(slots: Slots, id: Id)
    requires SlotsOk(slots) && id in slots
    requires slots[id].current.phase == Paused || (slots[id].replacement.Some? && slots[id].resumeAs == Paused)
    ensures Idle(slots, id)
  {
    forall other | other in slots && other != id
      ensures !(slots[other].current.loaded && Active(slots[other].current) && id in slots[other].current.manifest.needs)
      ensures slots[other].replacement.Some? ==>
                var r := slots[other].replacement.value;
                !(r.loaded && Active(r) && id in r.manifest.needs)
    {
      assert SlotOk(slots, other, slots[other]);
    }
  }

  /** A loaded script of a tolerated version serves everybody, if it runs or nobody active needs it. */
  lemma NewCurrentServes(slots: Slots, id: Id, slot: Slot)
    requires slot.current.loaded && slot.replacement.None? && slot.current.phase in {Running, Paused}
    requires Tolerated(slots, id, slot.current.manifest.version)
    requires slot.current.phase == Paused ==> Idle(slots, id)
    ensures ServesAll(slots, id, slot)
  {
  }

  lemma RetireTolerated(s: State, id: Id, cleanup: Cleanup, version: Version)
    requires id in s.slots && Tolerated(s.slots, id, version)
    ensures Tolerated(Retire(s, id, cleanup).slots, id, version)
  {
  }

  lemma RetireServed(s: State, id: Id, cleanup: Cleanup, manifest: Manifest)
    requires id in s.slots && id !in manifest.needs && Served(s.slots, manifest, true)
    ensures Served(Retire(s, id, cleanup).slots, manifest, true)
  {
    hide Serves;
    var put := Put(s, id, s.slots[id].(current := s.slots[id].current.(phase := Retiring)));
    assert Served(put.slots, manifest, true);
    FaultedServed(put.slots, cleanup.faults, manifest, true);
  }

  lemma RetireIdle(s: State, id: Id, cleanup: Cleanup)
    requires id in s.slots && Idle(s.slots, id)
    ensures Idle(Retire(s, id, cleanup).slots, id)
  {
  }

  /** Retiring the current script leaves the replacement as it was, save for a fault. */
  lemma RetireKeepsReplacement(s: State, id: Id, cleanup: Cleanup)
    requires id in s.slots && s.slots[id].replacement.Some?
    ensures id in Retire(s, id, cleanup).slots
    ensures var was, now := s.slots[id], Retire(s, id, cleanup).slots[id];
            && now.replacement.Some? && now.resumeAs == was.resumeAs
            && now.replacement.value.manifest == was.replacement.value.manifest
            && now.replacement.value.loaded == was.replacement.value.loaded
  {
  }

  lemma SwapKeepsInv(s: State, id: Id, cleanup: Cleanup)
    requires Inv(s) && id in s.slots && s.slots[id].replacement.Some? && s.slots[id].replacement.value.phase == Loading
    ensures Inv(Swap(s, id, cleanup).0)
  {
    var manifest := s.slots[id].replacement.value.manifest;
    if Accepts(s.slots, manifest) {
      RetireKeepsInv(s, id, cleanup);
      if cleanup.released {
        assert SlotOk(s.slots, id, s.slots[id]);
        AcceptedIsServed(s.slots, manifest);
        RetireServed(s, id, cleanup, manifest);
        RetireTolerated(s, id, cleanup, manifest.version);
        RetireKeepsReplacement(s, id, cleanup);
        if s.slots[id].resumeAs == Paused {
          PausedIsIdle(s.slots, id);
          RetireIdle(s, id, cleanup);
        }
        var after := Retire(s, id, cleanup);
        hide Retire, Accepts, Served, Serves, SlotsOk, Tolerated, Idle, Edges;
        InstallReplacement(after, id, s.nextOrder);
      }
    }
  }

  /** The swap itself, once the current script is cleaned. */
  lemma InstallReplacement(s: State, id: Id, order: nat)
    requires Inv(s) && id in s.slots && s.slots[id].replacement.Some? && s.slots[id].replacement.value.loaded
    requires Served(s.slots, s.slots[id].replacement.value.manifest, true)
    requires Tolerated(s.slots, id, s.slots[id].replacement.value.manifest.version)
    requires s.slots[id].resumeAs == Paused ==> Idle(s.slots, id)
    ensures var slot := s.slots[id];
            Inv(Put(s, id, slot.(current := slot.replacement.value.(phase := slot.resumeAs, order := order),
                                 replacement := None)))
  {
    var slot := s.slots[id];
    assert SlotOk(s.slots, id, slot);
    var next := slot.(current := slot.replacement.value.(phase := slot.resumeAs, order := order), replacement := None);
    InactiveServed(s.slots, next.current.manifest);
    NewCurrentServes(s.slots, id, next);
    hide SlotsOk, Served, Tolerated, Idle, Edges, ServesAll;
    PutKeepsInv(s, id, next);
  }

  /** Writes down what the replacement will become. */
  lemma NoteKeepsInv(s: State, id: Id)
    requires Inv(s) && id in s.slots && s.slots[id].replacement.None?
    ensures Inv(Put(s, id, s.slots[id].(resumeAs := if s.slots[id].current.phase == Paused then Paused else Running)))
  {
    var slot := s.slots[id].(resumeAs := if s.slots[id].current.phase == Paused then Paused else Running);
    assert SlotOk(s.slots, id, s.slots[id]);
    OldSlotServes(s.slots, id);
    hide SlotsOk, Edges, Served;
    assert ServesAll(s.slots, id, slot);
    PutKeepsInv(s, id, slot);
  }

  /** A slot without a replacement whose note is what a paused plugin leaves. */
  ghost predicate Noted(slots: Slots, id: Id) {
    && id in slots && slots[id].replacement.None?
    && (slots[id].resumeAs == Paused ==> slots[id].current.phase in {Paused, Retiring} && Idle(slots, id))
  }

  lemma NoteIsNoted(s: State, id: Id)
    requires Inv(s) && id in s.slots && s.slots[id].replacement.None?
    ensures Noted(Put(s, id, s.slots[id].(resumeAs := if s.slots[id].current.phase == Paused then Paused else Running)).slots, id)
  {
    if s.slots[id].current.phase == Paused { PausedIsIdle(s.slots, id); }
  }

  lemma FaultedNoted(slots: Slots, id: Id, faults: Faults)
    requires Noted(slots, id)
    ensures Noted(Fault(slots, faults), id)
  {
    hide Idle;
    if slots[id].resumeAs == Paused { FaultedIdle(slots, id, faults); }
  }

  lemma IdleServed(slots: Slots, id: Id, slot: Slot)
    requires SlotsOk(slots) && Noted(slots, id)
    requires slot == slots[id].(replacement := slot.replacement)
    requires slot.resumeAs in {Running, Paused}
    ensures ServesAll(slots, id, slot)
  {
    OldSlotServes(slots, id);
    hide SlotsOk;
  }

  lemma HoldKeepsInv(s: State, id: Id, candidate: Script)
    requires Inv(s) && Noted(s.slots, id)
    requires ScriptOk(s.slots, id, candidate)
    requires candidate.phase in {Loading, Retiring, Failed} && (candidate.phase == Loading ==> candidate.loaded)
    requires forall need :: need in candidate.manifest.needs ==> !ReachesOrIs(Edges(s.slots), need, id)
    ensures Inv(Put(s, id, s.slots[id].(replacement := Some(candidate))))
  {
    var slot := s.slots[id].(replacement := Some(candidate));
    assert SlotOk(s.slots, id, s.slots[id]);
    IdleServed(s.slots, id, slot);
    hide SlotsOk, Edges, Served, ServesAll, Idle;
    assert SlotOk(s.slots, id, slot);
    PutKeepsSlots(s.slots, id, slot);
    MoreNeeds(s.slots, id, slot, candidate.manifest.needs.Keys);
  }

  lemma HeldKeepsInv(s: State, id: Id, manifest: Manifest, start: Start, faults: Faults, first: Cleanup)
    requires Inv(s) && Noted(s.slots, id) && Accepts(s.slots, manifest)
    requires manifest.id == id && id !in manifest.needs
    ensures var candidate := Candidate(manifest, start);
            var started := s.(slots := Fault(s.slots, faults));
            var cleaned := if start.Ready? then started else started.(slots := Fault(started.slots, first.faults));
            Inv(cleaned) && Inv(Put(cleaned, id, cleaned.slots[id].(replacement := Some(candidate))))
  {
    var candidate := Candidate(manifest, start);
    var started := s.(slots := Fault(s.slots, faults));
    var cleaned := if start.Ready? then started else started.(slots := Fault(started.slots, first.faults));
    CandidateOk(s.slots, faults, manifest, start);
    FaultKeepsInv(s, faults);
    FaultKeepsEdges(s.slots, faults);
    FaultedNoted(s.slots, id, faults);
    FaultKeepsInv(started, first.faults);
    FaultKeepsEdges(started.slots, first.faults);
    FaultedNoted(started.slots, id, first.faults);
    FaultedScript(started.slots, first.faults, id, candidate, false);
    hide Fault, Inv, Noted, Edges, ScriptOk, Tolerated, RunsAt;
    HoldKeepsInv(cleaned, id, candidate);
  }

  lemma PrepareReplacementKeepsInv(s: State, id: Id, attempt: Attempt, first: Cleanup, second: Cleanup)
    requires Inv(s) && id in s.slots && s.slots[id].replacement.None?
    ensures Inv(PrepareReplacement(s, id, attempt, first, second).0)
  {
    hide Inv, Noted, Accepts, Fault, Swap;
    var noted := Put(s, id, s.slots[id].(resumeAs := if s.slots[id].current.phase == Paused then Paused else Running));
    NoteKeepsInv(s, id);
    NoteIsNoted(s, id);
    var candidate := Prepare(noted, id, true, attempt);
    if candidate.Some? {
      HeldKeepsInv(noted, id, attempt.content.value, attempt.start, attempt.faults, first);
      var started := noted.(slots := Fault(noted.slots, attempt.faults));
      if candidate.value.phase == Loading {
        SwapKeepsInv(Put(started, id, started.slots[id].(replacement := candidate)), id, second);
      }
    }
  }

  /** Forgetting a replacement whose clean-up finished. */
  lemma ForgetKeepsInv(s: State, id: Id)
    requires Inv(s) && id in s.slots
    ensures Inv(Put(s, id, s.slots[id].(replacement := None)))
  {
    var slot := s.slots[id].(replacement := None);
    assert SlotOk(s.slots, id, s.slots[id]);
    OldSlotServes(s.slots, id);
    hide SlotsOk, Edges, Served;
    assert ServesAll(s.slots, id, slot);
    PutKeepsInv(s, id, slot);
  }

  lemma ReloadKeepsInv(s: State, id: Id, active: bool, attempt: Attempt, first: Cleanup, second: Cleanup)
    requires Inv(s)
    ensures Inv(Reload(s, id, active, attempt, first, second).0)
  {
    hide Inv, PrepareReplacement, Swap, Fault;
    if id in s.slots && !active {
      if s.slots[id].replacement.None? {
        PrepareReplacementKeepsInv(s, id, attempt, first, second);
      } else if s.slots[id].replacement.value.phase != Loading {
        FaultKeepsInv(s, first.faults);
        ForgetKeepsInv(s.(slots := Fault(s.slots, first.faults)), id);
      } else {
        SwapKeepsInv(s, id, second);
      }
    }
  }

  // ----- pausing and resuming -----------------------------------------------------------------

  lemma PauseKeepsInv(s: State, id: Id, active: bool, cleared: bool)
    requires Inv(s)
    ensures Inv(Pause(s, id, active, cleared).0)
  {
    if Pause(s, id, active, cleared).0 != s {
      var slot := s.slots[id].(current := s.slots[id].current.(phase := Paused));
      assert SlotOk(s.slots, id, s.slots[id]);
      InactiveServed(s.slots, slot.current.manifest);
      OldSlotServes(s.slots, id);
      forall other | other in s.slots && other != id
        ensures ServesScript(slot, s.slots[other].current, id)
        ensures s.slots[other].replacement.Some? ==> ServesScript(slot, s.slots[other].replacement.value, id)
      {
        SlotDependent(s.slots, id, other, true);
      }
      hide SlotsOk, Edges, Served, ServesScript;
      PutKeepsInv(s, id, slot);
    }
  }

  lemma ResumeKeepsInv(s: State, id: Id, cleared: bool)
    requires Inv(s)
    ensures Inv(Resume(s, id, cleared).0)
  {
    if Resume(s, id, cleared).0 != s {
      var slot := s.slots[id].(current := s.slots[id].current.(phase := Running));
      assert SlotOk(s.slots, id, s.slots[id]);
      AcceptedIsServed(s.slots, slot.current.manifest);
      hide Accepts;
      OldSlotServes(s.slots, id);
      NewCurrentServes(s.slots, id, slot);
      hide SlotsOk, Edges, Served, ServesAll;
      PutKeepsInv(s, id, slot);
    }
  }
}
