/** Unloading everything: dependents first, and only failed clean-ups leave anything behind. */
module PluginSweep {
  import opened DependencyGraph
  import opened PluginModel
  import opened PluginSafety

  // ----- one unload --------------------------------------------------------------------

  predicate SameLoad(a: Slot, b: Slot) {
    Needs(a) == Needs(b) && (SlotAlive(a) <==> SlotAlive(b))
  }

  /** The other slots keep their loaded scripts; this one needs no more than before. */
  predicate Shrinks(before: Slots, after: Slots, id: Id) {
    && after.Keys == before.Keys
    && (forall other :: other in before && other != id ==> SameLoad(before[other], after[other]))
    && (id in before ==> Needs(after[id]) <= Needs(before[id]))
  }

  lemma FaultSlotSameLoad(slot: Slot, id: Id, faults: Faults)
    ensures SameLoad(slot, FaultSlot(slot, id, faults))
  {
  }

  lemma FaultShrinks(before: Slots, slot: Slot, id: Id, faults: Faults)
    requires id in before && Needs(slot) <= Needs(before[id])
    ensures Shrinks(before, Fault(before[id := slot], faults), id)
    ensures SameLoad(slot, Fault(before[id := slot], faults)[id])
  {
    forall other | other in before
      ensures SameLoad(before[id := slot][other], Fault(before[id := slot], faults)[other])
    {
      FaultSlotSameLoad(before[id := slot][other], other, faults);
    }
    hide FaultSlot, SlotAlive;
  }

  lemma RetireShrinks(s: State, id: Id, cleanup: Cleanup)
    requires id in s.slots
    ensures Shrinks(s.slots, Retire(s, id, cleanup).slots, id)
    ensures s.slots[id].replacement.None? ==> Retire(s, id, cleanup).slots[id].replacement.None?
  {
    FaultShrinks(s.slots, s.slots[id].(current := s.slots[id].current.(phase := Retiring)), id, cleanup.faults);
  }

  /** Whatever the shrunken slot becomes, it may shrink further. */
  lemma PutShrinks(before: Slots, now: Slots, id: Id, slot: Slot)
    requires Shrinks(before, now, id) && id in before && Needs(slot) <= Needs(now[id])
    ensures Shrinks(before, now[id := slot], id)
  {
    hide Needs, SlotAlive;
  }

  lemma DisableShrinks(s: State, id: Id, cleanup: Cleanup)
    requires id in s.slots && s.slots[id].replacement.None?
    ensures Shrinks(s.slots, Disable(s, id, cleanup).0.slots, id)
    ensures Disable(s, id, cleanup).1 ==> !Alive(Disable(s, id, cleanup).0.slots, id)
  {
    RetireShrinks(s, id, cleanup);
    hide Retire, SameLoad;
    var slots := Retire(s, id, cleanup).slots;
    var slot := slots[id].(current := slots[id].current.(phase := Disabled, loaded := false));
    PutShrinks(s.slots, slots, id, slot);
    hide Shrinks;
  }

  lemma DropShrinks(s: State, id: Id, cleanup: Cleanup)
    requires id in s.slots && s.slots[id].replacement.Some?
    ensures Shrinks(s.slots, DropReplacement(s, id, cleanup).0.slots, id)
    ensures DropReplacement(s, id, cleanup).1 ==> DropReplacement(s, id, cleanup).0.slots[id].replacement.None?
  {
    var slot := s.slots[id].(replacement := Some(s.slots[id].replacement.value.(phase := Retiring)));
    FaultShrinks(s.slots, slot, id, cleanup.faults);
    hide SameLoad, Fault;
    var slots := Fault(s.slots[id := slot], cleanup.faults);
    PutShrinks(s.slots, slots, id, slots[id].(replacement := None));
    hide Shrinks;
  }

  lemma ShrinksOnward(a: Slots, b: Slots, c: Slots, id: Id)
    requires Shrinks(a, b, id) && Shrinks(b, c, id)
    ensures Shrinks(a, c, id)
  {
    hide Needs, SlotAlive;
  }

  lemma UnloadShrinks(s: State, id: Id, first: Cleanup, second: Cleanup)
    requires id in s.slots
    ensures Shrinks(s.slots, Unload(s, id, first, second).0.slots, id)
    ensures Unload(s, id, first, second).1 ==> !Alive(Unload(s, id, first, second).0.slots, id)
  {
    hide Shrinks, Alive, Disable, DropReplacement, HasDependent;
    if HasDependent(s.slots, id, false) {
      NothingShrinks(s.slots, id);
    } else if s.slots[id].replacement.None? {
      DisableShrinks(s, id, second);
    } else {
      DropShrinks(s, id, first);
      DropKeepsIds(s, id, first);
      var (dropped, done) := DropReplacement(s, id, first);
      if done {
        DisableShrinks(dropped, id, second);
        ShrinksOnward(s.slots, dropped.slots, Disable(dropped, id, second).0.slots, id);
      }
    }
  }

  lemma NothingShrinks(slots: Slots, id: Id)
    ensures Shrinks(slots, slots, id)
  {
  }

  /** A plugin has a dependent exactly when an edge leads to it. */
  lemma DependentIsEdge(slots: Slots, id: Id)
    requires SlotsOk(slots)
    ensures HasDependent(slots, id, false) <==> exists other :: (other, id) in Edges(slots)
  {
    if HasDependent(slots, id, false) {
      var other :| other in slots && Dependent(slots, id, other, false);
      assert (other, id) in Edges(slots);
    }
    if exists other :: (other, id) in Edges(slots) {
      var other :| (other, id) in Edges(slots);
      assert SlotOk(slots, other, slots[other]);
      assert Dependent(slots, id, other, false);
    }
  }

  // ----- the sweep -----------------------------------------------------------------------

  /** Nothing is tried twice, and nothing before everything that needed it at the start. */
  ghost predicate DependentsFirst(g: Graph, tried: seq<Id>) {
    && (forall i, j :: 0 <= i < j < |tried| ==> tried[i] != tried[j])
    && forall i, x :: 0 <= i < |tried| && (x, tried[i]) in g ==> x in tried[..i]
  }

  /** An untried plugin is as it was; a tried one was loaded; an unloaded one is gone. */
  predicate Tracks(start: Slots, w: Sweep, id: Id)
    requires id in start && id in w.state.slots
  {
    && Needs(w.state.slots[id]) <= Needs(start[id])
    && (id !in w.tried ==> SameLoad(start[id], w.state.slots[id]))
    && (id in w.unloaded ==> id in w.tried && !SlotAlive(w.state.slots[id]))
  }

  predicate AllTracked(start: Slots, w: Sweep) {
    w.state.slots.Keys == start.Keys && forall id :: id in start ==> Tracks(start, w, id)
  }

  ghost predicate SweepOk(start: State, w: Sweep) {
    && Inv(w.state)
    && AllTracked(start.slots, w)
    && (forall id :: id in w.tried ==> id in start.slots)
    && (forall id :: id in w.unloaded ==> id in w.tried)
    && DependentsFirst(Edges(start.slots), w.tried)
  }

  lemma UntriedEdgeStays(start: Slots, w: Sweep, x: Id, id: Id)
    requires AllTracked(start, w) && (x, id) in Edges(start) && x !in w.tried
    ensures (x, id) in Edges(w.state.slots)
  {
    assert Tracks(start, w, x);
    hide Needs;
  }

  /** Whoever needed a plugin without dependents has been tried before it. */
  lemma TriedAfterDependents(start: State, w: Sweep, id: Id, x: Id)
    requires SweepOk(start, w) && !HasDependent(w.state.slots, id, false) && (x, id) in Edges(start.slots)
    ensures x in w.tried
  {
    hide AllTracked, HasDependent, Acyclic, SlotsOk, Edges;
    DependentIsEdge(w.state.slots, id);
    if x !in w.tried { UntriedEdgeStays(start.slots, w, x, id); }
  }

  lemma TryKeepsOrder(start: State, w: Sweep, id: Id)
    requires SweepOk(start, w) && id !in w.tried && !HasDependent(w.state.slots, id, false)
    ensures DependentsFirst(Edges(start.slots), w.tried + [id])
  {
    hide Inv, AllTracked, HasDependent, Edges;
    var g, tried := Edges(start.slots), w.tried + [id];
    forall i, x | 0 <= i < |tried| && (x, tried[i]) in g ensures x in tried[..i] {
      if i == |w.tried| {
        TriedAfterDependents(start, w, id, x);
        assert tried[..i] == w.tried;
      } else {
        assert tried[..i] == w.tried[..i];
      }
    }
  }

  lemma UnloadTracks(start: Slots, w: Sweep, after: Sweep, id: Id)
    requires AllTracked(start, w) && Shrinks(w.state.slots, after.state.slots, id) && id in start
    requires after.tried == w.tried + [id]
    requires after.unloaded == w.unloaded ||
             (after.unloaded == w.unloaded + [id] && !SlotAlive(after.state.slots[id]))
    requires id !in w.unloaded
    ensures AllTracked(start, after)
  {
    hide Needs, SlotAlive;
    forall other | other in start ensures Tracks(start, after, other) {
      assert Tracks(start, w, other);
      if other != id { assert SameLoad(w.state.slots[other], after.state.slots[other]); }
    }
  }

  lemma TryTracks(start: Slots, w: Sweep, id: Id, cleanups: Cleanups)
    requires AllTracked(start, w)
    ensures AllTracked(start, Try(w, id, cleanups))
  {
    hide Unload, Needs, HasDependent, SlotAlive, Shrinks;
    if Alive(w.state.slots, id) && id !in w.tried && !HasDependent(w.state.slots, id, false) {
      var (first, second) := CleanupsOf(cleanups, id);
      UnloadShrinks(w.state, id, first, second);
      UnloadKeepsIds(w.state, id, first, second);
      assert Tracks(start, w, id);
      UnloadTracks(start, w, Try(w, id, cleanups), id);
    }
  }

  lemma UnloadKeepsIds(s: State, id: Id, first: Cleanup, second: Cleanup)
    requires id in s.slots
    ensures Unload(s, id, first, second).0.slots.Keys == s.slots.Keys
  {
    hide Unload, SameLoad;
    UnloadShrinks(s, id, first, second);
  }

  lemma TryKeepsSweep(start: State, w: Sweep, id: Id, cleanups: Cleanups)
    requires SweepOk(start, w)
    ensures SweepOk(start, Try(w, id, cleanups))
  {
    hide Inv, Unload, DependentsFirst, HasDependent, Tracks, Edges;
    TryTracks(start.slots, w, id, cleanups);
    if Alive(w.state.slots, id) && id !in w.tried && !HasDependent(w.state.slots, id, false) {
      var (first, second) := CleanupsOf(cleanups, id);
      TryKeepsOrder(start, w, id);
      UnloadKeepsInv(w.state, id, first, second);
    }
  }

  lemma {:induction false} PassKeepsSweep(start: State, w: Sweep, order: seq<Id>, cleanups: Cleanups)
    requires SweepOk(start, w)
    ensures SweepOk(start, Pass(w, order, cleanups))
    decreases |order|
  {
    hide SweepOk, Try;
    if order != [] {
      TryKeepsSweep(start, w, order[0], cleanups);
      PassKeepsSweep(start, Try(w, order[0], cleanups), order[1..], cleanups);
    }
  }

  /** What a sweep leaves: loaded plugins, and plugins whose clean-up failed half-way. */
  predicate Left(w: Sweep, id: Id) {
    Alive(w.state.slots, id) || (id in w.tried && id !in w.unloaded)
  }

  /** The plugin was tried, or something that is also left needed it at the start. */
  ghost predicate Explained(start: State, w: Sweep, id: Id) {
    id in w.tried || exists other :: (other, id) in Edges(start.slots) && Left(w, other)
  }

  /** In a sweep state, whoever is loaded and needed is needed by something that is left. */
  lemma NeededIsExplained(start: State, w: Sweep, id: Id, after: Sweep)
    requires SweepOk(start, w) && AllTracked(start.slots, after)
    requires after.unloaded == w.unloaded && w.tried <= after.tried
    requires HasDependent(w.state.slots, id, false)
    ensures Explained(start, after, id)
  {
    DependentIsEdge(w.state.slots, id);
    var other :| (other, id) in Edges(w.state.slots);
    assert Tracks(start.slots, w, other) && Tracks(start.slots, after, other);
    assert SlotAlive(w.state.slots[other]);
    hide HasDependent, Inv, DependentsFirst;
    assert other !in w.unloaded;
    if other !in after.tried { PrefixMember(w.tried, after.tried, other); }
    hide SlotAlive;
    assert (other, id) in Edges(start.slots);
    hide Needs;
    assert Left(after, other);
  }

  lemma SkippedIsExplained(start: State, w: Sweep, id: Id, after: Sweep)
    requires SweepOk(start, w) && SweepOk(start, after) && after.unloaded == w.unloaded
    requires Alive(w.state.slots, id) ==> id in w.tried || HasDependent(w.state.slots, id, false)
    requires w.tried <= after.tried && id !in after.tried
    ensures Alive(after.state.slots, id) ==> Explained(start, after, id)
  {
    hide Inv, HasDependent, DependentsFirst, Edges, Explained;
    PrefixMember(w.tried, after.tried, id);
    if Alive(after.state.slots, id) {
      assert Tracks(start.slots, w, id) && Tracks(start.slots, after, id);
      NeededIsExplained(start, w, id, after);
    }
  }

  lemma {:induction false} IdlePassExplains(start: State, w: Sweep, order: seq<Id>, cleanups: Cleanups)
    requires SweepOk(start, w)
    requires Pass(w, order, cleanups).unloaded == w.unloaded
    ensures var after := Pass(w, order, cleanups);
            forall id :: id in order && Alive(after.state.slots, id) ==> Explained(start, after, id)
    decreases |order|
  {
    hide SweepOk, Explained, Try, Alive;
    if order != [] {
      var id := order[0];
      var next := Try(w, id, cleanups);
      var after := Pass(w, order, cleanups);
      TryKeepsSweep(start, w, id, cleanups);
      PassKeepsSweep(start, w, order, cleanups);
      TryGrows(w, id, cleanups);
      PassGrows(next, order[1..], cleanups);
      IdlePassExplains(start, next, order[1..], cleanups);
      if id in after.tried {
        TriedIsExplained(start, after, id);
      } else {
        PrefixMember(next.tried, after.tried, id);
        SkippedIsUntouched(w, id, cleanups);
        SkippedIsExplained(start, w, id, after);
      }
    }
  }

  lemma SkippedIsUntouched(w: Sweep, id: Id, cleanups: Cleanups)
    requires id !in Try(w, id, cleanups).tried
    ensures Try(w, id, cleanups) == w
    ensures Alive(w.state.slots, id) ==> id in w.tried || HasDependent(w.state.slots, id, false)
  {
    hide Alive, HasDependent, Unload;
  }

  lemma TriedIsExplained(start: State, w: Sweep, id: Id)
    requires id in w.tried
    ensures Explained(start, w, id)
  {
  }

  lemma PrefixMember(p: seq<Id>, q: seq<Id>, id: Id)
    requires p <= q && id !in q
    ensures id !in p
  {
  }

  lemma {:induction false} SweepsFinish(start: State, w: Sweep, order: seq<Id>, cleanups: Cleanups)
    requires SweepOk(start, w)
    ensures var after := Sweeps(w, order, cleanups);
            && SweepOk(start, after)
            && forall id :: id in order && Alive(after.state.slots, id) ==> Explained(start, after, id)
    decreases |Untried(w, order)|
  {
    hide SweepOk, Explained, Alive;
    var after := Pass(w, order, cleanups);
    PassGrows(w, order, cleanups);
    PassKeepsSweep(start, w, order, cleanups);
    if |after.unloaded| == |w.unloaded| {
      IdlePassExplains(start, w, order, cleanups);
    } else {
      ProgressShrinks(w, after, order);
      SweepsFinish(start, after, order, cleanups);
    }
  }

  // ----- the results ---------------------------------------------------------------------

  predicate Covers(order: seq<Id>, slots: Slots) {
    forall id :: id in slots ==> id in order
  }

  /**
    * From any sound table and whatever the clean-ups do, plugins are tried once and dependents first;
    * whatever stays loaded was tried, or was needed by something else that is left.
    */
  lemma UnloadAllIsOrderly(s: State, order: seq<Id>, cleanups: Cleanups)
    requires Inv(s) && Covers(order, s.slots)
    ensures var w := UnloadAll(s, order, cleanups);
            && Inv(w.state) && w.state.slots.Keys == s.slots.Keys
            && DependentsFirst(Edges(s.slots), w.tried)
            && (forall id :: id in w.unloaded ==> id in w.tried && !Alive(w.state.slots, id))
            && forall id :: Alive(w.state.slots, id) ==> Explained(s, w, id)
  {
    hide Inv, Explained, SlotAlive, DependentsFirst;
    SweepsFinish(s, Sweep(s, [], []), order, cleanups) by {
      StartSweep(s);
    }
    var w := UnloadAll(s, order, cleanups);
    forall id | Alive(w.state.slots, id) ensures id in order {
      AliveInTable(w.state.slots, id);
    }
  }

  lemma AliveInTable(slots: Slots, id: Id)
    requires Alive(slots, id)
    ensures id in slots
  {
  }

  lemma StartSweep(s: State)
    requires Inv(s)
    ensures SweepOk(s, Sweep(s, [], []))
  {
  }

  predicate AllReleased(cleanups: Cleanups) {
    forall id :: id in cleanups ==> cleanups[id].0.released && cleanups[id].1.released
  }

  lemma ReleasedTry(w: Sweep, id: Id, cleanups: Cleanups)
    requires AllReleased(cleanups) && w.tried == w.unloaded
    ensures Try(w, id, cleanups).tried == Try(w, id, cleanups).unloaded
  {
    var (first, second) := CleanupsOf(cleanups, id);
    if id in w.state.slots && w.state.slots[id].replacement.Some? { DropKeepsIds(w.state, id, first); }
    hide HasDependent, Fault;
  }

  lemma {:induction false} ReleasedPass(w: Sweep, order: seq<Id>, cleanups: Cleanups)
    requires AllReleased(cleanups) && w.tried == w.unloaded
    ensures Pass(w, order, cleanups).tried == Pass(w, order, cleanups).unloaded
    decreases |order|
  {
    hide Try, AllReleased;
    if order != [] {
      ReleasedTry(w, order[0], cleanups);
      ReleasedPass(Try(w, order[0], cleanups), order[1..], cleanups);
    }
  }

  lemma {:induction false} ReleasedSweeps(w: Sweep, order: seq<Id>, cleanups: Cleanups)
    requires AllReleased(cleanups) && w.tried == w.unloaded
    ensures Sweeps(w, order, cleanups).tried == Sweeps(w, order, cleanups).unloaded
    decreases |Untried(w, order)|
  {
    hide Pass, AllReleased;
    var after := Pass(w, order, cleanups);
    PassGrows(w, order, cleanups);
    ReleasedPass(w, order, cleanups);
    if |after.unloaded| != |w.unloaded| {
      ProgressShrinks(w, after, order);
      ReleasedSweeps(after, order, cleanups);
    }
  }

  lemma NothingLeft(start: State, w: Sweep)
    requires Acyclic(Edges(start.slots)) && w.tried == w.unloaded
    requires forall id :: id in w.unloaded ==> !Alive(w.state.slots, id)
    requires forall id :: Alive(w.state.slots, id) ==> Explained(start, w, id)
    ensures forall id :: !Alive(w.state.slots, id)
  {
    hide SlotAlive, Edges, Acyclic;
    var left := set id | id in w.state.slots && Alive(w.state.slots, id);
    if left != {} {
      var top := AcyclicHasTop(Edges(start.slots), left);
    }
    forall id ensures !Alive(w.state.slots, id) { assert id !in left; }
  }

  /** When clean-ups do not fail, nothing stays loaded and everything tried was unloaded. */
  lemma UnloadAllIsComplete(s: State, order: seq<Id>, cleanups: Cleanups)
    requires Inv(s) && Covers(order, s.slots) && AllReleased(cleanups)
    ensures var w := UnloadAll(s, order, cleanups);
            w.tried == w.unloaded && forall id :: !Alive(w.state.slots, id)
  {
    hide DependentsFirst, SlotsOk, Acyclic, Edges, Explained, Alive, SlotAlive, Sweeps;
    UnloadAllIsOrderly(s, order, cleanups);
    ReleasedSweeps(Sweep(s, [], []), order, cleanups);
    NothingLeft(s, UnloadAll(s, order, cleanups));
  }

  // ----- who may be stranded --------------------------------------------------------------------

  /** The plugin is still loaded although nothing needs it and nobody tried to unload it. */
  predicate Stranded(w: Sweep, id: Id) {
    Alive(w.state.slots, id) && id !in w.tried && !HasDependent(w.state.slots, id, false)
  }

  /** Dropping only the replacement would let go of nothing, or the clean-ups do not stop there. */
  predicate Harmless(slot: Slot, cleanups: (Cleanup, Cleanup)) {
    ReplacementNeeds(slot) <= CurrentNeeds(slot) || !cleanups.0.released || cleanups.1.released
  }

  predicate AllHarmless(slots: Slots, cleanups: Cleanups) {
    forall id :: id in slots ==> Harmless(slots[id], CleanupsOf(cleanups, id))
  }

  /** The same needs, and nothing came to life. */
  predicate SameTable(a: Slots, b: Slots) {
    a.Keys == b.Keys && forall id :: id in a ==> Needs(a[id]) == Needs(b[id]) && (SlotAlive(b[id]) ==> SlotAlive(a[id]))
  }

  lemma SameTableOnward(a: Slots, b: Slots, c: Slots)
    requires SameTable(a, b) && SameTable(b, c)
    ensures SameTable(a, c)
  {
    hide Needs, SlotAlive;
  }

  lemma SameTableAlways(a: Slots)
    ensures SameTable(a, a)
  {
  }

  lemma FaultHarmless(slots: Slots, faults: Faults, cleanups: Cleanups)
    requires AllHarmless(slots, cleanups)
    ensures AllHarmless(Fault(slots, faults), cleanups) && SameTable(slots, Fault(slots, faults))
  {
    forall id | id in slots
      ensures Needs(Fault(slots, faults)[id]) == Needs(slots[id])
      ensures Harmless(Fault(slots, faults)[id], CleanupsOf(cleanups, id))
      ensures SlotAlive(Fault(slots, faults)[id]) ==> SlotAlive(slots[id])
    {
      FaultSlotSameLoad(slots[id], id, faults);
      assert Harmless(slots[id], CleanupsOf(cleanups, id));
    }
    hide Harmless, Needs, SlotAlive, FaultSlot;
  }

  /** One slot may let go of its needs, or keep them. */
  lemma PutHarmless(slots: Slots, id: Id, slot: Slot, cleanups: Cleanups)
    requires id in slots && AllHarmless(slots, cleanups) && Harmless(slot, CleanupsOf(cleanups, id))
    ensures AllHarmless(slots[id := slot], cleanups)
    ensures Needs(slot) == Needs(slots[id]) && (SlotAlive(slot) ==> SlotAlive(slots[id])) ==> SameTable(slots, slots[id := slot])
  {
    hide Needs, Harmless, SlotAlive;
  }

  lemma RetireHarmless(s: State, id: Id, cleanup: Cleanup, cleanups: Cleanups)
    requires id in s.slots && AllHarmless(s.slots, cleanups)
    ensures AllHarmless(Retire(s, id, cleanup).slots, cleanups) && SameTable(s.slots, Retire(s, id, cleanup).slots)
    ensures s.slots[id].replacement.None? ==> Retire(s, id, cleanup).slots[id].replacement.None?
  {
    var slot := s.slots[id].(current := s.slots[id].current.(phase := Retiring));
    assert Harmless(s.slots[id], CleanupsOf(cleanups, id));
    PutHarmless(s.slots, id, slot, cleanups);
    FaultHarmless(s.slots[id := slot], cleanup.faults, cleanups);
    SameTableOnward(s.slots, s.slots[id := slot], Fault(s.slots[id := slot], cleanup.faults));
    hide SameTable, AllHarmless, Harmless;
  }

  lemma DisableHarmless(s: State, id: Id, cleanup: Cleanup, cleanups: Cleanups)
    requires id in s.slots && AllHarmless(s.slots, cleanups) && s.slots[id].replacement.None?
    ensures var (after, done) := Disable(s, id, cleanup);
            AllHarmless(after.slots, cleanups) && (!done ==> SameTable(s.slots, after.slots))
  {
    RetireHarmless(s, id, cleanup, cleanups);
    hide Retire, SameTable, AllHarmless;
    var slots := Retire(s, id, cleanup).slots;
    PutHarmless(slots, id, slots[id].(current := slots[id].current.(phase := Disabled, loaded := false)), cleanups);
  }

  lemma DropHarmless(s: State, id: Id, cleanup: Cleanup, cleanups: Cleanups)
    requires id in s.slots && AllHarmless(s.slots, cleanups) && s.slots[id].replacement.Some?
    ensures var (after, done) := DropReplacement(s, id, cleanup);
            && AllHarmless(after.slots, cleanups) && id in after.slots
            && (done ==> after.slots[id].replacement.None?)
            && (!done || ReplacementNeeds(s.slots[id]) <= CurrentNeeds(s.slots[id]) ==> SameTable(s.slots, after.slots))
  {
    var slot := s.slots[id].(replacement := Some(s.slots[id].replacement.value.(phase := Retiring)));
    assert Harmless(s.slots[id], CleanupsOf(cleanups, id));
    PutHarmless(s.slots, id, slot, cleanups);
    FaultHarmless(s.slots[id := slot], cleanup.faults, cleanups);
    var after := Fault(s.slots[id := slot], cleanup.faults);
    SameTableOnward(s.slots, s.slots[id := slot], after);
    PutHarmless(after, id, after[id].(replacement := None), cleanups);
    SameFaultNeeds(slot, id, cleanup.faults);
    var dropped := after[id := after[id].(replacement := None)];
    if ReplacementNeeds(s.slots[id]) <= CurrentNeeds(s.slots[id]) { SameTableOnward(s.slots, after, dropped); }
    hide SameTable, AllHarmless, Fault, Harmless;
  }

  lemma SameFaultNeeds(slot: Slot, id: Id, faults: Faults)
    ensures CurrentNeeds(FaultSlot(slot, id, faults)) == CurrentNeeds(slot)
    ensures ReplacementNeeds(FaultSlot(slot, id, faults)) == ReplacementNeeds(slot)
    ensures FaultSlot(slot, id, faults).replacement.Some? <==> slot.replacement.Some?
  {
  }

  lemma UnloadHarmless(s: State, id: Id, cleanups: Cleanups)
    requires id in s.slots && AllHarmless(s.slots, cleanups)
    ensures var (after, done) := Unload(s, id, CleanupsOf(cleanups, id).0, CleanupsOf(cleanups, id).1);
            AllHarmless(after.slots, cleanups) && (!done ==> SameTable(s.slots, after.slots))
  {
    SameTableAlways(s.slots);
    assert Harmless(s.slots[id], CleanupsOf(cleanups, id));
    var (first, second) := CleanupsOf(cleanups, id);
    hide SameTable, AllHarmless, HasDependent, Retire, Fault;
    if s.slots[id].replacement.None? {
      DisableHarmless(s, id, second, cleanups);
    } else {
      DropHarmless(s, id, first, cleanups);
      var (dropped, done) := DropReplacement(s, id, first);
      if done {
        DisableHarmless(dropped, id, second, cleanups);
        if !second.released { SameTableOnward(s.slots, dropped.slots, Disable(dropped, id, second).0.slots); }
      }
    }
  }

  lemma TryHarmless(w: Sweep, id: Id, cleanups: Cleanups)
    requires AllHarmless(w.state.slots, cleanups)
    ensures var after := Try(w, id, cleanups);
            && AllHarmless(after.state.slots, cleanups)
            && (after.unloaded == w.unloaded ==> SameTable(w.state.slots, after.state.slots))
  {
    SameTableAlways(w.state.slots);
    if id in w.state.slots { UnloadHarmless(w.state, id, cleanups); }
    hide SameTable, Unload, HasDependent, AllHarmless;
  }

  lemma {:induction false} PassHarmless(w: Sweep, order: seq<Id>, cleanups: Cleanups)
    requires AllHarmless(w.state.slots, cleanups)
    ensures var after := Pass(w, order, cleanups);
            && AllHarmless(after.state.slots, cleanups)
            && (after.unloaded == w.unloaded ==> SameTable(w.state.slots, after.state.slots))
    decreases |order|
  {
    hide Try, SameTable, AllHarmless;
    if order == [] {
      SameTableAlways(w.state.slots);
    } else {
      var next := Try(w, order[0], cleanups);
      var after := Pass(next, order[1..], cleanups);
      TryHarmless(w, order[0], cleanups);
      PassHarmless(next, order[1..], cleanups);
      TryGrows(w, order[0], cleanups);
      PassGrows(next, order[1..], cleanups);
      if after.unloaded == w.unloaded {
        assert next.unloaded == w.unloaded;
        SameTableOnward(w.state.slots, next.state.slots, after.state.slots);
      }
    }
  }

  lemma SameTableSameDependents(a: Slots, b: Slots, id: Id)
    requires SlotsOk(a) && SlotsOk(b) && SameTable(a, b)
    ensures HasDependent(a, id, false) ==> HasDependent(b, id, false)
  {
    DependentIsEdge(a, id);
    DependentIsEdge(b, id);
    hide SlotsOk, HasDependent, Needs, SlotAlive;
    if HasDependent(a, id, false) {
      var other :| (other, id) in Edges(a);
      assert Needs(a[other]) == Needs(b[other]);
      assert (other, id) in Edges(b);
    }
  }

  lemma {:induction false} IdlePassStrandsNobody(start: State, w: Sweep, order: seq<Id>, cleanups: Cleanups)
    requires SweepOk(start, w) && AllHarmless(w.state.slots, cleanups)
    requires Pass(w, order, cleanups).unloaded == w.unloaded
    ensures var after := Pass(w, order, cleanups);
            forall id :: id in order ==> !Stranded(after, id)
    decreases |order|
  {
    hide SweepOk, HasDependent, Try, Alive, AllHarmless, SameTable;
    if order != [] {
      var id := order[0];
      var next := Try(w, id, cleanups);
      var after := Pass(w, order, cleanups);
      TryKeepsSweep(start, w, id, cleanups);
      PassKeepsSweep(start, w, order, cleanups);
      TryGrows(w, id, cleanups);
      PassGrows(next, order[1..], cleanups);
      TryHarmless(w, id, cleanups);
      PassHarmless(w, order, cleanups);
      IdlePassStrandsNobody(start, next, order[1..], cleanups);
      if id !in after.tried {
        PrefixMember(next.tried, after.tried, id);
        SkippedIsUntouched(w, id, cleanups);
        SweepIsSound(start, w);
        SweepIsSound(start, after);
        SameTableSameDependents(w.state.slots, after.state.slots, id);
        SameTableAlive(w.state.slots, after.state.slots, id);
      }
    }
  }

  lemma SameTableAlive(a: Slots, b: Slots, id: Id)
    requires SameTable(a, b)
    ensures Alive(b, id) ==> Alive(a, id)
  {
    if id in b { assert id in a && (SlotAlive(b[id]) ==> SlotAlive(a[id])); }
    hide Needs;
  }

  lemma SweepIsSound(start: State, w: Sweep)
    requires SweepOk(start, w)
    ensures SlotsOk(w.state.slots) && w.state.slots.Keys == start.slots.Keys
  {
  }

  lemma {:induction false} SweepsStrandNobody(start: State, w: Sweep, order: seq<Id>, cleanups: Cleanups)
    requires SweepOk(start, w) && AllHarmless(w.state.slots, cleanups)
    ensures var after := Sweeps(w, order, cleanups);
            forall id :: id in order ==> !Stranded(after, id)
    decreases |Untried(w, order)|
  {
    hide SweepOk, HasDependent, Alive, AllHarmless;
    var after := Pass(w, order, cleanups);
    PassGrows(w, order, cleanups);
    PassKeepsSweep(start, w, order, cleanups);
    PassHarmless(w, order, cleanups);
    if |after.unloaded| == |w.unloaded| {
      IdlePassStrandsNobody(start, w, order, cleanups);
    } else {
      ProgressShrinks(w, after, order);
      SweepsStrandNobody(start, after, order, cleanups);
    }
  }

  /**
    * Nobody is stranded unless some pending replacement needs what its current script does not, and the
    * clean-up of that plugin ends with the replacement gone and the current script still there.
    */
  lemma UnloadAllStrandsNobody(s: State, order: seq<Id>, cleanups: Cleanups)
    requires Inv(s) && Covers(order, s.slots) && AllHarmless(s.slots, cleanups)
    ensures var w := UnloadAll(s, order, cleanups);
            forall id :: !Stranded(w, id)
  {
    hide Inv, Alive, HasDependent, DependentsFirst, AllHarmless, Explained, Sweeps;
    StartSweep(s);
    SweepsStrandNobody(s, Sweep(s, [], []), order, cleanups);
    UnloadAllIsOrderly(s, order, cleanups);
    var w := UnloadAll(s, order, cleanups);
    forall id | Alive(w.state.slots, id) ensures id in order { AliveInTable(w.state.slots, id); }
  }

  const Library := Script(Manifest("library", Version(1, 0, 0), map[]), Running, true, 2)
  const Old := Script(Manifest("user", Version(1, 0, 0), map[]), Retiring, true, 1)
  const New := Script(Manifest("user", Version(2, 0, 0), map["library" := Version(1, 0, 0)]), Loading, true, 0)

  /** A half-finished reload of one plugin whose new script needs another. */
  const Pending := State(map["library" := Slot(Library, None, Running), "user" := Slot(Old, Some(New), Running)], 3)

  /**
    * A pending replacement of `user` needs `library`, which the current script does not and nobody else
    * does; nobody needs `user`; its clean-up ends with the replacement gone and the current script still
    * there; and `library` stands before it in the order.
    */
  predicate Risky(s: State, front: seq<Id>, back: seq<Id>, cleanups: Cleanups, user: Id, library: Id) {
    && Covers(front + back, s.slots) && user !in front && library !in back
    && user != library && user in s.slots && library in s.slots && SlotAlive(s.slots[library])
    && LetsGo(s.slots[user], library)
    && (forall id :: id in s.slots && id != user ==> library !in Needs(s.slots[id]))
    && (forall id :: id in s.slots ==> user !in Needs(s.slots[id]))
    && CleanupsOf(cleanups, user).0.released && !CleanupsOf(cleanups, user).1.released
  }

  /** Only the replacement needs the plugin. */
  predicate LetsGo(slot: Slot, need: Id) {
    need in ReplacementNeeds(slot) && need !in CurrentNeeds(slot)
  }

  predicate Needless(slots: Slots, id: Id) {
    forall other :: other in slots ==> id !in Needs(slots[other])
  }

  lemma NeedlessHasNoDependent(slots: Slots, id: Id)
    requires Needless(slots, id)
    ensures !HasDependent(slots, id, false)
  {
  }

  /** Managing one plugin changes no more than the phases of the others. */
  lemma UnloadOthers(s: State, id: Id, first: Cleanup, second: Cleanup, other: Id, need: Id)
    requires other in s.slots && other != id && LetsGo(s.slots[other], need)
    ensures var after := Unload(s, id, first, second).0.slots; other in after && LetsGo(after[other], need)
  {
    hide HasDependent;
    if id in s.slots && s.slots[id].replacement.Some? { DropKeepsIds(s, id, first); }
  }

  lemma TryOthers(w: Sweep, id: Id, cleanups: Cleanups, other: Id, need: Id)
    requires other in w.state.slots && other != id && LetsGo(w.state.slots[other], need)
    ensures var after := Try(w, id, cleanups).state.slots; other in after && LetsGo(after[other], need)
  {
    hide Unload, HasDependent, LetsGo;
    UnloadOthers(w.state, id, CleanupsOf(cleanups, id).0, CleanupsOf(cleanups, id).1, other, need);
  }

  /** Nobody comes to need more, and who was not tried stays loaded. */
  lemma TryNeedless(w: Sweep, id: Id, cleanups: Cleanups, plugin: Id)
    requires plugin in w.state.slots
    ensures var after := Try(w, id, cleanups);
            && plugin in after.state.slots
            && (Needless(w.state.slots, plugin) ==> Needless(after.state.slots, plugin))
            && (plugin !in after.tried && SlotAlive(w.state.slots[plugin]) ==> SlotAlive(after.state.slots[plugin]))
            && (plugin in w.tried ==> plugin in after.tried)
            && (plugin in after.tried ==> plugin in w.tried || plugin == id)
  {
    hide Unload, HasDependent, SlotAlive, Needs;
    if Alive(w.state.slots, id) && id !in w.tried && !HasDependent(w.state.slots, id, false) {
      var (first, second) := CleanupsOf(cleanups, id);
      UnloadShrinks(w.state, id, first, second);
      var after := Unload(w.state, id, first, second).0.slots;
      forall other | other in after && Needless(w.state.slots, plugin) ensures plugin !in Needs(after[other]) {
        assert plugin !in Needs(w.state.slots[other]);
        if other != id { assert SameLoad(w.state.slots[other], after[other]); }
      }
      if plugin != id { assert SameLoad(w.state.slots[plugin], after[plugin]); }
    }
  }

  /** Before the user's turn: it waits, and the library is passed over. */
  ghost predicate Waiting(w: Sweep, user: Id, library: Id) {
    && user in w.state.slots && library in w.state.slots && SlotAlive(w.state.slots[library])
    && user !in w.tried && library !in w.tried && Needless(w.state.slots, user)
    && LetsGo(w.state.slots[user], library)
    && forall id :: id in w.state.slots && id != user ==> library !in Needs(w.state.slots[id])
  }

  /** After the user's turn: the library is there, and nobody needs it. */
  ghost predicate Passed(w: Sweep, library: Id) {
    && library in w.state.slots && SlotAlive(w.state.slots[library])
    && library !in w.tried && Needless(w.state.slots, library)
  }

  lemma TryWaits(w: Sweep, id: Id, cleanups: Cleanups, user: Id, library: Id)
    requires Waiting(w, user, library) && id != user && user != library
    ensures Waiting(Try(w, id, cleanups), user, library)
  {
    TryOthers(w, id, cleanups, user, library);
    TryNeedless(w, id, cleanups, user);
    TryNeedless(w, id, cleanups, library);
    UserNeeds(w, user, library);
    TryFewerNeeds(w, id, cleanups, user, library);
    hide Try, HasDependent, Needs, SlotAlive, LetsGo, Needless;
    if id == library { assert Try(w, id, cleanups) == w by { LibraryWaits(w, cleanups, library); } }
  }

  lemma TryFewerNeeds(w: Sweep, id: Id, cleanups: Cleanups, user: Id, library: Id)
    requires forall other :: other in w.state.slots && other != user ==> library !in Needs(w.state.slots[other])
    ensures var after := Try(w, id, cleanups).state.slots; forall other :: other in after && other != user ==> library !in Needs(after[other])
  {
    hide Unload, HasDependent, SlotAlive, Needs;
    if Alive(w.state.slots, id) && id !in w.tried && !HasDependent(w.state.slots, id, false) {
      var (first, second) := CleanupsOf(cleanups, id);
      UnloadShrinks(w.state, id, first, second);
      var after := Unload(w.state, id, first, second).0.slots;
      forall other | other in after && other != user ensures library !in Needs(after[other]) {
        if other != id { assert SameLoad(w.state.slots[other], after[other]); }
      }
    }
  }

  lemma UserNeeds(w: Sweep, user: Id, library: Id)
    requires user in w.state.slots && LetsGo(w.state.slots[user], library) && user != library
    ensures HasDependent(w.state.slots, library, false)
  {
    assert Dependent(w.state.slots, library, user, false);
  }

  lemma LibraryWaits(w: Sweep, cleanups: Cleanups, library: Id)
    requires HasDependent(w.state.slots, library, false)
    ensures Try(w, library, cleanups) == w
  {
  }

  lemma {:induction false} FrontWaits(w: Sweep, front: seq<Id>, cleanups: Cleanups, user: Id, library: Id)
    requires Waiting(w, user, library) && user !in front && user != library
    ensures Waiting(Pass(w, front, cleanups), user, library)
    decreases |front|
  {
    hide Waiting, Try;
    if front != [] {
      TryWaits(w, front[0], cleanups, user, library);
      FrontWaits(Try(w, front[0], cleanups), front[1..], cleanups, user, library);
    }
  }

  /** The user's turn: the replacement goes, the current script stays, and the library is needed no more. */
  lemma TurnPasses(w: Sweep, cleanups: Cleanups, user: Id, library: Id)
    requires Waiting(w, user, library) && user != library
    requires CleanupsOf(cleanups, user).0.released && !CleanupsOf(cleanups, user).1.released
    ensures Passed(Try(w, user, cleanups), library) && Try(w, user, cleanups).unloaded == w.unloaded
  {
    NeedlessHasNoDependent(w.state.slots, user);
    TryNeedless(w, user, cleanups, library);
    TryFewerNeeds(w, user, cleanups, user, library);
    var (first, second) := CleanupsOf(cleanups, user);
    DroppedNeeds(w.state, user, first, second, library);
    hide HasDependent, Fault, Needs, Needless, Unload;
    var after := Try(w, user, cleanups);
    assert after.state == Unload(w.state, user, first, second).0;
    assert forall other :: other in after.state.slots ==> library !in Needs(after.state.slots[other]);
    assert Needless(after.state.slots, library) by { NeedlessIs(after.state.slots, library); }
  }

  lemma NeedlessIs(slots: Slots, id: Id)
    requires forall other :: other in slots ==> id !in Needs(slots[other])
    ensures Needless(slots, id)
  {
  }

  lemma DroppedNeeds(s: State, id: Id, first: Cleanup, second: Cleanup, need: Id)
    requires id in s.slots && s.slots[id].replacement.Some? && !HasDependent(s.slots, id, false)
    requires first.released && !second.released && need !in CurrentNeeds(s.slots[id])
    ensures var (after, done) := Unload(s, id, first, second);
            && !done && id in after.slots && need !in Needs(after.slots[id])
  {
    DropKeepsIds(s, id, first);
    hide HasDependent;
  }

  lemma {:induction false} BackPasses(w: Sweep, back: seq<Id>, cleanups: Cleanups, library: Id)
    requires Passed(w, library) && library !in back
    ensures Passed(Pass(w, back, cleanups), library)
    decreases |back|
  {
    hide Try, SlotAlive, Needless;
    if back != [] {
      TryNeedless(w, back[0], cleanups, library);
      BackPasses(Try(w, back[0], cleanups), back[1..], cleanups, library);
    }
  }

  lemma {:induction false} TurnInBack(w: Sweep, back: seq<Id>, cleanups: Cleanups, user: Id, library: Id)
    requires Waiting(w, user, library) && user != library && user in back && library !in back
    requires CleanupsOf(cleanups, user).0.released && !CleanupsOf(cleanups, user).1.released
    ensures Passed(Pass(w, back, cleanups), library)
    decreases |back|
  {
    hide Try, Waiting, Passed;
    if back[0] == user {
      TurnPasses(w, cleanups, user, library);
      BackPasses(Try(w, user, cleanups), back[1..], cleanups, library);
    } else {
      TryWaits(w, back[0], cleanups, user, library);
      TurnInBack(Try(w, back[0], cleanups), back[1..], cleanups, user, library);
    }
  }

  lemma {:induction false} PassApart(w: Sweep, front: seq<Id>, back: seq<Id>, cleanups: Cleanups)
    ensures Pass(w, front + back, cleanups) == Pass(Pass(w, front, cleanups), back, cleanups)
    decreases |front|
  {
    hide Try;
    if front == [] {
      assert front + back == back;
    } else {
      assert (front + back)[1..] == front[1..] + back;
      PassApart(Try(w, front[0], cleanups), front[1..], back, cleanups);
    }
  }

  /** A second pass would not pass the library over. */
  lemma {:induction false} NextPassTries(w: Sweep, order: seq<Id>, cleanups: Cleanups, library: Id)
    requires library in order && (library in w.tried || Passed(w, library))
    ensures library in Pass(w, order, cleanups).tried
    decreases |order|
  {
    hide Try, Passed;
    var next := Try(w, order[0], cleanups);
    TryGrows(w, order[0], cleanups);
    PassGrows(next, order[1..], cleanups);
    if library in w.tried {
      MemberStays(w.tried, Pass(w, order, cleanups).tried, library);
    } else if order[0] == library {
      PassedIsTried(w, cleanups, library);
      MemberStays(next.tried, Pass(w, order, cleanups).tried, library);
    } else {
      PassedOn(w, order[0], cleanups, library);
      NextPassTries(next, order[1..], cleanups, library);
    }
  }

  lemma PassedOn(w: Sweep, id: Id, cleanups: Cleanups, library: Id)
    requires Passed(w, library) && id != library
    ensures Passed(Try(w, id, cleanups), library)
  {
    TryNeedless(w, id, cleanups, library);
    hide Try, SlotAlive, Needless;
  }

  lemma PassedIsTried(w: Sweep, cleanups: Cleanups, library: Id)
    requires Passed(w, library)
    ensures library in Try(w, library, cleanups).tried
  {
    NeedlessHasNoDependent(w.state.slots, library);
    hide HasDependent, Needless, Unload;
  }

  lemma MemberStays(p: seq<Id>, q: seq<Id>, id: Id)
    requires p <= q && id in p
    ensures id in q
  {
    var i :| 0 <= i < |p| && p[i] == id;
    assert q[i] == id;
  }

  lemma {:induction false} SweepsGrow(w: Sweep, order: seq<Id>, cleanups: Cleanups)
    ensures Pass(w, order, cleanups).tried <= Sweeps(w, order, cleanups).tried
    decreases |Untried(w, order)|
  {
    hide Pass;
    var after := Pass(w, order, cleanups);
    PassGrows(w, order, cleanups);
    if |after.unloaded| != |w.unloaded| {
      ProgressShrinks(w, after, order);
      PassGrows(after, order, cleanups);
      SweepsGrow(after, order, cleanups);
    }
  }

  /** In such a table the library is stranded exactly when the first pass unloads nothing. */
  lemma RiskyMayStrand(s: State, front: seq<Id>, back: seq<Id>, cleanups: Cleanups, user: Id, library: Id)
    requires Risky(s, front, back, cleanups, user, library)
    ensures Stranded(UnloadAll(s, front + back, cleanups), library) <==>
              Pass(Sweep(s, [], []), front + back, cleanups).unloaded == []
  {
    var start := Sweep(s, [], []);
    var after := Pass(start, front + back, cleanups);
    FirstPassPasses(s, front, back, cleanups, user, library);
    InOrder(s, front, back, library);
    hide Risky, Passed, Pass;
    PassGrows(start, front + back, cleanups);
    if after.unloaded == [] {
      assert UnloadAll(s, front + back, cleanups) == after;
      PassedIsStranded(after, library);
    } else {
      ProgressShrinks(start, after, front + back);
      assert UnloadAll(s, front + back, cleanups) == Sweeps(after, front + back, cleanups);
      NextPassTries(after, front + back, cleanups, library);
      SweepsGrow(after, front + back, cleanups);
      MemberStays(Pass(after, front + back, cleanups).tried, UnloadAll(s, front + back, cleanups).tried, library);
    }
  }

  lemma InOrder(s: State, front: seq<Id>, back: seq<Id>, id: Id)
    requires Covers(front + back, s.slots) && id in s.slots
    ensures id in front + back
  {
  }

  lemma PassedIsStranded(w: Sweep, library: Id)
    requires Passed(w, library)
    ensures Stranded(w, library)
  {
    NeedlessHasNoDependent(w.state.slots, library);
    hide HasDependent, Needless;
  }

  lemma FirstPassPasses(s: State, front: seq<Id>, back: seq<Id>, cleanups: Cleanups, user: Id, library: Id)
    requires Risky(s, front, back, cleanups, user, library)
    ensures Passed(Pass(Sweep(s, [], []), front + back, cleanups), library)
  {
    var start := Sweep(s, [], []);
    assert Waiting(start, user, library);
    assert user in front + back;
    hide Waiting, Passed, Pass;
    FrontWaits(start, front, cleanups, user, library);
    TurnInBack(Pass(start, front, cleanups), back, cleanups, user, library);
    PassApart(start, front, back, cleanups);
  }

  /** A plugin whose second clean-up fails is not unloaded, and one that was not tried is not either. */
  lemma {:induction false} NothingUnloads(w: Sweep, order: seq<Id>, cleanups: Cleanups, library: Id)
    requires library !in Pass(w, order, cleanups).tried
    requires forall id :: id in w.state.slots && id != library ==> !CleanupsOf(cleanups, id).1.released
    ensures Pass(w, order, cleanups).unloaded == w.unloaded
    decreases |order|
  {
    hide Try;
    if order != [] {
      var next := Try(w, order[0], cleanups);
      TryGrows(w, order[0], cleanups);
      PassGrows(next, order[1..], cleanups);
      TryKeepsIds(w, order[0], cleanups);
      if order[0] == library && library in next.tried { MemberStays(next.tried, Pass(w, order, cleanups).tried, library); }
      FailedIsNotUnloaded(w, order[0], cleanups);
      NothingUnloads(next, order[1..], cleanups, library);
    }
  }

  lemma TryKeepsIds(w: Sweep, id: Id, cleanups: Cleanups)
    ensures Try(w, id, cleanups).state.slots.Keys == w.state.slots.Keys
  {
    hide Unload, HasDependent, SlotAlive;
    if id in w.state.slots { UnloadKeepsIds(w.state, id, CleanupsOf(cleanups, id).0, CleanupsOf(cleanups, id).1); }
  }

  lemma FailedIsNotUnloaded(w: Sweep, id: Id, cleanups: Cleanups)
    ensures id !in Try(w, id, cleanups).tried || !CleanupsOf(cleanups, id).1.released || id !in w.state.slots ==>
              Try(w, id, cleanups).unloaded == w.unloaded
  {
    hide HasDependent, Fault, SlotAlive;
    if id in w.state.slots && w.state.slots[id].replacement.Some? { DropKeepsIds(w.state, id, CleanupsOf(cleanups, id).0); }
  }

  /** So it is stranded whenever the current scripts of all others fail to clean up. */
  lemma FailingCleanupsStrand(s: State, front: seq<Id>, back: seq<Id>, cleanups: Cleanups, user: Id, library: Id)
    requires Risky(s, front, back, cleanups, user, library)
    requires forall id :: id in s.slots && id != library ==> !CleanupsOf(cleanups, id).1.released
    ensures Stranded(UnloadAll(s, front + back, cleanups), library)
  {
    RiskyMayStrand(s, front, back, cleanups, user, library);
    FirstPassPasses(s, front, back, cleanups, user, library);
    var start := Sweep(s, [], []);
    hide Risky, Stranded;
    NothingUnloads(start, front + back, cleanups, library);
  }

  /** And a half-finished reload leads there. */
  lemma PendingReplacementMayStrand()
    ensures var cleanups := map["user" := (Cleanup(true, {}), Cleanup(false, {}))];
            && Risky(Pending, ["library"], ["user"], cleanups, "user", "library")
            && Stranded(UnloadAll(Pending, ["library", "user"], cleanups), "library")
  {
    var cleanups := map["user" := (Cleanup(true, {}), Cleanup(false, {}))];
    assert ["library"] + ["user"] == ["library", "user"];
    FailingCleanupsStrand(Pending, ["library"], ["user"], cleanups, "user", "library");
    hide Stranded;
  }
}
