/** Starting newly found and changed plugins: needs first, and only cycles are left over. */
module PluginDiscovery {
  import opened DependencyGraph
  import opened PluginModel
  import opened PluginManager
  import PluginSafety

  /** A plugin waiting to be loaded, or to replace the script it has. */
  datatype Item = Item(needs: set<Id>, reloads: bool)
  type Pending = map<Id, Item>

  /** What happens when an item's turn comes. */
  datatype Turn = Turn(active: bool, attempt: Attempt, reread: Option<Manifest>, first: Cleanup, second: Cleanup)

  const NoManifest := Turn(false, Attempt(None, true, Ready, {}), None, Cleanup(true, {}), Cleanup(true, {}))

  type Turns = map<Id, Turn>

  function TurnOf(turns: Turns, id: Id): Turn {
    if id in turns then turns[id] else NoManifest
  }

  /** The table after one item's turn. */
  ghost function TakenTurn(s: State, id: Id, item: Item, turn: Turn): State {
    if item.reloads then Reload(s, id, turn.active, turn.attempt, turn.first, turn.second).0
    else Load(s, id, turn.attempt, turn.reread).0
  }

  ghost predicate TurnReady(s: State, id: Id, item: Item, turn: Turn) {
    if item.reloads then Reload(s, id, turn.active, turn.attempt, turn.first, turn.second).1
    else Load(s, id, turn.attempt, turn.reread).1
  }

  /** Every one of these turns was a success. */
  ghost predicate AllReady(s: State, start: Pending, turns: Turns, tried: seq<Id>) {
    tried == [] ||
    var before, id := tried[..|tried| - 1], tried[|tried| - 1];
    AllReady(s, start, turns, before) && (id in start ==> TurnReady(Taken(s, start, turns, before), id, start[id], TurnOf(turns, id)))
  }

  /** The table after the turns of some items, one after the other. */
  ghost function Taken(s: State, start: Pending, turns: Turns, tried: seq<Id>): State {
    if tried == [] then s
    else
      var before, id := Taken(s, start, turns, tried[..|tried| - 1]), tried[|tried| - 1];
      if id in start then TakenTurn(before, id, start[id], TurnOf(turns, id)) else before
  }

  /** The table after some new plugins were noted as failed. */
  ghost function Noted(s: State, turns: Turns, failed: seq<Id>): State {
    if failed == [] then s
    else RecordFailure(Noted(s, turns, failed[..|failed| - 1]), failed[|failed| - 1], TurnOf(turns, failed[|failed| - 1]).reread)
  }

  /** Who waits for whom. */
  function WaitsFor(pending: Pending): Graph {
    set id, need | id in pending && need in pending[id].needs && need in pending :: (id, need)
  }

  predicate Waits(pending: Pending, id: Id)
    requires id in pending
  {
    exists need :: need in pending[id].needs && need in pending
  }

  /** Each name once, and after everything it waited for. */
  ghost predicate NeedsFirst(g: Graph, tried: seq<Id>) {
    && (forall i, j :: 0 <= i < j < |tried| ==> tried[i] != tried[j])
    && forall i, need :: 0 <= i < |tried| && (tried[i], need) in g ==> need in tried[..i]
  }

  /** Part of the way: what was tried and what still waits. */
  ghost predicate Underway(start: Pending, tried: seq<Id>, pending: Pending) {
    && pending.Keys <= start.Keys
    && (forall id :: id in pending ==> pending[id] == start[id])
    && (forall id :: id in tried <==> id in start && id !in pending)
    && NeedsFirst(WaitsFor(start), tried)
    && (forall id :: ReachesCycle(WaitsFor(start), id) ==> id !in tried)
  }

  lemma StartUnderway(start: Pending)
    ensures Underway(start, [], start)
  {
  }

  /** An item that reaches a cycle waits for something. */
  lemma CycleWaits(start: Pending, tried: seq<Id>, pending: Pending, id: Id)
    requires Underway(start, tried, pending) && id in pending && ReachesCycle(WaitsFor(start), id)
    ensures Waits(pending, id)
  {
    var next := CycleAhead(WaitsFor(start), id);
    hide ReachesCycle;
    assert next !in tried;
    assert next in pending[id].needs && next in pending;
  }

  lemma TurnKeepsUnderway(start: Pending, tried: seq<Id>, pending: Pending, id: Id)
    requires Underway(start, tried, pending) && id in pending && !Waits(pending, id)
    ensures Underway(start, tried + [id], pending - {id})
  {
    if ReachesCycle(WaitsFor(start), id) { CycleWaits(start, tried, pending, id); }
    hide ReachesCycle;
    var g, after := WaitsFor(start), tried + [id];
    forall i, need | 0 <= i < |after| && (after[i], need) in g ensures need in after[..i] {
      if i == |tried| {
        assert need in pending[id].needs && need in tried && after[..i] == tried;
      } else {
        assert after[..i] == tried[..i];
      }
    }
  }

  /** When everything left waits for something left, all of it reaches a cycle. */
  lemma LeftReachesCycle(start: Pending, tried: seq<Id>, pending: Pending, id: Id)
    requires Underway(start, tried, pending) && id in pending
    requires forall other :: other in pending ==> Waits(pending, other)
    ensures ReachesCycle(WaitsFor(start), id)
  {
    hide ReachesCycle, WaitsFor, NeedsFirst, Waits, HasNext;
    forall other | other in pending ensures HasNext(WaitsFor(start), pending.Keys, other) {
      WaitingHasNext(start, pending, other);
    }
    EndlessSetReachesCycle(WaitsFor(start), pending.Keys, id);
  }

  lemma WaitingHasNext(start: Pending, pending: Pending, id: Id)
    requires pending.Keys <= start.Keys && id in pending && pending[id] == start[id] && Waits(pending, id)
    ensures HasNext(WaitsFor(start), pending.Keys, id)
  {
    var need :| need in pending[id].needs && need in pending;
    assert (id, need) in WaitsFor(start);
  }

  /** One item's turn. */
  method TakeTurn(manager: Manager, id: Id, item: Item, turn: Turn) returns (ready: bool)
    requires manager.Valid()
    modifies manager
    ensures manager.Valid() && manager.View() == TakenTurn(old(manager.View()), id, item, turn)
    ensures ready <==> TurnReady(old(manager.View()), id, item, turn)
    ensures (manager.View(), ready) == if item.reloads
              then Reload(old(manager.View()), id, turn.active, turn.attempt, turn.first, turn.second)
              else Load(old(manager.View()), id, turn.attempt, turn.reread)
  {
    hide PluginSafety.Inv, Reload, Load;
    if item.reloads {
      ready := manager.Reload(id, turn.active, turn.attempt, turn.first, turn.second);
    } else {
      ready := manager.Load(id, turn.attempt, turn.reread);
    }
  }

  /** One pass: every item that waits for nothing has its turn. */
  method TakeTurns(manager: Manager, ghost start: Pending, waiting: Pending, turns: Turns, ghost before: seq<Id>,
                   ghost s: State, good: bool)
    returns (pending: Pending, ghost tried: seq<Id>, success: bool)
    requires good <==> AllReady(s, start, turns, before)
    requires manager.Valid() && Underway(start, before, waiting) && manager.View() == Taken(s, start, turns, before)
    modifies manager
    ensures manager.Valid() && Underway(start, tried, pending) && pending.Keys <= waiting.Keys
    ensures manager.View() == Taken(s, start, turns, tried)
    ensures success <==> AllReady(s, start, turns, tried)
    ensures |pending| <= |waiting|
    ensures |pending| == |waiting| ==> pending == waiting && forall id :: id in pending ==> Waits(pending, id)
  {
    hide PluginSafety.Inv, Underway, TakenTurn, TurnReady, Taken, AllReady;
    pending, tried, success := waiting, before, good;
    var rest := waiting.Keys;
    while rest != {}
      invariant manager.Valid() && Underway(start, tried, pending) && manager.View() == Taken(s, start, turns, tried)
      invariant success <==> AllReady(s, start, turns, tried)
      invariant rest <= pending.Keys <= waiting.Keys && |pending| <= |waiting|
      invariant |pending| == |waiting| ==> pending == waiting
      invariant |pending| == |waiting| ==> forall id :: id in pending && id !in rest ==> Waits(pending, id)
      decreases rest
    {
      var id :| id in rest;
      if !Waits(pending, id) {
        OneMoreTurn(s, start, turns, tried, pending, id);
        var ready := TakeTurn(manager, id, pending[id], TurnOf(turns, id));
        success := success && ready;
        TurnKeepsUnderway(start, tried, pending, id);
        RemovedSize(pending, id);
        pending, tried := pending - {id}, tried + [id];
      }
      rest := rest - {id};
    }
  }

  lemma OneMoreTurn(s: State, start: Pending, turns: Turns, tried: seq<Id>, pending: Pending, id: Id)
    requires Underway(start, tried, pending) && id in pending
    ensures Taken(s, start, turns, tried + [id]) == TakenTurn(Taken(s, start, turns, tried), id, pending[id], TurnOf(turns, id))
    ensures AllReady(s, start, turns, tried + [id]) <==>
              AllReady(s, start, turns, tried) && TurnReady(Taken(s, start, turns, tried), id, pending[id], TurnOf(turns, id))
  {
    hide TakenTurn, TurnReady;
    assert (tried + [id])[..|tried|] == tried;
  }

  lemma OneMoreNote(s: State, turns: Turns, failed: seq<Id>, id: Id)
    ensures Noted(s, turns, failed + [id]) == RecordFailure(Noted(s, turns, failed), id, TurnOf(turns, id).reread)
  {
    hide RecordFailure;
    assert (failed + [id])[..|failed|] == failed;
  }

  lemma RemovedSize(pending: Pending, id: Id)
    requires id in pending
    ensures |pending - {id}| == |pending| - 1
  {
    assert (pending - {id}).Keys == pending.Keys - {id};
    assert |pending.Keys - {id}| == |pending.Keys| - 1;
    assert |pending| == |pending.Keys| && |pending - {id}| == |(pending - {id}).Keys|;
  }

  /** Always ends; what it leaves out is exactly what reaches a dependency cycle among the waiting plugins. */
  method DiscoverPending(manager: Manager, start: Pending, turns: Turns)
    returns (left: Pending, ghost tried: seq<Id>, ghost failed: seq<Id>, success: bool)
    requires manager.Valid()
    modifies manager
    ensures manager.Valid()
    ensures manager.View() == Noted(Taken(old(manager.View()), start, turns, tried), turns, failed)
    ensures ListsNew(left, failed)
    ensures success <==> left == map[] && AllReady(old(manager.View()), start, turns, tried)
    ensures NeedsFirst(WaitsFor(start), tried)
    ensures forall id :: id in tried <==> id in start && id !in left
    ensures forall id :: id in left <==> id in start && ReachesCycle(WaitsFor(start), id)
  {
    hide PluginSafety.Inv, ReachesCycle, WaitsFor, NeedsFirst, Waits, Taken, Noted, AllReady;
    ghost var s := manager.View();
    NobodyTaken(s, start, turns);
    StartUnderway(start);
    left, tried := start, [];
    success := true;
    var progress := true;
    while progress && |left| > 0
      invariant manager.Valid() && Underway(start, tried, left) && manager.View() == Taken(s, start, turns, tried)
      invariant success <==> AllReady(s, start, turns, tried)
      invariant !progress ==> forall id :: id in left ==> Waits(left, id)
      decreases |left|, progress
    {
      var waiting := left;
      left, tried, success := TakeTurns(manager, start, waiting, turns, tried, s, success);
      progress := |left| < |waiting|;
    }
    forall id | id in left ensures ReachesCycle(WaitsFor(start), id) {
      LeftReachesCycle(start, tried, left, id);
    }
    forall id | id in start && ReachesCycle(WaitsFor(start), id) ensures id in left {
      assert id !in tried;
    }
    failed := RecordLeft(manager, left, turns);
    success := success && |left| == 0;
  }

  lemma NobodyTaken(s: State, start: Pending, turns: Turns)
    ensures AllReady(s, start, turns, []) && Taken(s, start, turns, []) == s && Noted(s, turns, []) == s
  {
  }

  /** Every new plugin that was left out, once. */
  ghost predicate ListsNew(left: Pending, failed: seq<Id>) {
    && (forall i, j :: 0 <= i < j < |failed| ==> failed[i] != failed[j])
    && forall id :: id in failed <==> id in left && !left[id].reloads
  }

  /** Notes the new plugins that were left out. */
  method RecordLeft(manager: Manager, left: Pending, turns: Turns) returns (ghost failed: seq<Id>)
    requires manager.Valid()
    modifies manager
    ensures manager.Valid() && manager.View() == Noted(old(manager.View()), turns, failed)
    ensures ListsNew(left, failed)
  {
    hide PluginSafety.Inv, Noted;
    ghost var s := manager.View();
    failed := [];
    NobodyTaken(s, left, turns);
    var rest := left.Keys;
    while rest != {}
      invariant manager.Valid() && rest <= left.Keys && manager.View() == Noted(s, turns, failed)
      invariant forall i, j :: 0 <= i < j < |failed| ==> failed[i] != failed[j]
      invariant forall id :: id in failed <==> id in left && id !in rest && !left[id].reloads
      decreases rest
    {
      var id :| id in rest;
      if !left[id].reloads {
        OneMoreNote(s, turns, failed, id);
        manager.Record(id, TurnOf(turns, id).reread);
        failed := failed + [id];
      }
      rest := rest - {id};
    }
  }
}
