/** The plugin manager as the server drives it; every call is a step of the model. */
module PluginManager {
  import opened DependencyGraph
  import opened PluginModel
  import opened PluginSafety
  import M = PluginModel
  import Sweeps = PluginSweep

  /** Names in the order of their characters. */
  predicate Lower(a: Id, b: Id) {
    b != [] && (a == [] || a[0] < b[0] || (a[0] == b[0] && Lower(a[1..], b[1..])))
  }

  lemma {:induction false} LowerTotal(a: Id, b: Id)
    ensures Lower(a, b) || Lower(b, a) || a == b
    decreases |a|
  {
    if a != [] && b != [] && a[0] == b[0] {
      LowerTotal(a[1..], b[1..]);
      assert a == [a[0]] + a[1..] && b == [b[0]] + b[1..];
    }
  }

  lemma {:induction false} LowerOnward(a: Id, b: Id, c: Id)
    ensures Lower(a, b) && Lower(b, c) ==> Lower(a, c)
    decreases |a|
  {
    if Lower(a, b) && Lower(b, c) && a != [] { LowerOnward(a[1..], b[1..], c[1..]); }
  }

  class Manager {
    var slots: Slots
    var nextOrder: nat

    ghost function View(): State
      reads this
    {
      State(slots, nextOrder)
    }

    ghost predicate Valid()
      reads this
    {
      Inv(View())
    }

    constructor ()
      ensures View() == State(map[], 1)
    {
      slots, nextOrder := map[], 1;
    }

    // ----- dependency checks ---------------------------------------------------------

    /** The names of a set, in some order. */
    static method Names(names: set<Id>) returns (listed: seq<Id>)
      ensures forall id :: id in listed <==> id in names
    {
      listed := [];
      var rest := names;
      while rest != {}
        invariant rest <= names && forall id :: id in listed <==> id in names - rest
        decreases rest
      {
        var id :| id in rest;
        listed := listed + [id];
        rest := rest - {id};
      }
    }

    method OthersTolerate(id: Id, version: Version) returns (tolerated: bool)
      ensures tolerated <==> Tolerated(slots, id, version)
    {
      var rest := slots.Keys - {id};
      while rest != {}
        invariant rest <= slots.Keys - {id}
        invariant forall other :: other in slots && other != id && other !in rest ==>
                    && Tolerates(slots[other].current, id, version)
                    && (slots[other].replacement.Some? ==> Tolerates(slots[other].replacement.value, id, version))
        decreases rest
      {
        var other :| other in rest;
        var slot := slots[other];
        if !Tolerates(slot.current, id, version) { return false; }
        if slot.replacement.Some? && !Tolerates(slot.replacement.value, id, version) { return false; }
        rest := rest - {other};
      }
      return true;
    }

    method NeedsRun(manifest: Manifest) returns (run: bool)
      ensures run <==> forall id :: id in manifest.needs ==> RunsAt(slots, id, manifest.needs[id])
    {
      var rest := manifest.needs.Keys;
      while rest != {}
        invariant rest <= manifest.needs.Keys
        invariant forall id :: id in manifest.needs && id !in rest ==> RunsAt(slots, id, manifest.needs[id])
        decreases rest
      {
        var id :| id in rest;
        if !RunsAt(slots, id, manifest.needs[id]) { return false; }
        rest := rest - {id};
      }
      return true;
    }

    /** Some of the starting names is or reaches `id`. */
    ghost predicate Found(starts: set<Id>, id: Id)
      reads this
    {
      exists start :: start in starts && ReachesOrIs(Edges(slots), start, id)
    }

    /** What the search has visited, and what it still has to look at. */
    ghost predicate Searched(starts: set<Id>, target: Id, visited: set<Id>, pending: seq<Id>)
      reads this
    {
      && target !in visited
      && (forall id :: id in starts ==> id in visited || id in pending)
      && (forall id :: id in visited ==> Found(starts, id))
      && (forall id :: id in pending ==> Found(starts, id))
      && (forall id, need :: (id, need) in Edges(slots) && id in visited ==> need in visited || need in pending)
    }

    lemma FoundOnward(starts: set<Id>, id: Id, need: Id)
      requires Found(starts, id) && (id, need) in Edges(slots)
      ensures Found(starts, need)
    {
      hide Edges;
      var start :| start in starts && ReachesOrIs(Edges(slots), start, id);
      EdgeReaches(Edges(slots), id, need);
      ReachesOnward(Edges(slots), start, id, need);
    }

    /** A finished search that did not meet the target has seen everything reachable. */
    lemma FinishedSearch(starts: set<Id>, target: Id, visited: set<Id>)
      requires Searched(starts, target, visited, [])
      ensures !Found(starts, target)
    {
      hide Edges;
      var g := Edges(slots);
      forall start | start in starts ensures !ReachesOrIs(g, start, target) {
        if Reaches(g, start, target) {
          var p :| Links(g, p, start, target) && |p| >= 2;
          ClosedWalk(g, visited, p, |p| - 1);
        }
      }
    }

    lemma SearchStep(starts: set<Id>, target: Id, visited: set<Id>, pending: seq<Id>, needs: seq<Id>)
      requires Searched(starts, target, visited, pending) && pending != []
      requires var id := pending[|pending| - 1];
               id != target && forall need :: need in needs <==> (id, need) in Edges(slots)
      ensures Searched(starts, target, visited + {pending[|pending| - 1]}, pending[..|pending| - 1] + needs)
    {
      hide Edges, Found;
      var id, rest := pending[|pending| - 1], pending[..|pending| - 1];
      assert pending == rest + [id];
      forall need | need in needs ensures Found(starts, need) { FoundOnward(starts, id, need); }
    }

    lemma SearchSkip(starts: set<Id>, target: Id, visited: set<Id>, pending: seq<Id>)
      requires Searched(starts, target, visited, pending) && pending != [] && pending[|pending| - 1] in visited
      ensures Searched(starts, target, visited, pending[..|pending| - 1])
    {
      hide Edges, Found;
      assert pending == pending[..|pending| - 1] + [pending[|pending| - 1]];
    }

    ghost function Universe(starts: set<Id>): set<Id>
      reads this
    {
      starts + set e | e in Edges(slots) :: e.1
    }

    lemma VisitShrinks(universe: set<Id>, visited: set<Id>, id: Id)
      requires id in universe && id !in visited
      ensures |universe - (visited + {id})| < |universe - visited|
    {
      assert universe - (visited + {id}) == (universe - visited) - {id};
    }

    /** Searches everything the names need, the newest first, for the target. */
    method Reachable(starts: set<Id>, target: Id) returns (reachable: bool)
      ensures reachable <==> Found(starts, target)
    {
      hide Edges, Found, Universe;
      var pending := Names(starts);
      var visited: set<Id> := {};
      StartSearch(starts, target, pending);
      while pending != []
        invariant Searched(starts, target, visited, pending)
        invariant forall id :: id in pending ==> id in Universe(starts)
        decreases |Universe(starts) - visited|, |pending|
      {
        var id := pending[|pending| - 1];
        if id == target { return true; }
        if id in visited {
          SearchSkip(starts, target, visited, pending);
          pending := pending[..|pending| - 1];
        } else {
          var needs := [];
          if id in slots { needs := Names(Needs(slots[id])); }
          NeedsAreEdges(starts, id);
          SearchStep(starts, target, visited, pending, needs);
          VisitShrinks(Universe(starts), visited, id);
          pending := pending[..|pending| - 1] + needs;
          visited := visited + {id};
        }
      }
      FinishedSearch(starts, target, visited);
      return false;
    }

    lemma StartSearch(starts: set<Id>, target: Id, pending: seq<Id>)
      requires forall id :: id in pending <==> id in starts
      ensures Searched(starts, target, {}, pending)
      ensures forall id :: id in pending ==> id in Universe(starts)
    {
      hide Edges;
    }

    lemma NeedsAreEdges(starts: set<Id>, id: Id)
      ensures forall need :: (id, need) in Edges(slots) <==> id in slots && need in Needs(slots[id])
      ensures forall need :: (id, need) in Edges(slots) ==> need in Universe(starts)
    {
      hide Needs;
    }

    /** Terminates on every table, and finds a cycle exactly when the candidate is reachable from its needs. */
    method CheckDependencies(manifest: Manifest) returns (accepted: bool)
      ensures accepted <==> Accepts(slots, manifest)
      ensures accepted <==> AcceptsByNumber(slots, manifest)
    {
      AcceptsAre(slots, manifest);
      hide Tolerated, RunsAt, AcceptsByNumber;
      var tolerated := OthersTolerate(manifest.id, manifest.version);
      if !tolerated { return false; }
      var run := NeedsRun(manifest);
      if !run { return false; }
      var cycle := Reachable(manifest.needs.Keys, manifest.id);
      return !cycle;
    }

    method FindDependent(id: Id, activeOnly: bool) returns (found: Option<Id>)
      ensures found.Some? <==> HasDependent(slots, id, activeOnly)
      ensures found.Some? ==> found.value in slots && Dependent(slots, id, found.value, activeOnly)
    {
      var rest := slots.Keys;
      while rest != {}
        invariant rest <= slots.Keys
        invariant forall other :: other in slots && other !in rest ==> !Dependent(slots, id, other, activeOnly)
        decreases rest
      {
        var other :| other in rest;
        if Dependent(slots, id, other, activeOnly) { return Some(other); }
        rest := rest - {other};
      }
      return None;
    }

    // ----- lifecycle -----------------------------------------------------------------

    /** Script code runs: plugins whose callbacks fail too often retire. */
    method RunScripts(faults: Faults)
      requires Valid()
      modifies this`slots
      ensures Valid() && View() == old(View()).(slots := Fault(old(slots), faults))
    {
      FaultKeepsInv(View(), faults);
      slots := Fault(slots, faults);
    }

    /** Checks a candidate and starts it; nothing runs before all checks have passed. */
    method Prepare(directory: Id, replacement: bool, attempt: Attempt) returns (candidate: Option<Script>)
      ensures candidate == M.Prepare(View(), directory, replacement, attempt)
    {
      hide Accepts;
      var manifest := Read(directory, attempt.content);
      if manifest.None? { return None; }
      if !replacement && directory in slots && slots[directory].current.phase !in {Disabled, Failed} { return None; }
      var accepted := CheckDependencies(manifest.value);
      if !accepted || !attempt.ownersLeft { return None; }
      return Some(Candidate(manifest.value, attempt.start));
    }

    method Load(directory: Id, attempt: Attempt, reread: Option<Manifest>) returns (loaded: bool)
      requires Valid()
      modifies this
      ensures Valid() && (View(), loaded) == M.Load(old(View()), directory, attempt, reread)
    {
      ghost var before := View();
      LoadKeepsInv(before, directory, attempt, reread);
      var candidate := Prepare(directory, false, attempt);
      hide Inv, M.Prepare, Fault;
      if candidate.None? {
        Record(directory, reread);
        return false;
      }
      RunScripts(attempt.faults);
      var (installed, ready) := Install(State(slots, nextOrder), directory, candidate.value);
      slots, nextOrder := installed.slots, installed.nextOrder;
      return ready;
    }

    method Record(directory: Id, content: Option<Manifest>)
      requires Valid()
      modifies this
      ensures Valid() && View() == RecordFailure(old(View()), directory, content)
    {
      RecordKeepsInv(View(), directory, content);
      hide Inv, RecordFailure;
      var recorded := RecordFailure(State(slots, nextOrder), directory, content);
      slots, nextOrder := recorded.slots, recorded.nextOrder;
    }

    /** Retires the current script and runs its clean-up. */
    method Retire(id: Id, cleanup: Cleanup)
      requires Valid() && id in slots
      modifies this`slots
      ensures Valid() && View() == M.Retire(old(View()), id, cleanup)
    {
      RetirePhaseKeepsInv(View(), id);
      hide Inv, Fault;
      slots := slots[id := slots[id].(current := slots[id].current.(phase := Retiring))];
      RunScripts(cleanup.faults);
    }

    method Disable(id: Id, cleanup: Cleanup) returns (done: bool)
      requires Valid() && id in slots && slots[id].replacement.None? && !HasDependent(slots, id, false)
      modifies this`slots
      ensures Valid() && (View(), done) == M.Disable(old(View()), id, cleanup)
    {
      DisableKeepsInv(View(), id, cleanup);
      hide Inv, HasDependent, M.Retire;
      Retire(id, cleanup);
      if !cleanup.released { return false; }
      slots := slots[id := slots[id].(current := slots[id].current.(phase := Disabled, loaded := false))];
      return true;
    }

    method DropReplacement(id: Id, cleanup: Cleanup) returns (done: bool)
      requires Valid() && id in slots && slots[id].replacement.Some? && !HasDependent(slots, id, false)
      modifies this`slots
      ensures Valid() && (View(), done) == M.DropReplacement(old(View()), id, cleanup)
    {
      DropKeepsInv(View(), id, cleanup);
      hide Inv, HasDependent, Fault;
      slots := slots[id := slots[id].(replacement := Some(slots[id].replacement.value.(phase := Retiring)))];
      slots := Fault(slots, cleanup.faults);
      if !cleanup.released { return false; }
      slots := slots[id := slots[id].(replacement := None)];
      return true;
    }

    method Unload(id: Id, first: Cleanup, second: Cleanup) returns (done: bool)
      requires Valid()
      modifies this`slots
      ensures Valid() && (View(), done) == M.Unload(old(View()), id, first, second)
    {
      if id !in slots { return false; }
      var dependent := FindDependent(id, false);
      if dependent.Some? { return false; }
      if slots[id].replacement.Some? {
        DropKeepsInv(View(), id, first);
        DropKeepsIds(View(), id, first);
        hide Inv, HasDependent, M.DropReplacement, M.Disable;
        var dropped := DropReplacement(id, first);
        if !dropped { return false; }
        done := Disable(id, second);
      } else {
        hide Inv, HasDependent, M.Disable;
        done := Disable(id, second);
      }
    }

    method Swap(id: Id, cleanup: Cleanup) returns (done: bool)
      requires Valid() && id in slots && slots[id].replacement.Some? && slots[id].replacement.value.phase == Loading
      modifies this
      ensures Valid() && (View(), done) == M.Swap(old(View()), id, cleanup)
    {
      hide Inv, Accepts, M.Retire, SlotsOk, Edges, Acyclic;
      SwapKeepsInv(View(), id, cleanup);
      RetireKeepsReplacement(View(), id, cleanup);
      var accepted := CheckDependencies(slots[id].replacement.value.manifest);
      if !accepted { return false; }
      Retire(id, cleanup);
      if !cleanup.released { return false; }
      TakeOver(id);
      return true;
    }

    /** The replacement becomes the current script. */
    method TakeOver(id: Id)
      requires id in slots && slots[id].replacement.Some?
      modifies this
      ensures View() == M.TakeOver(old(View()), id)
    {
      var slot := slots[id];
      slots := slots[id := slot.(current := slot.replacement.value.(phase := slot.resumeAs, order := nextOrder),
                                 replacement := None)];
      nextOrder := nextOrder + 1;
    }

    method PrepareReplacement(id: Id, attempt: Attempt, first: Cleanup, second: Cleanup) returns (done: bool)
      requires Valid() && id in slots && slots[id].replacement.None?
      modifies this
      ensures Valid() && (View(), done) == M.PrepareReplacement(old(View()), id, attempt, first, second)
    {
      hide Inv, Noted, Accepts, Fault, M.Swap, SlotsOk, Edges, Acyclic;
      ghost var before := View();
      PrepareReplacementKeepsInv(before, id, attempt, first, second);
      NoteKeepsInv(before, id);
      NoteIsNoted(before, id);
      slots := slots[id := slots[id].(resumeAs := if slots[id].current.phase == Paused then Paused else Running)];
      var candidate := Prepare(id, true, attempt);
      if candidate.None? { return false; }
      HeldKeepsInv(View(), id, attempt.content.value, attempt.start, attempt.faults, first);
      RunScripts(attempt.faults);
      if candidate.value.phase != Loading {
        RunScripts(first.faults);
        if !first.released { slots := slots[id := slots[id].(replacement := candidate)]; }
        return false;
      }
      slots := slots[id := slots[id].(replacement := candidate)];
      done := Swap(id, second);
    }

    method Reload(id: Id, active: bool, attempt: Attempt, first: Cleanup, second: Cleanup) returns (done: bool)
      requires Valid()
      modifies this
      ensures Valid() && (View(), done) == M.Reload(old(View()), id, active, attempt, first, second)
    {
      ReloadKeepsInv(View(), id, active, attempt, first, second);
      hide Inv, M.PrepareReplacement, M.Swap, Fault;
      if id !in slots || active { return false; }
      if slots[id].replacement.None? {
        done := PrepareReplacement(id, attempt, first, second);
      } else if slots[id].replacement.value.phase != Loading {
        RunScripts(first.faults);
        if first.released { slots := slots[id := slots[id].(replacement := None)]; }
        return false;
      } else {
        done := Swap(id, second);
      }
    }

    method Pause(id: Id, active: bool, cleared: bool) returns (done: bool)
      requires Valid()
      modifies this`slots
      ensures Valid() && (View(), done) == M.Pause(old(View()), id, active, cleared)
    {
      PauseKeepsInv(View(), id, active, cleared);
      hide Inv, HasDependent;
      if id !in slots || slots[id].replacement.Some? { return false; }
      if slots[id].current.phase == Paused { return cleared; }
      if slots[id].current.phase != Running || active { return false; }
      var dependent := FindDependent(id, true);
      if dependent.Some? { return false; }
      slots := slots[id := slots[id].(current := slots[id].current.(phase := Paused))];
      return cleared;
    }

    method Resume(id: Id, cleared: bool) returns (done: bool)
      requires Valid()
      modifies this`slots
      ensures Valid() && (View(), done) == M.Resume(old(View()), id, cleared)
    {
      ResumeKeepsInv(View(), id, cleared);
      hide Inv, Accepts;
      if id !in slots || slots[id].replacement.Some? || slots[id].current.phase != Paused { return false; }
      var accepted := CheckDependencies(slots[id].current.manifest);
      if !accepted || !cleared { return false; }
      slots := slots[id := slots[id].(current := slots[id].current.(phase := Running))];
      return true;
    }

    method Retry(id: Id, attempt: Attempt, reread: Option<Manifest>) returns (loaded: bool)
      requires Valid()
      modifies this
      ensures Valid() && (View(), loaded) == M.Retry(old(View()), id, attempt, reread)
    {
      hide Inv, M.Load;
      if id !in slots || slots[id].current.phase != Failed || slots[id].replacement.Some? { return false; }
      loaded := Load(id, attempt, reread);
    }

    // ----- unloading everything -------------------------------------------------------

    /** Loaded later, or, at the same time, under the greater name. */
    static predicate Newer(slots: Slots, a: Id, b: Id)
      requires a in slots && b in slots
    {
      || slots[b].current.order < slots[a].current.order
      || (slots[b].current.order == slots[a].current.order && Lower(b, a))
    }

    /** Every plugin once, the most recently loaded first and equals by name downwards. */
    method NewestFirst() returns (order: seq<Id>)
      ensures forall id :: id in order <==> id in slots
      ensures forall i :: 0 <= i < |order| ==> order[i] in slots
      ensures forall i, j :: 0 <= i < j < |order| ==> order[i] != order[j] && Newer(slots, order[i], order[j])
    {
      order := [];
      var rest := slots.Keys;
      while rest != {}
        invariant rest <= slots.Keys
        invariant forall id :: id in order <==> id in slots.Keys - rest
        invariant forall i :: 0 <= i < |order| ==> order[i] in slots
        invariant forall i, j :: 0 <= i < j < |order| ==> order[i] != order[j] && Newer(slots, order[i], order[j])
        invariant forall i, id :: 0 <= i < |order| && id in rest ==> id != order[i] && Newer(slots, order[i], id)
        decreases rest
      {
        var newest := Newest(rest);
        order := order + [newest];
        rest := rest - {newest};
      }
    }

    method Newest(ids: set<Id>) returns (newest: Id)
      requires ids != {} && ids <= slots.Keys
      ensures newest in ids && forall id :: id in ids && id != newest ==> Newer(slots, newest, id)
    {
      newest :| newest in ids;
      var rest := ids - {newest};
      while rest != {}
        invariant rest <= ids && newest in ids
        invariant forall id :: id in ids && id !in rest && id != newest ==> Newer(slots, newest, id)
        decreases rest
      {
        var id :| id in rest;
        LowerTotal(id, newest);
        if Newer(slots, id, newest) {
          forall other | other in ids && other !in rest && other != newest ensures Newer(slots, id, other) {
            LowerOnward(other, newest, id);
          }
          newest := id;
        }
        rest := rest - {id};
      }
    }

    /** One pass over the plugins that are loaded, untried and not needed. */
    method SweepOnce(order: seq<Id>, cleanups: Cleanups, tried: seq<Id>, unloaded: seq<Id>)
      returns (nowTried: seq<Id>, nowUnloaded: seq<Id>)
      requires Valid()
      modifies this`slots
      ensures Valid() && Sweep(View(), nowTried, nowUnloaded) == Pass(Sweep(old(View()), tried, unloaded), order, cleanups)
    {
      hide Inv, M.Unload, HasDependent, Alive;
      nowTried, nowUnloaded := tried, unloaded;
      ghost var before := Sweep(View(), tried, unloaded);
      for i := 0 to |order|
        invariant Valid()
        invariant Pass(Sweep(View(), nowTried, nowUnloaded), order[i..], cleanups) == Pass(before, order, cleanups)
      {
        ghost var at := Sweep(View(), nowTried, nowUnloaded);
        nowTried, nowUnloaded := TryOne(order[i], cleanups, nowTried, nowUnloaded);
        assert order[i..][0] == order[i] && order[i..][1..] == order[i + 1..];
      }
    }

    method TryOne(id: Id, cleanups: Cleanups, tried: seq<Id>, unloaded: seq<Id>)
      returns (nowTried: seq<Id>, nowUnloaded: seq<Id>)
      requires Valid()
      modifies this`slots
      ensures Valid() && Sweep(View(), nowTried, nowUnloaded) == Try(Sweep(old(View()), tried, unloaded), id, cleanups)
    {
      hide Inv, M.Unload, HasDependent;
      nowTried, nowUnloaded := tried, unloaded;
      if !Alive(slots, id) || id in tried { return; }
      var dependent := FindDependent(id, false);
      if dependent.Some? { return; }
      var (first, second) := CleanupsOf(cleanups, id);
      nowTried := tried + [id];
      var done := Unload(id, first, second);
      if done { nowUnloaded := unloaded + [id]; }
    }

    /** Unloads everything it can, dependents first, and tells whether nothing stayed loaded. */
    method UnloadAll(cleanups: Cleanups) returns (empty: bool, ghost order: seq<Id>)
      requires Valid()
      modifies this`slots
      ensures Valid() && Sweeps.Covers(order, old(slots)) && View() == M.UnloadAll(old(View()), order, cleanups).state
      ensures empty <==> forall id :: !Alive(slots, id)
      ensures Sweeps.AllReleased(cleanups) ==> empty
    {
      ghost var before := View();
      var listed := NewestFirst();
      order := listed;
      var tried: seq<Id>, unloaded: seq<Id> := [], [];
      hide Inv, Sweeps.AllReleased, Alive;
      var progress := true;
      while progress
        invariant Valid()
        invariant progress ==> M.Sweeps(Sweep(View(), tried, unloaded), listed, cleanups) == M.UnloadAll(before, listed, cleanups)
        invariant !progress ==> Sweep(View(), tried, unloaded) == M.UnloadAll(before, listed, cleanups)
        decreases progress, |Untried(Sweep(View(), tried, unloaded), listed)|
      {
        ghost var at := Sweep(View(), tried, unloaded);
        var count := |unloaded|;
        tried, unloaded := SweepOnce(listed, cleanups, tried, unloaded);
        PassGrows(at, listed, cleanups);
        progress := |unloaded| != count;
        if progress { ProgressShrinks(at, Sweep(View(), tried, unloaded), listed); }
      }
      empty := NothingAlive();
      if Sweeps.AllReleased(cleanups) { Sweeps.UnloadAllIsComplete(before, listed, cleanups); }
    }

    method NothingAlive() returns (empty: bool)
      ensures empty <==> forall id :: !Alive(slots, id)
    {
      var rest := slots.Keys;
      while rest != {}
        invariant rest <= slots.Keys && forall id :: id in slots && id !in rest ==> !Alive(slots, id)
        decreases rest
      {
        var id :| id in rest;
        if Alive(slots, id) { return false; }
        rest := rest - {id};
      }
      return true;
    }
  }
}
