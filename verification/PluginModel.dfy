/** The plugin table: slots, dependency checks and every lifecycle operation as a step. */
module PluginModel {
  import opened DependencyGraph

  datatype Option<T> = None | Some(value: T)

  /** What reading a version lets through. */
  type Part = part: nat | part < 65536

  datatype Version = Version(major: Part, minor: Part, patch: Part)

  predicate Below(a: Version, b: Version) {
    || a.major < b.major
    || (a.major == b.major && a.minor < b.minor)
    || (a.major == b.major && a.minor == b.minor && a.patch < b.patch)
  }

  /** The three parts side by side. */
  function Number(version: Version): nat {
    version.major * 65536 * 65536 + version.minor * 65536 + version.patch
  }

  /** Versions are ordered as their numbers are, and no two have the same. */
  lemma BelowIsByNumber(a: Version, b: Version)
    ensures Below(a, b) <==> Number(a) < Number(b)
    ensures Number(a) == Number(b) <==> a == b
    ensures Below(a, b) || Below(b, a) || a == b
  {
  }

  datatype Manifest = Manifest(id: Id, version: Version, needs: map<Id, Version>)

  datatype Phase = Loading | Running | Retiring | Disabled | Failed | Paused

  /** `loaded` says that the script still has its virtual machine. */
  datatype Script = Script(manifest: Manifest, phase: Phase, loaded: bool, order: nat)

  /** `resumeAs` is the phase a pending replacement will take over. */
  datatype Slot = Slot(current: Script, replacement: Option<Script>, resumeAs: Phase)

  type Slots = map<Id, Slot>

  predicate ValidId(id: Id) {
    0 < |id| <= 64 && forall i :: 0 <= i < |id| ==> 'a' <= id[i] <= 'z' || '0' <= id[i] <= '9' || id[i] in "_-"
  }

  datatype State = State(slots: Slots, nextOrder: nat)

  // ----- the dependency graph ------------------------------------------------------

  function CurrentNeeds(slot: Slot): set<Id> {
    if slot.current.loaded then slot.current.manifest.needs.Keys else {}
  }

  function ReplacementNeeds(slot: Slot): set<Id> {
    if slot.replacement.Some? && slot.replacement.value.loaded then slot.replacement.value.manifest.needs.Keys else {}
  }

  function Needs(slot: Slot): set<Id> {
    CurrentNeeds(slot) + ReplacementNeeds(slot)
  }

  function Edges(slots: Slots): Graph {
    set id, need | id in slots && need in Needs(slots[id]) :: (id, need)
  }

  predicate Tolerates(script: Script, id: Id, version: Version) {
    script.loaded && id in script.manifest.needs ==> !Below(version, script.manifest.needs[id])
  }

  /** Each loaded script of another slot tolerates the version. */
  predicate Tolerated(slots: Slots, id: Id, version: Version) {
    forall other :: other in slots && other != id ==>
      && Tolerates(slots[other].current, id, version)
      && (slots[other].replacement.Some? ==> Tolerates(slots[other].replacement.value, id, version))
  }

  predicate RunsAt(slots: Slots, id: Id, version: Version) {
    id in slots && slots[id].current.phase == Running && !Below(slots[id].current.manifest.version, version)
  }

  /** What a script must meet before it may run: versions, running dependencies and no cycle. */
  ghost predicate Accepts(slots: Slots, manifest: Manifest) {
    && Tolerated(slots, manifest.id, manifest.version)
    && (forall id :: id in manifest.needs ==> RunsAt(slots, id, manifest.needs[id]))
    && forall id :: id in manifest.needs ==> !ReachesOrIs(Edges(slots), id, manifest.id)
  }

  /** A loaded script, in another slot, that needs the plugin. */
  predicate LoadedNeeding(slots: Slots, id: Id, other: Id, script: Script) {
    && other in slots && other != id && script.loaded && id in script.manifest.needs
    && (script == slots[other].current || slots[other].replacement == Some(script))
  }

  /** What a script must meet, with versions as numbers. */
  ghost predicate AcceptsByNumber(slots: Slots, manifest: Manifest) {
    && (forall other, script :: LoadedNeeding(slots, manifest.id, other, script) ==>
          Number(script.manifest.needs[manifest.id]) <= Number(manifest.version))
    && (forall id :: id in manifest.needs ==>
          id in slots && slots[id].current.phase == Running && Number(manifest.needs[id]) <= Number(slots[id].current.manifest.version))
    && forall id :: id in manifest.needs ==> id != manifest.id && !Reaches(Edges(slots), id, manifest.id)
  }

  lemma AcceptsAre(slots: Slots, manifest: Manifest)
    ensures Accepts(slots, manifest) <==> AcceptsByNumber(slots, manifest)
  {
    forall a: Version, b: Version ensures Below(a, b) <==> Number(a) < Number(b) { BelowIsByNumber(a, b); }
    hide Below, Number, Edges;
    if AcceptsByNumber(slots, manifest) {
      forall other | other in slots && other != manifest.id
        ensures Tolerates(slots[other].current, manifest.id, manifest.version)
        ensures slots[other].replacement.Some? ==> Tolerates(slots[other].replacement.value, manifest.id, manifest.version)
      {
        var current := slots[other].current;
        if current.loaded && manifest.id in current.manifest.needs {
          assert LoadedNeeding(slots, manifest.id, other, current);
        }
        if slots[other].replacement.Some? {
          var replacement := slots[other].replacement.value;
          if replacement.loaded && manifest.id in replacement.manifest.needs {
            assert LoadedNeeding(slots, manifest.id, other, replacement);
          }
        }
      }
    }
  }

  predicate NeedsSlot(script: Script, id: Id, activeOnly: bool) {
    script.loaded && id in script.manifest.needs && (activeOnly ==> script.phase != Paused)
  }

  predicate Dependent(slots: Slots, id: Id, other: Id, activeOnly: bool)
    requires other in slots
  {
    && other != id
    && (|| NeedsSlot(slots[other].current, id, activeOnly)
        || (slots[other].replacement.Some? && NeedsSlot(slots[other].replacement.value, id, activeOnly)))
  }

  predicate HasDependent(slots: Slots, id: Id, activeOnly: bool) {
    exists other :: other in slots && Dependent(slots, id, other, activeOnly)
  }

  // ----- foreign calls --------------------------------------------------------------

  /** One of the two scripts of a slot. */
  datatype Role = Current | Replacement
  type Faults = set<(Id, Role)>

  /** The third failed callback retires a script, whoever is being managed at the time. */
  function Faulted(script: Script, hit: bool): Script {
    if hit && script.loaded && script.phase in {Loading, Running, Paused} then script.(phase := Retiring) else script
  }

  function FaultSlot(slot: Slot, id: Id, faults: Faults): Slot {
    slot.(current := Faulted(slot.current, (id, Current) in faults),
          replacement := if slot.replacement.None? then None
                         else Some(Faulted(slot.replacement.value, (id, Replacement) in faults)))
  }

  function Fault(slots: Slots, faults: Faults): (after: Slots)
    ensures after.Keys == slots.Keys
  {
    map id | id in slots :: FaultSlot(slots[id], id, faults)
  }

  /** One clean-up: whether every resource was released, and who faulted meanwhile. */
  datatype Cleanup = Cleanup(released: bool, faults: Faults)

  /** What became of a candidate whose dependencies were accepted. */
  datatype Start = Ready | Cleaned | Stuck(loaded: bool)

  datatype Attempt = Attempt(content: Option<Manifest>, ownersLeft: bool, start: Start, faults: Faults)

  /** The manifest of a plugin directory: it names its directory and never itself. */
  function Read(directory: Id, content: Option<Manifest>): Option<Manifest> {
    if content.Some? && ValidId(directory) && content.value.id == directory && directory !in content.value.needs then content else None
  }

  // ----- operations -------------------------------------------------------------------

  function Put(s: State, id: Id, slot: Slot): State {
    s.(slots := s.slots[id := slot])
  }

  function Candidate(manifest: Manifest, start: Start): Script {
    match start
    case Ready => Script(manifest, Loading, true, 0)
    case Cleaned => Script(manifest, Failed, false, 0)
    case Stuck(loaded) => Script(manifest, Retiring, loaded, 0)
  }

  /** The candidate, or nothing when it was refused before anything ran. */
  ghost function Prepare(s: State, directory: Id, replacement: bool, attempt: Attempt): Option<Script> {
    var manifest := Read(directory, attempt.content);
    if manifest.None? then None
    else if !replacement && directory in s.slots && s.slots[directory].current.phase !in {Disabled, Failed} then None
    else if !Accepts(s.slots, manifest.value) || !attempt.ownersLeft then None
    else Some(Candidate(manifest.value, attempt.start))
  }

  function Blank(id: Id): Manifest {
    Manifest(id, Version(0, 0, 0), map[])
  }

  /** Notes a plugin that could not be loaded, unless something of it is alive. */
  function RecordFailure(s: State, directory: Id, content: Option<Manifest>): State {
    if !ValidId(directory) then s
    else if directory in s.slots && (s.slots[directory].current.loaded || s.slots[directory].replacement.Some?) then s
    else
      var slot := if directory in s.slots then s.slots[directory]
                  else Slot(Script(Blank(directory), Loading, false, 0), None, Running);
      var manifest := Read(directory, content);
      Put(s, directory,
          slot.(current := slot.current.(phase := Failed,
                                         manifest := if manifest.Some? then manifest.value else slot.current.manifest)))
  }

  function Install(s: State, id: Id, candidate: Script): (State, bool) {
    var ready := candidate.phase == Loading;
    var script := if ready then candidate.(phase := Running, order := s.nextOrder) else candidate;
    var slot := if id in s.slots then s.slots[id].(current := script) else Slot(script, None, Running);
    (Put(if ready then s.(nextOrder := s.nextOrder + 1) else s, id, slot), ready)
  }

  /** `reread` is what the manifest holds when a refusal is recorded. */
  ghost function Load(s: State, directory: Id, attempt: Attempt, reread: Option<Manifest>): (State, bool) {
    var candidate := Prepare(s, directory, false, attempt);
    if candidate.None? then (RecordFailure(s, directory, reread), false)
    else Install(s.(slots := Fault(s.slots, attempt.faults)), directory, candidate.value)
  }

  function DropReplacement(s: State, id: Id, cleanup: Cleanup): (State, bool)
    requires id in s.slots && s.slots[id].replacement.Some?
  {
    var slot := s.slots[id];
    var retiring := Put(s, id, slot.(replacement := Some(slot.replacement.value.(phase := Retiring))));
    var after := Fault(retiring.slots, cleanup.faults);
    if !cleanup.released then (s.(slots := after), false)
    else (Put(s.(slots := after), id, after[id].(replacement := None)), true)
  }

  /** Retires the current script and tells whether its clean-up finished. */
  function Retire(s: State, id: Id, cleanup: Cleanup): State
    requires id in s.slots
  {
    var slot := s.slots[id];
    var retiring := Put(s, id, slot.(current := slot.current.(phase := Retiring)));
    s.(slots := Fault(retiring.slots, cleanup.faults))
  }

  function Disable(s: State, id: Id, cleanup: Cleanup): (State, bool)
    requires id in s.slots
  {
    var after := Retire(s, id, cleanup);
    if !cleanup.released then (after, false)
    else (Put(after, id, after.slots[id].(current := after.slots[id].current.(phase := Disabled, loaded := false))), true)
  }

  /** `first` cleans the replacement, `second` the current script. */
  function Unload(s: State, id: Id, first: Cleanup, second: Cleanup): (State, bool) {
    if id !in s.slots || HasDependent(s.slots, id, false) then (s, false)
    else if s.slots[id].replacement.None? then Disable(s, id, second)
    else
      var (dropped, done) := DropReplacement(s, id, first);
      if !done then (dropped, false) else Disable(dropped, id, second)
  }

  /** The replacement becomes the current script. */
  function TakeOver(s: State, id: Id): State
    requires id in s.slots && s.slots[id].replacement.Some?
  {
    var slot := s.slots[id];
    Put(s, id, slot.(current := slot.replacement.value.(phase := slot.resumeAs, order := s.nextOrder),
                     replacement := None)).(nextOrder := s.nextOrder + 1)
  }

  /** Puts the prepared replacement in place of the current script, once that is cleaned. */
  ghost function Swap(s: State, id: Id, cleanup: Cleanup): (State, bool)
    requires id in s.slots && s.slots[id].replacement.Some?
  {
    if !Accepts(s.slots, s.slots[id].replacement.value.manifest) then (s, false)
    else
      var after := Retire(s, id, cleanup);
      if !cleanup.released then (after, false) else (TakeOver(after, id), true)
  }

  ghost function PrepareReplacement(s: State, id: Id, attempt: Attempt, first: Cleanup, second: Cleanup): (State, bool)
    requires id in s.slots && s.slots[id].replacement.None?
  {
    var noted := Put(s, id, s.slots[id].(resumeAs := if s.slots[id].current.phase == Paused then Paused else Running));
    var candidate := Prepare(noted, id, true, attempt);
    if candidate.None? then (noted, false)
    else
      var started := noted.(slots := Fault(noted.slots, attempt.faults));
      var ready := candidate.value.phase == Loading;
      var cleaned := if ready then started else started.(slots := Fault(started.slots, first.faults));
      var held := Put(cleaned, id, cleaned.slots[id].(replacement := candidate));
      if ready then Swap(held, id, second)
      else if first.released then (cleaned, false)
      else (held, false)
  }

  /** `first` cleans a failed replacement, `second` the current script. */
  ghost function Reload(s: State, id: Id, active: bool, attempt: Attempt, first: Cleanup, second: Cleanup): (State, bool) {
    if id !in s.slots || active then (s, false)
    else if s.slots[id].replacement.None? then PrepareReplacement(s, id, attempt, first, second)
    else if s.slots[id].replacement.value.phase != Loading then
      var after := Fault(s.slots, first.faults);
      (s.(slots := if first.released then after[id := after[id].(replacement := None)] else after), false)
    else Swap(s, id, second)
  }

  function SetPhase(s: State, id: Id, phase: Phase): State
    requires id in s.slots
  {
    Put(s, id, s.slots[id].(current := s.slots[id].current.(phase := phase)))
  }

  /** `cleared` says that no menu of the script stayed open. */
  function Pause(s: State, id: Id, active: bool, cleared: bool): (State, bool) {
    if id !in s.slots || s.slots[id].replacement.Some? then (s, false)
    else if s.slots[id].current.phase == Paused then (s, cleared)
    else if s.slots[id].current.phase != Running || active || HasDependent(s.slots, id, true) then (s, false)
    else (SetPhase(s, id, Paused), cleared)
  }

  ghost function Resume(s: State, id: Id, cleared: bool): (State, bool) {
    if id !in s.slots || s.slots[id].replacement.Some? || s.slots[id].current.phase != Paused then (s, false)
    else if !Accepts(s.slots, s.slots[id].current.manifest) || !cleared then (s, false)
    else (SetPhase(s, id, Running), true)
  }

  ghost function Retry(s: State, id: Id, attempt: Attempt, reread: Option<Manifest>): (State, bool) {
    if id !in s.slots || s.slots[id].current.phase != Failed || s.slots[id].replacement.Some? then (s, false)
    else Load(s, id, attempt, reread)
  }

  /** A plugin directory found for the first time whose manifest says it is disabled. */
  function Discover(s: State, directory: Id, content: Option<Manifest>): State {
    var manifest := Read(directory, content);
    if directory in s.slots || manifest.None? then s
    else Put(s, directory, Slot(Script(manifest.value, Disabled, false, 0), None, Running))
  }

  // ----- unloading everything -------------------------------------------------------------

  /** What the two clean-ups of a slot do when it is tried. */
  type Cleanups = map<Id, (Cleanup, Cleanup)>

  function CleanupsOf(cleanups: Cleanups, id: Id): (Cleanup, Cleanup) {
    if id in cleanups then cleanups[id] else (Cleanup(true, {}), Cleanup(true, {}))
  }

  predicate SlotAlive(slot: Slot) {
    slot.current.loaded || (slot.replacement.Some? && slot.replacement.value.loaded)
  }

  predicate Alive(slots: Slots, id: Id) {
    id in slots && SlotAlive(slots[id])
  }

  /** The sweep so far: the table, the names tried and the names unloaded, each in order. */
  datatype Sweep = Sweep(state: State, tried: seq<Id>, unloaded: seq<Id>)

  function Try(w: Sweep, id: Id, cleanups: Cleanups): Sweep {
    if !Alive(w.state.slots, id) || id in w.tried || HasDependent(w.state.slots, id, false) then w
    else
      var (first, second) := CleanupsOf(cleanups, id);
      var (after, done) := Unload(w.state, id, first, second);
      Sweep(after, w.tried + [id], if done then w.unloaded + [id] else w.unloaded)
  }

  function Pass(w: Sweep, order: seq<Id>, cleanups: Cleanups): Sweep
    decreases |order|
  {
    if order == [] then w else Pass(Try(w, order[0], cleanups), order[1..], cleanups)
  }

  function Untried(w: Sweep, order: seq<Id>): set<Id> {
    set id | id in order && id !in w.tried
  }

  lemma TryGrows(w: Sweep, id: Id, cleanups: Cleanups)
    ensures w.tried <= Try(w, id, cleanups).tried && w.unloaded <= Try(w, id, cleanups).unloaded
    ensures |Try(w, id, cleanups).unloaded| - |w.unloaded| <= |Try(w, id, cleanups).tried| - |w.tried|
    ensures |Try(w, id, cleanups).tried| > |w.tried| ==>
              Try(w, id, cleanups).tried == w.tried + [id] && id !in w.tried
  {
    hide Alive, HasDependent, Unload;
  }

  lemma {:induction false} PassGrows(w: Sweep, order: seq<Id>, cleanups: Cleanups)
    ensures w.tried <= Pass(w, order, cleanups).tried && w.unloaded <= Pass(w, order, cleanups).unloaded
    ensures |Pass(w, order, cleanups).unloaded| - |w.unloaded| <= |Pass(w, order, cleanups).tried| - |w.tried|
    ensures |Pass(w, order, cleanups).tried| > |w.tried| ==>
              exists id :: id in order && id !in w.tried && id in Pass(w, order, cleanups).tried
    decreases |order|
  {
    hide Try;
    if order != [] {
      var next := Try(w, order[0], cleanups);
      TryGrows(w, order[0], cleanups);
      PassGrows(next, order[1..], cleanups);
      var after := Pass(next, order[1..], cleanups);
      if |next.tried| > |w.tried| {
        assert order[0] == next.tried[|w.tried|] == after.tried[|w.tried|];
      } else if |after.tried| > |w.tried| {
        var id :| id in order[1..] && id !in next.tried && id in after.tried;
        assert next.tried == w.tried;
      }
    }
  }

  lemma ProgressShrinks(w: Sweep, after: Sweep, order: seq<Id>)
    requires w.tried <= after.tried
    requires exists id :: id in order && id !in w.tried && id in after.tried
    ensures |Untried(after, order)| < |Untried(w, order)|
  {
    var id :| id in order && id !in w.tried && id in after.tried;
    assert Untried(after, order) <= Untried(w, order) - {id};
    SmallerSet(Untried(after, order), Untried(w, order) - {id});
  }

  lemma SmallerSet<T>(a: set<T>, b: set<T>)
    requires a <= b
    ensures |a| <= |b|
  {
    assert b == a + (b - a);
  }

  /** Passes until one unloads nothing. */
  function Sweeps(w: Sweep, order: seq<Id>, cleanups: Cleanups): Sweep
    decreases |Untried(w, order)|
  {
    var after := Pass(w, order, cleanups);
    PassGrows(w, order, cleanups);
    if |after.unloaded| == |w.unloaded| then after
    else
      ProgressShrinks(w, after, order);
      Sweeps(after, order, cleanups)
  }

  function UnloadAll(s: State, order: seq<Id>, cleanups: Cleanups): Sweep {
    Sweeps(Sweep(s, [], []), order, cleanups)
  }
}
