/** Native hooks: who keeps a registration, a target's lease and the service alive, and until when. */
module HookLifetimes {
  type Data = nat
  type Reg = nat
  type Object = nat
  type Lease = nat
  type Callback = nat

  /** A registration the host may call back; `retirements` counts the runs of its retire function. */
  datatype Registration = Registration(data: Data, handle: Callback, active: nat, closing: bool, retirements: nat)

  /**
    * What may happen from outside or inside a host call. `resolving` and `within` happen while the host
    * resolves a target and before it takes a callback in; `removing` and `releasing` are what it lets
    * happen inside its calls while closed hooks and unused targets are collected.
    */
  datatype Act =
    | OpenAct(lease: Lease, alike: bool, resolving: seq<Act>, removing: seq<Batch>, releasing: seq<Batch>)
    | PrepareAct(target: Object)
    | AttachAct(target: Object, within: seq<Act>, entry: Option<Entry>, removing: seq<Batch>, releasing: seq<Batch>)
    | CloseAct(hook: Object)
    | DropHookAct(hook: Object)
    | DropTargetAct(target: Object)
    | DropCallAct(call: Object)
    | CollectAct(removing: seq<Batch>, releasing: seq<Batch>)
    | DispatchAct(callback: Callback, enabled: bool, run: Entry)

  /** One run of a hook's callback: what it does, and whether it asks to be retired. */
  datatype Entry = Entry(retire: bool, nested: seq<Act>)

  /** What happens inside one host call. */
  datatype Batch = Batch(acts: seq<Act>)

  datatype Option<T> = None | Some(value: T)

  ghost function Weight(acts: seq<Act>): nat {
    if acts == [] then 0 else 1 + ActWeight(acts[0]) + Weight(acts[1..])
  }

  ghost function EntryWeight(entry: Option<Entry>): nat {
    if entry.Some? then Weight(entry.value.nested) else 0
  }

  ghost function ActWeight(act: Act): nat {
    match act
    case OpenAct(lease, alike, resolving, removing, releasing) =>
      Weight(resolving) + WeightAll(removing) + WeightAll(releasing)
    case AttachAct(target, within, entry, removing, releasing) =>
      Weight(within) + EntryWeight(entry) + WeightAll(removing) + WeightAll(releasing)
    case CollectAct(removing, releasing) => WeightAll(removing) + WeightAll(releasing)
    case DispatchAct(callback, enabled, run) => Weight(run.nested)
    case _ => 0
  }

  ghost function BatchWeight(batch: Batch): nat {
    Weight(batch.acts)
  }

  ghost function WeightAll(batches: seq<Batch>): nat {
    if batches == [] then 0 else BatchWeight(batches[0]) + WeightAll(batches[1..])
  }

  // ----- what acts may do, read off before they happen ------------------------------------------

  /**
    * Leases the acts may open and whether they may let go of Target objects, when they happen inside a
    * release; whether a release inside a collection of theirs lets a target be opened; and whether
    * anything happens while a target is resolved.
    */
  datatype Doing = Doing(opens: set<Lease>, drops: bool, reopens: bool, nests: bool)

  ghost const Nothing: Doing := Doing({}, false, false, false)

  ghost function Join(a: Doing, b: Doing): Doing {
    Doing(a.opens + b.opens, a.drops || b.drops, a.reopens || b.reopens, a.nests || b.nests)
  }

  ghost function Might(acts: seq<Act>): Doing {
    if acts == [] then Nothing else Join(MightAct(acts[0]), Might(acts[1..]))
  }

  ghost function MightEnter(entry: Option<Entry>): Doing {
    if entry.Some? then Might(entry.value.nested) else Nothing
  }

  ghost function MightAct(act: Act): Doing {
    match act
    case OpenAct(lease, alike, resolving, removing, releasing) =>
      Join(Join(Collecting(MightAll(removing), MightAll(releasing)), Might(resolving)), Doing({lease}, false, false, resolving != []))
    case AttachAct(target, within, entry, removing, releasing) =>
      Join(Collecting(MightAll(removing), MightAll(releasing)), Join(Might(within), MightEnter(entry)))
    case DropTargetAct(target) => Doing({}, true, false, false)
    case CollectAct(removing, releasing) => Collecting(MightAll(removing), MightAll(releasing))
    case DispatchAct(callback, enabled, run) => Might(run.nested)
    case _ => Nothing
  }

  /** A collection inside a release or a removal does nothing, so only its own host calls matter. */
  ghost function Collecting(removing: Doing, releasing: Doing): Doing {
    Doing({}, false, releasing.opens != {}, removing.nests || releasing.nests)
  }

  ghost function MightBatch(batch: Batch): Doing {
    Might(batch.acts)
  }

  ghost function MightAll(batches: seq<Batch>): Doing {
    if batches == [] then Nothing else Join(MightBatch(batches[0]), MightAll(batches[1..]))
  }

  lemma {:induction false} InsideMight(batches: seq<Batch>, used: nat)
    ensures Might(Inside(batches, used)).opens <= MightAll(batches).opens
    ensures Might(Inside(batches, used)).nests ==> MightAll(batches).nests
    decreases |batches|
  {
    if batches != [] && used > 0 {
      InsideMight(batches[1..], used - 1);
      assert Inside(batches[1..], used - 1) == Inside(batches, used);
    } else if batches != [] {
      assert Inside(batches, used) == batches[0].acts;
    }
  }

  /** What the host lets happen inside its next call. */
  function Inside(batches: seq<Batch>, used: nat): seq<Act> {
    if used < |batches| then batches[used].acts else []
  }

  lemma {:induction false} InsideWeighs(batches: seq<Batch>, used: nat)
    ensures Weight(Inside(batches, used)) <= WeightAll(batches)
    decreases |batches|
  {
    if batches != [] && used > 0 {
      InsideWeighs(batches[1..], used - 1);
      assert Inside(batches[1..], used - 1) == Inside(batches, used);
    }
  }

  type Registrations = map<Reg, Registration>
  type References = map<Object, Data>
  type Hooks = map<Object, Reg>

  predicate NoRepeats(list: seq<nat>) {
    forall i, j :: 0 <= i < j < |list| ==> list[i] != list[j]
  }

  // ----- registrations ------------------------------------------------------------------------

  /** The listed registrations and those a script still holds are all there are. */
  predicate Retained(regs: Registrations, listed: seq<Reg>, hooks: Hooks) {
    && NoRepeats(listed)
    && (forall reg :: reg in listed ==> reg in regs)
    && (forall hook :: hook in hooks ==> hooks[hook] in regs)
    && forall reg :: reg in regs ==> reg in listed || exists hook :: hook in hooks && hooks[hook] == reg
  }

  /** The retire function has run exactly once if the registration is closed, and never before. */
  predicate RetiredOnce(regs: Registrations) {
    forall reg :: reg in regs ==> regs[reg].retirements == if regs[reg].closing then 1 else 0
  }

  /** Whatever is no longer listed was closed, is not running and is unknown to the host. */
  predicate DroppedClosed(regs: Registrations, listed: seq<Reg>) {
    forall reg :: reg in regs && reg !in listed ==> regs[reg].closing && regs[reg].active == 0 && regs[reg].handle == 0
  }

  /** Every callback in the host belongs to a listed registration, which knows it or is being installed. */
  predicate Installed(regs: Registrations, listed: seq<Reg>, callbacks: map<Callback, Reg>, installing: set<Reg>) {
    && (forall c :: c in callbacks ==>
          && c != 0 && callbacks[c] in listed && callbacks[c] in regs
          && (regs[callbacks[c]].handle == c || (regs[callbacks[c]].handle == 0 && callbacks[c] in installing)))
    && (forall reg :: reg in regs && regs[reg].handle != 0 ==>
          regs[reg].handle in callbacks && callbacks[regs[reg].handle] == reg)
    && (forall a, b :: a in callbacks && b in callbacks && callbacks[a] == callbacks[b] ==> a == b)
    && forall reg :: reg in installing ==> reg in regs && reg in listed && regs[reg].handle == 0
  }

  // ----- targets --------------------------------------------------------------------------------

  /** Somebody still uses the target. */
  predicate Used(regs: Registrations, targets: References, calls: References, data: Data) {
    || (exists reg :: reg in regs && regs[reg].data == data)
    || (exists target :: target in targets && targets[target] == data)
    || (exists call :: call in calls && calls[call] == data)
  }

  /** Every target in use is kept, but for the lost ones. */
  predicate UsedAreKept(regs: Registrations, targets: References, calls: References, kept: seq<Data>, lost: set<Data>) {
    && (forall reg :: reg in regs ==> regs[reg].data in kept || regs[reg].data in lost)
    && (forall target :: target in targets ==> targets[target] in kept || targets[target] in lost)
    && forall call :: call in calls ==> calls[call] in kept || calls[call] in lost
  }

  /** The host lends exactly the kept targets, each once. */
  predicate LeasesMatch(kept: seq<Data>, lease: map<Data, Lease>, leases: set<Lease>) {
    && NoRepeats(kept)
    && (forall data :: data in kept ==> data in lease && lease[data] in leases)
    && (forall a, b :: a in kept && b in kept && lease[a] == lease[b] ==> a == b)
    && forall l :: l in leases ==> exists data :: data in kept && lease[data] == l
  }

  function Without(list: seq<nat>, index: nat): seq<nat>
    requires index < |list|
  {
    list[..index] + list[index + 1..]
  }

  lemma WithoutMembers(list: seq<nat>, index: nat)
    requires index < |list| && NoRepeats(list)
    ensures NoRepeats(Without(list, index)) && |Without(list, index)| == |list| - 1
    ensures forall x :: x in Without(list, index) <==> x in list && x != list[index]
  {
    var after := Without(list, index);
    forall x ensures x in after <==> x in list && x != list[index] {
      if x in list && x != list[index] {
        var i :| 0 <= i < |list| && list[i] == x;
        assert if i < index then after[i] == x else after[i - 1] == x;
      }
    }
  }

  /** Dropping a target loses it exactly when somebody uses it. */
  lemma DropTargetLoses(regs: Registrations, targets: References, calls: References, kept: seq<Data>, lost: set<Data>, index: nat)
    requires index < |kept| && NoRepeats(kept) && UsedAreKept(regs, targets, calls, kept, lost) && kept[index] !in lost
    ensures UsedAreKept(regs, targets, calls, Without(kept, index), lost + {kept[index]})
    ensures UsedAreKept(regs, targets, calls, Without(kept, index), lost) <==> !Used(regs, targets, calls, kept[index])
  {
    WithoutMembers(kept, index);
  }

  lemma DropTargetLeases(kept: seq<Data>, lease: map<Data, Lease>, leases: set<Lease>, index: nat)
    requires LeasesMatch(kept, lease, leases) && index < |kept|
    ensures LeasesMatch(Without(kept, index), lease, leases - {lease[kept[index]]})
  {
    WithoutMembers(kept, index);
  }

  /** Each registration has at most one hook object. */
  predicate OneHook(hooks: Hooks) {
    forall a, b :: a in hooks && b in hooks && hooks[a] == hooks[b] ==> a == b
  }

  /** Everything about registrations at once. */
  predicate RegsOk(regs: Registrations, listed: seq<Reg>, hooks: Hooks, callbacks: map<Callback, Reg>, installing: set<Reg>) {
    && Retained(regs, listed, hooks) && OneHook(hooks) && RetiredOnce(regs) && DroppedClosed(regs, listed)
    && Installed(regs, listed, callbacks, installing)
  }

  // ----- what each change keeps ---------------------------------------------------------------

  lemma ChangeKeeps(regs: Registrations, listed: seq<Reg>, hooks: Hooks, callbacks: map<Callback, Reg>, installing: set<Reg>,
                    reg: Reg, now: Registration)
    requires RegsOk(regs, listed, hooks, callbacks, installing) && reg in regs
    requires now.data == regs[reg].data && now.handle == regs[reg].handle
    requires now.retirements == if now.closing then 1 else 0
    requires reg !in listed ==> now.closing && now.active == 0
    ensures RegsOk(regs[reg := now], listed, hooks, callbacks, installing)
  {
  }

  lemma ChangeUses(regs: Registrations, targets: References, calls: References, kept: seq<Data>, lost: set<Data>, reg: Reg, now: Registration)
    requires reg in regs && now.data == regs[reg].data
    ensures UsedAreKept(regs[reg := now], targets, calls, kept, lost) <==> UsedAreKept(regs, targets, calls, kept, lost)
    ensures forall data :: Used(regs[reg := now], targets, calls, data) <==> Used(regs, targets, calls, data)
  {
    var after := regs[reg := now];
    forall data ensures Used(after, targets, calls, data) <==> Used(regs, targets, calls, data) {
      if exists r :: r in regs && regs[r].data == data {
        var r :| r in regs && regs[r].data == data;
        assert after[r].data == data;
      }
    }
    if UsedAreKept(after, targets, calls, kept, lost) {
      forall r | r in regs ensures regs[r].data in kept || regs[r].data in lost { assert after[r].data == regs[r].data; }
    }
  }

  lemma AddKeeps(regs: Registrations, listed: seq<Reg>, hooks: Hooks, callbacks: map<Callback, Reg>, installing: set<Reg>,
                 reg: Reg, data: Data, hook: Object)
    requires RegsOk(regs, listed, hooks, callbacks, installing) && reg !in regs && hook !in hooks
    ensures RegsOk(regs[reg := Registration(data, 0, 0, false, 0)], listed + [reg], hooks[hook := reg], callbacks, installing)
  {
    assert reg !in listed;
    forall h | h in hooks ensures hooks[h] != reg {}
    var after := regs[reg := Registration(data, 0, 0, false, 0)];
    var hooked := hooks[hook := reg];
    forall r | r in after ensures r in listed + [reg] || exists h :: h in hooked && hooked[h] == r {
      if r != reg && r !in listed {
        var h :| h in hooks && hooks[h] == r;
        assert hooked[h] == r;
      }
    }
    assert Installed(after, listed + [reg], callbacks, installing);
  }

  lemma InstallKeeps(regs: Registrations, listed: seq<Reg>, hooks: Hooks, callbacks: map<Callback, Reg>, installing: set<Reg>,
                     reg: Reg, callback: Callback)
    requires RegsOk(regs, listed, hooks, callbacks, installing) && reg in regs && reg in listed && regs[reg].handle == 0
    requires callback != 0 && callback !in callbacks && reg !in installing
    ensures RegsOk(regs, listed, hooks, callbacks[callback := reg], installing + {reg})
  {
  }

  /** The host gave the new callback's handle, or took the callback back. */
  lemma InstalledKeeps(regs: Registrations, listed: seq<Reg>, hooks: Hooks, callbacks: map<Callback, Reg>, installing: set<Reg>,
                       reg: Reg, callback: Callback)
    requires RegsOk(regs, listed, hooks, callbacks, installing) && reg in installing
    requires callback in callbacks && callbacks[callback] == reg
    ensures RegsOk(regs[reg := regs[reg].(handle := callback)], listed, hooks, callbacks, installing - {reg})
    ensures RegsOk(regs, listed, hooks, callbacks - {callback}, installing - {reg})
  {
  }

  lemma RemovedKeeps(regs: Registrations, listed: seq<Reg>, hooks: Hooks, callbacks: map<Callback, Reg>, installing: set<Reg>, reg: Reg)
    requires RegsOk(regs, listed, hooks, callbacks, installing) && reg in regs && regs[reg].handle != 0
    ensures RegsOk(regs[reg := regs[reg].(handle := 0)], listed, hooks, callbacks - {regs[reg].handle}, installing)
  {
  }

  lemma UnlistKeeps(regs: Registrations, listed: seq<Reg>, hooks: Hooks, callbacks: map<Callback, Reg>, installing: set<Reg>, index: nat)
    requires RegsOk(regs, listed, hooks, callbacks, installing) && index < |listed|
    requires listed[index] in regs && listed[index] !in installing
    requires regs[listed[index]].closing && regs[listed[index]].active == 0 && regs[listed[index]].handle == 0
    requires exists hook :: hook in hooks && hooks[hook] == listed[index]
    ensures RegsOk(regs, Without(listed, index), hooks, callbacks, installing)
  {
    WithoutMembers(listed, index);
    forall c | c in callbacks ensures callbacks[c] != listed[index] {}
  }

  lemma DestroyKeeps(regs: Registrations, listed: seq<Reg>, hooks: Hooks, callbacks: map<Callback, Reg>, installing: set<Reg>, index: nat)
    requires RegsOk(regs, listed, hooks, callbacks, installing) && index < |listed|
    requires listed[index] in regs && listed[index] !in installing
    requires regs[listed[index]].closing && regs[listed[index]].active == 0 && regs[listed[index]].handle == 0
    requires forall hook :: hook in hooks ==> hooks[hook] != listed[index]
    ensures RegsOk(regs - {listed[index]}, Without(listed, index), hooks, callbacks, installing)
  {
    WithoutMembers(listed, index);
    forall c | c in callbacks ensures callbacks[c] != listed[index] {}
  }

  lemma UnhookKeeps(regs: Registrations, listed: seq<Reg>, hooks: Hooks, callbacks: map<Callback, Reg>, installing: set<Reg>, hook: Object)
    requires RegsOk(regs, listed, hooks, callbacks, installing) && hook in hooks
    ensures hooks[hook] in regs
    ensures hooks[hook] in listed ==> RegsOk(regs, listed, hooks - {hook}, callbacks, installing)
    ensures hooks[hook] !in listed ==> RegsOk(regs - {hooks[hook]}, listed, hooks - {hook}, callbacks, installing)
  {
    var left := hooks - {hook};
    forall r | r in regs && r != hooks[hook] && r !in listed ensures exists h :: h in left && left[h] == r {
      var h :| h in hooks && hooks[h] == r;
      assert h in left;
    }
  }

  lemma FewerUses(regs: Registrations, targets: References, calls: References, kept: seq<Data>, lost: set<Data>,
                  regs': Registrations, targets': References, calls': References)
    requires forall r :: r in regs' ==> r in regs && regs'[r] == regs[r]
    requires forall t :: t in targets' ==> t in targets && targets'[t] == targets[t]
    requires forall c :: c in calls' ==> c in calls && calls'[c] == calls[c]
    ensures UsedAreKept(regs, targets, calls, kept, lost) ==> UsedAreKept(regs', targets', calls', kept, lost)
    ensures forall data :: Used(regs', targets', calls', data) ==> Used(regs, targets, calls, data)
  {
  }

  // ----- the whole state -----------------------------------------------------------------------

  /**
    * `pending` are the registrations whose hook no script has been given yet. Of a release under way,
    * `again` are the Target objects opened for the target that is being given back. A target given back
    * while somebody used it is `lost`.
    */
  datatype State = State(regs: Registrations, listed: seq<Reg>, hooks: Hooks, targets: References, calls: References,
                         kept: seq<Data>, lease: map<Data, Lease>, keepalive: bool, depth: nat, collecting: bool,
                         pending: set<Reg>, installing: set<Reg>, again: set<Object>, lost: set<Data>,
                         nextReg: nat, nextData: nat, nextObject: nat,
                         callbacks: map<Callback, Reg>, leases: set<Lease>, releasing: Option<Lease>, nextCallback: nat)

  /** Numbers still to come belong to nobody. */
  predicate Numbered(s: State) {
    && (forall reg :: reg in s.regs ==> reg < s.nextReg)
    && (forall data :: data in s.lease ==> data < s.nextData)
    && (forall hook :: hook in s.hooks ==> hook < s.nextObject)
    && (forall target :: target in s.targets ==> target < s.nextObject)
    && (forall call :: call in s.calls ==> call < s.nextObject)
    && (forall c :: c in s.callbacks ==> c < s.nextCallback)
    && 0 < s.nextCallback
  }

  /** While anything is listed or kept, the service keeps itself alive. */
  predicate Alive(s: State) {
    s.lost == {} && (s.listed != [] || s.kept != []) ==> s.keepalive
  }

  /** What is lost was a target once and is not kept any more. */
  predicate LostGone(s: State) {
    forall data :: data in s.lost ==> data in s.lease && data !in s.kept
  }

  predicate Good(s: State) {
    && RegsOk(s.regs, s.listed, s.hooks, s.callbacks, s.installing)
    && UsedAreKept(s.regs, s.targets, s.calls, s.kept, s.lost)
    && LeasesMatch(s.kept, s.lease, s.leases)
    && Alive(s) && Numbered(s) && LostGone(s)
    && (s.releasing.Some? ==> s.collecting)
    && (forall reg :: reg in s.installing ==> reg in s.regs && s.regs[reg].active > 0)
    && (forall reg :: reg in s.pending ==> reg < s.nextReg)
    && |s.listed| <= 256
  }

  /** A registration whose callback runs stays listed and as it is, but for being closed. */
  predicate RunningStay(a: State, b: State) {
    forall reg :: reg in a.regs && a.regs[reg].active > 0 && reg in a.listed ==>
      && reg in b.regs && reg in b.listed
      && SameReg(a.regs[reg], b.regs[reg])
  }

  predicate SameReg(a: Registration, b: Registration) {
    a.data == b.data && a.handle == b.handle && a.active == b.active && (a.closing ==> b.closing)
  }

  /** While collecting, lists only grow and what was listed stays. */
  predicate ListsGrow(a: State, b: State) {
    && a.listed <= b.listed && a.kept <= b.kept
    && forall reg :: reg in a.listed && reg in a.regs ==> reg in b.regs && SameReg(a.regs[reg], b.regs[reg])
  }

  /** A target being released, once unused, stays unused until it is opened again. */
  predicate ReleasedUnused(a: State, b: State) {
    && a.again <= b.again
    && forall data :: data in a.lease && a.releasing == Some(a.lease[data]) && !Used(a.regs, a.targets, a.calls, data) ==>
         !Used(b.regs, b.targets, b.calls, data) || b.again != {}
  }

  predicate LeasesStay(a: State, b: State) {
    forall data :: data in a.lease ==> data in b.lease && b.lease[data] == a.lease[data]
  }

  /** A callback being installed stays in the host. */
  predicate InstallingStay(a: State, b: State) {
    forall c :: c in a.callbacks && a.callbacks[c] in a.installing ==> c in b.callbacks && b.callbacks[c] == a.callbacks[c]
  }

  /** The host does not have the registration yet and nobody else has its hook. */
  predicate Waits(s: State, reg: Reg) {
    && reg in s.pending && reg in s.regs && reg in s.listed
    && s.regs[reg].handle == 0 && s.regs[reg].active == 0 && !s.regs[reg].closing
  }

  /** A waiting registration stays as it is, and so does the hook of any registration still pending. */
  predicate PendingStay(a: State, b: State) {
    && a.pending <= b.pending
    && (forall reg :: reg in a.pending && Waits(a, reg) ==> Waits(b, reg) && b.regs[reg] == a.regs[reg])
    && forall hook :: hook in a.hooks && a.hooks[hook] in a.pending ==> hook in b.hooks && b.hooks[hook] == a.hooks[hook]
  }

  /** Nothing is lost but by a collection. */
  predicate LostStay(a: State, b: State) {
    a.lost <= b.lost && (a.collecting ==> b.lost == a.lost)
  }

  /** What the inside of a host call or of a callback may do to the outside. */
  predicate Later(a: State, b: State) {
    && RunningStay(a, b) && LeasesStay(a, b) && InstallingStay(a, b) && PendingStay(a, b) && LostStay(a, b)
    && b.depth == a.depth && b.collecting == a.collecting && b.installing == a.installing && b.releasing == a.releasing
    && (a.collecting ==> ListsGrow(a, b))
    && (a.releasing.Some? ==> ReleasedUnused(a, b))
  }

  lemma LaterAlways(s: State)
    ensures Later(s, s)
  {
  }

  lemma LaterOnward(a: State, b: State, c: State)
    requires Later(a, b) && Later(b, c)
    ensures Later(a, c)
  {
    hide Used, Waits;
  }

  /** Every Target object opened for the target being given back is still there. */
  predicate Held(s: State) {
    forall target :: target in s.again ==>
      && target in s.targets && s.targets[target] in s.kept && s.targets[target] in s.lease
      && s.releasing == Some(s.lease[s.targets[target]])
  }

  /** The state went on as the acts allow. */
  ghost predicate Follows(a: State, b: State, doing: Doing) {
    && (a.releasing.Some? && a.releasing.value !in doing.opens ==> b.again == a.again)
    && (a.releasing.Some? && !doing.drops && Held(a) ==> Held(b))
    && (!doing.reopens ==> b.lost == a.lost)
    && (!doing.nests && |a.kept| <= 64 ==> |b.kept| <= 64)
  }

  lemma FollowsAlways(s: State, doing: Doing)
    ensures Follows(s, s, doing)
  {
  }

  /** A part of what may happen. */
  ghost predicate Within(part: Doing, whole: Doing) {
    && part.opens <= whole.opens && (part.drops ==> whole.drops)
    && (part.reopens ==> whole.reopens) && (part.nests ==> whole.nests)
  }

  lemma FollowsMore(a: State, b: State, part: Doing, whole: Doing)
    requires Follows(a, b, part) && Within(part, whole)
    ensures Follows(a, b, whole)
  {
    hide Held;
  }

  lemma FollowsOnward(a: State, b: State, c: State, first: Doing, second: Doing, whole: Doing)
    requires Follows(a, b, first) && Follows(b, c, second) && (Later(a, b) || b.releasing == a.releasing)
    requires Within(first, whole) && Within(second, whole)
    ensures Follows(a, c, whole)
  {
    hide Held, RunningStay, ListsGrow, ReleasedUnused, PendingStay, LeasesStay, InstallingStay;
  }

  lemma Onward(a: State, b: State, c: State, first: Doing, second: Doing, whole: Doing)
    requires Later(a, b) && Later(b, c) && Follows(a, b, first) && Follows(b, c, second)
    requires Within(first, whole) && Within(second, whole)
    ensures Later(a, c) && Follows(a, c, whole)
  {
    hide Later, Follows, Within;
    LaterOnward(a, b, c);
    FollowsOnward(a, b, c, first, second, whole);
  }

  /** Nothing about targets changed, except that a script may have let go of some. */
  predicate SameTargets(a: State, b: State) {
    && b.again == a.again && b.lost == a.lost && b.kept == a.kept && b.releasing == a.releasing && b.lease == a.lease
    && b.targets == a.targets
  }

  /** While collecting, nothing is lost; outside a release, nothing is opened again. */
  lemma CollectingFollows(a: State, b: State, doing: Doing)
    requires Later(a, b) && a.collecting && a.releasing.None? && Follows(a, b, doing)
    ensures Follows(a, b, Doing({}, false, false, doing.nests))
  {
    hide RunningStay, ListsGrow, ReleasedUnused, PendingStay, LeasesStay, InstallingStay;
  }

  lemma SameFollows(a: State, b: State, doing: Doing)
    requires SameTargets(a, b)
    ensures Follows(a, b, doing)
  {
  }

  // ----- steps ---------------------------------------------------------------------------------

  function Closed(reg: Registration): Registration {
    if reg.closing then reg else reg.(closing := true, retirements := reg.retirements + 1)
  }

  function WithReg(s: State, reg: Reg, now: Registration): State {
    s.(regs := s.regs[reg := now])
  }

  lemma RegFacts(s: State, reg: Reg)
    requires Good(s) && reg in s.regs
    ensures s.regs[reg].retirements == if s.regs[reg].closing then 1 else 0
    ensures reg !in s.listed ==> s.regs[reg].closing && s.regs[reg].active == 0 && s.regs[reg].handle == 0
    ensures reg in s.installing ==> s.regs[reg].active > 0
  {
  }

  /** A registration may run and close, as long as its data and handle stay. */
  lemma WithRegKeeps(s: State, reg: Reg, now: Registration)
    requires Good(s) && reg in s.regs
    requires now.data == s.regs[reg].data && now.handle == s.regs[reg].handle
    requires now.retirements == if now.closing then 1 else 0
    requires reg !in s.listed ==> now.closing && now.active == 0
    requires reg in s.installing ==> now.active > 0
    ensures Good(WithReg(s, reg, now))
  {
    hide RegsOk, Used, UsedAreKept, LeasesMatch;
    ChangeKeeps(s.regs, s.listed, s.hooks, s.callbacks, s.installing, reg, now);
    ChangeUses(s.regs, s.targets, s.calls, s.kept, s.lost, reg, now);
  }

  lemma CloseStep(s: State, reg: Reg)
    requires Good(s) && reg in s.regs
    ensures Good(WithReg(s, reg, Closed(s.regs[reg])))
    ensures !Waits(s, reg) ==> Later(s, WithReg(s, reg, Closed(s.regs[reg])))
  {
    hide Good, Later;
    RegFacts(s, reg);
    WithRegKeeps(s, reg, Closed(s.regs[reg]));
    if !Waits(s, reg) { CloseLater(s, reg); }
  }

  lemma CloseLater(s: State, reg: Reg)
    requires reg in s.regs && !Waits(s, reg)
    ensures Later(s, WithReg(s, reg, Closed(s.regs[reg])))
  {
    hide Used;
    ChangeUses(s.regs, s.targets, s.calls, s.kept, s.lost, reg, Closed(s.regs[reg]));
  }

  function Entered(s: State, reg: Reg): State
    requires reg in s.regs
  {
    WithReg(s, reg, s.regs[reg].(active := s.regs[reg].active + 1)).(depth := s.depth + 1)
  }

  lemma DepthKeeps(s: State, depth: nat)
    requires Good(s)
    ensures Good(s.(depth := depth))
  {
  }

  lemma EnterStep(s: State, reg: Reg)
    requires Good(s) && reg in s.regs && reg in s.listed
    ensures Good(Entered(s, reg))
  {
    hide Good;
    RegFacts(s, reg);
    WithRegKeeps(s, reg, s.regs[reg].(active := s.regs[reg].active + 1));
    DepthKeeps(WithReg(s, reg, s.regs[reg].(active := s.regs[reg].active + 1)), s.depth + 1);
  }

  /** After the callback returns, everything is as the nested acts left it. */
  lemma LeaveStep(s: State, reg: Reg, inside: State)
    requires Good(s) && Good(inside) && reg in s.regs && reg in s.listed && !Waits(s, reg) && Later(Entered(s, reg), inside)
    ensures reg in inside.regs && reg in inside.listed && inside.regs[reg].active == s.regs[reg].active + 1
    ensures inside.depth == s.depth + 1
    ensures Good(Left(s, inside, reg)) && Later(s, Left(s, inside, reg))
  {
    RunningStays(Entered(s, reg), inside, reg);
    RegFacts(inside, reg);
    RegFacts(s, reg);
    WithRegKeeps(inside, reg, inside.regs[reg].(active := s.regs[reg].active));
    DepthKeeps(WithReg(inside, reg, inside.regs[reg].(active := s.regs[reg].active)), s.depth);
    hide Good;
    LeaveLater(s, reg, inside);
  }

  function Left(s: State, inside: State, reg: Reg): State
    requires reg in s.regs && reg in inside.regs
  {
    WithReg(inside, reg, inside.regs[reg].(active := s.regs[reg].active)).(depth := s.depth)
  }

  lemma RunningStays(s: State, inside: State, reg: Reg)
    requires Later(s, inside) && reg in s.regs && s.regs[reg].active > 0 && reg in s.listed
    ensures reg in inside.regs && reg in inside.listed && SameReg(s.regs[reg], inside.regs[reg])
    ensures inside.depth == s.depth && inside.installing == s.installing
  {
  }

  lemma LeaveLater(s: State, reg: Reg, inside: State)
    requires reg in s.regs && reg in s.listed && reg in inside.regs && reg in inside.listed && Later(Entered(s, reg), inside)
    requires !Waits(s, reg)
    requires SameReg(Entered(s, reg).regs[reg], inside.regs[reg])
    ensures Later(s, Left(s, inside, reg))
  {
    hide Used;
    ChangeUses(s.regs, s.targets, s.calls, s.kept, s.lost, reg, Entered(s, reg).regs[reg]);
    ChangeUses(inside.regs, inside.targets, inside.calls, inside.kept, inside.lost, reg, inside.regs[reg].(active := s.regs[reg].active));
  }

  // ----- objects a script holds ------------------------------------------------------------------

  /** A new Target object, perhaps for the very target that is being given back. */
  function WithTarget(s: State, data: Data): State
    requires data in s.lease
  {
    s.(targets := s.targets[s.nextObject := data], nextObject := s.nextObject + 1,
       again := if s.releasing == Some(s.lease[data]) then s.again + {s.nextObject} else s.again)
  }

  function WithCall(s: State, data: Data): State {
    s.(calls := s.calls[s.nextObject := data], nextObject := s.nextObject + 1)
  }

  lemma TargetStep(s: State, data: Data)
    requires Good(s) && data in s.kept && data in s.lease
    ensures Good(WithTarget(s, data)) && Later(s, WithTarget(s, data))
  {
    hide RegsOk, LeasesMatch;
  }

  lemma TargetFollows(s: State, data: Data)
    requires Good(s) && data in s.kept && data in s.lease
    ensures Follows(s, WithTarget(s, data), Doing({s.lease[data]}, false, false, false))
  {
    hide RegsOk, LeasesMatch;
  }

  /** A call is prepared on a target somebody holds. */
  lemma CallStep(s: State, target: Object)
    requires Good(s) && target in s.targets
    ensures Good(WithCall(s, s.targets[target])) && Later(s, WithCall(s, s.targets[target]))
  {
    hide RegsOk, LeasesMatch;
  }

  lemma DropTargetStep(s: State, target: Object)
    requires Good(s)
    ensures Good(s.(targets := s.targets - {target})) && Later(s, s.(targets := s.targets - {target}))
  {
    hide RegsOk, LeasesMatch;
  }

  lemma DropCallStep(s: State, call: Object)
    requires Good(s)
    ensures Good(s.(calls := s.calls - {call})) && Later(s, s.(calls := s.calls - {call}))
  {
    hide RegsOk, LeasesMatch;
  }

  /** The hook object goes; its registration goes with it unless it is still listed. */
  function Unhooked(s: State, hook: Object): State
    requires hook in s.hooks
  {
    s.(hooks := s.hooks - {hook}, regs := if s.hooks[hook] in s.listed then s.regs else s.regs - {s.hooks[hook]})
  }

  /** Registrations and hooks may leave. */
  lemma FewerRegsGood(s: State, after: State)
    requires Good(s) && after == s.(regs := after.regs, listed := after.listed, hooks := after.hooks)
    requires RegsOk(after.regs, after.listed, after.hooks, after.callbacks, after.installing)
    requires forall r :: r in after.regs ==> r in s.regs && after.regs[r] == s.regs[r]
    requires forall hook :: hook in after.hooks ==> hook in s.hooks
    requires forall r :: r in s.installing ==> r in after.regs
    requires |after.listed| <= |s.listed|
    ensures Good(after)
  {
    hide RegsOk, LeasesMatch;
    FewerUses(s.regs, s.targets, s.calls, s.kept, s.lost, after.regs, s.targets, s.calls);
    hide UsedAreKept, Used;
  }

  lemma UnhookStep(s: State, hook: Object)
    requires Good(s) && hook in s.hooks
    ensures Good(Unhooked(s, hook))
    ensures s.hooks[hook] !in s.pending ==> Later(s, Unhooked(s, hook))
  {
    if s.hooks[hook] !in s.pending { UnhookLater(s, hook); }
    CallbacksBelow(s);
    InstallingListed(s.regs, s.listed, s.hooks, s.callbacks, s.installing);
    hide RegsOk, Good, Later;
    UnhookKeeps(s.regs, s.listed, s.hooks, s.callbacks, s.installing, hook);
    FewerRegsGood(s, Unhooked(s, hook));
  }

  lemma InstallingListed(regs: Registrations, listed: seq<Reg>, hooks: Hooks, callbacks: map<Callback, Reg>, installing: set<Reg>)
    requires RegsOk(regs, listed, hooks, callbacks, installing)
    ensures forall r :: r in installing ==> r in listed && r in regs
  {
  }

  lemma UnhookLater(s: State, hook: Object)
    requires hook in s.hooks && s.hooks[hook] !in s.pending
    ensures Later(s, Unhooked(s, hook))
  {
    hide Used;
    FewerUses(s.regs, s.targets, s.calls, s.kept, s.lost, Unhooked(s, hook).regs, s.targets, s.calls);
  }

  // ----- targets and their leases ------------------------------------------------------------------

  /** The host resolved a lease nobody had. */
  function Kept(s: State, lease: Lease): State {
    s.(kept := s.kept + [s.nextData], lease := s.lease[s.nextData := lease], nextData := s.nextData + 1,
       leases := s.leases + {lease}, keepalive := true)
  }

  lemma KeepStep(s: State, lease: Lease)
    requires Good(s)
    requires forall data :: data in s.kept ==> data in s.lease && s.lease[data] != lease
    ensures Good(Kept(s, lease)) && Later(s, Kept(s, lease))
  {
    hide RegsOk, LeasesMatch, Used, Later;
    KeepLeases(s.kept, s.lease, s.leases, s.nextData, lease);
    KeepLater(s, lease);
  }

  lemma KeepFollows(s: State, lease: Lease, doing: Doing)
    requires Good(s) && (doing.nests || |s.kept| < 64)
    ensures Follows(s, Kept(s, lease), doing)
  {
    hide RegsOk, LeasesMatch, UsedAreKept;
  }

  lemma KeepLater(s: State, lease: Lease)
    requires s.nextData !in s.lease
    ensures Later(s, Kept(s, lease))
  {
    hide Used;
  }

  lemma KeepLeases(kept: seq<Data>, lease: map<Data, Lease>, leases: set<Lease>, data: Data, l: Lease)
    requires LeasesMatch(kept, lease, leases) && data !in lease
    requires forall d :: d in kept ==> d in lease && lease[d] != l
    ensures LeasesMatch(kept + [data], lease[data := l], leases + {l})
  {
    var kept', lease' := kept + [data], lease[data := l];
    assert data !in kept;
    forall x | x in leases + {l} ensures exists d :: d in kept' && lease'[d] == x {
      if x == l {
        assert data in kept' && lease'[data] == x;
      } else {
        var d :| d in kept && lease[d] == x;
        assert d in kept' && lease'[d] == x;
      }
    }
  }

  lemma DropTargetFollows(s: State, target: Object)
    ensures Follows(s, s.(targets := s.targets - {target}), Doing({}, true, false, false))
  {
  }

  lemma KeepaliveStep(s: State)
    requires Good(s)
    ensures Good(s.(keepalive := true)) && Later(s, s.(keepalive := true))
  {
    hide RegsOk, LeasesMatch, UsedAreKept, Used;
  }

  /** A released target is dropped, and lost if somebody uses it. */
  function Dropped(s: State, index: nat): State
    requires index < |s.kept| && s.kept[index] in s.lease
  {
    s.(kept := Without(s.kept, index), leases := s.leases - {s.lease[s.kept[index]]},
       lost := s.lost + if Used(s.regs, s.targets, s.calls, s.kept[index]) then {s.kept[index]} else {})
  }

  lemma DropStep(s: State, index: nat)
    requires Good(s) && index < |s.kept|
    ensures s.kept[index] in s.lease && Good(Dropped(s, index))
  {
    WithoutMembers(s.kept, index);
    DropTargetLoses(s.regs, s.targets, s.calls, s.kept, s.lost, index);
    DropTargetLeases(s.kept, s.lease, s.leases, index);
    hide RegsOk, LeasesMatch, UsedAreKept, Used;
  }

  // ----- registrations --------------------------------------------------------------------------------

  function Listed(s: State, data: Data): State {
    s.(regs := s.regs[s.nextReg := Registration(data, 0, 0, false, 0)], listed := s.listed + [s.nextReg], pending := s.pending + {s.nextReg},
       hooks := s.hooks[s.nextObject := s.nextReg], nextReg := s.nextReg + 1, nextObject := s.nextObject + 1)
  }

  lemma ListStep(s: State, target: Object)
    requires Good(s) && target in s.targets && |s.listed| < 256
    ensures Good(Listed(s, s.targets[target])) && Later(s, Listed(s, s.targets[target]))
  {
    ListLater(s, target);
    ListGood(s, target);
  }

  lemma ListFollows(s: State, data: Data)
    requires Good(s)
    ensures Follows(s, Listed(s, data), Nothing) && Waits(Listed(s, data), s.nextReg) && Listed(s, data).hooks == s.hooks[s.nextObject := s.nextReg]
    ensures Listed(s, data).regs.Keys == s.regs.Keys + {s.nextReg}
    ensures SameTargets(s, Listed(s, data)) && Listed(s, data).calls == s.calls && Listed(s, data).installing == s.installing
  {
    hide Good;
    SameFollows(s, Listed(s, data), Nothing);
    assert s.nextReg in s.listed + [s.nextReg];
  }

  lemma ListGood(s: State, target: Object)
    requires Good(s) && target in s.targets && |s.listed| < 256
    ensures Good(Listed(s, s.targets[target]))
  {
    hide RegsOk, LeasesMatch, Used, NoRepeats;
    AddKeeps(s.regs, s.listed, s.hooks, s.callbacks, s.installing, s.nextReg, s.targets[target], s.nextObject);
    assert s.kept != [] || s.lost != {};
  }

  lemma ListLater(s: State, target: Object)
    requires target in s.targets && s.nextReg !in s.regs && s.nextObject !in s.hooks
    ensures Later(s, Listed(s, s.targets[target]))
  {
    var after := Listed(s, s.targets[target]);
    forall data | !Used(s.regs, s.targets, s.calls, data) ensures !Used(after.regs, after.targets, after.calls, data) {
      assert data != s.targets[target];
    }
    hide Used;
  }

  /** The host has the callback and enters it at once; the registration does not have its handle yet. */
  function InstallEntered(s: State, reg: Reg, callback: Callback): State
    requires reg in s.regs
  {
    Entered(s, reg).(callbacks := s.callbacks[callback := reg], installing := s.installing + {reg}, nextCallback := callback + 1)
  }

  /** Everything but the registrations and the host's callbacks is as it was. */
  predicate OnlyRegs(s: State, after: State) {
    after == s.(regs := after.regs, callbacks := after.callbacks, installing := after.installing,
                nextCallback := after.nextCallback, depth := after.depth)
  }

  lemma OnlyRegsGood(s: State, after: State)
    requires Good(s) && OnlyRegs(s, after)
    requires RegsOk(after.regs, after.listed, after.hooks, after.callbacks, after.installing)
    requires after.regs.Keys == s.regs.Keys && forall r :: r in s.regs ==> after.regs[r].data == s.regs[r].data
    requires forall c :: c in after.callbacks ==> c < after.nextCallback
    requires 0 < after.nextCallback
    requires forall r :: r in after.installing ==> r in after.regs && after.regs[r].active > 0
    ensures Good(after)
  {
    hide RegsOk, LeasesMatch;
    assert UsedAreKept(after.regs, after.targets, after.calls, after.kept, after.lost);
  }

  lemma CallbacksBelow(s: State)
    requires Good(s)
    ensures forall c :: c in s.callbacks ==> c < s.nextCallback
    ensures 0 < s.nextCallback && s.nextCallback !in s.callbacks
    ensures forall r :: r in s.installing ==> r in s.regs && s.regs[r].active > 0
    ensures RegsOk(s.regs, s.listed, s.hooks, s.callbacks, s.installing)
  {
  }

  lemma InstallEnteredStep(s: State, reg: Reg)
    requires Good(s) && reg in s.regs && reg in s.listed && s.regs[reg].handle == 0 && reg !in s.installing
    ensures Good(InstallEntered(s, reg, s.nextCallback))
  {
    hide RegsOk, Good;
    EnterStep(s, reg);
    CallbacksBelow(s);
    CallbacksBelow(Entered(s, reg));
    InstallKeeps(Entered(s, reg).regs, s.listed, s.hooks, s.callbacks, s.installing, reg, s.nextCallback);
    OnlyRegsGood(s, InstallEntered(s, reg, s.nextCallback));
  }

  /** The callback has returned, and the host says under which handle, or that it will not have it after all. */
  function InstallLeft(s: State, inside: State, reg: Reg, callback: Callback, refused: bool): State
    requires reg in s.regs && reg in inside.regs
  {
    inside.(regs := inside.regs[reg := inside.regs[reg].(active := s.regs[reg].active,
                                                         handle := if refused then inside.regs[reg].handle else callback)],
            callbacks := if refused then inside.callbacks - {callback} else inside.callbacks,
            installing := s.installing, depth := s.depth)
  }

  lemma InstallLeftGood(s: State, inside: State, reg: Reg, callback: Callback, refused: bool)
    requires Good(s) && Good(inside) && reg in s.regs && reg in s.listed && s.regs[reg].handle == 0 && reg !in s.installing
    requires callback in inside.callbacks && inside.callbacks[callback] == reg
    requires reg in inside.regs && reg in inside.listed && inside.installing == s.installing + {reg}
    ensures Good(InstallLeft(s, inside, reg, callback, refused))
  {
    hide RegsOk, Good;
    RegFacts(inside, reg);
    RegFacts(s, reg);
    CallbacksBelow(inside);
    CallbacksBelow(s);
    InstallLeftRegs(inside.regs, inside.listed, inside.hooks, inside.callbacks, inside.installing, reg, callback, s.regs[reg].active);
    assert inside.installing - {reg} == s.installing;
    assert forall r :: r in s.installing ==> r in inside.installing && r != reg;
    var active := s.regs[reg].active;
    if refused {
      RegsAndCallbacksGood(inside, inside.regs[reg := inside.regs[reg].(active := active, handle := inside.regs[reg].handle)],
                           inside.callbacks - {callback}, s.installing, s.depth);
    } else {
      RegsAndCallbacksGood(inside, inside.regs[reg := inside.regs[reg].(active := active, handle := callback)],
                           inside.callbacks, s.installing, s.depth);
    }
  }

  lemma RegsAndCallbacksGood(s: State, regs: Registrations, callbacks: map<Callback, Reg>, installing: set<Reg>, depth: nat)
    requires Good(s) && RegsOk(regs, s.listed, s.hooks, callbacks, installing)
    requires regs.Keys == s.regs.Keys && forall r :: r in s.regs ==> regs[r].data == s.regs[r].data
    requires callbacks.Keys <= s.callbacks.Keys
    requires forall r :: r in installing ==> r in regs && regs[r].active > 0
    ensures Good(s.(regs := regs, callbacks := callbacks, installing := installing, depth := depth))
  {
    hide RegsOk, Good;
    CallbacksBelow(s);
    OnlyRegsGood(s, s.(regs := regs, callbacks := callbacks, installing := installing, depth := depth));
  }

  lemma InstallLeftRegs(regs: Registrations, listed: seq<Reg>, hooks: Hooks, callbacks: map<Callback, Reg>, installing: set<Reg>,
                        reg: Reg, callback: Callback, active: nat)
    requires RegsOk(regs, listed, hooks, callbacks, installing) && reg in installing && reg in regs && reg in listed
    requires callback in callbacks && callbacks[callback] == reg
    requires regs[reg].retirements == if regs[reg].closing then 1 else 0
    ensures RegsOk(regs[reg := regs[reg].(active := active, handle := regs[reg].handle)], listed, hooks, callbacks - {callback}, installing - {reg})
    ensures RegsOk(regs[reg := regs[reg].(active := active, handle := callback)], listed, hooks, callbacks, installing - {reg})
  {
    hide RegsOk;
    var now := regs[reg].(active := active);
    ChangeKeeps(regs, listed, hooks, callbacks, installing, reg, now);
    InstalledKeeps(regs[reg := now], listed, hooks, callbacks, installing, reg, callback);
    assert regs[reg := now][reg := now.(handle := callback)] == regs[reg := regs[reg].(active := active, handle := callback)];
    assert now == regs[reg].(active := active, handle := regs[reg].handle);
  }

  /** The new registration is nobody's concern but its own. */
  lemma InstallLeftLater(start: State, s: State, inside: State, reg: Reg, callback: Callback, refused: bool)
    requires reg !in start.regs && reg !in start.listed && Later(start, s)
    requires reg in s.regs && reg in s.listed && reg in inside.regs && reg in inside.listed
    requires Later(InstallEntered(s, reg, callback), inside)
    requires callback !in s.callbacks && reg !in s.installing
    ensures Later(start, InstallLeft(s, inside, reg, callback, refused))
  {
    InstallLeftStay(start, s, inside, reg, callback, refused);
    InstallLeftRunning(start, s, inside, reg, callback, refused);
    InstallLeftLists(start, s, inside, reg, callback, refused);
    InstallLeftUses(start, s, inside, reg, callback, refused);
    InstallLeftPending(start, s, inside, reg, callback, refused);
    hide RunningStay, ListsGrow, ReleasedUnused, InstallingStay, PendingStay;
  }

  lemma InstallLeftPending(start: State, s: State, inside: State, reg: Reg, callback: Callback, refused: bool)
    requires reg !in start.regs && reg in s.regs && reg in inside.regs
    requires PendingStay(start, s) && PendingStay(InstallEntered(s, reg, callback), inside)
    ensures PendingStay(start, InstallLeft(s, inside, reg, callback, refused))
  {
    var entered := InstallEntered(s, reg, callback);
    assert entered.pending == s.pending && entered.hooks == s.hooks && entered.listed == s.listed;
    forall r | r in s.regs && r != reg ensures entered.regs[r] == s.regs[r] {}
    hide InstallEntered;
  }

  lemma InstallLeftStay(start: State, s: State, inside: State, reg: Reg, callback: Callback, refused: bool)
    requires reg in s.regs && reg in inside.regs && InstallingStay(start, s) && start.installing == s.installing
    requires InstallingStay(InstallEntered(s, reg, callback), inside)
    requires callback !in s.callbacks && reg !in s.installing
    ensures InstallingStay(start, InstallLeft(s, inside, reg, callback, refused))
  {
    var entered := InstallEntered(s, reg, callback);
    assert entered.callbacks == s.callbacks[callback := reg] && entered.installing == s.installing + {reg};
    hide InstallEntered;
  }

  lemma InstallLeftRunning(start: State, s: State, inside: State, reg: Reg, callback: Callback, refused: bool)
    requires reg !in start.regs && reg !in start.listed && RunningStay(start, s)
    requires reg in s.regs && reg in s.listed && reg in inside.regs && reg in inside.listed
    requires RunningStay(InstallEntered(s, reg, callback), inside)
    ensures RunningStay(start, InstallLeft(s, inside, reg, callback, refused))
  {
    var entered := InstallEntered(s, reg, callback);
    forall r | r in s.regs && r != reg ensures entered.regs[r] == s.regs[r] {}
    hide InstallEntered;
  }

  lemma InstallLeftLists(start: State, s: State, inside: State, reg: Reg, callback: Callback, refused: bool)
    requires reg !in start.regs && reg !in start.listed && start.collecting == s.collecting
    requires reg in s.regs && reg in s.listed && reg in inside.regs
    requires s.collecting ==> ListsGrow(start, s) && ListsGrow(InstallEntered(s, reg, callback), inside)
    ensures start.collecting ==> ListsGrow(start, InstallLeft(s, inside, reg, callback, refused))
  {
    var entered := InstallEntered(s, reg, callback);
    assert entered.listed == s.listed && entered.kept == s.kept;
    forall r | r in s.regs && r != reg ensures entered.regs[r] == s.regs[r] {}
    hide InstallEntered;
  }

  lemma InstallLeftUses(start: State, s: State, inside: State, reg: Reg, callback: Callback, refused: bool)
    requires reg in s.regs && reg in inside.regs && Later(start, s) && Later(InstallEntered(s, reg, callback), inside)
    ensures start.releasing.Some? ==> ReleasedUnused(start, InstallLeft(s, inside, reg, callback, refused))
  {
    var entered, after := InstallEntered(s, reg, callback), InstallLeft(s, inside, reg, callback, refused);
    assert entered.regs == s.regs[reg := entered.regs[reg]] && after.regs == inside.regs[reg := after.regs[reg]];
    assert entered.targets == s.targets && entered.calls == s.calls && entered.lease == s.lease && entered.releasing == s.releasing;
    ChangeUses(s.regs, s.targets, s.calls, s.kept, s.lost, reg, entered.regs[reg]);
    ChangeUses(inside.regs, inside.targets, inside.calls, inside.kept, inside.lost, reg, after.regs[reg]);
    hide Used, InstallEntered, InstallLeft, RunningStay, ListsGrow, PendingStay;
  }

  lemma InstallInside(s: State, inside: State, reg: Reg, callback: Callback)
    requires reg in s.regs && reg in s.listed && Later(InstallEntered(s, reg, callback), inside)
    ensures callback in inside.callbacks && inside.callbacks[callback] == reg
    ensures reg in inside.regs && reg in inside.listed && inside.regs[reg].handle == s.regs[reg].handle
    ensures inside.regs[reg].active == s.regs[reg].active + 1 && inside.installing == s.installing + {reg}
    ensures inside.depth == s.depth + 1
  {
    RunningStays(InstallEntered(s, reg, callback), inside, reg);
  }

  /** The host has the callback and gives its handle without entering it. */
  function Given(s: State, reg: Reg, callback: Callback): State
    requires reg in s.regs
  {
    s.(callbacks := s.callbacks[callback := reg], nextCallback := callback + 1, regs := s.regs[reg := s.regs[reg].(handle := callback)])
  }

  lemma GivenStep(s: State, reg: Reg)
    requires Good(s) && reg in s.regs && reg in s.listed && s.regs[reg].handle == 0 && reg !in s.installing
    ensures Good(Given(s, reg, s.nextCallback))
  {
    hide RegsOk, Good;
    CallbacksBelow(s);
    InstallKeeps(s.regs, s.listed, s.hooks, s.callbacks, s.installing, reg, s.nextCallback);
    InstalledKeeps(s.regs, s.listed, s.hooks, s.callbacks[s.nextCallback := reg], s.installing + {reg}, reg, s.nextCallback);
    assert s.installing + {reg} - {reg} == s.installing;
    OnlyRegsGood(s, Given(s, reg, s.nextCallback));
  }

  lemma GivenLater(start: State, s: State, reg: Reg, callback: Callback)
    requires reg !in start.regs && reg !in start.listed && Later(start, s) && reg in s.regs && callback !in s.callbacks
    ensures Later(start, Given(s, reg, callback))
  {
    ChangeUses(s.regs, s.targets, s.calls, s.kept, s.lost, reg, s.regs[reg].(handle := callback));
    hide Used;
  }

  // ----- the end of an attachment ---------------------------------------------------------------------

  lemma WaitsOn(a: State, b: State, reg: Reg, hook: Object)
    requires Later(a, b) && Waits(a, reg) && hook in a.hooks && a.hooks[hook] == reg
    ensures Waits(b, reg) && b.regs[reg] == a.regs[reg] && hook in b.hooks && b.hooks[hook] == reg
    ensures b.installing == a.installing
  {
  }

  lemma HookStays(a: State, b: State, hook: Object)
    requires Later(a, b) && hook in a.hooks && a.hooks[hook] in a.pending
    ensures hook in b.hooks && b.hooks[hook] == a.hooks[hook] && a.hooks[hook] in b.pending
  {
  }

  /** The hook no script was given is gone for good. */
  function Forgotten(s: State, hook: Object): State
    requires hook in s.hooks
  {
    Settled(Unhooked(s, hook), s.hooks[hook])
  }

  lemma ForgottenStep(start: State, s: State, hook: Object, doing: Doing)
    requires Good(s) && hook in s.hooks && s.hooks[hook] !in start.regs && s.hooks[hook] !in start.pending
    requires Later(start, s) && Follows(start, s, doing)
    ensures Good(Forgotten(s, hook)) && Later(start, Forgotten(s, hook)) && Follows(start, Forgotten(s, hook), doing)
  {
    SameFollows(s, Forgotten(s, hook), doing);
    hide Good, Later, Follows;
    NewUnhookedLater(start, s, hook);
    UnhookStep(s, hook);
    SettledStep(start, Unhooked(s, hook), s.hooks[hook]);
    WithinAlways(doing);
    FollowsOnward(start, s, Forgotten(s, hook), doing, doing, doing);
  }

  /** The hook is no longer on its way to a script. */
  function Settled(s: State, reg: Reg): State {
    s.(pending := s.pending - {reg})
  }

  lemma SettledFollows(start: State, s: State, reg: Reg, doing: Doing)
    requires Good(s) && Later(start, s) && Follows(start, s, doing) && reg !in start.regs && reg !in start.pending
    ensures Good(Settled(s, reg)) && Later(start, Settled(s, reg)) && Follows(start, Settled(s, reg), doing)
  {
    SameFollows(s, Settled(s, reg), doing);
    hide Good, Later, Follows;
    SettledStep(start, s, reg);
    WithinAlways(doing);
    FollowsOnward(start, s, Settled(s, reg), doing, doing, doing);
  }

  lemma SettledStep(start: State, s: State, reg: Reg)
    requires Good(s) && Later(start, s) && reg !in start.regs && reg !in start.pending
    ensures Good(Settled(s, reg)) && Later(start, Settled(s, reg))
  {
    hide RegsOk, LeasesMatch, UsedAreKept, Used;
  }

  /** A registration that is newer than the start may close and lose its hook. */
  lemma NewClosedLater(start: State, s: State, reg: Reg)
    requires Later(start, s) && reg !in start.regs && reg in s.regs
    ensures Later(start, WithReg(s, reg, Closed(s.regs[reg])))
  {
    hide Used;
    ChangeUses(s.regs, s.targets, s.calls, s.kept, s.lost, reg, Closed(s.regs[reg]));
  }

  lemma NewUnhookedLater(start: State, s: State, hook: Object)
    requires Later(start, s) && hook in s.hooks && s.hooks[hook] !in start.regs && s.hooks[hook] !in start.pending
    ensures Later(start, Unhooked(s, hook))
  {
    hide Used;
    FewerUses(s.regs, s.targets, s.calls, s.kept, s.lost, Unhooked(s, hook).regs, s.targets, s.calls);
  }

  // ----- collecting -----------------------------------------------------------------------------------

  /** The host no longer calls the registration back. */
  function Uninstalled(s: State, reg: Reg): State
    requires reg in s.regs
  {
    s.(regs := s.regs[reg := s.regs[reg].(handle := 0)], callbacks := s.callbacks - {s.regs[reg].handle})
  }

  lemma UninstalledStep(s: State, reg: Reg)
    requires Good(s) && reg in s.regs && s.regs[reg].handle != 0
    ensures Good(Uninstalled(s, reg))
  {
    hide RegsOk, LeasesMatch, UsedAreKept, Used;
    RemovedKeeps(s.regs, s.listed, s.hooks, s.callbacks, s.installing, reg);
    ChangeUses(s.regs, s.targets, s.calls, s.kept, s.lost, reg, s.regs[reg].(handle := 0));
  }

  predicate Hooked(s: State, reg: Reg) {
    exists hook :: hook in s.hooks && s.hooks[hook] == reg
  }

  /** A closed registration leaves the list, and the world unless a script still holds its hook. */
  function Unlisted(s: State, index: nat): State
    requires index < |s.listed|
  {
    s.(listed := Without(s.listed, index), regs := if Hooked(s, s.listed[index]) then s.regs else s.regs - {s.listed[index]})
  }

  predicate Goner(s: State, index: nat) {
    && index < |s.listed| && s.listed[index] in s.regs && s.listed[index] !in s.installing
    && s.regs[s.listed[index]].closing && s.regs[s.listed[index]].active == 0 && s.regs[s.listed[index]].handle == 0
  }

  lemma UnlistedStep(s: State, index: nat)
    requires Good(s) && Goner(s, index)
    ensures Good(Unlisted(s, index))
  {
    if Hooked(s, s.listed[index]) { KeptShell(s, index); } else { LostShell(s, index); }
    hide RegsOk, Good, Hooked;
  }

  lemma KeptShell(s: State, index: nat)
    requires Good(s) && Goner(s, index) && Hooked(s, s.listed[index])
    ensures Good(s.(listed := Without(s.listed, index)))
  {
    var after := s.(listed := Without(s.listed, index));
    UnlistKeeps(s.regs, s.listed, s.hooks, s.callbacks, s.installing, index);
    CallbacksBelow(s);
    GoodFacts(s);
    WithoutMembers(s.listed, index);
    hide RegsOk, Good, Without, Hooked;
    FewerRegsGood(s, after);
  }

  lemma LostShell(s: State, index: nat)
    requires Good(s) && Goner(s, index) && !Hooked(s, s.listed[index])
    ensures Good(s.(listed := Without(s.listed, index), regs := s.regs - {s.listed[index]}))
  {
    var after := s.(listed := Without(s.listed, index), regs := s.regs - {s.listed[index]});
    DestroyKeeps(s.regs, s.listed, s.hooks, s.callbacks, s.installing, index);
    CallbacksBelow(s);
    GoodFacts(s);
    WithoutMembers(s.listed, index);
    hide RegsOk, Good, Without, Hooked;
    FewerRegsGood(s, after);
  }

  // ----- what the steps mean for targets ---------------------------------------------------------------

  lemma WithinAlways(doing: Doing)
    ensures Within(doing, doing) && Within(Nothing, doing)
  {
  }

  lemma InstalledIsNotWaiting(s: State, callback: Callback)
    requires Good(s) && callback in s.callbacks
    ensures !Waits(s, s.callbacks[callback])
  {
  }

  /** A callback that asked to be retired is closed, or nothing happened. */
  lemma RetiredFollows(inside: State, after: State, reg: Reg)
    requires after == inside || (reg in inside.regs && after == WithReg(inside, reg, Closed(inside.regs[reg])))
    ensures Follows(inside, after, Nothing)
  {
    SameFollows(inside, after, Nothing);
  }

  lemma SameReleasing(a: State, b: State)
    requires Later(a, b)
    ensures b.releasing == a.releasing && a.lost <= b.lost
  {
  }

  lemma LeaveFollows(s: State, inside: State, reg: Reg, doing: Doing)
    requires reg in s.regs && reg in inside.regs && Follows(Entered(s, reg), inside, doing)
    ensures Follows(s, Left(s, inside, reg), doing)
  {
    hide Held;
    SameHeld(s, Entered(s, reg));
    SameHeld(inside, Left(s, inside, reg));
  }

  lemma SameHeld(a: State, b: State)
    requires SameTargets(a, b)
    ensures Held(a) <==> Held(b)
  {
  }

  lemma InstallEnteredFollows(s: State, reg: Reg, callback: Callback, doing: Doing)
    requires reg in s.regs
    ensures InstallEntered(s, reg, callback).releasing == s.releasing && Follows(s, InstallEntered(s, reg, callback), doing)
    ensures InstallEntered(s, reg, callback).hooks == s.hooks && InstallEntered(s, reg, callback).pending == s.pending
  {
    SameFollows(s, InstallEntered(s, reg, callback), doing);
  }

  lemma InstallLeftFollows(s: State, inside: State, reg: Reg, callback: Callback, refused: bool, doing: Doing)
    requires reg in s.regs && reg in inside.regs
    ensures Follows(inside, InstallLeft(s, inside, reg, callback, refused), doing)
    ensures InstallLeft(s, inside, reg, callback, refused).releasing == inside.releasing
  {
    SameFollows(inside, InstallLeft(s, inside, reg, callback, refused), doing);
  }

  /** What was opened again inside a release, and whether the target is in use at its end. */
  lemma ReleaseEffects(asking: State, answered: State, doing: Doing, index: nat)
    requires Good(answered) && Follows(asking, answered, doing) && asking.again == {} && answered.releasing == asking.releasing
    requires index < |answered.kept| && answered.kept[index] in answered.lease
    requires asking.releasing == Some(answered.lease[answered.kept[index]])
    requires answered.again == {} ==> !Used(answered.regs, answered.targets, answered.calls, answered.kept[index])
    ensures answered.lease[answered.kept[index]] !in doing.opens ==> answered.again == {}
    ensures !doing.drops ==> (Used(answered.regs, answered.targets, answered.calls, answered.kept[index]) <==> answered.again != {})
  {
    OneLeaseEach(answered);
    hide Good;
    assert Held(asking);
    if !doing.drops && answered.again != {} {
      var target :| target in answered.again;
      assert answered.targets[target] == answered.kept[index];
    }
  }

  // ----- through a collection ----------------------------------------------------------------------------

  /** What a collection leaves of the running callbacks around it. */
  predicate Around(a: State, b: State) {
    && RunningStay(a, b) && LeasesStay(a, b) && InstallingStay(a, b) && PendingStay(a, b) && a.lost <= b.lost
    && b.depth == a.depth && b.installing == a.installing
  }

  lemma LaterIsAround(a: State, b: State)
    requires Later(a, b)
    ensures Around(a, b)
  {
  }

  lemma AroundAlways(s: State)
    ensures Around(s, s)
  {
  }

  lemma AroundOnward(a: State, b: State, c: State)
    requires Around(a, b) && Around(b, c)
    ensures Around(a, c)
  {
  }

  lemma UninstalledAround(s: State, reg: Reg)
    requires reg in s.regs && s.regs[reg].active == 0 && reg !in s.installing && !Waits(s, reg)
    requires s.regs[reg].handle in s.callbacks ==> s.callbacks[s.regs[reg].handle] == reg
    ensures Around(s, Uninstalled(s, reg))
  {
  }

  lemma UnlistedAround(s: State, index: nat)
    requires NoRepeats(s.listed) && index < |s.listed| && s.listed[index] in s.regs && s.regs[s.listed[index]].active == 0
    requires !Waits(s, s.listed[index])
    ensures Around(s, Unlisted(s, index))
  {
    WithoutMembers(s.listed, index);
  }

  lemma DropAround(s: State, index: nat)
    requires index < |s.kept| && s.kept[index] in s.lease
    ensures Around(s, Dropped(s, index))
  {
  }

  /** Outside the release nothing shows but what its inside lost or left too many of. */
  lemma ReleaseFollows(before: State, asking: State, answered: State, after: State, doing: Doing)
    requires before.releasing.None? && asking == before.(releasing := asking.releasing, again := {})
    requires Later(asking, answered) && asking.collecting && Follows(asking, answered, doing)
    requires after == answered.(releasing := None)
    ensures Follows(before, after, Collecting(Nothing, doing)) && after.lost == before.lost
  {
    hide RunningStay, ListsGrow, ReleasedUnused, PendingStay, LeasesStay, InstallingStay, Held;
  }

  /** The agreed release, too. */
  lemma DropFollows(before: State, middle: State, after: State, index: nat, doing: Doing)
    requires before.releasing.None? && Follows(before, middle, Collecting(Nothing, doing))
    requires index < |middle.kept| && middle.kept[index] in middle.lease && after == Dropped(middle, index)
    requires doing.opens == {} ==> !Used(middle.regs, middle.targets, middle.calls, middle.kept[index])
    ensures Follows(before, after, Collecting(Nothing, doing))
  {
    hide Used;
  }

  /** What an agreed release leaves of the target. */
  lemma DropFacts(s: State, index: nat)
    requires Good(s) && index < |s.kept|
    ensures s.kept[index] in s.lease
    ensures var after := Dropped(s, index);
            && after.regs == s.regs && after.targets == s.targets && after.calls == s.calls && after.again == s.again
            && after == s.(kept := after.kept, leases := after.leases, lost := after.lost)
            && after.kept == Without(s.kept, index) && s.lease[s.kept[index]] !in after.leases && s.kept[index] !in after.kept
            && after.lost == s.lost + if Used(s.regs, s.targets, s.calls, s.kept[index]) then {s.kept[index]} else {}
    ensures s.lost == {} ==>
              (UsedAreKept(s.regs, s.targets, s.calls, Without(s.kept, index), {}) <==> !Used(s.regs, s.targets, s.calls, s.kept[index]))
  {
    OneLeaseEach(s);
    WithoutMembers(s.kept, index);
    DropTargetLoses(s.regs, s.targets, s.calls, s.kept, s.lost, index);
    hide RegsOk, LeasesMatch, UsedAreKept, Used;
  }

  lemma CollectingStep(s: State, collecting: bool)
    requires Good(s) && (s.releasing.Some? ==> collecting)
    ensures Good(s.(collecting := collecting)) && Around(s, s.(collecting := collecting))
  {
    hide RegsOk, LeasesMatch, UsedAreKept, Used;
  }

  lemma ReleasingStep(s: State, releasing: Option<Lease>, again: set<Object>)
    requires Good(s) && s.collecting
    ensures Good(s.(releasing := releasing, again := again)) && Around(s, s.(releasing := releasing, again := again))
  {
    hide RegsOk, LeasesMatch, UsedAreKept, Used;
  }

  lemma EmptyStep(s: State)
    requires Good(s) && s.listed == [] && s.kept == []
    ensures Good(s.(keepalive := false)) && Around(s, s.(keepalive := false))
  {
    hide RegsOk, LeasesMatch, UsedAreKept, Used;
  }

  /** A whole collection, seen from outside. */
  lemma CollectionIsLater(a: State, b: State)
    requires Good(a) && !a.collecting && Around(a, b) && !b.collecting && b.releasing == a.releasing
    ensures Later(a, b)
  {
  }

  lemma GoodFacts(s: State)
    requires Good(s)
    ensures NoRepeats(s.listed) && forall reg :: reg in s.listed ==> reg in s.regs
    ensures forall data :: data in s.kept ==> data in s.lease && s.lease[data] in s.leases
    ensures forall target :: target in s.targets ==> s.targets[target] in s.kept || s.targets[target] in s.lost
    ensures |s.listed| <= 256
    ensures forall c :: c in s.callbacks ==> IsRetained(s, c)
    ensures s.releasing.Some? ==> s.collecting
    ensures 0 < s.nextCallback && s.nextCallback !in s.callbacks
  {
  }

  lemma OneLeaseEach(s: State)
    requires Good(s)
    ensures forall data :: data in s.kept ==> data in s.lease
    ensures forall a, b :: a in s.kept && b in s.kept && s.lease[a] == s.lease[b] ==> a == b
    ensures NoRepeats(s.kept) && forall data :: data in s.lost ==> data !in s.kept
  {
  }

  predicate IsRetained(s: State, c: Callback)
    requires c in s.callbacks
  {
    s.callbacks[c] in s.listed && s.callbacks[c] in s.regs
  }

  /** What a closed, idle registration looks like after the host let other things happen. */
  lemma ListedStays(a: State, b: State, index: nat)
    requires Later(a, b) && a.collecting && index < |a.listed| && a.listed[index] in a.regs
    ensures index < |b.listed| && b.listed[index] == a.listed[index] && a.listed[index] in b.regs
    ensures SameReg(a.regs[a.listed[index]], b.regs[a.listed[index]])
    ensures b.releasing == a.releasing && b.collecting == a.collecting
  {
  }

  lemma KeptStays(a: State, b: State, index: nat)
    requires Later(a, b) && a.collecting && index < |a.kept| && a.kept[index] in a.lease
    requires a.releasing == Some(a.lease[a.kept[index]]) && !Used(a.regs, a.targets, a.calls, a.kept[index])
    ensures index < |b.kept| && b.kept[index] == a.kept[index]
    ensures a.kept[index] in b.lease && b.lease[a.kept[index]] == a.lease[a.kept[index]]
    ensures !Used(b.regs, b.targets, b.calls, a.kept[index]) || b.again != {}
    ensures b.releasing == a.releasing && b.collecting == a.collecting && b.lost == a.lost
  {
    hide Used;
  }

  lemma HandleIsInstalled(s: State, reg: Reg)
    requires Good(s) && reg in s.regs && s.regs[reg].handle != 0
    ensures s.regs[reg].handle in s.callbacks && s.callbacks[s.regs[reg].handle] == reg
  {
  }

  lemma IdleIsNotInstalling(s: State, reg: Reg)
    requires Good(s) && reg in s.regs && s.regs[reg].active == 0
    ensures reg !in s.installing
  {
  }

  lemma NewRegistration(s: State)
    requires Good(s)
    ensures s.nextReg !in s.regs && s.nextReg !in s.listed && s.nextReg !in s.installing && s.nextReg !in s.pending && s.nextObject !in s.hooks
  {
  }

  lemma NoCallbackZero(s: State)
    requires Good(s)
    ensures 0 !in s.callbacks
  {
  }

  lemma HookHasReg(s: State, hook: Object)
    requires Good(s) && hook in s.hooks
    ensures s.hooks[hook] in s.regs
  {
  }

  lemma EnteredRuns(s: State, reg: Reg)
    requires reg in s.regs
    ensures reg in Entered(s, reg).regs && Entered(s, reg).regs[reg].active == s.regs[reg].active + 1
    ensures Entered(s, reg).regs[reg].handle == s.regs[reg].handle
    ensures Entered(s, reg).listed == s.listed && Entered(s, reg).depth == s.depth + 1
  {
  }

  lemma HasMember(list: seq<nat>)
    ensures list != [] ==> exists x :: x in list
  {
    if list != [] { assert list[0] in list; }
  }

  /** When every registration is closed and idle and a script holds nothing, a full collection leaves nothing. */
  lemma NothingHeldNothingLeft(regs: Registrations, listed: seq<Reg>, hooks: Hooks, targets: References, calls: References, kept: seq<Data>)
    requires Retained(regs, listed, hooks) && hooks == map[] && targets == map[] && calls == map[]
    requires forall reg :: reg in regs ==> regs[reg].closing && regs[reg].active == 0
    requires forall i :: 0 <= i < |listed| ==> listed[i] in regs && !(regs[listed[i]].closing && regs[listed[i]].active == 0)
    requires forall i :: 0 <= i < |kept| ==> Used(regs, targets, calls, kept[i])
    ensures listed == [] && kept == []
  {
    assert regs.Keys == {};
    HasMember(listed);
    HasMember(kept);
  }

  // ----- what can go wrong ------------------------------------------------------------------------------

  /** A release under way of a target nobody uses. */
  predicate Releasing(s: State, index: nat) {
    && Good(s) && s.lost == {} && index < |s.kept| && s.kept[index] in s.lease
    && s.releasing == Some(s.lease[s.kept[index]]) && !Used(s.regs, s.targets, s.calls, s.kept[index])
  }

  /**
    * Whenever the host opens a target again while it is giving that target back, and then agrees, the
    * new Target object is left with a target that is neither kept nor lent.
    */
  lemma ReopeningLosesTarget(s: State, index: nat)
    requires Releasing(s, index)
    ensures var inside := WithTarget(s, s.kept[index]);
            var after := Dropped(inside, index);
            && Good(inside) && Later(s, inside) && s.nextObject in inside.again
            && Good(after) && after.lost == {s.kept[index]}
            && after.targets[s.nextObject] == s.kept[index] && s.kept[index] !in after.kept && s.lease[s.kept[index]] !in after.leases
            && !UsedAreKept(after.regs, after.targets, after.calls, after.kept, {})
  {
    var inside := WithTarget(s, s.kept[index]);
    TargetStep(s, s.kept[index]);
    DropFacts(inside, index);
    DropStep(inside, index);
    assert inside.targets[s.nextObject] == s.kept[index];
    hide Good, Later;
  }

  /** If the new object goes again before the answer, nothing is lost. */
  lemma ReopeningInVain(s: State, index: nat)
    requires Releasing(s, index)
    ensures var inside := WithTarget(s, s.kept[index]);
            var after := Dropped(inside.(targets := inside.targets - {s.nextObject}), index);
            after.again != {} && after.lost == {} && Good(after) && UsedAreKept(after.regs, after.targets, after.calls, after.kept, {})
  {
    var inside := WithTarget(s, s.kept[index]);
    var again := inside.(targets := inside.targets - {s.nextObject});
    TargetStep(s, s.kept[index]);
    DropTargetStep(inside, s.nextObject);
    assert s.nextObject !in s.targets;
    assert again.targets == s.targets;
    DropFacts(again, index);
    DropStep(again, index);
    hide Good, Used, Later;
  }

  /** One target, opened and let go of, while the host is asked to take it back. */
  const Unused: State := State(map[], [], map[], map[], map[], [0], map[0 := 7], true, 0, true, {}, {}, {}, {}, 0, 1, 1,
                               map[], {7}, Some(7), 1)

  lemma ReopeningHappens()
    ensures Releasing(Unused, 0)
    ensures Dropped(WithTarget(Unused, 0), 0).targets == map[1 := 0]
    ensures Dropped(WithTarget(Unused, 0), 0).kept == [] && Dropped(WithTarget(Unused, 0), 0).leases == {}
  {
    assert 0 in Unused.kept;
  }

  /** Opens that wait for the host while others finish may pass the limit of 64 targets. */
  lemma NestedOpensPassTheLimit(s: State, outer: Lease, inner: Lease)
    requires Good(s) && |s.kept| == 63 && outer != inner && outer !in s.leases && inner !in s.leases
    ensures Good(Kept(Kept(s, inner), outer)) && |Kept(Kept(s, inner), outer).kept| == 65
  {
    GoodFacts(s);
    KeepStep(s, inner);
    GoodFacts(Kept(s, inner));
    KeepStep(Kept(s, inner), outer);
    hide Good;
  }
}
