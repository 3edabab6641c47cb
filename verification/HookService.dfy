/** The native hook service, driven from outside and re-entered by the host at every call. */
module HookService {
  import opened HookLifetimes

  /** The host: any request may be refused, and then nothing has changed. */
  class Host {
    var callbacks: map<Callback, Reg>
    var leases: set<Lease>
    var releasing: Option<Lease>
    var nextCallback: nat
    /** How often the host refused what it was asked. */
    ghost var refusals: nat

    constructor ()
      ensures callbacks == map[] && leases == {} && releasing == None && nextCallback == 1
    {
      callbacks, leases, releasing, nextCallback, refusals := map[], {}, None, 1, 0;
    }

    /** The host's answer to a request to let go. */
    method LetsGo() returns (agreed: bool)
      modifies this`refusals
      ensures refusals == old(refusals) + (if agreed then 0 else 1)
    {
      agreed := *;
      if !agreed { refusals := refusals + 1; }
    }

    /** Lends a target, even one that is being given back. */
    method Resolve(lease: Lease) returns (done: bool)
      modifies this`leases, this`refusals
      ensures leases == if done then old(leases) + {lease} else old(leases)
      ensures refusals == old(refusals) + (if done then 0 else 1)
    {
      done := LetsGo();
      if done { leases := leases + {lease}; }
    }

    /** A release begins, and ends; between them the host lets other things happen. */
    method Begin(lease: Lease)
      modifies this`releasing
      ensures releasing == Some(lease)
    {
      releasing := Some(lease);
    }

    method End()
      modifies this`releasing
      ensures releasing == None
    {
      releasing := None;
    }

    /** Takes a lease back, if it agrees. */
    method Release(lease: Lease) returns (agreed: bool)
      modifies this`leases, this`refusals
      ensures leases == if agreed then old(leases) - {lease} else old(leases)
      ensures refusals == old(refusals) + (if agreed then 0 else 1)
    {
      agreed := LetsGo();
      if agreed { leases := leases - {lease}; }
    }

    /** Calls back no more, if it agrees. */
    method Remove(callback: Callback) returns (agreed: bool)
      modifies this`callbacks, this`refusals
      ensures callbacks == if agreed then old(callbacks) - {callback} else old(callbacks)
      ensures refusals == old(refusals) + (if agreed then 0 else 1)
    {
      agreed := LetsGo();
      if agreed { callbacks := callbacks - {callback}; }
    }

    /** Answers that a callback is installed, or forgets it again. */
    method Confirm(callback: Callback) returns (agreed: bool)
      modifies this`callbacks, this`refusals
      ensures callbacks == if agreed then old(callbacks) else old(callbacks) - {callback}
      ensures refusals == old(refusals) + (if agreed then 0 else 1)
    {
      agreed := LetsGo();
      if !agreed { callbacks := callbacks - {callback}; }
    }

    /** Takes a callback in under a new handle; zero when it does not. */
    method Install(reg: Reg) returns (callback: Callback)
      requires 0 < nextCallback
      modifies this`callbacks, this`nextCallback, this`refusals
      ensures refusals == old(refusals) + (if callback == 0 then 1 else 0)
      ensures callback == 0 ==> callbacks == old(callbacks) && nextCallback == old(nextCallback)
      ensures callback != 0 ==> callback == old(nextCallback) && callbacks == old(callbacks)[callback := reg] && nextCallback == callback + 1
    {
      var agreed := LetsGo();
      if !agreed { return 0; }
      callback := nextCallback;
      callbacks, nextCallback := callbacks[callback := reg], nextCallback + 1;
    }
  }

  class Service {
    const host: Host
    var regs: Registrations
    var listed: seq<Reg>
    var hooks: Hooks
    var targets: References
    var calls: References
    var kept: seq<Data>
    var lease: map<Data, Lease>
    var keepalive: bool
    var depth: nat
    var collecting: bool
    var nextReg: nat
    var nextData: nat
    var nextObject: nat
    /** Registrations whose hook is not yet in a script's hands. */
    var pending: set<Reg>
    ghost var installing: set<Reg>
    /** The Target objects opened for a target while it is being given back. */
    ghost var again: set<Object>
    /** The targets that were given back while somebody used them. */
    ghost var lost: set<Data>

    ghost function View(): State
      reads this, host
    {
      State(regs, listed, hooks, targets, calls, kept, lease, keepalive, depth, collecting, pending, installing, again, lost,
            nextReg, nextData, nextObject, host.callbacks, host.leases, host.releasing, host.nextCallback)
    }

    ghost predicate Valid()
      reads this, host
    {
      Good(View())
    }

    constructor (host: Host)
      requires host.callbacks == map[] && host.leases == {} && host.releasing == None && host.nextCallback == 1
      ensures Valid() && this.host == host && regs == map[] && listed == [] && kept == [] && !keepalive && lost == {}
    {
      this.host := host;
      regs, listed, hooks, targets, calls, kept, lease := map[], [], map[], map[], map[], [], map[];
      keepalive, depth, collecting, nextReg, nextData, nextObject := false, 0, false, 0, 0, 0;
      pending, installing, again, lost := {}, {}, {}, {};
    }

    // ----- closing and running ----------------------------------------------------------------

    /** Closes a registration; its retire function runs the first time only. */
    method Close(reg: Reg)
      requires Valid() && reg in regs
      modifies this`regs
      ensures Valid() && View() == WithReg(old(View()), reg, Closed(old(regs)[reg]))
      ensures reg in regs && regs[reg].closing && regs[reg].retirements == old(regs)[reg].retirements + (if old(regs)[reg].closing then 0 else 1)
      ensures !Waits(old(View()), reg) ==> Later(old(View()), View())
    {
      hide Good, Later;
      CloseStep(View(), reg);
      if regs[reg].closing { return; }
      regs := regs[reg := regs[reg].(closing := true, retirements := regs[reg].retirements + 1)];
    }

    /**
      * The host calls a hook back: its registration is there, and stays while the callback runs. It runs exactly
      * if it is not closed, is enabled, and fewer than eight run already.
      */
    method Dispatch(callback: Callback, enabled: bool, run: Entry) returns (ran: bool)
      requires Valid()
      modifies this, host
      ensures ran <==> callback in old(host.callbacks) && old(host.callbacks)[callback] in old(regs)
                       && !old(regs)[old(host.callbacks)[callback]].closing && enabled && old(depth) < 8
      ensures !ran ==> View() == old(View())
      ensures ran && run.nested == [] ==> View() == RanAlone(old(View()), old(host.callbacks)[callback], run.retire)
      ensures ran && run.retire ==> old(host.callbacks)[callback] in regs && regs[old(host.callbacks)[callback]].closing
      ensures host.refusals >= old(host.refusals)
      ensures Valid() && Later(old(View()), View()) && Follows(old(View()), View(), Might(run.nested))
      decreases Weight(run.nested), 3
    {
      hide Good, Later, Follows;
      LaterAlways(View());
      FollowsAlways(View(), Might(run.nested));
      if callback !in host.callbacks { return false; }
      GoodFacts(View());
      assert IsRetained(View(), callback);
      var reg := host.callbacks[callback];
      InstalledIsNotWaiting(View(), callback);
      if regs[reg].closing || !enabled || depth >= 8 { return false; }
      RunCallback(reg, run);
      return true;
    }

    method RunCallback(reg: Reg, run: Entry)
      requires Valid() && reg in regs && reg in listed && !Waits(View(), reg)
      modifies this, host
      ensures host.refusals >= old(host.refusals)
      ensures Valid() && Later(old(View()), View()) && Follows(old(View()), View(), Might(run.nested))
      ensures reg in regs && reg in listed && regs[reg].active == old(regs)[reg].active && regs[reg].handle == old(regs)[reg].handle
      ensures run.retire ==> regs[reg].closing
      ensures run.nested == [] ==> View() == RanAlone(old(View()), reg, run.retire)
      decreases Weight(run.nested), 2
    {
      PassesAlone(View(), reg);
      RetiresAlone(View(), reg);
      ClosesAlone(View(), reg);
      hide Good, Later, Follows, Entered, Left, WithReg, RanAlone, Closed;
      ghost var before := View();
      Enter(reg);
      ghost var entered := View();
      EnteredRuns(before, reg);
      RunInside(reg, run);
      ghost var after := View();
      LeaveStep(before, reg, after);
      Leave(reg, before);
      LeaveFollows(before, after, reg, Might(run.nested));
    }

    /** What happens while the callback of a registration runs. */
    method RunInside(reg: Reg, run: Entry)
      requires Valid() && reg in regs && reg in listed && regs[reg].active > 0
      modifies this, host
      ensures host.refusals >= old(host.refusals)
      ensures Valid() && Later(old(View()), View()) && Follows(old(View()), View(), Might(run.nested))
      ensures reg in regs && reg in listed && SameReg(old(regs)[reg], regs[reg])
      ensures run.retire ==> regs[reg].closing
      ensures run.nested == [] ==> View() == if run.retire then WithReg(old(View()), reg, Closed(old(regs)[reg])) else old(View())
      decreases Weight(run.nested), 1
    {
      hide Good, Later, Follows, WithReg, Closed, SameReg;
      ghost var before := View();
      Perform(run.nested);
      ghost var inside := View();
      RunningStays(before, inside, reg);
      LaterAlways(inside);
      if run.retire { Close(reg); }
      RetiredFollows(inside, View(), reg);
      Onward(before, inside, View(), Might(run.nested), Nothing, Might(run.nested));
      RunningStays(before, View(), reg);
    }

    /** A callback in which nothing else happens changes nothing, but that it may retire its registration. */
    static function RanAlone(s: State, reg: Reg, retire: bool): State
      requires reg in s.regs
    {
      if retire && !s.regs[reg].closing
      then s.(regs := s.regs[reg := s.regs[reg].(closing := true, retirements := s.regs[reg].retirements + 1)])
      else s
    }

    static lemma LeftOf(s: State, inside: State, reg: Reg, now: Registrations)
      requires reg in s.regs && reg in inside.regs && inside == s.(regs := inside.regs, depth := s.depth + 1)
      requires inside.regs[reg := inside.regs[reg].(active := s.regs[reg].active)] == now
      ensures Left(s, inside, reg) == s.(regs := now)
    {
    }

    static lemma SameMap(a: Registrations, b: Registrations, reg: Reg, now: Registration)
      requires a.Keys == b.Keys && reg in a && now == a[reg] && forall other :: other in a && other != reg ==> a[other] == b[other]
      ensures b[reg := now] == a
    {
    }

    static lemma PassesAlone(s: State, reg: Reg)
      requires reg in s.regs
      ensures reg in Entered(s, reg).regs && Left(s, Entered(s, reg), reg) == s
    {
      SameMap(s.regs, Entered(s, reg).regs, reg, s.regs[reg]);
      LeftOf(s, Entered(s, reg), reg, s.regs);
      hide Left;
    }

    static lemma RetiresAlone(s: State, reg: Reg)
      requires reg in s.regs
      ensures reg in Entered(s, reg).regs
      ensures var retired := WithReg(Entered(s, reg), reg, Closed(Entered(s, reg).regs[reg]));
              reg in retired.regs && Left(s, retired, reg) == s.(regs := s.regs[reg := Closed(s.regs[reg])])
    {
      var entered, now := Entered(s, reg), s.regs[reg := Closed(s.regs[reg])];
      var retired := Closed(entered.regs[reg]);
      SameMap(now, entered.regs[reg := retired], reg, retired.(active := s.regs[reg].active));
      LeftOf(s, WithReg(entered, reg, retired), reg, now);
      hide Left;
    }

    static lemma ClosesAlone(s: State, reg: Reg)
      requires reg in s.regs
      ensures s.(regs := s.regs[reg := Closed(s.regs[reg])]) == RanAlone(s, reg, true)
    {
      if s.regs[reg].closing { assert s.regs[reg := s.regs[reg]] == s.regs; }
    }

    /** A callback starts to run. */
    method Enter(reg: Reg)
      requires Valid() && reg in regs && reg in listed
      modifies this`regs, this`depth
      ensures Valid() && View() == Entered(old(View()), reg)
    {
      hide Good;
      EnterStep(View(), reg);
      regs, depth := regs[reg := regs[reg].(active := regs[reg].active + 1)], depth + 1;
    }

    /** A callback has run. */
    method Leave(reg: Reg, ghost before: State)
      requires reg in regs && reg in before.regs && regs[reg].active == before.regs[reg].active + 1 && depth == before.depth + 1
      modifies this`regs, this`depth
      ensures View() == Left(before, old(View()), reg)
      ensures reg in regs && regs[reg].active == before.regs[reg].active && regs[reg].handle == old(regs)[reg].handle
      ensures regs[reg].closing == old(regs)[reg].closing
    {
      regs, depth := regs[reg := regs[reg].(active := regs[reg].active - 1)], depth - 1;
    }

    // ----- collecting ---------------------------------------------------------------------------

    /**
      * Retries what the host refused: closed, idle registrations go, then targets nobody uses. When the
      * host lets nothing else happen and refuses nothing, nothing that can go is left.
      */
    method Collect(removing: seq<Batch>, releasing: seq<Batch>)
      requires Valid()
      modifies this, host
      ensures host.refusals >= old(host.refusals)
      ensures Valid() && Later(old(View()), View())
      ensures Follows(old(View()), View(), Collecting(MightAll(removing), MightAll(releasing)))
      ensures old(collecting) ==> View() == old(View())
      ensures removing == [] && releasing == [] ==> SameObjects(old(View()), View())
      ensures !old(collecting) && removing == [] && releasing == [] && host.refusals == old(host.refusals) ==> Collected(View())
      ensures && !old(collecting) && removing == [] && releasing == [] && host.refusals == old(host.refusals)
              && old(hooks) == map[] && old(targets) == map[] && old(calls) == map[]
              && (forall reg :: reg in old(regs) ==> old(regs)[reg].closing && old(regs)[reg].active == 0)
              ==> listed == [] && kept == [] && !keepalive
      decreases WeightAll(removing) + WeightAll(releasing), 8
    {
      hide Good, Later, Follows, Collected, SameObjects;
      LaterAlways(View());
      FollowsAlways(View(), Collecting(MightAll(removing), MightAll(releasing)));
      if collecting {
        SameObjectsAlways(View());
        return;
      }
      CollectNow(removing, releasing);
      NothingLeft(old(View()), View());
    }

    method CollectNow(removing: seq<Batch>, releasing: seq<Batch>)
      requires Valid() && !collecting
      modifies this, host
      ensures host.refusals >= old(host.refusals)
      ensures Valid() && Later(old(View()), View())
      ensures Follows(old(View()), View(), Collecting(MightAll(removing), MightAll(releasing)))
      ensures removing == [] && releasing == [] ==> SameObjects(old(View()), View())
      ensures removing == [] && releasing == [] && host.refusals == old(host.refusals) ==> Collected(View())
      decreases WeightAll(removing) + WeightAll(releasing), 7
    {
      hide Good, Later, Follows, Around, Used, MightAll, SameObjects;
      ghost var before, whole := View(), Collecting(MightAll(removing), MightAll(releasing));
      ghost var begun := before.(collecting := true);
      GoodFacts(before);
      CollectingStep(before, true);
      SameFollows(before, begun, whole);
      collecting := true;
      CollectBoth(removing, releasing);
      ghost var middle := View();
      AroundOnward(before, begun, middle);
      FollowsOnward(before, begun, middle, whole, whole, whole);
      Finish(before);
      SameFollows(middle, View(), whole);
      FollowsOnward(before, middle, View(), whole, whole, whole);
      CollectionIsLater(before, View());
      SameObjectsAround(before, begun, middle, View());
    }

    method CollectBoth(removing: seq<Batch>, releasing: seq<Batch>)
      requires Valid() && collecting && host.releasing == None
      modifies this, host
      ensures Valid() && collecting && host.releasing == None && Around(old(View()), View())
      ensures Follows(old(View()), View(), Collecting(MightAll(removing), MightAll(releasing)))
      ensures host.refusals >= old(host.refusals)
      ensures removing == [] && releasing == [] ==> SameObjects(old(View()), View())
      ensures removing == [] && releasing == [] && host.refusals == old(host.refusals) ==>
                && (forall i :: 0 <= i < |listed| ==> listed[i] in regs && !Collectable(listed[i]))
                && (forall i :: 0 <= i < |kept| ==> Used(regs, targets, calls, kept[i]))
      decreases WeightAll(removing) + WeightAll(releasing), 6
    {
      hide Good, Later, Follows, Around, Used, MightAll, SameObjects;
      ghost var before, whole := View(), Collecting(MightAll(removing), MightAll(releasing));
      CollectRegistrations(removing);
      ghost var middle := View();
      CollectTargets(releasing);
      AroundOnward(before, middle, View());
      FollowsOnward(before, middle, View(), Collecting(MightAll(removing), Nothing), Collecting(Nothing, MightAll(releasing)), whole);
      if removing == [] && releasing == [] { SameObjectsOnward(before, middle, View()); }
    }

    /** Collected and with nothing held, the service is empty. */
    static lemma NothingLeft(before: State, s: State)
      requires Good(s)
      ensures && Collected(s) && SameObjects(before, s) && before.hooks == map[] && before.targets == map[] && before.calls == map[]
              && (forall reg :: reg in before.regs ==> before.regs[reg].closing && before.regs[reg].active == 0)
              ==> s.listed == [] && s.kept == [] && !s.keepalive
    {
      if && Collected(s) && SameObjects(before, s) && before.hooks == map[] && before.targets == map[] && before.calls == map[]
         && (forall reg :: reg in before.regs ==> before.regs[reg].closing && before.regs[reg].active == 0) {
        NothingHeldNothingLeft(s.regs, s.listed, s.hooks, s.targets, s.calls, s.kept);
      }
    }

    /** No object went, no callback came, and registrations only left or lost their callback. */
    static predicate SameObjects(a: State, b: State) {
      && b.hooks == a.hooks && b.targets == a.targets && b.calls == a.calls
      && OnlyLess(a.regs, b.regs) && b.callbacks.Keys <= a.callbacks.Keys
    }

    static lemma SameObjectsOnward(a: State, b: State, c: State)
      requires SameObjects(a, b)
      ensures SameObjects(b, c) || OnlyTargets(b, c) ==> SameObjects(a, c)
    {
    }

    static lemma SameObjectsAround(a: State, begun: State, b: State, c: State)
      requires begun == a.(collecting := true) && c == b.(keepalive := c.keepalive, collecting := c.collecting)
      ensures SameObjects(begun, b) ==> SameObjects(a, c)
    {
    }

    static lemma SameObjectsAlways(s: State)
      ensures SameObjects(s, s)
    {
    }

    /** Registrations may leave or lose their callback. */
    static predicate OnlyLess(before: Registrations, after: Registrations) {
      forall reg :: reg in after ==> reg in before && after[reg] == before[reg].(handle := after[reg].handle)
    }

    /** Lets go of the service itself when nothing is left, and ends the collection. */
    method Finish(ghost before: State)
      requires Valid() && collecting && host.releasing == None && Around(before, View())
      modifies this`keepalive, this`collecting
      ensures Valid() && !collecting && Around(before, View())
      ensures View() == old(View()).(keepalive := keepalive, collecting := false)
      ensures listed == [] && kept == [] ==> !keepalive
    {
      hide Good, Around;
      ghost var middle := View();
      if listed == [] && kept == [] {
        EmptyStep(middle);
        keepalive := false;
        AroundOnward(before, middle, View());
        middle := View();
      }
      CollectingStep(middle, false);
      collecting := false;
      AroundOnward(before, middle, View());
    }

    /** Nothing that can go is left, and an empty service does not keep itself alive. */
    static predicate Collected(s: State) {
      && (forall i :: 0 <= i < |s.listed| ==> s.listed[i] in s.regs && !(s.regs[s.listed[i]].closing && s.regs[s.listed[i]].active == 0))
      && (forall i :: 0 <= i < |s.kept| ==> Used(s.regs, s.targets, s.calls, s.kept[i]))
      && (s.listed == [] && s.kept == [] ==> !s.keepalive)
    }

    /** Whether a registration waits to go: closed, not running, and not being installed. */
    predicate Collectable(reg: Reg)
      requires reg in regs
      reads this
    {
      regs[reg].closing && regs[reg].active == 0
    }

    method CollectRegistrations(removing: seq<Batch>)
      requires Valid() && collecting && host.releasing == None
      modifies this, host
      ensures Valid() && collecting && host.releasing == None && Around(old(View()), View())
      ensures Follows(old(View()), View(), Collecting(MightAll(removing), Nothing))
      ensures host.refusals >= old(host.refusals)
      ensures removing == [] ==> SameObjects(old(View()), View())
      ensures removing == [] && host.refusals == old(host.refusals) ==>
                forall i :: 0 <= i < |listed| ==> listed[i] in regs && !Collectable(listed[i])
      decreases WeightAll(removing), 5
    {
      hide Good, Later, Follows, Around, Might, RemovedOnly;
      ghost var before, whole := View(), Collecting(MightAll(removing), Nothing);
      AroundAlways(before);
      FollowsAlways(before, whole);
      var index, used := 0, 0;
      while index < |listed|
        invariant Valid() && collecting && host.releasing == None && Around(before, View())
        invariant Follows(before, View(), whole)
        invariant index <= |listed| && used <= |removing|
        invariant host.refusals >= old(host.refusals)
        invariant removing == [] ==> SameObjects(old(View()), View())
        invariant removing == [] && host.refusals == old(host.refusals) ==>
                    forall i :: 0 <= i < index ==> listed[i] in regs && !Collectable(listed[i])
        decreases |removing| - used, |listed| - index
      {
        GoodFacts(View());
        var reg := listed[index];
        ghost var start := View();
        if !Collectable(reg) {
          index := index + 1;
        } else {
          var spent := used;
          if used < |removing| && regs[reg].handle != 0 { spent := used + 1; }
          InsideWeighs(removing, used);
          InsideMight(removing, used);
          ghost var listedBefore, regsBefore := listed, regs;
          var gone := Remove(index, Inside(removing, used));
          if removing == [] && gone { FrontStays(listedBefore, listed, regsBefore, regs, index); }
          AroundOnward(before, start, View());
          FollowsOnward(before, start, View(), whole, Doing({}, false, false, Might(Inside(removing, used)).nests), whole);
          used := spent;
          if !gone { index := index + 1; }
        }
      }
    }

    /** One attempt at removing a closed registration from the host and from the list. */
    method Remove(index: nat, inside: seq<Act>) returns (gone: bool)
      requires Valid() && collecting && host.releasing == None
      requires index < |listed| && listed[index] in regs && Collectable(listed[index])
      modifies this, host
      ensures Valid() && collecting && host.releasing == None && Around(old(View()), View())
      ensures Follows(old(View()), View(), Doing({}, false, false, Might(inside).nests))
      ensures gone ==> index <= |listed|
      ensures !gone ==> index < |listed|
      ensures inside == [] || old(regs)[old(listed)[index]].handle == 0 ==>
                |listed| == if gone then old(|listed|) - 1 else old(|listed|)
      ensures host.refusals >= old(host.refusals)
      ensures inside == [] ==> host.refusals == old(host.refusals) + (if gone then 0 else 1)
      ensures inside == [] && gone ==> RemovedOnly(old(listed), listed, old(regs), regs, index)
      ensures inside == [] ==> SameObjects(old(View()), View())
      decreases Weight(inside), 4
    {
      hide Good, Later, Follows, Around, Might, RemovedOnly, OnlyLess;
      ghost var before, whole := View(), Doing({}, false, false, Might(inside).nests);
      var reg := listed[index];
      AroundAlways(before);
      FollowsAlways(before, whole);
      LessOrLess(before.regs, before.regs, before.regs);
      if regs[reg].handle != 0 {
        var agreed := AskToRemove(index, inside);
        if !agreed { return false; }
      }
      ghost var middle := View();
      Unlist(reg, index);
      LessOrLess(before.regs, middle.regs, regs);
      if inside == [] { RemovedOnlyToo(before.listed, listed, before.regs, middle.regs, regs, index); }
      AroundOnward(before, middle, View());
      SameFollows(middle, View(), whole);
      FollowsOnward(before, middle, View(), whole, whole, whole);
      return true;
    }

    static lemma LessOrLess(a: Registrations, b: Registrations, c: Registrations)
      ensures OnlyLess(a, a) && (OnlyLess(a, b) && OnlyLess(b, c) ==> OnlyLess(a, c))
    {
    }

    static lemma RemovedOnlyToo(before: seq<Reg>, after: seq<Reg>, regsBefore: Registrations, regsMiddle: Registrations, regs: Registrations, index: nat)
      requires RemovedOnly(before, after, regsMiddle, regs, index)
      requires forall r :: r in regsBefore && r != before[index] ==> r in regsMiddle && regsMiddle[r] == regsBefore[r]
      ensures RemovedOnly(before, after, regsBefore, regs, index)
    {
    }

    /** Asks the host to call a closed registration back no more. */
    method AskToRemove(index: nat, inside: seq<Act>) returns (agreed: bool)
      requires Valid() && collecting && host.releasing == None
      requires index < |listed| && listed[index] in regs && Collectable(listed[index]) && regs[listed[index]].handle != 0
      modifies this, host
      ensures Valid() && collecting && host.releasing == None && Around(old(View()), View())
      ensures Follows(old(View()), View(), Doing({}, false, false, Might(inside).nests))
      ensures host.refusals >= old(host.refusals)
      ensures index < |listed| && listed[index] == old(listed)[index] && listed[index] in regs && Collectable(listed[index])
      ensures agreed ==> regs[listed[index]].handle == 0
      ensures inside == [] ==>
                && host.refusals == old(host.refusals) + (if agreed then 0 else 1) && listed == old(listed)
                && SameObjects(old(View()), View())
                && forall r :: r in old(regs) && r != listed[index] ==> r in regs && regs[r] == old(regs)[r]
      decreases Weight(inside), 3
    {
      hide Good, Later, Follows, Around, Might, SameObjects;
      ghost var before, whole := View(), Doing({}, false, false, Might(inside).nests);
      SameObjectsAlways(before);
      Perform(inside);
      CollectingFollows(before, View(), Might(inside));
      LaterIsAround(before, View());
      ListedStays(before, View(), index);
      ghost var middle := View();
      agreed := Uninstall(listed[index], index);
      if !agreed { return; }
      AroundOnward(before, middle, View());
      SameFollows(middle, View(), whole);
      FollowsOnward(before, middle, View(), whole, whole, whole);
    }

    /** One registration left the list; the others are as they were. */
    static predicate RemovedOnly(before: seq<Reg>, after: seq<Reg>, regsBefore: Registrations, regs: Registrations, index: nat) {
      && index < |before| && after == before[..index] + before[index + 1..]
      && forall r :: r in regsBefore && r != before[index] ==> r in regs && regs[r] == regsBefore[r]
    }

    /** What had been passed over is still not collectable. */
    lemma FrontStays(before: seq<Reg>, after: seq<Reg>, regsBefore: Registrations, now: Registrations, index: nat)
      requires RemovedOnly(before, after, regsBefore, now, index) && NoRepeats(before)
      ensures forall i :: 0 <= i < index && before[i] in regsBefore ==>
                after[i] == before[i] && after[i] in now && now[after[i]] == regsBefore[before[i]]
    {
    }

    /** The host calls the registration back no more. */
    method Uninstall(reg: Reg, index: nat) returns (agreed: bool)
      requires Valid() && index < |listed| && listed[index] == reg && reg in regs
      requires regs[reg].handle != 0 && Collectable(reg)
      modifies this`regs, host`callbacks, host`refusals
      ensures host.refusals == old(host.refusals) + (if agreed then 0 else 1)
      ensures !agreed ==> View() == old(View())
      ensures agreed ==>
                && Valid() && Around(old(View()), View()) && SameTargets(old(View()), View()) && SameObjects(old(View()), View())
                && reg in regs && regs[reg].handle == 0 && Collectable(reg) && regs == old(regs)[reg := regs[reg]]
    {
      hide Good, Around;
      UninstalledStep(View(), reg);
      GoodFacts(View());
      HandleIsInstalled(View(), reg);
      IdleIsNotInstalling(View(), reg);
      UninstalledAround(View(), reg);
      assert View().regs == regs;
      agreed := host.Remove(regs[reg].handle);
      if !agreed { return; }
      regs := regs[reg := regs[reg].(handle := 0)];
    }

    /** A removed registration leaves the list; its hook, if a script holds it, keeps the shell. */
    method Unlist(reg: Reg, index: nat)
      requires Valid() && index < |listed| && listed[index] == reg && reg in regs
      requires regs[reg].handle == 0 && Collectable(reg)
      modifies this`regs, this`listed
      ensures Valid() && Around(old(View()), View()) && |listed| == old(|listed|) - 1 && SameTargets(old(View()), View())
      ensures RemovedOnly(old(listed), listed, old(regs), regs, index) && OnlyLess(old(regs), regs)
    {
      hide Good, Around;
      IdleIsNotInstalling(View(), reg);
      UnlistedStep(View(), index);
      GoodFacts(View());
      NoCallbackZero(View());
      UnlistedAround(View(), index);
      UnlistedOnly(View(), index);
      hide Unlisted;
      Unlink(index);
    }

    method Unlink(index: nat)
      requires index < |listed|
      modifies this`regs, this`listed
      ensures View() == Unlisted(old(View()), index)
    {
      var reg := listed[index];
      var held := exists hook :: hook in hooks && hooks[hook] == reg;
      listed := listed[..index] + listed[index + 1..];
      if !held { regs := regs - {reg}; }
    }

    static lemma UnlistedOnly(s: State, index: nat)
      requires index < |s.listed| && s.listed[index] in s.regs
      ensures var after := Unlisted(s, index);
              && |after.listed| == |s.listed| - 1 && SameTargets(s, after)
              && RemovedOnly(s.listed, after.listed, s.regs, after.regs, index) && OnlyLess(s.regs, after.regs)
              && after == s.(listed := after.listed, regs := after.regs)
    {
    }

    method CollectTargets(releasing: seq<Batch>)
      requires Valid() && collecting && host.releasing == None
      modifies this, host
      ensures Valid() && collecting && host.releasing == None && Around(old(View()), View())
      ensures Follows(old(View()), View(), Collecting(Nothing, MightAll(releasing)))
      ensures host.refusals >= old(host.refusals)
      ensures releasing == [] ==> OnlyTargets(old(View()), View())
      ensures releasing == [] && host.refusals == old(host.refusals) ==>
                forall i :: 0 <= i < |kept| ==> Used(regs, targets, calls, kept[i])
      decreases WeightAll(releasing), 5
    {
      hide Good, Later, Follows, Around, Used, Might, MightAll, OnlyTargets;
      ghost var before, whole := View(), Collecting(Nothing, MightAll(releasing));
      AroundAlways(before);
      FollowsAlways(before, whole);
      OnlyTargetsOnward(before, before, before);
      var index, used := 0, 0;
      while index < |kept|
        invariant Valid() && collecting && host.releasing == None && Around(before, View())
        invariant Follows(before, View(), whole)
        invariant index <= |kept| && used <= |releasing| && host.refusals >= old(host.refusals)
        invariant releasing == [] ==> OnlyTargets(before, View())
        invariant releasing == [] && host.refusals == old(host.refusals) ==>
                    forall i :: 0 <= i < index ==> Used(regs, targets, calls, kept[i])
        decreases |releasing| - used, |kept| - index
      {
        ghost var start := View();
        if Used(regs, targets, calls, kept[index]) {
          index := index + 1;
        } else {
          var spent := if used < |releasing| then used + 1 else used;
          InsideWeighs(releasing, used);
          InsideMight(releasing, used);
          var gone := Release(index, Inside(releasing, used));
          AroundOnward(before, start, View());
          OnlyTargetsOnward(before, start, View());
          FollowsOnward(before, start, View(), whole, Collecting(Nothing, Might(Inside(releasing, used))), whole);
          used := spent;
          if !gone { index := index + 1; }
        }
      }
    }

    /** Releasing targets concerns nothing but targets. */
    static predicate OnlyTargets(a: State, b: State) {
      b == a.(kept := b.kept, leases := b.leases, lost := b.lost, again := b.again)
    }

    /** Whatever is used is kept, and so lent by the host. */
    predicate AllKept()
      reads this
    {
      UsedAreKept(regs, targets, calls, kept, {})
    }

    /**
      * One attempt at giving an unused target back. The host may open it again meanwhile; then the
      * answer still takes it away, and whoever opened it holds a target that is not lent. Whether that
      * can happen shows in the acts beforehand, and in what was opened again afterwards.
      */
    method Release(index: nat, inside: seq<Act>) returns (gone: bool)
      requires Valid() && collecting && host.releasing == None
      requires index < |kept| && !Used(regs, targets, calls, kept[index])
      modifies this, host
      ensures Valid() && collecting && host.releasing == None && Around(old(View()), View())
      ensures Follows(old(View()), View(), Collecting(Nothing, Might(inside)))
      ensures gone ==> index <= |kept|
      ensures !gone ==> index < |kept| && kept[index] == old(kept)[index] && lost == old(lost)
      ensures old(kept)[index] in old(lease)
      ensures gone ==> old(lease)[old(kept)[index]] !in host.leases && old(kept)[index] !in kept
      ensures gone ==> lost == old(lost) + if Used(regs, targets, calls, old(kept)[index]) then {old(kept)[index]} else {}
      ensures gone && old(lost) == {} ==> (AllKept() <==> !Used(regs, targets, calls, old(kept)[index]))
      ensures old(lease)[old(kept)[index]] !in Might(inside).opens ==> again == {}
      ensures again == {} ==> !Used(regs, targets, calls, old(kept)[index])
      ensures !Might(inside).drops ==> (Used(regs, targets, calls, old(kept)[index]) <==> again != {})
      ensures host.refusals >= old(host.refusals)
      ensures inside == [] ==>
                && host.refusals == old(host.refusals) + (if gone then 0 else 1)
                && OnlyTargets(old(View()), View())
                && regs == old(regs) && targets == old(targets) && calls == old(calls)
                && kept == if gone then Without(old(kept), index) else old(kept)
      decreases Weight(inside), 4
    {
      hide Good, Later, Follows, Around, Used, UsedAreKept, Dropped, OnlyTargets, Might;
      ghost var before := View();
      AskToRelease(index, inside);
      ghost var middle := View();
      DropFacts(middle, index);
      gone := Drop(index);
      if !gone { return; }
      AroundOnward(before, middle, View());
      DropFollows(before, middle, View(), index, Might(inside));
      OnlyTargetsOnward(before, middle, View());
    }

    static lemma OnlyTargetsOnward(a: State, b: State, c: State)
      ensures OnlyTargets(a, b) && OnlyTargets(b, c) ==> OnlyTargets(a, c)
      ensures c == b.(kept := c.kept, leases := c.leases, lost := c.lost) ==> OnlyTargets(b, c)
      ensures OnlyTargets(a, a)
    {
    }

    /** The host is asked, and whatever it likes happens before it answers. */
    method AskToRelease(index: nat, inside: seq<Act>)
      requires Valid() && collecting && host.releasing == None
      requires index < |kept| && !Used(regs, targets, calls, kept[index])
      modifies this, host
      ensures Valid() && collecting && host.releasing == None && Around(old(View()), View())
      ensures Follows(old(View()), View(), Collecting(Nothing, Might(inside)))
      ensures index < |kept| && kept[index] == old(kept)[index] && lost == old(lost)
      ensures kept[index] in old(lease) && kept[index] in lease && lease[kept[index]] == old(lease)[kept[index]]
      ensures lease[kept[index]] !in Might(inside).opens ==> again == {}
      ensures again == {} ==> !Used(regs, targets, calls, kept[index])
      ensures !Might(inside).drops ==> (Used(regs, targets, calls, kept[index]) <==> again != {})
      ensures host.refusals >= old(host.refusals)
      ensures inside == [] ==>
                && host.refusals == old(host.refusals) && OnlyTargets(old(View()), View())
                && kept == old(kept) && regs == old(regs) && targets == old(targets) && calls == old(calls)
      decreases Weight(inside), 3
    {
      hide Good, Later, Follows, Around, Used, Might;
      ghost var before := View();
      GoodFacts(before);
      var data := kept[index];
      ReleasingStep(before, Some(lease[data]), {});
      host.Begin(lease[data]);
      again := {};
      ghost var asking := View();
      Perform(inside);
      ghost var answered := View();
      LaterIsAround(asking, answered);
      KeptStays(asking, answered, index);
      AroundOnward(before, asking, answered);
      ReleaseEffects(asking, answered, Might(inside), index);
      ReleasingStep(answered, None, again);
      host.End();
      AroundOnward(before, answered, View());
      ReleaseFollows(before, asking, answered, View(), Might(inside));
    }

    /** The host is told to take the lease back; if it agrees, the target goes. */
    method Drop(index: nat) returns (gone: bool)
      requires Valid() && index < |kept|
      modifies this`kept, this`lost, host`leases, host`refusals
      ensures Valid() && host.refusals == old(host.refusals) + (if gone then 0 else 1)
      ensures !gone ==> View() == old(View())
      ensures gone ==> Around(old(View()), View()) && |kept| == old(|kept|) - 1
      ensures gone ==> old(kept)[index] in old(lease) && View() == Dropped(old(View()), index)
    {
      hide Good, Around, Used;
      DropStep(View(), index);
      DropAround(View(), index);
      gone := host.Release(lease[kept[index]]);
      if !gone { return; }
      lost := lost + if Used(regs, targets, calls, kept[index]) then {kept[index]} else {};
      kept := kept[..index] + kept[index + 1..];
    }

    // ----- opening and attaching ---------------------------------------------------------------------

    /** The kept target with the lease, if there is one. */
    method FindKept(wanted: Lease) returns (index: nat)
      requires Valid()
      ensures index <= |kept| && (forall data :: data in kept ==> data in lease)
      ensures index < |kept| ==> lease[kept[index]] == wanted
      ensures index == |kept| ==> forall data :: data in kept ==> lease[data] != wanted
    {
      GoodFacts(View());
      hide Good;
      index := 0;
      while index < |kept| && lease[kept[index]] != wanted
        invariant index <= |kept| && forall i :: 0 <= i < index ==> lease[kept[i]] != wanted
      {
        index := index + 1;
      }
    }

    /** Opens a target; opens that resolve to one lease share it, and it is given back once. */
    method Open(wanted: Lease, alike: bool, resolving: seq<Act>, removing: seq<Batch>, releasing: seq<Batch>)
      returns (target: Option<Object>)
      requires Valid()
      modifies this, host
      ensures host.refusals >= old(host.refusals)
      ensures Valid() && Later(old(View()), View())
      ensures Follows(old(View()), View(), MightAct(OpenAct(wanted, alike, resolving, removing, releasing)))
      ensures target.Some? ==> Holds(target.value, wanted)
      ensures target.None? ==> |kept| >= 64 || host.refusals > old(host.refusals) || (!alike && Known(wanted))
      decreases Weight(resolving) + WeightAll(removing) + WeightAll(releasing), 9
    {
      hide Good, Later, Follows;
      ghost var before, whole := View(), MightAct(OpenAct(wanted, alike, resolving, removing, releasing));
      ghost var collect := Collecting(MightAll(removing), MightAll(releasing));
      Collect(removing, releasing);
      FollowsMore(before, View(), collect, whole);
      if |kept| >= 64 { return None; }
      ghost var middle := View();
      target := OpenResolved(wanted, alike, resolving);
      Onward(before, middle, View(), collect, OpensResolved(wanted, resolving), whole);
    }

    /** The object is an open target of the lease, which the host lends. */
    ghost predicate Holds(target: Object, wanted: Lease)
      reads this, host
    {
      target in targets && targets[target] in kept && targets[target] in lease && lease[targets[target]] == wanted && wanted in host.leases
    }

    /** A target with the lease is kept. */
    predicate Known(wanted: Lease)
      reads this
    {
      exists data :: data in kept && data in lease && lease[data] == wanted
    }

    static ghost function OpensResolved(wanted: Lease, resolving: seq<Act>): Doing {
      Join(Might(resolving), Doing({wanted}, false, false, resolving != []))
    }

    /** The host resolves the target, whatever happens meanwhile; then it is known or new. */
    method OpenResolved(wanted: Lease, alike: bool, resolving: seq<Act>) returns (target: Option<Object>)
      requires Valid() && |kept| < 64
      modifies this, host
      ensures host.refusals >= old(host.refusals)
      ensures Valid() && Later(old(View()), View())
      ensures Follows(old(View()), View(), OpensResolved(wanted, resolving))
      ensures target.Some? ==> Holds(target.value, wanted)
      ensures target.None? ==> host.refusals > old(host.refusals) || (!alike && Known(wanted))
      decreases Weight(resolving), 7
    {
      hide Good, Later, Follows, Kept;
      ghost var before, whole := View(), OpensResolved(wanted, resolving);
      ghost var opening := Doing({wanted}, false, false, resolving != []);
      Perform(resolving);
      FollowsMore(before, View(), Might(resolving), whole);
      ghost var resolved := View();
      var index := FindKept(wanted);
      var known := index < |kept|;
      var lent := Lend(wanted, index, opening);
      Onward(before, resolved, View(), Might(resolving), opening, whole);
      if !lent || (known && !alike) { return None; }
      ghost var middle := View();
      var holder := Hold(index);
      FollowsMore(middle, View(), Doing({wanted}, false, false, false), opening);
      Onward(before, middle, View(), whole, opening, whole);
      return Some(holder);
    }

    /** Asks the host for a lease, and keeps a new target for it if there is none. */
    method Lend(wanted: Lease, index: nat, ghost opening: Doing) returns (lent: bool)
      requires Valid() && index <= |kept| && (forall data :: data in kept ==> data in lease)
      requires if index < |kept| then lease[kept[index]] == wanted else forall data :: data in kept ==> lease[data] != wanted
      requires opening.nests || |kept| < 64
      modifies this`kept, this`lease, this`nextData, this`keepalive, host`leases, host`refusals
      ensures host.refusals == old(host.refusals) + (if lent then 0 else 1)
      ensures Valid() && Later(old(View()), View()) && Follows(old(View()), View(), opening) && old(kept) <= kept
      ensures lent ==> index < |kept| && kept[index] in lease && lease[kept[index]] == wanted && wanted in host.leases
    {
      hide Good, Later, Follows;
      if index < |kept| {
        ghost var before := View();
        LaterAlways(before);
        FollowsAlways(before, opening);
        GoodFacts(before);
        lent := host.Resolve(wanted);
        assert host.leases == old(host.leases);
      } else {
        lent := LendNew(wanted, opening);
      }
    }

    method LendNew(wanted: Lease, ghost opening: Doing) returns (lent: bool)
      requires Valid() && (forall data :: data in kept ==> data in lease && lease[data] != wanted)
      requires opening.nests || |kept| < 64
      modifies this`kept, this`lease, this`nextData, this`keepalive, host`leases, host`refusals
      ensures host.refusals == old(host.refusals) + (if lent then 0 else 1)
      ensures Valid() && Later(old(View()), View()) && Follows(old(View()), View(), opening)
      ensures !lent ==> kept == old(kept)
      ensures lent ==> exists data :: kept == old(kept) + [data] && data in lease && lease[data] == wanted && wanted in host.leases
    {
      hide Good, Later, Follows, Kept;
      ghost var before := View();
      LaterAlways(before);
      FollowsAlways(before, opening);
      lent := host.Resolve(wanted);
      if lent {
        KeepStep(before, wanted);
        KeepFollows(before, wanted, opening);
        KeepNew(wanted, before);
      }
    }

    method KeepNew(wanted: Lease, ghost before: State)
      requires View() == before.(leases := before.leases + {wanted})
      modifies this`kept, this`lease, this`nextData, this`keepalive
      ensures View() == Kept(before, wanted) && kept == old(kept) + [old(nextData)] && lease == old(lease)[old(nextData) := wanted]
    {
      lease, kept, nextData, keepalive := lease[nextData := wanted], kept + [nextData], nextData + 1, true;
    }

    /** A new object for an open target. */
    method Hold(index: nat) returns (holder: Object)
      requires Valid() && index < |kept| && kept[index] in lease && lease[kept[index]] in host.leases
      modifies this`targets, this`nextObject, this`keepalive, this`again
      ensures Valid() && Later(old(View()), View()) && Holds(holder, lease[kept[index]])
      ensures Follows(old(View()), View(), Doing({lease[kept[index]]}, false, false, false))
      ensures host.releasing == Some(lease[kept[index]]) ==> holder in again
    {
      hide Good, Later, Follows, WithTarget;
      ghost var before := View();
      ghost var opening := Doing({lease[kept[index]]}, false, false, false);
      KeepaliveStep(before);
      keepalive := true;
      ghost var middle := View();
      SameFollows(before, middle, Nothing);
      TargetStep(middle, kept[index]);
      TargetFollows(middle, kept[index]);
      holder := NewTarget(kept[index]);
      Onward(before, middle, View(), Nothing, opening, opening);
    }

    method NewTarget(data: Data) returns (holder: Object)
      requires data in lease
      modifies this`targets, this`nextObject, this`again
      ensures View() == WithTarget(old(View()), data)
      ensures targets == old(targets)[holder := data]
      ensures host.releasing == Some(lease[data]) ==> holder in again
    {
      holder := nextObject;
      targets, nextObject := targets[nextObject := data], nextObject + 1;
      if host.releasing == Some(lease[data]) { again := again + {holder}; }
    }

    /** The host has the hook's callback under the handle its registration knows. */
    predicate Attached(hook: Object)
      reads this, host
    {
      && hook in hooks && hooks[hook] in regs && hooks[hook] in listed
      && regs[hooks[hook]].handle in host.callbacks && host.callbacks[regs[hooks[hook]].handle] == hooks[hook]
    }

    /**
      * Attaches a callback to an open target. Other things may happen before the host has the callback,
      * and the host may enter it before it says the handle. A refusal leaves no hook behind.
      */
    method Attach(target: Object, within: seq<Act>, entry: Option<Entry>, removing: seq<Batch>, releasing: seq<Batch>)
      returns (hook: Option<Object>)
      requires Valid()
      modifies this, host
      ensures host.refusals >= old(host.refusals)
      ensures Valid() && Later(old(View()), View())
      ensures Follows(old(View()), View(), MightAct(AttachAct(target, within, entry, removing, releasing)))
      ensures hook.Some? ==> Attached(hook.value) && hooks[hook.value] !in pending
      ensures hook.None? ==> target !in targets || |listed| >= 256 || host.refusals > old(host.refusals)
      ensures hook.Some? && entry.None? ==> !regs[hooks[hook.value]].closing
      ensures hook.None? && within == [] && entry.None? && removing == [] && releasing == [] ==>
                && hooks == old(hooks) && targets == old(targets) && calls == old(calls)
                && forall r :: r in regs ==> r in old(regs) || regs[r].closing
      decreases Weight(within) + EntryWeight(entry) + WeightAll(removing) + WeightAll(releasing), 11
    {
      hide Good, Later, Follows, Attached, AttachNewMight;
      ghost var before, whole := View(), MightAct(AttachAct(target, within, entry, removing, releasing));
      ghost var collect := Collecting(MightAll(removing), MightAll(releasing));
      AttachWithin(target, within, entry, removing, releasing);
      hide MightAct, Collecting, Within;
      Collect(removing, releasing);
      FollowsMore(before, View(), collect, whole);
      if target !in targets || |listed| >= 256 { return None; }
      ghost var start := View();
      hook := AttachNew(target, within, entry, removing, releasing);
      Onward(before, start, View(), collect, AttachNewMight(within, entry, removing, releasing), whole);
    }

    static ghost function AttachNewMight(within: seq<Act>, entry: Option<Entry>, removing: seq<Batch>, releasing: seq<Batch>): Doing {
      Join(Collecting(MightAll(removing), MightAll(releasing)), Join(Might(within), MightEnter(entry)))
    }

    static lemma AttachWithin(target: Object, within: seq<Act>, entry: Option<Entry>, removing: seq<Batch>, releasing: seq<Batch>)
      ensures var whole := MightAct(AttachAct(target, within, entry, removing, releasing));
              && Within(Collecting(MightAll(removing), MightAll(releasing)), whole)
              && Within(AttachNewMight(within, entry, removing, releasing), whole)
    {
    }

    static lemma AttachNewWithin(within: seq<Act>, entry: Option<Entry>, removing: seq<Batch>, releasing: seq<Batch>)
      ensures var whole := AttachNewMight(within, entry, removing, releasing);
              && Within(Collecting(MightAll(removing), MightAll(releasing)), whole) && Within(Nothing, whole)
              && Within(Might(within), whole) && Within(MightEnter(entry), whole) && Within(whole, whole)
    {
    }

    /** A registration and its hook, listed before the host hears of it, and given up if it refuses. */
    method AttachNew(target: Object, within: seq<Act>, entry: Option<Entry>, removing: seq<Batch>, releasing: seq<Batch>)
      returns (hook: Option<Object>)
      requires Valid() && target in targets && |listed| < 256
      modifies this, host
      ensures host.refusals >= old(host.refusals)
      ensures Valid() && Later(old(View()), View())
      ensures Follows(old(View()), View(), AttachNewMight(within, entry, removing, releasing))
      ensures hook.Some? ==> Attached(hook.value) && hooks[hook.value] !in pending
      ensures hook.None? ==> host.refusals > old(host.refusals)
      ensures hook.Some? && entry.None? ==> !regs[hooks[hook.value]].closing
      ensures hook.None? && within == [] && entry.None? && removing == [] && releasing == [] ==>
                && hooks == old(hooks) && targets == old(targets) && calls == old(calls)
                && forall r :: r in regs ==> r in old(regs) || regs[r].closing
      decreases Weight(within) + EntryWeight(entry) + WeightAll(removing) + WeightAll(releasing), 10
    {
      hide Good, Later, Follows, Waits;
      ghost var start, whole := View(), AttachNewMight(within, entry, removing, releasing);
      AttachNewWithin(within, entry, removing, releasing);
      hide AttachNewMight, Within, Might, MightEnter, Collecting;
      var reg, holder := ListAndWait(target, within);
      FollowsMore(start, View(), Might(within), whole);
      var installed := Install(reg, holder, entry, start, whole);
      if installed {
        SettledFollows(start, View(), reg, whole);
        pending := pending - {reg};
        return Some(holder);
      }
      GiveUp(reg, holder, removing, releasing, start, whole);
      return None;
    }

    /** Lists a new registration; until the host is asked to take it in, other things may happen. */
    method ListAndWait(target: Object, within: seq<Act>) returns (reg: Reg, holder: Object)
      requires Valid() && target in targets && |listed| < 256
      modifies this, host
      ensures host.refusals >= old(host.refusals)
      ensures Valid() && Later(old(View()), View()) && Follows(old(View()), View(), Might(within))
      ensures reg !in old(regs) && reg !in old(listed) && reg !in old(pending) && holder !in old(hooks)
      ensures Waits(View(), reg) && reg !in installing && holder in hooks && hooks[holder] == reg
      ensures within == [] ==> hooks == old(hooks)[holder := reg] && targets == old(targets) && calls == old(calls)
      ensures within == [] ==> regs.Keys == old(regs).Keys + {reg}
      decreases Weight(within), 1
    {
      hide Good, Later, Follows, Waits, Might;
      ghost var start := View();
      reg, holder := ListNew(target);
      ghost var waiting := View();
      Perform(within);
      WaitsOn(waiting, View(), reg, holder);
      WithinAlways(Might(within));
      Onward(start, waiting, View(), Nothing, Might(within), Might(within));
    }

    /** Storage for a registration, before the host hears of it. */
    method ListNew(target: Object) returns (reg: Reg, holder: Object)
      requires Valid() && target in targets && |listed| < 256
      modifies this`regs, this`listed, this`hooks, this`pending, this`nextReg, this`nextObject
      ensures Valid() && Later(old(View()), View()) && Follows(old(View()), View(), Nothing)
      ensures reg !in old(regs) && reg !in old(listed) && reg !in old(pending) && holder !in old(hooks)
      ensures Waits(View(), reg) && reg !in installing && hooks == old(hooks)[holder := reg]
      ensures targets == old(targets) && calls == old(calls) && regs.Keys == old(regs).Keys + {reg}
    {
      hide Good, Later, Follows;
      ghost var before := View();
      ListStep(before, target);
      ListFollows(before, targets[target]);
      NewRegistration(before);
      hide Listed;
      reg, holder := NewHook(targets[target]);
    }

    method NewHook(data: Data) returns (reg: Reg, holder: Object)
      modifies this`regs, this`listed, this`hooks, this`pending, this`nextReg, this`nextObject
      ensures View() == Listed(old(View()), data) && reg == old(nextReg) && holder == old(nextObject)
    {
      reg, holder := nextReg, nextObject;
      var nowRegs, nowListed := regs[reg := Registration(data, 0, 0, false, 0)], listed + [reg];
      var nowPending, nowHooks := pending + {reg}, hooks[holder := reg];
      regs, listed, pending, hooks, nextReg, nextObject := nowRegs, nowListed, nowPending, nowHooks, nextReg + 1, nextObject + 1;
    }

    /** The host refused a callback: the registration closes and goes, and so does its hook. */
    method GiveUp(reg: Reg, holder: Object, removing: seq<Batch>, releasing: seq<Batch>, ghost start: State, ghost whole: Doing)
      requires Valid() && reg in regs && holder in hooks && hooks[holder] == reg && reg in pending
      requires Later(start, View()) && Follows(start, View(), whole) && reg !in start.regs && reg !in start.pending
      requires Within(Collecting(MightAll(removing), MightAll(releasing)), whole)
      modifies this, host
      ensures host.refusals >= old(host.refusals)
      ensures Valid() && Later(start, View()) && Follows(start, View(), whole)
      ensures holder !in hooks
      ensures removing == [] && releasing == [] ==> hooks == old(hooks) - {holder} && targets == old(targets) && calls == old(calls)
      ensures removing == [] && releasing == [] ==> forall r :: r in regs ==> r in old(regs) && (r == reg ==> regs[r].closing)
      decreases WeightAll(removing) + WeightAll(releasing), 9
    {
      hide Good, Later, Follows, Within;
      ghost var before := View();
      NewClosedLater(start, before, reg);
      Close(reg);
      ghost var middle := View();
      SameFollows(before, middle, whole);
      FollowsOnward(start, before, middle, whole, whole, whole) by { WithinAlways(whole); }
      Collect(removing, releasing);
      HookStays(middle, View(), holder);
      WithinAlways(whole);
      Onward(start, middle, View(), whole, Collecting(MightAll(removing), MightAll(releasing)), whole);
      Forget(holder, start, whole);
    }

    /** A hook no script was given goes. */
    method Forget(hook: Object, ghost start: State, ghost whole: Doing)
      requires Valid() && hook in hooks && hooks[hook] !in start.regs && hooks[hook] !in start.pending
      requires Later(start, View()) && Follows(start, View(), whole)
      modifies this`regs, this`hooks, this`pending
      ensures Valid() && Later(start, View()) && Follows(start, View(), whole)
      ensures View() == Forgotten(old(View()), hook)
    {
      hide Good, Later, Follows;
      ForgottenStep(start, View(), hook, whole);
      ghost var after := Forgotten(View(), hook);
      hide Forgotten;
      Unhook(hook);
      assert View() == after;
    }

    method Unhook(hook: Object)
      requires hook in hooks
      modifies this`regs, this`hooks, this`pending
      ensures View() == Forgotten(old(View()), hook)
    {
      var reg := hooks[hook];
      hooks := hooks - {hook};
      if reg !in listed { regs := regs - {reg}; }
      pending := pending - {reg};
    }

    /** Hands the registration to the host, which may call it before it answers. */
    method Install(reg: Reg, holder: Object, entry: Option<Entry>, ghost start: State, ghost whole: Doing) returns (installed: bool)
      requires Valid() && Waits(View(), reg) && reg !in installing && holder in hooks && hooks[holder] == reg
      requires Later(start, View()) && Follows(start, View(), whole)
      requires reg !in start.regs && reg !in start.listed && Within(MightEnter(entry), whole)
      modifies this, host
      ensures host.refusals >= old(host.refusals)
      ensures Valid() && Later(start, View()) && Follows(start, View(), whole)
      ensures reg in regs && reg in pending && holder in hooks && hooks[holder] == reg
      ensures installed ==> Attached(holder)
      ensures !installed ==> host.refusals > old(host.refusals)
      ensures installed && entry.None? ==> !regs[reg].closing
      ensures entry.Some? && entry.value.nested == [] && regs[reg].closing ==> entry.value.retire
      ensures entry.Some? && entry.value.nested == [] && entry.value.retire && installed && old(depth) < 8 ==> regs[reg].closing
      ensures entry.None? ==> hooks == old(hooks) && targets == old(targets) && calls == old(calls) && regs.Keys == old(regs).Keys
      decreases EntryWeight(entry), 4
    {
      hide Good, Later, Follows, Within;
      if entry.None? || depth >= 8 {
        installed := InstallIdle(reg, holder, start, whole);
      } else {
        installed := InstallRunning(reg, holder, entry.value, start, whole);
      }
    }

    method InstallIdle(reg: Reg, holder: Object, ghost start: State, ghost whole: Doing) returns (installed: bool)
      requires Valid() && Waits(View(), reg) && reg !in installing && holder in hooks && hooks[holder] == reg
      requires Later(start, View()) && Follows(start, View(), whole) && reg !in start.regs && reg !in start.listed
      modifies this`regs, host
      ensures host.refusals >= old(host.refusals)
      ensures Valid() && Later(start, View()) && Follows(start, View(), whole) && reg in regs
      ensures installed ==> Attached(holder)
      ensures !regs[reg].closing && regs.Keys == old(regs).Keys
      ensures !installed ==> host.refusals > old(host.refusals)
    {
      hide Good, Later, Follows;
      ghost var before := View();
      GoodFacts(before);
      GivenStep(before, reg);
      GivenLater(start, before, reg, host.nextCallback);
      var callback := host.Install(reg);
      if callback == 0 { return false; }
      regs := regs[reg := regs[reg].(handle := callback)];
      SameFollows(before, View(), whole);
      FollowsOnward(start, before, View(), whole, whole, whole);
      return true;
    }

    /** The callback runs while the host still installs it; then the host answers. */
    method InstallRunning(reg: Reg, holder: Object, entry: Entry, ghost start: State, ghost whole: Doing) returns (installed: bool)
      requires Valid() && Waits(View(), reg) && reg !in installing && holder in hooks && hooks[holder] == reg
      requires Later(start, View()) && Follows(start, View(), whole)
      requires reg !in start.regs && reg !in start.listed && Within(Might(entry.nested), whole)
      modifies this, host
      ensures host.refusals >= old(host.refusals)
      ensures Valid() && Later(start, View()) && Follows(start, View(), whole)
      ensures reg in regs && reg in pending && holder in hooks && hooks[holder] == reg
      ensures installed ==> Attached(holder)
      ensures !installed ==> host.refusals > old(host.refusals)
      ensures entry.nested == [] ==> (regs[reg].closing ==> entry.retire) && (installed && entry.retire ==> regs[reg].closing)
      decreases Weight(entry.nested), 3
    {
      hide Good, Later, Follows, Within, InstallEntered, InstallLeft;
      ghost var before := View();
      GoodFacts(before);
      WithinAlways(whole);
      SameReleasing(start, before);
      var callback := InstallEnter(reg);
      if callback == 0 { return false; }
      ghost var entered := View();
      EnteredStaysOpen(before, reg, callback);
      InstallEnteredFollows(before, reg, callback, whole);
      FollowsOnward(start, before, entered, whole, whole, whole);
      Perform(entry.nested);
      ghost var inside := View();
      SameReleasing(entered, inside);
      InstallInside(before, inside, reg, callback);
      HookStays(entered, inside, holder);
      LaterAlways(inside);
      if entry.retire { Close(reg); }
      RetiredFollows(inside, View(), reg);
      LaterOnward(entered, inside, View());
      FollowsOnward(start, entered, inside, whole, Might(entry.nested), whole);
      FollowsOnward(start, inside, View(), whole, Nothing, whole);
      inside := View();
      InstallInside(before, inside, reg, callback);
      LeftStaysClosed(before, inside, reg, callback);
      var refused := InstallAnswer(reg, callback, before);
      InstallLeftGood(before, inside, reg, callback, refused);
      InstallLeftLater(start, before, inside, reg, callback, refused);
      InstallLeftFollows(before, inside, reg, callback, refused, whole);
      FollowsOnward(start, inside, View(), whole, whole, whole);
      installed := !refused;
    }

    static lemma EnteredStaysOpen(s: State, reg: Reg, callback: Callback)
      requires reg in s.regs
      ensures reg in InstallEntered(s, reg, callback).regs
      ensures InstallEntered(s, reg, callback).regs[reg].closing == s.regs[reg].closing
    {
    }

    static lemma LeftStaysClosed(s: State, inside: State, reg: Reg, callback: Callback)
      requires reg in s.regs && reg in inside.regs
      ensures forall refused :: InstallLeft(s, inside, reg, callback, refused).regs[reg].closing == inside.regs[reg].closing
    {
    }

    method InstallEnter(reg: Reg) returns (callback: Callback)
      requires Valid() && reg in regs && reg in listed && regs[reg].handle == 0 && reg !in installing
      modifies this`regs, this`depth, this`installing, host
      ensures host.refusals >= old(host.refusals)
      ensures Valid()
      ensures callback == 0 ==> View() == old(View()) && host.refusals > old(host.refusals)
      ensures callback != 0 ==> callback == old(host.nextCallback) && View() == InstallEntered(old(View()), reg, callback)
    {
      hide Good;
      GoodFacts(View());
      InstallEnteredStep(View(), reg);
      callback := host.Install(reg);
      if callback == 0 { return; }
      MarkInstalling(reg);
    }

    method MarkInstalling(reg: Reg)
      requires reg in regs
      modifies this`regs, this`depth, this`installing
      ensures regs == old(regs)[reg := old(regs)[reg].(active := old(regs)[reg].active + 1)]
      ensures depth == old(depth) + 1 && installing == old(installing) + {reg}
    {
      regs, depth := regs[reg := regs[reg].(active := regs[reg].active + 1)], depth + 1;
      installing := installing + {reg};
    }

    method InstallAnswer(reg: Reg, callback: Callback, ghost before: State) returns (refused: bool)
      requires reg in regs && reg in before.regs && before.regs[reg].active == 0 && depth == before.depth + 1
      requires installing == before.installing + {reg} && reg !in before.installing
      requires callback in host.callbacks && host.callbacks[callback] == reg
      modifies this`regs, this`depth, this`installing, host`callbacks, host`refusals
      ensures host.refusals == old(host.refusals) + (if refused then 1 else 0)
      ensures View() == InstallLeft(before, old(View()), reg, callback, refused)
      ensures reg in regs && (!refused ==> regs[reg].handle in host.callbacks && host.callbacks[regs[reg].handle] == reg)
    {
      assert installing - {reg} == before.installing;
      installing, depth := installing - {reg}, depth - 1;
      var agreed := host.Confirm(callback);
      refused := !agreed;
      if refused {
        regs := regs[reg := regs[reg].(active := 0)];
      } else {
        regs := regs[reg := regs[reg].(active := 0, handle := callback)];
      }
    }

    /** A script lets go of its hook: the callback is closed for good. */
    method DropHook(hook: Object)
      requires Valid() && hook in hooks && hooks[hook] !in pending
      modifies this`regs, this`hooks
      ensures Valid() && Later(old(View()), View()) && SameTargets(old(View()), View())
      ensures hooks == old(hooks) - {hook}
      ensures old(hooks)[hook] in regs ==> regs[old(hooks)[hook]].closing
      ensures forall reg :: reg in old(regs) && reg != old(hooks)[hook] ==> reg in regs && regs[reg] == old(regs)[reg]
    {
      hide Good, Later;
      ghost var before := View();
      HookHasReg(before, hook);
      Close(hooks[hook]);
      ghost var middle := View();
      UnhookStep(middle, hook);
      LaterOnward(before, middle, Unhooked(middle, hook));
      var reg := hooks[hook];
      hooks := hooks - {hook};
      if reg !in listed { regs := regs - {reg}; }
    }

    // ----- whole runs -------------------------------------------------------------------------------

    /** Prepares a direct call on an open target. */
    method Prepare(target: Object) returns (call: Option<Object>)
      requires Valid()
      modifies this`calls, this`nextObject
      ensures Valid() && Later(old(View()), View()) && SameTargets(old(View()), View())
      ensures call.Some? <==> target in targets
      ensures call.Some? ==> call.value in calls && calls[call.value] == targets[target] && (targets[target] in kept || targets[target] in lost)
    {
      hide Good, Later;
      LaterAlways(View());
      if target !in targets { return None; }
      GoodFacts(View());
      CallStep(View(), target);
      calls := calls[nextObject := targets[target]];
      nextObject := nextObject + 1;
      return Some(nextObject - 1);
    }

    method DropTarget(target: Object)
      requires Valid()
      modifies this`targets
      ensures Valid() && Later(old(View()), View()) && Follows(old(View()), View(), Doing({}, true, false, false))
      ensures targets == old(targets) - {target}
    {
      hide Good, Later;
      DropTargetStep(View(), target);
      DropTargetFollows(View(), target);
      targets := targets - {target};
    }

    method DropCall(call: Object)
      requires Valid()
      modifies this`calls
      ensures Valid() && Later(old(View()), View()) && SameTargets(old(View()), View())
      ensures calls == old(calls) - {call}
    {
      hide Good, Later;
      DropCallStep(View(), call);
      calls := calls - {call};
    }

    method CloseHook(hook: Object)
      requires Valid() && hook in hooks && hooks[hook] !in pending
      modifies this`regs
      ensures Valid() && Later(old(View()), View()) && SameTargets(old(View()), View())
      ensures hooks[hook] in regs && regs[hooks[hook]].closing
      ensures forall reg :: reg in old(regs) && reg != hooks[hook] ==> reg in regs && regs[reg] == old(regs)[reg]
    {
      hide Good, Later;
      HookHasReg(View(), hook);
      Close(hooks[hook]);
    }

    method PerformOne(act: Act)
      requires Valid()
      modifies this, host
      ensures host.refusals >= old(host.refusals)
      ensures Valid() && Later(old(View()), View()) && Follows(old(View()), View(), MightAct(act))
      decreases ActWeight(act), 12
    {
      hide Good, Later, Follows;
      ghost var before := View();
      LaterAlways(before);
      FollowsAlways(before, Nothing);
      match act
      case OpenAct(lease, alike, resolving, removing, releasing) =>
        var target := Open(lease, alike, resolving, removing, releasing);
      case AttachAct(target, within, entry, removing, releasing) =>
        var hook := Attach(target, within, entry, removing, releasing);
      case CollectAct(removing, releasing) => Collect(removing, releasing);
      case DispatchAct(callback, enabled, run) => var ran := Dispatch(callback, enabled, run);
      case DropTargetAct(target) => DropTarget(target);
      case PrepareAct(_) =>
        PerformObject(act);
        SameFollows(before, View(), Nothing);
      case CloseAct(_) =>
        PerformObject(act);
        SameFollows(before, View(), Nothing);
      case DropHookAct(_) =>
        PerformObject(act);
        SameFollows(before, View(), Nothing);
      case DropCallAct(_) =>
        PerformObject(act);
        SameFollows(before, View(), Nothing);
    }

    /** What a script does with a hook or a call it was given. */
    method PerformObject(act: Act)
      requires Valid() && (act.PrepareAct? || act.CloseAct? || act.DropHookAct? || act.DropCallAct?)
      modifies this
      ensures Valid() && Later(old(View()), View()) && SameTargets(old(View()), View())
    {
      hide Good, Later;
      LaterAlways(View());
      match act
      case PrepareAct(target) => var call := Prepare(target);
      case CloseAct(hook) => if hook in hooks && hooks[hook] !in pending { CloseHook(hook); }
      case DropHookAct(hook) => if hook in hooks && hooks[hook] !in pending { DropHook(hook); }
      case DropCallAct(call) => DropCall(call);
    }

    /** Any acts, each with whatever the host lets happen inside it. */
    method Perform(acts: seq<Act>)
      requires Valid()
      modifies this, host
      ensures Valid() && Later(old(View()), View()) && Follows(old(View()), View(), Might(acts))
      ensures acts == [] ==> View() == old(View()) && host.refusals == old(host.refusals)
      ensures host.refusals >= old(host.refusals)
      decreases Weight(acts), 0
    {
      hide Good, Later, Follows;
      ghost var before := View();
      LaterAlways(before);
      FollowsAlways(before, Might(acts));
      if acts == [] { return; }
      PerformOne(acts[0]);
      ghost var middle := View();
      Perform(acts[1..]);
      Onward(before, middle, View(), MightAct(acts[0]), Might(acts[1..]), Might(acts));
    }

    /**
      * After any run the host can reach only what is retained, and lends only what is kept. Whatever is
      * used is kept as long as nothing was opened inside a release, and at most 64 targets are kept as
      * long as nothing happened while the host resolved one.
      */
    method Serve(acts: seq<Act>)
      requires Valid()
      modifies this, host
      ensures Valid()
      ensures forall c :: c in host.callbacks ==> host.callbacks[c] in listed && host.callbacks[c] in regs
      ensures forall reg :: reg in regs ==> regs[reg].retirements == if regs[reg].closing then 1 else 0
      ensures forall l :: l in host.leases ==> exists data :: data in kept && data in lease && lease[data] == l
      ensures forall data :: data in kept ==> data in lease && lease[data] in host.leases
      ensures old(lost) <= lost && (!Might(acts).reopens ==> lost == old(lost))
      ensures lost == {} ==> AllKept() && (host.callbacks != map[] ==> keepalive)
      ensures |listed| <= 256 && (old(|kept|) <= 64 && !Might(acts).nests ==> |kept| <= 64)
    {
      ghost var before := View();
      Perform(acts);
      ServeFacts(View());
      ServeRun(before, View(), Might(acts));
      hide Good, Later, Follows;
    }
  }

  lemma ServeFacts(s: State)
    requires Good(s)
    ensures forall c :: c in s.callbacks ==> s.callbacks[c] in s.listed && s.callbacks[c] in s.regs
    ensures forall reg :: reg in s.regs ==> s.regs[reg].retirements == if s.regs[reg].closing then 1 else 0
    ensures forall l :: l in s.leases ==> exists data :: data in s.kept && data in s.lease && s.lease[data] == l
    ensures forall data :: data in s.kept ==> data in s.lease && s.lease[data] in s.leases
    ensures s.lost == {} ==> UsedAreKept(s.regs, s.targets, s.calls, s.kept, {}) && (s.callbacks != map[] ==> s.keepalive)
    ensures |s.listed| <= 256
  {
    if s.callbacks != map[] {
      var c :| c in s.callbacks;
      assert s.callbacks[c] in s.listed;
    }
  }

  lemma ServeRun(before: State, after: State, doing: Doing)
    requires Later(before, after) && Follows(before, after, doing)
    ensures before.lost <= after.lost && (!doing.reopens ==> after.lost == before.lost)
    ensures |before.kept| <= 64 && !doing.nests ==> |after.kept| <= 64
  {
  }
}
