/** Menus of scripts and of extensions: one per player slot, each with a session of its own. */
module MenuSessions {
  import opened ServiceLeases
  import opened MenuScreens

  type Handles = map<Script, set<Handle>>

  datatype Choice = Back | Cancel | Select | Change | Ignore

  /** What may happen, from outside or from inside a callback, which may do more of it. */
  datatype Act =
    | CreateAct(script: Script, menu: Handle)
    | ShowAct(script: Script, menu: Handle, player: Player, allowed: bool)
    | CloseMenuAct(script: Script, menu: Handle)
    | OpenNativeAct(extension: nat, player: Player, service: Service, allowed: bool)
    | CloseNativeAct(extension: nat, session: Session)
    | InputAct(player: Player, session: Session, choice: Choice, refused: bool, nested: seq<Act>)
    | TickAct(due: set<Slot>, denied: set<Slot>)
    | MapAct
    | JoinAct(slot: Slot)
    | LeftAct(player: Player)

  ghost function Weight(acts: seq<Act>): nat {
    if acts == [] then 0
    else 1 + (if acts[0].InputAct? then Weight(acts[0].nested) else 0) + Weight(acts[1..])
  }

  predicate LiveMenus(displays: Displays, handles: Handles) {
    forall slot :: slot in displays ==>
      displays[slot].script in handles && displays[slot].menu in handles[displays[slot].script]
  }

  predicate SameMenu(a: Display, b: Display) {
    a.script == b.script && a.menu == b.menu
  }

  /** No menu is on two screens. */
  predicate OneScreen(displays: Displays) {
    forall a, b :: a in displays && b in displays && SameMenu(displays[a], displays[b]) ==> a == b
  }

  predicate OneMenu(displays: Displays, natives: Natives) {
    displays.Keys !! natives.Keys
  }

  /** No session is shared, and none is still to come. */
  predicate OwnSessions(displays: Displays, natives: Natives, next: Session) {
    && (forall slot :: slot in displays ==> displays[slot].session < next)
    && (forall slot :: slot in natives ==> natives[slot].session < next)
    && (forall a, b :: a in displays && b in displays && displays[a].session == displays[b].session ==> a == b)
    && (forall a, b :: a in natives && b in natives && natives[a].session == natives[b].session ==> a == b)
    && forall a, b :: a in displays && b in natives ==> displays[a].session != natives[b].session
  }

  /** No session reported twice; a menu that may still report has not reported. */
  predicate ReportedOnce(displays: Displays, natives: Natives, next: Session, reported: seq<Session>) {
    && (forall i, j :: 0 <= i < j < |reported| ==> reported[i] != reported[j])
    && (forall i :: 0 <= i < |reported| ==> reported[i] < next)
    && (forall slot :: slot in displays ==> displays[slot].session !in reported)
    && forall slot :: slot in natives && natives[slot].callback ==> natives[slot].session !in reported
  }

  predicate SameService(natives: Natives, menus: Menus) {
    menus.Keys == natives.Keys && forall slot :: slot in natives ==> menus[slot] == natives[slot].service
  }

  predicate Tidy(displays: Displays, natives: Natives, handles: Handles, next: Session, reported: seq<Session>) {
    && LiveMenus(displays, handles) && OneScreen(displays) && OneMenu(displays, natives)
    && OwnSessions(displays, natives, next) && ReportedOnce(displays, natives, next, reported)
  }

  /** A menu whose callback is running stays, whatever happens inside. */
  predicate ActiveStay(before: Natives, after: Natives) {
    forall slot :: slot in before && before[slot].active ==>
      slot in after && after[slot] == before[slot].(cleared := after[slot].cleared) && (before[slot].cleared ==> after[slot].cleared)
  }

  // ----- what each change keeps -------------------------------------------------------------

  lemma FlagsKeep(displays: Displays, natives: Natives, handles: Handles, next: Session, reported: seq<Session>, slot: Slot, native: Native)
    requires Tidy(displays, natives, handles, next, reported) && slot in natives
    requires native.session == natives[slot].session && (native.callback ==> natives[slot].callback)
    ensures Tidy(displays, natives[slot := native], handles, next, reported)
  {
  }

  lemma ReportKeeps(displays: Displays, natives: Natives, handles: Handles, next: Session, reported: seq<Session>, slot: Slot, native: Native)
    requires Tidy(displays, natives, handles, next, reported) && slot in natives && natives[slot].callback
    requires native.session == natives[slot].session && !native.callback
    ensures Tidy(displays, natives[slot := native], handles, next, reported + [native.session])
  {
  }

  lemma NativeGoneKeeps(displays: Displays, natives: Natives, handles: Handles, next: Session, reported: seq<Session>, slot: Slot)
    requires Tidy(displays, natives, handles, next, reported)
    ensures Tidy(displays, natives - {slot}, handles, next, reported)
  {
  }

  lemma DisplayGoneKeeps(displays: Displays, natives: Natives, handles: Handles, next: Session, reported: seq<Session>, slot: Slot)
    requires Tidy(displays, natives, handles, next, reported) && slot in displays
    ensures displays[slot].script in handles && displays[slot].menu in handles[displays[slot].script]
    ensures Tidy(displays - {slot}, natives, WithoutHandle(handles, displays[slot].script, displays[slot].menu), next, reported)
  {
  }

  /** The display has gone, and its selection is reported. */
  lemma SelectionKeeps(displays: Displays, natives: Natives, handles: Handles, next: Session, reported: seq<Session>, session: Session)
    requires Tidy(displays, natives, handles, next, reported) && session < next && session !in reported
    requires forall slot :: slot in displays ==> displays[slot].session != session
    requires forall slot :: slot in natives ==> natives[slot].session != session
    ensures Tidy(displays, natives, handles, next, reported + [session])
  {
  }

  /** The session on a player's screen is on no other, and not reported. */
  lemma OwnSession(displays: Displays, natives: Natives, handles: Handles, next: Session, reported: seq<Session>, slot: Slot)
    requires Tidy(displays, natives, handles, next, reported) && slot in displays
    ensures displays[slot].session < next && displays[slot].session !in reported
    ensures forall other :: other in displays && other != slot ==> displays[other].session != displays[slot].session
    ensures forall other :: other in natives ==> natives[other].session != displays[slot].session
    ensures slot !in natives
  {
  }

  lemma NoDisplay(displays: Displays, natives: Natives, handles: Handles, next: Session, reported: seq<Session>, slot: Slot)
    requires Tidy(displays, natives, handles, next, reported) && slot in natives
    ensures slot !in displays
  {
  }

  lemma NoNative(displays: Displays, natives: Natives, handles: Handles, next: Session, reported: seq<Session>, slot: Slot)
    requires Tidy(displays, natives, handles, next, reported) && slot in displays
    ensures slot !in natives
  {
  }

  lemma OldSessions(displays: Displays, natives: Natives, handles: Handles, next: Session, reported: seq<Session>)
    requires Tidy(displays, natives, handles, next, reported)
    ensures forall slot :: slot in natives ==> natives[slot].session < next
  {
  }

  lemma OneSession(displays: Displays, natives: Natives, handles: Handles, next: Session, reported: seq<Session>)
    requires Tidy(displays, natives, handles, next, reported)
    ensures forall a, b :: a in natives && b in natives && natives[a].session == natives[b].session ==> a == b
  {
  }

  /** Once the slot is empty, nothing else has its session. */
  lemma Unshown(before: Displays, nativesBefore: Natives, displays: Displays, natives: Natives, slot: Slot)
    requires slot in before && slot !in displays && slot !in natives
    requires displays == before || displays == before - {slot}
    requires natives - {slot} == nativesBefore - {slot}
    requires forall other :: other in before && other != slot ==> before[other].session != before[slot].session
    requires forall other :: other in nativesBefore ==> nativesBefore[other].session != before[slot].session
    ensures forall other :: other in displays ==> displays[other].session != before[slot].session
    ensures forall other :: other in natives ==> natives[other].session != before[slot].session
  {
    assert natives == natives - {slot};
    forall other | other in natives ensures natives[other].session != before[slot].session {
      assert other in nativesBefore - {slot} && (nativesBefore - {slot})[other] == natives[other];
    }
  }

  lemma ActiveStayOnward(a: Natives, b: Natives, c: Natives)
    requires ActiveStay(a, b) && ActiveStay(b, c)
    ensures ActiveStay(a, c)
  {
  }

  lemma ActiveStayAlways(natives: Natives)
    ensures ActiveStay(natives, natives)
  {
  }

  lemma ClearedStays(before: Natives, after: Natives, slot: Slot)
    requires slot in before && (before[slot].active ==> before[slot].closing)
    requires after == before[slot := before[slot].(closing := true, cleared := true)]
    ensures ActiveStay(before, after)
  {
  }

  /** Changing an idle menu is no concern of the running callbacks. */
  lemma IdleChangeStays(before: Natives, after: Natives, slot: Slot)
    requires after - {slot} == before - {slot}
    requires slot in before ==> !before[slot].active
    ensures ActiveStay(before, after)
  {
    forall other | other in before && before[other].active ensures other in after && after[other] == before[other] {
      assert other in before - {slot} && (after - {slot})[other] == after[other];
    }
  }

  lemma OthersSame(before: Natives, after: Natives, slot: Slot)
    requires after - {slot} == before - {slot}
    ensures forall other :: other in after && other != slot ==> other in before && after[other] == before[other]
    ensures forall other :: other in before && other != slot ==> other in after && after[other] == before[other]
  {
    forall other | other in after && other != slot ensures other in before && after[other] == before[other] {
      assert other in after - {slot} && (before - {slot})[other] == (after - {slot})[other];
    }
    forall other | other in before && other != slot ensures other in after && after[other] == before[other] {
      assert other in before - {slot} && (before - {slot})[other] == (after - {slot})[other];
    }
  }

  lemma StillThere(before: Natives, after: Natives, slot: Slot)
    requires ActiveStay(before, after) && slot in before && before[slot].active
    ensures slot in after && after[slot] == before[slot].(cleared := after[slot].cleared) && (before[slot].cleared ==> after[slot].cleared)
  {
  }

  lemma ReportStays(before: Natives, running: Natives, done: Natives, after: Natives, slot: Slot)
    requires slot in before && !before[slot].active && slot in running && running == before[slot := running[slot]]
    requires ActiveStay(running, done) && slot in done && slot in after && after == done[slot := after[slot]]
    ensures ActiveStay(before, after)
  {
  }

  function WithoutHandle(handles: Handles, script: Script, menu: Handle): Handles {
    if script in handles then handles[script := handles[script] - {menu}] else handles
  }

  lemma TakenTwice(handles: Handles, script: Script, menu: Handle)
    ensures WithoutHandle(WithoutHandle(handles, script, menu), script, menu) == WithoutHandle(handles, script, menu)
  {
    if script in handles { assert handles[script] - {menu} - {menu} == handles[script] - {menu}; }
  }

  lemma HandleGoneKeeps(displays: Displays, natives: Natives, handles: Handles, next: Session, reported: seq<Session>, script: Script, menu: Handle)
    requires Tidy(displays, natives, handles, next, reported)
    requires forall slot :: slot in displays ==> !(displays[slot].script == script && displays[slot].menu == menu)
    ensures Tidy(displays, natives, WithoutHandle(handles, script, menu), next, reported)
  {
  }

  lemma HandlesGrowKeeps(displays: Displays, natives: Natives, handles: Handles, more: Handles, next: Session, reported: seq<Session>)
    requires Tidy(displays, natives, handles, next, reported)
    requires forall script :: script in handles ==> script in more && handles[script] <= more[script]
    ensures Tidy(displays, natives, more, next, reported)
  {
  }

  lemma ShownKeeps(displays: Displays, natives: Natives, handles: Handles, next: Session, reported: seq<Session>,
                   slot: Slot, connection: Connection, script: Script, menu: Handle)
    requires Tidy(displays, natives, handles, next, reported)
    requires slot !in displays && slot !in natives && script in handles && menu in handles[script]
    requires forall other :: other in displays ==> !(displays[other].script == script && displays[other].menu == menu)
    ensures Tidy(displays[slot := Display(next, connection, script, menu)], natives, handles, next + 1, reported)
  {
    hide ReportedOnce;
    assert OneScreen(displays[slot := Display(next, connection, script, menu)]);
    ReportedGrows(displays, natives, next, reported, displays[slot := Display(next, connection, script, menu)], natives);
  }

  lemma OpenedKeeps(displays: Displays, natives: Natives, handles: Handles, next: Session, reported: seq<Session>,
                    slot: Slot, native: Native)
    requires Tidy(displays, natives, handles, next, reported)
    requires slot !in displays && slot !in natives && native.session == next
    ensures Tidy(displays, natives[slot := native], handles, next + 1, reported)
  {
    hide ReportedOnce;
    ReportedGrows(displays, natives, next, reported, displays, natives[slot := native]);
  }

  lemma ReportedGrows(displays: Displays, natives: Natives, next: Session, reported: seq<Session>, more: Displays, others: Natives)
    requires ReportedOnce(displays, natives, next, reported)
    requires forall slot :: slot in more ==> (slot in displays && more[slot] == displays[slot]) || more[slot].session == next
    requires forall slot :: slot in others ==> (slot in natives && others[slot] == natives[slot]) || others[slot].session == next
    ensures ReportedOnce(more, others, next + 1, reported)
  {
  }

  lemma NewMapKeeps(displays: Displays, natives: Natives, handles: Handles, next: Session, reported: seq<Session>)
    requires Tidy(displays, natives, handles, next, reported)
    ensures Tidy(map[], AllCleared(natives), map script | script in handles :: {}, next, reported)
  {
  }

  lemma NewMapStays(natives: Natives)
    requires forall slot :: slot in natives && natives[slot].active ==> natives[slot].closing
    ensures ActiveStay(natives, AllCleared(natives))
  {
  }

  lemma GoneFromAll(before: Natives, after: Natives, slot: Slot)
    requires after - {slot} == before - {slot} && slot !in after
    ensures forall other :: other in after ==> other in before && after[other] == before[other]
  {
    OthersSame(before, after, slot);
  }

  lemma StayedThere(before: Natives, after: Natives)
    requires ActiveStay(before, after)
    ensures forall slot :: slot in before && before[slot].active ==> slot in after
  {
  }

  class Board {
    const leases: Leases
    const screens: Screens
    var displays: Displays
    var natives: Natives
    var handles: Handles
    var nextSession: Session
    ghost var reported: seq<Session>

    ghost predicate Valid()
      reads this, leases, leases.host, screens
    {
      && leases.Valid() && screens.Valid()
      && Tidy(displays, natives, handles, nextSession, reported)
      && SameService(natives, leases.menus)
      && Truthful(displays, natives, screens.live, screens.next, screens.shown)
    }

    constructor (leases: Leases, screens: Screens)
      requires leases.Valid() && leases.menus == map[] && screens.Valid() && screens.shown == map[]
      ensures Valid() && this.leases == leases && this.screens == screens && displays == map[] && natives == map[] && reported == []
    {
      this.leases, this.screens := leases, screens;
      displays, natives, handles, nextSession, reported := map[], map[], map[], 1, [];
    }

    /** Sessions, reports and failures only ever grow, and running callbacks keep their menus. */
    twostate predicate Onward()
      reads this, leases, leases.host, screens
    {
      && old(nextSession) <= nextSession && old(reported) <= reported && ActiveStay(old(natives), natives)
      && old(leases.host.refusals) <= leases.host.refusals && old(screens.broken) <= screens.broken
    }

    /** No screen failed, nobody was out of sight, and no lease was refused. */
    twostate predicate Smooth()
      reads this, leases, leases.host, screens
    {
      leases.host.refusals == old(leases.host.refusals) && screens.broken == old(screens.broken)
    }

    /** Nothing but the marks of extensions' menus changed. */
    twostate predicate Quiet()
      reads this
    {
      reported == old(reported) && displays == old(displays) && handles == old(handles) && nextSession == old(nextSession)
    }

    /** No menu changed, and no screen. */
    twostate predicate Unchanged()
      reads this, screens
    {
      Quiet() && natives == old(natives) && screens.shown == old(screens.shown) && screens.SamePlayers()
    }

    /** The connection the menu is for is still in its slot. */
    predicate Watched(slot: Slot, connection: Connection)
      reads screens
    {
      Watching(screens.live, slot, connection)
    }

    // ----- an extension's menu ---------------------------------------------------------------

    /** Changes the marks of an extension's menu; a cleared one is on no screen. */
    method Mark(slot: Slot, native: Native)
      requires Valid() && slot in natives
      requires native.session == natives[slot].session && native.service == natives[slot].service
      requires native.connection == natives[slot].connection && (native.callback ==> natives[slot].callback)
      requires native.cleared || native.active ==> native.closing
      requires native.cleared == natives[slot].cleared || (native.cleared && !Watched(slot, native.connection))
      modifies this`natives
      ensures Valid() && natives == old(natives)[slot := native]
    {
      hide Tidy, Sound, Named, Truthful;
      FlagsKeep(displays, natives, handles, nextSession, reported, slot, native);
      TruthOfMarks(displays, natives, screens.live, screens.next, screens.shown, slot, native);
      natives := natives[slot := native];
    }

    /** Clears the screen of a connection, unless it has gone. */
    method TakeOff(slot: Slot, connection: Connection) returns (off: bool, watched: bool)
      requires screens.Valid()
      modifies screens`shown, screens`broken
      ensures screens.Valid()
      ensures off ==> (watched <==> Watched(slot, connection))
      ensures screens.shown == if off && Watched(slot, connection) then old(screens.shown) - {slot} else old(screens.shown)
      ensures screens.broken == old(screens.broken) + if off then 0 else 1
    {
      var sight := screens.Lookup(slot);
      if sight.Gone? || (sight.Here? && sight.connection != connection) { return true, false; }
      if sight.Unknown? { return false, true; }
      off := screens.Clear(slot);
      watched := true;
    }

    /** Takes an extension's menu off the screen, if it is still there; tells whether to report a selection. */
    method ClearNative(slot: Slot, selected: bool, permitted: bool) returns (cleared: bool, report: bool)
      requires Valid() && slot in natives && !natives[slot].active
      modifies this`natives, screens`shown, screens`broken
      ensures Valid() && slot in natives
      ensures natives == old(natives)[slot := old(natives)[slot].(closing := true, cleared := cleared)]
      ensures cleared ==> (report <==> selected && (old(natives)[slot].cleared || (permitted && Watched(slot, natives[slot].connection))))
      ensures screens.broken == old(screens.broken) + if cleared then 0 else 1
      ensures old(natives)[slot].cleared ==> cleared && screens.shown == old(screens.shown)
      ensures forall other :: other != slot ==> Screen(screens.shown, other) == Screen(old(screens.shown), other)
    {
      hide Tidy, Sound, Named, Truthful;
      var native := natives[slot].(closing := true);
      Mark(slot, native);
      if native.cleared { return true, selected; }
      var watched;
      cleared, watched := Erase(slot);
      return cleared, selected && watched && permitted;
    }

    /** The screen of a closing menu is cleared, unless its player has gone. */
    method Erase(slot: Slot) returns (cleared: bool, watched: bool)
      requires Valid() && slot in natives && natives[slot].closing && !natives[slot].cleared
      modifies this`natives, screens`shown, screens`broken
      ensures Valid() && natives == old(natives)[slot := old(natives)[slot].(cleared := cleared)]
      ensures cleared ==> (watched <==> Watched(slot, old(natives)[slot].connection))
      ensures screens.broken == old(screens.broken) + if cleared then 0 else 1
      ensures forall other :: other != slot ==> Screen(screens.shown, other) == Screen(old(screens.shown), other)
    {
      hide Tidy, Sound, Named, Truthful;
      var native := natives[slot].(closing := true, cleared := true);
      FlagsKeep(displays, natives, handles, nextSession, reported, slot, native);
      NoDisplay(displays, natives, handles, nextSession, reported, slot);
      if Watched(slot, native.connection) {
        TruthOfClearing(displays, natives, screens.live, screens.next, screens.shown, slot);
      } else {
        TruthOfMarks(displays, natives, screens.live, screens.next, screens.shown, slot, native);
      }
      cleared, watched := TakeOff(slot, native.connection);
      if cleared { natives := natives[slot := native]; }
    }

    /** The selection of the menu is to be reported: its player is still there and may use it. */
    predicate Reportable(slot: Slot, permitted: bool)
      reads this, screens
    {
      && slot in natives && !natives[slot].active && natives[slot].callback
      && (natives[slot].cleared || (permitted && Watched(slot, natives[slot].connection)))
    }

    /** Takes an extension's menu away; a selection is reported first, and once. */
    method CloseNative(slot: Slot, selected: bool, permitted: bool, nested: seq<Act>) returns (closed: bool)
      requires Valid()
      modifies this, leases`menus, leases.host, screens
      ensures Valid() && Onward()
      ensures closed ==> slot !in natives
      ensures slot in old(natives) && old(natives)[slot].active ==> !closed && Unchanged()
      ensures !closed && !(slot in old(natives) && old(natives)[slot].active) ==>
                slot in old(natives) && slot in natives && natives[slot].closing && natives[slot].session == old(natives)[slot].session
      ensures !selected ==> Quiet() && natives - {slot} == old(natives) - {slot} && natives.Keys <= old(natives).Keys && screens.SamePlayers()
      ensures reported == old(reported) || (selected && old(Reportable(slot, permitted)) && Reported(old(natives)[slot].session))
      ensures Smooth() && !(slot in old(natives) && old(natives)[slot].active) ==> closed
      ensures Smooth() && selected && old(Reportable(slot, permitted)) ==> Reported(old(natives)[slot].session)
      ensures slot !in old(natives) ==> closed && Unchanged()
      ensures !selected && slot in old(natives) && old(natives)[slot].cleared ==>
                screens.broken == old(screens.broken) && screens.shown == old(screens.shown)
      ensures !selected && !closed && !old(natives)[slot].active ==>
                && natives == old(natives)[slot := old(natives)[slot].(closing := true, cleared := natives[slot].cleared)]
                && (old(natives)[slot].cleared ==> natives[slot].cleared)
      ensures !selected ==> !closed || Smooth()
      decreases Weight(nested), 5
    {
      hide Tidy, Sound, Named, ActiveStay, Truthful;
      ghost var before := natives;
      ActiveStayAlways(natives);
      if slot !in natives { return true; }
      if natives[slot].active { return false; }
      var cleared, report := ClearNative(slot, selected, permitted);
      IdleChangeStays(before, natives, slot);
      if !cleared { return false; }
      ghost var middle := natives;
      ActiveStayAlways(middle);
      if report && natives[slot].callback { ReportNative(slot, nested); }
      ActiveStayOnward(before, middle, natives);
      middle := natives;
      closed := Retire(slot);
      IdleChangeStays(middle, natives, slot);
      ActiveStayOnward(before, middle, natives);
    }

    /** Gives the lease of a cleared menu back and forgets the menu. */
    method Retire(slot: Slot) returns (done: bool)
      requires Valid() && slot in natives && natives[slot].cleared
      modifies this`natives, leases`menus, leases.host
      ensures Valid() && natives == if done then old(natives) - {slot} else old(natives)
      ensures leases.host.refusals >= old(leases.host.refusals) && (done <==> leases.host.refusals == old(leases.host.refusals))
    {
      hide Tidy, Sound, Named, Truthful;
      NativeGoneKeeps(displays, natives, handles, nextSession, reported, slot);
      TruthWithoutNative(displays, natives, screens.live, screens.next, screens.shown, slot);
      done := leases.DropForMenu(slot);
      if done { natives := natives - {slot}; }
    }

    /** Runs the selection callback of an extension's menu. */
    method ReportNative(slot: Slot, nested: seq<Act>)
      requires Valid() && slot in natives && natives[slot].callback && !natives[slot].active && natives[slot].closing && natives[slot].cleared
      modifies this, leases`menus, leases.host, screens
      ensures Valid() && Onward()
      ensures Reported(old(natives)[slot].session)
      ensures slot in natives && natives[slot] == old(natives)[slot].(callback := false)
      decreases Weight(nested), 4
    {
      hide Tidy, Sound, Named, ActiveStay, Truthful;
      ghost var before := natives;
      var native := natives[slot].(callback := false, active := true);
      ReportKeeps(displays, natives, handles, nextSession, reported, slot, native);
      TruthOfMarks(displays, natives, screens.live, screens.next, screens.shown, slot, native);
      natives := natives[slot := native];
      reported := reported + [native.session];
      ghost var running := natives;
      Perform(nested);
      StillThere(running, natives, slot);
      ghost var done := natives;
      Mark(slot, natives[slot].(active := false));
      ReportStays(before, running, done, natives, slot);
    }

    // ----- a script's menu ------------------------------------------------------------------

    /** Empties a player's screen of either kind of menu. */
    method CloseSlot(slot: Slot) returns (closed: bool)
      requires Valid()
      modifies this, leases`menus, leases.host, screens
      ensures Valid() && Onward() && reported == old(reported) && nextSession == old(nextSession) && screens.SamePlayers()
      ensures closed ==> slot !in natives && displays == old(displays) - {slot}
      ensures !closed ==> displays == old(displays) && (slot in old(displays) || slot in natives)
      ensures handles == if closed && slot in old(displays)
                         then WithoutHandle(old(handles), old(displays)[slot].script, old(displays)[slot].menu) else old(handles)
      ensures natives - {slot} == old(natives) - {slot} && natives.Keys <= old(natives).Keys
      ensures closed <==> Smooth() && !(slot in old(natives) && old(natives)[slot].active)
      ensures slot !in old(natives) ==> natives == old(natives) && leases.host.refusals == old(leases.host.refusals)
      ensures slot !in old(natives) && !closed ==> Unchanged()
      decreases 0, 6
    {
      hide Tidy, Sound, Named, Truthful;
      var cleared := CloseNative(slot, false, false, []);
      if !cleared { return false; }
      if slot !in displays { return true; }
      TruthWithoutDisplay(displays, natives, screens.live, screens.next, screens.shown, slot, Watched(slot, displays[slot].connection));
      var off, watched := TakeOff(slot, displays[slot].connection);
      if !off { return false; }
      RetireDisplay(slot);
      return true;
    }

    /** A script's menu that is on no screen any more goes, and its handle goes with it. */
    method RetireDisplay(slot: Slot)
      requires leases.Valid() && screens.Valid() && SameService(natives, leases.menus)
      requires Tidy(displays, natives, handles, nextSession, reported) && slot in displays
      requires Truthful(displays - {slot}, natives, screens.live, screens.next, screens.shown)
      modifies this`displays, this`handles
      ensures Valid() && displays == old(displays) - {slot}
      ensures handles == WithoutHandle(old(handles), old(displays)[slot].script, old(displays)[slot].menu)
    {
      hide Tidy, Sound, Named, Truthful;
      DisplayGoneKeeps(displays, natives, handles, nextSession, reported, slot);
      handles := WithoutHandle(handles, displays[slot].script, displays[slot].menu);
      displays := displays - {slot};
    }

    method IsShown(script: Script, menu: Handle) returns (shown: bool)
      ensures shown <==> exists slot :: slot in displays && displays[slot].script == script && displays[slot].menu == menu
    {
      shown := exists slot :: slot in displays && displays[slot].script == script && displays[slot].menu == menu;
    }

    /** The script has the menu, and it is not on a screen. */
    predicate MayShow(script: Script, menu: Handle)
      reads this
    {
      && script in handles && menu in handles[script]
      && forall other :: other in displays ==> !(displays[other].script == script && displays[other].menu == menu)
    }

    /** No callback of the menu in the slot is running. */
    predicate Idle(slot: Slot)
      reads this
    {
      slot in natives ==> !natives[slot].active
    }

    /** Shows a script's menu in place of whatever was there. */
    method Show(script: Script, menu: Handle, player: Player, allowed: bool) returns (shown: bool)
      requires Valid()
      modifies this, leases`menus, leases.host, screens
      ensures Valid() && Onward() && reported == old(reported) && screens.SamePlayers()
      ensures shown ==>
                && displays == old(displays)[player.slot := Display(old(nextSession), player.connection, script, menu)]
                && natives == old(natives) - {player.slot} && nextSession == old(nextSession) + 1
      ensures !shown ==> nextSession == old(nextSession) && (displays == old(displays) || displays == old(displays) - {player.slot})
      ensures natives - {player.slot} == old(natives) - {player.slot}
      ensures !old(MayShow(script, menu)) || !allowed || !old(screens.Present(player)) ==> !shown && Unchanged()
      ensures Smooth() && allowed && old(MayShow(script, menu) && screens.Present(player) && Idle(player.slot) && nextSession < LastId) ==> shown
      decreases 0, 8
    {
      hide Tidy, Sound, Named, Truthful;
      ActiveStayAlways(natives);
      if script !in handles || menu !in handles[script] { return false; }
      var sight := screens.Lookup(player.slot);
      if sight != Here(player.connection) || !allowed { return false; }
      var already := IsShown(script, menu);
      if already { return false; }
      var closed := CloseSlot(player.slot);
      if !closed || nextSession >= LastId { return false; }
      shown := Put(script, menu, player);
    }

    /** Draws a menu of a script on an empty screen. */
    method Put(script: Script, menu: Handle, player: Player) returns (shown: bool)
      requires Valid() && MayShow(script, menu) && screens.Present(player)
      requires player.slot !in displays && player.slot !in natives
      modifies this`displays, this`nextSession, screens`shown, screens`broken
      ensures Valid() && screens.broken == old(screens.broken) + if shown then 0 else 1
      ensures if shown then displays == old(displays)[player.slot := Display(old(nextSession), player.connection, script, menu)] &&
                            nextSession == old(nextSession) + 1
              else displays == old(displays) && nextSession == old(nextSession) && screens.shown == old(screens.shown)
    {
      hide Tidy, Sound, Named, Truthful;
      ghost var display := Display(nextSession, player.connection, script, menu);
      ShownKeeps(displays, natives, handles, nextSession, reported, player.slot, player.connection, script, menu);
      TruthOfDisplay(displays, natives, screens.live, screens.next, screens.shown, player.slot, display);
      shown := screens.Draw(player.slot, nextSession);
      if shown {
        displays := displays[player.slot := Display(nextSession, player.connection, script, menu)];
        nextSession := nextSession + 1;
      }
    }

    /** Closes a script's menu wherever it is shown, then its handle. */
    method CloseMenu(script: Script, menu: Handle) returns (closed: bool)
      requires Valid()
      modifies this, leases`menus, leases.host, screens
      ensures Valid() && Onward() && reported == old(reported) && nextSession == old(nextSession) && screens.SamePlayers()
      ensures closed ==> handles == WithoutHandle(old(handles), script, menu) && Smooth()
      ensures old(script !in handles || menu !in handles[script]) ==> !closed && Unchanged()
      ensures Smooth() && old(script in handles && menu in handles[script]) ==> closed
      ensures natives == old(natives) && displays.Keys <= old(displays).Keys
      ensures forall slot :: slot in old(displays) && !(old(displays)[slot].script == script && old(displays)[slot].menu == menu) ==>
                slot in displays && displays[slot] == old(displays)[slot]
      decreases 0, 8
    {
      hide Tidy, Sound, Named, Truthful;
      ActiveStayAlways(natives);
      if script !in handles || menu !in handles[script] { return false; }
      var rest := displays.Keys;
      while rest != {}
        invariant Valid() && Onward() && reported == old(reported) && nextSession == old(nextSession) && screens.SamePlayers()
        invariant displays.Keys <= old(displays).Keys && natives == old(natives) && Smooth()
        invariant WithoutHandle(handles, script, menu) == WithoutHandle(old(handles), script, menu)
        invariant forall slot :: slot in displays && slot !in rest ==> !(displays[slot].script == script && displays[slot].menu == menu)
        invariant forall slot :: slot in old(displays) && !(old(displays)[slot].script == script && old(displays)[slot].menu == menu) ==>
                    slot in displays && displays[slot] == old(displays)[slot]
        decreases rest
      {
        var slot :| slot in rest;
        if slot in displays && displays[slot].script == script && displays[slot].menu == menu {
          OwnSession(displays, natives, handles, nextSession, reported, slot);
          TakenTwice(handles, script, menu);
          var gone := CloseSlot(slot);
          if !gone { return false; }
        }
        rest := rest - {slot};
      }
      HandleGoneKeeps(displays, natives, handles, nextSession, reported, script, menu);
      handles := WithoutHandle(handles, script, menu);
      return true;
    }

    method Create(script: Script, menu: Handle)
      requires Valid()
      modifies this`handles
      ensures Valid() && script in handles && menu in handles[script]
      ensures handles == old(handles)[script := (if script in old(handles) then old(handles)[script] else {}) + {menu}]
    {
      hide Tidy, Sound, Named, Truthful;
      HandlesGrowKeeps(displays, natives, handles,
                       handles[script := (if script in handles then handles[script] else {}) + {menu}], nextSession, reported);
      handles := handles[script := (if script in handles then handles[script] else {}) + {menu}];
    }

    // ----- opening for an extension -----------------------------------------------------------

    /** Shows an extension's menu; zero when nothing is left of it. */
    method OpenNative(extension: nat, player: Player, service: Service, allowed: bool) returns (session: Session)
      requires Valid()
      modifies this, leases`menus, leases.host, screens
      ensures Valid() && Onward() && reported == old(reported) && screens.SamePlayers()
      ensures session != 0 ==>
                && player.slot in natives && session == old(nextSession) && nextSession == session + 1
                && natives[player.slot].session == session && natives[player.slot].connection == player.connection
                && natives[player.slot].service == service && natives[player.slot].extension == extension
                && (natives[player.slot].cleared <==> screens.broken > old(screens.broken))
                && (natives[player.slot].cleared ==> leases.host.refusals > old(leases.host.refusals))
      ensures session == 0 && 0 < old(nextSession) && player.slot in natives ==> natives[player.slot].session < old(nextSession)
      ensures natives - {player.slot} == old(natives) - {player.slot}
      ensures displays == old(displays) || displays == old(displays) - {player.slot}
      ensures !allowed || !old(screens.Present(player)) || old(nextSession) >= LastId ==> session == 0 && Unchanged()
      ensures Smooth() && 0 < old(nextSession) < LastId && allowed && old(screens.Present(player)) && old(Idle(player.slot)) ==>
                session != 0 && natives[player.slot] == Native(session, player.connection, extension, service, true, false, false, false)
      decreases 0, 8
    {
      hide Tidy, Sound, Named, ActiveStay, Truthful, SameService, WithoutHandle, Watching, Screen;
      ghost var before := natives;
      ActiveStayAlways(natives);
      OldSessions(displays, natives, handles, nextSession, reported);
      var sight := screens.Lookup(player.slot);
      if sight != Here(player.connection) || !allowed { return 0; }
      if nextSession >= LastId { return 0; }
      var closed := CloseSlot(player.slot);
      OldSessions(displays, natives, handles, nextSession, reported);
      if !closed { return 0; }
      ghost var middle := natives;
      session := OpenHere(extension, player, service);
      ActiveStayOnward(before, middle, natives);
    }

    /** Shows an extension's menu on an empty screen. */
    method OpenHere(extension: nat, player: Player, service: Service) returns (session: Session)
      requires Valid() && screens.Present(player) && player.slot !in displays && player.slot !in natives && nextSession < LastId
      modifies this, leases`menus, leases.host, screens
      ensures Valid() && Onward() && reported == old(reported) && displays == old(displays) && handles == old(handles)
      ensures screens.SamePlayers() && nextSession == old(nextSession) + 1
      ensures session != 0 ==>
                && session == old(nextSession) && player.slot in natives
                && natives[player.slot] == Native(session, player.connection, extension, service, true, false,
                                                  natives[player.slot].closing, natives[player.slot].cleared)
                && (natives[player.slot].closing <==> screens.broken > old(screens.broken))
                && (natives[player.slot].cleared <==> screens.broken > old(screens.broken))
                && (natives[player.slot].cleared ==> leases.host.refusals > old(leases.host.refusals))
      ensures session == 0 && 0 < old(nextSession) ==> player.slot !in natives && !Smooth()
      ensures natives - {player.slot} == old(natives)
      decreases 0, 7
    {
      hide Tidy, Sound, Named, ActiveStay, Truthful;
      ghost var before := natives;
      session := nextSession;
      var drawn, entered := Enter(extension, player, service);
      IdleChangeStays(before, natives, player.slot);
      if !entered { return 0; }
      if drawn { return; }
      ghost var middle := natives;
      var gone := CloseNative(player.slot, false, false, []);
      IdleChangeStays(before, natives, player.slot);
      if gone { session := 0; }
    }

    /** Spends a session on an extension's menu and draws it; one that could not be drawn is marked as cleared. */
    method Enter(extension: nat, player: Player, service: Service) returns (drawn: bool, entered: bool)
      requires Valid() && screens.Present(player) && player.slot !in displays && player.slot !in natives
      modifies this`natives, this`nextSession, leases`menus, leases.host, screens`shown, screens`broken
      ensures Valid() && nextSession == old(nextSession) + 1
      ensures screens.broken == old(screens.broken) + if entered && !drawn then 1 else 0
      ensures leases.host.refusals >= old(leases.host.refusals) && (entered <==> leases.host.refusals == old(leases.host.refusals))
      ensures natives == if entered
                         then old(natives)[player.slot :=
                           Native(old(nextSession), player.connection, extension, service, true, false, !drawn, !drawn)]
                         else old(natives)
    {
      hide Tidy, Sound, Named, Truthful;
      var native := Native(nextSession, player.connection, extension, service, true, false, false, false);
      OpenedKeeps(displays, natives, handles, nextSession, reported, player.slot, native);
      OpenedKeeps(displays, natives, handles, nextSession, reported, player.slot, native.(closing := true, cleared := true));
      SpentKeeps(displays, natives, handles, nextSession, reported);
      TruthOfNative(displays, natives, screens.live, screens.next, screens.shown, player.slot, native);
      TruthOfNative(displays, natives, screens.live, screens.next, screens.shown, player.slot, native.(closing := true, cleared := true));
      nextSession := nextSession + 1;
      entered := leases.ClaimForMenu(player.slot, service);
      drawn := false;
      if !entered { return; }
      drawn := screens.Draw(player.slot, native.session);
      natives := natives[player.slot := native.(closing := !drawn, cleared := !drawn)];
    }

    /** A menu whose player or map has gone closes without a word. */
    method Abandon(slot: Slot) returns (closed: bool)
      requires Valid() && slot in natives && (natives[slot].cleared || !Watched(slot, natives[slot].connection))
      modifies this, leases`menus, leases.host, screens
      ensures Valid() && Onward() && Quiet() && screens.SamePlayers() && screens.broken == old(screens.broken)
      ensures screens.shown == old(screens.shown)
      ensures natives - {slot} == old(natives) - {slot} && natives.Keys <= old(natives).Keys
      ensures closed <==> slot !in natives
      ensures closed <==> !old(natives)[slot].active && leases.host.refusals == old(leases.host.refusals)
      ensures !closed ==> natives == old(natives)[slot := old(natives)[slot].(closing := true, cleared := true)]
      decreases 0, 6
    {
      hide Tidy, Sound, Named, ActiveStay, Truthful;
      ghost var before := natives;
      ActiveCloses(displays, natives, screens.live, screens.next, screens.shown, slot);
      Mark(slot, natives[slot].(closing := true, cleared := true));
      ghost var middle := natives;
      closed := CloseNative(slot, false, false, []);
      ClearedStays(before, middle, slot);
      ActiveStayOnward(before, middle, natives);
    }

    /** The extension has a menu with the session, and its callback does not run. */
    predicate Closable(extension: nat, session: Session)
      reads this
    {
      exists slot :: slot in natives && natives[slot].session == session && natives[slot].extension == extension && !natives[slot].active
    }

    method CloseNativeMenu(extension: nat, session: Session) returns (closed: bool)
      requires Valid()
      modifies this, leases`menus, leases.host, screens
      ensures Valid() && Onward() && Quiet() && screens.SamePlayers()
      ensures closed ==> exists slot :: slot in old(natives) && old(natives)[slot].session == session &&
                                        old(natives)[slot].extension == extension && natives == old(natives) - {slot}
      ensures closed <==> Smooth() && old(Closable(extension, session))
      ensures (forall slot :: slot in old(natives) && old(natives)[slot].session == session ==> old(natives)[slot].extension != extension) ==>
                !closed && Unchanged()
      decreases 0, 8
    {
      hide Tidy, Sound, Named, Truthful, ActiveStay;
      ActiveStayAlways(natives);
      OneSession(displays, natives, handles, nextSession, reported);
      var found := exists slot :: slot in natives && natives[slot].session == session;
      if !found { return false; }
      var slot :| slot in natives && natives[slot].session == session;
      if natives[slot].extension != extension { return false; }
      ghost var before := natives;
      closed := CloseNative(slot, false, false, []);
      if closed { assert natives == natives - {slot} == before - {slot}; }
    }

    // ----- input ------------------------------------------------------------------------------

    /** The menu of the slot takes keys of the session from this connection. */
    predicate Answers(player: Player, session: Session)
      reads this
    {
      if player.slot in natives then
        var native := natives[player.slot];
        native.session == session && native.connection == player.connection && !native.active && !native.closing
      else
        player.slot in displays && displays[player.slot].session == session && displays[player.slot].connection == player.connection
    }

    /** The session is the next one reported. */
    twostate predicate Reported(session: Session)
      reads this
    {
      |reported| > |old(reported)| && reported[|old(reported)|] == session
    }

    /** A key of a player: it may close the menu and run a callback, inside which more may happen. */
    method Input(player: Player, session: Session, choice: Choice, refused: bool, nested: seq<Act>) returns (taken: bool)
      requires Valid() && screens.Present(player)
      modifies this, leases`menus, leases.host, screens
      ensures Valid() && Onward()
      ensures !old(Answers(player, session)) ==> !taken && Unchanged()
      ensures old(Answers(player, session)) ==>
                if player.slot in old(natives) then NativeAnswered(player.slot, choice, refused, taken)
                else ScriptAnswered(player.slot, choice, refused, taken)
      decreases Weight(nested), 9
    {
      hide Tidy, Sound, Named, ActiveStay, Truthful;
      ActiveStayAlways(natives);
      if player.slot in natives {
        taken := NativeInput(player, session, choice, refused, nested);
        return;
      }
      if player.slot !in displays || displays[player.slot].session != session || displays[player.slot].connection != player.connection {
        return false;
      }
      taken := ScriptInput(player, choice, refused, nested);
    }

    /**
      * A refused key closes the menu. A selection or the way back closes it and reports its session, unless
      * the screen cannot be cleared; a cancellation closes it without a word; another key leaves the menu as
      * it is, and is taken when the menu is drawn anew. A menu that cannot be drawn is closed.
      */
    twostate predicate ScriptAnswered(slot: Slot, choice: Choice, refused: bool, taken: bool)
      requires slot in old(displays)
      reads this, leases, leases.host, screens
    {
      if refused then !taken && reported == old(reported) && (Smooth() ==> slot !in displays)
      else match choice
        case Back => if taken then Reported(old(displays)[slot].session) else KeptOpen(slot)
        case Select => if taken then Reported(old(displays)[slot].session) else KeptOpen(slot)
        case Cancel => reported == old(reported) && if taken then displays == old(displays) - {slot} else KeptOpen(slot)
        case Change => reported == old(reported) && if taken then Unchanged() else screens.broken > old(screens.broken)
        case Ignore => !taken && Unchanged()
    }

    /** The screen could not be cleared, and everything is as before. */
    twostate predicate KeptOpen(slot: Slot)
      reads this, screens
    {
      Unchanged() && screens.broken > old(screens.broken)
    }

    /** The same for a menu of an extension, whose report needs its player there and permission still given. */
    twostate predicate NativeAnswered(slot: Slot, choice: Choice, refused: bool, taken: bool)
      requires slot in old(natives)
      reads this, leases, leases.host, screens
    {
      if refused then !taken && reported == old(reported) && (Smooth() ==> slot !in natives)
      else match choice
        case Select =>
          && (taken ==> slot !in natives)
          && (Smooth() ==> taken && (old(natives)[slot].callback ==> Reported(old(natives)[slot].session)))
          && (reported == old(reported) || (old(natives)[slot].callback && Reported(old(natives)[slot].session)))
        case Cancel => Quiet() && (taken <==> slot !in natives) && (Smooth() <==> taken)
        case Change => Quiet() && if taken then Unchanged() else screens.broken > old(screens.broken)
        case _ => !taken && Unchanged()
    }

    method ScriptInput(player: Player, choice: Choice, refused: bool, nested: seq<Act>) returns (taken: bool)
      requires Valid() && screens.Present(player) && player.slot in displays && displays[player.slot].connection == player.connection
      modifies this, leases`menus, leases.host, screens
      ensures Valid() && Onward()
      ensures ScriptAnswered(player.slot, choice, refused, taken)
      decreases Weight(nested), 8
    {
      hide Tidy, Sound, Named, ActiveStay, Truthful;
      ActiveStayAlways(natives);
      OwnSession(displays, natives, handles, nextSession, reported, player.slot);
      if refused {
        var closed := CloseSlot(player.slot);
        return false;
      }
      match choice
      case Back => taken := CloseAndReport(player.slot, nested);
      case Select => taken := CloseAndReport(player.slot, nested);
      case Cancel => taken := CloseSlot(player.slot);
      case Change =>
        taken := Redraw(player.slot, displays[player.slot].session);
        if !taken { var closed := CloseSlot(player.slot); }
      case Ignore => return false;
    }

    /** Draws the menu of the slot again. */
    method Redraw(slot: Slot, session: Session) returns (drawn: bool)
      requires Valid() && slot in screens.live && Wanted(displays, natives, slot, screens.live[slot]) == Menu(session)
      modifies screens`shown, screens`broken
      ensures Valid() && screens.shown == old(screens.shown)
      ensures screens.broken == old(screens.broken) + if drawn then 0 else 1
    {
      hide Tidy, Sound, Named, Truthful;
      TruthOfRedrawing(displays, natives, screens.live, screens.next, screens.shown, slot);
      drawn := screens.Draw(slot, session);
    }

    /** Closes a script's menu and runs the callback its choice asked for. */
    method CloseAndReport(slot: Slot, nested: seq<Act>) returns (taken: bool)
      requires Valid() && slot in displays
      modifies this, leases`menus, leases.host, screens
      ensures Valid() && Onward()
      ensures if taken then Reported(old(displays)[slot].session) else KeptOpen(slot)
      decreases Weight(nested), 7
    {
      hide Tidy, Sound, Named, ActiveStay, Truthful;
      ghost var before, activeBefore := displays, natives;
      var session := displays[slot].session;
      OwnSession(displays, natives, handles, nextSession, reported, slot);
      var closed := CloseSlot(slot);
      if !closed { return false; }
      Unshown(before, activeBefore, displays, natives, slot);
      SelectionKeeps(displays, natives, handles, nextSession, reported, session);
      reported := reported + [session];
      ghost var middle := natives;
      Perform(nested);
      ActiveStayOnward(activeBefore, middle, natives);
      return true;
    }

    method NativeInput(player: Player, session: Session, choice: Choice, refused: bool, nested: seq<Act>) returns (taken: bool)
      requires Valid() && screens.Present(player) && player.slot in natives
      modifies this, leases`menus, leases.host, screens
      ensures Valid() && Onward()
      ensures !old(Answers(player, session)) ==> !taken && Unchanged()
      ensures old(Answers(player, session)) ==> NativeAnswered(player.slot, choice, refused, taken)
      decreases Weight(nested), 8
    {
      hide Tidy, Sound, Named, ActiveStay, Truthful;
      ActiveStayAlways(natives);
      var native := natives[player.slot];
      if native.session != session || native.connection != player.connection || native.active || native.closing { return false; }
      var sight := screens.Lookup(player.slot);
      if sight.Unknown? { return false; }
      if sight != Here(native.connection) || refused {
        var closed := CloseNative(player.slot, false, false, []);
        return false;
      }
      match choice
      case Cancel => taken := CloseNative(player.slot, false, false, []);
      case Select => taken := CloseNative(player.slot, true, true, nested);
      case Change =>
        ActiveCloses(displays, natives, screens.live, screens.next, screens.shown, player.slot);
        NoDisplay(displays, natives, handles, nextSession, reported, player.slot);
        taken := Redraw(player.slot, session);
        if !taken { var closed := CloseNative(player.slot, false, false, []); }
      case _ => return false;
    }

    // ----- upkeep --------------------------------------------------------------------------------

    /** Closes what expired or is closing already, what its player may not use any more, and what cannot be drawn again. */
    method Tick(due: set<Slot>, denied: set<Slot>)
      requires Valid()
      modifies this, leases`menus, leases.host, screens
      ensures Valid() && Onward() && reported == old(reported) && nextSession == old(nextSession) && screens.SamePlayers()
      ensures Smooth() ==> forall slot :: slot in displays <==>
                slot in old(displays) && slot !in due + denied && Watched(slot, old(displays)[slot].connection)
      ensures forall slot :: slot in displays ==> slot in old(displays) && displays[slot] == old(displays)[slot]
      ensures Smooth() ==> forall slot :: slot in natives <==>
                slot in old(natives) && (old(natives)[slot].active || old(Lasting(slot, due + denied)))
      ensures Smooth() ==> forall slot :: slot in natives ==> natives[slot] == old(natives)[slot]
      decreases 0, 9
    {
      hide Tidy, Sound, Named, ActiveStay, Truthful;
      TickNatives(due, denied);
      ghost var left, refusals, broken := natives, leases.host.refusals, screens.broken;
      var rest := displays.Keys;
      while rest != {}
        invariant refusals <= leases.host.refusals && broken <= screens.broken
        invariant natives == left && rest <= old(displays).Keys
        invariant Valid() && Onward() && reported == old(reported) && nextSession == old(nextSession) && screens.SamePlayers()
        invariant forall slot :: slot in displays ==> slot in old(displays) && displays[slot] == old(displays)[slot]
        invariant rest <= displays.Keys
        invariant Smooth() ==> forall slot :: slot in displays <==>
                    slot in rest || (slot in old(displays) && slot !in due + denied && Watched(slot, old(displays)[slot].connection))
        decreases rest
      {
        var slot :| slot in rest;
        OwnSession(displays, natives, handles, nextSession, reported, slot);
        TickDisplay(slot, slot in due, slot in denied);
        rest := rest - {slot};
      }
    }

    method TickDisplay(slot: Slot, due: bool, denied: bool)
      requires Valid() && slot in displays && slot !in natives
      modifies this, leases`menus, leases.host, screens
      ensures Valid() && Onward() && screens.SamePlayers() && leases.host.refusals == old(leases.host.refusals)
      ensures natives == old(natives) && reported == old(reported) && nextSession == old(nextSession)
      ensures displays == old(displays) || displays == old(displays) - {slot}
      ensures screens.broken == old(screens.broken) ==>
                (slot in displays <==> !due && !denied && Watched(slot, old(displays)[slot].connection))
      decreases 0, 7
    {
      hide Tidy, Sound, Named, Truthful, ActiveStay;
      ActiveStayAlways(natives);
      if due {
        var closed := CloseSlot(slot);
        return;
      }
      var connection, session := displays[slot].connection, displays[slot].session;
      var sight := screens.Lookup(slot);
      if sight.Gone? || (sight.Here? && sight.connection != connection) {
        TruthWithoutDisplay(displays, natives, screens.live, screens.next, screens.shown, slot, false);
        RetireDisplay(slot);
        return;
      }
      if sight.Unknown? { return; }
      var drawn := false;
      if !denied { drawn := Redraw(slot, session); }
      if !drawn { var closed := CloseSlot(slot); }
    }

    /** The menu of the slot is neither due nor closing, and its player is there. */
    predicate Lasting(slot: Slot, due: set<Slot>)
      reads this, screens
    {
      slot in natives && slot !in due && !natives[slot].closing && Watched(slot, natives[slot].connection)
    }

    method TickNatives(due: set<Slot>, denied: set<Slot>)
      requires Valid()
      modifies this, leases`menus, leases.host, screens
      ensures Valid() && Onward() && Quiet() && natives.Keys <= old(natives).Keys && screens.SamePlayers()
      ensures Smooth() ==> forall slot :: slot in natives <==>
                slot in old(natives) && (old(natives)[slot].active || old(Lasting(slot, due + denied)))
      ensures Smooth() ==> forall slot :: slot in natives ==> natives[slot] == old(natives)[slot]
      decreases 0, 8
    {
      hide Tidy, Sound, Named, Truthful;
      var rest := natives.Keys;
      while rest != {}
        invariant Valid() && Onward() && Quiet() && natives.Keys <= old(natives).Keys && screens.SamePlayers()
        invariant rest <= natives.Keys
        invariant forall slot :: slot in rest ==> natives[slot] == old(natives)[slot]
        invariant Smooth() ==> forall slot :: slot in natives <==>
                    slot in rest || (slot in old(natives) && (old(natives)[slot].active || old(Lasting(slot, due + denied))))
        invariant Smooth() ==> forall slot :: slot in natives ==> natives[slot] == old(natives)[slot]
        decreases rest
      {
        var slot :| slot in rest;
        ghost var start := natives;
        TickNative(slot, slot in due, slot in denied);
        OthersSame(start, natives, slot);
        rest := rest - {slot};
      }
    }

    /** Closes one extension's menu if it is time, or if it must go. */
    method TickNative(slot: Slot, due: bool, denied: bool)
      requires Valid() && slot in natives
      modifies this, leases`menus, leases.host, screens
      ensures Valid() && Onward() && Quiet() && natives.Keys <= old(natives).Keys && screens.SamePlayers()
      ensures natives - {slot} == old(natives) - {slot}
      ensures slot in natives && Smooth() ==> natives == old(natives)
      ensures Smooth() ==>
                (slot in natives <==> old(natives)[slot].active || (!due && !denied && !old(natives)[slot].closing && Watched(slot, old(natives)[slot].connection)))
      decreases 0, 7
    {
      hide Tidy, Sound, Named, ActiveStay, Truthful;
      ActiveStayAlways(natives);
      var native := natives[slot];
      if native.active { return; }
      if native.closing || due {
        var closed := CloseNative(slot, false, false, []);
        return;
      }
      var sight := screens.Lookup(slot);
      if sight.Gone? || (sight.Here? && sight.connection != native.connection) {
        var closed := Abandon(slot);
        return;
      }
      if sight.Unknown? { return; }
      ActiveCloses(displays, natives, screens.live, screens.next, screens.shown, slot);
      NoDisplay(displays, natives, handles, nextSession, reported, slot);
      var drawn := false;
      if !denied { drawn := Redraw(slot, native.session); }
      if !drawn { var closed := CloseNative(slot, false, false, []); }
    }

    /**
      * A new map has emptied the screens: no script's menu survives; extensions' menus go as far as their
      * leases can be given back. Marking them all first is the same, since closing one reads no other.
      */
    method MapChanged()
      requires Valid()
      modifies this, leases`menus, leases.host, screens
      ensures Valid() && Onward() && reported == old(reported) && nextSession == old(nextSession) && displays == map[]
      ensures screens.shown == map[] && screens.SamePlayers()
      ensures handles == map script | script in old(handles) :: {}
      ensures forall slot :: slot in natives ==> slot in old(natives) && natives[slot].session == old(natives)[slot].session
      ensures forall slot :: slot in old(natives) && old(natives)[slot].active ==> slot in natives
      ensures leases.host.refusals == old(leases.host.refusals) ==> forall slot :: slot in natives ==> natives[slot].active
      decreases 0, 8
    {
      hide Tidy, Sound, Named, ActiveStay, Truthful;
      ghost var before := natives;
      EmptyScreens();
      ghost var middle := natives;
      var rest := natives.Keys;
      while rest != {}
        invariant Valid() && ActiveStay(before, natives) && old(leases.host.refusals) <= leases.host.refusals
        invariant reported == old(reported) && nextSession == old(nextSession) && displays == map[]
        invariant handles == map script | script in old(handles) :: {}
        invariant screens.shown == map[] && screens.SamePlayers()
        invariant natives.Keys <= before.Keys && rest <= natives.Keys
        invariant forall slot :: slot in natives ==> natives[slot] == middle[slot]
        invariant leases.host.refusals == old(leases.host.refusals) ==> forall slot :: slot in natives && slot !in rest ==> natives[slot].active
        decreases rest
      {
        var slot :| slot in rest;
        ghost var start := natives;
        var closed := Abandon(slot);
        OthersSame(start, natives, slot);
        ActiveStayOnward(before, start, natives);
        rest := rest - {slot};
      }
      StayedThere(before, natives);
    }

    /** The engine empties every screen, scripts lose their menus, and extensions' menus are marked. */
    method EmptyScreens()
      requires Valid()
      modifies this`displays, this`natives, this`handles, screens`shown
      ensures Valid() && displays == map[] && natives == AllCleared(old(natives)) && screens.shown == map[]
      ensures handles == map script | script in old(handles) :: {}
      ensures ActiveStay(old(natives), natives)
    {
      hide Tidy, Sound, Named, Truthful, ActiveStay;
      NewMapKeeps(displays, natives, handles, nextSession, reported);
      TruthOfNewMap(displays, natives, screens.live, screens.next, screens.shown);
      ActiveAllClose(displays, natives, screens.live, screens.next, screens.shown);
      NewMapStays(natives);
      screens.NewMap();
      handles := map script | script in handles :: {};
      displays := map[];
      natives := AllCleared(natives);
    }

    /** A player has left. */
    method Left(player: Player)
      requires Valid() && !screens.Present(player)
      modifies this, leases`menus, leases.host, screens
      ensures Valid() && Onward() && reported == old(reported) && nextSession == old(nextSession)
      ensures screens.shown == old(screens.shown) && screens.SamePlayers()
      ensures displays == if player.slot in old(displays) && old(displays)[player.slot].connection == player.connection
                          then old(displays) - {player.slot} else old(displays)
      ensures natives - {player.slot} == old(natives) - {player.slot}
      ensures player.slot in old(natives) && old(natives)[player.slot].connection == player.connection ==>
                (player.slot in natives <==> old(natives)[player.slot].active || leases.host.refusals > old(leases.host.refusals))
      ensures player.slot in old(natives) && old(natives)[player.slot].connection != player.connection ==> natives == old(natives)
      decreases 0, 8
    {
      hide Tidy, Sound, Named, ActiveStay, Truthful;
      ActiveStayAlways(natives);
      if player.slot in natives && natives[player.slot].connection == player.connection {
        var closed := Abandon(player.slot);
      }
      if player.slot in displays && displays[player.slot].connection == player.connection {
        NoNative(displays, natives, handles, nextSession, reported, player.slot);
        TruthWithoutDisplay(displays, natives, screens.live, screens.next, screens.shown, player.slot, false);
        RetireDisplay(player.slot);
      }
    }

    /** A player comes, and has an empty screen. */
    method PlayerJoins(slot: Slot)
      requires Valid()
      modifies screens
      ensures Valid() && screens.live == old(screens.live)[slot := old(screens.next)] && screens.broken == old(screens.broken)
    {
      hide Tidy, Sound, Named, Truthful;
      TruthOfPlayers(displays, natives, screens.live, screens.next, screens.shown, slot);
      screens.Join(slot);
    }

    method PlayerLeaves(player: Player)
      requires Valid()
      modifies screens
      ensures Valid() && !screens.Present(player) && screens.broken == old(screens.broken)
    {
      hide Tidy, Sound, Named, Truthful;
      TruthOfPlayers(displays, natives, screens.live, screens.next, screens.shown, player.slot);
      screens.Leave(player);
    }

    // ----- a script goes -------------------------------------------------------------------------

    /** Takes every menu of a script off the screens; tells whether none is left. */
    method CloseOwned(script: Script) returns (closed: bool)
      requires Valid()
      modifies this, leases`menus, leases.host, screens
      ensures Valid() && Onward() && reported == old(reported) && nextSession == old(nextSession) && screens.SamePlayers()
      ensures natives == old(natives) && leases.host.refusals == old(leases.host.refusals)
      ensures closed <==> forall slot :: slot in displays ==> displays[slot].script != script
      ensures forall slot :: slot in old(displays) && old(displays)[slot].script != script ==> slot in displays && displays[slot] == old(displays)[slot]
      ensures closed <==> screens.broken == old(screens.broken)
      decreases 0, 7
    {
      hide Tidy, Sound, Named, ActiveStay, Truthful;
      ActiveStayAlways(natives);
      closed := true;
      var rest := displays.Keys;
      while rest != {}
        invariant Valid() && reported == old(reported) && nextSession == old(nextSession) && screens.SamePlayers()
        invariant natives == old(natives) && leases.host.refusals == old(leases.host.refusals)
        invariant rest <= old(displays).Keys && displays.Keys <= old(displays).Keys
        invariant closed <==> forall slot :: slot in displays && slot !in rest ==> displays[slot].script != script
        invariant forall slot :: slot in old(displays) && old(displays)[slot].script != script ==> slot in displays && displays[slot] == old(displays)[slot]
        invariant closed <==> screens.broken == old(screens.broken)
        decreases rest
      {
        var slot :| slot in rest;
        if slot in displays && displays[slot].script == script {
          OwnSession(displays, natives, handles, nextSession, reported, slot);
          var gone := CloseSlot(slot);
          if slot in displays { closed := false; }
        }
        rest := rest - {slot};
      }
    }

    /** The handles of a script without menus on a screen go. */
    method RetireHandles(script: Script)
      requires Valid() && forall slot :: slot in displays ==> displays[slot].script != script
      modifies this`handles
      ensures Valid() && handles == old(handles) - {script}
    {
      hide Tidy, Sound, Named, Truthful;
      HandlesGone(displays, natives, handles, nextSession, reported, script);
      handles := handles - {script};
    }

    // ----- whole runs -------------------------------------------------------------------------------

    /** Any acts, one after the other, each with whatever its callback does: players see the menus of their slots, and no others. */
    method Perform(acts: seq<Act>)
      requires Valid()
      modifies this, leases`menus, leases.host, screens
      ensures Valid() && Onward()
      decreases Weight(acts), 3
    {
      hide Tidy, Sound, Named, ActiveStay, Truthful;
      ghost var before := natives;
      ActiveStayAlways(before);
      if acts == [] { return; }
      PerformOne(acts[0]);
      ghost var middle := natives;
      Perform(acts[1..]);
      ActiveStayOnward(before, middle, natives);
    }

    method PerformOne(act: Act)
      requires Valid()
      modifies this, leases`menus, leases.host, screens
      ensures Valid() && Onward()
      decreases if act.InputAct? then Weight(act.nested) else 0, 10
    {
      hide Tidy, Sound, Named, ActiveStay, Truthful, NativeAnswered, ScriptAnswered, Smooth, Unchanged;
      ActiveStayAlways(natives);
      match act
      case CreateAct(script, menu) => Create(script, menu);
      case ShowAct(script, menu, player, allowed) => var shown := Show(script, menu, player, allowed);
      case CloseMenuAct(script, menu) => var closed := CloseMenu(script, menu);
      case OpenNativeAct(extension, player, service, allowed) => var session := OpenNative(extension, player, service, allowed);
      case CloseNativeAct(extension, session) => var closed := CloseNativeMenu(extension, session);
      case InputAct(player, session, choice, refused, nested) =>
        if screens.Present(player) { var taken := Input(player, session, choice, refused, nested); }
      case TickAct(due, denied) => Tick(due, denied);
      case MapAct => MapChanged();
      case JoinAct(slot) => PlayerJoins(slot);
      case LeftAct(player) =>
        PlayerLeaves(player);
        Left(player);
    }
  }

  /** A session may be spent without a menu to show for it. */
  lemma SpentKeeps(displays: Displays, natives: Natives, handles: Handles, next: Session, reported: seq<Session>)
    requires Tidy(displays, natives, handles, next, reported)
    ensures Tidy(displays, natives, handles, next + 1, reported)
  {
  }

  lemma HandlesGone(displays: Displays, natives: Natives, handles: Handles, next: Session, reported: seq<Session>, script: Script)
    requires Tidy(displays, natives, handles, next, reported)
    requires forall slot :: slot in displays ==> displays[slot].script != script
    ensures Tidy(displays, natives, handles - {script}, next, reported)
  {
  }
}
