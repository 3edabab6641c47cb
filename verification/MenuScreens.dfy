/** What players see of menus: who is connected, and what was drawn for whom. */
module MenuScreens {
  import opened ServiceLeases

  type Slot = nat
  type Session = nat
  type Handle = nat
  type Connection = nat

  datatype Player = Player(slot: Slot, connection: Connection)

  /** A script's menu on a player's screen. */
  datatype Display = Display(session: Session, connection: Connection, script: Script, menu: Handle)

  /** An extension's menu; `callback` says that its selection has not been reported yet. */
  datatype Native = Native(session: Session, connection: Connection, extension: nat, service: Service, callback: bool,
                           active: bool, closing: bool, cleared: bool)

  type Displays = map<Slot, Display>
  type Natives = map<Slot, Native>
  type Shown = map<Slot, Session>
  type Live = map<Slot, Connection>

  /** What the host says of a slot. */
  datatype Sight = Here(connection: Connection) | Gone | Unknown

  datatype View = Blank | Menu(session: Session)

  /** The host's side: connected players and their screens. */
  class Screens {
    var live: Live
    var next: Connection
    var shown: Shown
    /** How often the host could not say who is there, or could not draw or clear. */
    ghost var broken: nat

    ghost predicate Valid()
      reads this
    {
      shown.Keys <= live.Keys && forall slot :: slot in live ==> live[slot] < next
    }

    constructor ()
      ensures Valid() && live == map[] && shown == map[]
    {
      live, next, shown, broken := map[], 1, map[], 0;
    }

    /** Nobody came or went. */
    twostate predicate SamePlayers()
      reads this
    {
      live == old(live) && next == old(next) && old(broken) <= broken
    }

    predicate Present(player: Player)
      reads this
    {
      player.slot in live && live[player.slot] == player.connection
    }

    method Lookup(slot: Slot) returns (sight: Sight)
      modifies this`broken
      ensures sight.Here? ==> slot in live && sight.connection == live[slot]
      ensures sight.Gone? ==> slot !in live
      ensures broken == old(broken) + if sight.Unknown? then 1 else 0
    {
      var known: bool := *;
      if !known {
        broken := broken + 1;
        return Unknown;
      }
      return if slot in live then Here(live[slot]) else Gone;
    }

    /** Draws a menu; a failed drawing leaves the screen as it was. */
    method Draw(slot: Slot, session: Session) returns (drawn: bool)
      requires Valid() && slot in live
      modifies this`shown, this`broken
      ensures Valid() && shown == if drawn then old(shown)[slot := session] else old(shown)
      ensures broken == old(broken) + if drawn then 0 else 1
    {
      drawn := *;
      if drawn { shown := shown[slot := session]; } else { broken := broken + 1; }
    }

    method Clear(slot: Slot) returns (cleared: bool)
      requires Valid() && slot in live
      modifies this`shown, this`broken
      ensures Valid() && shown == if cleared then old(shown) - {slot} else old(shown)
      ensures broken == old(broken) + if cleared then 0 else 1
    {
      cleared := *;
      if cleared { shown := shown - {slot}; } else { broken := broken + 1; }
    }

    /** A player takes a slot, with a number never used before and an empty screen. */
    method Join(slot: Slot)
      requires Valid()
      modifies this`live, this`next, this`shown
      ensures Valid() && live == old(live)[slot := old(next)] && next == old(next) + 1 && shown == old(shown) - {slot}
    {
      live, shown, next := live[slot := next], shown - {slot}, next + 1;
    }

    method Leave(player: Player)
      requires Valid()
      modifies this`live, this`shown
      ensures Valid() && !Present(player)
      ensures if old(Present(player)) then live == old(live) - {player.slot} && shown == old(shown) - {player.slot}
              else live == old(live) && shown == old(shown)
    {
      if Present(player) { live, shown := live - {player.slot}, shown - {player.slot}; }
    }

    /** A new map empties every screen. */
    method NewMap()
      requires Valid()
      modifies this`shown
      ensures Valid() && shown == map[]
    {
      shown := map[];
    }
  }

  // ----- what the screens should show ---------------------------------------------------------

  function Screen(shown: Shown, slot: Slot): View {
    if slot in shown then Menu(shown[slot]) else Blank
  }

  /** The menu that a connection in the slot is to see. */
  function Wanted(displays: Displays, natives: Natives, slot: Slot, connection: Connection): View {
    if slot in displays && displays[slot].connection == connection then Menu(displays[slot].session)
    else if slot in natives && natives[slot].connection == connection && !natives[slot].cleared then Menu(natives[slot].session)
    else Blank
  }

  /**
    * Every connected player sees exactly the menu of the slot, and no menu when there is none for this
    * connection. Menus are for connections that were there, and what is cleared or reporting is closing.
    */
  ghost predicate Truthful(displays: Displays, natives: Natives, live: Live, next: Connection, shown: Shown) {
    && (forall slot :: slot in live ==> Screen(shown, slot) == Wanted(displays, natives, slot, live[slot]))
    && (forall slot :: slot in displays ==> displays[slot].connection < next)
    && forall slot :: slot in natives ==>
         natives[slot].connection < next && (natives[slot].cleared || natives[slot].active ==> natives[slot].closing)
  }

  predicate Watching(live: Live, slot: Slot, connection: Connection) {
    slot in live && live[slot] == connection
  }

  lemma TruthOfMarks(displays: Displays, natives: Natives, live: Live, next: Connection, shown: Shown, slot: Slot, native: Native)
    requires Truthful(displays, natives, live, next, shown) && slot in natives
    requires native.session == natives[slot].session && native.connection == natives[slot].connection
    requires native.cleared || native.active ==> native.closing
    requires native.cleared == natives[slot].cleared || (native.cleared && !Watching(live, slot, native.connection))
    ensures Truthful(displays, natives[slot := native], live, next, shown)
  {
  }

  lemma ActiveCloses(displays: Displays, natives: Natives, live: Live, next: Connection, shown: Shown, slot: Slot)
    requires Truthful(displays, natives, live, next, shown) && slot in natives
    ensures natives[slot].cleared || natives[slot].active ==> natives[slot].closing
    ensures natives[slot].connection < next
  {
  }

  lemma ActiveAllClose(displays: Displays, natives: Natives, live: Live, next: Connection, shown: Shown)
    requires Truthful(displays, natives, live, next, shown)
    ensures forall slot :: slot in natives && natives[slot].active ==> natives[slot].closing
  {
  }

  /** The screen of a connected player was cleared, and an absent one has none. */
  lemma TruthOfClearing(displays: Displays, natives: Natives, live: Live, next: Connection, shown: Shown, slot: Slot)
    requires Truthful(displays, natives, live, next, shown) && slot in natives && slot !in displays && slot in live
    ensures Truthful(displays, natives[slot := natives[slot].(closing := true, cleared := true)], live, next, shown - {slot})
  {
  }

  lemma TruthWithoutNative(displays: Displays, natives: Natives, live: Live, next: Connection, shown: Shown, slot: Slot)
    requires Truthful(displays, natives, live, next, shown)
    requires slot in natives ==> natives[slot].cleared || !Watching(live, slot, natives[slot].connection)
    ensures Truthful(displays, natives - {slot}, live, next, shown)
  {
  }

  lemma TruthWithoutDisplay(displays: Displays, natives: Natives, live: Live, next: Connection, shown: Shown, slot: Slot, cleared: bool)
    requires Truthful(displays, natives, live, next, shown) && slot !in natives && slot in displays
    requires cleared || !Watching(live, slot, displays[slot].connection)
    ensures Truthful(displays - {slot}, natives, live, next, if cleared then shown - {slot} else shown)
  {
  }

  lemma TruthOfDisplay(displays: Displays, natives: Natives, live: Live, next: Connection, shown: Shown, slot: Slot, display: Display)
    requires Truthful(displays, natives, live, next, shown) && Watching(live, slot, display.connection) && live[slot] < next
    ensures Truthful(displays[slot := display], natives, live, next, shown[slot := display.session])
  {
  }

  lemma TruthOfNative(displays: Displays, natives: Natives, live: Live, next: Connection, shown: Shown, slot: Slot, native: Native)
    requires Truthful(displays, natives, live, next, shown) && slot !in displays && slot !in natives && Watching(live, slot, native.connection)
    requires live[slot] < next && (native.cleared || native.active ==> native.closing)
    ensures native.cleared ==> Truthful(displays, natives[slot := native], live, next, shown)
    ensures !native.cleared ==> Truthful(displays, natives[slot := native], live, next, shown[slot := native.session])
  {
  }

  /** Drawing the menu of the slot again changes nothing. */
  lemma TruthOfRedrawing(displays: Displays, natives: Natives, live: Live, next: Connection, shown: Shown, slot: Slot)
    requires Truthful(displays, natives, live, next, shown) && slot in live
    requires Wanted(displays, natives, slot, live[slot]).Menu?
    ensures shown[slot := Wanted(displays, natives, slot, live[slot]).session] == shown
  {
  }

  lemma TruthOfPlayers(displays: Displays, natives: Natives, live: Live, next: Connection, shown: Shown, slot: Slot)
    requires Truthful(displays, natives, live, next, shown)
    ensures Truthful(displays, natives, live - {slot}, next, shown - {slot})
    ensures Truthful(displays, natives, live[slot := next], next + 1, shown - {slot})
  {
  }

  function AllCleared(natives: Natives): Natives {
    map slot | slot in natives :: natives[slot].(closing := true, cleared := true)
  }

  lemma TruthOfNewMap(displays: Displays, natives: Natives, live: Live, next: Connection, shown: Shown)
    requires Truthful(displays, natives, live, next, shown)
    ensures Truthful(map[], AllCleared(natives), live, next, map[])
  {
  }
}
