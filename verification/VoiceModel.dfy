/** What the voice layer and the host agree on: players, links and the engine's wishes. */
module VoiceModel {
  /** A connection is one stay of a player in a slot; its number is never used again. */
  datatype Player = Player(slot: nat, connection: nat)

  predicate Same(a: Player, b: Player) {
    a.slot == b.slot && a.connection != 0 && a.connection == b.connection
  }

  datatype Link = Link(receiver: Player, sender: Player)

  predicate SameLink(a: Link, b: Link) {
    Same(a.receiver, b.receiver) && Same(a.sender, b.sender)
  }

  datatype Result = Ok | NotFound | Broken

  type Key = (nat, nat)

  function KeyOf(link: Link): Key {
    (link.receiver.slot, link.sender.slot)
  }

  /** A tracked link: what the engine wants of it and whose unmuting it waits for. */
  datatype Pair = Pair(link: Link, requested: bool, restoreOwner: nat)
  type Pairs = map<Key, Pair>

  type Owners = map<nat, map<nat, Player>>

  /**
    * The host: who is connected, and for each link what is heard and what the engine last asked for.
    * A link that no call has touched is as the engine wants it.
    */
  datatype World = World(live: map<nat, nat>, next: nat, heard: map<Link, bool>, asked: map<Link, bool>)

  predicate Wellformed(w: World) {
    0 < w.next && forall slot :: slot in w.live ==> 0 < w.live[slot] < w.next
  }

  predicate Live(w: World, p: Player) {
    p.slot in w.live && w.live[p.slot] == p.connection
  }

  /** The connection exists or existed. */
  predicate Known(w: World, p: Player) {
    0 < p.connection < w.next
  }

  /** The player is connected, or may connect later. */
  predicate MayLive(w: World, p: Player) {
    Live(w, p) || p.connection >= w.next
  }

  predicate MayLink(w: World, l: Link) {
    MayLive(w, l.receiver) && MayLive(w, l.sender)
  }

  function Heard(w: World, l: Link): bool {
    if l in w.heard then w.heard[l] else true
  }

  function Asked(w: World, l: Link): bool {
    if l in w.asked then w.asked[l] else true
  }

  /** Players came and went; nothing else changed. */
  predicate Drifted(before: World, after: World) {
    && before.next <= after.next
    && after.heard == before.heard
    && after.asked == before.asked
    && (forall slot :: slot in after.live ==>
          (slot in before.live && before.live[slot] == after.live[slot]) || before.next <= after.live[slot] < after.next)
  }

  predicate Tracked(pairs: Pairs, l: Link) {
    KeyOf(l) in pairs && SameLink(pairs[KeyOf(l)].link, l)
  }

  /** Every pair is filed under its slots and is of connections that exist or existed. */
  predicate Filed(w: World, pairs: Pairs) {
    forall key :: key in pairs ==>
      && KeyOf(pairs[key].link) == key
      && Known(w, pairs[key].link.receiver)
      && Known(w, pairs[key].link.sender)
  }

  /** What the layer remembers of a link is what the engine last asked for. */
  predicate Faithful(w: World, pairs: Pairs, l: Link) {
    if Tracked(pairs, l) then pairs[KeyOf(l)].requested == Asked(w, l) else Heard(w, l) == Asked(w, l)
  }

  ghost predicate Transparent(w: World, pairs: Pairs) {
    forall l :: MayLink(w, l) && 0 < l.receiver.connection && 0 < l.sender.connection ==> Faithful(w, pairs, l)
  }

  predicate MutedBy(players: map<nat, Player>, p: Player) {
    p.slot in players && Same(players[p.slot], p)
  }

  predicate Muted(owners: Owners, p: Player) {
    exists owner :: owner in owners && MutedBy(owners[owner], p)
  }

  /** Owners hold only players they mute, each under its slot. */
  predicate OwnersOk(w: World, owners: Owners) {
    forall owner :: owner in owners ==>
      && owners[owner] != map[]
      && forall slot :: slot in owners[owner] ==>
           owners[owner][slot].slot == slot && Known(w, owners[owner][slot])
  }

  /** The link is tracked and not heard. */
  predicate Silenced(w: World, pairs: Pairs, l: Link) {
    Tracked(pairs, l) && !Heard(w, l)
  }

  /** A pair a restoration must give back. */
  predicate Due(owners: Owners, owner: nat, sender: Option<Player>, pair: Pair) {
    && !Muted(owners, pair.link.sender)
    && (owner == 0 || pair.restoreOwner == owner)
    && (sender.Some? ==> Same(pair.link.sender, sender.value))
  }

  datatype Option<T> = None | Some(value: T)

  /** Players came and went, and links may have been written. */
  predicate Moved(before: World, after: World) {
    Drifted(before.(heard := after.heard), after)
  }

  /** Links that were silenced still are, when someone still mutes the sender. */
  ghost predicate StaySilenced(before: World, pairsBefore: Pairs, after: World, pairs: Pairs, owners: Owners) {
    forall l :: MayLink(after, l) && Muted(owners, l.sender) && Silenced(before, pairsBefore, l) ==>
      Silenced(after, pairs, l)
  }

  /** Every receiver connected throughout has the sender silenced. */
  ghost predicate SilencedForAll(before: World, after: World, pairs: Pairs, sender: Player) {
    forall receiver: Player ::
      Live(before, receiver) && Live(after, receiver) && Live(after, sender) ==> Silenced(after, pairs, Link(receiver, sender))
  }

  /** Players came and went, and calls may have been made. */
  predicate LaterWorld(before: World, after: World) {
    Moved(before.(asked := after.asked), after)
  }

  /**
    * A moment between two calls. `failures` counts broken calls and lists that were too long so far;
    * `done` is what the call before it answered; it is unsettled when that call
    * was a suspension that failed and could not put every mute back in force.
    */
  datatype Moment = Moment(world: World, pairs: Pairs, owners: Owners, suspended: bool, done: bool, settled: bool, failures: nat)

  /** From one moment to the next, silence stays where there is a mute. */
  ghost predicate Follows(a: Moment, b: Moment) {
    LaterWorld(a.world, b.world) && (b.settled ==> StaySilenced(a.world, a.pairs, b.world, b.pairs, b.owners))
  }

  ghost predicate Linked(trace: seq<Moment>) {
    forall i, j :: 0 <= i < j < |trace| && j == i + 1 ==> Follows(trace[i], trace[j])
  }

  /** Somebody mutes the player at every moment after one, and none of them is unsettled. */
  ghost predicate KeptMuted(trace: seq<Moment>, i: nat, player: Player) {
    forall j :: i < j < |trace| ==> trace[j].settled && Muted(trace[j].owners, player)
  }

  /** The link is silenced at one moment, and its sender muted at every later one. */
  ghost predicate SilencedSince(trace: seq<Moment>, i: nat, l: Link)
    requires i < |trace|
  {
    Silenced(trace[i].world, trace[i].pairs, l) && KeptMuted(trace, i, l.sender)
  }

  /** Through a whole run, a silenced link stays silenced while its sender is muted and its ends are connected. */
  lemma {:induction false} SilenceLasts(trace: seq<Moment>, i: nat, l: Link)
    requires i < |trace| && Linked(trace) && SilencedSince(trace, i, l)
    requires MayLink(trace[|trace| - 1].world, l)
    ensures Silenced(trace[|trace| - 1].world, trace[|trace| - 1].pairs, l)
    decreases |trace|
  {
    hide Muted, Silenced;
    var last := |trace| - 1;
    if i < last {
      assert Follows(trace[last - 1], trace[last]);
      SilenceLasts(trace[..last], i, l);
    }
  }

  /** Every receiver connected throughout has the sender silenced, but for those given. */
  ghost predicate SilencedBut(before: World, after: World, pairs: Pairs, sender: Player, skipped: set<Player>) {
    forall receiver: Player ::
      Live(before, receiver) && Live(after, receiver) && Live(after, sender) && receiver !in skipped ==>
        Silenced(after, pairs, Link(receiver, sender))
  }

  /**
    * What became of a mute: it was not even begun, or these receivers were skipped, of a list read to its end or
    * not, with so many broken calls since it was recorded.
    */
  datatype Report = Untried | Tried(skipped: set<Player>, listed: bool, failures: nat)

  /** What every moment of the layer's life satisfies. */
  ghost predicate Sound(w: World, pairs: Pairs, owners: Owners) {
    Wellformed(w) && Filed(w, pairs) && Transparent(w, pairs) && OwnersOk(w, owners)
  }

  // ----- the world moves ------------------------------------------------------------------

  lemma DriftKeeps(before: World, after: World, pairs: Pairs, owners: Owners)
    requires Sound(before, pairs, owners) && Drifted(before, after) && Wellformed(after)
    ensures Sound(after, pairs, owners)
  {
    forall l | MayLink(after, l) && 0 < l.receiver.connection && 0 < l.sender.connection ensures Faithful(after, pairs, l) {
      assert MayLink(before, l);
      assert Faithful(before, pairs, l);
    }
  }

  lemma MovedOnward(a: World, b: World, c: World)
    requires Moved(a, b) && Moved(b, c)
    ensures Moved(a, c)
  {
  }

  /** Who is connected before and after was connected meanwhile. */
  lemma LiveThroughout(a: World, b: World, c: World, p: Player)
    requires Wellformed(a) && Moved(a, b) && Moved(b, c) && Live(a, p) && Live(c, p)
    ensures Live(b, p)
  {
  }

  lemma StaySilencedOnward(a: World, pairsA: Pairs, b: World, pairsB: Pairs, c: World, pairs: Pairs, owners: Owners)
    requires Moved(b, c)
    requires StaySilenced(a, pairsA, b, pairsB, owners) && StaySilenced(b, pairsB, c, pairs, owners)
    ensures StaySilenced(a, pairsA, c, pairs, owners)
  {
    forall l | MayLink(c, l) && Muted(owners, l.sender) && Silenced(a, pairsA, l) ensures Silenced(c, pairs, l) {
      assert MayLink(b, l);
    }
  }

  lemma SoundIsWellformed(w: World, pairs: Pairs, owners: Owners)
    requires Sound(w, pairs, owners)
    ensures Wellformed(w) && Filed(w, pairs) && OwnersOk(w, owners)
  {
  }

  lemma NothingChanged(w: World, pairs: Pairs, owners: Owners)
    requires Wellformed(w)
    ensures Moved(w, w) && StaySilenced(w, pairs, w, pairs, owners)
  {
  }

  // ----- one change at a time ----------------------------------------------------------------

  /** Writing a tracked link, and the players who come and go meanwhile, harm nothing. */
  lemma WriteKeeps(before: World, after: World, pairs: Pairs, owners: Owners, link: Link, listening: bool)
    requires Sound(before, pairs, owners) && Tracked(pairs, link)
    requires after.heard == before.heard || after.heard == before.heard[link := listening]
    requires Moved(before, after) && Wellformed(after)
    ensures Sound(after, pairs, owners)
    ensures !listening ==> StaySilenced(before, pairs, after, pairs, owners)
    ensures !Muted(owners, link.sender) ==> StaySilenced(before, pairs, after, pairs, owners)
  {
    forall l | MayLink(after, l) && 0 < l.receiver.connection && 0 < l.sender.connection ensures Faithful(after, pairs, l) {
      assert MayLink(before, l);
      assert Faithful(before, pairs, l);
      if l != link { assert Heard(after, l) == Heard(before, l); }
    }
  }

  /** A link whose host value is the engine's wish can be forgotten, and so can a dead one. */
  lemma ForgetKeeps(w: World, pairs: Pairs, owners: Owners, key: Key)
    requires Sound(w, pairs, owners) && key in pairs
    requires MayLink(w, pairs[key].link) ==> Heard(w, pairs[key].link) == Asked(w, pairs[key].link)
    ensures Sound(w, pairs - {key}, owners)
    ensures !Muted(owners, pairs[key].link.sender) ==> StaySilenced(w, pairs, w, pairs - {key}, owners)
    ensures !MayLink(w, pairs[key].link) ==> StaySilenced(w, pairs, w, pairs - {key}, owners)
  {
    var after := pairs - {key};
    forall l | MayLink(w, l) && 0 < l.receiver.connection && 0 < l.sender.connection ensures Faithful(w, after, l) {
      assert Faithful(w, pairs, l);
    }
  }

  /** A connected link takes the place of whatever was filed under its slots. */
  lemma TrackKeeps(w: World, pairs: Pairs, owners: Owners, pair: Pair)
    requires Sound(w, pairs, owners) && Live(w, pair.link.receiver) && Live(w, pair.link.sender)
    requires pair.requested == Asked(w, pair.link)
    ensures Sound(w, pairs[KeyOf(pair.link) := pair], owners)
    ensures StaySilenced(w, pairs, w, pairs[KeyOf(pair.link) := pair], owners)
    ensures Tracked(pairs[KeyOf(pair.link) := pair], pair.link)
  {
    var after := pairs[KeyOf(pair.link) := pair];
    forall l | MayLink(w, l) && 0 < l.receiver.connection && 0 < l.sender.connection ensures Faithful(w, after, l) {
      assert Faithful(w, pairs, l);
      if KeyOf(l) == KeyOf(pair.link) && l != pair.link { SameSlots(w, pairs, l, pair.link); }
    }
    forall l | MayLink(w, l) && Muted(owners, l.sender) && Silenced(w, pairs, l) ensures Silenced(w, after, l) {
      if KeyOf(l) == KeyOf(pair.link) && l != pair.link { SameSlots(w, pairs, l, pair.link); }
    }
  }

  /** Of the links with the same slots as a connected one, the others are dead or still to come. */
  lemma SameSlots(w: World, pairs: Pairs, l: Link, live: Link)
    requires Filed(w, pairs) && MayLink(w, l) && Live(w, live.receiver) && Live(w, live.sender)
    requires KeyOf(l) == KeyOf(live) && l != live
    ensures !Tracked(pairs, l)
  {
  }

  // ----- changing who mutes --------------------------------------------------------------------

  function WithMute(owners: Owners, owner: nat, player: Player): Owners {
    owners[owner := (if owner in owners then owners[owner] else map[])[player.slot := player]]
  }

  /** An owner lets go of a slot, and goes when it holds nothing more. */
  function WithoutSlot(owners: Owners, owner: nat, slot: nat): Owners {
    if owner !in owners then owners
    else if owners[owner] - {slot} == map[] then owners - {owner}
    else owners[owner := owners[owner] - {slot}]
  }

  lemma WithMuteOk(w: World, pairs: Pairs, owners: Owners, owner: nat, player: Player)
    requires Sound(w, pairs, owners) && Known(w, player)
    ensures Sound(w, pairs, WithMute(owners, owner, player))
    ensures Muted(WithMute(owners, owner, player), player)
  {
    assert MutedBy(WithMute(owners, owner, player)[owner], player);
  }

  lemma WithoutSlotOk(w: World, pairs: Pairs, owners: Owners, owner: nat, slot: nat)
    requires Sound(w, pairs, owners)
    ensures Sound(w, pairs, WithoutSlot(owners, owner, slot))
  {
  }

  /** Marks the pairs of a sender that nobody mutes any more. */
  predicate Marked(owners: Owners, before: Pairs, after: Pairs, owner: nat, sender: Player) {
    && after.Keys == before.Keys
    && forall key :: key in before ==>
         after[key] == if !Muted(owners, sender) && Same(before[key].link.sender, sender)
                       then before[key].(restoreOwner := owner) else before[key]
  }

  /** The same links with the same wishes, whoever they wait for. */
  predicate SameWishes(before: Pairs, after: Pairs) {
    && after.Keys == before.Keys
    && forall key :: key in before ==>
         after[key].link == before[key].link && after[key].requested == before[key].requested
  }

  lemma WishesKeep(w: World, before: Pairs, after: Pairs, owners: Owners)
    requires Sound(w, before, owners) && SameWishes(before, after)
    ensures Sound(w, after, owners) && StaySilenced(w, before, w, after, owners)
  {
    forall l | MayLink(w, l) && 0 < l.receiver.connection && 0 < l.sender.connection ensures Faithful(w, after, l) {
      assert Faithful(w, before, l);
    }
  }

  /** Some mutes were dropped, none was added. */
  predicate Fewer(before: Owners, after: Owners) {
    forall owner :: owner in after ==>
      && owner in before
      && forall slot :: slot in after[owner] ==> slot in before[owner] && after[owner][slot] == before[owner][slot]
  }

  lemma OwnersMoved(before: World, after: World, owners: Owners)
    requires OwnersOk(before, owners) && Moved(before, after)
    ensures OwnersOk(after, owners)
  {
  }

  lemma SoundWith(w: World, pairs: Pairs, owners: Owners, others: Owners)
    requires Sound(w, pairs, owners) && OwnersOk(w, others)
    ensures Sound(w, pairs, others)
  {
  }

  /** A sender stays silenced for all while only silence is kept. */
  lemma SilencedForAllOnward(a: World, b: World, pairsB: Pairs, c: World, pairs: Pairs, owners: Owners, sender: Player)
    requires Wellformed(a) && Wellformed(b) && Moved(a, b) && Moved(b, c) && Known(b, sender) && Muted(owners, sender)
    requires SilencedForAll(a, b, pairsB, sender) && StaySilenced(b, pairsB, c, pairs, owners)
    ensures SilencedForAll(a, c, pairs, sender)
  {
    forall receiver: Player | Live(a, receiver) && Live(c, receiver) && Live(c, sender)
      ensures Silenced(c, pairs, Link(receiver, sender))
    {
      LiveThroughout(a, b, c, receiver);
      assert Live(b, sender);
      assert Silenced(b, pairsB, Link(receiver, sender));
      assert MayLink(c, Link(receiver, sender)) && Muted(owners, Link(receiver, sender).sender);
    }
  }

  /** Silence for those connected since before `b` is silence for those connected since before `a`. */
  lemma SilencedSinceEarlier(a: World, b: World, c: World, pairs: Pairs, sender: Player)
    requires Wellformed(a) && Moved(a, b) && Moved(b, c) && SilencedForAll(b, c, pairs, sender)
    ensures SilencedForAll(a, c, pairs, sender)
  {
    forall receiver: Player | Live(a, receiver) && Live(c, receiver) && Live(c, sender)
      ensures Silenced(c, pairs, Link(receiver, sender))
    {
      LiveThroughout(a, b, c, receiver);
    }
  }

  /** With no pairs tracked, every connected link is heard as the engine wants. */
  lemma NothingTracked(w: World, pairs: Pairs, owners: Owners, l: Link)
    requires Sound(w, pairs, owners) && pairs == map[] && Live(w, l.receiver) && Live(w, l.sender)
    ensures Heard(w, l) == Asked(w, l)
  {
    assert Faithful(w, pairs, l);
  }

  // ----- a suspension that fails twice over --------------------------------------------------------

  const Hearer := Player(0, 1)
  const Speaker := Player(1, 2)
  const Words := Link(Hearer, Speaker)
  const Echo := Link(Speaker, Speaker)
  const Muting: Owners := map[7 := map[1 := Speaker]]
  const Quiet := World(map[0 := 1, 1 := 2], 3, map[Words := false, Echo := false], map[])
  const Both: Pairs := map[KeyOf(Words) := Pair(Words, true, 0), KeyOf(Echo) := Pair(Echo, true, 0)]

  /**
    * Two silenced links of a muted player. A suspension gives the first back, the host fails on the second,
    * and then on enforcing again: the mute is in force and the first link is heard.
    */
  lemma TwiceFailedSuspension()
    ensures Sound(Quiet, Both, Muting) && Silenced(Quiet, Both, Words) && Muted(Muting, Speaker)
    ensures var given := Quiet.(heard := Quiet.heard[Words := true]);
            && Moved(Quiet, given) && Sound(given, Both - {KeyOf(Words)}, Muting)
            && !Silenced(given, Both - {KeyOf(Words)}, Words) && Heard(given, Words)
            && !StaySilenced(Quiet, Both, given, Both - {KeyOf(Words)}, Muting)
  {
    var given := Quiet.(heard := Quiet.heard[Words := true]);
    assert KeyOf(Words) == (0, 1) && KeyOf(Echo) == (1, 1);
    assert MutedBy(Muting[7], Speaker);
    assert Tracked(Both, Words) && Tracked(Both, Echo);
    assert Sound(Quiet, Both, Muting);
    WriteKeeps(Quiet, given, Both, map[], Words, true) by { SoundWith(Quiet, Both, Muting, map[]); }
    ForgetKeeps(given, Both, map[], KeyOf(Words));
    SoundWith(given, Both - {KeyOf(Words)}, map[], Muting);
    assert MayLink(given, Words);
  }
}
