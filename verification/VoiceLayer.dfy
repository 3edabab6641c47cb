/** The voice layer: several owners mute senders, and the engine's own wishes are kept and given back. */
module VoiceLayer {
  import opened VoiceModel
  import opened VoiceHost

  class Voice {
    const host: Host
    var owners: Owners
    var parked: Owners
    var suspended: bool
    var pairs: Pairs
    var writing: bool
    /** How often the host listed more than 128 receivers. */
    ghost var crowded: nat

    /** No call to the host was broken, and no list of receivers was too long. */
    twostate predicate Unbroken()
      reads this, host
    {
      host.broken == old(host.broken) && crowded == old(crowded)
    }

    twostate predicate Counting()
      reads this, host
    {
      host.broken >= old(host.broken) && crowded >= old(crowded)
    }

    ghost predicate Valid()
      reads this, host
    {
      && Sound(host.View(), pairs, owners)
      && OwnersOk(host.View(), parked)
      && !writing
    }

    constructor (host: Host)
      requires Wellformed(host.View())
      requires forall l :: MayLink(host.View(), l) ==> Heard(host.View(), l) == Asked(host.View(), l)
      ensures Valid() && this.host == host && owners == map[] && pairs == map[] && !suspended
    {
      this.host := host;
      owners, parked, suspended, pairs, writing, crowded := map[], map[], false, map[], false, 0;
    }

    // ----- connections ------------------------------------------------------------------

    method CurrentPlayer(player: Player) returns (result: Result)
      modifies host`broken
      ensures host.Counted(result) && Counting()
      ensures result == Ok ==> Live(host.View(), player) && 0 < player.connection
      ensures result == NotFound ==> !Live(host.View(), player) || player.connection == 0
    {
      var found, current := host.Lookup(player.slot);
      return if found == Ok && !Same(player, current) then NotFound else found;
    }

    method CurrentLink(link: Link) returns (result: Result)
      modifies host`broken
      ensures Counting() && (Unbroken() ==> result != Broken)
      ensures result == Ok ==> Live(host.View(), link.receiver) && Live(host.View(), link.sender)
      ensures result == Ok ==> 0 < link.receiver.connection && 0 < link.sender.connection
      ensures result == NotFound && 0 < link.receiver.connection && 0 < link.sender.connection ==>
                !Live(host.View(), link.receiver) || !Live(host.View(), link.sender)
    {
      var receiver := CurrentPlayer(link.receiver);
      var sender := CurrentPlayer(link.sender);
      if receiver == NotFound || sender == NotFound { return NotFound; }
      return if receiver != Ok then receiver else sender;
    }

    method IsMuted(player: Player) returns (muted: bool)
      ensures muted <==> Muted(owners, player)
    {
      var rest := owners.Keys;
      while rest != {}
        invariant rest <= owners.Keys
        invariant forall owner :: owner in owners && owner !in rest ==> !MutedBy(owners[owner], player)
        decreases rest
      {
        var owner :| owner in rest;
        if MutedBy(owners[owner], player) { return true; }
        rest := rest - {owner};
      }
      return false;
    }

    // ----- the engine's calls ------------------------------------------------------------

    /** The hook on the engine's own call: remembers the wish and lets through what owners allow. */
    method Filter(receiver: int, sender: int, listening: bool) returns (result: Result, effective: bool)
      requires Wellformed(host.View()) && Filed(host.View(), pairs)
      modifies this`pairs, host`broken
      ensures Counting() && (Unbroken() ==> result != Broken)
      ensures writing ==> result == Ok && effective == listening && pairs == old(pairs) && host.broken == old(host.broken)
      ensures result != Ok ==> pairs == old(pairs)
      ensures result == NotFound ==> !(receiver in host.live && sender in host.live)
      ensures result == Ok && !writing ==>
                && receiver in host.live && sender in host.live
                && var link := Link(Player(receiver, host.live[receiver]), Player(sender, host.live[sender]));
                   var muted := Muted(owners, link.sender);
                   && effective == (listening && !muted)
                   && if muted || Tracked(old(pairs), link)
                      then KeyOf(link) in pairs && pairs == old(pairs)[KeyOf(link) := pairs[KeyOf(link)]] &&
                           pairs[KeyOf(link)].link == link && pairs[KeyOf(link)].requested == listening &&
                           (Tracked(old(pairs), link) ==>
                              pairs[KeyOf(link)].restoreOwner == old(pairs)[KeyOf(link)].restoreOwner)
                      else pairs == old(pairs)
    {
      if writing { return Ok, listening; }
      var found, hears := host.Lookup(receiver);
      if found != Ok { return found, listening; }
      var known, speaks := host.Lookup(sender);
      if known != Ok { return known, listening; }
      var link := Link(hears, speaks);
      var key := KeyOf(link);
      var muted := IsMuted(speaks);
      var tracked := key in pairs && SameLink(pairs[key].link, link);
      if !muted && !tracked { return Ok, listening; }
      pairs := pairs[key := Pair(link, listening, if tracked then pairs[key].restoreOwner else 0)];
      return Ok, listening && !muted;
    }

    /** The engine asks that a link be heard or not; a broken filter refuses the call. */
    method EngineAsks(receiver: int, sender: int, listening: bool) returns (accepted: bool)
      requires Valid()
      modifies this`pairs, host`broken, host`heard, host`asked
      ensures Valid()
      ensures StaySilenced(old(host.View()), old(pairs), host.View(), pairs, owners)
      ensures accepted && receiver in host.live && sender in host.live ==>
                host.asked == old(host.asked)[Link(Player(receiver, host.live[receiver]), Player(sender, host.live[sender])) := listening]
      ensures !accepted ==> host.asked == old(host.asked) && host.heard == old(host.heard)
      ensures Counting() && (Unbroken() ==> accepted)
    {
      ghost var before, pairsBefore := host.View(), pairs;
      var result, effective := Filter(receiver, sender, listening);
      if result == Broken { return false; }
      host.EngineSets(receiver, sender, listening, effective);
      if receiver in host.live && sender in host.live {
        var link := Link(Player(receiver, host.live[receiver]), Player(sender, host.live[sender]));
        AskKeeps(before, host.View(), pairsBefore, pairs, owners, link, listening, effective);
        AskSilence(before, host.View(), pairsBefore, pairs, owners, link, effective);
      }
      return true;
    }

    static lemma AskKeeps(before: World, after: World, pairsBefore: Pairs, pairs: Pairs, owners: Owners,
                          link: Link, listening: bool, effective: bool)
      requires Sound(before, pairsBefore, owners) && Live(before, link.receiver) && Live(before, link.sender)
      requires after == before.(heard := before.heard[link := effective], asked := before.asked[link := listening])
      requires effective == (listening && !Muted(owners, link.sender))
      requires if Muted(owners, link.sender) || Tracked(pairsBefore, link)
               then KeyOf(link) in pairs && pairs == pairsBefore[KeyOf(link) := pairs[KeyOf(link)]] &&
                    pairs[KeyOf(link)].link == link && pairs[KeyOf(link)].requested == listening
               else pairs == pairsBefore
      ensures Sound(after, pairs, owners)
    {
      hide Muted, Faithful;
      forall l | MayLink(after, l) && 0 < l.receiver.connection && 0 < l.sender.connection ensures Faithful(after, pairs, l) {
        assert Faithful(before, pairsBefore, l);
        AskFaithful(before, after, pairsBefore, pairs, owners, link, listening, effective, l);
      }
    }

    static lemma AskFaithful(before: World, after: World, pairsBefore: Pairs, pairs: Pairs, owners: Owners,
                             link: Link, listening: bool, effective: bool, l: Link)
      requires Filed(before, pairsBefore) && Wellformed(before) && Live(before, link.receiver) && Live(before, link.sender)
      requires after == before.(heard := before.heard[link := effective], asked := before.asked[link := listening])
      requires effective == (listening && !Muted(owners, link.sender))
      requires if Muted(owners, link.sender) || Tracked(pairsBefore, link)
               then KeyOf(link) in pairs && pairs == pairsBefore[KeyOf(link) := pairs[KeyOf(link)]] &&
                    pairs[KeyOf(link)].link == link && pairs[KeyOf(link)].requested == listening
               else pairs == pairsBefore
      requires MayLink(before, l) && Faithful(before, pairsBefore, l)
      ensures Faithful(after, pairs, l)
    {
      hide Muted;
      if l != link && KeyOf(l) == KeyOf(link) { SameSlots(before, pairsBefore, l, link); }
    }

    static lemma AskSilence(before: World, after: World, pairsBefore: Pairs, pairs: Pairs, owners: Owners,
                            link: Link, effective: bool)
      requires Filed(before, pairsBefore) && Live(before, link.receiver) && Live(before, link.sender) && Wellformed(before)
      requires after.live == before.live && after.next == before.next && after.heard == before.heard[link := effective]
      requires Muted(owners, link.sender) ==> !effective
      requires pairs == pairsBefore ||
               (KeyOf(link) in pairs && pairs[KeyOf(link)].link == link && pairs == pairsBefore[KeyOf(link) := pairs[KeyOf(link)]])
      ensures StaySilenced(before, pairsBefore, after, pairs, owners)
    {
      hide Muted;
      forall l | MayLink(after, l) && Muted(owners, l.sender) && Silenced(before, pairsBefore, l)
        ensures Silenced(after, pairs, l)
      {
        if l != link && KeyOf(l) == KeyOf(link) { SameSlots(before, pairsBefore, l, link); }
      }
    }

    // ----- the layer's own writes --------------------------------------------------------

    /** Writes a tracked link; the hook, called again inside, lets the layer's own write pass. */
    method Write(link: Link, listening: bool) returns (result: Result)
      requires Sound(host.View(), pairs, owners) && Tracked(pairs, link)
      modifies this`writing, this`pairs, host`broken, host`live, host`next, host`heard
      ensures writing == old(writing) && pairs == old(pairs)
      ensures Counting() && (Unbroken() ==> result != Broken)
      ensures Moved(old(host.View()), host.View())
      ensures Sound(host.View(), pairs, owners)
      ensures !listening || !Muted(owners, link.sender) ==>
                StaySilenced(old(host.View()), pairs, host.View(), pairs, owners)
      ensures result == Ok ==> Heard(host.View(), link) == listening
      ensures result == NotFound ==> !MayLink(host.View(), link)
    {
      ghost var before := host.View();
      result := CurrentLink(link);
      if result != Ok { return; }
      var previous := writing;
      writing := true;
      var hooked, effective := Filter(link.receiver.slot, link.sender.slot, listening);
      result := host.SetListening(link.receiver, link.sender, effective);
      writing := previous;
      WriteKeeps(before, host.View(), pairs, owners, link, listening);
    }

    /** Finds out what the engine wants of an untracked link and starts tracking it. */
    method Adopt(link: Link) returns (result: Result)
      requires Sound(host.View(), pairs, owners) && !Tracked(pairs, link)
      requires Live(host.View(), link.receiver) && Live(host.View(), link.sender)
      modifies this`pairs, host`broken, host`live, host`next
      ensures Counting() && (Unbroken() ==> result != Broken)
      ensures Moved(old(host.View()), host.View()) && host.heard == old(host.heard)
      ensures Sound(host.View(), pairs, owners)
      ensures StaySilenced(old(host.View()), old(pairs), host.View(), pairs, owners)
      ensures result == Ok ==> Tracked(pairs, link) && pairs == old(pairs)[KeyOf(link) := pairs[KeyOf(link)]]
      ensures result == Ok ==> pairs[KeyOf(link)].link == link
      ensures result != Ok ==> pairs == old(pairs)
      ensures result == NotFound ==> !MayLink(host.View(), link)
    {
      ghost var before := host.View();
      var requested;
      result, requested := host.GetListening(link.receiver, link.sender);
      DriftKeeps(before, host.View(), pairs, owners);
      if result != Ok { return Broken; }
      result := CurrentLink(link);
      if result != Ok { return; }
      assert Faithful(before, pairs, link);
      TrackKeeps(host.View(), pairs, owners, Pair(link, requested, 0));
      pairs := pairs[KeyOf(link) := Pair(link, requested, 0)];
    }

    /** Silences one receiver, if somebody mutes the sender. */
    method ApplyTo(receiver: Player, sender: Player) returns (result: Result)
      requires Sound(host.View(), pairs, owners) && !writing
      requires Known(host.View(), receiver) && Known(host.View(), sender)
      modifies this`pairs, this`writing, this`crowded, host`broken, host`live, host`next, host`heard
      ensures !writing && Moved(old(host.View()), host.View())
      ensures Sound(host.View(), pairs, owners)
      ensures StaySilenced(old(host.View()), old(pairs), host.View(), pairs, owners)
      ensures OnlyAdds(old(pairs), pairs, sender)
      ensures result == Ok && Muted(owners, sender) && MayLink(host.View(), Link(receiver, sender)) ==>
                Silenced(host.View(), pairs, Link(receiver, sender))
      ensures result == NotFound ==> !MayLink(host.View(), Link(receiver, sender))
      ensures !Muted(owners, sender) ==> host.heard == old(host.heard)
      ensures Counting() && crowded == old(crowded) && (result == Broken ==> host.broken > old(host.broken))
    {
      hide Muted, Sound, StaySilenced;
      ghost var before, pairsBefore := host.View(), pairs;
      var link := Link(receiver, sender);
      SoundIsWellformed(before, pairs, owners);
      NothingChanged(before, pairs, owners);
      result := CurrentLink(link);
      if result != Ok { return; }
      if !(KeyOf(link) in pairs && SameLink(pairs[KeyOf(link)].link, link)) {
        result := Adopt(link);
        if result != Ok { return; }
      }
      var muted := IsMuted(sender);
      if !muted { return; }
      ghost var middle := host.View();
      result := Write(link, false);
      MovedOnward(before, middle, host.View());
      StaySilencedOnward(before, pairsBefore, middle, pairs, host.View(), pairs, owners);
    }

    /** Every pair is an old one, or one of the sender's. */
    static predicate OnlyAdds(before: Pairs, after: Pairs, sender: Player) {
      forall key :: key in after ==>
        (key in before && after[key] == before[key]) || after[key].link.sender == sender
    }

    /**
      * Silences every receiver the host lists; true when all of them are. Whoever is skipped had a broken call,
      * and only a broken call or a player beyond the 128th slot cuts the list short.
      */
    method Apply(sender: Player) returns (success: bool, ghost skipped: set<Player>, ghost listed: bool)
      requires Sound(host.View(), pairs, owners) && !writing && Known(host.View(), sender)
      modifies this`pairs, this`writing, this`crowded, host`broken, host`live, host`next, host`heard
      ensures !writing && Moved(old(host.View()), host.View())
      ensures Sound(host.View(), pairs, owners)
      ensures StaySilenced(old(host.View()), old(pairs), host.View(), pairs, owners)
      ensures OnlyAdds(old(pairs), pairs, sender)
      ensures success && Muted(owners, sender) ==> SilencedForAll(old(host.View()), host.View(), pairs, sender)
      ensures listed && Muted(owners, sender) ==> SilencedBut(old(host.View()), host.View(), pairs, sender, skipped)
      ensures success <==> listed && skipped == {}
      ensures Counting() && |skipped| + (if listed || crowded > old(crowded) then 0 else 1) <= host.broken - old(host.broken)
      ensures crowded > old(crowded) ==> !listed && exists slot :: slot in host.live && slot >= 128
    {
      hide Muted, Sound, StaySilenced, Silenced;
      ghost var before, pairsBefore := host.View(), pairs;
      SoundIsWellformed(before, pairs, owners);
      NothingChanged(before, pairs, owners);
      success, skipped := true, {};
      var after: int := -1;
      var count := 0;
      while true
        invariant !writing && Moved(before, host.View())
        invariant Sound(host.View(), pairs, owners)
        invariant StaySilenced(before, pairsBefore, host.View(), pairs, owners)
        invariant OnlyAdds(pairsBefore, pairs, sender)
        invariant Muted(owners, sender) ==> SilencedUpTo(before, host.View(), pairs, sender, after, skipped)
        invariant (success <==> skipped == {}) && forall receiver: Player :: receiver in skipped ==> receiver.slot <= after
        invariant crowded == old(crowded) && |skipped| <= host.broken - old(host.broken)
        invariant count <= 128 && count <= after + 1
        decreases 128 - count
      {
        ghost var start := host.View();
        SoundIsWellformed(start, pairs, owners);
        var next, receiver := host.NextPlayer(after);
        ghost var present := host.View();
        DriftKeepsSilence(start, present, pairs, owners);
        MovedOnward(before, start, present);
        StaySilencedOnward(before, pairsBefore, start, pairs, present, pairs, owners);
        if next == NotFound {
          listed := true;
          if Muted(owners, sender) { AllSilenced(before, start, present, pairs, sender, after, skipped); }
          return;
        }
        listed := false;
        if next != Ok { return false, skipped, false; }
        if receiver.slot <= after || count == 128 {
          crowded := crowded + 1;
          return false, skipped, false;
        }
        ghost var pairsListed, skippedBefore := pairs, skipped;
        SoundIsWellformed(present, pairs, owners);
        var result := ApplyTo(receiver, sender);
        MovedOnward(before, present, host.View());
        StaySilencedOnward(before, pairsBefore, present, pairsListed, host.View(), pairs, owners);
        if result == Broken {
          skipped := skipped + {receiver};
          success := false;
        }
        if Muted(owners, sender) {
          OneMoreSilenced(before, start, present, host.View(), pairsListed, pairs, owners, sender, after, receiver, skippedBefore, skipped);
        }
        after := receiver.slot;
        count := count + 1;
      }
    }

    /** Every receiver up to the slot, connected throughout and not skipped, has the sender silenced. */
    static ghost predicate SilencedUpTo(before: World, after: World, pairs: Pairs, sender: Player, slot: int, skipped: set<Player>) {
      forall receiver: Player ::
        (receiver.slot <= slot && Live(before, receiver) && Live(after, receiver) && Live(after, sender) && receiver !in skipped) ==>
          Silenced(after, pairs, Link(receiver, sender))
    }

    static lemma DriftKeepsSilence(before: World, after: World, pairs: Pairs, owners: Owners)
      requires Sound(before, pairs, owners) && Drifted(before, after) && Wellformed(after)
      ensures Sound(after, pairs, owners) && Moved(before, after)
      ensures StaySilenced(before, pairs, after, pairs, owners)
    {
      DriftKeeps(before, after, pairs, owners);
    }

    static lemma AllSilenced(before: World, start: World, present: World, pairs: Pairs, sender: Player, after: int, skipped: set<Player>)
      requires Wellformed(before) && Moved(before, start) && Wellformed(start) && Drifted(start, present)
      requires SilencedUpTo(before, start, pairs, sender, after, skipped)
      requires Known(start, sender)
      requires forall slot :: slot in present.live ==> slot <= after
      ensures SilencedBut(before, present, pairs, sender, skipped)
      ensures skipped == {} ==> SilencedForAll(before, present, pairs, sender)
    {
      forall receiver: Player | Live(before, receiver) && Live(present, receiver) && Live(present, sender) && receiver !in skipped
        ensures Silenced(present, pairs, Link(receiver, sender))
      {
        LiveThroughout(before, start, present, receiver);
        LiveThroughout(start, start, present, sender) by { assert Live(start, sender); }
      }
    }

    static lemma OneMoreSilenced(before: World, start: World, present: World, now: World, pairsListed: Pairs, pairs: Pairs,
                                 owners: Owners, sender: Player, after: int, receiver: Player, skippedBefore: set<Player>, skipped: set<Player>)
      requires Wellformed(before) && Moved(before, start) && Wellformed(start) && Drifted(start, present)
      requires Wellformed(present) && Moved(present, now)
      requires SilencedUpTo(before, start, pairsListed, sender, after, skippedBefore) && skippedBefore <= skipped
      requires Known(start, sender) && Muted(owners, sender)
      requires Live(present, receiver) && forall slot :: slot in present.live ==> slot <= after || receiver.slot <= slot
      requires StaySilenced(present, pairsListed, now, pairs, owners)
      requires receiver in skipped || (MayLink(now, Link(receiver, sender)) ==> Silenced(now, pairs, Link(receiver, sender)))
      ensures SilencedUpTo(before, now, pairs, sender, receiver.slot, skipped)
    {
      hide Muted;
      forall other: Player | other.slot <= receiver.slot && Live(before, other) && Live(now, other) && Live(now, sender) && other !in skipped
        ensures Silenced(now, pairs, Link(other, sender))
      {
        LiveThroughout(before, present, now, other) by { MovedOnward(before, start, present); }
        if other.slot <= after {
          LiveThroughout(before, start, present, other);
          assert Live(start, sender);
          assert Silenced(start, pairsListed, Link(other, sender));
          assert Silenced(present, pairsListed, Link(other, sender));
          assert MayLink(now, Link(other, sender)) && Muted(owners, Link(other, sender).sender);
        } else {
          assert other == receiver;
        }
      }
    }

    // ----- giving back ---------------------------------------------------------------------

    /** The last owner to let go of a sender is the one its pairs wait for. */
    method Removed(owner: nat, sender: Player)
      modifies this`pairs
      ensures Marked(owners, old(pairs), pairs, owner, sender)
    {
      hide Muted;
      var muted := IsMuted(sender);
      if muted { return; }
      var before := pairs;
      var rest := pairs.Keys;
      while rest != {}
        invariant pairs.Keys == before.Keys && rest <= before.Keys
        invariant forall key :: key in rest ==> pairs[key] == before[key]
        invariant forall key :: key in before && key !in rest ==>
                    pairs[key] == if Same(before[key].link.sender, sender) then before[key].(restoreOwner := owner) else before[key]
        decreases rest
      {
        var key :| key in rest;
        if Same(pairs[key].link.sender, sender) {
          pairs := pairs[key := pairs[key].(restoreOwner := owner)];
        }
        rest := rest - {key};
      }
    }

    /** Gives one pair back to the engine, and forgets it when that worked. */
    method GiveBack(key: Key) returns (success: bool)
      requires Sound(host.View(), pairs, owners) && !writing
      requires key in pairs && !Muted(owners, pairs[key].link.sender)
      modifies this`pairs, this`writing, this`crowded, host`broken, host`live, host`next, host`heard
      ensures !writing && Moved(old(host.View()), host.View())
      ensures Sound(host.View(), pairs, owners)
      ensures StaySilenced(old(host.View()), old(pairs), host.View(), pairs, owners)
      ensures pairs == if success then old(pairs) - {key} else old(pairs)
      ensures Counting() && crowded == old(crowded) && (success || host.broken > old(host.broken))
    {
      hide Muted, Sound, StaySilenced;
      ghost var before, pairsBefore := host.View(), pairs;
      var pair := pairs[key];
      SoundIsWellformed(before, pairs, owners);
      NothingChanged(before, pairs, owners);
      var result := CurrentLink(pair.link);
      if result == Ok { result := Write(pair.link, pair.requested); }
      if result == Broken { return false; }
      ghost var middle := host.View();
      SoundIsWellformed(middle, pairs, owners);
      if result == Ok { TrackedIsAsked(middle, pairs, owners, key); }
      ForgetKeeps(middle, pairs, owners, key);
      NothingChanged(middle, pairs, owners);
      StaySilencedOnward(before, pairsBefore, middle, pairs, middle, pairs - {key}, owners);
      if key in pairs && SameLink(pairs[key].link, pair.link) && pairs[key].requested == pair.requested {
        pairs := pairs - {key};
      }
      return true;
    }

    static lemma TrackedIsAsked(w: World, pairs: Pairs, owners: Owners, key: Key)
      requires Sound(w, pairs, owners) && key in pairs
      ensures MayLink(w, pairs[key].link) ==> pairs[key].requested == Asked(w, pairs[key].link)
    {
      if MayLink(w, pairs[key].link) { assert Faithful(w, pairs, pairs[key].link); }
    }

    /** Some pairs were forgotten, but none of a muted sender. */
    static ghost predicate OnlyForgets(before: Pairs, after: Pairs, owners: Owners) {
      && after.Keys <= before.Keys
      && (forall key :: key in after ==> after[key] == before[key])
      && forall key :: key in before && Muted(owners, before[key].link.sender) ==> key in after
    }

    /** Gives back what is due; true when nothing due is left, and no more pairs are left than calls were broken. */
    method Restore(owner: nat, sender: Option<Player>) returns (success: bool, ghost left: set<Key>)
      requires Sound(host.View(), pairs, owners) && !writing
      modifies this`pairs, this`writing, this`crowded, host`broken, host`live, host`next, host`heard
      ensures !writing && Moved(old(host.View()), host.View())
      ensures Sound(host.View(), pairs, owners)
      ensures StaySilenced(old(host.View()), old(pairs), host.View(), pairs, owners)
      ensures OnlyForgets(old(pairs), pairs, owners)
      ensures success ==> forall key :: key in pairs ==> !Due(owners, owner, sender, pairs[key])
      ensures forall key :: key in pairs && Due(owners, owner, sender, pairs[key]) ==> key in left
      ensures (success <==> left == {}) && |left| <= host.broken - old(host.broken)
      ensures Counting() && crowded == old(crowded) && (Unbroken() ==> success)
    {
      hide Muted, Sound, StaySilenced;
      ghost var before := host.View();
      var pending := pairs;
      SoundIsWellformed(before, pairs, owners);
      NothingChanged(before, pairs, owners);
      success, left := true, {};
      var rest := pending.Keys;
      while rest != {}
        invariant (success <==> left == {}) && left !! rest && |left| <= host.broken - old(host.broken) && crowded == old(crowded)
        invariant forall key :: key in pairs && key !in rest && Due(owners, owner, sender, pairs[key]) ==> key in left
        invariant !writing && Moved(before, host.View())
        invariant Sound(host.View(), pairs, owners)
        invariant StaySilenced(before, pending, host.View(), pairs, owners)
        invariant OnlyForgets(pending, pairs, owners)
        invariant rest <= pairs.Keys
        decreases rest
      {
        var key :| key in rest;
        var pair := pending[key];
        var muted := IsMuted(pair.link.sender);
        if !muted && (owner == 0 || pair.restoreOwner == owner) &&
           (sender.None? || Same(pair.link.sender, sender.value))
        {
          ghost var middle, pairsMiddle := host.View(), pairs;
          var given := GiveBack(key);
          MovedOnward(before, middle, host.View());
          StaySilencedOnward(before, pending, middle, pairsMiddle, host.View(), pairs, owners);
          success := success && given;
          if !given { left := left + {key}; }
        }
        rest := rest - {key};
      }
    }

    // ----- owners --------------------------------------------------------------------------

    /**
      * Mutes a player for an owner, or takes the owner's mute away. When no call is broken it does so for every
      * player connected throughout; a mute that was begun silences everybody but those whose calls were broken.
      */
    method Set(owner: nat, player: Player, muted: bool) returns (success: bool, ghost report: Report)
      requires Valid()
      modifies this`owners, this`pairs, this`writing, this`crowded, host`broken, host`live, host`next, host`heard
      ensures Valid() && Moved(old(host.View()), host.View())
      ensures StaySilenced(old(host.View()), old(pairs), host.View(), pairs, owners)
      ensures owners == old(owners) || owners == if muted then WithMute(old(owners), owner, player)
                                                 else WithoutSlot(old(owners), owner, player.slot)
      ensures success && muted ==>
                owners == WithMute(old(owners), owner, player) && Muted(owners, player) &&
                SilencedForAll(old(host.View()), host.View(), pairs, player)
      ensures success && !muted ==>
                owners == WithoutSlot(old(owners), owner, player.slot) &&
                GivenBack(pairs, owners, player) &&
                forall key :: key in pairs ==> !Due(owners, owner, Some(player), pairs[key])
      ensures muted && report.Tried? ==>
                && owners == WithMute(old(owners), owner, player) && Muted(owners, player)
                && (report.listed ==> SilencedBut(old(host.View()), host.View(), pairs, player, report.skipped))
                && |report.skipped| + (if report.listed || crowded > old(crowded) then 0 else 1) <= report.failures == host.broken - old(host.broken)
                && (success <==> report.listed && report.skipped == {})
      ensures muted && report.Untried? ==>
                !success && owners == old(owners) && (host.broken > old(host.broken) || !old(Here(player)) || !Here(player))
      ensures Counting() && (Unbroken() && old(Here(player)) && (muted ==> Here(player)) ==> success)
    {
      hide Muted, Transparent, StaySilenced;
      report := Untried;
      ghost var before, pairsBefore := host.View(), pairs;
      NothingChanged(before, pairs, owners);
      var current := CurrentPlayer(player);
      if current != Ok { return false, Untried; }
      if muted {
        success, report := SetMuted(owner, player);
        OwnersMoved(before, host.View(), parked);
        return;
      }
      success := SetUnmuted(owner, player);
      OwnersMoved(before, host.View(), parked);
    }

    method SetUnmuted(owner: nat, player: Player) returns (success: bool)
      requires Sound(host.View(), pairs, owners) && !writing
      modifies this`owners, this`pairs, this`writing, this`crowded, host`broken, host`live, host`next, host`heard
      ensures !writing && Moved(old(host.View()), host.View())
      ensures Sound(host.View(), pairs, owners)
      ensures StaySilenced(old(host.View()), old(pairs), host.View(), pairs, owners)
      ensures owners == WithoutSlot(old(owners), owner, player.slot)
      ensures success ==> forall key :: key in pairs ==> !Due(owners, owner, Some(player), pairs[key])
      ensures success ==> GivenBack(pairs, owners, player)
      ensures Counting() && (Unbroken() ==> success)
    {
      hide Muted, Transparent, StaySilenced;
      ghost var before, pairsBefore := host.View(), pairs;
      WithoutSlotOk(before, pairs, owners, owner, player.slot);
      if owner in owners {
        owners := owners[owner := owners[owner] - {player.slot}];
        if owners[owner] == map[] { owners := owners - {owner}; }
      }
      assert owners == WithoutSlot(old(owners), owner, player.slot);
      Removed(owner, player);
      ghost var marked := pairs;
      WishesKeep(before, pairsBefore, marked, owners);
      ghost var left;
      success, left := Restore(owner, Some(player));
      StaySilencedOnward(before, pairsBefore, before, marked, host.View(), pairs, owners);
      if success { UnmutedIsGivenBack(marked, pairs, owners, owner, player); }
    }

    /** Nothing of the player is tracked any more, unless another owner mutes it. */
    static ghost predicate GivenBack(pairs: Pairs, owners: Owners, player: Player) {
      forall key :: key in pairs && Same(pairs[key].link.sender, player) ==> Muted(owners, player)
    }

    static lemma UnmutedIsGivenBack(marked: Pairs, pairs: Pairs, owners: Owners, owner: nat, player: Player)
      requires forall key :: key in marked && !Muted(owners, player) && Same(marked[key].link.sender, player) ==>
                 marked[key].restoreOwner == owner
      requires OnlyForgets(marked, pairs, owners)
      requires forall key :: key in pairs ==> !Due(owners, owner, Some(player), pairs[key])
      ensures GivenBack(pairs, owners, player)
    {
      hide Muted;
    }

    /** The player is connected. */
    predicate Here(player: Player)
      reads host
    {
      player.slot in host.live && host.live[player.slot] == player.connection && player.connection > 0
    }

    method SetMuted(owner: nat, player: Player) returns (success: bool, ghost report: Report)
      requires Sound(host.View(), pairs, owners) && !writing && Live(host.View(), player)
      modifies this`owners, this`pairs, this`writing, this`crowded, host`broken, host`live, host`next, host`heard
      ensures !writing && Moved(old(host.View()), host.View())
      ensures Sound(host.View(), pairs, owners)
      ensures StaySilenced(old(host.View()), old(pairs), host.View(), pairs, owners)
      ensures owners == old(owners) || owners == WithMute(old(owners), owner, player)
      ensures success ==> report.Tried? && SilencedForAll(old(host.View()), host.View(), pairs, player)
      ensures report.Tried? ==>
                && owners == WithMute(old(owners), owner, player) && Muted(owners, player)
                && (report.listed ==> SilencedBut(old(host.View()), host.View(), pairs, player, report.skipped))
                && |report.skipped| + (if report.listed || crowded > old(crowded) then 0 else 1) <= report.failures == host.broken - old(host.broken)
                && (success <==> report.listed && report.skipped == {})
      ensures report.Untried? ==> !success && owners == old(owners) && (host.broken > old(host.broken) || !Here(player))
      ensures Counting()
    {
      hide Muted, Sound, StaySilenced, SilencedForAll, SilencedBut;
      report := Untried;
      ghost var before := host.View();
      SoundIsWellformed(before, pairs, owners);
      var result, listening := host.GetListening(player, player);
      ghost var middle := host.View();
      DriftKeepsSilence(before, middle, pairs, owners);
      if result != Ok { return false, Untried; }
      var checked := CurrentPlayer(player);
      if checked != Ok { return false, Untried; }
      WithMuteOk(before, pairs, owners, owner, player);
      owners := owners[owner := (if owner in owners then owners[owner] else map[])[player.slot := player]];
      DriftKeepsSilence(before, middle, pairs, owners);
      ghost var pairsBefore := pairs;
      ghost var skipped, listed;
      ghost var broken := host.broken;
      success, skipped, listed := Apply(player);
      report := Tried(skipped, listed, host.broken - broken);
      MovedOnward(before, middle, host.View());
      StaySilencedOnward(before, pairsBefore, middle, pairsBefore, host.View(), pairs, owners);
      if success { SilencedSinceEarlier(before, middle, host.View(), pairs, player); }
      if listed { SilencedButEarlier(before, middle, host.View(), pairs, player, skipped); }
    }

    static lemma SilencedButEarlier(a: World, b: World, c: World, pairs: Pairs, sender: Player, skipped: set<Player>)
      requires Wellformed(a) && Moved(a, b) && Moved(b, c) && SilencedBut(b, c, pairs, sender, skipped)
      ensures SilencedBut(a, c, pairs, sender, skipped)
    {
      forall receiver: Player | Live(a, receiver) && Live(c, receiver) && Live(c, sender) && receiver !in skipped
        ensures Silenced(c, pairs, Link(receiver, sender))
      {
        LiveThroughout(a, b, c, receiver);
      }
    }

    /** Takes an owner, or every owner when the number is zero, out of the table. */
    method TakeOwners(owner: nat) returns (removed: seq<(nat, Player)>)
      modifies this`owners
      ensures owners == if owner == 0 then map[] else old(owners) - {owner}
      ensures owner != 0 ==> forall i :: 0 <= i < |removed| ==> removed[i].0 == owner
      ensures owner in old(owners) ==> forall slot :: slot in old(owners)[owner] ==> (owner, old(owners)[owner][slot]) in removed
    {
      removed := [];
      var rest := owners.Keys;
      while rest != {}
        invariant rest <= owners.Keys <= old(owners).Keys
        invariant forall id :: id in owners ==> owners[id] == old(owners)[id]
        invariant forall id :: id in old(owners) && id !in rest ==> (id in owners <==> owner != 0 && id != owner)
        invariant owner != 0 ==> forall i :: 0 <= i < |removed| ==> removed[i].0 == owner
        invariant owner in old(owners) && owner !in rest ==>
                    forall slot :: slot in old(owners)[owner] ==> (owner, old(owners)[owner][slot]) in removed
        decreases rest
      {
        var id :| id in rest;
        if owner == 0 || id == owner {
          var listed := Listed(id, owners[id]);
          removed := removed + listed;
          owners := owners - {id};
        }
        rest := rest - {id};
      }
    }

    static method Listed(owner: nat, players: map<nat, Player>) returns (listed: seq<(nat, Player)>)
      ensures forall slot :: slot in players ==> (owner, players[slot]) in listed
      ensures forall i :: 0 <= i < |listed| ==> listed[i].0 == owner
    {
      listed := [];
      var rest := players.Keys;
      while rest != {}
        invariant rest <= players.Keys
        invariant forall slot :: slot in players && slot !in rest ==> (owner, players[slot]) in listed
        invariant forall i :: 0 <= i < |listed| ==> listed[i].0 == owner
        decreases rest
      {
        var slot :| slot in rest;
        listed := listed + [(owner, players[slot])];
        rest := rest - {slot};
      }
    }

    /** Notes for every removed mute whose unmuting its pairs wait for. */
    method MarkRemoved(removed: seq<(nat, Player)>, owner: nat)
      modifies this`pairs
      ensures SameWishes(old(pairs), pairs)
      ensures (forall i :: 0 <= i < |removed| ==> removed[i].0 == owner) ==>
                forall i, key :: 0 <= i < |removed| && key in pairs ==> Waits(owners, pairs[key], removed[i].1, owner)
    {
      hide Muted;
      for i := 0 to |removed|
        invariant SameWishes(old(pairs), pairs)
        invariant (forall i :: 0 <= i < |removed| ==> removed[i].0 == owner) ==>
                    forall j, key :: 0 <= j < i && key in pairs ==> Waits(owners, pairs[key], removed[j].1, owner)
      {
        Removed(removed[i].0, removed[i].1);
      }
    }

    /** A pair of the sender that nobody mutes waits for the owner. */
    static predicate Waits(owners: Owners, pair: Pair, sender: Player, owner: nat) {
      !Muted(owners, sender) && Same(pair.link.sender, sender) ==> pair.restoreOwner == owner
    }

    /** An owner goes, and with it every silence that was only its own. */
    method Release(owner: nat) returns (success: bool)
      requires Valid()
      modifies this, host`broken, host`live, host`next, host`heard
      ensures Valid() && Moved(old(host.View()), host.View())
      ensures StaySilenced(old(host.View()), old(pairs), host.View(), pairs, owners)
      ensures owners == if owner == 0 then map[] else old(owners) - {owner}
      ensures parked == if owner == 0 then map[] else old(parked) - {owner}
      ensures suspended == (old(suspended) && owner != 0)
      ensures success ==> forall key :: key in pairs ==> !Due(owners, owner, None, pairs[key])
      ensures success && owner == 0 ==> pairs == map[]
      ensures success && owner != 0 && owner in old(owners) ==> forall key :: key in pairs ==>
                Muted(owners, pairs[key].link.sender) || !MutedBy(old(owners)[owner], pairs[key].link.sender)
      ensures Counting() && (Unbroken() ==> success)
    {
      hide Muted, Transparent, StaySilenced, SameWishes;
      ghost var before, pairsBefore, ownersBefore := host.View(), pairs, owners;
      if owner != 0 { parked := parked - {owner}; } else { parked, suspended := map[], false; }
      var removed := TakeOwners(owner);
      SoundWith(before, pairs, ownersBefore, owners);
      MarkRemoved(removed, owner);
      ghost var marked := pairs;
      WishesKeep(before, pairsBefore, marked, owners);
      ghost var left;
      success, left := Restore(owner, None);
      StaySilencedOnward(before, pairsBefore, before, marked, host.View(), pairs, owners);
      OwnersMoved(before, host.View(), parked);
      if success && owner == 0 { NoOwners(owners, pairs); }
      if success && owner != 0 && owner in ownersBefore {
        forall key | key in pairs && MutedBy(ownersBefore[owner], pairs[key].link.sender)
          ensures Muted(owners, pairs[key].link.sender)
        {
          var player := ownersBefore[owner][pairs[key].link.sender.slot];
          var i :| 0 <= i < |removed| && removed[i] == (owner, player);
          assert Waits(owners, marked[key], removed[i].1, owner);
        }
      }
    }

    static lemma NoOwners(owners: Owners, pairs: Pairs)
      requires owners == map[] && forall key :: key in pairs ==> !Due(owners, 0, None, pairs[key])
      ensures pairs == map[]
    {
      EverythingDue(owners);
      hide Due;
      assert pairs.Keys == {};
    }

    static lemma EverythingDue(owners: Owners)
      requires owners == map[]
      ensures forall pair: Pair :: Due(owners, 0, None, pair)
    {
    }

    // ----- upkeep ---------------------------------------------------------------------------

    /** Drops the players that left, and lists the muted ones that are here. */
    method DropGone() returns (success: bool, senders: map<nat, Player>)
      requires Sound(host.View(), pairs, owners)
      modifies this`owners, host`broken
      ensures Counting() && (Unbroken() ==> success)
      ensures Sound(host.View(), pairs, owners) && Fewer(old(owners), owners)
      ensures forall p: Player :: Muted(old(owners), p) && Live(host.View(), p) ==> Muted(owners, p)
      ensures forall slot :: slot in senders ==> Live(host.View(), senders[slot]) && Muted(owners, senders[slot])
      ensures success ==> forall p: Player :: Muted(owners, p) ==> Live(host.View(), p) && p.slot in senders && senders[p.slot] == p
    {
      SoundIsWellformed(host.View(), pairs, owners);
      var kept;
      success, kept, senders := SortOut(owners);
      SoundWith(host.View(), pairs, owners, kept);
      hide Sound, Muted, Fewer, AllListed, KeepsLive;
      GoneFacts(host.View(), owners, kept);
      if success { ListedFacts(host.View(), kept, senders); }
      owners := kept;
    }

    /** The mutes of players not known to be gone, and the players known to be here. */
    method SortOut(before: Owners) returns (success: bool, kept: Owners, senders: map<nat, Player>)
      requires OwnersOk(host.View(), before)
      modifies host`broken
      ensures Counting() && crowded == old(crowded) && (Unbroken() ==> success)
      ensures Fewer(before, kept) && OwnersOk(host.View(), kept)
      ensures forall owner :: owner in before ==> KeepsLive(host.View(), before[owner], Of(kept, owner))
      ensures forall slot :: slot in senders ==> Live(host.View(), senders[slot]) && Muted(before, senders[slot])
      ensures success ==> forall owner :: owner in kept ==> AllListed(host.View(), kept[owner], senders)
    {
      hide Muted, Fewer, AllListed, KeepsLive, OwnersOk, Live;
      ghost var w := host.View();
      DropStart(w, before);
      success, kept, senders := true, before, map[];
      var rest := before.Keys;
      while rest != {}
        invariant host.View() == w && Counting() && (Unbroken() ==> success)
        invariant rest <= kept.Keys && Fewer(before, kept) && OwnersOk(w, kept)
        invariant forall owner :: owner in rest ==> owner in before && kept[owner] == before[owner]
        invariant forall owner :: owner in before ==> KeepsLive(w, before[owner], Of(kept, owner))
        invariant forall slot :: slot in senders ==>
                    Live(w, senders[slot]) && Muted(before, senders[slot]) && senders[slot].slot == slot
        invariant success ==> forall owner :: owner in kept && owner !in rest ==> AllListed(w, kept[owner], senders)
        decreases rest
      {
        var owner :| owner in rest;
        var here;
        here, kept, senders := SortOne(before, kept, owner, senders);
        success := success && here;
        rest := rest - {owner};
      }
    }

    method SortOne(ghost before: Owners, kept: Owners, owner: nat, senders: map<nat, Player>)
      returns (success: bool, after: Owners, all: map<nat, Player>)
      requires Fewer(before, kept) && OwnersOk(host.View(), kept)
      requires owner in kept && owner in before && kept[owner] == before[owner]
      requires forall slot :: slot in senders ==>
                 Live(host.View(), senders[slot]) && Muted(before, senders[slot]) && senders[slot].slot == slot
      modifies host`broken
      ensures Counting() && crowded == old(crowded) && (Unbroken() ==> success)
      ensures after == kept - {owner} || (owner in after && after == kept[owner := after[owner]])
      ensures Fewer(before, after) && OwnersOk(host.View(), after)
      ensures KeepsLive(host.View(), before[owner], Of(after, owner))
      ensures forall slot :: slot in all ==> Live(host.View(), all[slot]) && Muted(before, all[slot]) && all[slot].slot == slot
      ensures forall other :: other in kept && AllListed(host.View(), kept[other], senders) ==>
                AllListed(host.View(), kept[other], all)
      ensures success && owner in after ==> AllListed(host.View(), after[owner], all)
    {
      hide Muted, Fewer, AllListed, KeepsLive, OwnersOk, Live;
      PlayersOk(host.View(), kept, owner);
      var left, found;
      success, left, found := DropGoneOf(kept[owner]);
      FoundIsMuted(before, owner, found);
      DropStep(host.View(), before, kept, owner, left, found, senders);
      all := senders + found;
      after := if left == map[] then kept - {owner} else kept[owner := left];
    }

    static function Of(owners: Owners, owner: nat): map<nat, Player> {
      if owner in owners then owners[owner] else map[]
    }

    static predicate KeepsLive(w: World, before: map<nat, Player>, after: map<nat, Player>) {
      forall slot :: slot in before && Live(w, before[slot]) ==> slot in after
    }

    /** All these players are connected, and listed. */
    static predicate AllListed(w: World, players: map<nat, Player>, senders: map<nat, Player>) {
      forall slot :: slot in players ==> Live(w, players[slot]) && slot in senders && senders[slot] == players[slot]
    }

    static lemma DropStart(w: World, owners: Owners)
      ensures Fewer(owners, owners) && forall owner :: owner in owners ==> KeepsLive(w, owners[owner], Of(owners, owner))
    {
    }

    static lemma PlayersOk(w: World, owners: Owners, owner: nat)
      requires OwnersOk(w, owners) && owner in owners
      ensures forall slot :: slot in owners[owner] ==> owners[owner][slot].slot == slot && 0 < owners[owner][slot].connection
    {
    }

    static lemma DropStep(w: World, before: Owners, owners: Owners, owner: nat, kept: map<nat, Player>,
                          found: map<nat, Player>, senders: map<nat, Player>)
      requires Fewer(before, owners) && OwnersOk(w, owners) && owner in owners && owners[owner] == before[owner]
      requires kept.Keys <= before[owner].Keys && forall slot :: slot in kept ==> kept[slot] == before[owner][slot]
      requires forall slot :: slot in before[owner] && Live(w, before[owner][slot]) ==> slot in kept
      requires forall slot :: slot in found ==> slot in kept && found[slot] == kept[slot] && Live(w, found[slot])
      requires forall slot :: slot in senders ==> Live(w, senders[slot])
      requires forall slot :: slot in senders ==> senders[slot].slot == slot
      ensures var after := if kept == map[] then owners - {owner} else owners[owner := kept];
              && Fewer(before, after) && OwnersOk(w, after)
              && KeepsLive(w, before[owner], Of(after, owner))
      ensures forall other :: other in owners && AllListed(w, owners[other], senders) ==>
                AllListed(w, owners[other], senders + found)
      ensures (forall slot :: slot in kept ==> slot in found) ==> AllListed(w, kept, senders + found)
    {
    }

    static lemma FoundIsMuted(owners: Owners, owner: nat, found: map<nat, Player>)
      requires owner in owners
      requires forall slot :: slot in found ==>
                 found[slot].slot == slot && 0 < found[slot].connection && slot in owners[owner] && found[slot] == owners[owner][slot]
      ensures forall slot :: slot in found ==> Muted(owners, found[slot])
    {
      forall slot | slot in found ensures Muted(owners, found[slot]) {
        assert MutedBy(owners[owner], found[slot]);
      }
    }

    static lemma GoneFacts(w: World, before: Owners, after: Owners)
      requires Fewer(before, after) && forall owner :: owner in before ==> KeepsLive(w, before[owner], Of(after, owner))
      ensures forall p: Player :: Muted(before, p) && Live(w, p) ==> Muted(after, p)
    {
      forall p: Player | Muted(before, p) && Live(w, p) ensures Muted(after, p) {
        var owner :| owner in before && MutedBy(before[owner], p);
        assert before[owner][p.slot] == p;
        assert MutedBy(after[owner], p);
      }
    }

    static lemma ListedFacts(w: World, owners: Owners, senders: map<nat, Player>)
      requires forall owner :: owner in owners ==> AllListed(w, owners[owner], senders)
      ensures forall p: Player :: Muted(owners, p) ==> Live(w, p) && p.slot in senders && senders[p.slot] == p
    {
      forall p: Player | Muted(owners, p) ensures Live(w, p) && p.slot in senders && senders[p.slot] == p {
        var owner :| owner in owners && MutedBy(owners[owner], p);
        assert owners[owner][p.slot] == p;
      }
    }

    /** One owner's players: those not known to be gone, and those known to be here. */
    method DropGoneOf(players: map<nat, Player>) returns (success: bool, kept: map<nat, Player>, found: map<nat, Player>)
      requires forall slot :: slot in players ==> players[slot].slot == slot && 0 < players[slot].connection
      modifies host`broken
      ensures Counting() && crowded == old(crowded) && (Unbroken() ==> success)
      ensures kept.Keys <= players.Keys && forall slot :: slot in kept ==> kept[slot] == players[slot]
      ensures forall slot :: slot in players && Live(host.View(), players[slot]) ==> slot in kept
      ensures forall slot :: slot in found ==> slot in kept && found[slot] == kept[slot] && Live(host.View(), found[slot])
      ensures success ==> forall slot :: slot in kept ==> slot in found
    {
      success, kept, found := true, players, map[];
      var rest := players.Keys;
      while rest != {}
        invariant Counting() && (Unbroken() ==> success)
        invariant rest <= kept.Keys <= players.Keys && forall slot :: slot in kept ==> kept[slot] == players[slot]
        invariant forall slot :: slot in players && Live(host.View(), players[slot]) ==> slot in kept
        invariant forall slot :: slot in found ==> slot in kept && slot !in rest && found[slot] == kept[slot] && Live(host.View(), found[slot])
        invariant success ==> forall slot :: slot in kept && slot !in rest ==> slot in found
        decreases rest
      {
        var slot :| slot in rest;
        var result := CurrentPlayer(players[slot]);
        if result == NotFound { kept := kept - {slot}; }
        else if result == Ok { found := found[slot := players[slot]]; }
        else { success := false; }
        rest := rest - {slot};
      }
    }

    /** Every pair left is of a muted sender. */
    static ghost predicate OnlyMuted(pairs: Pairs, owners: Owners) {
      forall key :: key in pairs ==> Muted(owners, pairs[key].link.sender)
    }

    /** What a refresh that worked leaves: every connected muted sender is silenced, nothing else is tracked. */
    static ghost predicate Enforced(before: World, after: World, pairs: Pairs, owners: Owners) {
      && (forall p: Player :: Live(before, p) && Muted(owners, p) ==> SilencedForAll(before, after, pairs, p))
      && OnlyMuted(pairs, owners)
    }

    /** Drops who left, gives back what nobody mutes, silences everybody muted again. */
    method Refresh() returns (success: bool)
      requires Sound(host.View(), pairs, owners) && !writing
      modifies this`owners, this`pairs, this`writing, this`crowded, host`broken, host`live, host`next, host`heard
      ensures !writing && Moved(old(host.View()), host.View())
      ensures Sound(host.View(), pairs, owners)
      ensures Fewer(old(owners), owners)
      ensures forall p: Player :: Muted(old(owners), p) && old(Live(host.View(), p)) ==> Muted(owners, p)
      ensures StaySilenced(old(host.View()), old(pairs), host.View(), pairs, owners)
      ensures success ==> Enforced(old(host.View()), host.View(), pairs, owners)
      ensures success ==> forall p: Player :: Muted(owners, p) ==> old(Live(host.View(), p))
      ensures Counting() && (Unbroken() ==> success)
    {
      hide Muted, Sound, StaySilenced, Moved, SilencedForAll, SilencedBut, OnlyAdds;
      ghost var before, pairsBefore := host.View(), pairs;
      var listed, senders := DropGone();
      SoundIsWellformed(before, pairs, owners);
      var restored; ghost var left;
      restored, left := Restore(0, None);
      if restored { RestoredIsMuted(pairs, owners); }
      success := listed && restored;
      var rest := senders.Keys;
      KnownMoved(before, host.View(), senders);
      ghost var kept := owners;
      while rest != {}
        invariant rest <= senders.Keys && owners == kept && Counting() && (Unbroken() ==> success)
        invariant !writing && Moved(before, host.View()) && Sound(host.View(), pairs, owners)
        invariant StaySilenced(before, pairsBefore, host.View(), pairs, owners)
        invariant forall slot :: slot in senders ==> Known(host.View(), senders[slot])
        invariant restored ==> OnlyMuted(pairs, owners)
        invariant success ==> listed && restored
        invariant listed ==> forall p: Player :: Muted(owners, p) ==> Live(before, p)
        invariant success ==> forall slot :: slot in senders && slot !in rest ==>
                    SilencedForAll(before, host.View(), pairs, senders[slot])
        decreases rest
      {
        var slot :| slot in rest;
        ghost var middle, pairsMiddle := host.View(), pairs;
        var applied; ghost var skipped, wasListed;
        applied, skipped, wasListed := Apply(senders[slot]);
        MovedOnward(before, middle, host.View());
        StaySilencedOnward(before, pairsBefore, middle, pairsMiddle, host.View(), pairs, owners);
        SoundIsWellformed(middle, pairsMiddle, owners);
        KnownMoved(middle, host.View(), senders);
        if restored { OnlyAddsMuted(pairsMiddle, pairs, owners, senders[slot]); }
        if success {
          forall other | other in senders && other !in rest
            ensures SilencedForAll(before, host.View(), pairs, senders[other])
          {
            SilencedForAllOnward(before, middle, pairsMiddle, host.View(), pairs, owners, senders[other]);
          }
        }
        if applied { SilencedSinceEarlier(before, middle, host.View(), pairs, senders[slot]); }
        success := success && applied;
        rest := rest - {slot};
      }
    }

    static lemma RestoredIsMuted(pairs: Pairs, owners: Owners)
      requires forall key :: key in pairs ==> !Due(owners, 0, None, pairs[key])
      ensures OnlyMuted(pairs, owners)
    {
    }

    static lemma OnlyAddsMuted(before: Pairs, after: Pairs, owners: Owners, sender: Player)
      requires OnlyMuted(before, owners) && OnlyAdds(before, after, sender) && Muted(owners, sender)
      ensures OnlyMuted(after, owners)
    {
    }

    static lemma KnownMoved(before: World, after: World, senders: map<nat, Player>)
      requires Wellformed(before) && Moved(before, after)
      requires forall slot :: slot in senders ==> Live(before, senders[slot]) || Known(before, senders[slot])
      ensures forall slot :: slot in senders ==> Known(after, senders[slot])
    {
    }

    // ----- suspending -------------------------------------------------------------------------

    /**
      * Gives everything back while the platform is paused. A second call gives back only what nobody
      * mutes: it leaves no pair exactly when no tracked sender has been muted since the first.
      */
    method Suspend() returns (success: bool, ghost settled: bool)
      requires Valid()
      modifies this, host`broken, host`live, host`next, host`heard
      ensures Valid() && Moved(old(host.View()), host.View())
      ensures success && !old(suspended) ==>
                suspended && parked == old(owners) && owners == map[] && pairs == map[]
      ensures !success && !old(suspended) ==>
                !suspended && parked == old(parked) && Fewer(old(owners), owners) &&
                forall p: Player :: Muted(old(owners), p) && Live(host.View(), p) && old(Live(host.View(), p)) ==> Muted(owners, p)
      ensures old(suspended) ==>
                suspended && owners == old(owners) && parked == old(parked) &&
                StaySilenced(old(host.View()), old(pairs), host.View(), pairs, owners)
      ensures settled ==> StaySilenced(old(host.View()), old(pairs), host.View(), pairs, owners)
      ensures !settled ==> !success && !old(suspended) && !suspended
      ensures Counting() && (Unbroken() ==> success)
      ensures success && old(suspended) ==>
                forall key :: key in pairs <==> key in old(pairs) && Muted(owners, old(pairs)[key].link.sender)
    {
      hide Muted, Transparent, StaySilenced, Fewer;
      ghost var before, pairsBefore, ownersBefore := host.View(), pairs, owners;
      settled := true;
      if suspended {
        ghost var kept;
        success, kept := Restore(0, None);
        OwnersMoved(before, host.View(), parked);
        if success { RestoredIsMuted(pairs, owners); }
        return;
      }
      var active := owners;
      SoundWith(before, pairs, owners, map[]);
      owners := map[];
      ghost var left;
      success, left := Restore(0, None);
      ghost var middle := host.View();
      OwnersMoved(before, middle, active);
      if !success {
        SoundWith(middle, pairs, owners, active);
        owners := active;
        var retried := Refresh();
        settled := retried;
        if retried { EnforcedIsSilent(before, middle, host.View(), pairsBefore, pairs, ownersBefore, owners); }
        MovedOnward(before, middle, host.View());
        OwnersMoved(before, host.View(), parked);
        StayLive(before, middle, host.View());
        return;
      }
      NoOwners(owners, pairs);
      parked, suspended := active, true;
      NobodyMuted(before, pairsBefore, host.View(), pairs, owners);
    }

    static lemma NobodyMuted(before: World, pairsBefore: Pairs, after: World, pairs: Pairs, owners: Owners)
      requires owners == map[]
      ensures StaySilenced(before, pairsBefore, after, pairs, owners)
    {
    }

    /** A refresh that worked silences again whoever was silenced before. */
    static lemma EnforcedIsSilent(before: World, middle: World, after: World, pairsBefore: Pairs, pairs: Pairs,
                                  ownersBefore: Owners, owners: Owners)
      requires Sound(before, pairsBefore, ownersBefore) && Wellformed(middle) && Wellformed(after)
      requires Moved(before, middle) && Moved(middle, after) && Enforced(middle, after, pairs, owners)
      ensures StaySilenced(before, pairsBefore, after, pairs, owners)
    {
      hide Muted, Transparent, OnlyMuted;
      forall l | MayLink(after, l) && Muted(owners, l.sender) && Silenced(before, pairsBefore, l) ensures Silenced(after, pairs, l) {
        assert Known(before, l.receiver) && Known(before, l.sender);
        assert Live(after, l.receiver) && Live(after, l.sender);
        LiveInMiddle(before, middle, after, l.receiver);
        LiveInMiddle(before, middle, after, l.sender);
        assert SilencedForAll(middle, after, pairs, l.sender);
      }
    }

    static lemma LiveInMiddle(a: World, b: World, c: World, p: Player)
      requires Moved(a, b) && Moved(b, c) && Known(a, p) && Live(c, p)
      ensures Live(b, p)
    {
    }

    static lemma StayLive(a: World, b: World, c: World)
      requires Wellformed(a) && Moved(a, b) && Moved(b, c)
      ensures forall p: Player :: Live(a, p) && Live(c, p) ==> Live(b, p)
    {
    }

    /** Puts the parked mutes back in place of any made meanwhile, and enforces them. */
    method Resume() returns (success: bool)
      requires Valid()
      modifies this, host`broken, host`live, host`next, host`heard
      ensures Valid() && Moved(old(host.View()), host.View())
      ensures !suspended && Fewer(if old(suspended) then old(parked) else old(owners), owners)
      ensures forall p: Player ::
                Muted(if old(suspended) then old(parked) else old(owners), p) && old(Live(host.View(), p)) ==> Muted(owners, p)
      ensures StaySilenced(old(host.View()), old(pairs), host.View(), pairs, owners)
      ensures success ==> Enforced(old(host.View()), host.View(), pairs, owners)
      ensures success ==> forall p: Player :: Muted(owners, p) ==> old(Live(host.View(), p))
      ensures Counting() && (Unbroken() ==> success)
    {
      hide Muted, Transparent, StaySilenced, Enforced, Fewer;
      ghost var before := host.View();
      if suspended {
        SoundWith(before, pairs, owners, parked);
        owners, parked, suspended := parked, map[], false;
      }
      success := Refresh();
      OwnersMoved(before, host.View(), parked);
    }

    // ----- departures -------------------------------------------------------------------------

    static predicate Departed(p: Player, slot: nat, connection: nat) {
      p.slot == slot && p.connection == connection
    }

    static predicate Concerns(pair: Pair, slot: nat, connection: nat) {
      Departed(pair.link.receiver, slot, connection) || Departed(pair.link.sender, slot, connection)
    }

    static function WithoutPlayer(players: map<nat, Player>, slot: nat, connection: nat): map<nat, Player> {
      if slot in players && players[slot].connection == connection then players - {slot} else players
    }

    /** The owners without the connection, and without owners that are left with nothing. */
    static function WithoutConnection(owners: Owners, slot: nat, connection: nat): Owners {
      map owner | owner in owners && WithoutPlayer(owners[owner], slot, connection) != map[] ::
        WithoutPlayer(owners[owner], slot, connection)
    }

    static method Without(owners: Owners, slot: nat, connection: nat) returns (after: Owners)
      ensures after == WithoutConnection(owners, slot, connection)
    {
      after := owners;
      var rest := owners.Keys;
      while rest != {}
        invariant rest <= after.Keys <= owners.Keys
        invariant forall owner :: owner in rest ==> after[owner] == owners[owner]
        invariant forall owner :: owner in owners && owner !in rest ==>
                    var players := WithoutPlayer(owners[owner], slot, connection);
                    if players == map[] then owner !in after else owner in after && after[owner] == players
        decreases rest
      {
        var owner :| owner in rest;
        var players := WithoutPlayer(after[owner], slot, connection);
        after := if players == map[] then after - {owner} else after[owner := players];
        rest := rest - {owner};
      }
    }

    static lemma WithoutConnectionOk(w: World, owners: Owners, slot: nat, connection: nat)
      requires OwnersOk(w, owners)
      ensures OwnersOk(w, WithoutConnection(owners, slot, connection))
      ensures forall p: Player :: Muted(WithoutConnection(owners, slot, connection), p) <==>
                Muted(owners, p) && !Departed(p, slot, connection)
    {
      var after := WithoutConnection(owners, slot, connection);
      forall p: Player ensures Muted(after, p) <==> Muted(owners, p) && !Departed(p, slot, connection) {
        if Muted(after, p) {
          var owner :| owner in after && MutedBy(after[owner], p);
          assert owner in owners && MutedBy(owners[owner], p);
        }
        if Muted(owners, p) && !Departed(p, slot, connection) {
          var owner :| owner in owners && MutedBy(owners[owner], p);
          assert p.slot in WithoutPlayer(owners[owner], slot, connection);
          assert owner in after && MutedBy(after[owner], p);
        }
      }
    }

    /** A player has left: nothing that concerns the connection is kept. */
    method Disconnected(slot: nat, connection: nat)
      requires Valid() && !MayLive(host.View(), Player(slot, connection))
      modifies this`owners, this`parked, this`pairs
      ensures Valid()
      ensures StaySilenced(host.View(), old(pairs), host.View(), pairs, owners)
      ensures forall key :: key in pairs <==> (key in old(pairs) && !Concerns(old(pairs)[key], slot, connection))
      ensures forall key :: key in pairs ==>
                pairs[key].link.receiver != Player(slot, connection) && pairs[key].link.sender != Player(slot, connection)
      ensures forall key :: key in old(pairs) && Player(slot, connection) !in {old(pairs)[key].link.receiver, old(pairs)[key].link.sender} ==>
                key in pairs && pairs[key] == old(pairs)[key]
      ensures forall p: Player :: Muted(owners, p) <==> Muted(old(owners), p) && !Departed(p, slot, connection)
      ensures forall p: Player :: Muted(parked, p) <==> Muted(old(parked), p) && !Departed(p, slot, connection)
    {
      hide Transparent, StaySilenced, Muted, WithoutConnection, OwnersOk;
      ghost var w := host.View();
      WithoutConnectionOk(w, parked, slot, connection);
      WithoutConnectionOk(w, owners, slot, connection);
      SoundWith(w, pairs, owners, WithoutConnection(owners, slot, connection));
      parked := Without(parked, slot, connection);
      owners := Without(owners, slot, connection);
      ForgetDeparted(slot, connection);
    }

    method ForgetDeparted(slot: nat, connection: nat)
      requires Sound(host.View(), pairs, owners) && !MayLive(host.View(), Player(slot, connection))
      modifies this`pairs
      ensures Sound(host.View(), pairs, owners)
      ensures StaySilenced(host.View(), old(pairs), host.View(), pairs, owners)
      ensures forall key :: key in pairs <==> (key in old(pairs) && !Concerns(old(pairs)[key], slot, connection))
      ensures forall key :: key in pairs ==> pairs[key] == old(pairs)[key]
    {
      hide Sound, StaySilenced, Muted;
      ghost var w := host.View();
      var before := pairs;
      SoundIsWellformed(w, pairs, owners);
      NothingChanged(w, pairs, owners);
      var rest := pairs.Keys;
      while rest != {}
        invariant rest <= pairs.Keys <= before.Keys && forall key :: key in pairs ==> pairs[key] == before[key]
        invariant Sound(w, pairs, owners) && StaySilenced(w, before, w, pairs, owners)
        invariant forall key :: key in before && key !in rest ==>
                    (key in pairs <==> !Concerns(before[key], slot, connection))
        decreases rest
      {
        var key :| key in rest;
        if Concerns(pairs[key], slot, connection) {
          ForgetKeeps(w, pairs, owners, key);
          StaySilencedOnward(w, before, w, pairs, w, pairs - {key}, owners);
          pairs := pairs - {key};
        }
        rest := rest - {key};
      }
    }

    // ----- whole runs ---------------------------------------------------------------------------

    /**
      * One would expect nothing to be muted while the layer is suspended. But a mute made after a suspension
      * outlives the next one, although every call answers true: the player is tracked and not heard.
      */
    method SuspendMuteSuspend(owner: nat, player: Player) returns (first: bool, muted: bool, second: bool)
      requires Valid() && !suspended
      modifies this, host`broken, host`live, host`next, host`heard
      ensures Valid()
      ensures first && muted && second && old(Live(host.View(), player)) && Live(host.View(), player) ==>
                && suspended && KeyOf(Link(player, player)) in pairs
                && Silenced(host.View(), pairs, Link(player, player))
      ensures Unbroken() && old(Here(player)) && Here(player) ==> first && muted && second
    {
      hide Muted, Transparent, StaySilenced, SilencedForAll, Silenced;
      ghost var start := host.View();
      first, muted, second := false, false, false;
      ghost var settled;
      first, settled := Suspend();
      if !first { return; }
      ghost var before := host.View();
      ghost var report;
      muted, report := Set(owner, player, true);
      StaysConnected(start, before, host.View(), player);
      if !muted { return; }
      ghost var middle, pairsMiddle := host.View(), pairs;
      second, settled := Suspend();
      if second { StillSilenced(start, before, middle, host.View(), pairsMiddle, pairs, owners, player); }
    }

    /** Numbers of connections are never used again, so whoever is there at both ends was there meanwhile. */
    static lemma StaysConnected(start: World, middle: World, after: World, player: Player)
      requires Wellformed(start) && Wellformed(middle) && Moved(start, middle) && Moved(middle, after)
      ensures Live(start, player) && Live(after, player) ==> Live(middle, player)
    {
    }

    static lemma StillSilenced(start: World, before: World, middle: World, after: World, pairsMiddle: Pairs, pairs: Pairs,
                               owners: Owners, player: Player)
      requires Wellformed(start) && Wellformed(before) && Wellformed(middle) && Wellformed(after)
      requires Moved(start, before) && Moved(before, middle) && Moved(middle, after)
      requires Muted(owners, player) && SilencedForAll(before, middle, pairsMiddle, player)
      requires StaySilenced(middle, pairsMiddle, after, pairs, owners)
      ensures Live(start, player) && Live(after, player) ==>
                Silenced(after, pairs, Link(player, player)) && KeyOf(Link(player, player)) in pairs
    {
      hide Muted;
      if Live(start, player) && Live(after, player) {
        MovedOnward(start, before, middle);
        LiveThroughout(start, middle, after, player);
        LiveThroughout(start, before, middle, player);
        assert Silenced(middle, pairsMiddle, Link(player, player));
      }
    }

    /** One call, whatever it is. */
    method One(call: Call) returns (done: bool, ghost settled: bool)
      requires Valid()
      modifies this, host
      ensures Valid() && LaterWorld(old(host.View()), host.View())
      ensures settled ==> StaySilenced(old(host.View()), old(pairs), host.View(), pairs, owners)
      ensures !settled ==> call.SuspendCall? && !old(suspended) && !suspended && !done
      ensures Counting() && (Unbroken() && (call.SetCall? ==> old(Here(call.player)) && (call.muted ==> Here(call.player))) ==> done)
      ensures call.SetCall? && call.muted && done ==>
                Muted(owners, call.player) && SilencedForAll(old(host.View()), host.View(), pairs, call.player)
    {
      hide Sound, Muted, StaySilenced, SilencedForAll, OwnersOk;
      done, settled := true, true;
      ghost var before := host.View();
      SoundIsWellformed(before, pairs, owners);
      NothingChanged(before, pairs, owners);
      match call
      case AsksCall(receiver, sender, listening) => done := EngineAsks(receiver, sender, listening);
      case SetCall(owner, player, muted) =>
        ghost var report;
        done, report := Set(owner, player, muted);
      case ReleaseCall(owner) => done := Release(owner);
      case RefreshCall =>
        done := Refresh();
        OwnersMoved(before, host.View(), parked);
      case SuspendCall => done, settled := Suspend();
      case ResumeCall => done := Resume();
      case LeftCall(slot, connection) =>
        if connection < host.next && !(slot in host.live && host.live[slot] == connection) {
          Disconnected(slot, connection);
        }
      case DriftCall =>
        host.Drift();
        DriftKeepsSilence(before, host.View(), pairs, owners);
        OwnersMoved(before, host.View(), parked);
    }

    /** The player was connected at both moments. */
    static predicate Connected(before: Moment, after: Moment, player: Player) {
      Live(before.world, player) && Live(after.world, player) && player.connection > 0
    }

    /**
      * A true mute silences everybody who listens, only a suspension that failed leaves an unsettled moment, and
      * a call during which nothing failed is answered with true, if it is about a connected player.
      */
    static ghost predicate AsAnswered(call: Call, before: Moment, after: Moment) {
      && (call.SetCall? && call.muted && after.done ==>
            Muted(after.owners, call.player) && SilencedForAll(before.world, after.world, after.pairs, call.player))
      && (!after.settled ==> call.SuspendCall? && !after.done && !before.suspended && !after.suspended)
      && (after.failures == before.failures && (call.SetCall? ==> Connected(before, after, call.player)) ==> after.done)
    }

    ghost function Now(done: bool, settled: bool): Moment
      reads this, host
    {
      Moment(host.View(), pairs, owners, suspended, done, settled, host.broken + crowded)
    }

    /**
      * After any calls, in any order and whatever fails, the layer still knows what the engine wants; and a
      * link silenced at any moment is silenced at the end if somebody mutes its sender at every moment
      * between and both ends are connected still. A mute that was answered with true is such a moment. Only
      * a suspension that fails twice over, in giving back and in enforcing again, may break a silence.
      */
    method Serve(calls: seq<Call>) returns (ghost trace: seq<Moment>)
      requires Valid()
      modifies this, host
      ensures Valid()
      ensures forall l: Link :: Live(host.View(), l.receiver) && Live(host.View(), l.sender) ==> Faithful(host.View(), pairs, l)
      ensures |trace| == |calls| + 1
      ensures forall l: Link, i :: 0 <= i < |trace| && SilencedSince(trace, i, l) ==>
                (Live(host.View(), l.receiver) && Live(host.View(), l.sender) ==> Silenced(host.View(), pairs, l))
      ensures forall i, j :: 0 <= i < |calls| && j == i + 1 ==> AsAnswered(calls[i], trace[i], trace[j])
    {
      hide Transparent, Muted, StaySilenced, SilencedForAll, Silenced, LaterWorld, Filed, OwnersOk, SilencedSince;
      trace := [Now(true, true)];
      for i := 0 to |calls|
        invariant Valid() && |trace| == i + 1 && Linked(trace)
        invariant trace[i] == Now(trace[i].done, trace[i].settled)
        invariant forall k, j :: 0 <= k < i && j == k + 1 ==> AsAnswered(calls[k], trace[k], trace[j])
      {
        var done; ghost var settled;
        done, settled := One(calls[i]);
        assert Follows(trace[i], Now(done, settled)) && AsAnswered(calls[i], trace[i], Now(done, settled));
        trace := trace + [Now(done, settled)];
      }
      AllFaithful(host.View(), pairs, owners);
      RunKeepsSilence(trace);
    }

    static lemma RunKeepsSilence(trace: seq<Moment>)
      requires trace != [] && Linked(trace)
      ensures var last := trace[|trace| - 1];
              forall l: Link, i :: 0 <= i < |trace| && SilencedSince(trace, i, l) ==>
                (Live(last.world, l.receiver) && Live(last.world, l.sender) ==> Silenced(last.world, last.pairs, l))
    {
      hide Muted, Silenced, Linked, SilencedSince;
      var last := trace[|trace| - 1];
      forall l: Link, i | 0 <= i < |trace| && SilencedSince(trace, i, l) && Live(last.world, l.receiver) && Live(last.world, l.sender)
        ensures Silenced(last.world, last.pairs, l)
      {
        SilenceLasts(trace, i, l);
      }
    }

    static lemma AllFaithful(w: World, pairs: Pairs, owners: Owners)
      requires Sound(w, pairs, owners)
      ensures forall l: Link :: Live(w, l.receiver) && Live(w, l.sender) ==> Faithful(w, pairs, l)
    {
    }
  }

  /** What can happen to the layer. */
  datatype Call =
    | AsksCall(receiver: int, sender: int, listening: bool)
    | SetCall(owner: nat, player: Player, muted: bool)
    | ReleaseCall(owner: nat)
    | RefreshCall
    | SuspendCall
    | ResumeCall
    | LeftCall(slot: nat, connection: nat)
    | DriftCall
}
