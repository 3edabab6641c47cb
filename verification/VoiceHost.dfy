/** The game server as the voice layer sees it: any call may fail, and players come and go. */
module VoiceHost {
  import opened VoiceModel

  class Host {
    var live: map<nat, nat>
    var next: nat
    var heard: map<Link, bool>
    ghost var asked: map<Link, bool>
    /** How many calls were broken. */
    ghost var broken: nat

    ghost function View(): World
      reads this
    {
      World(live, next, heard, asked)
    }

    constructor ()
      ensures View() == World(map[], 1, map[], map[])
    {
      live, next, heard, asked, broken := map[], 1, map[], map[], 0;
    }

    /** The call is answered, or it is broken. */
    method Answers() returns (answered: bool)
      modifies this`broken
      ensures broken == old(broken) + (if answered then 0 else 1)
    {
      answered := *;
      if !answered { broken := broken + 1; }
    }

    /** What an answer may be, and that only a broken call is counted. */
    twostate predicate Counted(result: Result)
      reads this
    {
      broken == old(broken) + (if result == Broken then 1 else 0)
    }

    /** Who is in the slot; absence is reported truthfully. */
    method Lookup(slot: int) returns (result: Result, player: Player)
      modifies this`broken
      ensures result == Ok ==> slot in live && player == Player(slot, live[slot])
      ensures result == NotFound ==> slot !in live
      ensures Counted(result)
    {
      var answered := Answers();
      if !answered { return Broken, Player(0, 0); }
      if slot !in live { return NotFound, Player(0, 0); }
      return Ok, Player(slot, live[slot]);
    }

    /** Players leave and join while the engine works. */
    method Drift()
      requires Wellformed(View())
      modifies this`live, this`next
      ensures Wellformed(View()) && Drifted(old(View()), View())
    {
      ghost var before := View();
      var count: int := *;
      for i := 0 to if count < 0 then 0 else count
        invariant Wellformed(View()) && Drifted(before, View())
      {
        var slot: int := *;
        var joins: bool := *;
        if joins && slot >= 0 {
          live, next := live[slot := next], next + 1;
        } else {
          live := live - {slot};
        }
      }
    }

    static method Least(slots: set<nat>) returns (least: nat)
      requires slots != {}
      ensures least in slots && forall slot :: slot in slots ==> least <= slot
    {
      least :| least in slots;
      var rest := slots - {least};
      while rest != {}
        invariant rest <= slots && least in slots
        invariant forall slot :: slot in slots && slot !in rest ==> least <= slot
        decreases rest
      {
        var slot :| slot in rest;
        if slot < least { least := slot; }
        rest := rest - {slot};
      }
    }

    /** The first player after a slot, in slot order. */
    method NextPlayer(after: int) returns (result: Result, player: Player)
      requires Wellformed(View())
      modifies this`live, this`next, this`broken
      ensures Counted(result)
      ensures Wellformed(View()) && Drifted(old(View()), View())
      ensures result == Ok ==> Live(View(), player) && after < player.slot
      ensures result == Ok ==> forall slot :: slot in live ==> slot <= after || player.slot <= slot
      ensures result == NotFound ==> forall slot :: slot in live ==> slot <= after
    {
      Drift();
      var answered := Answers();
      if !answered { return Broken, Player(0, 0); }
      var later := set slot | slot in live && after < slot;
      assert forall slot :: slot in live ==> slot <= after || slot in later;
      if later == {} { return NotFound, Player(0, 0); }
      var best := Least(later);
      return Ok, Player(best, live[best]);
    }

    /** What is heard on a link of connected players, before anything else moves. */
    method GetListening(receiver: Player, sender: Player) returns (result: Result, listening: bool)
      requires Wellformed(View())
      modifies this`live, this`next, this`broken
      ensures Counted(result)
      ensures Wellformed(View()) && Drifted(old(View()), View())
      ensures result == Ok ==> old(Live(View(), receiver) && Live(View(), sender))
      ensures result == NotFound ==> old(!Live(View(), receiver) || !Live(View(), sender))
      ensures result == Ok ==> listening == Heard(View(), Link(receiver, sender))
    {
      var answered := Answers();
      var link := Link(receiver, sender);
      listening := if link in heard then heard[link] else true;
      var known := receiver.slot in live && live[receiver.slot] == receiver.connection &&
                   sender.slot in live && live[sender.slot] == sender.connection;
      Drift();
      result := if !answered then Broken else if known then Ok else NotFound;
    }

    /** Writes a link; a broken call may or may not have taken effect. */
    method SetListening(receiver: Player, sender: Player, listening: bool) returns (result: Result)
      requires Wellformed(View())
      modifies this`live, this`next, this`heard, this`broken
      ensures Counted(result)
      ensures Wellformed(View())
      ensures heard == old(heard) || heard == old(heard)[Link(receiver, sender) := listening]
      ensures Drifted(old(View()).(heard := heard), View())
      ensures result == Ok ==> heard == old(heard)[Link(receiver, sender) := listening]
      ensures result == NotFound ==> old(!Live(View(), receiver) || !Live(View(), sender))
    {
      var answered := Answers();
      var applied: bool := *;
      var known := receiver.slot in live && live[receiver.slot] == receiver.connection &&
                   sender.slot in live && live[sender.slot] == sender.connection;
      if (answered && known) || (!answered && applied) { heard := heard[Link(receiver, sender) := listening]; }
      Drift();
      result := if !answered then Broken else if known then Ok else NotFound;
    }

    /** The engine sets a link; `requested` is what it was asked to set, `effective` what the hook let through. */
    method EngineSets(receiver: int, sender: int, requested: bool, effective: bool)
      modifies this`heard, this`asked
      ensures receiver in live && sender in live ==>
                var link := Link(Player(receiver, live[receiver]), Player(sender, live[sender]));
                heard == old(heard)[link := effective] && asked == old(asked)[link := requested]
      ensures !(receiver in live && sender in live) ==> heard == old(heard) && asked == old(asked)
    {
      if receiver in live && sender in live {
        var link := Link(Player(receiver, live[receiver]), Player(sender, live[sender]));
        heard, asked := heard[link := effective], asked[link := requested];
      }
    }
  }
}
