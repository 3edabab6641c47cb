/** Everything a script holds in the server, and the staged clean-up that takes it back. */
module ScriptResources {
  import opened NameTable
  import L = ServiceLeases
  import opened MenuScreens
  import opened MenuSessions
  import opened CallbackTokens

  class Resources {
    const commands: Table
    const events: Table
    const variables: Table
    const leases: L.Leases
    const board: Board
    const tokens: Tokens

    ghost predicate Apart()
    {
      && commands != events && commands != variables && events != variables
      && commands.host != events.host && commands.host != variables.host && events.host != variables.host
      && board.leases == leases
    }

    ghost predicate Valid()
      reads this, commands, commands.host, events, events.host, variables, variables.host
      reads leases, leases.host, board, board.leases, board.leases.host, board.screens, tokens
    {
      Apart() && commands.Valid() && events.Valid() && variables.Valid() && board.Valid() && tokens.Valid()
    }

    ghost predicate Holds(script: NameTable.Script)
      reads commands, events, variables, leases, tokens
    {
      && script in commands.lists && script in events.lists && script in variables.lists
      && script in leases.bindings && script in tokens.lists
    }

    /** Nothing anywhere mentions the script. */
    ghost predicate Holdless(script: NameTable.Script)
      requires Holds(script)
      reads commands, events, variables, leases, tokens, board
    {
      && commands.lists[script] == {} && events.lists[script] == {} && variables.lists[script] == {}
      && leases.bindings[script] == {} && tokens.lists[script] == {}
      && script !in board.handles
      && forall slot :: slot in board.displays ==> board.displays[slot].script != script
    }

    constructor (commands: Table, events: Table, variables: Table, board: Board, tokens: Tokens)
      requires commands != events && commands != variables && events != variables
      requires commands.host != events.host && commands.host != variables.host && events.host != variables.host
      requires commands.Valid() && events.Valid() && variables.Valid() && board.Valid() && tokens.Valid()
      ensures Valid() && this.commands == commands && this.events == events && this.variables == variables
      ensures this.board == board && this.tokens == tokens && leases == board.leases
    {
      this.commands, this.events, this.variables := commands, events, variables;
      this.leases, this.board, this.tokens := board.leases, board, tokens;
    }

    /** No menu of the script is on a screen. */
    predicate Offscreen(script: NameTable.Script)
      reads board
    {
      forall slot :: slot in board.displays ==> board.displays[slot].script != script
    }

    /** The tokens of the script have gone, and no other. */
    twostate predicate TokensGone(script: NameTable.Script)
      requires script in old(tokens.lists)
      reads tokens
    {
      && tokens.lists == old(tokens.lists)[script := {}]
      && tokens.callbacks == map token | token in old(tokens.callbacks) && old(tokens.callbacks)[token].script != script ::
           old(tokens.callbacks)[token]
    }

    /** The script's own stop callback, its tokens and its menus; true when no menu of it is left on a screen. */
    method StopAndClose(script: NameTable.Script, stop: seq<Act>) returns (closed: bool)
      requires Valid() && Holds(script)
      modifies leases`menus, leases.host, board, board.screens, tokens`callbacks, tokens`lists
      ensures Valid() && Holds(script) && tokens.lists[script] == {}
      ensures closed <==> Offscreen(script)
      ensures old(board.screens.broken) <= board.screens.broken && (board.screens.broken == old(board.screens.broken) ==> closed)
      ensures leases.host.refusals >= old(leases.host.refusals) && TokensGone(script)
    {
      hide Consistent, Tidy, Truthful, L.Sound, L.Named, Matched, ActiveStay, Issued;
      board.Perform(stop);
      tokens.ReleaseAll(script);
      closed := board.CloseOwned(script);
    }

    /** What the registries keep through an attempt at releasing a script. */
    static twostate predicate Released(table: Table, script: NameTable.Script)
      requires script in old(table.lists) && script in table.lists
      reads table, table.host
    {
      && OthersKeep(old(table.entries), table.entries, script)
      && Table.OnlySoleRemoved(old(table.host.removed), table.host.removed, old(table.entries), script)
      && table.lists == old(table.lists)[script := table.lists[script]] && table.lists[script] <= old(table.lists[script])
    }

    /** The host let go of every name it was asked for. */
    twostate predicate NamesUnrefused()
      reads commands.host, events.host, variables.host
    {
      && commands.host.refusals == old(commands.host.refusals)
      && events.host.refusals == old(events.host.refusals)
      && variables.host.refusals == old(variables.host.refusals)
    }

    /** Console variables, then commands, then events: each as far as the host lets go. */
    method ReleaseNames(script: NameTable.Script) returns (done: bool)
      requires Valid() && Holds(script)
      modifies commands`entries, commands`lists, commands.host, events`entries, events`lists, events.host
      modifies variables`entries, variables`lists, variables.host
      ensures Valid() && Holds(script)
      ensures done <==> commands.lists[script] == {} && events.lists[script] == {} && variables.lists[script] == {}
      ensures Released(commands, script) && Released(events, script) && Released(variables, script)
      ensures NamesUnrefused() ==> done
    {
      hide Consistent, Tidy, Truthful, L.Sound, L.Named, Matched, OthersKeep, Issued, Table.OnlySoleRemoved;
      var variablesGone := variables.ReleaseAll(script);
      var commandsGone := commands.ReleaseAll(script);
      var eventsGone := events.ReleaseAll(script);
      done := variablesGone && commandsGone && eventsGone;
    }

    /**
      * One attempt at cleaning a script up. Whatever the host refuses, every registry stays consistent,
      * other scripts keep what they have, and the script only ever holds less. If the host refuses
      * nothing, no screen fails and no call into a native runs, the script is done with.
      */
    method Cleanup(script: NameTable.Script, active: bool, stop: seq<Act>, voiceReleased: bool) returns (done: bool)
      requires Valid() && Holds(script)
      modifies commands`entries, commands`lists, commands.host, events`entries, events`lists, events.host
      modifies variables`entries, variables`lists, variables.host, leases, leases.host, board, board.screens, tokens`callbacks, tokens`lists
      ensures Valid() && Holds(script)
      ensures done ==> !active && Holdless(script)
      ensures Released(commands, script) && Released(events, script) && Released(variables, script)
      ensures leases.bindings == old(leases.bindings)[script := leases.bindings[script]]
      ensures leases.bindings[script] <= old(leases.bindings[script])
      ensures if active then tokens.lists == old(tokens.lists) && tokens.callbacks == old(tokens.callbacks) else TokensGone(script)
      ensures && !active && voiceReleased && board.screens.broken == old(board.screens.broken) && NamesUnrefused()
              && leases.host.refusals == old(leases.host.refusals)
              && L.Leases.AllIdle(old(leases.providers), old(leases.bindings[script]))
              ==> done
    {
      hide Consistent, Tidy, Truthful, L.Sound, L.Named, Matched, OthersKeep, Issued;
      Table.OthersKeepAll(commands.entries, script);
      Table.OthersKeepAll(events.entries, script);
      Table.OthersKeepAll(variables.entries, script);
      if active { return false; }
      var closed := StopAndClose(script, stop);
      if !closed { return false; }
      done := TakeBack(script, voiceReleased);
    }

    /** The names, the natives and the menu handles of a script without menus on a screen. */
    method TakeBack(script: NameTable.Script, voiceReleased: bool) returns (done: bool)
      requires Valid() && Holds(script) && Offscreen(script) && tokens.lists[script] == {}
      modifies commands`entries, commands`lists, commands.host, events`entries, events`lists, events.host
      modifies variables`entries, variables`lists, variables.host, leases`providers, leases`bindings, leases.host, board`handles
      ensures Valid() && Holds(script)
      ensures done ==> Holdless(script)
      ensures Released(commands, script) && Released(events, script) && Released(variables, script)
      ensures leases.bindings == old(leases.bindings)[script := leases.bindings[script]]
      ensures leases.bindings[script] <= old(leases.bindings[script]) && leases.host.refusals >= old(leases.host.refusals)
      ensures && voiceReleased && NamesUnrefused() && leases.host.refusals == old(leases.host.refusals)
              && L.Leases.AllIdle(old(leases.providers), old(leases.bindings[script]))
              ==> done
    {
      hide Consistent, Tidy, Truthful, L.Sound, L.Named, Matched, OthersKeep, Issued, Table.OnlySoleRemoved;
      var namesGone := ReleaseNames(script);
      var leasesGone := leases.ReleaseAll(script);
      board.RetireHandles(script);
      done := voiceReleased && namesGone && leasesGone;
    }
  }
}
