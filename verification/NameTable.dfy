/** Names the host knows on behalf of scripts: commands, events and console variables. */
module NameTable {
  type Name = string
  type Script = nat
  type Plugin = string

  /** The engine's side: it may refuse, and then nothing has changed. */
  class NameHost {
    var names: set<Name>
    ghost var removed: seq<Name>
    ghost var refusals: nat

    constructor ()
      ensures names == {} && removed == []
    {
      names, removed, refusals := {}, [], 0;
    }

    method Register(name: Name) returns (done: bool)
      requires name !in names
      modifies this
      ensures names == (if done then old(names) + {name} else old(names)) && removed == old(removed)
      ensures refusals == old(refusals) + (if done then 0 else 1)
    {
      done := *;
      if done { names := names + {name}; } else { refusals := refusals + 1; }
    }

    method Remove(name: Name) returns (done: bool)
      requires name in names
      modifies this
      ensures names == if done then old(names) - {name} else old(names)
      ensures removed == if done then old(removed) + [name] else old(removed)
      ensures refusals == old(refusals) + (if done then 0 else 1)
    {
      done := *;
      if done { names, removed := names - {name}, removed + [name]; } else { refusals := refusals + 1; }
    }
  }

  /** What a name stands for; commands and events have nothing to add. */
  type Definition = string

  datatype Entry = Entry(definition: Definition, owners: set<Script>)

  type Entries = map<Name, Entry>
  type Lists = map<Script, set<Name>>
  type Plugins = map<Script, Plugin>

  /** Every owner lists the name, somebody owns it, and only one plugin does if it is exclusive. */
  predicate NameOk(entry: Entry, lists: Lists, plugins: Plugins, exclusive: bool, name: Name) {
    && entry.owners != {}
    && (forall script :: script in entry.owners ==> script in lists && name in lists[script])
    && (exclusive ==> forall a, b :: a in entry.owners && b in entry.owners ==>
          a in plugins && b in plugins && plugins[a] == plugins[b])
  }

  /** Everything a script lists is registered for it. */
  predicate ListOk(entries: Entries, script: Script, list: set<Name>) {
    forall name :: name in list ==> name in entries && script in entries[name].owners
  }

  predicate Consistent(entries: Entries, lists: Lists, plugins: Plugins, exclusive: bool) {
    && (forall name :: name in entries ==> NameOk(entries[name], lists, plugins, exclusive, name))
    && (forall script :: script in lists ==> ListOk(entries, script, lists[script]))
    && plugins.Keys == lists.Keys
  }

  /** The names only this script owns. */
  predicate Sole(entries: Entries, name: Name, script: Script) {
    name in entries && entries[name].owners == {script}
  }

  function WithOwner(entries: Entries, name: Name, definition: Definition, script: Script): Entries {
    entries[name := Entry(definition, (if name in entries then entries[name].owners else {}) + {script})]
  }

  function WithoutOwner(entries: Entries, name: Name, script: Script): Entries
    requires name in entries
  {
    if entries[name].owners == {script} then entries - {name}
    else entries[name := entries[name].(owners := entries[name].owners - {script})]
  }

  /** Registering and releasing concern one name: its owners gain or lose the script, and it goes with the last of them. */
  lemma OwnersChange(entries: Entries, name: Name, definition: Definition, script: Script)
    ensures var after := WithOwner(entries, name, definition, script);
            && name in after && after[name].definition == definition && after - {name} == entries - {name}
            && forall other :: other in after[name].owners <==> other == script || (name in entries && other in entries[name].owners)
    ensures name in entries ==>
              var after := WithoutOwner(entries, name, script);
              && after - {name} == entries - {name} && (name in after <==> entries[name].owners != {script})
              && (name in after ==> after[name].definition == entries[name].definition
                                    && forall other :: other in after[name].owners <==> other in entries[name].owners && other != script)
  {
  }

  /** What another script owns stays as it was, but for the script that lets go. */
  predicate OthersKeep(before: Entries, after: Entries, script: Script) {
    && after.Keys <= before.Keys
    && (forall name :: name in after ==>
          && after[name].definition == before[name].definition
          && (after[name].owners == before[name].owners || after[name].owners == before[name].owners - {script}))
    && forall name, other :: name in before && other in before[name].owners && other != script ==>
         name in after && other in after[name].owners
  }

  // ----- what each change keeps ----------------------------------------------------------

  lemma AdmitKeeps(entries: Entries, lists: Lists, plugins: Plugins, exclusive: bool, script: Script, plugin: Plugin)
    requires Consistent(entries, lists, plugins, exclusive) && script !in lists
    ensures Consistent(entries, lists[script := {}], plugins[script := plugin], exclusive)
  {
    var after, others := lists[script := {}], plugins[script := plugin];
    forall name | name in entries ensures NameOk(entries[name], after, others, exclusive, name) {
      assert NameOk(entries[name], lists, plugins, exclusive, name);
    }
    forall other | other in after ensures ListOk(entries, other, after[other]) {
      assert other != script ==> ListOk(entries, other, lists[other]);
    }
  }

  lemma DismissKeeps(entries: Entries, lists: Lists, plugins: Plugins, exclusive: bool, script: Script)
    requires Consistent(entries, lists, plugins, exclusive) && script in lists && lists[script] == {}
    ensures Consistent(entries, lists - {script}, plugins - {script}, exclusive)
  {
    var after, others := lists - {script}, plugins - {script};
    forall name | name in entries ensures NameOk(entries[name], after, others, exclusive, name) {
      assert NameOk(entries[name], lists, plugins, exclusive, name);
    }
    forall other | other in after ensures ListOk(entries, other, after[other]) {
      assert ListOk(entries, other, lists[other]);
    }
  }

  lemma RegisterKeeps(entries: Entries, lists: Lists, plugins: Plugins, exclusive: bool,
                      script: Script, name: Name, definition: Definition)
    requires Consistent(entries, lists, plugins, exclusive) && script in lists
    requires exclusive && name in entries ==>
               forall other :: other in entries[name].owners ==> other in plugins && plugins[other] == plugins[script]
    ensures Consistent(WithOwner(entries, name, definition, script), lists[script := lists[script] + {name}], plugins, exclusive)
  {
    var after, lists' := WithOwner(entries, name, definition, script), lists[script := lists[script] + {name}];
    forall other | other in lists' ensures ListOk(after, other, lists'[other]) {
      assert ListOk(entries, other, lists[other]);
    }
    var owners := if name in entries then entries[name].owners else {};
    assert name in entries ==> NameOk(entries[name], lists, plugins, exclusive, name);
    JoinedOwners(owners, lists, plugins, exclusive, name, definition, script);
    hide ListOk;
    forall n | n in after ensures NameOk(after[n], lists', plugins, exclusive, n) {
      if n != name {
        assert NameOk(entries[n], lists, plugins, exclusive, n);
        LongerList(entries[n], lists, plugins, exclusive, n, script, lists'[script]);
      }
    }
  }

  lemma JoinedOwners(owners: set<Script>, lists: Lists, plugins: Plugins, exclusive: bool,
                     name: Name, definition: Definition, script: Script)
    requires forall other :: other in owners ==> other in lists && name in lists[other]
    requires script in lists && script in plugins
    requires exclusive ==> forall other :: other in owners ==> other in plugins && plugins[other] == plugins[script]
    ensures NameOk(Entry(definition, owners + {script}), lists[script := lists[script] + {name}], plugins, exclusive, name)
  {
  }

  /** A list may grow, and lose names other than this one. */
  lemma LongerList(entry: Entry, lists: Lists, plugins: Plugins, exclusive: bool, name: Name, script: Script, list: set<Name>)
    requires NameOk(entry, lists, plugins, exclusive, name)
    requires script in entry.owners ==> name in list
    ensures NameOk(entry, lists[script := list], plugins, exclusive, name)
  {
  }

  lemma ReleaseKeeps(entries: Entries, lists: Lists, plugins: Plugins, exclusive: bool, script: Script, name: Name)
    requires Consistent(entries, lists, plugins, exclusive) && script in lists && name in lists[script]
    ensures name in entries && script in entries[name].owners
    ensures Consistent(WithoutOwner(entries, name, script), lists[script := lists[script] - {name}], plugins, exclusive)
    ensures OthersKeep(entries, WithoutOwner(entries, name, script), script)
  {
    assert ListOk(entries, script, lists[script]);
    ReleaseOthersKeep(entries, script, name);
    hide OthersKeep;
    var after, lists' := WithoutOwner(entries, name, script), lists[script := lists[script] - {name}];
    assert NameOk(entries[name], lists, plugins, exclusive, name);
    SomebodyElse(entries[name].owners, script);
    forall other | other in lists' ensures ListOk(after, other, lists'[other]) {
      assert ListOk(entries, other, lists[other]);
    }
    hide ListOk;
    forall n | n in after ensures NameOk(after[n], lists', plugins, exclusive, n) {
      assert NameOk(entries[n], lists, plugins, exclusive, n);
      if n != name { LongerList(entries[n], lists, plugins, exclusive, n, script, lists'[script]); }
    }
  }

  lemma ReleaseOthersKeep(entries: Entries, script: Script, name: Name)
    requires name in entries
    ensures OthersKeep(entries, WithoutOwner(entries, name, script), script)
  {
  }

  lemma SomebodyElse(owners: set<Script>, script: Script)
    ensures owners != {} && owners != {script} ==> owners - {script} != {}
  {
    assert owners - {script} == {} ==> owners <= {script};
  }

  lemma OthersKeepOnward(a: Entries, b: Entries, c: Entries, script: Script)
    requires OthersKeep(a, b, script) && OthersKeep(b, c, script)
    ensures OthersKeep(a, c, script)
  {
  }

  // ----- the table -------------------------------------------------------------------------

  class Table {
    const host: NameHost
    /** Whether a name belongs to one plugin; game events are shared by all. */
    const exclusive: bool
    var entries: Entries
    var lists: Lists
    var plugins: Plugins

    ghost predicate Valid()
      reads this, host
    {
      Consistent(entries, lists, plugins, exclusive) && host.names == entries.Keys
    }

    constructor (host: NameHost, exclusive: bool)
      requires host.names == {}
      ensures Valid() && this.host == host && this.exclusive == exclusive && entries == map[] && lists == map[]
    {
      this.host, this.exclusive := host, exclusive;
      entries, lists, plugins := map[], map[], map[];
    }

    /** A script object comes into being. */
    method Admit(script: Script, plugin: Plugin)
      requires Valid() && script !in lists
      modifies this`lists, this`plugins
      ensures Valid() && lists == old(lists)[script := {}] && plugins == old(plugins)[script := plugin]
    {
      hide Consistent;
      AdmitKeeps(entries, lists, plugins, exclusive, script, plugin);
      lists, plugins := lists[script := {}], plugins[script := plugin];
    }

    /** A script object with nothing left goes. */
    method Dismiss(script: Script)
      requires Valid() && script in lists && lists[script] == {}
      modifies this`lists, this`plugins
      ensures Valid() && lists == old(lists) - {script} && plugins == old(plugins) - {script}
    {
      hide Consistent;
      DismissKeeps(entries, lists, plugins, exclusive, script);
      lists, plugins := lists - {script}, plugins - {script};
    }

    /** Whether the owners all belong to the plugin. */
    method OwnedBy(owners: set<Script>, plugin: Plugin) returns (owned: bool)
      requires owners <= plugins.Keys
      ensures owned <==> forall other :: other in owners ==> plugins[other] == plugin
    {
      var rest := owners;
      while rest != {}
        invariant rest <= owners && forall other :: other in owners - rest ==> plugins[other] == plugin
        decreases rest
      {
        var other :| other in rest;
        if plugins[other] != plugin { return false; }
        rest := rest - {other};
      }
      return true;
    }

    /** Whether the table itself lets the script have the name. */
    ghost predicate Allows(script: Script, name: Name, definition: Definition)
      requires script in lists && script in plugins
      reads this
    {
      && name !in lists[script]
      && (name in entries ==>
            && entries[name].definition == definition
            && (exclusive ==> forall other :: other in entries[name].owners ==> other in plugins && plugins[other] == plugins[script]))
    }

    /** The script does not have the name; whoever has it defined it alike and, where names are exclusive, is the same plugin. */
    predicate Permitted(script: Script, name: Name, definition: Definition)
      requires script in lists && script in plugins
      reads this
    {
      && name !in lists[script]
      && (name !in entries || entries[name].definition == definition)
      && (name !in entries || !exclusive || entries[name].owners <= set other | other in plugins && plugins[other] == plugins[script])
    }

    method CanHave(script: Script, name: Name, definition: Definition) returns (allowed: bool)
      requires Valid() && script in lists && script in plugins
      ensures allowed <==> Allows(script, name, definition)
    {
      if name in lists[script] { return false; }
      if name !in entries { return true; }
      assert NameOk(entries[name], lists, plugins, exclusive, name);
      if exclusive {
        var owned := OwnedBy(entries[name].owners, plugins[script]);
        if !owned { return false; }
      }
      return entries[name].definition == definition;
    }

    /** Registers a name for a script; a reloaded plugin may share the names of its old script. */
    method Register(script: Script, name: Name, definition: Definition) returns (done: bool)
      requires Valid() && script in lists && script in plugins
      modifies this`entries, this`lists, host
      ensures Valid() && host.removed == old(host.removed)
      ensures if done then && entries == WithOwner(old(entries), name, definition, script)
                           && lists == old(lists)[script := old(lists[script]) + {name}]
              else entries == old(entries) && lists == old(lists)
      ensures done ==> old(Allows(script, name, definition))
      ensures done <==> old(Permitted(script, name, definition)) && host.refusals == old(host.refusals)
      ensures !done ==> !old(Allows(script, name, definition)) || host.refusals == old(host.refusals) + 1
    {
      var allowed := CanHave(script, name, definition);
      if !allowed { return false; }
      RegisterKeeps(entries, lists, plugins, exclusive, script, name, definition);
      hide Consistent;
      if name !in entries {
        var registered := host.Register(name);
        if !registered { return false; }
      }
      entries := entries[name := Entry(definition, (if name in entries then entries[name].owners else {}) + {script})];
      lists := lists[script := lists[script] + {name}];
      return true;
    }

    /** Takes one name from a script; the last owner takes it out of the engine first. */
    method Release(script: Script, name: Name) returns (done: bool)
      requires Valid() && script in lists && name in lists[script]
      modifies this`entries, this`lists, host
      ensures Valid() && name in old(entries)
      ensures lists == if done then old(lists)[script := old(lists[script]) - {name}] else old(lists)
      ensures entries == if done then WithoutOwner(old(entries), name, script) else old(entries)
      ensures host.removed == if done && Sole(old(entries), name, script) then old(host.removed) + [name] else old(host.removed)
      ensures if done then host.refusals == old(host.refusals) else host.refusals == old(host.refusals) + 1
      ensures !done ==> Sole(old(entries), name, script)
    {
      hide Consistent, OthersKeep;
      ReleaseKeeps(entries, lists, plugins, exclusive, script, name);
      var entry := entries[name];
      if entry.owners == {script} {
        var removed := host.Remove(name);
        if !removed { return false; }
        entries := entries - {name};
      } else {
        entries := entries[name := entry.(owners := entry.owners - {script})];
      }
      lists := lists[script := lists[script] - {name}];
      return true;
    }

    /** The removals since then were only of names that nobody else owned. */
    static predicate OnlySoleRemoved(before: seq<Name>, after: seq<Name>, entries: Entries, script: Script) {
      before <= after && forall i :: |before| <= i < |after| ==> Sole(entries, after[i], script)
    }

    /** One attempt at taking everything from a script; what the engine refuses to drop stays listed. */
    method ReleaseAll(script: Script) returns (done: bool)
      requires Valid() && script in lists
      modifies this`entries, this`lists, host
      ensures Valid() && script in lists
      ensures lists == old(lists)[script := lists[script]] && lists[script] <= old(lists[script])
      ensures done <==> lists[script] == {}
      ensures host.refusals == old(host.refusals) ==> done
      ensures OthersKeep(old(entries), entries, script)
      ensures OnlySoleRemoved(old(host.removed), host.removed, old(entries), script)
    {
      hide Consistent, OthersKeep;
      done := true;
      ghost var before, removals := entries, host.removed;
      OthersKeepAll(entries, script);
      var rest := lists[script];
      Registered(entries, lists, plugins, exclusive, script);
      while rest != {}
        invariant Valid() && script in lists
        invariant rest <= lists[script] <= old(lists[script]) && lists == old(lists)[script := lists[script]]
        invariant done <==> lists[script] == rest
        invariant host.refusals >= old(host.refusals) && (host.refusals == old(host.refusals) ==> done)
        invariant OthersKeep(before, entries, script)
        invariant forall name :: name in rest ==> name in entries && name in before && entries[name] == before[name]
        invariant OnlySoleRemoved(removals, host.removed, before, script)
        decreases rest
      {
        var name :| name in rest;
        ghost var middle := entries;
        ReleaseKeeps(entries, lists, plugins, exclusive, script, name);
        OthersKeepAll(entries, script);
        var released := Release(script, name);
        OthersKeepOnward(before, middle, entries, script);
        done := done && released;
        rest := rest - {name};
      }
    }

    static lemma OthersKeepAll(entries: Entries, script: Script)
      ensures OthersKeep(entries, entries, script)
    {
    }

    static lemma Registered(entries: Entries, lists: Lists, plugins: Plugins, exclusive: bool, script: Script)
      requires Consistent(entries, lists, plugins, exclusive) && script in lists
      ensures forall name :: name in lists[script] ==> name in entries
    {
      assert ListOk(entries, script, lists[script]);
    }
  }
}
