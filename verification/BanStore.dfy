/** The ban store: the table in memory and the file it is always the reading of. */
module BanStore {
  import opened Decimals
  import opened Timestamps
  import opened Bans

  datatype Document = Document(bans: seq<Entry>, extra: map<string, string>)

  /** What a file holds: a ban database, or something that cannot be read as one. */
  datatype Content = Garbage(text: string) | Database(document: Document)

  datatype Saving = Saved | Unread | Changed | Unwritable | Oversized | Failed

  const NewDocument := Document([], map[])

  class BanFile {
    var content: Option<Content>
    /** How often a read or a write failed, or a database did not fit. */
    ghost var faults: nat

    constructor (content: Option<Content>)
      ensures this.content == content
    {
      this.content, faults := content, 0;
    }

    method Read() returns (content: Option<Content>)
      modifies this`faults
      ensures content.Some? ==> content == this.content
      ensures faults == old(faults) + (if content.None? && this.content.Some? then 1 else 0)
    {
      var failed: bool := *;
      content := if failed then None else this.content;
      if content.None? && this.content.Some? { faults := faults + 1; }
    }

    /** Whether a database can be encoded within the size of a file. */
    method Fits(document: Document) returns (fits: bool)
      modifies this`faults
      ensures faults == old(faults) + (if fits then 0 else 1)
    {
      fits := *;
      if !fits { faults := faults + 1; }
    }

    /** Replaces the file at one stroke; a caller may be told it failed although the file was replaced. */
    method Replace(content: Content) returns (done: bool)
      modifies this
      ensures this.content == old(this.content) || this.content == Some(content)
      ensures done ==> this.content == Some(content)
      ensures faults == old(faults) + (if done then 0 else 1)
    {
      var replaced: bool := *;
      var confirmed: bool := *;
      if replaced { this.content := Some(content); }
      done := replaced && confirmed;
      if !done { faults := faults + 1; }
    }
  }

  class Store {
    const file: BanFile
    var bans: Table
    var contents: Option<Document>

    ghost predicate Valid()
      reads this
    {
      && TableOk(bans) && |bans| <= BanLimit
      && (contents.Some? ==> ReadTable(contents.value.bans) == Some(bans))
    }

    constructor (file: BanFile)
      ensures Valid() && this.file == file && contents == None && bans == map[]
    {
      this.file := file;
      bans, contents := map[], None;
    }

    /** There is no file, or it holds a ban database that can be read. */
    static predicate Readable(content: Option<Content>) {
      content.None? || (content.value.Database? && ReadTable(content.value.document.bans).Some?)
    }

    /** Reads the file, or starts an empty one; a loaded store does not read again. */
    method Load() returns (loaded: bool)
      requires Valid()
      modifies this, file
      ensures Valid()
      ensures loaded ==> contents.Some?
      ensures old(contents).Some? ==> loaded && bans == old(bans) && contents == old(contents) && file.content == old(file.content)
      ensures old(contents).None? && loaded ==> file.content == Some(Database(contents.value))
      ensures loaded && old(file.content).Some? ==> file.content == old(file.content)
      ensures !loaded ==> bans == old(bans) && contents == old(contents)
      ensures old(contents).Some? ==> contents.Some? && file.faults == old(file.faults)
      ensures file.faults >= old(file.faults)
      ensures file.faults == old(file.faults) && old(contents).None? ==> (loaded <==> Readable(old(file.content)))
    {
      hide TableOk, ReadEntries;
      if contents.Some? { return true; }
      if file.content.None? {
        var done := file.Replace(Database(NewDocument));
        if !done { return false; }
        EmptyTable();
        contents, bans := Some(NewDocument), map[];
        return true;
      }
      var read := file.Read();
      if read.None? || read.value.Garbage? { return false; }
      var entries := read.value.document.bans;
      if |entries| > BanLimit || ReadEntries(entries).None? { return false; }
      ReadTableIsOk(entries);
      TableSize(entries);
      contents, bans := Some(read.value.document), ReadEntries(entries).value;
      return true;
    }

    static lemma EmptyTable()
      ensures ReadTable(NewDocument.bans) == Some(map[]) && TableOk(map[])
    {
    }

    static lemma {:induction false} TableSize(entries: seq<Entry>)
      requires ReadEntries(entries).Some?
      ensures |ReadEntries(entries).value| == |entries|
      decreases |entries|
    {
      hide ReadEntry;
      if entries != [] {
        TableSize(entries[..|entries| - 1]);
        var rest, last := ReadEntries(entries[..|entries| - 1]).value, ReadEntry(entries[|entries| - 1]).value;
        JoinSize(rest, last);
      }
    }

    static lemma JoinSize(rest: Table, last: Ban)
      requires last.account !in rest
      ensures |rest[last.account := last]| == |rest| + 1
    {
      var after := rest[last.account := last];
      assert after.Keys == rest.Keys + {last.account};
      assert |after| == |after.Keys| && |rest| == |rest.Keys|;
    }

    /** The store is loaded and the file holds what it last read or wrote. */
    ghost predicate Synced()
      reads this, file
    {
      contents.Some? && file.content == Some(Database(contents.value))
    }

    static predicate Holds(content: Option<Content>, bans: Table) {
      content.Some? && content.value.Database? && ReadTable(content.value.document.bans) == Some(bans)
    }

    static function NewBan(account: Account, minutes: nat, reason: string, actor: string, now: int): Ban {
      Ban(account, now, if minutes == 0 then None else Some(now + 60 * minutes), reason, actor)
    }

    /** A ban from now on, for so many minutes of sixty seconds or (with zero) for good. */
    static predicate IsBan(ban: Ban, account: Account, minutes: nat, reason: string, actor: string, now: int) {
      && ban.account == account && ban.created == now && ban.reason == reason && ban.actor == actor
      && (ban.expires.None? <==> minutes == 0) && (minutes > 0 ==> ban.expires.value - ban.created == 60 * minutes)
    }

    /** A ban that may be added: its texts are sound and its times can be written. */
    static predicate Acceptable(account: Account, minutes: nat, reason: string, actor: string, now: int) {
      && ValidIdentity(account) && minutes <= 5256000 && SafeText(reason, 256) && ValidActor(actor)
      && Utc(now).Some? && (minutes > 0 ==> 60 * minutes <= LastTime() - now)
    }

    /** Bans an account, for so many minutes or (with zero) for good. */
    method AddBan(account: Account, minutes: nat, reason: string, actor: string, now: int) returns (added: bool)
      requires Valid()
      modifies this, file
      ensures Valid()
      ensures added ==> Synced() && account in bans && bans[account] == NewBan(account, minutes, reason, actor, now)
      ensures added ==> IsBan(bans[account], account, minutes, reason, actor, now)
      ensures old(contents).Some? ==> contents.Some?
      ensures old(contents).Some? ==>
                bans == if added then old(bans)[account := NewBan(account, minutes, reason, actor, now)] else old(bans)
      ensures old(contents).Some? ==>
                file.content == old(file.content) || Holds(file.content, old(bans)[account := NewBan(account, minutes, reason, actor, now)])
      ensures file.faults >= old(file.faults)
      ensures old(Synced()) && file.faults == old(file.faults) ==>
                (added <==> Acceptable(account, minutes, reason, actor, now) && |old(bans).Keys + {account}| <= BanLimit)
    {
      hide TableOk, ReadTable, BanOk, Acceptable, IsBan, LastTime, Utc;
      NewIsBan(account, minutes, reason, actor, now);
      var loaded := Load();
      if !loaded { return false; }
      var accepted := Accept(account, minutes, reason, actor, now);
      if !accepted { return false; }
      var ban := NewBan(account, minutes, reason, actor, now);
      AcceptableOk(account, minutes, reason, actor, now);
      AddOk(bans, ban);
      var candidate := bans[account := ban];
      assert candidate.Keys == bans.Keys + {account} && |candidate| == |candidate.Keys|;
      if |candidate| > BanLimit { return false; }
      var saved := Save(candidate);
      return saved == Saved;
    }

    static lemma NewIsBan(account: Account, minutes: nat, reason: string, actor: string, now: int)
      ensures IsBan(NewBan(account, minutes, reason, actor, now), account, minutes, reason, actor, now)
    {
    }

    static method Accept(account: Account, minutes: nat, reason: string, actor: string, now: int) returns (accepted: bool)
      ensures accepted <==> Acceptable(account, minutes, reason, actor, now)
    {
      if !ValidIdentity(account) || minutes > 5256000 || !SafeText(reason, 256) || !ValidActor(actor) { return false; }
      if Utc(now).None? { return false; }
      if minutes > 0 && LastTime() - now < 60 * minutes { return false; }
      return true;
    }

    static lemma AcceptableOk(account: Account, minutes: nat, reason: string, actor: string, now: int)
      requires Acceptable(account, minutes, reason, actor, now)
      ensures BanOk(NewBan(account, minutes, reason, actor, now))
    {
      hide InRange, ValidActor, SafeText, BanOk;
      RangeEnds(now);
      UtcInverse(now);
      RangeEnds(now + 60 * minutes);
      NewBanOk(NewBan(account, minutes, reason, actor, now));
    }

    static lemma NewBanOk(ban: Ban)
      requires ValidIdentity(ban.account) && InRange(ban.created) && SafeText(ban.reason, 256) && ValidActor(ban.actor)
      requires ban.expires.Some? ==> InRange(ban.expires.value) && ban.created < ban.expires.value
      ensures BanOk(ban)
    {
    }

    /** Lifts a ban; an account without one is no failure. */
    method RemoveBan(account: Account) returns (done: bool, removed: bool)
      requires Valid()
      modifies this, file
      ensures Valid()
      ensures done ==> contents.Some? && account !in bans
      ensures removed ==> done && Synced()
      ensures old(contents).Some? ==> contents.Some?
      ensures done && (old(contents).None? || old(Synced())) ==> Synced()
      ensures old(contents).Some? ==> bans == if removed then old(bans) - {account} else old(bans)
      ensures old(contents).Some? && !removed ==> contents == old(contents)
      ensures old(contents).Some? ==> file.content == old(file.content) || Holds(file.content, old(bans) - {account})
      ensures done && !removed && old(contents).Some? ==> file.content == old(file.content)
      ensures removed ==> old(contents).Some? ==> account in old(bans)
      ensures file.faults >= old(file.faults)
      ensures old(Synced()) && file.faults == old(file.faults) ==>
                (done <==> ValidIdentity(account)) && (removed <==> done && account in old(bans))
    {
      hide TableOk, ReadTable;
      var loaded := Load();
      if !loaded || !ValidIdentity(account) { return false, false; }
      if account !in bans { return true, false; }
      RemoveOk(bans, account);
      Smaller(bans, account);
      var saved := Save(bans - {account});
      return saved == Saved, saved == Saved;
    }

    static lemma Smaller(bans: Table, account: Account)
      ensures |bans - {account}| <= |bans|
    {
      assert (bans - {account}).Keys == bans.Keys - {account};
      assert |bans - {account}| == |(bans - {account}).Keys| && |bans| == |bans.Keys|;
      assert bans.Keys == (bans.Keys - {account}) + (bans.Keys * {account});
    }

    /**
      * Writes a sound table over the file, unless somebody else changed it. No time in the table is
      * ever unwritable, and what is written reads back to the table.
      */
    method Save(candidate: Table) returns (saving: Saving)
      requires Valid() && TableOk(candidate) && |candidate| <= BanLimit
      modifies this, file
      ensures Valid() && saving != Unwritable
      ensures saving == Saved ==>
                && bans == candidate && contents.Some? && file.content == Some(Database(contents.value))
                && old(contents).Some? && contents.value.extra == old(contents).value.extra
                && UntouchedStay(old(contents).value.bans, contents.value.bans, old(bans), candidate)
      ensures saving != Saved ==> bans == old(bans) && contents == old(contents)
      ensures file.content == old(file.content) || Holds(file.content, candidate)
      ensures saving == Changed ==> old(contents).Some? && file.content != Some(Database(old(contents).value))
      ensures file.faults >= old(file.faults)
      ensures saving == Saved <==> old(Synced()) && file.faults == old(file.faults)
      ensures !old(Synced()) ==> file.content == old(file.content)
    {
      hide TableOk, Written, ReadEntries, ReadEntry, OriginalsOf, UntouchedStay, Restricted, Decimal;
      if contents.None? { return Unread; }
      var previous := file.Read();
      if previous.None? { return Unread; }
      if previous.value != Database(contents.value) { return Changed; }
      var originals := OriginalsOf(contents.value.bans);
      OriginalsRead(contents.value.bans);
      var entries, order := WriteAll(candidate, originals);
      WrittenReads(entries, order, candidate, originals);
      WholeTable(order, candidate);
      UntouchedAreKept(contents.value.bans, entries, order, bans, candidate, originals);
      var document := Document(entries, contents.value.extra);
      var fits := file.Fits(document);
      if !fits { return Oversized; }
      var done := file.Replace(Database(document));
      if !done { return Failed; }
      contents, bans := Some(document), candidate;
      return Saved;
    }

    static lemma WholeTable(order: seq<Account>, bans: Table)
      requires forall account :: account in bans <==> account in order
      ensures Restricted(bans, Accounts(order)) == bans
    {
    }

    /** One entry after the other; the order of the accounts is returned for the proof. */
    method WriteAll(candidate: Table, originals: Originals) returns (entries: seq<Entry>, ghost order: seq<Account>)
      requires TableOk(candidate)
      ensures Lists(order, candidate) && Written(entries, order, candidate, originals)
      ensures forall account :: account in candidate <==> account in order
      ensures |entries| == |candidate|
    {
      hide WriteEntry, BanOk;
      entries, order := [], [];
      var rest := candidate.Keys;
      while rest != {}
        invariant rest <= candidate.Keys && Lists(order, candidate) && Written(entries, order, candidate, originals)
        invariant forall account :: account in order <==> account in candidate && account !in rest
        invariant |entries| + |rest| == |candidate|
        decreases rest
      {
        var account :| account in rest;
        EntryInverse(candidate[account], Original(originals, account));
        entries := entries + [WriteEntry(candidate[account], Original(originals, account)).value];
        order := order + [account];
        rest := rest - {account};
      }
    }

    /** A ban that was in the file and has not been changed keeps its entry, but for the spelling of its account. */
    static ghost predicate UntouchedStay(before: seq<Entry>, after: seq<Entry>, bans: Table, candidate: Table) {
      forall account :: account in candidate && account in bans && candidate[account] == bans[account] ==>
        exists entry :: entry in before && ReadEntry(entry) == Some(bans[account]) && entry.(steamid := Decimal(account)) in after
    }

    static lemma {:induction false} OriginalsAreEntries(entries: seq<Entry>)
      ensures forall account :: account in OriginalsOf(entries) ==> OriginalsOf(entries)[account] in entries
      decreases |entries|
    {
      hide ParseIdentity;
      if entries != [] { OriginalsAreEntries(entries[..|entries| - 1]); }
    }

    static lemma UntouchedAreKept(before: seq<Entry>, after: seq<Entry>, order: seq<Account>, bans: Table, candidate: Table, originals: Originals)
      requires ReadEntries(before) == Some(bans) && originals == OriginalsOf(before) && originals.Keys == bans.Keys
      requires forall account :: account in originals ==> ReadEntry(originals[account]) == Some(bans[account])
      requires Written(after, order, candidate, originals) && forall account :: account in candidate <==> account in order
      requires TableOk(bans)
      ensures UntouchedStay(before, after, bans, candidate)
    {
      hide WriteEntry, ReadEntry, ReadEntries, BanOk;
      OriginalsAreEntries(before);
      forall account | account in candidate && account in bans && candidate[account] == bans[account]
        ensures exists entry :: entry in before && ReadEntry(entry) == Some(bans[account]) && entry.(steamid := Decimal(account)) in after
      {
        var i :| 0 <= i < |order| && order[i] == account;
        UntouchedEntry(originals[account]);
        assert originals[account].(steamid := Decimal(account)) == after[i];
      }
    }
  }

  datatype Change = Add(account: Account, minutes: nat, reason: string, actor: string, now: int) | Remove(account: Account)

  /** The bans after one change. */
  function Carried(bans: Table, change: Change): Table {
    match change
    case Add(account, minutes, reason, actor, now) => bans[account := Store.NewBan(account, minutes, reason, actor, now)]
    case Remove(account) => bans - {account}
  }

  /** The bans after one change after the other. */
  function Fold(bans: Table, changes: seq<Change>): Table
    decreases |changes|
  {
    if changes == [] then bans else Fold(Carried(bans, changes[0]), changes[1..])
  }

  /** Every change may be made when its turn comes. */
  predicate Welcome(bans: Table, changes: seq<Change>)
    decreases |changes|
  {
    changes == [] ||
    (match changes[0]
     case Add(account, minutes, reason, actor, now) =>
       && Store.Acceptable(account, minutes, reason, actor, now) && |bans.Keys + {account}| <= BanLimit
       && Welcome(Carried(bans, changes[0]), changes[1..])
     case Remove(account) => ValidIdentity(account) && Welcome(Carried(bans, changes[0]), changes[1..]))
  }

  /** One change of a store that has what its file holds. */
  method Carry(store: Store, change: Change) returns (done: bool)
    requires store.Valid() && store.Synced()
    modifies store, store.file
    ensures store.Valid() && store.contents.Some? && store.file.faults >= old(store.file.faults)
    ensures done ==> store.Synced() && store.bans == Carried(old(store.bans), change)
    ensures store.file.faults == old(store.file.faults) && Welcome(old(store.bans), [change]) ==> done
  {
    hide Store.Acceptable, ReadTable, TableOk;
    match change
    case Add(account, minutes, reason, actor, now) => done := store.AddBan(account, minutes, reason, actor, now);
    case Remove(account) =>
      var removed;
      done, removed := store.RemoveBan(account);
      if done && !removed { assert store.bans == store.bans - {account}; }
  }

  lemma WelcomeApart(bans: Table, changes: seq<Change>)
    requires changes != []
    ensures Welcome(bans, changes) <==> Welcome(bans, changes[..1]) && Welcome(Carried(bans, changes[0]), changes[1..])
  {
    assert changes[..1][0] == changes[0] && changes[..1][1..] == [];
    hide Store.Acceptable;
  }

  /** Makes changes one after the other until one is not carried out. */
  method CarryAll(store: Store, changes: seq<Change>) returns (carriedOut: bool)
    requires store.Valid() && store.Synced()
    modifies store, store.file
    ensures store.Valid() && store.contents.Some? && store.file.faults >= old(store.file.faults)
    ensures carriedOut ==> store.Synced() && store.bans == Fold(old(store.bans), changes)
    ensures store.file.faults == old(store.file.faults) && Welcome(old(store.bans), changes) ==> carriedOut
  {
    hide Welcome, Carried, ReadTable, TableOk;
    for i := 0 to |changes|
      invariant store.Valid() && store.Synced() && store.file.faults >= old(store.file.faults)
      invariant Fold(store.bans, changes[i..]) == Fold(old(store.bans), changes)
      invariant store.file.faults == old(store.file.faults) && Welcome(old(store.bans), changes) ==> Welcome(store.bans, changes[i..])
    {
      WelcomeApart(store.bans, changes[i..]);
      assert changes[i..][..1] == [changes[i]] && changes[i..][1..] == changes[i + 1..];
      var done := Carry(store, changes[i]);
      if !done { return false; }
    }
    return true;
  }

  /**
    * After any changes that were all carried out, the store and one started afresh over its file hold
    * exactly what the changes make of the bans; and they are carried out when each may be made and no
    * file operation fails.
    */
  method ServeAndRestart(store: Store, changes: seq<Change>) returns (again: Store, loaded: bool, carriedOut: bool)
    requires store.Valid() && store.Synced()
    modifies store, store.file
    ensures store.Valid() && again.Valid()
    ensures carriedOut ==> store.bans == Fold(old(store.bans), changes)
    ensures carriedOut && loaded ==> again.bans == Fold(old(store.bans), changes)
    ensures store.file.faults == old(store.file.faults) && Welcome(old(store.bans), changes) ==> carriedOut && loaded
  {
    hide Welcome, Fold, ReadEntries, TableOk;
    carriedOut := CarryAll(store, changes);
    again := new Store(store.file);
    loaded := again.Load();
  }
}
