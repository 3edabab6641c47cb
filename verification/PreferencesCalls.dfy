/** What the calls of the preferences service do, in terms of what a caller can see. */
module PreferencesCalls {
  import opened PreferencesModel
  import opened PreferencesInvariant
  import opened PreferencesSteps
  import opened PreferencesRuns
  import opened PreferencesProgress
  import opened PreferencesLiveness

  // ----- connections -----------------------------------------------------------------------

  predicate GoodConnection(player: Identity) {
    0x110_0001_0000_0000 < player.account < 0x110_0002_0000_0000 && 0 <= player.slot < 128 && player.connection != 0
  }

  /** Every entry is good and no slot repeats. */
  predicate GoodSnapshot(players: seq<Identity>) {
    && (forall i :: 0 <= i < |players| ==> GoodConnection(players[i]))
    && forall i, j :: 0 <= i < j < |players| ==> players[i].slot != players[j].slot
  }

  lemma {:induction false} SessionsExactly(players: seq<Identity>)
    ensures Sessions(players).Some? <==> GoodSnapshot(players)
    ensures Sessions(players).Some? ==>
              forall player: Identity :: player.slot in Sessions(players).value && Sessions(players).value[player.slot] == player <==> player in players
    decreases |players|
  {
    if players != [] {
      var init, last := players[..|players| - 1], players[|players| - 1];
      assert players == init + [last];
      SessionsExactly(init);
      if Sessions(init).Some? && last.slot in Sessions(init).value {
        var earlier := Sessions(init).value[last.slot];
        SessionSlot(init, last.slot);
        assert earlier in init;
        var i :| 0 <= i < |init| && init[i] == earlier;
        assert players[i].slot == players[|init|].slot;
      }
      if Sessions(init).Some? && last.slot !in Sessions(init).value {
        forall i | 0 <= i < |init| ensures init[i].slot != last.slot { assert init[i] in init; }
      }
    }
  }

  lemma {:induction false} SessionSlot(players: seq<Identity>, slot: int)
    requires Sessions(players).Some? && slot in Sessions(players).value
    ensures Sessions(players).value[slot].slot == slot
    decreases |players|
  {
    if players != [] {
      var init, last := players[..|players| - 1], players[|players| - 1];
      if slot != last.slot { SessionSlot(init, slot); }
    }
  }

  lemma {:induction false} AddAccountsFacts(s: State, ids: seq<AccountId>)
    requires forall id :: id in ids ==> id !in s.accounts
    requires forall i, j :: 0 <= i < j < |ids| ==> ids[i] != ids[j]
    ensures var after := AddAccounts(s, ids);
            && after.accounts.Keys == s.accounts.Keys + (set id | id in ids) && after.players == s.players
            && forall id :: id in s.accounts ==> after.accounts[id] == s.accounts[id]
    decreases |ids|
  {
    if ids != [] {
      var added := Load(AddAccount(s, ids[0]), ids[0]);
      LoadDoes(AddAccount(s, ids[0]), ids[0]);
      hide Load;
      AddAccountsFacts(added, ids[1..]);
      assert (set id | id in ids) == {ids[0]} + set id | id in ids[1..];
    }
  }

  /**
    * A snapshot is taken exactly when it is good and the accounts fit; then exactly its players are connected,
    * each with a cached account, and a refused one changes nothing.
    */
  lemma SyncConnects(s: State, players: seq<Identity>)
    ensures var (after, reply) := Sync(s, players);
            && (reply.Returned? <==> |players| <= 128 && GoodSnapshot(players)
                                     && |s.accounts| + |Newcomers(s, players)| <= 256)
            && (reply.Raised? ==> after == s)
            && (reply.Returned? ==>
                  && (forall player: Identity :: player in players <==> Connected(after, player))
                  && (forall slot :: slot in after.players ==> after.players[slot].slot == slot && after.players[slot] in players))
  {
    SessionsExactly(players);
    hide GoodSnapshot;
    if |players| <= MAX_CLIENTS && Sessions(players).Some? {
      var next := Sessions(players).value;
      forall slot | slot in next ensures next[slot].slot == slot { SessionSlot(players, slot); }
      NewcomersAreMissing(s, players, next);
      JoinConnects(s, next);
      hide Sessions, AddAccounts, Ascending, Evict, ActiveAccounts, Newcomers;
    }
  }

  /** The new sessions are in force, and their accounts cached. */
  lemma JoinConnects(s: State, next: map<int, Identity>)
    ensures var after := Evict(AddAccounts(s.(players := next), Ascending(ActiveAccounts(next) - s.accounts.Keys)));
            && after.players == next && forall slot :: slot in next ==> next[slot].account in after.accounts
  {
    var missing := ActiveAccounts(next) - s.accounts.Keys;
    var joined := s.(players := next);
    AscendingDistinct(missing);
    hide AddAccounts, Ascending;
    AddAccountsFacts(joined, Ascending(missing));
    var added := AddAccounts(joined, Ascending(missing));
    EvictsExactly(added);
    hide Evict;
    forall slot | slot in next ensures next[slot].account in Evict(added).accounts {
      ActiveCovers(next, slot);
      assert next[slot].account in added.accounts.Keys;
      assert added.players[slot].account == next[slot].account;
      assert Needed(added, next[slot].account);
    }
  }

  /** The accounts of a snapshot that are not cached. */
  function Newcomers(s: State, players: seq<Identity>): set<AccountId> {
    set i | 0 <= i < |players| && players[i].account !in s.accounts :: players[i].account
  }

  lemma NewcomersAreMissing(s: State, players: seq<Identity>, next: map<int, Identity>)
    requires forall player: Identity :: player.slot in next && next[player.slot] == player <==> player in players
    requires forall slot :: slot in next ==> next[slot].slot == slot
    ensures ActiveAccounts(next) - s.accounts.Keys == Newcomers(s, players)
  {
    forall id | id in ActiveAccounts(next) - s.accounts.Keys ensures id in Newcomers(s, players) {
      var slot :| slot in next && next[slot].account == id;
      assert next[slot] in players;
      var i :| 0 <= i < |players| && players[i] == next[slot];
    }
    forall id | id in Newcomers(s, players) ensures id in ActiveAccounts(next) - s.accounts.Keys {
      var i :| 0 <= i < |players| && players[i].account !in s.accounts && players[i].account == id;
      assert players[i] in players;
      assert next[players[i].slot] == players[i];
    }
  }

  // ----- eviction ----------------------------------------------------------------------------

  /** Somebody with the account is connected, or a job or an unsaved write needs it. */
  predicate Needed(s: State, id: AccountId)
    requires id in s.accounts
  {
    || (exists slot :: slot in s.players && s.players[slot].account == id)
    || s.accounts[id].loading || s.accounts[id].saving || s.accounts[id].dirty != map[]
  }

  /** Eviction keeps exactly the accounts somebody needs, as they are. */
  lemma EvictsExactly(s: State)
    ensures var after := Evict(s);
            && (forall id :: id in after.accounts <==> id in s.accounts && Needed(s, id))
            && (forall id :: id in after.accounts ==> after.accounts[id] == s.accounts[id] && Needed(after, id))
            && after == s.(accounts := after.accounts)
  {
  }

  // ----- reading and writing ----------------------------------------------------------------------

  predicate CookieReady(s: State, cookie: CookieHandle) {
    cookie.name in s.cookies && s.cookies[cookie.name].serial == cookie.serial && s.cookies[cookie.name].state == Ready
  }

  predicate Playing(s: State, player: Identity) {
    player.slot in s.players && s.players[player.slot] == player && player.account in s.accounts
  }

  predicate CanWrite(s: State, id: AccountId, text: string, now: int)
    requires id in s.accounts
  {
    |text| <= 255 && (forall i :: 0 <= i < |text| ==> text[i] != '\0') && now >= 0 && s.accounts[id].revision < 0xffff_ffff_ffff_ffff
  }

  /** One value of one account was written, and is on its way to the store as soon as there is room. */
  predicate WroteOnly(s: State, after: State, id: AccountId, name: string, text: string, now: int)
    requires id in s.accounts
  {
    && id in after.accounts && after.accounts == s.accounts[id := after.accounts[id]]
    && after.accounts[id].values == s.accounts[id].values[name := Value(text, now, s.accounts[id].revision + 1)]
    && after.accounts[id].dirty == s.accounts[id].dirty[name := Value(text, now, s.accounts[id].revision + 1)]
    && !after.accounts[id].writeFailed && after.accounts[id].loading == s.accounts[id].loading && |s.queue| <= |after.queue|
    && (after.accounts[id].saving || |s.queue| >= QUEUE_CAPACITY)
    && (!s.accounts[id].saving && |s.queue| < QUEUE_CAPACITY ==>
          after.queue == s.queue + [SaveJob(id, s.accounts[id].serial, after.accounts[id].dirty, Waiting)])
    && after.accepted == s.accepted[id := Accepted(s, id)[name := Stored(text, now)]]
    && after.players == s.players && after.cookies == s.cookies && after.store == s.store
  }

  /** A save of all unsaved writes is queued, unless one is under way or failed, nothing is unsaved, or there is no room. */
  lemma SaveDoes(s: State, id: AccountId)
    requires id in s.accounts
    ensures var a, after := s.accounts[id], Save(s, id);
            if a.saving || a.writeFailed || a.dirty == map[] || |s.queue| >= QUEUE_CAPACITY then after == s
            else after == s.(accounts := s.accounts[id := a.(saving := true, error := "", writeError := "")],
                             queue := s.queue + [SaveJob(id, a.serial, a.dirty, Waiting)])
  {
  }

  lemma WriteDoes(s: State, id: AccountId, name: string, text: string, now: int)
    requires id in s.accounts
    ensures var (after, reply) := Write(s, id, name, text, now);
            && (reply.Returned? <==> now >= 0 && s.accounts[id].revision != MAX_REVISION)
            && (reply.Raised? ==> after == s)
            && (reply.Returned? ==> WroteOnly(s, after, id, name, text, now))
  {
    if now >= 0 && s.accounts[id].revision != MAX_REVISION { WrittenOnly(s, id, name, text, now); }
    hide Save;
  }

  /** The account with the new value. */
  function Edited(a: Account, name: string, value: Value): Account {
    a.(revision := value.revision, values := a.values[name := value], dirty := a.dirty[name := value], writeFailed := false)
  }

  lemma WrittenOnly(s: State, id: AccountId, name: string, text: string, now: int)
    requires id in s.accounts
    ensures var written := UpdateAccount(s, id, Edited(s.accounts[id], name, Value(text, now, s.accounts[id].revision + 1)))
                           .(accepted := s.accepted[id := Accepted(s, id)[name := Stored(text, now)]]);
            WroteOnly(s, Save(written, id), id, name, text, now)
  {
    var b := Edited(s.accounts[id], name, Value(text, now, s.accounts[id].revision + 1));
    var written := UpdateAccount(s, id, b).(accepted := s.accepted[id := Accepted(s, id)[name := Stored(text, now)]]);
    assert name in b.dirty;
    SaveDoes(written, id);
    hide Save;
  }

  lemma TextBounds(text: string)
    ensures ValidText(text) <==> |text| <= 255 && forall i :: 0 <= i < |text| ==> text[i] != '\0'
  {
  }

  /** A write is accepted exactly when it may be, changes exactly one value, and is what is read next. */
  lemma SetThenGet(s: State, player: Identity, cookie: CookieHandle, text: string, now: int)
    requires player.account in s.accounts ==> s.accounts[player.account].revision <= MAX_REVISION
    ensures var (after, reply) := Set(s, player, cookie, text, now);
            && (reply.Returned? <==> CookieReady(s, cookie) && Playing(s, player) && s.accounts[player.account].state == Ready
                                     && CanWrite(s, player.account, text, now))
            && (reply.Raised? ==> after == s)
            && (reply.Returned? ==>
                  && WroteOnly(s, after, player.account, cookie.name, text, now)
                  && Get(after, player, cookie) == Returned(Value(text, now, s.accounts[player.account].revision + 1))
                  && forall other: CookieHandle :: other.name != cookie.name ==> Get(after, player, other) == Get(s, player, other))
  {
    TextBounds(text);
    if player.account in s.accounts { WriteDoes(s, player.account, cookie.name, text, now); }
    hide Write, ValidText;
  }

  /** A player writes exactly the public cookies, and otherwise as any caller does. */
  lemma UserSetIsPublic(s: State, player: Identity, name: string, text: string, now: int)
    ensures var (after, reply) := UserSet(s, player, name, text, now);
            && (reply.Returned? ==> name in s.cookies && s.cookies[name].definition.access == Public)
            && (reply.Raised? ==> after == s)
            && (name in s.cookies && s.cookies[name].definition.access == Public && CookieReady(s, CookieHandle(name, s.cookies[name].serial)) ==>
                  (after, reply) == Set(s, player, CookieHandle(name, s.cookies[name].serial), text, now))
  {
    if name in s.cookies && player.account in s.accounts { WriteDoes(s, player.account, name, text, now); }
    hide Write, ValidText;
  }

  /** What the store and the unsaved writes say of a name; an account without it shows an empty value. */
  lemma GetShowsTheStore(s: State, player: Identity, cookie: CookieHandle)
    requires Inv(s)
    ensures var reply := Get(s, player, cookie);
            && (reply.Returned? <==> CookieReady(s, cookie) && Playing(s, player) && s.accounts[player.account].state == Ready)
            && (reply.Returned? ==>
                  var stored := Overlaid(AccountRows(s.store, player.account), s.accounts[player.account].dirty, cookie.name);
                  Strip(reply.value) == if stored.Some? then stored.value else Stored("", 0))
  {
    assert IdOk(s, player.account);
  }

  /** An accepted write to an account that need not be connected. */
  predicate IdentityWritten(s: State, after: State, id: AccountId, name: string, text: string, now: int) {
    && id in after.accounts && name in after.accounts[id].dirty
    && after.accounts[id].dirty[name].text == text && after.accounts[id].dirty[name].updated == now
    && Accepted(after, id) == Accepted(s, id)[name := Stored(text, now)]
    && (after.accounts[id].saving || |after.queue| >= QUEUE_CAPACITY)
    && (id !in s.accounts ==> after.accounts[id].loading || |after.queue| >= QUEUE_CAPACITY)
  }

  /** Nobody who needs an account loses it. */
  predicate NeededStay(s: State, after: State, id: AccountId) {
    forall other :: other in s.accounts && other != id && Needed(s, other) ==> other in after.accounts && after.accounts[other] == s.accounts[other]
  }

  lemma OfflineWrites(s: State, id: AccountId, name: string, text: string, now: int)
    requires id !in s.accounts && now >= 0
    ensures var (after, reply) := Write(Load(AddAccount(s, id), id), id, name, text, now);
            && reply.Returned? && IdentityWritten(s, after, id, name, text, now)
            && forall other :: other in s.accounts ==> other in after.accounts && after.accounts[other] == s.accounts[other]
  {
    var loading := Load(AddAccount(s, id), id);
    LoadDoes(AddAccount(s, id), id);
    WriteDoes(loading, id, name, text, now);
    hide Write, Load;
  }

  /** An offline account is cached for the write when there is a place; whoever goes for it was not needed. */
  lemma SetIdentityWrites(s: State, id: AccountId, cookie: CookieHandle, text: string, now: int)
    ensures var (after, reply) := SetIdentity(s, id, cookie, text, now);
            && (reply.Returned? <==>
                  && CookieReady(s, cookie) && ValidAccount(id) && |text| <= 255 && (forall i :: 0 <= i < |text| ==> text[i] != '\0') && now >= 0
                  && (if id in s.accounts then s.accounts[id].revision != MAX_REVISION else |Evict(s).accounts| != MAX_ACCOUNTS))
            && (reply.Returned? ==> IdentityWritten(s, after, id, cookie.name, text, now))
            && NeededStay(s, after, id)
  {
    TextBounds(text);
    CookieChecked(s, cookie);
    hide ValidAccount, ValidText, CheckCookie, CookieReady, Write, Load, Evict, Needed, IdentityWritten, NeededStay, AddAccount;
    NobodyLost(s, s, id);
    EvictedStay(s, id);
    if id in s.accounts { OnlineWrites(s, id, cookie.name, text, now); }
    else if now >= 0 { EvictedWrites(s, id, cookie.name, text, now); }
  }

  lemma CookieChecked(s: State, cookie: CookieHandle)
    ensures CheckCookie(s, cookie).None? <==> CookieReady(s, cookie)
  {
  }

  lemma NobodyLost(s: State, after: State, id: AccountId)
    requires forall other :: other in s.accounts && other != id ==> other in after.accounts && after.accounts[other] == s.accounts[other]
    ensures NeededStay(s, after, id)
  {
    hide Needed;
  }

  lemma EvictedStay(s: State, id: AccountId)
    ensures NeededStay(s, Evict(s), id)
  {
    EvictsExactly(s);
    hide Needed, Evict;
  }

  lemma OnlineWrites(s: State, id: AccountId, name: string, text: string, now: int)
    requires id in s.accounts
    ensures var (after, reply) := Write(s, id, name, text, now);
            && (reply.Returned? <==> now >= 0 && s.accounts[id].revision != MAX_REVISION)
            && (reply.Raised? ==> after == s)
            && (reply.Returned? ==> IdentityWritten(s, after, id, name, text, now))
            && NeededStay(s, after, id)
  {
    WriteDoes(s, id, name, text, now);
    hide Write;
    NobodyLost(s, Write(s, id, name, text, now).0, id);
    hide NeededStay;
  }

  lemma EvictedWrites(s: State, id: AccountId, name: string, text: string, now: int)
    requires id !in s.accounts && now >= 0
    ensures id !in Evict(s).accounts
    ensures var (after, reply) := Write(Load(AddAccount(Evict(s), id), id), id, name, text, now);
            reply.Returned? && IdentityWritten(s, after, id, name, text, now) && NeededStay(s, after, id)
  {
    EvictsExactly(s);
    OfflineWrites(Evict(s), id, name, text, now);
    hide Write, Load, Evict, Needed, AddAccount;
  }

  /** A load is under way afterwards, or found no room. */
  lemma LoadDoes(s: State, id: AccountId)
    requires id in s.accounts
    ensures var after := Load(s, id);
            && id in after.accounts && after.accounts == s.accounts[id := after.accounts[id]]
            && (after.accounts[id].loading || (after.accounts[id].state == Failed && |s.queue| >= QUEUE_CAPACITY))
            && after.accounts[id].dirty == s.accounts[id].dirty && after.accounts[id].values == s.accounts[id].values
            && after.accounts[id].revision == s.accounts[id].revision && after.accounts[id].saving == s.accounts[id].saving
            && after.accounts[id].serial == s.accounts[id].serial && after.accounts[id].writeFailed == s.accounts[id].writeFailed
            && (!s.accounts[id].loading && |s.queue| < QUEUE_CAPACITY ==>
                  after.queue == s.queue + [LoadJob(id, s.accounts[id].serial, Waiting)])
            && |s.queue| <= |after.queue| && after.accepted == s.accepted && after.cookies == s.cookies && after.players == s.players && after.store == s.store
  {
  }

  /** A refresh is refused exactly for a busy or unknown account, and otherwise asks the store again. */
  lemma RefreshLoads(s: State, player: Identity)
    ensures var (after, reply) := Refresh(s, player);
            && (reply.Returned? <==> Playing(s, player) && !s.accounts[player.account].loading && !s.accounts[player.account].saving
                                     && s.accounts[player.account].dirty == map[])
            && (reply.Raised? ==> after == s)
            && (reply.Returned? && |s.queue| < QUEUE_CAPACITY ==>
                  after.accounts[player.account].loading && after.queue == s.queue + [LoadJob(player.account, s.accounts[player.account].serial, Waiting)])
  {
  }

  /** A failed load is tried again, and nothing else. */
  lemma RetryLoadLoads(s: State, player: Identity)
    ensures var (after, reply) := RetryLoad(s, player);
            && (reply.Returned? <==> Playing(s, player))
            && (reply.Returned? && s.accounts[player.account].state == Failed && |s.queue| < QUEUE_CAPACITY ==> after.accounts[player.account].loading)
            && (reply.Raised? || s.accounts[player.account].state != Failed ==> after == s)
  {
  }

  // ----- cookies -------------------------------------------------------------------------------------

  /** A registration is taken exactly when it may be; its cookie is in the table, ready or with its job queued. */
  lemma RegisterDoes(s: State, definition: Definition)
    requires Inv(s) && UnderWay(s)
    ensures var (after, reply) := Register(s, definition);
            && (reply.Returned? <==>
                  && ValidDefinition(definition)
                  && (if definition.name in s.cookies then s.cookies[definition.name].definition == definition
                      else |s.cookies| < 256 && |s.queue| < QUEUE_CAPACITY))
            && (reply.Raised? ==> after == s)
            && (reply.Returned? ==>
                  && reply.value.name == definition.name && definition.name in after.cookies
                  && after.cookies[definition.name].serial == reply.value.serial && after.cookies[definition.name].definition == definition
                  && (after.cookies[definition.name].state == Ready || RegistrationQueued(after.queue, after.cookies[definition.name])))
            && (forall name :: name in s.cookies ==> name in after.cookies && after.cookies[name] == s.cookies[name])
  {
    RegisterUnderWay(s, definition);
    if definition.name in s.cookies { assert CookieOk(s, definition.name); }
    if Register(s, definition).1.Returned? && Register(s, definition).0 != s {
      assert Register(s, definition).0.cookies[definition.name].state == LoadState.Loading;
    }
    hide ValidDefinition, RegistrationQueued, Core, SavesUnderWay, CatalogUnderWay, LoadsUnderWay;
  }

  // ----- completions ------------------------------------------------------------------------------------

  /** A finished load: the account is ready with the snapshot under its unsaved writes, or says why not. */
  ghost predicate LoadSettled(a: Account, b: Account, snapshot: Outcome<Rows>) {
    && !b.loading && b.dirty == a.dirty && b.saving == a.saving
    && (snapshot.Threw? ==> b.state == Failed && b.error == snapshot.message && b.values == a.values)
    && (snapshot.Done? ==> b.state == Ready && b.error == "" && forall name :: Cached(b.values, name) == Overlaid(snapshot.result, a.dirty, name))
  }

  /** A finished save: what it saved in its newest revision is clean, or a mark says why not. */
  ghost predicate SaveSettled(a: Account, b: Account, batch: Values, saved: Outcome<()>) {
    && !b.saving && b.values == a.values && b.state == a.state && b.loading == a.loading
    && (saved.Threw? ==> b.writeFailed && b.writeError == saved.message && b.dirty == a.dirty)
    && (saved.Done? ==> !b.writeFailed && b.writeError == ""
                        && forall name :: name in b.dirty <==>
                             name in a.dirty && (name !in batch || batch[name].revision != a.dirty[name].revision))
  }

  lemma LoadSettles(a: Account, snapshot: Outcome<Rows>)
    requires !snapshot.Waiting?
    ensures LoadSettled(a, LoadFinished(a, snapshot), snapshot)
  {
  }

  lemma SaveSettles(a: Account, batch: Values, saved: Outcome<()>)
    requires !saved.Waiting?
    ensures SaveSettled(a, SaveFinished(a, batch, saved), batch, saved)
  {
  }

  /** What the completion of the oldest job does to the account it is about. */
  lemma CompletionSettles(s: State, id: AccountId)
    requires s.queue != [] && s.ran > 0 && s.queue[0].Ran() && s.queue[0].About(id) && Owns(s, id, s.queue[0].serial)
    ensures var a, job, after := s.accounts[id], s.queue[0], DispatchOne(s);
            && after.queue == s.queue[1..] && id in after.accounts && after.accounts == s.accounts[id := after.accounts[id]]
            && (job.LoadJob? ==> LoadSettled(a, after.accounts[id], job.snapshot))
            && (job.SaveJob? ==> SaveSettled(a, after.accounts[id], job.batch, job.saved))
  {
    match s.queue[0]
    case LoadJob(_, _, snapshot) => LoadSettles(s.accounts[id], snapshot);
    case SaveJob(_, _, batch, saved) => SaveSettles(s.accounts[id], batch, saved);
    case _ =>
  }

  /** What the completion of a registration does to its cookie. */
  lemma RegistrationSettles(s: State)
    requires s.queue != [] && s.ran > 0 && s.queue[0].Ran() && s.queue[0].RegisterJob?
    requires s.queue[0].definition.name in s.cookies && s.cookies[s.queue[0].definition.name].serial == s.queue[0].serial
    ensures var job, after := s.queue[0], DispatchOne(s);
            if job.registered.Threw? then after.cookies == s.cookies - {job.definition.name}
            else job.definition.name in after.cookies && after.cookies[job.definition.name].state == Ready
                 && after.cookies[job.definition.name].definition == s.cookies[job.definition.name].definition
  {
  }

  predicate Holds(s: State, definition: Definition) {
    definition.name in s.cookies && s.cookies[definition.name].definition == definition
  }

  lemma MergeHolds(s: State, definition: Definition)
    ensures var (next, continues) := MergeDefinition(s, definition);
            && (continues ==> Holds(next, definition))
            && (!continues ==> next.catalogState == Failed && |next.cookies| == 256 && next.cookies == s.cookies)
            && forall other: Definition :: other.name != definition.name && Holds(s, other) ==> Holds(next, other)
  {
  }

  /** The persisted catalogue is in the table afterwards, or the table is full and says so. */
  lemma {:induction false} CatalogMerges(s: State, listing: seq<Definition>)
    requires forall i, j :: 0 <= i < j < |listing| ==> listing[i].name != listing[j].name
    ensures var after := MergeCatalog(s, listing);
            && ((forall d :: d in listing ==> Holds(after, d)) || (after.catalogState == Failed && |after.cookies| == 256))
            && forall other: Definition :: Holds(s, other) && (forall d :: d in listing ==> d.name != other.name) ==> Holds(after, other)
    decreases |listing|
  {
    if listing != [] {
      var (next, continues) := MergeDefinition(s, listing[0]);
      MergeHolds(s, listing[0]);
      hide Holds, MergeDefinition;
      if continues {
        forall d | d in listing[1..] ensures d.name != listing[0].name {
          var j :| 0 <= j < |listing[1..]| && listing[1..][j] == d;
          assert listing[j + 1] == d;
        }
        CatalogMerges(next, listing[1..]);
        assert forall d :: d in listing ==> d == listing[0] || d in listing[1..];
      }
    }
  }

  // ----- the worker -----------------------------------------------------------------------------------------

  /** A loaded account is exactly its rows. */
  lemma JoinedIsAll(store: Store, id: AccountId)
    requires StoreOk(store)
    ensures Joined(store, id) == AccountRows(store, id) && |AccountRows(store, id)| <= MAX_COOKIES
  {
    assert AllRegistered(store.catalogue, AccountRows(store, id).Keys);
    SubsetSize(AccountRows(store, id).Keys, store.catalogue);
    assert |AccountRows(store, id)| == |AccountRows(store, id).Keys|;
  }

  /** The store after a batch: its rows take the place of older ones, and nothing else changed. */
  ghost predicate Wrote(before: Store, after: Store, id: AccountId, batch: Values) {
    && after.catalogue == before.catalogue
    && (forall name :: At(AccountRows(after, id), name) == Overlaid(AccountRows(before, id), batch, name))
    && forall other :: other != id ==> AccountRows(after, other) == AccountRows(before, other)
  }

  lemma StoreSaves(store: Store, id: AccountId, batch: Values)
    requires SaveRefusal(store, id, batch).None?
    ensures StoreSave(store, id, batch).1 == Done(()) && Wrote(store, StoreSave(store, id, batch).0, id, batch)
  {
    hide SaveRefusal;
  }

  lemma StoreLoads(store: Store, id: AccountId)
    requires StoreOk(store) && ValidAccount(id)
    ensures StoreLoad(store, id) == Done(AccountRows(store, id))
  {
    JoinedIsAll(store, id);
    hide StoreOk, Joined;
  }

  lemma StoreLists(store: Store)
    requires StoreOk(store)
    ensures StoreCatalog(store) == Done(store.catalogue)
  {
  }

  /** Without a fault the worker loads all rows, saves the whole batch and nothing else, lists the catalogue. */
  lemma WorkSucceeds(s: State)
    requires Core(s) && s.ran < |s.queue|
    ensures var job, after := s.queue[s.ran], Work(s, NoFault);
            && after.ran == s.ran + 1 && after.queue == s.queue[s.ran := after.queue[s.ran]]
            && var ran := after.queue[s.ran];
               && (job.LoadJob? && ValidAccount(job.id) ==>
                     ran == LoadJob(job.id, job.serial, Done(AccountRows(s.store, job.id))) && after.store == s.store)
               && (job.CatalogJob? ==> ran == CatalogJob(Done(s.store.catalogue)) && after.store == s.store)
               && (job.SaveJob? ==>
                     ran == SaveJob(job.id, job.serial, job.batch, Done(())) && Wrote(s.store, after.store, job.id, job.batch))
  {
    hide Core, SaveRefusal, StoreRegister, ValidAccount, StoreSave, StoreLoad, StoreCatalog, Wrote, StoreOk, WriteRows;
    CoreNeverRefuses(s);
    CoreHasStore(s);
    match s.queue[s.ran]
    case CatalogJob(_) => StoreLists(s.store);
    case LoadJob(id, _, _) => if ValidAccount(id) { StoreLoads(s.store, id); }
    case SaveJob(id, _, batch, _) => StoreSaves(s.store, id, batch);
    case _ =>
  }

  lemma CoreHasStore(s: State)
    requires Core(s)
    ensures StoreOk(s.store)
  {
  }

  /** The store takes a definition exactly when it is sound, does not contradict it, and there is room for a new one. */
  lemma StoreRegisters(store: Store, definition: Definition)
    requires StoreOk(store)
    ensures var (after, outcome) := StoreRegister(store, definition);
            && (outcome.Done? <==>
                  && ValidDefinition(definition)
                  && (Find(store.catalogue, definition.name) == Some(definition)
                      || (Find(store.catalogue, definition.name).None? && |store.catalogue| < MAX_COOKIES)))
            && (outcome.Done? ==> Find(after.catalogue, definition.name) == Some(definition))
            && (outcome.Threw? ==> after == store) && after.rows == store.rows
            && forall name :: name != definition.name ==> Find(after.catalogue, name) == Find(store.catalogue, name)
  {
    hide ValidDefinition;
    if Find(store.catalogue, definition.name).None? {
      forall name { InsertFinds(store.catalogue, definition, name); }
    }
  }

  // ----- a flush finishes what was loading -----------------------------------------------------------------

  predicate OnlySaves(queue: seq<Job>) {
    forall i :: 0 <= i < |queue| ==> queue[i].SaveJob?
  }

  lemma {:induction false} SaveAllQueuesSaves(s: State, ids: seq<AccountId>)
    requires OnlySaves(s.queue) && forall id :: id in ids ==> id in s.accounts
    ensures OnlySaves(SaveAll(s, ids).queue)
    decreases |ids|
  {
    if ids != [] {
      SaveDoes(s, ids[0]);
      hide Save;
      SaveAllQueuesSaves(Save(s, ids[0]), ids[1..]);
    }
  }

  lemma {:induction false} WorkedUnderWay(s: State)
    requires UnderWay(s) && Inv(s)
    ensures s.ran <= |s.queue| && UnderWay(Worked(s))
    decreases |s.queue| - s.ran
  {
    CoreFacts(s);
    if s.ran < |s.queue| {
      WorkMoves(s, NoFault);
      WorkUnderWay(s, NoFault);
      WorkKeepsInv(s, NoFault);
      hide Inv, UnderWay, Work;
      WorkedUnderWay(Work(s, NoFault));
    }
  }

  lemma FlushOnlySaves(s: State)
    requires Inv(s)
    ensures s.ran <= |s.queue| && OnlySaves(Flush(s).queue)
  {
    DrainedFacts(s);
    hide Inv, Core, Dispatch, Worked, SaveAll, AllCovered, CoveredOrMarked;
    var drained := Drained(s);
    SaveAllQueuesSaves(drained, Ascending(drained.accounts.Keys));
    EvictsExactly(SaveAll(drained, Ascending(drained.accounts.Keys)));
  }

  lemma {:induction false} MineOnlySaves(queue: seq<Job>, id: AccountId)
    requires OnlySaves(queue)
    ensures OnlySaves(Mine(queue, id))
    decreases |queue|
  {
    if queue != [] { MineOnlySaves(queue[1..], id); }
  }

  /** After the worker has caught up and a pump has run, nothing is loading or being registered any more. */
  lemma FlushFinishes(s: State)
    requires Inv(s) && UnderWay(s)
    ensures s.ran <= |s.queue|
    ensures var after := Flush(s);
            && Inv(after) && UnderWay(after) && after.catalogState != LoadState.Loading
            && (forall id :: id in after.accounts ==> after.accounts[id].state != LoadState.Loading && !after.accounts[id].loading)
            && forall name :: name in after.cookies ==> after.cookies[name].state == Ready
  {
    FlushCovers(s);
    FlushOnlySaves(s);
    WorkedUnderWay(s);
    WorkedFacts(s);
    InvHasCore(Worked(s));
    PumpUnderWay(Worked(s), |s.queue|);
    hide Worked, Pump, CoveredOrMarked, AllCovered;
    NoneLoading(Flush(s));
  }

  lemma NoneLoading(s: State)
    requires Inv(s) && UnderWay(s) && OnlySaves(s.queue)
    ensures s.catalogState != LoadState.Loading
    ensures forall id :: id in s.accounts ==> s.accounts[id].state != LoadState.Loading && !s.accounts[id].loading
    ensures forall name :: name in s.cookies ==> s.cookies[name].state == Ready
  {
    forall id | id in s.accounts ensures !s.accounts[id].loading {
      assert IdOk(s, id);
      MineOnlySaves(s.queue, id);
    }
    forall name | name in s.cookies ensures s.cookies[name].state == Ready {
      assert CookieOk(s, name);
    }
  }
}
