/** Coherence, durability and catalogue agreement over every run of the service. */
module PreferencesRuns {
  import opened PreferencesModel
  import opened PreferencesInvariant
  import opened PreferencesSteps

  // ----- every call keeps the invariant ---------------------------------------------

  lemma {:induction false} SaveAllKeepsCore(s: State, ids: seq<AccountId>)
    requires Core(s) && forall id :: id in ids ==> id in s.accounts
    ensures Core(SaveAll(s, ids))
    ensures SaveAll(s, ids).accounts.Keys == s.accounts.Keys && SaveAll(s, ids).players == s.players
    decreases |ids|
  {
    hide Core, Save;
    if ids != [] {
      SaveKeepsCore(s, ids[0]);
      SaveKeepsPlayers(s, ids[0]);
      SaveAllKeepsCore(Save(s, ids[0]), ids[1..]);
    }
  }

  lemma SaveKeepsPlayers(s: State, id: AccountId)
    requires id in s.accounts
    ensures Save(s, id).players == s.players
  {
  }

  /** Clearing the failure mark of an account changes nothing the invariant mentions. */
  lemma ForgetFailure(s: State, id: AccountId)
    requires Core(s) && id in s.accounts
    ensures Core(UpdateAccount(s, id, s.accounts[id].(writeFailed := false)))
  {
    hide AccountOk, Registered, StoreOk;
    var after := UpdateAccount(s, id, s.accounts[id].(writeFailed := false));
    CookieJobsStay(s, after);
    NamesStay(s, id, s.accounts[id].(writeFailed := false), LoadJob(id, 0, Waiting));
    forall other ensures IdOk(after, other) {
      assert IdOk(s, other);
      if other == id { FailureUnmentioned(s.accounts[id], id, Mine(s.queue, id), AccountRows(s.store, id), Accepted(s, id)); }
    }
  }

  lemma FailureUnmentioned(a: Account, id: AccountId, jobs: seq<Job>, rows: Rows, accepted: Rows)
    requires AccountOk(a, id, jobs, rows, accepted)
    ensures AccountOk(a.(writeFailed := false), id, jobs, rows, accepted)
  {
    forall i | 0 <= i < |jobs| && jobs[i].SaveJob? ensures BatchOk(jobs[i], a.(writeFailed := false), rows) {
      assert BatchOk(jobs[i], a, rows);
    }
  }

  lemma {:induction false} RetryAllKeepsCore(s: State, ids: seq<AccountId>)
    requires Core(s) && forall id :: id in ids ==> id in s.accounts
    ensures Core(RetryAll(s, ids))
    ensures RetryAll(s, ids).accounts.Keys == s.accounts.Keys && RetryAll(s, ids).players == s.players
    decreases |ids|
  {
    hide Core, Save;
    if ids != [] {
      var cleared := UpdateAccount(s, ids[0], s.accounts[ids[0]].(writeFailed := false));
      ForgetFailure(s, ids[0]);
      SaveKeepsCore(cleared, ids[0]);
      SaveKeepsPlayers(cleared, ids[0]);
      RetryAllKeepsCore(RetryOne(s, ids[0]), ids[1..]);
    }
  }

  lemma PumpKeepsInv(s: State, count: nat)
    requires Inv(s)
    ensures Inv(Pump(s, count))
  {
    hide Core, Evict;
    DispatchKeepsCore(s, count);
    var drained := Dispatch(s, count);
    SaveAllKeepsCore(drained, Ascending(drained.accounts.Keys));
    var saved := SaveAll(drained, Ascending(drained.accounts.Keys));
    assert |saved.accounts| == |saved.accounts.Keys| == |s.accounts|;
    EvictKeepsInv(saved);
  }

  lemma RetryWritesKeepsInv(s: State)
    requires Inv(s)
    ensures Inv(RetryWrites(s))
  {
    hide Core;
    RetryAllKeepsCore(s, Ascending(s.accounts.Keys));
    assert |RetryWrites(s).accounts| == |RetryWrites(s).accounts.Keys|;
  }

  lemma {:induction false} SessionsValid(players: seq<Identity>)
    ensures var next := Sessions(players);
            next.Some? ==> forall slot :: slot in next.value ==> ValidAccount(next.value[slot].account)
    decreases |players|
  {
    hide ValidAccount;
    if players != [] { SessionsValid(players[..|players| - 1]); }
  }

  lemma {:induction false} AscendingDistinct(ids: set<nat>)
    ensures forall i, j :: 0 <= i < j < |Ascending(ids)| ==> Ascending(ids)[i] < Ascending(ids)[j]
    decreases |ids|
  {
    if ids != {} {
      var id := Smallest(ids);
      AscendingDistinct(ids - {id});
      var rest := Ascending(ids - {id});
      forall j | 0 <= j < |rest| ensures id < rest[j] { assert rest[j] in rest; }
    }
  }

  lemma ActiveCovers(players: map<int, Identity>, slot: int)
    requires slot in players
    ensures players[slot].account in ActiveAccounts(players)
  {
  }

  lemma JoinedSize(after: map<AccountId, Account>, before: map<AccountId, Account>, ids: set<AccountId>)
    requires after.Keys == before.Keys + ids && before.Keys !! ids
    ensures |after| == |before| + |ids|
  {
    assert |after| == |after.Keys| && |before| == |before.Keys|;
  }

  lemma JoinKeepsCore(s: State, next: map<int, Identity>, missing: set<AccountId>)
    requires Core(s) && missing !! s.accounts.Keys
    requires forall id :: id in missing ==> ValidAccount(id)
    ensures var added := AddAccounts(s.(players := next), Ascending(missing));
            Core(added) && added.players == next && added.accounts.Keys == s.accounts.Keys + missing
  {
    hide Core, AddAccounts, ValidAccount, Ascending;
    AscendingDistinct(missing);
    PlayersUnmentioned(s, next);
    AddAccountsKeepsCore(s.(players := next), Ascending(missing));
  }

  /** The snapshot's new accounts are cached and loading before the idle ones are dropped. */
  lemma JoinKeepsInv(s: State, next: map<int, Identity>, missing: set<AccountId>)
    requires Inv(s) && missing == ActiveAccounts(next) - s.accounts.Keys
    requires forall id :: id in missing ==> ValidAccount(id)
    requires |s.accounts| + |missing| <= MAX_ACCOUNTS
    ensures Inv(Evict(AddAccounts(s.(players := next), Ascending(missing))))
  {
    hide Core, Evict, AddAccounts, ValidAccount, Ascending, ActiveAccounts;
    var added := AddAccounts(s.(players := next), Ascending(missing));
    JoinKeepsCore(s, next, missing);
    JoinedSize(added.accounts, s.accounts, missing);
    forall slot | slot in added.players ensures added.players[slot].account in added.accounts {
      ActiveCovers(next, slot);
    }
    EvictKeepsInv(added);
  }

  lemma SyncKeepsInv(s: State, players: seq<Identity>)
    requires Inv(s)
    ensures Inv(Sync(s, players).0)
  {
    hide Inv, Evict, AddAccounts, ValidAccount;
    SessionsValid(players);
    if |players| <= MAX_CLIENTS && Sessions(players).Some? {
      var missing := ActiveAccounts(Sessions(players).value) - s.accounts.Keys;
      if |s.accounts| + |missing| <= MAX_ACCOUNTS {
        JoinKeepsInv(s, Sessions(players).value, missing);
      }
    }
  }

  lemma PlayersUnmentioned(s: State, players: map<int, Identity>)
    requires Core(s)
    ensures Core(s.(players := players))
  {
    hide AccountOk, AllRegistered, StoreOk;
    var after := s.(players := players);
    CookieJobsStay(s, after);
    forall id ensures IdOk(after, id) {
      assert IdOk(s, id);
      SameIds(s, after, id);
    }
  }

  /** A cookie that passes the check is registered in the store. */
  lemma CheckedCookie(s: State, cookie: CookieHandle)
    requires CookiesOk(s) && StoreOk(s.store) && CheckCookie(s, cookie).None?
    ensures cookie.name in s.cookies && Registered(s.store.catalogue, cookie.name) && ValidName(cookie.name)
    ensures Find(s.store.catalogue, cookie.name) == Some(s.cookies[cookie.name].definition)
  {
    assert CookieOk(s, cookie.name);
  }

  lemma WriteKeepsInv(s: State, id: AccountId, name: string, text: string, now: int)
    requires Core(s) && id in s.accounts && |s.accounts| <= MAX_ACCOUNTS
    requires forall slot :: slot in s.players ==> s.players[slot].account in s.accounts
    requires Registered(s.store.catalogue, name) && ValidName(name) && ValidText(text)
    ensures Inv(Write(s, id, name, text, now).0)
  {
    hide Core, Write, Registered, ValidName, ValidText;
    WriteKeepsCore(s, id, name, text, now);
    var after := Write(s, id, name, text, now).0;
    assert |after.accounts| == |after.accounts.Keys| == |s.accounts|;
  }

  lemma OfflineCore(s: State, id: AccountId)
    requires Core(s) && id !in s.accounts && ValidAccount(id)
    ensures var loading := Load(AddAccount(s, id), id);
            Core(loading) && loading.players == s.players && loading.store == s.store
            && loading.accounts.Keys == s.accounts.Keys + {id}
  {
    hide Core, Load, ValidAccount;
    var added := AddAccount(s, id);
    AddAccountKeepsCore(s, id);
    LoadKeepsCore(added, id);
    LoadKeepsPlayers(added, id);
    LoadKeepsStore(added, id);
  }

  /** A write to an account that is not cached: its load is queued before its save. */
  lemma OfflineWriteKeepsInv(s: State, id: AccountId, name: string, text: string, now: int)
    requires Inv(s) && id !in s.accounts && |s.accounts| < MAX_ACCOUNTS && ValidAccount(id)
    requires Registered(s.store.catalogue, name) && ValidName(name) && ValidText(text)
    ensures Inv(Write(Load(AddAccount(s, id), id), id, name, text, now).0)
  {
    hide Core, Load, Write, Registered, ValidName, ValidText, ValidAccount;
    OfflineCore(s, id);
    var loading := Load(AddAccount(s, id), id);
    JoinedSize(loading.accounts, s.accounts, {id});
    WriteKeepsInv(loading, id, name, text, now);
  }

  lemma SetKeepsInv(s: State, player: Identity, cookie: CookieHandle, text: string, now: int)
    requires Inv(s)
    ensures Inv(Set(s, player, cookie, text, now).0)
  {
    hide Write, ValidText, ValidName, Registered, CheckCookie;
    if CheckCookie(s, cookie).None? && ValidText(text) && Connected(s, player) {
      CheckedCookie(s, cookie);
      hide Core;
      WriteKeepsInv(s, player.account, cookie.name, text, now);
    }
  }

  lemma SetIdentityKeepsInv(s: State, id: AccountId, cookie: CookieHandle, text: string, now: int)
    requires Inv(s)
    ensures Inv(SetIdentity(s, id, cookie, text, now).0)
  {
    hide Write, Evict, Load, AddAccount, ValidText, ValidAccount, ValidName, Registered, CheckCookie;
    if CheckCookie(s, cookie).None? && ValidAccount(id) && ValidText(text) && now >= 0 {
      CheckedCookie(s, cookie);
      hide Core;
      if id in s.accounts {
        WriteKeepsInv(s, id, cookie.name, text, now);
      } else {
        var evicted := Evict(s);
        EvictKeepsInv(s);
        EvictKeepsTables(s);
        EvictShrinks(s);
        if |evicted.accounts| != MAX_ACCOUNTS {
          OfflineWriteKeepsInv(evicted, id, cookie.name, text, now);
        }
      }
    }
  }

  lemma EvictKeepsTables(s: State)
    ensures Evict(s).store == s.store && Evict(s).cookies == s.cookies
  {
  }

  lemma LoadKeepsStore(s: State, id: AccountId)
    requires id in s.accounts
    ensures Load(s, id).store == s.store
  {
  }

  lemma LoadKeepsInv(s: State, id: AccountId)
    requires Inv(s) && id in s.accounts
    ensures Inv(Load(s, id))
  {
    hide Core, Load;
    LoadKeepsCore(s, id);
    LoadKeepsPlayers(s, id);
    assert |Load(s, id).accounts| == |Load(s, id).accounts.Keys| == |s.accounts|;
  }

  /** Calls about the cookie table and worker steps touch no session and no account key. */
  lemma TablesOnly(s: State, event: Event)
    requires event.RegisterEvent? || event.RetryCatalogEvent? || event.WorkEvent? || event.ForeignRegisterEvent?
    ensures Step(s, event).players == s.players && Step(s, event).accounts == s.accounts
  {
    hide RunJob, StoreRegister, ValidDefinition;
  }

  /** Every step of every kind keeps the invariant. */
  lemma StepKeepsInv(s: State, event: Event)
    requires Inv(s)
    ensures Inv(Step(s, event))
  {
    hide *;
    match event
    case RegisterEvent(definition) => StepCore(s, event);
    case RetryCatalogEvent => StepCore(s, event);
    case WorkEvent(fault) => StepCore(s, event);
    case ForeignRegisterEvent(definition) => StepCore(s, event);
    case _ => StepCalls(s, event);
  }

  lemma StepCore(s: State, event: Event)
    requires Inv(s)
    requires event.RegisterEvent? || event.RetryCatalogEvent? || event.WorkEvent? || event.ForeignRegisterEvent?
    ensures Inv(Step(s, event))
  {
    hide Core, Register, RetryCatalog, Work, StoreRegister;
    TablesOnly(s, event);
    match event
    case RegisterEvent(definition) => RegisterKeepsCore(s, definition);
    case RetryCatalogEvent => RetryCatalogKeepsCore(s);
    case WorkEvent(fault) => WorkKeepsCore(s, fault);
    case ForeignRegisterEvent(definition) => ForeignRegisterKeepsCore(s, definition);
    case _ => assert false;
  }

  lemma ConnectedIsCached(s: State)
    requires Inv(s)
    ensures forall slot :: slot in s.players ==> s.players[slot].account in s.accounts
  {
  }

  lemma RegisterKeepsInv(s: State, definition: Definition)
    requires Inv(s)
    ensures Inv(Register(s, definition).0)
  {
    hide Inv, Register;
    StepCore(s, RegisterEvent(definition));
  }

  lemma WorkKeepsInv(s: State, fault: Fault)
    requires Inv(s)
    ensures Inv(Work(s, fault))
  {
    hide Inv, Work;
    StepCore(s, WorkEvent(fault));
  }

  lemma StepCalls(s: State, event: Event)
    requires Inv(s)
    requires !(event.RegisterEvent? || event.RetryCatalogEvent? || event.WorkEvent? || event.ForeignRegisterEvent?)
    ensures Inv(Step(s, event))
  {
    hide Inv, Load, Sync, Set, SetIdentity, RetryWrites, Pump, CheckCookie;
    match event
    case SyncEvent(players) => SyncKeepsInv(s, players);
    case SetEvent(player, cookie, text, now) => SetKeepsInv(s, player, cookie, text, now);
    case UserSetEvent(player, name, text, now) =>
      if name in s.cookies { SetKeepsInv(s, player, CookieHandle(name, s.cookies[name].serial), text, now); }
    case SetIdentityEvent(id, cookie, text, now) => SetIdentityKeepsInv(s, id, cookie, text, now);
    case RetryLoadEvent(player) => if Connected(s, player) { LoadKeepsInv(s, player.account); }
    case RefreshEvent(player) => if Connected(s, player) { LoadKeepsInv(s, player.account); }
    case RetryWritesEvent => RetryWritesKeepsInv(s);
    case PumpEvent(count) => PumpKeepsInv(s, count);
    case _ => assert false;
  }

  lemma StartInv(store: Store)
    requires StoreOk(store)
    ensures Inv(Start(store))
  {
    hide StoreOk;
    var empty := State(Loading, "", map[], map[], map[], [], 0, 0, store, map[]);
    forall id ensures IdOk(empty, id) {}
    LoadCatalogKeepsCore(empty);
  }

  lemma {:induction false} RunKeepsInv(s: State, events: seq<Event>)
    requires Inv(s)
    ensures Inv(Run(s, events))
    decreases |events|
  {
    hide Inv, Step;
    if events != [] {
      StepKeepsInv(s, events[0]);
      RunKeepsInv(Step(s, events[0]), events[1..]);
    }
  }

  // ----- what the runs guarantee ------------------------------------------------------

  /** Cache coherence: in every reachable state a ready account shows, for every name,
      the store's row under the account's own unsaved writes. */
  lemma CacheCoherence(store: Store, events: seq<Event>, id: AccountId, name: string)
    requires StoreOk(store)
    ensures var s := Run(Start(store), events);
            id in s.accounts && s.accounts[id].state == Ready ==>
              Cached(s.accounts[id].values, name) == Overlaid(AccountRows(s.store, id), s.accounts[id].dirty, name)
  {
    StartInv(store);
    RunKeepsInv(Start(store), events);
    assert IdOk(Run(Start(store), events), id);
  }

  /** No accepted write is lost: the last accepted value is still dirty or is stored. */
  lemma NoAcceptedWriteIsLost(store: Store, events: seq<Event>, id: AccountId, name: string)
    requires StoreOk(store)
    ensures var s := Run(Start(store), events);
            name in Accepted(s, id) ==>
              || (id in s.accounts && name in s.accounts[id].dirty
                  && Strip(s.accounts[id].dirty[name]) == Accepted(s, id)[name])
              || At(AccountRows(s.store, id), name) == Some(Accepted(s, id)[name])
  {
    StartInv(store);
    RunKeepsInv(Start(store), events);
    assert IdOk(Run(Start(store), events), id);
  }

  /** What a reader gets for a name ever written is the last accepted value. */
  lemma GetReturnsTheLastAcceptedValue(store: Store, events: seq<Event>, player: Identity, cookie: CookieHandle)
    requires StoreOk(store)
    ensures var s := Run(Start(store), events);
            var reply := Get(s, player, cookie);
            reply.Returned? && cookie.name in Accepted(s, player.account) ==>
              Strip(reply.value) == Accepted(s, player.account)[cookie.name]
  {
    CacheCoherence(store, events, player.account, cookie.name);
    NoAcceptedWriteIsLost(store, events, player.account, cookie.name);
    var s := Run(Start(store), events);
    StartInv(store);
    RunKeepsInv(Start(store), events);
    assert IdOk(s, player.account);
  }

  /** The database holds the last accepted value of every name of the account. */
  ghost predicate AllStored(s: State, id: AccountId) {
    forall name :: name in Accepted(s, id) ==>
      At(AccountRows(s.store, id), name) == Some(Accepted(s, id)[name])
  }

  lemma CleanIsStored(s: State, id: AccountId)
    requires IdOk(s, id) && (id in s.accounts ==> s.accounts[id].dirty.Keys == {})
    ensures AllStored(s, id)
  {
    forall name | name in Accepted(s, id)
      ensures At(AccountRows(s.store, id), name) == Some(Accepted(s, id)[name])
    {
      if id in s.accounts { assert name !in s.accounts[id].dirty.Keys; }
    }
  }

  lemma AllCleanAreStored(s: State)
    requires Core(s) && Clean(s)
    ensures forall id :: AllStored(s, id)
  {
    forall id ensures AllStored(s, id) {
      assert IdOk(s, id);
      CleanIsStored(s, id);
    }
  }

  /** A service that may stop has stored every write it ever accepted. */
  lemma StoppingLosesNothing(store: Store, events: seq<Event>, count: nat, id: AccountId)
    requires StoreOk(store)
    ensures var (after, stops) := CanStop(Run(Start(store), events), count);
            stops ==> AllStored(after, id)
  {
    var s := Run(Start(store), events);
    StartInv(store);
    RunKeepsInv(Start(store), events);
    PumpKeepsInv(s, count);
    var after := Pump(s, count);
    assert IdOk(after, id);
    if Clean(after) { CleanIsStored(after, id); }
  }

  /** The two durability queries are true only when the store has the account's writes. */
  lemma PersistedMeansStored(store: Store, events: seq<Event>, player: Identity, id: AccountId)
    requires StoreOk(store)
    ensures var s := Run(Start(store), events);
            && (Connected(s, player) && Persisted(s, player) ==> AllStored(s, player.account))
            && (IdentityPersisted(s, id) ==> AllStored(s, id))
  {
    var s := Run(Start(store), events);
    StartInv(store);
    RunKeepsInv(Start(store), events);
    assert IdOk(s, id) && IdOk(s, player.account);
    if IdentityPersisted(s, id) { CleanIsStored(s, id); }
    if Connected(s, player) && Persisted(s, player) { CleanIsStored(s, player.account); }
  }

  /** Every cookie in the table is loading or ready, and a ready one is the store's definition. */
  lemma CatalogueAgreement(store: Store, events: seq<Event>, name: string)
    requires StoreOk(store)
    ensures var s := Run(Start(store), events);
            name in s.cookies ==>
              && s.cookies[name].state != Failed
              && (s.cookies[name].state == Ready ==> Find(s.store.catalogue, name) == Some(s.cookies[name].definition))
  {
    var s := Run(Start(store), events);
    StartInv(store);
    RunKeepsInv(Start(store), events);
    if name in s.cookies { assert CookieOk(s, name); }
  }

  lemma {:induction false} SubsetSize(names: set<string>, catalogue: seq<Definition>)
    requires AllRegistered(catalogue, names)
    ensures |names| <= |catalogue|
    decreases |catalogue|
  {
    if catalogue == [] {
      assert names == {};
    } else {
      var rest := names - {catalogue[0].name};
      SubsetSize(rest, catalogue[1..]);
      assert |names| <= |rest| + 1 by {
        if catalogue[0].name in names { assert names == rest + {catalogue[0].name}; } else { assert names == rest; }
      }
    }
  }

  lemma CoreNeverRefuses(s: State)
    requires Core(s)
    ensures forall i :: 0 <= i < |s.queue| && s.queue[i].SaveJob? ==>
              SaveRefusal(s.store, s.queue[i].id, s.queue[i].batch).None?
  {
    forall i | 0 <= i < |s.queue| && s.queue[i].SaveJob?
      ensures SaveRefusal(s.store, s.queue[i].id, s.queue[i].batch).None?
    {
      var job := s.queue[i];
      SubsetSize(job.batch.Keys, s.store.catalogue);
      QueuedIsMine(s.queue, i);
      var at :| 0 <= at < |Mine(s.queue, job.id)| && Mine(s.queue, job.id)[at] == job;
      assert IdOk(s, job.id);
      assert BatchOk(job, s.accounts[job.id], AccountRows(s.store, job.id));
    }
  }

  /** The store never refuses a save for its contents: a save that does not fault is written. */
  lemma SavesAreNeverRefused(store: Store, events: seq<Event>)
    requires StoreOk(store)
    ensures var s := Run(Start(store), events);
            forall i :: 0 <= i < |s.queue| && s.queue[i].SaveJob? ==>
              SaveRefusal(s.store, s.queue[i].id, s.queue[i].batch).None?
  {
    StartInv(store);
    RunKeepsInv(Start(store), events);
    CoreNeverRefuses(Run(Start(store), events));
  }

  lemma {:induction false} QueuedIsMine(queue: seq<Job>, i: nat)
    requires i < |queue| && (queue[i].LoadJob? || queue[i].SaveJob?)
    ensures exists at :: 0 <= at < |Mine(queue, queue[i].id)| && Mine(queue, queue[i].id)[at] == queue[i]
    decreases |queue|
  {
    var id := queue[i].id;
    var head := if queue[0].About(id) then [queue[0]] else [];
    assert Mine(queue, id) == head + Mine(queue[1..], id);
    if i == 0 {
      assert Mine(queue, id)[0] == queue[0];
    } else {
      QueuedIsMine(queue[1..], i - 1);
      var at :| 0 <= at < |Mine(queue[1..], id)| && Mine(queue[1..], id)[at] == queue[i];
      assert Mine(queue, id)[|head| + at] == queue[i];
    }
  }

  /** A completion never lands on an account that was dropped and cached again. */
  lemma CompletionsFindTheirAccount(store: Store, events: seq<Event>, i: nat)
    requires StoreOk(store)
    ensures var s := Run(Start(store), events);
            i < |s.queue| && (s.queue[i].LoadJob? || s.queue[i].SaveJob?) ==>
              Owns(s, s.queue[i].id, s.queue[i].serial)
  {
    var s := Run(Start(store), events);
    StartInv(store);
    RunKeepsInv(Start(store), events);
    if i < |s.queue| && (s.queue[i].LoadJob? || s.queue[i].SaveJob?) {
      var id := s.queue[i].id;
      QueuedIsMine(s.queue, i);
      var at :| 0 <= at < |Mine(s.queue, id)| && Mine(s.queue, id)[at] == s.queue[i];
      assert IdOk(s, id);
      JobsHaveSerial(s, id, at);
    }
  }
}
