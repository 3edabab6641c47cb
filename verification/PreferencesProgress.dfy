/** Whatever waits is on its way: work is queued whenever there is room, and a working database lets everything finish. */
module PreferencesProgress {
  import opened PreferencesModel
  import opened PreferencesInvariant
  import opened PreferencesSteps
  import opened PreferencesRuns

  // ----- nothing waits without a job -------------------------------------------------------

  /** The account has unsaved writes, no save under way, and no failure that a script must clear first. */
  predicate Due(a: Account) {
    a.dirty.Keys != {} && !a.saving && !a.writeFailed
  }

  predicate SavesUnderWay(s: State) {
    forall id :: id in s.accounts && Due(s.accounts[id]) ==> |s.queue| == QUEUE_CAPACITY
  }

  predicate LoadsUnderWay(s: State) {
    forall id :: id in s.accounts && s.accounts[id].state == LoadState.Loading ==> s.accounts[id].loading
  }

  predicate RegistrationQueued(queue: seq<Job>, cookie: Cookie) {
    exists i :: 0 <= i < |queue| && queue[i].RegisterJob? && queue[i].definition == cookie.definition && queue[i].serial == cookie.serial
  }

  predicate CookiesUnderWay(s: State) {
    forall name :: name in s.cookies && s.cookies[name].state == LoadState.Loading ==> RegistrationQueued(s.queue, s.cookies[name])
  }

  predicate CatalogUnderWay(s: State) {
    s.catalogState == LoadState.Loading ==> exists i :: 0 <= i < |s.queue| && s.queue[i].CatalogJob?
  }

  /** What is still to be loaded or registered has its job in the queue. */
  predicate TablesUnderWay(s: State) {
    LoadsUnderWay(s) && CookiesUnderWay(s) && CatalogUnderWay(s)
  }

  predicate UnderWay(s: State) {
    SavesUnderWay(s) && TablesUnderWay(s)
  }

  /** A longer queue, or one whose jobs ran, still holds the same registrations. */
  predicate SameJobs(before: seq<Job>, after: seq<Job>) {
    && |before| <= |after|
    && forall i :: 0 <= i < |before| ==>
         && (before[i].CatalogJob? ==> after[i].CatalogJob?)
         && (before[i].RegisterJob? ==>
               after[i].RegisterJob? && after[i].definition == before[i].definition && after[i].serial == before[i].serial)
  }

  lemma SameJobsKeep(before: seq<Job>, after: seq<Job>)
    requires SameJobs(before, after)
    ensures forall cookie: Cookie :: RegistrationQueued(before, cookie) ==> RegistrationQueued(after, cookie)
    ensures (exists i :: 0 <= i < |before| && before[i].CatalogJob?) ==> exists i :: 0 <= i < |after| && after[i].CatalogJob?
  {
    forall cookie: Cookie | RegistrationQueued(before, cookie) ensures RegistrationQueued(after, cookie) {
      var i :| 0 <= i < |before| && before[i].RegisterJob? && before[i].definition == cookie.definition && before[i].serial == cookie.serial;
      assert after[i].RegisterJob?;
    }
    if exists i :: 0 <= i < |before| && before[i].CatalogJob? {
      var i :| 0 <= i < |before| && before[i].CatalogJob?;
      assert after[i].CatalogJob?;
    }
  }

  /** A call that only adds jobs and touches accounts. */
  lemma TablesStay(s: State, after: State)
    requires CookiesUnderWay(s) && CatalogUnderWay(s) && SameJobs(s.queue, after.queue)
    requires after.cookies == s.cookies && after.catalogState == s.catalogState
    ensures CookiesUnderWay(after) && CatalogUnderWay(after)
  {
    SameJobsKeep(s.queue, after.queue);
    hide RegistrationQueued;
  }

  lemma LoadUnderWay(s: State, id: AccountId)
    requires id in s.accounts && CookiesUnderWay(s) && CatalogUnderWay(s)
    requires forall other :: other in s.accounts && other != id && s.accounts[other].state == LoadState.Loading ==> s.accounts[other].loading
    ensures TablesUnderWay(Load(s, id)) && SameJobs(s.queue, Load(s, id).queue)
    ensures SavesUnderWay(s) && |s.queue| <= QUEUE_CAPACITY ==> SavesUnderWay(Load(s, id))
    ensures Load(s, id).accounts[id].loading || (Load(s, id).accounts[id].state == Failed && |s.queue| >= QUEUE_CAPACITY)
  {
    TablesStay(s, Load(s, id));
    hide RegistrationQueued;
  }

  /** A save leaves nothing due but for want of room. */
  lemma SaveUnderWay(s: State, id: AccountId)
    requires id in s.accounts && TablesUnderWay(s)
    ensures TablesUnderWay(Save(s, id)) && SameJobs(s.queue, Save(s, id).queue) && Save(s, id).accounts.Keys == s.accounts.Keys
    ensures Due(Save(s, id).accounts[id]) ==> |s.queue| >= QUEUE_CAPACITY
    ensures forall other :: other in s.accounts && other != id ==> Save(s, id).accounts[other] == s.accounts[other]
    ensures |s.queue| <= QUEUE_CAPACITY ==> |Save(s, id).queue| <= QUEUE_CAPACITY
    ensures |s.queue| == QUEUE_CAPACITY ==> Save(s, id) == s
  {
    TablesStay(s, Save(s, id));
    hide RegistrationQueued;
  }

  /** Accounts outside the list are not due, or there is no room. */
  predicate NotDueBut(s: State, ids: seq<AccountId>) {
    forall id :: id in s.accounts && id !in ids && Due(s.accounts[id]) ==> |s.queue| == QUEUE_CAPACITY
  }

  lemma {:induction false} SaveAllUnderWay(s: State, ids: seq<AccountId>)
    requires TablesUnderWay(s) && NotDueBut(s, ids) && |s.queue| <= QUEUE_CAPACITY
    requires forall id :: id in ids ==> id in s.accounts
    ensures UnderWay(SaveAll(s, ids))
    decreases |ids|
  {
    hide TablesUnderWay, Save, SameJobs;
    if ids != [] {
      SaveUnderWay(s, ids[0]);
      SaveAllUnderWay(Save(s, ids[0]), ids[1..]);
    }
  }

  lemma {:induction false} RetryAllUnderWay(s: State, ids: seq<AccountId>)
    requires TablesUnderWay(s) && NotDueBut(s, ids) && |s.queue| <= QUEUE_CAPACITY
    requires forall id :: id in ids ==> id in s.accounts
    ensures UnderWay(RetryAll(s, ids))
    decreases |ids|
  {
    if ids != [] {
      var cleared := UpdateAccount(s, ids[0], s.accounts[ids[0]].(writeFailed := false));
      TablesStay(s, cleared);
      SaveUnderWay(cleared, ids[0]);
      hide TablesUnderWay, Save, SameJobs;
      RetryAllUnderWay(RetryOne(s, ids[0]), ids[1..]);
    }
  }

  lemma EvictUnderWay(s: State)
    requires UnderWay(s)
    ensures UnderWay(Evict(s))
  {
    hide RegistrationQueued, Evictable;
  }

  lemma {:induction false} AddAccountsUnderWay(s: State, ids: seq<AccountId>)
    requires UnderWay(s) && |s.queue| <= QUEUE_CAPACITY
    requires forall id :: id in ids ==> id !in s.accounts
    requires forall i, j :: 0 <= i < j < |ids| ==> ids[i] != ids[j]
    ensures UnderWay(AddAccounts(s, ids))
    decreases |ids|
  {
    if ids != [] {
      var added := AddAccount(s, ids[0]);
      TablesStay(s, added);
      LoadUnderWay(added, ids[0]);
      hide RegistrationQueued, SameJobs;
      assert SavesUnderWay(added);
      AddAccountsUnderWay(Load(added, ids[0]), ids[1..]);
    }
  }

  // ----- completions ------------------------------------------------------------------------

  lemma {:induction false} MergeUnderWay(s: State, listing: seq<Definition>)
    requires CookiesUnderWay(s)
    ensures var after := MergeCatalog(s, listing);
            && CookiesUnderWay(after) && after.queue == s.queue && after.accounts == s.accounts && after.ran == s.ran
            && (s.catalogState != LoadState.Loading ==> after.catalogState != LoadState.Loading)
    decreases |listing|
  {
    hide RegistrationQueued;
    if listing != [] {
      var (next, continues) := MergeDefinition(s, listing[0]);
      if continues { MergeUnderWay(next, listing[1..]); }
    }
  }

  lemma DispatchOneUnderWay(s: State)
    requires TablesUnderWay(s) && CookiesOk(s)
    ensures TablesUnderWay(DispatchOne(s))
  {
    if s.queue != [] && s.ran > 0 && s.queue[0].Ran() {
      var job := s.queue[0];
      var done := Complete(s, job);
      match job {
        case CatalogJob(listing) =>
          var noted := if listing.Threw? then s.(catalogState := Failed, catalogError := listing.message)
                       else s.(catalogState := Ready, catalogError := "");
          hide RegistrationQueued;
          if listing.Done? { MergeUnderWay(noted, listing.result); }
          hide MergeCatalog;
          PopKeeps(done, job);
        case RegisterJob(definition, serial, outcome) => PopRegistration(s, definition, serial, outcome);
        case _ =>
          hide RegistrationQueued, LoadFinished, SaveFinished;
          PopKeeps(done, job);
          AccountsUnderWay(s, job);
      }
    }
  }

  lemma AccountsUnderWay(s: State, job: Job)
    requires LoadsUnderWay(s) && (job.LoadJob? || job.SaveJob?) && job.Ran()
    ensures LoadsUnderWay(Complete(s, job))
  {
  }

  /** Whatever the first job does not register is still queued behind it. */
  lemma PopKeeps(s: State, job: Job)
    requires CookiesUnderWay(s) && s.ran > 0 && s.queue != [] && s.queue[0] == job && !job.RegisterJob?
    requires CatalogUnderWay(s) || s.catalogState != LoadState.Loading
    requires job.CatalogJob? ==> s.catalogState != LoadState.Loading
    ensures CookiesUnderWay(s.(queue := s.queue[1..], ran := s.ran - 1))
    ensures CatalogUnderWay(s.(queue := s.queue[1..], ran := s.ran - 1))
  {
    var after := s.(queue := s.queue[1..], ran := s.ran - 1);
    forall name | name in after.cookies && after.cookies[name].state == LoadState.Loading
      ensures RegistrationQueued(after.queue, after.cookies[name])
    {
      QueuedBehind(s.queue, s.cookies[name]);
    }
    if s.catalogState == LoadState.Loading {
      var i :| 0 <= i < |s.queue| && s.queue[i].CatalogJob?;
      assert after.queue[i - 1].CatalogJob?;
    }
  }

  lemma QueuedBehind(queue: seq<Job>, cookie: Cookie)
    requires RegistrationQueued(queue, cookie) && queue != []
    requires !(queue[0].RegisterJob? && queue[0].definition == cookie.definition && queue[0].serial == cookie.serial)
    ensures RegistrationQueued(queue[1..], cookie)
  {
    var i :| 0 <= i < |queue| && queue[i].RegisterJob? && queue[i].definition == cookie.definition && queue[i].serial == cookie.serial;
    assert queue[1..][i - 1] == queue[i];
  }

  lemma PopRegistration(s: State, definition: Definition, serial: nat, outcome: Outcome<()>)
    requires TablesUnderWay(s) && CookiesOk(s) && s.queue != [] && s.ran > 0
    requires s.queue[0] == RegisterJob(definition, serial, outcome) && !outcome.Waiting?
    ensures TablesUnderWay(DispatchOne(s))
  {
    hide RegistrationQueued, CookieJobOk;
    var after := DispatchOne(s);
    forall name | name in after.cookies && after.cookies[name].state == LoadState.Loading
      ensures RegistrationQueued(after.queue, after.cookies[name])
    {
      assert CookieOk(s, name);
      QueuedBehind(s.queue, s.cookies[name]);
    }
    if s.catalogState == LoadState.Loading {
      var i :| 0 <= i < |s.queue| && s.queue[i].CatalogJob?;
      assert after.queue[i - 1].CatalogJob?;
    }
  }

  lemma {:induction false} DispatchUnderWay(s: State, count: nat)
    requires TablesUnderWay(s) && Core(s)
    ensures TablesUnderWay(Dispatch(s, count)) && |Dispatch(s, count).queue| <= |s.queue|
    decreases count
  {
    hide TablesUnderWay;
    if count != 0 {
      DispatchOneUnderWay(s);
      DispatchOneKeepsCore(s);
      hide Core;
      ShorterQueue(s);
      DispatchUnderWay(DispatchOne(s), count - 1);
    }
  }

  lemma ShorterQueue(s: State)
    ensures |DispatchOne(s).queue| <= |s.queue|
  {
  }

  // ----- every call -------------------------------------------------------------------------

  lemma CoreFacts(s: State)
    requires Core(s)
    ensures |s.queue| <= QUEUE_CAPACITY && s.ran <= |s.queue| && CookiesOk(s)
  {
  }

  lemma RegisterUnderWay(s: State, definition: Definition)
    requires UnderWay(s) && Core(s)
    ensures UnderWay(Register(s, definition).0)
  {
    CoreFacts(s);
    hide Core, ValidDefinition;
    var after := Register(s, definition).0;
    if after != s {
      assert after.queue == s.queue + [after.queue[|s.queue|]];
      SameJobsKeep(s.queue, after.queue);
      var job := after.queue[|s.queue|];
      assert RegistrationQueued(after.queue, after.cookies[definition.name]) by { assert job.RegisterJob?; }
      hide RegistrationQueued;
    }
  }

  lemma RetryCatalogUnderWay(s: State)
    requires UnderWay(s) && Core(s)
    ensures UnderWay(RetryCatalog(s))
  {
    CoreFacts(s);
    hide Core;
    var after := RetryCatalog(s);
    SameJobsKeep(s.queue, after.queue);
    if |after.queue| > |s.queue| { assert after.queue[|s.queue|].CatalogJob?; }
    hide RegistrationQueued;
  }

  lemma JoinUnderWay(s: State, next: map<int, Identity>, missing: set<AccountId>)
    requires UnderWay(s) && |s.queue| <= QUEUE_CAPACITY && missing !! s.accounts.Keys
    ensures UnderWay(Evict(AddAccounts(s.(players := next), Ascending(missing))))
  {
    var joined := s.(players := next);
    TablesStay(s, joined);
    hide Evict, AddAccounts, RegistrationQueued, Ascending, SameJobs;
    assert UnderWay(joined);
    AscendingDistinct(missing);
    AddAccountsUnderWay(joined, Ascending(missing));
    EvictUnderWay(AddAccounts(joined, Ascending(missing)));
  }

  lemma SyncUnderWay(s: State, players: seq<Identity>)
    requires UnderWay(s) && Core(s)
    ensures UnderWay(Sync(s, players).0)
  {
    hide Core, UnderWay, Evict, AddAccounts, Sessions, ActiveAccounts, Ascending, CookiesOk;
    CoreFacts(s);
    var sessions := Sessions(players);
    if sessions.Some? {
      JoinUnderWay(s, sessions.value, ActiveAccounts(sessions.value) - s.accounts.Keys);
    }
  }

  lemma WriteUnderWay(s: State, id: AccountId, name: string, text: string, now: int)
    requires UnderWay(s) && |s.queue| <= QUEUE_CAPACITY && id in s.accounts
    ensures UnderWay(Write(s, id, name, text, now).0)
  {
    var a := s.accounts[id];
    if now >= 0 && a.revision != MAX_REVISION {
      var value := Value(text, now, a.revision + 1);
      var history := if id in s.accepted then s.accepted[id] else map[];
      var written := UpdateAccount(s, id, a.(revision := a.revision + 1, values := a.values[name := value],
                                             dirty := a.dirty[name := value], writeFailed := false))
                     .(accepted := s.accepted[id := history[name := Stored(text, now)]]);
      TablesStay(s, written);
      hide RegistrationQueued, Save;
      assert SaveAll(written, [id]) == Save(written, id);
      SaveAllUnderWay(written, [id]);
    }
  }

  lemma OfflineUnderWay(s: State, id: AccountId, name: string, text: string, now: int)
    requires UnderWay(s) && |s.queue| <= QUEUE_CAPACITY && id !in s.accounts
    ensures UnderWay(Write(Load(AddAccount(s, id), id), id, name, text, now).0)
  {
    var added := AddAccount(s, id);
    TablesStay(s, added);
    LoadUnderWay(added, id);
    assert |Load(added, id).queue| <= QUEUE_CAPACITY;
    hide RegistrationQueued, Load, Write, SameJobs;
    WriteUnderWay(Load(added, id), id, name, text, now);
  }

  lemma SetIdentityUnderWay(s: State, id: AccountId, cookie: CookieHandle, text: string, now: int)
    requires UnderWay(s) && Core(s)
    ensures UnderWay(SetIdentity(s, id, cookie, text, now).0)
  {
    CoreFacts(s);
    hide Core, UnderWay, Write, Load, AddAccount, ValidText, ValidAccount, CheckCookie;
    EvictUnderWay(s);
    if id in s.accounts { WriteUnderWay(s, id, cookie.name, text, now); }
    else { OfflineUnderWay(Evict(s), id, cookie.name, text, now); }
  }

  lemma PumpUnderWay(s: State, count: nat)
    requires UnderWay(s) && Core(s)
    ensures UnderWay(Pump(s, count))
  {
    DispatchUnderWay(s, count);
    DispatchKeepsCore(s, count);
    CoreFacts(Dispatch(s, count));
    hide Core, Dispatch, Evict, SaveAll, TablesUnderWay;
    var drained := Dispatch(s, count);
    SaveAllUnderWay(drained, Ascending(drained.accounts.Keys));
    EvictUnderWay(SaveAll(drained, Ascending(drained.accounts.Keys)));
  }

  lemma RetryWritesUnderWay(s: State)
    requires UnderWay(s) && Core(s)
    ensures UnderWay(RetryWrites(s))
  {
    CoreFacts(s);
    hide Core, RetryAll, TablesUnderWay;
    RetryAllUnderWay(s, Ascending(s.accounts.Keys));
  }

  lemma WorkUnderWay(s: State, fault: Fault)
    requires UnderWay(s)
    ensures UnderWay(Work(s, fault)) && Work(s, fault).accounts == s.accounts
  {
    hide StoreRegister, StoreSave, StoreLoad, StoreCatalog, WriteRows;
    TablesStay(s, Work(s, fault));
    hide RegistrationQueued;
  }

  lemma CallUnderWay(s: State, event: Event)
    requires UnderWay(s) && Inv(s)
    requires event.SetEvent? || event.UserSetEvent? || event.RetryLoadEvent? || event.RefreshEvent?
    ensures UnderWay(Step(s, event))
  {
    InvFacts(s);
    hide Inv, Load, Write, ValidText, CheckCookie, UnderWay, Set, UserSet;
    match event
    case SetEvent(player, cookie, text, now) => SetUnderWay(s, player, cookie, text, now);
    case UserSetEvent(player, name, text, now) => UserSetUnderWay(s, player, name, text, now);
    case RetryLoadEvent(player) => if Connected(s, player) { LoadOneUnderWay(s, player.account); }
    case RefreshEvent(player) => if Connected(s, player) { LoadOneUnderWay(s, player.account); }
    case _ => assert false;
  }

  lemma InvFacts(s: State)
    requires Inv(s)
    ensures |s.queue| <= QUEUE_CAPACITY
  {
  }

  lemma SetUnderWay(s: State, player: Identity, cookie: CookieHandle, text: string, now: int)
    requires UnderWay(s) && |s.queue| <= QUEUE_CAPACITY
    ensures UnderWay(Set(s, player, cookie, text, now).0)
  {
    hide Write, ValidText, CheckCookie, UnderWay;
    if Connected(s, player) { WriteUnderWay(s, player.account, cookie.name, text, now); }
  }

  lemma UserSetUnderWay(s: State, player: Identity, name: string, text: string, now: int)
    requires UnderWay(s) && |s.queue| <= QUEUE_CAPACITY
    ensures UnderWay(UserSet(s, player, name, text, now).0)
  {
    hide Set, CheckCookie, UnderWay;
    if name in s.cookies { SetUnderWay(s, player, CookieHandle(name, s.cookies[name].serial), text, now); }
  }

  lemma LoadOneUnderWay(s: State, id: AccountId)
    requires UnderWay(s) && |s.queue| <= QUEUE_CAPACITY && id in s.accounts
    ensures UnderWay(Load(s, id))
  {
    LoadUnderWay(s, id);
  }

  /** Every step of every kind keeps all work under way. */
  lemma StepUnderWay(s: State, event: Event)
    requires UnderWay(s) && Inv(s)
    ensures UnderWay(Step(s, event))
  {
    hide UnderWay, Core, Register, RetryCatalog, Sync, Set, UserSet, SetIdentity, RetryLoad, Refresh, RetryWrites, Pump, Work, StoreRegister;
    match event
    case RegisterEvent(definition) => RegisterUnderWay(s, definition);
    case RetryCatalogEvent => RetryCatalogUnderWay(s);
    case SyncEvent(players) => SyncUnderWay(s, players);
    case SetIdentityEvent(id, cookie, text, now) => SetIdentityUnderWay(s, id, cookie, text, now);
    case RetryWritesEvent => RetryWritesUnderWay(s);
    case PumpEvent(count) => PumpUnderWay(s, count);
    case WorkEvent(fault) => WorkUnderWay(s, fault);
    case ForeignRegisterEvent(definition) => StoreUnderWay(s, StoreRegister(s.store, definition).0);
    case _ => CallUnderWay(s, event);
  }

  lemma StoreUnderWay(s: State, store: Store)
    requires UnderWay(s)
    ensures UnderWay(s.(store := store))
  {
    hide RegistrationQueued;
  }

  lemma StartUnderWay(store: Store)
    ensures UnderWay(Start(store))
  {
    assert Start(store).queue[0].CatalogJob?;
  }

  lemma {:induction false} RunUnderWay(s: State, events: seq<Event>)
    requires UnderWay(s) && Inv(s)
    ensures UnderWay(Run(s, events)) && Inv(Run(s, events))
    decreases |events|
  {
    hide UnderWay, Inv, Step;
    if events != [] {
      StepUnderWay(s, events[0]);
      StepKeepsInv(s, events[0]);
      RunUnderWay(Step(s, events[0]), events[1..]);
    }
  }

  /**
    * After any run nothing waits without a job: an account with unsaved writes has its save in the queue,
    * or its last save failed and a script must retry, or the queue is full; whatever is loading has its load
    * in the queue, and so have a cookie that is being registered and the catalogue.
    */
  lemma WorkIsQueued(store: Store, events: seq<Event>, id: AccountId, name: string)
    requires StoreOk(store)
    ensures var s := Run(Start(store), events);
            && (id in s.accounts && s.accounts[id].dirty != map[] && !s.accounts[id].writeFailed && |s.queue| < QUEUE_CAPACITY ==>
                  exists i :: 0 <= i < |s.queue| && s.queue[i].SaveJob? && s.queue[i].id == id && s.queue[i].serial == s.accounts[id].serial)
            && (id in s.accounts && s.accounts[id].state == LoadState.Loading ==>
                  exists i :: 0 <= i < |s.queue| && s.queue[i].LoadJob? && s.queue[i].id == id && s.queue[i].serial == s.accounts[id].serial)
            && (name in s.cookies && s.cookies[name].state == LoadState.Loading ==> RegistrationQueued(s.queue, s.cookies[name]))
            && (s.catalogState == LoadState.Loading ==> exists i :: 0 <= i < |s.queue| && s.queue[i].CatalogJob?)
  {
    StartInv(store);
    StartUnderWay(store);
    RunUnderWay(Start(store), events);
    var s := Run(Start(store), events);
    hide RegistrationQueued, Run;
    if id in s.accounts {
      assert IdOk(s, id);
      var mine := Mine(s.queue, id);
      if s.accounts[id].saving {
        var i :| 0 <= i < |mine| && mine[i].SaveJob?;
        MineIsQueued(s.queue, id, i);
      }
      if s.accounts[id].loading {
        var i :| 0 <= i < |mine| && mine[i].LoadJob?;
        MineIsQueued(s.queue, id, i);
      }
    }
  }

  lemma {:induction false} MineIsQueued(queue: seq<Job>, id: AccountId, i: nat)
    requires i < |Mine(queue, id)|
    ensures exists k :: 0 <= k < |queue| && queue[k] == Mine(queue, id)[i]
    decreases |queue|
  {
    var head := if queue[0].About(id) then [queue[0]] else [];
    assert Mine(queue, id) == head + Mine(queue[1..], id);
    if i < |head| {
      assert queue[0] == Mine(queue, id)[i];
    } else {
      MineIsQueued(queue[1..], id, i - |head|);
      var k :| 0 <= k < |queue[1..]| && queue[1..][k] == Mine(queue[1..], id)[i - |head|];
      assert queue[k + 1] == Mine(queue, id)[i];
    }
  }
}
