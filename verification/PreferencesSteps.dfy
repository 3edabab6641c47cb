/** Every step of the preferences service keeps the invariant. */
module PreferencesSteps {
  import opened PreferencesModel
  import opened PreferencesInvariant

  // ----- submitting ---------------------------------------------------------------

  /** Appending a job leaves the jobs of every other account alone. */
  lemma MineOther(queue: seq<Job>, job: Job, id: AccountId)
    requires !job.About(id)
    ensures Mine(queue + [job], id) == Mine(queue, id)
  {
    MineSubmit(queue, job, id);
  }

  lemma SubmitIds(s: State, job: Job)
    requires forall id :: IdOk(s, id)
    requires job.CatalogJob? || job.RegisterJob?
    ensures forall id :: IdOk(Submit(s, job), id)
  {
    forall id ensures IdOk(Submit(s, job), id) {
      MineOther(s.queue, job, id);
      assert IdOk(s, id);
    }
  }

  lemma LoadCatalogKeepsCore(s: State)
    requires Core(s)
    ensures Core(LoadCatalog(s))
  {
    if Room(s) { SubmitIds(s, CatalogJob(Waiting)); }
    else {
      forall id ensures IdOk(LoadCatalog(s), id) { assert IdOk(s, id); }
    }
  }

  lemma RetryCatalogKeepsCore(s: State)
    requires Core(s)
    ensures Core(RetryCatalog(s))
  {
    if s.catalogState == Failed {
      var cleared := s.(catalogState := Loading, catalogError := "");
      forall id ensures IdOk(cleared, id) { assert IdOk(s, id); }
      LoadCatalogKeepsCore(cleared);
    }
  }

  /** The table with a new cookie object under the name of its definition. */
  function WithCookie(s: State, definition: Definition, state: LoadState): State {
    s.(cookies := s.cookies[definition.name := Cookie(s.nextSerial, definition, state, "")],
       nextSerial := s.nextSerial + 1)
  }

  lemma WithCookieKeepsCookies(s: State, definition: Definition, state: LoadState)
    requires CookiesOk(s) && ValidName(definition.name) && state != Failed
    requires definition.name in s.cookies || |s.cookies| < MAX_COOKIES
    requires state == Ready ==> definition in s.store.catalogue
    ensures CookiesOk(WithCookie(s, definition, state))
  {
    hide ValidName;
    var next := WithCookie(s, definition, state);
    assert |next.cookies| <= MAX_COOKIES by {
      assert next.cookies.Keys == s.cookies.Keys + {definition.name};
      if definition.name in s.cookies { assert next.cookies.Keys == s.cookies.Keys; }
    }
    forall name | name in next.cookies ensures CookieOk(next, name) {
      if name != definition.name { assert CookieOk(s, name); }
    }
    forall i | 0 <= i < |next.queue| ensures CookieJobOk(next, next.queue[i]) {
      assert CookieJobOk(s, s.queue[i]);
    }
  }

  lemma SubmitKeepsRest(s: State, job: Job)
    requires QueueOk(s) && Room(s) && CookiesOk(s) && NamesOk(s) && CookieJobOk(s, job)
    requires !job.Ran() && !job.SaveJob?
    ensures QueueOk(Submit(s, job)) && CookiesOk(Submit(s, job)) && NamesOk(Submit(s, job))
  {
    hide ValidName, AllRegistered;
    var after := Submit(s, job);
    forall name | name in after.cookies ensures CookieOk(after, name) { assert CookieOk(s, name); }
    forall i | 0 <= i < |after.queue| ensures CookieJobOk(after, after.queue[i]) {
      if i < |s.queue| { assert CookieJobOk(s, s.queue[i]); } else { assert CookieJobOk(s, job); }
    }
  }

  lemma RegisterKeepsCore(s: State, definition: Definition)
    requires Core(s)
    ensures Core(Register(s, definition).0)
  {
    hide StoreOk, IdOk, ValidName, CookieJobOk, AllRegistered;
    if definition.name in s.cookies { assert CookieOk(s, definition.name); }
    var after := Register(s, definition).0;
    if after != s {
      hide CookieOk;
      assert definition.name !in s.cookies;
      var named := WithCookie(s, definition, Loading);
      WithCookieKeepsCookies(s, definition, Loading);
      forall id ensures IdOk(named, id) { assert IdOk(s, id); SameIds(s, named, id); }
      var job := RegisterJob(definition, s.nextSerial, Waiting);
      RegisterJobFits(s, definition);
      SubmitKeepsRest(named, job);
      SubmitIds(named, job);
      assert after == Submit(named, job);
    }
  }

  lemma RegisterJobFits(s: State, definition: Definition)
    ensures CookieJobOk(WithCookie(s, definition, Loading), RegisterJob(definition, s.nextSerial, Waiting))
  {
  }

  /** An account's obligations mention neither the cookie table nor the serial counter. */
  lemma SameIds(s: State, after: State, id: AccountId)
    requires IdOk(s, id)
    requires after.accounts == s.accounts && after.queue == s.queue && after.store.rows == s.store.rows
    requires after.accepted == s.accepted
    ensures IdOk(after, id)
  {
    hide AccountOk;
  }

  /** The jobs of an account without a load hold at most its save. */
  lemma LoadJoins(a: Account, id: AccountId, jobs: seq<Job>, rows: Rows, accepted: Rows)
    requires AccountOk(a, id, jobs, rows, accepted) && !a.loading
    ensures AccountOk(a.(loading := true, state := Loading), id, jobs + [LoadJob(id, a.serial, Waiting)], rows, accepted)
  {
    hide ValidAccount, ValidValues;
    var now := jobs + [LoadJob(id, a.serial, Waiting)];
    assert |jobs| <= 1;
    assert now[|jobs|].LoadJob?;
    assert forall i :: 0 <= i < |jobs| ==> now[i] == jobs[i];
    if a.saving { assert now[0].SaveJob?; }
  }

  lemma SaveJoins(a: Account, id: AccountId, jobs: seq<Job>, rows: Rows, accepted: Rows)
    requires AccountOk(a, id, jobs, rows, accepted) && !a.saving
    ensures AccountOk(a.(saving := true, error := "", writeError := ""), id,
                      jobs + [SaveJob(id, a.serial, a.dirty, Waiting)], rows, accepted)
  {
    hide ValidAccount;
    var now := jobs + [SaveJob(id, a.serial, a.dirty, Waiting)];
    assert |jobs| <= 1;
    assert now[|jobs|].SaveJob?;
    assert forall i :: 0 <= i < |jobs| ==> now[i] == jobs[i];
    if a.loading { assert now[0].LoadJob?; }
  }

  lemma LoadRefused(a: Account, id: AccountId, jobs: seq<Job>, rows: Rows, accepted: Rows)
    requires AccountOk(a, id, jobs, rows, accepted)
    ensures AccountOk(a.(state := Failed, error := QUEUE_FULL), id, jobs, rows, accepted)
  {
    var after := a.(state := Failed, error := QUEUE_FULL);
    assert forall i :: 0 <= i < |jobs| && jobs[i].SaveJob? && BatchOk(jobs[i], a, rows) ==> BatchOk(jobs[i], after, rows);
  }

  lemma LoadIds(s: State, id: AccountId, other: AccountId)
    requires id in s.accounts && IdOk(s, id) && IdOk(s, other)
    ensures IdOk(Load(s, id), other)
  {
    hide AccountOk;
    var a := s.accounts[id];
    if !a.loading && !Room(s) {
      if other == id { LoadRefused(a, id, Mine(s.queue, id), AccountRows(s.store, id), Accepted(s, id)); }
    } else if !a.loading {
      var job := LoadJob(id, a.serial, Waiting);
      MineSubmit(s.queue, job, other);
      if other == id { LoadJoins(a, id, Mine(s.queue, id), AccountRows(s.store, id), Accepted(s, id)); }
      else { MineOther(s.queue, job, other); }
    }
  }

  lemma SaveIds(s: State, id: AccountId, other: AccountId)
    requires id in s.accounts && IdOk(s, id) && IdOk(s, other)
    ensures IdOk(Save(s, id), other)
  {
    hide AccountOk;
    var a := s.accounts[id];
    if !(a.saving || a.writeFailed || a.dirty.Keys == {} || !Room(s)) {
      var job := SaveJob(id, a.serial, a.dirty, Waiting);
      MineSubmit(s.queue, job, other);
      if other == id { SaveJoins(a, id, Mine(s.queue, id), AccountRows(s.store, id), Accepted(s, id)); }
      else { MineOther(s.queue, job, other); }
    }
  }

  /** Same cookie table, same catalogue: earlier jobs stay fine. */
  lemma CookieJobsStay(s: State, after: State)
    requires CookiesOk(s)
    requires after.cookies == s.cookies && after.nextSerial >= s.nextSerial
    requires after.store.catalogue == s.store.catalogue
    requires forall i :: 0 <= i < |after.queue| ==>
      (i < |s.queue| && after.queue[i] == s.queue[i]) || after.queue[i].LoadJob? || after.queue[i].SaveJob?
    ensures CookiesOk(after)
  {
    forall i | 0 <= i < |after.queue| ensures CookieJobOk(after, after.queue[i]) {
      if i < |s.queue| && after.queue[i] == s.queue[i] { assert CookieJobOk(s, s.queue[i]); }
    }
  }

  /** The names of an account's dirty values and of its new batch are registered. */
  lemma NamesStay(s: State, id: AccountId, a: Account, job: Job)
    requires NamesOk(s) && id in s.accounts && a.dirty == s.accounts[id].dirty
    requires job.LoadJob? || (job.SaveJob? && job.batch == a.dirty)
    ensures NamesOk(UpdateAccount(s, id, a)) && NamesOk(Submit(UpdateAccount(s, id, a), job))
  {
    hide Registered;
    var after := Submit(UpdateAccount(s, id, a), job);
    forall other | other in after.accounts
      ensures AllRegistered(s.store.catalogue, after.accounts[other].dirty.Keys)
    {
      assert AllRegistered(s.store.catalogue, s.accounts[other].dirty.Keys);
    }
  }

  lemma LoadKeepsCore(s: State, id: AccountId)
    requires Core(s) && id in s.accounts
    ensures Core(Load(s, id))
    ensures Load(s, id).accounts.Keys == s.accounts.Keys
  {
    hide IdOk, NamesOk, CookiesOk, StoreOk;
    var a := s.accounts[id];
    CookieJobsStay(s, Load(s, id));
    NamesStay(s, id, a.(state := Failed, error := QUEUE_FULL), LoadJob(id, a.serial, Waiting));
    NamesStay(s, id, a.(loading := true, state := Loading), LoadJob(id, a.serial, Waiting));
    forall other ensures IdOk(Load(s, id), other) {
      assert IdOk(s, id) && IdOk(s, other);
      LoadIds(s, id, other);
    }
  }

  lemma SaveKeepsCore(s: State, id: AccountId)
    requires Core(s) && id in s.accounts
    ensures Core(Save(s, id))
    ensures Save(s, id).accounts.Keys == s.accounts.Keys
  {
    hide IdOk, NamesOk, CookiesOk, StoreOk;
    var a := s.accounts[id];
    CookieJobsStay(s, Save(s, id));
    NamesStay(s, id, a.(saving := true, error := "", writeError := ""), SaveJob(id, a.serial, a.dirty, Waiting));
    forall other ensures IdOk(Save(s, id), other) {
      assert IdOk(s, id) && IdOk(s, other);
      SaveIds(s, id, other);
    }
  }

  // ----- accounts -----------------------------------------------------------------

  /** A fresh account owes nothing: what was accepted for it is already stored. */
  lemma FreshOk(id: AccountId, serial: nat, rows: Rows, accepted: Rows)
    requires ValidAccount(id) && Durable(map[], rows, accepted)
    ensures AccountOk(Fresh(serial), id, [], rows, accepted)
  {
  }

  lemma AddAccountIds(s: State, id: AccountId, other: AccountId)
    requires IdOk(s, other) && id !in s.accounts && ValidAccount(id)
    ensures IdOk(AddAccount(s, id), other)
  {
    hide AccountOk;
    if other == id { FreshOk(id, s.nextSerial, AccountRows(s.store, id), Accepted(s, id)); }
  }

  lemma AddAccountKeepsCore(s: State, id: AccountId)
    requires Core(s) && id !in s.accounts && ValidAccount(id)
    ensures Core(AddAccount(s, id))
  {
    hide Registered, StoreOk, IdOk, ValidAccount;
    var after := AddAccount(s, id);
    CookieJobsStay(s, after);
    forall other ensures IdOk(after, other) {
      assert IdOk(s, other);
      AddAccountIds(s, id, other);
    }
  }

  lemma AddAccountsKeepsCore(s: State, ids: seq<AccountId>)
    requires Core(s)
    requires forall i :: 0 <= i < |ids| ==> ids[i] !in s.accounts && ValidAccount(ids[i])
    requires forall i, j :: 0 <= i < j < |ids| ==> ids[i] != ids[j]
    ensures Core(AddAccounts(s, ids))
    ensures forall id :: id in AddAccounts(s, ids).accounts <==> id in s.accounts || id in ids
    ensures AddAccounts(s, ids).players == s.players
    decreases |ids|
  {
    hide Core, Load, Accepted;
    if ids != [] {
      assert ids[0] in ids;
      var added := AddAccount(s, ids[0]);
      AddAccountKeepsCore(s, ids[0]);
      LoadKeepsCore(added, ids[0]);
      LoadKeepsPlayers(added, ids[0]);
      assert forall id :: id in Load(added, ids[0]).accounts <==> id in s.accounts || id == ids[0];
      AddAccountsKeepsCore(Load(added, ids[0]), ids[1..]);
    }
  }

  lemma LoadKeepsPlayers(s: State, id: AccountId)
    requires id in s.accounts
    ensures Load(s, id).players == s.players
  {
  }

  lemma IdleHasNoJobs(a: Account, id: AccountId, jobs: seq<Job>, rows: Rows)
    requires JobsOk(a, id, jobs, rows) && !a.loading && !a.saving
    ensures jobs == []
  {
    assert |jobs| > 0 ==> jobs[0].About(id);
  }

  /** Only accounts without jobs and without unsaved writes are dropped. */
  lemma EvictKeepsInv(s: State)
    requires Core(s) && |s.accounts| <= MAX_ACCOUNTS
    requires forall slot :: slot in s.players ==> s.players[slot].account in s.accounts
    ensures Inv(Evict(s))
  {
    var after := Evict(s);
    CookieJobsStay(s, after);
    forall id ensures IdOk(after, id) {
      hide Coherent, DirtyOk, ValidValues, StoreOk, Registered;
      assert IdOk(s, id);
      if id in s.accounts && id !in after.accounts {
        IdleHasNoJobs(s.accounts[id], id, Mine(s.queue, id), AccountRows(s.store, id));
        assert s.accounts[id].dirty == map[];
      }
    }
    EvictShrinks(s);
  }

  lemma EvictShrinks(s: State)
    ensures Evict(s).accounts.Keys <= s.accounts.Keys
    ensures |Evict(s).accounts| <= |s.accounts|
  {
    var kept, all := Evict(s).accounts.Keys, s.accounts.Keys;
    assert kept <= all;
    assert |all| == |all - kept| + |kept|;
  }

  // ----- writing ------------------------------------------------------------------

  /** The account with one more accepted write. */
  function Edited(a: Account, name: string, value: Value): Account {
    a.(revision := a.revision + 1, values := a.values[name := value], dirty := a.dirty[name := value],
       writeFailed := false)
  }

  /** An older batch holds an older revision of every name than the new write. */
  lemma EditedJobs(a: Account, id: AccountId, jobs: seq<Job>, rows: Rows, accepted: Rows, name: string, value: Value)
    requires JobsOk(a, id, jobs, rows) && DirtyOk(a, accepted) && value.revision == a.revision + 1
    ensures JobsOk(Edited(a, name, value), id, jobs, rows)
  {
    hide SnapshotOk, ValidValues;
    forall i | 0 <= i < |jobs| && jobs[i].SaveJob? ensures BatchOk(jobs[i], Edited(a, name, value), rows) {
      assert BatchOk(jobs[i], a, rows);
    }
  }

  /** A new write overrides the account's rows and every older batch. */
  lemma WriteAccount(a: Account, id: AccountId, jobs: seq<Job>, rows: Rows, accepted: Rows, name: string, value: Value)
    requires AccountOk(a, id, jobs, rows, accepted)
    requires value.revision == a.revision + 1 && value.updated >= 0 && ValidText(value.text) && ValidName(name)
    ensures AccountOk(Edited(a, name, value), id, jobs, rows, accepted[name := Strip(value)])
  {
    EditedJobs(a, id, jobs, rows, accepted, name, value);
    hide JobsOk, ValidAccount, ValidText, ValidName;
    var after := Edited(a, name, value);
    forall other ensures after.state == Ready ==> Cached(after.values, other) == Overlaid(rows, after.dirty, other) {
      assert a.state == Ready ==> Cached(a.values, other) == Overlaid(rows, a.dirty, other);
    }
  }

  /** The state right after a write is accepted, before its save is queued. */
  function Accept(s: State, id: AccountId, name: string, value: Value): State
    requires id in s.accounts
  {
    UpdateAccount(s, id, Edited(s.accounts[id], name, value))
    .(accepted := s.accepted[id := Accepted(s, id)[name := Strip(value)]])
  }

  lemma AcceptIds(s: State, id: AccountId, name: string, value: Value, other: AccountId)
    requires id in s.accounts && IdOk(s, other)
    requires value.revision == s.accounts[id].revision + 1 && value.updated >= 0 && ValidText(value.text) && ValidName(name)
    ensures IdOk(Accept(s, id, name, value), other)
  {
    hide AccountOk;
    if other == id {
      WriteAccount(s.accounts[id], id, Mine(s.queue, id), AccountRows(s.store, id), Accepted(s, id), name, value);
    }
  }

  lemma AcceptKeepsNames(s: State, id: AccountId, name: string, value: Value)
    requires id in s.accounts && NamesOk(s) && Registered(s.store.catalogue, name)
    ensures NamesOk(Accept(s, id, name, value))
  {
    hide Registered;
    var after := Accept(s, id, name, value);
    forall other | other in after.accounts ensures AllRegistered(s.store.catalogue, after.accounts[other].dirty.Keys) {
      assert AllRegistered(s.store.catalogue, s.accounts[other].dirty.Keys);
    }
  }

  lemma WriteKeepsCore(s: State, id: AccountId, name: string, text: string, now: int)
    requires Core(s) && id in s.accounts
    requires Registered(s.store.catalogue, name) && ValidName(name) && ValidText(text)
    ensures Core(Write(s, id, name, text, now).0)
    ensures Write(s, id, name, text, now).0.accounts.Keys == s.accounts.Keys
    ensures Write(s, id, name, text, now).0.players == s.players
  {
    hide IdOk, NamesOk, CookiesOk, StoreOk, Registered;
    if now >= 0 && s.accounts[id].revision != MAX_REVISION {
      var value := Value(text, now, s.accounts[id].revision + 1);
      var after := Accept(s, id, name, value);
      assert Write(s, id, name, text, now).0 == Save(after, id);
      CookieJobsStay(s, after);
      AcceptKeepsNames(s, id, name, value);
      forall other ensures IdOk(after, other) {
        assert IdOk(s, other);
        AcceptIds(s, id, name, value, other);
      }
      SaveKeepsCore(after, id);
    }
  }

  // ----- the worker ---------------------------------------------------------------

  lemma {:induction false} InsertFinds(catalogue: seq<Definition>, definition: Definition, name: string)
    requires !Registered(catalogue, definition.name)
    ensures Find(Insert(catalogue, definition), name) ==
            if name == definition.name then Some(definition) else Find(catalogue, name)
    ensures |Insert(catalogue, definition)| == |catalogue| + 1
    ensures forall d :: d in Insert(catalogue, definition) <==> d == definition || d in catalogue
    decreases |catalogue|
  {
    if catalogue == [] || NameLess(definition.name, catalogue[0].name) {
      assert ([definition] + catalogue)[1..] == catalogue;
    } else {
      InsertFinds(catalogue[1..], definition, name);
      var tail := Insert(catalogue[1..], definition);
      assert ([catalogue[0]] + tail)[1..] == tail;
      assert catalogue == [catalogue[0]] + catalogue[1..];
    }
  }

  /** Registering only ever adds a definition under a free name. */
  lemma RegisterGrows(store: Store, definition: Definition)
    requires StoreOk(store)
    ensures var after := StoreRegister(store, definition).0;
            && StoreOk(after) && after.rows == store.rows
            && (forall d :: d in store.catalogue ==> d in after.catalogue)
            && (forall name :: Registered(store.catalogue, name) ==> Registered(after.catalogue, name))
    ensures StoreRegister(store, definition).1.Done? ==> definition in StoreRegister(store, definition).0.catalogue
  {
    var after := StoreRegister(store, definition).0;
    if !Registered(store.catalogue, definition.name) && StoreRegister(store, definition).1.Done? {
      forall name ensures Find(after.catalogue, name) ==
                          if name == definition.name then Some(definition) else Find(store.catalogue, name)
      {
        InsertFinds(store.catalogue, definition, name);
      }
      InsertFinds(store.catalogue, definition, definition.name);
      forall id ensures AllRegistered(after.catalogue, AccountRows(after, id).Keys) {
        assert AllRegistered(store.catalogue, AccountRows(store, id).Keys);
      }
    }
  }

  /** Everything that mentions the catalogue survives its growth. */
  lemma CatalogueGrows(s: State, store: Store)
    requires Core(s) && StoreOk(store) && store.rows == s.store.rows
    requires forall d :: d in s.store.catalogue ==> d in store.catalogue
    requires forall name :: Registered(s.store.catalogue, name) ==> Registered(store.catalogue, name)
    ensures Core(s.(store := store))
  {
    hide StoreOk, Registered;
    var after := s.(store := store);
    forall id ensures IdOk(after, id) {
      assert IdOk(s, id);
      assert AccountRows(after.store, id) == AccountRows(s.store, id);
    }
    forall i | 0 <= i < |s.queue| ensures CookieJobOk(after, s.queue[i]) {
      assert CookieJobOk(s, s.queue[i]);
    }
  }

  lemma ForeignRegisterKeepsCore(s: State, definition: Definition)
    requires Core(s)
    ensures Core(s.(store := StoreRegister(s.store, definition).0))
  {
    RegisterGrows(s.store, definition);
    CatalogueGrows(s, StoreRegister(s.store, definition).0);
  }

  /** A load that runs now sees exactly the rows the store holds now. */
  lemma LoadRuns(a: Account, id: AccountId, pre: seq<Job>, job: Job, post: seq<Job>, ran: Job, rows: Rows)
    requires JobsOk(a, id, pre + [job] + post, rows)
    requires forall i :: 0 <= i < |pre| ==> pre[i].Ran()
    requires forall i :: 0 <= i < |post| ==> !post[i].Ran()
    requires job.LoadJob? && ran.LoadJob? && ran.id == job.id && ran.serial == job.serial && ran.Ran()
    requires ran.snapshot.Done? ==> ran.snapshot.result == rows
    ensures JobsOk(a, id, pre + [ran] + post, rows)
  {
    hide BatchOk;
    var was, now := pre + [job] + post, pre + [ran] + post;
    assert was[|pre|] == job && now[|pre|] == ran;
    assert |pre| + |post| <= 1;
    if pre != [] {
      assert post == [] && was == [pre[0], job] && now == [pre[0], ran];
      assert was[0].SaveJob? && now[0].SaveJob? && now[1].LoadJob?;
      assert now[2..] == [];
    } else if post != [] {
      assert was == [job, post[0]] && now == [ran, post[0]];
      assert was[1].SaveJob? && now[1].SaveJob? && now[0].LoadJob?;
      assert !now[1].Ran();
      assert now[1..] == post;
    } else {
      assert was == [job] && now == [ran];
      assert now[0].LoadJob?;
      assert now[1..] == [];
    }
  }

  /** A save writes only names that are still dirty, so the overlay does not move. */
  lemma SaveWritesUnderDirty(a: Account, batch: Values, names: set<string>, rows: Rows, accepted: Rows)
    requires forall name :: name in batch ==> name in a.dirty
    requires Coherent(a, rows) && Durable(a.dirty, rows, accepted)
    ensures var after := Written(rows, batch, names);
            && Coherent(a, after) && Durable(a.dirty, after, accepted)
            && (forall name :: name !in batch ==> At(after, name) == At(rows, name))
            && (names == batch.Keys ==> forall name :: name in batch ==> At(after, name) == Some(Strip(batch[name])))
  {
    forall name ensures Overlaid(Written(rows, batch, names), a.dirty, name) == Overlaid(rows, a.dirty, name) {}
  }

  lemma SaveRunsJobs(a: Account, id: AccountId, pre: seq<Job>, job: Job, post: seq<Job>, ran: Job, rows: Rows, after: Rows)
    requires JobsOk(a, id, pre + [job] + post, rows)
    requires forall i :: 0 <= i < |pre| ==> pre[i].Ran()
    requires forall i :: 0 <= i < |post| ==> !post[i].Ran()
    requires job.SaveJob? && ran.SaveJob? && ran.id == job.id && ran.serial == job.serial && ran.batch == job.batch
    requires ran.Ran() && BatchOk(ran, a, after)
    requires forall name :: name !in job.batch ==> At(after, name) == At(rows, name)
    ensures JobsOk(a, id, pre + [ran] + post, after)
  {
    hide BatchOk;
    var was, now := pre + [job] + post, pre + [ran] + post;
    assert was[|pre|] == job && now[|pre|] == ran;
    assert |pre| + |post| <= 1;
    if pre != [] {
      assert post == [] && was == [pre[0], job] && now == [pre[0], ran];
      assert was[0].LoadJob? && now[0].LoadJob? && now[1].SaveJob?;
      assert now[1..] == [ran] && was[1..] == [job];
    } else if post != [] {
      assert was == [job, post[0]] && now == [ran, post[0]];
      assert was[1].LoadJob? && now[1].LoadJob? && now[0].SaveJob?;
      assert !now[1].Ran();
    } else {
      assert was == [job] && now == [ran];
      assert now[0].SaveJob?;
    }
  }

  lemma SaveRuns(a: Account, id: AccountId, pre: seq<Job>, job: Job, post: seq<Job>, ran: Job, names: set<string>,
                 rows: Rows, accepted: Rows)
    requires AccountOk(a, id, pre + [job] + post, rows, accepted)
    requires forall i :: 0 <= i < |pre| ==> pre[i].Ran()
    requires forall i :: 0 <= i < |post| ==> !post[i].Ran()
    requires job.SaveJob? && ran.SaveJob? && ran.id == job.id && ran.serial == job.serial && ran.batch == job.batch
    requires ran.Ran() && (ran.saved.Done? ==> names == job.batch.Keys)
    ensures AccountOk(a, id, pre + [ran] + post, Written(rows, job.batch, names), accepted)
  {
    hide Written;
    assert BatchOk(job, a, rows) by { assert (pre + [job] + post)[|pre|] == job; }
    SaveWritesUnderDirty(a, job.batch, names, rows, accepted);
    SaveRunsJobs(a, id, pre, job, post, ran, rows, Written(rows, job.batch, names));
  }

  /** The account's jobs around the one that runs. */
  lemma WorkMine(s: State, ran: Job, id: AccountId)
    requires QueueOk(s) && s.ran < |s.queue| && (ran.About(id) <==> s.queue[s.ran].About(id))
    ensures var pre, post := Mine(s.queue[..s.ran], id), Mine(s.queue[s.ran + 1..], id);
            && (forall i :: 0 <= i < |pre| ==> pre[i].Ran())
            && (forall i :: 0 <= i < |post| ==> !post[i].Ran())
            && (ran.About(id) ==> Mine(s.queue, id) == pre + [s.queue[s.ran]] + post
                                  && Mine(s.queue[s.ran := ran], id) == pre + [ran] + post)
            && (!ran.About(id) ==> Mine(s.queue[s.ran := ran], id) == Mine(s.queue, id))
  {
    MineWork(s.queue, s.ran, ran, id);
    MineAll(s.queue[..s.ran], id, true);
    MineAll(s.queue[s.ran + 1..], id, false);
  }

  /** The account a job is about is cached, and the job is one of its jobs. */
  lemma JobHasAccount(s: State, id: AccountId, at: nat)
    requires IdOk(s, id) && at < |Mine(s.queue, id)|
    ensures id in s.accounts
  {
  }

  lemma WorkLoadIds(s: State, fault: Fault, id: AccountId)
    requires QueueOk(s) && StoreOk(s.store) && s.ran < |s.queue| && IdOk(s, id)
    requires s.queue[s.ran].LoadJob? && s.queue[s.ran].id == id
    ensures IdOk(Work(s, fault), id)
  {
    hide JobsOk, Coherent, Durable, DirtyOk, Registered;
    var job, ran := s.queue[s.ran], RunJob(s.store, s.queue[s.ran], fault).1;
    var pre, post := Mine(s.queue[..s.ran], id), Mine(s.queue[s.ran + 1..], id);
    var rows := AccountRows(s.store, id);
    WorkMine(s, ran, id);
    assert AllRegistered(s.store.catalogue, rows.Keys);
    assert Joined(s.store, id) == rows;
    JobHasAccount(s, id, |pre|);
    LoadRuns(s.accounts[id], id, pre, job, post, ran, rows);
  }

  /** A run job keeps its subject, and a save writes some part of its batch, all of it when it succeeds. */
  lemma RunJobEffect(store: Store, job: Job, fault: Fault) returns (names: set<string>)
    ensures var (after, ran) := RunJob(store, job, fault);
            && ran.Ran()
            && (forall id :: ran.About(id) <==> job.About(id))
            && (job.SaveJob? ==>
                  && ran.SaveJob? && ran.id == job.id && ran.serial == job.serial && ran.batch == job.batch
                  && AccountRows(after, job.id) == Written(AccountRows(store, job.id), job.batch, names)
                  && (ran.saved.Done? ==> names == job.batch.Keys))
  {
    hide SaveRefusal;
    names := {};
    if job.SaveJob? {
      if fault.Fault? { names := fault.applied; }
      else if RunJob(store, job, fault).1.saved.Done? { names := job.batch.Keys; }
      else { assert Written(AccountRows(store, job.id), job.batch, {}) == AccountRows(store, job.id); }
    }
  }

  lemma WorkSaveIds(s: State, fault: Fault, id: AccountId)
    requires QueueOk(s) && s.ran < |s.queue| && IdOk(s, id)
    requires s.queue[s.ran].SaveJob? && s.queue[s.ran].id == id
    ensures IdOk(Work(s, fault), id)
  {
    hide AccountOk, RunJob, Written;
    var job := s.queue[s.ran];
    var (store, ran) := RunJob(s.store, job, fault);
    var names := RunJobEffect(s.store, job, fault);
    var pre, post := Mine(s.queue[..s.ran], id), Mine(s.queue[s.ran + 1..], id);
    var rows := AccountRows(s.store, id);
    WorkMine(s, ran, id);
    JobHasAccount(s, id, |pre|);
    SaveRuns(s.accounts[id], id, pre, job, post, ran, names, rows, Accepted(s, id));
  }

  /** Running a job about something else leaves an account alone. */
  lemma WorkOtherIds(s: State, fault: Fault, id: AccountId)
    requires QueueOk(s) && StoreOk(s.store) && s.ran < |s.queue| && IdOk(s, id)
    requires !s.queue[s.ran].About(id)
    ensures IdOk(Work(s, fault), id)
  {
    hide AccountOk, ValidValues, StoreSave, StoreLoad, StoreOk;
    var job := s.queue[s.ran];
    var (store, ran) := RunJob(s.store, job, fault);
    WorkMine(s, ran, id);
    if job.RegisterJob? { RegisterGrows(s.store, job.definition); }
    if job.SaveJob? { SaveTouches(s.store, job.id, job.batch); }
    assert AccountRows(store, id) == AccountRows(s.store, id);
  }

  lemma SaveTouches(store: Store, id: AccountId, batch: Values)
    ensures StoreSave(store, id, batch).0.catalogue == store.catalogue
    ensures forall other :: other != id ==> AccountRows(StoreSave(store, id, batch).0, other) == AccountRows(store, other)
    ensures forall name :: name in AccountRows(StoreSave(store, id, batch).0, id) ==>
              name in AccountRows(store, id) || name in batch
  {
    hide SaveRefusal;
  }

  /** A save only stores names that are in the catalogue. */
  lemma SaveKeepsStore(store: Store, id: AccountId, batch: Values, after: Store)
    requires StoreOk(store) && AllRegistered(store.catalogue, batch.Keys) && after.catalogue == store.catalogue
    requires forall other :: other != id ==> AccountRows(after, other) == AccountRows(store, other)
    requires forall name :: name in AccountRows(after, id) ==> name in AccountRows(store, id) || name in batch
    ensures StoreOk(after)
  {
    hide Registered, ValidDefinition, AccountRows;
    forall other ensures AllRegistered(after.catalogue, AccountRows(after, other).Keys) {
      assert AllRegistered(store.catalogue, AccountRows(store, other).Keys);
    }
  }

  lemma WorkKeepsStore(s: State, fault: Fault)
    requires StoreOk(s.store) && NamesOk(s) && s.ran < |s.queue|
    ensures StoreOk(Work(s, fault).store)
    ensures forall d :: d in s.store.catalogue ==> d in Work(s, fault).store.catalogue
    ensures forall name :: Registered(s.store.catalogue, name) ==> Registered(Work(s, fault).store.catalogue, name)
  {
    hide StoreSave, StoreLoad, StoreCatalog, StoreRegister, StoreOk, AllRegistered, Registered;
    var job := s.queue[s.ran];
    if job.RegisterJob? { RegisterGrows(s.store, job.definition); }
    else if job.SaveJob? {
      SaveTouches(s.store, job.id, job.batch);
      SaveKeepsStore(s.store, job.id, job.batch, Work(s, fault).store);
    }
  }

  lemma WorkKeepsNames(s: State, fault: Fault)
    requires NamesOk(s)
    requires forall name :: Registered(s.store.catalogue, name) ==> Registered(Work(s, fault).store.catalogue, name)
    ensures NamesOk(Work(s, fault))
  {
    hide Registered, StoreSave, StoreLoad, StoreRegister;
    var after := Work(s, fault);
    forall i | 0 <= i < |after.queue| && after.queue[i].SaveJob?
      ensures AllRegistered(after.store.catalogue, after.queue[i].batch.Keys)
    {
      assert AllRegistered(s.store.catalogue, s.queue[i].batch.Keys);
    }
    forall id | id in after.accounts ensures AllRegistered(after.store.catalogue, after.accounts[id].dirty.Keys) {
      assert AllRegistered(s.store.catalogue, s.accounts[id].dirty.Keys);
    }
  }

  lemma RanCookieJob(s: State, fault: Fault)
    requires StoreOk(s.store) && s.ran < |s.queue| && CookieJobOk(s, s.queue[s.ran])
    ensures CookieJobOk(Work(s, fault), Work(s, fault).queue[s.ran])
  {
    hide StoreSave, StoreLoad, StoreOk;
    if s.queue[s.ran].RegisterJob? { RegisterGrows(s.store, s.queue[s.ran].definition); }
  }

  lemma WorkKeepsCookies(s: State, fault: Fault)
    requires CookiesOk(s) && StoreOk(s.store) && s.ran < |s.queue|
    requires forall d :: d in s.store.catalogue ==> d in Work(s, fault).store.catalogue
    ensures CookiesOk(Work(s, fault))
  {
    hide RunJob, StoreOk;
    var after := Work(s, fault);
    RanCookieJob(s, fault);
    forall i | 0 <= i < |after.queue| ensures CookieJobOk(after, after.queue[i]) {
      assert CookieJobOk(s, s.queue[i]);
    }
  }

  lemma WorkKeepsCore(s: State, fault: Fault)
    requires Core(s)
    ensures Core(Work(s, fault))
  {
    hide IdOk, NamesOk, CookiesOk, StoreOk, RunJob;
    if s.ran < |s.queue| {
      var _ := RunJobEffect(s.store, s.queue[s.ran], fault);
      WorkKeepsStore(s, fault);
      WorkKeepsNames(s, fault);
      WorkKeepsCookies(s, fault);
      forall id ensures IdOk(Work(s, fault), id) {
        assert IdOk(s, id);
        var job := s.queue[s.ran];
        if !job.About(id) { WorkOtherIds(s, fault, id); }
        else if job.LoadJob? { WorkLoadIds(s, fault, id); }
        else { WorkSaveIds(s, fault, id); }
      }
    }
  }

  // ----- completions --------------------------------------------------------------

  /** The queue without its oldest job. */
  function Popped(s: State): State
    requires s.queue != [] && s.ran > 0
  {
    s.(queue := s.queue[1..], ran := s.ran - 1)
  }

  /** A finished load shows the store under the unsaved writes, newer edits included. */
  lemma LoadFinishes(a: Account, id: AccountId, job: Job, rest: seq<Job>, rows: Rows, accepted: Rows)
    requires AccountOk(a, id, [job] + rest, rows, accepted) && job.LoadJob? && job.Ran()
    ensures AccountOk(LoadFinished(a, job.snapshot), id, rest, rows, accepted)
  {
    var jobs, after := [job] + rest, LoadFinished(a, job.snapshot);
    assert jobs[0] == job && jobs[1..] == rest && |rest| <= 1;
    assert JobsOk(after, id, rest, rows) by { LoadFinishesJobs(a, id, job, rest, rows); }
    if job.snapshot.Done? {
      assert SnapshotOk(job.snapshot.result, rest, rows);
      if rest != [] { assert jobs[1] == rest[0] && BatchOk(rest[0], a, rows); }
      forall name ensures Cached(after.values, name) == Overlaid(rows, after.dirty, name) {}
    }
  }

  lemma LoadFinishesJobs(a: Account, id: AccountId, job: Job, rest: seq<Job>, rows: Rows)
    requires JobsOk(a, id, [job] + rest, rows) && job.LoadJob? && job.Ran()
    ensures JobsOk(LoadFinished(a, job.snapshot), id, rest, rows)
  {
    hide SnapshotOk;
    var jobs := [job] + rest;
    assert jobs[0] == job && |rest| <= 1;
    if rest != [] { assert jobs[1] == rest[0] && rest[0].SaveJob? && BatchOk(rest[0], a, rows); }
    if a.saving { assert rest != []; }
  }

  lemma SaveFinishesJobs(a: Account, id: AccountId, job: Job, rest: seq<Job>, rows: Rows)
    requires JobsOk(a, id, [job] + rest, rows) && job.SaveJob? && job.Ran()
    ensures JobsOk(SaveFinished(a, job.batch, job.saved), id, rest, rows)
  {
    hide BatchOk;
    var jobs := [job] + rest;
    assert jobs[0] == job && |rest| <= 1;
    if rest != [] {
      assert jobs[1] == rest[0] && rest[0].LoadJob?;
      assert jobs[2..] == [] && rest[1..] == [];
    }
    if a.loading { assert rest != []; }
  }

  /** The overlay does not move: a write that is no longer dirty is in the store. */
  lemma SettledOverlay(dirty: Values, batch: Values, rows: Rows, name: string)
    requires name in batch && name in dirty && batch[name].revision == dirty[name].revision ==>
               batch[name] == dirty[name] && At(rows, name) == Some(Strip(batch[name]))
    ensures Overlaid(rows, Settled(dirty, batch), name) == Overlaid(rows, dirty, name)
  {
  }

  lemma FirstBatchOk(a: Account, id: AccountId, job: Job, rest: seq<Job>, rows: Rows)
    requires JobsOk(a, id, [job] + rest, rows) && job.SaveJob?
    ensures BatchOk(job, a, rows)
  {
    assert ([job] + rest)[0] == job;
  }

  /** A finished save drops exactly the writes the store now holds. */
  lemma SaveFinishes(a: Account, id: AccountId, job: Job, rest: seq<Job>, rows: Rows, accepted: Rows)
    requires AccountOk(a, id, [job] + rest, rows, accepted) && job.SaveJob? && job.Ran()
    ensures AccountOk(SaveFinished(a, job.batch, job.saved), id, rest, rows, accepted)
  {
    var after := SaveFinished(a, job.batch, job.saved);
    SaveFinishesJobs(a, id, job, rest, rows);
    FirstBatchOk(a, id, job, rest, rows);
    hide JobsOk, Overlaid, ValidAccount, ValidText, ValidName;
    if job.saved.Done? {
      forall name ensures Overlaid(rows, after.dirty, name) == Overlaid(rows, a.dirty, name) {
        SettledOverlay(a.dirty, job.batch, rows, name);
      }
    }
  }

  lemma PoppedMine(s: State, id: AccountId)
    requires s.queue != []
    ensures Mine(s.queue, id) == (if s.queue[0].About(id) then [s.queue[0]] else []) + Mine(s.queue[1..], id)
  {
  }

  lemma DispatchIds(s: State, id: AccountId)
    requires IdOk(s, id) && s.queue != [] && s.ran > 0 && s.queue[0].Ran()
    requires s.queue[0].LoadJob? || s.queue[0].SaveJob?
    ensures IdOk(DispatchOne(s), id)
  {
    hide AccountOk, LoadFinished, SaveFinished;
    var job, rest, rows := s.queue[0], Mine(s.queue[1..], id), AccountRows(s.store, id);
    PoppedMine(s, id);
    if job.About(id) {
      assert ([job] + rest)[0] == job;
      JobsHaveSerial(s, id, 0);
      if job.LoadJob? { LoadFinishes(s.accounts[id], id, job, rest, rows, Accepted(s, id)); }
      else { SaveFinishes(s.accounts[id], id, job, rest, rows, Accepted(s, id)); }
    } else {
      assert Mine(s.queue, id) == rest;
    }
  }

  /** No job outlives its account: the captured object is the cached one. */
  lemma JobsHaveSerial(s: State, id: AccountId, at: nat)
    requires IdOk(s, id) && at < |Mine(s.queue, id)|
    ensures id in s.accounts && Mine(s.queue, id)[at].About(id) && Owns(s, id, Mine(s.queue, id)[at].serial)
  {
  }

  /** Completions about the cookie table change no account. */
  predicate SameAccounts(s: State, after: State) {
    && after.players == s.players && after.accounts == s.accounts && after.store == s.store
    && after.accepted == s.accepted && after.queue == s.queue && after.ran == s.ran
  }

  lemma {:induction false} MergeKeepsCookies(s: State, listing: seq<Definition>)
    requires CookiesOk(s) && (forall d :: d in listing ==> d in s.store.catalogue && ValidName(d.name))
    ensures CookiesOk(MergeCatalog(s, listing)) && SameAccounts(s, MergeCatalog(s, listing))
    decreases |listing|
  {
    if listing != [] {
      var next := MergeDefinition(s, listing[0]).0;
      assert listing[0] in listing;
      MergeOne(s, listing[0]);
      if MergeDefinition(s, listing[0]).1 { MergeKeepsCookies(next, listing[1..]); }
    }
  }

  lemma MergeOne(s: State, definition: Definition)
    requires CookiesOk(s) && definition in s.store.catalogue && ValidName(definition.name)
    ensures CookiesOk(MergeDefinition(s, definition).0) && SameAccounts(s, MergeDefinition(s, definition).0)
  {
    hide ValidName, CookieOk, CookieJobOk;
    var next := MergeDefinition(s, definition).0;
    if definition.name in s.cookies || |s.cookies| < MAX_COOKIES {
      WithCookieKeepsCookies(s, definition, Ready);
    } else {
      SameCookies(s, next);
    }
  }

  lemma SameCookies(s: State, after: State)
    requires CookiesOk(s) && after.cookies == s.cookies && after.nextSerial == s.nextSerial
    requires after.store == s.store && after.queue == s.queue
    ensures CookiesOk(after)
  {
    hide ValidName;
    forall name | name in after.cookies ensures CookieOk(after, name) { assert CookieOk(s, name); }
    forall i | 0 <= i < |s.queue| ensures CookieJobOk(after, s.queue[i]) { assert CookieJobOk(s, s.queue[i]); }
  }

  lemma CatalogCompletionKeepsCookies(s: State, listing: Outcome<seq<Definition>>)
    requires CookiesOk(s) && StoreOk(s.store) && !listing.Waiting? && CookieJobOk(s, CatalogJob(listing))
    ensures CookiesOk(CatalogCompleted(s, listing)) && SameAccounts(s, CatalogCompleted(s, listing))
  {
    hide ValidName, AllRegistered;
    var noted := if listing.Threw? then s.(catalogState := Failed, catalogError := listing.message)
                 else s.(catalogState := Ready, catalogError := "");
    forall name | name in noted.cookies ensures CookieOk(noted, name) { assert CookieOk(s, name); }
    forall i | 0 <= i < |s.queue| ensures CookieJobOk(noted, s.queue[i]) { assert CookieJobOk(s, s.queue[i]); }
    if listing.Done? { MergeKeepsCookies(noted, listing.result); }
  }

  /** Dropping a cookie from the table. */
  lemma WithoutCookie(s: State, name: string)
    requires CookiesOk(s)
    ensures CookiesOk(s.(cookies := s.cookies - {name}))
  {
    hide ValidName;
    var after := s.(cookies := s.cookies - {name});
    SmallerMap(s.cookies, name);
    forall other | other in after.cookies ensures CookieOk(after, other) { assert CookieOk(s, other); }
    forall i | 0 <= i < |s.queue| ensures CookieJobOk(after, s.queue[i]) { assert CookieJobOk(s, s.queue[i]); }
  }

  /** Marking a registered cookie ready. */
  lemma ReadyCookie(s: State, name: string)
    requires CookiesOk(s) && name in s.cookies && s.cookies[name].definition in s.store.catalogue
    ensures CookiesOk(s.(cookies := s.cookies[name := s.cookies[name].(state := Ready, error := "")]))
  {
    hide ValidName;
    var after := s.(cookies := s.cookies[name := s.cookies[name].(state := Ready, error := "")]);
    assert after.cookies.Keys == s.cookies.Keys && |after.cookies| == |after.cookies.Keys| == |s.cookies|;
    forall other | other in after.cookies ensures CookieOk(after, other) { assert CookieOk(s, other); }
    forall i | 0 <= i < |s.queue| ensures CookieJobOk(after, s.queue[i]) { assert CookieJobOk(s, s.queue[i]); }
  }

  lemma RegisterCompletionKeepsCookies(s: State, definition: Definition, serial: nat, outcome: Outcome<()>)
    requires CookiesOk(s) && !outcome.Waiting? && CookieJobOk(s, RegisterJob(definition, serial, outcome))
    ensures var after := RegisterCompleted(s, definition, serial, outcome);
            CookiesOk(after) && SameAccounts(s, after)
  {
    var name := definition.name;
    if name in s.cookies && s.cookies[name].serial == serial {
      assert s.cookies[name].definition == definition;
      assert outcome.Done? ==> definition in s.store.catalogue;
      hide CookiesOk;
      if outcome.Threw? { WithoutCookie(s, name); } else { ReadyCookie(s, name); }
    }
  }

  lemma CookieCompletionKeepsCookies(s: State)
    requires CookiesOk(s) && StoreOk(s.store) && s.queue != [] && s.queue[0].Ran()
    requires s.queue[0].CatalogJob? || s.queue[0].RegisterJob?
    ensures CookiesOk(Complete(s, s.queue[0])) && SameAccounts(s, Complete(s, s.queue[0]))
  {
    hide StoreOk, CookieJobOk, CatalogCompleted, RegisterCompleted;
    var job := s.queue[0];
    assert CookieJobOk(s, job);
    match job
    case CatalogJob(listing) => CatalogCompletionKeepsCookies(s, listing);
    case RegisterJob(definition, serial, outcome) => RegisterCompletionKeepsCookies(s, definition, serial, outcome);
    case _ => assert false;
  }

  lemma SmallerMap<T>(m: map<string, T>, name: string)
    ensures |m - {name}| <= |m|
  {
    assert (m - {name}).Keys == m.Keys - {name};
    assert |m.Keys - {name}| <= |m.Keys|;
  }

  lemma PoppedKeepsRest(s: State)
    requires QueueOk(s) && CookiesOk(s) && NamesOk(s) && s.queue != [] && s.ran > 0
    ensures QueueOk(Popped(s)) && CookiesOk(Popped(s)) && NamesOk(Popped(s))
  {
    hide AllRegistered;
    var after := Popped(s);
    forall i | 0 <= i < |after.queue| ensures CookieJobOk(after, after.queue[i]) {
      assert CookieJobOk(s, s.queue[i + 1]);
    }
  }

  lemma DispatchOneKeepsCore(s: State)
    requires Core(s)
    ensures Core(DispatchOne(s))
    ensures DispatchOne(s).accounts.Keys == s.accounts.Keys && DispatchOne(s).players == s.players
    ensures DispatchOne(s).store == s.store && DispatchOne(s).accepted == s.accepted
  {
    hide Core, Complete;
    if s.queue != [] && s.ran > 0 && s.queue[0].Ran() {
      if s.queue[0].CatalogJob? || s.queue[0].RegisterJob? { CookieCompletion(s); }
      else { AccountCompletion(s); }
    }
  }

  lemma CookieCompletion(s: State)
    requires Core(s) && s.queue != [] && s.ran > 0 && s.queue[0].Ran()
    requires s.queue[0].CatalogJob? || s.queue[0].RegisterJob?
    ensures Core(DispatchOne(s)) && SameAccounts(s, Complete(s, s.queue[0]))
    ensures DispatchOne(s) == Popped(Complete(s, s.queue[0]))
  {
    hide IdOk, StoreOk, CookieJobOk, CookieOk, Complete, AllRegistered;
    var done := Complete(s, s.queue[0]);
    CookieCompletionKeepsCookies(s);
    PoppedKeepsRest(done);
    forall id ensures IdOk(DispatchOne(s), id) {
      assert IdOk(s, id);
      PoppedIds(s, done, id);
    }
  }

  lemma PoppedIds(s: State, done: State, id: AccountId)
    requires IdOk(s, id) && SameAccounts(s, done) && s.queue != [] && s.ran > 0
    requires s.queue[0].CatalogJob? || s.queue[0].RegisterJob?
    ensures IdOk(Popped(done), id)
  {
    hide AccountOk;
    PoppedMine(s, id);
    assert Mine(s.queue, id) == Mine(s.queue[1..], id);
  }

  lemma AccountCompletion(s: State)
    requires Core(s) && s.queue != [] && s.ran > 0 && s.queue[0].Ran()
    requires s.queue[0].LoadJob? || s.queue[0].SaveJob?
    ensures Core(DispatchOne(s)) && DispatchOne(s).accounts.Keys == s.accounts.Keys
    ensures DispatchOne(s).players == s.players && DispatchOne(s).store == s.store
    ensures DispatchOne(s).accepted == s.accepted
  {
    hide IdOk, StoreOk, CookiesOk, NamesOk, LoadFinished, SaveFinished;
    var after := DispatchOne(s);
    forall id ensures IdOk(after, id) {
      assert IdOk(s, id);
      DispatchIds(s, id);
    }
    PoppedKeepsRest(s);
    CookieJobsStay(Popped(s), after);
    CompletedNames(s);
  }

  lemma CompletedNames(s: State)
    requires NamesOk(s) && s.queue != [] && s.ran > 0 && s.queue[0].Ran()
    requires s.queue[0].LoadJob? || s.queue[0].SaveJob?
    ensures NamesOk(DispatchOne(s))
  {
    hide Registered, LoadFinished, SaveFinished;
    var after := DispatchOne(s);
    forall id | id in after.accounts ensures AllRegistered(after.store.catalogue, after.accounts[id].dirty.Keys) {
      CompletedDirty(s, id);
      assert AllRegistered(s.store.catalogue, s.accounts[id].dirty.Keys);
    }
    forall i | 0 <= i < |after.queue| && after.queue[i].SaveJob?
      ensures AllRegistered(after.store.catalogue, after.queue[i].batch.Keys)
    {
      assert AllRegistered(s.store.catalogue, s.queue[i + 1].batch.Keys);
    }
  }

  lemma CompletedDirty(s: State, id: AccountId)
    requires s.queue != [] && s.ran > 0 && s.queue[0].Ran() && id in DispatchOne(s).accounts
    requires s.queue[0].LoadJob? || s.queue[0].SaveJob?
    ensures id in s.accounts && DispatchOne(s).accounts[id].dirty.Keys <= s.accounts[id].dirty.Keys
  {
  }

  lemma {:induction false} DispatchKeepsCore(s: State, count: nat)
    requires Core(s)
    ensures Core(Dispatch(s, count))
    ensures Dispatch(s, count).accounts.Keys == s.accounts.Keys && Dispatch(s, count).players == s.players
    ensures Dispatch(s, count).store == s.store && Dispatch(s, count).accepted == s.accepted
    decreases count
  {
    hide Core;
    if count != 0 {
      DispatchOneKeepsCore(s);
      DispatchKeepsCore(DispatchOne(s), count - 1);
    }
  }
}
