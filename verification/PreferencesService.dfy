/** The service as the owning thread uses it: every call is a step of the model. */
module PreferencesService {
  import opened PreferencesModel
  import opened PreferencesInvariant
  import M = PreferencesModel
  import Steps = PreferencesSteps
  import Runs = PreferencesRuns

  /** The tables, as only the worker touches them. */
  class Database {
    var catalogue: seq<Definition>
    var rows: map<AccountId, Rows>

    ghost function Tables(): Store
      reads this
    {
      Store(catalogue, rows)
    }

    constructor (catalogue: seq<Definition>, rows: map<AccountId, Rows>)
      ensures Tables() == Store(catalogue, rows)
    {
      this.catalogue, this.rows := catalogue, rows;
    }

    /** One job of the worker; `fault` is the environment's choice. */
    method Execute(job: Job, fault: Fault) returns (ran: Job)
      modifies this
      ensures (Tables(), ran) == RunJob(old(Tables()), job, fault)
    {
      var (after, result) := RunJob(Store(catalogue, rows), job, fault);
      catalogue, rows := after.catalogue, after.rows;
      ran := result;
    }
  }

  class Service {
    var catalogState: LoadState
    var catalogError: string
    var cookies: map<string, Cookie>
    var players: map<int, Identity>
    var accounts: map<AccountId, Account>
    var queue: seq<Job>
    var ran: nat
    var nextSerial: nat
    const database: Database
    ghost var accepted: map<AccountId, Rows>

    ghost function View(): State
      reads this, database
    {
      State(catalogState, catalogError, cookies, players, accounts, queue, ran, nextSerial, database.Tables(), accepted)
    }

    ghost predicate Valid()
      reads this, database
    {
      Inv(View())
    }

    constructor (database: Database)
      requires StoreOk(database.Tables())
      ensures this.database == database && View() == Start(database.Tables()) && Valid()
    {
      this.database := database;
      catalogState, catalogError := LoadState.Loading, "";
      cookies, players, accounts, accepted := map[], map[], map[], map[];
      queue, ran, nextSerial := [], 0, 0;
      new;
      Enqueue(CatalogJob(Waiting));
      Runs.StartInv(database.Tables());
    }

    /** Puts a job in the queue; the caller has seen that there is room. */
    method Enqueue(job: Job)
      modifies this`queue
      ensures View() == M.Submit(old(View()), job)
    {
      queue := queue + [job];
    }

    method LoadCatalog()
      modifies this`queue, this`catalogState, this`catalogError
      ensures View() == M.LoadCatalog(old(View()))
    {
      if |queue| < QUEUE_CAPACITY {
        Enqueue(CatalogJob(Waiting));
      } else {
        catalogState, catalogError := Failed, QUEUE_FULL;
      }
    }

    method RetryCatalog()
      requires Valid()
      modifies this
      ensures Valid() && View() == M.RetryCatalog(old(View()))
    {
      ghost var before := View();
      if catalogState == Failed {
        catalogState, catalogError := LoadState.Loading, "";
        LoadCatalog();
      }
      Runs.StepKeepsInv(before, RetryCatalogEvent);
    }

    method Register(definition: Definition) returns (reply: Reply<CookieHandle>)
      requires Valid()
      modifies this
      ensures Valid() && (View(), reply) == M.Register(old(View()), definition)
    {
      ghost var before := View();
      Runs.RegisterKeepsInv(before, definition);
      hide Inv, ValidDefinition, M.SubmitRegistration;
      if !ValidDefinition(definition) { return Raised(InvalidDefinition); }
      var serial := nextSerial;
      if definition.name in cookies {
        var known := cookies[definition.name];
        if known.definition != definition { return Raised(DefinitionConflict); }
        if known.state != Failed { return Returned(CookieHandle(definition.name, known.serial)); }
        serial := known.serial;
      } else if |cookies| == MAX_COOKIES {
        return Raised(CatalogLimit);
      }
      reply := SubmitRegistration(definition, serial);
    }

    /** Queues the registration and shows the cookie as loading. */
    method SubmitRegistration(definition: Definition, serial: nat) returns (reply: Reply<CookieHandle>)
      modifies this`queue, this`cookies, this`nextSerial
      ensures (View(), reply) == M.SubmitRegistration(old(View()), definition, serial)
    {
      if |queue| >= QUEUE_CAPACITY { return Raised(QueueFull); }
      if definition.name !in cookies { nextSerial := nextSerial + 1; }
      Enqueue(RegisterJob(definition, serial, Waiting));
      cookies := cookies[definition.name := Cookie(serial, definition, LoadState.Loading, "")];
      return Returned(CookieHandle(definition.name, serial));
    }

    method Load(id: AccountId)
      requires id in accounts
      modifies this`accounts, this`queue
      ensures View() == M.Load(old(View()), id)
      ensures accounts.Keys == old(accounts.Keys)
    {
      var account := accounts[id];
      if account.loading { return; }
      if |queue| >= QUEUE_CAPACITY {
        accounts := accounts[id := account.(state := Failed, error := QUEUE_FULL)];
        return;
      }
      Enqueue(LoadJob(id, account.serial, Waiting));
      accounts := accounts[id := account.(loading := true, state := LoadState.Loading)];
    }

    method Save(id: AccountId)
      requires id in accounts
      modifies this`accounts, this`queue
      ensures View() == M.Save(old(View()), id)
      ensures accounts.Keys == old(accounts.Keys)
    {
      var account := accounts[id];
      if account.saving || account.writeFailed || account.dirty.Keys == {} || |queue| >= QUEUE_CAPACITY { return; }
      Enqueue(SaveJob(id, account.serial, account.dirty, Waiting));
      accounts := accounts[id := account.(saving := true, error := "", writeError := "")];
    }

    /** Drops the cached accounts that are offline, idle and clean. */
    method Evict()
      modifies this`accounts
      ensures View() == M.Evict(old(View()))
    {
      var active := ActiveAccounts(players);
      var kept := accounts;
      var pending := accounts.Keys;
      while pending != {}
        invariant pending <= kept.Keys <= accounts.Keys
        invariant forall id :: id in kept ==> kept[id] == accounts[id]
        invariant forall id :: id in accounts && id !in pending ==> (id in kept <==> !Evictable(View(), id))
        decreases pending
      {
        var id :| id in pending;
        var account := kept[id];
        if id !in active && !account.loading && !account.saving && account.dirty.Keys == {} {
          kept := kept - {id};
        }
        pending := pending - {id};
      }
      assert kept == M.Evict(View()).accounts;
      accounts := kept;
    }

    /** The snapshot by slot, when every entry is valid and no slot repeats. */
    static method Snapshot(connections: seq<Identity>) returns (sessions: Option<map<int, Identity>>)
      ensures sessions == Sessions(connections)
    {
      hide ValidAccount;
      var next: map<int, Identity> := map[];
      for i := 0 to |connections|
        invariant Sessions(connections[..i]) == Some(next)
      {
        var player := connections[i];
        assert connections[..i + 1][..i] == connections[..i] && connections[..i + 1][i] == player;
        if !ValidAccount(player.account) || player.slot < 0 || player.slot >= MAX_CLIENTS || player.connection == 0 ||
           player.slot in next
        {
          SessionsPrefix(connections, i + 1);
          return None;
        }
        next := next[player.slot := player];
      }
      assert connections[..|connections|] == connections;
      return Some(next);
    }

    method CacheAccounts(order: seq<AccountId>)
      modifies this`accounts, this`nextSerial, this`queue
      ensures View() == AddAccounts(old(View()), order)
    {
      hide M.Load;
      ghost var before := View();
      for i := 0 to |order|
        invariant AddAccounts(View(), order[i..]) == AddAccounts(before, order)
      {
        ghost var at := View();
        accounts, nextSerial := accounts[order[i] := Fresh(nextSerial)], nextSerial + 1;
        Load(order[i]);
        assert View() == M.Load(AddAccount(at, order[i]), order[i]);
        assert order[i..][0] == order[i] && order[i..][1..] == order[i + 1..];
      }
    }

    /** Takes the new sessions, loads the accounts they need and drops idle ones. */
    method Join(sessions: map<int, Identity>, missing: set<AccountId>)
      modifies this`players, this`accounts, this`nextSerial, this`queue
      ensures View() == M.Evict(AddAccounts(old(View()).(players := sessions), Ascending(missing)))
    {
      hide AddAccounts, M.Evict, Ascending;
      players := sessions;
      CacheAccounts(Ascending(missing));
      Evict();
    }

    method Sync(connections: seq<Identity>) returns (reply: Reply<()>)
      requires Valid()
      modifies this
      ensures Valid() && (View(), reply) == M.Sync(old(View()), connections)
    {
      ghost var before := View();
      Runs.SyncKeepsInv(before, connections);
      hide Inv, AddAccounts, M.Evict, Ascending, ActiveAccounts;
      if |connections| > MAX_CLIENTS { return Raised(ConnectionLimit); }
      var sessions := Snapshot(connections);
      if sessions.None? { return Raised(InvalidConnection); }
      var missing := ActiveAccounts(sessions.value) - accounts.Keys;
      if |accounts| + |missing| > MAX_ACCOUNTS { return Raised(AccountLimit); }
      Join(sessions.value, missing);
      return Returned(());
    }

    /** A repeated or invalid entry spoils every longer snapshot. */
    static lemma {:induction false} SessionsPrefix(connections: seq<Identity>, n: nat)
      requires n <= |connections| && Sessions(connections[..n]).None?
      ensures Sessions(connections).None?
      decreases |connections| - n
    {
      if n == |connections| {
        assert connections[..n] == connections;
      } else {
        assert connections[..n + 1][..n] == connections[..n];
        SessionsPrefix(connections, n + 1);
      }
    }

    method Write(id: AccountId, name: string, text: string, now: int) returns (reply: Reply<()>)
      requires id in accounts
      modifies this`accounts, this`queue, this`accepted
      ensures (View(), reply) == M.Write(old(View()), id, name, text, now)
    {
      var account := accounts[id];
      if now < 0 || account.revision == MAX_REVISION { return Raised(InvalidTimestamp); }
      var value := Value(text, now, account.revision + 1);
      ghost var history := if id in accepted then accepted[id] else map[];
      accounts := accounts[id := account.(revision := account.revision + 1, values := account.values[name := value],
                                          dirty := account.dirty[name := value], writeFailed := false)];
      accepted := accepted[id := history[name := Stored(text, now)]];
      Save(id);
      return Returned(());
    }

    method CheckCookie(cookie: CookieHandle) returns (refusal: Option<Refusal>)
      ensures refusal == M.CheckCookie(View(), cookie)
    {
      if cookie.name !in cookies || cookies[cookie.name].serial != cookie.serial { return Some(ForeignCookie); }
      var found := cookies[cookie.name];
      if found.state != Ready {
        return Some(CookieNotReady(if found.error == "" then "Cookie registration is not complete." else found.error));
      }
      return None;
    }

    method Get(player: Identity, cookie: CookieHandle) returns (reply: Reply<Value>)
      requires Valid()
      ensures reply == M.Get(View(), player, cookie)
      ensures reply.Returned? && cookie.name in Accepted(View(), player.account) ==>
                Strip(reply.value) == Accepted(View(), player.account)[cookie.name]
    {
      assert IdOk(View(), player.account);
      var refusal := CheckCookie(cookie);
      if refusal.Some? { return Raised(refusal.value); }
      if player.slot !in players || players[player.slot] != player { return Raised(NoConnection); }
      var account := accounts[player.account];
      if account.state != Ready { return Raised(NotCached); }
      return Returned(if cookie.name in account.values then account.values[cookie.name] else Value("", 0, 0));
    }

    method Set(player: Identity, cookie: CookieHandle, text: string, now: int) returns (reply: Reply<()>)
      requires Valid()
      modifies this
      ensures Valid() && (View(), reply) == M.Set(old(View()), player, cookie, text, now)
    {
      ghost var before := View();
      Runs.SetKeepsInv(before, player, cookie, text, now);
      Runs.ConnectedIsCached(before);
      hide Inv, M.Write, ValidText;
      var refusal := CheckCookie(cookie);
      if refusal.Some? { return Raised(refusal.value); }
      if !ValidText(text) { return Raised(InvalidValue); }
      if player.slot !in players || players[player.slot] != player { return Raised(NoConnection); }
      if accounts[player.account].state != Ready { return Raised(NotCached); }
      reply := Write(player.account, cookie.name, text, now);
    }

    method UserSet(player: Identity, name: string, text: string, now: int) returns (reply: Reply<()>)
      requires Valid()
      modifies this
      ensures Valid() && (View(), reply) == M.UserSet(old(View()), player, name, text, now)
    {
      if name !in cookies { return Raised(ForeignCookie); }
      var cookie := CookieHandle(name, cookies[name].serial);
      var refusal := CheckCookie(cookie);
      if refusal.Some? { return Raised(refusal.value); }
      if cookies[name].definition.access != Public { return Raised(NotEditable); }
      reply := Set(player, cookie, text, now);
    }

    method SetIdentity(id: AccountId, cookie: CookieHandle, text: string, now: int) returns (reply: Reply<()>)
      requires Valid()
      modifies this
      ensures Valid() && (View(), reply) == M.SetIdentity(old(View()), id, cookie, text, now)
    {
      ghost var before := View();
      Runs.SetIdentityKeepsInv(before, id, cookie, text, now);
      hide Inv, M.Evict, M.Load, M.Write, M.CheckCookie, AddAccount, ValidAccount, ValidText;
      var refusal := CheckCookie(cookie);
      if refusal.Some? { return Raised(refusal.value); }
      if !ValidAccount(id) { return Raised(InvalidAccount); }
      if !ValidText(text) { return Raised(InvalidValue); }
      if now < 0 { return Raised(InvalidTimestamp); }
      if id in accounts {
        reply := Write(id, cookie.name, text, now);
      } else {
        reply := CacheAndWrite(id, cookie.name, text, now);
      }
    }

    /** A write to an account that is offline and not cached. */
    method CacheAndWrite(id: AccountId, name: string, text: string, now: int) returns (reply: Reply<()>)
      requires id !in accounts
      modifies this`accounts, this`queue, this`nextSerial, this`accepted
      ensures var evicted := M.Evict(old(View()));
              (View(), reply) == if |evicted.accounts| == MAX_ACCOUNTS then (evicted, Raised(AccountLimit))
                                 else M.Write(M.Load(AddAccount(evicted, id), id), id, name, text, now)
    {
      hide M.Evict, M.Load, M.Write;
      Evict();
      if |accounts| == MAX_ACCOUNTS { return Raised(AccountLimit); }
      accounts, nextSerial := accounts[id := Fresh(nextSerial)], nextSerial + 1;
      Load(id);
      reply := Write(id, name, text, now);
    }

    method RetryLoad(player: Identity) returns (reply: Reply<()>)
      requires Valid()
      modifies this
      ensures Valid() && (View(), reply) == M.RetryLoad(old(View()), player)
    {
      ghost var before := View();
      Runs.ConnectedIsCached(before);
      if player.slot in players { Runs.LoadKeepsInv(before, players[player.slot].account); }
      hide Inv, M.Load;
      if player.slot !in players || players[player.slot] != player { return Raised(NoConnection); }
      if accounts[player.account].state == Failed { Load(player.account); }
      return Returned(());
    }

    method Refresh(player: Identity) returns (reply: Reply<()>)
      requires Valid()
      modifies this
      ensures Valid() && (View(), reply) == M.Refresh(old(View()), player)
    {
      ghost var before := View();
      Runs.ConnectedIsCached(before);
      if player.slot in players { Runs.LoadKeepsInv(before, players[player.slot].account); }
      hide Inv, M.Load;
      if player.slot !in players || players[player.slot] != player { return Raised(NoConnection); }
      var account := accounts[player.account];
      if account.loading || account.saving || account.dirty.Keys != {} { return Raised(RefreshBusy); }
      Load(player.account);
      return Returned(());
    }

    method RetryWrites()
      requires Valid()
      modifies this
      ensures Valid() && View() == M.RetryWrites(old(View()))
    {
      ghost var before := View();
      Runs.RetryWritesKeepsInv(before);
      hide Inv, M.Save, RetryAll;
      RetryEach(Ascending(accounts.Keys));
    }

    method RetryEach(order: seq<AccountId>)
      requires forall id :: id in order ==> id in accounts
      modifies this`accounts, this`queue
      ensures View() == RetryAll(old(View()), order)
    {
      hide M.Save;
      ghost var before := View();
      for i := 0 to |order|
        invariant forall id :: id in order ==> id in accounts
        invariant RetryAll(View(), order[i..]) == RetryAll(before, order)
      {
        assert order[i..][0] == order[i] && order[i..][1..] == order[i + 1..];
        ghost var at := View();
        accounts := accounts[order[i] := accounts[order[i]].(writeFailed := false)];
        assert View() == UpdateAccount(at, order[i], at.accounts[order[i]].(writeFailed := false));
        Save(order[i]);
      }
    }

    /** Lays the unsaved writes over a loaded snapshot. */
    static method LayOver(snapshot: Rows, dirty: Values) returns (values: Values)
      ensures values == Overlay(snapshot, dirty)
    {
      values := map name | name in snapshot :: Revive(snapshot[name]);
      var pending := dirty.Keys;
      while pending != {}
        invariant pending <= dirty.Keys
        invariant values.Keys == snapshot.Keys + (dirty.Keys - pending)
        invariant forall name :: name in values ==>
                    values[name] == if name in dirty && name !in pending then dirty[name] else Revive(snapshot[name])
        decreases pending
      {
        var name :| name in pending;
        values := values[name := dirty[name]];
        pending := pending - {name};
      }
    }

    /** Forgets the writes the batch saved in their newest revision. */
    static method Settle(dirty: Values, batch: Values) returns (rest: Values)
      ensures rest == Settled(dirty, batch)
    {
      rest := dirty;
      var pending := batch.Keys;
      while pending != {}
        invariant pending <= batch.Keys && rest.Keys <= dirty.Keys
        invariant forall name :: name in dirty ==>
                    (name in rest <==> name in pending || name !in batch || dirty[name].revision != batch[name].revision)
        invariant forall name :: name in rest ==> rest[name] == dirty[name]
        decreases pending
      {
        var name :| name in pending;
        if name in rest && rest[name].revision == batch[name].revision { rest := rest - {name}; }
        pending := pending - {name};
      }
    }

    method MergeOne(definition: Definition) returns (continues: bool)
      modifies this`cookies, this`nextSerial, this`catalogState, this`catalogError
      ensures (View(), continues) == MergeDefinition(old(View()), definition)
    {
      if definition.name in cookies {
        if cookies[definition.name].definition != definition {
          cookies := cookies[definition.name := Cookie(nextSerial, definition, Ready, "")];
          nextSerial := nextSerial + 1;
        }
      } else if |cookies| == MAX_COOKIES {
        catalogState, catalogError := Failed, "Client preferences catalog limit (256) reached.";
        return false;
      } else {
        cookies := cookies[definition.name := Cookie(nextSerial, definition, Ready, "")];
        nextSerial := nextSerial + 1;
      }
      return true;
    }

    /** Merges the persisted definitions, until the table is full. */
    method MergeListing(listing: seq<Definition>)
      modifies this`cookies, this`nextSerial, this`catalogState, this`catalogError
      ensures View() == MergeCatalog(old(View()), listing)
    {
      hide MergeDefinition;
      ghost var before := View();
      for i := 0 to |listing|
        invariant MergeCatalog(View(), listing[i..]) == MergeCatalog(before, listing)
      {
        assert listing[i..][0] == listing[i] && listing[i..][1..] == listing[i + 1..];
        var continues := MergeOne(listing[i]);
        if !continues { return; }
      }
    }

    /** Runs one completion on the owning thread. */
    method Complete(job: Job)
      requires job.Ran()
      modifies this`cookies, this`nextSerial, this`catalogState, this`catalogError, this`accounts
      ensures View() == M.Complete(old(View()), job)
    {
      match job
      case CatalogJob(listing) =>
        match listing {
          case Threw(message) => catalogState, catalogError := Failed, message;
          case Done(definitions) =>
            catalogState, catalogError := Ready, "";
            MergeListing(definitions);
        }
      case RegisterJob(definition, serial, registered) =>
        var name := definition.name;
        if name in cookies && cookies[name].serial == serial {
          if registered.Threw? { cookies := cookies - {name}; }
          else { cookies := cookies[name := cookies[name].(state := Ready, error := "")]; }
        }
      case LoadJob(id, serial, snapshot) =>
        if id in accounts && accounts[id].serial == serial {
          var account := accounts[id].(loading := false);
          if snapshot.Threw? {
            account := account.(error := snapshot.message, state := Failed);
          } else {
            var values := LayOver(snapshot.result, account.dirty);
            account := account.(error := "", state := Ready, values := values);
          }
          accounts := accounts[id := account];
        }
      case SaveJob(id, serial, batch, saved) =>
        if id in accounts && accounts[id].serial == serial {
          var account := accounts[id].(saving := false);
          if saved.Threw? {
            account := account.(error := saved.message, writeFailed := true, writeError := saved.message);
          } else {
            var dirty := Settle(account.dirty, batch);
            account := account.(error := "", writeFailed := false, writeError := "", dirty := dirty);
          }
          accounts := accounts[id := account];
        }
    }

    /** Runs the completions of the jobs that had finished when the drain began, oldest first. */
    method Drain()
      requires Core(View())
      modifies this
      ensures View() == Dispatch(old(View()), old(ran))
    {
      hide StoreOk, CookiesOk, NamesOk, IdOk, M.Complete;
      ghost var before := View();
      var finished := ran;
      for left := finished downto 0
        invariant ran == left && Core(View()) && unchanged(database)
        invariant Dispatch(View(), left) == Dispatch(before, finished)
      {
        ghost var at := View();
        Steps.DispatchOneKeepsCore(at);
        var job := queue[0];
        Complete(job);
        queue, ran := queue[1..], ran - 1;
        assert View() == DispatchOne(at);
      }
    }

    method SaveEach(order: seq<AccountId>)
      requires forall id :: id in order ==> id in accounts
      modifies this`accounts, this`queue
      ensures View() == SaveAll(old(View()), order)
    {
      hide M.Save;
      ghost var before := View();
      for i := 0 to |order|
        invariant forall id :: id in order ==> id in accounts
        invariant SaveAll(View(), order[i..]) == SaveAll(before, order)
      {
        assert order[i..][0] == order[i] && order[i..][1..] == order[i + 1..];
        Save(order[i]);
      }
    }

    /** Drains the finished jobs, then retries unsaved writes and drops idle accounts. */
    method Pump()
      requires Valid()
      modifies this
      ensures Valid() && View() == M.Pump(old(View()), old(ran))
    {
      ghost var before := View();
      Runs.PumpKeepsInv(before, ran);
      Drain();
      hide Core, Dispatch, SaveAll, M.Evict;
      SaveEach(Ascending(accounts.Keys));
      Evict();
    }

    /** No job is queued and no account has an unsaved write. */
    method HoldsNothing() returns (nothing: bool)
      ensures nothing <==> queue == [] && forall id :: id in accounts ==> accounts[id].dirty.Keys == {}
    {
      nothing := queue == [];
      var pending := accounts.Keys;
      while pending != {}
        invariant pending <= accounts.Keys
        invariant nothing <==> queue == [] && forall id :: id in accounts && id !in pending ==> accounts[id].dirty.Keys == {}
        decreases pending
      {
        var id :| id in pending;
        if accounts[id].dirty.Keys != {} { nothing := false; }
        pending := pending - {id};
      }
    }

    /** True only when nothing is queued and every accepted write is stored. */
    method CanStop() returns (stops: bool)
      requires Valid()
      modifies this
      ensures Valid() && (View(), stops) == M.CanStop(old(View()), old(ran))
      ensures stops ==> forall id :: Runs.AllStored(View(), id)
    {
      Pump();
      hide Core, M.Pump;
      stops := HoldsNothing();
      if stops { Runs.AllCleanAreStored(View()); }
    }

    method Persisted(player: Identity) returns (reply: Reply<bool>)
      requires Valid()
      ensures reply == if Connected(View(), player) then Returned(M.Persisted(View(), player)) else Raised(NoConnection)
      ensures reply == Returned(true) ==> Runs.AllStored(View(), player.account)
    {
      assert IdOk(View(), player.account);
      if player.slot !in players || players[player.slot] != player { return Raised(NoConnection); }
      var account := accounts[player.account];
      if account.dirty.Keys == {} { Runs.CleanIsStored(View(), player.account); }
      return Returned(account.state == Ready && !account.saving && account.dirty.Keys == {});
    }

    /** The single worker takes the oldest job it has not run. */
    method Work(fault: Fault)
      requires Valid()
      modifies this, database
      ensures Valid() && View() == M.Work(old(View()), fault)
    {
      ghost var before := View();
      Runs.WorkKeepsInv(before, fault);
      hide Inv, RunJob;
      if ran < |queue| {
        var job := database.Execute(queue[ran], fault);
        queue, ran := queue[ran := job], ran + 1;
      }
    }
  }
}
