/** The client preferences service as a step machine: the owning thread's calls, the
    single worker's jobs and the dispatch of finished jobs. */
module PreferencesModel {

  const MAX_COOKIES := 256
  const MAX_CLIENTS := 128
  const MAX_ACCOUNTS := 256
  const QUEUE_CAPACITY := 256
  const MAX_REVISION := 0xffff_ffff_ffff_ffff
  const QUEUE_FULL := "Client preferences worker queue is full."

  datatype Option<+T> = None | Some(value: T)

  type AccountId = nat

  datatype Access = Public | Protected | Private

  datatype Definition = Definition(name: string, description: string, access: Access)

  /** A row of the values table. */
  datatype Stored = Stored(text: string, updated: int)

  /** A cached value: a row with the memory-only write sequence of the service. */
  datatype Value = Value(text: string, updated: int, revision: nat)

  type Values = map<string, Value>

  type Rows = map<string, Stored>

  datatype LoadState = Loading | Ready | Failed

  datatype Identity = Identity(slot: int, connection: nat, account: AccountId)

  /** `serial` stands for the identity of the shared object: a job that captured the
      object finds it again only under the same serial. */
  datatype Account = Account(serial: nat, state: LoadState, values: Values, dirty: Values, revision: nat,
                             loading: bool, saving: bool, writeFailed: bool, error: string, writeError: string)

  datatype Cookie = Cookie(serial: nat, definition: Definition, state: LoadState, error: string)

  /** What a script keeps of a cookie: the name and the identity of the object. */
  datatype CookieHandle = CookieHandle(name: string, serial: nat)

  datatype Outcome<+T> = Waiting | Done(result: T) | Threw(message: string)

  datatype Job =
    | CatalogJob(listing: Outcome<seq<Definition>>)
    | RegisterJob(definition: Definition, serial: nat, registered: Outcome<()>)
    | LoadJob(id: AccountId, serial: nat, snapshot: Outcome<Rows>)
    | SaveJob(id: AccountId, serial: nat, batch: Values, saved: Outcome<()>)
  {
    predicate Ran() {
      match this
      case CatalogJob(o) => !o.Waiting?
      case RegisterJob(_, _, o) => !o.Waiting?
      case LoadJob(_, _, o) => !o.Waiting?
      case SaveJob(_, _, _, o) => !o.Waiting?
    }

    predicate About(account: AccountId) {
      (LoadJob? || SaveJob?) && id == account
    }
  }

  /** The tables of the database. The catalogue lists the definitions in query order. */
  datatype Store = Store(catalogue: seq<Definition>, rows: map<AccountId, Rows>)

  /** What the environment makes of one worker job: a failing job may still have
      written any part of what it was asked to write. */
  datatype Fault = NoFault | Fault(message: string, applied: set<string>)

  /** `accepted` is history: the last value accepted for every account and cookie. */
  datatype State = State(catalogState: LoadState, catalogError: string, cookies: map<string, Cookie>,
                         players: map<int, Identity>, accounts: map<AccountId, Account>, queue: seq<Job>, ran: nat,
                         nextSerial: nat, store: Store, accepted: map<AccountId, Rows>)

  datatype Refusal =
    | InvalidDefinition | DefinitionConflict | CatalogLimit | QueueFull
    | ConnectionLimit | InvalidConnection | AccountLimit
    | NoConnection | ForeignCookie | CookieNotReady(message: string) | NotCached | NotEditable
    | InvalidAccount | InvalidValue | InvalidTimestamp | RefreshBusy

  datatype Reply<+T> = Returned(value: T) | Raised(refusal: Refusal)

  // ----- validation -------------------------------------------------------------

  predicate NameCharacter(c: char) {
    'a' <= c <= 'z' || 'A' <= c <= 'Z' || '0' <= c <= '9' || c == '_' || c == '-' || c == '.'
  }

  predicate ValidName(name: string) {
    0 < |name| <= 30 && forall i :: 0 <= i < |name| ==> NameCharacter(name[i])
  }

  predicate ValidDefinition(definition: Definition) {
    ValidName(definition.name) && |definition.description| <= 255 && '\0' !in definition.description
  }

  /** An individual public-universe account: everything above the low 32 bits is fixed. */
  predicate ValidAccount(id: AccountId) {
    0x110_0001_0000_0000 < id < 0x110_0002_0000_0000
  }

  /** The range is what the shifts and masks of the source accept. */
  lemma ValidAccountBits(id: bv64)
    ensures 0x110_0001_0000_0000 < id < 0x110_0002_0000_0000
       <==> id >> 56 == 1 && (id >> 52) & 15 == 1 && (id >> 32) & 0xfffff == 1 && id & 0xffff_ffff != 0
  {
  }

  predicate ValidText(text: string) {
    |text| <= 255 && '\0' !in text
  }

  predicate ValidValues(values: Values) {
    forall name :: name in values ==>
                     ValidName(name) && ValidText(values[name].text) && values[name].updated >= 0
  }

  // ----- the store --------------------------------------------------------------

  function Find(catalogue: seq<Definition>, name: string): (found: Option<Definition>)
    ensures found.Some? ==> found.value in catalogue && found.value.name == name
    ensures found.None? ==> forall d :: d in catalogue ==> d.name != name
  {
    if catalogue == [] then None
    else if catalogue[0].name == name then Some(catalogue[0])
    else Find(catalogue[1..], name)
  }

  predicate Registered(catalogue: seq<Definition>, name: string) {
    Find(catalogue, name).Some?
  }

  /** Bytewise string order, the order of the name column. */
  predicate NameLess(a: string, b: string) {
    b != [] && (a == [] || a[0] < b[0] || (a[0] == b[0] && NameLess(a[1..], b[1..])))
  }

  function Insert(catalogue: seq<Definition>, definition: Definition): seq<Definition> {
    if catalogue == [] || NameLess(definition.name, catalogue[0].name) then [definition] + catalogue
    else [catalogue[0]] + Insert(catalogue[1..], definition)
  }

  function AccountRows(store: Store, id: AccountId): Rows {
    if id in store.rows then store.rows[id] else map[]
  }

  function Strip(value: Value): Stored {
    Stored(value.text, value.updated)
  }

  function StoreCatalog(store: Store): Outcome<seq<Definition>> {
    if |store.catalogue| > MAX_COOKIES then Threw("Client preferences catalog exceeds 256 cookies.")
    else Done(store.catalogue)
  }

  function StoreRegister(store: Store, definition: Definition): (Store, Outcome<()>) {
    if !ValidDefinition(definition) then (store, Threw("Invalid cookie definition."))
    else match Find(store.catalogue, definition.name) {
      case Some(found) =>
        (store, if found != definition then Threw("Cookie already exists with different description or access mode.")
                else Done(()))
      case None =>
        if |store.catalogue| >= MAX_COOKIES then (store, Threw("Client preferences catalog limit (256) reached."))
        else (store.(catalogue := Insert(store.catalogue, definition)), Done(()))
    }
  }

  /** The join of the account's rows with the catalogue. */
  function Joined(store: Store, id: AccountId): Rows {
    var rows := AccountRows(store, id);
    map name | name in rows && Registered(store.catalogue, name) :: rows[name]
  }

  function StoreLoad(store: Store, id: AccountId): Outcome<Rows> {
    if !ValidAccount(id) then Threw("Client preferences require an authenticated individual Steam account.")
    else if |Joined(store, id)| > MAX_COOKIES then Threw("Client preferences account exceeds 256 cookies.")
    else Done(Joined(store, id))
  }

  function Written(rows: Rows, batch: Values, names: set<string>): Rows {
    map name | name in rows.Keys + batch.Keys * names ::
      if name in batch && name in names then Strip(batch[name]) else rows[name]
  }

  function WriteRows(store: Store, id: AccountId, batch: Values, names: set<string>): Store {
    store.(rows := store.rows[id := Written(AccountRows(store, id), batch, names)])
  }

  /** Why the store refuses a batch; nothing when it writes it. */
  function SaveRefusal(store: Store, id: AccountId, batch: Values): Option<string> {
    if !ValidAccount(id) then Some("Client preferences require an authenticated individual Steam account.")
    else if |batch| > MAX_COOKIES then Some("Client preferences write exceeds 256 cookies.")
    else if !ValidValues(batch) then Some("Invalid client preferences value.")
    else if exists name :: name in batch && !Registered(store.catalogue, name) then
      Some("Cannot save an unregistered cookie.")
    else None
  }

  function StoreSave(store: Store, id: AccountId, batch: Values): (Store, Outcome<()>) {
    match SaveRefusal(store, id, batch)
    case Some(message) => (store, Threw(message))
    case None => (WriteRows(store, id, batch, batch.Keys), Done(()))
  }

  /** One job on the worker thread. */
  function RunJob(store: Store, job: Job, fault: Fault): (Store, Job) {
    match job {
      case CatalogJob(_) =>
        (store, CatalogJob(if fault.Fault? then Threw(fault.message) else StoreCatalog(store)))
      case RegisterJob(definition, serial, _) =>
        var (after, outcome) := StoreRegister(store, definition);
        if fault.Fault? then
          (if definition.name in fault.applied then after else store,
           RegisterJob(definition, serial, Threw(fault.message)))
        else (after, RegisterJob(definition, serial, outcome))
      case LoadJob(id, serial, _) =>
        (store, LoadJob(id, serial, if fault.Fault? then Threw(fault.message) else StoreLoad(store, id)))
      case SaveJob(id, serial, batch, _) =>
        if fault.Fault? then
          (WriteRows(store, id, batch, fault.applied), SaveJob(id, serial, batch, Threw(fault.message)))
        else
          var (after, outcome) := StoreSave(store, id, batch);
          (after, SaveJob(id, serial, batch, outcome))
    }
  }

  /** The worker takes the oldest job it has not run. */
  function Work(s: State, fault: Fault): State {
    if s.ran < |s.queue| then
      var (store, job) := RunJob(s.store, s.queue[s.ran], fault);
      s.(store := store, queue := s.queue[s.ran := job], ran := s.ran + 1)
    else s
  }

  // ----- completions ------------------------------------------------------------

  /** Merges one persisted definition into the cookie table; false stops the merge. */
  function MergeDefinition(s: State, definition: Definition): (State, bool) {
    if definition.name in s.cookies then
      if s.cookies[definition.name].definition != definition then
        (s.(cookies := s.cookies[definition.name := Cookie(s.nextSerial, definition, Ready, "")],
            nextSerial := s.nextSerial + 1), true)
      else (s, true)
    else if |s.cookies| == MAX_COOKIES then
      (s.(catalogState := Failed, catalogError := "Client preferences catalog limit (256) reached."), false)
    else
      (s.(cookies := s.cookies[definition.name := Cookie(s.nextSerial, definition, Ready, "")],
          nextSerial := s.nextSerial + 1), true)
  }

  function MergeCatalog(s: State, listing: seq<Definition>): State
    decreases |listing|
  {
    if listing == [] then s
    else
      var (next, continues) := MergeDefinition(s, listing[0]);
      if continues then MergeCatalog(next, listing[1..]) else next
  }

  function CatalogCompleted(s: State, listing: Outcome<seq<Definition>>): State
    requires !listing.Waiting?
  {
    match listing
    case Threw(message) => s.(catalogState := Failed, catalogError := message)
    case Done(definitions) => MergeCatalog(s.(catalogState := Ready, catalogError := ""), definitions)
  }

  function RegisterCompleted(s: State, definition: Definition, serial: nat, outcome: Outcome<()>): State
    requires !outcome.Waiting?
  {
    if definition.name in s.cookies && s.cookies[definition.name].serial == serial then
      if outcome.Threw? then s.(cookies := s.cookies - {definition.name})
      else s.(cookies := s.cookies[definition.name := s.cookies[definition.name].(state := Ready, error := "")])
    else s
  }

  function Revive(row: Stored): Value {
    Value(row.text, row.updated, 0)
  }

  /** A loaded snapshot under the accepted, unsaved writes. */
  function Overlay(snapshot: Rows, dirty: Values): Values {
    map name | name in snapshot.Keys + dirty.Keys ::
      if name in dirty then dirty[name] else Revive(snapshot[name])
  }

  function LoadFinished(a: Account, outcome: Outcome<Rows>): Account
    requires !outcome.Waiting?
  {
    match outcome
    case Threw(message) => a.(loading := false, error := message, state := Failed)
    case Done(snapshot) => a.(loading := false, error := "", state := Ready, values := Overlay(snapshot, a.dirty))
  }

  /** A name stays dirty unless the batch saved exactly its newest write. */
  function Settled(dirty: Values, batch: Values): Values {
    map name | name in dirty && !(name in batch && dirty[name].revision == batch[name].revision) :: dirty[name]
  }

  function SaveFinished(a: Account, batch: Values, outcome: Outcome<()>): Account
    requires !outcome.Waiting?
  {
    match outcome
    case Threw(message) => a.(saving := false, error := message, writeFailed := true, writeError := message)
    case Done(_) =>
      a.(saving := false, error := "", writeFailed := false, writeError := "", dirty := Settled(a.dirty, batch))
  }

  function UpdateAccount(s: State, id: AccountId, a: Account): State {
    s.(accounts := s.accounts[id := a])
  }

  predicate Owns(s: State, id: AccountId, serial: nat) {
    id in s.accounts && s.accounts[id].serial == serial
  }

  function Complete(s: State, job: Job): State
    requires job.Ran()
  {
    match job
    case CatalogJob(listing) => CatalogCompleted(s, listing)
    case RegisterJob(definition, serial, outcome) => RegisterCompleted(s, definition, serial, outcome)
    case LoadJob(id, serial, snapshot) =>
      if Owns(s, id, serial) then UpdateAccount(s, id, LoadFinished(s.accounts[id], snapshot)) else s
    case SaveJob(id, serial, batch, outcome) =>
      if Owns(s, id, serial) then UpdateAccount(s, id, SaveFinished(s.accounts[id], batch, outcome)) else s
  }

  /** Runs the oldest finished completion and frees its place in the queue. */
  function DispatchOne(s: State): State {
    if s.queue != [] && s.ran > 0 && s.queue[0].Ran() then
      Complete(s, s.queue[0]).(queue := s.queue[1..], ran := s.ran - 1)
    else s
  }

  function Dispatch(s: State, count: nat): State
    decreases count
  {
    if count == 0 then s else Dispatch(DispatchOne(s), count - 1)
  }

  // ----- submitting -------------------------------------------------------------

  predicate Room(s: State) {
    |s.queue| < QUEUE_CAPACITY
  }

  function Submit(s: State, job: Job): State {
    s.(queue := s.queue + [job])
  }

  function Load(s: State, id: AccountId): State
    requires id in s.accounts
  {
    var a := s.accounts[id];
    if a.loading then s
    else if !Room(s) then UpdateAccount(s, id, a.(state := Failed, error := QUEUE_FULL))
    else Submit(UpdateAccount(s, id, a.(loading := true, state := Loading)), LoadJob(id, a.serial, Waiting))
  }

  function Save(s: State, id: AccountId): State
    requires id in s.accounts
  {
    var a := s.accounts[id];
    if a.saving || a.writeFailed || a.dirty.Keys == {} || !Room(s) then s
    else
      Submit(UpdateAccount(s, id, a.(saving := true, error := "", writeError := "")),
             SaveJob(id, a.serial, a.dirty, Waiting))
  }

  function LoadCatalog(s: State): State {
    if Room(s) then Submit(s, CatalogJob(Waiting))
    else s.(catalogState := Failed, catalogError := QUEUE_FULL)
  }

  // ----- calls of the owning thread -----------------------------------------------

  function RetryCatalog(s: State): State {
    if s.catalogState != Failed then s
    else LoadCatalog(s.(catalogState := Loading, catalogError := ""))
  }

  function Register(s: State, definition: Definition): (State, Reply<CookieHandle>) {
    if !ValidDefinition(definition) then (s, Raised(InvalidDefinition))
    else if definition.name in s.cookies && s.cookies[definition.name].definition != definition then
      (s, Raised(DefinitionConflict))
    else if definition.name in s.cookies && s.cookies[definition.name].state != Failed then
      (s, Returned(CookieHandle(definition.name, s.cookies[definition.name].serial)))
    else if definition.name !in s.cookies && |s.cookies| == MAX_COOKIES then (s, Raised(CatalogLimit))
    else
      SubmitRegistration(s, definition,
                         if definition.name in s.cookies then s.cookies[definition.name].serial else s.nextSerial)
  }

  /** Queues a registration; a cookie that is already in the table keeps its serial. */
  function SubmitRegistration(s: State, definition: Definition, serial: nat): (State, Reply<CookieHandle>) {
    if !Room(s) then (s, Raised(QueueFull))
    else
      (Submit(s.(cookies := s.cookies[definition.name := Cookie(serial, definition, Loading, "")],
                 nextSerial := if definition.name in s.cookies then s.nextSerial else s.nextSerial + 1),
              RegisterJob(definition, serial, Waiting)),
       Returned(CookieHandle(definition.name, serial)))
  }

  function Fresh(serial: nat): Account {
    Account(serial, Loading, map[], map[], 0, false, false, false, "", "")
  }

  function AddAccount(s: State, id: AccountId): State {
    s.(accounts := s.accounts[id := Fresh(s.nextSerial)], nextSerial := s.nextSerial + 1)
  }

  function AddAccounts(s: State, ids: seq<AccountId>): State
    decreases |ids|
  {
    if ids == [] then s
    else
      var added := AddAccount(s, ids[0]);
      AddAccounts(Load(added, ids[0]), ids[1..])
  }

  function ActiveAccounts(players: map<int, Identity>): set<AccountId> {
    set slot | slot in players :: players[slot].account
  }

  predicate Evictable(s: State, id: AccountId)
    requires id in s.accounts
  {
    var a := s.accounts[id];
    id !in ActiveAccounts(s.players) && !a.loading && !a.saving && a.dirty.Keys == {}
  }

  function Evict(s: State): State {
    s.(accounts := map id | id in s.accounts && !Evictable(s, id) :: s.accounts[id])
  }

  /** The snapshot by slot, or nothing when an entry is invalid or repeats a slot. */
  function Sessions(players: seq<Identity>): Option<map<int, Identity>> {
    if players == [] then Some(map[])
    else
      var last := players[|players| - 1];
      match Sessions(players[..|players| - 1])
      case None => None
      case Some(earlier) =>
        if !ValidAccount(last.account) || last.slot < 0 || last.slot >= MAX_CLIENTS || last.connection == 0 ||
           last.slot in earlier
        then None
        else Some(earlier[last.slot := last])
  }

  predicate Least(ids: set<nat>, id: nat) {
    id in ids && forall other :: other in ids ==> id <= other
  }
  lemma {:induction false} LeastExists(ids: set<nat>)
    requires ids != {}
    ensures exists id :: Least(ids, id)
  {
    var some :| some in ids;
    var rest := ids - {some};
    var id := some;
    if rest != {} {
      LeastExists(rest);
      var low :| Least(rest, low);
      id := if some < low then some else low;
    }
    forall other | other in ids ensures id <= other {
      assert other == some || other in rest;
    }
    assert Least(ids, id);
  }
  function Smallest(ids: set<nat>): (id: nat)
    requires ids != {}
    ensures Least(ids, id)
  {
    LeastExists(ids);
    var id :| Least(ids, id);
    id
  }

  /** The keys in the order an ordered map visits them. */
  function Ascending(ids: set<nat>): (order: seq<nat>)
    ensures forall id :: id in ids <==> id in order
    ensures |order| == |ids|
  {
    if ids == {} then [] else
      var id := Smallest(ids);
      [id] + Ascending(ids - {id})
  }

  function Sync(s: State, players: seq<Identity>): (State, Reply<()>) {
    if |players| > MAX_CLIENTS then (s, Raised(ConnectionLimit))
    else match Sessions(players) {
      case None => (s, Raised(InvalidConnection))
      case Some(next) =>
        var missing := ActiveAccounts(next) - s.accounts.Keys;
        if |s.accounts| + |missing| > MAX_ACCOUNTS then (s, Raised(AccountLimit))
        else (Evict(AddAccounts(s.(players := next), Ascending(missing))), Returned(()))
    }
  }

  predicate Connected(s: State, player: Identity) {
    player.slot in s.players && s.players[player.slot] == player && player.account in s.accounts
  }

  function CheckCookie(s: State, cookie: CookieHandle): Option<Refusal> {
    if cookie.name !in s.cookies || s.cookies[cookie.name].serial != cookie.serial then Some(ForeignCookie)
    else if s.cookies[cookie.name].state != Ready then
      var message := s.cookies[cookie.name].error;
      Some(CookieNotReady(if message == "" then "Cookie registration is not complete." else message))
    else None
  }

  function Get(s: State, player: Identity, cookie: CookieHandle): Reply<Value> {
    var refusal := CheckCookie(s, cookie);
    if refusal.Some? then Raised(refusal.value)
    else if !Connected(s, player) then Raised(NoConnection)
    else if s.accounts[player.account].state != Ready then Raised(NotCached)
    else
      var values := s.accounts[player.account].values;
      Returned(if cookie.name in values then values[cookie.name] else Value("", 0, 0))
  }

  /** Accepts a write: it becomes the newest value, dirty until a save confirms it. */
  function Write(s: State, id: AccountId, name: string, text: string, now: int): (State, Reply<()>)
    requires id in s.accounts
  {
    var a := s.accounts[id];
    if now < 0 || a.revision == MAX_REVISION then (s, Raised(InvalidTimestamp))
    else
      var value := Value(text, now, a.revision + 1);
      var history := if id in s.accepted then s.accepted[id] else map[];
      var written := UpdateAccount(s, id, a.(revision := a.revision + 1, values := a.values[name := value],
                                             dirty := a.dirty[name := value], writeFailed := false))
                     .(accepted := s.accepted[id := history[name := Stored(text, now)]]);
      (Save(written, id), Returned(()))
  }

  function Set(s: State, player: Identity, cookie: CookieHandle, text: string, now: int): (State, Reply<()>) {
    var refusal := CheckCookie(s, cookie);
    if refusal.Some? then (s, Raised(refusal.value))
    else if !ValidText(text) then (s, Raised(InvalidValue))
    else if !Connected(s, player) then (s, Raised(NoConnection))
    else if s.accounts[player.account].state != Ready then (s, Raised(NotCached))
    else Write(s, player.account, cookie.name, text, now)
  }

  function UserSet(s: State, player: Identity, name: string, text: string, now: int): (State, Reply<()>) {
    if name !in s.cookies then (s, Raised(ForeignCookie))
    else
      var cookie := CookieHandle(name, s.cookies[name].serial);
      var refusal := CheckCookie(s, cookie);
      if refusal.Some? then (s, Raised(refusal.value))
      else if s.cookies[name].definition.access != Public then (s, Raised(NotEditable))
      else Set(s, player, cookie, text, now)
  }

  function SetIdentity(s: State, id: AccountId, cookie: CookieHandle, text: string, now: int): (State, Reply<()>) {
    var refusal := CheckCookie(s, cookie);
    if refusal.Some? then (s, Raised(refusal.value))
    else if !ValidAccount(id) then (s, Raised(InvalidAccount))
    else if !ValidText(text) then (s, Raised(InvalidValue))
    else if now < 0 then (s, Raised(InvalidTimestamp))
    else if id in s.accounts then Write(s, id, cookie.name, text, now)
    else
      var evicted := Evict(s);
      if |evicted.accounts| == MAX_ACCOUNTS then (evicted, Raised(AccountLimit))
      else Write(Load(AddAccount(evicted, id), id), id, cookie.name, text, now)
  }

  function RetryLoad(s: State, player: Identity): (State, Reply<()>) {
    if !Connected(s, player) then (s, Raised(NoConnection))
    else if s.accounts[player.account].state == Failed then (Load(s, player.account), Returned(()))
    else (s, Returned(()))
  }

  function Refresh(s: State, player: Identity): (State, Reply<()>) {
    if !Connected(s, player) then (s, Raised(NoConnection))
    else
      var a := s.accounts[player.account];
      if a.loading || a.saving || a.dirty.Keys != {} then (s, Raised(RefreshBusy))
      else (Load(s, player.account), Returned(()))
  }

  function SaveAll(s: State, ids: seq<AccountId>): State
    requires forall id :: id in ids ==> id in s.accounts
    decreases |ids|
  {
    if ids == [] then s else SaveAll(Save(s, ids[0]), ids[1..])
  }

  function RetryOne(s: State, id: AccountId): State
    requires id in s.accounts
  {
    Save(UpdateAccount(s, id, s.accounts[id].(writeFailed := false)), id)
  }

  function RetryAll(s: State, ids: seq<AccountId>): State
    requires forall id :: id in ids ==> id in s.accounts
    decreases |ids|
  {
    if ids == [] then s else RetryAll(RetryOne(s, ids[0]), ids[1..])
  }

  function RetryWrites(s: State): State {
    RetryAll(s, Ascending(s.accounts.Keys))
  }

  /** `count` is how many finished jobs the queue held when the drain began. */
  function Pump(s: State, count: nat): State {
    var drained := Dispatch(s, count);
    Evict(SaveAll(drained, Ascending(drained.accounts.Keys)))
  }

  predicate Clean(s: State) {
    s.queue == [] && forall id :: id in s.accounts ==> s.accounts[id].dirty.Keys == {}
  }

  function CanStop(s: State, count: nat): (State, bool) {
    var pumped := Pump(s, count);
    (pumped, Clean(pumped))
  }

  predicate Persisted(s: State, player: Identity)
    requires Connected(s, player)
  {
    var a := s.accounts[player.account];
    a.state == Ready && !a.saving && a.dirty.Keys == {}
  }

  predicate IdentityPersisted(s: State, id: AccountId) {
    id !in s.accounts || (!s.accounts[id].saving && s.accounts[id].dirty.Keys == {})
  }

  // ----- runs ---------------------------------------------------------------------

  datatype Event =
    | RegisterEvent(definition: Definition)
    | RetryCatalogEvent
    | SyncEvent(players: seq<Identity>)
    | SetEvent(player: Identity, cookie: CookieHandle, text: string, now: int)
    | UserSetEvent(player: Identity, name: string, text: string, now: int)
    | SetIdentityEvent(id: AccountId, cookie: CookieHandle, text: string, now: int)
    | RetryLoadEvent(player: Identity)
    | RefreshEvent(player: Identity)
    | RetryWritesEvent
    | PumpEvent(count: nat)
    | WorkEvent(fault: Fault)
    | ForeignRegisterEvent(definition: Definition) // another server adds a cookie

  function Step(s: State, event: Event): State {
    match event
    case RegisterEvent(definition) => Register(s, definition).0
    case RetryCatalogEvent => RetryCatalog(s)
    case SyncEvent(players) => Sync(s, players).0
    case SetEvent(player, cookie, text, now) => Set(s, player, cookie, text, now).0
    case UserSetEvent(player, name, text, now) => UserSet(s, player, name, text, now).0
    case SetIdentityEvent(id, cookie, text, now) => SetIdentity(s, id, cookie, text, now).0
    case RetryLoadEvent(player) => RetryLoad(s, player).0
    case RefreshEvent(player) => Refresh(s, player).0
    case RetryWritesEvent => RetryWrites(s)
    case PumpEvent(count) => Pump(s, count)
    case WorkEvent(fault) => Work(s, fault)
    case ForeignRegisterEvent(definition) => s.(store := StoreRegister(s.store, definition).0)
  }

  function Run(s: State, events: seq<Event>): State
    decreases |events|
  {
    if events == [] then s else Run(Step(s, events[0]), events[1..])
  }

  /** A service just constructed over an existing store: the catalogue load is queued. */
  function Start(store: Store): State {
    LoadCatalog(State(Loading, "", map[], map[], map[], [], 0, 0, store, map[]))
  }
}
