/** What every reachable state of the preferences service satisfies. */
module PreferencesInvariant {
  import opened PreferencesModel

  // ----- vocabulary ---------------------------------------------------------------

  function At(rows: Rows, name: string): Option<Stored> {
    if name in rows then Some(rows[name]) else None
  }

  /** The row a cached value stands for. */
  function Cached(values: Values, name: string): Option<Stored> {
    if name in values then Some(Strip(values[name])) else None
  }

  /** The store's row under the unsaved writes of the account. */
  function Overlaid(rows: Rows, dirty: Values, name: string): Option<Stored> {
    if name in dirty then Some(Strip(dirty[name])) else At(rows, name)
  }

  /** The queued load and save of one account, oldest first. */
  function Mine(queue: seq<Job>, id: AccountId): seq<Job> {
    if queue == [] then []
    else (if queue[0].About(id) then [queue[0]] else []) + Mine(queue[1..], id)
  }

  lemma {:induction false} MineConcat(a: seq<Job>, b: seq<Job>, id: AccountId)
    ensures Mine(a + b, id) == Mine(a, id) + Mine(b, id)
    decreases |a|
  {
    if a == [] {
      assert a + b == b;
    } else {
      hide Job.About;
      MineConcat(a[1..], b, id);
      assert (a + b)[0] == a[0] && (a + b)[1..] == a[1..] + b;
      var head := if a[0].About(id) then [a[0]] else [];
      assert head + (Mine(a[1..], id) + Mine(b, id)) == (head + Mine(a[1..], id)) + Mine(b, id);
    }
  }

  lemma MineSubmit(queue: seq<Job>, job: Job, id: AccountId)
    ensures Mine(queue + [job], id) == Mine(queue, id) + (if job.About(id) then [job] else [])
  {
    MineConcat(queue, [job], id);
    assert [job][1..] == [];
  }

  lemma MineWork(queue: seq<Job>, at: nat, job: Job, id: AccountId)
    requires at < |queue|
    requires job.About(id) <==> queue[at].About(id)
    ensures Mine(queue, id) == Mine(queue[..at], id) + (if job.About(id) then [queue[at]] else [])
                               + Mine(queue[at + 1..], id)
    ensures Mine(queue[at := job], id) == Mine(queue[..at], id) + (if job.About(id) then [job] else [])
                                          + Mine(queue[at + 1..], id)
  {
    assert queue == queue[..at] + [queue[at]] + queue[at + 1..];
    assert queue[at := job] == queue[..at] + [job] + queue[at + 1..];
    MineConcat(queue[..at] + [queue[at]], queue[at + 1..], id);
    MineConcat(queue[..at] + [job], queue[at + 1..], id);
    MineSubmit(queue[..at], queue[at], id);
    MineSubmit(queue[..at], job, id);
  }

  lemma {:induction false} MineAll(queue: seq<Job>, id: AccountId, ran: bool)
    requires forall i :: 0 <= i < |queue| ==> queue[i].Ran() == ran
    ensures forall i :: 0 <= i < |Mine(queue, id)| ==> Mine(queue, id)[i].Ran() == ran
    decreases |queue|
  {
    if queue != [] {
      assert forall i :: 0 <= i < |queue[1..]| ==> queue[1..][i] == queue[i + 1];
      MineAll(queue[1..], id, ran);
    }
  }

  // ----- one account --------------------------------------------------------------

  /** A batch under way holds older or equal writes of names that are still dirty;
      once saved, its rows are in the store. */
  ghost predicate BatchOk(job: Job, a: Account, rows: Rows)
    requires job.SaveJob?
  {
    && (forall name :: name in job.batch ==>
          && name in a.dirty
          && job.batch[name].revision <= a.dirty[name].revision
          && (job.batch[name].revision == a.dirty[name].revision ==> job.batch[name] == a.dirty[name]))
    && (job.saved.Done? ==> forall name :: name in job.batch ==> At(rows, name) == Some(Strip(job.batch[name])))
    && ValidValues(job.batch)
  }

  /** A taken snapshot differs from the store only where a later save has already run. */
  ghost predicate SnapshotOk(snapshot: Rows, later: seq<Job>, rows: Rows)
    requires |later| <= 1 && (later != [] ==> later[0].SaveJob?)
  {
    forall name :: At(snapshot, name) == At(rows, name)
                   || (later != [] && later[0].Ran() && name in later[0].batch)
  }

  ghost predicate JobsOk(a: Account, id: AccountId, jobs: seq<Job>, rows: Rows) {
    && (forall i :: 0 <= i < |jobs| ==> jobs[i].About(id) && jobs[i].serial == a.serial)
    && |jobs| <= 2
    && (|jobs| == 2 ==> jobs[0].LoadJob? != jobs[1].LoadJob? && (jobs[1].Ran() ==> jobs[0].Ran()))
    && (a.loading <==> exists i :: 0 <= i < |jobs| && jobs[i].LoadJob?)
    && (a.saving <==> exists i :: 0 <= i < |jobs| && jobs[i].SaveJob?)
    && (forall i :: 0 <= i < |jobs| && jobs[i].SaveJob? ==> BatchOk(jobs[i], a, rows))
    && (forall i :: 0 <= i < |jobs| && jobs[i].LoadJob? && jobs[i].snapshot.Done? ==>
          SnapshotOk(jobs[i].snapshot.result, jobs[i + 1..], rows))
  }

  ghost predicate Coherent(a: Account, rows: Rows) {
    a.state == Ready ==> forall name :: Cached(a.values, name) == Overlaid(rows, a.dirty, name)
  }

  ghost predicate Durable(dirty: Values, rows: Rows, accepted: Rows) {
    forall name :: name in accepted ==> Overlaid(rows, dirty, name) == Some(accepted[name])
  }

  ghost predicate DirtyOk(a: Account, accepted: Rows) {
    forall name :: name in a.dirty ==>
      && name in a.values && a.values[name] == a.dirty[name]
      && a.dirty[name].revision <= a.revision
      && name in accepted && accepted[name] == Strip(a.dirty[name])
  }

  ghost predicate AllRegistered(catalogue: seq<Definition>, names: set<string>) {
    forall name :: name in names ==> Registered(catalogue, name)
  }

  ghost predicate AccountOk(a: Account, id: AccountId, jobs: seq<Job>, rows: Rows, accepted: Rows) {
    && ValidAccount(id)
    && JobsOk(a, id, jobs, rows)
    && Coherent(a, rows)
    && DirtyOk(a, accepted)
    && ValidValues(a.dirty)
    && Durable(a.dirty, rows, accepted)
  }

  // ----- the whole service ----------------------------------------------------------

  function Accepted(s: State, id: AccountId): Rows {
    if id in s.accepted then s.accepted[id] else map[]
  }

  ghost predicate IdOk(s: State, id: AccountId) {
    var jobs, rows, accepted := Mine(s.queue, id), AccountRows(s.store, id), Accepted(s, id);
    if id in s.accounts then AccountOk(s.accounts[id], id, jobs, rows, accepted)
    else jobs == [] && Durable(map[], rows, accepted)
  }

  ghost predicate StoreOk(store: Store) {
    && |store.catalogue| <= MAX_COOKIES
    && (forall d :: d in store.catalogue ==> ValidDefinition(d) && Find(store.catalogue, d.name) == Some(d))
    && (forall id :: AllRegistered(store.catalogue, AccountRows(store, id).Keys))
  }

  ghost predicate QueueOk(s: State) {
    && s.ran <= |s.queue| <= QUEUE_CAPACITY
    && (forall i :: 0 <= i < |s.queue| ==> (s.queue[i].Ran() <==> i < s.ran))
  }

  ghost predicate CookieJobOk(s: State, job: Job) {
    match job
    case CatalogJob(listing) => listing.Done? ==> forall d :: d in listing.result ==> d in s.store.catalogue
    case RegisterJob(definition, serial, registered) =>
      && serial < s.nextSerial
      && (registered.Done? ==> definition in s.store.catalogue)
      && (definition.name in s.cookies && s.cookies[definition.name].serial == serial ==>
            s.cookies[definition.name].definition == definition)
    case _ => true
  }

  ghost predicate CookieOk(s: State, name: string)
    requires name in s.cookies
  {
    var cookie := s.cookies[name];
    && cookie.definition.name == name
    && ValidName(name)
    && cookie.state != Failed
    && cookie.serial < s.nextSerial
    && (cookie.state == Ready ==> cookie.definition in s.store.catalogue)
  }

  ghost predicate CookiesOk(s: State) {
    && |s.cookies| <= MAX_COOKIES
    && (forall name :: name in s.cookies ==> CookieOk(s, name))
    && (forall i :: 0 <= i < |s.queue| ==> CookieJobOk(s, s.queue[i]))
  }

  ghost predicate PlayersOk(s: State) {
    && |s.accounts| <= MAX_ACCOUNTS
    && (forall slot :: slot in s.players ==> s.players[slot].account in s.accounts)
  }

  ghost predicate NamesOk(s: State) {
    && (forall id :: id in s.accounts ==> AllRegistered(s.store.catalogue, s.accounts[id].dirty.Keys))
    && (forall i :: 0 <= i < |s.queue| && s.queue[i].SaveJob? ==>
          AllRegistered(s.store.catalogue, s.queue[i].batch.Keys))
  }

  ghost predicate Core(s: State) {
    && QueueOk(s) && StoreOk(s.store) && CookiesOk(s) && NamesOk(s)
    && forall id :: IdOk(s, id)
  }

  ghost predicate Inv(s: State) {
    Core(s) && PlayersOk(s)
  }
}
