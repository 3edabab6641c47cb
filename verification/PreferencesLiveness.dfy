/** With a database that works again, everything accepted is stored and the service can stop. */
module PreferencesLiveness {
  import opened PreferencesModel
  import opened PreferencesInvariant
  import opened PreferencesSteps
  import opened PreferencesRuns
  import opened PreferencesProgress

  // ----- the worker catches up, and one pump ---------------------------------------------------

  /** The worker runs every job in the queue without a fault. */
  function Worked(s: State): State
    requires s.ran <= |s.queue|
    decreases |s.queue| - s.ran
  {
    if s.ran == |s.queue| then s else
      WorkMoves(s, NoFault);
      Worked(Work(s, NoFault))
  }

  lemma WorkMoves(s: State, fault: Fault)
    requires s.ran < |s.queue|
    ensures |Work(s, fault).queue| == |s.queue| && Work(s, fault).ran == s.ran + 1
  {
    hide RunJob;
  }

  function Flush(s: State): State
    requires s.ran <= |s.queue|
  {
    Pump(Worked(s), |s.queue|)
  }

  lemma {:induction false} WorkedFacts(s: State)
    requires Inv(s)
    ensures Inv(Worked(s)) && Worked(s).ran == |Worked(s).queue| == |s.queue| && Worked(s).accounts == s.accounts
    decreases |s.queue| - s.ran
  {
    CoreFacts(s);
    hide Inv;
    if s.ran < |s.queue| {
      WorkMoves(s, NoFault);
      WorkKeepsInv(s, NoFault);
      TablesOnly(s, WorkEvent(NoFault));
      hide Work;
      WorkedFacts(Work(s, NoFault));
    }
  }

  // ----- what is covered ----------------------------------------------------------------------------

  /** The only save job of the account is of this very object, holds all its unsaved writes and has not failed. */
  predicate Saves(a: Account, job: Job)
    requires job.SaveJob?
  {
    job.serial == a.serial && job.batch == a.dirty && !job.saved.Threw?
  }

  predicate HasSave(queue: seq<Job>, id: AccountId) {
    exists i :: 0 <= i < |queue| && queue[i].SaveJob? && queue[i].id == id
  }

  /** Nothing is unsaved, or a save of all of it is in the queue. */
  predicate Covered(a: Account, id: AccountId, queue: seq<Job>) {
    || a.dirty.Keys == {}
    || (!a.writeFailed && HasSave(queue, id) && forall i :: 0 <= i < |queue| && queue[i].SaveJob? && queue[i].id == id ==> Saves(a, queue[i]))
  }

  /** The last save failed, and none is in the queue. */
  predicate Marked(a: Account, id: AccountId, queue: seq<Job>) {
    a.writeFailed && !a.saving && !HasSave(queue, id)
  }

  predicate AllCovered(s: State) {
    forall id :: id in s.accounts ==> Covered(s.accounts[id], id, s.queue)
  }

  predicate CoveredOrMarked(s: State) {
    forall id :: id in s.accounts ==> Covered(s.accounts[id], id, s.queue) || Marked(s.accounts[id], id, s.queue)
  }

  lemma WorkCovers(s: State)
    requires Inv(s)
    ensures AllCovered(s) ==> AllCovered(Work(s, NoFault))
    ensures CoveredOrMarked(s) ==> CoveredOrMarked(Work(s, NoFault))
  {
    CoreNeverRefuses(s);
    hide Inv, SaveRefusal, StoreRegister, StoreLoad, StoreCatalog, WriteRows;
    if s.ran < |s.queue| {
      var after := Work(s, NoFault);
      forall id | id in s.accounts
        ensures Covered(s.accounts[id], id, s.queue) ==> Covered(s.accounts[id], id, after.queue)
        ensures Marked(s.accounts[id], id, s.queue) ==> Marked(s.accounts[id], id, after.queue)
      {
        JobRanCovers(s.accounts[id], id, s.queue, s.ran, after.queue[s.ran]);
      }
    }
  }

  lemma JobRanCovers(a: Account, id: AccountId, queue: seq<Job>, at: nat, job: Job)
    requires at < |queue|
    requires queue[at].SaveJob? <==> job.SaveJob?
    requires job.SaveJob? ==> job.id == queue[at].id && job.serial == queue[at].serial && job.batch == queue[at].batch && !job.saved.Threw?
    ensures Covered(a, id, queue) ==> Covered(a, id, queue[at := job])
    ensures Marked(a, id, queue) ==> Marked(a, id, queue[at := job])
  {
    JobRanHas(queue, at, job, id);
    hide HasSave;
  }

  lemma JobRanHas(queue: seq<Job>, at: nat, job: Job, id: AccountId)
    requires at < |queue|
    requires queue[at].SaveJob? <==> job.SaveJob?
    requires job.SaveJob? ==> job.id == queue[at].id
    ensures HasSave(queue[at := job], id) <==> HasSave(queue, id)
  {
    var after := queue[at := job];
    assert forall i :: 0 <= i < |queue| ==> (queue[i].SaveJob? <==> after[i].SaveJob?);
    assert forall i :: 0 <= i < |queue| && queue[i].SaveJob? ==> queue[i].id == after[i].id;
  }

  lemma {:induction false} WorkedCovers(s: State)
    requires Inv(s)
    ensures s.ran <= |s.queue|
    ensures AllCovered(s) ==> AllCovered(Worked(s))
    ensures CoveredOrMarked(s) ==> CoveredOrMarked(Worked(s))
    decreases |s.queue| - s.ran
  {
    CoreFacts(s);
    hide Inv, AllCovered, CoveredOrMarked;
    if s.ran < |s.queue| {
      WorkCovers(s);
      WorkMoves(s, NoFault);
      WorkKeepsInv(s, NoFault);
      hide Work;
      WorkedCovers(Work(s, NoFault));
    }
  }

  /** A completed save of all writes leaves nothing unsaved. */
  lemma SettledAll(dirty: Values)
    ensures Settled(dirty, dirty).Keys == {}
  {
  }

  lemma DispatchCoversOne(s: State, id: AccountId)
    requires s.queue != [] && s.ran > 0 && s.queue[0].Ran() && id in s.accounts && id in DispatchOne(s).accounts
    ensures Covered(s.accounts[id], id, s.queue) ==> Covered(DispatchOne(s).accounts[id], id, DispatchOne(s).queue)
    ensures Marked(s.accounts[id], id, s.queue) ==> Marked(DispatchOne(s).accounts[id], id, DispatchOne(s).queue)
  {
    var job, after := s.queue[0], DispatchOne(s);
    var a, b := s.accounts[id], after.accounts[id];
    AccountAfter(s, job, id);
    hide Complete;
    BehindFirst(s.queue, id);
    SettledAll(a.dirty);
    hide Settled;
  }

  /** What a completion makes of an account. */
  lemma AccountAfter(s: State, job: Job, id: AccountId)
    requires job.Ran() && id in s.accounts && id in Complete(s, job).accounts
    ensures var a, b := s.accounts[id], Complete(s, job).accounts[id];
            && b.serial == a.serial
            && (!(job.SaveJob? && job.id == id && job.serial == a.serial) ==>
                  b.dirty == a.dirty && b.saving == a.saving && b.writeFailed == a.writeFailed)
            && (job.SaveJob? && job.id == id && job.serial == a.serial && job.saved.Done? ==> b.dirty == Settled(a.dirty, job.batch))
    ensures Complete(s, job).queue == s.queue && Complete(s, job).ran == s.ran
  {
    hide Settled, Overlay, CatalogCompleted, RegisterCompleted, LoadFinished, SaveFinished;
    match job
    case CatalogJob(listing) => CatalogTouches(s, listing);
    case RegisterJob(definition, serial, registered) => RegistrationTouches(s, definition, serial, registered);
    case LoadJob(_, _, snapshot) => LoadTouches(s.accounts[id], snapshot);
    case SaveJob(_, _, batch, saved) => SaveTouches(s.accounts[id], batch, saved);
  }

  lemma LoadTouches(a: Account, snapshot: Outcome<Rows>)
    requires !snapshot.Waiting?
    ensures var b := LoadFinished(a, snapshot); b.serial == a.serial && b.dirty == a.dirty && b.saving == a.saving && b.writeFailed == a.writeFailed
  {
  }

  lemma SaveTouches(a: Account, batch: Values, saved: Outcome<()>)
    requires !saved.Waiting?
    ensures var b := SaveFinished(a, batch, saved); b.serial == a.serial && (saved.Done? ==> b.dirty == Settled(a.dirty, batch))
  {
    hide Settled;
  }

  lemma CatalogTouches(s: State, listing: Outcome<seq<Definition>>)
    requires !listing.Waiting?
    ensures var after := CatalogCompleted(s, listing); after.accounts == s.accounts && after.queue == s.queue && after.ran == s.ran
  {
    if listing.Done? { MergeTouches(s.(catalogState := Ready, catalogError := ""), listing.result); }
    hide MergeCatalog;
  }

  lemma RegistrationTouches(s: State, definition: Definition, serial: nat, registered: Outcome<()>)
    requires !registered.Waiting?
    ensures var after := RegisterCompleted(s, definition, serial, registered);
            after.accounts == s.accounts && after.queue == s.queue && after.ran == s.ran
  {
  }

  lemma {:induction false} MergeTouches(s: State, listing: seq<Definition>)
    ensures MergeCatalog(s, listing).accounts == s.accounts && MergeCatalog(s, listing).queue == s.queue && MergeCatalog(s, listing).ran == s.ran
    decreases |listing|
  {
    if listing != [] {
      var (next, continues) := MergeDefinition(s, listing[0]);
      if continues { MergeTouches(next, listing[1..]); }
    }
  }

  lemma BehindFirst(queue: seq<Job>, id: AccountId)
    requires queue != []
    ensures HasSave(queue[1..], id) ==> HasSave(queue, id)
    ensures HasSave(queue, id) && !(queue[0].SaveJob? && queue[0].id == id) ==> HasSave(queue[1..], id)
    ensures forall i :: 0 <= i < |queue[1..]| ==> queue[1..][i] == queue[i + 1]
  {
    if HasSave(queue[1..], id) {
      var i :| 0 <= i < |queue[1..]| && queue[1..][i].SaveJob? && queue[1..][i].id == id;
      assert queue[i + 1].SaveJob? && queue[i + 1].id == id;
    }
    if HasSave(queue, id) && !(queue[0].SaveJob? && queue[0].id == id) {
      var i :| 0 <= i < |queue| && queue[i].SaveJob? && queue[i].id == id;
      assert queue[1..][i - 1] == queue[i];
    }
  }

  lemma DispatchOneCovers(s: State)
    requires Core(s)
    ensures AllCovered(s) ==> AllCovered(DispatchOne(s))
    ensures CoveredOrMarked(s) ==> CoveredOrMarked(DispatchOne(s))
  {
    DispatchOneKeepsCore(s);
    hide Core, Covered, Marked;
    if s.queue != [] && s.ran > 0 && s.queue[0].Ran() {
      forall id | id in s.accounts
        ensures Covered(s.accounts[id], id, s.queue) ==> Covered(DispatchOne(s).accounts[id], id, DispatchOne(s).queue)
        ensures Marked(s.accounts[id], id, s.queue) ==> Marked(DispatchOne(s).accounts[id], id, DispatchOne(s).queue)
      {
        DispatchCoversOne(s, id);
      }
    }
    hide Complete;
  }

  lemma {:induction false} DrainCovers(s: State)
    requires Core(s) && s.ran == |s.queue|
    ensures var drained := Dispatch(s, |s.queue|);
            && drained.queue == [] && drained.ran == 0
            && (AllCovered(s) ==> AllCovered(drained)) && (CoveredOrMarked(s) ==> CoveredOrMarked(drained))
    decreases |s.queue|
  {
    if s.queue != [] {
      FirstHasRun(s);
      DispatchOneKeepsCore(s);
      DispatchOneCovers(s);
      Pops(s);
      hide Core, AllCovered, CoveredOrMarked, DispatchOne;
      DrainCovers(DispatchOne(s));
    }
  }

  lemma FirstHasRun(s: State)
    requires Core(s) && s.ran == |s.queue| && s.queue != []
    ensures s.queue[0].Ran()
  {
  }

  lemma Pops(s: State)
    requires s.queue != [] && s.ran == |s.queue| && s.queue[0].Ran()
    ensures DispatchOne(s).queue == s.queue[1..] && DispatchOne(s).ran == s.ran - 1
  {
    hide Complete;
  }

  /** With an empty queue nothing is under way. */
  lemma NothingUnderWay(s: State)
    requires Core(s) && s.queue == []
    ensures forall id :: id in s.accounts ==> !s.accounts[id].saving && !s.accounts[id].loading
  {
    forall id | id in s.accounts ensures !s.accounts[id].saving && !s.accounts[id].loading {
      assert IdOk(s, id);
      assert Mine(s.queue, id) == [];
    }
  }

  // ----- saving everything that is not marked -----------------------------------------------------

  /** The accounts of the list are idle and have no save in the queue, and there is room for them all. */
  predicate IdleFor(s: State, ids: seq<AccountId>) {
    && |s.queue| + |ids| <= QUEUE_CAPACITY
    && (forall i, j :: 0 <= i < j < |ids| ==> ids[i] != ids[j])
    && forall id :: id in ids ==> id in s.accounts && !s.accounts[id].saving && !HasSave(s.queue, id)
  }

  predicate Handled(s: State, id: AccountId)
    requires id in s.accounts
  {
    Covered(s.accounts[id], id, s.queue) || Marked(s.accounts[id], id, s.queue)
  }

  lemma SaveOneCovers(s: State, id: AccountId)
    requires id in s.accounts && !s.accounts[id].saving && !HasSave(s.queue, id) && |s.queue| < QUEUE_CAPACITY
    ensures var after := Save(s, id);
            && after.accounts.Keys == s.accounts.Keys && |after.queue| <= |s.queue| + 1
            && Handled(after, id) && (!s.accounts[id].writeFailed ==> Covered(after.accounts[id], id, after.queue))
            && forall other :: other in s.accounts && other != id ==>
                 && after.accounts[other] == s.accounts[other]
                 && (HasSave(after.queue, other) <==> HasSave(s.queue, other))
                 && (Covered(s.accounts[other], other, s.queue) ==> Covered(after.accounts[other], other, after.queue))
  {
    var after := Save(s, id);
    if after != s {
      var job := SaveJob(id, s.accounts[id].serial, s.accounts[id].dirty, Waiting);
      assert after.queue == s.queue + [job];
      assert after.queue[|s.queue|] == job;
      forall other | other != id ensures HasSave(after.queue, other) <==> HasSave(s.queue, other) {
        if HasSave(s.queue, other) {
          var i :| 0 <= i < |s.queue| && s.queue[i].SaveJob? && s.queue[i].id == other;
          assert after.queue[i] == s.queue[i];
        }
      }
      forall i | 0 <= i < |after.queue| && after.queue[i].SaveJob? && after.queue[i].id == id
        ensures Saves(after.accounts[id], after.queue[i])
      {
        assert i == |s.queue|;
      }
    }
  }

  lemma {:induction false} SaveAllCovers(s: State, ids: seq<AccountId>)
    requires IdleFor(s, ids)
    ensures var after := SaveAll(s, ids);
            && after.accounts.Keys == s.accounts.Keys
            && (forall id :: id in ids ==> Handled(after, id))
            && forall id :: id in s.accounts && id !in ids ==>
                 && after.accounts[id] == s.accounts[id] && (HasSave(after.queue, id) <==> HasSave(s.queue, id))
                 && (Covered(s.accounts[id], id, s.queue) ==> Covered(after.accounts[id], id, after.queue))
    decreases |ids|
  {
    hide Save, Covered, HasSave;
    if ids != [] {
      SaveOneCovers(s, ids[0]);
      SaveAllCovers(Save(s, ids[0]), ids[1..]);
      assert ids[0] !in ids[1..];
    }
  }

  lemma {:induction false} RetryAllCovers(s: State, ids: seq<AccountId>)
    requires IdleFor(s, ids)
    ensures var after := RetryAll(s, ids);
            && after.accounts.Keys == s.accounts.Keys
            && (forall id :: id in ids ==> Covered(after.accounts[id], id, after.queue))
            && forall id :: id in s.accounts && id !in ids ==>
                 && after.accounts[id] == s.accounts[id] && (HasSave(after.queue, id) <==> HasSave(s.queue, id))
                 && (Covered(s.accounts[id], id, s.queue) ==> Covered(after.accounts[id], id, after.queue))
    decreases |ids|
  {
    hide Save, Covered, HasSave;
    if ids != [] {
      var cleared := UpdateAccount(s, ids[0], s.accounts[ids[0]].(writeFailed := false));
      SaveOneCovers(cleared, ids[0]);
      RetryAllCovers(RetryOne(s, ids[0]), ids[1..]);
      assert ids[0] !in ids[1..];
    }
  }

  // ----- one flush -----------------------------------------------------------------------------------

  lemma {:induction false} SaveAllIdle(s: State, ids: seq<AccountId>)
    requires forall id :: id in ids ==> id in s.accounts && (s.accounts[id].dirty.Keys == {} || s.accounts[id].writeFailed)
    ensures SaveAll(s, ids) == s
    decreases |ids|
  {
    if ids != [] { SaveAllIdle(s, ids[1..]); }
  }

  /** The queue after the worker has caught up and its completions were dispatched. */
  function Drained(s: State): State
    requires s.ran <= |s.queue|
  {
    Dispatch(Worked(s), |s.queue|)
  }

  lemma DrainedFacts(s: State)
    requires Inv(s)
    ensures s.ran <= |s.queue|
    ensures var drained := Drained(s);
            && Core(drained) && drained.queue == [] && drained.ran == 0
            && (AllCovered(s) ==> AllCovered(drained)) && (CoveredOrMarked(s) ==> CoveredOrMarked(drained))
            && drained.accounts.Keys == s.accounts.Keys && |s.accounts| <= MAX_ACCOUNTS
  {
    CoreFacts(s);
    WorkedFacts(s);
    WorkedCovers(s);
    InvHasCore(Worked(s));
    hide Inv, Core, AllCovered, CoveredOrMarked, Worked, Dispatch;
    DrainCovers(Worked(s));
    DispatchKeepsCore(Worked(s), |s.queue|);
  }

  /** With an empty queue all accounts are idle, and there is room for all of them. */
  lemma EmptyIsIdle(s: State)
    requires Core(s) && s.queue == [] && |s.accounts| <= MAX_ACCOUNTS
    ensures IdleFor(s, Ascending(s.accounts.Keys))
  {
    NothingUnderWay(s);
    AscendingDistinct(s.accounts.Keys);
    hide Core, Ascending;
    assert |s.accounts| == |s.accounts.Keys|;
  }

  lemma EmptyQueueCovers(s: State)
    requires s.queue == []
    ensures AllCovered(s) ==> forall id :: id in s.accounts ==> s.accounts[id].dirty.Keys == {}
    ensures CoveredOrMarked(s) ==> forall id :: id in s.accounts ==> s.accounts[id].dirty.Keys == {} || s.accounts[id].writeFailed
  {
  }

  lemma EvictCovers(s: State)
    ensures AllCovered(s) ==> AllCovered(Evict(s))
    ensures CoveredOrMarked(s) ==> CoveredOrMarked(Evict(s))
    ensures Evict(s).queue == s.queue && Evict(s).ran == s.ran
    ensures forall id :: id in Evict(s).accounts ==> id in s.accounts && Evict(s).accounts[id] == s.accounts[id]
  {
    hide Covered, Marked, Evictable;
  }

  /** Once the worker has caught up and a pump has run, every unsaved write is on its way, or its account is marked. */
  lemma FlushCovers(s: State)
    requires Inv(s)
    ensures s.ran <= |s.queue| && Inv(Flush(s)) && CoveredOrMarked(Flush(s))
    ensures (forall id :: id in Flush(s).accounts ==> !Flush(s).accounts[id].writeFailed) ==> AllCovered(Flush(s))
  {
    DrainedFacts(s);
    WorkedFacts(s);
    PumpKeepsInv(Worked(s), |s.queue|);
    hide Inv, Core, Covered, Dispatch, Worked, SaveAll, Evict, IdleFor;
    var drained := Drained(s);
    assert |drained.accounts| == |drained.accounts.Keys| == |s.accounts.Keys| == |s.accounts|;
    EmptyIsIdle(drained);
    SaveAllCovers(drained, Ascending(drained.accounts.Keys));
    EvictCovers(SaveAll(drained, Ascending(drained.accounts.Keys)));
    assert Flush(s) == Evict(SaveAll(drained, Ascending(drained.accounts.Keys)));
  }

  /** When every unsaved write was on its way already, a flush stores it all. */
  lemma FlushSettles(s: State)
    requires Inv(s) && CoveredOrMarked(s)
    ensures s.ran <= |s.queue| && Flush(s).queue == [] && Flush(s).ran == 0
    ensures forall id :: id in Flush(s).accounts ==> Flush(s).accounts[id].dirty.Keys == {} || Flush(s).accounts[id].writeFailed
    ensures AllCovered(s) ==> Clean(Flush(s))
  {
    DrainedFacts(s);
    hide Inv, Core, Dispatch, Worked, SaveAll, Evict, AllCovered, CoveredOrMarked;
    var drained := Drained(s);
    EmptyQueueCovers(drained);
    SaveAllIdle(drained, Ascending(drained.accounts.Keys));
    EvictCovers(drained);
    assert Flush(s) == Evict(drained);
  }

  lemma RetryCovers(s: State)
    requires Inv(s) && s.queue == []
    ensures Inv(RetryWrites(s)) && AllCovered(RetryWrites(s))
  {
    InvHasCore(s);
    hide Inv, Core, RetryAll, Covered, IdleFor, Ascending;
    RetryWritesKeepsInv(s);
    EmptyIsIdle(s);
    RetryAllCovers(s, Ascending(s.accounts.Keys));
  }

  lemma CoveredIsEither(s: State)
    ensures AllCovered(s) ==> CoveredOrMarked(s)
  {
    hide Covered, Marked;
  }

  lemma InvHasCore(s: State)
    requires Inv(s)
    ensures Core(s) && |s.accounts| <= MAX_ACCOUNTS
  {
  }

  /** A marked account is not saved again by pumps. */
  predicate Stays(s: State, after: State, id: AccountId) {
    && id in s.accounts && id in after.accounts && after.accounts[id].dirty == s.accounts[id].dirty
    && Marked(s.accounts[id], id, s.queue) && Marked(after.accounts[id], id, after.queue)
  }

  lemma DispatchOneStays(s: State, id: AccountId)
    requires Core(s) && id in s.accounts && Marked(s.accounts[id], id, s.queue)
    ensures Stays(s, DispatchOne(s), id)
  {
    DispatchOneKeepsCore(s);
    if s.queue != [] && s.ran > 0 && s.queue[0].Ran() {
      assert s.queue[0].SaveJob? ==> s.queue[0].id != id;
      DispatchCoversOne(s, id);
      AccountAfter(s, s.queue[0], id);
    }
    hide Core, Complete;
  }

  lemma {:induction false} DispatchStays(s: State, count: nat, id: AccountId)
    requires Core(s) && id in s.accounts && Marked(s.accounts[id], id, s.queue)
    ensures Stays(s, Dispatch(s, count), id)
    decreases count
  {
    if count != 0 {
      DispatchOneStays(s, id);
      DispatchOneKeepsCore(s);
      hide Core, DispatchOne, Marked;
      DispatchStays(DispatchOne(s), count - 1, id);
    }
  }

  lemma {:induction false} WorkedStays(s: State, id: AccountId)
    requires Inv(s) && id in s.accounts && Marked(s.accounts[id], id, s.queue)
    ensures s.ran <= |s.queue| && Stays(s, Worked(s), id)
    decreases |s.queue| - s.ran
  {
    CoreFacts(s);
    if s.ran < |s.queue| {
      WorkMoves(s, NoFault);
      WorkStays(s, id);
      WorkKeepsInv(s, NoFault);
      hide Inv, Work, Marked;
      WorkedStays(Work(s, NoFault), id);
    }
  }

  lemma WorkStays(s: State, id: AccountId)
    requires s.ran < |s.queue| && id in s.accounts && Marked(s.accounts[id], id, s.queue)
    ensures Stays(s, Work(s, NoFault), id)
  {
    hide StoreRegister, StoreLoad, StoreCatalog, StoreSave, WriteRows;
    JobRanHas(s.queue, s.ran, Work(s, NoFault).queue[s.ran], id);
    hide HasSave;
  }

  lemma FlushStays(s: State, id: AccountId)
    requires Inv(s) && CoveredOrMarked(s) && id in s.accounts && Marked(s.accounts[id], id, s.queue) && s.accounts[id].dirty.Keys != {}
    ensures s.ran <= |s.queue| && !Clean(Flush(s))
  {
    CoreFacts(s);
    WorkedFacts(s);
    InvHasCore(Worked(s));
    WorkedStays(s, id);
    DispatchStays(Worked(s), |s.queue|, id);
    DrainedFacts(s);
    hide Inv, Core, Dispatch, Worked, SaveAll, AllCovered, CoveredOrMarked;
    var drained := Drained(s);
    EmptyQueueCovers(drained);
    SaveAllIdle(drained, Ascending(drained.accounts.Keys));
    assert Flush(s) == Evict(drained);
    assert id in Evict(drained).accounts;
  }

  /**
    * Workers without faults and pumps alone store everything exactly when, after the first of them, no account
    * with unsaved writes carries the mark of a failed save.
    */
  lemma PumpsSufficeExactly(s: State)
    requires Inv(s)
    ensures s.ran <= |s.queue| && Inv(Flush(s)) && Flush(s).ran <= |Flush(s).queue|
    ensures Clean(Flush(Flush(s))) <==>
              forall id :: id in Flush(s).accounts && Flush(s).accounts[id].dirty.Keys != {} ==> !Flush(s).accounts[id].writeFailed
  {
    FlushCovers(s);
    var once := Flush(s);
    FlushCovers(once);
    FlushSettles(once);
    UnmarkedIsCovered(once);
    hide Inv, Flush, Clean, AllCovered, HasSave;
    if id :| id in once.accounts && once.accounts[id].dirty.Keys != {} && once.accounts[id].writeFailed {
      assert CoveredOrMarked(once);
      FlushStays(once, id);
    }
  }

  lemma UnmarkedIsCovered(s: State)
    requires CoveredOrMarked(s)
    ensures (forall id :: id in s.accounts && s.accounts[id].dirty.Keys != {} ==> !s.accounts[id].writeFailed) ==> AllCovered(s)
  {
    hide HasSave, Saves;
  }

  // ----- the whole recovery, as events ------------------------------------------------------------------

  /** The events of one flush: fault-free worker steps, then a pump of all that finished. */
  function FlushEvents(s: State): seq<Event>
    requires s.ran <= |s.queue|
    decreases |s.queue| - s.ran
  {
    if s.ran == |s.queue| then [PumpEvent(s.ran)] else
      WorkMoves(s, NoFault);
      [WorkEvent(NoFault)] + FlushEvents(Work(s, NoFault))
  }

  lemma {:induction false} FlushRuns(s: State)
    requires s.ran <= |s.queue|
    ensures Run(s, FlushEvents(s)) == Flush(s) && |FlushEvents(s)| == |s.queue| - s.ran + 1
    ensures forall event :: event in FlushEvents(s) ==> event == WorkEvent(NoFault) || event.PumpEvent?
    decreases |s.queue| - s.ran
  {
    hide Work, Pump;
    if s.ran == |s.queue| {
      assert [PumpEvent(s.ran)][1..] == [];
    } else {
      WorkMoves(s, NoFault);
      var next := Work(s, NoFault);
      FlushRuns(next);
      assert FlushEvents(s)[0] == WorkEvent(NoFault) && FlushEvents(s)[1..] == FlushEvents(next);
    }
  }

  lemma {:induction false} RunApart(s: State, first: seq<Event>, second: seq<Event>)
    ensures Run(s, first + second) == Run(Run(s, first), second)
    decreases |first|
  {
    hide Step;
    if first == [] {
      assert first + second == second;
    } else {
      assert (first + second)[1..] == first[1..] + second;
      RunApart(Step(s, first[0]), first[1..], second);
    }
  }

  predicate Recovering(events: seq<Event>) {
    forall event :: event in events ==> event == WorkEvent(NoFault) || event.PumpEvent? || event.RetryWritesEvent?
  }

  /** One flush as a short run. */
  lemma FlushReaches(s: State) returns (events: seq<Event>)
    requires Inv(s)
    ensures s.ran <= |s.queue| && Run(s, events) == Flush(s) && Inv(Flush(s))
    ensures Recovering(events) && |events| <= 257
  {
    CoreFacts(s);
    FlushRuns(s);
    FlushCovers(s);
    hide Inv, Run, Flush;
    events := FlushEvents(s);
  }

  lemma RecoveringBoth(first: seq<Event>, second: seq<Event>)
    requires Recovering(first) && Recovering(second)
    ensures Recovering(first + second)
  {
  }

  /** Two flushes, a call to clear the marks, and one more flush. */
  lemma Recovery(s: State) returns (events: seq<Event>)
    requires Inv(s)
    ensures var after := Run(s, events); Inv(after) && Clean(after) && after.ran == 0
    ensures Recovering(events) && |events| <= 772
  {
    hide Inv, Flush, AllCovered, CoveredOrMarked, RetryWrites, Clean, Run;
    var first := FlushReaches(s);
    var once := Flush(s);
    FlushCovers(s);
    var second := FlushReaches(once);
    FlushSettles(once);
    var marked := Flush(once);
    RetryCovers(marked);
    var retried := RetryWrites(marked);
    var last := FlushReaches(retried);
    CoveredIsEither(retried);
    FlushSettles(retried);
    OneEvent(marked, RetryWritesEvent);
    assert Step(marked, RetryWritesEvent) == retried;
    events := first + (second + ([RetryWritesEvent] + last));
    RunApart(s, first, second + ([RetryWritesEvent] + last));
    RunApart(once, second, [RetryWritesEvent] + last);
    RunApart(marked, [RetryWritesEvent], last);
    RecoveringBoth([RetryWritesEvent], last);
    RecoveringBoth(second, [RetryWritesEvent] + last);
    RecoveringBoth(first, second + ([RetryWritesEvent] + last));
  }

  lemma OneEvent(s: State, event: Event)
    ensures Run(s, [event]) == Step(s, event)
  {
    hide Step;
    assert [event][1..] == [];
  }

  /** Once everything is clean, the service says that it can stop. */
  lemma CleanCanStop(s: State)
    requires Clean(s) && s.ran == 0
    ensures CanStop(s, s.ran).1
  {
    SaveAllIdle(s, Ascending(s.accounts.Keys));
    hide Evictable;
  }

  /**
    * From every reachable state, a worker without faults, pumps and one call to retry failed writes bring the
    * service to a point, at most 772 events later, where every accepted value is stored and it can stop.
    */
  lemma EverythingIsStored(store: Store, events: seq<Event>) returns (more: seq<Event>)
    requires StoreOk(store)
    ensures Recovering(more) && |more| <= 772
    ensures var s := Run(Run(Start(store), events), more);
            Clean(s) && CanStop(s, s.ran).1 && forall id :: AllStored(s, id)
  {
    StartInv(store);
    RunKeepsInv(Start(store), events);
    var s := Run(Start(store), events);
    more := Recovery(s);
    var after := Run(s, more);
    InvHasCore(after);
    AllCleanAreStored(after);
    CleanCanStop(after);
    hide Inv, Core, Run;
  }
}
