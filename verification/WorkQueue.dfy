/** The bounded job queue: workers take jobs in order, and the owner dispatches what they finish. */
module WorkQueue {
  type Job = nat

  /** `accepted` and `dispatched` remember every job ever taken in and ever consumed, in order. */
  datatype Queue = Queue(workers: nat, capacity: nat, jobs: seq<Job>, waiting: seq<Job>, running: seq<Job>, ready: seq<Job>,
                         accepted: seq<Job>, dispatched: seq<Job>)

  datatype Step =
    | Submit(job: Job)
    | Take
    | Finish(index: nat)
    | Dispatch(keep: bool)

  function Empty(workers: nat, capacity: nat): Queue {
    Queue(workers, capacity, [], [], [], [], [], [])
  }

  function Without(list: seq<Job>, index: nat): seq<Job>
    requires index < |list|
  {
    list[..index] + list[index + 1..]
  }

  function IndexOf(list: seq<Job>, job: Job): (index: nat)
    requires job in list
    ensures index < |list| && list[index] == job && job !in list[..index]
  {
    if list[0] == job then 0 else
      assert list == [list[0]] + list[1..];
      1 + IndexOf(list[1..], job)
  }

  /** A job is dropped from the table of all pending jobs. */
  function Erased(list: seq<Job>, job: Job): seq<Job> {
    if job in list then Without(list, IndexOf(list, job)) else list
  }

  function Submitted(q: Queue, job: Job): Queue {
    if |q.jobs| >= q.capacity || job in q.accepted then q
    else q.(jobs := q.jobs + [job], waiting := q.waiting + [job], accepted := q.accepted + [job])
  }

  function Taken(q: Queue): Queue {
    if q.waiting == [] || |q.running| >= q.workers then q
    else q.(waiting := q.waiting[1..], running := q.running + [q.waiting[0]])
  }

  function Finished(q: Queue, index: nat): Queue {
    if index >= |q.running| then q
    else q.(running := Without(q.running, index), ready := q.ready + [q.running[index]])
  }

  /** The oldest finished job is completed, or kept for the next time. */
  function Dispatched(q: Queue, keep: bool): Queue {
    if q.ready == [] then q
    else if keep then q.(ready := q.ready[1..] + [q.ready[0]])
    else q.(ready := q.ready[1..], jobs := Erased(q.jobs, q.ready[0]), dispatched := q.dispatched + [q.ready[0]])
  }

  function Next(q: Queue, step: Step): Queue {
    match step
    case Submit(job) => Submitted(q, job)
    case Take => Taken(q)
    case Finish(index) => Finished(q, index)
    case Dispatch(keep) => Dispatched(q, keep)
  }

  function Run(q: Queue, steps: seq<Step>): Queue
    decreases |steps|
  {
    if steps == [] then q else Run(Next(q, steps[0]), steps[1..])
  }

  // ----- nothing is lost -----------------------------------------------------------------------

  predicate NoRepeats(list: seq<Job>) {
    forall i, j :: 0 <= i < j < |list| ==> list[i] != list[j]
  }

  /** Every accepted job is in exactly one place, and the table holds those not yet dispatched. */
  predicate Accounted(q: Queue) {
    && NoRepeats(q.accepted)
    && multiset(q.accepted) == multiset(q.dispatched) + multiset(q.jobs)
    && multiset(q.jobs) == multiset(q.waiting) + multiset(q.running) + multiset(q.ready)
    && |q.jobs| <= q.capacity && |q.running| <= q.workers
  }

  lemma WithoutBag(list: seq<Job>, index: nat)
    requires index < |list|
    ensures multiset(Without(list, index)) == multiset(list) - multiset{list[index]}
    ensures |Without(list, index)| == |list| - 1
  {
    assert list == list[..index] + [list[index]] + list[index + 1..];
  }

  lemma HeadBag(list: seq<Job>)
    requires list != []
    ensures multiset(list) == multiset{list[0]} + multiset(list[1..])
  {
    assert list == [list[0]] + list[1..];
  }

  lemma DispatchAccounts(q: Queue)
    requires Accounted(q) && q.ready != []
    ensures Accounted(Dispatched(q, false))
  {
    var job := q.ready[0];
    HeadBag(q.ready);
    assert job in multiset(q.jobs);
    WithoutBag(q.jobs, IndexOf(q.jobs, job));
    hide NoRepeats, Without;
    var after := Dispatched(q, false);
    assert multiset(after.dispatched) == multiset(q.dispatched) + multiset{job};
    assert multiset(after.jobs) == multiset(q.jobs) - multiset{job};
  }

  lemma StepAccounts(q: Queue, step: Step)
    requires Accounted(q)
    ensures Accounted(Next(q, step))
  {
    hide Accounted, Submitted, Taken, Finished, Dispatched;
    match step
    case Submit(job) => SubmitAccounts(q, job);
    case Take => TakeAccounts(q);
    case Finish(index) => FinishAccounts(q, index);
    case Dispatch(keep) =>
      if q.ready == [] { NothingToDispatch(q, keep); } else if keep { KeepAccounts(q); } else { DispatchAccounts(q); }
  }

  lemma SubmitAccounts(q: Queue, job: Job)
    requires Accounted(q)
    ensures Accounted(Submitted(q, job))
  {
  }

  lemma NothingToDispatch(q: Queue, keep: bool)
    requires q.ready == []
    ensures Dispatched(q, keep) == q
  {
  }

  lemma KeepAccounts(q: Queue)
    requires Accounted(q) && q.ready != []
    ensures Accounted(Dispatched(q, true))
  {
    HeadBag(q.ready);
    hide NoRepeats;
  }

  lemma TakeAccounts(q: Queue)
    requires Accounted(q)
    ensures Accounted(Taken(q))
  {
    hide NoRepeats;
    if q.waiting != [] { HeadBag(q.waiting); }
  }

  lemma FinishAccounts(q: Queue, index: nat)
    requires Accounted(q)
    ensures Accounted(Finished(q, index))
  {
    hide NoRepeats;
    if index < |q.running| { WithoutBag(q.running, index); }
    hide Without;
  }

  /** With any number of workers no job is lost or dispatched twice, and the table stays within its bounds. */
  lemma {:induction false} RunAccounts(q: Queue, steps: seq<Step>)
    requires Accounted(q)
    ensures Accounted(Run(q, steps))
    decreases |steps|
  {
    hide Accounted, Next;
    if steps != [] {
      StepAccounts(q, steps[0]);
      RunAccounts(Next(q, steps[0]), steps[1..]);
    }
  }

  // ----- everything is dispatched in the end -----------------------------------------------------

  function Left(q: Queue): nat {
    3 * |q.waiting| + 2 * |q.running| + |q.ready|
  }

  /** With a worker, no more than three steps a job bring every pending job to its dispatch. */
  lemma EverythingIsDispatched(q: Queue) returns (steps: seq<Step>)
    requires Accounted(q) && q.workers > 0
    ensures var after := Run(q, steps);
            after.jobs == [] && after.accepted == q.accepted && multiset(after.dispatched) == multiset(q.accepted)
    ensures |steps| <= 3 * |q.jobs|
  {
    assert |multiset(q.jobs)| == |q.waiting| + |q.running| + |q.ready|;
    steps := AllSteps(q);
  }

  lemma {:induction false} AllSteps(q: Queue) returns (steps: seq<Step>)
    requires Accounted(q) && q.workers > 0
    ensures var after := Run(q, steps);
            after.jobs == [] && after.accepted == q.accepted && multiset(after.dispatched) == multiset(q.accepted)
    ensures |steps| == Left(q)
    decreases Left(q)
  {
    if Left(q) == 0 {
      steps := [];
      NothingPending(q);
    } else {
      var step := if q.ready != [] then Dispatch(false) else if q.running != [] then Finish(0) else Take;
      StepAccounts(q, step);
      StepMoves(q);
      hide Accounted, Next;
      var rest := AllSteps(Next(q, step));
      steps := [step] + rest;
      assert steps[1..] == rest;
    }
  }

  lemma NothingPending(q: Queue)
    requires Accounted(q) && Left(q) == 0
    ensures q.jobs == [] && multiset(q.dispatched) == multiset(q.accepted)
  {
    assert q.waiting == [] && q.running == [] && q.ready == [];
    assert |multiset(q.jobs)| == 0;
  }

  lemma StepMoves(q: Queue)
    requires Accounted(q) && q.workers > 0 && Left(q) > 0
    ensures var step := if q.ready != [] then Dispatch(false) else if q.running != [] then Finish(0) else Take;
            Left(Next(q, step)) == Left(q) - 1 && Next(q, step).accepted == q.accepted && Next(q, step).workers == q.workers
  {
    hide Accounted, Erased;
  }

  /** A kept completion goes behind the others; nothing else moves. */
  lemma KeptGoesBehind(q: Queue)
    requires q.ready != []
    ensures Dispatched(q, true) == q.(ready := Dispatched(q, true).ready)
    ensures Dispatched(q, true).ready == q.ready[1..] + [q.ready[0]]
  {
  }

  // ----- order -------------------------------------------------------------------------------------

  predicate NeverKeeps(steps: seq<Step>) {
    forall i :: 0 <= i < |steps| && steps[i].Dispatch? ==> !steps[i].keep
  }

  /** Jobs move along in the order they came. */
  predicate InOrder(q: Queue) {
    && q.jobs == q.ready + q.running + q.waiting
    && q.accepted == q.dispatched + q.jobs
    && NoRepeats(q.accepted)
    && |q.running| <= 1 && |q.jobs| <= q.capacity
  }

  /** No two jobs can run at once. */
  predicate Serial(q: Queue) {
    q.workers <= 1 || q.capacity <= 1
  }

  lemma SubmitInOrder(q: Queue, job: Job)
    requires InOrder(q)
    ensures InOrder(Submitted(q, job))
  {
  }

  lemma TakeInOrder(q: Queue)
    requires InOrder(q) && Serial(q)
    ensures InOrder(Taken(q))
  {
    hide NoRepeats;
    if q.waiting != [] {
      assert q.waiting == [q.waiting[0]] + q.waiting[1..];
      assert |q.jobs| == |q.ready| + |q.running| + |q.waiting|;
    }
  }

  lemma FinishInOrder(q: Queue, index: nat)
    requires InOrder(q)
    ensures InOrder(Finished(q, index))
  {
    hide NoRepeats;
    if index < |q.running| { assert q.running == [q.running[0]] && Without(q.running, 0) == []; }
  }

  lemma DispatchInOrder(q: Queue)
    requires InOrder(q)
    ensures InOrder(Dispatched(q, false))
  {
    hide NoRepeats, Erased;
    if q.ready != [] {
      FirstErased(q.jobs);
      MoveHead(q.ready, q.running + q.waiting, q.dispatched);
      assert q.ready + q.running + q.waiting == q.ready + (q.running + q.waiting);
      assert q.ready[1..] + (q.running + q.waiting) == q.ready[1..] + q.running + q.waiting;
    }
  }

  lemma MoveHead(ready: seq<Job>, rest: seq<Job>, before: seq<Job>)
    requires ready != []
    ensures (ready + rest)[0] == ready[0] && (ready + rest)[1..] == ready[1..] + rest
    ensures before + (ready + rest) == before + [ready[0]] + (ready[1..] + rest)
  {
  }

  lemma FirstErased(list: seq<Job>)
    requires list != []
    ensures Erased(list, list[0]) == list[1..]
  {
    assert IndexOf(list, list[0]) == 0;
  }

  lemma StepInOrder(q: Queue, step: Step)
    requires InOrder(q) && Serial(q) && (step.Dispatch? ==> !step.keep)
    ensures InOrder(Next(q, step)) && Serial(Next(q, step))
  {
    hide InOrder;
    match step
    case Submit(job) => SubmitInOrder(q, job);
    case Take => TakeInOrder(q);
    case Finish(index) => FinishInOrder(q, index);
    case Dispatch(keep) => DispatchInOrder(q);
  }

  /** One worker, or one place, whose completions are all consumed dispatches jobs in the order they were submitted. */
  lemma {:induction false} OneWorkerKeepsOrder(q: Queue, steps: seq<Step>)
    requires InOrder(q) && Serial(q) && NeverKeeps(steps)
    ensures InOrder(Run(q, steps))
    ensures Run(q, steps).dispatched <= Run(q, steps).accepted
    decreases |steps|
  {
    hide InOrder, Next;
    if steps != [] {
      StepInOrder(q, steps[0]);
      OneWorkerKeepsOrder(Next(q, steps[0]), steps[1..]);
    } else {
      DispatchedFirst(q);
    }
  }

  lemma DispatchedFirst(q: Queue)
    requires InOrder(q)
    ensures q.dispatched <= q.accepted
  {
  }

  /** With two workers and room for two jobs the second may always be dispatched first. */
  lemma TwoWorkersMayOvertake(workers: nat, capacity: nat, first: Job, second: Job)
    requires workers >= 2 && capacity >= 2 && first != second
    ensures var q := Run(Empty(workers, capacity), Overtaking(first, second));
            q.accepted == [first, second] && q.dispatched == [second]
    ensures NeverKeeps(Overtaking(first, second))
  {
    var a := Submitted(Submitted(Empty(workers, capacity), first), second);
    assert a == Queue(workers, capacity, [first, second], [first, second], [], [], [first, second], []);
    var b := Taken(Taken(a));
    assert a.waiting[1..] == [second] && a.waiting[1..][1..] == [];
    assert b == Queue(workers, capacity, [first, second], [], [first, second], [], [first, second], []);
    var c := Finished(b, 1);
    assert c == Queue(workers, capacity, [first, second], [], [first], [second], [first, second], []);
    hide IndexOf, Submitted, Taken, Finished;
    RunSix(Empty(workers, capacity), Submit(first), Submit(second), Take, Take, Finish(1), Dispatch(false));
  }

  function Overtaking(first: Job, second: Job): seq<Step> {
    [Submit(first), Submit(second), Take, Take, Finish(1), Dispatch(false)]
  }

  /** A queue keeps the order over every run that consumes its completions exactly when no two jobs can run at once. */
  lemma OrderIsKeptExactly(workers: nat, capacity: nat)
    ensures (forall steps :: NeverKeeps(steps) ==> InSubmissionOrder(Run(Empty(workers, capacity), steps)))
            <==> workers <= 1 || capacity <= 1
  {
    hide Run;
    if workers <= 1 || capacity <= 1 {
      forall steps | NeverKeeps(steps) ensures InSubmissionOrder(Run(Empty(workers, capacity), steps)) {
        OneWorkerKeepsOrder(Empty(workers, capacity), steps);
      }
    } else {
      TwoWorkersMayOvertake(workers, capacity, 1, 2);
      hide Overtaking;
      var q := Run(Empty(workers, capacity), Overtaking(1, 2));
      assert q.dispatched[0] != q.accepted[0] && !InSubmissionOrder(q);
    }
  }

  predicate InSubmissionOrder(q: Queue) {
    q.dispatched <= q.accepted
  }

  lemma RunSix(q: Queue, a: Step, b: Step, c: Step, d: Step, e: Step, f: Step)
    ensures Run(q, [a, b, c, d, e, f]) == Next(Next(Next(Next(Next(Next(q, a), b), c), d), e), f)
  {
    hide Next, Run;
    RunOne(q, [a, b, c, d, e, f], [b, c, d, e, f]);
    RunOne(Next(q, a), [b, c, d, e, f], [c, d, e, f]);
    RunOne(Next(Next(q, a), b), [c, d, e, f], [d, e, f]);
    RunOne(Next(Next(Next(q, a), b), c), [d, e, f], [e, f]);
    RunOne(Next(Next(Next(Next(q, a), b), c), d), [e, f], [f]);
    RunOne(Next(Next(Next(Next(Next(q, a), b), c), d), e), [f], []);
    RunNone(Next(Next(Next(Next(Next(Next(q, a), b), c), d), e), f));
  }

  lemma RunOne(q: Queue, steps: seq<Step>, rest: seq<Step>)
    requires steps != [] && steps[1..] == rest
    ensures Run(q, steps) == Run(Next(q, steps[0]), rest)
  {
  }

  lemma RunNone(q: Queue)
    ensures Run(q, []) == q
  {
  }
}
