/** The orchestrator: the retry helper, the per-startup status mapping, the
    worker count and the two phases of `final_pipeline` with their summary
    counts. A task is an attempt script, the k-th call of the task giving
    `script(k)`; the order in which a phase's tasks complete is an input,
    any permutation of the phase's startups. */
module Pipeline {
  import opened Articles
  import opened Seqs
  import NewsApi

  /** The exceptions the orchestrator tells apart. */
  datatype Error = OperationalError | ConnectionError | TimeoutError | OtherError(name: string)

  /** The exceptions `run_with_retries` retries. */
  predicate IsTransient(e: Error)
  {
    e.OperationalError? || e.ConnectionError? || e.TimeoutError?
  }

  /** One call of the task: it returns a value or raises. */
  datatype Attempt<T> = Value(value: T) | Raise(error: Error)

  predicate IsTransientRaise<T>(a: Attempt<T>)
  {
    a.Raise? && IsTransient(a.error)
  }

  /** How `run_with_retries` ends: it returns the task's value, re-raises,
      or (with a negative `retries`, when the loop never runs) falls off the
      end and returns `None`. */
  datatype RetryOutcome<T> = Returned(value: T) | Reraised(error: Error) | FellThrough

  /** The outcome of a call that ends the retries. */
  function Settle<T>(a: Attempt<T>): RetryOutcome<T>
  {
    match a
    case Value(v) => Returned(v)
    case Raise(e) => Reraised(e)
  }

  const DefaultRetries: int := 2

  /** `run_with_retries` from the call numbered `attempt` on. */
  function Retry<T>(call: nat -> Attempt<T>, retries: int, attempt: nat): (r: RetryOutcome<T>)
    decreases retries - attempt
    ensures r.FellThrough? <==> attempt > retries
    ensures r.Returned? ==> exists k | attempt <= k <= retries :: call(k) == Value(r.value)
    ensures r.Reraised? ==> exists k | attempt <= k <= retries :: call(k) == Raise(r.error)
  {
    if attempt > retries then FellThrough
    else
      match call(attempt)
      case Value(v) => Returned(v)
      case Raise(e) =>
        if IsTransient(e) && attempt + 1 <= retries then Retry(call, retries, attempt + 1)
        else Reraised(e)
  }

  /** Every call numbered `lo` up to, not including, `hi` raised a transient
      error. */
  ghost predicate TransientBetween<T>(call: nat -> Attempt<T>, lo: nat, hi: nat)
  {
    forall j | lo <= j < hi :: IsTransientRaise(call(j))
  }

  /** The retries end at call `k`: the first call that does not raise a
      transient error, or the last call allowed. */
  lemma {:induction false} RetryEnds<T>(call: nat -> Attempt<T>, retries: int, attempt: nat) returns (k: nat)
    requires attempt <= retries
    ensures attempt <= k <= retries
    ensures TransientBetween(call, attempt, k)
    ensures IsTransientRaise(call(k)) ==> k == retries
    ensures Retry(call, retries, attempt) == Settle(call(k))
    decreases retries - attempt
  {
    if IsTransientRaise(call(attempt)) && attempt + 1 <= retries {
      k := RetryEnds(call, retries, attempt + 1);
    } else {
      k := attempt;
    }
  }

  /** `run_with_retries` returns `v` exactly when some call within the first
      `retries + 1` returns `v` after transient errors only. */
  lemma RetryReturns<T>(call: nat -> Attempt<T>, retries: int, v: T)
    ensures Retry(call, retries, 0) == Returned(v) <==>
              exists k: nat | k <= retries :: call(k) == Value(v) && TransientBetween(call, 0, k)
  {
    if 0 <= retries {
      var k := RetryEnds(call, retries, 0);
      if Retry(call, retries, 0) == Returned(v) {
        assert call(k) == Value(v);
      }
    }
  }

  /** A call that raises a non-transient error after transient errors only
      ends the retries with that error: it is never retried. */
  lemma FatalNotRetried<T>(call: nat -> Attempt<T>, retries: int, k: nat)
    requires k <= retries && TransientBetween(call, 0, k)
    requires call(k).Raise? && !IsTransient(call(k).error)
    ensures Retry(call, retries, 0) == Reraised(call(k).error)
  {
    var end := RetryEnds(call, retries, 0);
  }

  /** When every allowed call raises a transient error, the last error is
      re-raised. */
  lemma AllTransientReraised<T>(call: nat -> Attempt<T>, retries: int)
    requires 0 <= retries && TransientBetween(call, 0, retries + 1)
    ensures Retry(call, retries, 0) == Reraised(call(retries).error)
  {
    var end := RetryEnds(call, retries, 0);
    assert IsTransientRaise(call(end));
  }

  /** `run_with_retries(func, retries)`, with the number of calls of the task
      and of sleeps between them. */
  method RunWithRetries<T>(call: nat -> Attempt<T>, retries: int) returns (outcome: RetryOutcome<T>, calls: nat, sleeps: nat)
    ensures outcome == Retry(call, retries, 0)
    ensures calls == 0 <==> retries < 0
    ensures calls <= if retries < 0 then 0 else retries + 1
    ensures calls > 0 ==> TransientBetween(call, 0, calls - 1) && outcome == Settle(call(calls - 1))
    ensures 0 < calls <= retries ==> !IsTransientRaise(call(calls - 1))
    ensures sleeps == if calls == 0 then 0 else calls - 1
  {
    outcome, calls, sleeps := FellThrough, 0, 0;
    var attempt: nat := 0;
    while attempt <= retries
      invariant attempt == 0 || attempt <= retries
      invariant calls == attempt && sleeps == attempt
      invariant TransientBetween(call, 0, attempt)
      invariant Retry(call, retries, attempt) == Retry(call, retries, 0)
      decreases retries - attempt
    {
      var result := call(attempt);
      calls := calls + 1;
      match result
      case Value(v) =>
        outcome := Returned(v);
        return;
      case Raise(e) =>
        if !IsTransient(e) {
          outcome := Reraised(e);
          return;
        }
        attempt := attempt + 1;
        if attempt > retries {
          outcome := Reraised(e);
          return;
        }
        sleeps := sleeps + 1;
    }
  }

  /** The `"status"` of a task's result. */
  datatype Status = Success | DbError | Failed

  /** The `"phase"` of a task's result: `process_missing` or
      `process_existing`. */
  datatype Phase = Missing | Daily

  /** A task's result, without its duration. */
  datatype TaskResult = TaskResult(name: string, phase: Phase, status: Status)

  /** The `except` clauses around the retried task: no exception is a
      success, an `OperationalError` a database error, anything else a
      failure. */
  function StatusOf<T>(o: RetryOutcome<T>): (status: Status)
    ensures status == Success <==> !o.Reraised?
    ensures status == DbError <==> o == Reraised(OperationalError)
  {
    match o
    case Reraised(OperationalError) => DbError
    case Reraised(_) => Failed
    case _ => Success
  }

  /** With the default two retries: success exactly when one of the first
      three calls succeeds after transient errors only, a database error
      exactly when all three raise transient errors and the third is an
      `OperationalError`. */
  lemma StatusOfTask<T>(task: nat -> Attempt<T>)
    ensures StatusOf(Retry(task, DefaultRetries, 0)) == Success <==>
              exists k: nat | k <= DefaultRetries :: task(k).Value? && TransientBetween(task, 0, k)
    ensures StatusOf(Retry(task, DefaultRetries, 0)) == DbError <==>
              TransientBetween(task, 0, DefaultRetries) && task(DefaultRetries) == Raise(OperationalError)
  {
    var k := RetryEnds(task, DefaultRetries, 0);
    if StatusOf(Retry(task, DefaultRetries, 0)) == Success {
      assert task(k).Value?;
    }
    forall j: nat | j <= DefaultRetries && task(j).Value? && TransientBetween(task, 0, j)
      ensures StatusOf(Retry(task, DefaultRetries, 0)) == Success
    {
      if j < k {
        assert IsTransientRaise(task(j));
      }
    }
  }

  /** A startup as the orchestrator sees it. */
  datatype Startup = Startup(id: string, name: string, keywords: NewsApi.HelpingWords)

  /** The result a task ends with. */
  function ResultOf(phase: Phase, task: nat -> Attempt<()>, s: Startup): TaskResult
  {
    TaskResult(s.name, phase, StatusOf(Retry(task, DefaultRetries, 0)))
  }

  /** `process_missing` / `process_existing`: run the startup's task with
      retries and map how it ended to a result; never raises. */
  method ProcessStartup(s: Startup, phase: Phase, task: nat -> Attempt<()>) returns (result: TaskResult)
    ensures result.name == s.name && result.phase == phase
    ensures result == ResultOf(phase, task, s)
  {
    var outcome, _, _ := RunWithRetries(task, DefaultRetries);
    match outcome
    case Reraised(OperationalError) => result := TaskResult(s.name, phase, DbError);
    case Reraised(_) => result := TaskResult(s.name, phase, Failed);
    case _ => result := TaskResult(s.name, phase, Success);
  }

  /** `max_workers` when truthy; otherwise `max(2, min(10, cpu // 2))` with
      `cpu` defaulting to 4 when unknown or zero. */
  function WorkerCount(maxWorkers: Option<int>, cpuCount: Option<nat>): (n: int)
    ensures maxWorkers.Some? && maxWorkers.value != 0 ==> n == maxWorkers.value
    ensures !(maxWorkers.Some? && maxWorkers.value != 0) ==> 2 <= n <= 10
    ensures !(maxWorkers.Some? && maxWorkers.value != 0) && cpuCount.None? ==> n == 2
    ensures !(maxWorkers.Some? && maxWorkers.value != 0) && cpuCount.Some? && 4 <= cpuCount.value < 22 ==>
              n == cpuCount.value / 2
    ensures !(maxWorkers.Some? && maxWorkers.value != 0) && cpuCount.Some? && cpuCount.value < 4 ==> n == 2
    ensures !(maxWorkers.Some? && maxWorkers.value != 0) && cpuCount.Some? && cpuCount.value >= 20 ==> n == 10
  {
    if maxWorkers.Some? && maxWorkers.value != 0 then maxWorkers.value
    else
      var cpu := if cpuCount.Some? && cpuCount.value != 0 then cpuCount.value else 4;
      var capped := if cpu / 2 < 10 then cpu / 2 else 10;
      if capped > 2 then capped else 2
  }

  /** The ids of the startups. */
  function Ids(startups: seq<Startup>): set<string>
  {
    set s | s in startups :: s.id
  }

  /** The comprehension of phase 2: the startups whose id is not a missing
      startup's, in the order of `all`. */
  function ExistingStartups(all: seq<Startup>, missing: seq<Startup>): (r: seq<Startup>)
    ensures forall s | s in r :: s in all && s.id !in Ids(missing)
    ensures forall s | s in all && s.id !in Ids(missing) :: s in r
  {
    var ids := Ids(missing);
    var p := (s: Startup) => s.id !in ids;
    var r := Filter(all, p);
    forall s | s in r || s in all ensures s in r <==> s in all && s.id !in ids {
      FilterMembership(all, p, s);
    }
    r
  }

  /** Every startup of `all` is handled by exactly one phase, and the
      existing startups keep the order of `all`. */
  lemma StartupsPartitioned(all: seq<Startup>, missing: seq<Startup>)
    ensures forall s | s in all :: s in ExistingStartups(all, missing) <==> s.id !in Ids(missing)
    ensures forall s | s in ExistingStartups(all, missing) :: forall m | m in missing :: s.id != m.id
    ensures IsSubsequence(ExistingStartups(all, missing), all)
  {
    var ids := Ids(missing);
    FilterIsSubsequence(all, (s: Startup) => s.id !in ids);
  }

  /** The result of each startup of a phase. */
  function ResultFor(phase: Phase, tasks: Startup -> (nat -> Attempt<()>)): Startup -> TaskResult
  {
    s => ResultOf(phase, tasks(s), s)
  }

  /** One phase: submit every startup's task and append the results in the
      order the tasks complete (`order`). */
  method RunPhase(order: seq<Startup>, phase: Phase, tasks: Startup -> (nat -> Attempt<()>))
    returns (results: seq<TaskResult>)
    ensures results == Map(ResultFor(phase, tasks), order)
  {
    results := [];
    var i := 0;
    while i < |order|
      invariant 0 <= i <= |order|
      invariant results == Map(ResultFor(phase, tasks), order[..i])
    {
      var result := ProcessStartup(order[i], phase, tasks(order[i]));
      MapSnoc(ResultFor(phase, tasks), order[..i], order[i]);
      TakeOneMore(order, i);
      results := results + [result];
      i := i + 1;
    }
    assert order[..i] == order;
  }

  /** Whatever order the tasks complete in, a phase yields one result per
      startup: the same results, up to order. */
  lemma PhaseResultsPermuted(order: seq<Startup>, startups: seq<Startup>, phase: Phase,
                             tasks: Startup -> (nat -> Attempt<()>))
    requires multiset(order) == multiset(startups)
    ensures multiset(Map(ResultFor(phase, tasks), order)) == multiset(Map(ResultFor(phase, tasks), startups))
  {
    MapPermutation(ResultFor(phase, tasks), order, startups);
  }

  /** Every result of a phase carries that phase. */
  lemma PhaseTagged(order: seq<Startup>, phase: Phase, tasks: Startup -> (nat -> Attempt<()>))
    ensures forall i | 0 <= i < |order| :: Map(ResultFor(phase, tasks), order)[i].phase == phase
  {
    forall i | 0 <= i < |order| ensures Map(ResultFor(phase, tasks), order)[i].phase == phase {
      MapAt(ResultFor(phase, tasks), order, i);
    }
  }

  predicate Succeeded(r: TaskResult)
  {
    r.status == Success
  }

  /** `final_pipeline`: phase 1 over the missing startups, phase 2 over the
      others, then the summary counts. `missingOrder` and `existingOrder`
      are the orders in which the tasks of each phase complete. */
  method FinalPipeline(maxWorkers: Option<int>, cpuCount: Option<nat>, missing: seq<Startup>, all: seq<Startup>,
                       tasks: Startup -> (nat -> Attempt<()>), missingOrder: seq<Startup>, existingOrder: seq<Startup>)
    returns (results: seq<TaskResult>, workers: int, successCount: nat, failedCount: nat)
    requires multiset(missingOrder) == multiset(missing)
    requires multiset(existingOrder) == multiset(ExistingStartups(all, missing))
    ensures workers == WorkerCount(maxWorkers, cpuCount)
    ensures results == Map(ResultFor(Missing, tasks), missingOrder) + Map(ResultFor(Daily, tasks), existingOrder)
    ensures |results| == |missing| + |ExistingStartups(all, missing)|
    ensures forall i | 0 <= i < |results| :: results[i].phase == if i < |missing| then Missing else Daily
    ensures successCount == Count(results, Succeeded)
    ensures successCount + failedCount == |results|
  {
    workers := WorkerCount(maxWorkers, cpuCount);
    assert |missingOrder| == |multiset(missing)| == |missing|;
    assert |existingOrder| == |multiset(ExistingStartups(all, missing))| == |ExistingStartups(all, missing)|;
    results := [];
    if missing != [] {
      results := RunPhase(missingOrder, Missing, tasks);
    } else {
      assert missingOrder == [];
    }
    var existing := ExistingStartups(all, missing);
    var phaseTwo := [];
    if existing != [] {
      phaseTwo := RunPhase(existingOrder, Daily, tasks);
    } else {
      assert existingOrder == [];
    }
    PhaseTagged(missingOrder, Missing, tasks);
    PhaseTagged(existingOrder, Daily, tasks);
    results := results + phaseTwo;
    successCount := Count(results, Succeeded);
    failedCount := Count(results, (r: TaskResult) => r.status != Success);
    CountSplit(results, Succeeded, (r: TaskResult) => r.status != Success);
  }
}
