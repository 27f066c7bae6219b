/** src/pipeline-handler.ts: the start, error, finish and retry handlers,
    as transitions of the process-wide context. The retry interval timer is
    the `pendingRetry` field: the task the armed timer will retry, if any. */
module Handler {
  import opened Wrappers
  import opened Referential
  import opened PipelineState

  /** Run state, contributors referential and retry timer: the three pieces
      of module-level state the handlers share. */
  datatype Context = Context(pipeline: Pipeline, referential: Referential, pendingRetry: Option<Task>)

  const InitialContext: Context := Context(InitialPipeline, ResetContributors(), None)

  /** Marks a run as started at task 1, whatever task the run actually begins
      with. Neither the referential nor the retry timer is touched. */
  function OnStart(c: Context, now: Timestamp): (d: Context)
    ensures d.pipeline == InProgress(now, 1)
    ensures Allowed(c.pipeline, d.pipeline)
    ensures d.referential == c.referential && d.pendingRetry == c.pendingRetry
  {
    c.(pipeline := SetPipeline(c.pipeline, InProgress(now, 1)))
  }

  /** Records the failure at `task`, empties the referential, cancels any
      armed retry and arms exactly one new retry, for `task`. */
  function OnError(c: Context, task: Task): (d: Context)
    ensures c.pipeline.InProgress? ==> d.pipeline == Failure(task)
    ensures !c.pipeline.InProgress? ==> d.pipeline == c.pipeline
    ensures forall login :: !HasAlready(d.referential, login)
    ensures d.pendingRetry == Some(task)
  {
    Context(UpdateUnsuccessfulPipeline(c.pipeline, task), ResetContributors(), Some(task))
  }

  /** Records the success, empties the referential and cancels any armed
      retry, including one left by an earlier failure. */
  function OnFinish(c: Context, now: Timestamp): (d: Context)
    ensures c.pipeline.InProgress? ==> d.pipeline == Success(c.pipeline.start, now)
    ensures !c.pipeline.InProgress? ==> d.pipeline == c.pipeline
    ensures forall login :: !HasAlready(d.referential, login)
    ensures d.pendingRetry.None?
  {
    Context(UpdateSuccessfulPipeline(c.pipeline, now), ResetContributors(), None)
  }

  /** The task a retry restarts at: a failure while fetching repositories
      restarts from the beginning, any other failure from the journal. */
  function OnRetry(task: Task): (restart: Task)
    ensures restart == 1 <==> task == 1
    ensures restart == 1 || restart == 3
  {
    if task == 1 then 1 else 3
  }

  datatype Response = Accepted | AlreadyRunning

  /** The start request of the HTTP front door: refused while a run is in
      progress, otherwise the run is started at task 1. An accepted start
      keeps the referential and leaves an armed retry armed. */
  function RequestStart(c: Context, now: Timestamp): (res: (Response, Context))
    ensures res.0 == AlreadyRunning <==> c.pipeline.InProgress?
    ensures res.0 == AlreadyRunning ==> res.1 == c
    ensures res.0 == Accepted ==> res.1.pipeline == InProgress(now, 1)
    ensures res.0 == Accepted ==> res.1.referential == c.referential && res.1.pendingRetry == c.pendingRetry
  {
    if c.pipeline.InProgress? then (AlreadyRunning, c) else (Accepted, OnStart(c, now))
  }

  /** One tick of the retry interval timer: with a retry armed, a run starts
      at the task `OnRetry` picks. The timer stays armed, since it is an
      interval, the run state is not consulted, and the referential is kept,
      so a run still in progress shares it with the retried one. */
  function FireRetry(c: Context, now: Timestamp): (res: Option<(Task, Context)>)
    ensures res.Some? <==> c.pendingRetry.Some?
    ensures res.Some? ==> res.value.0 == OnRetry(c.pendingRetry.value)
    ensures res.Some? ==> res.value.1.pipeline == InProgress(now, 1)
    ensures res.Some? ==> res.value.1.pendingRetry == c.pendingRetry
    ensures res.Some? ==> res.value.1.referential == c.referential
  {
    match c.pendingRetry
    case None => None
    case Some(task) => Some((OnRetry(task), OnStart(c, now)))
  }

  /** Agreement between the reported state, the referential and the timer
      whenever no run is in progress: the referential is empty, a failure at
      `t` has exactly the retry for `t` armed, and a success or the initial
      state has none. */
  predicate Consistent(c: Context) {
    && (!c.pipeline.InProgress? ==> c.referential == {})
    && (c.pipeline.Failure? ==> c.pendingRetry == Some(c.pipeline.task))
    && ((c.pipeline.Success? || c.pipeline.Free?) ==> c.pendingRetry.None?)
  }

  /** The globals before any request: FREE, no login seen, no retry armed. */
  lemma InitialIsConsistent()
    ensures InitialContext.pipeline == Free
    ensures forall login :: !HasAlready(InitialContext.referential, login)
    ensures InitialContext.pendingRetry.None?
    ensures Consistent(InitialContext)
  {
  }

  /** Settling a run in progress, either way, yields a consistent context. */
  lemma SettlingIsConsistent(c: Context, now: Timestamp, task: Task)
    requires c.pipeline.InProgress?
    ensures Consistent(OnError(c, task))
    ensures Consistent(OnFinish(c, now))
  {
  }

  /** A second start request while a run is in progress is refused and leaves
      everything as it was: at most one run is started from the front door. */
  lemma SingleFlight(c: Context, now: Timestamp, later: Timestamp)
    requires !c.pipeline.InProgress?
    ensures var first := RequestStart(c, now);
            first.0 == Accepted && RequestStart(first.1, later) == (AlreadyRunning, first.1)
  {
  }

  /** The retry timer does not share that guard: while a retried run is still
      in progress, the next tick starts another one (src/config.ts warns
      about intervals shorter than a run). */
  lemma RetryIgnoresRunState(c: Context, now: Timestamp)
    requires c.pipeline.InProgress? && c.pendingRetry.Some?
    ensures FireRetry(c, now).Some?
    ensures RequestStart(c, now).0 == AlreadyRunning
  {
  }
}
