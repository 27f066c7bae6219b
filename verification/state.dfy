/** src/pipeline-state.ts: the process-wide run state, as a value. */
module PipelineState {

  /** Task numbers 1 to 6 of src/pipeline-orchestrator.ts. */
  type Task = t: int | 1 <= t <= 6 witness 1

  /** Clock readings; the clock itself is a parameter of the operations. */
  type Timestamp = nat

  datatype Pipeline =
    | Free
    | InProgress(start: Timestamp, currentTask: Task)
    | Success(start: Timestamp, end: Timestamp)
    | Failure(task: Task)

  /** The state before any run. */
  const InitialPipeline: Pipeline := Free

  /** The moves of the run lifecycle: staying put, (re)starting a run, or a
      running pipeline settling as a success or a failure. FREE is never
      re-entered. */
  predicate Allowed(p: Pipeline, q: Pipeline) {
    p == q || q.InProgress? || (p.InProgress? && (q.Success? || q.Failure?))
  }

  /** Replaces the state with its argument, whatever the current state. */
  function SetPipeline(current: Pipeline, next: Pipeline): (p: Pipeline)
    ensures p == next
  {
    next
  }

  /** Records the end of a successful run. Only a run in progress can succeed:
      from any other state the call is logged and ignored. */
  function UpdateSuccessfulPipeline(p: Pipeline, now: Timestamp): (q: Pipeline)
    ensures Allowed(p, q) && (q.Free? ==> p.Free?)
    ensures p.InProgress? ==> q.Success? && q.start == p.start && q.end == now
    ensures !p.InProgress? ==> q == p
  {
    if !p.InProgress? then p else Success(p.start, now)
  }

  /** Records the failure of a run at `task`. Only a run in progress can
      fail: from any other state the call is logged and ignored. */
  function UpdateUnsuccessfulPipeline(p: Pipeline, task: Task): (q: Pipeline)
    ensures Allowed(p, q) && (q.Free? ==> p.Free?)
    ensures p.InProgress? ==> q == Failure(task)
    ensures !p.InProgress? ==> q == p
  {
    if !p.InProgress? then p else Failure(task)
  }

  /** A success never ends before it starts, given a clock that does not run
      backwards during the run. */
  lemma SuccessIsOrdered(p: Pipeline, now: Timestamp)
    requires p.InProgress? ==> p.start <= now
    requires p.Success? ==> p.start <= p.end
    ensures var q := UpdateSuccessfulPipeline(p, now); q.Success? ==> q.start <= q.end
  {
  }

  /** Once a run has settled, a second settlement changes nothing, whatever
      its time or task. */
  lemma SettlementIsFinal(p: Pipeline, now: Timestamp, task: Task, later: Timestamp, task2: Task)
    requires p.InProgress?
    ensures var s := UpdateSuccessfulPipeline(p, now);
            UpdateUnsuccessfulPipeline(s, task2) == s && UpdateSuccessfulPipeline(s, later) == s
    ensures var f := UpdateUnsuccessfulPipeline(p, task);
            UpdateSuccessfulPipeline(f, later) == f && UpdateUnsuccessfulPipeline(f, task2) == f
  {
  }
}
