/** src/pipeline-task.ts: the builders of the stage records. */
module Tasks {
  import opened Records
  import opened Referential
  import opened Formatter

  /** Normalises a fetched repository: same name, date part of the creation
      timestamp. The referential is neither read nor changed. */
  function CreateTaskTwo(data: RawRepository): (t: TaskTwo)
    ensures t.name == data.name
    ensures 'T' !in t.createdAt && t.createdAt <= data.createdAt
    ensures t.createdAt == FormatDate(data.createdAt)
  {
    TaskTwo(data.name, FormatDate(data.createdAt))
  }

  /** Attaches the already decoded contributors list to a normalised
      repository. */
  function CreateTaskFour(t: TaskTwo, contributors: seq<Contributor>): (f: TaskFour)
    ensures f.name == t.name && f.createdAt == t.createdAt
    ensures f.contributors == contributors
  {
    TaskFour(t.name, t.createdAt, contributors)
  }

  /** Aggregates one enriched repository against the referential. The record
      keeps name and date; its count is the number of its distinct logins not
      seen before, at most the number of its contributors; the referential
      gains exactly those logins. */
  function CreateTaskFive(r: Referential, f: TaskFour): (res: (TaskFive, Referential))
    ensures res.0.name == f.name && res.0.createdAt == f.createdAt
    ensures res.0.contributorsCount == |Logins(f.contributors) - r|
    ensures res.0.contributorsCount <= |f.contributors|
    ensures res.1 == r + Logins(f.contributors)
  {
    var counted := CountNew(r, f.contributors);
    CountNewIsNewLogins(r, f.contributors);
    CountNewBound(r, f.contributors);
    (TaskFive(f.name, f.createdAt, counted.0), counted.1)
  }
}
