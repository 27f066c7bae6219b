/** src/pipeline-orchestrator.ts: the two stage chains, the dispatch on the
    task number, and the default entry that marks the run as started and
    settles it through the handlers. */
module Orchestrator {
  import opened Wrappers
  import opened Strings
  import opened Records
  import opened Referential
  import opened Formatter
  import opened Metrics
  import opened PipelineState
  import opened Handler
  import opened Stream

  /** The two files the pipeline appends to. */
  datatype Files = Files(journal: string, csv: string)

  /** How an attempt ends: the finish event of the CSV writer, or the error
      event of a fetching stage tagged with its task number. */
  datatype Outcome = Finished | Errored(task: Task, cause: string)

  datatype Attempt = Attempt(outcome: Outcome, files: Files, referential: Referential)

  /** What the repositories fetcher delivers: all repositories, or the error
      it emits instead of any data. */
  type RepositoriesFetch = Result<seq<RawRepository>, string>

  /** readContributors, transformContributors and writeCSV, the tail both
      chains share. An enrichment error is reported as task 3; the lines of
      the records enriched before it are still written. */
  function EnrichAndWrite(fetch: ContributorsFetcher, items: seq<TaskTwo>, files: Files, r: Referential): (a: Attempt)
    ensures a.files.journal == files.journal
    ensures files.csv <= a.files.csv
    ensures a.outcome.Finished? <==> forall i :: 0 <= i < |items| ==> fetch(items[i]).Ok?
    ensures a.outcome.Errored? ==> a.outcome.task == 3
  {
    var e := ReadContributors(fetch, items);
    ReadContributorsFails(fetch, items);
    var t := TransformContributors(r, e.enriched);
    var outcome := match e.failure
      case None => Finished
      case Some(cause) => Errored(3, cause);
    Attempt(outcome, Files(files.journal, WriteCSV(files.csv, t.0)), t.1)
  }

  /** The full chain: fetch repositories, normalise, journal, enrich,
      aggregate, write. A repository-fetch error is reported as task 1 and
      nothing is written. */
  function StartFromBeginning(repos: RepositoriesFetch, fetch: ContributorsFetcher, files: Files, r: Referential): (a: Attempt)
    ensures repos.Err? ==> a == Attempt(Errored(1, repos.error), files, r)
    ensures repos.Ok? ==> a.files.journal == SaveTaskTwo(files.journal, TransformRepository(repos.value)).0
    ensures a.outcome.Errored? ==> (a.outcome.task == 1 <==> repos.Err?)
    ensures files.csv <= a.files.csv && files.journal <= a.files.journal
  {
    match repos
    case Err(cause) => Attempt(Errored(1, cause), files, r)
    case Ok(repositories) =>
      var saved := SaveTaskTwo(files.journal, TransformRepository(repositories));
      EnrichAndWrite(fetch, saved.1, Files(saved.0, files.csv), r)
  }

  /** The resume chain: replay the journal, then enrich, aggregate and
      write. The repositories are not fetched and the journal is only read. */
  function StartFromTaskThree(fetch: ContributorsFetcher, files: Files, r: Referential): (a: Attempt)
    ensures a.files.journal == files.journal
    ensures files.csv <= a.files.csv
    ensures a.outcome.Errored? ==> a.outcome.task == 3
  {
    EnrichAndWrite(fetch, ReplayJournal(files.journal), files, r)
  }

  /** `start`: task 1 runs the full chain, any other task the resume chain.
      Errors are reported as task 1 exactly when the repositories could not
      be fetched, and as task 3 otherwise. */
  function Start(task: Task, repos: RepositoriesFetch, fetch: ContributorsFetcher, files: Files, r: Referential): (a: Attempt)
    ensures a.outcome.Errored? ==> (a.outcome.task == 1 <==> task == 1 && repos.Err?)
    ensures a.outcome.Errored? ==> a.outcome.task == 1 || a.outcome.task == 3
    ensures files.csv <= a.files.csv && files.journal <= a.files.journal
    ensures task != 1 ==> a.files.journal == files.journal
  {
    if task == 1 then StartFromBeginning(repos, fetch, files, r) else StartFromTaskThree(fetch, files, r)
  }

  /** The resume chain never looks at the repositories fetcher. */
  lemma ResumeIgnoresRepositories(task: Task, repos1: RepositoriesFetch, repos2: RepositoriesFetch,
                                  fetch: ContributorsFetcher, files: Files, r: Referential)
    requires task != 1
    ensures Start(task, repos1, fetch, files, r) == Start(task, repos2, fetch, files, r)
  {
  }

  /** With fetchers that succeed, both start points reach the finish event. */
  lemma SuccessfulFetchersFinish(task: Task, repositories: seq<RawRepository>, fetch: ContributorsFetcher,
                                 files: Files, r: Referential)
    requires forall item :: fetch(item).Ok?
    ensures Start(task, Ok(repositories), fetch, files, r).outcome == Finished
  {
  }

  /** What an attempt appends to the result file: one formatted line per
      record aggregated from the items enriched before any error, in order. */
  lemma WrittenLines(fetch: ContributorsFetcher, items: seq<TaskTwo>, files: Files, r: Referential)
    ensures var records := Aggregate(r, ReadContributors(fetch, items).enriched).records;
            EnrichAndWrite(fetch, items, files, r).files.csv
              == files.csv + Concat(FormatAll(records))
  {
  }

  /** The records a successful enrichment aggregates keep the order, names
      and dates of the items they come from. */
  lemma AggregatedRecords(fetch: ContributorsFetcher, items: seq<TaskTwo>, r: Referential)
    requires forall i :: 0 <= i < |items| ==> fetch(items[i]).Ok?
    ensures var records := Aggregate(r, ReadContributors(fetch, items).enriched).records;
            && |records| == |items|
            && forall i :: 0 <= i < |items| ==>
                 records[i].name == items[i].name && records[i].createdAt == items[i].createdAt
  {
    ReadContributorsFails(fetch, items);
  }

  /** A normalised date read from a field free of separators is itself free
      of them. */
  lemma FormatDateKeepsClean(d: string)
    requires CleanField(d)
    ensures CleanField(FormatDate(d))
  {
  }

  /** The lines of aggregated records matching a sequence of clean items
      read back as one row per item, in order. */
  lemma RowsOfRecords(records: seq<TaskFive>, items: seq<TaskTwo>)
    requires |records| == |items|
    requires forall i :: 0 <= i < |items| ==>
      records[i].name == items[i].name && records[i].createdAt == items[i].createdAt
    requires forall i :: 0 <= i < |items| ==>
      items[i].name != "" && CleanField(items[i].name) && CleanField(items[i].createdAt)
    ensures var m := GetMetrics(Concat(FormatAll(records)));
            && (|items| == 0 <==> m.NoMetrics?)
            && (m.Rows? ==> |m.rows| == |items|)
            && (m.Rows? ==> forall i :: 0 <= i < |items| ==>
                  && m.rows[i].name == items[i].name
                  && m.rows[i].createdAt == Some(items[i].createdAt)
                  && m.rows[i].count.Some? && IsDigits(m.rows[i].count.value))
  {
    MetricsOfFormattedLines(records);
    forall i | 0 <= i < |records|
      ensures IsDigits(NatToString(records[i].contributorsCount))
    {
    }
  }

  /** Successful enrichment into an empty result file: read back, it holds
      one row per item, in order, with the item's name and date and a
      decimal count. */
  lemma EnrichedRows(fetch: ContributorsFetcher, items: seq<TaskTwo>, journal: string, r: Referential)
    requires forall i :: 0 <= i < |items| ==> fetch(items[i]).Ok?
    requires forall i :: 0 <= i < |items| ==>
      items[i].name != "" && CleanField(items[i].name) && CleanField(items[i].createdAt)
    ensures var m := GetMetrics(EnrichAndWrite(fetch, items, Files(journal, ""), r).files.csv);
            && (|items| == 0 <==> m.NoMetrics?)
            && (m.Rows? ==> |m.rows| == |items|)
            && (m.Rows? ==> forall i :: 0 <= i < |items| ==>
                  && m.rows[i].name == items[i].name
                  && m.rows[i].createdAt == Some(items[i].createdAt)
                  && m.rows[i].count.Some? && IsDigits(m.rows[i].count.value))
  {
    var e := ReadContributors(fetch, items);
    var records := Aggregate(r, e.enriched).records;
    AggregatedRecords(fetch, items, r);
    RowsOfRecords(records, items);
    WrittenLines(fetch, items, Files(journal, ""), r);
    var csv := EnrichAndWrite(fetch, items, Files(journal, ""), r).files.csv;
    assert csv == Concat(FormatAll(records)) by {
      assert "" + Concat(FormatAll(records)) == Concat(FormatAll(records));
    }
  }

  /** A full run with successful fetchers appends one line per repository,
      in input order: read back, an empty result file gives one row per
      repository with its name, its date part and a decimal count. */
  lemma FullRunLines(repositories: seq<RawRepository>, fetch: ContributorsFetcher, journal: string, r: Referential)
    requires forall item :: fetch(item).Ok?
    requires forall i :: 0 <= i < |repositories| ==>
      repositories[i].name != "" && CleanField(repositories[i].name) && CleanField(repositories[i].createdAt)
    ensures var m := GetMetrics(Start(1, Ok(repositories), fetch, Files(journal, ""), r).files.csv);
            && (|repositories| == 0 <==> m.NoMetrics?)
            && (m.Rows? ==> |m.rows| == |repositories|)
            && (m.Rows? ==> forall i :: 0 <= i < |repositories| ==>
                  && m.rows[i].name == repositories[i].name
                  && m.rows[i].createdAt == Some(FormatDate(repositories[i].createdAt))
                  && m.rows[i].count.Some? && IsDigits(m.rows[i].count.value))
  {
    var items := TransformRepository(repositories);
    var saved := SaveTaskTwo(journal, items);
    forall i | 0 <= i < |items|
      ensures CleanField(items[i].createdAt)
    {
      FormatDateKeepsClean(repositories[i].createdAt);
    }
    EnrichedRows(fetch, items, saved.0, r);
    assert Start(1, Ok(repositories), fetch, Files(journal, ""), r)
        == EnrichAndWrite(fetch, items, Files(saved.0, ""), r);
  }

  /** Resume equivalence: starting from a journal with nothing to replay, a
      first attempt that fails while enriching leaves a journal whose resumed
      run produces exactly what an uninterrupted full run would have, for the
      same contributors responses, whatever the first attempt fetched. */
  lemma ResumeEquivalence(repositories: seq<RawRepository>, failedFetch: ContributorsFetcher, fetch: ContributorsFetcher,
                          journal: string, firstCsv: string, csv: string, firstRef: Referential, r: Referential)
    requires WellFormedJournal(journal) && ReplayJournal(journal) == []
    ensures var first := StartFromBeginning(Ok(repositories), failedFetch, Files(journal, firstCsv), firstRef);
            StartFromTaskThree(fetch, Files(first.files.journal, csv), r)
              == StartFromBeginning(Ok(repositories), fetch, Files(journal, csv), r)
  {
    var items := TransformRepository(repositories);
    ReplayAfterSave(journal, items);
    assert [] + items == items;
  }

  /** A full run that fails while enriching, then its retry from task 3
      into the CSV it left behind: the lines written before the failure stay,
      and the retry writes the lines of every journalled record after them,
      so records enriched before the failure appear twice. The retry counts
      against the empty referential `onError` left. */
  lemma ResumeAppendsToFailedCsv(repositories: seq<RawRepository>, failedFetch: ContributorsFetcher,
                                 fetch: ContributorsFetcher, journal: string, csv: string, r: Referential)
    requires WellFormedJournal(journal) && ReplayJournal(journal) == []
    ensures var items := TransformRepository(repositories);
            var first := StartFromBeginning(Ok(repositories), failedFetch, Files(journal, csv), r);
            var resumed := StartFromTaskThree(fetch, first.files, {});
            resumed.files.csv
              == csv + Concat(FormatAll(Aggregate(r, ReadContributors(failedFetch, items).enriched).records))
                     + Concat(FormatAll(Aggregate({}, ReadContributors(fetch, items).enriched).records))
  {
    var items := TransformRepository(repositories);
    var saved := SaveTaskTwo(journal, items);
    var first := StartFromBeginning(Ok(repositories), failedFetch, Files(journal, csv), r);
    var failedLines := Concat(FormatAll(Aggregate(r, ReadContributors(failedFetch, items).enriched).records));
    assert first.files == Files(saved.0, csv + failedLines) by {
      WrittenLines(failedFetch, items, Files(saved.0, csv), r);
    }
    assert ReplayJournal(saved.0) == items by {
      ReplayAfterSave(journal, items);
      assert [] + items == items;
    }
    WrittenLines(fetch, items, first.files, {});
  }

  /** The journal is never truncated: a resumed run replays every record
      journalled by earlier full attempts, followed by the latest ones. */
  lemma ResumeReplaysHistory(repositories: seq<RawRepository>, failedFetch: ContributorsFetcher, fetch: ContributorsFetcher,
                             journal: string, firstCsv: string, csv: string, firstRef: Referential, r: Referential)
    requires WellFormedJournal(journal)
    ensures var first := StartFromBeginning(Ok(repositories), failedFetch, Files(journal, firstCsv), firstRef);
            StartFromTaskThree(fetch, Files(first.files.journal, csv), r)
              == EnrichAndWrite(fetch, ReplayJournal(journal) + TransformRepository(repositories),
                                Files(first.files.journal, csv), r)
  {
    ReplayAfterSave(journal, TransformRepository(repositories));
  }

  /** Routes the end of an attempt to the handlers: the finish event to
      `onFinish`, an error event to `onError` with its task. */
  function Settle(c: Context, a: Attempt, now: Timestamp): (d: Context)
    requires c.pipeline.InProgress?
    ensures Consistent(d)
    ensures a.outcome.Finished? <==> d.pipeline.Success?
    ensures a.outcome.Finished? ==> d.pipeline == Success(c.pipeline.start, now) && d.pendingRetry.None?
    ensures a.outcome.Errored? ==> d.pipeline == Failure(a.outcome.task) && d.pendingRetry == Some(a.outcome.task)
  {
    var c' := c.(referential := a.referential);
    match a.outcome
    case Finished => OnFinish(c', now)
    case Errored(task, _) => OnError(c', task)
  }

  /** The default entry followed through to the end of the attempt: `onStart`
      marks the run as started, `start` runs the chain for `task` against the
      referential as it was, and the handler of whichever event ends the
      chain settles the state. The run ends as a success exactly when the
      chain finishes; otherwise it ends as a failure at the task the error
      was tagged with, 1 exactly when the repositories could not be fetched,
      with that retry armed. Either way the referential is empty again. */
  function Run(task: Task, c: Context, startTime: Timestamp, endTime: Timestamp,
               repos: RepositoriesFetch, fetch: ContributorsFetcher, files: Files): (res: (Context, Attempt))
    ensures res.1 == Start(task, repos, fetch, files, c.referential)
    ensures Consistent(res.0)
    ensures res.0.pipeline.Success? || res.0.pipeline.Failure?
    ensures res.0.pipeline.Success? <==> res.1.outcome.Finished?
    ensures res.0.pipeline.Success? ==> res.0.pipeline == Success(startTime, endTime)
    ensures res.0.pipeline.Failure? ==> res.1.outcome.Errored? && res.0.pipeline.task == res.1.outcome.task
    ensures res.0.pipeline.Failure? ==> (res.0.pipeline.task == 1 <==> task == 1 && repos.Err?)
  {
    var started := OnStart(c, startTime);
    var a := Start(task, repos, fetch, files, started.referential);
    (Settle(started, a, endTime), a)
  }

  /** A repository-fetch failure leaves the state as FAILURE at task 1 with a
      retry from the beginning armed, and both files as they were. */
  lemma RepositoriesFailureScenario(c: Context, startTime: Timestamp, endTime: Timestamp,
                                    cause: string, fetch: ContributorsFetcher, files: Files)
    ensures var res := Run(1, c, startTime, endTime, Err(cause), fetch, files);
            && res.0.pipeline == Failure(1)
            && res.0.pendingRetry == Some(1)
            && OnRetry(res.0.pendingRetry.value) == 1
            && res.1.files == files
  {
  }

  /** The contributors fixture of the tests: every repository has the single
      contributor `earth`. */
  function EarthFetcher(item: TaskTwo): Result<seq<Contributor>, string> {
    Ok([Contributor("earth")])
  }

  /** Counting `earth` against an empty referential gives 1. */
  lemma EarthRecord()
    ensures Aggregate({}, [TaskFour("404", "2011-01-26", [Contributor("earth")])]).records
         == [TaskFive("404", "2011-01-26", 1)]
  {
    var earth := [Contributor("earth")];
    LoginsCons(earth);
    assert Logins(earth[1..]) == {};
    AggregateStep({}, [TaskFour("404", "2011-01-26", earth)]);
  }

  /** `earth` is fetched for the normalised fixture record. */
  lemma EarthEnrichment()
    ensures ReadContributors(EarthFetcher, [TaskTwo("404", "2011-01-26")]).enriched
         == [TaskFour("404", "2011-01-26", [Contributor("earth")])]
  {
    ReadContributorsFails(EarthFetcher, [TaskTwo("404", "2011-01-26")]);
  }

  lemma ConcatSingle(chunk: string)
    ensures Concat([chunk]) == chunk
  {
    assert [chunk][1..] == [];
  }

  /** The fixture record is written as `404;2011-01-26;1`. */
  lemma EarthText()
    ensures Concat(FormatAll([TaskFive("404", "2011-01-26", 1)])) == "404;2011-01-26;1\n"
  {
    var record := TaskFive("404", "2011-01-26", 1);
    FormatContributorsExample();
    var lines := FormatAll([record]);
    assert lines == [FormatContributors(record)];
    ConcatSingle(FormatContributors(record));
  }

  /** The normalised record of the test fixture, enriched with `earth`
      against an empty referential, is written as `404;2011-01-26;1`. */
  lemma EarthLine(journal: string)
    ensures EnrichAndWrite(EarthFetcher, [TaskTwo("404", "2011-01-26")], Files(journal, ""), {}).files.csv
         == "404;2011-01-26;1\n"
  {
    EarthEnrichment();
    EarthRecord();
    EarthText();
    WrittenLines(EarthFetcher, [TaskTwo("404", "2011-01-26")], Files(journal, ""), {});
  }

  /** One repository whose only contributor is `earth`, starting from an
      empty referential and an empty result file, gives the line
      `404;2011-01-26;1`. */
  lemma SingleRepositoryLine(journal: string)
    ensures Start(1, Ok([RawRepository("404", "2011-01-26T19:01:12Z")]), EarthFetcher, Files(journal, ""), {}).files.csv
         == "404;2011-01-26;1\n"
  {
    FormatDateExample();
    var items := TransformRepository([RawRepository("404", "2011-01-26T19:01:12Z")]);
    assert items == [TaskTwo("404", "2011-01-26")];
    EarthLine(SaveTaskTwo(journal, items).0);
  }

  /** Two settled runs over the same repository write the same line: the
      referential is reset when a run settles, so `earth` counts as new in
      the second run too. */
  lemma RepeatedRunScenario(c: Context, t0: Timestamp, t1: Timestamp, t2: Timestamp, t3: Timestamp)
    requires Consistent(c) && !c.pipeline.InProgress?
    ensures var repos := Ok([RawRepository("404", "2011-01-26T19:01:12Z")]);
            var first := Run(1, c, t0, t1, repos, EarthFetcher, Files("", ""));
            var second := Run(1, first.0, t2, t3, repos, EarthFetcher, Files(first.1.files.journal, ""));
            && first.1.files.csv == "404;2011-01-26;1\n"
            && second.1.files.csv == "404;2011-01-26;1\n"
            && second.0.pipeline == Success(t2, t3)
  {
    var repos := Ok([RawRepository("404", "2011-01-26T19:01:12Z")]);
    var first := Run(1, c, t0, t1, repos, EarthFetcher, Files("", ""));
    SingleRepositoryLine("");
    SingleRepositoryLine(first.1.files.journal);
    SuccessfulFetchersFinish(1, repos.value, EarthFetcher, Files(first.1.files.journal, ""), first.0.referential);
  }
}
