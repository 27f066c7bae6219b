/** src/pipeline-stream.ts: every stage of the pipeline as a function on
    sequences. A stage's output is the sequence of values it pushes; the
    journal and the CSV file are strings the write stages append to. */
module Stream {
  import opened Wrappers
  import opened Strings
  import opened Records
  import opened Referential
  import opened Formatter
  import opened Tasks
  import opened Json

  /** The contributors fetcher: for each normalised repository, the decoded
      contributors list or the error the request ends with. */
  type ContributorsFetcher = TaskTwo -> Result<seq<Contributor>, string>

  /** `readTaskTwoData`, the journal being delivered as one chunk: every
      `\n`-separated piece, in order, empty pieces included. */
  function ReadTaskTwoData(journal: string): (lines: seq<string>)
    ensures |lines| >= 1 && Join(lines, '\n') == journal
    ensures forall i :: 0 <= i < |lines| ==> '\n' !in lines[i]
  {
    Split(journal, '\n')
  }

  /** `transformTaskResults`: forwards the record of every line that parses
      and drops the others without an error, keeping the order. */
  function TransformTaskResults(lines: seq<string>): (items: seq<TaskTwo>)
    ensures |items| <= |lines|
    decreases |lines|
  {
    if |lines| == 0 then []
    else
      match Parse(lines[0])
      case None => TransformTaskResults(lines[1..])
      case Some(t) => [t] + TransformTaskResults(lines[1..])
  }

  /** Every forwarded record is the parse of some line. */
  lemma {:induction false} TransformTaskResultsSound(lines: seq<string>)
    ensures forall j :: 0 <= j < |TransformTaskResults(lines)| ==>
      exists i :: 0 <= i < |lines| && Parse(lines[i]) == Some(TransformTaskResults(lines)[j])
    decreases |lines|
  {
    if |lines| > 0 {
      var tail := lines[1..];
      TransformTaskResultsSound(tail);
      var rest := TransformTaskResults(tail);
      var items := TransformTaskResults(lines);
      forall j | 0 <= j < |items|
        ensures exists i :: 0 <= i < |lines| && Parse(lines[i]) == Some(items[j])
      {
        if Parse(lines[0]).Some? && j == 0 {
          assert Parse(lines[0]) == Some(items[j]);
        } else {
          var k := if Parse(lines[0]).Some? then j - 1 else j;
          assert items[j] == rest[k];
          var i :| 0 <= i < |tail| && Parse(tail[i]) == Some(rest[k]);
          assert Parse(lines[i + 1]) == Some(items[j]);
        }
      }
    } else {
      assert TransformTaskResults(lines) == [];
    }
  }

  /** A line that parses is never dropped. */
  lemma {:induction false} TransformTaskResultsComplete(lines: seq<string>)
    ensures forall i :: 0 <= i < |lines| && Parse(lines[i]).Some? ==> Parse(lines[i]).value in TransformTaskResults(lines)
    decreases |lines|
  {
    if |lines| > 0 {
      var tail := lines[1..];
      TransformTaskResultsComplete(tail);
      forall i | 0 <= i < |lines| && Parse(lines[i]).Some?
        ensures Parse(lines[i]).value in TransformTaskResults(lines)
      {
        if i > 0 {
          assert lines[i] == tail[i - 1];
        }
      }
    }
  }

  /** Lines none of which parses yield nothing. */
  lemma {:induction false} TransformTaskResultsNoneParsed(lines: seq<string>)
    requires forall i :: 0 <= i < |lines| ==> Parse(lines[i]).None?
    ensures TransformTaskResults(lines) == []
    decreases |lines|
  {
    if |lines| > 0 {
      var tail := lines[1..];
      forall i | 0 <= i < |tail| ensures Parse(tail[i]).None? {
        assert tail[i] == lines[i + 1];
      }
      TransformTaskResultsNoneParsed(tail);
    }
  }

  lemma {:induction false} TransformTaskResultsAppend(a: seq<string>, b: seq<string>)
    ensures TransformTaskResults(a + b) == TransformTaskResults(a) + TransformTaskResults(b)
    decreases |a|
  {
    if |a| == 0 {
      assert a + b == b;
    } else {
      assert (a + b)[1..] == a[1..] + b;
      TransformTaskResultsAppend(a[1..], b);
    }
  }

  /** `transformRepository`: a one-to-one, order-preserving map by
      `createTaskTwo`. */
  function TransformRepository(repositories: seq<RawRepository>): (items: seq<TaskTwo>)
    ensures |items| == |repositories|
    ensures forall i :: 0 <= i < |items| ==> items[i] == CreateTaskTwo(repositories[i])
  {
    seq(|repositories|, i requires 0 <= i < |repositories| => CreateTaskTwo(repositories[i]))
  }

  /** The journal lines of some records. */
  function SerializeAll(items: seq<TaskTwo>): (lines: seq<string>)
    ensures |lines| == |items|
    ensures forall i :: 0 <= i < |items| ==> lines[i] == Serialize(items[i])
  {
    seq(|items|, i requires 0 <= i < |items| => Serialize(items[i]))
  }

  /** `saveTaskTwo`: for each record in turn, appends its serialised form and
      a line break to the journal, then forwards the record unchanged. The
      journal is only ever appended to. */
  function SaveTaskTwo(journal: string, items: seq<TaskTwo>): (res: (string, seq<TaskTwo>))
    ensures res.1 == items
    ensures journal <= res.0
    decreases |items|
  {
    if |items| == 0 then (journal, items)
    else
      var rest := SaveTaskTwo(journal + Serialize(items[0]) + "\n", items[1..]);
      (rest.0, items)
  }

  /** What `saveTaskTwo` appends is one serialised line per record, in
      order. */
  lemma {:induction false} SaveTaskTwoAppendsLines(journal: string, items: seq<TaskTwo>)
    ensures SaveTaskTwo(journal, items).0 == journal + Unlines(SerializeAll(items))
    decreases |items|
  {
    if |items| > 0 {
      var lines := SerializeAll(items);
      var next := journal + lines[0] + "\n";
      SaveTaskTwoAppendsLines(next, items[1..]);
      assert lines[1..] == SerializeAll(items[1..]);
      assert Unlines(lines) == lines[0] + "\n" + Unlines(lines[1..]);
    }
  }

  /** A journal as `saveTaskTwo` leaves it: empty, or ending with a line
      break. */
  predicate WellFormedJournal(journal: string) {
    journal == "" || journal[|journal| - 1] == '\n'
  }

  /** The records a resumed run reads back from the journal. */
  function ReplayJournal(journal: string): (records: seq<TaskTwo>)
    ensures |records| <= |ReadTaskTwoData(journal)|
    ensures journal == "" ==> records == []
  {
    ParseEmpty();
    assert journal == "" ==> ReadTaskTwoData(journal) == [""];
    TransformTaskResults(ReadTaskTwoData(journal))
  }

  lemma {:induction false} ParseSerializedLines(items: seq<TaskTwo>)
    ensures TransformTaskResults(SerializeAll(items)) == items
    decreases |items|
  {
    if |items| > 0 {
      ParseSerialize(items[0]);
      assert SerializeAll(items)[1..] == SerializeAll(items[1..]);
      ParseSerializedLines(items[1..]);
    }
  }

  lemma ReplayEmptyLine()
    ensures TransformTaskResults([""]) == []
  {
    ParseEmpty();
  }

  /** The lines `saveTaskTwo` writes read back as the records written. */
  lemma ReplayBlock(items: seq<TaskTwo>)
    ensures TransformTaskResults(Split(Unlines(SerializeAll(items)), '\n')) == items
  {
    var lines := SerializeAll(items);
    forall i | 0 <= i < |lines|
      ensures '\n' !in lines[i]
    {
      SerializeIsOneLine(items[i]);
    }
    SplitUnlines(lines);
    ParseSerializedLines(items);
    ReplayEmptyLine();
    TransformTaskResultsAppend(lines, [""]);
  }

  /** Text appended to a well-formed journal is replayed after what the
      journal already held. */
  lemma ReplayConcat(journal: string, block: string)
    requires WellFormedJournal(journal)
    ensures ReplayJournal(journal + block) == ReplayJournal(journal) + TransformTaskResults(Split(block, '\n'))
  {
    ReplayEmptyLine();
    if journal == "" {
      assert journal + block == block;
      assert Split("", '\n') == [""];
    } else {
      var head := journal[..|journal| - 1];
      var headLines := Split(head, '\n');
      var blockLines := Split(block, '\n');
      SplitTrailingBreak(head);
      assert journal == head + "\n";
      TransformTaskResultsAppend(headLines, [""]);
      assert ReplayJournal(journal) == TransformTaskResults(headLines);
      assert journal + block == head + ['\n'] + block;
      SplitAtSeparator(head, block, '\n');
      TransformTaskResultsAppend(headLines, blockLines);
    }
  }

  lemma SplitTrailingBreak(head: string)
    ensures Split(head + "\n", '\n') == Split(head, '\n') + [""]
  {
    assert head + "\n" == head + ['\n'] + "";
    SplitAtSeparator(head, "", '\n');
    assert Split("", '\n') == [""];
  }

  /** Replaying a journal after `saveTaskTwo` appended records gives what the
      journal held before followed by those records, in order: the empty
      piece after the final line break is dropped, and the journal stays
      well formed. */
  lemma ReplayAfterSave(journal: string, items: seq<TaskTwo>)
    requires WellFormedJournal(journal)
    ensures WellFormedJournal(SaveTaskTwo(journal, items).0)
    ensures ReplayJournal(SaveTaskTwo(journal, items).0) == ReplayJournal(journal) + items
  {
    SaveTaskTwoAppendsLines(journal, items);
    var block := Unlines(SerializeAll(items));
    ReplayBlock(items);
    ReplayConcat(journal, block);
    if |items| > 0 {
      UnlinesEndsWithBreak(SerializeAll(items));
    } else {
      assert block == "";
      assert journal + block == journal;
    }
  }

  lemma UnlinesEndsWithBreak(lines: seq<string>)
    requires |lines| > 0
    ensures |Unlines(lines)| > 0 && Unlines(lines)[|Unlines(lines)| - 1] == '\n'
    decreases |lines|
  {
    if |lines| > 1 {
      UnlinesEndsWithBreak(lines[1..]);
    }
  }

  /** What `readContributors` pushes: the enriched records, and the error
      that stopped it, if any. */
  datatype Enrichment = Enrichment(enriched: seq<TaskFour>, failure: Option<string>)

  /** `readContributors`: one fetch per record, in order. Each success pushes
      the record with its contributors; the first failure raises the error
      and nothing after it is fetched or pushed. */
  function ReadContributors(fetch: ContributorsFetcher, items: seq<TaskTwo>): (e: Enrichment)
    ensures |e.enriched| <= |items|
    ensures forall i :: 0 <= i < |e.enriched| ==>
      fetch(items[i]).Ok? && e.enriched[i] == CreateTaskFour(items[i], fetch(items[i]).value)
    ensures e.failure.None? ==> |e.enriched| == |items|
    ensures e.failure.Some? ==> |e.enriched| < |items| && fetch(items[|e.enriched|]) == Err(e.failure.value)
    decreases |items|
  {
    if |items| == 0 then Enrichment([], None)
    else
      match fetch(items[0])
      case Err(cause) => Enrichment([], Some(cause))
      case Ok(contributors) =>
        var rest := ReadContributors(fetch, items[1..]);
        Enrichment([CreateTaskFour(items[0], contributors)] + rest.enriched, rest.failure)
  }

  /** Enrichment fails exactly when some fetch fails. */
  lemma ReadContributorsFails(fetch: ContributorsFetcher, items: seq<TaskTwo>)
    ensures ReadContributors(fetch, items).failure.None? <==> forall i :: 0 <= i < |items| ==> fetch(items[i]).Ok?
  {
  }

  /** The logins of every enriched record. */
  ghost function AllLogins(enriched: seq<TaskFour>): set<string>
    decreases |enriched|
  {
    if |enriched| == 0 then {} else Logins(enriched[0].contributors) + AllLogins(enriched[1..])
  }

  function SumCounts(records: seq<TaskFive>): nat
    decreases |records|
  {
    if |records| == 0 then 0 else records[0].contributorsCount + SumCounts(records[1..])
  }

  datatype Aggregation = Aggregation(records: seq<TaskFive>, referential: Referential)

  /** `createTaskFive` over the enriched records, the referential threaded
      from left to right. Every record keeps its name and date, in order;
      the referential ends up holding every login seen; and the counts add
      up to the number of distinct logins of the whole sequence that were
      not seen before, so a login shared by several records counts once. */
  function Aggregate(r: Referential, enriched: seq<TaskFour>): (a: Aggregation)
    ensures |a.records| == |enriched|
    ensures forall i :: 0 <= i < |enriched| ==>
      a.records[i].name == enriched[i].name && a.records[i].createdAt == enriched[i].createdAt
    ensures a.referential == r + AllLogins(enriched)
    ensures SumCounts(a.records) == |AllLogins(enriched) - r|
    decreases |enriched|
  {
    if |enriched| == 0 then Aggregation([], r)
    else
      var first := CreateTaskFive(r, enriched[0]);
      var rest := Aggregate(first.1, enriched[1..]);
      var firstLogins := Logins(enriched[0].contributors);
      var restLogins := AllLogins(enriched[1..]);
      UnionSize(r, firstLogins);
      UnionSize(r + firstLogins, restLogins);
      UnionSize(r, firstLogins + restLogins);
      assert r + firstLogins + restLogins == r + (firstLogins + restLogins);
      var records := [first.0] + rest.records;
      assert records[1..] == rest.records;
      Aggregation(records, rest.referential)
  }

  /** The first record of an aggregation is counted against the referential
      as it was, and the rest against the referential grown by it. */
  lemma AggregateStep(r: Referential, enriched: seq<TaskFour>)
    requires |enriched| > 0
    ensures Aggregate(r, enriched).records[0] == CreateTaskFive(r, enriched[0]).0
    ensures Aggregate(r, enriched).records[1..] == Aggregate(r + Logins(enriched[0].contributors), enriched[1..]).records
  {
  }

  /** `transformContributors`: each enriched record becomes the CSV line of
      its aggregated record, in order. */
  function TransformContributors(r: Referential, enriched: seq<TaskFour>): (res: (seq<string>, Referential))
    ensures |res.0| == |enriched|
    ensures forall i :: 0 <= i < |enriched| ==> res.0[i] == FormatContributors(Aggregate(r, enriched).records[i])
    ensures res.1 == Aggregate(r, enriched).referential
  {
    var a := Aggregate(r, enriched);
    (FormatAll(a.records), a.referential)
  }

  /** `writeCSV`: appends each chunk, unchanged and in order; what the file
      held before is never rewritten. */
  function WriteCSV(csv: string, chunks: seq<string>): (out: string)
    ensures out == csv + Concat(chunks)
    decreases |chunks|
  {
    if |chunks| == 0 then csv
    else
      var out := WriteCSV(csv + chunks[0], chunks[1..]);
      assert Concat(chunks) == chunks[0] + Concat(chunks[1..]);
      out
  }
}
