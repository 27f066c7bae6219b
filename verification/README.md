# feed-csv-pipeline, modelled in Dafny

A model of the resumable ETL pipeline of feed-csv-pipeline. The pipeline
fetches the repositories of a GitHub user and normalises each one to a name
and a creation date. It journals each normalised repository as one JSON line
in a text file. It then fetches each repository's contributors and counts the
logins not yet seen in the current attempt, using the contributors
referential. Finally it appends one `name;date;count` line per repository to
a result CSV.

A run is started from the HTTP front door and then tracked by a run state
(FREE, IN_PROGRESS, SUCCESS, FAILURE). An error arms a retry timer. The retry
restarts from the beginning when the repositories could not be fetched, and
otherwise resumes from task 3 by replaying the journal. `getMetrics` reads the
CSV back into rows.

The model is written in the system's own terms:

- **Stages.** Every Node stream stage is a function on sequences. A stage's
  output is the sequence of values it pushes.
- **Files.** The journal and the CSV file are strings that the write stages
  append to.
- **Shared state.** The module-level state — the run state, the referential
  and the retry timer — is an explicit `Handler.Context` value.
- **Clock.** Clock readings are parameters of type `Timestamp`.
- **Fetchers.** The repositories fetch is a `Result` value. The contributors
  fetch is a function from a normalised repository to a `Result`.

Modules follow the source files:

| module | file |
|---|---|
| `Referential` | `src/contributors-referential.ts` |
| `Formatter` | `src/pipeline-formatter.ts` |
| `Records`, `Tasks` | `src/pipeline-task.ts` |
| `Metrics` | `src/pipeline-metrics.ts` |
| `PipelineState` | `src/pipeline-state.ts` |
| `Handler` | `src/pipeline-handler.ts` and the start route of `src/pipeline-route.ts` |
| `Stream` and `JournalRead` | `src/pipeline-stream.ts` |
| `Orchestrator` | `src/pipeline-orchestrator.ts` |

Three modules support the others:

- `Strings` gives the JavaScript `split`, the concatenation of chunks, and the
  decimal rendering used in template literals, with `Join` as the inverse of
  `Split`.
- `Json` writes and reads the journal line format (`JSON.stringify` of
  `{name, createdAt}`), with a proved round trip.
- `Wrappers` holds `Option` and `Result`.

The referential is reset only when a run settles: `onError`
(src/pipeline-handler.ts:50) and `onFinish` (src/pipeline-handler.ts:68) call
`resetContributors`, and `onStart` (src/pipeline-handler.ts:78-84) does not.
`Handler.OnStart` therefore leaves the referential as it is. A run that starts
while another is still in progress, which `Handler.RetryIgnoresRunState` shows
a retry tick can do, counts against the logins that other run has added.

A retry from task 3 appends to the CSV the failed run left behind: nothing
truncates it (`writeCSV` opens it for appending), so the lines of the records
enriched before the failure appear twice. The model keeps this behaviour of
the code, and `Orchestrator.ResumeAppendsToFailedCsv` states it.

## Model

| member | source | states |
|---|---|---|
| Referential.HasAlready | src/contributors-referential.ts:10 | a login is seen exactly when it is in the referential; the contracts of `ResetContributors` and `AddContributors` are stated through it |
| Referential.ResetContributors | src/contributors-referential.ts:6-8 | after a reset no login counts as already seen |
| Referential.AddContributors | src/contributors-referential.ts:12-13 | the added login is seen afterwards, nothing seen before is forgotten, and no other login appears |
| Referential.CountNew | src/contributors-referential.ts:15-35 | walking a contributors list leaves the referential as the old one plus every listed login, and it grows by exactly the returned count |
| Referential.CountNewIsNewLogins | src/contributors-referential.ts:15-35 | the count is the number of distinct listed logins that were not in the referential, so a repeated login counts once |
| Referential.CountNewBound | src/contributors-referential.ts:18-29 | the count never exceeds the number of listed contributors |
| Referential.CountNewTwice | src/contributors-referential.ts:23-28 | counting the same list again, against the referential the first walk left, counts nothing |
| Referential.CountNewAntitone | src/contributors-referential.ts:23-28 | a referential holding more logins never gives a larger count for the same list |
| Referential.SharedContributorExample | src/contributors-referential.ts:15-35 | three repositories sharing `earth` count 1, 0, 0 from an empty referential, and 1 again after a reset |
| Formatter.FormatDate | src/pipeline-formatter.ts:8 | the result is the longest prefix of the input without `T`, and it stops right at the first `T` |
| Formatter.FormatDateUnique | src/pipeline-formatter.ts:8 | any prefix without `T` that ends at a `T` or at the end of the input is the result |
| Formatter.FormatDateKeepsPlainText | src/pipeline-formatter.ts:8 | a date without `T` passes through unchanged |
| Formatter.FormatDateIdempotent | src/pipeline-formatter.ts:8 | normalising a normalised date changes nothing |
| Formatter.FormatDateExample | src/pipeline-formatter.ts:8 | `2011-01-26T19:01:12Z` becomes `2011-01-26` |
| Formatter.FormatContributors | src/pipeline-formatter.ts:17-18 | every CSV line ends with a line break |
| Formatter.FormatContributorsSeparators | src/pipeline-formatter.ts:17-18 | a line adds exactly two `;` and one line break to those already in the name and date |
| Formatter.FormatContributorsExample | src/pipeline-formatter.ts:17-18 | record `404`, `2011-01-26`, 1 gives `404;2011-01-26;1\n` |
| Strings.Split | src/pipeline-metrics.ts:12-15 | `split` gives at least one piece, no piece holds the separator, and joining the pieces with it gives the input back |
| Strings.SplitJoin | src/pipeline-metrics.ts:12-15 | pieces free of the separator split back to themselves after a join |
| Strings.NatToString | src/pipeline-formatter.ts:17-18 | a count is rendered as decimal digits with no leading zero |
| Strings.DecimalRoundTrip | src/pipeline-formatter.ts:17-18 | the rendered count reads back as the count |
| Tasks.CreateTaskTwo | src/pipeline-task.ts:13-16 | the name is kept and the date is the part of the creation timestamp before `T` |
| Tasks.CreateTaskFour | src/pipeline-task.ts:18-21 | the normalised record keeps its name and date and gains the decoded contributors list as it is |
| Tasks.CreateTaskFive | src/pipeline-task.ts:23-27 | name and date are kept, the count is the number of the record's distinct logins not seen before and at most its contributor count, and the referential gains exactly those logins |
| Json.Serialize | src/pipeline-stream.ts:121 | a journal line opens with `{"name":"` and closes with `"}`; `Json.ParseSerialize` reads it back |
| Json.SerializeIsOneLine | src/pipeline-stream.ts:121 | a serialised record holds no control character and no line break, so it fills exactly one journal line |
| Json.ReadEscapedString | src/pipeline-stream.ts:121 | an escaped string followed by its closing quote reads back as the original text, and reading stops after the quote |
| Json.ParseSerialize | src/pipeline-stream.ts:59 | parsing a serialised record gives the record back |
| Json.Parse | src/pipeline-stream.ts:59 | a line that parses as a record starts with `{"name":"`, and the empty line never does |
| Json.ParseShape | src/pipeline-stream.ts:59 | a line that parses as a record opens with the name key, closes the object with `}`, and is long enough to hold both keys and both string literals |
| Json.ParseEmpty | src/pipeline-stream.ts:59-63 | the empty line is not a record |
| Metrics.ParseRow | src/pipeline-metrics.ts:15-16 | the name, date and count are the first, second and third `;`-separated pieces of the line, each running up to the next `;` or the end; the date is missing exactly when the line has no `;`, the count exactly when it has fewer than two, and later pieces are ignored; the name is empty exactly when the line is empty or starts with `;` |
| Metrics.KeepNamed | src/pipeline-metrics.ts:18 | the kept rows all have a name, and every named row is kept |
| Metrics.KeepNamedAppend | src/pipeline-metrics.ts:18 | filtering distributes over concatenation, so the file order is kept |
| Metrics.GetMetrics | src/pipeline-metrics.ts:9-25 | the result is the message, or a non-empty list of named rows |
| Metrics.GetMetricsNoRows | src/pipeline-metrics.ts:12-22 | the message is returned exactly when every line of the file is empty or starts with `;` |
| Metrics.GetMetricsEmpty | src/pipeline-metrics.ts:20-22 | an empty result file gives `There are no metrics yet.` |
| Metrics.MetricsOfFormattedLines | src/pipeline-metrics.ts:9-25 | the concatenated lines of clean records read back as one row per record, in order, with name, date and rendered count, or as the message when there is none |
| PipelineState.SetPipeline | src/pipeline-state.ts:37-41 | the state becomes the given one, whatever it was |
| PipelineState.UpdateSuccessfulPipeline | src/pipeline-state.ts:48-62 | from IN_PROGRESS the state becomes SUCCESS with the run's start and the current time; any other state is kept; the move is allowed and never reaches FREE |
| PipelineState.UpdateUnsuccessfulPipeline | src/pipeline-state.ts:70-83 | from IN_PROGRESS the state becomes FAILURE at the task; any other state is kept; the move is allowed and never reaches FREE |
| PipelineState.SuccessIsOrdered | src/pipeline-state.ts:48-62 | a success never ends before it started |
| PipelineState.SettlementIsFinal | src/pipeline-state.ts:48-83 | once a run has settled, neither update changes the state again, at any later time and for any task |
| Handler.OnStart | src/pipeline-handler.ts:78-84 | the state becomes IN_PROGRESS at task 1; the referential and the retry timer are untouched |
| Handler.OnError | src/pipeline-handler.ts:46-57 | a run in progress becomes FAILURE at the task; the referential is emptied; exactly one retry, for that task, is armed |
| Handler.OnFinish | src/pipeline-handler.ts:64-71 | a run in progress becomes SUCCESS; the referential is emptied; any armed retry is cancelled |
| Handler.OnRetry | src/pipeline-handler.ts:27-37 | a retry restarts at task 1 exactly when the failure was at task 1, and otherwise at task 3 |
| Handler.RequestStart | src/pipeline-route.ts:28-34 | a start request is refused exactly when a run is in progress, and then nothing changes; otherwise the run starts at task 1, keeping the referential and any armed retry, since `onStart` clears neither |
| Handler.FireRetry | src/pipeline-handler.ts:56 | a timer tick starts a run exactly when a retry is armed, at the task `onRetry` picks; the interval stays armed and the referential is kept as it is |
| Handler.InitialIsConsistent | src/pipeline-state.ts:27-29 | the process starts FREE, with an empty referential (src/contributors-referential.ts:4) and no retry armed (src/pipeline-handler.ts:19), which is a consistent context |
| Handler.SettlingIsConsistent | src/pipeline-handler.ts:46-71 | settling a run either way leaves the state, the referential and the timer in agreement |
| Handler.SingleFlight | src/pipeline-route.ts:28-34 | after an accepted start, a second request is refused and changes nothing |
| Handler.RetryIgnoresRunState | src/pipeline-handler.ts:27-37 | a retry tick starts a run even while one is in progress, which the front door would refuse |
| Stream.ReadTaskTwoData | src/pipeline-stream.ts:20-45 | the journal, delivered whole, is read as its `\n`-separated pieces, which join back to it |
| Stream.TransformTaskResults | src/pipeline-stream.ts:52-67 | the transform forwards at most one record per line; `TransformTaskResultsSound` and `TransformTaskResultsComplete` pin which |
| Stream.TransformTaskResultsSound | src/pipeline-stream.ts:52-67 | every forwarded record is the parse of some journal line |
| Stream.TransformTaskResultsComplete | src/pipeline-stream.ts:52-67 | no line that parses is dropped |
| Stream.TransformTaskResultsNoneParsed | src/pipeline-stream.ts:52-67 | lines none of which parses yield nothing and raise no error |
| Stream.TransformTaskResultsAppend | src/pipeline-stream.ts:52-67 | the transform works line by line, keeping order |
| Stream.TransformRepository | src/pipeline-stream.ts:93-102 | one normalised record per repository, in order |
| Stream.SaveTaskTwo | src/pipeline-stream.ts:109-133 | the records are forwarded unchanged and the journal is only appended to |
| Stream.SaveTaskTwoAppendsLines | src/pipeline-stream.ts:109-133 | what is appended is one serialised line per record, in order |
| Stream.ReplayJournal | src/pipeline-orchestrator.ts:118-119 | replaying the journal gives at most one record per journal line, and nothing for an empty journal |
| Stream.ReplayAfterSave | src/pipeline-stream.ts:20-67 | replaying the journal after a save gives the earlier replay followed by the saved records, and the journal stays well formed |
| Stream.ReadContributors | src/pipeline-stream.ts:141-156 | records are enriched in order with what the fetcher returned; without a failure all are enriched; a failure is the error of the first record not enriched |
| Stream.ReadContributorsFails | src/pipeline-stream.ts:141-156 | enrichment fails exactly when some fetch fails |
| Stream.Aggregate | src/pipeline-stream.ts:163-172 | records keep their order, names and dates; the referential ends with every login seen; the counts add up to the number of distinct logins of all records not seen before |
| Stream.AggregateStep | src/pipeline-stream.ts:163-172 | each record is counted against the referential left by the records before it |
| Stream.TransformContributors | src/pipeline-stream.ts:163-172 | one CSV line per enriched record, in order |
| Stream.WriteCSV | src/pipeline-stream.ts:179-193 | the chunks are appended unchanged and in order, and earlier content is never rewritten |
| JournalRead.ReadTaskTwoDataChunks | src/pipeline-stream.ts:32-38 | the pieces hold no line break, and a journal delivered as one chunk reads as it does whole |
| JournalRead.ChunkBoundaryLosesRecord | src/pipeline-stream.ts:32-38 | a one-record journal cut inside its line into two chunks loses its record, although read whole it replays it |
| JournalRead.ReadLinesBuffered | src/pipeline-stream.ts:32-38 | the corrected reader emits at least one piece and no piece holds a line break |
| JournalRead.ReadLinesBufferedSplits | src/pipeline-stream.ts:20-45 | the buffered reader emits exactly the lines of the whole journal, whatever the chunking |
| JournalRead.BufferedReplayAfterSave | src/pipeline-stream.ts:20-67 | with the buffered reader, a saved journal replays as the saved records for any chunking |
| Orchestrator.EnrichAndWrite | src/pipeline-orchestrator.ts:94-100 | the chain finishes exactly when every fetch succeeds; an error is tagged task 3; the journal is untouched and the CSV only grows |
| Orchestrator.StartFromBeginning | src/pipeline-orchestrator.ts:80-101 | a repositories error is tagged task 1 and writes nothing; otherwise the journal gets the normalised records; task 1 is the tag exactly when the repositories failed |
| Orchestrator.StartFromTaskThree | src/pipeline-orchestrator.ts:111-127 | the resumed chain never writes the journal, and its errors are tagged task 3 |
| Orchestrator.Start | src/pipeline-orchestrator.ts:55-69 | an error is tagged 1 exactly when the full chain could not fetch repositories, and 3 otherwise; both files only grow; a resumed start leaves the journal as it was |
| Orchestrator.ResumeIgnoresRepositories | src/pipeline-orchestrator.ts:62-68 | a start at any task other than 1 does not depend on the repositories fetch |
| Orchestrator.SuccessfulFetchersFinish | src/pipeline-orchestrator.ts:55-127 | with fetchers that always succeed, both chains reach the finish event |
| Orchestrator.WrittenLines | src/pipeline-orchestrator.ts:94-100 | the CSV gains the lines of the records enriched before any error, in order |
| Orchestrator.FullRunLines | src/pipeline-orchestrator.ts:80-101 | after a successful full run into an empty CSV, the metrics list one row per repository in input order, with its name, its date part and a decimal count, or the message when there is no repository |
| Orchestrator.ResumeEquivalence | src/pipeline-orchestrator.ts:80-127 | for a journal that held no record before the failed full run, resuming from the journal that run left gives exactly what an uninterrupted full run gives; since the journal is only ever appended to, a later run also replays the older records, which `Orchestrator.ResumeReplaysHistory` states |
| Orchestrator.ResumeAppendsToFailedCsv | src/pipeline-orchestrator.ts:80-127 | a retry from task 3 after a full run failed while enriching appends to the CSV that run left: the failed run's lines, then the lines of every journalled record counted from an empty referential |
| Orchestrator.ResumeReplaysHistory | src/pipeline-orchestrator.ts:111-127 | a resumed run processes every record earlier attempts journalled, then the latest ones, since the journal is never truncated |
| Orchestrator.Settle | src/pipeline-orchestrator.ts:89-100 | the finish event gives SUCCESS from the run's start, an error gives FAILURE at its task with that retry armed, and the context ends consistent |
| Orchestrator.Run | src/pipeline-orchestrator.ts:34-43 | a started run runs the chain for its task against the referential as it was; it ends as SUCCESS exactly when the chain finishes, and otherwise as FAILURE at the task the error was tagged with, 1 exactly when the repositories failed; the context ends consistent |
| Orchestrator.RepositoriesFailureScenario | src/pipeline-orchestrator.ts:88-91 | a repositories failure leaves FAILURE at task 1, a retry from the beginning armed, and both files unchanged |
| Orchestrator.SingleRepositoryLine | src/pipeline-orchestrator.ts:80-101 | repository `404` with contributor `earth` writes `404;2011-01-26;1\n` |
| Orchestrator.RepeatedRunScenario | src/pipeline-handler.ts:64-71 | two settled runs over that repository both count `earth` as new, since the referential is reset between them |

## Left out

- HTTP and Express: the routes other than the start guard (metrics, state, task overloaders) and the response bodies are not modelled. `getMetrics` is modelled on the file content it has already read.
- `getPipeline`: reading the state is reading the `pipeline` field of `Handler.Context`, so it has no member of its own.
- `src/pipeline-fetch.ts`: request building, the rate-limit messages and the decoding of the contributors body (`JSON.parse` in `createTaskFour`) are not part of this model. Each list is fetched with one request and no page parameter (src/pipeline-fetch.ts:29-34, :108-115), so only the first page of repositories and of contributors is ever read; the fetchers are parameters that return decoded values or an error.
- `readRepositories`: the readable stream fed by the fetcher is the `Result` value the fetcher delivers, all repositories or one error before any data.
- Configuration, logging, timers and `Date`: the retry interval is not modelled, only whether a retry is armed. Clock readings are parameters.
- Stream interleaving and backpressure: each stage is modelled over its whole input. Lines already written before an enrichment error are kept, as in the source. The exact moment a late error or finish event arrives relative to the other stages is not modelled.
- File system errors: a failing append, a missing journal or a missing CSV (`readFileSync` throws) are not modelled. For an empty journal the file stream emits no data, so `readTaskTwoData` pushes nothing; the model reads one empty piece instead, which does not parse, so the replay is empty either way.
- Json.Parse: reads only the shape `saveTaskTwo` writes, `{"name":…,"createdAt":…}` without spaces, and rejects surrogate escapes. `JSON.parse` would also forward other valid JSON lines found in the journal, and decode escaped surrogate pairs.
- Stream.ReadTaskTwoData: reads the journal as one chunk, where the file stream delivers it in 64 KiB chunks. `Orchestrator.ResumeEquivalence` and `Orchestrator.ResumeReplaysHistory` rest on this, so they hold for a journal that fits one chunk; for larger journals they hold for the buffered reader of `JournalRead.BufferedReplayAfterSave`, not for the code as written (see Findings).
- Orchestrator.Run: models one attempt from `onStart` to the handler that settles it. It does not model a second event delivered after the first settlement. `PipelineState.SettlementIsFinal` shows such an event would not change the state.

## Findings

| source | as written | input that shows it | evidently intended | confidence | as-written member | corrected member |
|---|---|---|---|---|---|---|
| src/pipeline-stream.ts:32-38 | `readTaskTwoData` splits every chunk of the file stream on `\n` on its own and pushes each piece | a journal line cut by a chunk boundary (the file stream delivers 64 KiB chunks), e.g. one record's line delivered as its first 5 characters and the rest | the journal is read line by line, so a resumed run replays every journalled record | high, not executed | JournalRead.ChunkBoundaryLosesRecord | JournalRead.BufferedReplayAfterSave |

Read as written, both halves of the cut line fail to parse. `transformTaskResults` drops them silently, so the resumed run never enriches that record.

The corrected reader, `JournalRead.ReadLinesBuffered`, carries the unfinished piece over to the next chunk. It reads any chunking as the whole journal. The rest of the model reads the journal whole, through `Stream.ReadTaskTwoData`.
