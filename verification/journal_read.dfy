/** How `readTaskTwoData` (src/pipeline-stream.ts) turns the chunks the file
    stream delivers into journal lines. The source splits every chunk on its
    own, so a line that straddles a chunk boundary comes out as two broken
    pieces; the buffered reader carries the unfinished piece over to the next
    chunk instead. */
module JournalRead {
  import opened Wrappers
  import opened Strings
  import opened Records
  import opened Json
  import opened Stream

  /** `readTaskTwoData` as written: the pieces of each chunk, chunk after
      chunk. */
  function ReadTaskTwoDataChunks(chunks: seq<string>): (lines: seq<string>)
    ensures forall i :: 0 <= i < |lines| ==> '\n' !in lines[i]
    ensures |chunks| == 1 ==> lines == ReadTaskTwoData(chunks[0])
    decreases |chunks|
  {
    if |chunks| == 0 then []
    else
      var rest := ReadTaskTwoDataChunks(chunks[1..]);
      assert |chunks| == 1 ==> rest == [];
      Split(chunks[0], '\n') + rest
  }

  /** A journal of one record: its line and the line break. */
  function RecordLine(t: TaskTwo): string {
    Serialize(t) + "\n"
  }

  /** A one-record journal replays its record. */
  lemma RecordLineReplays(t: TaskTwo)
    ensures ReplayJournal(RecordLine(t)) == [t]
  {
    var text := Serialize(t);
    ReplayAfterSave("", [t]);
    SaveTaskTwoAppendsLines("", [t]);
    assert SerializeAll([t]) == [text];
    assert Unlines([text]) == RecordLine(t);
    assert "" + RecordLine(t) == RecordLine(t);
  }

  /** Cut after five characters, the line of a record is read as three
      pieces: the start of the object, the rest of it, and the empty
      remainder after the line break. */
  lemma CutRecordLinePieces(t: TaskTwo)
    ensures var line := RecordLine(t);
            && Concat([line[..5], line[5..]]) == line
            && ReadTaskTwoDataChunks([line[..5], line[5..]]) == [line[..5], Serialize(t)[5..], ""]
  {
    var text := Serialize(t);
    var line := RecordLine(t);
    var chunks := [line[..5], line[5..]];
    SerializeIsOneLine(t);
    assert NamePrefix <= text;
    assert Concat(chunks) == line by {
      assert Concat(chunks[1..]) == line[5..] + Concat([]);
    }
    var first := line[..5];
    var second := text[5..];
    assert '\n' !in first by {
      assert forall i :: 0 <= i < 5 ==> first[i] == text[i];
    }
    SplitWithoutSeparator(first, '\n');
    assert line[5..] == second + "\n";
    SplitTrailingBreak(second);
    SplitWithoutSeparator(second, '\n');
    assert ReadTaskTwoDataChunks(chunks[1..]) == [second, ""] + ReadTaskTwoDataChunks([]);
  }

  /** Neither piece of a cut record line parses. */
  lemma CutPiecesDoNotParse(t: TaskTwo)
    ensures Parse(RecordLine(t)[..5]) == None
    ensures Parse(Serialize(t)[5..]) == None
  {
    var text := Serialize(t);
    assert NamePrefix <= text;
    assert RecordLine(t)[..5] == text[..5];
    assert text[5..][0] == 'e';
  }

  /** A journal of one record, delivered in two chunks cut inside its line:
      the as-written reader loses the record, although a one-chunk read
      replays it. */
  lemma ChunkBoundaryLosesRecord(t: TaskTwo)
    ensures var line := Serialize(t) + "\n";
            var chunks := [line[..5], line[5..]];
            && Concat(chunks) == line
            && ReplayJournal(line) == [t]
            && TransformTaskResults(ReadTaskTwoDataChunks(chunks)) == []
  {
    RecordLineReplays(t);
    CutRecordLinePieces(t);
    CutPiecesDoNotParse(t);
    ParseEmpty();
    var pieces := [RecordLine(t)[..5], Serialize(t)[5..], ""];
    TransformTaskResultsNoneParsed(pieces);
  }

  /** The corrected reader: each chunk is appended to the unfinished piece
      left by the previous one, every complete line is emitted, and the last
      piece is emitted at the end of the file. */
  function ReadLinesBuffered(chunks: seq<string>, pending: string): (lines: seq<string>)
    requires '\n' !in pending
    ensures |lines| >= 1
    ensures forall i :: 0 <= i < |lines| ==> '\n' !in lines[i]
    decreases |chunks|
  {
    if |chunks| == 0 then [pending]
    else
      var parts := Split(pending + chunks[0], '\n');
      parts[..|parts| - 1] + ReadLinesBuffered(chunks[1..], parts[|parts| - 1])
  }

  /** Splitting a text followed by more text: the complete lines of the first
      text come out unchanged, and its last piece joins the rest. */
  lemma SplitContinued(text: string, after: string)
    ensures var parts := Split(text, '\n');
            Split(text + after, '\n') == parts[..|parts| - 1] + Split(parts[|parts| - 1] + after, '\n')
  {
    var parts := Split(text, '\n');
    var last := parts[|parts| - 1];
    var init := parts[..|parts| - 1];
    if |parts| == 1 {
      assert text == last;
      assert init == [];
    } else {
      JoinLast(parts, '\n');
      assert forall i :: 0 <= i < |init| ==> '\n' !in init[i];
      SplitJoin(init, '\n');
      assert text + after == Join(init, '\n') + ['\n'] + (last + after);
      SplitAtSeparator(Join(init, '\n'), last + after, '\n');
    }
  }

  /** The buffered reader emits exactly the lines of the whole text, the
      unfinished piece included. */
  lemma {:induction false} ReadLinesBufferedSplits(chunks: seq<string>, pending: string)
    requires '\n' !in pending
    ensures ReadLinesBuffered(chunks, pending) == Split(pending + Concat(chunks), '\n')
    decreases |chunks|
  {
    if |chunks| == 0 {
      SplitWithoutSeparator(pending, '\n');
      assert pending + Concat(chunks) == pending;
    } else {
      var text := pending + chunks[0];
      var parts := Split(text, '\n');
      var after := Concat(chunks[1..]);
      ReadLinesBufferedSplits(chunks[1..], parts[|parts| - 1]);
      assert pending + Concat(chunks) == text + after;
      SplitContinued(text, after);
    }
  }

  /** With the buffered reader, replay does not depend on where the chunk
      boundaries fall: any chunking of a journal replays like the journal read
      at once. */
  lemma BufferedReplayIgnoresChunking(chunks: seq<string>)
    ensures TransformTaskResults(ReadLinesBuffered(chunks, "")) == ReplayJournal(Concat(chunks))
  {
    ReadLinesBufferedSplits(chunks, "");
    assert "" + Concat(chunks) == Concat(chunks);
  }

  /** So a journal written by `saveTaskTwo`, whatever its chunking, replays
      as the records saved. */
  lemma BufferedReplayAfterSave(journal: string, items: seq<TaskTwo>, chunks: seq<string>)
    requires WellFormedJournal(journal)
    requires Concat(chunks) == SaveTaskTwo(journal, items).0
    ensures TransformTaskResults(ReadLinesBuffered(chunks, "")) == ReplayJournal(journal) + items
  {
    BufferedReplayIgnoresChunking(chunks);
    ReplayAfterSave(journal, items);
  }
}
