/** The parsing part of `getMetrics` in src/pipeline-metrics.ts: the content
    of the result CSV, already read, turned into rows or a message. */
module Metrics {
  import opened Wrappers
  import opened Strings
  import opened Records
  import opened Formatter

  /** One parsed line. A field the line does not have is `undefined` in the
      source and `None` here. */
  datatype MetricRow = MetricRow(name: string, createdAt: Option<string>, count: Option<string>)

  datatype Metrics = NoMetrics(message: string) | Rows(rows: seq<MetricRow>)

  const NoMetricsMessage: string := "There are no metrics yet."

  function Field(fields: seq<string>, i: nat): Option<string> {
    if i < |fields| then Some(fields[i]) else None
  }

  /** `const [name, createdAt, count] = line.split(';')`: the first three
      `;`-separated pieces of the line; further pieces are ignored. The name
      is empty exactly when the line is empty or starts with `;`; the date is
      present exactly when the line holds a `;`, and the count exactly when
      it holds a second one. */
  function ParseRow(line: string): (row: MetricRow)
    ensures PieceAt(line, 0, row.name, ';')
    ensures row.name <= line && ';' !in row.name
    ensures row.name == "" <==> line == "" || line[0] == ';'
    ensures row.createdAt.None? <==> ';' !in line
    ensures row.createdAt.Some? <==> |row.name| < |line|
    ensures row.createdAt.Some? ==> PieceAt(line, |row.name| + 1, row.createdAt.value, ';')
    ensures row.count.Some? <==> row.createdAt.Some? && |row.name| + 1 + |row.createdAt.value| < |line|
    ensures row.count.Some? ==>
              PieceAt(line, |row.name| + 1 + |row.createdAt.value| + 1, row.count.value, ';')
  {
    FirstThreePieces(line);
    var fields := Split(line, ';');
    MetricRow(fields[0], Field(fields, 1), Field(fields, 2))
  }

  /** Where the first three `;`-separated pieces of a line sit in it. */
  lemma FirstThreePieces(line: string)
    ensures var f := Split(line, ';');
            && PieceAt(line, 0, f[0], ';')
            && (|f| > 1 <==> |f[0]| < |line|)
            && (|f| > 1 ==> PieceAt(line, |f[0]| + 1, f[1], ';'))
            && (|f| > 1 ==> (|f| > 2 <==> |f[0]| + 1 + |f[1]| < |line|))
            && (|f| > 2 ==> PieceAt(line, |f[0]| + 1 + |f[1]| + 1, f[2], ';'))
  {
    var f := Split(line, ';');
    assert line[0..] == line;
    JoinPieceAt(line, 0, f, ';');
    if |f| > 1 {
      var k, g := |f[0]| + 1, f[1..];
      JoinPieceAt(line, k, g, ';');
      if |f| > 2 {
        var m, h := k + |g[0]| + 1, g[1..];
        JoinPieceAt(line, m, h, ';');
        assert g[0] == f[1] && h[0] == f[2];
      }
    }
  }

  /** `.filter(line => line.name !== '')`, keeping the order. */
  function KeepNamed(rows: seq<MetricRow>): (kept: seq<MetricRow>)
    ensures |kept| <= |rows|
    ensures forall i :: 0 <= i < |kept| ==> kept[i].name != "" && kept[i] in rows
    ensures forall i :: 0 <= i < |rows| && rows[i].name != "" ==> rows[i] in kept
    decreases |rows|
  {
    if |rows| == 0 then []
    else
      var rest := KeepNamed(rows[1..]);
      assert forall i :: 1 <= i < |rows| ==> rows[i] == rows[1..][i - 1];
      if rows[0].name == "" then rest else [rows[0]] + rest
  }

  lemma {:induction false} KeepNamedAppend(a: seq<MetricRow>, b: seq<MetricRow>)
    ensures KeepNamed(a + b) == KeepNamed(a) + KeepNamed(b)
    decreases |a|
  {
    if |a| == 0 {
      assert a + b == b;
    } else {
      assert (a + b)[1..] == a[1..] + b;
      KeepNamedAppend(a[1..], b);
    }
  }

  lemma {:induction false} KeepNamedAllNamed(rows: seq<MetricRow>)
    requires forall i :: 0 <= i < |rows| ==> rows[i].name != ""
    ensures KeepNamed(rows) == rows
    decreases |rows|
  {
    if |rows| > 0 {
      KeepNamedAllNamed(rows[1..]);
    }
  }

  function ParseRows(lines: seq<string>): (rows: seq<MetricRow>)
    ensures |rows| == |lines|
    ensures forall i :: 0 <= i < |lines| ==> rows[i] == ParseRow(lines[i])
  {
    seq(|lines|, i requires 0 <= i < |lines| => ParseRow(lines[i]))
  }

  /** `getMetrics` on the content of the CSV file: the rows of the lines whose
      name is not empty, in file order, or the message when there is none. */
  function GetMetrics(content: string): (m: Metrics)
    ensures m.NoMetrics? ==> m.message == NoMetricsMessage
    ensures m.Rows? ==> |m.rows| > 0 && forall i :: 0 <= i < |m.rows| ==> m.rows[i].name != ""
  {
    var rows := KeepNamed(ParseRows(Split(content, '\n')));
    if |rows| == 0 then NoMetrics(NoMetricsMessage) else Rows(rows)
  }

  /** The message is returned exactly when every line is empty or starts
      with `;`, that is when no line has a name. */
  lemma GetMetricsNoRows(content: string)
    ensures GetMetrics(content).NoMetrics? <==>
      forall line :: line in Split(content, '\n') ==> line == "" || line[0] == ';'
  {
    var lines := Split(content, '\n');
    var parsed := ParseRows(lines);
    if |KeepNamed(parsed)| == 0 {
      forall line | line in lines
        ensures line == "" || line[0] == ';'
      {
        var i :| 0 <= i < |lines| && lines[i] == line;
        assert parsed[i] == ParseRow(line);
      }
    } else {
      var row := KeepNamed(parsed)[0];
      assert row in parsed;
      var i :| 0 <= i < |parsed| && parsed[i] == row;
      assert lines[i] in lines;
    }
  }

  /** An empty result file has no metrics. */
  lemma GetMetricsEmpty()
    ensures GetMetrics("") == NoMetrics(NoMetricsMessage)
  {
    assert Split("", '\n') == [""];
  }

  /** The row a CSV line of `t` should read back as. */
  function RowOf(t: TaskFive): MetricRow {
    MetricRow(t.name, Some(t.createdAt), Some(NatToString(t.contributorsCount)))
  }

  /** A field safe to put in a CSV line. */
  predicate CleanField(s: string) {
    ';' !in s && '\n' !in s
  }

  /** A record whose line reads back as its row. */
  predicate Writable(t: TaskFive) {
    t.name != "" && CleanField(t.name) && CleanField(t.createdAt)
  }

  lemma ParseRecordText(t: TaskFive)
    requires Writable(t)
    ensures '\n' !in RecordText(t)
    ensures ParseRow(RecordText(t)) == RowOf(t)
  {
    var count := NatToString(t.contributorsCount);
    DecimalHasNoSeparators(t.contributorsCount);
    var fields := [t.name, t.createdAt, count];
    assert Join(fields, ';') == RecordText(t) by {
      assert fields[1..] == [t.createdAt, count];
      assert fields[1..][1..] == [count];
      assert Join([count], ';') == count;
      assert Join([t.createdAt, count], ';') == t.createdAt + [';'] + count;
      assert Join(fields, ';') == t.name + [';'] + (t.createdAt + [';'] + count);
    }
    SplitJoin(fields, ';');
  }

  /** The rows of a file written line by line, once every line is known to
      parse to a named row. */
  lemma MetricsOfLines(texts: seq<string>, expected: seq<MetricRow>)
    requires |texts| == |expected|
    requires forall i :: 0 <= i < |texts| ==> '\n' !in texts[i]
    requires forall i :: 0 <= i < |texts| ==> ParseRow(texts[i]) == expected[i] && expected[i].name != ""
    ensures GetMetrics(Unlines(texts)) == if |texts| == 0 then NoMetrics(NoMetricsMessage) else Rows(expected)
  {
    SplitUnlines(texts);
    var empty := MetricRow("", None, None);
    ParseRowsOfLines(texts, expected);
    KeepNamedAppend(expected, [empty]);
    KeepNamedAllNamed(expected);
    assert KeepNamed([empty]) == [];
    assert KeepNamed(ParseRows(Split(Unlines(texts), '\n'))) == expected;
  }

  lemma ParseRowsOfLines(texts: seq<string>, expected: seq<MetricRow>)
    requires |texts| == |expected|
    requires forall i :: 0 <= i < |texts| ==> ParseRow(texts[i]) == expected[i]
    ensures ParseRows(texts + [""]) == expected + [MetricRow("", None, None)]
  {
    var lines := texts + [""];
    var empty := MetricRow("", None, None);
    assert ParseRow("") == empty by {
      assert Split("", ';') == [""];
    }
    var parsed := ParseRows(lines);
    forall i | 0 <= i < |parsed|
      ensures parsed[i] == (expected + [empty])[i]
    {
      if i < |texts| {
        assert lines[i] == texts[i];
      } else {
        assert lines[i] == "";
      }
    }
  }

  /** Parsing the concatenation of formatted lines gives back each record's
      name, date and decimal count, in order; no record gives the message. */
  lemma MetricsOfFormattedLines(records: seq<TaskFive>)
    requires forall i :: 0 <= i < |records| ==> Writable(records[i])
    ensures var content := Concat(FormatAll(records));
            GetMetrics(content) == if |records| == 0 then NoMetrics(NoMetricsMessage)
                                   else Rows(seq(|records|, i requires 0 <= i < |records| => RowOf(records[i])))
  {
    var chunks := FormatAll(records);
    var texts := seq(|records|, i requires 0 <= i < |records| => RecordText(records[i]));
    var expected := seq(|records|, i requires 0 <= i < |records| => RowOf(records[i]));
    forall i | 0 <= i < |records|
      ensures chunks[i] == texts[i] + "\n"
      ensures '\n' !in texts[i]
      ensures ParseRow(texts[i]) == expected[i] && expected[i].name != ""
    {
      ParseRecordText(records[i]);
    }
    ConcatTerminatedLines(chunks, texts);
    MetricsOfLines(texts, expected);
  }
}
