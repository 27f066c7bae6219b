/** src/pipeline-formatter.ts: the date normaliser and the CSV line
    serialiser. */
module Formatter {
  import opened Strings
  import opened Records

  /** `date.split('T')[0]`: the text before the first `T`, or the whole string
      when it has none, so a malformed date passes through unchanged. */
  function FormatDate(date: string): (d: string)
    ensures 'T' !in d
    ensures d <= date
    ensures |d| < |date| ==> date[|d|] == 'T'
  {
    var parts := Split(date, 'T');
    JoinHead(parts, 'T');
    parts[0]
  }

  /** A date without `T` is left as it is. */
  lemma FormatDateKeepsPlainText(date: string)
    requires 'T' !in date
    ensures FormatDate(date) == date
  {
  }

  lemma FormatDateIdempotent(date: string)
    ensures FormatDate(FormatDate(date)) == FormatDate(date)
  {
    FormatDateKeepsPlainText(FormatDate(date));
  }

  /** The result is the only prefix without `T` that stops at a `T` or at
      the end of the input. */
  lemma FormatDateUnique(date: string, p: string)
    requires p <= date && 'T' !in p
    requires |p| < |date| ==> date[|p|] == 'T'
    ensures FormatDate(date) == p
  {
  }

  /** The ISO timestamp of the test fixtures becomes its date part. */
  lemma FormatDateExample()
    ensures FormatDate("2011-01-26T19:01:12Z") == "2011-01-26"
  {
    var date, p := "2011-01-26T19:01:12Z", "2011-01-26";
    assert p == date[..10];
    assert forall i :: 0 <= i < |p| ==> p[i] != 'T';
    FormatDateUnique(date, p);
  }

  /** The three fields of a CSV line, `;`-separated, without the break. */
  function RecordText(t: TaskFive): string {
    t.name + ";" + t.createdAt + ";" + NatToString(t.contributorsCount)
  }

  /** `${name};${createdAt};${contributorsCount}\n`: one CSV line. It always
      ends with the line break. */
  function FormatContributors(t: TaskFive): (line: string)
    ensures |line| > 0 && line[|line| - 1] == '\n'
  {
    RecordText(t) + "\n"
  }

  /** A line adds exactly two `;` and one line break to whatever the name
      and date already contain, so the count never adds a separator. */
  lemma FormatContributorsSeparators(t: TaskFive)
    ensures var line := FormatContributors(t);
            && multiset(line)[';'] == multiset(t.name)[';'] + multiset(t.createdAt)[';'] + 2
            && multiset(line)['\n'] == multiset(t.name)['\n'] + multiset(t.createdAt)['\n'] + 1
  {
    DecimalHasNoSeparators(t.contributorsCount);
  }

  /** The lines of a sequence of records, in order. */
  function FormatAll(records: seq<TaskFive>): (lines: seq<string>)
    ensures |lines| == |records|
  {
    seq(|records|, i requires 0 <= i < |records| => FormatContributors(records[i]))
  }

  /** The first line of the test fixtures. */
  lemma FormatContributorsExample()
    ensures FormatContributors(TaskFive("404", "2011-01-26", 1)) == "404;2011-01-26;1\n"
  {
    assert NatToString(1) == "1";
    assert "404" + ";" + "2011-01-26" + ";" + "1" + "\n" == "404;2011-01-26;1\n";
  }
}
