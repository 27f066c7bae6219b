/** String helpers with the semantics of the JavaScript built-ins the pipeline
    relies on: `String.prototype.split` with a one-character separator, the
    concatenation of a list of chunks, and the decimal rendering of a
    non-negative integer in a template literal. */
module Strings {

  /** `parts` glued back together with `sep` between consecutive pieces. */
  function Join(parts: seq<string>, sep: char): string
    requires |parts| >= 1
    decreases |parts|
  {
    if |parts| == 1 then parts[0] else parts[0] + [sep] + Join(parts[1..], sep)
  }

  /** `s.split(sep)`: the maximal pieces of `s` that do not contain `sep`.
      There is always at least one piece; `"".split(sep)` is `[""]`. */
  function Split(s: string, sep: char): (parts: seq<string>)
    ensures |parts| >= 1
    ensures forall i :: 0 <= i < |parts| ==> sep !in parts[i]
    ensures Join(parts, sep) == s
    decreases |s|
  {
    if |s| == 0 then [""]
    else
      var rest := Split(s[1..], sep);
      if s[0] == sep then
        assert ([""] + rest)[1..] == rest;
        [""] + rest
      else
        var parts := [[s[0]] + rest[0]] + rest[1..];
        assert parts[1..] == rest[1..];
        assert Join(parts, sep) == s by {
          if |rest| > 1 {
            assert Join(rest, sep) == rest[0] + [sep] + Join(rest[1..], sep);
          }
        }
        parts
  }

  /** The first piece of a join is a prefix of it, followed by the separator
      when there are more pieces. */
  lemma {:induction false} JoinHead(parts: seq<string>, sep: char)
    requires |parts| >= 1
    ensures parts[0] <= Join(parts, sep)
    ensures |parts| > 1 ==> |parts[0]| < |Join(parts, sep)| && Join(parts, sep)[|parts[0]|] == sep
  {
    if |parts| > 1 {
      assert Join(parts, sep) == parts[0] + [sep] + Join(parts[1..], sep);
    }
  }

  /** `piece` is the whole piece of `s` that starts at `start`: it runs up to
      the next separator, or to the end of `s` when there is none. */
  predicate PieceAt(s: string, start: nat, piece: string, sep: char) {
    && start + |piece| <= |s|
    && s[start..start + |piece|] == piece
    && sep !in piece
    && (start + |piece| < |s| ==> s[start + |piece|] == sep)
  }

  /** The first piece of a join is the piece at the start of it, there are
      more pieces exactly when it stops short of the end, and the rest of the
      join after its separator is the join of the remaining pieces. */
  lemma JoinFirstPiece(parts: seq<string>, sep: char)
    requires |parts| >= 1
    requires forall i :: 0 <= i < |parts| ==> sep !in parts[i]
    ensures PieceAt(Join(parts, sep), 0, parts[0], sep)
    ensures |parts| > 1 <==> |parts[0]| < |Join(parts, sep)|
    ensures |parts| > 1 ==> Join(parts, sep)[|parts[0]| + 1..] == Join(parts[1..], sep)
  {
    var s := Join(parts, sep);
    if |parts| > 1 {
      assert s == parts[0] + [sep] + Join(parts[1..], sep);
      assert s[..|parts[0]|] == parts[0];
    } else {
      assert s[0..|parts[0]|] == s;
    }
  }

  /** `JoinFirstPiece` for a join that is the suffix of `s` starting at `k`,
      with the first piece located in `s` itself. */
  lemma JoinPieceAt(s: string, k: nat, parts: seq<string>, sep: char)
    requires k <= |s| && |parts| >= 1 && s[k..] == Join(parts, sep)
    requires forall i :: 0 <= i < |parts| ==> sep !in parts[i]
    ensures PieceAt(s, k, parts[0], sep)
    ensures |parts| > 1 <==> k + |parts[0]| < |s|
    ensures |parts| > 1 ==> s[k + |parts[0]| + 1..] == Join(parts[1..], sep)
  {
    JoinFirstPiece(parts, sep);
    PieceOfSuffix(s, k, parts[0], sep);
    if |parts| > 1 {
      assert s[k..][|parts[0]| + 1..] == s[k + |parts[0]| + 1..];
    }
  }

  /** A piece at the start of a suffix is a piece of the whole string. */
  lemma PieceOfSuffix(s: string, k: nat, piece: string, sep: char)
    requires k <= |s|
    requires PieceAt(s[k..], 0, piece, sep)
    ensures PieceAt(s, k, piece, sep)
  {
    assert s[k..][0..|piece|] == s[k..k + |piece|];
    if k + |piece| < |s| {
      assert s[k..][|piece|] == s[k + |piece|];
    }
  }

  /** A string without the separator is a single piece. */
  lemma {:induction false} SplitWithoutSeparator(s: string, sep: char)
    requires sep !in s
    ensures Split(s, sep) == [s]
    decreases |s|
  {
    if |s| > 0 {
      SplitWithoutSeparator(s[1..], sep);
    }
  }

  /** How the first character of a string shapes its pieces. */
  lemma SplitCons(c: char, t: string, sep: char)
    ensures Split([c] + t, sep) ==
      if c == sep then [""] + Split(t, sep)
      else [[c] + Split(t, sep)[0]] + Split(t, sep)[1..]
  {
    assert ([c] + t)[1..] == t;
  }

  /** Splitting distributes over a separator occurrence. */
  lemma {:induction false} SplitAtSeparator(a: string, b: string, sep: char)
    ensures Split(a + [sep] + b, sep) == Split(a, sep) + Split(b, sep)
    decreases |a|
  {
    if |a| == 0 {
      assert a + [sep] + b == [sep] + b;
      SplitCons(sep, b, sep);
    } else {
      var c, tail := a[0], a[1..];
      var joined := tail + [sep] + b;
      assert Split(a + [sep] + b, sep) == Split([c] + joined, sep) by {
        assert a + [sep] + b == [c] + joined;
      }
      assert Split(a, sep) == Split([c] + tail, sep) by {
        assert a == [c] + tail;
      }
      SplitAtSeparator(tail, b, sep);
      SplitConsAppend(c, Split(tail, sep), Split(b, sep), sep);
      SplitCons(c, joined, sep);
      SplitCons(c, tail, sep);
    }
  }

  /** The two shapes `SplitCons` gives, for a tail whose pieces are
      `restA + restB`. */
  lemma SplitConsAppend(c: char, restA: seq<string>, restB: seq<string>, sep: char)
    requires |restA| >= 1
    ensures [""] + (restA + restB) == ([""] + restA) + restB
    ensures [[c] + (restA + restB)[0]] + (restA + restB)[1..] == ([[c] + restA[0]] + restA[1..]) + restB
  {
    assert (restA + restB)[1..] == restA[1..] + restB;
  }

  /** `split` undoes `join` when no piece holds the separator. */
  lemma {:induction false} SplitJoin(parts: seq<string>, sep: char)
    requires |parts| >= 1
    requires forall i :: 0 <= i < |parts| ==> sep !in parts[i]
    ensures Split(Join(parts, sep), sep) == parts
    decreases |parts|
  {
    SplitWithoutSeparator(parts[0], sep);
    if |parts| > 1 {
      SplitJoin(parts[1..], sep);
      SplitAtSeparator(parts[0], Join(parts[1..], sep), sep);
      assert parts == [parts[0]] + parts[1..];
    }
  }

  /** The last piece of a join follows the join of the others. */
  lemma {:induction false} JoinLast(parts: seq<string>, sep: char)
    requires |parts| >= 2
    ensures Join(parts, sep) == Join(parts[..|parts| - 1], sep) + [sep] + parts[|parts| - 1]
    decreases |parts|
  {
    if |parts| > 2 {
      JoinLast(parts[1..], sep);
      assert parts[1..][..|parts| - 2] == parts[..|parts| - 1][1..];
    }
  }

  /** The chunks of `chunks` written one after the other. */
  function Concat(chunks: seq<string>): string
    decreases |chunks|
  {
    if |chunks| == 0 then "" else chunks[0] + Concat(chunks[1..])
  }

  lemma {:induction false} ConcatAppend(a: seq<string>, b: seq<string>)
    ensures Concat(a + b) == Concat(a) + Concat(b)
    decreases |a|
  {
    if |a| > 0 {
      assert (a + b)[1..] == a[1..] + b;
      ConcatAppend(a[1..], b);
      calc {
        Concat(a + b);
        a[0] + Concat(a[1..] + b);
        a[0] + (Concat(a[1..]) + Concat(b));
        (a[0] + Concat(a[1..])) + Concat(b);
      }
    } else {
      assert a + b == b;
    }
  }

  /** Each line followed by a line break, as a file written line by line. */
  function Unlines(lines: seq<string>): string
    decreases |lines|
  {
    if |lines| == 0 then "" else lines[0] + "\n" + Unlines(lines[1..])
  }

  lemma {:induction false} UnlinesIsJoin(lines: seq<string>)
    ensures Unlines(lines) == Join(lines + [""], '\n')
    decreases |lines|
  {
    if |lines| > 0 {
      UnlinesIsJoin(lines[1..]);
      assert (lines + [""])[1..] == lines[1..] + [""];
    }
  }

  /** Splitting a file written line by line gives its lines back, followed by
      the empty piece after the final line break. */
  lemma SplitUnlines(lines: seq<string>)
    requires forall i :: 0 <= i < |lines| ==> '\n' !in lines[i]
    ensures Split(Unlines(lines), '\n') == lines + [""]
  {
    UnlinesIsJoin(lines);
    SplitJoin(lines + [""], '\n');
  }

  /** Appending lines one by one is writing them line by line. */
  lemma {:induction false} ConcatTerminatedLines(chunks: seq<string>, lines: seq<string>)
    requires |chunks| == |lines|
    requires forall i :: 0 <= i < |chunks| ==> chunks[i] == lines[i] + "\n"
    ensures Concat(chunks) == Unlines(lines)
    decreases |chunks|
  {
    if |chunks| > 0 {
      ConcatTerminatedLines(chunks[1..], lines[1..]);
    }
  }

  function DigitChar(d: nat): (c: char)
    requires d < 10
    ensures '0' <= c <= '9'
  {
    "0123456789"[d]
  }

  predicate IsDigits(s: string) {
    forall i :: 0 <= i < |s| ==> '0' <= s[i] <= '9'
  }

  /** The decimal text of `n`, as a template literal renders a non-negative
      integer: no sign, no leading zero except for `0` itself. */
  function NatToString(n: nat): (s: string)
    ensures 1 <= |s|
    ensures IsDigits(s)
    ensures s[0] == '0' ==> n == 0 && s == "0"
    decreases n
  {
    if n < 10 then [DigitChar(n)] else NatToString(n / 10) + [DigitChar(n % 10)]
  }

  /** The value of a string of decimal digits. */
  function ParseDecimal(s: string): nat
    requires IsDigits(s)
    decreases |s|
  {
    if |s| == 0 then 0
    else ParseDecimal(s[..|s| - 1]) * 10 + (s[|s| - 1] as int - '0' as int)
  }

  /** Reading back the decimal text gives the number. */
  lemma {:induction false} DecimalRoundTrip(n: nat)
    ensures ParseDecimal(NatToString(n)) == n
    decreases n
  {
    var s := NatToString(n);
    if n >= 10 {
      DecimalRoundTrip(n / 10);
      assert s[..|s| - 1] == NatToString(n / 10);
    }
  }

  /** Decimal text contains neither field nor line separators. */
  lemma DecimalHasNoSeparators(n: nat)
    ensures ';' !in NatToString(n) && '\n' !in NatToString(n)
  {
    var s := NatToString(n);
    assert forall i :: 0 <= i < |s| ==> s[i] != ';' && s[i] != '\n';
  }
}
