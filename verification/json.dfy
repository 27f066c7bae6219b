/** The journal line format written by `saveTaskTwo` and read back by
    `transformTaskResults`: `JSON.stringify` of a `{name, createdAt}` object,
    and the part of `JSON.parse` that reads that shape back. */
module Json {
  import opened Wrappers
  import opened Records

  /** Lower-case hexadecimal digit, as `JSON.stringify` writes in `\u00XX`. */
  function HexDigit(d: nat): (c: char)
    requires d < 16
  {
    if d < 10 then ('0' as int + d) as char else ('a' as int + d - 10) as char
  }

  /** The value of a hexadecimal digit of either case. */
  function HexValue(c: char): (v: Option<nat>)
    ensures v.Some? ==> v.value < 16
  {
    if '0' <= c <= '9' then Some(c as int - '0' as int)
    else if 'a' <= c <= 'f' then Some(c as int - 'a' as int + 10)
    else if 'A' <= c <= 'F' then Some(c as int - 'A' as int + 10)
    else None
  }

  lemma HexRoundTrip(d: nat)
    requires d < 16
    ensures HexValue(HexDigit(d)) == Some(d)
  {
  }

  /** True of the characters a JSON string may hold unescaped. */
  predicate Printable(c: char) {
    c as int >= 0x20
  }

  predicate AllPrintable(s: string) {
    forall i :: 0 <= i < |s| ==> Printable(s[i])
  }

  lemma PrintableConcat(a: string, b: string)
    requires AllPrintable(a) && AllPrintable(b)
    ensures AllPrintable(a + b)
  {
    assert forall i :: 0 <= i < |a + b| ==> (a + b)[i] == if i < |a| then a[i] else b[i - |a|];
  }

  lemma PrintableHasNoLineBreak(s: string)
    requires AllPrintable(s)
    ensures '\n' !in s
  {
    assert forall i :: 0 <= i < |s| ==> s[i] != '\n';
  }

  /** How `JSON.stringify` writes one character inside a string literal: the
      quote and the backslash are escaped, control characters take their
      short escape or `\u00XX`, everything else is copied. */
  function EscapeChar(c: char): (e: string)
    ensures |e| >= 1 && AllPrintable(e)
    ensures e[0] == '\\' || (e == [c] && c != '"')
  {
    if c == '"' then "\\\""
    else if c == '\\' then "\\\\"
    else if c as int == 0x08 then "\\b"
    else if c as int == 0x0C then "\\f"
    else if c == '\n' then "\\n"
    else if c == '\r' then "\\r"
    else if c == '\t' then "\\t"
    else if c as int < 0x20 then "\\u00" + [HexDigit(c as int / 16), HexDigit(c as int % 16)]
    else [c]
  }

  function Escape(s: string): (e: string)
    ensures AllPrintable(e)
    decreases |s|
  {
    if |s| == 0 then "" else EscapeChar(s[0]) + Escape(s[1..])
  }

  const NamePrefix: string := "{\"name\":\""
  const DatePrefix: string := ",\"createdAt\":\""

  /** `JSON.stringify(taskTwo)`: keys in declaration order, no spaces. */
  function Serialize(t: TaskTwo): (line: string)
    ensures NamePrefix <= line
    ensures |line| >= |NamePrefix| + |DatePrefix| + 3 && line[|line| - 2..] == "\"}"
  {
    NamePrefix + Escape(t.name) + ("\"" + DatePrefix) + Escape(t.createdAt) + "\"}"
  }

  /** A serialised record holds no control character, so in particular no
      line break: it fits on one journal line. */
  lemma SerializeIsOneLine(t: TaskTwo)
    ensures AllPrintable(Serialize(t))
    ensures '\n' !in Serialize(t)
  {
    PrintableConcat(NamePrefix, Escape(t.name));
    PrintableConcat(NamePrefix + Escape(t.name), "\"" + DatePrefix);
    PrintableConcat(NamePrefix + Escape(t.name) + ("\"" + DatePrefix), Escape(t.createdAt));
    PrintableConcat(NamePrefix + Escape(t.name) + ("\"" + DatePrefix) + Escape(t.createdAt), "\"}");
    PrintableHasNoLineBreak(Serialize(t));
  }

  /** Reads the character an escape sequence stands for, from the text after
      the backslash; the count is how much of that text it used. */
  function ReadEscape(s: string): (r: Option<(char, nat)>)
    ensures r.Some? ==> 1 <= r.value.1 <= |s|
  {
    if |s| == 0 then None
    else if s[0] == '"' then Some(('"', 1))
    else if s[0] == '\\' then Some(('\\', 1))
    else if s[0] == '/' then Some(('/', 1))
    else if s[0] == 'b' then Some((0x08 as char, 1))
    else if s[0] == 'f' then Some((0x0C as char, 1))
    else if s[0] == 'n' then Some(('\n', 1))
    else if s[0] == 'r' then Some(('\r', 1))
    else if s[0] == 't' then Some(('\t', 1))
    else if s[0] == 'u' && |s| >= 5 then
      match (HexValue(s[1]), HexValue(s[2]), HexValue(s[3]), HexValue(s[4]))
      case (Some(a), Some(b), Some(c), Some(d)) =>
        var code := ((a * 16 + b) * 16 + c) * 16 + d;
        if 0xD800 <= code < 0xE000 then None else Some((code as char, 5))
      case _ => None
    else None
  }

  /** Reads the body of a string literal, the text after its opening quote,
      up to the closing quote: the decoded text and what follows the quote.
      A raw control character or an unknown escape is a syntax error. */
  function ReadString(s: string): (r: Option<(string, string)>)
    decreases |s|
  {
    if |s| == 0 then None
    else if s[0] == '"' then Some(("", s[1..]))
    else if s[0] == '\\' then
      match ReadEscape(s[1..])
      case None => None
      case Some((c, used)) =>
        match ReadString(s[1 + used..])
        case None => None
        case Some((v, rest)) => Some(([c] + v, rest))
    else if !Printable(s[0]) then None
    else
      match ReadString(s[1..])
      case None => None
      case Some((v, rest)) => Some(([s[0]] + v, rest))
  }

  /** `JSON.parse` of a journal line, for lines of the shape `Serialize`
      writes; anything else is reported as unparseable. */
  function Parse(line: string): (r: Option<TaskTwo>)
    ensures r.Some? ==> NamePrefix <= line
    ensures line == "" ==> r.None?
  {
    if !(NamePrefix <= line) then None
    else
      match ReadString(line[|NamePrefix|..])
      case None => None
      case Some((name, rest)) =>
        if !(DatePrefix <= rest) then None
        else
          match ReadString(rest[|DatePrefix|..])
          case None => None
          case Some((createdAt, tail)) =>
            if tail == "}" then Some(TaskTwo(name, createdAt)) else None
  }

  /** What follows a string literal is a strictly shorter suffix of the
      text it was read from. */
  lemma {:induction false} ReadStringSuffix(s: string)
    ensures var r := ReadString(s);
            r.Some? ==> |r.value.1| < |s| && s[|s| - |r.value.1|..] == r.value.1
    decreases |s|
  {
    if |s| > 0 && s[0] != '"' {
      if s[0] == '\\' {
        match ReadEscape(s[1..])
        case None =>
        case Some((c, used)) =>
          var t := s[1 + used..];
          ReadStringSuffix(t);
          if ReadString(t).Some? {
            var rest := ReadString(t).value.1;
            assert t[|t| - |rest|..] == s[|s| - |rest|..];
          }
      } else if Printable(s[0]) {
        var t := s[1..];
        ReadStringSuffix(t);
        if ReadString(t).Some? {
          var rest := ReadString(t).value.1;
          assert t[|t| - |rest|..] == s[|s| - |rest|..];
        }
      }
    }
  }

  /** A line `JSON.parse` accepts as a record opens with the name key and
      closes the object, with both string literals and the date key between. */
  lemma ParseShape(line: string)
    ensures Parse(line).Some? ==>
              && NamePrefix <= line
              && |line| >= |NamePrefix| + |DatePrefix| + 3
              && line[|line| - 1] == '}'
  {
    if Parse(line).Some? {
      var afterName := line[|NamePrefix|..];
      ReadStringSuffix(afterName);
      var rest := ReadString(afterName).value.1;
      var afterDate := rest[|DatePrefix|..];
      ReadStringSuffix(afterDate);
      var tail := ReadString(afterDate).value.1;
      assert tail == "}";
      assert line[|line| - 1] == afterName[|afterName| - 1] == rest[|rest| - 1] == afterDate[|afterDate| - 1];
    }
  }

  /** A control character without a short escape reads back from its
      `\u00XX` form. */
  lemma ReadUnicodeEscape(c: char, tail: string)
    requires c as int < 0x20
    ensures ReadEscape("u00" + [HexDigit(c as int / 16), HexDigit(c as int % 16)] + tail) == Some((c, 5))
  {
    var hi, lo := c as int / 16, c as int % 16;
    var s := "u00" + [HexDigit(hi), HexDigit(lo)] + tail;
    HexRoundTrip(hi);
    HexRoundTrip(lo);
    assert s[1] == '0' && s[2] == '0' && s[3] == HexDigit(hi) && s[4] == HexDigit(lo);
    assert ((0 * 16 + 0) * 16 + hi) * 16 + lo == c as int;
  }

  /** The text after the backslash of an escape reads back as the escaped
      character, using all of that text. */
  lemma ReadEscapeOf(c: char, tail: string)
    requires EscapeChar(c)[0] == '\\'
    ensures ReadEscape(EscapeChar(c)[1..] + tail) == Some((c, |EscapeChar(c)| - 1))
  {
    if c as int < 0x20 && c != '\n' && c != '\r' && c != '\t' && c as int != 0x08 && c as int != 0x0C {
      assert EscapeChar(c)[1..] == "u00" + [HexDigit(c as int / 16), HexDigit(c as int % 16)];
      ReadUnicodeEscape(c, tail);
    }
  }

  /** Reading one escaped character consumes exactly its escape. */
  lemma ReadEscapedChar(c: char, tail: string)
    ensures ReadString(EscapeChar(c) + tail) ==
      match ReadString(tail)
      case None => None
      case Some((v, rest)) => Some(([c] + v, rest))
  {
    var e := EscapeChar(c);
    var s := e + tail;
    if e[0] == '\\' {
      assert s[1..] == e[1..] + tail;
      ReadEscapeOf(c, tail);
      assert s[1 + |e| - 1..] == tail;
    } else {
      assert s[1..] == tail;
    }
  }

  /** A quoted escaped string reads back as the original text, and reading
      stops right after its closing quote. */
  lemma {:induction false} ReadEscapedString(s: string, rest: string)
    ensures ReadString(Escape(s) + "\"" + rest) == Some((s, rest))
    decreases |s|
  {
    if |s| == 0 {
      assert (Escape(s) + "\"" + rest)[1..] == rest;
    } else {
      var tail := Escape(s[1..]) + "\"" + rest;
      assert Escape(s) + "\"" + rest == EscapeChar(s[0]) + tail;
      ReadEscapedChar(s[0], tail);
      ReadEscapedString(s[1..], rest);
      assert [s[0]] + s[1..] == s;
    }
  }

  /** Parsing a serialised record gives the record back. */
  lemma ParseSerialize(t: TaskTwo)
    ensures Parse(Serialize(t)) == Some(t)
  {
    ParseEscapedFields(t.name, t.createdAt);
  }

  /** The two fields read back in turn make the whole line parse. */
  lemma ParseOfFields(line: string, name: string, rest: string, createdAt: string)
    requires NamePrefix <= line && ReadString(line[|NamePrefix|..]) == Some((name, rest))
    requires DatePrefix <= rest && ReadString(rest[|DatePrefix|..]) == Some((createdAt, "}"))
    ensures Parse(line) == Some(TaskTwo(name, createdAt))
  {
  }

  /** After the name prefix come the quoted name and the date member; after
      the date prefix, the quoted date and the closing brace. */
  lemma SerializedShape(name: string, createdAt: string)
    ensures var line := NamePrefix + name + ("\"" + DatePrefix) + createdAt + "\"}";
            var rest := DatePrefix + createdAt + "\"}";
            && NamePrefix <= line
            && line[|NamePrefix|..] == name + "\"" + rest
            && DatePrefix <= rest
            && rest[|DatePrefix|..] == createdAt + "\"" + "}"
  {
    var rest := DatePrefix + createdAt + "\"}";
    var line := NamePrefix + name + ("\"" + DatePrefix) + createdAt + "\"}";
    assert line == NamePrefix + (name + "\"" + rest);
    assert rest == DatePrefix + (createdAt + "\"" + "}");
  }

  lemma ParseEscapedFields(name: string, createdAt: string)
    ensures Parse(NamePrefix + Escape(name) + ("\"" + DatePrefix) + Escape(createdAt) + "\"}")
         == Some(TaskTwo(name, createdAt))
  {
    var rest := DatePrefix + Escape(createdAt) + "\"}";
    var line := NamePrefix + Escape(name) + ("\"" + DatePrefix) + Escape(createdAt) + "\"}";
    SerializedShape(Escape(name), Escape(createdAt));
    ReadEscapedString(name, rest);
    ReadEscapedString(createdAt, "}");
    ParseOfFields(line, name, rest, createdAt);
  }

  /** An empty line is not a record. */
  lemma ParseEmpty()
    ensures Parse("") == None
  {
  }
}
