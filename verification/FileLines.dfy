/** Text files as the runtime hands them out: line by line, whatever the line ends are. */
module FileLines {
  /** What iterating over a file opened as text gives, without the line ends. A last empty piece stands for
      no line; every reader here skips blank lines. */
  function Lines(s: string): (r: seq<string>)
    ensures r != []
  {
    if s == "" then [""]
    else if s[0] == '\n' then [""] + Lines(s[1..])
    else if s[0] == '\r' then [""] + Lines(if |s| > 1 && s[1] == '\n' then s[2..] else s[1..])
    else
      var rest := Lines(s[1..]);
      [[s[0]] + rest[0]] + rest[1..]
  }

  predicate OnOneLine(s: string) {
    '\n' !in s && '\r' !in s
  }

  /** A line ends at a newline, a carriage return, or the two together. */
  lemma {:induction false} LineEnds(line: string, end: string, rest: string)
    requires OnOneLine(line)
    requires end == "\n" || end == "\r\n" || (end == "\r" && (rest == "" || rest[0] != '\n'))
    ensures Lines(line + end + rest) == [line] + Lines(rest)
  {
    var s := line + end + rest;
    if line == "" {
      assert s[0] == end[0] && s == end + rest && s[|end|..] == rest;
    } else {
      assert s[0] == line[0] && s[1..] == line[1..] + end + rest;
      assert line[0] in line && forall c :: c in line[1..] ==> c in line;
      LineEnds(line[1..], end, rest);
      assert [line[0]] + line[1..] == line;
    }
  }

  /** A printed line reads back as one line. */
  lemma LinesOfPrinted(line: string, rest: string)
    requires OnOneLine(line)
    ensures Lines(line + "\n" + rest) == [line] + Lines(rest)
  {
    LineEnds(line, "\n", rest);
  }

  /** Lines hold no line ends. */
  lemma {:induction false} LinesAreLines(s: string)
    ensures forall i :: 0 <= i < |Lines(s)| ==> OnOneLine(Lines(s)[i])
  {
    if s == "" {
    } else if s[0] == '\n' {
      LinesAreLines(s[1..]);
    } else if s[0] == '\r' {
      LinesAreLines(if |s| > 1 && s[1] == '\n' then s[2..] else s[1..]);
    } else {
      LinesAreLines(s[1..]);
      var rest := Lines(s[1..]);
      assert OnOneLine(rest[0]);
      assert forall i :: 0 < i < |rest| ==> Lines(s)[i] == rest[i];
    }
  }
}
