/** Request heads as lines: what splitting at CR LF and looking for the blank line find. */
module HeadLines {
  import opened Options
  import opened Text

  const CRLF := "\r\n"
  const TERMINATOR := "\r\n\r\n"

  predicate BreakAt(s: string, i: int) {
    0 <= i && i + 2 <= |s| && s[i] == '\r' && s[i + 1] == '\n'
  }

  predicate OneLine(s: string) {
    forall i :: 0 <= i < |s| ==> !BreakAt(s, i)
  }

  lemma BreakOccurs(s: string, i: int)
    ensures OccursAt(s, CRLF, i) <==> BreakAt(s, i)
  {
    if 0 <= i && i + 2 <= |s| {
      var t := s[i..i + 2];
      assert t[0] == s[i] && t[1] == s[i + 1];
    }
  }

  lemma OneLineOccurs(s: string)
    ensures OneLine(s) <==> forall i :: !OccursAt(s, CRLF, i)
  {
    forall i ensures OccursAt(s, CRLF, i) <==> BreakAt(s, i) {
      BreakOccurs(s, i);
    }
  }

  lemma OneLinePiece(s: string, i: nat, j: nat)
    requires OneLine(s) && i <= j <= |s|
    ensures OneLine(s[i..j])
  {
    forall k | 0 <= k < j - i ensures !BreakAt(s[i..j], k) {
      assert !BreakAt(s, i + k);
    }
  }

  /** Every piece a split leaves is one line. */
  lemma {:induction false} SplitIsOneLine(s: string)
    ensures forall i :: 0 <= i < |Split(s, CRLF)| ==> OneLine(Split(s, CRLF)[i])
    decreases |s|
  {
    OneLineOccurs(s);
    var r := Find(s, CRLF);
    if r.Some? {
      forall i ensures !OccursAt(s[..r.value], CRLF, i) {
        if OccursAt(s[..r.value], CRLF, i) {
          OccursInPrefix(s, r.value, CRLF, i);
        }
      }
      OneLineOccurs(s[..r.value]);
      SplitIsOneLine(s[r.value + 2..]);
    }
  }

  lemma FirstLineBreak(line: string, rest: string)
    requires OneLine(line)
    ensures Find(line + CRLF + rest, CRLF) == Some(|line|)
  {
    var s := line + CRLF + rest;
    assert s[|line|..|line| + 2] == CRLF;
    assert s[|line|] == '\r' && forall j :: 0 <= j < |line| ==> s[j] == line[j];
    forall j | 0 <= j < |line| ensures !OccursAt(s, CRLF, j) {
      BreakOccurs(s, j);
      assert !BreakAt(line, j);
    }
    FindIs(s, CRLF, |line|);
  }

  /** Splitting undoes joining. */
  lemma {:induction false} SplitJoin(lines: seq<string>)
    requires lines != [] && forall i :: 0 <= i < |lines| ==> OneLine(lines[i])
    ensures Split(Join(lines, CRLF), CRLF) == lines
  {
    if |lines| == 1 {
      OneLineOccurs(lines[0]);
    } else {
      var rest := Join(lines[1..], CRLF);
      FirstLineBreak(lines[0], rest);
      assert (lines[0] + CRLF + rest)[..|lines[0]|] == lines[0];
      assert (lines[0] + CRLF + rest)[|lines[0]| + 2..] == rest;
      SplitJoin(lines[1..]);
    }
  }

  lemma {:induction false} JoinBlankLine(lines: seq<string>)
    requires lines != []
    ensures Join(lines + ["", ""], CRLF) == Join(lines, CRLF) + TERMINATOR
  {
    var all := lines + ["", ""];
    assert all[1..] == lines[1..] + ["", ""];
    if |lines| == 1 {
      assert all[1..] == ["", ""] && ["", ""][1..] == [""];
      assert Join([""], CRLF) == "";
      assert Join(["", ""], CRLF) == CRLF;
      assert CRLF + CRLF == TERMINATOR;
    } else {
      JoinBlankLine(lines[1..]);
      assert Join(all, CRLF) == lines[0] + CRLF + (Join(lines[1..], CRLF) + TERMINATOR);
    }
  }

  predicate TerminatorAt(s: string, i: int) {
    0 <= i && i + 4 <= |s| && s[i] == '\r' && s[i + 1] == '\n' && s[i + 2] == '\r' && s[i + 3] == '\n'
  }

  lemma NoTerminatorInLine(line: string, tail: string, j: int)
    requires OneLine(line) && j < |line| && tail != "" && tail[0] == '\r'
    ensures !TerminatorAt(line + tail, j)
  {
    if 0 <= j {
      assert !BreakAt(line, j);
    }
  }

  lemma NoTerminatorAtBreak(line: string, tail: string, j: int)
    requires |line| <= j < |line| + 2 && |tail| >= 2 && !BreakAt(tail, 0)
    ensures !TerminatorAt(line + (CRLF + tail), j)
  {
    var s := line + (CRLF + tail);
    assert s[|line| + 1] == '\n' && s[|line| + 2] == tail[0] && s[|line| + 3] == tail[1];
  }

  lemma TerminatorShift(line: string, tail: string, j: int)
    requires j >= |line| + 2
    ensures TerminatorAt(line + (CRLF + tail), j) == TerminatorAt(tail, j - |line| - 2)
  {
    var s := line + (CRLF + tail);
    assert forall i :: 0 <= i < |tail| ==> s[|line| + 2 + i] == tail[i];
  }

  lemma HeadStart(lines: seq<string>, after: string)
    requires lines != [] && OneLine(lines[0]) && lines[0] != ""
    ensures var s := Join(lines, CRLF) + TERMINATOR + after;
            |s| >= 2 && !BreakAt(s, 0)
  {
    var line := lines[0];
    var s := Join(lines, CRLF) + TERMINATOR + after;
    assert s[0] == line[0];
    assert s[1] == if |line| > 1 then line[1] else '\r';
    assert !BreakAt(line, 0);
  }

  /** No blank line inside a head whose lines are all non-empty. */
  lemma {:induction false} NoEarlierTerminator(lines: seq<string>, after: string, j: int)
    requires lines != [] && forall i :: 0 <= i < |lines| ==> OneLine(lines[i]) && lines[i] != ""
    requires j < |Join(lines, CRLF)|
    ensures !TerminatorAt(Join(lines, CRLF) + TERMINATOR + after, j)
  {
    hide TerminatorAt, OneLine, BreakAt;
    var line := lines[0];
    var s := Join(lines, CRLF) + TERMINATOR + after;
    if |lines| == 1 {
      assert s == line + (TERMINATOR + after);
      NoTerminatorInLine(line, TERMINATOR + after, j);
    } else {
      var tail := Join(lines[1..], CRLF) + TERMINATOR + after;
      assert s == line + (CRLF + tail);
      if j < |line| {
        NoTerminatorInLine(line, CRLF + tail, j);
      } else if j < |line| + 2 {
        HeadStart(lines[1..], after);
        NoTerminatorAtBreak(line, tail, j);
      } else {
        NoEarlierTerminator(lines[1..], after, j - |line| - 2);
        TerminatorShift(line, tail, j);
      }
    }
  }

  /** The blank line of a printed head is its first one. */
  lemma TerminatorOfHead(lines: seq<string>, after: string)
    requires lines != [] && forall i :: 0 <= i < |lines| ==> OneLine(lines[i]) && lines[i] != ""
    ensures Find(Join(lines, CRLF) + TERMINATOR + after, TERMINATOR) == Some(|Join(lines, CRLF)|)
  {
    var s := Join(lines, CRLF) + TERMINATOR + after;
    var n := |Join(lines, CRLF)|;
    assert s[n..n + 4] == TERMINATOR;
    forall j | 0 <= j < n ensures !OccursAt(s, TERMINATOR, j) {
      NoEarlierTerminator(lines, after, j);
    }
    FindIs(s, TERMINATOR, n);
  }
}
