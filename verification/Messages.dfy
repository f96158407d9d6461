/** Requests as a client writes them, a line at a time, and what the parser finds in them. */
module Messages {
  import opened Options
  import opened Text
  import opened HeadLines
  import opened OrderedDict
  import opened RequestParser

  /** Lines that can stand in a head. */
  predicate HeadLike(lines: seq<string>) {
    forall i :: 0 <= i < |lines| ==> OneLine(lines[i]) && lines[i] != ""
  }

  function Message(first: string, lines: seq<string>, body: string): string {
    Join([first] + lines, CRLF) + TERMINATOR + body
  }

  predicate Word(s: string) {
    s != "" && Solid(s)
  }

  function Asking(verb: string, target: string): string {
    verb + " " + target + " HTTP/1.1"
  }

  lemma OneLineConcat(a: string, b: string)
    requires OneLine(a) && OneLine(b)
    requires a == "" || a[|a| - 1] != '\r'
    ensures OneLine(a + b)
  {
    forall i | 0 <= i < |a + b| ensures !BreakAt(a + b, i) {
      if i < |a| {
        assert !BreakAt(a, i);
      } else {
        assert !BreakAt(b, i - |a|);
      }
    }
  }

  // ----- the request line -----

  lemma FieldsRest(s: string)
    requires s != "" && !IsBlank(s[0], TextBlanks)
    ensures Fields(s, 0) == [s]
  {
  }

  lemma ThreeWords(verb: string, path: string, version: string)
    requires Word(verb) && Word(path) && version != "" && !IsBlank(version[0], TextBlanks)
    ensures Fields(verb + " " + path + " " + version, 2) == [verb, path, version]
  {
    hide Fields;
    var tail := " " + version;
    var middle := path + tail;
    assert verb + " " + path + " " + version == verb + (" " + middle);
    FieldsStep(verb, " " + middle, 2, TextBlanks);
    FieldsPad(middle, 1, TextBlanks);
    FieldsStep(path, tail, 1, TextBlanks);
    FieldsPad(version, 0, TextBlanks);
    FieldsRest(version);
  }

  lemma ThreeWordsOneLine(verb: string, path: string, version: string)
    requires Word(verb) && Word(path) && Solid(version)
    ensures OneLine(verb + " " + path + " " + version)
  {
    SolidIsOneLine(verb);
    SolidIsOneLine(path);
    SolidIsOneLine(version);
    assert verb[|verb| - 1] in verb && path[|path| - 1] in path;
    OneLineConcat(verb, " ");
    OneLineConcat(verb + " ", path);
    OneLineConcat(verb + " " + path, " ");
    OneLineConcat(verb + " " + path + " ", version);
  }

  lemma AskingReads(verb: string, target: string)
    requires Word(verb) && Word(target)
    ensures OneLine(Asking(verb, target)) && Asking(verb, target) != ""
    ensures Fields(Asking(verb, target), 2) == [verb, target, "HTTP/1.1"]
  {
    hide Fields, OneLine;
    ThreeWords(verb, target, "HTTP/1.1");
    ThreeWordsOneLine(verb, target, "HTTP/1.1");
    assert " HTTP/1.1" == " " + "HTTP/1.1";
    assert Asking(verb, target) == verb + " " + target + " " + "HTTP/1.1";
  }

  // ----- the head -----

  /** The head ends where it should, and comes apart into its lines. */
  lemma MessageHead(first: string, lines: seq<string>, body: string)
    requires HeadLike([first] + lines)
    ensures var data, head := Message(first, lines, body), Join([first] + lines, CRLF);
            && Find(data, TERMINATOR) == Some(|head|)
            && Head(data) == Some(([first] + lines + ["", ""], body))
  {
    hide Find, Split;
    var all := [first] + lines;
    var head := Join(all, CRLF);
    TerminatorOfHead(all, body);
    assert (head + TERMINATOR + body)[..|head| + 4] == head + TERMINATOR;
    assert (head + TERMINATOR + body)[|head| + 4..] == body;
    JoinBlankLine(all);
    assert OneLine("");
    SplitJoin(all + ["", ""]);
  }

  lemma BlankLinesAddNothing(lines: seq<string>)
    ensures HeadersOf(lines + ["", ""]) == HeadersOf(lines)
  {
    var all := lines + ["", ""];
    assert all[..|all| - 1] == lines + [""] && (lines + [""])[..|lines|] == lines;
  }

  /** Parsing a message comes down to where it wants to go. */
  lemma MessageParses(verb: string, target: string, lines: seq<string>, body: string, url: Option<UrlParts>)
    requires Word(verb) && Word(target) && HeadLike(lines)
    ensures var headers := HeadersOf(lines);
            Parse(Message(Asking(verb, target), lines, body), url)
            == Assemble(verb, headers, DestinationOf(verb, target, headers, url), body)
  {
    hide Asking, Fields, HeadersOf, DestinationOf, Message, Get, Assemble, Head, OneLine;
    var first := Asking(verb, target);
    AskingReads(verb, target);
    MessageHead(first, lines, body);
    assert ([first] + lines + ["", ""])[1..] == lines + ["", ""];
    BlankLinesAddNothing(lines);
  }

  // ----- header fields -----

  /** A line that gives a header field of this name. */
  predicate Names(line: string, key: string) {
    FindChar(line, ':').Some? && Lower(Strip(line[..FindChar(line, ':').value])) == key
  }

  predicate NoneNames(lines: seq<string>, key: string) {
    forall i :: 0 <= i < |lines| ==> !Names(lines[i], key)
  }

  lemma FieldReads(d: Dict, name: string, value: string)
    requires ':' !in name
    ensures AddHeader(d, name + ":" + value) == Set(d, Lower(Strip(name)), Strip(value))
    ensures Names(name + ":" + value, Lower(Strip(name)))
  {
    var line := name + ":" + value;
    var colon := FindChar(line, ':');
    assert line[|name|] == ':';
    assert forall j :: 0 <= j < |name| ==> line[j] == name[j] && name[j] in name;
    assert colon == Some(|name|);
    assert line[..|name|] == name && line[|name| + 1..] == value;
  }

  lemma OtherFieldKeeps(d: Dict, line: string, key: string)
    requires !Names(line, key)
    ensures Get(AddHeader(d, line), key) == Get(d, key)
  {
    hide Lower, Strip;
    var colon := FindChar(line, ':');
    if colon.Some? {
      GetSet(d, Lower(Strip(line[..colon.value])), Strip(line[colon.value + 1..]), key);
    }
  }

  lemma {:induction false} OtherFieldsKeep(before: seq<string>, after: seq<string>, key: string)
    requires NoneNames(after, key)
    ensures Get(HeadersOf(before + after), key) == Get(HeadersOf(before), key)
    decreases |after|
  {
    hide Names;
    if after == [] {
      assert before + after == before;
    } else {
      var all, init := before + after, after[..|after| - 1];
      assert all[..|all| - 1] == before + init;
      OtherFieldKeeps(HeadersOf(before + init), after[|after| - 1], key);
      OtherFieldsKeep(before, init, key);
    }
  }

  /** The last line that gives a field decides it, whatever the case of the name and the blanks around name and value. */
  lemma LastFieldReads(before: seq<string>, name: string, value: string, after: seq<string>)
    requires ':' !in name && NoneNames(after, Lower(Strip(name)))
    ensures Get(HeadersOf(before + [name + ":" + value] + after), Lower(Strip(name))) == Some(Strip(value))
  {
    hide Strip, Names;
    var all := before + [name + ":" + value];
    assert all[..|all| - 1] == before;
    FieldReads(HeadersOf(before), name, value);
    GetSet(HeadersOf(before), Lower(Strip(name)), Strip(value), Lower(Strip(name)));
    OtherFieldsKeep(all, after, Lower(Strip(name)));
  }

  /** A field no line gives is not there. */
  lemma UnnamedFieldIsAbsent(lines: seq<string>, key: string)
    requires NoneNames(lines, key)
    ensures Get(HeadersOf(lines), key) == None
  {
    assert [] + lines == lines;
    OtherFieldsKeep([], lines, key);
  }

  /** One more line of the printer. */
  lemma ReadsNext(lines: seq<string>, key: string, value: string, name: string)
    requires ':' !in key && Trimmed(key)
    ensures Get(HeadersOf(lines + [key + ": " + value]), name)
            == if name == Lower(key) then Some(Strip(" " + value)) else Get(HeadersOf(lines), name)
  {
    hide Strip;
    var all := lines + [key + ": " + value];
    assert all[..|all| - 1] == lines;
    assert key + ": " + value == key + ":" + (" " + value);
    FieldReads(HeadersOf(lines), key, " " + value);
    StripTrimmed(key, TextBlanks);
    GetSet(HeadersOf(lines), Lower(key), Strip(" " + value), name);
  }
}
