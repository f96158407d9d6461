/** Where a response may be cut without spoiling the decision to store it. */
module StatusCuts {
  import opened Options
  import opened Text
  import opened HeadLines
  import opened ResponseRelay

  // ----- cuts -----

  /** Where the i-th chunk starts. */
  function Offset(chunks: seq<string>, i: nat): nat
    requires i <= |chunks|
  {
    |Flatten(chunks[..i])|
  }

  ghost predicate CutAt(chunks: seq<string>, k: nat) {
    exists i: nat :: i <= |chunks| && Offset(chunks, i) == k
  }

  lemma OffsetStep(chunks: seq<string>, i: nat)
    requires i < |chunks|
    ensures Offset(chunks, i + 1) == Offset(chunks, i) + |chunks[i]|
    ensures Flatten(chunks[..i + 1]) == Flatten(chunks[..i]) + chunks[i]
  {
    assert chunks[..i + 1][..i] == chunks[..i];
  }

  lemma OffsetStart(chunks: seq<string>)
    ensures Offset(chunks, 0) == 0
  {
    assert chunks[..0] == [];
  }

  lemma {:induction false} OffsetsGrow(chunks: seq<string>, i: nat, j: nat)
    requires i <= j <= |chunks|
    ensures Offset(chunks, i) <= Offset(chunks, j)
    ensures Flatten(chunks[..i]) <= Flatten(chunks[..j])
    decreases j - i
  {
    if i < j {
      OffsetsGrow(chunks, i, j - 1);
      OffsetStep(chunks, j - 1);
    }
  }

  /** A chunk is the piece between two offsets. */
  lemma ChunkIsPiece(chunks: seq<string>, i: nat)
    requires i < |chunks|
    ensures Offset(chunks, i) <= Offset(chunks, i + 1) <= |Flatten(chunks)|
    ensures chunks[i] == Flatten(chunks)[Offset(chunks, i)..Offset(chunks, i + 1)]
  {
    OffsetStep(chunks, i);
    OffsetsGrow(chunks, i + 1, |chunks|);
    assert chunks[..|chunks|] == chunks;
  }

  /** Some chunk holds each byte. */
  lemma {:induction false} ChunkHolding(chunks: seq<string>, k: nat) returns (i: nat)
    requires k < |Flatten(chunks)|
    ensures i < |chunks| && Offset(chunks, i) <= k < Offset(chunks, i + 1)
    decreases |chunks|
  {
    var last := |chunks| - 1;
    OffsetStep(chunks, last);
    assert chunks[..|chunks|] == chunks;
    if k >= Offset(chunks, last) {
      i := last;
    } else {
      var init := chunks[..last];
      i := ChunkHolding(init, k);
      assert init[..i] == chunks[..i] && init[..i + 1] == chunks[..i + 1];
    }
  }

  lemma NoCutInside(chunks: seq<string>, i: nat, k: nat)
    requires i < |chunks| && Offset(chunks, i) < k < Offset(chunks, i + 1)
    ensures !CutAt(chunks, k)
  {
    forall j: nat | j <= |chunks| ensures Offset(chunks, j) != k {
      if j <= i {
        OffsetsGrow(chunks, j, i);
      } else {
        OffsetsGrow(chunks, i + 1, j);
      }
    }
  }

  // ----- deciding -----

  lemma {:induction false} DecidingStays(chunks: seq<string>, i: nat)
    requires i <= |chunks| && Deciding(chunks[..i]).Some?
    ensures Deciding(chunks) == Deciding(chunks[..i])
    decreases |chunks|
  {
    hide StatusOf;
    if i < |chunks| {
      var init := chunks[..|chunks| - 1];
      assert init[..i] == chunks[..i];
      DecidingStays(init, i);
    } else {
      assert chunks[..i] == chunks;
    }
  }

  lemma {:induction false} DecidingSkips(chunks: seq<string>, i: nat)
    requires i <= |chunks| && Deciding(chunks[..i]) == None
    ensures Deciding(chunks) == Deciding(chunks[i..])
    decreases |chunks|
  {
    hide StatusOf;
    if i < |chunks| {
      var init := chunks[..|chunks| - 1];
      assert init[..i] == chunks[..i];
      DecidingSkips(init, i);
      assert chunks[i..][..|chunks[i..]| - 1] == init[i..];
    } else {
      assert chunks[..i] == chunks && chunks[i..] == [];
    }
  }

  lemma DecidingStep(chunks: seq<string>, i: nat)
    requires i < |chunks|
    ensures Deciding(chunks[..i + 1])
            == if Deciding(chunks[..i]).Some? then Deciding(chunks[..i]) else StatusOf(chunks[i])
  {
    hide StatusOf;
    assert chunks[..i + 1][..i] == chunks[..i];
  }

  // ----- status lines -----

  predicate Unbroken(s: string) {
    forall c :: c in s ==> !IsBlank(c, ByteBlanks)
  }

  /** Version, space, a three-digit code that does not start with a zero, and what follows it. */
  predicate IsResponse(version: string, code: string, rest: string) {
    && version != "" && Unbroken(version)
    && |code| == 3 && (forall c :: c in code ==> IsDigit(c)) && code[0] != '0'
    && (rest == "" || IsBlank(rest[0], ByteBlanks))
  }

  function TextOf(version: string, code: string, rest: string): string {
    version + " " + code + rest
  }

  function DigitOf(c: char): nat {
    if IsDigit(c) then (c - '0') as nat else 0
  }

  /** The number some digits read as. */
  function ValueOf(digits: string): nat {
    if digits == "" then 0 else 10 * ValueOf(digits[..|digits| - 1]) + DigitOf(digits[|digits| - 1])
  }

  lemma {:induction false} DigitsRead(digits: string)
    requires digits != "" && forall c :: c in digits ==> IsDigit(c)
    ensures ParseNat(digits) == Some(ValueOf(digits)) && ParseInt(digits) == Some(ValueOf(digits))
    decreases |digits|
  {
    var init := digits[..|digits| - 1];
    assert digits[0] in digits && digits[|digits| - 1] in digits;
    assert forall c :: c in init ==> c in digits;
    if init != "" {
      DigitsRead(init);
      assert init[|init| - 1] in init;
    }
    DigitsAreTrimmed(digits);
  }

  lemma ValueStep(digits: string, c: char)
    ensures ValueOf(digits + [c]) == 10 * ValueOf(digits) + DigitOf(c)
  {
    assert (digits + [c])[..|digits|] == digits;
  }

  lemma DigitOfIs(c: char)
    requires IsDigit(c)
    ensures DigitOf(c) <= 9 && (DigitOf(c) == 0 <==> c == '0') && (DigitOf(c) == 2 <==> c == '2')
  {
  }

  lemma ValueOfNothing()
    ensures ValueOf("") == 0
  {
  }

  /** Only the whole code can read as 200, and nothing of it as 0. */
  lemma CodeBeginnings(code: string, k: nat)
    requires |code| == 3 && (forall c :: c in code ==> IsDigit(c)) && code[0] != '0' && 1 <= k <= 3
    ensures ValueOf(code[..k]) != 0 && (ValueOf(code[..k]) == 200 <==> k == 3 && code == "200")
  {
    hide ValueOf, DigitOf;
    var a, b, c := code[0], code[1], code[2];
    assert a in code && b in code && c in code;
    DigitOfIs(a);
    DigitOfIs(b);
    DigitOfIs(c);
    ValueOfNothing();
    ValueStep("", a);
    ValueStep([a], b);
    ValueStep([a, b], c);
    assert "" + [a] == [a] == code[..1] && [a] + [b] == [a, b] == code[..2] && [a, b] + [c] == [a, b, c] == code[..3] == code;
  }

  // ----- what one chunk yields -----

  /** A single word has no status, with or without a space behind it. */
  lemma OneWord(word: string)
    requires Unbroken(word)
    ensures StatusOf(word) == None && StatusOf(word + " ") == None
  {
    hide FindFrom, ParseInt;
    NoLineBreak(word);
    NoLineBreak(word + " ");
    assert LStrip("", ByteBlanks) == "" && LStrip(" ", ByteBlanks) == "";
    if word == "" {
      assert word + " " == " ";
    } else {
      FieldsStep(word, "", 2, ByteBlanks);
      assert word + "" == word;
      FieldsStep(word, " ", 2, ByteBlanks);
    }
  }

  /** A word, a space and digits yield those digits, whatever follows them. */
  lemma DigitsDecide(left: string, digits: string, tail: string)
    requires left != "" && Unbroken(left) && digits != "" && Unbroken(digits)
    requires tail == "" || IsBlank(tail[0], ByteBlanks)
    ensures StatusOf(left + " " + digits + tail) == ParseInt(digits)
  {
    hide FindFrom, ParseInt, Fields;
    var s, n := left + " " + digits + tail, |left| + 1 + |digits|;
    forall j | 0 <= j < n ensures s[j] != '\r' {
      assert s[j] == if j < |left| then left[j] else if j == |left| then ' ' else digits[j - |left| - 1];
      assert j < |left| ==> left[j] in left;
      assert j > |left| ==> digits[j - |left| - 1] in digits;
    }
    var r := Find(s, "\r\n");
    if r.Some? {
      var i := r.value;
      assert s[i..i + 2] == "\r\n" && s[i] == '\r';
      assert s[..i] == left + " " + digits + tail[..i - n];
      NumberWord(left, digits, tail[..i - n]);
    } else {
      NumberWord(left, digits, tail);
    }
  }

  lemma InsideVersion(version: string, code: string, rest: string, p: nat, q: nat)
    requires IsResponse(version, code, rest) && p <= q <= |version| + 1
    ensures StatusOf(TextOf(version, code, rest)[p..q]) == None
  {
    hide StatusOf;
    var text := TextOf(version, code, rest);
    if q <= |version| {
      assert text[p..q] == version[p..q];
      assert forall c :: c in version[p..q] ==> c in version;
      OneWord(version[p..q]);
    } else if p <= |version| {
      assert text[p..q] == version[p..] + " ";
      assert forall c :: c in version[p..] ==> c in version;
      OneWord(version[p..]);
    } else {
      assert text[p..q] == "";
      OneWord("");
    }
  }

  lemma DigitsAreUnbroken(digits: string)
    requires forall c :: c in digits ==> IsDigit(c)
    ensures Unbroken(digits)
  {
  }

  /** A chunk that starts in the version and reaches into the code yields as much of the code as it holds. */
  lemma AcrossTheSpace(version: string, code: string, rest: string, p: nat, q: nat)
    requires IsResponse(version, code, rest)
    requires p < |version| && |version| + 1 < q <= |TextOf(version, code, rest)|
    ensures var k := if q - |version| - 1 < 3 then q - |version| - 1 else 3;
            StatusOf(TextOf(version, code, rest)[p..q]) == Some(ValueOf(code[..k]))
  {
    hide StatusOf, ParseInt, ValueOf;
    var text := TextOf(version, code, rest);
    var left := version[p..];
    var k := if q - |version| - 1 < 3 then q - |version| - 1 else 3;
    assert (forall c :: c in left ==> c in version) && (forall c :: c in code[..k] ==> c in code);
    var tail := if k < 3 then "" else rest[..q - |version| - 4];
    assert text[p..q] == left + " " + code[..k] + tail;
    DigitsAreUnbroken(code[..k]);
    DigitsDecide(left, code[..k], tail);
    DigitsRead(code[..k]);
  }

  // ----- what a cut response yields -----

  /** Up to the space after the version nothing is decided. */
  lemma {:induction false} QuietUntilSpace(version: string, code: string, rest: string, chunks: seq<string>, i: nat)
    requires IsResponse(version, code, rest) && Flatten(chunks) == TextOf(version, code, rest)
    requires i <= |chunks| && Offset(chunks, i) <= |version| + 1
    ensures Deciding(chunks[..i]) == None
  {
    hide StatusOf, IsResponse, TextOf, Offset;
    if i == 0 {
      assert chunks[..0] == [];
    } else {
      OffsetsGrow(chunks, i - 1, i);
      QuietUntilSpace(version, code, rest, chunks, i - 1);
      ChunkIsPiece(chunks, i - 1);
      InsideVersion(version, code, rest, Offset(chunks, i - 1), Offset(chunks, i));
      DecidingStep(chunks, i - 1);
    }
  }

  /** The chunk across the space decides. */
  lemma DecidedByCode(version: string, code: string, rest: string, chunks: seq<string>, i: nat)
    requires IsResponse(version, code, rest) && Flatten(chunks) == TextOf(version, code, rest)
    requires i < |chunks| && Offset(chunks, i) < |version| && |version| + 1 < Offset(chunks, i + 1)
    ensures var k := if Offset(chunks, i + 1) - |version| - 1 < 3 then Offset(chunks, i + 1) - |version| - 1 else 3;
            Deciding(chunks) == Some(ValueOf(code[..k]))
  {
    hide StatusOf, TextOf, Offset, ValueOf, Flatten, Deciding, IsResponse;
    QuietUntilSpace(version, code, rest, chunks, i);
    ChunkIsPiece(chunks, i);
    AcrossTheSpace(version, code, rest, Offset(chunks, i), Offset(chunks, i + 1));
    DecidingStep(chunks, i);
    DecidingStays(chunks, i + 1);
  }

  // ----- the law, and where it holds -----

  /** A GET is stored when it should be: when its status is 200. */
  ghost predicate StoredAsItShould(chunks: seq<string>, code: string, limit: nat) {
    StoreOf(AfterChunks("GET", chunks, limit)).Some? <==> code == "200"
  }

  lemma StoredIffAcceptable(chunks: seq<string>, limit: nat)
    requires Flatten(chunks) != "" && |Flatten(chunks)| <= limit
    ensures StoreOf(AfterChunks("GET", chunks, limit)).Some? <==> Acceptable(Deciding(chunks))
  {
    ProgressMeans("GET", chunks, limit);
  }

  /** A cut beside neither end of the space: stored exactly when the code is 200 and no cut falls inside it. */
  lemma StoredByCutIff(version: string, code: string, rest: string, chunks: seq<string>, limit: nat)
    requires IsResponse(version, code, rest) && Flatten(chunks) == TextOf(version, code, rest)
    requires |Flatten(chunks)| <= limit
    requires !CutAt(chunks, |version|) && !CutAt(chunks, |version| + 1)
    ensures StoreOf(AfterChunks("GET", chunks, limit)).Some?
            <==> code == "200" && !CutAt(chunks, |version| + 2) && !CutAt(chunks, |version| + 3)
  {
    hide StatusOf, StoreOf, AfterChunks, Deciding, Flatten, Offset, ValueOf;
    var v := |version|;
    var i := ChunkHolding(chunks, v);
    var q := Offset(chunks, i + 1);
    assert Offset(chunks, i) != v && q != v + 1;
    DecidedByCode(version, code, rest, chunks, i);
    var k := if q - v - 1 < 3 then q - v - 1 else 3;
    CodeBeginnings(code, k);
    StoredIffAcceptable(chunks, limit);
    if k == 3 {
      NoCutInside(chunks, i, v + 2);
      NoCutInside(chunks, i, v + 3);
    }
  }

  /** A cut at an end of the space: the code is never read, and what comes after the cut decides alone. */
  lemma StoredUnread(version: string, code: string, rest: string, chunks: seq<string>, i: nat, limit: nat)
    requires IsResponse(version, code, rest) && Flatten(chunks) == TextOf(version, code, rest)
    requires |Flatten(chunks)| <= limit && i <= |chunks|
    requires |version| <= Offset(chunks, i) <= |version| + 1
    ensures StoreOf(AfterChunks("GET", chunks, limit)).Some? <==> Acceptable(Deciding(chunks[i..]))
  {
    hide StatusOf, StoreOf, AfterChunks, Deciding, Flatten, Offset;
    QuietUntilSpace(version, code, rest, chunks, i);
    DecidingSkips(chunks, i);
    StoredIffAcceptable(chunks, limit);
  }

  /** In terms of the first chunk, when it reaches into the code: stored exactly when it holds all of a 200. */
  lemma StoredByFirstChunkIff(version: string, code: string, rest: string, turns: seq<Turn>, limit: nat)
    requires IsResponse(version, code, rest) && Complete(turns, TextOf(version, code, rest))
    requires |TextOf(version, code, rest)| <= limit && |turns[0].data| > |version| + 1
    ensures StoreOf(AfterChunks("GET", Chunks(turns), limit)).Some?
            <==> code == "200" && |turns[0].data| >= |version| + 4
  {
    hide StatusOf, StoreOf, AfterChunks, Deciding, ValueOf, Offset;
    var chunks := Chunks(turns);
    ChunksOfComplete(turns);
    assert chunks != [] by {
      assert Flatten([]) == "";
    }
    OffsetStep(chunks, 0);
    OffsetStart(chunks);
    DecidedByCode(version, code, rest, chunks, 0);
    CodeBeginnings(code, if |turns[0].data| - |version| - 1 < 3 then |turns[0].data| - |version| - 1 else 3);
    StoredIffAcceptable(chunks, limit);
  }

  // ----- exactly which cuts are safe -----

  function Sum(sizes: seq<nat>): nat {
    if sizes == [] then 0 else Sum(sizes[..|sizes| - 1]) + sizes[|sizes| - 1]
  }

  /** The chunks of a text cut into pieces of given sizes. */
  function Cut(text: string, sizes: seq<nat>): (chunks: seq<string>)
    requires Sum(sizes) == |text|
    ensures |chunks| == |sizes| && Flatten(chunks) == text
    decreases |sizes|
  {
    if sizes == [] then []
    else
      var n := |text| - sizes[|sizes| - 1];
      var chunks := Cut(text[..n], sizes[..|sizes| - 1]);
      assert (chunks + [text[n..]])[..|chunks|] == chunks;
      chunks + [text[n..]]
  }

  lemma {:induction false} CutOffsets(text: string, sizes: seq<nat>, i: nat)
    requires Sum(sizes) == |text| && i <= |sizes|
    ensures Offset(Cut(text, sizes), i) == Sum(sizes[..i])
    decreases |sizes|
  {
    var chunks := Cut(text, sizes);
    if i == |sizes| {
      assert chunks[..i] == chunks && sizes[..i] == sizes;
    } else {
      var n := |text| - sizes[|sizes| - 1];
      var before := Cut(text[..n], sizes[..|sizes| - 1]);
      CutOffsets(text[..n], sizes[..|sizes| - 1], i);
      assert chunks[..i] == before[..i] && sizes[..|sizes| - 1][..i] == sizes[..i];
    }
  }

  /** A cut falls after `k` bytes. */
  ghost predicate BoundaryAt(sizes: seq<nat>, k: nat) {
    exists i: nat :: i <= |sizes| && Sum(sizes[..i]) == k
  }

  lemma BoundariesAreCuts(text: string, sizes: seq<nat>, k: nat)
    requires Sum(sizes) == |text|
    ensures CutAt(Cut(text, sizes), k) <==> BoundaryAt(sizes, k)
  {
    hide Cut, Sum, Offset;
    forall i: nat | i <= |sizes| ensures Offset(Cut(text, sizes), i) == Sum(sizes[..i]) {
      CutOffsets(text, sizes, i);
    }
  }

  /** Whatever the code and the rest of a response of this length, the cut does not spoil the decision. */
  ghost predicate SafeCut(version: string, sizes: seq<nat>, limit: nat) {
    forall code, rest :: IsResponse(version, code, rest) && |TextOf(version, code, rest)| == Sum(sizes) ==>
      StoredAsItShould(Cut(TextOf(version, code, rest), sizes), code, limit)
  }

  function Spaces(n: nat): string {
    seq(n, _ => ' ')
  }

  lemma {:induction false} SpacesStrip(n: nat, s: string)
    ensures LStrip(Spaces(n) + s, ByteBlanks) == LStrip(s, ByteBlanks)
  {
    if n == 0 {
      assert Spaces(0) + s == s;
    } else {
      SpacesStrip(n - 1, s);
      assert (Spaces(n) + s)[1..] == Spaces(n - 1) + s;
    }
  }

  lemma NothingStrips(n: nat)
    ensures LStrip(Spaces(n), ByteBlanks) == ""
  {
    SpacesStrip(n, "");
    assert Spaces(n) + "" == Spaces(n);
  }

  function Padded(before: nat, word: string, after: nat): string {
    Spaces(before) + word + Spaces(after)
  }

  /** One word among spaces has no status. */
  lemma PaddedWord(before: nat, word: string, after: nat)
    requires Unbroken(word)
    ensures StatusOf(Padded(before, word, after)) == None
  {
    hide FindFrom, ParseInt, LStrip;
    var s := Padded(before, word, after);
    assert s == Spaces(before) + (word + Spaces(after));
    NoLineBreak(s);
    SpacesStrip(before, word + Spaces(after));
    NothingStrips(after);
    if word == "" {
      assert word + Spaces(after) == Spaces(after);
    } else {
      FieldsStep(word, Spaces(after), 2, ByteBlanks);
      assert Fields(s, 2, ByteBlanks) == Fields(word + Spaces(after), 2, ByteBlanks);
    }
  }

  lemma UnbrokenPiece(word: string, i: nat, j: nat)
    requires Unbroken(word) && i <= j <= |word|
    ensures Unbroken(word[i..j])
  {
  }

  /** A beginning of a padded word is one, and so is an end. */
  lemma TakePadded(before: nat, word: string, after: nat, q: nat) returns (b: nat, w: string, a: nat)
    requires Unbroken(word) && q <= |Padded(before, word, after)|
    ensures Unbroken(w) && Padded(before, word, after)[..q] == Padded(b, w, a)
  {
    hide Unbroken;
    if q <= before {
      b, w, a := q, word[0..0], 0;
      UnbrokenPiece(word, 0, 0);
    } else if q <= before + |word| {
      b, w, a := before, word[0..q - before], 0;
      UnbrokenPiece(word, 0, q - before);
    } else {
      b, w, a := before, word, q - before - |word|;
    }
    assert Padded(before, word, after)[..q] == Padded(b, w, a);
  }

  lemma DropPadded(before: nat, word: string, after: nat, p: nat) returns (b: nat, w: string, a: nat)
    requires Unbroken(word) && p <= |Padded(before, word, after)|
    ensures Unbroken(w) && Padded(before, word, after)[p..] == Padded(b, w, a)
  {
    hide Unbroken;
    if p <= before {
      b, w, a := before - p, word, after;
    } else if p <= before + |word| {
      b, w, a := 0, word[p - before..|word|], after;
      UnbrokenPiece(word, p - before, |word|);
    } else {
      b, w, a := 0, word[0..0], after - (p - before - |word|);
      UnbrokenPiece(word, 0, 0);
    }
    assert Padded(before, word, after)[p..] == Padded(b, w, a);
  }

  lemma AfterVersion(version: string, code: string, m: nat)
    ensures TextOf(version, code, Spaces(m))[|version|..] == Padded(1, code, m)
  {
    assert Spaces(1) == " ";
  }

  lemma SliceTwice(s: string, v: nat, p: nat, q: nat)
    requires v <= p <= q <= |s|
    ensures s[p..q] == s[v..][..q - v][p - v..]
  {
  }

  /** A response that says nothing but its code: no piece from the space on yields a status. */
  lemma PieceAfterSpace(version: string, code: string, m: nat, p: nat, q: nat)
    requires IsResponse(version, code, Spaces(m)) && |version| <= p <= q <= |TextOf(version, code, Spaces(m))|
    ensures StatusOf(TextOf(version, code, Spaces(m))[p..q]) == None
  {
    hide StatusOf, Unbroken, Spaces, Padded, TextOf;
    var v := |version|;
    AfterVersion(version, code, m);
    DigitsAreUnbroken(code);
    var b, w, a := TakePadded(1, code, m, q - v);
    var b', w', a' := DropPadded(b, w, a, p - v);
    SliceTwice(TextOf(version, code, Spaces(m)), v, p, q);
    PaddedWord(b', w', a');
  }

  lemma {:induction false} AllQuiet(chunks: seq<string>)
    requires forall i :: 0 <= i < |chunks| ==> StatusOf(chunks[i]) == None
    ensures Deciding(chunks) == None
    decreases |chunks|
  {
    hide StatusOf;
    if chunks != [] {
      AllQuiet(chunks[..|chunks| - 1]);
    }
  }

  /** A cut at an end of the space has this response stored, whatever its code. */
  lemma UnreadIsStored(version: string, code: string, m: nat, chunks: seq<string>, i: nat, limit: nat)
    requires IsResponse(version, code, Spaces(m)) && Flatten(chunks) == TextOf(version, code, Spaces(m))
    requires |Flatten(chunks)| <= limit && i <= |chunks| && |version| <= Offset(chunks, i) <= |version| + 1
    ensures StoreOf(AfterChunks("GET", chunks, limit)).Some?
  {
    hide StatusOf, StoreOf, AfterChunks, Flatten, Offset, Deciding, TextOf, IsResponse;
    var tail := chunks[i..];
    forall j | 0 <= j < |tail| ensures StatusOf(tail[j]) == None {
      ChunkIsPiece(chunks, i + j);
      OffsetsGrow(chunks, i, i + j);
      PieceAfterSpace(version, code, m, Offset(chunks, i + j), Offset(chunks, i + j + 1));
    }
    AllQuiet(tail);
    StoredUnread(version, code, Spaces(m), chunks, i, limit);
  }

  lemma UnsafeAtSpace(version: string, sizes: seq<nat>, limit: nat, k: nat)
    requires version != "" && Unbroken(version) && |version| + 4 <= Sum(sizes) <= limit
    requires |version| <= k <= |version| + 1 && BoundaryAt(sizes, k)
    ensures !SafeCut(version, sizes, limit)
  {
    hide Sum, Cut, StoreOf, AfterChunks, Flatten, Offset;
    var m := Sum(sizes) - |version| - 4;
    var text := TextOf(version, "404", Spaces(m));
    assert IsResponse(version, "404", Spaces(m)) && |text| == Sum(sizes);
    var i: nat :| i <= |sizes| && Sum(sizes[..i]) == k;
    CutOffsets(text, sizes, i);
    UnreadIsStored(version, "404", m, Cut(text, sizes), i, limit);
    assert "404"[0] != "200"[0];
    assert !StoredAsItShould(Cut(text, sizes), "404", limit);
  }

  lemma UnsafeInCode(version: string, sizes: seq<nat>, limit: nat)
    requires version != "" && Unbroken(version) && |version| + 4 <= Sum(sizes) <= limit
    requires !BoundaryAt(sizes, |version|) && !BoundaryAt(sizes, |version| + 1)
    requires BoundaryAt(sizes, |version| + 2) || BoundaryAt(sizes, |version| + 3)
    ensures !SafeCut(version, sizes, limit)
  {
    hide Sum, Cut, StoreOf, AfterChunks, Flatten, Offset, BoundaryAt, CutAt;
    var m := Sum(sizes) - |version| - 4;
    var text := TextOf(version, "200", Spaces(m));
    assert IsResponse(version, "200", Spaces(m)) && |text| == Sum(sizes);
    BoundariesAreCuts(text, sizes, |version|);
    BoundariesAreCuts(text, sizes, |version| + 1);
    BoundariesAreCuts(text, sizes, |version| + 2);
    BoundariesAreCuts(text, sizes, |version| + 3);
    StoredByCutIff(version, "200", Spaces(m), Cut(text, sizes), limit);
    assert !StoredAsItShould(Cut(text, sizes), "200", limit);
  }

  /** Exactly the safe cuts: storing a GET depends on its status and not on its chunks if and only if no chunk ends
      at the space after the version, right behind it, or inside the code. */
  lemma CutIsSafeIff(version: string, sizes: seq<nat>, limit: nat)
    requires version != "" && Unbroken(version) && |version| + 4 <= Sum(sizes) <= limit
    ensures SafeCut(version, sizes, limit)
            <==> forall k :: |version| <= k <= |version| + 3 ==> !BoundaryAt(sizes, k)
  {
    hide Sum, Cut, StoreOf, AfterChunks, Flatten, Offset, BoundaryAt, CutAt, IsResponse, TextOf;
    var v := |version|;
    if BoundaryAt(sizes, v) {
      UnsafeAtSpace(version, sizes, limit, v);
    } else if BoundaryAt(sizes, v + 1) {
      UnsafeAtSpace(version, sizes, limit, v + 1);
    } else if BoundaryAt(sizes, v + 2) || BoundaryAt(sizes, v + 3) {
      UnsafeInCode(version, sizes, limit);
    } else {
      forall code, rest | IsResponse(version, code, rest) && |TextOf(version, code, rest)| == Sum(sizes)
        ensures StoredAsItShould(Cut(TextOf(version, code, rest), sizes), code, limit)
      {
        var text := TextOf(version, code, rest);
        BoundariesAreCuts(text, sizes, v);
        BoundariesAreCuts(text, sizes, v + 1);
        BoundariesAreCuts(text, sizes, v + 2);
        BoundariesAreCuts(text, sizes, v + 3);
        StoredByCutIff(version, code, rest, Cut(text, sizes), limit);
      }
    }
  }
}
