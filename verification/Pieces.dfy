/** Splitting at one character. */
module Pieces {
  import opened Options
  import opened Text

  lemma CharOccurs(s: string, c: char, i: int)
    ensures OccursAt(s, [c], i) <==> 0 <= i < |s| && s[i] == c
  {
    if 0 <= i < |s| {
      assert s[i..i + 1] == [s[i]];
    }
  }

  lemma FirstPiece(piece: string, rest: string, c: char)
    requires c !in piece
    ensures Split(piece + [c] + rest, [c]) == [piece] + Split(rest, [c])
  {
    var s := piece + [c] + rest;
    CharOccurs(s, c, |piece|);
    forall j | 0 <= j < |piece| ensures !OccursAt(s, [c], j) {
      CharOccurs(s, c, j);
      assert s[j] == piece[j] && piece[j] in piece;
    }
    FindIs(s, [c], |piece|);
    assert s[..|piece|] == piece && s[|piece| + 1..] == rest;
  }

  lemma OnlyPiece(piece: string, c: char)
    requires c !in piece
    ensures Split(piece, [c]) == [piece]
  {
    forall j ensures !OccursAt(piece, [c], j) {
      CharOccurs(piece, c, j);
    }
  }

  /** Joining undoes splitting. */
  lemma {:induction false} JoinSplit(s: string, c: char)
    ensures Join(Split(s, [c]), [c]) == s
    decreases |s|
  {
    var r := Find(s, [c]);
    if r.Some? {
      var rest := s[r.value + 1..];
      CharOccurs(s, c, r.value);
      JoinSplit(rest, c);
      assert Split(s, [c])[1..] == Split(rest, [c]);
      assert s == s[..r.value] + [c] + rest;
    }
  }

  lemma {:induction false} PiecesHaveNoMark(s: string, c: char)
    ensures forall i :: 0 <= i < |Split(s, [c])| ==> c !in Split(s, [c])[i]
    decreases |s|
  {
    var r := Find(s, [c]);
    if r.Some? {
      PiecesHaveNoMark(s[r.value + 1..], c);
    }
    forall j | 0 <= j < (if r.Some? then r.value else |s|) ensures s[j] != c {
      CharOccurs(s, c, j);
    }
  }

  /** Splitting a text in two at the character splits its pieces in two. */
  lemma {:induction false} SplitConcat(a: string, b: string, c: char)
    ensures Split(a + [c] + b, [c]) == Split(a, [c]) + Split(b, [c])
    decreases |a|
  {
    hide Split, FindChar;
    match FindChar(a, c)
    case None =>
      FirstPiece(a, b, c);
      OnlyPiece(a, c);
    case Some(i) =>
      var head, rest := a[..i], a[i + 1..];
      assert a == head + [c] + rest;
      FirstPiece(head, rest, c);
      assert a + [c] + b == head + [c] + (rest + [c] + b);
      FirstPiece(head, rest + [c] + b, c);
      SplitConcat(rest, b, c);
      assert [head] + Split(rest, [c]) + Split(b, [c]) == [head] + (Split(rest, [c]) + Split(b, [c]));
  }

  lemma {:induction false} JoinConcat(first: seq<string>, second: seq<string>, sep: string)
    requires first != [] && second != []
    ensures Join(first + second, sep) == Join(first, sep) + sep + Join(second, sep)
  {
    var all := first + second;
    assert all[1..] == first[1..] + second;
    if |first| == 1 {
      assert all[1..] == second;
    } else {
      JoinConcat(first[1..], second, sep);
      assert Join(all, sep) == first[0] + sep + (Join(first[1..], sep) + sep + Join(second, sep));
    }
  }
}
