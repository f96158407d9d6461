/** The string operations the parsers and printers use, on text of one character per byte. */
module Text {
  import opened Options

  // ----- blanks -----

  /** Strings treat four control separators as blank; byte strings and number parsing do not. */
  datatype Blanks = TextBlanks | ByteBlanks

  predicate IsBlank(c: char, blanks: Blanks) {
    '\t' <= c <= '\r' || c == ' ' || (blanks.TextBlanks? && '\U{1c}' <= c <= '\U{1f}')
  }

  function LStrip(s: string, blanks: Blanks): string {
    if s != "" && IsBlank(s[0], blanks) then LStrip(s[1..], blanks) else s
  }

  function RStrip(s: string, blanks: Blanks): string {
    if s != "" && IsBlank(s[|s| - 1], blanks) then RStrip(s[..|s| - 1], blanks) else s
  }

  function Strip(s: string, blanks: Blanks := TextBlanks): string {
    RStrip(LStrip(s, blanks), blanks)
  }

  /** No blanks at either end. */
  predicate Trimmed(s: string, blanks: Blanks := TextBlanks) {
    s == "" || (!IsBlank(s[0], blanks) && !IsBlank(s[|s| - 1], blanks))
  }

  /** No blanks anywhere. */
  predicate Solid(s: string) {
    forall c :: c in s ==> !IsBlank(c, TextBlanks)
  }

  lemma {:induction false} LStripIsSuffix(s: string, blanks: Blanks) returns (i: nat)
    ensures i <= |s| && LStrip(s, blanks) == s[i..]
    ensures LStrip(s, blanks) != "" ==> !IsBlank(LStrip(s, blanks)[0], blanks)
  {
    if s != "" && IsBlank(s[0], blanks) {
      var j := LStripIsSuffix(s[1..], blanks);
      i := j + 1;
    } else {
      i := 0;
    }
  }

  lemma {:induction false} RStripIsPrefix(s: string, blanks: Blanks) returns (j: nat)
    ensures j <= |s| && RStrip(s, blanks) == s[..j]
    ensures j > 0 ==> !IsBlank(s[j - 1], blanks)
    ensures j < |s| ==> IsBlank(s[|s| - 1], blanks)
  {
    if s != "" && IsBlank(s[|s| - 1], blanks) {
      j := RStripIsPrefix(s[..|s| - 1], blanks);
    } else {
      j := |s|;
    }
  }

  /** Stripping cuts out a trimmed piece. */
  lemma StripIsPiece(s: string, blanks: Blanks) returns (i: nat, j: nat)
    ensures i <= j <= |s| && Strip(s, blanks) == s[i..j] && Trimmed(Strip(s, blanks), blanks)
  {
    hide LStrip, RStrip, IsBlank;
    i := LStripIsSuffix(s, blanks);
    var t := LStrip(s, blanks);
    var k := RStripIsPrefix(t, blanks);
    j := i + k;
    assert t[..k] == s[i..j];
    assert k > 0 ==> t[..k][0] == t[0] && t[..k][k - 1] == t[k - 1];
  }

  lemma StripTrimmed(s: string, blanks: Blanks)
    requires Trimmed(s, blanks)
    ensures Strip(s, blanks) == s
  {
  }

  /** A single leading space goes away. */
  lemma StripPadded(s: string)
    requires Trimmed(s)
    ensures Strip(" " + s) == s
  {
    var padded := " " + s;
    assert padded[0] == ' ' && padded[1..] == s;
    assert LStrip(padded, TextBlanks) == LStrip(s, TextBlanks) == s;
  }

  predicate Blank(s: string) {
    forall i :: 0 <= i < |s| ==> IsBlank(s[i], TextBlanks)
  }

  lemma {:induction false} LStripBlanks(left: string, s: string)
    requires Blank(left) && Trimmed(s)
    ensures LStrip(left + s, TextBlanks) == s
  {
    if left == "" {
      assert left + s == s;
    } else {
      assert (left + s)[1..] == left[1..] + s;
      LStripBlanks(left[1..], s);
    }
  }

  lemma {:induction false} RStripBlanks(s: string, right: string)
    requires Blank(right) && Trimmed(s)
    ensures RStrip(s + right, TextBlanks) == s
  {
    if right == "" {
      assert s + right == s;
    } else {
      assert (s + right)[..|s + right| - 1] == s + right[..|right| - 1];
      RStripBlanks(s, right[..|right| - 1]);
    }
  }

  /** Stripping takes away the blanks at both ends, and nothing else. */
  lemma {:induction false} StripBetween(left: string, s: string, right: string)
    requires Blank(left) && Blank(right) && Trimmed(s)
    ensures Strip(left + s + right) == s
  {
    if left == "" {
      assert left + s + right == s + right;
      if s == "" {
        assert s + right == right + "";
        LStripBlanks(right, "");
      } else {
        RStripBlanks(s, right);
      }
    } else {
      assert (left + s + right)[1..] == left[1..] + s + right;
      StripBetween(left[1..], s, right);
    }
  }

  // ----- case -----

  function LowerChar(c: char): char {
    if 'A' <= c <= 'Z' then c - 'A' + 'a' else c
  }

  function Lower(s: string): (r: string)
    ensures |r| == |s| && forall i :: 0 <= i < |s| ==> r[i] == LowerChar(s[i])
  {
    seq(|s|, i requires 0 <= i < |s| => LowerChar(s[i]))
  }

  predicate LowerCase(s: string) {
    forall i :: 0 <= i < |s| ==> !('A' <= s[i] <= 'Z')
  }

  // ----- finding and splitting -----

  predicate OccursAt(s: string, sep: string, i: int) {
    0 <= i && i + |sep| <= |s| && s[i..i + |sep|] == sep
  }

  function FindFrom(s: string, sep: string, i: nat): (r: Option<nat>)
    ensures r.Some? ==> i <= r.value && OccursAt(s, sep, r.value) && forall j :: i <= j < r.value ==> !OccursAt(s, sep, j)
    ensures r.None? ==> forall j :: i <= j ==> !OccursAt(s, sep, j)
    decreases |s| - i
  {
    if i + |sep| > |s| then None
    else if OccursAt(s, sep, i) then Some(i)
    else FindFrom(s, sep, i + 1)
  }

  /** The first occurrence. */
  function Find(s: string, sep: string): (r: Option<nat>)
    ensures r.Some? ==> OccursAt(s, sep, r.value) && forall j :: 0 <= j < r.value ==> !OccursAt(s, sep, j)
    ensures r.None? ==> forall j :: 0 <= j ==> !OccursAt(s, sep, j)
  {
    FindFrom(s, sep, 0)
  }

  lemma FindIs(s: string, sep: string, i: nat)
    requires OccursAt(s, sep, i) && forall j :: 0 <= j < i ==> !OccursAt(s, sep, j)
    ensures Find(s, sep) == Some(i)
  {
  }

  /** Occurrences inside a prefix are occurrences in the whole. */
  lemma OccursInPrefix(s: string, n: nat, sep: string, i: nat)
    requires n <= |s| && i + |sep| <= n
    ensures OccursAt(s[..n], sep, i) <==> OccursAt(s, sep, i)
  {
    assert s[..n][i..i + |sep|] == s[i..i + |sep|];
  }

  function Split(s: string, sep: string): (parts: seq<string>)
    requires sep != ""
    ensures parts != []
    decreases |s|
  {
    match Find(s, sep)
    case None => [s]
    case Some(i) => [s[..i]] + Split(s[i + |sep|..], sep)
  }

  function Join(parts: seq<string>, sep: string): string {
    if parts == [] then ""
    else if |parts| == 1 then parts[0]
    else parts[0] + sep + Join(parts[1..], sep)
  }

  /** The last occurrence of a character. */
  function FindLast(s: string, c: char): (r: Option<nat>)
    ensures r.Some? ==> r.value < |s| && s[r.value] == c && forall j :: r.value < j < |s| ==> s[j] != c
    ensures r.None? ==> forall j :: 0 <= j < |s| ==> s[j] != c
  {
    if s == "" then None
    else if s[|s| - 1] == c then Some(|s| - 1)
    else FindLast(s[..|s| - 1], c)
  }

  /** The first occurrence of a character. */
  function FindChar(s: string, c: char): (r: Option<nat>)
    ensures r.Some? ==> r.value < |s| && s[r.value] == c && forall j :: 0 <= j < r.value ==> s[j] != c
    ensures r.None? ==> forall j :: 0 <= j < |s| ==> s[j] != c
  {
    if s == "" then None
    else if s[0] == c then Some(0)
    else
      var rest := s[1..];
      var r := FindChar(rest, c);
      assert forall j :: 0 < j < |s| ==> s[j] == rest[j - 1];
      if r.None? then None else Some(r.value + 1)
  }

  predicate StartsWith(s: string, prefix: string) {
    |prefix| <= |s| && s[..|prefix|] == prefix
  }

  predicate EndsWith(s: string, suffix: string) {
    |suffix| <= |s| && s[|s| - |suffix|..] == suffix
  }

  function WordLength(s: string, blanks: Blanks): (n: nat)
    ensures n <= |s|
    ensures forall i :: 0 <= i < n ==> !IsBlank(s[i], blanks)
    ensures n < |s| ==> IsBlank(s[n], blanks)
  {
    if s == "" || IsBlank(s[0], blanks) then 0 else 1 + WordLength(s[1..], blanks)
  }

  /** Splitting at runs of blanks, at most `cuts` times; what remains keeps its trailing blanks. */
  function Fields(s: string, cuts: nat, blanks: Blanks := TextBlanks): seq<string>
    decreases cuts
  {
    var t := LStrip(s, blanks);
    if t == "" then []
    else if cuts == 0 then [t]
    else
      var n := WordLength(t, blanks);
      [t[..n]] + Fields(t[n..], cuts - 1, blanks)
  }

  lemma FieldsStep(word: string, rest: string, cuts: nat, blanks: Blanks)
    requires word != "" && cuts > 0 && (forall c :: c in word ==> !IsBlank(c, blanks))
    requires rest == "" || IsBlank(rest[0], blanks)
    ensures Fields(word + rest, cuts, blanks) == [word] + Fields(rest, cuts - 1, blanks)
  {
    var s := word + rest;
    assert forall i :: 0 <= i < |word| ==> s[i] == word[i] && word[i] in word;
    assert s[..|word|] == word && s[|word|..] == rest;
  }

  lemma FieldsPad(s: string, cuts: nat, blanks: Blanks)
    ensures Fields(" " + s, cuts, blanks) == Fields(s, cuts, blanks)
  {
    var padded := " " + s;
    assert padded[1..] == s;
    assert LStrip(padded, blanks) == LStrip(s, blanks);
  }

  // ----- numbers -----

  predicate IsDigit(c: char) {
    '0' <= c <= '9'
  }

  /** Decimal digits; single underscores may stand between two of them. */
  function ParseNat(s: string): Option<nat> {
    if s == "" || !IsDigit(s[|s| - 1]) then None
    else
      var digit := (s[|s| - 1] - '0') as nat;
      var rest := s[..|s| - 1];
      if rest == "" then Some(digit)
      else
        match ParseNat(if rest[|rest| - 1] == '_' then rest[..|rest| - 1] else rest)
        case None => None
        case Some(v) => Some(10 * v + digit)
  }

  /** Conversion of text to an integer: outer blanks, a sign, decimal digits. */
  function ParseInt(s: string): Option<int> {
    var t := Strip(s, ByteBlanks);
    if t == "" then None
    else
      var signed := t[0] == '-' || t[0] == '+';
      var v := ParseNat(if signed then t[1..] else t);
      if v.None? then None
      else
        var magnitude: int := v.value;
        Some(if t[0] == '-' then -magnitude else magnitude)
  }

  function Decimal(n: nat): (s: string)
    ensures s != "" && forall c :: c in s ==> IsDigit(c)
  {
    if n < 10 then [n as char + '0'] else Decimal(n / 10) + [(n % 10) as char + '0']
  }

  function DecimalInt(z: int): string {
    if z < 0 then "-" + Decimal(-z) else Decimal(z)
  }

  lemma {:induction false} ParseDecimal(n: nat)
    ensures ParseNat(Decimal(n)) == Some(n)
  {
    if n >= 10 {
      var head := Decimal(n / 10);
      ParseDecimal(n / 10);
      assert Decimal(n)[..|head|] == head;
      assert head[|head| - 1] in head;
    }
  }

  lemma DigitsAreTrimmed(s: string)
    requires s != "" && (IsDigit(s[0]) || s[0] == '-') && IsDigit(s[|s| - 1])
    ensures Strip(s, ByteBlanks) == s
  {
    StripTrimmed(s, ByteBlanks);
  }

  /** A printed integer reads back as itself. */
  lemma ParseDecimalInt(z: int)
    ensures ParseInt(DecimalInt(z)) == Some(z)
  {
    hide Decimal, ParseNat, Strip;
    var n: nat := if z < 0 then -z else z;
    var digits := Decimal(n);
    ParseDecimal(n);
    assert digits[0] in digits && digits[|digits| - 1] in digits;
    if z < 0 {
      var signed := "-" + digits;
      assert signed[1..] == digits && signed[|signed| - 1] == digits[|digits| - 1];
      DigitsAreTrimmed(signed);
    } else {
      DigitsAreTrimmed(digits);
    }
  }
}
