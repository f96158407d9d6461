/** Stored credentials: printing a salted hash, and checking a password against what is stored. */
module PasswordHash {
  import opened Options
  import opened Pieces
  import opened Text

  type Byte = b: int | 0 <= b < 256

  /** PBKDF2-HMAC-SHA256 over password, salt, iteration count and key length. */
  type Kdf = (string, seq<Byte>, int, nat) -> seq<Byte>

  const ITERATIONS := 600000
  const KEY_LENGTH := 32
  const PREFIX := "pbkdf2"
  const MOST_ITERATIONS := 0x7fff_ffff

  /** The key has the length asked for. */
  ghost predicate Lawful(kdf: Kdf) {
    forall plain, salt, iterations, length :: |kdf(plain, salt, iterations, length)| == length
  }

  // ----- hexadecimal -----

  function HexDigit(n: int): char
    requires 0 <= n < 16
  {
    "0123456789abcdef"[n]
  }

  function HexValue(c: char): Option<int> {
    if '0' <= c <= '9' then Some((c - '0') as int)
    else if 'a' <= c <= 'f' then Some((c - 'a') as int + 10)
    else if 'A' <= c <= 'F' then Some((c - 'A') as int + 10)
    else None
  }

  function Hex(bytes: seq<Byte>): string {
    if bytes == [] then "" else [HexDigit(bytes[0] / 16), HexDigit(bytes[0] % 16)] + Hex(bytes[1..])
  }

  /** Pairs of hexadecimal digits, with blanks between pairs; anything else is refused. */
  function FromHex(s: string): Option<seq<Byte>> {
    if s == "" then Some([])
    else if IsBlank(s[0], ByteBlanks) then FromHex(s[1..])
    else if |s| == 1 then None
    else
      var high, low := HexValue(s[0]), HexValue(s[1]);
      if high.None? || low.None? || !(0 <= high.value < 16 && 0 <= low.value < 16) then None
      else
        match FromHex(s[2..])
        case None => None
        case Some(rest) => Some([16 * high.value + low.value] + rest)
  }

  lemma HexDigitReads(n: int)
    requires 0 <= n < 16
    ensures HexValue(HexDigit(n)) == Some(n) && HexDigit(n) != '$'
    ensures !IsBlank(HexDigit(n), TextBlanks) && !IsBlank(HexDigit(n), ByteBlanks)
  {
  }

  lemma {:induction false} HexRoundTrip(bytes: seq<Byte>)
    ensures FromHex(Hex(bytes)) == Some(bytes)
    ensures forall c :: c in Hex(bytes) ==> c != '$' && !IsBlank(c, TextBlanks)
  {
    hide HexDigit, HexValue, IsBlank;
    if bytes != [] {
      var b, s := bytes[0], Hex(bytes);
      HexDigitReads(b / 16);
      HexDigitReads(b % 16);
      HexRoundTrip(bytes[1..]);
      assert s[2..] == Hex(bytes[1..]) && [b] + bytes[1..] == bytes;
    }
  }

  // ----- hashing and checking -----

  function Printed(salt: seq<Byte>, key: seq<Byte>): string {
    PREFIX + "$" + Decimal(ITERATIONS) + "$" + Hex(salt) + "$" + Hex(key)
  }

  function HashPassword(kdf: Kdf, salt: seq<Byte>, plain: string): string {
    Printed(salt, kdf(plain, salt, ITERATIONS, KEY_LENGTH))
  }

  /** A check answers, or raises. */
  datatype Check = Verdict(ok: bool) | Raised

  predicate IsAscii(s: string) {
    forall c :: c in s ==> c < '\U{80}'
  }

  predicate IsHashed(stored: string) {
    StartsWith(stored, PREFIX + "$")
  }

  /** A malformed credential is a refusal; a hash with no key or an unusable iteration count makes the
      derivation raise. */
  function VerifyHashed(kdf: Kdf, plain: string, stored: string): Check {
    var parts := Split(stored, "$");
    if |parts| != 4 then Verdict(false)
    else
      var iterations, salt, expected := ParseInt(parts[1]), FromHex(parts[2]), FromHex(parts[3]);
      if iterations.None? || salt.None? || expected.None? then Verdict(false)
      else if iterations.value < 1 || iterations.value > MOST_ITERATIONS || expected.value == [] then Raised
      else Verdict(kdf(plain, salt.value, iterations.value, |expected.value|) == expected.value)
  }

  /** The legacy comparison refuses text outside ASCII. */
  function VerifyPassword(kdf: Kdf, plain: string, stored: string): Check {
    if IsHashed(stored) then VerifyHashed(kdf, plain, stored)
    else if IsAscii(plain) && IsAscii(stored) then Verdict(plain == stored)
    else Raised
  }

  lemma PrintedParts(salt: seq<Byte>, key: seq<Byte>)
    ensures Split(Printed(salt, key), "$") == [PREFIX, Decimal(ITERATIONS), Hex(salt), Hex(key)]
  {
    hide Find, Split, Hex, Decimal;
    HexRoundTrip(salt);
    HexRoundTrip(key);
    var tail := Hex(salt) + "$" + Hex(key);
    var middle := Decimal(ITERATIONS) + "$" + tail;
    assert Printed(salt, key) == PREFIX + "$" + middle;
    assert '$' !in PREFIX;
    assert '$' !in Decimal(ITERATIONS);
    FirstPiece(PREFIX, middle, '$');
    FirstPiece(Decimal(ITERATIONS), tail, '$');
    FirstPiece(Hex(salt), Hex(key), '$');
    OnlyPiece(Hex(key), '$');
  }

  lemma RoundsArePrinted()
    ensures Decimal(600000) == "600000"
  {
    assert Decimal(6) == "6" && Decimal(60) == "60" && Decimal(600) == "600" && Decimal(6000) == "6000";
    assert Decimal(60000) == "60000";
  }

  /** The storage format: 600,000 rounds and a key of 32 bytes, salt and key in hexadecimal. */
  lemma StorageFormat(kdf: Kdf, salt: seq<Byte>, plain: string)
    requires Lawful(kdf)
    ensures var key := kdf(plain, salt, 600000, 32);
            HashPassword(kdf, salt, plain) == "pbkdf2$600000$" + Hex(salt) + "$" + Hex(key) && |key| == 32
  {
    hide Decimal, Hex;
    RoundsArePrinted();
    assert PREFIX + "$" + "600000" + "$" == "pbkdf2$600000$";
  }

  lemma PrintedIsHashed(salt: seq<Byte>, key: seq<Byte>)
    ensures IsHashed(Printed(salt, key))
  {
    var rest := Decimal(ITERATIONS) + "$" + Hex(salt) + "$" + Hex(key);
    assert Printed(salt, key) == PREFIX + "$" + rest;
    assert (PREFIX + "$" + rest)[..|PREFIX + "$"|] == PREFIX + "$";
  }

  /** A password passes against the hash of another exactly when the two derive the same key; in particular a
      password always passes against its own hash. */
  lemma HashVerifiesIff(kdf: Kdf, salt: seq<Byte>, plain: string, other: string)
    requires Lawful(kdf)
    ensures VerifyPassword(kdf, other, HashPassword(kdf, salt, plain))
         == Verdict(kdf(other, salt, ITERATIONS, KEY_LENGTH) == kdf(plain, salt, ITERATIONS, KEY_LENGTH))
  {
    hide Split, ParseInt, Hex, FromHex, Printed, Decimal, IsHashed;
    var key := kdf(plain, salt, ITERATIONS, KEY_LENGTH);
    PrintedIsHashed(salt, key);
    PrintedParts(salt, key);
    HexRoundTrip(salt);
    HexRoundTrip(key);
    ParseDecimalInt(ITERATIONS);
    assert DecimalInt(ITERATIONS) == Decimal(ITERATIONS);
    assert |key| == KEY_LENGTH;
  }

  /** A credential that is no hash is the password itself; outside ASCII the comparison raises. */
  lemma LegacyVerifiesIff(kdf: Kdf, stored: string, plain: string)
    requires !StartsWith(stored, "pbkdf2$")
    ensures VerifyPassword(kdf, plain, stored) == Verdict(true)
       <==> plain == stored && forall c :: c in stored ==> c < '\U{80}'
    ensures IsAscii(plain) && IsAscii(stored) && plain != stored ==> VerifyPassword(kdf, plain, stored) == Verdict(false)
  {
    assert PREFIX + "$" == "pbkdf2$";
  }

  lemma ThreePieces(parts: seq<string>)
    requires |parts| == 3
    ensures Join(parts, "$") == parts[0] + "$" + parts[1] + "$" + parts[2]
  {
    var rest := parts[1..];
    assert |rest| == 2 && rest[1..] == [parts[2]];
    assert Join(rest[1..], "$") == parts[2];
    assert Join(rest, "$") == parts[1] + "$" + parts[2];
    assert parts[0] + "$" + (parts[1] + "$" + parts[2]) == parts[0] + "$" + parts[1] + "$" + parts[2];
  }

  /** A hash that does not come apart into prefix, number, salt and key is refused. */
  lemma BrokenHashIsRefused(kdf: Kdf, stored: string, plain: string)
    requires StartsWith(stored, "pbkdf2$")
    requires !exists number, salt, key :: '$' !in number && '$' !in salt && '$' !in key
               && stored == "pbkdf2$" + number + "$" + salt + "$" + key
               && ParseInt(number).Some? && FromHex(salt).Some? && FromHex(key).Some?
    ensures VerifyPassword(kdf, plain, stored) == Verdict(false)
  {
    hide ParseInt, FromHex, Find, Split, Join;
    assert PREFIX + "$" == "pbkdf2$" && '$' !in PREFIX;
    var rest := stored[7..];
    assert stored == PREFIX + "$" + rest;
    FirstPiece(PREFIX, rest, '$');
    var parts := Split(rest, "$");
    if |parts| == 3 {
      PiecesHaveNoMark(rest, '$');
      JoinSplit(rest, '$');
      ThreePieces(parts);
      assert stored == "pbkdf2$" + parts[0] + "$" + parts[1] + "$" + parts[2];
    }
  }

  /** One that does is checked by deriving the key again, with its own salt, number of rounds and length; no key, or a
      number out of range, makes the derivation raise. */
  lemma HashIsDerivedAgain(kdf: Kdf, plain: string, number: string, salt: string, key: string)
    requires '$' !in number && '$' !in salt && '$' !in key
    requires ParseInt(number).Some? && FromHex(salt).Some? && FromHex(key).Some?
    ensures var (n, expected) := (ParseInt(number).value, FromHex(key).value);
            VerifyPassword(kdf, plain, "pbkdf2$" + number + "$" + salt + "$" + key)
            == if 1 <= n <= 0x7fff_ffff && expected != []
               then Verdict(kdf(plain, FromHex(salt).value, n, |expected|) == expected) else Raised
  {
    hide ParseInt, FromHex, Find, Split;
    var stored := "pbkdf2$" + number + "$" + salt + "$" + key;
    var tail := salt + "$" + key;
    var middle := number + "$" + tail;
    assert PREFIX + "$" == "pbkdf2$" && '$' !in PREFIX;
    assert stored == PREFIX + "$" + middle && stored[..7] == "pbkdf2$";
    FirstPiece(PREFIX, middle, '$');
    FirstPiece(number, tail, '$');
    FirstPiece(salt, key, '$');
    OnlyPiece(key, '$');
    assert Split(stored, "$") == [PREFIX, number, salt, key];
  }

  /** A printed hash has no blanks, so it survives a line-based file. */
  lemma PrintedIsSolid(salt: seq<Byte>, key: seq<Byte>)
    ensures forall c :: c in Printed(salt, key) ==> !IsBlank(c, TextBlanks)
  {
    hide Hex, Decimal;
    HexRoundTrip(salt);
    HexRoundTrip(key);
    assert forall c :: c in Decimal(ITERATIONS) ==> IsDigit(c);
    assert forall c :: c in PREFIX ==> !IsBlank(c, TextBlanks);
    assert !IsBlank('$', TextBlanks);
  }
}
